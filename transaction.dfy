/** banking/model/Transaction.java: an immutable audit record of one deposit
    or withdrawal, stored as `transactionId,accountNumber,type,amount,timestamp,description`. */
module TransactionModel {
  import opened Wrappers
  import opened JavaText
  import opened Numerals
  import opened Parsing

  datatype TransactionType = DEPOSIT | WITHDRAWAL

  function TypeName(t: TransactionType): string
  {
    match t
    case DEPOSIT => "DEPOSIT"
    case WITHDRAWAL => "WITHDRAWAL"
  }

  /** `TransactionType.valueOf`: the constant with exactly that name, if any. */
  function TypeOf(s: string): (r: Option<TransactionType>)
    ensures r.Some? ==> TypeName(r.value) == s
    ensures r.None? ==> forall t :: TypeName(t) != s
  {
    if s == "DEPOSIT" then Some(DEPOSIT)
    else if s == "WITHDRAWAL" then Some(WITHDRAWAL)
    else None
  }

  /** A transaction; the constructor stamps it with the current time. Amounts are cents. */
  datatype Transaction = Transaction(
    transactionId: string, accountNumber: string, txType: TransactionType,
    amount: int, timestamp: nat, description: string)

  /** `toString`: the six fields joined by commas, the description last. */
  function Encode(t: Transaction): string
  {
    Join([t.transactionId, t.accountNumber, TypeName(t.txType), FormatCents(t.amount),
          FormatTimestamp(t.timestamp), t.description])
  }

  /** `fromString`: `split(",", 6)` keeps every comma after the fifth in the
      description; fewer than six parts give `null`. */
  function Decode(data: string, now: nat): (r: ParseResult<Transaction>)
    ensures r.NullRecord? <==> Count(data, ',') < 5
    ensures r.Parsed? ==> r.value.timestamp == now
    ensures r.Parsed? ==> |SplitLimit(data, 6)| == 6 && r.value.description == SplitLimit(data, 6)[5]
    ensures |SplitLimit(data, 6)| == 6 && TypeOf(SplitLimit(data, 6)[2]).None? ==>
              r == Thrown(IllegalEnumLiteral(SplitLimit(data, 6)[2]))
  {
    var parts := SplitLimit(data, 6);
    SplitLimitLength(data, 6);
    if |parts| == 6 then FromParts(parts, now) else NullRecord
  }

  /** The constructor call of `fromString` on six parts: the type literal is
      parsed before the amount, the stored timestamp (part 4) is never read,
      and the constructor stamps the record with `now`. */
  function FromParts(parts: seq<string>, now: nat): (r: ParseResult<Transaction>)
    requires |parts| == 6
    ensures !r.NullRecord?
  {
    match TypeOf(parts[2])
    case None => Thrown(IllegalEnumLiteral(parts[2]))
    case Some(t) =>
      match ParseCents(parts[3])
      case None => Thrown(NumberFormat(parts[3]))
      case Some(amount) => Parsed(Transaction(parts[0], parts[1], t, amount, now, parts[5]))
  }

  /** The parser the transactions loader applies to each line, at clock reading `now`. */
  function Parser(now: nat): string -> ParseResult<Transaction>
  {
    data => Decode(data, now)
  }

  /** The id and the account number have no comma; the description may. */
  predicate CommaFree(t: Transaction)
  {
    ',' !in t.transactionId && ',' !in t.accountNumber
  }

  lemma TypeNameText(t: TransactionType)
    ensures TypeOf(TypeName(t)) == Some(t)
    ensures TypeName(t) != "" && forall k :: 0 <= k < |TypeName(t)| ==> 'A' <= TypeName(t)[k] <= 'Z'
  {
  }

  /** `toString` writes the six fields in order, and the limited split reads
      them back, the description whole whatever commas it holds. */
  lemma EncodeSplit(t: Transaction)
    requires CommaFree(t)
    ensures SplitLimit(Encode(t), 6) ==
      [t.transactionId, t.accountNumber, TypeName(t.txType), FormatCents(t.amount),
       FormatTimestamp(t.timestamp), t.description]
  {
    var parts := [t.transactionId, t.accountNumber, TypeName(t.txType), FormatCents(t.amount),
                  FormatTimestamp(t.timestamp), t.description];
    CentsRoundTrip(t.amount);
    NumeralHasNoComma(FormatCents(t.amount));
    TimestampRoundTrip(t.timestamp);
    NumeralHasNoComma(FormatTimestamp(t.timestamp));
    TypeNameText(t.txType);
    assert AllCommaFree(parts[..5]);
    SplitLimitJoin(parts);
  }

  /** Reading back a written transaction keeps id, account number, type,
      amount and description; the timestamp becomes the reading time. */
  lemma RoundTrip(t: Transaction, now: nat)
    requires CommaFree(t)
    ensures Decode(Encode(t), now) == Parsed(t.(timestamp := now))
  {
    EncodeSplit(t);
    SplitLimitLength(Encode(t), 6);
    TypeNameText(t.txType);
    CentsRoundTrip(t.amount);
  }

  /** The stored timestamp field plays no part: two lines whose other five
      parts agree parse alike, even when one timestamp is not a timestamp. */
  lemma StoredTimestampIgnored(a: string, b: string, now: nat)
    requires |SplitLimit(a, 6)| == 6 && |SplitLimit(b, 6)| == 6
    requires forall k :: 0 <= k < 6 && k != 4 ==> SplitLimit(a, 6)[k] == SplitLimit(b, 6)[k]
    ensures Decode(a, now) == Decode(b, now)
  {
    var pa, pb := SplitLimit(a, 6), SplitLimit(b, 6);
    assert Decode(a, now) == FromParts(pa, now);
    assert Decode(b, now) == FromParts(pb, now);
    FromPartsIgnoresTimestamp(pa, pb, now);
  }

  lemma FromPartsIgnoresTimestamp(pa: seq<string>, pb: seq<string>, now: nat)
    requires |pa| == 6 && |pb| == 6
    requires forall k :: 0 <= k < 6 && k != 4 ==> pa[k] == pb[k]
    ensures FromParts(pa, now) == FromParts(pb, now)
  {
    assert pa[0] == pb[0] && pa[1] == pb[1] && pa[2] == pb[2] && pa[3] == pb[3] && pa[5] == pb[5];
  }

  /** Six comma-joined parts, the first five comma-free, are read as those six parts. */
  lemma DecodeJoin(parts: seq<string>, now: nat)
    requires |parts| == 6 && AllCommaFree(parts[..5])
    ensures Decode(Join(parts), now) == FromParts(parts, now)
  {
    SplitLimitJoin(parts);
  }

  lemma FiftyParses()
    ensures ParseCents("50.0") == Some(5000)
  {
    assert "50.0" == NatToString(50) + "." + ['0'];
    OneFractionDigit(50, '0');
  }

  /** A description containing commas is kept verbatim, whatever id, account
      number and stored timestamp text the line has: the line
      `TXN1,ACC100001,DEPOSIT,50.0,2024-01-01T00:00,rent, jan` reads as a
      deposit of 5,000 cents described as `rent, jan`. */
  lemma DescriptionWithCommas(id: string, accountNumber: string, stamp: string, now: nat)
    requires ',' !in id && ',' !in accountNumber && ',' !in stamp
    ensures Decode(Join([id, accountNumber, "DEPOSIT", "50.0", stamp, "rent, jan"]), now)
         == Parsed(Transaction(id, accountNumber, DEPOSIT, 5000, now, "rent, jan"))
  {
    var parts := [id, accountNumber, "DEPOSIT", "50.0", stamp, "rent, jan"];
    assert AllCommaFree(parts[..5]);
    DecodeJoin(parts, now);
    FiftyParses();
  }
}
