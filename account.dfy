/** banking/model/Account.java: an account with its balance, and the one-line
    record `accountNumber,username,balance,type,createdAt` it is stored as.
    Balances are whole cents. */
module AccountModel {
  import opened Wrappers
  import opened JavaText
  import opened Numerals
  import opened Parsing

  datatype AccountType = SAVINGS | CHECKING

  /** The enum constant's name, as `toString` writes it. */
  function TypeName(t: AccountType): string
  {
    match t
    case SAVINGS => "SAVINGS"
    case CHECKING => "CHECKING"
  }

  /** `AccountType.valueOf`: the constant with exactly that name, if any. */
  function TypeOf(s: string): (r: Option<AccountType>)
    ensures r.Some? ==> TypeName(r.value) == s
    ensures r.None? ==> forall t :: TypeName(t) != s
  {
    if s == "SAVINGS" then Some(SAVINGS)
    else if s == "CHECKING" then Some(CHECKING)
    else None
  }

  /** The stored fields of an account. */
  datatype AccountRecord = AccountRecord(
    accountNumber: string, username: string, balance: int, accountType: AccountType, createdAt: nat)

  /** `toString`: number, owner, balance, type and creation time, joined by commas. */
  function Encode(r: AccountRecord): string
  {
    Join([r.accountNumber, r.username, FormatCents(r.balance), TypeName(r.accountType), FormatTimestamp(r.createdAt)])
  }

  /** `fromString`: `null` unless `split(",")` yields five parts; otherwise the
      type literal, then the balance, then the timestamp are parsed, and the
      first that fails raises its exception. */
  function Decode(data: string): (r: ParseResult<AccountRecord>)
    ensures r.NullRecord? <==> |Split(data)| != 5
    ensures |Split(data)| == 5 && TypeOf(Split(data)[3]).None? ==> r == Thrown(IllegalEnumLiteral(Split(data)[3]))
    ensures r.Parsed? ==> r.value.accountNumber == Split(data)[0] && r.value.username == Split(data)[1]
  {
    var parts := Split(data);
    if |parts| != 5 then NullRecord
    else
      match TypeOf(parts[3])
      case None => Thrown(IllegalEnumLiteral(parts[3]))
      case Some(t) =>
        match ParseCents(parts[2])
        case None => Thrown(NumberFormat(parts[2]))
        case Some(balance) =>
          match ParseTimestamp(parts[4])
          case None => Thrown(DateTimeParse(parts[4]))
          case Some(at) => Parsed(AccountRecord(parts[0], parts[1], balance, t, at))
  }

  /** The two free-text fields have no comma. */
  predicate CommaFree(r: AccountRecord)
  {
    ',' !in r.accountNumber && ',' !in r.username
  }

  lemma TypeNameText(t: AccountType)
    ensures TypeOf(TypeName(t)) == Some(t)
    ensures TypeName(t) != "" && forall k :: 0 <= k < |TypeName(t)| ==> 'A' <= TypeName(t)[k] <= 'Z'
  {
  }

  /** `toString` writes the five fields, in order, as the five parts
      `split(",")` reads back. */
  lemma EncodeSplit(r: AccountRecord)
    requires CommaFree(r)
    ensures Split(Encode(r)) ==
      [r.accountNumber, r.username, FormatCents(r.balance), TypeName(r.accountType), FormatTimestamp(r.createdAt)]
  {
    var parts := [r.accountNumber, r.username, FormatCents(r.balance), TypeName(r.accountType), FormatTimestamp(r.createdAt)];
    CentsRoundTrip(r.balance);
    NumeralHasNoComma(FormatCents(r.balance));
    TimestampRoundTrip(r.createdAt);
    NumeralHasNoComma(FormatTimestamp(r.createdAt));
    TypeNameText(r.accountType);
    SplitAllJoin(parts);
    JoinHasComma(parts);
  }

  /** Reading back a written account gives the same account, field for field. */
  lemma RoundTrip(r: AccountRecord)
    requires CommaFree(r)
    ensures Decode(Encode(r)) == Parsed(r)
  {
    EncodeSplit(r);
    TypeNameText(r.accountType);
    CentsRoundTrip(r.balance);
    TimestampRoundTrip(r.createdAt);
  }

  /** An account object: number, owner and type are fixed at construction;
      the balance changes only through `Deposit` and `Withdraw`. */
  class Account {
    const accountNumber: string
    const username: string
    const accountType: AccountType
    var balance: int
    var createdAt: nat

    /** A new account has a zero balance and the current time. */
    constructor (accountNumber: string, username: string, accountType: AccountType, now: nat)
      ensures this.accountNumber == accountNumber && this.username == username
      ensures this.accountType == accountType
      ensures balance == 0 && createdAt == now
    {
      this.accountNumber := accountNumber;
      this.username := username;
      this.accountType := accountType;
      balance := 0;
      createdAt := now;
    }

    /** Adds a positive amount; ignores any other. */
    method Deposit(amount: int)
      modifies this`balance
      ensures balance == if amount > 0 then old(balance) + amount else old(balance)
      ensures old(balance) >= 0 ==> balance >= 0
    {
      if amount > 0 {
        balance := balance + amount;
      }
    }

    /** Takes out a positive amount that the balance covers, and says whether it did. */
    method Withdraw(amount: int) returns (success: bool)
      modifies this`balance
      ensures success <==> 0 < amount <= old(balance)
      ensures balance == if success then old(balance) - amount else old(balance)
      ensures old(balance) >= 0 ==> balance >= 0
    {
      if amount > 0 && amount <= balance {
        balance := balance - amount;
        return true;
      }
      return false;
    }

    function Record(): AccountRecord
      reads this
    {
      AccountRecord(accountNumber, username, balance, accountType, createdAt)
    }

    function ToString(): string
      reads this
    {
      Encode(Record())
    }

    /** `fromString`: builds a fresh account from the number, owner and type
        (the type parsed first), then sets the parsed balance and creation time. */
    static method FromString(data: string, now: nat) returns (r: ParseResult<Account>)
      ensures r.NullRecord? <==> Decode(data).NullRecord?
      ensures r.Thrown? <==> Decode(data).Thrown?
      ensures r.Thrown? ==> r.error == Decode(data).error
      ensures r.Parsed? ==> fresh(r.value) && r.value.Record() == Decode(data).value
    {
      var parts := Split(data);
      if |parts| != 5 {
        return NullRecord;
      }
      var t := TypeOf(parts[3]);
      if t.None? {
        return Thrown(IllegalEnumLiteral(parts[3]));
      }
      var account := new Account(parts[0], parts[1], t.value, now);
      var balance := ParseCents(parts[2]);
      if balance.None? {
        return Thrown(NumberFormat(parts[2]));
      }
      account.balance := balance.value;
      var at := ParseTimestamp(parts[4]);
      if at.None? {
        return Thrown(DateTimeParse(parts[4]));
      }
      account.createdAt := at.value;
      return Parsed(account);
    }
  }

  /** The records of a list of accounts, in list order. */
  function Records(accounts: seq<Account>): (rs: seq<AccountRecord>)
    reads accounts
    ensures |rs| == |accounts|
    ensures forall k {:trigger rs[k]} :: 0 <= k < |accounts| ==> rs[k] == accounts[k].Record()
  {
    seq(|accounts|, k requires 0 <= k < |accounts| reads accounts => accounts[k].Record())
  }

  /** The records of a list are fixed by its elements' records. */
  lemma RecordsAre(accounts: seq<Account>, rs: seq<AccountRecord>)
    requires |rs| == |accounts| && forall k :: 0 <= k < |accounts| ==> accounts[k].Record() == rs[k]
    ensures Records(accounts) == rs
  {
  }
}
