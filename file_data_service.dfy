/** banking/service/FileDataService.java: the record store. Each of the three
    files (users, accounts, transactions) is its sequence of lines, or `None`
    when it does not exist. Loading reads the lines in order, skips blank ones,
    sanitises the rest and parses them, keeping what parses and dropping
    `null`s; saving replaces the file with one `toString` line per element. */
module FileData {
  import opened Wrappers
  import opened Seqs
  import opened JavaText
  import opened Parsing
  import opened InputValidator
  import Numerals
  import UserModel
  import AccountModel
  import TransactionModel

  /** What a load produces: the records in file order, or the parser's
      exception, which the loaders do not catch. */
  datatype LoadResult<+T> = Loaded(records: seq<T>) | LoadThrew(error: ParseError)

  /** The text the loaders hand to `fromString`: the line after `sanitizeInput`. */
  function Cleaned(line: string): string
  {
    SanitizeInput(Some(line)).value
  }

  /** One turn of the read loop, after the records `rs` of the earlier lines. */
  function LoadStep<T>(rs: seq<T>, line: string, parse: string -> ParseResult<T>): (r: LoadResult<T>)
    ensures IsBlank(line) ==> r == Loaded(rs)
    ensures r.LoadThrew? <==> !IsBlank(line) && parse(Cleaned(line)).Thrown?
  {
    if IsBlank(line) then Loaded(rs)
    else
      match parse(Cleaned(line))
      case Parsed(x) => Loaded(rs + [x])
      case NullRecord => Loaded(rs)
      case Thrown(e) => LoadThrew(e)
  }

  /** The read loop over the lines of an existing file. */
  function LoadLines<T>(lines: seq<string>, parse: string -> ParseResult<T>): (r: LoadResult<T>)
  {
    if lines == [] then Loaded([])
    else Continue(LoadLines(lines[..|lines| - 1], parse), lines[|lines| - 1], parse)
  }

  /** The read loop goes on to `line` only when no exception was raised before. */
  function Continue<T>(sofar: LoadResult<T>, line: string, parse: string -> ParseResult<T>): LoadResult<T>
  {
    match sofar
    case LoadThrew(_) => sofar
    case Loaded(rs) => LoadStep(rs, line, parse)
  }

  /** A missing file loads as the empty list. */
  function LoadFile<T>(file: Option<seq<string>>, parse: string -> ParseResult<T>): (r: LoadResult<T>)
    ensures file.None? ==> r == Loaded([])
  {
    match file
    case None => Loaded([])
    case Some(lines) => LoadLines(lines, parse)
  }

  /** The load of two consecutive stretches of a file: the first exception
      wins, otherwise the records of the first stretch come first. */
  function Then<T>(a: LoadResult<T>, b: LoadResult<T>): LoadResult<T>
  {
    match a
    case LoadThrew(_) => a
    case Loaded(ra) =>
      match b
      case LoadThrew(_) => b
      case Loaded(rb) => Loaded(ra + rb)
  }

  lemma ThenContinue<T>(x: LoadResult<T>, y: LoadResult<T>, line: string, parse: string -> ParseResult<T>)
    ensures Then(x, Continue(y, line, parse)) == Continue(Then(x, y), line, parse)
  {
    if x.Loaded? && y.Loaded? && !IsBlank(line) && parse(Cleaned(line)).Parsed? {
      var v := parse(Cleaned(line)).value;
      assert x.records + y.records + [v] == x.records + (y.records + [v]);
    }
  }

  /** Loading keeps file order: the load of `a + b` is the load of `a`
      followed by the load of `b`. */
  lemma {:induction false} LoadAppend<T>(a: seq<string>, b: seq<string>, parse: string -> ParseResult<T>)
    ensures LoadLines(a + b, parse) == Then(LoadLines(a, parse), LoadLines(b, parse))
    decreases |b|
  {
    if b == [] {
      assert a + b == a;
      if LoadLines(a, parse).Loaded? {
        assert LoadLines(a, parse).records + [] == LoadLines(a, parse).records;
      }
    } else {
      var b' := b[..|b| - 1];
      var line := b[|b| - 1];
      assert (a + b)[..|a + b| - 1] == a + b';
      assert (a + b)[|a + b| - 1] == line;
      LoadAppend(a, b', parse);
      ThenContinue(LoadLines(a, parse), LoadLines(b', parse), line, parse);
    }
  }

  /** The read loop's step: one more line continues the load of the lines before it. */
  lemma LoadNext<T>(lines: seq<string>, i: nat, parse: string -> ParseResult<T>)
    requires i < |lines|
    ensures LoadLines(lines[..i + 1], parse) == Continue(LoadLines(lines[..i], parse), lines[i], parse)
  {
    assert lines[..i + 1][..i] == lines[..i];
  }

  /** A load yields at most one record per line. */
  lemma {:induction false} LoadAtMostOnePerLine<T>(lines: seq<string>, parse: string -> ParseResult<T>)
    ensures LoadLines(lines, parse).Loaded? ==> |LoadLines(lines, parse).records| <= |lines|
  {
    if lines != [] {
      LoadAtMostOnePerLine(lines[..|lines| - 1], parse);
    }
  }

  /** A file of blank lines loads as the empty list. */
  lemma {:induction false} LoadAllBlank<T>(lines: seq<string>, parse: string -> ParseResult<T>)
    requires forall k :: 0 <= k < |lines| ==> IsBlank(lines[k])
    ensures LoadLines(lines, parse) == Loaded([])
  {
    if lines != [] {
      var n := |lines| - 1;
      assert forall k :: 0 <= k < n ==> lines[..n][k] == lines[k];
      LoadAllBlank(lines[..n], parse);
      assert IsBlank(lines[n]);
    }
  }

  /** What a single line contributes: nothing when blank; otherwise its
      sanitised text is parsed, a record is kept, `null` is dropped and an
      exception aborts the load. */
  lemma LoadOneLine<T>(line: string, parse: string -> ParseResult<T>)
    ensures IsBlank(line) ==> LoadLines([line], parse) == Loaded([])
    ensures !IsBlank(line) ==>
      LoadLines([line], parse) ==
        match parse(Strip(line))
        case Parsed(x) => Loaded([x])
        case NullRecord => Loaded([])
        case Thrown(e) => LoadThrew(e)
  {
    assert [line][..0] == [];
  }

  /** A blank line anywhere in a file changes nothing. */
  lemma LoadSkipsBlank<T>(a: seq<string>, line: string, b: seq<string>, parse: string -> ParseResult<T>)
    requires IsBlank(line)
    ensures LoadLines(a + [line] + b, parse) == LoadLines(a + b, parse)
  {
    LoadAppend(a + [line], b, parse);
    LoadAppend(a, [line], parse);
    LoadAppend(a, b, parse);
    LoadOneLine(line, parse);
    if LoadLines(a, parse).Loaded? {
      assert LoadLines(a, parse).records + [] == LoadLines(a, parse).records;
    }
  }

  /** Once a line raises, the rest of the file is never looked at. */
  lemma LoadStopsAtException<T>(lines: seq<string>, i: nat, parse: string -> ParseResult<T>)
    requires i <= |lines| && LoadLines(lines[..i], parse).LoadThrew?
    ensures LoadLines(lines, parse) == LoadLines(lines[..i], parse)
  {
    assert lines == lines[..i] + lines[i..];
    LoadAppend(lines[..i], lines[i..], parse);
  }

  lemma ContinueSanitized<T>(x: LoadResult<T>, l1: string, l2: string, parse: string -> ParseResult<T>)
    requires IsBlank(l1) == IsBlank(l2) && Strip(l1) == Strip(l2)
    ensures Continue(x, l1, parse) == Continue(x, l2, parse)
  {
    assert Cleaned(l1) == Cleaned(l2);
  }

  /** The parser sees only sanitised text: two files whose lines agree in
      blankness and in their sanitised form load alike. */
  lemma {:induction false} LoadSeesSanitizedText<T>(a: seq<string>, b: seq<string>, parse: string -> ParseResult<T>)
    requires |a| == |b|
    requires forall k :: 0 <= k < |a| ==> IsBlank(a[k]) == IsBlank(b[k]) && Strip(a[k]) == Strip(b[k])
    ensures LoadLines(a, parse) == LoadLines(b, parse)
  {
    if a != [] {
      var n := |a| - 1;
      assert forall k :: 0 <= k < n ==> a[..n][k] == a[k] && b[..n][k] == b[k];
      LoadSeesSanitizedText(a[..n], b[..n], parse);
      assert LoadLines(a, parse) == Continue(LoadLines(a[..n], parse), a[n], parse);
      assert LoadLines(b, parse) == Continue(LoadLines(b[..n], parse), b[n], parse);
      ContinueSanitized(LoadLines(a[..n], parse), a[n], b[n], parse);
    }
  }

  /** A text that contains a comma is never blank. */
  lemma CommaLineNotBlank(s: string)
    requires ',' in s
    ensures !IsBlank(s)
  {
  }

  /** Loading what was saved: when every written line is non-blank, clean and
      parses to the k-th expected record, the load gives exactly those records. */
  lemma {:induction false} LoadAfterSave<R, T>(rs: seq<R>, encode: R -> string, parse: string -> ParseResult<T>, out: seq<T>)
    requires |out| == |rs|
    requires forall k :: 0 <= k < |rs| ==>
      !IsBlank(encode(rs[k])) && IsClean(encode(rs[k])) && parse(encode(rs[k])) == Parsed(out[k])
    ensures LoadLines(Map(rs, encode), parse) == Loaded(out)
  {
    if rs != [] {
      var n := |rs| - 1;
      var lines := Map(rs, encode);
      assert lines[..n] == Map(rs[..n], encode);
      LoadAfterSave(rs[..n], encode, parse, out[..n]);
      StripKeepsClean(encode(rs[n]));
      assert out[..n] + [out[n]] == out;
    }
  }

  /** A user whose text fields have no comma and none of the sanitised characters. */
  predicate StorableUser(r: UserModel.UserRecord)
  {
    UserModel.CommaFree(r) && IsClean(r.username) && IsClean(r.passwordHash) && IsClean(r.salt)
  }

  lemma FlagIsClean(b: bool)
    ensures IsClean(BooleanToString(b))
  {
  }

  /** The line saved for a storable user is non-blank, clean and parses back to it. */
  lemma UserLine(r: UserModel.UserRecord)
    requires StorableUser(r)
    ensures !IsBlank(UserModel.Encode(r)) && IsClean(UserModel.Encode(r))
    ensures UserModel.Decode(UserModel.Encode(r)) == Parsed(r)
  {
    var flag := BooleanToString(r.isActive);
    var parts := [r.username, r.passwordHash, r.salt, flag];
    assert UserModel.Encode(r) == Join(parts);
    JoinHasComma(parts);
    CommaLineNotBlank(Join(parts));
    FlagIsClean(r.isActive);
    JoinIsClean(parts);
    UserModel.RoundTrip(r);
  }

  /** Users saved and loaded again come back unchanged and in order. */
  lemma UsersRoundTrip(rs: seq<UserModel.UserRecord>)
    requires forall k :: 0 <= k < |rs| ==> StorableUser(rs[k])
    ensures LoadLines(Map(rs, UserModel.Encode), UserModel.Decode) == Loaded(rs)
  {
    forall k | 0 <= k < |rs|
      ensures !IsBlank(UserModel.Encode(rs[k])) && IsClean(UserModel.Encode(rs[k]))
      ensures UserModel.Decode(UserModel.Encode(rs[k])) == Parsed(rs[k])
    {
      UserLine(rs[k]);
    }
    LoadAfterSave(rs, UserModel.Encode, UserModel.Decode, rs);
  }

  /** An account whose number and owner have no comma and none of the sanitised characters. */
  predicate StorableAccount(r: AccountModel.AccountRecord)
  {
    AccountModel.CommaFree(r) && IsClean(r.accountNumber) && IsClean(r.username)
  }

  lemma UpperIsClean(s: string)
    requires forall k :: 0 <= k < |s| ==> 'A' <= s[k] <= 'Z'
    ensures IsClean(s)
  {
  }

  /** Each field of a storable account's line is clean. */
  lemma AccountFieldsClean(r: AccountModel.AccountRecord, parts: seq<string>)
    requires StorableAccount(r)
    requires parts == [r.accountNumber, r.username, Numerals.FormatCents(r.balance),
                       AccountModel.TypeName(r.accountType), Numerals.FormatTimestamp(r.createdAt)]
    ensures forall k :: 0 <= k < |parts| ==> IsClean(parts[k])
  {
    FormattedCentsIsClean(r.balance);
    FormattedTimestampIsClean(r.createdAt);
    AccountModel.TypeNameText(r.accountType);
    UpperIsClean(AccountModel.TypeName(r.accountType));
  }

  /** The line saved for a storable account is non-blank, clean and parses back to it. */
  lemma AccountLine(r: AccountModel.AccountRecord)
    requires StorableAccount(r)
    ensures !IsBlank(AccountModel.Encode(r)) && IsClean(AccountModel.Encode(r))
    ensures AccountModel.Decode(AccountModel.Encode(r)) == Parsed(r)
  {
    var parts := [r.accountNumber, r.username, Numerals.FormatCents(r.balance),
                  AccountModel.TypeName(r.accountType), Numerals.FormatTimestamp(r.createdAt)];
    assert AccountModel.Encode(r) == Join(parts);
    JoinHasComma(parts);
    CommaLineNotBlank(Join(parts));
    AccountFieldsClean(r, parts);
    JoinIsClean(parts);
    AccountModel.RoundTrip(r);
  }

  /** Accounts saved and loaded again come back unchanged and in order. */
  lemma AccountsRoundTrip(rs: seq<AccountModel.AccountRecord>)
    requires forall k :: 0 <= k < |rs| ==> StorableAccount(rs[k])
    ensures LoadLines(Map(rs, AccountModel.Encode), AccountModel.Decode) == Loaded(rs)
  {
    forall k | 0 <= k < |rs|
      ensures !IsBlank(AccountModel.Encode(rs[k])) && IsClean(AccountModel.Encode(rs[k]))
      ensures AccountModel.Decode(AccountModel.Encode(rs[k])) == Parsed(rs[k])
    {
      AccountLine(rs[k]);
    }
    LoadAfterSave(rs, AccountModel.Encode, AccountModel.Decode, rs);
  }

  /** Transactions as a load at clock reading `now` returns them: restamped. */
  function Restamped(ts: seq<TransactionModel.Transaction>, now: nat): (r: seq<TransactionModel.Transaction>)
    ensures |r| == |ts|
    ensures forall k :: 0 <= k < |ts| ==> r[k] == ts[k].(timestamp := now)
  {
    if ts == [] then [] else Restamped(ts[..|ts| - 1], now) + [ts[|ts| - 1].(timestamp := now)]
  }

  /** A transaction whose id and account number have no comma, and whose
      text fields have none of the sanitised characters. */
  predicate StorableTransaction(t: TransactionModel.Transaction)
  {
    TransactionModel.CommaFree(t) && IsClean(t.transactionId) && IsClean(t.accountNumber) && IsClean(t.description)
  }

  /** Each field of a storable transaction's line is clean. */
  lemma TransactionFieldsClean(t: TransactionModel.Transaction, parts: seq<string>)
    requires StorableTransaction(t)
    requires parts == [t.transactionId, t.accountNumber, TransactionModel.TypeName(t.txType),
                       Numerals.FormatCents(t.amount), Numerals.FormatTimestamp(t.timestamp), t.description]
    ensures forall k :: 0 <= k < |parts| ==> IsClean(parts[k])
  {
    FormattedCentsIsClean(t.amount);
    FormattedTimestampIsClean(t.timestamp);
    TransactionModel.TypeNameText(t.txType);
    UpperIsClean(TransactionModel.TypeName(t.txType));
  }

  /** The line saved for a storable transaction is non-blank, clean and
      parses back to it, restamped with the loading time. */
  lemma TransactionLine(t: TransactionModel.Transaction, now: nat)
    requires StorableTransaction(t)
    ensures !IsBlank(TransactionModel.Encode(t)) && IsClean(TransactionModel.Encode(t))
    ensures TransactionModel.Parser(now)(TransactionModel.Encode(t)) == Parsed(t.(timestamp := now))
  {
    var parts := [t.transactionId, t.accountNumber, TransactionModel.TypeName(t.txType),
                  Numerals.FormatCents(t.amount), Numerals.FormatTimestamp(t.timestamp), t.description];
    assert TransactionModel.Encode(t) == Join(parts);
    JoinHasComma(parts);
    CommaLineNotBlank(Join(parts));
    TransactionFieldsClean(t, parts);
    JoinIsClean(parts);
    TransactionModel.RoundTrip(t, now);
  }

  /** Transactions saved and loaded again come back in order with every field
      but the timestamp unchanged; each carries the loading time instead. */
  lemma TransactionsRoundTrip(ts: seq<TransactionModel.Transaction>, now: nat)
    requires forall k :: 0 <= k < |ts| ==> StorableTransaction(ts[k])
    ensures LoadLines(Map(ts, TransactionModel.Encode), TransactionModel.Parser(now)) == Loaded(Restamped(ts, now))
  {
    var out := Restamped(ts, now);
    forall k | 0 <= k < |ts|
      ensures !IsBlank(TransactionModel.Encode(ts[k])) && IsClean(TransactionModel.Encode(ts[k]))
      ensures TransactionModel.Parser(now)(TransactionModel.Encode(ts[k])) == Parsed(out[k])
    {
      TransactionLine(ts[k], now);
    }
    LoadAfterSave(ts, TransactionModel.Encode, TransactionModel.Parser(now), out);
  }

  /** The three data files, each `None` until it is first written. */
  class FileDataService {
    var usersFile: Option<seq<string>>
    var accountsFile: Option<seq<string>>
    var transactionsFile: Option<seq<string>>

    constructor (usersFile: Option<seq<string>>, accountsFile: Option<seq<string>>,
                 transactionsFile: Option<seq<string>>)
      ensures this.usersFile == usersFile && this.accountsFile == accountsFile
      ensures this.transactionsFile == transactionsFile
    {
      this.usersFile := usersFile;
      this.accountsFile := accountsFile;
      this.transactionsFile := transactionsFile;
    }

    /** `loadUsers`: fresh user objects for the records the users file loads to
        (user lines never raise). */
    method LoadUsers() returns (users: seq<UserModel.User>)
      ensures LoadFile(usersFile, UserModel.Decode) == Loaded(UserModel.Records(users))
      ensures forall k :: 0 <= k < |users| ==> fresh(users[k])
    {
      users := [];
      if usersFile.None? {
        return;
      }
      var lines := usersFile.value;
      var i := 0;
      ghost var recs: seq<UserModel.UserRecord> := [];
      while i < |lines|
        invariant 0 <= i <= |lines|
        invariant LoadLines(lines[..i], UserModel.Decode) == Loaded(recs)
        invariant |recs| == |users|
        invariant forall k :: 0 <= k < |users| ==> fresh(users[k]) && users[k].Record() == recs[k]
      {
        var line := lines[i];
        LoadNext(lines, i, UserModel.Decode);
        if !IsBlank(line) {
          var user := UserModel.User.FromString(SanitizeInput(Some(line)).value);
          if user != null {
            users := users + [user];
            recs := recs + [user.Record()];
          }
        }
        i := i + 1;
      }
      assert lines[..i] == lines;
      UserModel.RecordsAre(users, recs);
    }

    /** `saveUsers`: the users file becomes one line per user, in list order. */
    method SaveUsers(users: seq<UserModel.User>)
      modifies this`usersFile
      ensures usersFile == Some(Map(UserModel.Records(users), UserModel.Encode))
    {
      var lines: seq<string> := [];
      for i := 0 to |users|
        invariant |lines| == i
        invariant forall k :: 0 <= k < i ==> lines[k] == UserModel.Encode(users[k].Record())
      {
        lines := lines + [users[i].ToString()];
      }
      assert lines == Map(UserModel.Records(users), UserModel.Encode);
      usersFile := Some(lines);
    }

    /** `loadAccounts`: fresh, distinct account objects for the records the
        accounts file loads to, or the exception a line raised. */
    method LoadAccounts(now: nat) returns (r: Result<seq<AccountModel.Account>, ParseError>)
      ensures LoadFile(accountsFile, AccountModel.Decode).LoadThrew? ==>
        r == Failure(LoadFile(accountsFile, AccountModel.Decode).error)
      ensures LoadFile(accountsFile, AccountModel.Decode).Loaded? ==>
        r.Success? && AccountModel.Records(r.value) == LoadFile(accountsFile, AccountModel.Decode).records
      ensures r.Success? ==> forall k :: 0 <= k < |r.value| ==> fresh(r.value[k])
      ensures r.Success? ==> forall j, k :: 0 <= j < k < |r.value| ==> r.value[j] != r.value[k]
    {
      var accounts: seq<AccountModel.Account> := [];
      if accountsFile.None? {
        return Success(accounts);
      }
      var lines := accountsFile.value;
      var i := 0;
      ghost var recs: seq<AccountModel.AccountRecord> := [];
      while i < |lines|
        invariant 0 <= i <= |lines|
        invariant LoadLines(lines[..i], AccountModel.Decode) == Loaded(recs)
        invariant |recs| == |accounts|
        invariant forall k :: 0 <= k < |accounts| ==> fresh(accounts[k]) && accounts[k].Record() == recs[k]
        invariant forall j, k :: 0 <= j < k < |accounts| ==> accounts[j] != accounts[k]
      {
        var line := lines[i];
        LoadNext(lines, i, AccountModel.Decode);
        if !IsBlank(line) {
          var account := AccountModel.Account.FromString(SanitizeInput(Some(line)).value, now);
          match account
          case Parsed(a) =>
            accounts := accounts + [a];
            recs := recs + [a.Record()];
          case NullRecord =>
          case Thrown(e) =>
            LoadStopsAtException(lines, i + 1, AccountModel.Decode);
            return Failure(e);
        }
        i := i + 1;
      }
      assert lines[..i] == lines;
      AccountModel.RecordsAre(accounts, recs);
      return Success(accounts);
    }

    /** `saveAccounts`: the accounts file becomes one line per account, in list order. */
    method SaveAccounts(accounts: seq<AccountModel.Account>)
      modifies this`accountsFile
      ensures accountsFile == Some(Map(AccountModel.Records(accounts), AccountModel.Encode))
    {
      var lines: seq<string> := [];
      for i := 0 to |accounts|
        invariant |lines| == i
        invariant forall k :: 0 <= k < i ==> lines[k] == AccountModel.Encode(accounts[k].Record())
      {
        lines := lines + [accounts[i].ToString()];
      }
      assert lines == Map(AccountModel.Records(accounts), AccountModel.Encode);
      accountsFile := Some(lines);
    }

    /** `loadTransactions`: what the transactions file loads to, with every
        transaction stamped `now`. */
    method LoadTransactions(now: nat) returns (r: LoadResult<TransactionModel.Transaction>)
      ensures r == LoadFile(transactionsFile, TransactionModel.Parser(now))
    {
      var transactions: seq<TransactionModel.Transaction> := [];
      if transactionsFile.None? {
        return Loaded(transactions);
      }
      var lines := transactionsFile.value;
      var i := 0;
      while i < |lines|
        invariant 0 <= i <= |lines|
        invariant LoadLines(lines[..i], TransactionModel.Parser(now)) == Loaded(transactions)
      {
        var line := lines[i];
        LoadNext(lines, i, TransactionModel.Parser(now));
        if !IsBlank(line) {
          match TransactionModel.Decode(SanitizeInput(Some(line)).value, now)
          case Parsed(t) =>
            transactions := transactions + [t];
          case NullRecord =>
          case Thrown(e) =>
            LoadStopsAtException(lines, i + 1, TransactionModel.Parser(now));
            return LoadThrew(e);
        }
        i := i + 1;
      }
      assert lines[..i] == lines;
      return Loaded(transactions);
    }

    /** `saveTransactions`: the transactions file becomes one line per
        transaction, in list order. */
    method SaveTransactions(transactions: seq<TransactionModel.Transaction>)
      modifies this`transactionsFile
      ensures transactionsFile == Some(Map(transactions, TransactionModel.Encode))
    {
      var lines: seq<string> := [];
      for i := 0 to |transactions|
        invariant lines == Map(transactions[..i], TransactionModel.Encode)
      {
        assert transactions[..i + 1][..i] == transactions[..i];
        lines := lines + [TransactionModel.Encode(transactions[i])];
      }
      assert transactions[..|transactions|] == transactions;
      transactionsFile := Some(lines);
    }
  }
}
