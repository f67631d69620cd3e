/** banking/service/BankingService.java: the ledger. Its state is the ordered
    lists of users, accounts and transactions and the session's current user;
    every successful change is written back through the record store. The
    password hash, the salt generator, the random account-number draw and the
    clocks are parameters. */
module Banking {
  import opened Wrappers
  import opened Seqs
  import opened Numerals
  import opened InputValidator
  import opened Parsing
  import UserModel
  import AccountModel
  import TransactionModel
  import FileData

  /** `createAccount` without a session throws `IllegalStateException`. */
  datatype ServiceError = NotLoggedIn

  /** `generateAccountNumber`: "ACC" and the decimal digits of `draw + 100000`,
      where `draw` is the value of `new Random().nextInt(900000)`. */
  function GenerateAccountNumber(draw: nat): (n: string)
    requires draw < 900000
    ensures IsValidAccountNumber(Some(n))
    ensures n[..3] == "ACC" && DigitsValue(n[3..]) == draw + 100000
  {
    var digits := NatToString(draw + 100000);
    SixDigits(draw + 100000);
    NatToStringValue(draw + 100000);
    assert ("ACC" + digits)[3..] == digits;
    "ACC" + digits
  }

  /** `"TXN" + System.currentTimeMillis()`: the prefix, then the clock
      reading in decimal; the id has no comma and nothing the sanitiser
      removes, so it can be stored. */
  function TransactionId(millis: nat): (id: string)
    ensures |id| > 3 && id[..3] == "TXN" && AllDigits(id[3..]) && DigitsValue(id[3..]) == millis
    ensures ',' !in id && IsClean(id)
  {
    var digits := NatToString(millis);
    NatToStringValue(millis);
    assert ("TXN" + digits)[3..] == digits;
    "TXN" + digits
  }

  /** The filter of `getAccount`: this number, owned by this user. */
  predicate Owns(a: AccountModel.Account, accountNumber: string, owner: string)
  {
    a.accountNumber == accountNumber && a.username == owner
  }

  /** `findFirst` over the accounts that `owner` holds under `accountNumber`:
      the position of the first one, if any. */
  function FindOwned(accounts: seq<AccountModel.Account>, accountNumber: string, owner: string): (r: Option<nat>)
    ensures r.Some? ==> r.value < |accounts| && Owns(accounts[r.value], accountNumber, owner)
    ensures r.Some? ==> forall j :: 0 <= j < r.value ==> !Owns(accounts[j], accountNumber, owner)
    ensures r.None? ==> forall j :: 0 <= j < |accounts| ==> !Owns(accounts[j], accountNumber, owner)
  {
    if accounts == [] then None
    else if Owns(accounts[0], accountNumber, owner) then Some(0)
    else
      match FindOwned(accounts[1..], accountNumber, owner)
      case None => None
      case Some(i) => Some(i + 1)
  }

  /** `anyMatch` of the registration check: some user, active or not, has this name. */
  predicate NameTaken(users: seq<UserModel.User>, username: string)
  {
    exists k :: 0 <= k < |users| && users[k].username == username
  }

  /** `findFirst` of `login`: the position of the first active user with this name. */
  function FirstActive(users: seq<UserModel.User>, username: string): (r: Option<nat>)
    reads users
    ensures r.Some? ==> r.value < |users| && users[r.value].username == username && users[r.value].isActive
    ensures r.Some? ==> forall j :: 0 <= j < r.value ==> !(users[j].username == username && users[j].isActive)
    ensures r.None? ==> forall j :: 0 <= j < |users| ==> !(users[j].username == username && users[j].isActive)
  {
    if users == [] then None
    else if users[0].username == username && users[0].isActive then Some(0)
    else
      match FirstActive(users[1..], username)
      case None => None
      case Some(i) => Some(i + 1)
  }

  /** The accounts of `owner`, in store order. */
  function AccountsOwnedBy(accounts: seq<AccountModel.Account>, owner: string): (r: seq<AccountModel.Account>)
    ensures |r| <= |accounts|
    ensures forall k :: 0 <= k < |r| ==> r[k] in accounts && r[k].username == owner
    ensures forall k :: 0 <= k < |accounts| && accounts[k].username == owner ==> accounts[k] in r
  {
    if accounts == [] then []
    else
      var last := accounts[|accounts| - 1];
      AccountsOwnedBy(accounts[..|accounts| - 1], owner) + (if last.username == owner then [last] else [])
  }

  /** Filtering keeps store order: the accounts of a concatenation are those
      of the first part followed by those of the second. */
  lemma {:induction false} AccountsOwnedByAppend(a: seq<AccountModel.Account>, b: seq<AccountModel.Account>, owner: string)
    ensures AccountsOwnedBy(a + b, owner) == AccountsOwnedBy(a, owner) + AccountsOwnedBy(b, owner)
    decreases |b|
  {
    if b == [] {
      assert a + b == a;
    } else {
      var b' := b[..|b| - 1];
      assert (a + b)[..|a + b| - 1] == a + b';
      AccountsOwnedByAppend(a, b', owner);
    }
  }

  /** The transactions recorded for `accountNumber`, in store order. */
  function TransactionsFor(transactions: seq<TransactionModel.Transaction>, accountNumber: string): (r: seq<TransactionModel.Transaction>)
    ensures |r| <= |transactions|
    ensures forall t :: t in r <==> t in transactions && t.accountNumber == accountNumber
  {
    if transactions == [] then []
    else
      var last := transactions[|transactions| - 1];
      TransactionsFor(transactions[..|transactions| - 1], accountNumber)
        + (if last.accountNumber == accountNumber then [last] else [])
  }

  /** Filtering keeps store order: the history of a concatenation is the
      history of the first part followed by that of the second. */
  lemma {:induction false} TransactionsForAppend(a: seq<TransactionModel.Transaction>, b: seq<TransactionModel.Transaction>, accountNumber: string)
    ensures TransactionsFor(a + b, accountNumber) == TransactionsFor(a, accountNumber) + TransactionsFor(b, accountNumber)
    decreases |b|
  {
    if b == [] {
      assert a + b == a;
    } else {
      var b' := b[..|b| - 1];
      assert (a + b)[..|a + b| - 1] == a + b';
      TransactionsForAppend(a, b', accountNumber);
    }
  }

  /** A newly recorded transaction ends its own account's history and leaves
      every other account's history as it was. */
  lemma RecordedTransactionHistory(ts: seq<TransactionModel.Transaction>, t: TransactionModel.Transaction, accountNumber: string)
    ensures TransactionsFor(ts + [t], accountNumber) ==
      TransactionsFor(ts, accountNumber) + (if t.accountNumber == accountNumber then [t] else [])
  {
    TransactionsForAppend(ts, [t], accountNumber);
    assert [t][..0] == [];
  }

  /** The account records with the balance at `i` moved by `delta`. */
  function Adjusted(rs: seq<AccountModel.AccountRecord>, i: nat, delta: int): (r: seq<AccountModel.AccountRecord>)
    requires i < |rs|
  {
    rs[i := rs[i].(balance := rs[i].balance + delta)]
  }

  class BankingService {
    var users: seq<UserModel.User>
    var accounts: seq<AccountModel.Account>
    var transactions: seq<TransactionModel.Transaction>
    var currentUser: UserModel.User?
    const dataService: FileData.FileDataService
    /** `PasswordHasher.hashPassword(password, salt)`. */
    const hashPassword: (string, string) -> string

    /** The accounts list never holds the same object twice, and the session
        user is one of the users. */
    ghost predicate Valid()
      reads this
    {
      && (forall j, k :: 0 <= j < k < |accounts| ==> accounts[j] != accounts[k])
      && (currentUser != null ==> currentUser in users)
    }

    ghost predicate BalancesNonNegative()
      reads this, accounts
    {
      forall k :: 0 <= k < |accounts| ==> accounts[k].balance >= 0
    }

    /** `saveAllData` has written the current lists: each file holds one
        `toString` line per element, in list order. */
    ghost predicate Persisted()
      reads this, dataService, users, accounts
    {
      && dataService.usersFile == Some(Map(UserModel.Records(users), UserModel.Encode))
      && dataService.accountsFile == Some(Map(AccountModel.Records(accounts), AccountModel.Encode))
      && dataService.transactionsFile == Some(Map(transactions, TransactionModel.Encode))
    }

    /** The service over already loaded lists, with no session. */
    constructor FromData(dataService: FileData.FileDataService, hashPassword: (string, string) -> string,
                         users: seq<UserModel.User>, accounts: seq<AccountModel.Account>,
                         transactions: seq<TransactionModel.Transaction>)
      requires forall j, k :: 0 <= j < k < |accounts| ==> accounts[j] != accounts[k]
      ensures Valid()
      ensures this.dataService == dataService && this.hashPassword == hashPassword
      ensures this.users == users && this.accounts == accounts && this.transactions == transactions
      ensures currentUser == null
    {
      this.dataService := dataService;
      this.hashPassword := hashPassword;
      this.users := users;
      this.accounts := accounts;
      this.transactions := transactions;
      currentUser := null;
    }

    /** The constructor with `loadAllData`: users, then accounts, then
        transactions. A line that raises while the accounts or the
        transactions load aborts the construction with that exception. */
    static method Open(dataService: FileData.FileDataService, hashPassword: (string, string) -> string, now: nat)
      returns (r: Result<BankingService, ParseError>)
      ensures FileData.LoadFile(dataService.accountsFile, AccountModel.Decode).LoadThrew? ==>
        r == Failure(FileData.LoadFile(dataService.accountsFile, AccountModel.Decode).error)
      ensures (FileData.LoadFile(dataService.accountsFile, AccountModel.Decode).Loaded? &&
               FileData.LoadFile(dataService.transactionsFile, TransactionModel.Parser(now)).LoadThrew?) ==>
        r == Failure(FileData.LoadFile(dataService.transactionsFile, TransactionModel.Parser(now)).error)
      ensures r.Success? ==>
        && fresh(r.value) && r.value.Valid() && r.value.currentUser == null
        && r.value.dataService == dataService && r.value.hashPassword == hashPassword
        && FileData.LoadFile(dataService.usersFile, UserModel.Decode) == FileData.Loaded(UserModel.Records(r.value.users))
        && FileData.LoadFile(dataService.accountsFile, AccountModel.Decode) == FileData.Loaded(AccountModel.Records(r.value.accounts))
        && FileData.LoadFile(dataService.transactionsFile, TransactionModel.Parser(now)) == FileData.Loaded(r.value.transactions)
      ensures (FileData.LoadFile(dataService.accountsFile, AccountModel.Decode).Loaded? &&
               FileData.LoadFile(dataService.transactionsFile, TransactionModel.Parser(now)).Loaded?) ==> r.Success?
    {
      var users := dataService.LoadUsers();
      var accounts := dataService.LoadAccounts(now);
      if accounts.Failure? {
        return Failure(accounts.error);
      }
      var transactions := dataService.LoadTransactions(now);
      if transactions.LoadThrew? {
        return Failure(transactions.error);
      }
      var service := new BankingService.FromData(dataService, hashPassword, users, accounts.value, transactions.records);
      return Success(service);
    }

    /** `saveAllData`: users, accounts and transactions are written out. */
    method SaveAllData()
      modifies dataService
      ensures Persisted()
    {
      dataService.SaveUsers(users);
      dataService.SaveAccounts(accounts);
      dataService.SaveTransactions(transactions);
    }

    /** Appends one transaction and saves everything. */
    method LogAndSave(t: TransactionModel.Transaction)
      modifies this`transactions, dataService
      ensures transactions == old(transactions) + [t]
      ensures users == old(users) && accounts == old(accounts) && currentUser == old(currentUser)
      ensures Persisted()
      ensures AccountModel.Records(accounts) == old(AccountModel.Records(accounts))
      ensures forall k :: 0 <= k < |accounts| ==> accounts[k].balance == old(accounts[k].balance)
    {
      transactions := transactions + [t];
      SaveAllData();
    }

    /** `registerUser`: a valid, untaken username and a valid password add an
        active user with the password hashed under `salt` (the value of
        `generateSalt`), and everything is saved; otherwise nothing changes. */
    method RegisterUser(username: Option<string>, password: Option<string>, salt: string) returns (ok: bool)
      requires Valid()
      modifies this`users, dataService
      ensures Valid() && currentUser == old(currentUser)
      ensures ok <==> IsValidUsername(username) && IsValidPassword(password) && !NameTaken(old(users), username.value)
      ensures ok ==>
        && |users| == |old(users)| + 1 && users[..|old(users)|] == old(users)
        && fresh(users[|old(users)|])
        && users[|old(users)|].Record() ==
             UserModel.UserRecord(username.value, hashPassword(password.value, salt), salt, true)
        && UserModel.Records(users[..|old(users)|]) == old(UserModel.Records(users))
        && Persisted()
      ensures !ok ==> users == old(users) && unchanged(dataService)
    {
      if !IsValidUsername(username) || !IsValidPassword(password) {
        return false;
      }
      if NameTaken(users, username.value) {
        return false;
      }
      var passwordHash := hashPassword(password.value, salt);
      var user := new UserModel.User(username.value, passwordHash, salt);
      users := users + [user];
      SaveAllData();
      return true;
    }

    /** `login`: a valid username whose first active user's hash matches the
        password's hash under that user's salt opens a session for that
        user; any failure leaves the session as it was. */
    method Login(username: Option<string>, password: string) returns (ok: bool)
      requires Valid()
      modifies this`currentUser
      ensures Valid()
      ensures ok <==>
        && IsValidUsername(username)
        && FirstActive(users, username.value).Some?
        && hashPassword(password, users[FirstActive(users, username.value).value].salt)
             == users[FirstActive(users, username.value).value].passwordHash
      ensures ok ==> currentUser == users[FirstActive(users, username.value).value]
      ensures !ok ==> currentUser == old(currentUser)
    {
      if !IsValidUsername(username) {
        return false;
      }
      var found := FirstActive(users, username.value);
      if found.Some? {
        var user := users[found.value];
        if hashPassword(password, user.salt) == user.passwordHash {
          currentUser := user;
          return true;
        }
      }
      return false;
    }

    /** `logout`: the session ends whatever it was, so a second logout changes nothing. */
    method Logout()
      requires Valid()
      modifies this`currentUser
      ensures Valid() && currentUser == null
    {
      currentUser := null;
    }

    /** `createAccount`: without a session, `NotLoggedIn`; otherwise one new
        account numbered from `draw`, owned by the session user, with zero
        balance, the requested type and the current time, and everything is saved. */
    method CreateAccount(accountType: AccountModel.AccountType, draw: nat, now: nat)
      returns (r: Result<string, ServiceError>)
      requires Valid() && draw < 900000
      modifies this`accounts, dataService
      ensures Valid()
      ensures currentUser == null ==> r == Failure(NotLoggedIn) && accounts == old(accounts) && unchanged(dataService)
      ensures currentUser != null ==>
        && r == Success(GenerateAccountNumber(draw))
        && |accounts| == |old(accounts)| + 1 && accounts[..|old(accounts)|] == old(accounts)
        && fresh(accounts[|old(accounts)|])
        && accounts[|old(accounts)|].Record() ==
             AccountModel.AccountRecord(GenerateAccountNumber(draw), currentUser.username, 0, accountType, now)
        && AccountModel.Records(accounts[..|old(accounts)|]) == old(AccountModel.Records(accounts))
        && Persisted()
      ensures old(BalancesNonNegative()) ==> BalancesNonNegative()
    {
      if currentUser == null {
        return Failure(NotLoggedIn);
      }
      var accountNumber := GenerateAccountNumber(draw);
      var account := new AccountModel.Account(accountNumber, currentUser.username, accountType, now);
      accounts := accounts + [account];
      SaveAllData();
      return Success(accountNumber);
    }

    /** `getAccount`: with a session, the first account with this number that
        the session user owns; nothing without a session or when there is none. */
    function GetAccount(accountNumber: string): (r: Option<AccountModel.Account>)
      reads this
      ensures r.Some? ==> currentUser != null && r.value in accounts && Owns(r.value, accountNumber, currentUser.username)
      ensures r.None? ==>
        (currentUser == null || forall k :: 0 <= k < |accounts| ==> !Owns(accounts[k], accountNumber, currentUser.username))
    {
      if currentUser == null then None
      else
        match FindOwned(accounts, accountNumber, currentUser.username)
        case None => None
        case Some(i) => Some(accounts[i])
    }

    /** `deposit`: with a session, a positive amount and an account that
        `getAccount` finds, that one account's balance grows by the amount,
        one DEPOSIT transaction is recorded and everything is saved;
        otherwise nothing changes. No other user's account is ever touched. */
    method Deposit(accountNumber: string, amount: int, millis: nat, now: nat) returns (ok: bool)
      requires Valid()
      modifies accounts, this`transactions, dataService
      ensures Valid()
      ensures ok <==> currentUser != null && amount > 0 && FindOwned(accounts, accountNumber, currentUser.username).Some?
      ensures ok ==>
        var i := FindOwned(accounts, accountNumber, currentUser.username).value;
        && AccountModel.Records(accounts) == Adjusted(old(AccountModel.Records(accounts)), i, amount)
        && transactions == old(transactions) +
             [TransactionModel.Transaction(TransactionId(millis), accountNumber, TransactionModel.DEPOSIT, amount, now, "Deposit")]
        && Persisted()
      ensures !ok ==>
        AccountModel.Records(accounts) == old(AccountModel.Records(accounts)) && transactions == old(transactions) && unchanged(dataService)
      ensures forall k :: 0 <= k < |accounts| && (currentUser == null || accounts[k].username != currentUser.username) ==>
        accounts[k].balance == old(accounts[k].balance)
      ensures old(BalancesNonNegative()) ==> BalancesNonNegative()
    {
      if currentUser == null || amount <= 0 {
        return false;
      }
      var found := GetAccount(accountNumber);
      if found.None? {
        return false;
      }
      ghost var i := FindOwned(accounts, accountNumber, currentUser.username).value;
      ghost var before := AccountModel.Records(accounts);
      var account := found.value;
      account.Deposit(amount);
      ghost var after := Adjusted(before, i, amount);
      assert forall k :: 0 <= k < |accounts| ==> accounts[k].Record() == after[k];
      AccountModel.RecordsAre(accounts, after);
      LogAndSave(TransactionModel.Transaction(TransactionId(millis), accountNumber, TransactionModel.DEPOSIT, amount, now, "Deposit"));
      assert AccountModel.Records(accounts) == after;
      assert FindOwned(accounts, accountNumber, currentUser.username).value == i;
      return true;
    }

    /** `withdraw`: with a session, a positive amount and an account that
        `getAccount` finds, the withdrawal succeeds exactly when the balance
        covers it; then that one balance shrinks by the amount, one WITHDRAWAL
        transaction is recorded and everything is saved. Otherwise nothing
        changes. No other user's account is ever touched. */
    method Withdraw(accountNumber: string, amount: int, millis: nat, now: nat) returns (ok: bool)
      requires Valid()
      modifies accounts, this`transactions, dataService
      ensures Valid()
      ensures ok <==>
        && currentUser != null && amount > 0
        && FindOwned(accounts, accountNumber, currentUser.username).Some?
        && amount <= old(accounts[FindOwned(accounts, accountNumber, currentUser.username).value].balance)
      ensures ok ==>
        var i := FindOwned(accounts, accountNumber, currentUser.username).value;
        && AccountModel.Records(accounts) == Adjusted(old(AccountModel.Records(accounts)), i, -amount)
        && transactions == old(transactions) +
             [TransactionModel.Transaction(TransactionId(millis), accountNumber, TransactionModel.WITHDRAWAL, amount, now, "Withdrawal")]
        && Persisted()
      ensures !ok ==>
        AccountModel.Records(accounts) == old(AccountModel.Records(accounts)) && transactions == old(transactions) && unchanged(dataService)
      ensures forall k :: 0 <= k < |accounts| && (currentUser == null || accounts[k].username != currentUser.username) ==>
        accounts[k].balance == old(accounts[k].balance)
      ensures old(BalancesNonNegative()) ==> BalancesNonNegative()
    {
      if currentUser == null || amount <= 0 {
        return false;
      }
      var found := GetAccount(accountNumber);
      if found.None? {
        return false;
      }
      ghost var i := FindOwned(accounts, accountNumber, currentUser.username).value;
      ghost var before := AccountModel.Records(accounts);
      var account := found.value;
      var success := account.Withdraw(amount);
      if success {
        ghost var after := Adjusted(before, i, -amount);
        assert forall k :: 0 <= k < |accounts| ==> accounts[k].Record() == after[k];
        AccountModel.RecordsAre(accounts, after);
        LogAndSave(TransactionModel.Transaction(TransactionId(millis), accountNumber, TransactionModel.WITHDRAWAL, amount, now, "Withdrawal"));
        assert AccountModel.Records(accounts) == after;
        assert FindOwned(accounts, accountNumber, currentUser.username).value == i;
      } else {
        AccountModel.RecordsAre(accounts, before);
      }
      return success;
    }

    /** `getUserAccounts`: the session user's accounts in store order; none without a session. */
    method GetUserAccounts() returns (result: seq<AccountModel.Account>)
      ensures currentUser == null ==> result == []
      ensures currentUser != null ==> result == AccountsOwnedBy(accounts, currentUser.username)
    {
      result := [];
      if currentUser == null {
        return;
      }
      var owner := currentUser.username;
      for i := 0 to |accounts|
        invariant result == AccountsOwnedBy(accounts[..i], owner)
      {
        assert accounts[..i + 1][..i] == accounts[..i];
        if accounts[i].username == owner {
          result := result + [accounts[i]];
        }
      }
      assert accounts[..|accounts|] == accounts;
    }

    /** `getAccountTransactions`: every transaction of the account, in store
        order, when `getAccount` finds it for the session user; none otherwise. */
    method GetAccountTransactions(accountNumber: string) returns (result: seq<TransactionModel.Transaction>)
      ensures GetAccount(accountNumber).None? ==> result == []
      ensures GetAccount(accountNumber).Some? ==> result == TransactionsFor(transactions, accountNumber)
    {
      result := [];
      if currentUser == null {
        return;
      }
      var found := GetAccount(accountNumber);
      if found.None? {
        return;
      }
      for i := 0 to |transactions|
        invariant result == TransactionsFor(transactions[..i], accountNumber)
      {
        assert transactions[..i + 1][..i] == transactions[..i];
        if transactions[i].accountNumber == accountNumber {
          result := result + [transactions[i]];
        }
      }
      assert transactions[..|transactions|] == transactions;
    }
  }

  /** What `saveAllData` writes is what `loadAllData` reads back: once the
      store is persisted, and every stored text field is comma-free and free
      of the sanitised characters, the users and accounts load to the records
      of the service's own objects, in order, and the transactions load to the
      service's transactions stamped with the loading time. */
  lemma ReloadPersisted(s: BankingService, now: nat)
    requires s.Persisted()
    requires forall k :: 0 <= k < |s.users| ==> FileData.StorableUser(s.users[k].Record())
    requires forall k :: 0 <= k < |s.accounts| ==> FileData.StorableAccount(s.accounts[k].Record())
    requires forall k :: 0 <= k < |s.transactions| ==> FileData.StorableTransaction(s.transactions[k])
    ensures FileData.LoadFile(s.dataService.usersFile, UserModel.Decode) == FileData.Loaded(UserModel.Records(s.users))
    ensures FileData.LoadFile(s.dataService.accountsFile, AccountModel.Decode) == FileData.Loaded(AccountModel.Records(s.accounts))
    ensures FileData.LoadFile(s.dataService.transactionsFile, TransactionModel.Parser(now))
         == FileData.Loaded(FileData.Restamped(s.transactions, now))
  {
    FileData.UsersRoundTrip(UserModel.Records(s.users));
    FileData.AccountsRoundTrip(AccountModel.Records(s.accounts));
    FileData.TransactionsRoundTrip(s.transactions, now);
  }
}
