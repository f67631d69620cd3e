# Banking ledger in Dafny

This project models the ledger core of a small Java console bank and proves properties about the model.
The core has four parts:

- **The service** (`BankingService`). It holds the registered users, the accounts and the audit log of transactions, plus the session's current user. It offers registration, login, logout, account creation, deposit, withdrawal and two owner-filtered queries. The service saves its three lists after every successful change.
- **The entities**:
  - `User`: username, password hash, salt and an active flag.
  - `Account`: number, owner, balance, type and creation time.
  - `Transaction`: id, account number, type, amount, timestamp and description.

  Each has a one-line comma-separated text form, with a writer (`toString`) and a reader (`fromString`).
- **The input validator**: it holds the username, password, account-number and amount checks and the sanitiser that removes `<`, `>`, `"` and `'`.
- **The record store** (`FileDataService`). It keeps one file per list. A load reads the lines in order, skips blank ones, sanitises the rest and parses each one. A save replaces a file with one line per element.

The modules follow the Java sources:

| file | module | models |
|---|---|---|
| `user.dfy` | `UserModel` | `banking/model/User.java` |
| `account.dfy` | `AccountModel` | `banking/model/Account.java` |
| `transaction.dfy` | `TransactionModel` | `banking/model/Transaction.java` |
| `input_validator.dfy` | `InputValidator` | `banking/security/InputValidator.java` |
| `file_data_service.dfy` | `FileData` | `banking/service/FileDataService.java` |
| `banking_service.dfy` | `Banking` | `banking/service/BankingService.java` |

Supporting modules:

- `java_text.dfy` (`JavaText`) covers the pieces of `java.lang.String` the codecs use:
  - `indexOf`;
  - `length()`, counted in UTF-16 code units;
  - `split(",")`, which drops trailing empty parts;
  - `split(",", 6)`, which keeps the remaining commas in the last part;
  - `trim().isEmpty()`;
  - `Boolean.parseBoolean`.
- `numerals.dfy` (`Numerals`) holds the decimal text of amounts, timestamps and the account-number draw.
- `parsing.dfy` (`Parsing`) holds the three outcomes of a `fromString`: a record, `null`, or an escaping exception.
- `wrappers.dfy` holds `Option` and `Result`.
- `seqs.dfy` holds `Map`.

How Java constructs are represented:

- `User` and `Account` are classes. Their mutable fields are `isActive`, `balance` and `createdAt`, the ones the Java code assigns after construction. Their other fields are `const`.
- `Transaction` never changes after construction, so it is a datatype.
- Java's nullable strings are `Option<string>` wherever the code checks for `null`.
- Money is a whole number of cents.
- A Java exception that the code lets escape becomes an explicit error value:
  - a bad enum, number or timestamp literal in a stored line gives `Thrown` / `LoadThrew`;
  - `createAccount` without a session gives `Failure(NotLoggedIn)`.

**How a malformed stored line is handled.** Only a wrong field count is dropped: `fromString` returns `null` for it.
- `Account.fromString` and `Transaction.fromString` call `valueOf`, `Double.parseDouble` and `LocalDateTime.parse`, which throw on bad text.
- The loaders catch only I/O exceptions.
- So one malformed accounts or transactions line aborts the whole load, and with it the service's construction.
- The model states exactly this: `FileData.LoadStopsAtException` and `Banking.BankingService.Open`.

## Model

| member | source | states |
|---|---|---|
| InputValidator.IsValidUsername | banking/security/InputValidator.java:10-12 | A name that passes `^[a-zA-Z0-9_]{3,20}$` is ASCII, so its Java length equals its character count. It has no comma and nothing the sanitiser removes. |
| InputValidator.IsValidPassword | banking/security/InputValidator.java:14-16 | The length is counted in UTF-16 code units, as `String.length()` counts it. Any eight characters pass; fewer than four never do. |
| JavaText.Utf16Length | banking/security/InputValidator.java:15 | `length()` is at least the number of characters and at most twice it. It equals the number when every character is in the Basic Multilingual Plane. |
| InputValidator.SupplementaryPassword | banking/security/InputValidator.java:15 | Four characters outside the Basic Multilingual Plane give a length of eight and pass; three give six and fail. |
| InputValidator.IsValidAccountNumber | banking/security/InputValidator.java:18-20 | A number that passes `^ACC\d{6}$` has no comma and nothing the sanitiser removes, so it can be stored. |
| InputValidator.IsValidAmount | banking/security/InputValidator.java:22-32 | An accepted amount is read by the stored-amount parser as a positive number of cents, at most 100,000,000. |
| InputValidator.Strip | banking/security/InputValidator.java:37 | The result of `replaceAll("[<>\"']", "")` has none of the four characters and is no longer than its input. |
| InputValidator.SanitizeInput | banking/security/InputValidator.java:34-38 | It gives `null` exactly on `null`; otherwise clean text no longer than the input. |
| InputValidator.SanitizeProperties | banking/security/InputValidator.java:34-38 | `sanitizeInput` is null exactly on null. Otherwise its result has none of `<>"'`, is no longer than the input, and sanitising again changes nothing. |
| InputValidator.StripMembers | banking/security/InputValidator.java:37 | A character occurs in the sanitised text exactly when it occurred in the input and is not one of the four removed characters. |
| InputValidator.StripAppend | banking/security/InputValidator.java:37 | Removal works character by character and keeps the order of what it keeps: sanitising `a + b` gives the sanitised `a` followed by the sanitised `b`. |
| InputValidator.StripKeepsClean | banking/security/InputValidator.java:37 | Text without any of the four characters passes through unchanged. |
| InputValidator.ValidatorsRejectNull | banking/security/InputValidator.java:10-23 | All four validators reject `null`. |
| InputValidator.ValidUsernameIsStorable | banking/security/InputValidator.java:10-12 | A username that passes `^[a-zA-Z0-9_]{3,20}$` is non-empty and comma-free. The sanitiser leaves it untouched, so it survives a save and reload. |
| InputValidator.FormattedAmountValidity | banking/security/InputValidator.java:22-32 | The written form of an amount of `c` cents passes the amount check exactly when 0 < c ≤ 100,000,000 (that is, above zero and at most 1,000,000.00). |
| InputValidator.ValidAmountParses | banking/security/InputValidator.java:22-32 | An amount that passes the check parses to its exact value in cents, which is above zero and at most 100,000,000. |
| InputValidator.AmountTooManyFractionDigits | banking/security/InputValidator.java:8 | `"100.123"` is rejected: at most two fraction digits are allowed. |
| InputValidator.AmountAboveLimit | banking/security/InputValidator.java:28 | `"1000001"` is rejected: it is above the limit. |
| InputValidator.AmountZero | banking/security/InputValidator.java:28 | `"0"` is rejected: it is not positive. |
| InputValidator.AmountHundred | banking/security/InputValidator.java:22-32 | `"100.00"` is accepted as 10,000 cents. |
| JavaText.TrimEmptyIffBlank | banking/service/FileDataService.java:28 | `line.trim().isEmpty()` holds exactly when every character of the line is at most U+0020. |
| JavaText.SplitLimitLength | banking/model/Transaction.java:45 | `split(",", limit)` yields one part per comma plus one, capped at the limit. |
| JavaText.SplitAllJoin | banking/model/User.java:33 | Splitting comma-joined, comma-free fields at every comma gives the fields back. |
| JavaText.SplitLimitJoin | banking/model/Transaction.java:45 | Splitting six comma-joined fields with limit 6 gives the six fields back, even when the last one contains commas. |
| JavaText.ParseBooleanToString | banking/model/User.java:36 | `Boolean.parseBoolean` of `Boolean.toString(b)` is `b`. |
| Numerals.CentsRoundTrip | banking/model/Account.java:50-57 | Reading back the written text of an amount gives the same number of cents. |
| Numerals.TimestampRoundTrip | banking/model/Account.java:50-58 | Reading back the written text of a timestamp gives the same timestamp. |
| Numerals.SixDigits | banking/service/BankingService.java:102 | Every value of `nextInt(900000) + 100000` is written with exactly six digits. |
| UserModel.Decode | banking/model/User.java:32-40 | It never throws. It gives `null` exactly when `split(",")` does not yield four parts. Otherwise the flag is whether the fourth part equals "true" ignoring case. |
| UserModel.EncodeSplit | banking/model/User.java:28-30 | `toString` writes username, hash, salt and flag, in that order, as the four parts the split reads back. |
| UserModel.RoundTrip | banking/model/User.java:28-39 | `fromString(toString(u))` gives back every field of `u` when username, hash and salt are comma-free. |
| UserModel.TrailingCommaIgnored | banking/model/User.java:33 | A trailing comma after the flag is dropped with the trailing empty part, so the user still parses. |
| UserModel.EmptyFlagGivesNull | banking/model/User.java:33-39 | An empty flag field is dropped as a trailing empty part. That leaves three parts, so the result is `null`. |
| UserModel.User.constructor | banking/model/User.java:13-18 | A new user carries the given username, hash and salt and is active. |
| UserModel.User.SetActive | banking/model/User.java:25 | It sets the flag and changes no other field. |
| UserModel.User.FromString | banking/model/User.java:32-40 | It returns a fresh user whose record is `Decode`'s, or `null` exactly when `Decode` gives `null`. |
| FileData.FileDataService.SaveUsers | banking/service/FileDataService.java:43-51 | The users file becomes exactly one `toString` line per user, in list order, replacing what was there. |
| AccountModel.TypeOf | banking/model/Account.java:56 | `AccountType.valueOf` finds the constant with exactly that name, and none when no constant has it. |
| AccountModel.Decode | banking/model/Account.java:53-62 | It gives `null` exactly when `split(",")` does not yield five parts. An unknown type literal raises rather than giving `null`. Number and owner are parts 0 and 1. |
| AccountModel.EncodeSplit | banking/model/Account.java:49-51 | `toString` writes number, owner, balance, type and creation time, in that order, as the five parts the split reads back. |
| AccountModel.RoundTrip | banking/model/Account.java:49-62 | `fromString(toString(a))` gives back every field of `a` when number and owner are comma-free. |
| AccountModel.Account.constructor | banking/model/Account.java:19-25 | A new account has the given number, owner and type, a zero balance and the current time. |
| AccountModel.Account.Deposit | banking/model/Account.java:34-38 | A positive amount is added to the balance. Any other amount leaves it unchanged. A non-negative balance stays non-negative. |
| AccountModel.Account.Withdraw | banking/model/Account.java:40-46 | It succeeds exactly when 0 < amount ≤ balance, and then the balance drops by exactly the amount. Otherwise the balance is unchanged. A non-negative balance stays non-negative. |
| AccountModel.Account.FromString | banking/model/Account.java:53-62 | It returns `null`, a raised exception or a fresh account exactly as `Decode` does. The exception is the same one, and the account's record is the decoded one. |
| TransactionModel.TypeOf | banking/model/Transaction.java:47 | `TransactionType.valueOf` accepts exactly `DEPOSIT` and `WITHDRAWAL`. |
| TransactionModel.Decode | banking/model/Transaction.java:44-51 | It gives `null` exactly when the line has fewer than five commas. The description is the whole sixth part of the limit-6 split. An unknown type literal raises. The parsed timestamp is always the reading time. |
| TransactionModel.EncodeSplit | banking/model/Transaction.java:38-48 | `toString` writes the six fields in order, and the limit-6 split reads them back, keeping the description whole whatever commas it holds. |
| TransactionModel.RoundTrip | banking/model/Transaction.java:38-51 | A written transaction reads back with the same id, account number, type, amount and description. Its timestamp becomes the reading time. |
| TransactionModel.StoredTimestampIgnored | banking/model/Transaction.java:47-48 | Two lines can differ only in the stored timestamp field, even where one of those fields is not a timestamp at all, and they still parse alike. |
| TransactionModel.DescriptionWithCommas | banking/model/Transaction.java:45-48 | The line `TXN1,ACC100001,DEPOSIT,50.0,2024-01-01T00:00,rent, jan` (for any id, number and stamp) reads as a 5,000-cent deposit described as `rent, jan`. |
| FileData.LoadStep | banking/service/FileDataService.java:28-32 | A blank line leaves the records as they were. A line aborts the load exactly when it is non-blank and its sanitised text raises. |
| FileData.LoadFile | banking/service/FileDataService.java:23-41 | A missing file loads as the empty list. |
| FileData.LoadAtMostOnePerLine | banking/service/FileDataService.java:27-34 | The read loop adds at most one record per line. |
| FileData.LoadAllBlank | banking/service/FileDataService.java:28 | A file of blank lines loads as the empty list. |
| FileData.LoadOneLine | banking/service/FileDataService.java:28-32 | A blank line contributes nothing. Any other line's sanitised text is parsed: a record is kept, `null` is dropped and an exception aborts the load. |
| FileData.LoadAppend | banking/service/FileDataService.java:27-34 | Loading keeps file order: loading `a + b` is loading `a` followed by loading `b`, and the first exception wins. |
| FileData.LoadSkipsBlank | banking/service/FileDataService.java:28 | Removing a blank line anywhere in a file does not change what it loads to. |
| FileData.LoadStopsAtException | banking/service/FileDataService.java:25-39 | Once a line raises, the load is that exception, and no later line is looked at. |
| FileData.LoadSeesSanitizedText | banking/service/FileDataService.java:29 | Two files whose lines agree line by line in blankness and sanitised text load alike, because the parser sees only sanitised text. |
| FileData.LoadAfterSave | banking/service/FileDataService.java:43-47 | Loading the saved lines gives back exactly the expected records, in order, when each saved line is non-blank, unaffected by the sanitiser and parses to its record. |
| FileData.UsersRoundTrip | banking/service/FileDataService.java:23-51 | Users saved and loaded again come back unchanged and in order when their text fields are comma-free and free of `<>"'`. |
| FileData.AccountsRoundTrip | banking/service/FileDataService.java:53-81 | Accounts saved and loaded again come back unchanged and in order under the same condition on number and owner. |
| FileData.TransactionsRoundTrip | banking/service/FileDataService.java:83-111 | Transactions saved and loaded again come back in order with every field but the timestamp unchanged. Each carries the loading time instead. |
| FileData.FileDataService.LoadUsers | banking/service/FileDataService.java:23-41 | It returns fresh user objects whose records are what the users file loads to, and none for a missing file. |
| FileData.FileDataService.LoadAccounts | banking/service/FileDataService.java:53-71 | It returns fresh, distinct account objects whose records are what the accounts file loads to, or the exception a line raised. |
| FileData.FileDataService.SaveAccounts | banking/service/FileDataService.java:73-81 | The accounts file becomes exactly one `toString` line per account, in list order. |
| FileData.FileDataService.LoadTransactions | banking/service/FileDataService.java:83-101 | It returns what the transactions file loads to under the same skip, sanitise, drop-`null` policy and keep-order rule as the other loaders, or the exception raised. |
| FileData.FileDataService.SaveTransactions | banking/service/FileDataService.java:103-111 | The transactions file becomes exactly one `toString` line per transaction, in list order. |
| Banking.GenerateAccountNumber | banking/service/BankingService.java:100-104 | The number is `ACC` followed by the six digits of `draw + 100000`, and it passes the account-number check. |
| Banking.TransactionId | banking/service/BankingService.java:128 | The id (also built at line 151) is `TXN` followed by the decimal clock reading. It has no comma and nothing the sanitiser removes, so it survives a save and reload. |
| Banking.FirstActive | banking/service/BankingService.java:65-67 | It gives the position of the first active user with the name, or none when no active user has it. |
| Banking.FindOwned | banking/service/BankingService.java:111-114 | It gives the position of the first account with that number owned by that user, or none when there is no such account. |
| Banking.AccountsOwnedBy | banking/service/BankingService.java:168-173 | Every account in the result is the owner's, and every account of the owner is in the result. |
| Banking.AccountsOwnedByAppend | banking/service/BankingService.java:169-173 | The filter keeps store order: the accounts of a concatenation are those of the first part followed by those of the second. |
| Banking.TransactionsFor | banking/service/BankingService.java:188-193 | A transaction is in the result exactly when it is in the log and has that account number. |
| Banking.TransactionsForAppend | banking/service/BankingService.java:189-193 | The filter keeps store order over concatenations. |
| Banking.RecordedTransactionHistory | banking/service/BankingService.java:129-131 | Appending one transaction extends its own account's history by exactly that transaction. Every other account's history is unchanged. |
| Banking.BankingService.Open | banking/service/BankingService.java:20-29 | Users, then accounts, then transactions are loaded into a fresh service with no session. An exception raised by an accounts or transactions line aborts the construction with that exception. Otherwise the service holds exactly what the files load to. |
| Banking.BankingService.FromData | banking/service/BankingService.java:20-23 | Given account objects that are pairwise distinct, the service starts with the given lists and no session, so the invariant every operation relies on holds: distinct account objects, and no session user outside the registered users. |
| Banking.BankingService.LogAndSave | banking/service/BankingService.java:129-133 | It performs the `transactions.add` then `saveAllData` of a deposit or withdrawal: exactly one transaction is appended, every file is rewritten, and users, accounts and balances are unchanged. |
| Banking.BankingService.SaveAllData | banking/service/BankingService.java:31-35 | Each of the three files holds one `toString` line per element of its list, in list order. |
| Banking.BankingService.RegisterUser | banking/service/BankingService.java:37-57 | It succeeds exactly when the username is valid, the password is at least eight UTF-16 code units long and no user, active or not, has that name. On success it appends one active user carrying the name, the hash of the password under the salt and the salt, leaves the earlier users unchanged and saves. On failure nothing changes. |
| Banking.BankingService.Login | banking/service/BankingService.java:59-77 | It succeeds exactly when the username is valid, some active user has it, and the password hashes, under the first such user's salt, to that user's hash. It then opens a session for that user. On failure the session is left as it was. |
| Banking.BankingService.Logout | banking/service/BankingService.java:79-81 | The session ends whatever it was, so a second logout changes nothing. |
| Banking.BankingService.CreateAccount | banking/service/BankingService.java:87-98 | Without a session it gives `NotLoggedIn` and changes nothing. Otherwise it appends one fresh account owned by the session user: the drawn number, zero balance, the requested type and the current time. Earlier accounts are unchanged, everything is saved and the number is returned. Balances stay non-negative. |
| Banking.BankingService.GetAccount | banking/service/BankingService.java:106-115 | With a session it gives an account with that number owned by the session user, and none only when no such account exists. Without a session it gives none. |
| Banking.BankingService.Deposit | banking/service/BankingService.java:117-137 | It succeeds exactly when there is a session, the amount is positive and `getAccount` finds the account. Then only that account's balance grows by the amount, exactly one DEPOSIT transaction for it is appended, and everything is saved. Otherwise no record, no transaction and no file changes. Other users' balances never change, and non-negative balances stay so. |
| Banking.BankingService.Withdraw | banking/service/BankingService.java:139-161 | It succeeds exactly when there is a session, the amount is positive, `getAccount` finds the account and its balance covers the amount. Then only that balance drops by the amount, exactly one WITHDRAWAL transaction is appended, and everything is saved. Otherwise nothing changes. Other users' balances never change, and non-negative balances stay so. |
| Banking.BankingService.GetUserAccounts | banking/service/BankingService.java:163-175 | It returns exactly the session user's accounts in store order, and none without a session. |
| Banking.BankingService.GetAccountTransactions | banking/service/BankingService.java:177-195 | It returns none unless `getAccount` finds the account for the session user. Otherwise it returns every transaction with that account number, in store order. |
| Banking.ReloadPersisted | banking/service/BankingService.java:25-35 | What `saveAllData` wrote is what `loadAllData` reads back: the same user and account records in order, and the same transactions stamped with the loading time. This holds when the stored text fields are comma-free and free of `<>"'`. |

## Left out

- `banking/util/Main.java`, the console menu, is not part of this model. It only reads input, prints, and calls the validators and the service.
- `PasswordHasher` (SHA-256, `SecureRandom`, Base64) is not part of this model:
  - `hashPassword` is a function-valued field of the service, fixed at construction;
  - `generateSalt` becomes the `salt` parameter of `RegisterUser`;
  - `verifyPassword(p, s, h)` becomes `hashPassword(p, s) == h`.
- Clock and randomness become parameters:
  - `LocalDateTime.now()` becomes `now`;
  - `System.currentTimeMillis()` becomes `millis`;
  - `new Random().nextInt(900000)` becomes `draw`, a number below 900000.

  One `now` is used for a whole load. Java reads the clock again for every record it builds.
- Timestamps are clock ticks written as a decimal numeral, not `LocalDateTime` text.
- Amounts and balances are whole cents instead of `double`. Their stored text is an exact `[-]units.cc` codec: `Double.toString` would write `100.0` where the model writes `100.00`. Rounding, exponent notation and the other inputs `Double.parseDouble` accepts are not modelled.
- `Boolean.parseBoolean`'s ignore-case comparison folds only ASCII letters.
- File I/O:
  - `mkdirs`, `IOException` handling and error logging are not modelled;
  - a file is its sequence of lines, or absent, which loads as empty;
  - a field containing a line break, which would split a saved line in two, is not modelled.
- A `null` account number passed to `deposit`, `withdraw` or `getAccountTransactions` is not modelled. The model takes a string; in Java a `null` number matches no account, just like an unknown one.
- A `null` password passed to `login` is not modelled (hashing it would throw).
- The getters and `getCurrentUser` are plain field reads, so they have no members of their own.
- Banking.BankingService.Open: only the exceptions a stored line raises on load are modelled. Any other failure of the constructor is out of scope.
