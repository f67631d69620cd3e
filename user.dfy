/** banking/model/User.java: a user's credentials and active flag, and the
    one-line record `username,passwordHash,salt,isActive` it is stored as. */
module UserModel {
  import opened JavaText
  import opened Parsing

  /** The stored fields of a user. */
  datatype UserRecord = UserRecord(username: string, passwordHash: string, salt: string, isActive: bool)

  /** `toString`: the four fields joined by commas, the flag as `true`/`false`. */
  function Encode(r: UserRecord): string
  {
    Join([r.username, r.passwordHash, r.salt, BooleanToString(r.isActive)])
  }

  /** `fromString`: exactly four parts of `split(",")` make a user, whose flag
      is `Boolean.parseBoolean` of the fourth; any other count gives `null`.
      Nothing here can throw. */
  function Decode(data: string): (r: ParseResult<UserRecord>)
    ensures !r.Thrown?
    ensures r.NullRecord? <==> |Split(data)| != 4
    ensures r.Parsed? ==> r.value.isActive == EqualsIgnoreCase(Split(data)[3], "true")
  {
    var parts := Split(data);
    if |parts| == 4 then Parsed(UserRecord(parts[0], parts[1], parts[2], ParseBoolean(parts[3])))
    else NullRecord
  }

  /** Fields that survive the comma-separated form. */
  predicate CommaFree(r: UserRecord)
  {
    ',' !in r.username && ',' !in r.passwordHash && ',' !in r.salt
  }

  /** `toString` writes username, hash, salt and flag, in that order, as the
      four parts `split(",")` reads back. */
  lemma EncodeSplit(r: UserRecord)
    requires CommaFree(r)
    ensures Split(Encode(r)) == [r.username, r.passwordHash, r.salt, BooleanToString(r.isActive)]
  {
    var parts := [r.username, r.passwordHash, r.salt, BooleanToString(r.isActive)];
    ParseBooleanToString(r.isActive);
    SplitAllJoin(parts);
    JoinHasComma(parts);
  }

  /** Reading back a written user gives the same user; empty fields are fine
      because only the flag, which is never empty, ends the record. */
  lemma RoundTrip(r: UserRecord)
    requires CommaFree(r)
    ensures Decode(Encode(r)) == Parsed(r)
  {
    EncodeSplit(r);
    ParseBooleanToString(r.isActive);
  }

  /** `split(",")` drops a trailing empty part, so a stray comma after the
      flag still gives four parts and the same user. */
  lemma TrailingCommaIgnored(r: UserRecord)
    requires CommaFree(r)
    ensures Decode(Encode(r) + ",") == Parsed(r)
  {
    var parts := [r.username, r.passwordHash, r.salt, BooleanToString(r.isActive)];
    ParseBooleanToString(r.isActive);
    JoinSnoc(parts, "");
    assert Encode(r) + "," == Join(parts + [""]);
    SplitAllJoin(parts + [""]);
    JoinHasComma(parts + [""]);
    var kept := DropTrailingEmpty(parts + [""]);
    assert (parts + [""])[3] != "";
    assert |kept| == 4;
    assert kept == parts;
  }

  /** ... while an empty flag field is dropped as well, leaving three parts: `null`. */
  lemma EmptyFlagGivesNull(username: string, passwordHash: string, salt: string)
    requires ',' !in username && ',' !in passwordHash && ',' !in salt
    ensures Decode(Join([username, passwordHash, salt, ""])).NullRecord?
  {
    var parts := [username, passwordHash, salt, ""];
    SplitAllJoin(parts);
    JoinHasComma(parts);
  }

  /** A user object: the identity fields never change after construction;
      only the flag is mutable. */
  class User {
    const username: string
    const passwordHash: string
    const salt: string
    var isActive: bool

    /** A new user is active. */
    constructor (username: string, passwordHash: string, salt: string)
      ensures this.username == username && this.passwordHash == passwordHash && this.salt == salt
      ensures isActive
    {
      this.username := username;
      this.passwordHash := passwordHash;
      this.salt := salt;
      isActive := true;
    }

    /** `setActive`: changes the flag and nothing else. */
    method SetActive(active: bool)
      modifies this`isActive
      ensures isActive == active
    {
      isActive := active;
    }

    function Record(): UserRecord
      reads this
    {
      UserRecord(username, passwordHash, salt, isActive)
    }

    function ToString(): string
      reads this
    {
      Encode(Record())
    }

    /** `fromString`: a fresh user built from the first three parts, then
        given the parsed flag; `null` when the field count is wrong. */
    static method FromString(data: string) returns (user: User?)
      ensures user == null <==> Decode(data).NullRecord?
      ensures user != null ==> fresh(user) && user.Record() == Decode(data).value
    {
      var parts := Split(data);
      if |parts| == 4 {
        user := new User(parts[0], parts[1], parts[2]);
        user.SetActive(ParseBoolean(parts[3]));
      } else {
        user := null;
      }
    }
  }

  /** The records of a list of users, in list order. */
  function Records(users: seq<User>): (rs: seq<UserRecord>)
    reads users
    ensures |rs| == |users|
    ensures forall k {:trigger rs[k]} :: 0 <= k < |users| ==> rs[k] == users[k].Record()
  {
    seq(|users|, k requires 0 <= k < |users| reads users => users[k].Record())
  }

  /** The records of a list are fixed by its elements' records. */
  lemma RecordsAre(users: seq<User>, rs: seq<UserRecord>)
    requires |rs| == |users| && forall k :: 0 <= k < |users| ==> users[k].Record() == rs[k]
    ensures Records(users) == rs
  {
  }
}
