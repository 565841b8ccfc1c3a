/** The account store and the password-reset code table (app/models/user_models.py).

    Accounts are loosely typed documents, because updates are arbitrary field dictionaries.
    Password hashing is a foreign function and is passed in as `hasher`. */
module UserModels {
  import opened Common

  /** A stored account: the string form of its object id and its fields. */
  datatype User = User(id: string, doc: Doc) {
    /** `user.get("user_type")`, "" when absent. */
    function UserType(): string {
      StrAt(doc, "user_type")
    }
  }

  /** `find_user_by_id`: a string that is not an object id makes `ObjectId` raise, which the
      method turns into None; otherwise the first account whose id is that object id. */
  function FindUserById(users: seq<User>, id: string): (r: Option<User>)
    ensures r.Some? <==> IsObjectId(id) && exists i | 0 <= i < |users| :: users[i].id == CanonicalId(id)
    ensures r.Some? ==> r.value in users && r.value.id == CanonicalId(id)
  {
    if !IsObjectId(id) then None
    else
      var i := IndexWhere(users, (u: User) => u.id == CanonicalId(id));
      if i.Some? then Some(users[i.value]) else None
  }

  /** The fields `update_user` stores: a password that is present and truthy is replaced by its
      hash; every other field is stored as given. Hashing a truthy value that is not a string
      raises. */
  function PrepareUpdate(update: Doc, hasher: string -> string): (r: Outcome<Doc>)
    ensures r.Fail? <==> TruthyAt(update, "password") && !update["password"].Str?
    ensures r.Fail? ==> r.code == INTERNAL_ERROR
    ensures r.Ok? ==> r.value.Keys == update.Keys
    ensures r.Ok? ==> forall k | k in update && k != "password" :: r.value[k] == update[k]
    ensures r.Ok? && TruthyAt(update, "password") ==> r.value["password"] == Str(hasher(update["password"].s))
    ensures r.Ok? && "password" in update && !Truthy(update["password"]) ==> r.value["password"] == update["password"]
  {
    if TruthyAt(update, "password") then
      if update["password"].Str? then Ok(update["password" := Str(hasher(update["password"].s))])
      else Fail(INTERNAL_ERROR)
    else Ok(update)
  }

  /** `$set` on the first account with id `key`: the given fields overwrite, the others stay. */
  function SetFields(users: seq<User>, key: string, fields: Doc): (r: seq<User>)
    ensures |r| == |users|
    ensures forall i | 0 <= i < |users| :: r[i].id == users[i].id
    ensures IndexWhere(users, (u: User) => u.id == key).None? ==> r == users
  {
    var i := IndexWhere(users, (u: User) => u.id == key);
    if i.None? then users
    else users[i.value := User(key, users[i.value].doc + fields)]
  }

  /** The query of `list_users`: the requested type when one is given, and, with `active_only`,
      every account whose `is_active` is not false (an account without the field is kept). */
  predicate Listed(u: User, userType: string, activeOnly: bool) {
    && (userType == "" || u.UserType() == userType)
    && (!activeOnly || !("is_active" in u.doc && u.doc["is_active"] == Bool(false)))
  }

  function ListedBy(userType: string, activeOnly: bool): User -> bool {
    (u: User) => Listed(u, userType, activeOnly)
  }

  function ListedPage(users: seq<User>, userType: string, skip: nat, limit: nat, activeOnly: bool): seq<User> {
    Page(Filter(users, ListedBy(userType, activeOnly)), skip, limit)
  }

  /** With `active_only`, an account is left out only when its `is_active` field is false. */
  lemma ActiveOnlyRule(users: seq<User>, userType: string, i: nat)
    requires i < |users|
    requires userType == "" || users[i].UserType() == userType
    ensures users[i] in Filter(users, (u: User) => Listed(u, userType, true))
        <==> !("is_active" in users[i].doc && users[i].doc["is_active"] == Bool(false))
  {
  }

  lemma ListStep(users: seq<User>, i: nat, p: User -> bool, skip: nat, limit: nat)
    requires i < |users|
    ensures var f := Filter(users[..i], p);
      && Filter(users[..i + 1], p) == f + (if p(users[i]) then [users[i]] else [])
      && Page(Filter(users[..i + 1], p), skip, limit)
         == Page(f, skip, limit)
            + (if p(users[i]) && |f| >= skip && (limit == 0 || |f| - skip < limit) then [users[i]] else [])
  {
    assert users[..i + 1] == users[..i] + [users[i]];
    FilterSnoc(users[..i], users[i], p);
    PageSnoc(Filter(users[..i], p), users[i], skip, limit);
  }

  class UserStore {
    var users: seq<User>

    constructor(initial: seq<User>)
      ensures users == initial
    {
      users := initial;
    }

    /** `update_user`: hashes a truthy password, applies `$set` to the account and reads it
        back. An id that is not an object id raises (500) after the password is prepared. */
    method UpdateUser(id: string, update: Doc, hasher: string -> string) returns (r: Outcome<Option<User>>)
      modifies this
      ensures PrepareUpdate(update, hasher).Fail? ==> r == Fail(INTERNAL_ERROR) && users == old(users)
      ensures PrepareUpdate(update, hasher).Ok? && !IsObjectId(id) ==> r == Fail(INTERNAL_ERROR) && users == old(users)
      ensures PrepareUpdate(update, hasher).Ok? && IsObjectId(id) ==>
        && users == SetFields(old(users), CanonicalId(id), PrepareUpdate(update, hasher).value)
        && r == Ok(FindUserById(users, id))
    {
      var fields := PrepareUpdate(update, hasher);
      if fields.Fail? {
        return Fail(INTERNAL_ERROR);
      }
      if !IsObjectId(id) {
        return Fail(INTERNAL_ERROR);
      }
      users := SetFields(users, CanonicalId(id), fields.value);
      r := Ok(FindUserById(users, id));
    }

    /** `delete_user`: true iff an account with that id existed, and then it is removed. */
    method DeleteUser(id: string) returns (r: Outcome<bool>)
      modifies this
      ensures !IsObjectId(id) ==> r == Fail(INTERNAL_ERROR) && users == old(users)
      ensures IsObjectId(id) ==> r.Ok? && (r.value <==> FindUserById(old(users), id).Some?)
      ensures IsObjectId(id) ==>
        var i := IndexWhere(old(users), (u: User) => u.id == CanonicalId(id));
        users == if i.Some? then RemoveAt(old(users), i.value) else old(users)
    {
      if !IsObjectId(id) {
        return Fail(INTERNAL_ERROR);
      }
      var i := IndexWhere(users, (u: User) => u.id == CanonicalId(id));
      if i.Some? {
        users := RemoveAt(users, i.value);
        r := Ok(true);
      } else {
        r := Ok(false);
      }
    }

    /** `list_users`: the accounts the query selects, in collection order, after `skip`, at most
        `limit` of them. The loop does the cursor's work one account at a time. */
    method ListUsers(userType: string, skip: nat, limit: nat, activeOnly: bool) returns (page: seq<User>)
      ensures page == ListedPage(users, userType, skip, limit, activeOnly)
    {
      var selected := ListedBy(userType, activeOnly);
      page := [];
      var matched := 0;
      var i := 0;
      while i < |users|
        invariant 0 <= i <= |users|
        invariant matched == |Filter(users[..i], selected)|
        invariant page == Page(Filter(users[..i], selected), skip, limit)
      {
        ListStep(users, i, selected, skip, limit);
        if selected(users[i]) {
          if matched >= skip && (limit == 0 || matched - skip < limit) {
            page := page + [users[i]];
          }
          matched := matched + 1;
        }
        i := i + 1;
      }
      assert users[..i] == users;
    }
  }

  // ---------------------------------------------------------------------------------------------
  // Password-reset codes.

  /** Codes live two minutes (seconds on the model's time line). */
  const RESET_CODE_LIFETIME: int := 120

  datatype ResetRecord = ResetRecord(
    id: nat,
    email: string,
    code: string,
    expiresAt: int,
    used: bool,
    usedAt: Option<int>,
    createdAt: int)

  /** The query of `verify_reset_code`. */
  predicate Matches(r: ResetRecord, email: string, code: string) {
    r.email == email && r.code == code && !r.used
  }

  /** `datetime.utcnow() > expires_at`: a code is still good at the instant it expires. */
  predicate Expired(r: ResetRecord, now: int) {
    now > r.expiresAt
  }

  function OtherEmail(email: string): ResetRecord -> bool {
    (r: ResetRecord) => r.email != email
  }

  function SameEmail(email: string): ResetRecord -> bool {
    (r: ResetRecord) => r.email == email
  }

  function NotExpiredBefore(now: int): ResetRecord -> bool {
    (r: ResetRecord) => !(r.expiresAt < now)
  }

  /** The table after `create_reset_code`: every code of that email deleted, then one new
      unused code appended. */
  function AfterCreate(records: seq<ResetRecord>, email: string, code: string, now: int, id: nat): seq<ResetRecord> {
    Filter(records, OtherEmail(email))
      + [ResetRecord(id, email, code, now + RESET_CODE_LIFETIME, false, None, now)]
  }

  /** `verify_reset_code`: the first unused record with that email and code, unless it has
      expired, in which case it is deleted. Returns the record (None for False) and the table. */
  function Verify(records: seq<ResetRecord>, email: string, code: string, now: int): (ResetRecordAnswer, seq<ResetRecord>) {
    var i := IndexWhere(records, (r: ResetRecord) => Matches(r, email, code));
    if i.None? then (NoCode, records)
    else if Expired(records[i.value], now) then (NoCode, RemoveAt(records, i.value))
    else (ValidCode(records[i.value]), records)
  }

  datatype ResetRecordAnswer = NoCode | ValidCode(record: ResetRecord)

  /** `mark_code_as_used`: the first record with that id becomes used at `now`. */
  function AfterMarkUsed(records: seq<ResetRecord>, id: nat, now: int): (r: seq<ResetRecord>)
    ensures |r| == |records|
  {
    var i := IndexWhere(records, (r: ResetRecord) => r.id == id);
    if i.None? then records
    else
      var old_ := records[i.value];
      records[i.value := old_.(used := true, usedAt := Some(now))]
  }

  /** `cleanup_expired_codes`: delete every record with `expires_at < now`. */
  function AfterCleanup(records: seq<ResetRecord>, now: int): seq<ResetRecord> {
    Filter(records, NotExpiredBefore(now))
  }

  /** Ids are distinct and below the next fresh id, and each email has at most one record
      (creation deletes the older ones). */
  predicate TableValid(records: seq<ResetRecord>, nextId: nat) {
    && (forall i | 0 <= i < |records| :: records[i].id < nextId)
    && (forall i, j | 0 <= i < j < |records| :: records[i].id != records[j].id)
    && (forall i, j | 0 <= i < j < |records| :: records[i].email != records[j].email)
  }

  class PasswordResetManager {
    var records: seq<ResetRecord>
    var nextId: nat

    predicate Valid()
      reads this
    {
      TableValid(records, nextId)
    }

    constructor()
      ensures records == [] && Valid()
    {
      records := [];
      nextId := 0;
    }

    method CreateResetCode(email: string, code: string, now: int) returns (id: nat)
      requires Valid()
      modifies this
      ensures Valid()
      ensures id == old(nextId) && nextId == id + 1
      ensures records == AfterCreate(old(records), email, code, now, id)
    {
      id := nextId;
      records := AfterCreate(records, email, code, now, id);
      nextId := nextId + 1;
      CreateKeepsValid(old(records), email, code, now, id);
    }

    method VerifyResetCode(email: string, code: string, now: int) returns (answer: ResetRecordAnswer)
      requires Valid()
      modifies this
      ensures Valid() && nextId == old(nextId)
      ensures (answer, records) == Verify(old(records), email, code, now)
    {
      var i := IndexWhere(records, (r: ResetRecord) => Matches(r, email, code));
      if i.None? {
        return NoCode;
      }
      var found := records[i.value];
      if Expired(found, now) {
        records := RemoveAt(records, i.value);
        return NoCode;
      }
      return ValidCode(found);
    }

    method MarkCodeAsUsed(id: nat, now: int)
      requires Valid()
      modifies this
      ensures Valid() && nextId == old(nextId)
      ensures records == AfterMarkUsed(old(records), id, now)
    {
      records := AfterMarkUsed(records, id, now);
    }

    method CleanupExpiredCodes(now: int) returns (deleted: nat)
      requires Valid()
      modifies this
      ensures Valid() && nextId == old(nextId)
      ensures records == AfterCleanup(old(records), now)
      ensures deleted == |old(records)| - |records|
    {
      var kept := AfterCleanup(records, now);
      FilterKeepsValid(records, nextId, NotExpiredBefore(now));
      deleted := |records| - |kept|;
      records := kept;
    }
  }

  // Properties of the reset-code operations.

  lemma CreateKeepsValid(records: seq<ResetRecord>, email: string, code: string, now: int, id: nat)
    requires TableValid(records, id)
    ensures TableValid(AfterCreate(records, email, code, now, id), id + 1)
  {
    var kept := Filter(records, OtherEmail(email));
    FilterKeepsValid(records, id, OtherEmail(email));
    assert forall i | 0 <= i < |kept| :: kept[i].email != email;
  }

  /** After creation the email has exactly one code: the new one, unused, valid for two
      minutes; the codes of other emails are untouched. */
  lemma CreateReplacesCodes(records: seq<ResetRecord>, email: string, code: string, now: int, id: nat)
    ensures var after := AfterCreate(records, email, code, now, id);
      && Filter(after, SameEmail(email)) == [ResetRecord(id, email, code, now + 120, false, None, now)]
      && Filter(after, OtherEmail(email)) == Filter(records, OtherEmail(email))
  {
    var kept := Filter(records, OtherEmail(email));
    var added := [ResetRecord(id, email, code, now + 120, false, None, now)];
    FilterConcat(kept, added, SameEmail(email));
    FilterConcat(kept, added, OtherEmail(email));
    FilterNone(kept, SameEmail(email));
    FilterAll(kept, OtherEmail(email));
    assert added[..0] == [];
  }

  /** Verify accepts only an unused record with that email and code that has not expired, and
      then leaves the table as it was. */
  lemma VerifyAcceptsOnlyLiveCodes(records: seq<ResetRecord>, email: string, code: string, now: int)
    ensures Verify(records, email, code, now).0.ValidCode? ==>
      var rec := Verify(records, email, code, now).0.record;
      && rec in records && rec.email == email && rec.code == code && !rec.used && now <= rec.expiresAt
      && Verify(records, email, code, now).1 == records
  {
  }

  /** Conversely, the first unused record with that email and code is accepted, and the table
      kept, as long as it has not expired. */
  lemma VerifyAcceptsLiveCode(records: seq<ResetRecord>, email: string, code: string, now: int, i: nat)
    requires i < |records| && Matches(records[i], email, code) && !Expired(records[i], now)
    requires forall j | 0 <= j < i :: !Matches(records[j], email, code)
    ensures Verify(records, email, code, now) == (ValidCode(records[i]), records)
  {
    IndexWhereAt(records, (r: ResetRecord) => Matches(r, email, code), i);
  }

  /** A code just created is accepted at every instant from its creation up to and including
      its expiry, two minutes later. */
  lemma FreshCodeAcceptedUntilExpiry(records: seq<ResetRecord>, email: string, code: string, now: int, id: nat, t: int)
    requires now <= t <= now + RESET_CODE_LIFETIME
    ensures var after := AfterCreate(records, email, code, now, id);
      Verify(after, email, code, t) == (ValidCode(ResetRecord(id, email, code, now + 120, false, None, now)), after)
  {
    var kept := Filter(records, OtherEmail(email));
    var after := AfterCreate(records, email, code, now, id);
    assert forall j | 0 <= j < |kept| :: after[j] == kept[j] && OtherEmail(email)(kept[j]);
    VerifyAcceptsLiveCode(after, email, code, t, |kept|);
  }

  /** A matching record that has expired is rejected and deleted; nothing else is deleted. */
  lemma VerifyDeletesExpired(records: seq<ResetRecord>, email: string, code: string, now: int, i: nat)
    requires i < |records| && Matches(records[i], email, code) && Expired(records[i], now)
    requires forall j | 0 <= j < i :: !Matches(records[j], email, code)
    ensures Verify(records, email, code, now) == (NoCode, RemoveAt(records, i))
  {
  }

  /** Codes are single-use: once the accepted record is marked used, the same email and code
      are rejected at any later time. */
  lemma UsedCodeIsRejected(records: seq<ResetRecord>, nextId: nat, email: string, code: string, now: int, later: int)
    requires TableValid(records, nextId)
    requires Verify(records, email, code, now).0.ValidCode?
    ensures Verify(AfterMarkUsed(records, Verify(records, email, code, now).0.record.id, now), email, code, later).0 == NoCode
  {
    var i := IndexWhere(records, (r: ResetRecord) => Matches(r, email, code)).value;
    var rec := records[i];
    var k := IndexWhere(records, (r: ResetRecord) => r.id == rec.id).value;
    assert k == i;
    var after := AfterMarkUsed(records, rec.id, now);
    forall j | 0 <= j < |after|
      ensures !Matches(after[j], email, code)
    {
      if j != i {
        assert records[j].email != records[i].email;
      }
    }
  }

  /** Cleanup deletes exactly the records that expired strictly before now. */
  lemma CleanupDeletesExactlyExpired(records: seq<ResetRecord>, now: int)
    ensures forall r | r in AfterCleanup(records, now) :: r in records && r.expiresAt >= now
    ensures forall i | 0 <= i < |records| && records[i].expiresAt >= now :: records[i] in AfterCleanup(records, now)
  {
  }

  lemma {:induction false} FilterKeepsValid(records: seq<ResetRecord>, nextId: nat, p: ResetRecord -> bool)
    requires TableValid(records, nextId)
    ensures TableValid(Filter(records, p), nextId)
    decreases |records|
  {
    if records != [] {
      var init := records[..|records| - 1];
      var last := records[|records| - 1];
      assert TableValid(init, nextId);
      FilterKeepsValid(init, nextId, p);
      assert records == init + [last];
      FilterSnoc(init, last, p);
      var fi := Filter(init, p);
      if p(last) {
        assert forall k | 0 <= k < |init| :: init[k].id != last.id && init[k].email != last.email;
        assert forall r | r in init :: r.id != last.id && r.email != last.email;
        assert forall r | r in fi :: r.id != last.id && r.email != last.email;
        AppendKeepsValid(fi, last, nextId);
      }
    }
  }

  lemma AppendKeepsValid(rs: seq<ResetRecord>, last: ResetRecord, nextId: nat)
    requires TableValid(rs, nextId) && last.id < nextId
    requires forall r | r in rs :: r.id != last.id && r.email != last.email
    ensures TableValid(rs + [last], nextId)
  {
    var f := rs + [last];
    forall i, j | 0 <= i < j < |f|
      ensures f[i].id != f[j].id && f[i].email != f[j].email
    {
      if j == |rs| {
        assert f[i] == rs[i] && rs[i] in rs;
      }
    }
  }
}
