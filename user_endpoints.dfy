/** The account routes (app/api/v1/endpoints/users.py): profile reads and updates with the
    self-or-admin rule, the artisan listing with its `verified` filter, the artisan search with
    its de-duplication of two result lists, the two `verify_artisan` handlers and the caller's
    profile. Routes that change the accounts answer an outcome together with the accounts after
    the request. The case-insensitive `$regex` match of the database is a parameter `regex`
    (pattern, text). */
module UserEndpoints {
  import opened Common
  import opened UserSchemas
  import opened UserModels

  // ---------------------------------------------------------------------------------------------
  // The self-or-admin rule

  /** `str(current_user["_id"]) != id and user_type != "admin"` refused: the caller's own id, as
      sent in the path, or an admin. */
  predicate SelfOrAdmin(caller: User, id: string) {
    caller.id == id || caller.UserType() == ADMIN
  }

  /** `get_client` and `get_artisan`: the account with that id when it has the expected type;
      404 otherwise. */
  function GetOfType(users: seq<User>, id: string, userType: string): (r: Outcome<User>)
    ensures r.Ok? <==> FindUserById(users, id).Some? && FindUserById(users, id).value.UserType() == userType
    ensures r.Ok? ==> r.value == FindUserById(users, id).value
    ensures r.Fail? ==> r.code == NOT_FOUND
  {
    var found := FindUserById(users, id);
    if found.None? || found.value.UserType() != userType then Fail(NOT_FOUND) else Ok(found.value)
  }

  function GetClient(users: seq<User>, clientId: string): Outcome<User> {
    GetOfType(users, clientId, CLIENT)
  }

  function GetArtisan(users: seq<User>, artisanId: string): Outcome<User> {
    GetOfType(users, artisanId, ARTISAN)
  }

  /** `update_client` and `update_artisan`: 403 unless the caller is that account or an admin;
      404 unless the account exists with the route's type; then `update_user` with the sent
      fields of the body, whose password is hashed, and the account read back. */
  function UpdateProfile(users: seq<User>, caller: User, id: string, body: Doc, userType: string,
                         schema: map<string, FieldKind>, hasher: string -> string): (r: (Outcome<User>, seq<User>))
    ensures r.0.Fail? ==> r.1 == users && r.0.code in {403, 404, 422, 500}
    ensures r.0.Ok? ==> SelfOrAdmin(caller, id) && GetOfType(users, id, userType).Ok? && ValidateProfileUpdate(body, schema).Ok?
  {
    var update := ValidateProfileUpdate(body, schema);
    if update.Fail? then (Fail(update.code), users)
    else if !SelfOrAdmin(caller, id) then (Fail(FORBIDDEN), users)
    else if GetOfType(users, id, userType).Fail? then (Fail(NOT_FOUND), users)
    else
      var fields := PrepareUpdate(update.value, hasher);
      if fields.Fail? then (Fail(INTERNAL_ERROR), users)
      else
        var after := SetFields(users, CanonicalId(id), fields.value);
        var read := FindUserById(after, id);
        if read.None? then (Fail(INTERNAL_ERROR), users) else (Ok(read.value), after)
  }

  function UpdateClient(users: seq<User>, caller: User, clientId: string, body: Doc, hasher: string -> string): (Outcome<User>, seq<User>) {
    UpdateProfile(users, caller, clientId, body, CLIENT, CLIENT_UPDATE, hasher)
  }

  function UpdateArtisan(users: seq<User>, caller: User, artisanId: string, body: Doc, hasher: string -> string): (Outcome<User>, seq<User>) {
    UpdateProfile(users, caller, artisanId, body, ARTISAN, ARTISAN_UPDATE, hasher)
  }

  /** Only the account itself or an admin updates a profile, and only one of the route's type;
      the stored account then gains exactly the sent fields of the model (never its type or its
      verification flag), a sent password stored hashed, and no other account changes. */
  lemma UpdateProfileRule(users: seq<User>, caller: User, id: string, body: Doc, userType: string,
                          schema: map<string, FieldKind>, hasher: string -> string)
    requires "user_type" !in schema && "is_verified" !in schema
    ensures var (out, after) := UpdateProfile(users, caller, id, body, userType, schema, hasher);
      var update := ValidateProfileUpdate(body, schema);
      && (update.Fail? ==> out == Fail(422))
      && (update.Ok? && !SelfOrAdmin(caller, id) ==> out == Fail(403))
      && (update.Ok? && SelfOrAdmin(caller, id) && GetOfType(users, id, userType).Fail? ==> out == Fail(404))
      && (update.Ok? && SelfOrAdmin(caller, id) && GetOfType(users, id, userType).Ok? ==>
            (out.Ok? <==> PrepareUpdate(update.value, hasher).Ok?))
      && (out.Fail? && update.Ok? && SelfOrAdmin(caller, id) && GetOfType(users, id, userType).Ok? ==> out == Fail(500))
      && (out.Fail? ==> after == users)
      && (out.Ok? ==>
            && update.Ok? && SelfOrAdmin(caller, id)
            && var before := GetOfType(users, id, userType).value;
            && out.value.id == before.id
            && out.value.doc.Keys == before.doc.Keys + update.value.Keys
            && (forall k | k in before.doc && k !in update.value :: out.value.doc[k] == before.doc[k])
            && out.value.UserType() == userType
            && ("is_verified" in before.doc <==> "is_verified" in out.value.doc)
            && ("is_verified" in before.doc ==> out.value.doc["is_verified"] == before.doc["is_verified"])
            && (forall k | k in update.value && k != "password" :: out.value.doc[k] == update.value[k])
            && (TruthyAt(update.value, "password") ==> out.value.doc["password"] == Str(hasher(update.value["password"].s)))
            && FindUserById(after, id) == Some(out.value)
            && (forall i | 0 <= i < |users| && users[i].id != CanonicalId(id) :: after[i] == users[i]))
  {
    var (out, after) := UpdateProfile(users, caller, id, body, userType, schema, hasher);
    var update := ValidateProfileUpdate(body, schema);
    if update.Ok? && SelfOrAdmin(caller, id) && GetOfType(users, id, userType).Ok? {
      var fields := PrepareUpdate(update.value, hasher);
      if fields.Ok? {
        var key := CanonicalId(id);
        var i := IndexWhere(users, (u: User) => u.id == key).value;
        var stored := SetFields(users, key, fields.value);
        assert stored[i] == User(key, users[i].doc + fields.value);
        assert forall k | 0 <= k < i :: stored[k] == users[k];
        IndexWhereAt(stored, (u: User) => u.id == key, i);
        assert out == Ok(stored[i]) && after == stored;
        assert GetOfType(users, id, userType).value == users[i];
        assert "user_type" !in update.value && "is_verified" !in update.value;
        MergedProfile(users[i], update.value, fields.value, hasher);
      }
    }
  }

  /** The account after `$set` of the prepared fields: the update's fields, hashed password
      included, over the stored ones, its type and verification flag untouched. */
  lemma MergedProfile(before: User, update: Doc, fields: Doc, hasher: string -> string)
    requires PrepareUpdate(update, hasher) == Ok(fields)
    requires "user_type" !in update && "is_verified" !in update
    ensures var out := User(before.id, before.doc + fields);
      && out.doc.Keys == before.doc.Keys + update.Keys
      && (forall k | k in before.doc && k !in update :: out.doc[k] == before.doc[k])
      && out.UserType() == before.UserType()
      && ("is_verified" in before.doc <==> "is_verified" in out.doc)
      && ("is_verified" in before.doc ==> out.doc["is_verified"] == before.doc["is_verified"])
      && (forall k | k in update && k != "password" :: out.doc[k] == update[k])
      && (TruthyAt(update, "password") ==> out.doc["password"] == Str(hasher(update["password"].s)))
  {
  }

  /** `delete_client`: 403 unless the caller is that account or an admin; an id that is not an
      object id makes `delete_user` raise (500); 404 when nothing was deleted. The account's
      type is not checked. */
  function DeleteClient(users: seq<User>, caller: User, clientId: string): (r: (Outcome<()>, seq<User>))
    ensures r.0.Fail? ==> r.1 == users && r.0.code in {403, 404, 500}
    ensures r.0.Ok? ==> SelfOrAdmin(caller, clientId) && |r.1| == |users| - 1
  {
    if !SelfOrAdmin(caller, clientId) then (Fail(FORBIDDEN), users)
    else if !IsObjectId(clientId) then (Fail(INTERNAL_ERROR), users)
    else
      var i := IndexWhere(users, (u: User) => u.id == CanonicalId(clientId));
      if i.None? then (Fail(NOT_FOUND), users) else (Ok(()), RemoveAt(users, i.value))
  }

  /** An account is deleted only at the request of itself or an admin, and then exactly that
      account is removed. */
  lemma DeleteClientRule(users: seq<User>, caller: User, clientId: string)
    ensures var (out, after) := DeleteClient(users, caller, clientId);
      var found := FindUserById(users, clientId);
      && (!SelfOrAdmin(caller, clientId) ==> out == Fail(403))
      && (out.Ok? <==> SelfOrAdmin(caller, clientId) && found.Some?)
      && (out.Fail? ==> after == users)
      && (out.Ok? ==> |after| == |users| - 1 && multiset(after) + multiset{found.value} == multiset(users))
      && (SelfOrAdmin(caller, clientId) && IsObjectId(clientId) && found.None? ==> out == Fail(404))
  {
    var (out, after) := DeleteClient(users, caller, clientId);
    if out.Ok? {
      var i := IndexWhere(users, (u: User) => u.id == CanonicalId(clientId)).value;
      assert users == users[..i] + [users[i]] + users[i + 1..];
    }
  }

  // ---------------------------------------------------------------------------------------------
  // Listing and search

  /** An active artisan whose field, a string, matches the pattern (the query of
      `find_artisans_by_trade` and `find_artisans_by_location`). */
  function ArtisanMatching(field: string, pattern: string, regex: (string, string) -> bool): User -> bool {
    (u: User) =>
      && u.UserType() == ARTISAN
      && field in u.doc && u.doc[field].Str? && regex(pattern, u.doc[field].s)
      && !("is_active" in u.doc && u.doc["is_active"] == Bool(false))
  }

  function FindArtisansBy(users: seq<User>, field: string, pattern: string, regex: (string, string) -> bool, skip: nat, limit: nat): seq<User> {
    Page(Filter(users, ArtisanMatching(field, pattern, regex)), skip, limit)
  }

  /** `a.get("is_verified") == verified` in Python: an absent flag equals neither boolean, and the
      integers 1 and 0 equal True and False. */
  predicate VerifiedIs(a: User, verified: bool) {
    "is_verified" in a.doc && (a.doc["is_verified"] == Bool(verified) || a.doc["is_verified"] == Int(if verified then 1 else 0))
  }

  /** The `verified` filter of `list_artisans`: with a value, exactly the listed artisans whose
      flag equals it, in their order; without one, all of them. */
  function VerifiedOnly(artisans: seq<User>, verified: Option<bool>): (r: seq<User>)
    ensures verified.None? ==> r == artisans
    ensures verified.Some? ==> forall a :: a in r <==> a in artisans && VerifiedIs(a, verified.value)
  {
    if verified.None? then artisans else Filter(artisans, (a: User) => VerifiedIs(a, verified.value))
  }

  /** `list_artisans`: the artisans matching a non-empty trade, or every active artisan, one page
      of them, then narrowed by `verified`. */
  function ListArtisans(users: seq<User>, skip: nat, limit: nat, trade: Option<string>, verified: Option<bool>, regex: (string, string) -> bool): (r: seq<User>)
    ensures verified.Some? ==> forall a | a in r :: VerifiedIs(a, verified.value)
  {
    var page :=
      if trade.Some? && trade.value != "" then FindArtisansBy(users, "trade", trade.value, regex, skip, limit)
      else ListedPage(users, ARTISAN, skip, limit, true);
    VerifiedOnly(page, verified)
  }

  /** Every listed account is an active artisan, with the asked flag when one is given, and
      matches the trade when one is given. */
  lemma ListArtisansRule(users: seq<User>, skip: nat, limit: nat, trade: Option<string>, verified: Option<bool>, regex: (string, string) -> bool)
    ensures var r := ListArtisans(users, skip, limit, trade, verified, regex);
      && (limit > 0 ==> |r| <= limit)
      && forall a | a in r ::
           && a in users
           && a.UserType() == "artisan"
           && !("is_active" in a.doc && a.doc["is_active"] == Bool(false))
           && (verified.Some? ==> VerifiedIs(a, verified.value))
           && (trade.Some? && trade.value != "" ==> "trade" in a.doc && a.doc["trade"].Str? && regex(trade.value, a.doc["trade"].s))
  {
  }

  function IdsOf(s: seq<User>): set<string> {
    set u | u in s :: u.id
  }

  lemma IdsOfSnoc(s: seq<User>, x: User)
    ensures IdsOf(s + [x]) == IdsOf(s) + {x.id}
  {
    assert forall u | u in s + [x] :: u in s || u == x;
  }

  lemma IdsOfAbsent(s: seq<User>, id: string)
    requires forall u | u in s :: u.id != id
    ensures id !in IdsOf(s)
  {
  }

  /** `u` is the first account in `s` with its id. */
  predicate FirstOccurrence(s: seq<User>, u: User) {
    exists i | 0 <= i < |s| :: s[i] == u && forall j | 0 <= j < i :: s[j].id != u.id
  }

  /** The accounts of `s` with the first account of every id, in the order of first
      appearance: what `list(unique_artisans.values())` holds after the de-duplication loop. */
  function FirstById(s: seq<User>): seq<User>
    decreases |s|
  {
    if s == [] then []
    else
      var r := FirstById(s[..|s| - 1]);
      var x := s[|s| - 1];
      if x.id in IdsOf(r) then r else r + [x]
  }

  /** De-duplication keeps no id twice and every id once, each time with its first account. */
  lemma {:induction false} FirstByIdSpec(s: seq<User>)
    ensures var r := FirstById(s);
      && (forall i, j | 0 <= i < j < |r| :: r[i].id != r[j].id)
      && IdsOf(r) == IdsOf(s)
      && (forall k | 0 <= k < |r| :: FirstOccurrence(s, r[k]))
    decreases |s|
  {
    if s != [] {
      var init, x := s[..|s| - 1], s[|s| - 1];
      FirstByIdSpec(init);
      var r0 := FirstById(init);
      var r := FirstById(s);
      SplitLast(s);
      IdsOfSnoc(init, x);
      if x.id in IdsOf(r0) {
        assert r == r0;
        forall k | 0 <= k < |r|
          ensures FirstOccurrence(s, r[k])
        {
          var i :| 0 <= i < |init| && init[i] == r0[k] && forall j | 0 <= j < i :: init[j].id != r0[k].id;
          assert s[i] == r[k] && forall j | 0 <= j < i :: s[j] == init[j];
        }
      } else {
        assert r == r0 + [x];
        IdsOfSnoc(r0, x);
        FirstByIdStep(init, x, r0, s, r);
      }
    }
  }

  /** The step of `FirstByIdSpec` where the last account brings a new id. */
  lemma FirstByIdStep(init: seq<User>, x: User, r0: seq<User>, s: seq<User>, r: seq<User>)
    requires s == init + [x] && r == r0 + [x]
    requires x.id !in IdsOf(r0) && IdsOf(r0) == IdsOf(init)
    requires forall i, j | 0 <= i < j < |r0| :: r0[i].id != r0[j].id
    requires forall k | 0 <= k < |r0| :: FirstOccurrence(init, r0[k])
    ensures forall i, j | 0 <= i < j < |r| :: r[i].id != r[j].id
    ensures forall k | 0 <= k < |r| :: FirstOccurrence(s, r[k])
  {
    forall i, j | 0 <= i < j < |r| ensures r[i].id != r[j].id {
      if j == |r0| { assert r[i] == r0[i] && r0[i] in r0; }
    }
    forall k | 0 <= k < |r|
      ensures FirstOccurrence(s, r[k])
    {
      if k < |r0| {
        var i :| 0 <= i < |init| && init[i] == r0[k] && forall j | 0 <= j < i :: init[j].id != r0[k].id;
        assert s[i] == r[k] && forall j | 0 <= j < i :: s[j] == init[j];
      } else {
        forall j | 0 <= j < |init| ensures s[j].id != x.id {
          assert s[j] == init[j] && init[j] in init;
        }
        assert s[|init|] == r[k];
      }
    }
  }


  /** De-duplicating `a + b` keeps the de-duplicated `a` in front, followed only by accounts of
      `b` whose ids `a` does not have. */
  lemma {:induction false} FirstByIdConcat(a: seq<User>, b: seq<User>)
    ensures var r := FirstById(a + b);
      var front := FirstById(a);
      && |front| <= |r|
      && r[..|front|] == front
      && forall k | |front| <= k < |r| :: r[k] in b && r[k].id !in IdsOf(a)
    decreases |b|
  {
    if b == [] {
      assert a + b == a;
    } else {
      var b0 := b[..|b| - 1];
      var x := b[|b| - 1];
      FirstByIdConcat(a, b0);
      assert a + b == (a + b0) + [x];
      assert (a + b)[..|a + b| - 1] == a + b0;
      FirstByIdSpec(a + b0);
      assert IdsOf(a) <= IdsOf(a + b0);
      var r0 := FirstById(a + b0);
      var r := FirstById(a + b);
      forall k | |FirstById(a)| <= k < |r| ensures r[k] in b && r[k].id !in IdsOf(a) {
        if k < |r0| {
          assert r[k] == r0[k];
          assert r0[k] in b0;
        } else {
          assert r[k] == x;
        }
      }
    }
  }

  /** The de-duplication loop of `search_artisans`, filling a dictionary keyed by id in
      insertion order and reading its values back. */
  method DistinctById(combined: seq<User>) returns (artisans: seq<User>)
    ensures artisans == FirstById(combined)
  {
    var unique: map<string, User> := map[];
    var order: seq<string> := [];
    var i := 0;
    while i < |combined|
      invariant 0 <= i <= |combined|
      invariant |order| == |FirstById(combined[..i])|
      invariant unique.Keys == IdsOf(FirstById(combined[..i]))
      invariant forall k | 0 <= k < |order| :: order[k] in unique && unique[order[k]] == FirstById(combined[..i])[k]
    {
      var r := FirstById(combined[..i]);
      assert combined[..i + 1][..i] == combined[..i];
      var artisan := combined[i];
      if artisan.id !in unique {
        assert FirstById(combined[..i + 1]) == r + [artisan];
        IdsOfSnoc(r, artisan);
        unique := unique[artisan.id := artisan];
        order := order + [artisan.id];
      }
      i := i + 1;
    }
    assert combined[..i] == combined;
    artisans := seq(|order|, k requires 0 <= k < |order| => unique[order[k]]);
  }

  /** `search_artisans`: with a trade and a location, the trade matches followed by the location
      matches, each paged, without repeated ids; with one of them, its matches; otherwise
      every active artisan. */
  method SearchArtisans(users: seq<User>, trade: Option<string>, location: Option<string>, skip: nat, limit: nat, regex: (string, string) -> bool)
    returns (artisans: seq<User>)
    ensures var byTrade := FindArtisansBy(users, "trade", GetOrEmpty(trade), regex, skip, limit);
      var byLocation := FindArtisansBy(users, "address", GetOrEmpty(location), regex, skip, limit);
      artisans == (
        if GetOrEmpty(trade) != "" && GetOrEmpty(location) != "" then FirstById(byTrade + byLocation)
        else if GetOrEmpty(trade) != "" then byTrade
        else if GetOrEmpty(location) != "" then byLocation
        else ListedPage(users, ARTISAN, skip, limit, true))
  {
    var t := GetOrEmpty(trade);
    var l := GetOrEmpty(location);
    if t != "" && l != "" {
      var byTrade := FindArtisansBy(users, "trade", t, regex, skip, limit);
      var byLocation := FindArtisansBy(users, "address", l, regex, skip, limit);
      artisans := DistinctById(byTrade + byLocation);
    } else if t != "" {
      artisans := FindArtisansBy(users, "trade", t, regex, skip, limit);
    } else if l != "" {
      artisans := FindArtisansBy(users, "address", l, regex, skip, limit);
    } else {
      artisans := ListedPage(users, ARTISAN, skip, limit, true);
    }
  }

  /** A query parameter that was not sent reads as the empty, falsy string. */
  function GetOrEmpty(s: Option<string>): string {
    s.GetOr("")
  }

  /** The combined search has no repeated id, starts with the de-duplicated trade matches, then
      adds only location matches with an id the trade matches lack, and leaves out no id of
      either list. */
  lemma CombinedSearchRule(byTrade: seq<User>, byLocation: seq<User>)
    ensures var r := FirstById(byTrade + byLocation);
      && (forall i, j | 0 <= i < j < |r| :: r[i].id != r[j].id)
      && |FirstById(byTrade)| <= |r|
      && r[..|FirstById(byTrade)|] == FirstById(byTrade)
      && (forall k | |FirstById(byTrade)| <= k < |r| :: r[k] in byLocation && r[k].id !in IdsOf(byTrade))
      && IdsOf(r) == IdsOf(byTrade) + IdsOf(byLocation)
      && (forall x | x in r :: x in byTrade + byLocation)
  {
    FirstByIdSpec(byTrade + byLocation);
    FirstByIdConcat(byTrade, byLocation);
    var r := FirstById(byTrade + byLocation);
    assert IdsOf(byTrade + byLocation) == IdsOf(byTrade) + IdsOf(byLocation);
    forall x | x in r ensures x in byTrade + byLocation {
      var k :| 0 <= k < |r| && r[k] == x;
    }
  }

  /** Results whose ids are already distinct, as the matches of one query are, come out of the
      de-duplication unchanged. */
  lemma {:induction false} FirstByIdDistinct(s: seq<User>)
    requires forall i, j | 0 <= i < j < |s| :: s[i].id != s[j].id
    ensures FirstById(s) == s
    decreases |s|
  {
    if s != [] {
      var init := s[..|s| - 1];
      var x := s[|s| - 1];
      assert forall i, j | 0 <= i < j < |init| :: init[i].id != init[j].id by {
        assert forall i | 0 <= i < |init| :: init[i] == s[i];
      }
      FirstByIdDistinct(init);
      assert x.id !in IdsOf(init) by {
        forall u | u in init ensures u.id != x.id {
          var k :| 0 <= k < |init| && init[k] == u;
          assert s[k] == u;
        }
        IdsOfAbsent(init, x.id);
      }
      SplitLast(s);
    }
  }

  // ---------------------------------------------------------------------------------------------
  // PUT /users/artisans/{id}/verify

  /** The first `verify_artisan`: admin only, 404 unless the account is an artisan, then
      `is_verified` is set. */
  function VerifyArtisan(users: seq<User>, caller: User, artisanId: string): (r: (Outcome<()>, seq<User>))
    ensures r.0.Fail? ==> r.1 == users && r.0.code in {403, 404}
    ensures r.0.Ok? ==> caller.UserType() == "admin" && GetArtisan(users, artisanId).Ok?
  {
    if caller.UserType() != ADMIN then (Fail(FORBIDDEN), users)
    else if GetArtisan(users, artisanId).Fail? then (Fail(NOT_FOUND), users)
    else (Ok(()), SetFields(users, CanonicalId(artisanId), map["is_verified" := Bool(true)]))
  }

  /** The three documents the second handler asks for. */
  predicate HasAllDocuments(docs: map<string, Value>) {
    TruthyAt(docs, "cin_recto") && TruthyAt(docs, "cin_verso") && TruthyAt(docs, "photo")
  }

  /** The second `verify_artisan` as written: `artisan.get("identity_document", {})` is `{}` only
      when the key is absent; a stored null (what registration stores when no document was
      given) or any other non-dictionary makes `.get` raise (500). */
  function VerifyArtisanAsWritten(users: seq<User>, caller: User, artisanId: string): (r: (Outcome<()>, seq<User>))
    ensures r.0.Fail? ==> r.1 == users && r.0.code in {400, 403, 404, 500}
    ensures r.0.Ok? ==> caller.UserType() == "admin" && GetArtisan(users, artisanId).Ok?
    ensures r.0.Ok? ==> var doc := GetArtisan(users, artisanId).value.doc; "identity_document" in doc && doc["identity_document"].Dict? && HasAllDocuments(doc["identity_document"].fields)
  {
    if caller.UserType() != ADMIN then (Fail(FORBIDDEN), users)
    else if GetArtisan(users, artisanId).Fail? then (Fail(NOT_FOUND), users)
    else
      var doc := GetArtisan(users, artisanId).value.doc;
      var docs := if "identity_document" in doc then doc["identity_document"] else Dict(map[]);
      if !docs.Dict? then (Fail(INTERNAL_ERROR), users)
      else if !HasAllDocuments(docs.fields) then (Fail(BAD_REQUEST), users)
      else (Ok(()), SetFields(users, CanonicalId(artisanId), map["is_verified" := Bool(true)]))
  }

  /** The identity documents as the upload routes read them: absent and null are both `{}`;
      None for a stored value that is not a dictionary. */
  function IdentityDocuments(doc: Doc): (r: Option<map<string, Value>>)
    ensures ("identity_document" !in doc || doc["identity_document"].Null?) ==> r == Some(map[])
    ensures "identity_document" in doc && doc["identity_document"].Dict? ==> r == Some(doc["identity_document"].fields)
    ensures r.None? <==> "identity_document" in doc && !doc["identity_document"].Null? && !doc["identity_document"].Dict?
  {
    if "identity_document" !in doc || doc["identity_document"].Null? then Some(map[])
    else if doc["identity_document"].Dict? then Some(doc["identity_document"].fields)
    else None
  }

  /** The second `verify_artisan` as intended: an artisan without documents is refused with
      400, whether the field is absent or null. */
  function VerifyArtisanWithDocuments(users: seq<User>, caller: User, artisanId: string): (Outcome<()>, seq<User>) {
    if caller.UserType() != ADMIN then (Fail(FORBIDDEN), users)
    else if GetArtisan(users, artisanId).Fail? then (Fail(NOT_FOUND), users)
    else
      var docs := IdentityDocuments(GetArtisan(users, artisanId).value.doc);
      if docs.None? then (Fail(INTERNAL_ERROR), users)
      else if !HasAllDocuments(docs.value) then (Fail(BAD_REQUEST), users)
      else (Ok(()), SetFields(users, CanonicalId(artisanId), map["is_verified" := Bool(true)]))
  }

  /** Only an admin verifies, only an artisan is verified, and with the document check only an
      artisan with all three documents; the artisan is then marked verified and nothing else
      changes. Without the check the same holds bar the documents; and the two handlers agree
      whenever the documents are complete. */
  lemma VerifyArtisanRule(users: seq<User>, caller: User, artisanId: string)
    ensures var (out, after) := VerifyArtisanWithDocuments(users, caller, artisanId);
      var target := GetArtisan(users, artisanId);
      && (caller.UserType() != "admin" ==> out == Fail(403))
      && (caller.UserType() == "admin" && target.Fail? ==> out == Fail(404))
      && (out.Ok? <==>
            && caller.UserType() == "admin" && target.Ok?
            && IdentityDocuments(target.value.doc).Some? && HasAllDocuments(IdentityDocuments(target.value.doc).value))
      && (out.Fail? ==> after == users)
      && (out.Ok? ==>
            && FindUserById(after, artisanId).Some?
            && FindUserById(after, artisanId).value.doc == target.value.doc["is_verified" := Bool(true)]
            && (forall i | 0 <= i < |users| && users[i].id != CanonicalId(artisanId) :: after[i] == users[i])
            && VerifyArtisan(users, caller, artisanId) == (out, after))
      && (caller.UserType() == "admin" && target.Ok? ==> VerifyArtisan(users, caller, artisanId).0.Ok?)
  {
    var target := GetArtisan(users, artisanId);
    if caller.UserType() == ADMIN && target.Ok? {
      var key := CanonicalId(artisanId);
      var i := IndexWhere(users, (u: User) => u.id == key).value;
      var after := SetFields(users, key, map["is_verified" := Bool(true)]);
      assert after[i] == User(key, users[i].doc + map["is_verified" := Bool(true)]);
      assert users[i].doc + map["is_verified" := Bool(true)] == users[i].doc["is_verified" := Bool(true)];
      assert forall k | 0 <= k < i :: after[k] == users[k];
      IndexWhereAt(after, (u: User) => u.id == key, i);
    }
  }

  /** As written, an artisan registered without documents has `identity_document` null, and
      asking to verify them answers 500 instead of the 400 for missing documents. */
  lemma NullDocumentsAnswer500()
    ensures var admin := User("000000000000000000000001", map["user_type" := Str("admin")]);
      var artisan := User("000000000000000000000002", map["user_type" := Str("artisan"), "identity_document" := Null]);
      && VerifyArtisanAsWritten([admin, artisan], admin, artisan.id).0 == Fail(500)
      && VerifyArtisanWithDocuments([admin, artisan], admin, artisan.id).0 == Fail(400)
  {
    var admin := User("000000000000000000000001", map["user_type" := Str("admin")]);
    var artisan := User("000000000000000000000002", map["user_type" := Str("artisan"), "identity_document" := Null]);
    assert IsObjectId(artisan.id);
    assert CanonicalId(artisan.id) == artisan.id;
    assert admin.id != artisan.id;
    IndexWhereAt([admin, artisan], (u: User) => u.id == artisan.id, 1);
  }

  // ---------------------------------------------------------------------------------------------
  // GET /users/profile

  datatype UserProfile = UserProfile(id: string, email: string, phone: string, userType: string, profileData: Doc)

  /** `current_user.get(k)`: null when absent. */
  function GetOrNull(d: Doc, k: string): Value {
    if k in d then d[k] else Null
  }

  function GetOrDefault(d: Doc, k: string, default: Value): Value {
    if k in d then d[k] else default
  }

  /** The type-specific fields of `get_user_profile`; any other type gets none. */
  function ProfileData(d: Doc, userType: string): (r: Doc)
    ensures userType == "client" ==> r.Keys == {"first_name", "last_name", "address"}
    ensures userType == "artisan" ==> r.Keys == {"first_name", "last_name", "company_name", "trade", "description", "years_of_experience", "is_verified", "certifications"}
    ensures userType == "admin" ==> r.Keys == {"first_name", "last_name", "role", "permissions"}
    ensures userType !in {"client", "artisan", "admin"} ==> r == map[]
    ensures forall k | k in r && k in d :: r[k] == d[k]
    ensures userType == "artisan" && "is_verified" !in d ==> r["is_verified"] == Bool(false)
  {
    if userType == CLIENT then
      map["first_name" := GetOrNull(d, "first_name"), "last_name" := GetOrNull(d, "last_name"),
          "address" := GetOrNull(d, "address")]
    else if userType == ARTISAN then
      map["first_name" := GetOrNull(d, "first_name"), "last_name" := GetOrNull(d, "last_name"),
          "company_name" := GetOrNull(d, "company_name"), "trade" := GetOrNull(d, "trade"),
          "description" := GetOrNull(d, "description"),
          "years_of_experience" := GetOrNull(d, "years_of_experience"),
          "is_verified" := GetOrDefault(d, "is_verified", Bool(false)),
          "certifications" := GetOrDefault(d, "certifications", List([]))]
    else if userType == ADMIN then
      map["first_name" := GetOrNull(d, "first_name"), "last_name" := GetOrNull(d, "last_name"),
          "role" := GetOrNull(d, "role"), "permissions" := GetOrDefault(d, "permissions", List([]))]
    else map[]
  }

  /** `get_user_profile`: the caller's type, e-mail and phone are read with `[]`, so a missing
      one raises, and `UserProfile` wants them as strings (500 otherwise). */
  function GetUserProfile(caller: User): (r: Outcome<UserProfile>)
    ensures r.Ok? <==>
      && "user_type" in caller.doc && caller.doc["user_type"].Str?
      && "email" in caller.doc && caller.doc["email"].Str?
      && "phone" in caller.doc && caller.doc["phone"].Str?
    ensures r.Ok? ==>
      && r.value.id == caller.id && r.value.userType == caller.UserType()
      && r.value.profileData == ProfileData(caller.doc, caller.UserType())
    ensures r.Fail? ==> r.code == INTERNAL_ERROR
  {
    var d := caller.doc;
    if "user_type" !in d || "email" !in d || "phone" !in d then Fail(INTERNAL_ERROR)
    else if !d["user_type"].Str? || !d["email"].Str? || !d["phone"].Str? then Fail(INTERNAL_ERROR)
    else Ok(UserProfile(caller.id, d["email"].s, d["phone"].s, d["user_type"].s, ProfileData(d, d["user_type"].s)))
  }
}
