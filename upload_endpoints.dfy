/** The image routes (app/api/v1/endpoints/upload.py): the profile picture, an artisan's identity
    documents and portfolio. Each route that writes reads the caller's account, changes a local
    copy of one of its fields (a dictionary set by key, a list appended to or popped from) and
    stores the field back with `update_user`.

    The image service is foreign: an upload is a function `upload` from a file to the url and
    public id it is stored under, and deletions on the service are left out. The caller is the
    account the token names, as it is stored. */
module UploadEndpoints {
  import opened Common
  import opened UserModels
  import opened UserEndpoints

  /** The size limit of every upload: 5 MiB, a file of exactly that size being accepted. */
  const MAX_UPLOAD_BYTES: nat := 5 * 1024 * 1024

  datatype UploadFile = UploadFile(size: nat)

  datatype Uploaded = Uploaded(url: string, publicId: string)

  predicate WithinLimit(f: UploadFile) {
    f.size <= MAX_UPLOAD_BYTES
  }

  function WithinLimitTest(): UploadFile -> bool {
    (f: UploadFile) => WithinLimit(f)
  }

  const DOCUMENT_TYPES: set<string> := {"cin_recto", "cin_verso", "photo"}

  /** The caller as `get_current_user` hands it over: the stored account with its canonical id. */
  predicate SignedIn(users: seq<User>, caller: User) {
    FindUserById(users, caller.id) == Some(caller)
  }

  /** `update_user(str(current_user["_id"]), {field: value})` for a field other than the
      password: that one field of the caller's account is set. */
  method StoreField(store: UserStore, caller: User, field: string, value: Value)
    requires SignedIn(store.users, caller) && field != "password"
    modifies store
    ensures store.users == SetFields(old(store.users), caller.id, map[field := value])
    ensures SignedIn(store.users, caller.(doc := caller.doc[field := value]))
  {
    var update := map[field := value];
    var _ := store.UpdateUser(caller.id, update, (p: string) => p);
    assert PrepareUpdate(update, (p: string) => p).value == update;
    var users := old(store.users);
    var i := IndexWhere(users, (u: User) => u.id == caller.id).value;
    assert store.users[i] == User(caller.id, caller.doc + update);
    assert caller.doc + update == caller.doc[field := value];
    assert forall k | 0 <= k < i :: store.users[k] == users[k];
    IndexWhereAt(store.users, (u: User) => u.id == caller.id, i);
  }

  // ---------------------------------------------------------------------------------------------
  // The profile picture

  /** `upload_profile_picture`: 400 for a file over the limit; otherwise the picture is uploaded
      and its url becomes the account's `profile_picture`. */
  method UploadProfilePicture(store: UserStore, caller: User, file: UploadFile, upload: UploadFile -> Uploaded)
    returns (out: Outcome<Uploaded>)
    requires SignedIn(store.users, caller)
    modifies store
    ensures !WithinLimit(file) ==> out == Fail(BAD_REQUEST) && store.users == old(store.users)
    ensures WithinLimit(file) ==>
      && out == Ok(upload(file))
      && store.users == SetFields(old(store.users), caller.id, map["profile_picture" := Str(upload(file).url)])
  {
    if !WithinLimit(file) {
      return Fail(BAD_REQUEST);
    }
    var result := upload(file);
    StoreField(store, caller, "profile_picture", Str(result.url));
    out := Ok(result);
  }

  /** `delete_profile_picture`: 404 when the account has no picture; otherwise the field is set
      to null. */
  method DeleteProfilePicture(store: UserStore, caller: User) returns (out: Outcome<()>)
    requires SignedIn(store.users, caller)
    modifies store
    ensures !TruthyAt(caller.doc, "profile_picture") ==> out == Fail(NOT_FOUND) && store.users == old(store.users)
    ensures TruthyAt(caller.doc, "profile_picture") ==>
      && out == Ok(())
      && store.users == SetFields(old(store.users), caller.id, map["profile_picture" := Null])
  {
    if !TruthyAt(caller.doc, "profile_picture") {
      return Fail(NOT_FOUND);
    }
    StoreField(store, caller, "profile_picture", Null);
    out := Ok(());
  }

  /** The answer `upload_profile_picture` gives as written. After a file within the limit is
      uploaded, a truthy old picture is handed to `extract_public_id_from_url`, which the image
      service does not define: the call raises before `update_user`, and the route answers 500. */
  function UploadPictureAnswerAsWritten(caller: User, file: UploadFile, upload: UploadFile -> Uploaded): (r: Outcome<Uploaded>)
    ensures !WithinLimit(file) ==> r == Fail(BAD_REQUEST)
    ensures WithinLimit(file) && TruthyAt(caller.doc, "profile_picture") ==> r == Fail(INTERNAL_ERROR)
    ensures r.Ok? <==> WithinLimit(file) && !TruthyAt(caller.doc, "profile_picture")
    ensures r.Ok? ==> r.value == upload(file)
  {
    if !WithinLimit(file) then Fail(BAD_REQUEST)
    else if TruthyAt(caller.doc, "profile_picture") then Fail(INTERNAL_ERROR)
    else Ok(upload(file))
  }

  /** `upload_profile_picture` as written: only an account without a picture gets one; replacing
      a picture answers 500 and leaves the account as it was. */
  method UploadProfilePictureAsWritten(store: UserStore, caller: User, file: UploadFile, upload: UploadFile -> Uploaded)
    returns (out: Outcome<Uploaded>)
    requires SignedIn(store.users, caller)
    modifies store
    ensures out == UploadPictureAnswerAsWritten(caller, file, upload)
    ensures out.Fail? ==> store.users == old(store.users)
    ensures out.Ok? ==> store.users == SetFields(old(store.users), caller.id, map["profile_picture" := Str(upload(file).url)])
  {
    if !WithinLimit(file) {
      return Fail(BAD_REQUEST);
    }
    var result := upload(file);
    if TruthyAt(caller.doc, "profile_picture") {
      return Fail(INTERNAL_ERROR);
    }
    StoreField(store, caller, "profile_picture", Str(result.url));
    out := Ok(result);
  }

  /** The answer `delete_profile_picture` gives as written: a truthy picture reaches the
      undefined `extract_public_id_from_url` outside any `try`, so the route answers 500. */
  function DeletePictureAnswerAsWritten(caller: User): (r: Outcome<()>)
    ensures !TruthyAt(caller.doc, "profile_picture") ==> r == Fail(NOT_FOUND)
    ensures TruthyAt(caller.doc, "profile_picture") ==> r == Fail(INTERNAL_ERROR)
  {
    if !TruthyAt(caller.doc, "profile_picture") then Fail(NOT_FOUND) else Fail(INTERNAL_ERROR)
  }

  /** `delete_profile_picture` as written: it never changes the account. */
  method DeleteProfilePictureAsWritten(store: UserStore, caller: User) returns (out: Outcome<()>)
    requires SignedIn(store.users, caller)
    modifies store
    ensures out == DeletePictureAnswerAsWritten(caller)
    ensures store.users == old(store.users)
  {
    if !TruthyAt(caller.doc, "profile_picture") {
      return Fail(NOT_FOUND);
    }
    out := Fail(INTERNAL_ERROR);
  }

  /** As written, replacing a picture fails where the intended route answers the upload: an
      account with a picture and a one-byte file. */
  lemma ReplacingPictureAnswers500(upload: UploadFile -> Uploaded)
    ensures var caller := User("a", map["profile_picture" := Str("https://img/old.jpg")]);
      && UploadPictureAnswerAsWritten(caller, UploadFile(1), upload) == Fail(INTERNAL_ERROR)
      && WithinLimit(UploadFile(1)) && TruthyAt(caller.doc, "profile_picture")
  {
  }

  /** As written, no caller ever has a picture deleted. */
  lemma DeletingPictureNeverSucceeds(caller: User)
    ensures DeletePictureAnswerAsWritten(caller).Fail?
  {
  }

  // ---------------------------------------------------------------------------------------------
  // Identity documents

  /** `upload_identity_document`: 403 unless the caller is an artisan, 400 for a type other
      than `cin_recto`, `cin_verso` and `photo`, 400 for a file over the limit; then the
      document is uploaded and its url set under its type in the account's `identity_document`,
      an absent or null one read as `{}`. Setting a key on a stored value that is not a
      dictionary raises (500). */
  method UploadIdentityDocument(store: UserStore, caller: User, documentType: string, file: UploadFile, upload: UploadFile -> Uploaded)
    returns (out: Outcome<Uploaded>)
    requires SignedIn(store.users, caller)
    modifies store
    ensures caller.UserType() != "artisan" ==> out == Fail(FORBIDDEN)
    ensures caller.UserType() == "artisan" && documentType !in DOCUMENT_TYPES ==> out == Fail(BAD_REQUEST)
    ensures caller.UserType() == "artisan" && documentType in DOCUMENT_TYPES && !WithinLimit(file) ==> out == Fail(BAD_REQUEST)
    ensures out.Fail? ==> store.users == old(store.users)
    ensures out.Ok? <==>
      caller.UserType() == "artisan" && documentType in DOCUMENT_TYPES && WithinLimit(file) && IdentityDocuments(caller.doc).Some?
    ensures out.Ok? ==>
      var before := IdentityDocuments(caller.doc).value;
      var docs := before[documentType := Str(upload(file).url)];
      && out.value == upload(file)
      && store.users == SetFields(old(store.users), caller.id, map["identity_document" := Dict(docs)])
      && docs.Keys == before.Keys + {documentType}
      && (forall k | k in before && k != documentType :: docs[k] == before[k])
      && SignedIn(store.users, caller.(doc := caller.doc["identity_document" := Dict(docs)]))
  {
    if caller.UserType() != ARTISAN {
      return Fail(FORBIDDEN);
    }
    if documentType !in DOCUMENT_TYPES {
      return Fail(BAD_REQUEST);
    }
    if !WithinLimit(file) {
      return Fail(BAD_REQUEST);
    }
    var result := upload(file);
    var identity := IdentityDocuments(caller.doc);
    if identity.None? {
      return Fail(INTERNAL_ERROR);
    }
    var docs := identity.value;
    docs := docs[documentType := Str(result.url)];
    StoreField(store, caller, "identity_document", Dict(docs));
    out := Ok(result);
  }

  /** The answer of `get_identity_documents`: each document's url, or None. */
  datatype IdentityView = IdentityView(cinRecto: Option<string>, cinVerso: Option<string>, photo: Option<string>)

  /** A document as `IdentityDocumentsResponse` takes it: absent or null is None, a string is
      its url, anything else fails validation. */
  function DocumentUrl(docs: map<string, Value>, k: string): Outcome<Option<string>> {
    if k !in docs || docs[k].Null? then Ok(None)
    else if docs[k].Str? then Ok(Some(docs[k].s))
    else Fail(INTERNAL_ERROR)
  }

  /** A document field `IdentityDocumentsResponse` accepts: absent, null or a string. */
  predicate DocumentReadable(docs: map<string, Value>, k: string) {
    k !in docs || docs[k].Null? || docs[k].Str?
  }

  /** `get_identity_documents`: admin only; 404 unless the account is an artisan; then the
      three documents, an absent or null field read as `{}`. */
  function GetIdentityDocuments(users: seq<User>, caller: User, artisanId: string): (r: Outcome<IdentityView>)
    ensures caller.UserType() != "admin" ==> r == Fail(FORBIDDEN)
    ensures caller.UserType() == "admin" && GetArtisan(users, artisanId).Fail? ==> r == Fail(NOT_FOUND)
    ensures r.Ok? ==>
      && caller.UserType() == "admin" && GetArtisan(users, artisanId).Ok?
      && var docs := IdentityDocuments(GetArtisan(users, artisanId).value.doc);
      && docs.Some?
      && (r.value.cinRecto.Some? ==> "cin_recto" in docs.value && docs.value["cin_recto"] == Str(r.value.cinRecto.value))
      && (r.value.cinRecto.None? ==> "cin_recto" !in docs.value || docs.value["cin_recto"].Null?)
      && (r.value.cinVerso.Some? ==> "cin_verso" in docs.value && docs.value["cin_verso"] == Str(r.value.cinVerso.value))
      && (r.value.cinVerso.None? ==> "cin_verso" !in docs.value || docs.value["cin_verso"].Null?)
      && (r.value.photo.Some? ==> "photo" in docs.value && docs.value["photo"] == Str(r.value.photo.value))
      && (r.value.photo.None? ==> "photo" !in docs.value || docs.value["photo"].Null?)
    ensures caller.UserType() == "admin" && GetArtisan(users, artisanId).Ok?
            && ("identity_document" !in GetArtisan(users, artisanId).value.doc
                || GetArtisan(users, artisanId).value.doc["identity_document"].Null?)
            ==> r == Ok(IdentityView(None, None, None))
    ensures r.Ok? <==>
      && caller.UserType() == "admin" && GetArtisan(users, artisanId).Ok?
      && var docs := IdentityDocuments(GetArtisan(users, artisanId).value.doc);
      && docs.Some?
      && DocumentReadable(docs.value, "cin_recto") && DocumentReadable(docs.value, "cin_verso")
      && DocumentReadable(docs.value, "photo")
    ensures caller.UserType() == "admin" && GetArtisan(users, artisanId).Ok? && r.Fail? ==> r == Fail(INTERNAL_ERROR)
  {
    if caller.UserType() != ADMIN then Fail(FORBIDDEN)
    else
      var artisan := GetArtisan(users, artisanId);
      if artisan.Fail? then Fail(NOT_FOUND)
      else
        var docs := IdentityDocuments(artisan.value.doc);
        if docs.None? then Fail(INTERNAL_ERROR)
        else
          var recto := DocumentUrl(docs.value, "cin_recto");
          var verso := DocumentUrl(docs.value, "cin_verso");
          var photo := DocumentUrl(docs.value, "photo");
          if recto.Fail? || verso.Fail? || photo.Fail? then Fail(INTERNAL_ERROR)
          else Ok(IdentityView(recto.value, verso.value, photo.value))
  }

  // ---------------------------------------------------------------------------------------------
  // The portfolio

  /** `artisan.get("portfolio", [])` as a list: an absent field is the empty list; a stored
      value that is not a list has no `append` or `pop`, which raises. */
  function PortfolioOf(doc: Doc): (r: Option<seq<Value>>)
    ensures "portfolio" !in doc ==> r == Some([])
    ensures "portfolio" in doc ==> (r.Some? <==> doc["portfolio"].List?)
    ensures "portfolio" in doc && r.Some? ==> r.value == doc["portfolio"].items
  {
    if "portfolio" !in doc then Some([])
    else if doc["portfolio"].List? then Some(doc["portfolio"].items)
    else None
  }

  /** The entry a portfolio upload appends: url, public id and upload time. */
  function PortfolioEntry(u: Uploaded, stamp: string): Value {
    Dict(map["url" := Str(u.url), "public_id" := Str(u.publicId), "uploaded_at" := Str(stamp)])
  }

  /** `upload_portfolio_image`: 403 unless the caller is an artisan, 400 for a file over the
      limit; then one entry is appended at the end of the portfolio and the new length is
      reported. */
  method UploadPortfolioImage(store: UserStore, caller: User, file: UploadFile, upload: UploadFile -> Uploaded, stamp: string)
    returns (out: Outcome<(Uploaded, nat)>)
    requires SignedIn(store.users, caller)
    modifies store
    ensures caller.UserType() != "artisan" ==> out == Fail(FORBIDDEN)
    ensures caller.UserType() == "artisan" && !WithinLimit(file) ==> out == Fail(BAD_REQUEST)
    ensures out.Fail? ==> store.users == old(store.users)
    ensures out.Ok? <==> caller.UserType() == "artisan" && WithinLimit(file) && PortfolioOf(caller.doc).Some?
    ensures out.Ok? ==>
      var before := PortfolioOf(caller.doc).value;
      && out.value == (upload(file), |before| + 1)
      && store.users == SetFields(old(store.users), caller.id, map["portfolio" := List(before + [PortfolioEntry(upload(file), stamp)])])
  {
    if caller.UserType() != ARTISAN {
      return Fail(FORBIDDEN);
    }
    if !WithinLimit(file) {
      return Fail(BAD_REQUEST);
    }
    var result := upload(file);
    var current := PortfolioOf(caller.doc);
    if current.None? {
      return Fail(INTERNAL_ERROR);
    }
    var portfolio := current.value;
    portfolio := portfolio + [PortfolioEntry(result, stamp)];
    StoreField(store, caller, "portfolio", List(portfolio));
    out := Ok((result, |portfolio|));
  }

  /** `delete_portfolio_image`: 403 unless the caller is an artisan; 404 for an index below 0 or
      not below the length; an entry that is not a dictionary has no `get` (500); otherwise
      exactly that entry is popped, the others keep their order, and the new length, one less,
      is reported. */
  method DeletePortfolioImage(store: UserStore, caller: User, index: int) returns (out: Outcome<nat>)
    requires SignedIn(store.users, caller)
    modifies store
    ensures caller.UserType() != "artisan" ==> out == Fail(FORBIDDEN)
    ensures out.Fail? ==> store.users == old(store.users)
    ensures caller.UserType() == "artisan" && PortfolioOf(caller.doc).Some? && !(0 <= index < |PortfolioOf(caller.doc).value|)
      ==> out == Fail(NOT_FOUND)
    ensures out.Ok? <==>
      && caller.UserType() == "artisan" && PortfolioOf(caller.doc).Some?
      && 0 <= index < |PortfolioOf(caller.doc).value| && PortfolioOf(caller.doc).value[index].Dict?
    ensures out.Ok? ==>
      var before := PortfolioOf(caller.doc).value;
      var after := RemoveAt(before, index);
      && out.value == |before| - 1
      && |after| == |before| - 1
      && (forall j | 0 <= j < index :: after[j] == before[j])
      && (forall j | index <= j < |after| :: after[j] == before[j + 1])
      && store.users == SetFields(old(store.users), caller.id, map["portfolio" := List(after)])
  {
    if caller.UserType() != ARTISAN {
      return Fail(FORBIDDEN);
    }
    var current := PortfolioOf(caller.doc);
    if current.None? {
      return Fail(INTERNAL_ERROR);
    }
    var portfolio := current.value;
    if index < 0 || index >= |portfolio| {
      return Fail(NOT_FOUND);
    }
    if !portfolio[index].Dict? {
      return Fail(INTERNAL_ERROR);
    }
    portfolio := RemoveAt(portfolio, index);
    StoreField(store, caller, "portfolio", List(portfolio));
    out := Ok(|portfolio|);
  }

  /** The images the multiple upload sends to the service: the files within the limit, in
      order. */
  function UploadsOf(files: seq<UploadFile>, upload: UploadFile -> Uploaded): seq<Uploaded>
    decreases |files|
  {
    if files == [] then []
    else
      var last := files[|files| - 1];
      UploadsOf(files[..|files| - 1], upload) + (if WithinLimit(last) then [upload(last)] else [])
  }

  /** One upload per file within the limit, each the upload of such a file. */
  lemma {:induction false} UploadsOfSpec(files: seq<UploadFile>, upload: UploadFile -> Uploaded)
    ensures |UploadsOf(files, upload)| == Count(files, WithinLimitTest())
    ensures forall u | u in UploadsOf(files, upload) :: exists i | 0 <= i < |files| :: WithinLimit(files[i]) && u == upload(files[i])
    decreases |files|
  {
    if files != [] {
      var init := files[..|files| - 1];
      UploadsOfSpec(init, upload);
      forall u | u in UploadsOf(files, upload)
        ensures exists i | 0 <= i < |files| :: WithinLimit(files[i]) && u == upload(files[i])
      {
        if u in UploadsOf(init, upload) {
          var i :| 0 <= i < |init| && WithinLimit(init[i]) && u == upload(init[i]);
          assert files[i] == init[i];
        } else {
          assert u == upload(files[|files| - 1]);
        }
      }
    }
  }

  function EntriesOf(uploads: seq<Uploaded>, stamp: string): seq<Value> {
    seq(|uploads|, k requires 0 <= k < |uploads| => PortfolioEntry(uploads[k], stamp))
  }

  /** `upload_multiple_portfolio_images`: 403 unless the caller is an artisan, 400 without
      files; then every file within the limit is uploaded and appended in order, larger ones
      are skipped, and the uploads and the final length are reported. */
  method UploadMultiplePortfolioImages(store: UserStore, caller: User, files: seq<UploadFile>, upload: UploadFile -> Uploaded, stamp: string)
    returns (out: Outcome<(seq<Uploaded>, nat)>)
    requires SignedIn(store.users, caller)
    modifies store
    ensures caller.UserType() != "artisan" ==> out == Fail(FORBIDDEN)
    ensures caller.UserType() == "artisan" && files == [] ==> out == Fail(BAD_REQUEST)
    ensures out.Fail? ==> store.users == old(store.users)
    ensures out.Ok? <==> caller.UserType() == "artisan" && files != [] && PortfolioOf(caller.doc).Some?
    ensures out.Ok? ==>
      var before := PortfolioOf(caller.doc).value;
      && out.value.0 == UploadsOf(files, upload)
      && out.value.1 == |before| + Count(files, WithinLimitTest())
      && store.users == SetFields(old(store.users), caller.id, map["portfolio" := List(before + EntriesOf(UploadsOf(files, upload), stamp))])
  {
    if caller.UserType() != ARTISAN {
      return Fail(FORBIDDEN);
    }
    if files == [] {
      return Fail(BAD_REQUEST);
    }
    var current := PortfolioOf(caller.doc);
    if current.None? {
      return Fail(INTERNAL_ERROR);
    }
    var before := current.value;
    var portfolio := before;
    var uploaded: seq<Uploaded> := [];
    var i := 0;
    while i < |files|
      invariant 0 <= i <= |files|
      invariant uploaded == UploadsOf(files[..i], upload)
      invariant portfolio == before + EntriesOf(uploaded, stamp)
    {
      assert files[..i + 1][..i] == files[..i];
      if WithinLimit(files[i]) {
        var result := upload(files[i]);
        assert EntriesOf(uploaded + [result], stamp) == EntriesOf(uploaded, stamp) + [PortfolioEntry(result, stamp)];
        portfolio := portfolio + [PortfolioEntry(result, stamp)];
        uploaded := uploaded + [result];
      }
      i := i + 1;
    }
    assert files[..i] == files;
    UploadsOfSpec(files, upload);
    StoreField(store, caller, "portfolio", List(portfolio));
    out := Ok((uploaded, |portfolio|));
  }

  /** `get_portfolio`: 403 unless the caller is an artisan; the entries and their number. */
  function GetPortfolio(caller: User): (r: Outcome<(seq<Value>, nat)>)
    ensures caller.UserType() != "artisan" ==> r == Fail(FORBIDDEN)
    ensures r.Ok? ==> PortfolioOf(caller.doc) == Some(r.value.0) && r.value.1 == |r.value.0|
    ensures caller.UserType() == "artisan" && "portfolio" !in caller.doc ==> r == Ok(([], 0))
    ensures r.Ok? <==> caller.UserType() == "artisan" && PortfolioOf(caller.doc).Some?
    ensures caller.UserType() == "artisan" && r.Fail? ==> r == Fail(INTERNAL_ERROR)
  {
    if caller.UserType() != ARTISAN then Fail(FORBIDDEN)
    else
      var portfolio := PortfolioOf(caller.doc);
      if portfolio.None? then Fail(INTERNAL_ERROR) else Ok((portfolio.value, |portfolio.value|))
  }
}
