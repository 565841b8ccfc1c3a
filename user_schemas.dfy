/** Account request shapes (app/schemas/user_schemas.py): the password length rule of
    registration and of a password reset, the defaults of a new account, and the profile
    update bodies, whose account fields (those of `UserUpdate`) are all optional. */
module UserSchemas {
  import opened Common

  const MIN_PASSWORD_LENGTH: nat := 8

  /** The shared `password_strength` validator. */
  predicate StrongEnough(password: string) {
    |password| >= MIN_PASSWORD_LENGTH
  }

  /** The account fields of a registration body; language and picture are None when left out. */
  datatype UserCreateBody = UserCreateBody(
    email: string,
    phone: string,
    language: Option<string>,
    profilePicture: Option<Option<string>>,
    password: string)

  datatype UserCreate = UserCreate(
    email: string,
    phone: string,
    language: string,
    profilePicture: Option<string>,
    password: string)

  /** `UserCreate`: the password has at least 8 characters; language defaults to "fr" and the
      profile picture to None. */
  function ValidateUserCreate(body: UserCreateBody): (r: Outcome<UserCreate>)
    ensures r.Ok? <==> |body.password| >= 8
    ensures r.Fail? ==> r.code == UNPROCESSABLE
    ensures r.Ok? ==>
      && r.value.email == body.email && r.value.phone == body.phone
      && r.value.password == body.password
      && (body.language.None? ==> r.value.language == "fr")
      && (body.language.Some? ==> r.value.language == body.language.value)
      && (body.profilePicture.None? ==> r.value.profilePicture.None?)
      && (body.profilePicture.Some? ==> r.value.profilePicture == body.profilePicture.value)
  {
    if StrongEnough(body.password) then
      Ok(UserCreate(body.email, body.phone, body.language.GetOr("fr"), body.profilePicture.GetOr(None),
                    body.password))
    else
      Fail(UNPROCESSABLE)
  }

  /** `ResetPasswordRequest`: the new password has at least 8 characters. */
  function ValidateResetPassword(resetToken: string, newPassword: string): (r: Outcome<(string, string)>)
    ensures r.Ok? <==> |newPassword| >= 8
    ensures r.Ok? ==> r.value == (resetToken, newPassword)
    ensures r.Fail? ==> r.code == UNPROCESSABLE
  {
    if StrongEnough(newPassword) then Ok((resetToken, newPassword)) else Fail(UNPROCESSABLE)
  }

  // ---------------------------------------------------------------------------------------------
  // The profile update bodies `ClientUpdate` and `ArtisanUpdate`, received as the fields that
  // were sent. Each inherits the required names (and an artisan's trade) from its base model,
  // so those must be sent; every other field is optional.

  /** What a field of a flat model accepts. */
  datatype Leaf =
    | Text       // `str`, required
    | OptText    // `Optional[str]`
    | OptInt     // `Optional[int]`
    | TextList   // `List[str]` with a default

  /** What a field of an update body accepts: a flat field, or an optional nested model whose
      own fields are flat. */
  datatype FieldKind =
    | Field(leaf: Leaf)
    | OptObject(fields: map<string, Leaf>)

  /** Text that an `int` field accepts in lax mode: after stripping surrounding whitespace, an
      optional sign followed by at least one decimal digit. */
  predicate IntText(s: string) {
    var t := Strip(s);
    && t != []
    && (if t[0] == '+' || t[0] == '-' then |t| > 1 && AllDigits(t[1..]) else AllDigits(t))
  }

  predicate AllDigits(s: string) {
    forall i | 0 <= i < |s| :: IsDigit(s[i])
  }

  /** The integer such text denotes. */
  function IntOfText(s: string): int
    requires IntText(s)
  {
    var t := Strip(s);
    if t[0] == '-' then -(DigitsValue(t[1..]) as int)
    else if t[0] == '+' then DigitsValue(t[1..])
    else DigitsValue(t)
  }

  /** A value a flat field accepts. An `int` field also takes a boolean and integer text. */
  predicate LeafFits(v: Value, leaf: Leaf) {
    match leaf
    case Text => v.Str?
    case OptText => v.Null? || v.Str?
    case OptInt => v.Null? || v.Int? || v.Bool? || (v.Str? && IntText(v.s))
    case TextList => v.List? && forall i | 0 <= i < |v.items| :: v.items[i].Str?
  }

  /** The value a flat field holds after validation: an `int` field converts a boolean to 0 or 1
      and integer text to its integer; every other accepted value is kept. */
  function LeafValue(v: Value, leaf: Leaf): (r: Value)
    requires LeafFits(v, leaf)
    ensures leaf != OptInt ==> r == v
    ensures leaf == OptInt ==> (v.Null? <==> r.Null?) && (r.Null? || r.Int?)
    ensures leaf == OptInt && v.Int? ==> r == v
    ensures leaf == OptInt && v.Bool? ==> r == Int(if v.b then 1 else 0)
    ensures leaf == OptInt && v.Str? ==> r == Int(IntOfText(v.s))
  {
    if leaf == OptInt && v.Bool? then Int(if v.b then 1 else 0)
    else if leaf == OptInt && v.Str? then Int(IntOfText(v.s))
    else v
  }

  /** The sent fields of a flat model are valid: every required one is present and every field
      of the model that was sent is accepted. Unknown fields are ignored. */
  predicate FlatFits(body: Doc, schema: map<string, Leaf>) {
    && (forall k | k in schema && schema[k] == Text :: k in body)
    && (forall k | k in body && k in schema :: LeafFits(body[k], schema[k]))
  }

  /** `model_dump(exclude_unset=True)` of a valid flat model: the sent fields of the model, each
      validated. */
  function FlatDump(body: Doc, schema: map<string, Leaf>): (r: Doc)
    requires FlatFits(body, schema)
    ensures r.Keys == body.Keys * schema.Keys
    ensures forall k | k in r :: r[k] == LeafValue(body[k], schema[k])
  {
    map k | k in body && k in schema :: LeafValue(body[k], schema[k])
  }

  predicate Fits(v: Value, kind: FieldKind) {
    match kind
    case Field(leaf) => LeafFits(v, leaf)
    case OptObject(fields) => v.Null? || (v.Dict? && FlatFits(v.fields, fields))
  }

  /** The dump of an accepted field: a nested model keeps only its own sent fields. */
  function Dumped(v: Value, kind: FieldKind): (r: Value)
    requires Fits(v, kind)
    ensures kind.Field? ==> r == LeafValue(v, kind.leaf)
    ensures kind.OptObject? && v.Null? ==> r == Null
    ensures kind.OptObject? && v.Dict? ==> r == Dict(FlatDump(v.fields, kind.fields))
  {
    match kind
    case Field(leaf) => LeafValue(v, leaf)
    case OptObject(fields) => if v.Null? then Null else Dict(FlatDump(v.fields, fields))
  }

  /** `UserUpdate` contributes these fields to both bodies. */
  const ACCOUNT_FIELDS: map<string, FieldKind> :=
    map["email" := Field(OptText), "phone" := Field(OptText), "language" := Field(OptText),
        "password" := Field(OptText), "profile_picture" := Field(OptText)]

  const CLIENT_UPDATE: map<string, FieldKind> :=
    ACCOUNT_FIELDS + map["first_name" := Field(Text), "last_name" := Field(Text), "address" := Field(OptText)]

  /** `IdentityDocument`: the three document urls, each optional. */
  const IDENTITY_DOCUMENT: map<string, Leaf> :=
    map["cin_recto" := OptText, "cin_verso" := OptText, "photo" := OptText]

  /** `Availability`: a list of time slots per weekday, each defaulting to empty. */
  const AVAILABILITY: map<string, Leaf> :=
    map["monday" := TextList, "tuesday" := TextList, "wednesday" := TextList, "thursday" := TextList,
        "friday" := TextList, "saturday" := TextList, "sunday" := TextList]

  const ARTISAN_UPDATE: map<string, FieldKind> :=
    ACCOUNT_FIELDS + map[
      "first_name" := Field(Text), "last_name" := Field(Text), "company_name" := Field(OptText),
      "trade" := Field(Text), "description" := Field(OptText), "years_of_experience" := Field(OptInt),
      "address" := Field(OptText), "identity_document" := OptObject(IDENTITY_DOCUMENT),
      "certifications" := Field(TextList), "portfolio" := Field(TextList),
      "availability" := OptObject(AVAILABILITY)]

  /** Validation of an update body followed by `model_dump(exclude_unset=True)`: 422 unless every
      required field was sent and every sent field of the model has the accepted shape; the
      result holds the sent fields of the model, unknown ones being dropped, each as validated. */
  function ValidateProfileUpdate(body: Doc, schema: map<string, FieldKind>): (r: Outcome<Doc>)
    ensures r.Ok? <==>
      && (forall k | k in schema && schema[k] == Field(Text) :: k in body)
      && (forall k | k in body && k in schema :: Fits(body[k], schema[k]))
    ensures r.Fail? ==> r.code == UNPROCESSABLE
    ensures r.Ok? ==> r.value.Keys == body.Keys * schema.Keys
    ensures r.Ok? ==> forall k | k in r.value :: r.value[k] == Dumped(body[k], schema[k])
  {
    if && (forall k | k in schema && schema[k] == Field(Text) :: k in body)
       && (forall k | k in body && k in schema :: Fits(body[k], schema[k]))
    then Ok(map k | k in body && k in schema :: Dumped(body[k], schema[k]))
    else Fail(UNPROCESSABLE)
  }

  /** The numeral of an integer, as `str(n)` writes it. */
  function IntNumeral(n: int): string {
    if n < 0 then "-" + Decimal(-n) else Decimal(n)
  }

  /** An `int` field reads back every integer from its numeral. */
  lemma IntNumeralAccepted(n: int)
    ensures IntText(IntNumeral(n)) && IntOfText(IntNumeral(n)) == n
  {
    var s := IntNumeral(n);
    assert Strip(s) == s by { NoSpaceEndsStrip(s); }
    if n < 0 {
      DecimalRoundTrip(-n);
      assert s[1..] == Decimal(-n);
    } else {
      DecimalRoundTrip(n);
    }
  }

  /** A string that neither starts nor ends with whitespace is its own strip. */
  lemma NoSpaceEndsStrip(s: string)
    requires s != [] && !IsSpace(s[0]) && !IsSpace(s[|s| - 1])
    ensures Strip(s) == s
  {
  }

  /** `years_of_experience` sent as the text "5" is stored as the number 5. */
  lemma YearsAsTextStoredAsNumber()
    ensures Fits(Str("5"), Field(OptInt)) && Dumped(Str("5"), Field(OptInt)) == Int(5)
  {
    assert Strip("5") == "5" by { NoSpaceEndsStrip("5"); }
    assert DigitsValue("5") == 5 by { assert "5"[..0] == []; }
  }

  /** The artisan update takes its experience as an `int` and validates its two nested fields
      against their own models. */
  lemma ArtisanFieldKinds()
    ensures "years_of_experience" in ARTISAN_UPDATE && ARTISAN_UPDATE["years_of_experience"] == Field(OptInt)
    ensures "identity_document" in ARTISAN_UPDATE && ARTISAN_UPDATE["identity_document"] == OptObject(IDENTITY_DOCUMENT)
    ensures "availability" in ARTISAN_UPDATE && ARTISAN_UPDATE["availability"] == OptObject(AVAILABILITY)
  {
  }

  /** An identity document with a key the nested model does not declare is stored without it. */
  lemma UnknownDocumentKeyDropped()
    ensures var sent := Dict(map["cin_recto" := Str("r.jpg"), "note" := Str("x")]);
      && Fits(sent, OptObject(IDENTITY_DOCUMENT))
      && Dumped(sent, OptObject(IDENTITY_DOCUMENT)) == Dict(map["cin_recto" := Str("r.jpg")])
  {
    var docs := map["cin_recto" := Str("r.jpg"), "note" := Str("x")];
    assert FlatDump(docs, IDENTITY_DOCUMENT).Keys == {"cin_recto"};
  }

  /** A nested model with a value of the wrong type makes the whole update invalid. */
  lemma BadNestedFieldRejected()
    ensures var body := map[
        "first_name" := Str("Amal"), "last_name" := Str("Idrissi"), "trade" := Str("potter"),
        "availability" := Dict(map["monday" := Str("9-12")])];
      ValidateProfileUpdate(body, ARTISAN_UPDATE) == Fail(UNPROCESSABLE)
  {
    var week := Dict(map["monday" := Str("9-12")]);
    ArtisanFieldKinds();
    assert !Fits(week, ARTISAN_UPDATE["availability"]) by {
      assert !LeafFits(week.fields["monday"], AVAILABILITY["monday"]);
    }
  }
}
