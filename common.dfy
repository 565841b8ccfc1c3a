/** Shared vocabulary of the backend model: optional values, HTTP outcomes, the role strings,
    loosely typed document values with Python truthiness, Python's whitespace and `str.strip`,
    the textual form of a database object id, dates with the naive-means-UTC rule, and
    zero-padded decimal numerals. */
module Common {

  datatype Option<+T> = None | Some(value: T) {
    function GetOr(default: T): T {
      match this
      case Some(v) => v
      case None => default
    }
  }

  /** Result of a request handler: a value, or the HTTP status code of the error it raises. */
  datatype Outcome<+T> = Ok(value: T) | Fail(code: nat)

  const BAD_REQUEST: nat := 400
  const FORBIDDEN: nat := 403
  const NOT_FOUND: nat := 404
  /** What the web framework answers when a request body fails its schema validators. */
  const UNPROCESSABLE: nat := 422
  const INTERNAL_ERROR: nat := 500

  /** Values of the `user_type` field. A document without the field is given the empty string,
      which, like Python's None, equals none of these. */
  const CLIENT := "client"
  const ARTISAN := "artisan"
  const ADMIN := "admin"

  /** A value stored in a document of the database. */
  datatype Value =
    | Null
    | Bool(b: bool)
    | Int(i: int)
    | Str(s: string)
    | List(items: seq<Value>)
    | Dict(fields: map<string, Value>)

  type Doc = map<string, Value>

  /** Python's truth value of a stored value (`if v:`). */
  predicate Truthy(v: Value) {
    match v
    case Null => false
    case Bool(b) => b
    case Int(i) => i != 0
    case Str(s) => s != ""
    case List(items) => items != []
    case Dict(fields) => fields != map[]
  }

  /** `d.get(k)`: None when the key is absent. */
  function Get(d: Doc, k: string): (r: Option<Value>)
    ensures r.Some? <==> k in d
    ensures r.Some? ==> r.value == d[k]
  {
    if k in d then Some(d[k]) else None
  }

  /** `bool(d.get(k))`: the key is present and its value is truthy. */
  predicate TruthyAt(d: Doc, k: string) {
    k in d && Truthy(d[k])
  }

  /** The string stored under `k`, or "" when it is absent or not a string. */
  function StrAt(d: Doc, k: string): string {
    if k in d && d[k].Str? then d[k].s else ""
  }

  // ---------------------------------------------------------------------------------------------
  // Whitespace and strip, as Python's `str.isspace` and `str.strip()` define them.

  predicate IsSpace(c: char) {
    c == ' ' || c == '\t' || c == '\n' || c == '\r' || c == '\U{000B}' || c == '\U{000C}'
    || ('\U{001C}' <= c <= '\U{001F}') || c == '\U{0085}' || c == '\U{00A0}' || c == '\U{1680}'
    || ('\U{2000}' <= c <= '\U{200A}') || c == '\U{2028}' || c == '\U{2029}' || c == '\U{202F}'
    || c == '\U{205F}' || c == '\U{3000}'
  }

  /** Every character is whitespace (the empty string included). */
  predicate IsBlank(s: string) {
    forall i | 0 <= i < |s| :: IsSpace(s[i])
  }

  function StripLeft(s: string): (r: string)
    decreases |s|
  {
    if s != [] && IsSpace(s[0]) then StripLeft(s[1..]) else s
  }

  function StripRight(s: string): (r: string)
    decreases |s|
  {
    if s != [] && IsSpace(s[|s| - 1]) then StripRight(s[..|s| - 1]) else s
  }

  /** `s.strip()`. */
  function Strip(s: string): string {
    StripRight(StripLeft(s))
  }

  lemma {:induction false} StripLeftEmptyIffBlank(s: string)
    ensures StripLeft(s) == "" <==> IsBlank(s)
    decreases |s|
  {
    if s != [] && IsSpace(s[0]) {
      StripLeftEmptyIffBlank(s[1..]);
      assert IsBlank(s) <==> IsBlank(s[1..]) by {
        if IsBlank(s[1..]) {
          forall i | 0 <= i < |s| ensures IsSpace(s[i]) {
            if i > 0 { assert s[i] == s[1..][i - 1]; }
          }
        }
      }
    }
  }

  lemma {:induction false} StripLeftStartsWithNonSpace(s: string)
    ensures StripLeft(s) != "" ==> !IsSpace(StripLeft(s)[0])
    decreases |s|
  {
    if s != [] && IsSpace(s[0]) {
      StripLeftStartsWithNonSpace(s[1..]);
    }
  }

  lemma {:induction false} StripRightKeepsNonSpaceHead(s: string)
    requires s != [] && !IsSpace(s[0])
    ensures StripRight(s) != ""
    decreases |s|
  {
    if IsSpace(s[|s| - 1]) {
      StripRightKeepsNonSpaceHead(s[..|s| - 1]);
    }
  }

  /** `not s.strip()` holds exactly of the strings made of whitespace only. */
  lemma StripEmptyIffBlank(s: string)
    ensures Strip(s) == "" <==> IsBlank(s)
  {
    StripLeftEmptyIffBlank(s);
    StripLeftStartsWithNonSpace(s);
    if StripLeft(s) != "" {
      StripRightKeepsNonSpaceHead(StripLeft(s));
    }
  }

  /** `bool(s.strip())`: the validators' test that a text is not empty once stripped. */
  function NonBlank(s: string): (ok: bool)
    ensures ok <==> exists i | 0 <= i < |s| :: !IsSpace(s[i])
  {
    StripEmptyIffBlank(s);
    Strip(s) != ""
  }

  // ---------------------------------------------------------------------------------------------
  // Object ids. A string denotes an object id iff it is 24 hexadecimal digits (the rule the
  // database driver applies to strings); two such strings name the same id regardless of case.

  predicate IsHexDigit(c: char) {
    ('0' <= c <= '9') || ('a' <= c <= 'f') || ('A' <= c <= 'F')
  }

  predicate IsObjectId(s: string) {
    |s| == 24 && forall i | 0 <= i < |s| :: IsHexDigit(s[i])
  }

  function LowerChar(c: char): char {
    if 'A' <= c <= 'F' then (c as int + 32) as char else c
  }

  /** The canonical (lower-case) spelling of an id, as `str(ObjectId(s))` gives it. */
  function CanonicalId(s: string): (r: string)
    ensures |r| == |s|
    ensures forall i | 0 <= i < |s| :: r[i] == LowerChar(s[i])
  {
    seq(|s|, i requires 0 <= i < |s| => LowerChar(s[i]))
  }

  // ---------------------------------------------------------------------------------------------
  // Dates. Instants are seconds on one UTC time line; a naive date is read as UTC.

  datatype DateTime = Naive(wall: int) | Aware(wall: int, offsetSeconds: int)

  /** `v.replace(tzinfo=timezone.utc)` when v is naive, then the instant it denotes. */
  function Instant(d: DateTime): int {
    match d
    case Naive(w) => w
    case Aware(w, off) => w - off
  }

  // ---------------------------------------------------------------------------------------------
  // Decimal numerals, as `f"{n:04d}"` writes them.

  function DigitChar(d: nat): char
    requires d < 10
  {
    ('0' as int + d) as char
  }

  predicate IsDigit(c: char) {
    '0' <= c <= '9'
  }

  function Decimal(n: nat): (r: string)
    ensures r != []
    ensures forall i | 0 <= i < |r| :: IsDigit(r[i])
    decreases n
  {
    if n < 10 then [DigitChar(n)] else Decimal(n / 10) + [DigitChar(n % 10)]
  }

  function DigitsValue(s: string): nat
    requires forall i | 0 <= i < |s| :: IsDigit(s[i])
    decreases |s|
  {
    if s == [] then 0
    else 10 * DigitsValue(s[..|s| - 1]) + DigitValue(s[|s| - 1])
  }

  function DigitValue(c: char): (d: nat)
    requires IsDigit(c)
    ensures d < 10
  {
    c as int - '0' as int
  }

  /** Left-pads with '0' up to `width` characters; longer numerals are kept whole. */
  function ZeroPad(s: string, width: nat): (r: string)
    ensures |r| == if |s| >= width then |s| else width
    ensures forall i | 0 <= i < |r| - |s| :: r[i] == '0'
    ensures r[|r| - |s|..] == s
    decreases width - |s|
  {
    if |s| >= width then s else ZeroPad(['0'] + s, width)
  }

  /** `f"{n:0{width}d}"`. */
  function PaddedDecimal(n: nat, width: nat): string {
    ZeroPad(Decimal(n), width)
  }

  lemma {:induction false} DecimalRoundTrip(n: nat)
    ensures DigitsValue(Decimal(n)) == n
    decreases n
  {
    if n >= 10 {
      DecimalRoundTrip(n / 10);
      var s := Decimal(n);
      assert s[..|s| - 1] == Decimal(n / 10);
    }
  }

  lemma {:induction false} LeadingZerosAddNothing(s: string, k: nat)
    requires forall i | 0 <= i < |s| :: IsDigit(s[i])
    requires k <= |s|
    requires forall i | 0 <= i < k :: s[i] == '0'
    ensures DigitsValue(s) == DigitsValue(s[k..])
    decreases |s|
  {
    if k < |s| {
      var t := s[..|s| - 1];
      LeadingZerosAddNothing(t, k);
      assert t[k..] == s[k..][..|s[k..]| - 1];
    } else {
      AllZerosValueZero(s);
      assert s[k..] == [];
    }
  }

  lemma {:induction false} AllZerosValueZero(s: string)
    requires forall i | 0 <= i < |s| :: s[i] == '0'
    ensures DigitsValue(s) == 0
    decreases |s|
  {
    if s != [] { AllZerosValueZero(s[..|s| - 1]); }
  }

  /** A padded numeral reads back as the number it was made from. */
  lemma PaddedDecimalRoundTrip(n: nat, width: nat)
    ensures forall i | 0 <= i < |PaddedDecimal(n, width)| :: IsDigit(PaddedDecimal(n, width)[i])
    ensures DigitsValue(PaddedDecimal(n, width)) == n
    ensures |PaddedDecimal(n, width)| >= width
  {
    var d := Decimal(n);
    var r := ZeroPad(d, width);
    var k := |r| - |d|;
    assert forall i | 0 <= i < |r| :: IsDigit(r[i]) by {
      forall i | 0 <= i < |r| ensures IsDigit(r[i]) {
        if i >= k { assert r[i] == r[k..][i - k]; }
      }
    }
    LeadingZerosAddNothing(r, k);
    DecimalRoundTrip(n);
  }

  lemma {:induction false} DecimalLength(n: nat, w: nat)
    ensures n < Pow10(w) ==> |Decimal(n)| <= if w == 0 then 1 else w
    decreases n
  {
    if n >= 10 && w > 0 {
      DecimalLength(n / 10, w - 1);
    }
  }

  function Pow10(w: nat): (r: nat)
    ensures r >= 1
  {
    if w == 0 then 1 else 10 * Pow10(w - 1)
  }

  /** Numbers below 10^width come out exactly `width` characters long. */
  lemma PaddedDecimalExactWidth(n: nat, width: nat)
    requires width >= 1 && n < Pow10(width)
    ensures |PaddedDecimal(n, width)| == width
  {
    DecimalLength(n, width);
  }

  // ---------------------------------------------------------------------------------------------
  // Sequences: filtering, counting and the skip/limit window of a database cursor. Filtering is
  // defined on the last element, the order in which a loop appending to a list builds it.

  function Filter<T(==)>(s: seq<T>, p: T -> bool): (r: seq<T>)
    ensures |r| <= |s|
    ensures forall x | x in r :: x in s && p(x)
    ensures forall i | 0 <= i < |s| && p(s[i]) :: s[i] in r
    ensures forall i | 0 <= i < |r| :: p(r[i])
  {
    SelectMembers(s, p);
    Select(s, p)
  }

  /** The elements satisfying `p`, in order; `Filter` is this with its properties attached. */
  function Select<T>(s: seq<T>, p: T -> bool): seq<T>
    decreases |s|
  {
    if s == [] then []
    else Select(s[..|s| - 1], p) + (if p(s[|s| - 1]) then [s[|s| - 1]] else [])
  }

  lemma {:induction false} SelectMembers<T>(s: seq<T>, p: T -> bool)
    ensures var r := Select(s, p);
      && |r| <= |s|
      && (forall x | x in r :: x in s && p(x))
      && (forall i | 0 <= i < |s| && p(s[i]) :: s[i] in r)
      && (forall i | 0 <= i < |r| :: p(r[i]))
    decreases |s|
  {
    if s != [] { SelectMembers(s[..|s| - 1], p); }
  }

  lemma {:induction false} SelectConcat<T>(a: seq<T>, b: seq<T>, p: T -> bool)
    ensures Select(a + b, p) == Select(a, p) + Select(b, p)
    decreases |b|
  {
    if b == [] {
      assert a + b == a;
    } else {
      var n := |b| - 1;
      var ab := a + b;
      var last := if p(b[n]) then [b[n]] else [];
      assert ab[..|ab| - 1] == a + b[..n];
      assert ab[|ab| - 1] == b[n];
      SelectConcat(a, b[..n], p);
      calc {
        Select(ab, p);
        Select(a + b[..n], p) + last;
        (Select(a, p) + Select(b[..n], p)) + last;
        Select(a, p) + (Select(b[..n], p) + last);
        Select(a, p) + Select(b, p);
      }
    }
  }

  function Count<T>(s: seq<T>, p: T -> bool): (n: nat)
    ensures n <= |s|
    decreases |s|
  {
    if s == [] then 0
    else Count(s[..|s| - 1], p) + (if p(s[|s| - 1]) then 1 else 0)
  }

  lemma {:induction false} FilterLength<T>(s: seq<T>, p: T -> bool)
    ensures |Filter(s, p)| == Count(s, p)
    decreases |s|
  {
    if s != [] { FilterLength(s[..|s| - 1], p); }
  }

  /** `cursor.skip(skip).limit(limit)`: drops `skip` items, then keeps at most `limit` of them;
      a limit of 0 means no limit. */
  function Page<T(==)>(s: seq<T>, skip: nat, limit: nat): (r: seq<T>)
    ensures skip >= |s| ==> r == []
    ensures skip < |s| ==> r == s[skip..][..if limit == 0 || limit > |s| - skip then |s| - skip else limit]
    ensures limit > 0 ==> |r| <= limit
    ensures forall x | x in r :: x in s
  {
    if skip >= |s| then []
    else
      var rest := s[skip..];
      if limit == 0 || limit >= |rest| then rest else rest[..limit]
  }

  predicate Distinct<T(==)>(s: seq<T>) {
    forall i, j | 0 <= i < j < |s| :: s[i] != s[j]
  }

  /** The position of the first element satisfying `p` (`find_one` over a collection in its
      natural order), or None. */
  function IndexWhere<T>(s: seq<T>, p: T -> bool): (r: Option<nat>)
    ensures r.Some? ==> r.value < |s| && p(s[r.value]) && forall j | 0 <= j < r.value :: !p(s[j])
    ensures r.None? ==> forall j | 0 <= j < |s| :: !p(s[j])
  {
    IndexWhereFrom(s, p, 0)
  }

  function IndexWhereFrom<T>(s: seq<T>, p: T -> bool, k: nat): (r: Option<nat>)
    requires k <= |s|
    requires forall j | 0 <= j < k :: !p(s[j])
    ensures r.Some? ==> k <= r.value < |s| && p(s[r.value]) && forall j | 0 <= j < r.value :: !p(s[j])
    ensures r.None? ==> forall j | 0 <= j < |s| :: !p(s[j])
    decreases |s| - k
  {
    if k == |s| then None else if p(s[k]) then Some(k) else IndexWhereFrom(s, p, k + 1)
  }

  /** The first match is at `k` when `k` matches and nothing before it does. */
  lemma IndexWhereAt<T>(s: seq<T>, p: T -> bool, k: nat)
    requires k < |s| && p(s[k])
    requires forall j | 0 <= j < k :: !p(s[j])
    ensures IndexWhere(s, p) == Some(k)
  {
  }

  /** The sequence without its element at position `i`, the others in their order. */
  function RemoveAt<T>(s: seq<T>, i: nat): (r: seq<T>)
    requires i < |s|
    ensures |r| == |s| - 1
    ensures forall j | 0 <= j < i :: r[j] == s[j]
    ensures forall j | i <= j < |r| :: r[j] == s[j + 1]
  {
    s[..i] + s[i + 1..]
  }

  /** `after` is `before` with one occurrence of `x` replaced by `y`, every other element kept
      in its place: a `$set` on one document of a collection. */
  predicate ReplacedInPlace<T(==)>(before: seq<T>, x: T, after: seq<T>, y: T) {
    exists i | 0 <= i < |before| :: before[i] == x && after == before[i := y]
  }

  /** `after` is `before` without one occurrence of `x`, the others in their order: a
      `delete_one` on a collection. */
  predicate RemovedInPlace<T(==)>(before: seq<T>, x: T, after: seq<T>) {
    exists i | 0 <= i < |before| :: before[i] == x && after == before[..i] + before[i + 1..]
  }

  /** Removing one position loses exactly the item there. */
  lemma RemoveAtMultiset<T>(s: seq<T>, i: nat)
    requires i < |s|
    ensures multiset(RemoveAt(s, i)) + multiset{s[i]} == multiset(s)
  {
    assert s == s[..i] + [s[i]] + s[i + 1..];
  }

  /** One more matching item extends the window exactly when the window has not reached it
      yet and is not full. */
  lemma PageSnoc<T>(f: seq<T>, x: T, skip: nat, limit: nat)
    ensures Page(f + [x], skip, limit)
         == Page(f, skip, limit) + (if |f| >= skip && (limit == 0 || |f| - skip < limit) then [x] else [])
  {
    if |f| >= skip {
      assert (f + [x])[skip..] == f[skip..] + [x];
    }
  }

  lemma FilterSnoc<T>(s: seq<T>, x: T, p: T -> bool)
    ensures Filter(s + [x], p) == Filter(s, p) + (if p(x) then [x] else [])
  {
    assert (s + [x])[..|s|] == s;
  }

  lemma FilterConcat<T>(a: seq<T>, b: seq<T>, p: T -> bool)
    ensures Filter(a + b, p) == Filter(a, p) + Filter(b, p)
  {
    SelectConcat(a, b, p);
  }

  lemma {:induction false} FilterNone<T>(s: seq<T>, p: T -> bool)
    requires forall i | 0 <= i < |s| :: !p(s[i])
    ensures Filter(s, p) == []
    decreases |s|
  {
    if s != [] { FilterNone(s[..|s| - 1], p); }
  }

  /** Two tests that agree on every element select the same elements. */
  lemma {:induction false} FilterAgrees<T>(s: seq<T>, p: T -> bool, q: T -> bool)
    requires forall i | 0 <= i < |s| :: p(s[i]) == q(s[i])
    ensures Filter(s, p) == Filter(s, q)
    decreases |s|
  {
    if s != [] { FilterAgrees(s[..|s| - 1], p, q); }
  }

  lemma {:induction false} FilterAll<T>(s: seq<T>, p: T -> bool)
    requires forall i | 0 <= i < |s| :: p(s[i])
    ensures Filter(s, p) == s
    decreases |s|
  {
    if s != [] {
      FilterAll(s[..|s| - 1], p);
      assert s[..|s| - 1] + [s[|s| - 1]] == s;
    }
  }

  // ---------------------------------------------------------------------------------------------
  // Sorting by an integer key, as the database's `sort` and Python's stable `list.sort` do it:
  // an element is inserted after every element whose key is not greater, so equal keys keep
  // their order.

  predicate SortedBy<T>(s: seq<T>, key: T -> int) {
    forall i, j | 0 <= i < j < |s| :: key(s[i]) <= key(s[j])
  }

  function InsertBy<T>(s: seq<T>, x: T, key: T -> int): (r: seq<T>)
    decreases |s|
  {
    if s == [] || key(s[|s| - 1]) <= key(x) then s + [x]
    else InsertBy(s[..|s| - 1], x, key) + [s[|s| - 1]]
  }

  function SortBy<T>(s: seq<T>, key: T -> int): (r: seq<T>)
    decreases |s|
  {
    if s == [] then [] else InsertBy(SortBy(s[..|s| - 1], key), s[|s| - 1], key)
  }

  lemma {:induction false} InsertByKeepsElements<T>(s: seq<T>, x: T, key: T -> int)
    ensures multiset(InsertBy(s, x, key)) == multiset(s) + multiset{x}
    decreases |s|
  {
    if !(s == [] || key(s[|s| - 1]) <= key(x)) {
      InsertByKeepsElements(s[..|s| - 1], x, key);
      assert s == s[..|s| - 1] + [s[|s| - 1]];
    }
  }

  lemma {:induction false} InsertByBounded<T>(s: seq<T>, x: T, key: T -> int, bound: int)
    requires forall i | 0 <= i < |s| :: key(s[i]) <= bound
    requires key(x) <= bound
    ensures forall i | 0 <= i < |InsertBy(s, x, key)| :: key(InsertBy(s, x, key)[i]) <= bound
    decreases |s|
  {
    if !(s == [] || key(s[|s| - 1]) <= key(x)) {
      InsertByBounded(s[..|s| - 1], x, key, bound);
    }
  }

  lemma {:induction false} InsertByKeepsOrder<T>(s: seq<T>, x: T, key: T -> int)
    requires SortedBy(s, key)
    ensures SortedBy(InsertBy(s, x, key), key)
    decreases |s|
  {
    if !(s == [] || key(s[|s| - 1]) <= key(x)) {
      var init := s[..|s| - 1];
      var last := s[|s| - 1];
      InsertByKeepsOrder(init, x, key);
      InsertByBounded(init, x, key, key(last));
      var r := InsertBy(init, x, key);
      assert SortedBy(r + [last], key) by {
        var r' := r + [last];
        forall i, j | 0 <= i < j < |r'| ensures key(r'[i]) <= key(r'[j]) {
          assert r'[i] == r[i];
        }
      }
    }
  }

  /** Sorting adds no element. */
  lemma SortByMembers<T>(s: seq<T>, key: T -> int)
    ensures forall x | x in SortBy(s, key) :: x in s
  {
    SortByIsSortedPermutation(s, key);
    forall x | x in SortBy(s, key) ensures x in s {
      assert x in multiset(SortBy(s, key));
    }
  }

  /** A window of an ordered sequence is ordered. */
  lemma PageKeepsOrder<T>(s: seq<T>, key: T -> int, skip: nat, limit: nat)
    requires SortedBy(s, key)
    ensures SortedBy(Page(s, skip, limit), key)
  {
    var p := Page(s, skip, limit);
    if skip < |s| {
      assert forall i | 0 <= i < |p| :: p[i] == s[skip + i];
    }
  }

  /** A non-empty sequence is its front followed by its last element. */
  lemma SplitLast<T>(s: seq<T>)
    requires s != []
    ensures s[..|s| - 1] + [s[|s| - 1]] == s
  {
  }

  /** A page of the sorted selection holds selected elements of `s`, in key order. */
  lemma PageOfSortedSelection<T>(s: seq<T>, p: T -> bool, key: T -> int, skip: nat, limit: nat)
    ensures var c := Page(SortBy(Filter(s, p), key), skip, limit);
      && (forall i | 0 <= i < |c| :: p(c[i]) && c[i] in s)
      && SortedBy(c, key)
  {
    var f := Filter(s, p);
    SortByMembers(f, key);
    SortByIsSortedPermutation(f, key);
    PageKeepsOrder(SortBy(f, key), key, skip, limit);
  }

  /** The first element of a sorted non-empty sequence is one of its elements and has the
      least key among them. */
  lemma SortByHead<T>(s: seq<T>, key: T -> int)
    requires s != []
    ensures SortBy(s, key) != [] && SortBy(s, key)[0] in s
    ensures forall i | 0 <= i < |s| :: key(SortBy(s, key)[0]) <= key(s[i])
  {
    var sorted := SortBy(s, key);
    SortByIsSortedPermutation(s, key);
    assert |sorted| == |s|;
    assert sorted[0] in multiset(s);
    forall i | 0 <= i < |s| ensures key(sorted[0]) <= key(s[i]) {
      assert s[i] in multiset(sorted);
      var k :| 0 <= k < |sorted| && sorted[k] == s[i];
      if k > 0 { assert key(sorted[0]) <= key(sorted[k]); }
    }
  }

  /** Sorting yields the same elements, ordered by the key. */
  lemma {:induction false} SortByIsSortedPermutation<T>(s: seq<T>, key: T -> int)
    ensures SortedBy(SortBy(s, key), key)
    ensures multiset(SortBy(s, key)) == multiset(s)
    ensures |SortBy(s, key)| == |s|
    decreases |s|
  {
    if s != [] {
      var init, x := s[..|s| - 1], s[|s| - 1];
      var r := SortBy(s, key);
      SortByIsSortedPermutation(init, key);
      InsertByKeepsOrder(SortBy(init, key), x, key);
      InsertByKeepsElements(SortBy(init, key), x, key);
      assert r == InsertBy(SortBy(init, key), x, key);
      SplitLast(s);
      assert multiset(s) == multiset(init) + multiset{x};
      assert |r| == |multiset(r)|;
    }
  }
}
