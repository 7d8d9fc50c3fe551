/**
 * The ProviderProfile record (backend/models/providerProfile.js): one per
 * user, with free-form content fields, the verification flag and the rating
 * aggregates. Content lives in a map from field name to the value stored.
 */
module ProfileModel {
  import opened Wrappers
  import opened Strings
  import opened Js
  import opened Casts

  /** String paths and their `maxlength`. */
  const StringLimits: map<string, nat> := map["displayName" := 120, "phone" := 40, "bio" := 2000]

  /** Array-of-string paths; each element has `maxlength: 80`. */
  const ListKeys: set<string> := {"skills", "categories", "serviceAreas"}
  const ListItemLimit := 80

  /** Number paths with `min: 0`. */
  const NumberKeys: set<string> := {"hourlyRate", "minFee"}

  /** Every content path the schema declares. */
  function SchemaKeys(): set<string> {
    StringLimits.Keys + ListKeys + NumberKeys
  }

  datatype Profile = Profile(
    user: Id,
    content: map<string, Value>,
    isVerified: bool,
    verifiedAt: Option<Timestamp>,
    ratingAvg: int,
    ratingCount: int,
    updatedAt: Timestamp)

  /** How the schema declares a path. */
  datatype PathKind = TextPath(limit: nat) | TextListPath | NumberPath | Undeclared

  function KindOf(k: string): (r: PathKind)
    ensures r.Undeclared? <==> k !in SchemaKeys()
  {
    if k in StringLimits then TextPath(StringLimits[k])
    else if k in ListKeys then TextListPath
    else if k in NumberKeys then NumberPath
    else Undeclared
  }

  /** A trimmed text, or a nullish value. */
  predicate TrimmedOrNull(v: Value) {
    (v.Str? && Trimmed(v.s)) || Nullish(v)
  }

  /**
   * A value as the casts leave it on path `k`: trimmed text or null on a
   * string path, a list of trimmed texts (or nulls) or null on an array
   * path, an integer or null on a number path.
   */
  predicate Typed(k: string, v: Value) {
    match KindOf(k)
    case TextPath(_) => TrimmedOrNull(v)
    case TextListPath => Nullish(v) || (v.Arr? && forall i :: 0 <= i < |v.items| ==> TrimmedOrNull(v.items[i]))
    case NumberPath => v.Num? || Nullish(v)
    case Undeclared => true
  }

  predicate ContentTyped(content: map<string, Value>) {
    forall k :: k in content ==> Typed(k, content[k])
  }

  /** The validators of one content path (only values of the declared type are checked). */
  predicate FieldValid(k: string, v: Value) {
    match KindOf(k)
    case TextPath(limit) => v.Str? ==> |v.s| <= limit
    case TextListPath => v.Arr? ==> forall i :: 0 <= i < |v.items| && v.items[i].Str? ==> |v.items[i].s| <= ListItemLimit
    case NumberPath => v.Num? ==> v.n >= 0
    case Undeclared => true
  }

  predicate ContentValid(content: map<string, Value>) {
    forall k :: k in content ==> FieldValid(k, content[k])
  }

  /**
   * What every stored profile satisfies, whichever write made it: only
   * declared paths, each holding a cast value, and the aggregates in range.
   */
  predicate WellFormed(p: Profile) {
    p.content.Keys <= SchemaKeys() && ContentTyped(p.content) && 0 <= p.ratingAvg <= 5 && p.ratingCount >= 0
  }

  /** A well-formed profile that also passes the content validators. */
  predicate ValidProfile(p: Profile) {
    WellFormed(p) && ContentValid(p.content)
  }

  /** The unique index on user: at most one profile per user. */
  predicate UniqueUsers(profiles: map<Id, Profile>) {
    forall a, b :: a in profiles && b in profiles && a != b ==> profiles[a].user != profiles[b].user
  }

  /** The cast of a declared path, with the `trim` setter on the string and array-of-string paths. */
  function CastPath(k: string, v: Value): Result<Value> {
    match KindOf(k)
    case TextPath(_) => CastTrimmed(v)
    case TextListPath => CastTrimmedList(v)
    case _ => CastNumber(v)
  }

  /** Whatever a path's cast accepts becomes a value of the path's type. */
  lemma CastPathTyped(k: string, v: Value)
    requires k in SchemaKeys() && CastPath(k, v).Ok?
    ensures Typed(k, CastPath(k, v).value)
  {
    match KindOf(k)
    case TextPath(_) =>
    case TextListPath => CastListTyped(v);
    case NumberPath =>
  }

  /** The items of a cast list are trimmed texts or null. */
  lemma CastListTyped(v: Value)
    requires CastTrimmedList(v).Ok?
    ensures var c := CastTrimmedList(v).value;
      Nullish(c) || (c.Arr? && forall i :: 0 <= i < |c.items| ==> TrimmedOrNull(c.items[i]))
  {
    if !Nullish(v) {
      var items := CastItems(Elements(v)).value;
      forall i | 0 <= i < |items| ensures TrimmedOrNull(items[i]) {
        assert CastTrimmed(Elements(v)[i]) == Ok(items[i]);
      }
    }
  }

  /** A cast value casts to itself again. */
  lemma CastPathIdempotent(k: string, v: Value)
    requires k in SchemaKeys() && CastPath(k, v).Ok?
    ensures CastPath(k, CastPath(k, v).value) == CastPath(k, v)
  {
    match KindOf(k)
    case TextPath(_) => CastTrimmedIdempotent(v);
    case TextListPath => CastTrimmedListIdempotent(v);
    case NumberPath => CastNumberIdempotent(v);
  }

  /**
   * Strict mode, then the casts: a path the schema does not declare is
   * dropped; every declared path is cast (and trimmed where the schema says
   * so); a value that fails its cast fails the whole write with 400.
   */
  function CastContent(content: map<string, Value>): (r: Result<map<string, Value>>)
    ensures r.Ok? <==> forall k :: k in content && k in SchemaKeys() ==> CastPath(k, content[k]).Ok?
    ensures r.Ok? ==> r.value.Keys == content.Keys * SchemaKeys()
    ensures r.Ok? ==> forall k :: k in r.value ==> CastPath(k, content[k]) == Ok(r.value[k])
    ensures r.Err? ==> r.error == BadRequest
  {
    if forall k :: k in content && k in SchemaKeys() ==> CastPath(k, content[k]).Ok? then
      Ok(map k | k in content && k in SchemaKeys() :: CastPath(k, content[k]).value)
    else Err(BadRequest)
  }

  /** Cast content holds a value of its path's type on every path. */
  lemma CastContentTyped(content: map<string, Value>)
    requires CastContent(content).Ok?
    ensures ContentTyped(CastContent(content).value)
  {
    var m := CastContent(content).value;
    forall k | k in m ensures Typed(k, m[k]) {
      CastPathTyped(k, content[k]);
    }
  }

  /** Cast content casts to itself again: writing a stored profile back changes nothing. */
  lemma CastContentIdempotent(content: map<string, Value>)
    requires CastContent(content).Ok?
    ensures CastContent(CastContent(content).value) == CastContent(content)
  {
    var c := CastContent(content).value;
    forall k | k in c ensures k in SchemaKeys() && CastPath(k, c[k]) == Ok(c[k]) {
      CastPathIdempotent(k, content[k]);
    }
    var d := CastContent(c);
    assert d.Ok?;
    assert d.value == c;
  }

  /** Content is cast to `c` when `c` holds, on exactly its declared paths, their cast values. */
  lemma CastContentOf(content: map<string, Value>, c: map<string, Value>)
    requires c.Keys == content.Keys * SchemaKeys()
    requires forall k :: k in c ==> CastPath(k, content[k]) == Ok(c[k])
    ensures CastContent(content) == Ok(c)
  {
    forall k | k in content && k in SchemaKeys() ensures CastPath(k, content[k]).Ok? {
      assert k in c;
    }
    var r := CastContent(content);
    assert r.Ok?;
    forall k | k in c ensures r.value[k] == c[k] {
      assert CastPath(k, content[k]) == Ok(r.value[k]);
    }
    assert r.value == c;
  }

  /** A one-path document whose value casts is stored with the cast value. */
  lemma CastOne(k: string, v: Value)
    requires k in SchemaKeys() && CastPath(k, v).Ok?
    ensures CastContent(map[k := v]) == Ok(map[k := CastPath(k, v).value])
  {
    var m := map[k := v];
    var c := map[k := CastPath(k, v).value];
    assert m.Keys * SchemaKeys() == {k} == c.Keys;
    CastContentOf(m, c);
  }

  /** A one-path document whose value fails its cast is refused. */
  lemma CastOneFails(k: string, v: Value)
    requires k in SchemaKeys() && CastPath(k, v).Err?
    ensures CastContent(map[k := v]) == Err(BadRequest)
  {
    assert k in map[k := v];
  }

  /** Creating a profile from one path whose value casts: stored cast, or refused by the validators. */
  lemma CreateOne(user: Id, k: string, v: Value, now: Timestamp)
    requires k in SchemaKeys() && CastPath(k, v).Ok?
    ensures var c := CastPath(k, v).value;
      CreateProfile(user, map[k := v], false, None, now)
      == if FieldValid(k, c) then Ok(Profile(user, map[k := c], false, None, 0, 0, now)) else Err(BadRequest)
  {
    CastOne(k, v);
    OneValid(k, CastPath(k, v).value);
  }

  lemma OneValid(k: string, c: Value)
    ensures ContentValid(map[k := c]) <==> FieldValid(k, c)
  {
    assert k in map[k := c];
  }

  /** The two paths the examples below write. */
  lemma ExamplePaths()
    ensures "displayName" in SchemaKeys() && KindOf("displayName") == TextPath(120)
    ensures "hourlyRate" in SchemaKeys() && KindOf("hourlyRate") == NumberPath
  {
    assert "displayName" in StringLimits;
    assert "hourlyRate" !in StringLimits && "hourlyRate" !in ListKeys;
  }

  /**
   * `ProviderProfile.create(...)` (and an upsert's insert): the casts and
   * setters, the defaults (isVerified false, both rating aggregates 0),
   * then the validators; a document that fails is not stored.
   */
  function CreateProfile(user: Id, content: map<string, Value>, isVerified: bool,
                         verifiedAt: Option<Timestamp>, now: Timestamp): (r: Result<Profile>)
    ensures r.Ok? <==> CastContent(content).Ok? && ContentValid(CastContent(content).value)
    ensures r.Err? ==> r.error == BadRequest
    ensures r.Ok? ==> ValidProfile(r.value) && r.value.user == user && r.value.isVerified == isVerified
    ensures r.Ok? ==> r.value.verifiedAt == verifiedAt && r.value.ratingAvg == 0 && r.value.ratingCount == 0
    ensures r.Ok? ==> r.value.content == CastContent(content).value
  {
    match CastContent(content)
    case Err(e) => Err(e)
    case Ok(c) =>
      var p := Profile(user, c, isVerified, verifiedAt, 0, 0, now);
      if ContentValid(c) then Ok(p) else Err(BadRequest)
  }

  /** The `trim` setter runs on create: a padded display name is stored trimmed. */
  lemma PaddedNameTrimmed(user: Id, now: Timestamp)
    ensures var r := CreateProfile(user, map["displayName" := Str(" Bob ")], false, None, now);
      r.Ok? && r.value.content == map["displayName" := Str("Bob")]
  {
    TrimBob();
    ExamplePaths();
    assert CastPath("displayName", Str(" Bob ")) == Ok(Str("Bob"));
    CreateOne(user, "displayName", Str(" Bob "), now);
  }

  lemma TrimBob()
    ensures Trim(" Bob ") == "Bob"
  {
    var s := " Bob ";
    assert IsSpace(s[0]) && !IsSpace(s[1]);
    assert TrimStart(s) == s[1..];
    var u := s[1..];
    assert IsSpace(u[|u| - 1]) && !IsSpace(u[|u| - 2]);
    assert TrimEnd(u) == u[..|u| - 1];
    assert u[..|u| - 1] == "Bob";
  }

  /** `maxlength` counts the trimmed text: 120 characters and a trailing space pass. */
  lemma TrimBeforeMaxlength(user: Id, s: string, now: Timestamp)
    requires |s| == 120 && s != [] && Trimmed(s)
    ensures var r := CreateProfile(user, map["displayName" := Str(s + " ")], false, None, now);
      r.Ok? && r.value.content == map["displayName" := Str(s)]
  {
    TrimTrailingSpace(s);
    ExamplePaths();
    assert CastPath("displayName", Str(s + " ")) == Ok(Str(s));
    CreateOne(user, "displayName", Str(s + " "), now);
  }

  /** A trimmed non-empty text with one space appended trims back to itself. */
  lemma TrimTrailingSpace(s: string)
    requires s != [] && Trimmed(s)
    ensures Trim(s + " ") == s
  {
    var t := s + " ";
    assert TrimStart(t) == t;
    assert t[..|t| - 1] == s;
    assert TrimEnd(t) == TrimEnd(s);
    TrimOfTrimmed(s);
  }

  /** A rate that is no number fails the Number cast: the create is refused. */
  lemma TextRateRefused(user: Id, now: Timestamp)
    ensures CreateProfile(user, map["hourlyRate" := Str("abc")], false, None, now) == Err(BadRequest)
  {
    AbcIsNaN();
    ExamplePaths();
    assert CastPath("hourlyRate", Str("abc")).Err?;
    CastOneFails("hourlyRate", Str("abc"));
  }

  lemma AbcIsNaN()
    ensures ToNumber(Str("abc")) == NaN
  {
    var s := "abc";
    assert !IsSpace(s[0]) && !IsSpace(s[|s| - 1]);
    WordIsNaN(s);
  }

  /** A negative rate given as text is cast to a number and then refused by `min: 0`. */
  lemma NegativeTextRateRefused(user: Id, now: Timestamp)
    ensures CreateProfile(user, map["hourlyRate" := Str("-5")], false, None, now) == Err(BadRequest)
  {
    assert IntToStr(-5) == "-5";
    CastNumberOfText(-5);
    ExamplePaths();
    assert CastPath("hourlyRate", Str("-5")) == Ok(Num(-5));
    CreateOne(user, "hourlyRate", Str("-5"), now);
  }
}
