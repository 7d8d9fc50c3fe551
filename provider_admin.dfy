/**
 * The provider list of the admin pages (frontend/src/pages/admin/ProviderAdmin.jsx):
 * pulling the rows out of whatever shape the server answers with,
 * normalising each row to one shape, and the two client-side filters —
 * verified or not, and a free-text search over name, e-mail and categories.
 * The requests go through `firstOk` (module Attempts).
 */
module ProviderAdmin {
  import opened Wrappers
  import opened Js
  import opened Strings
  import Sorting

  /** The properties of an object, and none for any other value that is spread. */
  function FieldsOf(x: Value): map<string, Value> {
    if x.Obj? then x.fields else map[]
  }

  /** `(v || '').toLowerCase()`. */
  function LowerOr(v: Value): string {
    Lower(ToStr(Or(v, Str(""))))
  }

  /** The `user` of a row: `x.user`, or else the account's identity fields, or else undefined. */
  function UserOf(x: Value): Value {
    var acc := Get(x, "account");
    Or(Get(x, "user"),
       if Truthy(acc) then
         Obj(map["_id" := Get(acc, "_id"), "name" := Get(acc, "name"), "email" := Get(acc, "email"),
                 "role" := Get(acc, "role"), "providerStatus" := Get(acc, "providerStatus")])
       else Undefined)
  }

  /** The row's role: its own, else its user's, lower-cased. */
  function RoleOf(x: Value): string {
    LowerOr(Or(Get(x, "role"), Get(UserOf(x), "role")))
  }

  function StatusOf(x: Value): string {
    LowerOr(Or(Get(x, "providerStatus"), Get(UserOf(x), "providerStatus")))
  }

  /** The unified verification flag of `normalizeRows`. */
  predicate VerifiedFlag(x: Value) {
    Truthy(Get(x, "isVerified")) || Truthy(Get(x, "verified")) || Truthy(Get(x, "approved"))
    || (RoleOf(x) == "provider" && StatusOf(x) == "approved")
  }

  /** `s || undefined` for a string. */
  function StrOrUndefined(s: string): Value {
    if s == "" then Undefined else Str(s)
  }

  function CategoriesOf(x: Value): Value {
    if IsArray(Get(x, "categories")) then Get(x, "categories")
    else if IsArray(Get(x, "skills")) then Get(x, "skills")
    else Arr([])
  }

  /**
   * One element of `normalizeRows`: every property of `x`, with `user`,
   * `role`, `providerStatus`, `isVerified`, `categories` and `displayName`
   * set to their normalised values.
   */
  function NormalizeRow(x: Value): (r: Value)
    ensures r.Obj?
    ensures forall k :: k in FieldsOf(x) && k !in Normalized ==> k in r.fields && r.fields[k] == FieldsOf(x)[k]
    ensures Get(r, "isVerified") == Bool(VerifiedFlag(x))
    ensures IsArray(Get(r, "categories"))
    ensures Truthy(Get(r, "displayName")) || Get(r, "displayName") == Str("")
  {
    var m := NormalFields(x);
    var r := Obj(FieldsOf(x) + m);
    assert r.fields["isVerified"] == m["isVerified"] == Bool(VerifiedFlag(x));
    assert r.fields["categories"] == m["categories"] == CategoriesOf(x);
    assert r.fields["displayName"] == m["displayName"];
    r
  }

  /** The properties `normalizeRows` sets. */
  const Normalized: set<string> := {"user", "role", "providerStatus", "isVerified", "categories", "displayName"}

  /** A text field the server sends as a string, or not at all. */
  predicate Textual(v: Value) {
    v.Undefined? || v.Str?
  }

  /** Rows whose role and status fields, their own and their user's, are strings or absent. */
  predicate TextualRow(x: Value) {
    Textual(Get(x, "role")) && Textual(Get(x, "providerStatus"))
    && Textual(Get(UserOf(x), "role")) && Textual(Get(UserOf(x), "providerStatus"))
  }

  lemma LowerOrOfLowered(v: Value)
    requires Textual(v)
    ensures LowerOr(StrOrUndefined(LowerOr(v))) == LowerOr(v)
  {
    LowerIdempotent(LowerOr(v));
  }

  /** A field that reads as "" in lower case is missing or empty, when it is text. */
  lemma LowerOrEmpty(v: Value)
    requires Textual(v)
    ensures LowerOr(v) == "" <==> !Truthy(v)
  {
  }

  /** A normalised row holds the normalised user, role and status. */
  lemma GetNormalized(x: Value)
    ensures Get(NormalizeRow(x), "user") == UserOf(x)
    ensures Get(NormalizeRow(x), "role") == StrOrUndefined(RoleOf(x))
    ensures Get(NormalizeRow(x), "providerStatus") == StrOrUndefined(StatusOf(x))
  {
    var r := NormalizeRow(x);
    assert r.fields["user"] == UserOf(x);
    assert r.fields["role"] == StrOrUndefined(RoleOf(x));
    assert r.fields["providerStatus"] == StrOrUndefined(StatusOf(x));
  }

  /** Every other property of a row is kept as it is. */
  lemma GetKept(x: Value, k: string)
    requires k !in Normalized
    ensures Get(NormalizeRow(x), k) == Get(x, k)
  {
    assert k in NormalizeRow(x).fields <==> k in FieldsOf(x);
  }

  lemma UserOfNormalized(x: Value)
    ensures UserOf(NormalizeRow(x)) == UserOf(x)
  {
    GetNormalized(x);
    GetKept(x, "account");
  }

  lemma RoleOfNormalized(x: Value)
    requires Textual(Get(x, "role")) && Textual(Get(UserOf(x), "role"))
    ensures RoleOf(NormalizeRow(x)) == RoleOf(x)
  {
    var u := UserOf(x);
    UserOfNormalized(x);
    GetNormalized(x);
    var v := Or(Get(x, "role"), Get(u, "role"));
    LowerOrEmpty(v);
    LowerOrOfLowered(v);
  }

  lemma StatusOfNormalized(x: Value)
    requires Textual(Get(x, "providerStatus")) && Textual(Get(UserOf(x), "providerStatus"))
    ensures StatusOf(NormalizeRow(x)) == StatusOf(x)
  {
    var u := UserOf(x);
    UserOfNormalized(x);
    GetNormalized(x);
    var v := Or(Get(x, "providerStatus"), Get(u, "providerStatus"));
    LowerOrEmpty(v);
    LowerOrOfLowered(v);
  }

  lemma FlagOfNormalized(x: Value)
    requires TextualRow(x)
    ensures VerifiedFlag(NormalizeRow(x)) == VerifiedFlag(x)
  {
    RoleOfNormalized(x);
    StatusOfNormalized(x);
    GetKept(x, "verified");
    GetKept(x, "approved");
    FlagFrom(x, NormalizeRow(x));
  }

  /** A row that carries another's flag, its other flags, role and status has that row's flag. */
  lemma FlagFrom(x: Value, r: Value)
    requires Get(r, "isVerified") == Bool(VerifiedFlag(x))
    requires Get(r, "verified") == Get(x, "verified") && Get(r, "approved") == Get(x, "approved")
    requires RoleOf(r) == RoleOf(x) && StatusOf(r) == StatusOf(x)
    ensures VerifiedFlag(r) == VerifiedFlag(x)
  {
  }

  /** The values `normalizeRows` sets. */
  function NormalFields(x: Value): map<string, Value> {
    map[
      "user" := UserOf(x),
      "role" := StrOrUndefined(RoleOf(x)),
      "providerStatus" := StrOrUndefined(StatusOf(x)),
      "isVerified" := Bool(VerifiedFlag(x)),
      "categories" := CategoriesOf(x),
      "displayName" := Or(Get(x, "displayName"), Or(Get(x, "profileName"), Str("")))]
  }

  lemma NormalFieldsOfNormalized(x: Value)
    requires TextualRow(x)
    ensures NormalFields(NormalizeRow(x)) == NormalFields(x)
  {
    var r := NormalizeRow(x);
    UserOfNormalized(x);
    RoleOfNormalized(x);
    StatusOfNormalized(x);
    FlagOfNormalized(x);
    assert CategoriesOf(r) == CategoriesOf(x);
    GetKept(x, "profileName");
    assert Or(Get(r, "displayName"), Or(Get(r, "profileName"), Str(""))) == Or(Get(x, "displayName"), Or(Get(x, "profileName"), Str("")));
  }

  /** Normalising a normalised row changes nothing. */
  lemma NormalizeIdempotent(x: Value)
    requires TextualRow(x)
    ensures NormalizeRow(NormalizeRow(x)) == NormalizeRow(x)
  {
    var r := NormalizeRow(x);
    var m := NormalFields(x);
    assert r == Obj(FieldsOf(x) + m);
    NormalFieldsOfNormalized(x);
    assert NormalizeRow(r) == Obj(FieldsOf(r) + m);
    assert FieldsOf(r) + m == FieldsOf(x) + m;
  }

  /** The normalised rows, or None when an element is null or undefined (reading `x.user` throws). */
  function NormalizeRows(arr: seq<Value>): (r: Option<seq<Value>>)
    ensures r.None? <==> exists i :: 0 <= i < |arr| && Nullish(arr[i])
    ensures r.Some? ==> r.value == MapNormalize(arr)
  {
    if arr == [] then Some([])
    else if Nullish(arr[0]) then None
    else
      var tail := arr[1..];
      var rest := NormalizeRows(tail);
      assert forall i :: 1 <= i < |arr| ==> arr[i] == tail[i - 1];
      assert forall i :: 0 <= i < |arr| && Nullish(arr[i]) ==> i >= 1;
      if rest.None? then None else Some([NormalizeRow(arr[0])] + rest.value)
  }

  /** The array `toProviderRows` picks: the answer itself, or its `items`, `providers` or `data`. */
  function RowsSource(raw: Value): (r: seq<Value>)
    ensures !Truthy(raw) ==> r == []
    ensures raw.Arr? ==> r == raw.items
  {
    if !Truthy(raw) then []
    else if IsArray(raw) then raw.items
    else if IsArray(Get(raw, "items")) then Get(raw, "items").items
    else if IsArray(Get(raw, "providers")) then Get(raw, "providers").items
    else if IsArray(Get(raw, "data")) then Get(raw, "data").items
    else []
  }

  /** `toProviderRows(raw)`. */
  function ToProviderRows(raw: Value): (r: Option<seq<Value>>)
    ensures r.None? <==> exists i :: 0 <= i < |RowsSource(raw)| && Nullish(RowsSource(raw)[i])
    ensures r.Some? ==> r.value == MapNormalize(RowsSource(raw))
  {
    NormalizeRows(RowsSource(raw))
  }

  /** The same list sent bare or wrapped as `{ items }`, `{ providers }` or `{ data }` gives the same rows. */
  lemma RowsShapes(list: seq<Value>)
    ensures RowsSource(Obj(map["items" := Arr(list)])) == list
    ensures RowsSource(Obj(map["providers" := Arr(list)])) == list
    ensures RowsSource(Obj(map["data" := Arr(list)])) == list
    ensures RowsSource(Arr(list)) == list
  {
  }

  // ------------------------------------------------------ the verified filter

  /** `approvedNow` of the client-side filter: note that it reads the user's role first. */
  predicate ApprovedNow(r: Value) {
    var u := Get(r, "user");
    var role := LowerOr(Or(Get(u, "role"), Get(r, "role")));
    var pstat := LowerOr(Or(Get(u, "providerStatus"), Get(r, "providerStatus")));
    Truthy(Get(r, "isVerified")) || Truthy(Get(r, "verified")) || Truthy(Get(r, "approved"))
    || (role == "provider" && pstat == "approved")
  }

  /** The filter as written: 'all' keeps a row, '1' keeps it when approved, anything else when not. */
  function KeepAsWritten(verified: string): Value -> bool {
    (r: Value) => verified == "all" || (if verified == "1" then ApprovedNow(r) else !ApprovedNow(r))
  }

  /** `rows.filter(...)` on `verified`, as written. */
  function ByVerifiedAsWritten(rows: seq<Value>, verified: string): (r: seq<Value>)
    ensures verified == "all" ==> r == rows
    ensures forall i :: 0 <= i < |r| ==> r[i] in rows
    ensures verified == "1" ==> forall i :: 0 <= i < |r| ==> ApprovedNow(r[i])
    ensures verified == "1" ==> forall i :: 0 <= i < |rows| && ApprovedNow(rows[i]) ==> rows[i] in r
    ensures verified != "all" && verified != "1" ==> forall i :: 0 <= i < |r| ==> !ApprovedNow(r[i])
    ensures verified != "all" && verified != "1" ==> forall i :: 0 <= i < |rows| && !ApprovedNow(rows[i]) ==> rows[i] in r
  {
    if verified == "all" then
      Sorting.FilterAllKept(rows, KeepAsWritten(verified));
      Sorting.Filter(rows, KeepAsWritten(verified))
    else Sorting.Filter(rows, KeepAsWritten(verified))
  }

    /** The example row: its own role 'user', its user an approved provider. */
  function MixedUser(): Value {
    Obj(map["role" := Str("provider"), "providerStatus" := Str("approved")])
  }

  function MixedRow(): Value {
    Obj(map["role" := Str("user"), "user" := MixedUser()])
  }

  lemma MixedRowFlag()
    ensures Get(NormalizeRow(MixedRow()), "isVerified") == Bool(false)
  {
    MixedRowUnflagged();
  }

  /** Its role reads 'user', four letters, so it is not taken for a provider. */
  lemma MixedRowUnflagged()
    ensures !VerifiedFlag(MixedRow())
  {
    var x := MixedRow();
    assert "isVerified" !in x.fields && "verified" !in x.fields && "approved" !in x.fields;
    assert Or(Get(x, "role"), Get(UserOf(x), "role")) == Str("user");
    assert |RoleOf(x)| == 4;
  }

  lemma MixedRowUser()
    ensures Get(NormalizeRow(MixedRow()), "user") == MixedUser()
  {
    assert UserOf(MixedRow()) == MixedUser();
    GetNormalized(MixedRow());
  }

  /** Any row whose user is the approved provider passes `approvedNow`. */
  lemma ApprovedByUser(r: Value)
    requires Get(r, "user") == MixedUser()
    ensures ApprovedNow(r)
  {
    var u := MixedUser();
    assert Get(u, "role") == Str("provider");
    assert Get(u, "providerStatus") == Str("approved");
    assert Lower("provider") == "provider";
    assert Lower("approved") == "approved";
  }

  /**
   * A row whose own role is not its user's: the table flags it unverified,
   * yet the 'Verified' filter keeps it and the 'Unverified' one drops it.
   */
  lemma FilterDisagreesWithFlag()
    ensures var r := NormalizeRow(MixedRow());
      Get(r, "isVerified") == Bool(false) && ByVerifiedAsWritten([r], "1") == [r] && ByVerifiedAsWritten([r], "0") == []
  {
    var r := NormalizeRow(MixedRow());
    MixedRowFlag();
    MixedRowUser();
    ApprovedByUser(r);
    Sorting.FilterOne(r, KeepAsWritten("1"));
    Sorting.FilterOne(r, KeepAsWritten("0"));
  }

  /** The flag the table shows, `r.isVerified`. */
  predicate Flagged(r: Value) {
    Truthy(Get(r, "isVerified"))
  }

  /** The filter on that flag. */
  function Keep(verified: string): Value -> bool {
    (r: Value) => verified == "all" || (if verified == "1" then Flagged(r) else !Flagged(r))
  }

  /**
   * The verified filter: 'all' keeps every row; '1' exactly the rows shown
   * as verified; any other value exactly the rest, in their order.
   */
  function ByVerified(rows: seq<Value>, verified: string): (r: seq<Value>)
    ensures verified == "all" ==> r == rows
    ensures forall i :: 0 <= i < |r| ==> r[i] in rows
    ensures verified == "1" ==> forall i :: 0 <= i < |r| ==> Flagged(r[i])
    ensures verified == "1" ==> forall i :: 0 <= i < |rows| && Flagged(rows[i]) ==> rows[i] in r
    ensures verified != "all" && verified != "1" ==> forall i :: 0 <= i < |r| ==> !Flagged(r[i])
    ensures verified != "all" && verified != "1" ==> forall i :: 0 <= i < |rows| && !Flagged(rows[i]) ==> rows[i] in r
    ensures multiset(r) <= multiset(rows)
  {
    Sorting.FilterSub(rows, Keep(verified));
    if verified == "all" then
      Sorting.FilterAllKept(rows, Keep(verified));
      Sorting.Filter(rows, Keep(verified))
    else Sorting.Filter(rows, Keep(verified))
  }

  /** 'Verified' and 'Unverified' split the rows between them. */
  lemma ByVerifiedPartition(rows: seq<Value>)
    ensures multiset(ByVerified(rows, "1")) + multiset(ByVerified(rows, "0")) == multiset(rows)
  {
    Sorting.FilterComplement(rows, Keep("1"), Keep("0"));
  }

  /** `arr.map(normalize)` without the null check. */
  function MapNormalize(xs: seq<Value>): (r: seq<Value>)
    ensures |r| == |xs| && forall i :: 0 <= i < |xs| ==> r[i] == NormalizeRow(xs[i])
  {
    Sorting.Map(xs, NormalizeRow)
  }

  /** Where a row carries no role or status of its own, `approvedNow` is the normalised flag. */
  lemma ApprovedNowIsFlag(x: Value)
    requires Get(x, "role") == Undefined && Get(x, "providerStatus") == Undefined
    ensures ApprovedNow(NormalizeRow(x)) == Truthy(Get(NormalizeRow(x), "isVerified"))
  {
    GetNormalized(x);
    GetKept(x, "verified");
    GetKept(x, "approved");
    ApprovedFrom(x, NormalizeRow(x));
  }

  /** A row carrying the normalised fields of a row without its own role and status. */
  lemma ApprovedFrom(x: Value, r: Value)
    requires Get(x, "role") == Undefined && Get(x, "providerStatus") == Undefined
    requires Get(r, "user") == UserOf(x)
    requires Get(r, "role") == StrOrUndefined(RoleOf(x)) && Get(r, "providerStatus") == StrOrUndefined(StatusOf(x))
    requires Get(r, "isVerified") == Bool(VerifiedFlag(x))
    requires Get(r, "verified") == Get(x, "verified") && Get(r, "approved") == Get(x, "approved")
    ensures ApprovedNow(r) == Truthy(Get(r, "isVerified"))
  {
    var u := UserOf(x);
    UserFirst(Get(u, "role"));
    UserFirst(Get(u, "providerStatus"));
  }

  /** The user's field first or the row's copy of it second: the same text. */
  lemma UserFirst(v: Value)
    ensures LowerOr(Or(v, StrOrUndefined(LowerOr(Or(Undefined, v))))) == LowerOr(Or(Undefined, v))
  {
    if !Truthy(v) {
      assert LowerOr(v) == "";
    }
  }

  lemma KeepAgrees(x: Value, verified: string)
    requires Get(x, "role") == Undefined && Get(x, "providerStatus") == Undefined
    ensures KeepAsWritten(verified)(NormalizeRow(x)) == Keep(verified)(NormalizeRow(x))
  {
    ApprovedNowIsFlag(x);
  }

  /** On such rows the filter as written and the corrected one keep the same rows. */
  lemma {:induction false} FixAgrees(xs: seq<Value>, verified: string)
    requires forall i :: 0 <= i < |xs| ==> Get(xs[i], "role") == Undefined && Get(xs[i], "providerStatus") == Undefined
    ensures ByVerifiedAsWritten(MapNormalize(xs), verified) == ByVerified(MapNormalize(xs), verified)
  {
    if xs != [] {
      KeepAgrees(xs[0], verified);
      FixAgrees(xs[1..], verified);
      var rows := MapNormalize(xs);
      assert rows == [NormalizeRow(xs[0])] + MapNormalize(xs[1..]);
      SplitFilters(NormalizeRow(xs[0]), MapNormalize(xs[1..]), verified);
    }
  }

  /** Both filters on a row followed by a list. */
  lemma SplitFilters(r: Value, rest: seq<Value>, verified: string)
    requires KeepAsWritten(verified)(r) == Keep(verified)(r)
    requires ByVerifiedAsWritten(rest, verified) == ByVerified(rest, verified)
    ensures ByVerifiedAsWritten([r] + rest, verified) == ByVerified([r] + rest, verified)
  {
    assert ([r] + rest)[0] == r && ([r] + rest)[1..] == rest;
    if verified == "all" {
      Sorting.FilterAllKept(rest, KeepAsWritten(verified));
    }
  }

  // ------------------------------------------------------------------ search

  /** `q.trim().toLowerCase()`. */
  function QueryText(q: string): string {
    Lower(Trim(q))
  }

  /** The texts `join` writes for the elements: "" for null and undefined. */
  function ElementTexts(items: seq<Value>): (r: seq<string>)
    ensures |r| == |items|
  {
    if items == [] then [] else [if Nullish(items[0]) then "" else ToStr(items[0])] + ElementTexts(items[1..])
  }

  /** `(r.categories || []).join(' ').toLowerCase()`; normalised rows always hold an array. */
  function CategoryText(r: Value): string {
    var c := Get(r, "categories");
    if c.Arr? then Lower(Join(ElementTexts(c.items), " ")) else ""
  }

  /** The query occurs in the lower-cased name, e-mail or categories of the row. */
  predicate MatchesQuery(r: Value, qt: string) {
    var u := Get(r, "user");
    Contains(LowerOr(Get(u, "name")), qt) || Contains(LowerOr(Get(u, "email")), qt) || Contains(CategoryText(r), qt)
  }

  function Matches(qt: string): Value -> bool {
    (r: Value) => MatchesQuery(r, qt)
  }

  /**
   * The client-side search: a blank query keeps every row; otherwise exactly
   * the rows the query matches, in their order.
   */
  function Search(rows: seq<Value>, q: string): (r: seq<Value>)
    ensures QueryText(q) == "" ==> r == rows
    ensures QueryText(q) != "" ==> forall i :: 0 <= i < |r| ==> MatchesQuery(r[i], QueryText(q))
    ensures forall i :: 0 <= i < |rows| && MatchesQuery(rows[i], QueryText(q)) ==> rows[i] in r
    ensures forall i :: 0 <= i < |r| ==> r[i] in rows
    ensures multiset(r) <= multiset(rows)
  {
    var qt := QueryText(q);
    if qt == "" then rows
    else
      Sorting.FilterSub(rows, Matches(qt));
      Sorting.Filter(rows, Matches(qt))
  }

  /** Every element of the list that the query matches survives the search. */
  lemma SearchKeepsMembers(xs: seq<Value>, q: string)
    ensures forall x :: x in xs && (QueryText(q) == "" || MatchesQuery(x, QueryText(q))) ==> x in Search(xs, q)
  {
    forall x | x in xs && (QueryText(q) == "" || MatchesQuery(x, QueryText(q))) ensures x in Search(xs, q) {
      var j :| 0 <= j < |xs| && xs[j] == x;
    }
  }

  /** Searching the result again changes nothing. */
  lemma SearchIdempotent(rows: seq<Value>, q: string)
    ensures Search(Search(rows, q), q) == Search(rows, q)
  {
    var qt := QueryText(q);
    if qt != "" {
      Sorting.FilterAllKept(Search(rows, q), Matches(qt));
    }
  }

  /** The two client-side filters can be applied in either order. */
  lemma FiltersCommute(rows: seq<Value>, q: string, verified: string)
    ensures Search(ByVerified(rows, verified), q) == ByVerified(Search(rows, q), verified)
  {
    var qt := QueryText(q);
    if qt != "" && verified != "all" {
      Sorting.FilterCommute(rows, Keep(verified), Matches(qt));
    }
  }

  /** The two client-side filters as written: the verified filter, then the search. */
  function FilterRowsAsWritten(rows: seq<Value>, q: string, verified: string): (r: seq<Value>)
    ensures forall i :: 0 <= i < |r| ==> r[i] in rows
    ensures verified == "1" ==> forall i :: 0 <= i < |r| ==> ApprovedNow(r[i])
    ensures verified != "all" && verified != "1" ==> forall i :: 0 <= i < |r| ==> !ApprovedNow(r[i])
    ensures QueryText(q) != "" ==> forall i :: 0 <= i < |r| ==> MatchesQuery(r[i], QueryText(q))
    ensures verified == "all" && QueryText(q) == "" ==> r == rows
    ensures forall i :: (0 <= i < |rows| && (verified == "all" || (verified == "1" <==> ApprovedNow(rows[i])))
                  && (QueryText(q) == "" || MatchesQuery(rows[i], QueryText(q)))) ==> rows[i] in r
  {
    SearchKeepsMembers(ByVerifiedAsWritten(rows, verified), q);
    Search(ByVerifiedAsWritten(rows, verified), q)
  }

  /** The two client-side filters with the corrected verified filter. */
  function FilterRows(rows: seq<Value>, q: string, verified: string): (r: seq<Value>)
    ensures forall i :: 0 <= i < |r| ==> r[i] in rows
    ensures verified == "1" ==> forall i :: 0 <= i < |r| ==> Flagged(r[i])
    ensures verified != "all" && verified != "1" ==> forall i :: 0 <= i < |r| ==> !Flagged(r[i])
    ensures QueryText(q) != "" ==> forall i :: 0 <= i < |r| ==> MatchesQuery(r[i], QueryText(q))
    ensures verified == "all" && QueryText(q) == "" ==> r == rows
    ensures forall i :: (0 <= i < |rows| && (verified == "all" || (verified == "1" <==> Flagged(rows[i])))
                  && (QueryText(q) == "" || MatchesQuery(rows[i], QueryText(q)))) ==> rows[i] in r
  {
    SearchKeepsMembers(ByVerified(rows, verified), q);
    Search(ByVerified(rows, verified), q)
  }

  /**
   * What `fetchProvidersFlex` returns for the server's answer, as written:
   * the normalised rows of the answer that pass the verified filter as
   * written and then the search, in their order, or None when the answer
   * holds a null row.
   */
  function FetchProviders(raw: Value, q: string, verified: string): (r: Option<seq<Value>>)
    ensures r.None? <==> exists i :: 0 <= i < |RowsSource(raw)| && Nullish(RowsSource(raw)[i])
    ensures r.Some? ==> forall i :: 0 <= i < |r.value| ==> r.value[i] in MapNormalize(RowsSource(raw))
    ensures r.Some? && verified == "1" ==> forall i :: 0 <= i < |r.value| ==> ApprovedNow(r.value[i])
    ensures r.Some? && verified != "all" && verified != "1" ==> forall i :: 0 <= i < |r.value| ==> !ApprovedNow(r.value[i])
    ensures r.Some? && verified == "all" && QueryText(q) == "" ==> r.value == MapNormalize(RowsSource(raw))
    ensures r.Some? ==> var rows := MapNormalize(RowsSource(raw));
      forall i :: (0 <= i < |rows| && (verified == "all" || (verified == "1" <==> ApprovedNow(rows[i])))
                  && (QueryText(q) == "" || MatchesQuery(rows[i], QueryText(q)))) ==> rows[i] in r.value
  {
    match ToProviderRows(raw)
    case None => None
    case Some(rows) => Some(FilterRowsAsWritten(rows, q, verified))
  }

  /**
   * `fetchProvidersFlex` corrected: the verified filter reads the flag the
   * table shows.
   */
  function FetchProvidersCorrected(raw: Value, q: string, verified: string): (r: Option<seq<Value>>)
    ensures r.None? <==> exists i :: 0 <= i < |RowsSource(raw)| && Nullish(RowsSource(raw)[i])
    ensures r.Some? ==> forall i :: 0 <= i < |r.value| ==> r.value[i] in MapNormalize(RowsSource(raw))
    ensures r.Some? && verified == "1" ==> forall i :: 0 <= i < |r.value| ==> Flagged(r.value[i])
    ensures r.Some? && verified != "all" && verified != "1" ==> forall i :: 0 <= i < |r.value| ==> !Flagged(r.value[i])
    ensures r.Some? && verified == "all" && QueryText(q) == "" ==> r.value == MapNormalize(RowsSource(raw))
    ensures r.Some? ==> var rows := MapNormalize(RowsSource(raw));
      forall i :: (0 <= i < |rows| && (verified == "all" || (verified == "1" <==> Flagged(rows[i])))
                  && (QueryText(q) == "" || MatchesQuery(rows[i], QueryText(q)))) ==> rows[i] in r.value
  {
    match ToProviderRows(raw)
    case None => None
    case Some(rows) => Some(FilterRows(rows, q, verified))
  }

  /** When no row of the answer carries its own role or provider status, the two agree. */
  lemma FetchAgrees(raw: Value, q: string, verified: string)
    requires forall i :: 0 <= i < |RowsSource(raw)| ==>
      Get(RowsSource(raw)[i], "role") == Undefined && Get(RowsSource(raw)[i], "providerStatus") == Undefined
    ensures FetchProviders(raw, q, verified) == FetchProvidersCorrected(raw, q, verified)
  {
    if ToProviderRows(raw).Some? {
      FixAgrees(RowsSource(raw), verified);
    }
  }
}
