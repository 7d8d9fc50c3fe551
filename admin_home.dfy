/**
 * The dashboard counters of frontend/src/pages/admin/AdminHome.jsx: each
 * answer is counted whatever its shape — a bare list, a list under `items`
 * or `data`, or a numeric `total`. The requests go through `firstOk`
 * (module Attempts).
 */
module AdminHome {
  import opened Js

  /** `countAny(x)`. */
  function CountAny(x: Value): (n: int)
    ensures !Truthy(x) ==> n == 0
    ensures x.Arr? ==> n == |x.items|
    ensures n < 0 ==> Get(x, "total") == Num(n)
  {
    if !Truthy(x) then 0
    else if IsArray(x) then |x.items|
    else if IsArray(Get(x, "items")) then |Get(x, "items").items|
    else if IsArray(Get(x, "data")) then |Get(x, "data").items|
    else if Get(x, "total").Num? then Get(x, "total").n
    else 0
  }

  /** Any object answer with a list under `items` counts that list, whatever else it holds. */
  lemma ItemsCount(x: Value)
    requires x.Obj? && IsArray(Get(x, "items"))
    ensures CountAny(x) == |Get(x, "items").items|
  {
  }

  /** Without a list under `items`, a list under `data` is counted, whatever `total` says. */
  lemma DataCount(x: Value)
    requires x.Obj? && !IsArray(Get(x, "items")) && IsArray(Get(x, "data"))
    ensures CountAny(x) == |Get(x, "data").items|
  {
  }

  /**
   * Without either list, an object answer counts its `total` when that is a
   * number and 0 otherwise (a numeric string included).
   */
  lemma TotalCount(x: Value)
    requires x.Obj? && !IsArray(Get(x, "items")) && !IsArray(Get(x, "data"))
    ensures CountAny(x) == if Get(x, "total").Num? then Get(x, "total").n else 0
  {
  }

  /** The same list counts the same bare, under `items` or under `data`. */
  lemma CountShapes(items: seq<Value>, f: map<string, Value>)
    requires "items" !in f && "data" in f && f["data"] == Arr(items)
    ensures CountAny(Arr(items)) == |items|
    ensures CountAny(Obj(f["items" := Arr(items)])) == |items|
    ensures CountAny(Obj(f)) == |items|
  {
    ItemsCount(Obj(f["items" := Arr(items)]));
    DataCount(Obj(f));
  }
}
