/**
 * The casts Mongoose applies to a value written to a `String` or a `Number`
 * schema path, before any validator runs, and the `trim` setter. A value
 * the cast cannot convert raises a CastError, which every handler here
 * answers with 400.
 */
module Casts {
  import opened Wrappers
  import opened Strings
  import opened Js

  /**
   * The String cast: null and undefined stay, a string, a number or a
   * boolean becomes `String(v)`, a document gives its string `_id`; an
   * array or any other object fails.
   */
  function CastString(v: Value): (r: Result<Value>)
    ensures Nullish(v) ==> r == Ok(v)
    ensures v.Str? || v.Num? || v.Bool? ==> r == Ok(Str(ToStr(v)))
    ensures v.Arr? ==> r == Err(BadRequest)
    ensures v.Obj? ==> (r.Ok? <==> "_id" in v.fields && v.fields["_id"].Str?)
    ensures r.Ok? ==> r.value.Str? || Nullish(r.value)
    ensures r.Err? ==> r.error == BadRequest
  {
    match v
    case Undefined => Ok(v)
    case Null => Ok(v)
    case Arr(_) => Err(BadRequest)
    case Obj(f) => if "_id" in f && f["_id"].Str? then Ok(f["_id"]) else Err(BadRequest)
    case _ => Ok(Str(ToStr(v)))
  }

  /** A string path with `trim: true`: the String cast, then `trim()` on a string. */
  function CastTrimmed(v: Value): (r: Result<Value>)
    ensures r.Ok? <==> CastString(v).Ok?
    ensures r.Ok? ==> (r.value.Str? <==> CastString(v).value.Str?)
    ensures r.Ok? && r.value.Str? ==> r.value.s == Trim(CastString(v).value.s)
    ensures r.Ok? && !r.value.Str? ==> r == CastString(v)
  {
    match CastString(v)
    case Ok(Str(s)) => Ok(Str(Trim(s)))
    case other => other
  }

  /** A stored trimmed value casts to itself again. */
  lemma CastTrimmedIdempotent(v: Value)
    requires CastTrimmed(v).Ok?
    ensures CastTrimmed(CastTrimmed(v).value) == CastTrimmed(v)
  {
    var c := CastTrimmed(v).value;
    if c.Str? {
      TrimOfTrimmed(c.s);
    }
  }

  /** The one or many values written to an array path: a single value is wrapped. */
  function Elements(v: Value): seq<Value> {
    if v.Arr? then v.items else [v]
  }

  /** Every element cast and trimmed, or the first cast that fails. */
  function CastItems(items: seq<Value>): (r: Result<seq<Value>>)
    ensures r.Ok? <==> forall i :: 0 <= i < |items| ==> CastTrimmed(items[i]).Ok?
    ensures r.Ok? ==> |r.value| == |items| && forall i :: 0 <= i < |items| ==> CastTrimmed(items[i]) == Ok(r.value[i])
    ensures r.Err? ==> r.error == BadRequest
  {
    if items == [] then Ok([])
    else match CastTrimmed(items[0])
      case Err(e) => Err(e)
      case Ok(x) =>
        match CastItems(items[1..])
        case Err(e) => Err(e)
        case Ok(xs) => Ok([x] + xs)
  }

  /**
   * An array path of trimmed strings: null and undefined stay; otherwise
   * every element (a lone value counts as one) goes through the String cast
   * and the `trim` setter.
   */
  function CastTrimmedList(v: Value): (r: Result<Value>)
    ensures Nullish(v) ==> r == Ok(v)
    ensures !Nullish(v) ==> (r.Ok? <==> CastItems(Elements(v)).Ok?)
    ensures !Nullish(v) && r.Ok? ==> r.value == Arr(CastItems(Elements(v)).value)
  {
    if Nullish(v) then Ok(v)
    else match CastItems(Elements(v))
      case Err(e) => Err(e)
      case Ok(xs) => Ok(Arr(xs))
  }

  /** A stored list casts to itself again. */
  lemma CastTrimmedListIdempotent(v: Value)
    requires CastTrimmedList(v).Ok?
    ensures CastTrimmedList(CastTrimmedList(v).value) == CastTrimmedList(v)
  {
    var c := CastTrimmedList(v).value;
    if !Nullish(v) {
      var xs := c.items;
      forall i | 0 <= i < |xs| ensures CastTrimmed(xs[i]) == Ok(xs[i]) {
        CastTrimmedIdempotent(Elements(v)[i]);
      }
      ItemsFixed(xs);
    }
  }

  /** Items that each cast to themselves cast, as a list, to themselves. */
  lemma {:induction false} ItemsFixed(xs: seq<Value>)
    requires forall i :: 0 <= i < |xs| ==> CastTrimmed(xs[i]) == Ok(xs[i])
    ensures CastItems(xs) == Ok(xs)
  {
    if xs != [] {
      ItemsFixed(xs[1..]);
      assert [xs[0]] + xs[1..] == xs;
    }
  }

  /**
   * The Number cast: null and undefined stay, "" becomes null, a string or
   * a boolean goes through `Number`, a number is kept; NaN, an array and
   * any other object fail.
   */
  function CastNumber(v: Value): (r: Result<Value>)
    ensures Nullish(v) ==> r == Ok(v)
    ensures v == Str("") ==> r == Ok(Null)
    ensures v.Num? || v.Bool? ==> r == Ok(Num(ToNumber(v).i))
    ensures v.Str? && v.s != "" ==> (r.Ok? <==> ToNumber(v).Finite?)
    ensures v.Str? && v.s != "" && r.Ok? ==> r.value == Num(ToNumber(v).i)
    ensures v.Arr? || v.Obj? ==> r == Err(BadRequest)
    ensures r.Err? ==> r.error == BadRequest
  {
    match v
    case Undefined => Ok(v)
    case Null => Ok(v)
    case Num(_) => Ok(v)
    case Bool(b) => Ok(Num(if b then 1 else 0))
    case Str(s) =>
      if s == "" then Ok(Null)
      else (match ToNumber(v) case Finite(i) => Ok(Num(i)) case _ => Err(BadRequest))
    case _ => Err(BadRequest)
  }

  /** A stored number casts to itself again. */
  lemma CastNumberIdempotent(v: Value)
    requires CastNumber(v).Ok?
    ensures CastNumber(CastNumber(v).value) == CastNumber(v)
  {
  }

  /** The decimal text of an integer casts to that integer. */
  lemma CastNumberOfText(n: int)
    ensures CastNumber(Str(IntToStr(n))) == Ok(Num(n))
  {
    NumberOfIntString(n);
  }

  /** A cast value as a text field stores it: the text, or None for null. */
  function TextOf(v: Value): (r: Option<string>)
    ensures v.Str? <==> r.Some?
    ensures r.Some? ==> r.value == v.s
  {
    if v.Str? then Some(v.s) else None
  }
}
