/**
 * The favourite services the browser keeps under one local-storage key
 * (frontend/src/lib/favorites.js): reading the list, storing it without
 * duplicates, toggling one id and asking whether an id is a favourite.
 */
module Favorites {
  import Sorting

  /** What the storage key holds: nothing, a JSON array of ids, or text `JSON.parse` refuses. */
  datatype Stored = Missing | Json(ids: seq<string>) | Unparsable

  /** `ids.indexOf(id)`: the first position of `id`, or -1. */
  function IndexOf(ids: seq<string>, id: string): (r: int)
    ensures -1 <= r < |ids|
    ensures r == -1 <==> id !in ids
    ensures r >= 0 ==> ids[r] == id && forall k :: 0 <= k < r ==> ids[k] != id
  {
    if ids == [] then -1
    else if ids[0] == id then 0
    else
      var k := IndexOf(ids[1..], id);
      if k == -1 then -1 else k + 1
  }

  /** Appending an element moves no first position, and gives a new element the last one. */
  lemma {:induction false} IndexOfAppend(p: seq<string>, x: string, y: string)
    ensures y in p ==> IndexOf(p + [x], y) == IndexOf(p, y)
    ensures y !in p && y == x ==> IndexOf(p + [x], y) == |p|
  {
    if p != [] {
      assert (p + [x])[1..] == p[1..] + [x];
      IndexOfAppend(p[1..], x, y);
    }
  }

  /** `Array.from(new Set(ids))`: every id once, in the order of first occurrence. */
  function Dedup(ids: seq<string>): (r: seq<string>)
    ensures Sorting.Distinct(r)
    ensures forall x :: x in r <==> x in ids
    ensures forall i, j :: 0 <= i < j < |r| ==> IndexOf(ids, r[i]) < IndexOf(ids, r[j])
  {
    if ids == [] then []
    else
      var p := ids[..|ids| - 1];
      var x := ids[|ids| - 1];
      assert ids == p + [x];
      DedupStep(p, x, Dedup(p));
      if x in Dedup(p) then Dedup(p) else Dedup(p) + [x]
  }

  /** One more id: kept when it is new, dropped when it was seen before. */
  lemma DedupStep(p: seq<string>, x: string, acc: seq<string>)
    requires Sorting.Distinct(acc)
    requires forall y :: y in acc <==> y in p
    requires forall i, j :: 0 <= i < j < |acc| ==> IndexOf(p, acc[i]) < IndexOf(p, acc[j])
    ensures var r := if x in acc then acc else acc + [x];
      && Sorting.Distinct(r)
      && (forall y :: y in r <==> y in p + [x])
      && (forall i, j :: 0 <= i < j < |r| ==> IndexOf(p + [x], r[i]) < IndexOf(p + [x], r[j]))
  {
    forall y | y in p ensures IndexOf(p + [x], y) == IndexOf(p, y) {
      IndexOfAppend(p, x, y);
    }
    if x !in acc {
      IndexOfAppend(p, x, x);
    }
  }

  /** A list without duplicates is stored as it is. */
  lemma {:induction false} DedupDistinct(ids: seq<string>)
    requires Sorting.Distinct(ids)
    ensures Dedup(ids) == ids
  {
    if ids != [] {
      var p := ids[..|ids| - 1];
      assert ids == p + [ids[|ids| - 1]];
      assert Sorting.Distinct(p);
      DedupDistinct(p);
    }
  }

  /** The list `toggleFav` builds: the first occurrence of `id` removed, or `id` appended. */
  function Toggled(ids: seq<string>, id: string): seq<string> {
    var k := IndexOf(ids, id);
    if k >= 0 then ids[..k] + ids[k + 1..] else ids + [id]
  }

  /** The ids other than `id`, in order. */
  function Others(ids: seq<string>, id: string): seq<string> {
    if ids == [] then [] else (if ids[0] != id then [ids[0]] else []) + Others(ids[1..], id)
  }

  lemma {:induction false} OthersAppend(p: seq<string>, q: seq<string>, id: string)
    ensures Others(p + q, id) == Others(p, id) + Others(q, id)
  {
    if p != [] {
      assert (p + q)[0] == p[0] && (p + q)[1..] == p[1..] + q;
      OthersAppend(p[1..], q, id);
    } else {
      assert p + q == q;
    }
  }

  /** Where `id` occurs, the list is the part before its first occurrence, `id`, and the part after. */
  lemma SplitAtFirst(ids: seq<string>, id: string) returns (a: seq<string>, b: seq<string>)
    requires id in ids
    ensures ids == a + [id] + b && id !in a
    ensures Toggled(ids, id) == a + b
  {
    var k := IndexOf(ids, id);
    a, b := ids[..k], ids[k + 1..];
    assert ids == a + [id] + b;
  }

  lemma DistinctParts(a: seq<string>, m: string, b: seq<string>)
    requires Sorting.Distinct(a + [m] + b)
    ensures m !in b && Sorting.Distinct(a + b)
  {
    var s := a + [m] + b;
    forall j | 0 <= j < |b| ensures b[j] != m {
      assert s[|a|] == m && s[|a| + 1 + j] == b[j];
    }
    forall i, j | 0 <= i < j < |a + b| ensures (a + b)[i] != (a + b)[j] {
      var i' := if i < |a| then i else i + 1;
      var j' := if j < |a| then j else j + 1;
      assert (a + b)[i] == s[i'] && (a + b)[j] == s[j'];
    }
  }

  /** Toggling leaves every other id where it was relative to the rest. */
  lemma ToggleKeepsOthers(ids: seq<string>, id: string)
    ensures Others(Toggled(ids, id), id) == Others(ids, id)
  {
    if id in ids {
      var a, b := SplitAtFirst(ids, id);
      OthersAppend(a + [id], b, id);
      OthersAppend(a, [id], id);
      OthersAppend(a, b, id);
      assert Others([id], id) == [];
    } else {
      OthersAppend(ids, [id], id);
      assert Others([id], id) == [];
    }
  }

  /** On a list without duplicates, toggling flips whether `id` is in it and nothing else, and keeps it duplicate-free. */
  lemma ToggleFlips(ids: seq<string>, id: string)
    requires Sorting.Distinct(ids)
    ensures id in Toggled(ids, id) <==> id !in ids
    ensures forall x :: x != id ==> (x in Toggled(ids, id) <==> x in ids)
    ensures Sorting.Distinct(Toggled(ids, id))
  {
    if id in ids {
      var a, b := SplitAtFirst(ids, id);
      DistinctParts(a, id, b);
      assert forall x :: x in ids <==> x in a || x == id || x in b;
      assert forall x :: x in a + b <==> x in a || x in b;
    } else {
      assert forall x :: x in ids + [id] <==> x in ids || x == id;
      assert Sorting.Distinct(ids + [id]) by {
        forall i | 0 <= i < |ids| ensures (ids + [id])[i] != id {
          assert ids[i] in ids;
        }
      }
    }
  }

  /** Toggling the same id twice restores the membership of every id; when it was absent, the very list. */
  lemma ToggleTwice(ids: seq<string>, id: string)
    requires Sorting.Distinct(ids)
    ensures forall x :: x in Toggled(Toggled(ids, id), id) <==> x in ids
    ensures id !in ids ==> Toggled(Toggled(ids, id), id) == ids
  {
    ToggleFlips(ids, id);
    ToggleFlips(Toggled(ids, id), id);
    if id !in ids {
      assert IndexOf(ids + [id], id) == |ids| by { IndexOfAppend(ids, id, id); }
      assert (ids + [id])[..|ids|] == ids;
    }
  }

  /** What `toggleFav` stores for a list without duplicates is the toggled list itself. */
  lemma ToggleStored(ids: seq<string>, id: string)
    ensures Sorting.Distinct(ids) ==> Dedup(Toggled(ids, id)) == Toggled(ids, id)
  {
    if Sorting.Distinct(ids) {
      ToggleFlips(ids, id);
      DedupDistinct(Toggled(ids, id));
    }
  }

  /** The storage key, read and written by the four operations. */
  class FavoriteStore {
    var stored: Stored

    constructor ()
      ensures stored == Missing
    {
      stored := Missing;
    }

    /** `getFavIds`: the parsed array; a missing key reads as '[]' and unparsable text as []. */
    function FavIds(): (r: seq<string>)
      reads this
      ensures stored == Missing || stored == Unparsable ==> r == []
    {
      if stored.Json? then stored.ids else []
    }

    /** `isFav`. */
    predicate IsFav(id: string)
      reads this
    {
      id in FavIds()
    }

    /** `setFavIds`: the list without duplicates, in first-occurrence order. */
    method SetFavIds(ids: seq<string>)
      modifies this
      ensures stored == Json(Dedup(ids))
      ensures Sorting.Distinct(FavIds()) && forall x :: IsFav(x) <==> x in ids
    {
      stored := Json(Dedup(ids));
    }

    /**
     * `toggleFav`: removes the id when present, appends it otherwise, stores
     * the list and returns it. On a stored list without duplicates the id's
     * membership flips, and the stored list is the returned one.
     */
    method ToggleFav(id: string) returns (ids: seq<string>)
      modifies this
      ensures ids == Toggled(old(FavIds()), id)
      ensures stored == Json(Dedup(ids))
      ensures Sorting.Distinct(old(FavIds())) ==> FavIds() == ids
    {
      ids := FavIds();
      ghost var before := ids;
      ToggleStored(before, id);
      var idx := IndexOf(ids, id);
      if idx >= 0 {
        ids := ids[..idx] + ids[idx + 1..];
      } else {
        ids := ids + [id];
      }
      SetFavIds(ids);
    }
  }
}
