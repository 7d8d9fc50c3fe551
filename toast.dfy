/**
 * The toast notifications (frontend/src/components/ui/Toast.jsx): the
 * module-wide `idSeq` counter and the list of toasts on screen, with `push`
 * and `remove`. The timer `push` starts is a clock event: it is modelled only
 * as the flag saying that a removal of the new id was scheduled.
 */
module ToastStore {
  import opened Js
  import Sorting

  datatype Toast = Toast(id: nat, message: Value, kind: Value)

  /** Ids strictly increase along the list, and none is above the counter. */
  predicate Ordered(toasts: seq<Toast>, idSeq: nat) {
    (forall i, j :: 0 <= i < j < |toasts| ==> toasts[i].id < toasts[j].id)
    && forall i :: 0 <= i < |toasts| ==> 0 < toasts[i].id <= idSeq
  }

  /** `t.filter(x => x.id !== id)`. */
  function Removed(toasts: seq<Toast>, id: nat): (r: seq<Toast>)
    ensures forall i :: 0 <= i < |r| ==> r[i].id != id && r[i] in toasts
    ensures forall x :: x in toasts && x.id != id ==> x in r
  {
    Sorting.Filter(toasts, (x: Toast) => x.id != id)
  }

  /** Removal keeps the rest in order. */
  lemma {:induction false} RemovedOrdered(toasts: seq<Toast>, idSeq: nat, id: nat)
    requires Ordered(toasts, idSeq)
    ensures Ordered(Removed(toasts, id), idSeq)
  {
    var p := (x: Toast) => x.id != id;
    var le := (a: Toast, b: Toast) => a.id < b.id;
    assert Sorting.Sorted(toasts, le);
    Sorting.FilterSorted(toasts, p, le);
  }

  /** Removing an id that no toast carries changes nothing. */
  lemma RemoveAbsent(toasts: seq<Toast>, id: nat)
    requires forall i :: 0 <= i < |toasts| ==> toasts[i].id != id
    ensures Removed(toasts, id) == toasts
  {
    Sorting.FilterAllKept(toasts, (x: Toast) => x.id != id);
  }

  /** `type = 'info'` as a default parameter: it applies only when the argument is undefined. */
  function KindOf(kind: Value): (r: Value)
    ensures kind == Undefined ==> r == Str("info")
    ensures kind != Undefined ==> r == kind
  {
    if kind == Undefined then Str("info") else kind
  }

  /** A push followed by the removal of its fresh id gives back the list before the push. */
  lemma PushThenRemove(toasts: seq<Toast>, idSeq: nat, message: Value, kind: Value)
    requires Ordered(toasts, idSeq)
    ensures Removed(toasts + [Toast(idSeq + 1, message, KindOf(kind))], idSeq + 1) == toasts
  {
    var t := toasts + [Toast(idSeq + 1, message, KindOf(kind))];
    var p := (x: Toast) => x.id != idSeq + 1;
    Sorting.FilterAllKept(toasts, p);
    Sorting.FilterAppend(toasts, [t[|t| - 1]], p);
    assert Sorting.Filter([t[|t| - 1]], p) == [];
  }

  /** A `ToastProvider`'s list, with the counter `idSeq` it draws ids from. */
  class ToastProvider {
    var idSeq: nat
    var toasts: seq<Toast>

    predicate Valid()
      reads this
    {
      Ordered(toasts, idSeq)
    }

    constructor ()
      ensures Valid() && idSeq == 0 && toasts == []
    {
      idSeq := 0;
      toasts := [];
    }

    /**
     * `push(message, type = 'info', timeout = 2400)`: the pre-incremented
     * counter is the new id; exactly one toast is appended; a truthy timeout
     * schedules the removal of that id.
     */
    method Push(message: Value, kind: Value, timeout: Value) returns (id: nat, scheduled: bool)
      requires Valid()
      modifies this
      ensures Valid()
      ensures id == old(idSeq) + 1 && idSeq == id
      ensures toasts == old(toasts) + [Toast(id, message, KindOf(kind))]
      ensures forall i :: 0 <= i < |old(toasts)| ==> old(toasts)[i].id < id
      ensures scheduled <==> (timeout == Undefined || Truthy(timeout))
    {
      idSeq := idSeq + 1;
      id := idSeq;
      toasts := toasts + [Toast(id, message, KindOf(kind))];
      scheduled := timeout == Undefined || Truthy(timeout);
    }

    /** `remove(id)`: exactly the toasts with that id go, the rest keep their order. */
    method Remove(id: nat)
      requires Valid()
      modifies this`toasts
      ensures Valid()
      ensures toasts == Removed(old(toasts), id)
    {
      RemovedOrdered(toasts, idSeq, id);
      toasts := Removed(toasts, id);
    }
  }
}
