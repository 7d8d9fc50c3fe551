/**
 * The generic admin table (frontend/src/components/admin/DataTable.jsx): the
 * sort key of a cell (`normalize`), the comparator of the sorted rows, the
 * header click that changes the sort, and the select-all checkbox state.
 */
module DataTable {
  import opened Wrappers
  import opened Js
  import opened Strings
  import Sorting
  import Csv = CsvButton

  /** What `normalize` returns: a number or a string. */
  datatype Key = KNum(n: int) | KStr(s: string)

  /**
   * `normalize(v)`: null and undefined give '', a number itself, a string in
   * lower case, a boolean 1 or 0, anything else its `String` in lower case.
   */
  function Normalize(v: Value): (r: Key)
    ensures Nullish(v) ==> r == KStr("")
    ensures v.Num? ==> r == KNum(v.n)
    ensures v.Str? ==> r == KStr(Lower(v.s))
    ensures v.Bool? ==> r == KNum(if v.b then 1 else 0)
    ensures r.KStr? ==> Lower(r.s) == r.s
  {
    LowerIdempotent(ToStr(v));
    match v
    case Undefined => KStr("")
    case Null => KStr("")
    case Num(n) => KNum(n)
    case Str(s) => LowerIdempotent(s); KStr(Lower(s))
    case Bool(b) => KNum(if b then 1 else 0)
    case _ => KStr(Lower(ToStr(v)))
  }

  /** `a < b` on strings: by character codes, a proper prefix first. */
  predicate LexLess(a: string, b: string) {
    if a == [] then b != []
    else if b == [] then false
    else if a[0] != b[0] then a[0] < b[0]
    else LexLess(a[1..], b[1..])
  }

  lemma {:induction false} LexAsymmetric(a: string, b: string)
    ensures !(LexLess(a, b) && LexLess(b, a))
  {
    if a != [] && b != [] && a[0] == b[0] {
      LexAsymmetric(a[1..], b[1..]);
    }
  }

  lemma {:induction false} LexTrichotomy(a: string, b: string)
    ensures a == b || LexLess(a, b) || LexLess(b, a)
  {
    if a != [] && b != [] && a[0] == b[0] {
      LexTrichotomy(a[1..], b[1..]);
      if a[1..] == b[1..] {
        assert a == [a[0]] + a[1..] && b == [b[0]] + b[1..];
      }
    }
  }

  lemma {:induction false} LexTransitive(a: string, b: string, c: string)
    requires LexLess(a, b) && LexLess(b, c)
    ensures LexLess(a, c)
  {
    if a != [] && a[0] == b[0] && b[0] == c[0] {
      LexTransitive(a[1..], b[1..], c[1..]);
    }
  }

  /** `<` on the results of `Number(x)`; NaN is below and above nothing. */
  predicate NumLess(a: Number, b: Number) {
    match (a, b)
    case (Finite(x), Finite(y)) => x < y
    case (Finite(_), Infinite(p)) => p
    case (Infinite(p), Finite(_)) => !p
    case (Infinite(p), Infinite(q)) => !p && q
    case _ => false
  }

  /** `aa < bb` on sort keys: a string compared with a number is compared as `Number(s)`. */
  predicate Less(a: Key, b: Key) {
    match (a, b)
    case (KNum(x), KNum(y)) => x < y
    case (KStr(x), KStr(y)) => LexLess(x, y)
    case (KNum(x), KStr(y)) => NumLess(Finite(x), StrToNumber(y))
    case (KStr(x), KNum(y)) => NumLess(StrToNumber(x), Finite(y))
  }

  datatype Dir = Asc | Desc

  /** The table's sort state: the key of the sorted column (undefined without columns) and the direction. */
  datatype SortState = SortState(key: Option<string>, dir: Dir)

  /** `useState({ key: columns[0]?.key, dir: 'asc' })`. */
  function InitialSort(columns: seq<Csv.Column>): (r: SortState)
    ensures r.dir == Asc
    ensures columns != [] ==> r.key == Some(columns[0].key)
    ensures columns == [] ==> r.key == None
  {
    SortState(if columns == [] then None else Some(columns[0].key), Asc)
  }

  /** A click on the header of `col`: the same column ascending turns descending, anything else sorts ascending on it. */
  function Click(s: SortState, col: string): (r: SortState)
    ensures r.key == Some(col)
    ensures r.dir == Desc <==> s.key == Some(col) && s.dir == Asc
  {
    SortState(Some(col), if s.key == Some(col) && s.dir == Asc then Desc else Asc)
  }

  /** Further clicks on the same header alternate the direction, starting from ascending. */
  lemma ClickAlternates(s: SortState, col: string)
    ensures Click(Click(s, col), col).dir != Click(s, col).dir
    ensures s.key != Some(col) ==> Click(s, col).dir == Asc
  {
  }

  /** `columns.find(c => c.key === key)`. */
  function FindColumn(columns: seq<Csv.Column>, key: Option<string>): (r: Option<Csv.Column>)
    ensures r.Some? ==> r.value in columns && Some(r.value.key) == key
    ensures r.None? ==> forall c :: c in columns ==> Some(c.key) != key
  {
    if columns == [] then None
    else if Some(columns[0].key) == key then Some(columns[0])
    else FindColumn(columns[1..], key)
  }

  /** `acc(row)`: the first column with the key supplies its accessor, else `row?.[key]`; then `normalize`. */
  function SortKey(columns: seq<Csv.Column>, key: Option<string>, row: Value): Key {
    var col := FindColumn(columns, key);
    var k := if key.Some? then key.value else "undefined";
    Normalize(if col.Some? && col.value.accessor.Some? then col.value.accessor.value(row) else Get(row, k))
  }

  /** The comparator: -dir, dir or 0. */
  function Compare(a: Key, b: Key, dir: Dir): int {
    var d := if dir == Asc then 1 else -1;
    if Less(a, b) then -1 * d else if Less(b, a) then 1 * d else 0
  }

  /** `cmp(a, b) <= 0`: `a` may stay before `b`. */
  function InOrder(columns: seq<Csv.Column>, s: SortState): (Value, Value) -> bool {
    (a: Value, b: Value) => Compare(SortKey(columns, s.key, a), SortKey(columns, s.key, b), s.dir) <= 0
  }

  /** `[...rows].sort(cmp)`, a stable sort on a copy. */
  function SortedRows(columns: seq<Csv.Column>, s: SortState, rows: seq<Value>): (r: seq<Value>)
    ensures multiset(r) == multiset(rows)
  {
    Sorting.Sort(rows, InOrder(columns, s))
  }

  /** All sort keys of the rows are numbers, or all are strings: the case where `<` is an order. */
  predicate OneKind(columns: seq<Csv.Column>, s: SortState, rows: seq<Value>) {
    (forall r :: r in rows ==> SortKey(columns, s.key, r).KNum?)
    || (forall r :: r in rows ==> SortKey(columns, s.key, r).KStr?)
  }

  /** On keys of one kind, `<` is a strict order: asymmetric, trichotomous and transitive. */
  lemma LessOrder(a: Key, b: Key, c: Key)
    requires (a.KNum? && b.KNum? && c.KNum?) || (a.KStr? && b.KStr? && c.KStr?)
    ensures !(Less(a, b) && Less(b, a))
    ensures a == b || Less(a, b) || Less(b, a)
    ensures Less(a, b) && Less(b, c) ==> Less(a, c)
  {
    if a.KStr? {
      LexAsymmetric(a.s, b.s);
      LexTrichotomy(a.s, b.s);
      if Less(a, b) && Less(b, c) {
        LexTransitive(a.s, b.s, c.s);
      }
    }
  }

  /** On keys of one kind, `cmp(a, b) <= 0` is a total preorder in either direction. */
  lemma CompareOrder(x: Key, y: Key, z: Key, dir: Dir)
    requires (x.KNum? && y.KNum? && z.KNum?) || (x.KStr? && y.KStr? && z.KStr?)
    ensures Compare(x, y, dir) <= 0 || Compare(y, x, dir) <= 0
    ensures Compare(x, y, dir) <= 0 && Compare(y, z, dir) <= 0 ==> Compare(x, z, dir) <= 0
  {
    LessOrder(x, y, z);
    LessOrder(y, z, x);
    LessOrder(z, x, y);
    LessOrder(x, z, y);
    LessOrder(z, y, x);
    LessOrder(y, x, z);
  }

  /**
   * With keys of one kind the sorted rows are in order: never a smaller key
   * after a larger one ascending, nor a larger after a smaller descending.
   */
  lemma SortedRowsOrdered(columns: seq<Csv.Column>, s: SortState, rows: seq<Value>)
    requires OneKind(columns, s, rows)
    ensures var r := SortedRows(columns, s, rows);
      forall i, j :: 0 <= i < j < |r| ==>
        if s.dir == Asc then !Less(SortKey(columns, s.key, r[j]), SortKey(columns, s.key, r[i]))
        else !Less(SortKey(columns, s.key, r[i]), SortKey(columns, s.key, r[j]))
  {
    var key := (x: Value) => SortKey(columns, s.key, x);
    var le := InOrder(columns, s);
    forall a, b, c | a in rows && b in rows && c in rows
      ensures le(a, b) || le(b, a)
      ensures le(a, b) && le(b, c) ==> le(a, c)
    {
      CompareOrder(key(a), key(b), key(c), s.dir);
      assert le(a, b) == (Compare(key(a), key(b), s.dir) <= 0);
      assert le(b, a) == (Compare(key(b), key(a), s.dir) <= 0);
      assert le(b, c) == (Compare(key(b), key(c), s.dir) <= 0);
      assert le(a, c) == (Compare(key(a), key(c), s.dir) <= 0);
    }
    assert Sorting.PreorderOn(rows, le);
    Sorting.SortSortedOn(rows, le);
    var r := SortedRows(columns, s, rows);
    forall i, j | 0 <= i < j < |r|
      ensures if s.dir == Asc then !Less(key(r[j]), key(r[i])) else !Less(key(r[i]), key(r[j]))
    {
      assert le(r[i], r[j]);
      assert Compare(key(r[i]), key(r[j]), s.dir) <= 0;
      assert r[i] in multiset(rows) && r[j] in multiset(rows);
      assert r[i] in rows && r[j] in rows;
      LessOrder(key(r[i]), key(r[j]), key(r[j]));
    }
  }

  /** Rows whose keys are equal keep their order (the sort is stable). */
  lemma EqualKeysKeepOrder(columns: seq<Csv.Column>, s: SortState, rows: seq<Value>)
    requires forall a, b :: a in rows && b in rows ==> SortKey(columns, s.key, a) == SortKey(columns, s.key, b)
    ensures SortedRows(columns, s, rows) == rows
  {
    var le := InOrder(columns, s);
    forall i, j | 0 <= i < j < |rows| ensures le(rows[i], rows[j]) {
      var k := SortKey(columns, s.key, rows[i]);
      assert rows[i] in rows && rows[j] in rows;
      assert SortKey(columns, s.key, rows[j]) == k;
      LessOrder(k, k, k);
      assert Compare(k, k, s.dir) == 0;
    }
    Sorting.SortOfSorted(rows, le);
  }

  /** `getRowId` by default: `String(r._id || r.id)`. */
  function DefaultRowId(r: Value): string {
    ToStr(Or(Get(r, "_id"), Get(r, "id")))
  }

  /**
   * `allChecked`: false when not selectable or when there are no rows;
   * otherwise whether every row's id is selected.
   */
  function AllChecked(selectable: bool, sorted: seq<Value>, selectedIds: seq<string>, rowId: Value -> string): (r: bool)
    ensures !selectable || sorted == [] ==> !r
    ensures selectable && sorted != [] ==> (r <==> forall x :: x in sorted ==> rowId(x) in selectedIds)
  {
    selectable && |sorted| > 0 && forall i :: 0 <= i < |sorted| ==> rowId(sorted[i]) in selectedIds
  }

  /** The checkbox does not depend on the order: the sorted rows give the same answer as the rows themselves. */
  lemma AllCheckedAnyOrder(columns: seq<Csv.Column>, s: SortState, rows: seq<Value>, selectable: bool,
                           selectedIds: seq<string>, rowId: Value -> string)
    ensures AllChecked(selectable, SortedRows(columns, s, rows), selectedIds, rowId)
            == AllChecked(selectable, rows, selectedIds, rowId)
  {
    var r := SortedRows(columns, s, rows);
    assert |r| == |rows| by {
      assert |multiset(r)| == |multiset(rows)|;
    }
    forall x ensures x in r <==> x in rows {
      assert x in r <==> x in multiset(r);
      assert x in rows <==> x in multiset(rows);
    }
  }
}
