/**
 * The service catalogue page (frontend/src/pages/Services.jsx): the list
 * taken from the server's answer, the category chips derived from it, the
 * text and category filter, and the five orders the page offers.
 */
module ServicesPage {
  import opened Js
  import opened Strings
  import Sorting
  import Favorites

  /** The `services` memo: the answer itself when it is a list, else its `services` list, else none. */
  function ServicesOf(data: Value): (r: seq<Value>)
    ensures !Truthy(data) ==> r == []
    ensures data.Arr? ==> r == data.items
    ensures data.Obj? && Get(data, "services").Arr? ==> r == Get(data, "services").items
  {
    if !Truthy(data) then []
    else if IsArray(data) then data.items
    else if IsArray(Get(data, "services")) then Get(data, "services").items
    else []
  }

  // ------------------------------------------------------------ categories

  /**
   * `s.category || s.type || ''`, which the page then trims or lower-cases;
   * a value that is not a string is read as none.
   */
  function RawCategory(s: Value): string {
    var v := Or(Get(s, "category"), Or(Get(s, "type"), Str("")));
    if v.Str? then v.s else ""
  }

  /** The chip a service contributes: its category, trimmed. */
  function CategoryValue(s: Value): string {
    Trim(RawCategory(s))
  }

  /**
   * The chip value of every service, in order, `chip` reading one service
   * (the page reads `CategoryValue`; what follows holds for any reader).
   */
  function Values(services: seq<Value>, chip: Value -> string): (r: seq<string>)
    ensures |r| == |services| && forall i :: 0 <= i < |services| ==> r[i] == chip(services[i])
  {
    seq(|services|, i requires 0 <= i < |services| => chip(services[i]))
  }

  /** One more service adds its chip value at the end. */
  lemma ValuesSnoc(services: seq<Value>, s: Value, chip: Value -> string)
    ensures Values(services + [s], chip) == Values(services, chip) + [chip(s)]
  {
  }

  /** The non-empty ones, in order, with repeats. */
  function NonEmpty(vs: seq<string>): (r: seq<string>)
    ensures forall c :: c in r <==> c != "" && c in vs
  {
    if vs == [] then []
    else
      var p := vs[..|vs| - 1];
      var c := vs[|vs| - 1];
      assert vs == p + [c];
      NonEmpty(p) + (if c != "" then [c] else [])
  }

  /** One more value adds itself when it is not empty. */
  lemma NonEmptySnoc(vs: seq<string>, c: string)
    ensures NonEmpty(vs + [c]) == NonEmpty(vs) + (if c != "" then [c] else [])
  {
    assert (vs + [c])[..|vs|] == vs;
  }

  /** The non-empty chip values of the services, in order, with repeats. */
  function Cats(services: seq<Value>, chip: Value -> string): seq<string> {
    NonEmpty(Values(services, chip))
  }

  /** One more service adds its chip value when it is not empty. */
  lemma CatsSnoc(services: seq<Value>, s: Value, chip: Value -> string)
    ensures Cats(services + [s], chip) == Cats(services, chip) + (if chip(s) != "" then [chip(s)] else [])
  {
    ValuesSnoc(services, s, chip);
    NonEmptySnoc(Values(services, chip), chip(s));
  }

  const Defaults: seq<string> := ["Cleaning", "Plumbing", "Electrical", "Appliance", "Painting", "Pest"]

  /** No service has a non-empty chip value exactly when there is no chip to derive. */
  lemma CatsEmpty(services: seq<Value>, chip: Value -> string)
    ensures Cats(services, chip) == [] <==> forall i :: 0 <= i < |services| ==> chip(services[i]) == ""
  {
    var vs := Values(services, chip);
    if exists i :: 0 <= i < |services| && chip(services[i]) != "" {
      var i :| 0 <= i < |services| && chip(services[i]) != "";
      assert vs[i] in Cats(services, chip);
    }
    if Cats(services, chip) != [] {
      assert Cats(services, chip)[0] in vs;
    }
  }

  /**
   * The chips: 'All' first, then the derived ones or, when there is none,
   * the defaults.
   */
  function Chips(services: seq<Value>, chip: Value -> string): (r: seq<string>)
    ensures |r| >= 1 && r[0] == "All"
    ensures Favorites.Dedup(Cats(services, chip)) != [] ==> r[1..] == Favorites.Dedup(Cats(services, chip))
  {
    var d := Favorites.Dedup(Cats(services, chip));
    var r := ["All"] + (if d == [] then Defaults else d);
    assert r[1..] == (if d == [] then Defaults else d);
    r
  }

  /** The chips of the page. */
  function Categories(services: seq<Value>): seq<string> {
    Chips(services, CategoryValue)
  }

  /** With no chip value on any service the chips are 'All' and the defaults. */
  lemma CategoriesDefault(services: seq<Value>, chip: Value -> string)
    requires forall i :: 0 <= i < |services| ==> chip(services[i]) == ""
    ensures Chips(services, chip) == ["All"] + Defaults
  {
    CatsEmpty(services, chip);
  }

  /**
   * Otherwise each non-empty chip value of a service is a chip exactly once,
   * and the chips keep the order in which the services first show them.
   */
  lemma CategoriesDerived(services: seq<Value>, chip: Value -> string)
    requires exists i :: 0 <= i < |services| && chip(services[i]) != ""
    ensures var r := Chips(services, chip);
      && Sorting.Distinct(r[1..])
      && (forall c :: c in r[1..] <==> c != "" && exists i :: 0 <= i < |services| && chip(services[i]) == c)
      && forall i, j :: 1 <= i < j < |r| ==> Favorites.IndexOf(Cats(services, chip), r[i]) < Favorites.IndexOf(Cats(services, chip), r[j])
  {
    CatsEmpty(services, chip);
    var r := Chips(services, chip);
    var d := Favorites.Dedup(Cats(services, chip));
    var vs := Values(services, chip);
    assert r[1..] == d;
    forall c ensures c in d <==> c != "" && exists i :: 0 <= i < |services| && chip(services[i]) == c {
      if c in vs {
        var i :| 0 <= i < |vs| && vs[i] == c;
        assert chip(services[i]) == c;
      }
      if exists i :: 0 <= i < |services| && chip(services[i]) == c {
        var i :| 0 <= i < |services| && chip(services[i]) == c;
        assert vs[i] == c;
      }
    }
    forall i, j | 1 <= i < j < |r| ensures Favorites.IndexOf(Cats(services, chip), r[i]) < Favorites.IndexOf(Cats(services, chip), r[j]) {
      assert r[i] == d[i - 1] && r[j] == d[j - 1];
    }
  }

  /** `derivedCategories`: the loop adding each chip to a `Set`, whose order is the order of insertion. */
  method DerivedCategories(services: seq<Value>) returns (r: seq<string>)
    ensures r == Categories(services)
  {
    var arr: seq<string> := [];
    var i := 0;
    while i < |services|
      invariant 0 <= i <= |services|
      invariant arr == Favorites.Dedup(Cats(services[..i], CategoryValue))
    {
      var c := CategoryValue(services[i]);
      DerivedStep(services, i, CategoryValue);
      if c != "" && c !in arr {
        arr := arr + [c];
      }
      i := i + 1;
    }
    assert services[..i] == services;
    if |arr| > 0 {
      r := ["All"] + arr;
    } else {
      r := ["All"] + Defaults;
    }
  }

  /** One turn of the loop: the next service's chip joins the set unless it is empty or there already. */
  lemma DerivedStep(services: seq<Value>, i: nat, chip: Value -> string)
    requires i < |services|
    ensures var c := chip(services[i]);
      var d := Favorites.Dedup(Cats(services[..i], chip));
      Favorites.Dedup(Cats(services[..i + 1], chip)) == if c != "" && c !in d then d + [c] else d
  {
    assert services[..i + 1] == services[..i] + [services[i]];
    CatsSnoc(services[..i], services[i], chip);
    AddChip(Cats(services[..i], chip), chip(services[i]));
  }

  /** What adding one chip to the set does to the list of distinct chips. */
  lemma AddChip(p: seq<string>, c: string)
    ensures var q := p + (if c != "" then [c] else []);
      Favorites.Dedup(q) == if c != "" && c !in Favorites.Dedup(p) then Favorites.Dedup(p) + [c] else Favorites.Dedup(p)
  {
    if c != "" {
      assert (p + [c])[..|p|] == p;
    } else {
      assert p + [] == p;
    }
  }

  // ---------------------------------------------------------------- filter

  /** `search.trim().toLowerCase()`. */
  function QueryText(search: string): string {
    Lower(Trim(search))
  }

  /** `(s.name || s.title || '').toLowerCase()`. */
  function NameText(s: Value): string {
    Lower(ToStr(Or(Get(s, "name"), Or(Get(s, "title"), Str("")))))
  }

  predicate MatchesText(s: Value, q: string) {
    q == "" || Contains(NameText(s), q)
  }

  /** The category test as written: the untrimmed category against the chosen chip. */
  predicate MatchesCategoryAsWritten(s: Value, category: string) {
    category == "All" || Lower(RawCategory(s)) == Lower(category)
  }

  function KeepAsWritten(q: string, category: string): Value -> bool {
    (s: Value) => MatchesText(s, q) && MatchesCategoryAsWritten(s, category)
  }

  /**
   * The filter as written: exactly the services whose name matches the
   * query and whose untrimmed category equals the chosen chip ignoring
   * case, in their order, none added.
   */
  function FilterAsWritten(services: seq<Value>, search: string, category: string): (r: seq<Value>)
    ensures forall i :: 0 <= i < |r| ==> MatchesText(r[i], QueryText(search)) && MatchesCategoryAsWritten(r[i], category)
    ensures forall i :: 0 <= i < |services| && MatchesText(services[i], QueryText(search)) && MatchesCategoryAsWritten(services[i], category) ==>
      services[i] in r
    ensures multiset(r) <= multiset(services)
  {
    Sorting.FilterSub(services, KeepAsWritten(QueryText(search), category));
    Sorting.Filter(services, KeepAsWritten(QueryText(search), category))
  }

  /** The category test on the trimmed category, the text the chips show. */
  predicate MatchesCategory(s: Value, category: string) {
    category == "All" || Lower(CategoryValue(s)) == Lower(category)
  }

  function Keep(q: string, category: string): Value -> bool {
    (s: Value) => MatchesText(s, q) && MatchesCategory(s, category)
  }

  /**
   * The filter: exactly the services whose lower-cased name contains the
   * query (any, when the query is blank) and whose category is the chosen
   * one ignoring case (any, for 'All'), in their order, none added.
   */
  function FilterServices(services: seq<Value>, search: string, category: string): (r: seq<Value>)
    ensures forall i :: 0 <= i < |r| ==> MatchesText(r[i], QueryText(search)) && MatchesCategory(r[i], category)
    ensures forall i :: 0 <= i < |services| && MatchesText(services[i], QueryText(search)) && MatchesCategory(services[i], category) ==>
      services[i] in r
    ensures multiset(r) <= multiset(services)
  {
    Sorting.FilterSub(services, Keep(QueryText(search), category));
    Sorting.Filter(services, Keep(QueryText(search), category))
  }

  /** With a blank query and 'All', every service is shown. */
  lemma FilterAll(services: seq<Value>, search: string)
    requires QueryText(search) == ""
    ensures FilterServices(services, search, "All") == services
  {
    Sorting.FilterAllKept(services, Keep(QueryText(search), "All"));
  }

  /** Choosing a chip shows every service that contributed it. */
  lemma ChipShowsItsServices(services: seq<Value>, search: string, i: nat)
    requires i < |services| && QueryText(search) == ""
    ensures services[i] in FilterServices(services, search, CategoryValue(services[i]))
  {
    var c := CategoryValue(services[i]);
    assert MatchesCategory(services[i], c);
    assert Keep(QueryText(search), c)(services[i]);
  }

  /** A single service with a non-empty chip value contributes that one chip. */
  lemma OneService(s: Value, chip: Value -> string)
    requires chip(s) != ""
    ensures Chips([s], chip) == ["All", chip(s)]
  {
    ValuesSnoc([], s, chip);
    assert [] + [s] == [s];
    NonEmptySnoc([], chip(s));
    Favorites.DedupDistinct([chip(s)]);
  }

  /** `Obj(fields)` whose category is a chip text with one leading space. */
  predicate Padded(s: Value, c: string) {
    s.Obj? && Get(s, "category") == Str([' '] + c) && c != "" && Trimmed(c)
  }

  lemma PaddedValue(s: Value, c: string)
    requires Padded(s, c)
    ensures RawCategory(s) == [' '] + c && CategoryValue(s) == c
  {
    assert ([' '] + c)[1..] == c;
  }

  /** Such a service contributes the chip `c`. */
  lemma PaddedChip(s: Value, c: string)
    requires Padded(s, c)
    ensures Categories([s]) == ["All", c]
  {
    PaddedValue(s, c);
    OneService(s, CategoryValue);
  }

  /**
   * As written, choosing that chip hides the service: its category is
   * compared before trimming, so no case folding can make it equal the chip.
   */
  lemma PaddedCategoryHidden(s: Value, c: string, search: string)
    requires Padded(s, c) && c != "All"
    ensures Categories([s]) == ["All", c]
    ensures FilterAsWritten([s], search, c) == []
  {
    PaddedChip(s, c);
    PaddedValue(s, c);
    assert |Lower(RawCategory(s))| != |Lower(c)|;
    Sorting.FilterOne(s, KeepAsWritten(QueryText(search), c));
  }

  /** Comparing the trimmed category, the same chip shows it. */
  lemma PaddedCategoryShown(s: Value, c: string)
    requires Padded(s, c)
    ensures FilterServices([s], "", c) == [s]
  {
    PaddedValue(s, c);
    assert QueryText("") == "";
    Sorting.FilterOne(s, Keep("", c));
  }

  /** A service in the catalogue listed as `{ category: " Cleaning" }`. */
  lemma PaddedCleaning()
    ensures Padded(Obj(map["category" := Str(" Cleaning")]), "Cleaning")
  {
    assert [' '] + "Cleaning" == " Cleaning";
  }

  // ------------------------------------------------------------------ sort

  /** `a - b` on JavaScript numbers. */
  function Minus(a: Number, b: Number): Number {
    match (a, b)
    case (Finite(x), Finite(y)) => Finite(x - y)
    case (Infinite(p), Finite(_)) => Infinite(p)
    case (Finite(_), Infinite(p)) => Infinite(!p)
    case (Infinite(p), Infinite(q)) => if p != q then Infinite(p) else NaN
    case _ => NaN
  }

  /** A comparator's answer lets `a` stay before `b`: at most 0, NaN counting as 0. */
  predicate NotAfter(c: Number) {
    c.NaN? || (c.Finite? && c.i <= 0) || (c.Infinite? && !c.positive)
  }

  /** `Number(s.priceFrom ?? s.price ?? s.basePrice ?? 0) || 0`. */
  function Price(s: Value): (r: Number)
    ensures !r.NaN?
  {
    NumberOrZero(Coalesce(Get(s, "priceFrom"), Coalesce(Get(s, "price"), Coalesce(Get(s, "basePrice"), Num(0)))))
  }

  function Rating(s: Value): (r: Number)
    ensures !r.NaN?
  {
    NumberOrZero(Coalesce(Get(s, "rating"), Coalesce(Get(s, "avgRating"), Num(0))))
  }

  function Reviews(s: Value): (r: Number)
    ensures !r.NaN?
  {
    NumberOrZero(Coalesce(Get(s, "reviews"), Coalesce(Get(s, "reviewCount"), Num(0))))
  }

  datatype SortBy = Popular | ByRating | PriceAsc | PriceDesc | Newest

  /** The select's value: anything unknown sorts as 'popular'. */
  function SortByOf(sort: string): SortBy {
    if sort == "rating" then ByRating
    else if sort == "price_asc" then PriceAsc
    else if sort == "price_desc" then PriceDesc
    else if sort == "newest" then Newest
    else Popular
  }

  /**
   * The numbers the comparators read from a service; `created` stands for
   * `new Date(s.createdAt || s.created_at || s.updatedAt || 0).getTime() || 0`.
   */
  datatype Keys = Keys(price: Value -> Number, rating: Value -> Number, reviews: Value -> Number, created: Value -> int)

  /** The readers of the page. */
  function PageKeys(created: Value -> int): Keys {
    Keys(Price, Rating, Reviews, created)
  }

  /** The comparator of each order. */
  function Comparator(order: SortBy, k: Keys, a: Value, b: Value): Number {
    match order
    case ByRating => Minus(k.rating(b), k.rating(a))
    case PriceAsc => Minus(k.price(a), k.price(b))
    case PriceDesc => Minus(k.price(b), k.price(a))
    case Newest => Finite(k.created(b) - k.created(a))
    case Popular =>
      var r := Minus(k.reviews(b), k.reviews(a));
      if r != Finite(0) then r else Minus(k.rating(b), k.rating(a))
  }

  function InOrder(order: SortBy, k: Keys): (Value, Value) -> bool {
    (a: Value, b: Value) => NotAfter(Comparator(order, k, a, b))
  }

  /** `list.sort(comparator)`, a stable sort. */
  function SortServices(list: seq<Value>, order: SortBy, created: Value -> int): (r: seq<Value>)
    ensures multiset(r) == multiset(list)
  {
    Sorting.Sort(list, InOrder(order, PageKeys(created)))
  }

  /**
   * The `filtered` memo as written: the filter as written, then the chosen
   * order; exactly the services that pass the filter, each as often as in
   * the list.
   */
  function Visible(services: seq<Value>, search: string, category: string, sort: string, created: Value -> int): (r: seq<Value>)
    ensures multiset(r) == multiset(FilterAsWritten(services, search, category))
    ensures multiset(r) <= multiset(services)
    ensures forall i :: 0 <= i < |r| ==> MatchesText(r[i], QueryText(search)) && MatchesCategoryAsWritten(r[i], category)
  {
    var f := FilterAsWritten(services, search, category);
    var r := SortServices(f, SortByOf(sort), created);
    assert forall i :: 0 <= i < |r| ==> r[i] in multiset(f);
    r
  }

  /** The `filtered` memo corrected: the corrected filter, then the chosen order. */
  function VisibleCorrected(services: seq<Value>, search: string, category: string, sort: string, created: Value -> int): (r: seq<Value>)
    ensures multiset(r) == multiset(FilterServices(services, search, category))
    ensures multiset(r) <= multiset(services)
    ensures forall i :: 0 <= i < |r| ==> MatchesText(r[i], QueryText(search)) && MatchesCategory(r[i], category)
  {
    var f := FilterServices(services, search, category);
    var r := SortServices(f, SortByOf(sort), created);
    assert forall i :: 0 <= i < |r| ==> r[i] in multiset(f);
    r
  }
  /** When every category is stored trimmed, the page as written shows what the corrected one does. */
  lemma VisibleAgrees(services: seq<Value>, search: string, category: string, sort: string, created: Value -> int)
    requires forall i :: 0 <= i < |services| ==> Trimmed(RawCategory(services[i]))
    ensures Visible(services, search, category, sort, created) == VisibleCorrected(services, search, category, sort, created)
  {
    forall i | 0 <= i < |services|
      ensures KeepAsWritten(QueryText(search), category)(services[i]) == Keep(QueryText(search), category)(services[i])
    {
      TrimOfTrimmed(RawCategory(services[i]));
    }
    Sorting.FilterEquiv(services, KeepAsWritten(QueryText(search), category), Keep(QueryText(search), category));
  }


  /** A finite difference is not after 0 exactly when it is at most 0. */
  lemma NotAfterFinite(x: int, y: int)
    ensures NotAfter(Minus(Finite(x), Finite(y))) <==> x <= y
  {
  }

  /** The number a reader gives, 0 when it is not finite. */
  function IntOf(n: Number): int {
    if n.Finite? then n.i else 0
  }

  /** The key each order sorts by, largest first. */
  function OrderKey(order: SortBy, k: Keys, s: Value): seq<int> {
    match order
    case ByRating => [IntOf(k.rating(s))]
    case PriceAsc => [-IntOf(k.price(s))]
    case PriceDesc => [IntOf(k.price(s))]
    case Newest => [k.created(s)]
    case Popular => [IntOf(k.reviews(s)), IntOf(k.rating(s))]
  }

  /** The numbers an order reads are finite. */
  predicate FiniteFor(order: SortBy, k: Keys, s: Value) {
    match order
    case ByRating => k.rating(s).Finite?
    case PriceAsc => k.price(s).Finite?
    case PriceDesc => k.price(s).Finite?
    case Newest => true
    case Popular => k.reviews(s).Finite? && k.rating(s).Finite?
  }

  /** A one-number key not below another: the number is not below the other. */
  lemma LexGeOne(x: int, y: int)
    ensures Sorting.LexGe([x], [y]) <==> x >= y
  {
    assert [x][1..] == [] && [y][1..] == [];
  }

  /** A two-number key not below another: the first is greater, or equal with the second not below. */
  lemma LexGeTwo(x: int, x2: int, y: int, y2: int)
    ensures Sorting.LexGe([x, x2], [y, y2]) <==> x > y || (x == y && x2 >= y2)
  {
    assert [x, x2][1..] == [x2] && [y, y2][1..] == [y2];
    LexGeOne(x2, y2);
  }

  /** On finite numbers each comparator lets `a` before `b` exactly when `a`'s key is not below `b`'s. */
  lemma ComparatorByKey(order: SortBy, k: Keys, a: Value, b: Value)
    requires FiniteFor(order, k, a) && FiniteFor(order, k, b)
    ensures InOrder(order, k)(a, b) == Sorting.LexGe(OrderKey(order, k, a), OrderKey(order, k, b))
  {
    match order
    case ByRating =>
      NotAfterFinite(k.rating(b).i, k.rating(a).i);
      LexGeOne(k.rating(a).i, k.rating(b).i);
    case PriceAsc =>
      NotAfterFinite(k.price(a).i, k.price(b).i);
      LexGeOne(-k.price(a).i, -k.price(b).i);
    case PriceDesc =>
      NotAfterFinite(k.price(b).i, k.price(a).i);
      LexGeOne(k.price(a).i, k.price(b).i);
    case Newest =>
      NotAfterFinite(k.created(b), k.created(a));
      LexGeOne(k.created(a), k.created(b));
    case Popular =>
      NotAfterFinite(k.reviews(b).i, k.reviews(a).i);
      NotAfterFinite(k.rating(b).i, k.rating(a).i);
      LexGeTwo(k.reviews(a).i, k.rating(a).i, k.reviews(b).i, k.rating(b).i);
  }

  /** The key of an order as a function of the service. */
  function KeyOf(order: SortBy, k: Keys): Value -> seq<int> {
    (s: Value) => OrderKey(order, k, s)
  }

  /**
   * Each order sorts by its key: where the numbers are finite, every service
   * listed before another has a key not below the other's.
   */
  lemma SortedByKey(list: seq<Value>, order: SortBy, k: Keys)
    requires forall s :: s in list ==> FiniteFor(order, k, s)
    ensures var r := Sorting.Sort(list, InOrder(order, k));
      forall i, j :: 0 <= i < j < |r| ==> Sorting.LexGe(OrderKey(order, k, r[i]), OrderKey(order, k, r[j]))
  {
    KeyedOn(list, order, k);
    Sorting.SortByKeyOn(list, InOrder(order, k), KeyOf(order, k));
  }

  /** On the services sorted, each comparator is the order of its key. */
  lemma KeyedOn(list: seq<Value>, order: SortBy, k: Keys)
    requires forall s :: s in list ==> FiniteFor(order, k, s)
    ensures forall a, b :: a in list && b in list ==> InOrder(order, k)(a, b) == Sorting.LexGe(KeyOf(order, k)(a), KeyOf(order, k)(b))
  {
    forall a, b | a in list && b in list ensures InOrder(order, k)(a, b) == Sorting.LexGe(KeyOf(order, k)(a), KeyOf(order, k)(b)) {
      ComparatorByKey(order, k, a, b);
    }
  }

  /** 'price_asc' lists prices from low to high. */
  lemma PriceAscOrdered(list: seq<Value>, k: Keys)
    requires forall s :: s in list ==> k.price(s).Finite?
    ensures var r := Sorting.Sort(list, InOrder(PriceAsc, k));
      forall i, j :: 0 <= i < j < |r| ==> IntOf(k.price(r[i])) <= IntOf(k.price(r[j]))
  {
    assert forall s :: s in list ==> FiniteFor(PriceAsc, k, s);
    SortedByKey(list, PriceAsc, k);
    var r := Sorting.Sort(list, InOrder(PriceAsc, k));
    forall i, j | 0 <= i < j < |r| ensures IntOf(k.price(r[i])) <= IntOf(k.price(r[j])) {
      AscendingKey(k, r[i], r[j]);
    }
  }

  /** The key of 'price_asc' is the price negated: a key not below another is a price not above. */
  lemma AscendingKey(k: Keys, a: Value, b: Value)
    requires Sorting.LexGe(OrderKey(PriceAsc, k, a), OrderKey(PriceAsc, k, b))
    ensures IntOf(k.price(a)) <= IntOf(k.price(b))
  {
    LexGeOne(-IntOf(k.price(a)), -IntOf(k.price(b)));
  }

  /** 'price_desc' lists prices from high to low. */
  lemma PriceDescOrdered(list: seq<Value>, k: Keys)
    requires forall s :: s in list ==> k.price(s).Finite?
    ensures var r := Sorting.Sort(list, InOrder(PriceDesc, k));
      forall i, j :: 0 <= i < j < |r| ==> IntOf(k.price(r[i])) >= IntOf(k.price(r[j]))
  {
    assert forall s :: s in list ==> FiniteFor(PriceDesc, k, s);
    SortedByKey(list, PriceDesc, k);
    var r := Sorting.Sort(list, InOrder(PriceDesc, k));
    forall i, j | 0 <= i < j < |r| ensures IntOf(k.price(r[i])) >= IntOf(k.price(r[j])) {
      assert Sorting.LexGe(OrderKey(PriceDesc, k, r[i]), OrderKey(PriceDesc, k, r[j]));
      assert OrderKey(PriceDesc, k, r[i]) == [IntOf(k.price(r[i]))];
      assert OrderKey(PriceDesc, k, r[j]) == [IntOf(k.price(r[j]))];
      LexGeOne(IntOf(k.price(r[i])), IntOf(k.price(r[j])));
    }
  }

  /** 'rating' lists the best rated first. */
  lemma RatingOrdered(list: seq<Value>, k: Keys)
    requires forall s :: s in list ==> k.rating(s).Finite?
    ensures var r := Sorting.Sort(list, InOrder(ByRating, k));
      forall i, j :: 0 <= i < j < |r| ==> IntOf(k.rating(r[i])) >= IntOf(k.rating(r[j]))
  {
    assert forall s :: s in list ==> FiniteFor(ByRating, k, s);
    SortedByKey(list, ByRating, k);
    var r := Sorting.Sort(list, InOrder(ByRating, k));
    forall i, j | 0 <= i < j < |r| ensures IntOf(k.rating(r[i])) >= IntOf(k.rating(r[j])) {
      assert Sorting.LexGe(OrderKey(ByRating, k, r[i]), OrderKey(ByRating, k, r[j]));
      assert OrderKey(ByRating, k, r[i]) == [IntOf(k.rating(r[i]))];
      assert OrderKey(ByRating, k, r[j]) == [IntOf(k.rating(r[j]))];
      LexGeOne(IntOf(k.rating(r[i])), IntOf(k.rating(r[j])));
    }
  }

  /** 'newest' lists the most recently created first. */
  lemma NewestOrdered(list: seq<Value>, k: Keys)
    ensures var r := Sorting.Sort(list, InOrder(Newest, k));
      forall i, j :: 0 <= i < j < |r| ==> k.created(r[i]) >= k.created(r[j])
  {
    assert forall s :: s in list ==> FiniteFor(Newest, k, s);
    SortedByKey(list, Newest, k);
    var r := Sorting.Sort(list, InOrder(Newest, k));
    forall i, j | 0 <= i < j < |r| ensures k.created(r[i]) >= k.created(r[j]) {
      assert Sorting.LexGe(OrderKey(Newest, k, r[i]), OrderKey(Newest, k, r[j]));
      assert OrderKey(Newest, k, r[i]) == [k.created(r[i])];
      assert OrderKey(Newest, k, r[j]) == [k.created(r[j])];
      LexGeOne(k.created(r[i]), k.created(r[j]));
    }
  }

  /** 'popular' (and any unknown choice) lists the most reviewed first, and among equals the best rated. */
  lemma PopularOrdered(list: seq<Value>, k: Keys)
    requires forall s :: s in list ==> k.reviews(s).Finite? && k.rating(s).Finite?
    ensures var r := Sorting.Sort(list, InOrder(Popular, k));
      forall i, j :: 0 <= i < j < |r| ==> IntOf(k.reviews(r[i])) > IntOf(k.reviews(r[j])) || (IntOf(k.reviews(r[i])) == IntOf(k.reviews(r[j])) && IntOf(k.rating(r[i])) >= IntOf(k.rating(r[j])))
  {
    assert forall s :: s in list ==> FiniteFor(Popular, k, s);
    SortedByKey(list, Popular, k);
    var r := Sorting.Sort(list, InOrder(Popular, k));
    forall i, j | 0 <= i < j < |r| ensures IntOf(k.reviews(r[i])) > IntOf(k.reviews(r[j])) || (IntOf(k.reviews(r[i])) == IntOf(k.reviews(r[j])) && IntOf(k.rating(r[i])) >= IntOf(k.rating(r[j]))) {
      assert Sorting.LexGe(OrderKey(Popular, k, r[i]), OrderKey(Popular, k, r[j]));
      assert OrderKey(Popular, k, r[i]) == [IntOf(k.reviews(r[i])), IntOf(k.rating(r[i]))];
      assert OrderKey(Popular, k, r[j]) == [IntOf(k.reviews(r[j])), IntOf(k.rating(r[j]))];
      LexGeTwo(IntOf(k.reviews(r[i])), IntOf(k.rating(r[i])), IntOf(k.reviews(r[j])), IntOf(k.rating(r[j])));
    }
  }
}
