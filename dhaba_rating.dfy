/** The highway dhaba rating system: factories for a filter predicate, a
    sort order and a field picker over dhaba records, and a left-to-right
    chain of list operations. */
module DhabaRating {
  import opened Wrappers
  import opened JsValues
  import opened Text
  import opened Pipeline
  import Sequences
  import Sorting

  /** `item[field]`, or None when it is undefined. */
  function Field(item: Object, field: string): Option<Value> {
    if field in item then Some(item[field]) else None
  }

  /** Relational comparison of two numbers or of two strings. */
  predicate Comparable(x: Value, y: Value) {
    (x.Num? && y.Num?) || (x.Str? && y.Str?)
  }

  predicate Less(x: Value, y: Value) {
    (x.Num? && y.Num? && x.n < y.n) || (x.Str? && y.Str? && LexLess(x.s, y.s))
  }

  /** `a op b` for the five supported operators; false for any other
      operator and for an undefined field. */
  predicate Holds(op: string, a: Option<Value>, b: Value) {
    match a
    case None => false
    case Some(x) =>
      match op
      case ">=" => Comparable(x, b) && !Less(x, b)
      case ">" => Less(b, x)
      case "<" => Less(x, b)
      case "<=" => Comparable(x, b) && !Less(b, x)
      case "===" => x == b
      case _ => false
  }

  /** The numeric comparison each operator names. */
  predicate Compares(op: string, v: real, x: real) {
    (op == ">=" && v >= x) || (op == ">" && v > x) || (op == "<" && v < x) ||
    (op == "<=" && v <= x) || (op == "===" && v == x)
  }

  /** The predicate "item[field] op value": on a numeric field and a numeric
      value it is the numeric comparison; it rejects an item without the
      field, and rejects everything for an unknown operator. */
  function CreateFilter(field: string, op: string, value: Value): (keep: Object -> bool)
    ensures value.Num? ==> forall item: Object :: HasNumber(item, field) ==> (keep(item) <==> Compares(op, item[field].n, value.n))
    ensures forall item: Object :: field !in item ==> !keep(item)
    ensures op !in {">=", ">", "<", "<=", "==="} ==> forall item: Object :: !keep(item)
  {
    item => Holds(op, Field(item, field), value)
  }

  /** On numeric fields the filter is the numeric comparison itself. */
  lemma FilterOnNumbers(field: string, x: real, item: Object)
    requires HasNumber(item, field)
    ensures var v := item[field].n;
            (CreateFilter(field, ">=", Num(x))(item) <==> v >= x) &&
            (CreateFilter(field, ">", Num(x))(item) <==> v > x) &&
            (CreateFilter(field, "<", Num(x))(item) <==> v < x) &&
            (CreateFilter(field, "<=", Num(x))(item) <==> v <= x) &&
            (CreateFilter(field, "===", Num(x))(item) <==> v == x)
  {
  }

  /** Strict equality on a string field compares the strings; an item
      without the field never passes. */
  lemma FilterOnStrings(field: string, s: string, op: string, item: Object)
    ensures CreateFilter(field, "===", Str(s))(item) <==> HasString(item, field) && item[field].s == s
    ensures field !in item ==> !CreateFilter(field, op, Str(s))(item)
  {
  }

  /** An unknown operator rejects every item. */
  lemma UnknownOperatorRejects(field: string, op: string, value: Value, items: seq<Object>)
    requires op !in {">=", ">", "<", "<=", "==="}
    ensures Sequences.Filter(items, CreateFilter(field, op, value)) == []
  {
    Sequences.FilterKeeps(items, CreateFilter(field, op, value));
  }

  /** Where kinds are mixed or the field is missing, numbers come first, then
      strings, then booleans, then items without the field. */
  function Rank(a: Option<Value>): nat {
    match a
    case Some(Num(_)) => 0
    case Some(Str(_)) => 1
    case Some(Bool(_)) => 2
    case None => 3
  }

  /** "a comes no later than b" in ascending order of field values. */
  predicate KeyLe(a: Option<Value>, b: Option<Value>) {
    if Rank(a) != Rank(b) then Rank(a) < Rank(b)
    else match (a, b)
      case (Some(Num(x)), Some(Num(y))) => x <= y
      case (Some(Str(x)), Some(Str(y))) => !LexLess(y, x)
      case (Some(Bool(x)), Some(Bool(y))) => !x || y
      case _ => true
  }

  lemma KeyLeTotalPreorder(a: Option<Value>, b: Option<Value>, c: Option<Value>)
    ensures KeyLe(a, b) || KeyLe(b, a)
    ensures KeyLe(a, b) && KeyLe(b, c) ==> KeyLe(a, c)
  {
    if a.Some? && b.Some? && a.value.Str? && b.value.Str? {
      StringOrder(a.value.s, b.value.s, a.value.s);
      if c.Some? && c.value.Str? {
        StringOrder(a.value.s, b.value.s, c.value.s);
      }
    }
  }

  /** "Not after" on strings is a total preorder. */
  lemma StringOrder(x: string, y: string, z: string)
    ensures !LexLess(y, x) || !LexLess(x, y)
    ensures !LexLess(y, x) && !LexLess(z, y) ==> !LexLess(z, x)
  {
    if LexLess(y, x) && LexLess(x, y) {
      LexLessTransitive(x, y, x);
      LexLessIrreflexive(x);
    }
    if !LexLess(y, x) && !LexLess(z, y) && LexLess(z, x) {
      LexLessTotal(x, y);
      if LexLess(x, y) {
        LexLessTransitive(z, x, y);
      }
    }
  }

  /** The key order, for all keys at once. */
  lemma KeyLeOrder()
    ensures forall a, b :: KeyLe(a, b) || KeyLe(b, a)
    ensures forall a, b, c :: KeyLe(a, b) && KeyLe(b, c) ==> KeyLe(a, c)
  {
    forall a, b, c
      ensures (KeyLe(a, b) || KeyLe(b, a)) && (KeyLe(a, b) && KeyLe(b, c) ==> KeyLe(a, c))
    {
      KeyLeTotalPreorder(a, b, c);
    }
  }

  /** The sort order by a field, ascending unless the order is "desc",
      as a "comes no later than" relation; it relates any two items and is
      transitive, so sorting by it yields that order. */
  function CreateSorter(field: string, order: Option<string>): (le: (Object, Object) -> bool)
    ensures Sorting.Total(le) && Sorting.Transitive(le)
  {
    KeyLeOrder();
    if order == Some("desc") then (a: Object, b: Object) => KeyLe(Field(b, field), Field(a, field))
    else (a: Object, b: Object) => KeyLe(Field(a, field), Field(b, field))
  }

  /** Sorted ascending, numbers by value and strings alphabetically; sorted
      "desc", each value is at least the next one. */
  lemma SortBySorter(items: seq<Object>, field: string, order: Option<string>)
    ensures var r := Sorting.Sort(items, CreateSorter(field, order));
            multiset(r) == multiset(items) &&
            forall i :: 0 <= i < |r| - 1 ==>
              if order == Some("desc") then KeyLe(Field(r[i + 1], field), Field(r[i], field))
              else KeyLe(Field(r[i], field), Field(r[i + 1], field))
  {
    Sorting.SortSorted(items, CreateSorter(field, order));
    Sorting.SortPermutes(items, CreateSorter(field, order));
  }

  /** Only the listed properties of the item, with their values. */
  function Pick(item: Object, fields: seq<string>): (r: Object)
    ensures forall k :: k in r <==> k in item && k in fields
    ensures forall k :: k in r ==> r[k] == item[k]
  {
    map k | k in item && k in fields :: item[k]
  }

  /** The picker of the listed properties. */
  function CreateMapper(fields: seq<string>): (mapper: Object -> Object)
    ensures forall item: Object, k :: k in mapper(item) <==> k in item && k in fields
    ensures forall item: Object, k :: k in mapper(item) ==> k in item && mapper(item)[k] == item[k]
  {
    item => Pick(item, fields)
  }

  /** The operations applied to the data first to last; [] when the data
      is not an array. */
  function ApplyOperations(data: Option<seq<Object>>, ops: seq<seq<Object> -> seq<Object>>): (r: seq<Object>)
    ensures data.None? ==> r == []
    ensures data.Some? && ops == [] ==> r == data.value
  {
    match data
    case None => []
    case Some(d) => ApplyLeft(ops, d)
  }

  /** A chain of operations is the chain of its parts. */
  lemma ApplyOperationsAppend(data: seq<Object>, ops1: seq<seq<Object> -> seq<Object>>, ops2: seq<seq<Object> -> seq<Object>>)
    ensures ApplyOperations(Some(data), ops1 + ops2) == ApplyOperations(Some(ApplyOperations(Some(data), ops1)), ops2)
  {
    ApplyLeftAppend(ops1, ops2, data);
  }

  /** One more operation runs on the result of the others; with no
      operations the data is returned, so this fixes every chain. */
  lemma ApplyOperationsLast(data: seq<Object>, ops: seq<seq<Object> -> seq<Object>>, op: seq<Object> -> seq<Object>)
    ensures ApplyOperations(Some(data), ops + [op]) == op(ApplyOperations(Some(data), ops))
  {
    ApplyLeftLast(ops, op, data);
  }

  /** A single operation is just that operation applied to the data. */
  lemma ApplyOperationsOne(data: seq<Object>, op: seq<Object> -> seq<Object>)
    ensures ApplyOperations(Some(data), [op]) == op(data)
  {
    assert ApplyLeft([op], data) == ApplyLeft([op][1..], op(data));
    assert [op][1..] == [];
  }

  function Dhaba(name: string, rating: real, price: real, city: string): Object {
    map["name" := Str(name), "rating" := Num(rating), "price" := Num(price), "city" := Str(city)]
  }

  function Dhabas(): seq<Object> {
    [Dhaba("Punjab Dhaba", 4.5, 200.0, "Delhi"), Dhaba("Sharma Ji", 3.8, 150.0, "Jaipur"),
     Dhaba("Highway King", 4.0, 300.0, "Delhi"), Dhaba("Truck Stop", 3.2, 100.0, "Agra")]
  }

  lemma FilterRatingAtLeastExample()
    ensures var ds := Dhabas(); Sequences.Filter(ds, CreateFilter("rating", ">=", Num(4.0))) == [ds[0], ds[2]]
  {
    var ds := Dhabas();
    var f := CreateFilter("rating", ">=", Num(4.0));
    Sequences.FilterFour(ds, f);
    assert f(ds[0]);
    assert !f(ds[1]);
    assert f(ds[2]);
    assert !f(ds[3]);
  }

  lemma FilterRatingAboveExample()
    ensures var ds := Dhabas(); Sequences.Filter(ds, CreateFilter("rating", ">", Num(4.0))) == [ds[0]]
  {
    var ds := Dhabas();
    var f := CreateFilter("rating", ">", Num(4.0));
    Sequences.FilterFour(ds, f);
    assert f(ds[0]);
    assert !f(ds[1]);
    assert !f(ds[2]);
    assert !f(ds[3]);
  }

  lemma FilterInDelhiExample()
    ensures var ds := Dhabas(); Sequences.Filter(ds, CreateFilter("city", "===", Str("Delhi"))) == [ds[0], ds[2]]
  {
    var ds := Dhabas();
    var f := CreateFilter("city", "===", Str("Delhi"));
    Sequences.FilterFour(ds, f);
    assert f(ds[0]);
    assert !f(ds[1]);
    assert f(ds[2]);
    assert !f(ds[3]);
  }

  lemma FilterPriceBelowExample()
    ensures var ds := Dhabas(); Sequences.Filter(ds, CreateFilter("price", "<", Num(200.0))) == [ds[1], ds[3]]
  {
    var ds := Dhabas();
    var f := CreateFilter("price", "<", Num(200.0));
    Sequences.FilterFour(ds, f);
    assert !f(ds[0]);
    assert f(ds[1]);
    assert !f(ds[2]);
    assert f(ds[3]);
  }

  lemma FilterPriceAtMostExample()
    ensures var ds := Dhabas(); Sequences.Filter(ds, CreateFilter("price", "<=", Num(150.0))) == [ds[1], ds[3]]
  {
    var ds := Dhabas();
    var f := CreateFilter("price", "<=", Num(150.0));
    Sequences.FilterFour(ds, f);
    assert !f(ds[0]);
    assert f(ds[1]);
    assert !f(ds[2]);
    assert f(ds[3]);
  }

  lemma FilterUnknownOperatorExample()
    ensures Sequences.Filter(Dhabas(), CreateFilter("rating", "!=", Num(4.0))) == []
  {
    UnknownOperatorRejects("rating", "!=", Num(4.0), Dhabas());
  }

  /** Picking from a dhaba record. */
  lemma PickOfDhaba(name: string, rating: real, price: real, city: string)
    ensures Pick(Dhaba(name, rating, price, city), ["name", "rating"]) == map["name" := Str(name), "rating" := Num(rating)]
    ensures Pick(Dhaba(name, rating, price, city), ["name"]) == map["name" := Str(name)]
  {
    var d := Dhaba(name, rating, price, city);
    var p := Pick(d, ["name", "rating"]);
    assert p.Keys == {"name", "rating"};
    var q := Pick(d, ["name"]);
    assert q.Keys == {"name"};
  }

  lemma MapperExamples()
    ensures CreateMapper(["name", "rating"])(Dhabas()[0]) == map["name" := Str("Punjab Dhaba"), "rating" := Num(4.5)]
    ensures CreateMapper(["name"])(Dhabas()[0]) == map["name" := Str("Punjab Dhaba")]
  {
    PickOfDhaba("Punjab Dhaba", 4.5, 200.0, "Delhi");
  }

  /** Sorting four items is inserting each into the sorted rest.
      Proof scaffolding for the examples below; it models no line of the source. */
  lemma SortFour<T>(s: seq<T>, le: (T, T) -> bool)
    requires |s| == 4
    ensures Sorting.Sort(s, le) ==
            Sorting.Insert(s[0], Sorting.Insert(s[1], Sorting.Insert(s[2], [s[3]], le), le), le)
  {
    var s1, s2, s3 := s[1..], s[2..], s[3..];
    assert s1[0] == s[1] && s1[1..] == s2;
    assert s2[0] == s[2] && s2[1..] == s3;
    assert s3[0] == s[3] && s3[1..] == [];
    assert Sorting.Sort(s3, le) == [s[3]];
    assert Sorting.Sort(s2, le) == Sorting.Insert(s[2], [s[3]], le);
    assert Sorting.Sort(s1, le) == Sorting.Insert(s[1], Sorting.Sort(s2, le), le);
  }

  /** Proof scaffolding for the examples below; it models no line of the source. */
  lemma InsertFront<T>(x: T, s: seq<T>, le: (T, T) -> bool)
    requires s != [] && le(x, s[0])
    ensures Sorting.Insert(x, s, le) == [x] + s
  {
  }

  /** Proof scaffolding for the examples below; it models no line of the source. */
  lemma InsertPast<T>(x: T, s: seq<T>, le: (T, T) -> bool)
    requires s != [] && !le(x, s[0])
    ensures Sorting.Insert(x, s, le) == [s[0]] + Sorting.Insert(x, s[1..], le)
  {
  }

  /** The insertion steps that put [a, b, c, d] in the order [a, c, b, d].
      Proof scaffolding for the examples below; it models no line of the source. */
  lemma SortsAsACBD<T>(a: T, b: T, c: T, d: T, le: (T, T) -> bool)
    requires le(c, d) && !le(b, c) && le(b, d) && le(a, c)
    ensures Sorting.Sort([a, b, c, d], le) == [a, c, b, d]
  {
    SortFour([a, b, c, d], le);
    InsertFront(c, [d], le);
    assert [c] + [d] == [c, d];
    InsertPast(b, [c, d], le);
    assert [c, d][1..] == [d];
    InsertFront(b, [d], le);
    assert [c] + ([b] + [d]) == [c, b, d];
    InsertFront(a, [c, b, d], le);
    assert [a] + [c, b, d] == [a, c, b, d];
  }

  /** The insertion steps that put [a, b, c, d] in the order [c, a, b, d].
      Proof scaffolding for the examples below; it models no line of the source. */
  lemma SortsAsCABD<T>(a: T, b: T, c: T, d: T, le: (T, T) -> bool)
    requires le(c, d) && !le(b, c) && le(b, d) && !le(a, c) && le(a, b)
    ensures Sorting.Sort([a, b, c, d], le) == [c, a, b, d]
  {
    SortFour([a, b, c, d], le);
    InsertFront(c, [d], le);
    assert [c] + [d] == [c, d];
    InsertPast(b, [c, d], le);
    assert [c, d][1..] == [d];
    InsertFront(b, [d], le);
    assert [c] + ([b] + [d]) == [c, b, d];
    InsertPast(a, [c, b, d], le);
    assert [c, b, d][1..] == [b, d];
    InsertFront(a, [b, d], le);
    assert [c] + ([a] + [b, d]) == [c, a, b, d];
  }

  /** The insertion steps that put [a, b, c, d] in the order [d, b, a, c].
      Proof scaffolding for the examples below; it models no line of the source. */
  lemma SortsAsDBAC<T>(a: T, b: T, c: T, d: T, le: (T, T) -> bool)
    requires !le(c, d) && !le(b, d) && le(b, c) && !le(a, d) && !le(a, b) && le(a, c)
    ensures Sorting.Sort([a, b, c, d], le) == [d, b, a, c]
  {
    SortFour([a, b, c, d], le);
    InsertPast(c, [d], le);
    assert [d][1..] == [];
    assert Sorting.Insert(c, [], le) == [c];
    assert [d] + [c] == [d, c];
    InsertPast(b, [d, c], le);
    assert [d, c][1..] == [c];
    InsertFront(b, [c], le);
    assert [d] + ([b] + [c]) == [d, b, c];
    InsertPast(a, [d, b, c], le);
    assert [d, b, c][1..] == [b, c];
    InsertPast(a, [b, c], le);
    assert [b, c][1..] == [c];
    InsertFront(a, [c], le);
    assert [d] + ([b] + ([a] + [c])) == [d, b, a, c];
  }

  lemma SortByRatingDescExample()
    ensures var ds := Dhabas(); Sorting.Sort(ds, CreateSorter("rating", Some("desc"))) == [ds[0], ds[2], ds[1], ds[3]]
  {
    var ds := Dhabas();
    var le := CreateSorter("rating", Some("desc"));
    assert le(ds[2], ds[3]) && !le(ds[1], ds[2]) && le(ds[1], ds[3]) && le(ds[0], ds[2]);
    SortsAsACBD(ds[0], ds[1], ds[2], ds[3], le);
  }

  lemma SortByNameExample()
    ensures var ds := Dhabas(); Sorting.Sort(ds, CreateSorter("name", Some("asc"))) == [ds[2], ds[0], ds[1], ds[3]]
  {
    var ds := Dhabas();
    var le := CreateSorter("name", Some("asc"));
    assert le(ds[2], ds[3]) && !le(ds[1], ds[2]) && le(ds[1], ds[3]) && !le(ds[0], ds[2]) && le(ds[0], ds[1]);
    SortsAsCABD(ds[0], ds[1], ds[2], ds[3], le);
  }

  lemma SortByPriceExample()
    ensures var ds := Dhabas(); Sorting.Sort(ds, CreateSorter("price", None)) == [ds[3], ds[1], ds[0], ds[2]]
  {
    var ds := Dhabas();
    var le := CreateSorter("price", None);
    assert !le(ds[2], ds[3]) && !le(ds[1], ds[3]) && le(ds[1], ds[2]) && !le(ds[0], ds[3]) && !le(ds[0], ds[1]) && le(ds[0], ds[2]);
    SortsAsDBAC(ds[0], ds[1], ds[2], ds[3], le);
  }

  /** Keep the dhabas rated 4 or more, best first, showing name and rating. */
  function HighRatedOps(): seq<seq<Object> -> seq<Object>> {
    [(arr: seq<Object>) => Sequences.Filter(arr, CreateFilter("rating", ">=", Num(4.0))),
     (arr: seq<Object>) => Sorting.Sort(arr, CreateSorter("rating", Some("desc"))),
     (arr: seq<Object>) => Sequences.Map(arr, CreateMapper(["name", "rating"]))]
  }

  lemma ApplyThree<A>(fs: seq<A -> A>, x: A)
    requires |fs| == 3
    ensures ApplyLeft(fs, x) == fs[2](fs[1](fs[0](x)))
  {
    assert ApplyLeft(fs, x) == ApplyLeft(fs[1..], fs[0](x));
    assert ApplyLeft(fs[1..], fs[0](x)) == ApplyLeft(fs[2..], fs[1](fs[0](x)));
    assert ApplyLeft(fs[2..], fs[1](fs[0](x))) == ApplyLeft(fs[3..], fs[2](fs[1](fs[0](x))));
  }

  lemma ChainSortStep()
    ensures var ds := Dhabas(); Sorting.Sort([ds[0], ds[2]], CreateSorter("rating", Some("desc"))) == [ds[0], ds[2]]
  {
    var ds := Dhabas();
    var le := CreateSorter("rating", Some("desc"));
    assert le(ds[0], ds[2]);
    SortsAsXY(ds[0], ds[2], le);
  }

  /** Proof scaffolding for the examples below; it models no line of the source. */
  lemma SortsAsXY<T>(x: T, y: T, le: (T, T) -> bool)
    requires le(x, y)
    ensures Sorting.Sort([x, y], le) == [x, y]
  {
    assert [x, y][1..] == [y] && [y][1..] == [];
    assert Sorting.Sort([y], le) == [y];
    InsertFront(x, [y], le);
  }

  lemma ChainMapStep()
    ensures var ds := Dhabas();
            Sequences.Map([ds[0], ds[2]], CreateMapper(["name", "rating"])) ==
            [map["name" := Str("Punjab Dhaba"), "rating" := Num(4.5)], map["name" := Str("Highway King"), "rating" := Num(4.0)]]
  {
    PickOfDhaba("Punjab Dhaba", 4.5, 200.0, "Delhi");
    PickOfDhaba("Highway King", 4.0, 300.0, "Delhi");
  }

  lemma ApplyOperationsChainExample()
    ensures ApplyOperations(Some(Dhabas()), HighRatedOps()) ==
            [map["name" := Str("Punjab Dhaba"), "rating" := Num(4.5)], map["name" := Str("Highway King"), "rating" := Num(4.0)]]
  {
    ApplyThree(HighRatedOps(), Dhabas());
    FilterRatingAtLeastExample();
    ChainSortStep();
    ChainMapStep();
  }

  lemma ApplyOperationsExamples()
    ensures ApplyOperations(None, []) == []
    ensures ApplyOperations(Some(Dhabas()), []) == Dhabas()
  {
  }

  /** Keep the dhabas in Delhi. */
  function InDelhi(arr: seq<Object>): seq<Object> {
    Sequences.Filter(arr, CreateFilter("city", "===", Str("Delhi")))
  }

  lemma ApplyOperationsSingleExample()
    ensures |ApplyOperations(Some(Dhabas()), [InDelhi])| == 2
  {
    assert [InDelhi][1..] == [];
    assert ApplyLeft([InDelhi], Dhabas()) == ApplyLeft([], InDelhi(Dhabas()));
    FilterInDelhiExample();
  }
}
