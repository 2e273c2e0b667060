/** The festival countdown planner: a private list of festivals with unique
    names and a type from a fixed set, queried by type and by date. Dates
    are the ISO strings "YYYY-MM-DD" and compare as strings. */
module FestivalPlanner {
  import opened Wrappers
  import opened Text
  import Sequences
  import Sorting

  datatype Festival = Festival(name: string, date: string, festivalType: string)

  predicate ValidType(t: string) {
    t == "religious" || t == "national" || t == "cultural"
  }

  predicate DistinctNames(fs: seq<Festival>) {
    forall i, j :: 0 <= i < j < |fs| ==> fs[i].name != fs[j].name
  }

  predicate HasName(fs: seq<Festival>, name: string) {
    exists i :: 0 <= i < |fs| && fs[i].name == name
  }

  /** Dropping the festival at `i` from a list with unique names leaves the
      others, with unique names. */
  lemma RemoveAtKeepsOthers(fs: seq<Festival>, i: nat)
    requires DistinctNames(fs) && i < |fs|
    ensures DistinctNames(fs[..i] + fs[i + 1..])
    ensures forall f :: f in fs[..i] + fs[i + 1..] <==> f in fs && f.name != fs[i].name
  {
    var rest := fs[..i] + fs[i + 1..];
    assert forall j :: 0 <= j < |rest| ==> rest[j] == fs[if j < i then j else j + 1];
    forall f | f in fs && f.name != fs[i].name
      ensures f in rest
    {
      var k :| 0 <= k < |fs| && fs[k] == f;
      assert rest[if k < i then k else k - 1] == f;
    }
  }

  /** Whether a festival falls strictly after `date`. */
  function IsAfter(date: string): Festival -> bool {
    (f: Festival) => LexLess(date, f.date)
  }

  /** Whether a festival is of type `t`. */
  function OfType(t: string): Festival -> bool {
    (f: Festival) => f.festivalType == t
  }

  /** `f` is dated no later than `g`. */
  predicate DateLe(f: Festival, g: Festival) {
    !LexLess(g.date, f.date)
  }

  lemma DateLeTotalAndTransitive()
    ensures Sorting.Total(DateLe) && Sorting.Transitive(DateLe)
  {
    forall f, g ensures DateLe(f, g) || DateLe(g, f) {
      if LexLess(f.date, g.date) && LexLess(g.date, f.date) {
        LexLessTransitive(f.date, g.date, f.date);
        LexLessIrreflexive(f.date);
      }
    }
    forall f, g, h | DateLe(f, g) && DateLe(g, h) ensures DateLe(f, h) {
      LexLessTotal(f.date, g.date);
      if LexLess(h.date, f.date) && LexLess(f.date, g.date) {
        LexLessTransitive(h.date, f.date, g.date);
      }
    }
  }

  /** The first `k` festivals after `date` in date order are sorted, are
      taken from the list without repetition, and every festival after `date`
      that is left out is dated no earlier than those taken. */
  lemma EarliestAfter(fs: seq<Festival>, date: string, k: nat)
    ensures var count := |Sequences.Filter(fs, IsAfter(date))|;
            var r := Sequences.Take(Sorting.Sort(Sequences.Filter(fs, IsAfter(date)), DateLe), k);
            |r| == (if k < count then k else count) &&
            (forall f :: f in r ==> f in fs && LexLess(date, f.date)) &&
            multiset(r) <= multiset(fs) &&
            Sorting.Sorted(r, DateLe) &&
            (forall f, g :: f in r && g in fs && LexLess(date, g.date) && g !in r ==> DateLe(f, g))
  {
    var after := Sequences.Filter(fs, IsAfter(date));
    var s := Sorting.Sort(after, DateLe);
    var r := Sequences.Take(s, k);
    Sequences.FilterKeeps(fs, IsAfter(date));
    Sorting.SortPermutes(after, DateLe);
    DateLeTotalAndTransitive();
    Sorting.SortSorted(after, DateLe);
    Sorting.PrefixOfSorted(s, DateLe, |r|);
    SameElements(s, after);
    PrefixElements(s, |r|);
  }

  /** Two sequences with the same multiset hold the same elements. */
  lemma SameElements<T>(a: seq<T>, b: seq<T>)
    requires multiset(a) == multiset(b)
    ensures forall x :: x in a <==> x in b
  {
    forall x ensures x in a <==> x in b {
      assert x in a <==> x in multiset(a);
      assert x in b <==> x in multiset(b);
    }
  }

  /** What a prefix holds, the whole sequence holds. */
  lemma PrefixElements<T>(s: seq<T>, k: nat)
    requires k <= |s|
    ensures forall x :: x in s[..k] ==> x in s
  {
    forall x | x in s[..k] ensures x in s {
      var i :| 0 <= i < k && s[..k][i] == x;
      assert s[i] == x;
    }
  }

  /** One planner: a private list of festivals, in the order they were
      added. */
  class FestivalManager {
    var festivals: seq<Festival>

    /** Names are unique and non-empty, and every type is one of the three. */
    ghost predicate Valid()
      reads this
    {
      DistinctNames(festivals) &&
      forall i :: 0 <= i < |festivals| ==> festivals[i].name != "" && ValidType(festivals[i].festivalType)
    }

    constructor ()
      ensures Valid() && festivals == []
    {
      festivals := [];
    }

    /** Adds the festival and returns the new count; returns -1 and changes
        nothing for a missing or empty name, a name already present, or an
        unknown type. */
    method AddFestival(name: Option<string>, date: string, festivalType: string) returns (count: int)
      requires Valid()
      modifies this
      ensures Valid()
      ensures var ok := name.Some? && name.value != "" && ValidType(festivalType) &&
                        !HasName(old(festivals), name.value);
              if ok then
                festivals == old(festivals) + [Festival(name.value, date, festivalType)] && count == |festivals|
              else
                festivals == old(festivals) && count == -1
    {
      if name.None? || name.value == "" || !ValidType(festivalType) {
        return -1;
      }
      var i := 0;
      while i < |festivals|
        invariant 0 <= i <= |festivals|
        invariant forall j :: 0 <= j < i ==> festivals[j].name != name.value
      {
        if festivals[i].name == name.value {
          return -1;
        }
        i := i + 1;
      }
      festivals := festivals + [Festival(name.value, date, festivalType)];
      count := |festivals|;
    }

    /** Removes the festival of that name and answers true; answers false,
        changing nothing, when there is none. */
    method RemoveFestival(name: string) returns (removed: bool)
      requires Valid()
      modifies this
      ensures Valid()
      ensures removed <==> HasName(old(festivals), name)
      ensures |festivals| == |old(festivals)| - (if removed then 1 else 0)
      ensures forall f :: f in festivals <==> f in old(festivals) && f.name != name
      ensures !removed ==> festivals == old(festivals)
      ensures removed ==> exists i :: 0 <= i < |old(festivals)| && old(festivals)[i].name == name &&
                                      festivals == old(festivals)[..i] + old(festivals)[i + 1..]
    {
      var i := 0;
      while i < |festivals| && festivals[i].name != name
        invariant 0 <= i <= |festivals|
        invariant forall j :: 0 <= j < i ==> festivals[j].name != name
      {
        i := i + 1;
      }
      if i == |festivals| {
        return false;
      }
      RemoveAtKeepsOthers(festivals, i);
      festivals := festivals[..i] + festivals[i + 1..];
      removed := true;
    }

    /** Every festival, in the order added. The list is a value: changing
        what the caller receives does not change the planner. */
    function GetAll(): (all: seq<Festival>)
      reads this
      ensures |all| == GetCount()
      ensures forall i :: 0 <= i < |all| ==> all[i] == festivals[i]
    {
      festivals
    }

    /** The festivals of type `t`, in the order added. */
    function GetByType(t: string): (r: seq<Festival>)
      reads this
      ensures forall f :: f in r <==> f in festivals && f.festivalType == t
      ensures forall i :: 0 <= i < |r| ==> r[i].festivalType == t
      ensures r == Sequences.Filter(festivals, OfType(t))
    {
      Sequences.FilterKeeps(festivals, OfType(t));
      var r := Sequences.Filter(festivals, OfType(t));
      assert forall i :: 0 <= i < |r| ==> r[i] in r;
      r
    }

    /** At most `n` (3 when not given) festivals dated strictly after `date`,
        the earliest first. */
    function GetUpcoming(date: string, n: Option<int>): (r: seq<Festival>)
      reads this
      ensures var count := |Sequences.Filter(festivals, IsAfter(date))|;
              |r| == (if n.GetOr(3) <= 0 then 0 else if n.GetOr(3) < count then n.GetOr(3) else count)
      ensures forall f :: f in r ==> f in festivals && LexLess(date, f.date)
      ensures multiset(r) <= multiset(festivals)
      ensures Sorting.Sorted(r, DateLe)
      ensures forall f, g :: f in r && g in festivals && LexLess(date, g.date) && g !in r ==> DateLe(f, g)
    {
      var limit := n.GetOr(3);
      var k := if limit <= 0 then 0 else limit;
      EarliestAfter(festivals, date, k);
      Sequences.Take(Sorting.Sort(Sequences.Filter(festivals, IsAfter(date)), DateLe), k)
    }

    /** How many festivals the planner holds. */
    function GetCount(): (c: nat)
      reads this
      ensures c == |festivals|
      ensures c == 0 <==> festivals == []
    {
      |festivals|
    }
  }

  /** Counts 1, 2, 3 for three good festivals, one of each type; -1 for a
      duplicate name, an empty name and an unknown type. */
  method AddFestivalScenario() returns (counts: seq<int>)
    ensures counts == [1, 2, 3, -1, -1, -1]
  {
    var m := new FestivalManager();
    var a := m.AddFestival(Some("Diwali"), "2025-10-20", "religious");
    var b := m.AddFestival(Some("Republic Day"), "2025-01-26", "national");
    var c := m.AddFestival(Some("Holi"), "2025-03-14", "cultural");
    assert m.festivals[0].name == "Diwali";
    var d := m.AddFestival(Some("Diwali"), "2025-11-01", "cultural");
    var e := m.AddFestival(Some(""), "2025-01-01", "national");
    var f := m.AddFestival(Some("Test"), "2025-01-01", "invalid");
    counts := [a, b, c, d, e, f];
  }

  /** Removing a present festival answers true and lowers the count; a
      missing one answers false. */
  method RemoveFestivalScenario() returns (before: nat, removed: bool, after: nat, unknown: bool)
    ensures before == 2 && removed && after == 1 && !unknown
  {
    var m := new FestivalManager();
    var _ := m.AddFestival(Some("Diwali"), "2025-10-20", "religious");
    var _ := m.AddFestival(Some("Holi"), "2025-03-14", "cultural");
    before := m.GetCount();
    assert m.festivals[0].name == "Diwali";
    removed := m.RemoveFestival("Diwali");
    after := m.GetCount();
    unknown := m.RemoveFestival("Unknown");
    assert !("Diwali" == "Unknown") && !("Holi" == "Unknown");
  }

  /** getAll lists what was added, and a change to the returned list stays
      with the caller. */
  method GetAllScenario() returns (all: seq<Festival>, countAfterPush: nat)
    ensures |all| == 2 && all[0] == Festival("Diwali", "2025-10-20", "religious")
    ensures countAfterPush == 1
  {
    var m := new FestivalManager();
    var _ := m.AddFestival(Some("Diwali"), "2025-10-20", "religious");
    var copy := m.GetAll();
    copy := copy + [Festival("Fake", "2025-01-01", "national")];
    countAfterPush := |m.GetAll()|;
    var _ := m.AddFestival(Some("Holi"), "2025-03-14", "cultural");
    all := m.GetAll();
  }

  /** getByType keeps only the festivals of that type. */
  method GetByTypeScenario() returns (religious: seq<Festival>, national: seq<Festival>)
    ensures |religious| == 2 && forall i :: 0 <= i < |religious| ==> religious[i].festivalType == "religious"
    ensures national == []
  {
    var m := new FestivalManager();
    var _ := m.AddFestival(Some("Diwali"), "2025-10-20", "religious");
    national := m.GetByType("national");
    OfTypeOfOne(m.festivals, "national");
    var _ := m.AddFestival(Some("Republic Day"), "2025-01-26", "national");
    var _ := m.AddFestival(Some("Holi"), "2025-03-14", "religious");
    religious := m.GetByType("religious");
    var fs := m.festivals;
    assert fs[0].festivalType == "religious" && fs[1].festivalType == "national" && fs[2].festivalType == "religious";
    OfTypeOfThree(fs, "religious");
  }

  lemma OfTypeOfOne(fs: seq<Festival>, t: string)
    requires |fs| == 1 && fs[0].festivalType != t
    ensures Sequences.Filter(fs, OfType(t)) == []
  {
    assert Sequences.Filter(fs, OfType(t)) == [] + Sequences.Filter(fs[1..], OfType(t));
  }

  lemma OfTypeOfThree(fs: seq<Festival>, t: string)
    requires |fs| == 3 && fs[0].festivalType == t && fs[1].festivalType != t && fs[2].festivalType == t
    ensures |Sequences.Filter(fs, OfType(t))| == 2
  {
    assert fs == [fs[0], fs[1], fs[2]];
    Sequences.FilterThree(fs[0], fs[1], fs[2], OfType(t));
  }

  /** Insertion steps that put [a, b, c] in the order [b, c, a].
      Proof scaffolding for the examples below; it models no line of the source. */
  lemma SortsAsBCA<T>(a: T, b: T, c: T, le: (T, T) -> bool)
    requires le(b, c) && !le(a, b) && !le(a, c)
    ensures Sorting.Sort([a, b, c], le) == [b, c, a]
  {
    Sorting.SortThree(a, b, c, le);
    assert Sorting.Insert(b, [c], le) == [b, c];
    assert Sorting.Insert(a, [c], le) == [c] + Sorting.Insert(a, [], le);
    assert Sorting.Insert(a, [b, c], le) == [b] + Sorting.Insert(a, [b, c][1..], le);
    assert [b, c][1..] == [c];
  }

  function Diwali(): Festival { Festival("Diwali", "2025-10-20", "religious") }
  function RepublicDay(): Festival { Festival("Republic Day", "2025-01-26", "national") }
  function Holi(): Festival { Festival("Holi", "2025-03-14", "cultural") }
  function IndependenceDay(): Festival { Festival("Independence Day", "2025-08-15", "national") }

  /** A planner holding four festivals, added in this order. */
  method FourFestivals() returns (m: FestivalManager)
    ensures fresh(m) && m.Valid()
    ensures m.festivals == [Diwali(), RepublicDay(), Holi(), IndependenceDay()]
  {
    m := new FestivalManager();
    var _ := m.AddFestival(Some("Diwali"), "2025-10-20", "religious");
    var _ := m.AddFestival(Some("Republic Day"), "2025-01-26", "national");
    var _ := m.AddFestival(Some("Holi"), "2025-03-14", "cultural");
    var _ := m.AddFestival(Some("Independence Day"), "2025-08-15", "national");
  }

  /** The two earliest of the festivals after 1 February, and none after 1
      November. */
  method GetUpcomingScenario() returns (upcoming: seq<Festival>, later: seq<Festival>)
    ensures |upcoming| == 2 && upcoming[0].name == "Holi" && upcoming[1].name == "Independence Day"
    ensures later == []
  {
    var m := FourFestivals();
    var fs := m.festivals;
    UpcomingExample(fs);
    upcoming := m.GetUpcoming("2025-02-01", Some(2));
    later := m.GetUpcoming("2025-11-01", Some(5));
  }

  lemma UpcomingExample(fs: seq<Festival>)
    requires |fs| == 4
    requires fs[0].date == "2025-10-20" && fs[1].date == "2025-01-26" && fs[2].date == "2025-03-14" && fs[3].date == "2025-08-15"
    ensures Sequences.Take(Sorting.Sort(Sequences.Filter(fs, IsAfter("2025-02-01")), DateLe), 2) == [fs[2], fs[3]]
    ensures Sequences.Filter(fs, IsAfter("2025-11-01")) == []
  {
    EarliestTwoExample(fs);
    NoneLaterExample(fs);
  }

  lemma EarliestTwoExample(fs: seq<Festival>)
    requires |fs| == 4
    requires fs[0].date == "2025-10-20" && fs[1].date == "2025-01-26" && fs[2].date == "2025-03-14" && fs[3].date == "2025-08-15"
    ensures Sequences.Take(Sorting.Sort(Sequences.Filter(fs, IsAfter("2025-02-01")), DateLe), 2) == [fs[2], fs[3]]
  {
    LexLessAt("2025-02-01", fs[0].date, 5);
    LexLessAt(fs[1].date, "2025-02-01", 6);
    LexLessAt("2025-02-01", fs[2].date, 6);
    LexLessAt("2025-02-01", fs[3].date, 6);
    LexLessAt(fs[2].date, fs[3].date, 6);
    LexLessAt(fs[2].date, fs[0].date, 5);
    LexLessAt(fs[3].date, fs[0].date, 5);
    assert fs == [fs[0], fs[1], fs[2], fs[3]];
    UpcomingOfFour(fs, "2025-02-01", fs[0], fs[1], fs[2], fs[3]);
  }

  lemma NoneLaterExample(fs: seq<Festival>)
    requires |fs| == 4
    requires fs[0].date == "2025-10-20" && fs[1].date == "2025-01-26" && fs[2].date == "2025-03-14" && fs[3].date == "2025-08-15"
    ensures Sequences.Filter(fs, IsAfter("2025-11-01")) == []
  {
    LexLessAt(fs[0].date, "2025-11-01", 6);
    LexLessAt(fs[1].date, "2025-11-01", 5);
    LexLessAt(fs[2].date, "2025-11-01", 5);
    LexLessAt(fs[3].date, "2025-11-01", 5);
    NoneOfFour(fs, "2025-11-01");
  }

  /** With no count given, at most three. */
  method DefaultCountScenario() returns (byDefault: nat)
    ensures byDefault == 3
  {
    var m := new FestivalManager();
    var _ := m.AddFestival(Some("F1"), "2025-01-01", "national");
    var _ := m.AddFestival(Some("F2"), "2025-02-01", "national");
    var _ := m.AddFestival(Some("F3"), "2025-03-01", "national");
    var _ := m.AddFestival(Some("F4"), "2025-04-01", "national");
    var fs := m.festivals;
    assert fs[0].date == "2025-01-01" && fs[1].date == "2025-02-01" && fs[2].date == "2025-03-01" && fs[3].date == "2025-04-01";
    DefaultCountExample(fs);
    byDefault := |m.GetUpcoming("2024-12-01", None)|;
  }

  lemma DefaultCountExample(fs: seq<Festival>)
    requires |fs| == 4
    requires fs[0].date == "2025-01-01" && fs[1].date == "2025-02-01" && fs[2].date == "2025-03-01" && fs[3].date == "2025-04-01"
    ensures |Sequences.Filter(fs, IsAfter("2024-12-01"))| == 4
  {
    LexLessAt("2024-12-01", fs[0].date, 3);
    LexLessAt("2024-12-01", fs[1].date, 3);
    LexLessAt("2024-12-01", fs[2].date, 3);
    LexLessAt("2024-12-01", fs[3].date, 3);
    AllOfFour(fs, "2024-12-01");
  }

  /** The two earliest after `date` of four festivals of which the second
      is not after it. */
  lemma UpcomingOfFour(fs: seq<Festival>, date: string, a: Festival, b: Festival, c: Festival, e: Festival)
    requires fs == [a, b, c, e]
    requires IsAfter(date)(a) && !IsAfter(date)(b) && IsAfter(date)(c) && IsAfter(date)(e)
    requires DateLe(c, e) && !DateLe(a, c) && !DateLe(a, e)
    ensures Sequences.Take(Sorting.Sort(Sequences.Filter(fs, IsAfter(date)), DateLe), 2) == [c, e]
  {
    Sequences.FilterFour(fs, IsAfter(date));
    assert Sequences.Filter(fs, IsAfter(date)) == [a, c, e];
    SortsAsBCA(a, c, e, DateLe);
  }

  /** None of four festivals is after `date`. */
  lemma NoneOfFour(fs: seq<Festival>, date: string)
    requires |fs| == 4 && forall i :: 0 <= i < 4 ==> !IsAfter(date)(fs[i])
    ensures Sequences.Filter(fs, IsAfter(date)) == []
  {
    Sequences.FilterFour(fs, IsAfter(date));
  }

  /** All of four festivals are after `date`. */
  lemma AllOfFour(fs: seq<Festival>, date: string)
    requires |fs| == 4 && forall i :: 0 <= i < 4 ==> IsAfter(date)(fs[i])
    ensures |Sequences.Filter(fs, IsAfter(date))| == 4
  {
    Sequences.FilterFour(fs, IsAfter(date));
  }

  /** Two planners do not share festivals. */
  method IndependenceScenario() returns (first: nat, second: nat)
    ensures first == 1 && second == 0
  {
    var m := new FestivalManager();
    var m2 := new FestivalManager();
    var _ := m.AddFestival(Some("Diwali"), "2025-10-20", "religious");
    first := m.GetCount();
    second := m2.GetCount();
  }
}
