/** The dabbawala tracker: one tracker per dabbawala, holding private
    deliveries with auto-incremented ids. A delivery starts pending and can
    be completed once; the tracker reports its stats and can be reset. */
module DabbawalaTracker {
  import opened Wrappers
  import opened Text
  import Sequences

  datatype Status = Pending | Completed

  datatype Delivery = Delivery(id: int, from: string, to: string, status: Status)

  predicate IsPending(d: Delivery) { d.status == Pending }

  predicate IsCompleted(d: Delivery) { d.status == Completed }

  /** Every delivery is either pending or completed. */
  lemma {:induction false} PendingPlusCompleted(ds: seq<Delivery>)
    ensures |Sequences.Filter(ds, IsPending)| + |Sequences.Filter(ds, IsCompleted)| == |ds|
  {
    if ds != [] {
      PendingPlusCompleted(ds[1..]);
    }
  }

  /** Completing a pending delivery moves exactly one delivery from the
      pending list to the completed list. */
  lemma {:induction false} CompleteMovesOne(ds: seq<Delivery>, k: nat)
    requires k < |ds| && ds[k].status == Pending
    ensures |Sequences.Filter(ds[k := ds[k].(status := Completed)], IsCompleted)| ==
            |Sequences.Filter(ds, IsCompleted)| + 1
    ensures |Sequences.Filter(ds[k := ds[k].(status := Completed)], IsPending)| ==
            |Sequences.Filter(ds, IsPending)| - 1
  {
    var ds' := ds[k := ds[k].(status := Completed)];
    if k == 0 {
      assert ds'[1..] == ds[1..];
    } else {
      assert ds'[1..] == ds[1..][k - 1 := ds[k].(status := Completed)];
      CompleteMovesOne(ds[1..], k - 1);
    }
  }

  /** The success rate in hundredths of a percent: completed * 100 / total
      percent rounded to the nearest hundredth, halves up; 0 with no
      deliveries. */
  function Hundredths(completed: nat, total: nat): (h: nat)
    ensures total == 0 ==> h == 0
    ensures total > 0 ==> 2 * h * total <= 20000 * completed + total < 2 * (h + 1) * total
    ensures completed <= total ==> h <= 10000
  {
    if total == 0 then 0 else (20000 * completed + total) / (2 * total)
  }

  /** Euclidean division is the one quotient that brackets the dividend. */
  lemma DivBracket(x: nat, d: nat, q: nat)
    requires d > 0 && q * d <= x < q * d + d
    ensures x / d == q
  {
    var r := x / d;
    assert x == r * d + x % d && 0 <= x % d < d;
    if r > q {
      MulMonotone(q + 1, r, d);
      assert false;
    } else if r < q {
      MulMonotone(r + 1, q, d);
      assert false;
    }
  }

  lemma {:induction false} MulMonotone(a: nat, b: nat, d: nat)
    requires a <= b
    ensures a * d <= b * d
  {
    if a < b {
      MulMonotone(a, b - 1, d);
      assert b * d == (b - 1) * d + d;
    }
  }

  /** All and none completed are exactly 100% and 0%. */
  lemma HundredthsEnds(total: nat)
    requires total > 0
    ensures Hundredths(total, total) == 10000
    ensures Hundredths(0, total) == 0
  {
    DivBracket(20000 * total + total, 2 * total, 10000);
    DivBracket(total, 2 * total, 0);
  }

  /** One of two completed is exactly 50%. */
  lemma HundredthsHalf()
    ensures Hundredths(1, 2) == 5000
  {
    DivBracket(20002, 4, 5000);
  }

  /** The two decimals of a number below 100. */
  function TwoDigits(d: nat): (r: string)
    requires d < 100
    ensures |r| == 2 && AllDigits(r) && DigitsValue(r) == d
  {
    var r := [DigitChar(d / 10), DigitChar(d % 10)];
    assert r[..1] == [DigitChar(d / 10)];
    r
  }

  /** A rate of `h` hundredths written "W.FF%": the whole percent, a point,
      exactly two decimals and a percent sign. */
  function PercentText(h: nat): (r: string)
    ensures |r| >= 5 && r[|r| - 4] == '.' && r[|r| - 1] == '%'
    ensures AllDigits(r[..|r| - 4]) && AllDigits(r[|r| - 3..|r| - 1])
    ensures DigitsValue(r[..|r| - 4]) * 100 + DigitsValue(r[|r| - 3..|r| - 1]) == h
  {
    var whole := NatToString(h / 100);
    var frac := TwoDigits(h % 100);
    var r := whole + ['.'] + frac + ['%'];
    assert r[..|r| - 4] == whole;
    assert r[|r| - 3..|r| - 1] == frac;
    DigitsValueOfNatToString(h / 100);
    r
  }

  lemma PercentTextExamples()
    ensures PercentText(0) == "0.00%"
    ensures PercentText(5000) == "50.00%"
    ensures PercentText(10000) == "100.00%"
  {
    assert NatToString(50) == "50";
    assert NatToString(100) == "100";
  }

  /** What getStats reports. */
  datatype Stats = Stats(name: string, area: string, total: nat, completed: nat, pending: nat,
                         successRate: string)

  /** The tracker of one dabbawala. Its deliveries and id counter are private
      to it: nothing outside the methods below can reach them. */
  class Dabbawala {
    const name: string
    const area: string
    var deliveries: seq<Delivery>
    var nextId: int

    /** Ids run 1, 2, 3, ... in the order the deliveries were added, and the
        counter holds the next one. */
    ghost predicate Valid()
      reads this
    {
      nextId == |deliveries| + 1 &&
      forall i :: 0 <= i < |deliveries| ==> deliveries[i].id == i + 1
    }

    /** A fresh tracker has no deliveries and numbers from 1. */
    constructor (name: string, area: string)
      ensures Valid()
      ensures this.name == name && this.area == area
      ensures deliveries == [] && nextId == 1
    {
      this.name := name;
      this.area := area;
      deliveries := [];
      nextId := 1;
    }

    /** Adds a pending delivery and returns its id, the next counter value;
        returns -1 and changes nothing when `from` or `to` is missing or
        empty. */
    method AddDelivery(from: Option<string>, to: Option<string>) returns (id: int)
      requires Valid()
      modifies this
      ensures Valid()
      ensures var ok := from.Some? && from.value != "" && to.Some? && to.value != "";
              if ok then
                id == old(nextId) && id >= 1 && nextId == old(nextId) + 1 &&
                deliveries == old(deliveries) + [Delivery(id, from.value, to.value, Pending)]
              else
                id == -1 && deliveries == old(deliveries) && nextId == old(nextId)
    {
      if from.None? || from.value == "" || to.None? || to.value == "" {
        return -1;
      }
      id := nextId;
      deliveries := deliveries + [Delivery(id, from.value, to.value, Pending)];
      nextId := nextId + 1;
    }

    /** Looks the delivery up by id and completes it when it is pending.
        Returns false, changing nothing, for an unknown id and for a delivery
        already completed. */
    method CompleteDelivery(id: int) returns (ok: bool)
      requires Valid()
      modifies this
      ensures Valid() && nextId == old(nextId)
      ensures ok <==> exists k :: 0 <= k < |old(deliveries)| && old(deliveries)[k].id == id &&
                                 old(deliveries)[k].status == Pending
      ensures ok ==> 1 <= id < nextId &&
                     deliveries == old(deliveries)[id - 1 := old(deliveries)[id - 1].(status := Completed)]
      ensures !ok ==> deliveries == old(deliveries)
      ensures |Sequences.Filter(deliveries, IsCompleted)| ==
              |Sequences.Filter(old(deliveries), IsCompleted)| + (if ok then 1 else 0)
    {
      var i := 0;
      while i < |deliveries| && deliveries[i].id != id
        invariant 0 <= i <= |deliveries|
        invariant forall j :: 0 <= j < i ==> deliveries[j].id != id
      {
        i := i + 1;
      }
      if i == |deliveries| || deliveries[i].status != Pending {
        return false;
      }
      CompleteMovesOne(deliveries, i);
      deliveries := deliveries[i := deliveries[i].(status := Completed)];
      ok := true;
    }

    /** The pending deliveries, as a new list in the order they were added. */
    function GetActiveDeliveries(): (active: seq<Delivery>)
      reads this
      ensures forall d :: d in active <==> d in deliveries && d.status == Pending
      ensures |active| + |Sequences.Filter(deliveries, IsCompleted)| == |deliveries|
      ensures active == Sequences.Filter(deliveries, IsPending)
    {
      Sequences.FilterKeeps(deliveries, IsPending);
      PendingPlusCompleted(deliveries);
      Sequences.Filter(deliveries, IsPending)
    }

    /** Name, area, how many deliveries were added, completed and pending,
        and the success rate. */
    function GetStats(): (s: Stats)
      reads this
      ensures s.name == name && s.area == area && s.total == |deliveries|
      ensures s.completed == |Sequences.Filter(deliveries, IsCompleted)|
      ensures s.pending == |GetActiveDeliveries()| && s.completed + s.pending == s.total
      ensures s.successRate == PercentText(Hundredths(s.completed, s.total))
    {
      var completed := |Sequences.Filter(deliveries, IsCompleted)|;
      PendingPlusCompleted(deliveries);
      Stats(name, area, |deliveries|, completed, |deliveries| - completed,
            PercentText(Hundredths(completed, |deliveries|)))
    }

    /** Forgets every delivery and restarts the ids from 1. */
    method Reset() returns (ok: bool)
      modifies this
      ensures Valid() && ok
      ensures deliveries == [] && nextId == 1
    {
      deliveries := [];
      nextId := 1;
      ok := true;
    }
  }

  /** Ids 1, 2, 3 for three good deliveries; -1 for an empty or missing end. */
  method AddDeliveryScenario() returns (ids: seq<int>)
    ensures ids == [1, 2, 3, -1, -1, -1, -1]
  {
    var ram := new Dabbawala("Ram", "Dadar");
    var a := ram.AddDelivery(Some("Andheri"), Some("Churchgate"));
    var b := ram.AddDelivery(Some("Bandra"), Some("CST"));
    var c := ram.AddDelivery(Some("Dadar"), Some("Parel"));
    var e1 := ram.AddDelivery(Some(""), Some("Churchgate"));
    var e2 := ram.AddDelivery(Some("Andheri"), Some(""));
    var e3 := ram.AddDelivery(None, Some("Churchgate"));
    var e4 := ram.AddDelivery(Some("Andheri"), None);
    ids := [a, b, c, e1, e2, e3, e4];
  }

  /** A pending delivery completes once; an unknown id never does. */
  method CompleteDeliveryScenario() returns (first: bool, unknown: bool, again: bool)
    ensures first && !unknown && !again
  {
    var ram := new Dabbawala("Ram", "Dadar");
    var _ := ram.AddDelivery(Some("Andheri"), Some("Churchgate"));
    first := ram.CompleteDelivery(1);
    unknown := ram.CompleteDelivery(999);
    again := ram.CompleteDelivery(1);
  }

  /** A completed delivery followed by a pending one: one of each. */
  lemma CompletedThenPending(a: Delivery, b: Delivery)
    requires a.status == Completed && b.status == Pending
    ensures Sequences.Filter([a, b], IsPending) == [b]
    ensures |Sequences.Filter([a, b], IsCompleted)| == 1
  {
    assert [a, b] == [a] + [b] && [b] == [b] + [];
    Sequences.FilterCons(a, [b], IsPending);
    Sequences.FilterCons(b, [], IsPending);
    Sequences.FilterCons(a, [b], IsCompleted);
    Sequences.FilterCons(b, [], IsCompleted);
  }

  /** Two deliveries, the first completed: one active, half done. */
  method StatsScenario() returns (active: seq<Delivery>, s: Stats)
    ensures active == [Delivery(2, "Bandra", "CST", Pending)]
    ensures s == Stats("Ram", "Dadar", 2, 1, 1, "50.00%")
  {
    var ram := new Dabbawala("Ram", "Dadar");
    var _ := ram.AddDelivery(Some("Andheri"), Some("Churchgate"));
    var _ := ram.AddDelivery(Some("Bandra"), Some("CST"));
    var _ := ram.CompleteDelivery(1);
    active := ram.GetActiveDeliveries();
    s := ram.GetStats();
    var ds := ram.deliveries;
    var a, b := Delivery(1, "Andheri", "Churchgate", Completed), Delivery(2, "Bandra", "CST", Pending);
    assert ds == [a, b];
    CompletedThenPending(a, b);
    HundredthsHalf();
    PercentTextExamples();
    assert s.successRate == "50.00%";
  }

  /** With nothing added the rate is 0.00%; with everything completed it is
      100.00%. */
  method RateScenario() returns (none: Stats, all: Stats, allActive: seq<Delivery>)
    ensures none.total == 0 && none.successRate == "0.00%"
    ensures all.total == 1 && all.successRate == "100.00%" && allActive == []
  {
    var ram := new Dabbawala("Ram", "Dadar");
    none := ram.GetStats();
    var _ := ram.AddDelivery(Some("Andheri"), Some("Churchgate"));
    var _ := ram.CompleteDelivery(1);
    all := ram.GetStats();
    allActive := ram.GetActiveDeliveries();
    assert ram.deliveries == [Delivery(1, "Andheri", "Churchgate", Completed)];
    HundredthsEnds(1);
    PercentTextExamples();
  }

  /** Reset answers true, empties the tracker and restarts the ids. */
  method ResetScenario() returns (ok: bool, total: nat, active: seq<Delivery>, id: int)
    ensures ok && total == 0 && active == [] && id == 1
  {
    var ram := new Dabbawala("Ram", "Dadar");
    var _ := ram.AddDelivery(Some("Andheri"), Some("Churchgate"));
    var _ := ram.AddDelivery(Some("Bandra"), Some("CST"));
    ok := ram.Reset();
    total := ram.GetStats().total;
    active := ram.GetActiveDeliveries();
    id := ram.AddDelivery(Some("Dadar"), Some("Parel"));
  }

  /** Two trackers keep separate deliveries and separate id counters. */
  method IndependenceScenario() returns (ramTotal: nat, shyamTotal: nat, shyamId: int)
    ensures ramTotal == 2 && shyamTotal == 1 && shyamId == 1
  {
    var ram := new Dabbawala("Ram", "Dadar");
    var shyam := new Dabbawala("Shyam", "Andheri");
    var _ := ram.AddDelivery(Some("A"), Some("B"));
    var _ := ram.AddDelivery(Some("C"), Some("D"));
    shyamId := shyam.AddDelivery(Some("X"), Some("Y"));
    ramTotal := ram.GetStats().total;
    shyamTotal := shyam.GetStats().total;
  }
}
