/** The wedding guest list handled through callbacks: filtering, notifying,
    answering an RSVP and chaining list transforms. A guest list that is not
    an array, or a callback that is not a function, is None. */
module ShaadiRsvp {
  import opened Wrappers
  import opened Text
  import opened Sequences
  import Pipeline
  import Sorting

  datatype Guest = Guest(name: string, side: string, rsvp: string)

  /** The guests the filter accepts, in their original order; [] when either
      argument is missing. */
  function ProcessGuests<T(!new)>(guests: Option<seq<T>>, filterFn: Option<T -> bool>): (r: seq<T>)
    ensures guests.None? || filterFn.None? ==> r == []
    ensures guests.Some? && filterFn.Some? ==>
              |r| <= |guests.value| &&
              (forall g :: g in r <==> g in guests.value && filterFn.value(g)) &&
              (forall g :: filterFn.value(g) ==> multiset(r)[g] == multiset(guests.value)[g])
    ensures guests.Some? && filterFn.Some? ==> r == Filter(guests.value, filterFn.value)
  {
    if guests.None? || filterFn.None? then []
    else FilterKeeps(guests.value, filterFn.value); Filter(guests.value, filterFn.value)
  }

  /** One callback result per guest, in guest order; [] when either argument
      is missing. */
  function NotifyGuests<T, R>(guests: Option<seq<T>>, notify: Option<T -> R>): (r: seq<R>)
    ensures guests.None? || notify.None? ==> r == []
    ensures guests.Some? && notify.Some? ==>
              |r| == |guests.value| && forall i :: 0 <= i < |r| ==> r[i] == notify.value(guests.value[i])
  {
    if guests.None? || notify.None? then [] else Map(guests.value, notify.value)
  }

  /** onAccept's result for "yes", onDecline's for "no", None for any other
      answer, a missing guest or a missing callback. */
  function HandleRsvp<R>(guest: Option<Guest>, onAccept: Option<Guest -> R>, onDecline: Option<Guest -> R>): (r: Option<R>)
    ensures r.Some? <==> guest.Some? && onAccept.Some? && onDecline.Some? &&
                         (guest.value.rsvp == "yes" || guest.value.rsvp == "no")
    ensures r.Some? && guest.value.rsvp == "yes" ==> r.value == onAccept.value(guest.value)
    ensures r.Some? && guest.value.rsvp == "no" ==> r.value == onDecline.value(guest.value)
  {
    if guest.None? || onAccept.None? || onDecline.None? then None
    else if guest.value.rsvp == "yes" then Some(onAccept.value(guest.value))
    else if guest.value.rsvp == "no" then Some(onDecline.value(guest.value))
    else None
  }

  /** The transforms applied first to last; [] when the list is missing. */
  function TransformGuestList<T>(guests: Option<seq<T>>, transforms: seq<seq<T> -> seq<T>>): (r: seq<T>)
    ensures guests.None? ==> r == []
    ensures guests.Some? && transforms == [] ==> r == guests.value
  {
    if guests.None? then [] else Pipeline.ApplyLeft(transforms, guests.value)
  }

  /** Transforming by `fs` and then by `gs` is transforming by `fs + gs`. */
  lemma TransformInStages<T>(guests: seq<T>, fs: seq<seq<T> -> seq<T>>, gs: seq<seq<T> -> seq<T>>)
    ensures TransformGuestList(Some(guests), fs + gs)
            == TransformGuestList(Some(TransformGuestList(Some(guests), fs)), gs)
  {
    Pipeline.ApplyLeftAppend(fs, gs, guests);
  }

  /** The single transform is the last one to run. */
  lemma TransformLast<T>(guests: seq<T>, fs: seq<seq<T> -> seq<T>>, f: seq<T> -> seq<T>)
    ensures TransformGuestList(Some(guests), fs + [f]) == f(TransformGuestList(Some(guests), fs))
  {
    Pipeline.ApplyLeftLast(fs, f, guests);
  }

  /** Two transforms run first then second. */
  lemma TransformTwo<T>(guests: seq<T>, first: seq<T> -> seq<T>, second: seq<T> -> seq<T>)
    ensures TransformGuestList(Some(guests), [first, second]) == second(first(guests))
  {
    var fs := [first, second];
    assert fs[1..] == [second] && [second][1..] == [];
    assert Pipeline.ApplyLeft(fs, guests) == Pipeline.ApplyLeft([second], first(guests));
    assert Pipeline.ApplyLeft([second], first(guests)) == Pipeline.ApplyLeft([], second(first(guests)));
  }

  function Rahul(): Guest { Guest("Rahul", "bride", "yes") }
  function Priya(): Guest { Guest("Priya", "groom", "no") }
  function Amit(): Guest { Guest("Amit", "bride", "yes") }
  function Neha(): Guest { Guest("Neha", "groom", "yes") }
  function Vikram(): Guest { Guest("Vikram", "bride", "no") }

  function Guests(): seq<Guest> {
    [Rahul(), Priya(), Amit(), Neha(), Vikram()]
  }

  predicate OnBrideSide(g: Guest) { g.side == "bride" }
  predicate Accepted(g: Guest) { g.rsvp == "yes" }

  /** Filtering five guests keeps those the filter accepts. */
  lemma FilterOfFive(gs: seq<Guest>, p: Guest -> bool, keep: seq<Guest>)
    requires |gs| == 5
    requires keep == (if p(gs[0]) then [gs[0]] else []) + (if p(gs[1]) then [gs[1]] else []) +
                     (if p(gs[2]) then [gs[2]] else []) + (if p(gs[3]) then [gs[3]] else []) +
                     (if p(gs[4]) then [gs[4]] else [])
    ensures ProcessGuests(Some(gs), Some(p)) == keep
  {
    FilterFive(gs, p);
    assert ProcessGuests(Some(gs), Some(p)) == Filter(gs, p);
  }

  lemma ProcessGuestsBySide()
    ensures ProcessGuests(Some(Guests()), Some(OnBrideSide)) == [Rahul(), Amit(), Vikram()]
  {
    FilterOfFive(Guests(), OnBrideSide, [Rahul(), Amit(), Vikram()]);
  }

  lemma ProcessGuestsByRsvp()
    ensures ProcessGuests(Some(Guests()), Some(Accepted)) == [Rahul(), Amit(), Neha()]
  {
    FilterOfFive(Guests(), Accepted, [Rahul(), Amit(), Neha()]);
  }

  predicate OnUnknownSide(g: Guest) { g.side == "unknown" }

  lemma ProcessGuestsNoMatch()
    ensures ProcessGuests(Some(Guests()), Some(OnUnknownSide)) == []
  {
    FilterOfFive(Guests(), OnUnknownSide, []);
  }

  lemma ProcessGuestsMissing()
    ensures ProcessGuests(None, Some(OnBrideSide)) == []
    ensures ProcessGuests(Some(Guests()), None) == []
  {
  }

  function Notice(g: Guest): string { "Notified " + g.name }

  lemma NotifyGuestsExample()
    ensures NotifyGuests(Some(Guests()), Some(Notice))
            == ["Notified Rahul", "Notified Priya", "Notified Amit", "Notified Neha", "Notified Vikram"]
  {
    assert Notice(Rahul()) == "Notified Rahul";
    assert Notice(Priya()) == "Notified Priya";
    assert Notice(Amit()) == "Notified Amit";
    assert Notice(Neha()) == "Notified Neha";
    assert Notice(Vikram()) == "Notified Vikram";
  }

  function Coming(g: Guest): string { g.name + " is coming!" }
  function Declined(g: Guest): string { g.name + " declined" }

  lemma HandleRsvpExamples()
    ensures HandleRsvp(Some(Guest("Amit", "", "yes")), Some(Coming), Some(Declined)) == Some("Amit is coming!")
    ensures HandleRsvp(Some(Guest("Priya", "", "no")), Some(Coming), Some(Declined)) == Some("Priya declined")
    ensures HandleRsvp(Some(Guest("Test", "", "maybe")), Some(Coming), Some(Declined)) == None
    ensures HandleRsvp(None, Some(Coming), Some(Declined)) == None
    ensures HandleRsvp(Some(Guest("Test", "", "yes")), None, Some(Declined)) == None
    ensures HandleRsvp(Some(Guest("Test", "", "yes")), Some(Coming), None) == None
  {
    assert Coming(Guest("Amit", "", "yes")) == "Amit is coming!";
    assert Declined(Guest("Priya", "", "no")) == "Priya declined";
  }

  /** "Comes no later than" by name, in string order. */
  predicate NameOrder(a: Guest, b: Guest) {
    !LexLess(b.name, a.name)
  }

  function FilterAccepted(gs: seq<Guest>): seq<Guest> { Filter(gs, Accepted) }
  function SortByName(gs: seq<Guest>): seq<Guest> { Sorting.Sort(gs, NameOrder) }

  lemma TransformFilterThenSort()
    ensures TransformGuestList(Some(Guests()), [FilterAccepted, SortByName]) == [Amit(), Neha(), Rahul()]
  {
    TransformTwo(Guests(), FilterAccepted, SortByName);
    ProcessGuestsByRsvp();
    assert FilterAccepted(Guests()) == [Rahul(), Amit(), Neha()];
    SortAccepted();
  }

  lemma SortAccepted()
    ensures SortByName([Rahul(), Amit(), Neha()]) == [Amit(), Neha(), Rahul()]
  {
    assert LexLess("Amit", "Neha") && LexLess("Neha", "Rahul") && LexLess("Amit", "Rahul");
    assert [Rahul(), Amit(), Neha()][1..] == [Amit(), Neha()];
    assert [Amit(), Neha()][1..] == [Neha()];
    assert Sorting.Sort([Neha()], NameOrder) == [Neha()];
    assert Sorting.Sort([Amit(), Neha()], NameOrder) == [Amit(), Neha()];
  }

  function FilterBride(gs: seq<Guest>): seq<Guest> { Filter(gs, OnBrideSide) }

  lemma TransformSingleExample()
    ensures TransformGuestList(Some(Guests()), [FilterBride]) == [Rahul(), Amit(), Vikram()]
  {
    assert [FilterBride][1..] == [];
    assert Pipeline.ApplyLeft([FilterBride], Guests()) == Pipeline.ApplyLeft([], FilterBride(Guests()));
    ProcessGuestsBySide();
  }

  lemma TransformExamples()
    ensures |TransformGuestList(Some(Guests()), [])| == 5
    ensures TransformGuestList(None, [FilterAccepted]) == []
    ensures TransformGuestList(Some([]), [FilterAccepted]) == []
  {
    assert [FilterAccepted][1..] == [];
    assert Pipeline.ApplyLeft([FilterAccepted], []) == Pipeline.ApplyLeft([], FilterAccepted([]));
  }
}
