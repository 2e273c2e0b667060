/** The script generator's factories: a dialogue writer configured by genre
    and a ticket pricer configured by base price. Each factory returns the
    configuration its JavaScript closure captures, or None where the factory
    returns null; the returned function is the second function applied to
    that configuration. */
module BollywoodDirector {
  import opened Wrappers
  import opened Text
  import opened Numbers

  datatype Genre = Action | Romance | Comedy | Drama

  /** The writer for a known genre; None for any other genre. */
  function CreateDialogueWriter(genre: Option<string>): (r: Option<Genre>)
    ensures r.Some? <==> genre.Some? && genre.value in {"action", "romance", "comedy", "drama"}
    ensures r == Some(Action) <==> genre == Some("action")
    ensures r == Some(Romance) <==> genre == Some("romance")
    ensures r == Some(Comedy) <==> genre == Some("comedy")
    ensures r == Some(Drama) <==> genre == Some("drama")
  {
    match genre
    case Some("action") => Some(Action)
    case Some("romance") => Some(Romance)
    case Some("comedy") => Some(Comedy)
    case Some("drama") => Some(Drama)
    case _ => None
  }

  /** How the hero speaks in each genre. */
  function Verb(g: Genre): string {
    match g
    case Action => "says"
    case Romance => "whispers"
    case Comedy => "laughs"
    case Drama => "cries"
  }

  predicate Given(x: Option<string>) {
    x.Some? && x.value != ""
  }

  /** What the hero says to the villain in each genre. */
  function Quote(g: Genre, villain: string): (q: string)
    ensures OccursAt(q, villain, if g == Action then 27 else 0)
  {
    match g
    case Action => assert ("Tujhe toh main dekh lunga, " + villain + "!")[27..27 + |villain|] == villain;
                   "Tujhe toh main dekh lunga, " + villain + "!"
    case Romance => assert (villain + ", tum mere liye sab kuch ho")[..|villain|] == villain;
                    villain + ", tum mere liye sab kuch ho"
    case Comedy => assert (villain + " bhai, kya kar rahe ho yaar!")[..|villain|] == villain;
                   villain + " bhai, kya kar rahe ho yaar!"
    case Drama => assert (villain + ", tune mera sab kuch cheen liya!")[..|villain|] == villain;
                  villain + ", tune mera sab kuch cheen liya!"
  }

  /** The hero, the genre's verb, then the quote naming the villain in single
      quotes; "..." when the hero or the villain is missing or empty. */
  function Dialogue(writer: Genre, hero: Option<string>, villain: Option<string>): (r: string)
    ensures r == "..." <==> !Given(hero) || !Given(villain)
    ensures Given(hero) && Given(villain) ==>
              StartsWith(r, hero.value + " " + Verb(writer) + ": '") && EndsWith(r, "'") &&
              Mentions(r, villain.value)
  {
    if !Given(hero) || !Given(villain) then "..."
    else
      var head := hero.value + " " + Verb(writer) + ": '";
      var q := Quote(writer, villain.value);
      var r := head + q + "'";
      assert r[..|head|] == head;
      assert r[|r| - 1..] == "'";
      var k := if writer == Action then 27 else 0;
      assert r[|head| + k..|head| + k + |villain.value|] == q[k..k + |villain.value|];
      assert OccursAt(r, villain.value, |head| + k);
      r
  }

  ghost predicate Mentions(s: string, sub: string) {
    exists i :: OccursAt(s, sub, i)
  }

  /** For a named hero and villain the dialogue is exactly the template. */
  lemma DialogueOfNamed(g: Genre, hero: string, villain: string)
    requires hero != "" && villain != ""
    ensures Dialogue(g, Some(hero), Some(villain)) == hero + " " + Verb(g) + ": '" + Quote(g, villain) + "'"
  {
  }

  /* The examples keep the template's pieces apart: a comparison of whole
     literal sentences costs the solver one step per character. */
  lemma ActionExample()
    ensures Dialogue(Action, Some("Shah Rukh"), Some("Raees")) == "Shah Rukh" + " " + "says" + ": '" + ("Tujhe toh main dekh lunga, " + "Raees" + "!") + "'"
  {
    DialogueOfNamed(Action, "Shah Rukh", "Raees");
  }

  lemma RomanceExample()
    ensures Dialogue(Romance, Some("Raj"), Some("Simran")) == "Raj" + " " + "whispers" + ": '" + ("Simran" + ", tum mere liye sab kuch ho") + "'"
  {
    DialogueOfNamed(Romance, "Raj", "Simran");
  }

  lemma ComedyExample()
    ensures Dialogue(Comedy, Some("Munna"), Some("Circuit")) == "Munna" + " " + "laughs" + ": '" + ("Circuit" + " bhai, kya kar rahe ho yaar!") + "'"
  {
    DialogueOfNamed(Comedy, "Munna", "Circuit");
  }

  lemma DramaExample()
    ensures Dialogue(Drama, Some("Rahul"), Some("Anjali")) == "Rahul" + " " + "cries" + ": '" + ("Anjali" + ", tune mera sab kuch cheen liya!") + "'"
  {
    DialogueOfNamed(Drama, "Rahul", "Anjali");
  }

  lemma DialogueEdgeExamples()
    ensures CreateDialogueWriter(Some("horror")) == None
    ensures Dialogue(Action, Some(""), Some("Raees")) == "..." && Dialogue(Action, Some("SRK"), Some("")) == "..."
    ensures Dialogue(Action, None, Some("Raees")) == "..." && Dialogue(Action, Some("SRK"), None) == "..."
  {
  }

  /** The pricer's captured base price, which is positive. */
  datatype Pricer = Pricer(basePrice: real)

  /** A pricer for a positive base price; None otherwise. */
  function CreateTicketPricer(basePrice: Option<real>): (r: Option<Pricer>)
    ensures r.Some? <==> basePrice.Some? && basePrice.value > 0.0
    ensures r.Some? ==> r.value.basePrice == basePrice.value
  {
    if basePrice.Some? && basePrice.value > 0.0 then Some(Pricer(basePrice.value)) else None
  }

  function SeatMultiplier(seat: string): Option<real> {
    match seat
    case "silver" => Some(1.0)
    case "gold" => Some(1.5)
    case "platinum" => Some(2.0)
    case _ => None
  }

  /** The exact price before rounding. */
  function ExactPrice(p: Pricer, seat: string, isWeekend: bool): Option<real> {
    match SeatMultiplier(seat)
    case None => None
    case Some(m) => Some(p.basePrice * m * (if isWeekend then 1.3 else 1.0))
  }

  /** Base price times the seat multiplier, times 1.3 at weekends, rounded to
      the nearest integer; None for an unknown seat. */
  function Price(p: Pricer, seat: string, isWeekend: bool): (r: Option<int>)
    ensures r.Some? <==> seat in {"silver", "gold", "platinum"}
    ensures r.Some? ==> var x := ExactPrice(p, seat, isWeekend).value;
                        x - 0.5 < r.value as real <= x + 0.5
  {
    match ExactPrice(p, seat, isWeekend)
    case None => None
    case Some(x) => Some(Round(x))
  }

  /** Dearer seats and weekends never cost less. */
  lemma PriceMonotone(p: Pricer, isWeekend: bool)
    requires p.basePrice > 0.0
    ensures Price(p, "silver", isWeekend).value <= Price(p, "gold", isWeekend).value <= Price(p, "platinum", isWeekend).value
    ensures Price(p, "silver", false).value <= Price(p, "silver", true).value
    ensures Price(p, "gold", false).value <= Price(p, "gold", true).value
    ensures Price(p, "platinum", false).value <= Price(p, "platinum", true).value
  {
    RoundMonotone(p.basePrice, p.basePrice * 1.5);
    RoundMonotone(p.basePrice * 1.5, p.basePrice * 2.0);
    RoundMonotone(p.basePrice, p.basePrice * 1.3);
    RoundMonotone(p.basePrice * 1.5, p.basePrice * 1.5 * 1.3);
    RoundMonotone(p.basePrice * 2.0, p.basePrice * 2.0 * 1.3);
  }

  /** A whole base price at weekday silver is charged as is. */
  lemma SilverWeekdayIsBase(p: Pricer)
    requires p.basePrice == p.basePrice.Floor as real
    ensures Price(p, "silver", false) == Some(p.basePrice.Floor)
  {
  }

  lemma TicketPricerExamples()
    ensures CreateTicketPricer(Some(200.0)) == Some(Pricer(200.0))
    ensures Price(Pricer(200.0), "silver", false) == Some(200)
    ensures Price(Pricer(200.0), "gold", false) == Some(300)
    ensures Price(Pricer(200.0), "platinum", false) == Some(400)
    ensures Price(Pricer(200.0), "gold", true) == Some(390)
    ensures Price(Pricer(200.0), "silver", true) == Some(260)
    ensures Price(Pricer(200.0), "vip", false) == None
    ensures CreateTicketPricer(Some(-100.0)) == None && CreateTicketPricer(Some(0.0)) == None
  {
  }
}
