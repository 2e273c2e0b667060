/** The dosa counter: the bill for an order of one kind of dosa. A type
    that is not a string is None, and so is an omitted quantity or spice
    flag, which then takes its default. */
module DosaCounter {
  import opened Wrappers

  datatype DosaOrder = DosaOrder(dosaType: string, quantity: int, pricePerDosa: int, total: int)

  /** The menu price of each dosa. */
  function UnitPrice(dosaType: string): Option<int> {
    match dosaType
    case "plain" => Some(40)
    case "masala" => Some(60)
    case "onion" => Some(50)
    case "butter" => Some(70)
    case "paper" => Some(90)
    case "cheese" => Some(80)
    case _ => None
  }

  /** The spice surcharge per dosa. */
  const SpicyExtra := 10

  /** The order with its price per dosa (menu price, plus 10 when spicy) and
      the total for the quantity (1 when not given); None for a type that is
      not on the menu or not a string, or a quantity that is not positive. */
  function CalculateDosaOrder(dosaType: Option<string>, quantity: Option<int>, isSpicy: Option<bool>): (r: Option<DosaOrder>)
    ensures r.Some? <==> dosaType.Some? && UnitPrice(dosaType.value).Some? && quantity.GetOr(1) > 0
    ensures r.Some? ==> r.value.dosaType == dosaType.value && r.value.quantity == quantity.GetOr(1)
    ensures r.Some? ==> r.value.pricePerDosa ==
                        UnitPrice(dosaType.value).value + (if isSpicy.GetOr(false) then SpicyExtra else 0)
    ensures r.Some? ==> r.value.total == r.value.pricePerDosa * r.value.quantity && r.value.total > 0
  {
    var q := quantity.GetOr(1);
    if dosaType.None? || UnitPrice(dosaType.value).None? || q <= 0 then None
    else
      var price := UnitPrice(dosaType.value).value + (if isSpicy.GetOr(false) then SpicyExtra else 0);
      Some(DosaOrder(dosaType.value, q, price, price * q))
  }

  /** Spice costs exactly 10 more per dosa, and one more dosa costs one more
      price per dosa. */
  lemma DosaOrderArithmetic(dosaType: string, q: int)
    requires UnitPrice(dosaType).Some? && q > 0
    ensures CalculateDosaOrder(Some(dosaType), Some(q), Some(true)).value.total ==
            CalculateDosaOrder(Some(dosaType), Some(q), Some(false)).value.total + SpicyExtra * q
    ensures CalculateDosaOrder(Some(dosaType), Some(q + 1), Some(false)).value.total ==
            CalculateDosaOrder(Some(dosaType), Some(q), Some(false)).value.total + UnitPrice(dosaType).value
  {
  }

  /** Leaving out the quantity and the spice flag is asking for one plain
      (not spicy) dosa. */
  lemma DosaOrderDefaults(dosaType: Option<string>)
    ensures CalculateDosaOrder(dosaType, None, None) == CalculateDosaOrder(dosaType, Some(1), Some(false))
  {
  }

  lemma DosaMenuExamples()
    ensures CalculateDosaOrder(Some("plain"), None, None) == Some(DosaOrder("plain", 1, 40, 40))
    ensures CalculateDosaOrder(Some("masala"), None, None).value.total == 60
    ensures CalculateDosaOrder(Some("onion"), None, None).value.total == 50
    ensures CalculateDosaOrder(Some("butter"), None, None).value.total == 70
    ensures CalculateDosaOrder(Some("paper"), None, None).value.total == 90
    ensures CalculateDosaOrder(Some("cheese"), None, None).value.total == 80
  {
  }

  lemma DosaOrderExamples()
    ensures CalculateDosaOrder(Some("plain"), Some(1), Some(true)).value.pricePerDosa == 50
    ensures CalculateDosaOrder(Some("masala"), Some(1), Some(true)).value.pricePerDosa == 70
    ensures CalculateDosaOrder(Some("masala"), Some(1), Some(false)).value.pricePerDosa == 60
    ensures CalculateDosaOrder(Some("masala"), Some(3), None).value.total == 180
    ensures CalculateDosaOrder(Some("masala"), Some(2), Some(true)) == Some(DosaOrder("masala", 2, 70, 140))
    ensures CalculateDosaOrder(Some("cheese"), Some(5), None).value.total == 400
    ensures CalculateDosaOrder(Some("butter"), Some(2), Some(true)) == Some(DosaOrder("butter", 2, 80, 160))
  {
  }

  lemma DosaRejectionExamples()
    ensures CalculateDosaOrder(Some("paneer"), None, None) == None
    ensures CalculateDosaOrder(Some("plain"), Some(0), None) == None
    ensures CalculateDosaOrder(Some("plain"), Some(-2), None) == None
    ensures CalculateDosaOrder(None, None, None) == None
  {
  }
}
