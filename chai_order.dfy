/** Guddu's chai stall: the basic string operations on a customer's order.
    An argument that is not a string is None. */
module ChaiOrder {
  import opened Wrappers
  import opened Text

  /** The length of the order once surrounding whitespace is removed; -1 when
      the order is not a string. */
  function GetChaiOrderLength(order: Option<string>): (r: int)
    ensures r == -1 <==> order.None?
    ensures order.Some? ==> 0 <= r <= |order.value|
    ensures order.Some? ==> (r == 0 <==> AllSpace(order.value))
  {
    match order
    case None => -1
    case Some(s) => TrimEmptyIffAllSpace(s); |Trim(s)|
  }

  /** The trimmed order in capitals; "" when it is not a string or is blank. */
  function ShoutChaiOrder(order: Option<string>): (r: string)
    ensures r == "" <==> order.None? || AllSpace(order.value)
    ensures IsUpper(r) && Unpadded(r)
    ensures order.Some? ==> SameIgnoringCase(r, Trim(order.value))
  {
    match order
    case None => ""
    case Some(s) => TrimEmptyIffAllSpace(s); ToUpperFacts(Trim(s)); ToUpper(Trim(s))
  }

  /** The trimmed order in small letters; "" when it is not a string or is
      blank. */
  function WhisperChaiOrder(order: Option<string>): (r: string)
    ensures r == "" <==> order.None? || AllSpace(order.value)
    ensures IsLower(r) && Unpadded(r)
    ensures order.Some? ==> SameIgnoringCase(r, Trim(order.value))
  {
    match order
    case None => ""
    case Some(s) => TrimEmptyIffAllSpace(s); ToLowerFacts(Trim(s)); ToLower(Trim(s))
  }

  /** The ingredient occurs in the order, ignoring the case of letters; false
      when either is not a string. */
  function HasSpecialIngredient(order: Option<string>, ingredient: Option<string>): (r: bool)
    ensures r <==> order.Some? && ingredient.Some? &&
                   exists i :: OccursAt(ToLower(order.value), ToLower(ingredient.value), i)
  {
    order.Some? && ingredient.Some? && Contains(ToLower(order.value), ToLower(ingredient.value))
  }

  /** The first and the last character of a trimmed order. */
  datatype Ends = Ends(first: char, last: char)

  /** The first and last non-whitespace characters; None when the order is
      not a string or is blank. */
  function GetFirstAndLastChar(order: Option<string>): (r: Option<Ends>)
    ensures r.None? <==> order.None? || AllSpace(order.value)
    ensures r.Some? ==> !IsSpace(r.value.first) && !IsSpace(r.value.last)
  {
    match order
    case None => None
    case Some(s) =>
      TrimEmptyIffAllSpace(s);
      var t := Trim(s);
      if t == "" then None else Some(Ends(t[0], t[|t| - 1]))
  }

  /** For a non-blank order `m` surrounded by any whitespace `a` and `b`, the
      length is that of `m`. */
  lemma LengthOfPadded(a: string, m: string, b: string)
    requires AllSpace(a) && AllSpace(b) && Unpadded(m)
    ensures GetChaiOrderLength(Some(a + m + b)) == |m|
  {
    TrimOfPadded(a, m, b);
  }

  lemma ShoutOfPadded(a: string, m: string, b: string)
    requires AllSpace(a) && AllSpace(b) && Unpadded(m)
    ensures ShoutChaiOrder(Some(a + m + b)) == ToUpper(m)
  {
    TrimOfPadded(a, m, b);
  }

  lemma WhisperOfPadded(a: string, m: string, b: string)
    requires AllSpace(a) && AllSpace(b) && Unpadded(m)
    ensures WhisperChaiOrder(Some(a + m + b)) == ToLower(m)
  {
    TrimOfPadded(a, m, b);
  }

  lemma FirstAndLastOfPadded(a: string, m: string, b: string)
    requires AllSpace(a) && AllSpace(b) && Unpadded(m) && m != ""
    ensures GetFirstAndLastChar(Some(a + m + b)) == Some(Ends(m[0], m[|m| - 1]))
  {
    var s := a + m + b;
    TrimOfPadded(a, m, b);
    var t := Trim(s);
    assert t == m;
    assert GetFirstAndLastChar(Some(s)) == Some(Ends(t[0], t[|t| - 1]));
  }

  lemma ChaiOrderLengthExample()
    ensures GetChaiOrderLength(Some("  masala chai  ")) == 11
  {
    var s := "  masala chai  ";
    assert s == "  " + "masala chai" + "  ";
    LengthOfPadded("  ", "masala chai", "  ");
  }

  lemma ShoutChaiOrderExample()
    ensures ShoutChaiOrder(Some("masala chai")) == "MASALA CHAI"
  {
    TrimOfUnpadded("masala chai");
    assert ToUpper("masala chai") == "MASALA CHAI";
  }

  lemma WhisperChaiOrderExample()
    ensures WhisperChaiOrder(Some("ADRAK CHAI")) == "adrak chai"
  {
    TrimOfUnpadded("ADRAK CHAI");
    assert ToLower("ADRAK CHAI") == "adrak chai";
  }

  lemma FirstAndLastExample()
    ensures GetFirstAndLastChar(Some("masala chai")) == Some(Ends('m', 'i'))
  {
    TrimOfUnpadded("masala chai");
  }

  lemma SpecialIngredientExample()
    ensures HasSpecialIngredient(Some("Elaichi Masala Chai"), Some("elaichi"))
  {
    assert OccursAt(ToLower("Elaichi Masala Chai"), ToLower("elaichi"), 0);
  }
}
