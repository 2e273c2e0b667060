/** Dadi ji's digital postcards: template text, pincode and address checks,
    aligned fields and vowel counts. An argument that is not a string is None. */
module PostcardWriter {
  import opened Wrappers
  import opened Text

  /** A present string that is not blank after trimming. */
  predicate Filled(x: Option<string>) {
    x.Some? && Trim(x.value) != ""
  }

  /** "Priy {receiver},\n\n{message}\n\nAapka/Aapki,\n{sender}", or "" when any
      argument is missing or blank. */
  function WritePostcard(sender: Option<string>, receiver: Option<string>, message: Option<string>): (r: string)
    ensures r == "" <==> !(Filled(sender) && Filled(receiver) && Filled(message))
    ensures r != "" ==> StartsWith(r, "Priy " + receiver.value + ",\n\n")
    ensures r != "" ==> EndsWith(r, "\n\nAapka/Aapki,\n" + sender.value)
    ensures r != "" ==> |r| == |sender.value| + |receiver.value| + |message.value| + 23
    ensures r != "" ==> OccursAt(r, message.value, |receiver.value| + 8)
  {
    if Filled(sender) && Filled(receiver) && Filled(message) then
      var head := "Priy " + receiver.value + ",\n\n";
      var tail := "\n\nAapka/Aapki,\n" + sender.value;
      ThreeParts(head, message.value, tail);
      head + message.value + tail
    else ""
  }

  /** The three parts of `h + m + t` can be read back from it. */
  lemma ThreeParts(h: string, m: string, t: string)
    ensures var r := h + m + t;
            StartsWith(r, h) && EndsWith(r, t) && OccursAt(r, m, |h|) && |r| == |h| + |m| + |t|
  {
    var r := h + m + t;
    assert r[..|h|] == h;
    assert r[|r| - |t|..] == t;
    assert r[|h|..|h| + |m|] == m;
  }

  /** With no whitespace at their ends, the three texts appear unchanged in
      the template. */
  lemma WritePostcardOfUnpadded(sender: string, receiver: string, message: string)
    requires Unpadded(sender) && Unpadded(receiver) && Unpadded(message)
    requires sender != "" && receiver != "" && message != ""
    ensures WritePostcard(Some(sender), Some(receiver), Some(message))
            == "Priy " + receiver + ",\n\n" + message + ("\n\nAapka/Aapki,\n" + sender)
  {
    TrimOfUnpadded(sender);
    TrimOfUnpadded(receiver);
    TrimOfUnpadded(message);
  }

  lemma WritePostcardExample()
    ensures WritePostcard(Some("Guddu"), Some("Dadi ji"), Some("Hum theek hain"))
            == "Priy Dadi ji,\n\nHum theek hain\n\nAapka/Aapki,\nGuddu"
  {
    WritePostcardOfUnpadded("Guddu", "Dadi ji", "Hum theek hain");
    PostcardExampleText();
  }

  lemma PostcardExampleText()
    ensures "Priy " + "Dadi ji" + ",\n\n" + "Hum theek hain" + ("\n\nAapka/Aapki,\n" + "Guddu")
            == "Priy Dadi ji,\n\nHum theek hain\n\nAapka/Aapki,\nGuddu"
  {
    PostcardHead();
    PostcardTail();
    PostcardBody();
    PostcardWhole();
  }

  lemma PostcardHead()
    ensures "Priy " + "Dadi ji" + ",\n\n" == "Priy Dadi ji,\n\n"
  {
  }

  lemma PostcardTail()
    ensures "\n\nAapka/Aapki,\n" + "Guddu" == "\n\nAapka/Aapki,\nGuddu"
  {
  }

  lemma PostcardBody()
    ensures "Priy Dadi ji,\n\n" + "Hum theek hain" == "Priy Dadi ji,\n\nHum theek hain"
  {
  }

  lemma PostcardWhole()
    ensures "Priy Dadi ji,\n\nHum theek hain" + "\n\nAapka/Aapki,\nGuddu"
            == "Priy Dadi ji,\n\nHum theek hain\n\nAapka/Aapki,\nGuddu"
  {
  }

  /** A present string of exactly six digits that does not start with "0". */
  function IsValidPincode(code: Option<string>): (r: bool)
    ensures r ==> code.Some? && |code.value| == 6 && AllDigits(code.value) && code.value[0] != '0'
  {
    code.Some? && |code.value| == 6 && !StartsWith(code.value, "0") && AllDigits(code.value)
  }

  /** The valid pincodes are exactly the ways of writing the numbers 100000
      to 999999. */
  lemma PincodeIsSixDigitNumber(code: string)
    ensures IsValidPincode(Some(code)) <==> exists n: nat :: 100000 <= n <= 999999 && code == NatToString(n)
  {
    if IsValidPincode(Some(code)) {
      NatToStringOfDigitsValue(code);
      var n := DigitsValue(code);
      assert 100000 <= n <= 999999 && code == NatToString(n);
    }
    if n: nat :| 100000 <= n <= 999999 && code == NatToString(n) {
      var s := NatToString(n);
      if |s| < 6 {
        PowMonotone(|s|, 5);
      } else if |s| > 6 {
        PowMonotone(6, |s| - 1);
      }
    }
  }

  lemma {:induction false} PowMonotone(j: nat, k: nat)
    requires j <= k
    ensures Pow10(j) <= Pow10(k)
  {
    if j < k { PowMonotone(j, k - 1); }
  }

  lemma PincodeExamples()
    ensures IsValidPincode(Some("400001"))
    ensures !IsValidPincode(Some("012345"))
    ensures !IsValidPincode(None)
  {
    assert "400001"[..1] == "4";
  }

  /** String.prototype.padEnd with spaces. */
  function PadEnd(s: string, width: int): (r: string)
    ensures StartsWith(r, s) && AllSpace(r[|s|..])
    ensures |r| == if width > |s| then width else |s|
  {
    s + seq(if width > |s| then width - |s| else 0, _ => ' ')
  }

  /** The label padded with spaces to `width` (12 when not given), then ": "
      and the value; "" when the label or the value is not a string. */
  function FormatPostcardField(lbl: Option<string>, value: Option<string>, width: Option<int>): (r: string)
    ensures r == "" <==> lbl.None? || value.None?
    ensures r != "" ==> StartsWith(r, lbl.value) && EndsWith(r, ": " + value.value)
    ensures r != "" ==> var w := width.GetOr(12);
                        |r| == (if w > |lbl.value| then w else |lbl.value|) + 2 + |value.value|
    ensures r != "" ==> AllSpace(r[|lbl.value|..|r| - 2 - |value.value|])
  {
    if lbl.None? || value.None? then ""
    else
      var padded := PadEnd(lbl.value, width.GetOr(12));
      var r := padded + ": " + value.value;
      assert r[..|lbl.value|] == padded[..|lbl.value|];
      assert r[|r| - 2 - |value.value|..] == ": " + value.value;
      assert r[|lbl.value|..|r| - 2 - |value.value|] == padded[|lbl.value|..];
      r
  }

  lemma FormatPostcardFieldExamples()
    ensures FormatPostcardField(Some("From"), Some("Guddu"), None) == "From        : Guddu"
    ensures FormatPostcardField(Some("To"), Some("Dadi ji"), Some(8)) == "To      : Dadi ji"
  {
  }

  /** The address ends with the state code; false when either is not a
      string. */
  function IsFromState(address: Option<string>, stateCode: Option<string>): (r: bool)
    ensures r <==> address.Some? && stateCode.Some? &&
                   exists head :: address.value == head + stateCode.value
  {
    if address.Some? && stateCode.Some? && EndsWith(address.value, stateCode.value) then
      assert address.value == address.value[..|address.value| - |stateCode.value|] + stateCode.value;
      true
    else
      false
  }

  lemma IsFromStateExamples()
    ensures IsFromState(Some("Guddu, Lucknow, UP"), Some("UP"))
    ensures !IsFromState(Some("Priya, Mumbai, MH"), Some("UP"))
  {
    assert !EndsWith("Priya, Mumbai, MH", "UP");
  }

  predicate IsVowel(c: char) {
    var l := LowerChar(c);
    l == 'a' || l == 'e' || l == 'i' || l == 'o' || l == 'u'
  }

  function Vowels(s: string): nat {
    if s == [] then 0 else (if IsVowel(s[0]) then 1 else 0) + Vowels(s[1..])
  }

  /** The number of characters among a, e, i, o, u in either case; 0 when the
      message is not a string. */
  function CountVowels(message: Option<string>): (r: nat)
    ensures message.None? ==> r == 0
    ensures message.Some? ==> r <= |message.value|
    ensures message.Some? ==> (r == 0 <==> forall i :: 0 <= i < |message.value| ==> !IsVowel(message.value[i]))
  {
    match message
    case None => 0
    case Some(s) => VowelsBounds(s); Vowels(s)
  }

  lemma {:induction false} VowelsBounds(s: string)
    ensures Vowels(s) <= |s|
    ensures Vowels(s) == 0 <==> forall i :: 0 <= i < |s| ==> !IsVowel(s[i])
  {
    if s != [] {
      VowelsBounds(s[1..]);
      assert forall i :: 1 <= i < |s| ==> s[i] == s[1..][i - 1];
    }
  }

  /** Counting is additive over concatenation. */
  lemma {:induction false} CountVowelsAppend(a: string, b: string)
    ensures CountVowels(Some(a + b)) == CountVowels(Some(a)) + CountVowels(Some(b))
  {
    if a == [] {
      assert a + b == b;
    } else {
      assert (a + b)[1..] == a[1..] + b;
      CountVowelsAppend(a[1..], b);
    }
  }

  /** Changing the case of letters does not change the count. */
  lemma {:induction false} CountVowelsIgnoresCase(s: string)
    ensures CountVowels(Some(ToLower(s))) == CountVowels(Some(s))
    ensures CountVowels(Some(ToUpper(s))) == CountVowels(Some(s))
  {
    if s != [] {
      CountVowelsIgnoresCase(s[1..]);
      assert ToLower(s)[1..] == ToLower(s[1..]);
      assert ToUpper(s)[1..] == ToUpper(s[1..]);
    }
  }

  lemma CountVowelsExamples()
    ensures CountVowels(Some("Namaste India")) == 6
    ensures CountVowels(Some("Namaste")) == 3
  {
    NamasteVowels();
    CountVowelsAppend("Namaste", " India");
    assert "Namaste" + " India" == "Namaste India";
  }

  lemma NamasteVowels()
    ensures Vowels("Namaste") == 3 && Vowels(" India") == 3
  {
    assert Vowels("ste") == 1;
    assert Vowels("dia") == 2;
  }
}
