/** The Holi colour mixer: colours as values and palettes as sequences. No
    operation changes its arguments; each returns a new colour or palette.
    A colour or palette argument that is null, undefined or of the wrong kind
    is None. */
module HoliColors {
  import opened Wrappers
  import opened Numbers
  import opened Sequences

  datatype Color = Color(name: string, r: int, g: int, b: int)

  /** All three channels lie in 0..255. */
  predicate InGamut(c: Color) {
    0 <= c.r <= 255 && 0 <= c.g <= 255 && 0 <= c.b <= 255
  }

  /** Math.round of the average of two whole channel values. */
  function Average(x: int, y: int): (m: int)
    ensures x + y <= 2 * m <= x + y + 1
  {
    (x + y + 1) / 2
  }

  /** The mix is named "name1-name2" and each channel is the rounded average
      of the two channels, halves rounded up; None when either colour is
      missing. */
  function MixColors(c1: Option<Color>, c2: Option<Color>): (r: Option<Color>)
    ensures r.None? <==> c1.None? || c2.None?
    ensures r.Some? ==> r.value.name == c1.value.name + "-" + c2.value.name
    ensures r.Some? ==> c1.value.r + c2.value.r <= 2 * r.value.r <= c1.value.r + c2.value.r + 1
    ensures r.Some? ==> c1.value.g + c2.value.g <= 2 * r.value.g <= c1.value.g + c2.value.g + 1
    ensures r.Some? ==> c1.value.b + c2.value.b <= 2 * r.value.b <= c1.value.b + c2.value.b + 1
  {
    if c1.None? || c2.None? then None
    else
      var a, b := c1.value, c2.value;
      Some(Color(a.name + "-" + b.name, Average(a.r, b.r), Average(a.g, b.g), Average(a.b, b.b)))
  }

  /** Mixing colours of the gamut stays in the gamut, the order of the two
      colours changes only the name, and a colour mixed with itself keeps its
      channels. */
  lemma MixColorsProperties(a: Color, b: Color)
    ensures InGamut(a) && InGamut(b) ==> InGamut(MixColors(Some(a), Some(b)).value)
    ensures var ab, ba := MixColors(Some(a), Some(b)).value, MixColors(Some(b), Some(a)).value;
            ab.r == ba.r && ab.g == ba.g && ab.b == ba.b
    ensures var aa := MixColors(Some(a), Some(a)).value;
            aa.r == a.r && aa.g == a.g && aa.b == a.b
  {
  }

  /** One channel scaled by the factor, rounded, and held to 0..255. */
  function Scale(ch: int, factor: real): (v: int)
    ensures 0 <= v <= 255
    ensures ch as real * factor >= 255.0 ==> v == 255
    ensures ch as real * factor <= 0.0 ==> v == 0
    ensures 0.0 <= ch as real * factor <= 255.0 ==>
              ch as real * factor - 0.5 < v as real <= ch as real * factor + 0.5
  {
    var n := Round(ch as real * factor);
    if n < 0 then 0 else if n > 255 then 255 else n
  }

  /** Every channel scaled by the factor and clamped, the name unchanged;
      None for a missing colour or a factor that is not a number. */
  function AdjustBrightness(color: Option<Color>, factor: Option<real>): (r: Option<Color>)
    ensures r.None? <==> color.None? || factor.None?
    ensures r.Some? ==> r.value.name == color.value.name && InGamut(r.value)
    ensures r.Some? ==> var c, f, d := color.value, factor.value, r.value;
                        d.r == Scale(c.r, f) && d.g == Scale(c.g, f) && d.b == Scale(c.b, f)
  {
    if color.None? || factor.None? then None
    else
      var c, f := color.value, factor.value;
      Some(Color(c.name, Scale(c.r, f), Scale(c.g, f), Scale(c.b, f)))
  }

  /** A factor of 1 leaves a colour of the gamut as it is, and a factor of 0
      turns every colour black. */
  lemma AdjustBrightnessUnitAndZero(c: Color)
    ensures InGamut(c) ==> AdjustBrightness(Some(c), Some(1.0)) == Some(c)
    ensures AdjustBrightness(Some(c), Some(0.0)) == Some(Color(c.name, 0, 0, 0))
  {
    RoundOfInt(c.r);
    RoundOfInt(c.g);
    RoundOfInt(c.b);
  }

  /** For channels that are not negative, a larger factor never darkens. */
  lemma AdjustBrightnessMonotone(c: Color, f1: real, f2: real)
    requires c.r >= 0 && c.g >= 0 && c.b >= 0 && f1 <= f2
    ensures var d1, d2 := AdjustBrightness(Some(c), Some(f1)).value, AdjustBrightness(Some(c), Some(f2)).value;
            d1.r <= d2.r && d1.g <= d2.g && d1.b <= d2.b
  {
    ScaleMonotone(c.r, f1, f2);
    ScaleMonotone(c.g, f1, f2);
    ScaleMonotone(c.b, f1, f2);
  }

  lemma ScaleMonotone(ch: int, f1: real, f2: real)
    requires ch >= 0 && f1 <= f2
    ensures Scale(ch, f1) <= Scale(ch, f2)
  {
    var c := ch as real;
    assert c * f2 - c * f1 == c * (f2 - f1);
    assert c * (f2 - f1) >= 0.0;
    RoundMonotone(ch as real * f1, ch as real * f2);
  }

  /** A new palette with the colour at the end; the palette alone when the
      colour is missing, and the colour alone when the palette is not an
      array. */
  function AddToPalette(palette: Option<seq<Color>>, color: Option<Color>): (r: seq<Color>)
    ensures |r| == |palette.GetOr([])| + (if color.Some? then 1 else 0)
    ensures r[..|palette.GetOr([])|] == palette.GetOr([])
    ensures color.Some? ==> r[|r| - 1] == color.value
  {
    var p := palette.GetOr([]);
    match color
    case None => p
    case Some(c) => p + [c]
  }

  /** A colour has the given name. */
  predicate Named(p: seq<Color>, name: string) {
    exists i :: 0 <= i < |p| && p[i].name == name
  }

  /** No name occurs twice. */
  predicate DistinctNames(p: seq<Color>) {
    forall i, j :: 0 <= i < j < |p| ==> p[i].name != p[j].name
  }

  /** The palette without the colours of that name, in their order; [] when
      the palette is not an array. */
  function RemoveFromPalette(palette: Option<seq<Color>>, name: string): (r: seq<Color>)
    ensures !Named(r, name)
    ensures palette.None? ==> r == []
    ensures palette.Some? ==> forall c :: c in r <==> c in palette.value && c.name != name
    ensures palette.Some? ==> !Named(palette.value, name) ==> r == palette.value
    ensures palette.Some? ==> forall c :: multiset(r)[c] == if c.name == name then 0 else multiset(palette.value)[c]
  {
    match palette
    case None => []
    case Some(p) =>
      var keep := (c: Color) => c.name != name;
      FilterKeeps(p, keep);
      var r := Filter(p, keep);
      assert forall i :: 0 <= i < |r| ==> r[i] in r;
      if !Named(p, name) then
        FilterAll(p, keep);
        r
      else
        r
  }

  /** Removal works colour by colour, keeping the order: it splits over
      concatenation, and a single colour is dropped exactly when it has the
      name. Together these determine the result for every palette. */
  lemma RemoveFromPaletteLaws(a: seq<Color>, b: seq<Color>, c: Color, name: string)
    ensures RemoveFromPalette(Some(a + b), name) == RemoveFromPalette(Some(a), name) + RemoveFromPalette(Some(b), name)
    ensures RemoveFromPalette(Some([c]), name) == (if c.name == name then [] else [c])
  {
    var keep := (x: Color) => x.name != name;
    FilterAppend(a, b, keep);
    assert [c][1..] == [];
  }

  /** `acc` followed by the colours of `rest` whose names have not been seen
      yet, earlier colours winning. */
  function MergeInto(acc: seq<Color>, rest: seq<Color>): seq<Color>
    decreases |rest|
  {
    if rest == [] then acc
    else MergeInto(if Named(acc, rest[0].name) then acc else acc + [rest[0]], rest[1..])
  }

  /** Merging keeps `acc` as a prefix and adds only colours of `rest`. */
  lemma {:induction false} MergeIntoExtends(acc: seq<Color>, rest: seq<Color>)
    ensures var r := MergeInto(acc, rest);
            |acc| <= |r| <= |acc| + |rest| && r[..|acc|] == acc
    ensures var r := MergeInto(acc, rest);
            forall i :: |acc| <= i < |r| ==> r[i] in rest
    decreases |rest|
  {
    if rest != [] {
      var c := rest[0];
      var next := if Named(acc, c.name) then acc else acc + [c];
      MergeIntoExtends(next, rest[1..]);
      var r := MergeInto(next, rest[1..]);
      assert r[..|acc|] == next[..|acc|];
      forall i | |acc| <= i < |r|
        ensures r[i] in rest
      {
        if i >= |next| {
          assert r[i] in rest[1..];
        } else {
          assert r[i] == next[i] == c;
        }
      }
    }
  }

  /** Merging loses no name and brings in no name that was in neither. */
  lemma MergeIntoNames(acc: seq<Color>, rest: seq<Color>)
    ensures forall n :: Named(MergeInto(acc, rest), n) <==> Named(acc, n) || Named(rest, n)
  {
    forall n
      ensures Named(MergeInto(acc, rest), n) <==> Named(acc, n) || Named(rest, n)
    {
      MergeIntoName(acc, rest, n);
    }
  }

  lemma {:induction false} MergeIntoName(acc: seq<Color>, rest: seq<Color>, n: string)
    ensures Named(MergeInto(acc, rest), n) <==> Named(acc, n) || Named(rest, n)
    decreases |rest|
  {
    if rest != [] {
      var c := rest[0];
      var next := if Named(acc, c.name) then acc else acc + [c];
      MergeIntoName(next, rest[1..], n);
      NamedStep(acc, c, next, n);
      NamedTail(rest, n);
    }
  }

  lemma NamedStep(acc: seq<Color>, c: Color, next: seq<Color>, n: string)
    requires next == if Named(acc, c.name) then acc else acc + [c]
    ensures Named(next, n) <==> Named(acc, n) || c.name == n
  {
    if Named(acc, n) {
      var i :| 0 <= i < |acc| && acc[i].name == n;
      assert next[i].name == n;
    }
    if c.name == n && !Named(acc, c.name) {
      assert next[|acc|].name == n;
    }
    if Named(next, n) && !Named(acc, n) {
      var i :| 0 <= i < |next| && next[i].name == n;
      assert i == |acc|;
    }
  }

  lemma NamedTail(rest: seq<Color>, n: string)
    requires rest != []
    ensures Named(rest, n) <==> rest[0].name == n || Named(rest[1..], n)
  {
    if Named(rest, n) && rest[0].name != n {
      var i :| 0 <= i < |rest| && rest[i].name == n;
      assert rest[1..][i - 1].name == n;
    }
    if Named(rest[1..], n) {
      var i :| 0 <= i < |rest[1..]| && rest[1..][i].name == n;
      assert rest[i + 1].name == n;
    }
  }

  /** Merging into a palette of distinct names adds no name twice. */
  lemma {:induction false} MergeIntoDistinct(acc: seq<Color>, rest: seq<Color>)
    ensures DistinctNames(acc) ==> DistinctNames(MergeInto(acc, rest))
    decreases |rest|
  {
    if rest != [] && DistinctNames(acc) {
      var c := rest[0];
      var next := if Named(acc, c.name) then acc else acc + [c];
      if !Named(acc, c.name) {
        assert forall i :: 0 <= i < |acc| ==> next[i] == acc[i];
      }
      MergeIntoDistinct(next, rest[1..]);
    }
  }

  /** One more colour at the end of `rest` is added exactly when its name
      is not in the merge so far. */
  lemma {:induction false} MergeIntoSnoc(acc: seq<Color>, rest: seq<Color>, c: Color)
    ensures MergeInto(acc, rest + [c]) ==
            (var m := MergeInto(acc, rest); if Named(m, c.name) then m else m + [c])
    decreases |rest|
  {
    if rest == [] {
      assert rest + [c] == [c] && [c][1..] == [];
    } else {
      assert (rest + [c])[0] == rest[0] && (rest + [c])[1..] == rest[1..] + [c];
      var next := if Named(acc, rest[0].name) then acc else acc + [rest[0]];
      MergeIntoSnoc(next, rest[1..], c);
    }
  }

  /** Every colour added by the merge has a name not seen before it, so the
      first colour of each name wins. */
  lemma {:induction false} MergeIntoFresh(acc: seq<Color>, rest: seq<Color>)
    ensures var r := MergeInto(acc, rest);
            forall i :: |acc| <= i < |r| ==> !Named(r[..i], r[i].name)
    decreases |rest|
  {
    if rest != [] {
      var c := rest[0];
      var next := if Named(acc, c.name) then acc else acc + [c];
      MergeIntoFresh(next, rest[1..]);
      MergeIntoExtends(next, rest[1..]);
      var r := MergeInto(next, rest[1..]);
      if !Named(acc, c.name) {
        assert r[..|acc|] == next[..|acc|] == acc;
        assert r[|acc|] == next[|acc|] == c;
      }
    }
  }

  /** Merging with one more colour at the end of the second palette adds it
      exactly when its name is not in the merge so far; merging with nothing
      gives the first palette. These determine the order of every merge. */
  lemma MergePalettesSnoc(p1: seq<Color>, p2: seq<Color>, c: Color)
    ensures MergePalettes(Some(p1), Some([])) == p1
    ensures MergePalettes(Some(p1), Some(p2 + [c])) ==
            (var m := MergePalettes(Some(p1), Some(p2)); if Named(m, c.name) then m else m + [c])
  {
    MergeIntoSnoc(p1, p2, c);
  }

  /** The first palette unchanged, then the colours of the second whose
      names have not appeared, in order; a palette that is not an array
      counts as empty. */
  function MergePalettes(p1: Option<seq<Color>>, p2: Option<seq<Color>>): (r: seq<Color>)
    ensures |p1.GetOr([])| <= |r| <= |p1.GetOr([])| + |p2.GetOr([])| && r[..|p1.GetOr([])|] == p1.GetOr([])
    ensures forall i :: |p1.GetOr([])| <= i < |r| ==> r[i] in p2.GetOr([])
    ensures forall n :: Named(r, n) <==> Named(p1.GetOr([]), n) || Named(p2.GetOr([]), n)
    ensures DistinctNames(p1.GetOr([])) ==> DistinctNames(r)
    ensures forall i :: |p1.GetOr([])| <= i < |r| ==> !Named(r[..i], r[i].name)
  {
    MergeIntoFresh(p1.GetOr([]), p2.GetOr([]));
    MergeIntoExtends(p1.GetOr([]), p2.GetOr([]));
    MergeIntoNames(p1.GetOr([]), p2.GetOr([]));
    MergeIntoDistinct(p1.GetOr([]), p2.GetOr([]));
    MergeInto(p1.GetOr([]), p2.GetOr([]))
  }

  function Red(): Color { Color("red", 255, 0, 0) }
  function Blue(): Color { Color("blue", 0, 0, 255) }
  function Green(): Color { Color("green", 0, 255, 0) }
  function Gray(): Color { Color("gray", 100, 100, 100) }

  lemma MixColorsExamples()
    ensures MixColors(Some(Red()), Some(Blue())) == Some(Color("red-blue", 128, 0, 128))
    ensures MixColors(Some(Red()), Some(Green())) == Some(Color("red-green", 128, 128, 0))
    ensures MixColors(None, Some(Blue())) == None && MixColors(Some(Red()), None) == None
  {
    assert "red" + "-" + "blue" == "red-blue";
    assert "red" + "-" + "green" == "red-green";
  }

  lemma AdjustBrightnessExamples()
    ensures AdjustBrightness(Some(Gray()), Some(2.0)) == Some(Color("gray", 200, 200, 200))
    ensures AdjustBrightness(Some(Color("bright", 200, 200, 200)), Some(2.0)) == Some(Color("bright", 255, 255, 255))
    ensures AdjustBrightness(Some(Red()), Some(0.0)) == Some(Color("red", 0, 0, 0))
    ensures AdjustBrightness(Some(Gray()), Some(1.5)).value.name == "gray"
    ensures AdjustBrightness(None, Some(2.0)) == None && AdjustBrightness(Some(Gray()), None) == None
  {
  }

  lemma AddToPaletteExamples()
    ensures AddToPalette(Some([Red()]), Some(Blue())) == [Red(), Blue()]
    ensures AddToPalette(None, Some(Blue())) == [Blue()]
    ensures AddToPalette(Some([Red(), Green()]), None) == [Red(), Green()]
  {
  }

  lemma RemoveFromPaletteExamples()
    ensures RemoveFromPalette(Some([Red(), Green(), Blue()]), "green") == [Red(), Blue()]
    ensures RemoveFromPalette(None, "red") == []
  {
  }

  lemma RemoveAbsentExample()
    ensures RemoveFromPalette(Some([Red(), Blue()]), "yellow") == [Red(), Blue()]
  {
    assert !Named([Red(), Blue()], "yellow");
  }

  lemma MergePalettesExamples()
    ensures MergePalettes(Some([Red(), Green()]), Some([Blue(), Red()])) == [Red(), Green(), Blue()]
    ensures MergePalettes(Some([Red(), Green()]), None) == [Red(), Green()]
    ensures MergePalettes(None, None) == []
  {
    assert !Named([Red(), Green()], "blue");
    assert [Red(), Green(), Blue()][0].name == "red";
  }
}
