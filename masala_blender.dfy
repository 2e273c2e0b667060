/** The masala blender: each processing step returns a copy of the spice
    object with some properties added, and recipes are built by composing
    steps with pipe and compose. */
module MasalaBlender {
  import opened Wrappers
  import opened JsValues
  import opened Pipeline
  import Sequences

  /** `obj` with `key` set and every other property as before. */
  predicate Extends(r: Object, obj: Object, key: string, v: Value) {
    key in r && r[key] == v &&
    r.Keys == obj.Keys + {key} &&
    forall k :: k in obj && k != key ==> r[k] == obj[k]
  }

  /** The spice as powder. */
  function Grind(spice: Object): (r: Object)
    ensures Extends(r, spice, "form", Str("powder"))
  {
    spice["form" := Str("powder")]
  }

  /** The spice roasted, with a strong aroma. */
  function Roast(spice: Object): (r: Object)
    ensures r.Keys == spice.Keys + {"roasted", "aroma"}
    ensures r["roasted"] == Bool(true) && r["aroma"] == Str("strong")
    ensures forall k :: k in spice && k != "roasted" && k != "aroma" ==> r[k] == spice[k]
  {
    spice["roasted" := Bool(true)]["aroma" := Str("strong")]
  }

  /** The spice marked as mixed. */
  function Mix(spice: Object): (r: Object)
    ensures Extends(r, spice, "mixed", Bool(true))
  {
    spice["mixed" := Bool(true)]
  }

  /** The text a template literal makes of the spice's name: the name itself,
      or "undefined" when there is none. */
  function NameText(spice: Object): string {
    if HasString(spice, "name") then spice["name"].s else "undefined"
  }

  /** The spice packed and labelled "<name> Masala". */
  function Pack(spice: Object): (r: Object)
    ensures r.Keys == spice.Keys + {"packed", "label"}
    ensures r["packed"] == Bool(true) && r["label"] == Str(NameText(spice) + " Masala")
    ensures forall k :: k in spice && k != "packed" && k != "label" ==> r[k] == spice[k]
  {
    spice["packed" := Bool(true)]["label" := Str(NameText(spice) + " Masala")]
  }

  /** Every step can be applied twice with no further change. */
  lemma StepsIdempotent(spice: Object)
    ensures Grind(Grind(spice)) == Grind(spice)
    ensures Roast(Roast(spice)) == Roast(spice)
    ensures Mix(Mix(spice)) == Mix(spice)
    ensures Pack(Pack(spice)) == Pack(spice)
  {
    PackTwice(spice);
  }

  lemma PackTwice(spice: Object)
    ensures Pack(Pack(spice)) == Pack(spice)
  {
    assert NameText(spice) == NameText(Pack(spice));
  }

  /** Steps that set different properties can be done in either order. */
  lemma GrindRoastCommute(spice: Object)
    ensures Roast(Grind(spice)) == Grind(Roast(spice))
  {
    var l, r := Roast(Grind(spice)), Grind(Roast(spice));
    assert l.Keys == r.Keys;
    assert forall k :: k in l ==> l[k] == r[k];
  }

  lemma GrindPackCommute(spice: Object)
    ensures Pack(Grind(spice)) == Grind(Pack(spice))
  {
    assert NameText(Grind(spice)) == NameText(spice);
    var l, r := Pack(Grind(spice)), Grind(Pack(spice));
    assert l.Keys == r.Keys;
    assert forall k :: k in l ==> l[k] == r[k];
  }

  lemma RoastPackCommute(spice: Object)
    ensures Pack(Roast(spice)) == Roast(Pack(spice))
  {
    assert NameText(Roast(spice)) == NameText(spice);
    var l, r := Pack(Roast(spice)), Roast(Pack(spice));
    assert l.Keys == r.Keys;
    assert forall k :: k in l ==> l[k] == r[k];
  }

  /** The functions run first to last: with none it is the identity, and
      the last function runs on the result of the others. */
  function Pipe<A(!new)>(fs: seq<A -> A>): (p: A -> A)
    ensures fs == [] ==> forall x :: p(x) == x
    ensures fs != [] ==> forall x :: p(x) == fs[|fs| - 1](ApplyLeft(fs[..|fs| - 1], x))
  {
    LastRunsLast(fs);
    x => ApplyLeft(fs, x)
  }

  lemma LastRunsLast<A>(fs: seq<A -> A>)
    ensures fs != [] ==> forall x :: ApplyLeft(fs, x) == fs[|fs| - 1](ApplyLeft(fs[..|fs| - 1], x))
  {
    if fs != [] {
      assert fs == fs[..|fs| - 1] + [fs[|fs| - 1]];
      forall x ensures ApplyLeft(fs, x) == fs[|fs| - 1](ApplyLeft(fs[..|fs| - 1], x)) {
        ApplyLeftLast(fs[..|fs| - 1], fs[|fs| - 1], x);
      }
    }
  }

  /** The functions run last to first: the pipe of the reversed list. */
  function Compose<A(!new)>(fs: seq<A -> A>): (c: A -> A)
    ensures forall x :: c(x) == ApplyLeft(Sequences.Reverse(fs), x)
  {
    RightIsReversedLeft(fs);
    x => ApplyRight(fs, x)
  }

  lemma RightIsReversedLeft<A>(fs: seq<A -> A>)
    ensures forall x :: ApplyRight(fs, x) == ApplyLeft(Sequences.Reverse(fs), x)
  {
    forall x ensures ApplyRight(fs, x) == ApplyLeft(Sequences.Reverse(fs), x) {
      ApplyRightIsReversedLeft(fs, x);
    }
  }

  /** With no functions both are the identity, and with one function both are
      that function. */
  lemma PipeComposeBase<A(!new)>(f: A -> A, x: A)
    ensures Pipe([])(x) == x && Compose([])(x) == x
    ensures Pipe([f])(x) == f(x) && Compose([f])(x) == f(x)
  {
    assert ApplyLeft([f], x) == ApplyLeft([f][1..], f(x));
    assert ApplyRight([f], x) == f(ApplyRight([f][1..], x));
  }

  /** Piping a longer list is piping its parts one after the other. */
  lemma PipeAppend<A(!new)>(fs: seq<A -> A>, gs: seq<A -> A>, x: A)
    ensures Pipe(fs + gs)(x) == Pipe(gs)(Pipe(fs)(x))
  {
    ApplyLeftAppend(fs, gs, x);
  }

  /** Composing the reversed list is piping the list. */
  lemma ComposeReversedIsPipe<A(!new)>(fs: seq<A -> A>, x: A)
    ensures Compose(Sequences.Reverse(fs))(x) == Pipe(fs)(x)
  {
    ApplyRightIsReversedLeft(Sequences.Reverse(fs), x);
    assert Sequences.Reverse(Sequences.Reverse(fs)) == fs;
  }

  /** The step a recipe name stands for. */
  function Step(name: string): Option<Object -> Object> {
    match name
    case "grind" => Some(Grind)
    case "roast" => Some(Roast)
    case "mix" => Some(Mix)
    case "pack" => Some(Pack)
    case _ => None
  }

  predicate Known(name: string) {
    Step(name).Some?
  }

  /** The steps of the known names, in order. */
  function Steps(names: seq<string>): (r: seq<Object -> Object>)
    ensures |r| <= |names|
  {
    if names == [] then []
    else (match Step(names[0]) case Some(f) => [f] case None => []) + Steps(names[1..])
  }

  /** The pipe of the named steps, skipping unknown names; the identity when
      the steps are not an array. */
  function CreateRecipe(steps: Option<seq<string>>): (recipe: Object -> Object)
    ensures steps.None? ==> forall spice :: recipe(spice) == spice
    ensures steps == Some([]) ==> forall spice :: recipe(spice) == spice
  {
    Pipe(Steps(steps.GetOr([])))
  }

  /** An unknown name contributes nothing. */
  lemma {:induction false} StepsSkipUnknown(names: seq<string>)
    ensures Steps(names) == Steps(Sequences.Filter(names, Known))
  {
    if names != [] {
      var head := if Known(names[0]) then [names[0]] else [];
      StepsSkipUnknown(names[1..]);
      assert Sequences.Filter(names, Known) == head + Sequences.Filter(names[1..], Known);
      StepsAppend(head, Sequences.Filter(names[1..], Known));
      assert Steps(head) == (match Step(names[0]) case Some(f) => [f] case None => []);
    }
  }

  /** A recipe of two lists runs the first list's steps, then the second's. */
  lemma {:induction false} StepsAppend(a: seq<string>, b: seq<string>)
    ensures Steps(a + b) == Steps(a) + Steps(b)
  {
    if a == [] {
      assert a + b == b;
    } else {
      assert (a + b)[1..] == a[1..] + b;
      StepsAppend(a[1..], b);
    }
  }

  /** The recipe of known names runs exactly those steps in order. */
  lemma CreateRecipeRunsSteps(a: seq<string>, b: seq<string>, spice: Object)
    ensures CreateRecipe(Some(a + b))(spice) == CreateRecipe(Some(b))(CreateRecipe(Some(a))(spice))
  {
    StepsAppend(a, b);
    PipeAppend(Steps(a), Steps(b), spice);
  }

  /** A single known name stands for its own step and an unknown one for
      nothing. With StepsAppend this fixes the steps of every list. */
  lemma StepsOfOne(name: string)
    ensures Steps([name]) == (if Known(name) then [Step(name).value] else [])
  {
    assert [name][1..] == [];
  }

  /** The recipe of one name runs that name's step, or leaves the spice as it
      is when the name is unknown. */
  lemma CreateRecipeOfOne(name: string, spice: Object)
    ensures CreateRecipe(Some([name]))(spice) == (if Known(name) then Step(name).value(spice) else spice)
  {
    StepsOfOne(name);
    if Known(name) {
      PipeComposeBase(Step(name).value, spice);
    }
  }

  /** A recipe with one more name runs that name's step last. */
  lemma CreateRecipeSnoc(names: seq<string>, name: string, spice: Object)
    ensures CreateRecipe(Some(names + [name]))(spice) ==
            (var mid := CreateRecipe(Some(names))(spice); if Known(name) then Step(name).value(mid) else mid)
  {
    CreateRecipeRunsSteps(names, [name], spice);
    CreateRecipeOfOne(name, CreateRecipe(Some(names))(spice));
  }

  lemma StepExamples()
    ensures Grind(map["name" := Str("Haldi")]) == map["name" := Str("Haldi"), "form" := Str("powder")]
    ensures Roast(map["name" := Str("Jeera")]) == map["name" := Str("Jeera"), "roasted" := Bool(true), "aroma" := Str("strong")]
    ensures Mix(map["name" := Str("Mix")]) == map["name" := Str("Mix"), "mixed" := Bool(true)]
    ensures Pack(map["name" := Str("Garam")]) == map["name" := Str("Garam"), "packed" := Bool(true), "label" := Str("Garam Masala")]
  {
    assert "Garam" + " Masala" == "Garam Masala";
  }

  function Garam(): Object { map["name" := Str("Garam")] }

  lemma PipeExample()
    ensures Pipe([Grind, Roast, Pack])(Garam()) ==
            map["name" := Str("Garam"), "form" := Str("powder"), "roasted" := Bool(true),
                "aroma" := Str("strong"), "packed" := Bool(true), "label" := Str("Garam Masala")]
  {
    var fs: seq<Object -> Object> := [Grind, Roast, Pack];
    assert ApplyLeft(fs, Garam()) == ApplyLeft(fs[1..], Grind(Garam()));
    assert ApplyLeft(fs[1..], Grind(Garam())) == ApplyLeft(fs[2..], Roast(Grind(Garam())));
    assert ApplyLeft(fs[2..], Roast(Grind(Garam()))) == ApplyLeft(fs[3..], Pack(Roast(Grind(Garam()))));
    assert NameText(Roast(Grind(Garam()))) == "Garam";
    assert "Garam" + " Masala" == "Garam Masala";
  }

  lemma NumberExamples()
    ensures Pipe([(x: int) => x + 1, (x: int) => x * 2])(3) == 8
    ensures Compose([(x: int) => x + 1, (x: int) => x * 2])(3) == 7
  {
    var fs: seq<int -> int> := [(x: int) => x + 1, (x: int) => x * 2];
    assert ApplyLeft(fs, 3) == ApplyLeft(fs[1..], 4);
    assert ApplyLeft(fs[1..], 4) == ApplyLeft(fs[2..], 8);
    assert ApplyRight(fs, 3) == fs[0](ApplyRight(fs[1..], 3));
    assert ApplyRight(fs[1..], 3) == fs[1](ApplyRight(fs[2..], 3));
  }

  /** Piping two functions applies the first, then the second. */
  lemma PipeTwo<A(!new)>(f: A -> A, g: A -> A, x: A)
    ensures Pipe([f, g])(x) == g(f(x))
  {
    var fs := [f, g];
    assert ApplyLeft(fs, x) == ApplyLeft(fs[1..], f(x));
    assert ApplyLeft(fs[1..], f(x)) == ApplyLeft(fs[2..], g(f(x)));
  }

  lemma StepsExample()
    ensures Steps(["grind", "blitz", "pack"]) == [Grind, Pack]
  {
    var names := ["grind", "blitz", "pack"];
    assert Steps(names[2..]) == [Pack];
    assert Steps(names[1..]) == [Pack];
  }

  lemma RecipeExamples()
    ensures CreateRecipe(Some(["grind", "blitz", "pack"]))(map["name" := Str("Haldi")]) ==
            Pack(Grind(map["name" := Str("Haldi")]))
    ensures CreateRecipe(Some([]))(map["name" := Str("Test")]) == map["name" := Str("Test")]
    ensures CreateRecipe(None)(map["name" := Str("Test")]) == map["name" := Str("Test")]
  {
    StepsExample();
    PipeTwo(Grind, Pack, map["name" := Str("Haldi")]);
  }
}
