/** The word games: the ingredient pairs collected from the recipes, the
    ingredient round (which of these belong to the recipe?) and the
    translation round (pick the translation among four), with their scoring. */
module Game {
  import opened Text
  import opened Catalog
  import opened Shuffling
  import opened Scores

  // ---------------------------------------------------------------------
  // Ingredient pairs
  // ---------------------------------------------------------------------

  /** The key `initGameData` files a pair under: `${it}|${pl}`. */
  function PairKey(ing: Ingredient): string
  {
    ing.it + "|" + ing.pl
  }

  /** Pairs whose Italian names hold no `|` have different keys. */
  lemma PairKeyInjective(a: Ingredient, b: Ingredient)
    requires '|' !in a.it && '|' !in b.it
    ensures PairKey(a) == PairKey(b) ==> a == b
  {
    if PairKey(a) == PairKey(b) {
      var s := PairKey(a);
      BarPosition(a);
      BarPosition(b);
      assert |a.it| == |b.it|;
      assert a.it == s[..|a.it|] == b.it;
      assert a.pl == s[|a.it| + 1..] == b.pl;
    }
  }

  /** In the key of a pair whose Italian name holds no `|`, the first `|`
      comes right after that name. */
  lemma BarPosition(a: Ingredient)
    requires '|' !in a.it
    ensures PairKey(a)[|a.it|] == '|'
    ensures forall k :: 0 <= k < |a.it| ==> PairKey(a)[k] != '|'
  {
    forall k | 0 <= k < |a.it|
      ensures PairKey(a)[k] != '|'
    {
      assert PairKey(a)[k] == a.it[k];
    }
  }

  /** With a `|` in a name two different pairs share a key, and the later
      one is dropped. */
  lemma PairKeyCollision()
    ensures Ingredient("a|b", "c") != Ingredient("a", "b|c")
    ensures PairKey(Ingredient("a|b", "c")) == PairKey(Ingredient("a", "b|c"))
  {
  }

  /** Every ingredient of every recipe, recipe by recipe. */
  function AllIngredients(recipes: seq<Recipe>): seq<Ingredient>
  {
    if recipes == [] then []
    else AllIngredients(recipes[..|recipes| - 1]) + recipes[|recipes| - 1].ingredients
  }

  function KeysOf(xs: seq<Ingredient>): set<string>
  {
    set x | x in xs :: PairKey(x)
  }

  lemma KeysOfSnoc(xs: seq<Ingredient>, x: Ingredient)
    ensures KeysOf(xs + [x]) == KeysOf(xs) + {PairKey(x)}
  {
    forall k | k in KeysOf(xs)
      ensures k in KeysOf(xs + [x])
    {
      var y :| y in xs && PairKey(y) == k;
      assert y in xs + [x];
    }
  }

  /** What the `pairs` map of `initGameData` ends up holding, in insertion
      order: a pair is added unless its key is there already. */
  function FirstPerKey(xs: seq<Ingredient>): seq<Ingredient>
  {
    if xs == [] then []
    else
      var kept := FirstPerKey(xs[..|xs| - 1]);
      var x := xs[|xs| - 1];
      if PairKey(x) in KeysOf(kept) then kept else kept + [x]
  }

  /** One more pair is kept exactly when its key is new. */
  lemma FirstPerKeyStep(xs: seq<Ingredient>, x: Ingredient)
    ensures FirstPerKey(xs + [x]) ==
      if PairKey(x) in KeysOf(FirstPerKey(xs)) then FirstPerKey(xs) else FirstPerKey(xs) + [x]
  {
    assert (xs + [x])[..|xs|] == xs;
  }

  /** The position of the first pair with the given key. */
  function FirstIndex(xs: seq<Ingredient>, key: string): (i: nat)
    requires key in KeysOf(xs)
    ensures i < |xs| && PairKey(xs[i]) == key
    ensures forall j :: 0 <= j < i ==> PairKey(xs[j]) != key
  {
    var init := xs[..|xs| - 1];
    if key in KeysOf(init) then
      var i := FirstIndex(init, key);
      assert forall j :: 0 <= j < i ==> xs[j] == init[j];
      i
    else
      assert xs == init + [xs[|xs| - 1]];
      KeysOfSnoc(init, xs[|xs| - 1]);
      assert forall j :: 0 <= j < |init| ==> PairKey(xs[j]) != key by {
        forall j | 0 <= j < |init|
          ensures PairKey(xs[j]) != key
        {
          assert xs[j] == init[j] && init[j] in init;
        }
      }
      |xs| - 1
  }

  /** The kept pairs cover exactly the keys met. */
  lemma {:induction false} FirstPerKeyKeys(xs: seq<Ingredient>)
    ensures KeysOf(FirstPerKey(xs)) == KeysOf(xs)
  {
    if xs != [] {
      var init := xs[..|xs| - 1];
      var x := xs[|xs| - 1];
      FirstPerKeyKeys(init);
      assert xs == init + [x];
      KeysOfSnoc(init, x);
      KeysOfSnoc(FirstPerKey(init), x);
    }
  }

  /** No two pairs share a key. */
  predicate KeysDistinct(r: seq<Ingredient>)
  {
    forall i, j :: 0 <= i < j < |r| ==> PairKey(r[i]) != PairKey(r[j])
  }

  /** No two kept pairs share a key. */
  lemma {:induction false} FirstPerKeyDistinct(xs: seq<Ingredient>)
    ensures KeysDistinct(FirstPerKey(xs))
  {
    if xs != [] {
      var init := xs[..|xs| - 1];
      var x := xs[|xs| - 1];
      var kept := FirstPerKey(init);
      FirstPerKeyDistinct(init);
      if PairKey(x) !in KeysOf(kept) {
        var r := kept + [x];
        assert FirstPerKey(xs) == r;
        forall i, j | 0 <= i < j < |r|
          ensures PairKey(r[i]) != PairKey(r[j])
        {
          assert r[i] == kept[i] && kept[i] in kept;
          if j < |kept| {
            assert r[j] == kept[j];
            assert PairKey(kept[i]) != PairKey(kept[j]);
          } else {
            assert r[j] == x;
            assert PairKey(kept[i]) in KeysOf(kept);
          }
        }
      } else {
        assert FirstPerKey(xs) == kept;
      }
    }
  }

  /** Each pair of `r` is the first pair of `xs` with its key. */
  predicate KeptFirst(xs: seq<Ingredient>, r: seq<Ingredient>)
  {
    forall k :: 0 <= k < |r| ==> PairKey(r[k]) in KeysOf(xs) && r[k] == xs[FirstIndex(xs, PairKey(r[k]))]
  }

  /** The pairs of `r` come in the order their keys are first met in `xs`. */
  predicate KeptInOrder(xs: seq<Ingredient>, r: seq<Ingredient>)
  {
    forall k1, k2 :: 0 <= k1 < k2 < |r| ==>
      PairKey(r[k1]) in KeysOf(xs) && PairKey(r[k2]) in KeysOf(xs) &&
      FirstIndex(xs, PairKey(r[k1])) < FirstIndex(xs, PairKey(r[k2]))
  }

  /** Each kept pair is the first pair met with its key, and the kept pairs
      appear in the order their keys were first met. */
  lemma {:induction false} FirstPerKeyFirst(xs: seq<Ingredient>)
    ensures KeptFirst(xs, FirstPerKey(xs))
    ensures KeptInOrder(xs, FirstPerKey(xs))
  {
    if xs != [] {
      var init := xs[..|xs| - 1];
      var x := xs[|xs| - 1];
      var kept := FirstPerKey(init);
      FirstPerKeyFirst(init);
      FirstPerKeyKeys(init);
      assert xs == init + [x];
      FirstIndexSnoc(init, x);
      if PairKey(x) in KeysOf(kept) {
        KeptCarriesOver(init, x, kept);
      } else {
        KeptCarriesOver(init, x, kept);
        KeptExtends(init, x, kept);
      }
    }
  }

  /** The facts about the kept pairs survive one more pair met. */
  lemma KeptCarriesOver(init: seq<Ingredient>, x: Ingredient, kept: seq<Ingredient>)
    requires KeptFirst(init, kept) && KeptInOrder(init, kept)
    ensures KeptFirst(init + [x], kept) && KeptInOrder(init + [x], kept)
  {
    FirstIndexSnoc(init, x);
    var xs := init + [x];
    forall k | 0 <= k < |kept|
      ensures PairKey(kept[k]) in KeysOf(xs) && kept[k] == xs[FirstIndex(xs, PairKey(kept[k]))]
    {
      assert xs[FirstIndex(init, PairKey(kept[k]))] == init[FirstIndex(init, PairKey(kept[k]))];
    }
  }

  /** A pair with a new key, appended, is the first with its key and comes
      after all the kept ones. */
  lemma KeptExtends(init: seq<Ingredient>, x: Ingredient, kept: seq<Ingredient>)
    requires KeysOf(kept) == KeysOf(init) && PairKey(x) !in KeysOf(init)
    requires KeptFirst(init + [x], kept) && KeptInOrder(init + [x], kept)
    requires forall k :: 0 <= k < |kept| ==> PairKey(kept[k]) in KeysOf(init)
    ensures KeptFirst(init + [x], kept + [x]) && KeptInOrder(init + [x], kept + [x])
  {
    FirstIndexSnoc(init, x);
    var xs := init + [x];
    var r := kept + [x];
    assert xs[|init|] == x;
    forall k | 0 <= k < |kept|
      ensures FirstIndex(xs, PairKey(kept[k])) < |init|
    {
      assert FirstIndex(xs, PairKey(kept[k])) == FirstIndex(init, PairKey(kept[k]));
    }
    forall k | 0 <= k < |r|
      ensures PairKey(r[k]) in KeysOf(xs) && r[k] == xs[FirstIndex(xs, PairKey(r[k]))]
    {
      if k < |kept| {
        assert r[k] == kept[k];
      }
    }
    forall k1, k2 | 0 <= k1 < k2 < |r|
      ensures PairKey(r[k1]) in KeysOf(xs) && PairKey(r[k2]) in KeysOf(xs) &&
        FirstIndex(xs, PairKey(r[k1])) < FirstIndex(xs, PairKey(r[k2]))
    {
      assert r[k1] == kept[k1];
      if k2 < |kept| {
        assert r[k2] == kept[k2];
      }
    }
  }

  /** Adding a pair at the end does not move the first position of a key
      already present, and a new key is first met at the end. */
  lemma FirstIndexSnoc(xs: seq<Ingredient>, x: Ingredient)
    ensures forall key :: key in KeysOf(xs) ==> key in KeysOf(xs + [x]) && FirstIndex(xs + [x], key) == FirstIndex(xs, key)
    ensures PairKey(x) !in KeysOf(xs) ==> PairKey(x) in KeysOf(xs + [x]) && FirstIndex(xs + [x], PairKey(x)) == |xs|
  {
    KeysOfSnoc(xs, x);
    assert (xs + [x])[..|xs|] == xs;
  }

  /** The corresponding statement for the loop's two nesting levels. */
  lemma AllIngredientsSnoc(recipes: seq<Recipe>, i: nat)
    requires i < |recipes|
    ensures AllIngredients(recipes[..i + 1]) == AllIngredients(recipes[..i]) + recipes[i].ingredients
  {
    assert recipes[..i + 1][..i] == recipes[..i];
  }

  /** The game scripts' globals `recipesData` and `ingredientsPairs`. */
  class GameData {
    var recipes: seq<Recipe>
    var pairs: seq<Ingredient>

    constructor()
      ensures recipes == [] && pairs == []
    {
      recipes := [];
      pairs := [];
    }

    /** The inner loop of `initGameData` over one recipe's ingredients:
        a pair is pushed and its key marked seen when the key is new. */
    static method CollectPairs(ghost before: seq<Ingredient>, ings: seq<Ingredient>, values: seq<Ingredient>, seen: set<string>)
      returns (values': seq<Ingredient>, seen': set<string>)
      requires values == FirstPerKey(before) && seen == KeysOf(values)
      ensures values' == FirstPerKey(before + ings) && seen' == KeysOf(values')
    {
      values', seen' := values, seen;
      var j := 0;
      assert before + ings[..j] == before;
      while j < |ings|
        invariant 0 <= j <= |ings|
        invariant values' == FirstPerKey(before + ings[..j])
        invariant seen' == KeysOf(values')
      {
        assert before + ings[..j + 1] == (before + ings[..j]) + [ings[j]];
        FirstPerKeyStep(before + ings[..j], ings[j]);
        var key := PairKey(ings[j]);
        if key !in seen' {
          KeysOfSnoc(values', ings[j]);
          seen' := seen' + {key};
          values' := values' + [ings[j]];
        }
        j := j + 1;
      }
      assert ings[..j] == ings;
    }

    /** `initGameData`: when `window.recipesData` is a list, takes it and
        collects one pair per key from all its ingredients; otherwise keeps
        both globals as they were. */
    method InitGameData(data: RecipesGlobal)
      modifies this
      ensures !data.RecipeList? ==> recipes == old(recipes) && pairs == old(pairs)
      ensures data.RecipeList? ==> recipes == data.recipes && pairs == FirstPerKey(AllIngredients(data.recipes))
    {
      if !data.RecipeList? {
        return;
      }
      var list := data.recipes;
      var seen: set<string> := {};
      var values: seq<Ingredient> := [];
      var i := 0;
      while i < |list|
        invariant 0 <= i <= |list|
        invariant values == FirstPerKey(AllIngredients(list[..i]))
        invariant seen == KeysOf(values)
      {
        values, seen := CollectPairs(AllIngredients(list[..i]), list[i].ingredients, values, seen);
        AllIngredientsSnoc(list, i);
        i := i + 1;
      }
      assert list[..i] == list;
      recipes := list;
      pairs := values;
    }
  }

  // ---------------------------------------------------------------------
  // Ingredient round
  // ---------------------------------------------------------------------

  /** An answer button of the ingredient round. */
  datatype Choice = Choice(text: string, correct: bool)

  /** A generated ingredient round. */
  datatype IngredientRound = IngredientRound(recipe: Recipe, corrects: seq<string>, decoys: seq<string>, options: seq<Choice>)

  /** `recipe.ingredients.map(i => i.it)` */
  function ItalianNames(ings: seq<Ingredient>): seq<string>
  {
    seq(|ings|, i requires 0 <= i < |ings| => ings[i].it)
  }

  /** The Italian names of the candidates that are not among the correct
      names, in candidate order: what the decoy loop could push. */
  function DecoyPool(corrects: seq<string>, candidates: seq<Ingredient>): seq<string>
  {
    if candidates == [] then []
    else
      var last := candidates[|candidates| - 1];
      DecoyPool(corrects, candidates[..|candidates| - 1]) + (if last.it in corrects then [] else [last.it])
  }

  /** Every name in the pool is a candidate's Italian name outside the
      correct ones. */
  lemma {:induction false} DecoyPoolFacts(corrects: seq<string>, candidates: seq<Ingredient>)
    ensures forall d :: d in DecoyPool(corrects, candidates) ==>
      d !in corrects && exists p :: p in candidates && p.it == d
  {
    if candidates != [] {
      var init := candidates[..|candidates| - 1];
      DecoyPoolFacts(corrects, init);
      forall p | p in init
        ensures p in candidates
      {
      }
    }
  }

  /** The pool over a longer prefix of the candidates extends the pool over
      a shorter one. */
  lemma {:induction false} DecoyPoolPrefix(corrects: seq<string>, candidates: seq<Ingredient>, i: nat)
    requires i <= |candidates|
    ensures DecoyPool(corrects, candidates[..i]) <= DecoyPool(corrects, candidates)
    decreases |candidates| - i
  {
    if i < |candidates| {
      DecoyPoolPrefix(corrects, candidates, i + 1);
      assert candidates[..i + 1][..i] == candidates[..i];
    } else {
      assert candidates[..i] == candidates;
    }
  }

  /** The decoy loop: walks the candidates, pushes each Italian name that is
      not a correct one, and stops right after a push that brings the count
      to `limit`. At least one decoy is taken when one exists, even when
      `limit` is below 1; otherwise `limit` of them, or all there are. */
  method PickDecoys(corrects: seq<string>, candidates: seq<Ingredient>, limit: int) returns (decoys: seq<string>)
    ensures var pool := DecoyPool(corrects, candidates);
      decoys == pool[..Min(Max(1, limit), |pool|)]
  {
    decoys := [];
    var i := 0;
    while i < |candidates|
      invariant 0 <= i <= |candidates|
      invariant decoys == DecoyPool(corrects, candidates[..i])
      invariant |decoys| < Max(1, limit)
    {
      assert candidates[..i + 1][..i] == candidates[..i];
      var pair := candidates[i];
      if pair.it !in corrects {
        decoys := decoys + [pair.it];
        if |decoys| >= limit {
          DecoyPoolPrefix(corrects, candidates, i + 1);
          return;
        }
      }
      i := i + 1;
    }
    assert candidates[..i] == candidates;
  }

  /** The options before shuffling: the correct names flagged correct, then
      the decoys flagged wrong. */
  function Flagged(words: seq<string>, correct: bool): seq<Choice>
  {
    seq(|words|, i requires 0 <= i < |words| => Choice(words[i], correct))
  }

  /** An option is flagged correct exactly when its text is one of the
      recipe's Italian ingredient names, provided no decoy is one of them. */
  lemma FlaggedOptions(corrects: seq<string>, decoys: seq<string>)
    requires forall d :: d in decoys ==> d !in corrects
    ensures forall o :: o in Flagged(corrects, true) + Flagged(decoys, false) ==> (o.correct <==> o.text in corrects)
    ensures forall w :: w in corrects ==> Choice(w, true) in Flagged(corrects, true) + Flagged(decoys, false)
    ensures forall w :: w in decoys ==> Choice(w, false) in Flagged(corrects, true) + Flagged(decoys, false)
  {
    var all := Flagged(corrects, true) + Flagged(decoys, false);
    forall o | o in all
      ensures o.correct <==> o.text in corrects
    {
      var k :| 0 <= k < |all| && all[k] == o;
      if k < |corrects| {
        assert o == Choice(corrects[k], true);
      } else {
        assert o == Choice(decoys[k - |corrects|], false);
      }
    }
    forall w | w in corrects
      ensures Choice(w, true) in all
    {
      var k :| 0 <= k < |corrects| && corrects[k] == w;
      assert all[k] == Choice(w, true);
    }
    forall w | w in decoys
      ensures Choice(w, false) in all
    {
      var k :| 0 <= k < |decoys| && decoys[k] == w;
      assert all[|corrects| + k] == Choice(w, false);
    }
  }

  /** `newIngredientRound`: picks a recipe at random (an empty recipe list
      makes it throw: no round), takes its Italian ingredient names as the
      correct ones, draws decoys from shuffled pairs and shuffles the
      options. */
  method NewIngredientRound(recipes: seq<Recipe>, pairs: seq<Ingredient>) returns (round: Option<IngredientRound>)
    ensures recipes == [] <==> round.None?
    ensures round.Some? ==>
      var r := round.value;
      && r.recipe in recipes
      && r.corrects == ItalianNames(r.recipe.ingredients)
      && |r.decoys| <= 5
      && (forall d :: d in r.decoys ==> d !in r.corrects && exists p :: p in pairs && p.it == d)
      && multiset(r.options) == multiset(Flagged(r.corrects, true) + Flagged(r.decoys, false))
      && (forall o :: o in r.options ==> (o.correct <==> o.text in r.corrects))
      && (forall w :: w in r.corrects ==> Choice(w, true) in r.options)
      && (forall w :: w in r.decoys ==> Choice(w, false) in r.options)
  {
    if recipes == [] {
      return None;
    }
    var k :| 0 <= k < |recipes|;
    var recipe := recipes[k];
    var corrects := ItalianNames(recipe.ingredients);
    var candidates := ShuffledCopy(pairs);
    var decoys := PickDecoys(corrects, candidates, Min(5, |pairs| - |corrects|));
    DecoyPoolFacts(corrects, candidates);
    ghost var pool := DecoyPool(corrects, candidates);
    assert forall d :: d in decoys ==> d in pool;
    assert forall p :: p in candidates ==> p in pairs by {
      forall p | p in candidates
        ensures p in pairs
      {
        assert p in multiset(candidates);
      }
    }
    var ordered := Flagged(corrects, true) + Flagged(decoys, false);
    FlaggedOptions(corrects, decoys);
    var options := ShuffledCopy(ordered);
    assert forall o :: o in options <==> o in ordered by {
      forall o
        ensures o in options <==> o in ordered
      {
        assert o in options <==> o in multiset(options);
      }
    }
    round := Some(IngredientRound(recipe, corrects, decoys, options));
  }

  /** An option button and whether it is selected. */
  datatype OptionButton = OptionButton(choice: Choice, selected: bool)

  /** The buttons of a fresh round: none selected. */
  function Buttons(options: seq<Choice>): seq<OptionButton>
  {
    seq(|options|, i requires 0 <= i < |options| => OptionButton(options[i], false))
  }

  /** A click on an option flips its selection. */
  function Toggle(buttons: seq<OptionButton>, k: nat): (r: seq<OptionButton>)
    requires k < |buttons|
  {
    buttons[k := buttons[k].(selected := !buttons[k].selected)]
  }

  /** A point for a button that is both selected and correct. */
  function ButtonPoint(b: OptionButton): nat
  {
    if b.selected && b.choice.correct then 1 else 0
  }

  /** The points of a round: the selected correct options. */
  function RoundPoints(buttons: seq<OptionButton>): nat
  {
    if buttons == [] then 0 else RoundPoints(buttons[..|buttons| - 1]) + ButtonPoint(buttons[|buttons| - 1])
  }

  /** `evaluateIngredientRound`'s counting loop. */
  method CountRoundPoints(buttons: seq<OptionButton>) returns (points: nat)
    ensures points == RoundPoints(buttons)
  {
    points := 0;
    var i := 0;
    while i < |buttons|
      invariant 0 <= i <= |buttons|
      invariant points == RoundPoints(buttons[..i])
    {
      assert buttons[..i + 1][..i] == buttons[..i];
      var selected := buttons[i].selected;
      var correct := buttons[i].choice.correct;
      if selected && correct {
        points := points + 1;
      }
      i := i + 1;
    }
    assert buttons[..i] == buttons;
  }

  /** The number of options flagged correct. */
  function CorrectCount(buttons: seq<OptionButton>): nat
  {
    if buttons == [] then 0
    else CorrectCount(buttons[..|buttons| - 1]) + (if buttons[|buttons| - 1].choice.correct then 1 else 0)
  }

  /** A round scores at most one point per correct option and nothing when
      nothing is selected. */
  lemma {:induction false} RoundPointsBounds(buttons: seq<OptionButton>)
    ensures RoundPoints(buttons) <= CorrectCount(buttons)
    ensures (forall i :: 0 <= i < |buttons| ==> !buttons[i].selected) ==> RoundPoints(buttons) == 0
  {
    if buttons != [] {
      RoundPointsBounds(buttons[..|buttons| - 1]);
    }
  }

  /** Replacing one button changes the points by that button's point only. */
  lemma {:induction false} RoundPointsUpdate(buttons: seq<OptionButton>, k: nat, b: OptionButton)
    requires k < |buttons|
    ensures RoundPoints(buttons[k := b]) == RoundPoints(buttons) - ButtonPoint(buttons[k]) + ButtonPoint(b)
  {
    var n := |buttons| - 1;
    if k < n {
      assert buttons[k := b][..n] == buttons[..n][k := b];
      RoundPointsUpdate(buttons[..n], k, b);
    } else {
      assert buttons[k := b][..n] == buttons[..n];
    }
  }

  /** Selecting a wrong option costs nothing, and selecting a correct one
      that was not selected gains exactly one point. */
  lemma SelectionEffect(buttons: seq<OptionButton>, k: nat)
    requires k < |buttons|
    ensures !buttons[k].choice.correct ==> RoundPoints(Toggle(buttons, k)) == RoundPoints(buttons)
    ensures buttons[k].choice.correct && !buttons[k].selected ==> RoundPoints(Toggle(buttons, k)) == RoundPoints(buttons) + 1
  {
    RoundPointsUpdate(buttons, k, buttons[k].(selected := !buttons[k].selected));
  }

  /** `evaluateIngredientRound`: counts the points and hands them to
      `addPoints`. */
  method EvaluateIngredientRound(buttons: seq<OptionButton>, store: ScoreStore, currentPlayer: Option<string>) returns (points: nat)
    modifies store
    ensures points == RoundPoints(buttons)
    ensures currentPlayer == None || currentPlayer == Some("") ==> store.stored == old(store.stored)
    ensures currentPlayer.Some? && currentPlayer.value != "" ==>
      store.stored == StoredAfterAdd(old(store.stored), currentPlayer.value, points)
  {
    points := CountRoundPoints(buttons);
    store.AddPoints(currentPlayer, points);
  }

  // ---------------------------------------------------------------------
  // Translation round
  // ---------------------------------------------------------------------

  /** Italian to Polish (`it2pl`) or Polish to Italian (`pl2it`). */
  datatype Direction = ItToPl | PlToIt

  /** The word of a pair that answers in the given direction. */
  function AnswerSide(p: Ingredient, d: Direction): string
  {
    if d == ItToPl then p.pl else p.it
  }

  /** The word of a pair that is asked in the given direction. */
  function QuestionSide(p: Ingredient, d: Direction): string
  {
    if d == ItToPl then p.it else p.pl
  }

  function InstructionText(d: Direction): string
  {
    if d == ItToPl then "Przetłumacz na polski:" else "Przetłumacz na włoski:"
  }

  /** A generated translation round. */
  datatype TranslationRound = TranslationRound(
    pair: Ingredient, direction: Direction, question: string, instruction: string,
    correct: string, answers: seq<string>)

  /** Every answer after the first is the answer-side word of a candidate. */
  predicate DrawnFrom(answers: seq<string>, candidates: seq<Ingredient>, d: Direction)
  {
    forall k :: 1 <= k < |answers| ==> exists p :: p in candidates && AnswerSide(p, d) == answers[k]
  }

  /** The answer loop: starts from the correct answer, appends the answer-side
      word of each candidate not yet present, and stops as soon as there are
      four. The answers start with the correct one, have no repeats, number
      one to four, come from the candidates, and fall short of four only when
      every candidate's word is already among them. */
  method PickAnswers(correct: string, candidates: seq<Ingredient>, d: Direction) returns (answers: seq<string>)
    ensures 1 <= |answers| <= 4 && answers[0] == correct
    ensures NoRepeats(answers)
    ensures DrawnFrom(answers, candidates, d)
    ensures |answers| < 4 ==> forall p :: p in candidates ==> AnswerSide(p, d) in answers
  {
    answers := [correct];
    var i := 0;
    while i < |candidates|
      invariant 0 <= i <= |candidates|
      invariant 1 <= |answers| < 4 && answers[0] == correct
      invariant NoRepeats(answers)
      invariant DrawnFrom(answers, candidates, d)
      invariant forall j :: 0 <= j < i ==> AnswerSide(candidates[j], d) in answers
    {
      var candidate := AnswerSide(candidates[i], d);
      ghost var before := answers;
      if candidate != correct && candidate !in answers {
        NoRepeatsSnoc(answers, candidate);
        answers := answers + [candidate];
        forall k | 1 <= k < |answers|
          ensures exists p :: p in candidates && AnswerSide(p, d) == answers[k]
        {
          if k == |before| {
            assert candidates[i] in candidates;
          } else {
            assert answers[k] == before[k];
          }
        }
      }
      assert forall x :: x in before ==> x in answers;
      if |answers| >= 4 {
        break;
      }
      i := i + 1;
    }
  }

  /** `newTranslationRound`: picks a pair and a direction at random (an
      empty pair list makes it throw: no round), asks one word of the pair
      and expects the other, builds the answers from shuffled pairs and
      shuffles them. The answers are distinct, hold the correct one, number
      at most four, are all words of the pairs on the answer side, and fall
      short of four only when they are all such words there are. */
  method NewTranslationRound(pairs: seq<Ingredient>) returns (round: Option<TranslationRound>)
    ensures pairs == [] <==> round.None?
    ensures round.Some? ==>
      var r := round.value;
      && r.pair in pairs
      && r.question == QuestionSide(r.pair, r.direction)
      && r.correct == AnswerSide(r.pair, r.direction)
      && r.instruction == InstructionText(r.direction)
      && r.correct in r.answers
      && NoDuplicates(r.answers)
      && 1 <= |r.answers| <= 4
      && (forall a :: a in r.answers ==> exists p :: p in pairs && AnswerSide(p, r.direction) == a)
      && (|r.answers| < 4 ==> forall p :: p in pairs ==> AnswerSide(p, r.direction) in r.answers)
  {
    if pairs == [] {
      return None;
    }
    var k :| 0 <= k < |pairs|;
    var pair := pairs[k];
    var direction :| direction == ItToPl || direction == PlToIt;
    var question := QuestionSide(pair, direction);
    var correct := AnswerSide(pair, direction);
    var candidates := ShuffledCopy(pairs);
    assert forall p :: p in candidates <==> p in pairs by {
      forall p
        ensures p in candidates <==> p in pairs
      {
        assert p in candidates <==> p in multiset(candidates);
      }
    }
    var drawn := PickAnswers(correct, candidates, direction);
    var answers := ShuffledCopy(drawn);
    NoRepeatsPermutation(drawn, answers);
    forall i, j | 0 <= i < j < |answers|
      ensures answers[i] != answers[j]
    {
      NoRepeatsDistinct(answers, i, j);
    }
    forall a | a in answers
      ensures exists p :: p in pairs && AnswerSide(p, direction) == a
    {
      var k :| 0 <= k < |drawn| && drawn[k] == a;
      if k == 0 {
        assert AnswerSide(pair, direction) == a;
      }
    }
    round := Some(TranslationRound(pair, direction, question, InstructionText(direction), correct, answers));
  }

  /** The points for an answer: 1 for the correct one, 0 otherwise. */
  function AnswerPoints(chosen: string, correct: string): nat
  {
    if chosen == correct then 1 else 0
  }

  /** With distinct answers that hold the correct one, exactly one answer
      scores. */
  lemma ExactlyOneAnswerScores(answers: seq<string>, correct: string)
    requires NoDuplicates(answers) && correct in answers
    ensures exists i :: 0 <= i < |answers| && AnswerPoints(answers[i], correct) == 1 &&
              forall j :: 0 <= j < |answers| && j != i ==> AnswerPoints(answers[j], correct) == 0
  {
    var i :| 0 <= i < |answers| && answers[i] == correct;
    forall j | 0 <= j < |answers| && j != i
      ensures AnswerPoints(answers[j], correct) == 0
    {
      if j < i {
        assert answers[j] != answers[i];
      } else {
        assert answers[i] != answers[j];
      }
    }
  }

  /** `evaluateTranslationAnswer`: one point for the correct answer, none
      otherwise, handed to `addPoints`. */
  method EvaluateTranslationAnswer(chosen: string, correct: string, store: ScoreStore, currentPlayer: Option<string>)
    returns (points: nat)
    modifies store
    ensures points == AnswerPoints(chosen, correct)
    ensures currentPlayer == None || currentPlayer == Some("") ==> store.stored == old(store.stored)
    ensures currentPlayer.Some? && currentPlayer.value != "" ==>
      store.stored == StoredAfterAdd(old(store.stored), currentPlayer.value, points)
  {
    points := 0;
    if chosen == correct {
      points := 1;
    }
    store.AddPoints(currentPlayer, points);
  }
}
