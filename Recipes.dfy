/** The recipes page: choosing the Italian voice for pronunciation, and the
    listing, which filters the recipes by search text and category, groups
    them by category in a fixed order and gives each a preparation
    description. */
module RecipeBook {
  import opened Text
  import opened Catalog

  // ---------------------------------------------------------------------
  // Voice choice
  // ---------------------------------------------------------------------

  /** A speech-synthesis voice; a missing name or language is the empty text
      (`v.lang || ''`). */
  datatype Voice = Voice(name: string, lang: string)

  /** The preferred names, best first. */
  const PreferNames: seq<string> := ["Siri", "Enhanced", "Federica", "Alice", "Luca", "Silvia", "Paolo"]

  /** The rank given to a voice whose name holds none of the preferred names. */
  const NoPreference: nat := 999

  /** A voice whose lower-cased language starts with "it". */
  predicate IsItalian(v: Voice)
  {
    StartsWith(Lower(v.lang), "it")
  }

  /** `preferNames.findIndex(name => voiceName.includes(name))`, as a position. */
  function FindPreferred(voiceName: string, names: seq<string>): (r: Option<nat>)
    ensures r.Some? ==> r.value < |names| && Includes(voiceName, names[r.value])
    ensures r.Some? ==> forall j :: 0 <= j < r.value ==> !Includes(voiceName, names[j])
    ensures r.None? ==> forall j :: 0 <= j < |names| ==> !Includes(voiceName, names[j])
  {
    if names == [] then None
    else if Contains(voiceName, names[0]) then Some(0)
    else match FindPreferred(voiceName, names[1..])
      case None => None
      case Some(i) => Some(i + 1)
  }

  /** The sort key of the comparator: the position of the first preferred
      name the voice's name holds, or 999. */
  function Rank(v: Voice): nat
  {
    match FindPreferred(v.name, PreferNames)
    case Some(i) => i
    case None => NoPreference
  }

  /** `voices.filter(...)`: the Italian voices in their order. */
  function ItalianVoices(voices: seq<Voice>): seq<Voice>
  {
    if voices == [] then []
    else (if IsItalian(voices[0]) then [voices[0]] else []) + ItalianVoices(voices[1..])
  }

  /** The first element of a list after a stable sort by rank: the first
      voice of least rank. */
  function FirstOfLeastRank(vs: seq<Voice>): Voice
    requires vs != []
  {
    if |vs| == 1 then vs[0]
    else
      var rest := FirstOfLeastRank(vs[1..]);
      if Rank(vs[0]) <= Rank(rest) then vs[0] else rest
  }

  /** `bestItalianVoice`: no voice when none is Italian; otherwise the
      first of the Italian voices once they are sorted by rank. */
  function BestItalianVoice(voices: seq<Voice>): Option<Voice>
  {
    var it := ItalianVoices(voices);
    if it == [] then None else Some(FirstOfLeastRank(it))
  }

  lemma {:induction false} ItalianVoicesFacts(voices: seq<Voice>)
    ensures forall v :: v in ItalianVoices(voices) <==> v in voices && IsItalian(v)
  {
    if voices != [] {
      ItalianVoicesFacts(voices[1..]);
      assert forall v :: v in voices <==> v == voices[0] || v in voices[1..];
    }
  }

  /** The first voice of least rank is in the list and has the least rank. */
  lemma {:induction false} FirstOfLeastRankLeast(vs: seq<Voice>)
    requires vs != []
    ensures FirstOfLeastRank(vs) in vs
    ensures forall w :: w in vs ==> Rank(FirstOfLeastRank(vs)) <= Rank(w)
  {
    if |vs| > 1 {
      FirstOfLeastRankLeast(vs[1..]);
      assert forall w :: w in vs ==> w == vs[0] || w in vs[1..];
    }
  }

  /** The position of the first voice of least rank: every voice before it
      ranks strictly worse. */
  lemma {:induction false} FirstOfLeastRankIndex(vs: seq<Voice>) returns (i: nat)
    requires vs != []
    ensures i < |vs| && vs[i] == FirstOfLeastRank(vs)
    ensures forall j :: 0 <= j < i ==> Rank(vs[j]) > Rank(vs[i])
  {
    if |vs| == 1 {
      i := 0;
    } else {
      var rest := FirstOfLeastRank(vs[1..]);
      if Rank(vs[0]) <= Rank(rest) {
        i := 0;
      } else {
        var i1 := FirstOfLeastRankIndex(vs[1..]);
        i := i1 + 1;
        forall j | 0 <= j < i
          ensures Rank(vs[j]) > Rank(vs[i])
        {
          if j > 0 {
            assert vs[j] == vs[1..][j - 1];
          }
        }
      }
    }
  }

  /** Where the m-th Italian voice sits in the list: the Italian voices
      before it there are the first m. */
  lemma {:induction false} ItalianVoiceSource(voices: seq<Voice>, m: nat) returns (k: nat)
    requires m < |ItalianVoices(voices)|
    ensures k < |voices| && voices[k] == ItalianVoices(voices)[m]
    ensures ItalianVoices(voices[..k]) == ItalianVoices(voices)[..m]
  {
    var head := if IsItalian(voices[0]) then [voices[0]] else [];
    assert ItalianVoices(voices) == head + ItalianVoices(voices[1..]);
    if IsItalian(voices[0]) && m == 0 {
      k := 0;
      assert voices[..0] == [];
    } else {
      var k1 := ItalianVoiceSource(voices[1..], m - |head|);
      k := k1 + 1;
      assert voices[..k][1..] == voices[1..][..k1];
      assert voices[..k][0] == voices[0];
      assert ItalianVoices(voices[..k]) == head + ItalianVoices(voices[1..][..k1]);
      assert ItalianVoices(voices)[..m] == head + ItalianVoices(voices[1..])[..m - |head|];
    }
  }

  /** `bestItalianVoice` finds nothing exactly when no voice is Italian; what
      it finds is an Italian voice of the list of least rank among the
      Italian voices, and no Italian voice before it in the list has the
      same rank (the sort is stable). */
  lemma BestItalianVoiceSpec(voices: seq<Voice>)
    ensures BestItalianVoice(voices).None? <==> forall v :: v in voices ==> !IsItalian(v)
    ensures BestItalianVoice(voices).Some? ==>
      var b := BestItalianVoice(voices).value;
      && b in voices && IsItalian(b)
      && (forall w :: w in voices && IsItalian(w) ==> Rank(b) <= Rank(w))
      && exists k :: 0 <= k < |voices| && voices[k] == b &&
           forall j :: 0 <= j < k && IsItalian(voices[j]) ==> Rank(voices[j]) > Rank(b)
  {
    ItalianVoicesFacts(voices);
    var it := ItalianVoices(voices);
    if it == [] {
      assert forall v :: v in voices ==> !IsItalian(v);
    } else {
      assert it[0] in it;
      FirstOfLeastRankLeast(it);
      var b := FirstOfLeastRank(it);
      var m := FirstOfLeastRankIndex(it);
      var k := ItalianVoiceSource(voices, m);
      ItalianVoicesFacts(voices[..k]);
      forall j | 0 <= j < k && IsItalian(voices[j])
        ensures Rank(voices[j]) > Rank(b)
      {
        assert voices[j] == voices[..k][j];
        assert voices[j] in ItalianVoices(voices[..k]);
      }
    }
  }

  /** Voice i is the first of the list with that name. */
  predicate FirstNamed(voices: seq<Voice>, name: string, i: int)
  {
    0 <= i < |voices| && voices[i].name == name && forall j :: 0 <= j < i ==> voices[j].name != name
  }

  /** `voices.find(v => v.name === name)`: the first voice with the name. */
  function FindByName(voices: seq<Voice>, name: string): (r: Option<Voice>)
    ensures r.Some? ==> exists i :: FirstNamed(voices, name, i) && voices[i] == r.value
    ensures r.None? ==> forall v :: v in voices ==> v.name != name
  {
    if voices == [] then None
    else if voices[0].name == name then Some(voices[0])
    else FindByName(voices[1..], name)
  }

  /** The choice `selectVoice` makes from a non-empty voice list: the voice
      named as the saved one if there is a saved name and such a voice,
      otherwise `bestItalianVoice`. */
  function ChooseVoice(voices: seq<Voice>, savedName: Option<string>): Option<Voice>
  {
    var saved := if savedName.Some? && savedName.value != "" then FindByName(voices, savedName.value) else None;
    if saved.Some? then saved else BestItalianVoice(voices)
  }

  /** A saved name that some voice carries wins over the ranking, and picks
      the first voice with that name; without one the ranking decides. */
  lemma SavedVoiceOverrides(voices: seq<Voice>, savedName: Option<string>)
    ensures savedName.Some? && savedName.value != "" && (exists v :: v in voices && v.name == savedName.value) ==>
      exists i :: FirstNamed(voices, savedName.value, i) && ChooseVoice(voices, savedName) == Some(voices[i])
    ensures (savedName.None? || savedName.value == "" || forall v :: v in voices ==> v.name != savedName.value) ==>
      ChooseVoice(voices, savedName) == BestItalianVoice(voices)
  {
    if savedName.Some? && savedName.value != "" && (exists v :: v in voices && v.name == savedName.value) {
      var found := FindByName(voices, savedName.value);
      assert found.Some?;
    }
  }

  /** What `loadItalianVoice` does at once: hand a voice (or none) to the
      callback, or wait for the `voiceschanged` event. */
  datatype VoiceLoad = Delivered(voice: Option<Voice>) | Waiting

  /** The page's `ITALIAN_VOICE`, the `bella_it_voice` entry of local
      storage, and whether the `voiceschanged` handler is installed. */
  class VoiceSelector {
    var italianVoice: Option<Voice>
    var savedName: Option<string>
    var waitingForVoices: bool

    constructor(saved: Option<string>)
      ensures italianVoice == None && savedName == saved && !waitingForVoices
    {
      italianVoice := None;
      savedName := saved;
      waitingForVoices := false;
    }

    /** `selectVoice`: with no voices the callback gets nothing and nothing
        changes; otherwise the chosen voice is kept as `ITALIAN_VOICE`, its
        name is saved when there is one, and it goes to the callback. */
    method SelectVoice(voices: seq<Voice>) returns (delivered: Option<Voice>)
      modifies this
      ensures waitingForVoices == old(waitingForVoices)
      ensures voices == [] ==> delivered == None && italianVoice == old(italianVoice) && savedName == old(savedName)
      ensures voices != [] ==>
        && delivered == ChooseVoice(voices, old(savedName))
        && italianVoice == delivered
        && savedName == (if delivered.Some? then Some(delivered.value.name) else old(savedName))
    {
      if voices == [] {
        return None;
      }
      var chosen: Option<Voice> := None;
      if savedName.Some? && savedName.value != "" {
        chosen := FindByName(voices, savedName.value);
      }
      if chosen.None? {
        chosen := BestItalianVoice(voices);
      }
      italianVoice := chosen;
      if chosen.Some? {
        savedName := Some(chosen.value.name);
      }
      delivered := chosen;
    }

    /** `loadItalianVoice`: without speech synthesis the callback gets
        nothing; with voices already listed one is selected now; otherwise
        the handler is installed and selection waits for the event. */
    method LoadItalianVoice(hasSpeech: bool, voicesNow: seq<Voice>) returns (outcome: VoiceLoad)
      modifies this
      ensures !hasSpeech ==>
        outcome == Delivered(None) && italianVoice == old(italianVoice)
        && savedName == old(savedName) && waitingForVoices == old(waitingForVoices)
      ensures hasSpeech && voicesNow != [] ==>
        outcome == Delivered(ChooseVoice(voicesNow, old(savedName))) && italianVoice == outcome.voice
        && waitingForVoices == old(waitingForVoices)
      ensures hasSpeech && voicesNow == [] ==>
        outcome == Waiting && waitingForVoices && italianVoice == old(italianVoice) && savedName == old(savedName)
    {
      if !hasSpeech {
        return Delivered(None);
      }
      if voicesNow != [] {
        var v := SelectVoice(voicesNow);
        return Delivered(v);
      }
      waitingForVoices := true;
      return Waiting;
    }

    /** The `voiceschanged` handler: selects from the voices listed then. */
    method OnVoicesChanged(voices: seq<Voice>) returns (delivered: Option<Voice>)
      requires waitingForVoices
      modifies this
      ensures voices == [] ==> delivered == None && italianVoice == old(italianVoice)
      ensures voices != [] ==> delivered == ChooseVoice(voices, old(savedName)) && italianVoice == delivered
    {
      delivered := SelectVoice(voices);
    }
  }

  // ---------------------------------------------------------------------
  // Listing
  // ---------------------------------------------------------------------

  /** The search text as the page reads it: lower-cased, then trimmed. */
  function SearchText(input: string): string
  {
    Trim(Lower(input))
  }

  /** The category filter: its value, or "all" when empty. */
  function CategoryFilter(value: string): string
  {
    if value == "" then "all" else value
  }

  /** The filter's test for one recipe. */
  predicate Matches(r: Recipe, searchText: string, category: string)
  {
    (Contains(Lower(r.italianName), searchText) || Contains(Lower(r.polishName), searchText))
    && (category == "all" || r.category == category)
  }

  /** `allRecipes.filter(...)`, in order. */
  function Filtered(recipes: seq<Recipe>, searchText: string, category: string): seq<Recipe>
  {
    if recipes == [] then []
    else
      var init := Filtered(recipes[..|recipes| - 1], searchText, category);
      var last := recipes[|recipes| - 1];
      if Matches(last, searchText, category) then init + [last] else init
  }

  /** A recipe is kept exactly when it passes the test. */
  lemma {:induction false} FilteredMembers(recipes: seq<Recipe>, searchText: string, category: string)
    ensures forall r :: r in Filtered(recipes, searchText, category) <==> r in recipes && Matches(r, searchText, category)
  {
    if recipes != [] {
      var init := recipes[..|recipes| - 1];
      FilteredMembers(init, searchText, category);
      assert recipes == init + [recipes[|recipes| - 1]];
    }
  }

  /** The empty search text matches every name, so with "all" nothing is
      filtered out. */
  lemma {:induction false} EmptySearchKeepsAll(recipes: seq<Recipe>)
    ensures Filtered(recipes, "", "all") == recipes
  {
    if recipes != [] {
      var init := recipes[..|recipes| - 1];
      EmptySearchKeepsAll(init);
      var name := Lower(recipes[|recipes| - 1].italianName);
      assert OccursAt(name, "", 0);
      assert recipes == init + [recipes[|recipes| - 1]];
    }
  }

  /** The recipes of one category, in order. */
  function OfCategory(recipes: seq<Recipe>, cat: string): seq<Recipe>
  {
    if recipes == [] then []
    else
      var init := OfCategory(recipes[..|recipes| - 1], cat);
      var last := recipes[|recipes| - 1];
      if last.category == cat then init + [last] else init
  }

  lemma {:induction false} OfCategoryMembers(recipes: seq<Recipe>, cat: string)
    ensures forall r :: r in OfCategory(recipes, cat) <==> r in recipes && r.category == cat
  {
    if recipes != [] {
      var init := recipes[..|recipes| - 1];
      OfCategoryMembers(init, cat);
      assert recipes == init + [recipes[|recipes| - 1]];
    }
  }

  function CategoriesOf(recipes: seq<Recipe>): set<string>
  {
    set r | r in recipes :: r.category
  }

  /** A category no recipe has gets no recipes. */
  lemma {:induction false} OfCategoryNone(recipes: seq<Recipe>, cat: string)
    requires cat !in CategoriesOf(recipes)
    ensures OfCategory(recipes, cat) == []
  {
    if recipes != [] {
      var init := recipes[..|recipes| - 1];
      assert recipes[|recipes| - 1] in recipes;
      assert cat !in CategoriesOf(init) by {
        assert forall r :: r in init ==> r in recipes;
      }
      OfCategoryNone(init, cat);
    }
  }

  /** One recipe pushed onto its category's group keeps the groups those of
      the recipes seen so far. */
  lemma GroupStep(prefix: seq<Recipe>, rec: Recipe, grouped: map<string, seq<Recipe>>)
    requires grouped.Keys == CategoriesOf(prefix)
    requires forall c :: c in grouped ==> grouped[c] == OfCategory(prefix, c) && grouped[c] != []
    ensures var g := grouped[rec.category := (if rec.category in grouped then grouped[rec.category] else []) + [rec]];
      && g.Keys == CategoriesOf(prefix + [rec])
      && forall c :: c in g ==> g[c] == OfCategory(prefix + [rec], c) && g[c] != []
  {
    var all := prefix + [rec];
    assert all[..|all| - 1] == prefix;
    assert CategoriesOf(all) == CategoriesOf(prefix) + {rec.category} by {
      forall c | c in CategoriesOf(prefix)
        ensures c in CategoriesOf(all)
      {
        var r :| r in prefix && r.category == c;
        assert r in all;
      }
    }
    if rec.category !in grouped {
      OfCategoryNone(prefix, rec.category);
    }
  }

  /** The grouping loop: `grouped[cat]` gets each recipe of that category
      pushed, in order; a category gets an entry with its first recipe. */
  method GroupByCategory(filtered: seq<Recipe>) returns (grouped: map<string, seq<Recipe>>)
    ensures grouped.Keys == CategoriesOf(filtered)
    ensures forall c :: c in grouped ==> grouped[c] == OfCategory(filtered, c) && grouped[c] != []
  {
    grouped := map[];
    var i := 0;
    while i < |filtered|
      invariant 0 <= i <= |filtered|
      invariant grouped.Keys == CategoriesOf(filtered[..i])
      invariant forall c :: c in grouped ==> grouped[c] == OfCategory(filtered[..i], c) && grouped[c] != []
      invariant forall c :: c !in grouped ==> OfCategory(filtered[..i], c) == []
    {
      var rec := filtered[i];
      assert filtered[..i + 1] == filtered[..i] + [rec];
      GroupStep(filtered[..i], rec, grouped);
      var cat := rec.category;
      if cat !in grouped {
        grouped := grouped[cat := []];
      }
      grouped := grouped[cat := grouped[cat] + [rec]];
      i := i + 1;
    }
    assert filtered[..i] == filtered;
  }

  /** `Object.keys(categoryLabels)`: the order of the sections. */
  const CategoryOrder: seq<string> := ["pasta", "risotto", "zupa", "mięso", "ryby", "przystawka", "deser"]

  /** The position of a category in that order, 7 for any other. */
  function CategoryRank(cat: string): nat
  {
    if cat == "pasta" then 0 else if cat == "risotto" then 1 else if cat == "zupa" then 2
    else if cat == "mięso" then 3 else if cat == "ryby" then 4 else if cat == "przystawka" then 5
    else if cat == "deser" then 6 else 7
  }

  lemma CategoryRankAt(k: nat)
    requires k < |CategoryOrder|
    ensures CategoryRank(CategoryOrder[k]) == k
  {
  }

  /** One category section of the listing. */
  datatype Section = Section(category: string, recipes: seq<Recipe>)

  /** The sections for the categories of the order from position k on that
      have recipes. */
  function SectionsFrom(grouped: map<string, seq<Recipe>>, k: nat): seq<Section>
    requires k <= |CategoryOrder|
    decreases |CategoryOrder| - k
  {
    if k == |CategoryOrder| then []
    else
      var cat := CategoryOrder[k];
      (if cat in grouped && grouped[cat] != [] then [Section(cat, grouped[cat])] else []) + SectionsFrom(grouped, k + 1)
  }

  /** Each section's category comes from position k on of the order and it
      holds that category's grouped recipes, which are not none. */
  predicate SectionsOfGroups(ss: seq<Section>, grouped: map<string, seq<Recipe>>, k: nat)
  {
    forall i :: 0 <= i < |ss| ==>
      && k <= CategoryRank(ss[i].category) < |CategoryOrder| && ss[i].category in CategoryOrder
      && ss[i].category in grouped && ss[i].recipes == grouped[ss[i].category] && ss[i].recipes != []
  }

  /** The sections' categories strictly follow the order. */
  predicate SectionsInOrder(ss: seq<Section>)
  {
    forall i, j :: 0 <= i < j < |ss| ==> CategoryRank(ss[i].category) < CategoryRank(ss[j].category)
  }

  /** Every category from position k on of the order that has recipes has a
      section. */
  predicate SectionsComplete(ss: seq<Section>, grouped: map<string, seq<Recipe>>, k: nat)
  {
    forall c :: c in grouped && grouped[c] != [] && k <= |CategoryOrder| && c in CategoryOrder[k..] ==>
      exists i :: 0 <= i < |ss| && ss[i].category == c
  }

  /** One step of `SectionsFrom`: the section of position k, if any, in
      front of the later ones. */
  lemma SectionsFromStep(grouped: map<string, seq<Recipe>>, k: nat)
    requires k < |CategoryOrder|
    ensures var cat := CategoryOrder[k];
      var head := if cat in grouped && grouped[cat] != [] then [Section(cat, grouped[cat])] else [];
      && SectionsFrom(grouped, k) == head + SectionsFrom(grouped, k + 1)
      && CategoryRank(cat) == k
  {
    CategoryRankAt(k);
  }

  lemma {:induction false} SectionsFromGroups(grouped: map<string, seq<Recipe>>, k: nat)
    requires k <= |CategoryOrder|
    ensures SectionsOfGroups(SectionsFrom(grouped, k), grouped, k)
    decreases |CategoryOrder| - k
  {
    if k < |CategoryOrder| {
      SectionsFromGroups(grouped, k + 1);
      SectionsFromStep(grouped, k);
    }
  }

  lemma {:induction false} SectionsFromInOrder(grouped: map<string, seq<Recipe>>, k: nat)
    requires k <= |CategoryOrder|
    ensures SectionsInOrder(SectionsFrom(grouped, k))
    decreases |CategoryOrder| - k
  {
    if k < |CategoryOrder| {
      SectionsFromInOrder(grouped, k + 1);
      SectionsFromGroups(grouped, k + 1);
      SectionsFromStep(grouped, k);
    }
  }

  lemma {:induction false} SectionsFromComplete(grouped: map<string, seq<Recipe>>, k: nat)
    requires k <= |CategoryOrder|
    ensures SectionsComplete(SectionsFrom(grouped, k), grouped, k)
    decreases |CategoryOrder| - k
  {
    if k < |CategoryOrder| {
      SectionsFromComplete(grouped, k + 1);
      SectionsFromStep(grouped, k);
      var cat := CategoryOrder[k];
      var rest := SectionsFrom(grouped, k + 1);
      var ss := SectionsFrom(grouped, k);
      var h := |ss| - |rest|;
      assert forall i :: 0 <= i < |rest| ==> ss[h + i] == rest[i];
      forall c | c in grouped && grouped[c] != [] && c in CategoryOrder[k..]
        ensures exists i :: 0 <= i < |ss| && ss[i].category == c
      {
        if c == cat {
          assert ss[0].category == c;
        } else {
          assert c in CategoryOrder[k + 1..];
          var i :| 0 <= i < |rest| && rest[i].category == c;
          assert ss[h + i].category == c;
        }
      }
    }
  }

  /** The groups the listing is made from. */
  function Groups(filtered: seq<Recipe>): map<string, seq<Recipe>>
  {
    map c | c in CategoriesOf(filtered) :: OfCategory(filtered, c)
  }

  /** The listing `displayRecipes` produces: the filtered recipes grouped,
      one section per category of the fixed order that has recipes. */
  function Listing(recipes: seq<Recipe>, searchInput: string, categoryValue: string): seq<Section>
  {
    SectionsFrom(Groups(Filtered(recipes, SearchText(searchInput), CategoryFilter(categoryValue))), 0)
  }

  /** Whether a recipe is in one of the sections. */
  predicate Listed(ss: seq<Section>, r: Recipe)
  {
    exists i :: 0 <= i < |ss| && r in ss[i].recipes
  }

  /** Sections follow the fixed category order and each holds its
      category's filtered recipes in their order. */
  lemma ListingOrder(recipes: seq<Recipe>, searchInput: string, categoryValue: string)
    ensures SectionsInOrder(Listing(recipes, searchInput, categoryValue))
    ensures forall i :: 0 <= i < |Listing(recipes, searchInput, categoryValue)| ==>
      Listing(recipes, searchInput, categoryValue)[i].recipes ==
        OfCategory(Filtered(recipes, SearchText(searchInput), CategoryFilter(categoryValue)), Listing(recipes, searchInput, categoryValue)[i].category)
  {
    var grouped := Groups(Filtered(recipes, SearchText(searchInput), CategoryFilter(categoryValue)));
    SectionsFromGroups(grouped, 0);
    SectionsFromInOrder(grouped, 0);
  }

  /** A recipe is listed exactly when it passes the filter and its category
      is one of the fixed ones. */
  lemma ListingMembers(recipes: seq<Recipe>, searchInput: string, categoryValue: string, r: Recipe)
    ensures Listed(Listing(recipes, searchInput, categoryValue), r) <==>
      r in recipes && Matches(r, SearchText(searchInput), CategoryFilter(categoryValue))
      && r.category in CategoryOrder
  {
    var search := SearchText(searchInput);
    var category := CategoryFilter(categoryValue);
    var filtered := Filtered(recipes, search, category);
    var grouped := Groups(filtered);
    var ss := SectionsFrom(grouped, 0);
    SectionsFromGroups(grouped, 0);
    SectionsFromComplete(grouped, 0);
    FilteredMembers(recipes, search, category);
    OfCategoryMembers(filtered, r.category);
    if Listed(ss, r) {
      var i :| 0 <= i < |ss| && r in ss[i].recipes;
      OfCategoryMembers(filtered, ss[i].category);
    }
    if r in filtered && r.category in CategoryOrder {
      assert CategoryOrder[0..] == CategoryOrder;
      assert r.category in CategoriesOf(filtered);
      assert r in grouped[r.category];
      var i :| 0 <= i < |ss| && ss[i].category == r.category;
    }
  }

  // ---------------------------------------------------------------------
  // Descriptions
  // ---------------------------------------------------------------------

  /** An instruction entry, Italian and Polish; a missing text is empty. */
  datatype Template = Template(it: string, pl: string)

  /** The texts of `categoryInstructions`, written around their placeholder. */
  const PastaIt: string :=
    "Cuoci la pasta al dente e prepara il condimento appropriato, quindi mescola con " + "{it}" + " e servi con formaggio grattugiato."
  const PastaPl: string :=
    "Ugotuj makaron al dente i przygotuj odpowiedni sos, następnie wymieszaj z daniem " + "{pl}" + " i podawaj z tartym serem."
  const RisottoIt: string :=
    "Tosta il riso in burro o olio, aggiungi brodo poco a poco mescolando fino a quando il risotto " + "{it}" + " diventa cremoso."
  const RisottoPl: string :=
    "Podsmaż ryż na maśle lub oliwie, następnie dodawaj bulion stopniowo, mieszając aż risotto " + "{pl}" + " stanie się kremowe."
  const ZupaIt: string :=
    "Prepara un soffritto di verdure, aggiungi brodo e ingredienti del " + "{it}" + ", quindi cuoci finché tutto è tenero."
  const ZupaPl: string :=
    "Przygotuj podsmażkę z warzyw, dodaj bulion i składniki " + "{pl}" + ", następnie gotuj aż wszystkie składniki będą miękkie."
  const MiesoIt: string :=
    "Rosola la carne con aromi e cuocila lentamente nel sugo fino a quando il " + "{it}" + " sarà tenero e saporito."
  const MiesoPl: string :=
    "Obsmaż mięso z przyprawami i gotuj powoli w sosie aż " + "{pl}" + " będzie miękkie i aromatyczne."
  const RybyIt: string :=
    "Cuoci il pesce alla griglia o in padella con olio, aglio e erbe aromatiche; servi il " + "{it}" + " con contorni leggeri."
  const RybyPl: string :=
    "Usmaż lub ugrilluj rybę na oliwie z czosnkiem i ziołami; podawaj " + "{pl}" + " z lekkimi dodatkami."
  const PrzystawkaIt: string :=
    "Preparare gli ingredienti freschi, assemblare il piatto " + "{it}" + " e servire a temperatura ambiente."
  const PrzystawkaPl: string :=
    "Przygotuj świeże składniki, ułóż danie " + "{pl}" + " i podawaj w temperaturze pokojowej."
  const DeserIt: string :=
    "Prepara la crema, monta gli strati e lascia raffreddare il dessert " + "{it}" + " in frigorifero prima di servire."
  const DeserPl: string :=
    "Przygotuj krem, ułóż warstwy i schłódź deser " + "{pl}" + " w lodówce przed podaniem."

  /** `categoryInstructions`: one template per category, with `{it}` and
      `{pl}` standing for the recipe's names. */
  const CategoryInstructions: map<string, Template> :=
    map[
      "pasta" := Template(PastaIt, PastaPl),
      "risotto" := Template(RisottoIt, RisottoPl),
      "zupa" := Template(ZupaIt, ZupaPl),
      "mięso" := Template(MiesoIt, MiesoPl),
      "ryby" := Template(RybyIt, RybyPl),
      "przystawka" := Template(PrzystawkaIt, PrzystawkaPl),
      "deser" := Template(DeserIt, DeserPl)
    ]

  /** The preparation text shown for a recipe. */
  datatype Description = Description(it: string, pl: string)

  /** The description `displayRecipes` shows: the recipe's own entry of
      `window.recipeInstructions` when there is one, otherwise its
      category's template with the first `{it}` and `{pl}` replaced by the
      names; shown only when both texts are non-empty. */
  function DescriptionFor(r: Recipe, recipeInstructions: Option<map<int, Template>>): Option<Description>
  {
    var texts :=
      if recipeInstructions.Some? && r.id in recipeInstructions.value then
        Some(recipeInstructions.value[r.id])
      else if r.category in CategoryInstructions then
        var t := CategoryInstructions[r.category];
        Some(Template(ReplaceFirst(t.it, "{it}", r.italianName), ReplaceFirst(t.pl, "{pl}", r.polishName)))
      else None;
    if texts.Some? && texts.value.it != "" && texts.value.pl != "" then Some(Description(texts.value.it, texts.value.pl))
    else None
  }

  /** A placeholder written at a position of a text occurs there. */
  lemma PlaceholderAt(s: string, p: string, i: nat)
    requires i + |p| < |s| && s[i..i + |p|] == p
    ensures Includes(s, p) && |s| > |p|
  {
    assert OccursAt(s, p, i);
  }

  /** Every template holds its placeholders and has text besides. */
  lemma TemplatesHavePlaceholders(c: string)
    requires c in CategoryInstructions
    ensures var t := CategoryInstructions[c];
      Includes(t.it, "{it}") && Includes(t.pl, "{pl}") && |t.it| > 4 && |t.pl| > 4
  {
    if c == "pasta" {
      PlaceholderAt(PastaIt, "{it}", 80);
      PlaceholderAt(PastaPl, "{pl}", 81);
    } else if c == "risotto" {
      PlaceholderAt(RisottoIt, "{it}", 94);
      PlaceholderAt(RisottoPl, "{pl}", 90);
    } else if c == "zupa" {
      PlaceholderAt(ZupaIt, "{it}", 66);
      PlaceholderAt(ZupaPl, "{pl}", 55);
    } else if c == "mięso" {
      PlaceholderAt(MiesoIt, "{it}", 73);
      PlaceholderAt(MiesoPl, "{pl}", 53);
    } else if c == "ryby" {
      PlaceholderAt(RybyIt, "{it}", 85);
      PlaceholderAt(RybyPl, "{pl}", 65);
    } else if c == "przystawka" {
      PlaceholderAt(PrzystawkaIt, "{it}", 56);
      PlaceholderAt(PrzystawkaPl, "{pl}", 39);
    } else {
      PlaceholderAt(DeserIt, "{it}", 67);
      PlaceholderAt(DeserPl, "{pl}", 45);
    }
  }

  /** Once its placeholder is replaced, a text holds the replacement. */
  lemma ReplaceFirstInserts(s: string, pattern: string, replacement: string)
    requires Includes(s, pattern)
    ensures Includes(ReplaceFirst(s, pattern, replacement), replacement)
  {
    IncludesIffIndexOf(s, pattern);
    var i := IndexOf(s, pattern, 0).value;
    var r := ReplaceFirst(s, pattern, replacement);
    var before, after := s[..i], s[i + |pattern|..];
    assert r == before + replacement + after;
    assert |before| == i;
    assert r[i..i + |replacement|] == replacement;
    assert OccursAt(r, replacement, i);
  }

  /** A recipe's own instructions take precedence; they are shown when both
      texts are non-empty. */
  lemma OwnInstructionsFirst(r: Recipe, instructions: map<int, Template>)
    requires r.id in instructions
    ensures var t := instructions[r.id];
      DescriptionFor(r, Some(instructions)) == if t.it != "" && t.pl != "" then Some(Description(t.it, t.pl)) else None
  {
  }

  /** Without its own instructions, a recipe of one of the seven categories
      always gets its category's description, which names the recipe in both
      languages; a recipe of any other category gets none. */
  lemma TemplateFallback(r: Recipe, recipeInstructions: Option<map<int, Template>>)
    requires recipeInstructions.None? || r.id !in recipeInstructions.value
    ensures r.category in CategoryInstructions ==>
      var t := CategoryInstructions[r.category];
      var d := DescriptionFor(r, recipeInstructions);
      && d == Some(Description(ReplaceFirst(t.it, "{it}", r.italianName), ReplaceFirst(t.pl, "{pl}", r.polishName)))
      && Includes(d.value.it, r.italianName) && Includes(d.value.pl, r.polishName)
    ensures r.category !in CategoryInstructions ==> DescriptionFor(r, recipeInstructions) == None
  {
    if r.category in CategoryInstructions {
      var t := CategoryInstructions[r.category];
      TemplatesHavePlaceholders(r.category);
      ReplaceFirstInserts(t.it, "{it}", r.italianName);
      ReplaceFirstInserts(t.pl, "{pl}", r.polishName);
      var a := ReplaceFirst(t.it, "{it}", r.italianName);
      var b := ReplaceFirst(t.pl, "{pl}", r.polishName);
      assert |t.it| > 4 && |t.pl| > 4;
      IncludesIffIndexOf(t.it, "{it}");
      IncludesIffIndexOf(t.pl, "{pl}");
      assert a != [] && b != [];
    }
  }

  /** The page's `allRecipes`. */
  class RecipePage {
    var allRecipes: seq<Recipe>

    constructor()
      ensures allRecipes == []
    {
      allRecipes := [];
    }

    /** `loadRecipes`: takes `window.recipesData` when it is a list and
        shows the listing; otherwise keeps what it had and shows nothing. */
    method LoadRecipes(data: RecipesGlobal, searchInput: string, categoryValue: string) returns (shown: Option<seq<Section>>)
      modifies this
      ensures data.RecipeList? ==> allRecipes == data.recipes && shown == Some(Listing(data.recipes, searchInput, categoryValue))
      ensures !data.RecipeList? ==> allRecipes == old(allRecipes) && shown == None
    {
      if data.RecipeList? {
        allRecipes := data.recipes;
        var sections := DisplayRecipes(searchInput, categoryValue);
        return Some(sections);
      }
      return None;
    }

    /** `displayRecipes`: filters, groups and orders the sections. */
    method DisplayRecipes(searchInput: string, categoryValue: string) returns (sections: seq<Section>)
      ensures sections == Listing(allRecipes, searchInput, categoryValue)
    {
      var filtered := Filtered(allRecipes, SearchText(searchInput), CategoryFilter(categoryValue));
      var grouped := GroupByCategory(filtered);
      assert grouped == Groups(filtered);
      sections := SectionsFrom(grouped, 0);
    }
  }
}
