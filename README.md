# bellacucina — a verified model of the trainer's core

bellacucina is a browser vocabulary trainer built around Italian recipes.
Each recipe has an Italian and a Polish name, a category, an image path and a
list of ingredient pairs (Italian word, Polish word). This project models in
Dafny the parts of the page scripts that decide something:

- the **image audit** of the diagnostics page (`js/diagnostics.js`):
  - the file-name hygiene checks;
  - the cache-busting probe URL;
  - the three-way race of an image probe (load, error, 8-second timer), where only the first signal counts;
  - the status and details of each row;
  - the duplicate-path map;
  - the summary counters;
  - the "errors only" filter;
  - the CSV export, which is proved to read back exactly;
- the **mini-games** (`js/game.js`):
  - the Fisher–Yates shuffle on an array;
  - the de-duplicated ingredient pairs of `initGameData`;
  - the memory deck and its click/check/reset state machine;
  - the "pick the ingredients" round with its decoys, and its scoring;
  - the translation round with its four distinct answers, and its scoring;
- the **scoreboard** in local storage (`js/main.js` `loadScores`, `saveScores`, `resetScores`; `addPoints` in `js/game.js`);
- the **recipe book** (`js/recipes.js`):
  - the choice of an Italian speech voice, and the saved voice that overrides it;
  - the search and category filter;
  - grouping by category and the fixed order of the sections;
  - the fallback from a recipe's own instructions to its category's template.

The modules follow the script files:

| module | file | models |
|---|---|---|
| `Text` | Text.dfy | the string operations the scripts use: `trim`, `toLowerCase`, `includes`, `startsWith`, `indexOf`, `replace` with a string pattern, `join`, and numbers written as text |
| `Catalog` | Catalog.dfy | recipes, ingredient pairs, and the `window.recipesData` global |
| `Diagnostics` | Diagnostics.dfy | the audit itself |
| `DiagnosticsCsv` | Csv.dfy | `toCsv` and a reader for its format |
| `DiagnosticsPage` | AuditPage.dfy | the page state (`lastRows`, the filter switch) |
| `Shuffling` | Shuffle.dfy | `shuffle` |
| `Scores` | Scores.dfy | the local-storage scoreboard |
| `Game` | Game.dfy | `initGameData`, the ingredient round and the translation round |
| `Memory` | Memory.dfy | the memory game |
| `RecipeBook` | Recipes.dfy | the recipe page |

Where the scripts change state step by step, the model does too:

- `shuffle` swaps in place in an `array`;
- the probe, the memory game, the score store, the voice selector and the two pages are classes whose methods update their fields;
- the loops of `initGameData`, `runAudit`, `toCsv`, the grouping and the option picking are `while` loops with invariants.

Each such method is proved against a specification function on values. The properties the scripts promise are then proved about those functions as lemmas.

## Model

| member | source | states |
|---|---|---|
| Text.TrimFacts | js/diagnostics.js:108 | a trimmed text neither starts nor ends with JavaScript white space, and a text without such ends is its own trim |
| Text.ReplaceFirstSpec | js/recipes.js:222-223 | `replace` with a string pattern leaves a text without the pattern unchanged, and otherwise substitutes the replacement for exactly the first occurrence, keeping what is before and after it |
| Text.ParseNatToString | js/diagnostics.js:43 | the decimal digits written for a number read back as that number |
| Diagnostics.IssuesFromFacts | js/diagnostics.js:17-22 | an issue is reported exactly when its check fires, and the issues keep the order of the checks |
| Diagnostics.SanitizeIssuesSpec | js/diagnostics.js:15-23 | upper-case ASCII letters, Polish letters, white space and `%xx` escapes are each reported exactly when the path has them, in that fixed order, so at most four issues; an empty path has none |
| Diagnostics.ToAbs | js/diagnostics.js:25-27 | a reference that already starts with `http` is passed through unchanged |
| Diagnostics.ImagelessRecordProbe | js/diagnostics.js:116-137 | a record without an image is probed at the resolution of the empty reference (the page's own address); only when that resolution throws does it get the at-once "no image" failure, otherwise the first signal decides, and a load makes the row OK although the record is counted as missing |
| Diagnostics.CacheBustedSrc | js/diagnostics.js:43 | the probe address is the URL, then `&` if the URL already has a `?` and `?` otherwise, then `v=`, then digits that read back as the timestamp |
| Diagnostics.SettledProbeIsFinal | js/diagnostics.js:37-42 | once a probe has settled, no later signal changes it |
| Diagnostics.FirstEventWins | js/diagnostics.js:38-42 | a probe of a non-empty URL settles on its first signal, with that signal's outcome; no timer is left pending, and later signals are ignored |
| Diagnostics.EmptyUrlNeverLoads | js/diagnostics.js:35 | a probe of the empty URL fails at once with the "no image" reason and ignores every signal |
| Diagnostics.UnsettledProbeCanTimeOut | js/diagnostics.js:38-40 | a probe that has not settled still has its timer pending, and firing it settles the probe as a timeout |
| Diagnostics.ProbeOutcomeIsReplay | js/diagnostics.js:33-45 | the outcome the audit records for a probe is what replaying its signals from the start gives |
| Diagnostics.ImageProbe.constructor | js/diagnostics.js:35-43 | a new probe is in the start state for its URL and timestamp, with no signals seen |
| Diagnostics.ImageProbe.Handle | js/diagnostics.js:38-42 | a signal moves the probe by one step of the replay and is appended to its history; a settled probe does not change |
| Diagnostics.ImageProbe.FireTimer | js/diagnostics.js:38-40 | the timer fires only while it is pending; it settles the probe as a timeout |
| Diagnostics.ImageProbe.OnLoad | js/diagnostics.js:41 | a load settles an unsettled probe as loaded and clears the timer; a settled probe keeps its result |
| Diagnostics.ImageProbe.OnError | js/diagnostics.js:42 | an error settles an unsettled probe as a load error and clears the timer; a settled probe keeps its result |
| Diagnostics.RowStatusCases | js/diagnostics.js:127 | status OK exactly for a loaded image with no issues and no duplicate; OK with warnings for a loaded image with either; missing for a failed probe of an empty path; broken for any other failure |
| Diagnostics.RowDetails | js/diagnostics.js:128-129 | the details of a loaded image list its issues, then its duplicates, separated by a spaced bar, each only when it applies; for a failure they are the "no image" text when the path is empty, and otherwise the probe's reason, or `onerror` when the reason is empty |
| Diagnostics.KeysInOrderFacts | js/diagnostics.js:104-112 | the keys of the duplicate map have no repeats, and a key is present exactly when some recipe has that trimmed path |
| Diagnostics.IdsForKeyMembers | js/diagnostics.js:106-111 | the ids listed under a key are exactly those of the recipes whose trimmed path is that key |
| Diagnostics.BuildDupMap | js/diagnostics.js:104-112 | the loop builds the duplicate map (and its keys in insertion order) when checking is on, and nothing when it is off |
| Diagnostics.DupMapOfSpec | js/diagnostics.js:104-112 | with checking off the map is empty; with it on, its keys and lists are those of the grouping by trimmed path |
| Diagnostics.OtherIds | js/diagnostics.js:128 | the listed duplicates are exactly the group's ids other than the row's own |
| Diagnostics.PaddedImageNeverDuplicate | js/diagnostics.js:108-119 | a path with surrounding white space is grouped under its trimmed key but looked up untrimmed, so it is never flagged as a duplicate |
| Diagnostics.DuplicateDetails | js/diagnostics.js:119-128 | a trimmed path is flagged exactly when more than one recipe has it, and its details list exactly the other recipes with that path |
| Diagnostics.CounterOfAuditRow | js/diagnostics.js:134-137 | the counter a row raises is missing for an empty path and otherwise the counter of its status |
| Diagnostics.CountersPartitionRows | js/diagnostics.js:114-137 | the four counters add up to the number of rows |
| Diagnostics.CountersMatchStatuses | js/diagnostics.js:127-137 | when every row with an empty path has the missing status, each counter equals the number of rows with that status |
| Diagnostics.DuplicateGroups | js/diagnostics.js:160-162 | the duplicate list shown is exactly the map's keys with more than one id, each with its ids |
| Diagnostics.AuditRecord | js/diagnostics.js:115-139 | one record gives its row and raises exactly the counter of that row |
| Diagnostics.AuditRecords | js/diagnostics.js:114-140 | the loop gives one row per recipe, in order, and counters equal to the counts of the rows |
| Diagnostics.Audit | js/diagnostics.js:98-164 | the audit gives a row per recipe; the summary's total is the number of recipes, its counters count the rows and add up to the total, and its duplicates are the groups with more than one id (none when checking is off) |
| DiagnosticsPage.MarkOfStatus | js/diagnostics.js:145-147 | a row is marked as an error exactly when it is broken or missing, as a warning exactly when it is OK with warnings, and left unmarked exactly when it is OK |
| DiagnosticsPage.ShownRows | js/diagnostics.js:90-96 | with "errors only" off every row shows; with it on exactly the rows that are not plainly OK |
| DiagnosticsPage.AuditPage.constructor | js/diagnostics.js:12-13 | the page starts with no rows, with the filter off |
| DiagnosticsPage.AuditPage.RunAudit | js/diagnostics.js:98-144 | `lastRows` becomes the rows of the run; a `recipesData` that is neither a list nor unset makes the run throw after `lastRows` was emptied; an unset one audits nothing |
| DiagnosticsPage.AuditPage.ExportCsv | js/diagnostics.js:79-80 | the export writes the CSV text of the latest run's rows |
| DiagnosticsPage.AuditPage.ToggleErrors | js/diagnostics.js:169 | the button flips the filter and its label and keeps the rows |
| DiagnosticsCsv.CsvFields | js/diagnostics.js:73-75 | each row gives one value per column of the header |
| DiagnosticsCsv.ToCsv | js/diagnostics.js:69-77 | the loop writes the header line and then one line per row, joined by line feeds |
| DiagnosticsCsv.EscapeReadsBack | js/diagnostics.js:71 | a field escaped by `escape` reads back as itself, whatever quotes, commas or line feeds it holds |
| DiagnosticsCsv.LineReadsBack | js/diagnostics.js:72-75 | a line of escaped fields joined by commas reads back as those fields |
| DiagnosticsCsv.LinesReadBack | js/diagnostics.js:76 | lines joined by line feeds read back as their field lists |
| DiagnosticsCsv.CsvReadsBack | js/diagnostics.js:69-77 | the export reads back as the header followed by the eight values of every row, in order |
| Shuffling.Shuffle | js/game.js:8-14 | the array returned is the array given, and its new contents are a permutation of the old |
| Shuffling.ShuffledCopy | js/game.js:159 | shuffling a copy gives a permutation of the original |
| Shuffling.NoRepeatsPermutation | js/game.js:402 | a permutation of a list without repeats has no repeats and the same members |
| Scores.LoadScores | js/main.js:4-19 | the loaded scoreboard holds exactly the two players, and neither has a nullish value |
| Scores.LoadKeepsStoredValues | js/main.js:10-13 | a stored non-null value of a player is kept; a missing or null one becomes 0 |
| Scores.LoadDefaults | js/main.js:5-18 | nothing stored, the empty text, unparseable text and any parsed value other than an object all give zeros to both players |
| Scores.AddRaisesOnlyCurrent | js/game.js:34-40 | adding points for a player changes only that player's loaded score, by JavaScript `+` |
| Scores.OtherPlayerPointsLost | js/game.js:36-38 | points added for a name that is not one of the two players are lost at the next load |
| Scores.ScoreStore.constructor | js/main.js:5 | the store starts with the stored item it is given |
| Scores.ScoreStore.SaveScores | js/main.js:22-24 | the stored item becomes the scoreboard written out |
| Scores.ScoreStore.ResetScores | js/main.js:49-53 | afterwards both players load as 0 |
| Scores.ScoreStore.AddPoints | js/game.js:34-40 | without a current player nothing is stored; otherwise the store holds the scoreboard loaded, raised for that player, and saved |
| Game.PairKeyInjective | js/game.js:26 | the key made of the Italian word, a bar and the Polish word tells pairs apart when the Italian word has no bar |
| Game.PairKeyCollision | js/game.js:26-27 | two different pairs with bars in their words share a key, so the second is dropped |
| Game.FirstPerKeyKeys | js/game.js:23-30 | the de-duplicated pairs have exactly the keys of all ingredients |
| Game.FirstPerKeyDistinct | js/game.js:23-30 | no two de-duplicated pairs share a key |
| Game.FirstPerKeyFirst | js/game.js:23-30 | each kept pair is the first ingredient with its key, and the kept pairs are in the order of their first occurrences |
| Game.GameData.constructor | js/game.js:3-4 | the game starts with no recipes and no pairs |
| Game.GameData.CollectPairs | js/game.js:25-28 | the inner loop extends the de-duplicated pairs and the seen keys by one recipe's ingredients |
| Game.GameData.InitGameData | js/game.js:17-31 | a list of recipes is kept, and the pairs become the first pair of each key over all ingredients; any other `recipesData` leaves the game data as it was |
| Game.DecoyPoolFacts | js/game.js:275-277 | every decoy candidate is the Italian word of a pair and is not one of the round's correct words |
| Game.PickDecoys | js/game.js:273-280 | the decoys are the first words of the pool (the candidates' Italian words that are not correct), as many as the limit, or all of them when the pool is shorter; at least one is taken when the pool has one, even when the limit is below 1 |
| Game.FlaggedOptions | js/game.js:282-283 | an option is marked correct exactly when its word is a correct one; every correct word and every decoy is an option |
| Game.NewIngredientRound | js/game.js:267-326 | no recipes gives no round; otherwise the round's correct words are the recipe's Italian ingredients, its options a permutation of the flagged correct words and decoys, and no decoy is correct |
| Game.CountRoundPoints | js/game.js:329-336 | the loop counts the selected buttons whose word is correct |
| Game.RoundPointsBounds | js/game.js:328-349 | a round scores at most its number of correct words, and nothing when nothing is selected |
| Game.RoundPointsUpdate | js/game.js:334-336 | changing one button changes the points by its old and new contributions only |
| Game.SelectionEffect | js/game.js:300-307 | selecting a decoy never changes the points; selecting an unselected correct word adds one |
| Game.EvaluateIngredientRound | js/game.js:328-350 | the points are those of the selected correct words, and they go to the current player if there is one |
| Game.PickAnswers | js/game.js:393-401 | the answers start with the correct one, have no repeats, come from the pairs' answer side, and number four unless the pairs run out |
| Game.NewTranslationRound | js/game.js:376-402 | no pairs gives no round; otherwise the answers are a permutation of distinct answer-side words that includes the correct one |
| Game.ExactlyOneAnswerScores | js/game.js:457-463 | among distinct answers exactly the correct one scores a point |
| Game.EvaluateTranslationAnswer | js/game.js:449-464 | the chosen answer scores one point exactly when it is correct, and the point goes to the current player if there is one |
| Memory.CardsOfAt | js/game.js:161-164 | every pair gives its Italian card and then its Polish card |
| Memory.PairCardsMatch | js/game.js:223-226 | a pair's two cards match each other and are different cards |
| Memory.DeckCardsHavePartners | js/game.js:158-165 | every card of a shuffled deck has a different card in the deck that it matches |
| Memory.BuildDeck | js/game.js:158-165 | up to eight pairs are drawn from the pairs, and the deck is a permutation of their two cards each |
| Memory.EndCheckAsWrittenMissesSmallDeck | js/game.js:233 | with one pair dealt, matching both cards does not end the game as written |
| Memory.AsWrittenNeverEndsSmallDeck | js/game.js:158-159 | in every consistent game dealt with fewer than eight pairs, the end test as written is false, even when every card is matched |
| Memory.SettleMatchBoard | js/game.js:228-232 | marking the two revealed matching cards keeps the board consistent and adds one match |
| Memory.SettleMissBoard | js/game.js:242-246 | hiding the two revealed cards of a miss keeps the board consistent |
| Memory.MemoryGame.constructor | js/game.js:150-176 | a new game deals a deck of at most eight pairs, all face down, nothing matched, unlocked |
| Memory.MemoryGame.Click | js/game.js:185-194 | a click on a locked board or a revealed card does nothing; otherwise it reveals the card, which becomes the first or the second of the pair, and a second card locks the board |
| Memory.MemoryGame.ResetPair | js/game.js:250-253 | the pair is forgotten and the board unlocked; nothing else changes |
| Memory.MemoryGame.Settle | js/game.js:221-248 | a matching pair is marked, counts one match and one point; a miss is hidden again; the game ends exactly when every pair dealt is matched |
| RecipeBook.FindPreferred | js/recipes.js:72-73 | the rank of a voice is the index of the first preferred name its name contains, or none |
| RecipeBook.ItalianVoicesFacts | js/recipes.js:68 | the Italian voices are exactly the voices whose language starts with `it` |
| RecipeBook.FirstOfLeastRankLeast | js/recipes.js:70-76 | the voice chosen is one of the voices and has the least rank |
| RecipeBook.FirstOfLeastRankIndex | js/recipes.js:70-76 | the voice chosen is the first voice of least rank (the sort is stable) |
| RecipeBook.BestItalianVoiceSpec | js/recipes.js:66-77 | there is no choice exactly when no voice is Italian; otherwise the choice is the first Italian voice of least rank |
| RecipeBook.FindByName | js/recipes.js:97 | the voice found is the first voice with the saved name; none is found only when no voice has it |
| RecipeBook.SavedVoiceOverrides | js/recipes.js:94-101 | a saved name that some voice has picks the first voice with that name; otherwise the best Italian voice is picked |
| RecipeBook.VoiceSelector.constructor | js/recipes.js:62-63 | no voice is chosen yet, no handler is waiting, and the saved name is the one stored |
| RecipeBook.VoiceSelector.SelectVoice | js/recipes.js:87-107 | with no voices nothing is chosen and nothing changes; otherwise the chosen voice is the saved one or the best Italian one, it becomes the page's voice, and its name is saved when there is one |
| RecipeBook.VoiceSelector.LoadItalianVoice | js/recipes.js:80-117 | without speech support nothing is delivered; with voices available the choice is made at once; otherwise the selector waits for the voices to change |
| RecipeBook.VoiceSelector.OnVoicesChanged | js/recipes.js:113-115 | when the voices arrive the choice is made from them |
| RecipeBook.FilteredMembers | js/recipes.js:145-151 | a recipe is listed exactly when its name contains the lower-cased, trimmed search in either language and its category is the chosen one (or all) |
| RecipeBook.EmptySearchKeepsAll | js/recipes.js:138-151 | an empty search with all categories keeps every recipe, in order |
| RecipeBook.OfCategoryMembers | js/recipes.js:154-159 | a group holds exactly the filtered recipes of its category |
| RecipeBook.GroupByCategory | js/recipes.js:154-159 | the groups' keys are exactly the categories that occur, and each group is that category's recipes in order, never empty |
| RecipeBook.SectionsFromGroups | js/recipes.js:162-165 | each section shown is a non-empty group of one of the seven categories |
| RecipeBook.SectionsFromInOrder | js/recipes.js:162-165 | the sections follow the fixed category order |
| RecipeBook.SectionsFromComplete | js/recipes.js:162-165 | every non-empty group of one of the seven categories gets a section |
| RecipeBook.ListingOrder | js/recipes.js:135-165 | the page's sections follow the category order, and each holds recipes of its own category |
| RecipeBook.ListingMembers | js/recipes.js:135-165 | a recipe appears on the page exactly when it matches the filter and its category is one of the seven (recipes of other categories are never shown) |
| RecipeBook.TemplatesHavePlaceholders | js/recipes.js:30-59 | every category template holds its `{it}` and `{pl}` placeholders |
| RecipeBook.ReplaceFirstInserts | js/recipes.js:222-223 | replacing a placeholder that occurs puts the replacement into the text |
| RecipeBook.OwnInstructionsFirst | js/recipes.js:215-218 | a recipe's own instructions take precedence, and are shown when both texts are non-empty |
| RecipeBook.TemplateFallback | js/recipes.js:219-226 | without its own instructions, a recipe of one of the seven categories gets its template with its names filled in, so it always names the recipe in both languages; any other category gets none |
| RecipeBook.RecipePage.constructor | js/recipes.js:3 | the page starts with no recipes |
| RecipeBook.RecipePage.LoadRecipes | js/recipes.js:125-132 | a list of recipes is kept and displayed; any other `recipesData` leaves the page unchanged and displays nothing |
| RecipeBook.RecipePage.DisplayRecipes | js/recipes.js:135-165 | the sections shown are the listing of the page's recipes for the search and category given |

## Left out

- The DOM is not modelled: rendering of tables, cards and buttons, CSS classes, alerts, exit buttons, the statistics badges and tooltips.
- Timing is not modelled: `setTimeout` delays are events. The memory game's delayed check is the separate `Settle` method, called while the board is locked.
- `Promise.all` is not modelled: each probe's signals are an input sequence, settled by its first event. The audit takes the first event of each probe.
- Randomness is not modelled as probability: `Math.random` choices (the shuffle's swap index, the round's recipe, the decoys and answers picked) are nondeterministic choices (`:|`). The model proves what holds for every choice.
- The clock is a parameter: `Date.now()` is the `now` value of a probe.
- URL parsing is a lookup: `new URL(path, location.href)` becomes a table of resolutions. A path missing from the table is one whose parsing throws.
- Local storage is a field: it is the `stored` field of `ScoreStore` (the `bellaScores` item) and the saved voice name of `VoiceSelector`.
- JSON is not modelled: `JSON.stringify` followed by `JSON.parse` is taken to give the scoreboard back.
- JSON values: only integers, texts, booleans and null are kept. Arrays and nested objects are `Other`, and JavaScript `+` with them is not modelled further.
- Score points are integers; floating point and `NaN` are not modelled.
- The Web Speech API is not modelled: speech support and the voice list are parameters. `pronounceItalian`, utterances and the voice drop-down are not part of this model.
- `Blob`, object URLs and the download link of `exportCsv` are not modelled; the model produces the CSV text.
- `toLowerCase` covers ASCII and the Polish letters only; other Unicode case mappings are not modelled.
- `String.prototype.replace` special replacement patterns (`$&`, `$1`, ...) are not modelled; the replacement is inserted as it is.
- Objects used as dictionaries (`grouped`, `dupMap`, `categoryInstructions`) are maps. Keys that collide with `Object.prototype` properties are not modelled.
- `RecipeBook.BestItalianVoice` does not model the in-place `itVoices.sort`; it gives the element the stable sort puts first, which is all the function returns.
- `addPlayer`, `renderScoreboard`, `renderPlayerOptions`, `updateCurrentPlayer` and the game menu are not part of this model. The current player is a parameter of the scoring methods.
- `Game.NewIngredientRound` and `Game.NewTranslationRound`: with no recipes (or no pairs) the script throws a `TypeError`; the model returns no round instead.
- `Game.PickDecoys` does not promise distinct decoys: the pool is not de-duplicated, so two pairs with the same Italian word can give the same decoy twice, as in the script.
- Missing fields: in `js/diagnostics.js` a missing `category` or `image` becomes the empty text through its `|| ""` default, and the model does the same. Elsewhere the model assumes every recipe has both names and an `ingredients` list. Without them the scripts throw: `toLowerCase` on a missing name in the filter (js/recipes.js:147-148), and the ingredient loop of `initGameData` after `recipesData` was already set (js/game.js:22-25). A missing name given to `replace` would also be inserted as the text `undefined`. None of this is modelled.

- DiagnosticsPage.AuditPage.RunAudit and DiagnosticsPage.AuditPage.ExportCsv: a run is modelled as one atomic step, but `runAudit` is asynchronous. It empties `lastRows` before the probes (js/diagnostics.js:101) and fills it only after `Promise.all` (line 144), which can take up to eight seconds. The model therefore does not capture three things. A second run started while the first is probing leaves `lastRows` holding the rows of both runs. An export during probing writes only the header. And `dupCheck.checked` is read again after the wait (line 119), so unticking it mid-run stops the flagging, which the model still reports.
- Diagnostics.Audit: `summary.duplicates` is in insertion order. `Object.entries(dupMap)` (js/diagnostics.js:160) lists integer-like keys (a path `12`, say) first, in ascending order, and only then the other keys; this reordering is not modelled.
- Game.EvaluateIngredientRound models one press of the submit button. In the script only the option buttons are disabled after a check (js/game.js:347); the submit button stays active, so pressing it again adds the round's points again. Repeated submits are not modelled.

## Findings

| source | as written | input that shows it | evidently intended | confidence | as-written member | corrected member |
|---|---|---|---|---|---|---|
| js/game.js:233 | the game ends when `matchedCount === numPairs`, with `numPairs` fixed at 8 | fewer than eight ingredient pairs, e.g. a single pair: the deck has two cards, and after they match `matchedCount` is 1, which is not 8, so the game never ends | end the game when every pair dealt (`pairs.length`) is matched | not executed | Memory.EndCheckAsWrittenMissesSmallDeck | Memory.MemoryGame.Settle |
