/** The scoreboard kept under the `bellaScores` key of the browser's local
    storage: `loadScores` turns whatever is stored into an object holding
    exactly the two players, `saveScores` writes an object back,
    `resetScores` writes zeros, and `addPoints` reads, adds and writes. */
module Scores {
  import opened Text

  /** A property value of the parsed JSON: the model keeps integers, texts
      and booleans; arrays and nested objects are `Other`. */
  datatype Value = Null | Num(n: int) | Str(s: string) | Bool(b: bool) | Other

  /** What `JSON.parse` produced: an object with its own properties, `null`,
      or some other JSON value (a number, text, boolean or array), which has
      no property named after a player. */
  datatype Json = JObject(fields: map<string, Value>) | JNull | JOtherValue

  /** The stored item: missing, the empty text, a text `JSON.parse`
      rejects, or a text it parses. */
  datatype Stored = NotStored | EmptyText | Unparseable | Parsed(json: Json)

  const Players: set<string> := {"Kasia", "Michał"}

  /** The object `loadScores` returns. */
  type Scoreboard = map<string, Value>

  const ZeroScores: Scoreboard := map["Kasia" := Num(0), "Michał" := Num(0)]

  /** `parsed[p] ?? 0`: a missing property or `null` becomes 0. */
  function OrZeroIfNullish(fields: map<string, Value>, p: string): Value
  {
    if p in fields && fields[p] != Null then fields[p] else Num(0)
  }

  /** `loadScores`: falls back to zeros when nothing (or the empty text) is
      stored, when parsing throws and when the parsed value is `null` (reading
      a property of it throws as well); otherwise it keeps just the two
      players' values. */
  function LoadScores(stored: Stored): (scores: Scoreboard)
    ensures scores.Keys == Players
    ensures forall p :: p in Players ==> scores[p] != Null
  {
    match stored
    case Parsed(JObject(fields)) =>
      map["Kasia" := OrZeroIfNullish(fields, "Kasia"), "Michał" := OrZeroIfNullish(fields, "Michał")]
    case _ => ZeroScores
  }

  /** A stored player value that is neither missing nor `null` comes back
      unchanged; a missing or `null` one comes back as 0. */
  lemma LoadKeepsStoredValues(fields: map<string, Value>, p: string)
    requires p in Players
    ensures p in fields && fields[p] != Null ==> LoadScores(Parsed(JObject(fields)))[p] == fields[p]
    ensures p !in fields || fields[p] == Null ==> LoadScores(Parsed(JObject(fields)))[p] == Num(0)
  {
  }

  /** Nothing usable stored: both players have 0. */
  lemma LoadDefaults(stored: Stored)
    requires !(stored.Parsed? && stored.json.JObject?)
    ensures LoadScores(stored) == ZeroScores
  {
  }

  /** Whether a value is falsy for `||`. */
  predicate Falsy(v: Value)
  {
    v == Null || v == Num(0) || v == Str("") || v == Bool(false)
  }

  /** `(scores[p] || 0) + points` with `points` a number: numbers add, a
      text gets the number's decimal text appended, `true` counts as 1. */
  function AddTo(v: Value, points: int): Value
  {
    if Falsy(v) then Num(points)
    else
      match v
      case Num(n) => Num(n + points)
      case Str(s) => Str(s + IntToString(points))
      case Bool(_) => Num(1 + points)
      case _ => Other
  }

  /** The stored item after `addPoints(points)` with `currentPlayer` set to
      `player`: the loaded scores with that player's entry raised, written
      back as JSON (the writing and re-reading of JSON is the identity on
      these values). A player without an entry counts from 0. */
  function StoredAfterAdd(stored: Stored, player: string, points: int): Stored
  {
    var scores := LoadScores(stored);
    var current := if player in scores then scores[player] else Null;
    Parsed(JObject(scores[player := AddTo(current, points)]))
  }

  /** `addPoints` for one of the two players: only that player's entry
      changes, and a number grows by exactly `points`. */
  lemma AddRaisesOnlyCurrent(stored: Stored, player: string, points: int)
    requires player in Players
    ensures var before := LoadScores(stored);
      var after := LoadScores(StoredAfterAdd(stored, player, points));
      && after[player] == AddTo(before[player], points)
      && (forall q :: q in Players && q != player ==> after[q] == before[q])
      && (before[player].Num? ==> after[player] == Num(before[player].n + points))
  {
    var before := LoadScores(stored);
    var fields := before[player := AddTo(before[player], points)];
    assert AddTo(before[player], points) != Null;
    forall q | q in Players && q != player
      ensures LoadScores(StoredAfterAdd(stored, player, points))[q] == before[q]
    {
      assert fields[q] == before[q];
    }
  }

  /** Points given to anyone but the two players are lost: the next load
      reads the same scores as before. */
  lemma OtherPlayerPointsLost(stored: Stored, player: string, points: int)
    requires player !in Players
    ensures LoadScores(StoredAfterAdd(stored, player, points)) == LoadScores(stored)
  {
    var before := LoadScores(stored);
    forall q | q in Players
      ensures LoadScores(StoredAfterAdd(stored, player, points))[q] == before[q]
    {
    }
  }

  /** The local-storage item holding the scores. */
  class ScoreStore {
    var stored: Stored

    constructor(initial: Stored)
      ensures stored == initial
    {
      stored := initial;
    }

    /** `saveScores`: writes the object as JSON. */
    method SaveScores(scores: Scoreboard)
      modifies this
      ensures stored == Parsed(JObject(scores))
    {
      stored := Parsed(JObject(scores));
    }

    /** `resetScores`: both players are stored with 0, so the next load reads
        0 for both. */
    method ResetScores()
      modifies this
      ensures stored == Parsed(JObject(ZeroScores))
      ensures LoadScores(stored) == ZeroScores
    {
      SaveScores(ZeroScores);
    }

    /** `addPoints`: does nothing without a current player (`null` or the
        empty name); otherwise loads, raises that player's entry and saves. */
    method AddPoints(currentPlayer: Option<string>, points: int)
      modifies this
      ensures currentPlayer == None || currentPlayer == Some("") ==> stored == old(stored)
      ensures currentPlayer.Some? && currentPlayer.value != "" ==>
        stored == StoredAfterAdd(old(stored), currentPlayer.value, points)
    {
      if currentPlayer == None || currentPlayer == Some("") {
        return;
      }
      var player := currentPlayer.value;
      var scores := LoadScores(stored);
      var current := if player in scores then scores[player] else Null;
      scores := scores[player := AddTo(current, points)];
      SaveScores(scores);
    }
  }
}
