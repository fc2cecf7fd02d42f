/** The image-audit engine of the diagnostics page (js/diagnostics.js): the
    naming-hygiene scan, URL normalisation, the cache-busting image source,
    the settle-once probe, per-row status and details, duplicate-path
    grouping and the summary counters. Each probe's outcome is an input. */
module Diagnostics {
  import opened Text
  import opened Catalog

  // ---------------------------------------------------------------------
  // Naming hygiene (sanitizeIssues)
  // ---------------------------------------------------------------------

  /** The four naming problems, in the order the scan reports them. */
  datatype Issue = UpperCase | PolishLetters | Spaces | EncodedChars

  function IssueLabel(i: Issue): string
  {
    match i
    case UpperCase => "duże litery"
    case PolishLetters => "polskie znaki"
    case Spaces => "spacje"
    case EncodedChars => "zakodowane znaki"
  }

  function IssueRank(i: Issue): nat
  {
    match i
    case UpperCase => 0
    case PolishLetters => 1
    case Spaces => 2
    case EncodedChars => 3
  }

  /** `/[A-Z]/` */
  predicate HasUpperAscii(s: string)
  {
    exists i :: 0 <= i < |s| && 'A' <= s[i] <= 'Z'
  }

  /** `/[ąćęłńóśźż]/i`: the nine Polish letters in either case. */
  predicate IsPolishLetter(c: char)
  {
    c in "ąćęłńóśźżĄĆĘŁŃÓŚŹŻ"
  }

  predicate HasPolishLetter(s: string)
  {
    exists i :: 0 <= i < |s| && IsPolishLetter(s[i])
  }

  predicate IsHexDigit(c: char)
  {
    '0' <= c <= '9' || 'a' <= c <= 'f' || 'A' <= c <= 'F'
  }

  /** `/%[0-9A-Fa-f]{2}/` */
  predicate HasPercentEscape(s: string)
  {
    exists i :: 0 <= i && i + 2 < |s| && s[i] == '%' && IsHexDigit(s[i + 1]) && IsHexDigit(s[i + 2])
  }

  /** Whether the check for an issue fires on a path. */
  predicate Fires(issue: Issue, path: string)
  {
    match issue
    case UpperCase => HasUpperAscii(path)
    case PolishLetters => HasPolishLetter(path)
    case Spaces => HasSpace(path)
    case EncodedChars => HasPercentEscape(path)
  }

  /** The checks in the order `sanitizeIssues` runs them. */
  const AllIssues: seq<Issue> := [UpperCase, PolishLetters, Spaces, EncodedChars]

  /** The issues among `checks` that fire, in the order of `checks`. */
  function IssuesFrom(checks: seq<Issue>, path: string): seq<Issue>
  {
    if checks == [] then []
    else (if Fires(checks[0], path) then [checks[0]] else []) + IssuesFrom(checks[1..], path)
  }

  /** `sanitizeIssues`: the naming problems of an image path. */
  function SanitizeIssues(path: string): seq<Issue>
  {
    if path == "" then [] else IssuesFrom(AllIssues, path)
  }

  /** The issues kept are exactly the checks that fire, and they keep the
      order of the checks. */
  lemma {:induction false} IssuesFromFacts(checks: seq<Issue>, path: string)
    requires forall i, j :: 0 <= i < j < |checks| ==> IssueRank(checks[i]) < IssueRank(checks[j])
    ensures var r := IssuesFrom(checks, path);
      && |r| <= |checks|
      && (forall x :: x in r <==> x in checks && Fires(x, path))
      && (forall i, j :: 0 <= i < j < |r| ==> IssueRank(r[i]) < IssueRank(r[j]))
  {
    if checks != [] {
      var rest := IssuesFrom(checks[1..], path);
      IssuesFromFacts(checks[1..], path);
      assert forall x :: x in rest ==> IssueRank(checks[0]) < IssueRank(x) by {
        forall x | x in rest
          ensures IssueRank(checks[0]) < IssueRank(x)
        {
          var k :| 0 <= k < |checks[1..]| && checks[1..][k] == x;
          assert checks[k + 1] == x;
        }
      }
      var head := if Fires(checks[0], path) then [checks[0]] else [];
      assert IssuesFrom(checks, path) == head + rest;
      assert forall x :: x in checks <==> x == checks[0] || x in checks[1..];
    }
  }

  /** Each check fires on its own, and the result lists the problems found
      in the fixed order upper case, Polish letters, white space, percent
      escapes, so there are at most four. An empty path has none. */
  lemma SanitizeIssuesSpec(path: string)
    ensures var r := SanitizeIssues(path);
      && (path == "" ==> r == [])
      && (UpperCase in r <==> HasUpperAscii(path))
      && (PolishLetters in r <==> HasPolishLetter(path))
      && (Spaces in r <==> HasSpace(path))
      && (EncodedChars in r <==> HasPercentEscape(path))
      && (forall i, j :: 0 <= i < j < |r| ==> IssueRank(r[i]) < IssueRank(r[j]))
      && |r| <= 4
  {
    if path != "" {
      IssuesFromFacts(AllIssues, path);
    }
  }

  // ---------------------------------------------------------------------
  // URL normalisation (toAbs) and the cache-busting source
  // ---------------------------------------------------------------------

  /** What `new URL(ref, location.href).href` gives for each reference it
      accepts; a reference missing from the table is one it throws on. */
  type Resolutions = map<string, string>

  /** `toAbs`: a reference that starts with "http" is kept; anything else is
      resolved against the page address, and kept as it is when the URL
      parser throws. */
  function ToAbs(url: string, resolved: Resolutions): (r: string)
    ensures StartsWith(url, "http") ==> r == url
  {
    if StartsWith(url, "http") then url
    else if url in resolved then resolved[url]
    else url
  }

  /** The `src` given to the image: the URL, then `&` if it already has a
      query (`?`) and `?` otherwise, then `v=` and the timestamp. */
  function CacheBustedSrc(url: string, now: nat): (src: string)
    ensures |src| > |url| + 2 && src[..|url|] == url
    ensures src[|url|] == (if '?' in url then '&' else '?')
    ensures src[|url| + 1..|url| + 3] == "v="
    ensures var stamp := src[|url| + 3..];
      (forall i :: 0 <= i < |stamp| ==> IsDigit(stamp[i])) && ParseNat(stamp) == now
  {
    ParseNatToString(now);
    var src := url + [if '?' in url then '&' else '?'] + "v=" + NatToString(now);
    assert src[|url| + 3..] == NatToString(now);
    src
  }

  // ---------------------------------------------------------------------
  // The image probe (testImage): three events, the first one wins
  // ---------------------------------------------------------------------

  const ProbeTimeoutMs: nat := 8000
  const NoImageReason: string := "brak pola image"
  const TimeoutReason: string := "timeout"
  const LoadErrorReason: string := "onerror (404?)"

  /** What the probe resolves with: `{ ok: true }` or `{ ok: false, reason }`. */
  datatype ProbeResult = Loaded | Failed(reason: string)

  /** The three things that can happen to a running probe. */
  datatype ProbeEvent = TimerFired | ImageLoaded | ImageError

  /** A probe's state: the `src` it loads, whether the image and its two
      handlers exist (`listening`), the `done` flag, whether the 8-second
      timer is still pending, and the value the promise resolved with. */
  datatype Probe = Probe(src: string, listening: bool, done: bool, timerPending: bool, result: Option<ProbeResult>)

  /** `testImage(url)` up to its first suspension: an empty URL resolves at
      once with "brak pola image" and no image or timer; otherwise the
      handlers are attached, the timer started and the source set. */
  function StartProbe(url: string, now: nat): Probe
  {
    if url == "" then Probe("", false, false, false, Some(Failed(NoImageReason)))
    else Probe(CacheBustedSrc(url, now), true, false, true, None)
  }

  function EventResult(e: ProbeEvent): ProbeResult
  {
    match e
    case TimerFired => Failed(TimeoutReason)
    case ImageLoaded => Loaded
    case ImageError => Failed(LoadErrorReason)
  }

  /** One event handler run: ignored unless the handlers exist and `done` is
      still false; otherwise it sets `done`, resolves, and the timer stops
      being pending (it fired, or the load/error handler cleared it). */
  function Step(p: Probe, e: ProbeEvent): Probe
  {
    if !p.listening || p.done then p
    else p.(done := true, timerPending := false, result := Some(EventResult(e)))
  }

  function Replay(p: Probe, events: seq<ProbeEvent>): Probe
    decreases |events|
  {
    if events == [] then p else Replay(Step(p, events[0]), events[1..])
  }

  /** Once `done` is set, later events change nothing. */
  lemma {:induction false} SettledProbeIsFinal(p: Probe, events: seq<ProbeEvent>)
    requires p.done
    ensures Replay(p, events) == p
  {
    if events != [] {
      SettledProbeIsFinal(Step(p, events[0]), events[1..]);
    }
  }

  /** The first event decides the result for good; after it no timer is
      pending, so none can fire on a settled probe. */
  lemma {:induction false} FirstEventWins(url: string, now: nat, events: seq<ProbeEvent>)
    requires url != "" && events != []
    ensures var p := Replay(StartProbe(url, now), events);
      p.done && !p.timerPending && p.result == Some(EventResult(events[0]))
  {
    var p1 := Step(StartProbe(url, now), events[0]);
    SettledProbeIsFinal(p1, events[1..]);
  }

  /** An empty URL never loads anything: its result is fixed from the start. */
  lemma {:induction false} EmptyUrlNeverLoads(now: nat, events: seq<ProbeEvent>)
    ensures Replay(StartProbe("", now), events) == StartProbe("", now)
  {
    if events != [] {
      EmptyUrlNeverLoads(now, events[1..]);
    }
  }

  /** A probe that has not resolved still has its timer pending, so the
      timeout event is always able to settle it. */
  lemma {:induction false} UnsettledProbeCanTimeOut(url: string, now: nat, events: seq<ProbeEvent>)
    requires Replay(StartProbe(url, now), events).result.None?
    ensures var p := Replay(StartProbe(url, now), events);
      p.timerPending && Step(p, TimerFired).result == Some(Failed(TimeoutReason))
  {
    if events != [] {
      if url == "" {
        EmptyUrlNeverLoads(now, events);
      } else {
        FirstEventWins(url, now, events);
      }
    }
  }

  /** The value `testImage(abs)` resolves with when `first` is the first event. */
  function ProbeOutcome(abs: string, first: ProbeEvent): ProbeResult
  {
    if abs == "" then Failed(NoImageReason) else EventResult(first)
  }

  /** ProbeOutcome is what the event replay settles on, whatever follows the first event. */
  lemma ProbeOutcomeIsReplay(abs: string, now: nat, first: ProbeEvent, later: seq<ProbeEvent>)
    ensures Replay(StartProbe(abs, now), [first] + later).result == Some(ProbeOutcome(abs, first))
  {
    if abs == "" {
      EmptyUrlNeverLoads(now, [first] + later);
    } else {
      FirstEventWins(abs, now, [first] + later);
    }
  }

  /** The probe as the object the page's callbacks share: the `done` flag,
      the timer and the handlers are fields that the three events update. */
  class ImageProbe {
    const url: string
    const now: nat
    var src: string
    var listening: bool
    var done: bool
    var timerPending: bool
    var result: Option<ProbeResult>
    ghost var history: seq<ProbeEvent>

    function State(): Probe
      reads this
    {
      Probe(src, listening, done, timerPending, result)
    }

    ghost predicate Valid()
      reads this
    {
      && State() == Replay(StartProbe(url, now), history)
      && listening == (url != "")
      && (timerPending ==> listening && !done && result.None?)
      && (done ==> !timerPending && result.Some?)
      && (listening && !done ==> timerPending)
    }

    constructor (url: string, now: nat)
      ensures Valid() && this.url == url && this.now == now && history == []
      ensures State() == StartProbe(url, now)
    {
      this.url := url;
      this.now := now;
      var p := StartProbe(url, now);
      src, listening, done, timerPending, result := p.src, p.listening, p.done, p.timerPending, p.result;
      history := [];
    }

    /** Replay of a history extended by one event is one more step. */
    static lemma {:induction false} ReplaySnoc(p: Probe, events: seq<ProbeEvent>, e: ProbeEvent)
      decreases |events|
      ensures Replay(p, events + [e]) == Step(Replay(p, events), e)
    {
      if events != [] {
        assert (events + [e])[1..] == events[1..] + [e];
        ReplaySnoc(Step(p, events[0]), events[1..], e);
      }
    }

    method Handle(e: ProbeEvent)
      requires Valid()
      modifies this
      ensures Valid() && history == old(history) + [e]
      ensures State() == Step(old(State()), e)
      ensures old(done) ==> State() == old(State())
    {
      ReplaySnoc(StartProbe(url, now), history, e);
      if listening && !done {
        done := true;
        timerPending := false;
        result := Some(EventResult(e));
      }
      history := history + [e];
    }

    /** The timer callback; it can only run while the timer is pending. */
    method FireTimer()
      requires Valid() && timerPending
      modifies this
      ensures Valid() && History() == old(History()) + [TimerFired]
      ensures done && result == Some(Failed(TimeoutReason)) && !timerPending
    {
      Handle(TimerFired);
    }

    /** `img.onload` */
    method OnLoad()
      requires Valid() && listening
      modifies this
      ensures Valid() && History() == old(History()) + [ImageLoaded]
      ensures done && !timerPending
      ensures result == if old(done) then old(result) else Some(Loaded)
    {
      Handle(ImageLoaded);
    }

    /** `img.onerror` */
    method OnError()
      requires Valid() && listening
      modifies this
      ensures Valid() && History() == old(History()) + [ImageError]
      ensures done && !timerPending
      ensures result == if old(done) then old(result) else Some(Failed(LoadErrorReason))
    {
      Handle(ImageError);
    }

    ghost function History(): seq<ProbeEvent>
      reads this
    {
      history
    }
  }

  // ---------------------------------------------------------------------
  // One report row: status and details
  // ---------------------------------------------------------------------

  datatype Status = Ok | OkWithWarnings | Broken | Missing

  function StatusLabel(s: Status): string
  {
    match s
    case Ok => "OK"
    case OkWithWarnings => "OK (z ostrzeżeniami)"
    case Broken => "BŁĄD"
    case Missing => "BRAK"
  }

  /** The status expression: a resolved probe gives OK, with warnings when
      there are naming issues or a duplicate; a failed one gives BŁĄD for a
      row with an image and BRAK for a row without. */
  function RowStatus(res: ProbeResult, image: string, issues: seq<Issue>, hasDup: bool): Status
  {
    if res.Loaded? then (if |issues| > 0 || hasDup then OkWithWarnings else Ok)
    else if image != "" then Broken else Missing
  }

  /** Each status arises in exactly one situation. */
  lemma RowStatusCases(res: ProbeResult, image: string, issues: seq<Issue>, hasDup: bool)
    ensures var s := RowStatus(res, image, issues, hasDup);
      && (s == Missing <==> res.Failed? && image == "")
      && (s == Broken <==> res.Failed? && image != "")
      && (s == OkWithWarnings <==> res.Loaded? && (issues != [] || hasDup))
      && (s == Ok <==> res.Loaded? && issues == [] && !hasDup)
  {
  }

  /** `issues.join(", ")` takes the labels of the issues, in order. */
  function IssueLabels(issues: seq<Issue>): seq<string>
  {
    seq(|issues|, i requires 0 <= i < |issues| => IssueLabel(issues[i]))
  }

  /** The ids as `join` writes them. */
  function IdTexts(ids: seq<int>): seq<string>
  {
    seq(|ids|, i requires 0 <= i < |ids| => IntToString(ids[i]))
  }

  /** The details text: for a resolved probe, "nazwa: …" and "duplikat z ID: …"
      joined by " | " (each only when it applies); for a failed one,
      "brak pola image" without an image and the failure reason otherwise. */
  function RowDetails(res: ProbeResult, image: string, issues: seq<Issue>, hasDup: bool, otherIds: seq<int>): (d: string)
    ensures res.Loaded? && issues == [] && !hasDup ==> d == ""
    ensures res.Loaded? && issues != [] && !hasDup ==> d == "nazwa: " + Join(", ", IssueLabels(issues))
    ensures res.Loaded? && issues == [] && hasDup ==> d == "duplikat z ID: " + Join(", ", IdTexts(otherIds))
    ensures res.Loaded? && issues != [] && hasDup ==>
      d == "nazwa: " + Join(", ", IssueLabels(issues)) + " | " + "duplikat z ID: " + Join(", ", IdTexts(otherIds))
    ensures res.Failed? ==> d == (if image == "" then NoImageReason else if res.reason == "" then "onerror" else res.reason)
  {
    if res.Loaded? then
      var naming := "nazwa: " + Join(", ", IssueLabels(issues));
      var dup := "duplikat z ID: " + Join(", ", IdTexts(otherIds));
      var parts := (if |issues| > 0 then [naming] else []) + (if hasDup then [dup] else []);
      assert |parts| == 2 ==> Join(" | ", parts) == naming + " | " + Join(" | ", [dup]);
      Join(" | ", parts)
    else if image == "" then NoImageReason
    else if res.reason == "" then "onerror"
    else res.reason
  }

  /** One report row: the fields `toCsv` writes out. */
  datatype Row = Row(id: int, it: string, pl: string, category: string, image: string,
                     status: Status, details: string, abs: string)

  // ---------------------------------------------------------------------
  // Duplicate paths (dupMap)
  // ---------------------------------------------------------------------

  /** The grouping key of a record: its trimmed image, or none without an image. */
  function KeyOf(r: Recipe): Option<string>
  {
    if r.image == "" then None else Some(Trim(r.image))
  }

  /** The ids, in catalog order, of the records grouped under `key`. */
  function IdsForKey(list: seq<Recipe>, key: string): seq<int>
  {
    if list == [] then []
    else IdsForKey(list[..|list| - 1], key) + (if KeyOf(list[|list| - 1]) == Some(key) then [list[|list| - 1].id] else [])
  }

  /** The grouping keys in the order they are first inserted. (`Object.entries`
      puts integer-like keys first, in ascending order; the model keeps
      insertion order for every key.) */
  function KeysInOrder(list: seq<Recipe>): seq<string>
  {
    if list == [] then []
    else
      var ks := KeysInOrder(list[..|list| - 1]);
      match KeyOf(list[|list| - 1])
      case None => ks
      case Some(k) => if k in ks then ks else ks + [k]
  }

  lemma {:induction false} KeysInOrderFacts(list: seq<Recipe>)
    ensures NoDuplicates(KeysInOrder(list))
    ensures forall k :: k in KeysInOrder(list) <==> IdsForKey(list, k) != []
  {
    if list != [] {
      KeysInOrderFacts(list[..|list| - 1]);
    }
  }

  /** Record i is in the group of `key` under id x. */
  predicate GroupedAs(list: seq<Recipe>, i: int, key: string, x: int)
  {
    0 <= i < |list| && list[i].id == x && KeyOf(list[i]) == Some(key)
  }

  /** A group holds exactly the ids of the records whose trimmed image is its key. */
  lemma {:induction false} IdsForKeyMembers(list: seq<Recipe>, key: string, x: int)
    ensures x in IdsForKey(list, key) <==> exists i :: GroupedAs(list, i, key, x)
  {
    if list != [] {
      var init, last := list[..|list| - 1], list[|list| - 1];
      IdsForKeyMembers(init, key, x);
      var tail := if KeyOf(last) == Some(key) then [last.id] else [];
      assert IdsForKey(list, key) == IdsForKey(init, key) + tail;
      assert x in IdsForKey(list, key) <==> x in IdsForKey(init, key) || x in tail;
      assert x in tail <==> GroupedAs(list, |list| - 1, key, x);
      forall i | 0 <= i < |init|
        ensures GroupedAs(list, i, key, x) <==> GroupedAs(init, i, key, x)
      {
        assert list[i] == init[i];
      }
    }
  }

  /** The duplicate map built by the loop, when the check box is ticked. */
  method BuildDupMap(list: seq<Recipe>, dupChecked: bool) returns (dupMap: map<string, seq<int>>, keys: seq<string>)
    ensures keys == if dupChecked then KeysInOrder(list) else []
    ensures dupMap == DupMapOf(list, dupChecked)
  {
    dupMap, keys := map[], [];
    if !dupChecked {
      return;
    }
    var i := 0;
    while i < |list|
      invariant 0 <= i <= |list|
      invariant keys == KeysInOrder(list[..i])
      invariant forall k :: k in dupMap <==> k in keys
      invariant forall k :: k in dupMap ==> dupMap[k] == IdsForKey(list[..i], k)
    {
      var r := list[i];
      assert list[..i + 1][..i] == list[..i];
      assert list[..i + 1][i] == r;
      KeysInOrderFacts(list[..i]);
      if r.image != "" {
        var key := Trim(r.image);
        var ids := if key in dupMap then dupMap[key] else [];
        dupMap := dupMap[key := ids + [r.id]];
        if key !in keys {
          keys := keys + [key];
        }
      }
      i := i + 1;
    }
    assert list[..i] == list;
    KeysInOrderFacts(list);
    DupMapOfSpec(list, dupChecked);
    assert forall k :: k in dupMap <==> k in DupMapOf(list, dupChecked);
  }

  /** The value `dupMap` ends up with, as a function of the catalog. */
  function DupMapOf(list: seq<Recipe>, dupChecked: bool): map<string, seq<int>>
  {
    if dupChecked then map k | k in KeysInOrder(list) :: IdsForKey(list, k) else map[]
  }

  /** Without the check box the map is empty; with it, its keys are the
      trimmed non-empty images and each maps to the ids of its group. */
  lemma DupMapOfSpec(list: seq<Recipe>, dupChecked: bool)
    ensures var m := DupMapOf(list, dupChecked);
      && (!dupChecked ==> m == map[])
      && (dupChecked ==> forall k :: k in m <==> IdsForKey(list, k) != [])
      && (forall k :: k in m ==> m[k] == IdsForKey(list, k))
  {
    KeysInOrderFacts(list);
  }

  /** The duplicate test of a row: the lookup uses the raw image, while the
      groups are keyed by the trimmed image. */
  function HasDup(r: Recipe, dupChecked: bool, dupMap: map<string, seq<int>>): bool
  {
    dupChecked && r.image != "" && r.image in dupMap && |dupMap[r.image]| > 1
  }

  /** The other ids of the row's group: every id that differs from its own. */
  function OtherIds(ids: seq<int>, own: int): (r: seq<int>)
    ensures forall x :: x in r <==> x in ids && x != own
    ensures |r| <= |ids|
  {
    if ids == [] then []
    else (if ids[0] != own then [ids[0]] else []) + OtherIds(ids[1..], own)
  }

  /** An image with white space around it is never reported as a duplicate:
      every key of the map is a trimmed path, so the raw lookup misses. */
  lemma {:induction false} PaddedImageNeverDuplicate(list: seq<Recipe>, r: Recipe, dupChecked: bool)
    requires r.image != Trim(r.image)
    ensures !HasDup(r, dupChecked, DupMapOf(list, dupChecked))
  {
    var m := DupMapOf(list, dupChecked);
    DupMapOfSpec(list, dupChecked);
    if r.image in m {
      assert IdsForKey(list, r.image) != [];
      var x := IdsForKey(list, r.image)[0];
      IdsForKeyMembers(list, r.image, x);
      var i :| GroupedAs(list, i, r.image, x);
      TrimFacts(list[i].image);
      TrimFacts(r.image);
    }
  }

  /** With the check on, a row whose image is exactly its group key is flagged
      iff some other record shares the trimmed path, and the details list
      exactly the ids of the group other than its own. */
  lemma DuplicateDetails(list: seq<Recipe>, r: Recipe, x: int)
    requires r.image != "" && r.image == Trim(r.image)
    requires r in list
    ensures HasDup(r, true, DupMapOf(list, true)) <==> |IdsForKey(list, r.image)| > 1
    ensures x in OtherIds(IdsForKey(list, r.image), r.id) <==> x != r.id && exists i :: GroupedAs(list, i, r.image, x)
  {
    DupMapOfSpec(list, true);
    IdsForKeyMembers(list, r.image, r.id);
    IdsForKeyMembers(list, r.image, x);
  }

  /** `row` of `runAudit` for one record, given its normalised URL and probe result. */
  function AuditRow(r: Recipe, dupChecked: bool, dupMap: map<string, seq<int>>, abs: string, res: ProbeResult): Row
  {
    var issues := SanitizeIssues(r.image);
    var hasDup := HasDup(r, dupChecked, dupMap);
    var others := if hasDup then OtherIds(dupMap[r.image], r.id) else [];
    Row(r.id, r.italianName, r.polishName, r.category, r.image,
        RowStatus(res, r.image, issues, hasDup), RowDetails(res, r.image, issues, hasDup, others), abs)
  }

  // ---------------------------------------------------------------------
  // The audit run and its counters
  // ---------------------------------------------------------------------

  /** Which counter a row increments: `missing` for a row without an image
      (whatever the probe said), then `broken`, `warn`, `ok` by status. */
  function Counter(row: Row): Status
  {
    if row.image == "" then Missing else row.status
  }

  function CountCounter(rows: seq<Row>, c: Status): (n: nat)
    ensures n <= |rows|
  {
    if rows == [] then 0
    else CountCounter(rows[..|rows| - 1], c) + (if Counter(rows[|rows| - 1]) == c then 1 else 0)
  }

  /** The counter branch of `runAudit` picks Counter of the row it builds. */
  lemma CounterOfAuditRow(r: Recipe, dupChecked: bool, dupMap: map<string, seq<int>>, abs: string, res: ProbeResult)
    ensures Counter(AuditRow(r, dupChecked, dupMap, abs, res)) ==
      if r.image == "" then Missing else if res.Failed? then Broken
      else if |SanitizeIssues(r.image)| > 0 || HasDup(r, dupChecked, dupMap) then OkWithWarnings else Ok
  {
  }

  lemma CountCounterSnoc(rows: seq<Row>, row: Row)
    ensures forall c :: CountCounter(rows + [row], c) == CountCounter(rows, c) + (if Counter(row) == c then 1 else 0)
  {
    assert (rows + [row])[..|rows|] == rows;
  }

  function CountStatus(rows: seq<Row>, s: Status): (n: nat)
    ensures n <= |rows|
  {
    if rows == [] then 0
    else CountStatus(rows[..|rows| - 1], s) + (if rows[|rows| - 1].status == s then 1 else 0)
  }

  /** The duplicate groups the summary reports: keys with more than one id,
      in key order. */
  function DuplicateGroups(keys: seq<string>, dupMap: map<string, seq<int>>): (r: seq<(string, seq<int>)>)
    requires forall k :: k in keys ==> k in dupMap
    ensures forall g :: g in r <==> g.0 in keys && g.1 == dupMap[g.0] && |g.1| > 1
  {
    if keys == [] then []
    else (if |dupMap[keys[0]]| > 1 then [(keys[0], dupMap[keys[0]])] else []) + DuplicateGroups(keys[1..], dupMap)
  }

  datatype Summary = Summary(total: nat, ok: nat, missing: nat, broken: nat, warn: nat,
                             duplicates: seq<(string, seq<int>)>)

  /** Every row bumps exactly one counter, so the four counters add up to the total. */
  lemma {:induction false} CountersPartitionRows(rows: seq<Row>)
    ensures CountCounter(rows, Ok) + CountCounter(rows, OkWithWarnings)
          + CountCounter(rows, Broken) + CountCounter(rows, Missing) == |rows|
  {
    if rows != [] {
      CountersPartitionRows(rows[..|rows| - 1]);
    }
  }

  /** When no record without an image has a probe that loaded, the counters
      are exactly the numbers of rows with each status. */
  lemma {:induction false} CountersMatchStatuses(rows: seq<Row>, c: Status)
    requires forall i :: 0 <= i < |rows| && rows[i].image == "" ==> rows[i].status == Missing
    ensures CountCounter(rows, c) == CountStatus(rows, c)
  {
    if rows != [] {
      CountersMatchStatuses(rows[..|rows| - 1], c);
    }
  }

  /** The row `runAudit` produces for a record whose probe is settled by `first`. */
  function RecordRow(r: Recipe, dupChecked: bool, dupMap: map<string, seq<int>>, resolved: Resolutions, first: ProbeEvent): Row
  {
    var abs := ToAbs(r.image, resolved);
    AuditRow(r, dupChecked, dupMap, abs, ProbeOutcome(abs, first))
  }

  /** A record without an image is probed at `toAbs("")`, the page's own
      address when the parser accepts the empty reference. Only when it
      throws is the probe the empty-URL one that fails at once with
      "brak pola image"; otherwise the first event decides the status, and a
      load makes the row OK although the record is counted as missing. */
  lemma ImagelessRecordProbe(r: Recipe, dupChecked: bool, dupMap: map<string, seq<int>>, resolved: Resolutions, first: ProbeEvent)
    requires r.image == ""
    ensures var row := RecordRow(r, dupChecked, dupMap, resolved, first);
      && row.abs == (if "" in resolved then resolved[""] else "")
      && Counter(row) == Missing
      && (row.abs == "" ==> row.status == Missing && row.details == NoImageReason)
      && (row.abs != "" ==> row.status == (if first == ImageLoaded then Ok else Missing))
      && (row.abs != "" && first == ImageLoaded ==> row.details == "")
  {
  }

  /** The rows of the records of `list`, the i-th probe settled by the i-th event. */
  function RecordRows(list: seq<Recipe>, dupChecked: bool, dupMap: map<string, seq<int>>, resolved: Resolutions, firstEvents: seq<ProbeEvent>): (rows: seq<Row>)
    requires |list| <= |firstEvents|
    ensures |rows| == |list|
  {
    if list == [] then []
    else
      var n := |list| - 1;
      RecordRows(list[..n], dupChecked, dupMap, resolved, firstEvents) + [RecordRow(list[n], dupChecked, dupMap, resolved, firstEvents[n])]
  }

  lemma RecordRowsSnoc(list: seq<Recipe>, i: nat, dupChecked: bool, dupMap: map<string, seq<int>>, resolved: Resolutions, firstEvents: seq<ProbeEvent>)
    requires i < |list| <= |firstEvents|
    ensures RecordRows(list[..i + 1], dupChecked, dupMap, resolved, firstEvents) ==
      RecordRows(list[..i], dupChecked, dupMap, resolved, firstEvents) + [RecordRow(list[i], dupChecked, dupMap, resolved, firstEvents[i])]
  {
    assert list[..i + 1][..i] == list[..i];
  }

  lemma {:induction false} RecordRowsAt(list: seq<Recipe>, dupChecked: bool, dupMap: map<string, seq<int>>, resolved: Resolutions, firstEvents: seq<ProbeEvent>)
    requires |list| <= |firstEvents|
    ensures forall i {:trigger RecordRow(list[i], dupChecked, dupMap, resolved, firstEvents[i])} :: 0 <= i < |list| ==>
      RecordRows(list, dupChecked, dupMap, resolved, firstEvents)[i] == RecordRow(list[i], dupChecked, dupMap, resolved, firstEvents[i])
  {
    if list != [] {
      var n := |list| - 1;
      RecordRowsAt(list[..n], dupChecked, dupMap, resolved, firstEvents);
      assert forall i :: 0 <= i < n ==> list[..n][i] == list[i];
    }
  }

  /** The four counters of `runAudit`. */
  datatype Counts = Counts(ok: nat, missing: nat, broken: nat, warn: nat)

  /** One counter raised: the `++` of the if-cascade. */
  function Bump(counts: Counts, counter: Status): Counts
  {
    match counter
    case Missing => counts.(missing := counts.missing + 1)
    case Broken => counts.(broken := counts.broken + 1)
    case OkWithWarnings => counts.(warn := counts.warn + 1)
    case Ok => counts.(ok := counts.ok + 1)
  }

  /** The counters after a run over rows. */
  function CountsOf(rows: seq<Row>): Counts
  {
    Counts(CountCounter(rows, Ok), CountCounter(rows, Missing), CountCounter(rows, Broken), CountCounter(rows, OkWithWarnings))
  }

  lemma CountsOfSnoc(rows: seq<Row>, row: Row)
    ensures CountsOf(rows + [row]) == Bump(CountsOf(rows), Counter(row))
  {
    CountCounterSnoc(rows, row);
  }

  /** The body of the `runAudit` loop for one record: its row, and the
      counter the if-cascade on image, probe result, issues and duplicate
      picks raises. */
  method AuditRecord(r: Recipe, dupChecked: bool, dupMap: map<string, seq<int>>, resolved: Resolutions, first: ProbeEvent, counts: Counts)
    returns (row: Row, counts': Counts)
    ensures row == RecordRow(r, dupChecked, dupMap, resolved, first)
    ensures counts' == Bump(counts, Counter(row))
  {
    var abs := ToAbs(r.image, resolved);
    var res := ProbeOutcome(abs, first);
    var issues := SanitizeIssues(r.image);
    var hasDup := HasDup(r, dupChecked, dupMap);
    row := AuditRow(r, dupChecked, dupMap, abs, res);
    CounterOfAuditRow(r, dupChecked, dupMap, abs, res);
    if r.image == "" {
      counts' := counts.(missing := counts.missing + 1);
    } else if res.Failed? {
      counts' := counts.(broken := counts.broken + 1);
    } else if |issues| > 0 || hasDup {
      counts' := counts.(warn := counts.warn + 1);
    } else {
      counts' := counts.(ok := counts.ok + 1);
    }
  }

  /** The loop of `runAudit`: one row per record, and the four counters. */
  method AuditRecords(list: seq<Recipe>, dupChecked: bool, dupMap: map<string, seq<int>>, resolved: Resolutions, firstEvents: seq<ProbeEvent>)
    returns (rows: seq<Row>, counts: Counts)
    requires |firstEvents| == |list|
    ensures |rows| == |list|
    ensures forall i {:trigger RecordRow(list[i], dupChecked, dupMap, resolved, firstEvents[i])} :: 0 <= i < |list| ==> rows[i] == RecordRow(list[i], dupChecked, dupMap, resolved, firstEvents[i])
    ensures counts == CountsOf(rows)
  {
    counts := Counts(0, 0, 0, 0);
    rows := [];
    var i := 0;
    while i < |list|
      invariant 0 <= i <= |list|
      invariant rows == RecordRows(list[..i], dupChecked, dupMap, resolved, firstEvents)
      invariant counts == CountsOf(rows)
    {
      var row;
      row, counts := AuditRecord(list[i], dupChecked, dupMap, resolved, firstEvents[i], counts);
      CountsOfSnoc(rows, row);
      RecordRowsSnoc(list, i, dupChecked, dupMap, resolved, firstEvents);
      rows := rows + [row];
      i := i + 1;
    }
    assert list[..i] == list;
    RecordRowsAt(list, dupChecked, dupMap, resolved, firstEvents);
  }

  /** `runAudit` on a catalog: one row per record in catalog order, each
      probe settled by its first event, and the summary counters. */
  method Audit(list: seq<Recipe>, dupChecked: bool, resolved: Resolutions, firstEvents: seq<ProbeEvent>)
    returns (rows: seq<Row>, summary: Summary)
    requires |firstEvents| == |list|
    ensures |rows| == |list|
    ensures forall i :: 0 <= i < |list| ==>
      rows[i] == RecordRow(list[i], dupChecked, DupMapOf(list, dupChecked), resolved, firstEvents[i])
    ensures summary.total == |list|
    ensures summary.ok == CountCounter(rows, Ok) && summary.warn == CountCounter(rows, OkWithWarnings)
    ensures summary.broken == CountCounter(rows, Broken) && summary.missing == CountCounter(rows, Missing)
    ensures summary.ok + summary.warn + summary.broken + summary.missing == summary.total
    ensures forall g :: g in summary.duplicates <==>
      dupChecked && g.0 in KeysInOrder(list) && g.1 == IdsForKey(list, g.0) && |g.1| > 1
    ensures !dupChecked || list == [] ==> summary.duplicates == []
  {
    var dupMap, keys := BuildDupMap(list, dupChecked);
    var counts;
    rows, counts := AuditRecords(list, dupChecked, dupMap, resolved, firstEvents);
    CountersPartitionRows(rows);
    summary := Summary(|list|, counts.ok, counts.missing, counts.broken, counts.warn, DuplicateGroups(keys, dupMap));
  }
}
