/** The progress reporter: a keyed rate limiter with exemptions, in front of a short retry loop. */
module ProgressThrottle {
  import opened Options

  // The fields of a report that decide whether it may be dropped.
  datatype Report = Report(
    taskId: string,
    step: string,
    status: string,
    hasHostAttempts: bool,
    selectedServer: bool,
    timelineEvent: bool,
    scope: Option<string>,
    phase: Option<string>)

  const TERMINAL_STATUSES: set<string> := {"COMPLETED", "FAILED", "CANCELLED"}
  const CRITICAL_SESSION_PHASES: set<string> := {"ready", "automation_failed", "failed", "closed", "closing"}

  function Upper(s: string): string {
    seq(|s|, i requires 0 <= i < |s| => if 'a' <= s[i] <= 'z' then s[i] - 'a' + 'A' else s[i])
  }

  function Lower(s: string): string {
    seq(|s|, i requires 0 <= i < |s| => if 'A' <= s[i] <= 'Z' then s[i] - 'A' + 'a' else s[i])
  }

  predicate IsSession(r: Report) {
    r.step == "SESSION" || r.scope == Some("session")
  }

  predicate HasPhase(r: Report) {
    r.phase.Some? && r.phase.value != ""
  }

  /** Reports that are never dropped. */
  predicate IsExempt(r: Report, interval: real) {
    || Upper(r.status) in TERMINAL_STATUSES
    || r.hasHostAttempts || r.selectedServer || r.timelineEvent
    || interval <= 0.0
    || (IsSession(r) && HasPhase(r) && Lower(r.phase.value) in CRITICAL_SESSION_PHASES)
  }

  function KeyOf(r: Report): string {
    if IsSession(r) then r.taskId + ":" + r.step + ":" + (if HasPhase(r) then r.phase.value else "none")
    else r.taskId + ":" + r.step
  }

  type Table = map<string, real>

  /** The decision at clock reading `now`, and the table after it. */
  function Decide(table: Table, interval: real, r: Report, now: real): (bool, Table) {
    if IsExempt(r, interval) then (false, table)
    else
      var last := if KeyOf(r) in table then table[KeyOf(r)] else 0.0;
      if now - last < interval then (true, table) else (false, table[KeyOf(r) := now])
  }

  // ---------- a stream of reports ----------

  type Stream = seq<(Report, real)>

  function TableAfter(interval: real, stream: Stream): Table {
    if stream == [] then map[]
    else
      var (r, now) := stream[|stream| - 1];
      Decide(TableAfter(interval, stream[..|stream| - 1]), interval, r, now).1
  }

  /** Whether report n of the stream is dropped. */
  predicate Throttled(interval: real, stream: Stream, n: nat)
    requires n < |stream|
  {
    Decide(TableAfter(interval, stream[..n]), interval, stream[n].0, stream[n].1).0
  }

  /** The clock readings of the non-exempt reports let through for one key, in order. */
  function LetThrough(interval: real, stream: Stream, key: string): seq<real> {
    if stream == [] then []
    else
      var (r, now) := stream[|stream| - 1];
      var front := stream[..|stream| - 1];
      LetThrough(interval, front, key) +
      if !IsExempt(r, interval) && KeyOf(r) == key && !Decide(TableAfter(interval, front), interval, r, now).0 then [now] else []
  }

  /** The table remembers, for each key, the last report let through. */
  lemma {:induction false} TableIsLastLetThrough(interval: real, stream: Stream, key: string)
    ensures var times := LetThrough(interval, stream, key);
      var table := TableAfter(interval, stream);
      && (key in table <==> times != [])
      && (times != [] ==> table[key] == times[|times| - 1])
    decreases |stream|
  {
    if stream != [] { TableIsLastLetThrough(interval, stream[..|stream| - 1], key); }
  }

  ghost predicate Spaced(times: seq<real>, interval: real) {
    forall i, j | 0 <= i < j < |times| :: times[j] - times[i] >= interval
  }

  /** Whatever the clock does, two reports let through for one key are an interval apart. */
  lemma {:induction false} LetThroughSpaced(interval: real, stream: Stream, key: string)
    ensures interval > 0.0 ==> Spaced(LetThrough(interval, stream, key), interval)
    decreases |stream|
  {
    if stream != [] && interval > 0.0 {
      var front := stream[..|stream| - 1];
      LetThroughSpaced(interval, front, key);
      TableIsLastLetThrough(interval, front, key);
      var times := LetThrough(interval, front, key);
      assert forall i | 0 <= i < |times| :: times[|times| - 1] >= times[i];
    }
  }

  // ---------- the rate ----------

  /** How many readings lie in the window from `from` to `to`. */
  function CountIn(times: seq<real>, from: real, to: real): nat {
    if times == [] then 0
    else CountIn(times[..|times| - 1], from, to) + if from <= times[|times| - 1] <= to then 1 else 0
  }

  lemma {:induction false} NoneAbove(times: seq<real>, from: real, top: real, to: real)
    requires top <= to && forall i | 0 <= i < |times| :: times[i] <= top
    ensures CountIn(times, from, to) == CountIn(times, from, top)
    decreases |times|
  {
    if times != [] { NoneAbove(times[..|times| - 1], from, top, to); }
  }

  lemma {:induction false} NoneInside(times: seq<real>, from: real, to: real)
    requires to < from
    ensures CountIn(times, from, to) == 0
    decreases |times|
  {
    if times != [] { NoneInside(times[..|times| - 1], from, to); }
  }

  /** Division by a positive real, one step of the interval at a time. */
  lemma FloorStep(length: real, interval: real)
    requires interval > 0.0
    ensures ((length - interval) / interval).Floor == (length / interval).Floor - 1
  {
    var quotient := length / interval;
    assert quotient * interval == length;
    Quotient(length - interval, quotient - 1.0, interval);
  }

  lemma Quotient(product: real, quotient: real, interval: real)
    requires interval > 0.0 && product == quotient * interval
    ensures product / interval == quotient
  {
  }

  lemma FloorMonotone(a: real, b: real, interval: real)
    requires interval > 0.0 && a <= b
    ensures (a / interval).Floor <= (b / interval).Floor
  {
    assert b / interval - a / interval == (b - a) / interval;
    assert (b - a) / interval >= 0.0;
  }

  lemma FloorNonNegative(a: real, interval: real)
    requires interval > 0.0 && a >= 0.0
    ensures (a / interval).Floor >= 0
  {
    assert a / interval >= 0.0;
  }

  lemma {:induction false} SpacedCount(times: seq<real>, from: real, to: real, interval: real)
    requires interval > 0.0 && from <= to && Spaced(times, interval)
    ensures CountIn(times, from, to) <= ((to - from) / interval).Floor + 1
    decreases |times|
  {
    FloorNonNegative(to - from, interval);
    if times != [] {
      var front, last := times[..|times| - 1], times[|times| - 1];
      if from <= last <= to {
        var top := last - interval;
        NoneAbove(front, from, top, to);
        if top < from {
          NoneInside(front, from, top);
        } else {
          SpacedCount(front, from, top, interval);
          FloorStep(last - from, interval);
          FloorMonotone(last - from, to - from, interval);
          assert top - from == last - from - interval;
        }
      } else {
        SpacedCount(front, from, to, interval);
      }
    }
  }

  /** In any window of length T at most floor(T / interval) + 1 non-exempt reports of one key get through. */
  lemma RateBound(interval: real, stream: Stream, key: string, from: real, length: real)
    requires interval > 0.0 && length >= 0.0
    ensures CountIn(LetThrough(interval, stream, key), from, from + length) <= (length / interval).Floor + 1
  {
    LetThroughSpaced(interval, stream, key);
    SpacedCount(LetThrough(interval, stream, key), from, from + length, interval);
    assert from + length - from == length;
  }

  /**
   A report is dropped exactly when it is not exempt and one was let through for its key less than an
   interval before; the first report of a key is dropped exactly when the clock itself reads less than that.
   */
  lemma ThrottledExactly(interval: real, stream: Stream, n: nat)
    requires n < |stream|
    ensures var (r, now) := stream[n];
      var before := LetThrough(interval, stream[..n], KeyOf(r));
      Throttled(interval, stream, n) <==>
        !IsExempt(r, interval) && (if before == [] then now < interval else now - before[|before| - 1] < interval)
  {
    TableIsLastLetThrough(interval, stream[..n], KeyOf(stream[n].0));
  }

  /** An exempt report leaves the table alone, so it costs no other report its turn. */
  lemma ExemptIsInvisible(interval: real, stream: Stream, r: Report, now: real)
    requires IsExempt(r, interval)
    ensures !Throttled(interval, stream + [(r, now)], |stream|)
    ensures TableAfter(interval, stream + [(r, now)]) == TableAfter(interval, stream)
  {
    var longer := stream + [(r, now)];
    assert longer[..|stream|] == stream && longer[|stream|] == (r, now);
    ExemptDecision(TableAfter(interval, stream), interval, r, now);
  }

  lemma ExemptDecision(table: Table, interval: real, r: Report, now: real)
    requires IsExempt(r, interval)
    ensures Decide(table, interval, r, now) == (false, table)
  {
  }

  // ---------- what is exempt, and what shares a key ----------

  /** The same letter in either case, or the same character. */
  predicate SameLetter(a: char, b: char) {
    || a == b
    || ('A' <= a <= 'Z' && b as int == a as int + 32)
    || ('A' <= b <= 'Z' && a as int == b as int + 32)
  }

  predicate SameWord(a: string, b: string) {
    |a| == |b| && forall i | 0 <= i < |a| :: SameLetter(a[i], b[i])
  }

  /** Two characters are the same letter exactly when they agree in capitals, and exactly when they agree in small ones. */
  lemma SameLetterExactly(a: char, b: char)
    ensures SameLetter(a, b) <==> Upper([a])[0] == Upper([b])[0]
    ensures SameLetter(a, b) <==> Lower([a])[0] == Lower([b])[0]
  {
  }

  lemma CaseOf(s: string, i: nat)
    requires i < |s|
    ensures Upper(s)[i] == Upper([s[i]])[0] && Lower(s)[i] == Lower([s[i]])[0]
  {
  }

  lemma SameWordExactly(a: string, b: string)
    ensures SameWord(a, b) <==> Upper(a) == Upper(b)
    ensures SameWord(a, b) <==> Lower(a) == Lower(b)
  {
    if |a| == |b| {
      forall i | 0 <= i < |a|
        ensures SameLetter(a[i], b[i]) <==> Upper(a)[i] == Upper(b)[i]
        ensures SameLetter(a[i], b[i]) <==> Lower(a)[i] == Lower(b)[i]
      {
        SameLetterExactly(a[i], b[i]);
        CaseOf(a, i);
        CaseOf(b, i);
      }
      hide SameLetter;
      assert Upper(a) == Upper(b) <==> forall i | 0 <= i < |a| :: Upper(a)[i] == Upper(b)[i];
      assert Lower(a) == Lower(b) <==> forall i | 0 <= i < |a| :: Lower(a)[i] == Lower(b)[i];
    }
  }

  predicate IsOneOf(word: string, words: seq<string>) {
    exists i | 0 <= i < |words| :: SameWord(word, words[i])
  }

  /** Exempt are: final statuses, the three flags, a limiter that is off, and sessions in a critical phase; in any letter case. */
  lemma ExemptExactly(r: Report, interval: real)
    ensures IsExempt(r, interval) <==>
      || IsOneOf(r.status, ["COMPLETED", "FAILED", "CANCELLED"])
      || r.hasHostAttempts || r.selectedServer || r.timelineEvent || interval <= 0.0
      || ((r.step == "SESSION" || r.scope == Some("session"))
          && r.phase.Some? && IsOneOf(r.phase.value, ["ready", "automation_failed", "failed", "closed", "closing"]))
  {
    StatusIsOneOf(r.status);
    if r.phase.Some? { PhaseIsOneOf(r.phase.value); }
    hide IsOneOf, Upper, Lower;
  }

  lemma StatusIsOneOf(status: string)
    ensures IsOneOf(status, ["COMPLETED", "FAILED", "CANCELLED"]) <==> Upper(status) in TERMINAL_STATUSES
  {
    var words := ["COMPLETED", "FAILED", "CANCELLED"];
    forall i | 0 <= i < |words|
      ensures SameWord(status, words[i]) <==> Upper(status) == words[i]
    {
      SameWordExactly(status, words[i]);
      assert Upper(words[i]) == words[i];
    }
    hide SameWord, Upper;
    assert IsOneOf(status, words) <==> exists i | 0 <= i < |words| :: Upper(status) == words[i];
    assert words[0] == "COMPLETED" && words[1] == "FAILED" && words[2] == "CANCELLED";
  }

  lemma PhaseIsOneOf(phase: string)
    ensures IsOneOf(phase, ["ready", "automation_failed", "failed", "closed", "closing"]) <==>
      phase != "" && Lower(phase) in CRITICAL_SESSION_PHASES
  {
    var words := ["ready", "automation_failed", "failed", "closed", "closing"];
    forall i | 0 <= i < |words|
      ensures SameWord(phase, words[i]) <==> Lower(phase) == words[i]
    {
      SameWordExactly(phase, words[i]);
      assert Lower(words[i]) == words[i];
    }
    assert phase == "" ==> Lower(phase) == "";
    hide SameWord, Lower;
    assert IsOneOf(phase, words) <==> exists i | 0 <= i < |words| :: Lower(phase) == words[i];
    assert words[0] == "ready" && words[1] == "automation_failed" && words[2] == "failed" && words[3] == "closed" && words[4] == "closing";
  }

  // Task ids and step names as the platform gives them hold no colon.
  predicate Plain(s: string) {
    ':' !in s
  }

  /** Two plain pieces joined by colons can be told apart again. */
  lemma {:induction false} FirstPiece(a: string, restA: string, b: string, restB: string)
    requires Plain(a) && Plain(b) && a + ":" + restA == b + ":" + restB
    ensures a == b && restA == restB
  {
    var joined := a + ":" + restA;
    assert joined[|a|] == ':' && (b + ":" + restB)[|b|] == ':';
    assert |a| == |b|;
    assert joined[..|a|] == a && joined[..|b|] == b;
    assert joined[|a| + 1..] == restA && joined[|b| + 1..] == restB;
  }

  lemma NoSplit(a: string, b: string, restB: string)
    requires Plain(a)
    ensures a != b + ":" + restB
  {
    assert (b + ":" + restB)[|b|] == ':';
  }

  /** What a session report is limited by besides its step: its phase, "none" standing for a missing one. */
  function PhaseLabel(r: Report): string {
    match r.phase
    case None => "none"
    case Some(phase) => if phase == "" then "none" else phase
  }

  /**
   Two reports share a key exactly when they are of one task and one step, and both are session reports of the
   same phase or neither is a session report.
   */
  lemma SameKeyExactly(a: Report, b: Report)
    requires Plain(a.taskId) && Plain(a.step) && Plain(b.taskId) && Plain(b.step)
    ensures KeyOf(a) == KeyOf(b) <==>
      && a.taskId == b.taskId && a.step == b.step
      && (IsSession(a) <==> IsSession(b))
      && (IsSession(a) ==> PhaseLabel(a) == PhaseLabel(b))
  {
    var restA := if IsSession(a) then a.step + ":" + PhaseLabel(a) else a.step;
    var restB := if IsSession(b) then b.step + ":" + PhaseLabel(b) else b.step;
    assert KeyOf(a) == a.taskId + ":" + restA && KeyOf(b) == b.taskId + ":" + restB;
    if KeyOf(a) == KeyOf(b) {
      FirstPiece(a.taskId, restA, b.taskId, restB);
      NoSplit(a.step, b.step, PhaseLabel(b));
      NoSplit(b.step, a.step, PhaseLabel(a));
      if IsSession(a) && IsSession(b) { FirstPiece(a.step, PhaseLabel(a), b.step, PhaseLabel(b)); }
    }
  }

  /** With colons two different tasks can share one. */
  lemma ColonsCollide()
    ensures var a := Report("t:1", "STEP", "RUNNING", false, false, false, None, None);
      var b := Report("t", "1:STEP", "RUNNING", false, false, false, None, None);
      a.taskId != b.taskId && KeyOf(a) == KeyOf(b)
  {
    assert "t:1" + ":" + "STEP" == "t:1:STEP" == "t" + ":" + "1:STEP";
  }

  // ---------- the code ----------

  // One try of the POST: accepted by the platform, or failed one way or another.
  datatype Answer = Accepted | Refused

  datatype Outcome = Skipped | Delivered | GaveUp

  class PlatformApiClient {
    var throttleAt: Table
    const interval: real
    const retryCount: nat := 3
    var posts: nat

    constructor (interval: real)
      ensures throttleAt == map[] && posts == 0 && this.interval == interval
    {
      throttleAt, posts, this.interval := map[], 0, interval;
    }

    /** _should_throttle_progress. */
    method ShouldThrottle(r: Report, now: real) returns (throttled: bool)
      modifies this`throttleAt
      ensures (throttled, throttleAt) == Decide(old(throttleAt), interval, r, now)
    {
      if Upper(r.status) in TERMINAL_STATUSES { return false; }
      if r.hasHostAttempts { return false; }
      if r.selectedServer { return false; }
      if r.timelineEvent { return false; }
      if interval <= 0.0 { return false; }
      var key;
      if IsSession(r) {
        if HasPhase(r) && Lower(r.phase.value) in CRITICAL_SESSION_PHASES { return false; }
        key := r.taskId + ":" + r.step + ":" + if HasPhase(r) then r.phase.value else "none";
      } else {
        key := r.taskId + ":" + r.step;
      }
      var last := if key in throttleAt then throttleAt[key] else 0.0;
      if now - last < interval { return true; }
      throttleAt := throttleAt[key := now];
      return false;
    }

    /** report_progress: a dropped report costs no POST; any other is tried until accepted, three times at most. */
    method ReportProgress(r: Report, now: real, answer: nat -> Answer) returns (outcome: Outcome)
      modifies this`throttleAt, this`posts
      ensures var (throttled, table) := Decide(old(throttleAt), interval, r, now);
        && throttleAt == table
        && (outcome.Skipped? <==> throttled)
      ensures outcome.Skipped? ==> posts == old(posts)
      ensures outcome.Delivered? ==>
        && 1 <= posts - old(posts) <= retryCount
        && answer(posts - old(posts) - 1).Accepted?
        && forall i: nat | i < posts - old(posts) - 1 :: answer(i).Refused?
      ensures outcome.GaveUp? ==> posts == old(posts) + retryCount && forall i: nat | i < retryCount :: answer(i).Refused?
    {
      var throttled := ShouldThrottle(r, now);
      if throttled { return Skipped; }
      ghost var table := throttleAt;
      for attempt := 0 to retryCount
        invariant posts == old(posts) + attempt && throttleAt == table
        invariant forall i: nat | i < attempt :: answer(i).Refused?
      {
        posts := posts + 1;
        if answer(attempt).Accepted? { return Delivered; }
      }
      return GaveUp;
    }
  }
}
