/**
 * Incremental fetching for one source and city: jobs claimed by a bucket of the clock, and a cursor
 * read from the jobs that succeeded. Times are hours.
 */
module Cursor {
  import opened Wrappers

  type Time = real
  type RunId = nat

  // ---- job keys ----

  /** The day, and the first hour of the bucket; the comments job has keys of its own. */
  datatype Key = Key(day: int, hour: int, kind: string)

  function Day(now: Time): int { (now / 24.0).Floor }

  function KeyAt(now: Time, interval: int, kind: string): Key {
    var hour := now.Floor - 24 * Day(now);
    var step := if interval > 1 then interval else 1;
    Key(Day(now), hour / step * step, kind)
  }

  /** `t` lies in slot `slot` of `step` hours, of the day. */
  predicate InBucket(day: int, slot: int, step: int, t: Time) {
    && (24 * day) as real <= t < (24 * day + 24) as real
    && (24 * day + slot * step) as real <= t < (24 * day + slot * step + step) as real
  }

  function SlotLength(interval: int): int { if interval > 1 then interval else 1 }

  lemma BucketOf(t: Time, interval: int, kind: string) returns (slot: int)
    ensures InBucket(Day(t), slot, SlotLength(interval), t)
    ensures KeyAt(t, interval, kind) == Key(Day(t), slot * SlotLength(interval), kind)
  {
    var hour := t.Floor - 24 * Day(t);
    var step := SlotLength(interval);
    DayBounds(t);
    slot := hour / step;
    assert hour == slot * step + hour % step;
  }

  lemma DayBounds(t: Time)
    ensures (24 * Day(t)) as real <= t < (24 * Day(t) + 24) as real
  {
    assert Day(t) as real <= t / 24.0 < Day(t) as real + 1.0;
  }

  lemma OneDay(t: Time, day: int)
    requires (24 * day) as real <= t < (24 * day + 24) as real
    ensures day == Day(t)
  {
    DayBounds(t);
  }

  lemma OneSlot(base: int, slot: int, other: int, step: int, t: Time)
    requires step > 0 && (base + slot * step) as real <= t < (base + slot * step + step) as real
    requires (base + other * step) as real <= t < (base + other * step + step) as real
    ensures slot == other
  {
    var x, y := slot * step, other * step;
    assert x < y + step && y < x + step;
    if slot > other { Slots(slot, other, step); }
    if other > slot { Slots(other, slot, step); }
  }

  lemma Slots(slot: int, other: int, step: int)
    requires slot > other && step > 0
    ensures slot * step >= other * step + step
  {
    var d := slot - other - 1;
    assert d * step >= 0;
    assert (other + 1 + d) * step == other * step + step + d * step;
  }

  /** Two instants share a job key exactly if they lie in one slot of one day: slots start at midnight, and the last may be cut short. */
  lemma SameKeyIff(t: Time, u: Time, interval: int, kind: string)
    ensures KeyAt(t, interval, kind) == KeyAt(u, interval, kind)
            <==> exists day, slot :: InBucket(day, slot, SlotLength(interval), t) && InBucket(day, slot, SlotLength(interval), u)
  {
    var step := SlotLength(interval);
    var i := BucketOf(t, interval, kind);
    var j := BucketOf(u, interval, kind);
    if KeyAt(t, interval, kind) == KeyAt(u, interval, kind) {
      SameMultiple(i, j, step);
      assert InBucket(Day(t), i, step, t) && InBucket(Day(t), i, step, u);
    }
    if day, slot :| InBucket(day, slot, step, t) && InBucket(day, slot, step, u) {
      OneDay(t, day);
      OneDay(u, day);
      OneSlot(24 * day, slot, i, step, t);
      OneSlot(24 * day, slot, j, step, u);
    }
  }

  lemma SameMultiple(i: int, j: int, step: int)
    requires step > 0 && i * step == j * step
    ensures i == j
  {
    if i > j { Slots(i, j, step); }
    if j > i { Slots(j, i, step); }
  }

  // ---- state ----

  /** A committed row of the job table. */
  datatype Job = Job(key: Key, created: Time, finished: Time, success: bool)

  /** A run whose transaction is still open. */
  datatype Run = Run(key: Key, created: Time, since: Time, fetched: Option<Time>, finished: Option<Time>)

  /** The reviews of a committed run: everything published from `since` to `fetched`. */
  datatype Window = Window(since: Time, fetched: Time)

  datatype State = State(
    now: Time, interval: int, jobs: seq<Job>, running: map<RunId, Run>, windows: seq<Window>,
    claims: map<Key, Time>)   // when each key was claimed, unless the claim was rolled back

  const Overlap: Time := 2.0
  const FirstLookback: Time := 2160.0
  const Retention: Time := 720.0

  /** The latest finish among the successful jobs. */
  function LatestSuccess(jobs: seq<Job>): (r: Option<Time>)
    ensures r.Some? ==> exists j :: j in jobs && j.success && j.finished == r.value
    ensures r.None? ==> forall j | j in jobs :: !j.success
    ensures r.Some? ==> forall j | j in jobs && j.success :: j.finished <= r.value
  {
    if jobs == [] then None else
      var last, before := jobs[|jobs| - 1], LatestSuccess(jobs[..|jobs| - 1]);
      assert jobs == jobs[..|jobs| - 1] + [last];
      if last.success && (before.None? || last.finished > before.value) then Some(last.finished) else before
  }

  function CursorAt(jobs: seq<Job>, now: Time): Time {
    match LatestSuccess(jobs) case None => now - FirstLookback case Some(t) => t - Overlap
  }

  /** The cursor as the worker reads it from the table. */
  method LastSuccessAt(jobs: seq<Job>, now: Time) returns (since: Time)
    ensures since == CursorAt(jobs, now)
    ensures forall j | j in jobs && j.success :: since >= j.finished - Overlap
  {
    var latest: Option<Time> := None;
    for i := 0 to |jobs|
      invariant latest == LatestSuccess(jobs[..i])
    {
      assert jobs[..i + 1][..i] == jobs[..i];
      if jobs[i].success && (latest.None? || jobs[i].finished > latest.value) {
        latest := Some(jobs[i].finished);
      }
    }
    assert jobs[..|jobs|] == jobs;
    since := if latest.None? then now - FirstLookback else latest.value - Overlap;
  }

  predicate Taken(s: State, key: Key) {
    (exists i | 0 <= i < |s.jobs| :: s.jobs[i].key == key) || (exists r | r in s.running :: s.running[r].key == key)
  }

  datatype Event =
    | Tick(hours: Time)
    | Begin(run: RunId, lookback: Option<Time>)
    | Fetch(run: RunId)
    | Finish(run: RunId)
    | Commit(run: RunId)
    | Fail(run: RunId)
    | Crash(run: RunId)
    | CommentsSucceed
    | Prune

  predicate Enabled(s: State, e: Event) {
    match e
    case Tick(h) => h > 0.0
    case Begin(run, lookback) => run !in s.running && (lookback.Some? ==> lookback.value >= 0.0)
    case Fetch(run) => run in s.running && s.running[run].fetched.None?
    case Finish(run) => run in s.running && s.running[run].fetched.Some? && s.running[run].finished.None?
    case Commit(run) => run in s.running && s.running[run].fetched.Some? && s.running[run].finished.Some?
    case Fail(run) => run in s.running
    case Crash(run) => run in s.running
    case CommentsSucceed => !Taken(s, KeyAt(s.now, 6, "comments"))
    case Prune => true
  }

  function Kept(jobs: seq<Job>, cutoff: Time): (r: seq<Job>)
    ensures forall j :: j in r <==> j in jobs && !(j.success && j.created < cutoff)
  {
    if jobs == [] then [] else
      var last, before := jobs[|jobs| - 1], Kept(jobs[..|jobs| - 1], cutoff);
      assert jobs == jobs[..|jobs| - 1] + [last];
      if last.success && last.created < cutoff then before else before + [last]
  }

  function Started(s: State, run: RunId, lookback: Option<Time>): Run {
    Run(KeyAt(s.now, s.interval, ""), s.now, if lookback.Some? then s.now - lookback.value else CursorAt(s.jobs, s.now), None, None)
  }

  function Step(s: State, e: Event): State
    requires Enabled(s, e)
  {
    match e
    case Tick(h) => s.(now := s.now + h)
    case Begin(run, lookback) =>
      if Taken(s, KeyAt(s.now, s.interval, "")) then s
      else s.(running := s.running[run := Started(s, run, lookback)], claims := s.claims[KeyAt(s.now, s.interval, "") := s.now])
    case Fetch(run) => s.(running := s.running[run := s.running[run].(fetched := Some(s.now))])
    case Finish(run) => s.(running := s.running[run := s.running[run].(finished := Some(s.now))])
    case Commit(run) =>
      var r := s.running[run];
      s.(jobs := s.jobs + [Job(r.key, r.created, r.finished.value, true)], running := s.running - {run},
         windows := s.windows + [Window(r.since, r.fetched.value)])
    case Fail(run) =>
      var r := s.running[run];
      s.(jobs := s.jobs + [Job(r.key, r.created, s.now, false)], running := s.running - {run})
    case Crash(run) => s.(running := s.running - {run}, claims := s.claims - {s.running[run].key})
    case CommentsSucceed =>
      var key := KeyAt(s.now, 6, "comments");
      s.(jobs := s.jobs + [Job(key, s.now, s.now, true)], claims := s.claims[key := s.now])
    case Prune => s.(jobs := Kept(s.jobs, s.now - Retention))
  }

  // ---- each key is claimed once ----

  ghost predicate ClaimSound(s: State, k: Key)
    requires k in s.claims
  {
    k.day == Day(s.claims[k]) && s.claims[k] <= s.now && (Taken(s, k) || s.claims[k] < s.now - Retention)
  }

  /** Claims and the table agree; a claim leaves the table only when its bucket cannot come again. */
  ghost predicate ClaimsInv(s: State) {
    && (forall k | k in s.claims :: ClaimSound(s, k))
    && (forall j | j in s.jobs :: j.key in s.claims && s.claims[j.key] == j.created)
    && (forall r | r in s.running :: s.running[r].key in s.claims && s.claims[s.running[r].key] == s.running[r].created)
    && (forall q, r | q in s.running && r in s.running && s.running[q].key == s.running[r].key :: q == r)
    && (forall j, r | j in s.jobs && r in s.running :: j.key != s.running[r].key)
  }

  lemma OldDay(now: Time, past: Time)
    requires past < now - Retention
    ensures Day(past) != Day(now)
  {
    assert now / 24.0 - past / 24.0 > 30.0;
  }

  /** A key that is free in the table was never claimed before, however many jobs have been pruned. */
  lemma ClaimedOnce(s: State, interval: int, kind: string)
    requires ClaimsInv(s) && !Taken(s, KeyAt(s.now, interval, kind))
    ensures KeyAt(s.now, interval, kind) !in s.claims
  {
    var key := KeyAt(s.now, interval, kind);
    if key in s.claims { OldDay(s.now, s.claims[key]); }
  }

  lemma StillTaken(s: State, e: Event, k: Key)
    requires ClaimsInv(s) && Enabled(s, e) && Taken(s, k)
    ensures Taken(Step(s, e), k) || (e.Prune? && k in s.claims && s.claims[k] < s.now - Retention) || (e.Crash? && k == s.running[e.run].key)
  {
    if i :| 0 <= i < |s.jobs| && s.jobs[i].key == k {
      JobStillTaken(s, e, i);
    } else {
      var r :| r in s.running && s.running[r].key == k;
      if !(e.Crash? && e.run == r) { RunStillTaken(s, e, r); }
    }
  }

  lemma JobStillTaken(s: State, e: Event, i: nat)
    requires ClaimsInv(s) && Enabled(s, e) && i < |s.jobs|
    ensures var k := s.jobs[i].key;
            Taken(Step(s, e), k) || (e.Prune? && k in s.claims && s.claims[k] < s.now - Retention)
  {
    var after := Step(s, e);
    assert s.jobs[i] in s.jobs;
    if e.Prune? {
      if s.jobs[i] in after.jobs { var j :| 0 <= j < |after.jobs| && after.jobs[j] == s.jobs[i]; }
    } else {
      assert after.jobs[i] == s.jobs[i];
    }
  }

  lemma RunStillTaken(s: State, e: Event, r: RunId)
    requires Enabled(s, e) && r in s.running && !(e.Crash? && e.run == r)
    ensures Taken(Step(s, e), s.running[r].key)
  {
    var after := Step(s, e);
    if (e.Commit? || e.Fail?) && e.run == r {
      assert after.jobs[|s.jobs|].key == s.running[r].key;
    } else {
      assert after.running[r].key == s.running[r].key;
    }
  }

  lemma NewClaim(s: State, e: Event, key: Key)
    requires ClaimsInv(s) && Enabled(s, e) && (e.Begin? || e.CommentsSucceed?) && key !in s.claims
    requires Step(s, e).claims == s.claims[key := s.now] && Step(s, e).now == s.now && key.day == Day(s.now) && Taken(Step(s, e), key)
    ensures forall k | k in Step(s, e).claims :: ClaimSound(Step(s, e), k)
  {
    forall k | k in Step(s, e).claims ensures ClaimSound(Step(s, e), k) {
      if k != key {
        assert ClaimSound(s, k);
        if Taken(s, k) { StillTaken(s, e, k); }
      }
    }
  }

  lemma BeginClaims(s: State, e: Event)
    requires ClaimsInv(s) && Enabled(s, e) && e.Begin?
    ensures ClaimsInv(Step(s, e))
  {
    var after, key := Step(s, e), KeyAt(s.now, s.interval, "");
    if !Taken(s, key) {
      ClaimedOnce(s, s.interval, "");
      assert Taken(after, key) by { assert after.running[e.run].key == key; }
      NewClaim(s, e, key);
    }
  }

  lemma CommentsClaim(s: State)
    requires ClaimsInv(s) && Enabled(s, CommentsSucceed)
    ensures ClaimsInv(Step(s, CommentsSucceed))
  {
    var after, key := Step(s, CommentsSucceed), KeyAt(s.now, 6, "comments");
    ClaimedOnce(s, 6, "comments");
    assert Taken(after, key) by { assert after.jobs[|s.jobs|].key == key; }
    NewClaim(s, CommentsSucceed, key);
  }

  lemma OtherClaims(s: State, e: Event)
    requires ClaimsInv(s) && Enabled(s, e) && !e.Begin? && !e.CommentsSucceed?
    ensures forall k | k in Step(s, e).claims :: ClaimSound(Step(s, e), k)
  {
    forall k | k in Step(s, e).claims ensures ClaimSound(Step(s, e), k) {
      assert ClaimSound(s, k);
      if Taken(s, k) { StillTaken(s, e, k); }
    }
  }

  lemma StepKeepsClaims(s: State, e: Event)
    requires ClaimsInv(s) && Enabled(s, e)
    ensures ClaimsInv(Step(s, e))
  {
    if e.Begin? {
      BeginClaims(s, e);
    } else if e.CommentsSucceed? {
      CommentsClaim(s);
    } else {
      OtherClaims(s, e);
    }
  }

  /** A run starts exactly when the key of the present bucket is free; otherwise nothing happens at all. */
  lemma BeginsIff(s: State, run: RunId, lookback: Option<Time>)
    requires Enabled(s, Begin(run, lookback))
    ensures Step(s, Begin(run, lookback)) == s <==> Taken(s, KeyAt(s.now, s.interval, ""))
    ensures run in Step(s, Begin(run, lookback)).running <==> !Taken(s, KeyAt(s.now, s.interval, ""))
  {
    if !Taken(s, KeyAt(s.now, s.interval, "")) {
      assert run in Step(s, Begin(run, lookback)).running;
    }
  }

  /** After a failure was committed a retry does nothing exactly when some job holds the bucket's key; in the same bucket the failed run does. */
  lemma RetryIff(s: State, run: RunId, again: RunId, lookback: Option<Time>, hours: Time)
    requires run in s.running && again !in s.running && Enabled(s, Begin(again, lookback)) && hours > 0.0
    ensures var failed, key := Step(Step(s, Fail(run)), Tick(hours)), KeyAt(s.now + hours, s.interval, "");
            && (Step(failed, Begin(again, lookback)) == failed <==> Taken(s, key))
            && (s.running[run].key == key ==> Taken(s, key))
  {
    var failed, key := Step(Step(s, Fail(run)), Tick(hours)), KeyAt(s.now + hours, s.interval, "");
    BeginsIff(failed, again, lookback);
    SameTaken(s, run, hours, key);
  }

  /** A failed run keeps its key taken: it moves from the open runs to the table. */
  lemma SameTaken(s: State, run: RunId, hours: Time, key: Key)
    requires run in s.running && hours > 0.0
    ensures Taken(Step(Step(s, Fail(run)), Tick(hours)), key) <==> Taken(s, key)
  {
    var failed := Step(Step(s, Fail(run)), Tick(hours));
    assert failed.jobs[|s.jobs|].key == s.running[run].key;
    if i :| 0 <= i < |s.jobs| && s.jobs[i].key == key { assert failed.jobs[i].key == key; }
    if r :| r in s.running && s.running[r].key == key && r != run { assert failed.running[r].key == key; }
    if i :| 0 <= i < |failed.jobs| && failed.jobs[i].key == key { assert i < |s.jobs| ==> s.jobs[i].key == key; }
    if r :| r in failed.running && failed.running[r].key == key { assert s.running[r].key == key; }
  }

  // ---- what the windows cover ----

  ghost predicate Covers(windows: seq<Window>, t: Time) {
    exists i :: 0 <= i < |windows| && windows[i].since <= t <= windows[i].fetched
  }

  /** The last instant fetched. */
  function Frontier(windows: seq<Window>): (r: Time)
    requires windows != []
    ensures forall i | 0 <= i < |windows| :: windows[i].fetched <= r
    ensures exists i :: 0 <= i < |windows| && windows[i].fetched == r
  {
    var n := |windows| - 1;
    if n == 0 then windows[0].fetched else
      var before := Frontier(windows[..n]);
      assert windows == windows[..n] + [windows[n]];
      if windows[n].fetched > before then windows[n].fetched else before
  }

  /** Every instant from the start of the first window to the frontier is covered. */
  ghost predicate NoGap(windows: seq<Window>) {
    windows != [] ==> forall t | windows[0].since <= t <= Frontier(windows) :: Covers(windows, t)
  }

  lemma FrontierAppend(windows: seq<Window>, w: Window)
    requires windows != []
    ensures Frontier(windows + [w]) == if w.fetched > Frontier(windows) then w.fetched else Frontier(windows)
  {
    assert (windows + [w])[..|windows|] == windows;
  }

  lemma CoversAppend(windows: seq<Window>, w: Window, t: Time)
    ensures Covers(windows + [w], t) <==> Covers(windows, t) || w.since <= t <= w.fetched
  {
    if i :| 0 <= i < |windows| && windows[i].since <= t <= windows[i].fetched { assert (windows + [w])[i] == windows[i]; }
    if w.since <= t <= w.fetched { assert (windows + [w])[|windows|] == w; }
  }

  /** Committing a window keeps the cover without gaps exactly when it starts at or before the frontier. */
  lemma {:induction false} NoGapIff(windows: seq<Window>, w: Window)
    requires windows != [] && NoGap(windows) && w.since <= w.fetched && windows[0].since <= Frontier(windows)
    ensures NoGap(windows + [w]) <==> w.since <= Frontier(windows)
  {
    var all, f := windows + [w], Frontier(windows);
    FrontierAppend(windows, w);
    forall t ensures Covers(all, t) <==> Covers(windows, t) || w.since <= t <= w.fetched { CoversAppend(windows, w, t); }
    if w.since > f {
      var t := (f + w.since) / 2.0;
      assert !Covers(windows, t);
      assert !Covers(all, t) && all[0].since <= t <= Frontier(all);
    }
  }

  // ---- careful runs leave no gap ----

  /**
   * What the cursor relies on: no override, no other kind of job on the source, at most two hours
   * from fetch to finish, no transaction open for ninety days, and no ninety days without a success
   * once the successes have been pruned.
   */
  ghost predicate Careful(s: State, e: Event) {
    && Enabled(s, e)
    && match e
       case Tick(h) => forall r | r in s.running :: s.running[r].created >= s.now + h - FirstLookback
       case Begin(_, lookback) =>
         lookback.None? && (LatestSuccess(s.jobs).None? && s.windows != [] ==> s.now - FirstLookback <= Frontier(s.windows))
       case Finish(run) => s.now - s.running[run].fetched.value <= Overlap
       case CommentsSucceed => false
       case _ => true
  }

  ghost predicate RunSound(s: State, r: Run) {
    && s.now - FirstLookback <= r.created <= s.now && r.since <= r.created
    && (r.fetched.Some? ==> r.created <= r.fetched.value <= s.now)
    && (r.finished.Some? ==> r.fetched.Some? && r.fetched.value <= r.finished.value <= r.fetched.value + Overlap && r.finished.value <= s.now)
    && (if s.windows == [] then r.since == r.created - FirstLookback else r.since <= Frontier(s.windows))
  }

  ghost predicate JobSound(s: State, j: Job) {
    j.finished <= s.now && (j.success ==> s.windows != [] && j.finished - Overlap <= Frontier(s.windows))
  }

  ghost predicate CoverInv(s: State) {
    && NoGap(s.windows) && (s.windows != [] ==> s.windows[0].since <= Frontier(s.windows))
    && (forall j | j in s.jobs :: JobSound(s, j))
    && (forall r | r in s.running :: RunSound(s, s.running[r]))
  }

  lemma CommitKeepsCover(s: State, run: RunId)
    requires CoverInv(s) && Careful(s, Commit(run))
    ensures CoverInv(Step(s, Commit(run)))
  {
    var after, r := Step(s, Commit(run)), s.running[run];
    assert RunSound(s, r);
    WindowJoins(s.windows, Window(r.since, r.fetched.value));
    forall q | q in after.running ensures RunSound(after, after.running[q]) { assert RunSound(s, s.running[q]); }
    forall j | j in after.jobs ensures JobSound(after, j) { assert j in s.jobs ==> JobSound(s, j); }
  }

  /** A window that starts at or before the frontier joins the cover, and the frontier never falls. */
  lemma {:induction false} WindowJoins(windows: seq<Window>, w: Window)
    requires NoGap(windows) && w.since <= w.fetched
    requires windows != [] ==> windows[0].since <= Frontier(windows) && w.since <= Frontier(windows)
    ensures NoGap(windows + [w]) && (windows + [w])[0].since <= Frontier(windows + [w])
    ensures w.fetched <= Frontier(windows + [w]) && (windows != [] ==> Frontier(windows) <= Frontier(windows + [w]))
  {
    if windows == [] {
      assert windows + [w] == [w];
      forall t | w.since <= t <= Frontier([w]) ensures Covers([w], t) { assert [w][0] == w; }
    } else {
      FrontierAppend(windows, w);
      NoGapIff(windows, w);
    }
  }

  lemma BeginKeepsCover(s: State, run: RunId)
    requires CoverInv(s) && Careful(s, Begin(run, None))
    ensures CoverInv(Step(s, Begin(run, None)))
  {
    var after := Step(s, Begin(run, None));
    if !Taken(s, KeyAt(s.now, s.interval, "")) {
      if LatestSuccess(s.jobs).Some? {
        var j :| j in s.jobs && j.success && j.finished == LatestSuccess(s.jobs).value;
        assert JobSound(s, j);
      }
      assert RunSound(after, Started(s, run, None));
      forall q | q in after.running ensures RunSound(after, after.running[q]) {
        if q != run { assert RunSound(s, s.running[q]); }
      }
      forall j | j in after.jobs ensures JobSound(after, j) { assert JobSound(s, j); }
    }
  }

  lemma OtherKeepsCover(s: State, e: Event)
    requires CoverInv(s) && Careful(s, e) && !e.Begin? && !e.Commit?
    ensures CoverInv(Step(s, e))
  {
    var after := Step(s, e);
    forall q | q in after.running ensures RunSound(after, after.running[q]) { assert RunSound(s, s.running[q]); }
    forall j | j in after.jobs ensures JobSound(after, j) { assert j in s.jobs ==> JobSound(s, j); }
  }

  lemma StepKeepsCover(s: State, e: Event)
    requires CoverInv(s) && Careful(s, e)
    ensures CoverInv(Step(s, e))
  {
    if e.Begin? {
      BeginKeepsCover(s, e.run);
    } else if e.Commit? {
      CommitKeepsCover(s, e.run);
    } else {
      OtherKeepsCover(s, e);
    }
  }

  ghost predicate IsCarefulRun(s: State, es: seq<Event>)
    decreases |es|
  {
    es == [] || (Careful(s, es[0]) && IsCarefulRun(Step(s, es[0]), es[1..]))
  }

  ghost function After(s: State, es: seq<Event>): State
    requires IsCarefulRun(s, es)
    decreases |es|
  {
    if es == [] then s else After(Step(s, es[0]), es[1..])
  }

  function Start(now: Time, interval: int): State { State(now, interval, [], map[], [], map[]) }

  lemma {:induction false} RunKeepsCover(s: State, es: seq<Event>)
    requires CoverInv(s) && ClaimsInv(s) && IsCarefulRun(s, es)
    ensures CoverInv(After(s, es)) && ClaimsInv(After(s, es))
    decreases |es|
  {
    if es != [] {
      StepKeepsCover(s, es[0]);
      StepKeepsClaims(s, es[0]);
      RunKeepsCover(Step(s, es[0]), es[1..]);
    }
  }

  /**
   * For any interleaving of careful runs, failures, crashes, skipped ticks and pruning, the committed
   * windows cover every instant up to the last fetch.
   */
  lemma CursorLeavesNoGap(now: Time, interval: int, es: seq<Event>)
    requires IsCarefulRun(Start(now, interval), es)
    ensures NoGap(After(Start(now, interval), es).windows)
  {
    RunKeepsCover(Start(now, interval), es);
  }

  // ---- each condition matters ----

  function FinishedAndCommitted(s: State, run: RunId): State
    requires run in s.running && s.running[run].fetched.Some? && s.running[run].finished.None?
  {
    Step(Step(s, Finish(run)), Commit(run))
  }

  /** The last instant fetched once a window that ends at `fetched` joins the others. */
  function LastFetched(windows: seq<Window>, fetched: Time): Time {
    if windows == [] || fetched > Frontier(windows) then fetched else Frontier(windows)
  }

  /** However late a run finishes, its own window joins the cover, and the cursor is its finish less the overlap. */
  lemma LateFinishCommits(s: State, run: RunId)
    requires CoverInv(s) && run in s.running && s.running[run].fetched.Some? && s.running[run].finished.None?
    ensures var after := FinishedAndCommitted(s, run);
            && after.windows != [] && NoGap(after.windows) && after.windows[0].since <= Frontier(after.windows)
            && Frontier(after.windows) == LastFetched(s.windows, s.running[run].fetched.value)
            && LatestSuccess(after.jobs) == Some(s.now)
  {
    var r := s.running[run];
    assert RunSound(s, r);
    var w := Window(r.since, r.fetched.value);
    forall j | j in s.jobs ensures j.finished <= s.now { assert JobSound(s, j); }
    LatestIsLast(s.jobs, Job(r.key, r.created, s.now, true));
    if s.windows == [] {
      assert [] + [w] == [w];
      forall t | w.since <= t <= Frontier([w]) ensures Covers([w], t) { assert [w][0] == w; }
    } else {
      FrontierAppend(s.windows, w);
      NoGapIff(s.windows, w);
    }
  }

  /** The window of a run that reads the cursor after a success at `t`. */
  lemma {:induction false} NextWindow(windows: seq<Window>, jobs: seq<Job>, t: Time, later: Time)
    requires windows != [] && NoGap(windows) && windows[0].since <= Frontier(windows)
    requires LatestSuccess(jobs) == Some(t) && t <= later
    ensures NoGap(windows + [Window(CursorAt(jobs, later), later)]) <==> t - Overlap <= Frontier(windows)
  {
    NoGapIff(windows, Window(t - Overlap, later));
  }

  /**
   * In every state that careful steps reach, whatever runs overlap: after a fetched run finishes and
   * commits, the next window leaves a gap exactly when the finish is more than the overlap after the
   * last instant that any committed run had fetched.
   */
  lemma LateFinishIff(s: State, run: RunId, later: Time)
    requires CoverInv(s) && run in s.running && s.running[run].fetched.Some? && s.running[run].finished.None? && later >= s.now
    ensures var after := FinishedAndCommitted(s, run);
            NoGap(after.windows + [Window(CursorAt(after.jobs, later), later)])
            <==> s.now - Overlap <= LastFetched(s.windows, s.running[run].fetched.value)
  {
    LateFinishCommits(s, run);
    NextWindow(FinishedAndCommitted(s, run).windows, FinishedAndCommitted(s, run).jobs, s.now, later);
  }

  lemma CommentsSetTheCursor(s: State)
    requires Enabled(s, CommentsSucceed) && forall j | j in s.jobs :: JobSound(s, j)
    ensures LatestSuccess(Step(s, CommentsSucceed).jobs) == Some(s.now)
  {
    forall j | j in s.jobs ensures j.finished <= s.now { assert JobSound(s, j); }
    LatestIsLast(s.jobs, Job(KeyAt(s.now, 6, "comments"), s.now, s.now, true));
  }

  lemma CommentsTakeNothing(s: State)
    requires Enabled(s, CommentsSucceed) && !Taken(s, KeyAt(s.now, s.interval, ""))
    ensures !Taken(Step(s, CommentsSucceed), KeyAt(s.now, s.interval, ""))
  {
  }

  lemma LatestIsLast(jobs: seq<Job>, job: Job)
    requires job.success && forall j | j in jobs :: j.finished <= job.finished
    ensures LatestSuccess(jobs + [job]) == Some(job.finished)
  {
    assert (jobs + [job])[..|jobs|] == jobs;
  }

  /**
   * A comments job moves the cursor without fetching a review: the next run leaves a gap exactly when
   * the last fetch is more than the overlap before the comments job.
   */
  lemma CommentsMoveTheCursorIff(s: State, later: Time)
    requires CoverInv(s) && s.windows != [] && Enabled(s, CommentsSucceed) && later >= s.now
    requires !Taken(s, KeyAt(s.now, s.interval, ""))
    ensures var after := Step(s, CommentsSucceed);
            && !Taken(after, KeyAt(s.now, s.interval, ""))
            && (NoGap(s.windows + [Window(CursorAt(after.jobs, later), later)]) <==> s.now - Overlap <= Frontier(s.windows))
  {
    CommentsTakeNothing(s);
    CommentsSetTheCursor(s);
    NextWindow(s.windows, Step(s, CommentsSucceed).jobs, s.now, later);
  }
}
