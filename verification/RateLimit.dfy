/**
 * The fixed-window limiter: one Redis counter a key, incremented by each request and given a
 * lifetime by the first. Times are seconds.
 */
module RateLimit {
  import opened Wrappers

  /** A live counter; it is gone from the instant it expires. */
  datatype Counter = Counter(count: nat, expires: int)

  /** INCR, then EXPIRE with NX, in one pipeline. */
  function Bump(counter: Option<Counter>, now: int, window: nat): Counter {
    if counter.Some? && now < counter.value.expires
    then Counter(counter.value.count + 1, counter.value.expires)
    else Counter(1, now + window)
  }

  type Key = (string, string)

  /** One check of one key: whether it passes, and the counters afterwards. */
  function Checked(counters: map<Key, Counter>, key: Key, limit: int, window: nat, now: int): (bool, map<Key, Counter>) {
    if limit <= 0 then (true, counters) else
      var after := Bump(if key in counters then Some(counters[key]) else None, now, window);
      (after.count <= limit, counters[key := after])
  }

  /** What one check does: nothing for a limit of zero or less; otherwise one more is counted, from one when the key has expired, and the limit itself still passes. */
  lemma CheckedIs(counters: map<Key, Counter>, key: Key, limit: int, window: nat, now: int)
    ensures var (allowed, after) := Checked(counters, key, limit, window, now);
            if limit <= 0 then allowed && after == counters else
              && key in after && after == counters[key := after[key]]
              && (if key in counters && now < counters[key].expires
                  then after[key].count == counters[key].count + 1 && after[key].expires == counters[key].expires
                  else after[key].count == 1 && after[key].expires == now + window)
              && (allowed <==> after[key].count <= limit)
  {
  }

  class Limiter {
    var counters: map<Key, Counter>

    method CheckRateLimit(identity: string, bucket: string, limit: int, window: nat, now: int) returns (allowed: bool, remaining: int)
      modifies this
      ensures (allowed, counters) == Checked(old(counters), (bucket, identity), limit, window, now)
      ensures remaining == if limit > 0 && allowed then limit - counters[(bucket, identity)].count else if limit > 0 then 0 else limit
    {
      if limit <= 0 {
        return true, limit;
      }
      var key := (bucket, identity);
      var count, expires := 1, now + window;
      if key in counters && now < counters[key].expires {
        count, expires := counters[key].count + 1, counters[key].expires;
      }
      counters := counters[key := Counter(count, expires)];
      remaining := if limit - count > 0 then limit - count else 0;
      if count > limit {
        return false, 0;
      }
      return true, remaining;
    }

    /** A burst is refused by the hour before it reaches the day's counter. A limit of zero or less disables its tier. */
    method CheckReviewLimits(user: string, perHour: int, perDay: int, now: int) returns (accepted: bool)
      modifies this
      ensures var (hourly, afterHour) := Checked(old(counters), ("reviews_hour", user), perHour, 3600, now);
              var (daily, afterDay) := Checked(afterHour, ("reviews_day", user), perDay, 86400, now);
              && (accepted <==> hourly && daily)
              && counters == if hourly then afterDay else afterHour
    {
      var remaining;
      accepted, remaining := CheckRateLimit(user, "reviews_hour", perHour, 3600, now);
      if accepted {
        accepted, remaining := CheckRateLimit(user, "reviews_day", perDay, 86400, now);
      }
    }
  }

  // ---- one key over a run of requests ----

  /** A request at `time`, with the counter it left behind. */
  datatype Entry = Entry(time: int, counter: Counter)

  function Last(log: seq<Entry>): Option<Counter> {
    if log == [] then None else Some(log[|log| - 1].counter)
  }

  function Log(times: seq<int>, window: nat): (log: seq<Entry>)
    ensures |log| == |times| && forall i | 0 <= i < |log| :: log[i].time == times[i]
  {
    if times == [] then [] else
      var before := Log(times[..|times| - 1], window);
      before + [Entry(times[|times| - 1], Bump(Last(before), times[|times| - 1], window))]
  }

  ghost predicate Ordered(times: seq<int>) {
    forall i, j | 0 <= i < j < |times| :: times[i] <= times[j]
  }

  /** Requests of one lifetime of the key share its expiry. */
  function AdmittedBy(log: seq<Entry>, limit: nat, expires: int): nat {
    if log == [] then 0 else
      var last := log[|log| - 1];
      AdmittedBy(log[..|log| - 1], limit, expires) + (if last.counter.expires == expires && last.counter.count <= limit then 1 else 0)
  }

  /** Requests admitted between two instants, both included. */
  function AdmittedIn(log: seq<Entry>, limit: nat, from: int, to: int): nat {
    if log == [] then 0 else
      var last := log[|log| - 1];
      AdmittedIn(log[..|log| - 1], limit, from, to) + (if from <= last.time <= to && last.counter.count <= limit then 1 else 0)
  }

  /** Within a lifetime requests are numbered upwards; a new one begins only when the last is over. */
  ghost predicate Shape(log: seq<Entry>, window: nat) {
    && (forall i | 0 <= i < |log| :: log[i].counter.count > 0 && log[i].time < log[i].counter.expires <= log[i].time + window)
    && (forall i, j | 0 <= i < j < |log| :: Precedes(log[i], log[j], window))
  }

  predicate Precedes(x: Entry, y: Entry, window: nat) {
    && x.time <= y.time
    && if x.counter.expires == y.counter.expires then x.counter.count < y.counter.count
       else x.counter.expires <= y.time && x.counter.expires + window <= y.counter.expires
  }

  lemma ShapeNext(log: seq<Entry>, now: int, window: nat)
    requires window > 0 && Shape(log, window) && (log != [] ==> log[|log| - 1].time <= now)
    ensures Shape(log + [Entry(now, Bump(Last(log), now, window))], window)
  {
    var next := Entry(now, Bump(Last(log), now, window));
    forall i | 0 <= i < |log| ensures Precedes(log[i], next, window) {
      if i < |log| - 1 { assert Precedes(log[i], log[|log| - 1], window); }
    }
  }

  lemma {:induction false} LogShape(times: seq<int>, window: nat)
    requires window > 0 && Ordered(times)
    ensures Shape(Log(times, window), window)
  {
    if times != [] {
      var n := |times| - 1;
      LogShape(times[..n], window);
      ShapeNext(Log(times[..n], window), times[n], window);
    }
  }

  /** A lifetime admits at most `limit` requests: they are numbered from one. */
  lemma {:induction false} LifetimeBound(times: seq<int>, window: nat, limit: nat, expires: int)
    requires window > 0 && Ordered(times)
    ensures AdmittedBy(Log(times, window), limit, expires) <= limit
    ensures var log := Log(times, window);
            log != [] && log[|log| - 1].counter.expires == expires ==> AdmittedBy(log, limit, expires) <= log[|log| - 1].counter.count
  {
    if times != [] {
      var before := times[..|times| - 1];
      LifetimeBound(before, window, limit, expires);
      LogShape(times, window);
      NoneYet(times, window, limit, expires);
    }
  }

  /** The first request of a lifetime finds none admitted in it. */
  lemma {:induction false} NoneYet(times: seq<int>, window: nat, limit: nat, expires: int)
    requires window > 0 && Ordered(times) && times != []
    ensures var before := Log(times[..|times| - 1], window);
            var last := Log(times, window)[|times| - 1];
            last.counter.expires == expires && (before == [] || before[|before| - 1].counter.expires != expires)
            ==> AdmittedBy(before, limit, expires) == 0
  {
    LogShape(times, window);
    var log := Log(times, window);
    var n := |times| - 1;
    assert log[..n] == Log(times[..n], window);
    if log[n].counter.expires == expires && n > 0 && log[n - 1].counter.expires != expires {
      forall i | 0 <= i < n ensures log[i].counter.expires != expires {
        assert Precedes(log[n - 1], log[n], window);
        assert i < n - 1 ==> Precedes(log[i], log[n - 1], window);
      }
      NoneOf(log[..n], limit, expires);
    }
  }

  lemma {:induction false} NoneOf(log: seq<Entry>, limit: nat, expires: int)
    requires forall i | 0 <= i < |log| :: log[i].counter.expires != expires
    ensures AdmittedBy(log, limit, expires) == 0
  {
    if log != [] { NoneOf(log[..|log| - 1], limit, expires); }
  }

  // ---- intervals ----

  /** Requests between the two instants fall into the lifetimes that expire at `e` or at `f`. */
  ghost predicate OnlyThese(log: seq<Entry>, from: int, to: int, e: int, f: int) {
    forall i | 0 <= i < |log| && from <= log[i].time <= to :: log[i].counter.expires == e || log[i].counter.expires == f
  }

  lemma {:induction false} TwoLifetimes(log: seq<Entry>, limit: nat, from: int, to: int, e: int, f: int)
    requires OnlyThese(log, from, to, e, f)
    ensures AdmittedIn(log, limit, from, to) <= AdmittedBy(log, limit, e) + AdmittedBy(log, limit, f)
  {
    if log != [] { TwoLifetimes(log[..|log| - 1], limit, from, to, e, f); }
  }

  /** From the first of three lifetimes to the third takes longer than the window. */
  lemma ThirdIsLater(log: seq<Entry>, window: nat, a: nat, b: nat, c: nat)
    requires Shape(log, window) && a < b < c < |log|
    requires log[a].counter.expires != log[b].counter.expires && log[b].counter.expires != log[c].counter.expires
    ensures log[c].time > log[a].time + window
  {
    assert Precedes(log[a], log[b], window) && Precedes(log[b], log[c], window);
  }

  ghost predicate Inside(log: seq<Entry>, window: nat, from: int, i: nat) {
    i < |log| && from <= log[i].time <= from + window
  }

  /** An interval as long as the window meets at most two lifetimes. */
  lemma Expiries(log: seq<Entry>, window: nat, from: int) returns (e: int, f: int)
    requires Shape(log, window)
    ensures forall k: nat :: Inside(log, window, from, k) ==> log[k].counter.expires == e || log[k].counter.expires == f
  {
    e, f := 0, 0;
    if i: nat :| Inside(log, window, from, i) {
      e, f := log[i].counter.expires, log[i].counter.expires;
      if j: nat :| Inside(log, window, from, j) && log[j].counter.expires != e {
        f := log[j].counter.expires;
        forall k: nat ensures Inside(log, window, from, k) ==> log[k].counter.expires == e || log[k].counter.expires == f {
          if Inside(log, window, from, k) && log[k].counter.expires != e && log[k].counter.expires != f {
            if i < j < k { ThirdIsLater(log, window, i, j, k); }
            if i < k < j { ThirdIsLater(log, window, i, k, j); }
            if j < i < k { ThirdIsLater(log, window, j, i, k); }
            if j < k < i { ThirdIsLater(log, window, j, k, i); }
            if k < i < j { ThirdIsLater(log, window, k, i, j); }
            if k < j < i { ThirdIsLater(log, window, k, j, i); }
          }
        }
      }
    }
  }

  /** The two lifetimes that an interval meets, each within the limit. */
  lemma Lives(times: seq<int>, window: nat, limit: nat, from: int, to: int) returns (e: int, f: int)
    requires window > 0 && Ordered(times) && to <= from + window
    ensures Shape(Log(times, window), window) && OnlyThese(Log(times, window), from, to, e, f)
    ensures AdmittedBy(Log(times, window), limit, e) <= limit && AdmittedBy(Log(times, window), limit, f) <= limit
  {
    var log := Log(times, window);
    LogShape(times, window);
    e, f := Expiries(log, window, from);
    forall i | 0 <= i < |log| && from <= log[i].time <= to ensures log[i].counter.expires == e || log[i].counter.expires == f {
      assert Inside(log, window, from, i);
    }
    LifetimeBound(times, window, limit, e);
    LifetimeBound(times, window, limit, f);
  }

  /** Every interval of window length, ends included, admits at most twice the limit. */
  lemma IntervalBound(times: seq<int>, window: nat, limit: nat, from: int)
    requires window > 0 && Ordered(times)
    ensures AdmittedIn(Log(times, window), limit, from, from + window) <= 2 * limit
  {
    var e, f := Lives(times, window, limit, from, from + window);
    TwoLifetimes(Log(times, window), limit, from, from + window, e, f);
  }

  // ---- the bound without the far end ----

  /** A lifetime begins with its request number one. */
  lemma {:induction false} Birth(times: seq<int>, window: nat, i: nat) returns (b: nat)
    requires window > 0 && Ordered(times) && i < |times|
    ensures var log := Log(times, window);
            b <= i && log[b].counter == Counter(1, log[i].counter.expires) && log[b].time == log[i].counter.expires - window
  {
    var n := |times| - 1;
    var before := Log(times[..n], window);
    assert Log(times, window) == before + [Entry(times[n], Bump(Last(before), times[n], window))];
    if i < n {
      b := Birth(times[..n], window, i);
    } else if n > 0 && times[n] < before[n - 1].counter.expires {
      b := Birth(times[..n], window, n - 1);
    } else {
      b := n;
    }
  }

  lemma {:induction false} TwoLifetimesLess(log: seq<Entry>, limit: nat, from: int, to: int, e: int, f: int, b: nat)
    requires OnlyThese(log, from, to, e, f)
    requires b < |log| && log[b].counter.expires == e && log[b].counter.count <= limit && log[b].time < from
    ensures AdmittedIn(log, limit, from, to) + 1 <= AdmittedBy(log, limit, e) + AdmittedBy(log, limit, f)
  {
    var n := |log| - 1;
    if b < n { TwoLifetimesLess(log[..n], limit, from, to, e, f, b); } else { TwoLifetimes(log[..n], limit, from, to, e, f); }
  }

  lemma {:induction false} OneLifetime(log: seq<Entry>, limit: nat, from: int, to: int, e: int)
    requires forall i | 0 <= i < |log| && from <= log[i].time <= to :: log[i].counter.expires == e
    ensures AdmittedIn(log, limit, from, to) <= AdmittedBy(log, limit, e)
  {
    if log != [] { OneLifetime(log[..|log| - 1], limit, from, to, e); }
  }

  /**
   * An interval that excludes its far end admits one request less: the earlier of two lifetimes was
   * opened by an admitted request before the interval began.
   */
  lemma {:induction false} HalfOpenBound(times: seq<int>, window: nat, limit: nat, from: int)
    requires window > 0 && Ordered(times) && limit > 0
    ensures AdmittedIn(Log(times, window), limit, from, from + window - 1) <= 2 * limit - 1
  {
    var log, to := Log(times, window), from + window - 1;
    var e, f := Lives(times, window, limit, from, to);
    if i, j :| Turns(log, from, to, i, j) {
      var b := BornBefore(times, window, from, i, j);
      TwoMet(log, limit, from, to, e, f, i, j, b);
    } else {
      assert NoTurns(log, from, to);
      SameLifetime(log, window, limit, from, to, e, f);
    }
    assert AdmittedBy(log, limit, e) + AdmittedBy(log, limit, f) <= 2 * limit;
  }

  lemma BornBefore(times: seq<int>, window: nat, from: int, i: nat, j: nat) returns (b: nat)
    requires window > 0 && Ordered(times) && i < j < |times|
    requires Shape(Log(times, window), window) && Turns(Log(times, window), from, from + window - 1, i, j)
    ensures var log := Log(times, window);
            b < |log| && log[b].counter == Counter(1, log[i].counter.expires) && log[b].time < from
  {
    assert Precedes(Log(times, window)[i], Log(times, window)[j], window);
    b := Birth(times, window, i);
  }

  /** When the interval meets a second lifetime, the first began before the interval. */
  lemma {:induction false} TwoMet(log: seq<Entry>, limit: nat, from: int, to: int, e: int, f: int, i: nat, j: nat, b: nat)
    requires limit > 0 && OnlyThese(log, from, to, e, f) && Turns(log, from, to, i, j) && log[i].time <= log[j].time
    requires b < |log| && log[b].counter == Counter(1, log[i].counter.expires) && log[b].time < from
    ensures AdmittedIn(log, limit, from, to) + 1 <= AdmittedBy(log, limit, e) + AdmittedBy(log, limit, f)
  {
    if log[i].counter.expires == e {
      TwoLifetimesLess(log, limit, from, to, e, f, b);
    } else {
      TwoLifetimesLess(log, limit, from, to, f, e, b);
    }
  }

  /** Between two requests in the interval one lifetime ended and another began. */
  ghost predicate Turns(log: seq<Entry>, from: int, to: int, i: int, j: int) {
    0 <= i < j < |log| && from <= log[i].time && log[j].time <= to && log[i].counter.expires != log[j].counter.expires
  }

  ghost predicate NoTurns(log: seq<Entry>, from: int, to: int) { forall i, j :: !Turns(log, from, to, i, j) }

  lemma SameLifetime(log: seq<Entry>, window: nat, limit: nat, from: int, to: int, e: int, f: int)
    requires Shape(log, window) && from <= to
    requires OnlyThese(log, from, to, e, f)
    requires NoTurns(log, from, to)
    requires AdmittedBy(log, limit, e) <= limit && AdmittedBy(log, limit, f) <= limit
    ensures AdmittedIn(log, limit, from, to) <= limit
  {
    if i :| 0 <= i < |log| && from <= log[i].time <= to {
      var x := log[i].counter.expires;
      forall j | 0 <= j < |log| && from <= log[j].time <= to ensures log[j].counter.expires == x {
        assert !Turns(log, from, to, i, j) && !Turns(log, from, to, j, i);
        assert i < j ==> Precedes(log[i], log[j], window);
        assert j < i ==> Precedes(log[j], log[i], window);
      }
      OneLifetime(log, limit, from, to, x);
    } else {
      OneLifetime(log, limit, from, to, e);
    }
  }

  // ---- the bound is reached ----

  /** `limit` requests at once, and `limit` more when the key has just expired. */
  function TwoBursts(limit: nat, window: nat): seq<int> {
    seq(2 * limit, i => if i < limit then 0 else window)
  }

  /** The counter after the first `n` requests of the two bursts. */
  function BurstCounter(limit: nat, window: nat, n: nat): Option<Counter> {
    if n == 0 then None else Some(if n <= limit then Counter(n, window) else Counter(n - limit, 2 * window))
  }

  lemma BurstBump(limit: nat, window: nat, n: nat)
    requires window > 0 && 0 < n <= 2 * limit
    ensures Some(Bump(BurstCounter(limit, window, n - 1), TwoBursts(limit, window)[n - 1], window)) == BurstCounter(limit, window, n)
  {
  }

  lemma {:induction false} BurstLog(limit: nat, window: nat, n: nat)
    requires window > 0 && n <= 2 * limit
    ensures Last(Log(TwoBursts(limit, window)[..n], window)) == BurstCounter(limit, window, n)
  {
    if n > 0 {
      BurstLog(limit, window, n - 1);
      LogNext(TwoBursts(limit, window), window, n);
      BurstBump(limit, window, n);
    }
  }

  /** Every request of the two bursts is admitted. */
  lemma {:induction false} BurstAdmitted(limit: nat, window: nat, n: nat)
    requires window > 0 && n <= 2 * limit
    ensures AdmittedIn(Log(TwoBursts(limit, window)[..n], window), limit, 0, window) == n
  {
    if n > 0 {
      BurstAdmitted(limit, window, n - 1);
      BurstLog(limit, window, n);
      LogNext(TwoBursts(limit, window), window, n);
      OneMoreAdmitted(Log(TwoBursts(limit, window)[..n], window), limit, window, n);
    }
  }

  lemma {:induction false} OneMoreAdmitted(log: seq<Entry>, limit: nat, window: nat, n: nat)
    requires |log| == n > 0 && 0 <= log[n - 1].time <= window && log[n - 1].counter.count <= limit
    ensures AdmittedIn(log, limit, 0, window) == AdmittedIn(log[..n - 1], limit, 0, window) + 1
  {
  }

  lemma {:induction false} LogNext(times: seq<int>, window: nat, n: nat)
    requires 0 < n <= |times|
    ensures var before, log := Log(times[..n - 1], window), Log(times[..n], window);
            && |log| == n && log[..n - 1] == before
            && log[n - 1] == Entry(times[n - 1], Bump(Last(before), times[n - 1], window))
  {
    assert times[..n][..n - 1] == times[..n - 1];
  }

  lemma {:induction false} BoundIsReached(limit: nat, window: nat)
    requires window > 0
    ensures Ordered(TwoBursts(limit, window))
    ensures AdmittedIn(Log(TwoBursts(limit, window), window), limit, 0, window) == 2 * limit
  {
    BurstAdmitted(limit, window, 2 * limit);
    assert TwoBursts(limit, window)[..2 * limit] == TwoBursts(limit, window);
  }

  // ---- two tiers ----

  /** The times of the requests a key admitted. */
  function Passed(log: seq<Entry>, limit: nat): seq<int> {
    if log == [] then [] else
      Passed(log[..|log| - 1], limit) + (if log[|log| - 1].counter.count <= limit then [log[|log| - 1].time] else [])
  }

  function CountIn(times: seq<int>, from: int, to: int): nat {
    if times == [] then 0 else CountIn(times[..|times| - 1], from, to) + (if from <= times[|times| - 1] <= to then 1 else 0)
  }

  lemma CountAppend(times: seq<int>, t: int, from: int, to: int)
    ensures CountIn(times + [t], from, to) == CountIn(times, from, to) + (if from <= t <= to then 1 else 0)
  {
    assert (times + [t])[..|times|] == times;
  }

  lemma {:induction false} CountMonotone(times: seq<int>, from: int, to: int, from': int, to': int)
    requires from' <= from && to <= to'
    ensures CountIn(times, from, to) <= CountIn(times, from', to')
  {
    if times != [] { CountMonotone(times[..|times| - 1], from, to, from', to'); }
  }

  /** The counter of a key never exceeds the requests since its lifetime began. */
  lemma {:induction false} CountedSinceBirth(times: seq<int>, window: nat)
    requires window > 0 && Ordered(times) && times != []
    ensures var n := |times| - 1;
            var last := Log(times, window)[n].counter;
            && times[n] < last.expires <= times[n] + window
            && last.count <= CountIn(times, last.expires - window, times[n])
  {
    var n := |times| - 1;
    LogNext(times, window, |times|);
    assert times[..|times|] == times;
    var last := Log(times, window)[n].counter;
    if n > 0 {
      CountedSinceBirth(times[..n], window);
      var before := Log(times[..n], window)[n - 1].counter;
      if times[n] < before.expires { CountMonotone(times[..n], before.expires - window, times[n - 1], before.expires - window, times[n]); }
    }
  }

  /** No request is refused while fewer than `limit` others came within the window before it. */
  lemma {:induction false} RefusedOnlyWhenFull(times: seq<int>, window: nat, limit: nat, i: nat)
    requires window > 0 && Ordered(times) && i < |times| && Log(times, window)[i].counter.count > limit
    ensures CountIn(times[..i + 1], times[i] - window + 1, times[i]) > limit
  {
    LogPrefix(times, window, i + 1);
    CountedSinceBirth(times[..i + 1], window);
    var c := Log(times, window)[i].counter;
    CountMonotone(times[..i + 1], c.expires - window, times[i], times[i] - window + 1, times[i]);
  }

  lemma {:induction false} LogPrefix(times: seq<int>, window: nat, n: nat)
    requires n <= |times|
    ensures Log(times[..n], window) == Log(times, window)[..n]
  {
    if n < |times| {
      LogPrefix(times[..|times| - 1], window, n);
      assert times[..|times| - 1][..n] == times[..n];
      LogNext(times, window, |times|);
      assert times[..|times|] == times;
      assert Log(times, window)[..|times| - 1][..n] == Log(times, window)[..n];
    } else {
      assert times[..n] == times && Log(times, window)[..n] == Log(times, window);
    }
  }

  /** The times passed are those admitted, whatever made the log. */
  lemma {:induction false} PassedIsAdmitted(log: seq<Entry>, limit: nat, from: int, to: int)
    ensures CountIn(Passed(log, limit), from, to) == AdmittedIn(log, limit, from, to)
  {
    if log != [] {
      PassedIsAdmitted(log[..|log| - 1], limit, from, to);
      PassedLast(log, limit);
      CountAppend(Passed(log[..|log| - 1], limit), log[|log| - 1].time, from, to);
    }
  }

  lemma {:induction false} PassedLast(log: seq<Entry>, limit: nat)
    requires log != []
    ensures var n := |log| - 1;
            Passed(log, limit)
            == if log[n].counter.count <= limit then Passed(log[..n], limit) + [log[n].time] else Passed(log[..n], limit)
  {
    var p := Passed(log[..|log| - 1], limit);
    assert p + [] == p;
  }

  lemma {:induction false} AdmittedIsCounted(times: seq<int>, window: nat, limit: nat, from: int, to: int)
    ensures AdmittedIn(Log(times, window), limit, from, to) <= CountIn(times, from, to)
  {
    if times != [] {
      var n := |times| - 1;
      AdmittedIsCounted(times[..n], window, limit, from, to);
      assert Log(times, window)[..n] == Log(times[..n], window);
    }
  }

  lemma PassedCount(times: seq<int>, window: nat, limit: nat, from: int, to: int)
    ensures CountIn(Passed(Log(times, window), limit), from, to) == AdmittedIn(Log(times, window), limit, from, to)
    ensures AdmittedIn(Log(times, window), limit, from, to) <= CountIn(times, from, to)
  {
    PassedIsAdmitted(Log(times, window), limit, from, to);
    AdmittedIsCounted(times, window, limit, from, to);
  }

  lemma {:induction false} PassedOrdered(times: seq<int>, window: nat, limit: nat)
    requires Ordered(times)
    ensures Ordered(Passed(Log(times, window), limit))
    ensures forall i | 0 <= i < |Passed(Log(times, window), limit)| :: times != [] && Passed(Log(times, window), limit)[i] <= times[|times| - 1]
  {
    if times != [] {
      var n := |times| - 1;
      PassedOrdered(times[..n], window, limit);
      var p := Passed(Log(times[..n], window), limit);
      assert p + [] == p;
      assert Log(times, window)[..n] == Log(times[..n], window);
      assert n > 0 ==> times[..n][n - 1] <= times[n];
    }
  }

  /** The requests that one tier lets through; a limit of zero disables it. */
  function Tier(times: seq<int>, window: nat, limit: nat): seq<int> {
    if limit == 0 then times else Passed(Log(times, window), limit)
  }

  /** The requests accepted by both tiers: the day's counter sees only what the hour's admitted. */
  function Accepted(times: seq<int>, hour: nat, perHour: nat, day: nat, perDay: nat): seq<int> {
    Tier(Tier(times, hour, perHour), day, perDay)
  }

  lemma TierOrdered(times: seq<int>, window: nat, limit: nat)
    requires Ordered(times)
    ensures Ordered(Tier(times, window, limit))
  {
    PassedOrdered(times, window, limit);
  }

  lemma TierCount(times: seq<int>, window: nat, limit: nat, from: int, to: int)
    ensures CountIn(Tier(times, window, limit), from, to) <= CountIn(times, from, to)
  {
    if limit > 0 { PassedCount(times, window, limit, from, to); }
  }

  lemma TierBound(times: seq<int>, window: nat, limit: nat, from: int)
    requires Ordered(times) && window > 0 && limit > 0
    ensures CountIn(Tier(times, window, limit), from, from + window) <= 2 * limit
  {
    PassedBound(times, window, limit, from);
  }

  /** With a window of an hour and one of a day, each tier that is on bounds the reviews accepted. */
  lemma TwoTierBound(times: seq<int>, hour: nat, perHour: nat, day: nat, perDay: nat, from: int)
    requires Ordered(times) && hour > 0 && day > 0
    ensures perHour > 0 ==> CountIn(Accepted(times, hour, perHour, day, perDay), from, from + hour) <= 2 * perHour
    ensures perDay > 0 ==> CountIn(Accepted(times, hour, perHour, day, perDay), from, from + day) <= 2 * perDay
  {
    var hourly := Tier(times, hour, perHour);
    TierOrdered(times, hour, perHour);
    TierCount(hourly, day, perDay, from, from + hour);
    if perHour > 0 { TierBound(times, hour, perHour, from); }
    if perDay > 0 { TierBound(hourly, day, perDay, from); }
  }

  lemma PassedBound(times: seq<int>, window: nat, limit: nat, from: int)
    requires Ordered(times) && window > 0
    ensures CountIn(Passed(Log(times, window), limit), from, from + window) <= 2 * limit
  {
    PassedCount(times, window, limit, from, from + window);
    IntervalBound(times, window, limit, from);
  }
}
