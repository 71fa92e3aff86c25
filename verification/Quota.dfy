/**
 * The quota guard: any number of workers add to one counter a window, take back what crosses the
 * budget, and refund calls that were not billed. Each operation reads the clock for its key anew,
 * so a take-back may land in a later window than the reservation it belongs to.
 */
module Quota {

  import opened Stats

  // ---- the protocol ----

  type Window = nat

  /** A reservation: units still held, or units waiting to be taken back. */
  datatype Reservation = Reservation(window: Window, held: nat, pending: nat)

  /** Units of a reservation made in `from` that were subtracted from the counter of `to`. */
  datatype Return = Return(from: Window, to: Window, amount: nat, granted: bool)

  datatype State = State(
    budget: nat, now: Window, counter: map<Window, int>, reservations: seq<Reservation>, given: seq<Return>)
  {
    function Spent(k: Window): int { if k in counter then counter[k] else 0 }
  }

  /** The atomic steps on Redis, and the passing of time. */
  datatype Event =
    | Increment(cost: nat)
    | TakeBack(i: nat)
    | Refund(i: nat, amount: nat)
    | Tick(later: Window)

  predicate Enabled(s: State, e: Event) {
    match e
    case Increment(cost) => true
    case TakeBack(i) => i < |s.reservations| && s.reservations[i].pending > 0
    case Refund(i, amount) => i < |s.reservations| && amount <= s.reservations[i].held
    case Tick(later) => later > s.now
  }

  predicate Grants(s: State, cost: nat) { s.Spent(s.now) + cost <= s.budget }

  function Step(s: State, e: Event): State
    requires Enabled(s, e)
  {
    match e
    case Increment(cost) =>
      s.(counter := s.counter[s.now := s.Spent(s.now) + cost],
         reservations := s.reservations + [if Grants(s, cost) then Reservation(s.now, cost, 0) else Reservation(s.now, 0, cost)])
    case TakeBack(i) =>
      var r := s.reservations[i];
      s.(counter := s.counter[s.now := s.Spent(s.now) - r.pending],
         reservations := s.reservations[i := r.(pending := 0)],
         given := s.given + [Return(r.window, s.now, r.pending, false)])
    case Refund(i, amount) =>
      var r := s.reservations[i];
      s.(counter := s.counter[s.now := s.Spent(s.now) - amount],
         reservations := s.reservations[i := r.(held := r.held - amount)],
         given := s.given + [Return(r.window, s.now, amount, true)])
    case Tick(later) => s.(now := later)
  }

  // ---- accounts of one window ----

  function HeldOf(k: Window): Reservation -> int { (r: Reservation) => if r.window == k then r.held else 0 }

  function PendingOf(k: Window): Reservation -> int { (r: Reservation) => if r.window == k then r.pending else 0 }

  function StrayInOf(k: Window): Return -> int { (x: Return) => if x.to == k && x.from != k then x.amount else 0 }

  function StrayOutOf(k: Window): Return -> int { (x: Return) => if x.from == k && x.to != k then x.amount else 0 }

  function RefundedAwayOf(k: Window): Return -> int {
    (x: Return) => if x.from == k && x.to != k && x.granted then x.amount else 0
  }

  /** Units granted in window `k` and not refunded. */
  function Held(s: State, k: Window): int { Total(HeldOf(k), s.reservations) }

  /** Units refused in window `k` whose take-back has not landed. */
  function Pending(s: State, k: Window): int { Total(PendingOf(k), s.reservations) }

  /** Units of other windows subtracted from the counter of `k`. */
  function StrayIn(s: State, k: Window): int { Total(StrayInOf(k), s.given) }

  /** Units of window `k` subtracted from another counter. */
  function StrayOut(s: State, k: Window): int { Total(StrayOutOf(k), s.given) }

  /** Those of them that had been granted. */
  function RefundedAway(s: State, k: Window): int { Total(RefundedAwayOf(k), s.given) }

  lemma AccountsNonNegative(s: State, k: Window)
    ensures Held(s, k) >= 0 && Pending(s, k) >= 0 && StrayIn(s, k) >= 0
  {
    TotalNonNegative(HeldOf(k), s.reservations);
    TotalNonNegative(PendingOf(k), s.reservations);
    TotalNonNegative(StrayInOf(k), s.given);
  }

  lemma {:induction false} RefundedAwayIsPart(given: seq<Return>, k: Window)
    ensures 0 <= Total(RefundedAwayOf(k), given) <= Total(StrayOutOf(k), given)
  {
    if given != [] { RefundedAwayIsPart(given[..|given| - 1], k); }
  }

  // ---- the invariant ----

  /** The counter of `k` balances, and its grants fit the budget but for what strayed in. */
  ghost predicate Balanced(s: State, k: Window) {
    && s.Spent(k) == Held(s, k) + Pending(s, k) + StrayOut(s, k) - StrayIn(s, k)
    && Held(s, k) + RefundedAway(s, k) <= s.budget + StrayIn(s, k)
  }

  ghost predicate Inv(s: State) { forall k :: Balanced(s, k) }

  lemma IncrementKeeps(s: State, cost: nat, k: Window)
    requires Balanced(s, k)
    ensures Balanced(Step(s, Increment(cost)), k)
  {
    IncrementAccounts(s, cost, k);
    AccountsNonNegative(s, k);
    RefundedAwayIsPart(s.given, k);
  }

  lemma IncrementAccounts(s: State, cost: nat, k: Window)
    ensures var t := Step(s, Increment(cost));
            && Held(t, k) == Held(s, k) + (if k == s.now && Grants(s, cost) then cost else 0)
            && Pending(t, k) == Pending(s, k) + (if k == s.now && !Grants(s, cost) then cost else 0)
  {
    var r := if Grants(s, cost) then Reservation(s.now, cost, 0) else Reservation(s.now, 0, cost);
    TotalAppend(HeldOf(k), s.reservations, r);
    TotalAppend(PendingOf(k), s.reservations, r);
  }

  /** Take-back and refund: `back` units of reservation `i` leave the counter of the present window. */
  function Returned(s: State, i: nat, after: Reservation, back: nat, granted: bool): State {
    if i < |s.reservations| then
      s.(counter := s.counter[s.now := s.Spent(s.now) - back],
         reservations := s.reservations[i := after],
         given := s.given + [Return(after.window, s.now, back, granted)])
    else s
  }

  lemma ReturnedAccounts(s: State, i: nat, after: Reservation, back: nat, granted: bool, k: Window)
    requires i < |s.reservations|
    ensures var r, t, x := s.reservations[i], Returned(s, i, after, back, granted), Return(after.window, s.now, back, granted);
            && Held(t, k) == Held(s, k) - HeldOf(k)(r) + HeldOf(k)(after)
            && Pending(t, k) == Pending(s, k) - PendingOf(k)(r) + PendingOf(k)(after)
            && StrayIn(t, k) == StrayIn(s, k) + StrayInOf(k)(x)
            && StrayOut(t, k) == StrayOut(s, k) + StrayOutOf(k)(x)
            && RefundedAway(t, k) == RefundedAway(s, k) + RefundedAwayOf(k)(x)
  {
    var x := Return(after.window, s.now, back, granted);
    TotalUpdate(HeldOf(k), s.reservations, i, after);
    TotalUpdate(PendingOf(k), s.reservations, i, after);
    TotalAppend(StrayInOf(k), s.given, x);
    TotalAppend(StrayOutOf(k), s.given, x);
    TotalAppend(RefundedAwayOf(k), s.given, x);
  }

  lemma ReturnKeeps(s: State, i: nat, after: Reservation, back: nat, granted: bool, k: Window)
    requires i < |s.reservations| && Balanced(s, k) && after.window == s.reservations[i].window
    requires granted ==> after.held + back == s.reservations[i].held && after.pending == s.reservations[i].pending
    requires !granted ==> after.pending + back == s.reservations[i].pending && after.held == s.reservations[i].held
    ensures Balanced(Returned(s, i, after, back, granted), k)
  {
    ReturnedAccounts(s, i, after, back, granted, k);
  }

  lemma StepKeeps(s: State, e: Event)
    requires Inv(s) && Enabled(s, e)
    ensures Inv(Step(s, e)) && Step(s, e).budget == s.budget
  {
    forall k ensures Balanced(Step(s, e), k) { BalanceKept(s, e, k); }
  }

  lemma TakeBackKeeps(s: State, i: nat, k: Window)
    requires Balanced(s, k) && Enabled(s, TakeBack(i))
    ensures Balanced(Step(s, TakeBack(i)), k)
  {
    ReturnKeeps(s, i, s.reservations[i].(pending := 0), s.reservations[i].pending, false, k);
  }

  lemma RefundKeeps(s: State, i: nat, amount: nat, k: Window)
    requires Balanced(s, k) && Enabled(s, Refund(i, amount))
    ensures Balanced(Step(s, Refund(i, amount)), k)
  {
    ReturnKeeps(s, i, s.reservations[i].(held := s.reservations[i].held - amount), amount, true, k);
  }

  lemma BalanceKept(s: State, e: Event, k: Window)
    requires Balanced(s, k) && Enabled(s, e)
    ensures Balanced(Step(s, e), k)
  {
    match e
    case Increment(cost) => IncrementKeeps(s, cost, k);
    case TakeBack(i) => TakeBackKeeps(s, i, k);
    case Refund(i, amount) => RefundKeeps(s, i, amount, k);
    case Tick(later) =>
  }

  // ---- runs ----

  predicate IsRun(s: State, es: seq<Event>)
    decreases |es|
  {
    es == [] || (Enabled(s, es[0]) && IsRun(Step(s, es[0]), es[1..]))
  }

  function After(s: State, es: seq<Event>): State
    requires IsRun(s, es)
    decreases |es|
  {
    if es == [] then s else After(Step(s, es[0]), es[1..])
  }

  function Start(budget: nat): State { State(budget, 0, map[], [], []) }

  lemma {:induction false} RunKeeps(s: State, es: seq<Event>)
    requires Inv(s) && IsRun(s, es)
    ensures Inv(After(s, es)) && After(s, es).budget == s.budget
    decreases |es|
  {
    if es != [] {
      StepKeeps(s, es[0]);
      RunKeeps(Step(s, es[0]), es[1..]);
    }
  }

  /**
   * In every interleaving, what a window holds and what it granted and saw refunded elsewhere exceed
   * the budget by at most what other windows' reservations gave back to its counter; without those,
   * never.
   */
  lemma QuotaSafety(budget: nat, es: seq<Event>, k: Window)
    requires IsRun(Start(budget), es)
    ensures var s := After(Start(budget), es);
            && Held(s, k) + RefundedAway(s, k) <= budget + StrayIn(s, k)
            && 0 <= RefundedAway(s, k) && Held(s, k) <= budget + StrayIn(s, k)
            && (StrayIn(s, k) == 0 ==> Held(s, k) <= budget)
  {
    RunKeeps(Start(budget), es);
    var s := After(Start(budget), es);
    assert Balanced(s, k);
    RefundedAwayIsPart(s.given, k);
  }

  /** Once every take-back has landed in its own window, the counter is exactly the units held: a refusal leaves no trace. */
  lemma QuiescentIsExact(budget: nat, es: seq<Event>, k: Window)
    requires IsRun(Start(budget), es)
    ensures var s := After(Start(budget), es);
            Pending(s, k) == 0 && StrayIn(s, k) == 0 && StrayOut(s, k) == 0 ==> s.Spent(k) == Held(s, k)
  {
    RunKeeps(Start(budget), es);
    assert Balanced(After(Start(budget), es), k);
  }

  lemma Then(s: State, e: Event, es: seq<Event>)
    requires Enabled(s, e) && IsRun(Step(s, e), es)
    ensures IsRun(s, [e] + es) && After(s, [e] + es) == After(Step(s, e), es)
  {
    assert ([e] + es)[1..] == es;
  }

  lemma {:induction false} RunsAppend(s: State, es: seq<Event>, more: seq<Event>)
    requires IsRun(s, es) && IsRun(After(s, es), more)
    ensures IsRun(s, es + more) && After(s, es + more) == After(After(s, es), more)
    decreases |es|
  {
    if es == [] {
      assert es + more == more;
    } else {
      assert (es + more)[1..] == es[1..] + more;
      RunsAppend(Step(s, es[0]), es[1..], more);
    }
  }

  /** The window turns, units of the last reservation come back late, and are granted on top of the new budget. */
  function Turned(s: State, stray: nat): seq<Event>
    requires s.reservations != []
  {
    [Tick(s.now + 1)] + ([Refund(|s.reservations| - 1, stray)] + ([Increment(s.budget + stray)] + []))
  }

  ghost predicate Unused(s: State, k: Window) { s.Spent(k) == 0 && Held(s, k) == 0 && StrayIn(s, k) == 0 }

  /** The last reservation was granted in the present window, and no later window has an account yet. */
  ghost predicate Latest(s: State) {
    && s.reservations != [] && s.reservations[|s.reservations| - 1].window == s.now
    && forall k | k > s.now :: Unused(s, k)
  }

  lemma LateRefund(s: State, stray: nat, k: Window)
    requires s.reservations != [] && s.reservations[|s.reservations| - 1].window < s.now <= k
    requires stray <= s.reservations[|s.reservations| - 1].held
    ensures var t := Step(s, Refund(|s.reservations| - 1, stray));
            && Held(t, k) == Held(s, k) && StrayIn(t, k) == StrayIn(s, k) + (if k == s.now then stray else 0)
            && t.Spent(k) == s.Spent(k) - (if k == s.now then stray else 0)
  {
    var i := |s.reservations| - 1;
    ReturnedAccounts(s, i, s.reservations[i].(held := s.reservations[i].held - stray), stray, true, k);
  }

  predicate CanTurn(s: State, stray: nat) {
    && s.reservations != [] && s.reservations[|s.reservations| - 1].window == s.now
    && stray <= s.reservations[|s.reservations| - 1].held
  }

  function Refunded(s: State, stray: nat): State
    requires CanTurn(s, stray)
  {
    Step(Step(s, Tick(s.now + 1)), Refund(|s.reservations| - 1, stray))
  }

  lemma RefundedAccounts(s: State, stray: nat, k: Window)
    requires CanTurn(s, stray) && k > s.now && Unused(s, k)
    ensures var t := Refunded(s, stray);
            Held(t, k) == 0 && StrayIn(t, k) == (if k == t.now then stray else 0) && t.Spent(k) == (if k == t.now then 0 - stray else 0)
  {
    LateRefund(Step(s, Tick(s.now + 1)), stray, k);
  }

  lemma GrantedAccounts(s: State, cost: nat, k: Window)
    requires Grants(s, cost)
    ensures var t := Step(s, Increment(cost));
            && Held(t, k) == Held(s, k) + (if k == s.now then cost else 0) && StrayIn(t, k) == StrayIn(s, k)
            && (k != s.now ==> t.Spent(k) == s.Spent(k))
  {
    IncrementAccounts(s, cost, k);
  }

  lemma {:induction false} TurnedRuns(s: State, stray: nat)
    requires CanTurn(s, stray)
    ensures IsRun(s, Turned(s, stray))
    ensures After(s, Turned(s, stray)) == Step(Refunded(s, stray), Increment(s.budget + stray))
  {
    ThreeSteps(s, Tick(s.now + 1), Refund(|s.reservations| - 1, stray), Increment(s.budget + stray));
  }

  lemma ThreeSteps(s: State, e1: Event, e2: Event, e3: Event)
    requires Enabled(s, e1) && Enabled(Step(s, e1), e2) && Enabled(Step(Step(s, e1), e2), e3)
    ensures IsRun(s, [e1] + ([e2] + ([e3] + [])))
    ensures After(s, [e1] + ([e2] + ([e3] + []))) == Step(Step(Step(s, e1), e2), e3)
  {
    Then(Step(Step(s, e1), e2), e3, []);
    Then(Step(s, e1), e2, [e3] + []);
    Then(s, e1, [e2] + ([e3] + []));
  }

  lemma {:induction false} TurnedOvershoots(s: State, stray: nat)
    requires Latest(s) && stray <= s.reservations[|s.reservations| - 1].held
    ensures IsRun(s, Turned(s, stray))
    ensures var t := After(s, Turned(s, stray));
            && Latest(t) && t.now == s.now + 1 && t.budget == s.budget
            && t.reservations[|t.reservations| - 1].held == s.budget + stray
            && Held(t, t.now) == s.budget + stray && StrayIn(t, t.now) == stray
  {
    TurnedRuns(s, stray);
    var refunded, cost := Refunded(s, stray), s.budget + stray;
    var t := Step(refunded, Increment(cost));
    assert Unused(s, t.now);
    RefundedAccounts(s, stray, t.now);
    GrantedAccounts(refunded, cost, t.now);
    forall k | k > t.now ensures Unused(t, k) {
      assert Unused(s, k);
      RefundedAccounts(s, stray, k);
      GrantedAccounts(refunded, cost, k);
    }
  }

  lemma FirstWindow(budget: nat)
    ensures IsRun(Start(budget), [Increment(budget)])
    ensures var s := After(Start(budget), [Increment(budget)]);
            && Latest(s) && s.now == 0 && s.budget == budget && s.reservations[|s.reservations| - 1].held == budget
            && Held(s, 0) == budget && StrayIn(s, 0) == 0
  {
    Then(Start(budget), Increment(budget), []);
    assert [Increment(budget)] + [] == [Increment(budget)];
    IncrementAccounts(Start(budget), budget, 0);
    forall k | k > 0 ensures Unused(Step(Start(budget), Increment(budget)), k) { IncrementAccounts(Start(budget), budget, k); }
  }

  /**
   * The excess is real, for every amount that refunds can carry: after `k` windows any `stray` up to `k`
   * budgets can have come back late, and is granted in window `k` on top of its own budget.
   */
  lemma {:induction false} StraddlingRefundsOvershoot(budget: nat, k: nat, stray: nat) returns (es: seq<Event>)
    requires stray <= k * budget
    ensures IsRun(Start(budget), es)
    ensures var s := After(Start(budget), es);
            && Latest(s) && s.now == k && s.budget == budget && s.reservations[|s.reservations| - 1].held == budget + stray
            && StrayIn(s, k) == stray && Held(s, k) == budget + stray
  {
    if k == 0 {
      es := [Increment(budget)];
      FirstWindow(budget);
    } else {
      OneBudgetMore(budget, k);
      var before := StraddlingRefundsOvershoot(budget, k - 1, (k - 1) * budget);
      var s := After(Start(budget), before);
      TurnedOvershoots(s, stray);
      RunsAppend(Start(budget), before, Turned(s, stray));
      es := before + Turned(s, stray);
    }
  }

  lemma OneBudgetMore(budget: nat, k: nat)
    requires k > 0
    ensures budget + (k - 1) * budget == k * budget && (k - 1) * budget >= 0
  {
  }

  /** A refusal may be spurious: a rejected giant in flight turns away a unit that the budget still has. */
  lemma PendingRefuses(budget: nat)
    requires budget > 0
    ensures var s := Step(Start(budget), Increment(budget + 1));
            Held(s, 0) == 0 && !Grants(s, 1) && Grants(Step(s, TakeBack(0)), 1)
  {
    var s := Step(Start(budget), Increment(budget + 1));
    assert s.reservations == [Reservation(0, 0, budget + 1)];
    TotalAppend(HeldOf(0), [], Reservation(0, 0, budget + 1));
    assert [] + [Reservation(0, 0, budget + 1)] == s.reservations;
  }

  // ---- the guard ----

  class Guard {
    const budget: nat
    var now: Window
    var counter: map<Window, int>
    ghost var reservations: seq<Reservation>
    ghost var given: seq<Return>

    ghost function View(): State
      reads this
    {
      State(budget, now, counter, reservations, given)
    }

    constructor (budget: nat)
      ensures View() == Start(budget) && Inv(View())
    {
      this.budget, now, counter := budget, 0, map[];
      reservations, given := [], [];
    }

    function Spent(k: Window): int
      reads this
    {
      if k in counter then counter[k] else 0
    }

    /** The first round trip of `reserve`. A caller that is refused still has to take its units back. */
    method Incrby(cost: nat) returns (granted: bool)
      requires Inv(View())
      modifies this
      ensures View() == Step(old(View()), Increment(cost)) && Inv(View())
      ensures granted == Grants(old(View()), cost)
    {
      StepKeeps(View(), Increment(cost));
      var total := Spent(now) + cost;
      granted := total <= budget;
      counter := counter[now := total];
      reservations := reservations + [if granted then Reservation(now, cost, 0) else Reservation(now, 0, cost)];
    }

    /** The second round trip of a refused `reserve`. */
    method RollBack(cost: nat, ghost i: nat)
      requires Inv(View()) && Enabled(View(), TakeBack(i)) && reservations[i].pending == cost
      modifies this
      ensures View() == Step(old(View()), TakeBack(i)) && Inv(View())
    {
      StepKeeps(View(), TakeBack(i));
      counter := counter[now := Spent(now) - cost];
      given := given + [Return(reservations[i].window, now, cost, false)];
      reservations := reservations[i := reservations[i].(pending := 0)];
    }

    method RefundUnits(amount: nat, ghost i: nat)
      requires Inv(View()) && Enabled(View(), Refund(i, amount))
      modifies this
      ensures View() == Step(old(View()), Refund(i, amount)) && Inv(View())
    {
      StepKeeps(View(), Refund(i, amount));
      counter := counter[now := Spent(now) - amount];
      given := given + [Return(reservations[i].window, now, amount, true)];
      reservations := reservations[i := reservations[i].(held := reservations[i].held - amount)];
    }
  }
}
