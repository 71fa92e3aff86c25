/**
 * The life of a review in the AI queue: batch workers claim pending reviews under SKIP LOCKED,
 * commit the claim, and settle each review on its own.
 */
module Lifecycle {

  type ReviewId = nat
  type WorkerId = nat

  datatype AIState = Pending | Processing | Done | Failed

  datatype Row = Row(state: AIState, attempts: nat)

  const MaxAttempts: nat := 5

  /** `claiming` is locked by uncommitted claims; `holding` is what committed batches still have to settle. */
  datatype Queue = Queue(
    rows: map<ReviewId, Row>, claiming: map<WorkerId, set<ReviewId>>, holding: map<WorkerId, set<ReviewId>>)

  datatype Event =
    | Submit(id: ReviewId)
    | Claim(worker: WorkerId, picked: set<ReviewId>)
    | Commit(worker: WorkerId)
    | Abort(worker: WorkerId)
    | Succeed(worker: WorkerId, id: ReviewId)
    | Fail(worker: WorkerId, id: ReviewId)
    | EndBatch(worker: WorkerId)

  predicate Claimed(q: Queue, id: ReviewId) { exists w | w in q.claiming :: id in q.claiming[w] }

  predicate Held(q: Queue, id: ReviewId) { exists w | w in q.holding :: id in q.holding[w] }

  /** What a claim may select: pending, with attempts left, and not locked by another claim. */
  predicate Claimable(q: Queue, id: ReviewId) {
    id in q.rows && q.rows[id].state.Pending? && q.rows[id].attempts < MaxAttempts && !Claimed(q, id)
  }

  predicate Enabled(q: Queue, e: Event) {
    match e
    case Submit(id) => id !in q.rows
    case Claim(w, picked) => w !in q.claiming && w !in q.holding && forall id | id in picked :: Claimable(q, id)
    case Commit(w) => w in q.claiming
    case Abort(w) => w in q.claiming
    case Succeed(w, id) => w in q.holding && id in q.holding[w] && id in q.rows
    case Fail(w, id) => w in q.holding && id in q.holding[w] && id in q.rows
    case EndBatch(w) => w in q.holding && q.holding[w] == {}
  }

  function Started(r: Row): Row { Row(Processing, r.attempts + 1) }

  /** `mark_failed` */
  function AfterFailure(r: Row): Row { r.(state := if r.attempts >= MaxAttempts then Failed else Pending) }

  function StartAll(rows: map<ReviewId, Row>, ids: set<ReviewId>): map<ReviewId, Row> {
    map id | id in rows :: if id in ids then Started(rows[id]) else rows[id]
  }

  function Step(q: Queue, e: Event): Queue
    requires Enabled(q, e)
  {
    match e
    case Submit(id) => q.(rows := q.rows[id := Row(Pending, 0)])
    case Claim(w, picked) => q.(claiming := q.claiming[w := picked])
    case Commit(w) =>
      Queue(StartAll(q.rows, q.claiming[w]), q.claiming - {w}, q.holding[w := q.claiming[w]])
    case Abort(w) => q.(claiming := q.claiming - {w})
    case Succeed(w, id) => q.(rows := q.rows[id := q.rows[id].(state := Done)], holding := q.holding[w := q.holding[w] - {id}])
    case Fail(w, id) => q.(rows := q.rows[id := AfterFailure(q.rows[id])], holding := q.holding[w := q.holding[w] - {id}])
    case EndBatch(w) => q.(holding := q.holding - {w})
  }

  // ---- safety ----

  predicate RowSound(r: Row) {
    && r.attempts <= MaxAttempts
    && (r.state.Pending? ==> r.attempts < MaxAttempts)
    && (r.state.Failed? ==> r.attempts == MaxAttempts)
  }

  /** No review is with two workers, whether claimed or held. */
  ghost predicate Exclusive(q: Queue) {
    && q.claiming.Keys !! q.holding.Keys
    && (forall v, w, id | v in q.claiming && w in q.claiming && id in q.claiming[v] && id in q.claiming[w] :: v == w)
    && (forall v, w, id | v in q.holding && w in q.holding && id in q.holding[v] && id in q.holding[w] :: v == w)
  }

  ghost predicate Inv(q: Queue) {
    && Exclusive(q)
    && (forall id | id in q.rows :: RowSound(q.rows[id]))
    && (forall id | Claimed(q, id) :: id in q.rows && q.rows[id].state.Pending?)
    && (forall id | Held(q, id) :: id in q.rows && q.rows[id].state.Processing?)
    && (forall id | id in q.rows && q.rows[id].state.Processing? :: Held(q, id))
  }

  /** What a step makes of the reviews held. */
  ghost predicate HeldNext(q: Queue, e: Event, id: ReviewId)
    requires Enabled(q, e)
  {
    match e
    case Commit(w) => id in q.claiming[w] || Held(q, id)
    case Succeed(_, x) => id != x && Held(q, id)
    case Fail(_, x) => id != x && Held(q, id)
    case _ => Held(q, id)
  }

  lemma StillHeld(q: Queue, e: Event, id: ReviewId)
    requires Exclusive(q) && Enabled(q, e) && HeldNext(q, e, id)
    ensures Held(Step(q, e), id)
  {
    var after := Step(q, e);
    if e.Commit? && id in q.claiming[e.worker] {
      assert e.worker in after.holding && id in after.holding[e.worker];
    } else {
      var v :| v in q.holding && id in q.holding[v];
      assert v in after.holding && id in after.holding[v];
    }
  }

  lemma NewlyHeld(q: Queue, e: Event, id: ReviewId)
    requires Exclusive(q) && Enabled(q, e) && Held(Step(q, e), id)
    ensures HeldNext(q, e, id)
  {
    var after := Step(q, e);
    var v :| v in after.holding && id in after.holding[v];
    if e.Commit? && v == e.worker {
      assert after.holding[v] == q.claiming[v];
    } else if e.Succeed? || e.Fail? {
      assert v in q.holding && id in q.holding[v];
      if v == e.worker {
        assert after.holding[v] == q.holding[v] - {e.id};
      } else {
        assert id !in q.holding[e.worker];
      }
    } else {
      assert v in q.holding && id in q.holding[v];
    }
  }

  lemma HeldAfter(q: Queue, e: Event, id: ReviewId)
    requires Exclusive(q) && Enabled(q, e)
    ensures Held(Step(q, e), id) <==> HeldNext(q, e, id)
  {
    if HeldNext(q, e, id) { StillHeld(q, e, id); }
    if Held(Step(q, e), id) { NewlyHeld(q, e, id); }
  }

  lemma ClaimedAfter(q: Queue, e: Event, id: ReviewId)
    requires Enabled(q, e)
    ensures Claimed(Step(q, e), id) ==> Claimed(q, id) || (e.Claim? && id in e.picked)
  {
    var after := Step(q, e);
    if Claimed(after, id) {
      var v :| v in after.claiming && id in after.claiming[v];
      if v in q.claiming && !e.Claim? { assert id in q.claiming[v]; }
    }
  }

  lemma CommittedNotClaimed(q: Queue, w: WorkerId, id: ReviewId)
    requires Exclusive(q) && w in q.claiming && id in q.claiming[w]
    ensures !Claimed(Step(q, Commit(w)), id)
  {
  }

  lemma ExclusiveKept(q: Queue, e: Event)
    requires Inv(q) && Enabled(q, e)
    ensures Exclusive(Step(q, e))
  {
    match e
    case Claim(w, picked) =>
      forall id | id in picked ensures !Claimed(q, id) { assert Claimable(q, id); }
    case Commit(w) =>
      forall id | id in q.claiming[w] ensures !Held(q, id) { assert Claimed(q, id); }
    case _ =>
  }

  lemma StepKeeps(q: Queue, e: Event)
    requires Inv(q) && Enabled(q, e)
    ensures Inv(Step(q, e))
  {
    var after := Step(q, e);
    ExclusiveKept(q, e);
    forall id | Claimed(after, id) ensures id in after.rows && after.rows[id].state.Pending? {
      ClaimedAfter(q, e, id);
      if e.Claim? && id in e.picked { assert Claimable(q, id); }
      if e.Commit? && id in q.claiming[e.worker] { CommittedNotClaimed(q, e.worker, id); }
      if e.Succeed? || e.Fail? { assert Held(q, e.id) && !Claimed(q, e.id); }
    }
    forall id ensures Held(after, id) ==> id in after.rows && after.rows[id].state.Processing? {
      HeldAfter(q, e, id);
      if e.Commit? && id in q.claiming[e.worker] { assert Claimed(q, id); }
    }
    forall id | id in after.rows && after.rows[id].state.Processing? ensures Held(after, id) { HeldAfter(q, e, id); }
    forall id | id in after.rows ensures RowSound(after.rows[id]) {
      if e.Commit? && id in q.claiming[e.worker] { assert Claimed(q, id); }
      if (e.Succeed? || e.Fail?) && id == e.id { assert Held(q, id); }
    }
  }

  // ---- the queue drains ----

  ghost function SumOver(ids: set<ReviewId>, f: ReviewId -> int): int {
    if ids == {} then 0 else
      var id :| id in ids;
      f(id) + SumOver(ids - {id}, f)
  }

  lemma {:induction false} SumRemove(ids: set<ReviewId>, f: ReviewId -> int, id: ReviewId)
    requires id in ids
    ensures SumOver(ids, f) == f(id) + SumOver(ids - {id}, f)
  {
    var x :| x in ids && SumOver(ids, f) == f(x) + SumOver(ids - {x}, f);
    if x != id {
      SumRemove(ids - {x}, f, id);
      SumRemove(ids - {id}, f, x);
      assert ids - {x} - {id} == ids - {id} - {x};
    }
  }

  /** Adding `c` to the terms of `part` adds `c` times its size. */
  lemma {:induction false} SumShift(ids: set<ReviewId>, f: ReviewId -> int, g: ReviewId -> int, part: set<ReviewId>, c: int)
    requires part <= ids && forall id | id in ids :: g(id) == f(id) + (if id in part then c else 0)
    ensures SumOver(ids, g) == SumOver(ids, f) + c * |part|
  {
    if ids != {} {
      var id :| id in ids;
      SumRemove(ids, f, id);
      SumRemove(ids, g, id);
      SumShift(ids - {id}, f, g, part - {id}, c);
      ShareOf(part, id, c);
    }
  }

  lemma ShareOf(part: set<ReviewId>, id: ReviewId, c: int)
    ensures c * |part| == c * |part - {id}| + (if id in part then c else 0)
  {
    if id in part {
      assert |part| == |part - {id}| + 1;
    } else {
      assert part - {id} == part;
    }
  }

  lemma {:induction false} SumNonNegative(ids: set<ReviewId>, f: ReviewId -> int)
    requires forall id | id in ids :: f(id) >= 0
    ensures SumOver(ids, f) >= 0
  {
    if ids != {} {
      var id :| id in ids;
      SumRemove(ids, f, id);
      SumNonNegative(ids - {id}, f);
    }
  }

  function AttemptsLeft(q: Queue): ReviewId -> int {
    (id: ReviewId) => if id in q.rows then MaxAttempts - q.rows[id].attempts else 0
  }

  /** The sum of the attempts left over all reviews. */
  ghost function Remaining(q: Queue): int { SumOver(q.rows.Keys, AttemptsLeft(q)) }

  /** Each committed claim spends one attempt a review. */
  lemma ClaimSpends(q: Queue, w: WorkerId)
    requires Inv(q) && w in q.claiming
    ensures Remaining(Step(q, Commit(w))) == Remaining(q) - |q.claiming[w]|
  {
    var after, picked := Step(q, Commit(w)), q.claiming[w];
    forall id | id in picked ensures id in q.rows { assert Claimed(q, id); }
    assert after.rows.Keys == q.rows.Keys;
    SumShift(q.rows.Keys, AttemptsLeft(q), AttemptsLeft(after), picked, -1);
  }

  /** What a review can still cost: less once it is claimed, and less again once it is settled. */
  function CostOf(attempts: nat, claimed: bool, held: bool): int {
    5 * (MaxAttempts - attempts) - (if claimed then 3 else 0) + (if held then 1 else 0)
  }

  function CostAt(q: Queue, id: ReviewId): int {
    if id in q.rows then CostOf(q.rows[id].attempts, Claimed(q, id), Held(q, id)) else 0
  }

  function Cost(q: Queue): ReviewId -> int { (id: ReviewId) => CostAt(q, id) }

  ghost function Load(q: Queue): int {
    SumOver(q.rows.Keys, Cost(q)) + 2 * |q.claiming.Keys| + |q.holding.Keys|
  }

  /** The steps of a worker that gets something done. */
  ghost predicate Works(q: Queue, e: Event) {
    Enabled(q, e) && !e.Submit? && !e.Abort? && (e.Claim? ==> e.picked != {})
  }

  lemma LoadShift(q: Queue, after: Queue, part: set<ReviewId>, c: int)
    requires after.rows.Keys == q.rows.Keys && part <= q.rows.Keys
    requires forall id | id in q.rows :: CostAt(after, id) == CostAt(q, id) + (if id in part then c else 0)
    ensures Load(after) == Load(q) + c * |part| + 2 * (|after.claiming.Keys| - |q.claiming.Keys|) + |after.holding.Keys| - |q.holding.Keys|
  {
    SumShift(q.rows.Keys, Cost(q), Cost(after), part, c);
  }

  lemma ClaimCost(q: Queue, w: WorkerId, picked: set<ReviewId>, id: ReviewId)
    requires Inv(q) && Enabled(q, Claim(w, picked)) && id in q.rows
    ensures CostAt(Step(q, Claim(w, picked)), id) == CostAt(q, id) + (if id in picked then -3 else 0)
  {
    HeldAfter(q, Claim(w, picked), id);
    StillClaimed(q, Claim(w, picked), id);
    ClaimedAfter(q, Claim(w, picked), id);
    if id in picked { assert Claimable(q, id); }
  }

  lemma StillClaimed(q: Queue, e: Event, id: ReviewId)
    requires Enabled(q, e)
    ensures e.Claim? && id in e.picked ==> Claimed(Step(q, e), id)
    ensures Claimed(q, id) && !((e.Commit? || e.Abort?) && id in q.claiming[e.worker]) ==> Claimed(Step(q, e), id)
  {
    var after := Step(q, e);
    if e.Claim? && id in e.picked { assert e.worker in after.claiming && id in after.claiming[e.worker]; }
    if v :| v in q.claiming && id in q.claiming[v] {
      assert !((e.Commit? || e.Abort?) && v == e.worker) ==> v in after.claiming && id in after.claiming[v];
    }
  }

  lemma ClaimWorks(q: Queue, w: WorkerId, picked: set<ReviewId>)
    requires Inv(q) && Works(q, Claim(w, picked))
    ensures Load(Step(q, Claim(w, picked))) < Load(q)
  {
    var after := Step(q, Claim(w, picked));
    forall id | id in q.rows ensures CostAt(after, id) == CostAt(q, id) + (if id in picked then -3 else 0) {
      ClaimCost(q, w, picked, id);
    }
    ClaimMoves(q, w, picked);
    LoadShift(q, after, picked, -3);
  }

  lemma ClaimMoves(q: Queue, w: WorkerId, picked: set<ReviewId>)
    requires Works(q, Claim(w, picked))
    ensures picked <= q.rows.Keys && |picked| > 0
    ensures |Step(q, Claim(w, picked)).claiming.Keys| == |q.claiming.Keys| + 1
  {
    KeyAdded(q.claiming, w, picked);
    forall id | id in picked ensures id in q.rows { assert Claimable(q, id); }
  }

  lemma CommitCost(q: Queue, w: WorkerId, id: ReviewId)
    requires Inv(q) && w in q.claiming && id in q.rows
    ensures CostAt(Step(q, Commit(w)), id) == CostAt(q, id) + (if id in q.claiming[w] then -1 else 0)
  {
    HeldAfter(q, Commit(w), id);
    StillClaimed(q, Commit(w), id);
    ClaimedAfter(q, Commit(w), id);
    if id in q.claiming[w] {
      assert Claimed(q, id);
      CommittedNotClaimed(q, w, id);
    }
  }

  lemma CommitMoves(q: Queue, w: WorkerId)
    requires w in q.claiming && w !in q.holding
    ensures var after := Step(q, Commit(w));
            && after.rows.Keys == q.rows.Keys
            && |after.claiming.Keys| == |q.claiming.Keys| - 1 && |after.holding.Keys| == |q.holding.Keys| + 1
  {
    KeyRemoved(q.claiming, w);
    KeyAdded(q.holding, w, q.claiming[w]);
  }

  lemma KeyRemoved<V>(m: map<WorkerId, V>, w: WorkerId)
    requires w in m
    ensures |(m - {w}).Keys| == |m.Keys| - 1
  {
    assert m.Keys == (m - {w}).Keys + {w};
  }

  lemma KeyAdded<V>(m: map<WorkerId, V>, w: WorkerId, v: V)
    requires w !in m
    ensures |m[w := v].Keys| == |m.Keys| + 1
  {
    assert m[w := v].Keys == m.Keys + {w};
  }

  lemma PickedKnown(q: Queue, w: WorkerId)
    requires Inv(q) && w in q.claiming
    ensures q.claiming[w] <= q.rows.Keys && w !in q.holding
  {
    forall id | id in q.claiming[w] ensures id in q.rows { assert Claimed(q, id); }
  }

  lemma CommitWorks(q: Queue, w: WorkerId)
    requires Inv(q) && w in q.claiming
    ensures Load(Step(q, Commit(w))) < Load(q)
  {
    var after, picked := Step(q, Commit(w)), q.claiming[w];
    PickedKnown(q, w);
    CommitMoves(q, w);
    forall id | id in q.rows ensures CostAt(after, id) == CostAt(q, id) + (if id in picked then -1 else 0) { CommitCost(q, w, id); }
    LoadShift(q, after, picked, -1);
  }

  lemma SettleCost(q: Queue, e: Event, id: ReviewId)
    requires Inv(q) && Enabled(q, e) && (e.Succeed? || e.Fail?) && id in q.rows
    ensures CostAt(Step(q, e), id) == CostAt(q, id) + (if id in {e.id} then -1 else 0)
  {
    HeldAfter(q, e, id);
    StillClaimed(q, e, id);
    ClaimedAfter(q, e, id);
    if id == e.id { assert Held(q, id); }
  }

  lemma SettleWorks(q: Queue, e: Event)
    requires Inv(q) && Enabled(q, e) && (e.Succeed? || e.Fail?)
    ensures Load(Step(q, e)) < Load(q)
  {
    var after := Step(q, e);
    forall id | id in q.rows ensures CostAt(after, id) == CostAt(q, id) + (if id in {e.id} then -1 else 0) { SettleCost(q, e, id); }
    SettleMoves(q, e);
    LoadDrops(q, after, e.id);
  }

  lemma LoadDrops(q: Queue, after: Queue, id: ReviewId)
    requires after.rows.Keys == q.rows.Keys && id in q.rows && after.claiming == q.claiming && after.holding.Keys == q.holding.Keys
    requires forall x | x in q.rows :: CostAt(after, x) == CostAt(q, x) + (if x in {id} then -1 else 0)
    ensures Load(after) == Load(q) - 1
  {
    LoadShift(q, after, {id}, -1);
  }

  lemma SettleMoves(q: Queue, e: Event)
    requires Enabled(q, e) && (e.Succeed? || e.Fail?)
    ensures {e.id} <= q.rows.Keys && Step(q, e).rows.Keys == q.rows.Keys
    ensures Step(q, e).holding.Keys == q.holding.Keys && Step(q, e).claiming == q.claiming
  {
  }

  lemma EndCost(q: Queue, w: WorkerId, id: ReviewId)
    requires Inv(q) && Enabled(q, EndBatch(w)) && id in q.rows
    ensures CostAt(Step(q, EndBatch(w)), id) == CostAt(q, id)
  {
    HeldAfter(q, EndBatch(w), id);
    StillClaimed(q, EndBatch(w), id);
    ClaimedAfter(q, EndBatch(w), id);
  }

  lemma EndWorks(q: Queue, w: WorkerId)
    requires Inv(q) && Enabled(q, EndBatch(w))
    ensures Load(Step(q, EndBatch(w))) < Load(q)
  {
    var after := Step(q, EndBatch(w));
    forall id | id in q.rows ensures CostAt(after, id) == CostAt(q, id) { EndCost(q, w, id); }
    KeyRemoved(q.holding, w);
    LoadShift(q, after, {}, 0);
  }

  lemma WorkShrinks(q: Queue, e: Event)
    requires Inv(q) && Works(q, e)
    ensures Load(Step(q, e)) < Load(q)
  {
    match e
    case Claim(w, picked) => ClaimWorks(q, w, picked);
    case Commit(w) => CommitWorks(q, w);
    case EndBatch(w) => EndWorks(q, w);
    case _ => SettleWorks(q, e);
  }

  lemma LoadNonNegative(q: Queue)
    requires Inv(q)
    ensures Load(q) >= 0
  {
    forall id | id in q.rows ensures CostAt(q, id) >= 0 {
      assert RowSound(q.rows[id]);
      assert !(Claimed(q, id) && Held(q, id));
    }
    SumNonNegative(q.rows.Keys, Cost(q));
  }

  predicate Settled(q: Queue) {
    forall id | id in q.rows :: q.rows[id].state.Done? || q.rows[id].state.Failed?
  }

  /** As long as a review is unsettled some worker can do something. */
  lemma SomeWork(q: Queue) returns (e: Event)
    requires Inv(q) && !Settled(q)
    ensures Works(q, e)
  {
    if w :| w in q.claiming {
      e := Commit(w);
    } else if w :| w in q.holding {
      if q.holding[w] == {} {
        e := EndBatch(w);
      } else {
        var id :| id in q.holding[w];
        assert Held(q, id);
        e := Succeed(w, id);
      }
    } else {
      var id :| id in q.rows && !q.rows[id].state.Done? && !q.rows[id].state.Failed?;
      assert !Held(q, id) && !Claimed(q, id);
      assert RowSound(q.rows[id]);
      e := Claim(0, {id});
      assert Claimable(q, id);
    }
  }

  ghost predicate IsWorkRun(q: Queue, es: seq<Event>)
    decreases |es|
  {
    es == [] || (Works(q, es[0]) && IsWorkRun(Step(q, es[0]), es[1..]))
  }

  ghost function After(q: Queue, es: seq<Event>): Queue
    requires IsWorkRun(q, es)
    decreases |es|
  {
    if es == [] then q else After(Step(q, es[0]), es[1..])
  }

  /**
   * Whatever the workers' interleaving and whichever reviews fail, the work on a finite queue ends:
   * no run is longer than the load, and when nothing is left to do every review is done or failed.
   */
  lemma {:induction false} QueueDrains(q: Queue, es: seq<Event>)
    requires Inv(q) && IsWorkRun(q, es)
    ensures Inv(After(q, es)) && |es| <= Load(q)
    ensures (forall e :: !Works(After(q, es), e)) ==> Settled(After(q, es))
    decreases |es|
  {
    LoadNonNegative(q);
    if es == [] {
      if !Settled(q) { var e := SomeWork(q); }
    } else {
      StepKeeps(q, es[0]);
      WorkShrinks(q, es[0]);
      QueueDrains(Step(q, es[0]), es[1..]);
    }
  }

  // ---- the single-review task, which takes no lock ----

  /** `process_review_task` up to its first commit: skipped if done, else started whatever its state. */
  function TaskStart(q: Queue, w: WorkerId, id: ReviewId): Queue {
    if id !in q.rows || q.rows[id].state.Done? then q
    else q.(rows := q.rows[id := Started(q.rows[id])], holding := q.holding[w := {id}])
  }

  /** A single-review run keeps the lifecycle exactly when it finds the review done, or pending and unclaimed. */
  lemma TaskSafeIff(q: Queue, w: WorkerId, id: ReviewId)
    requires Inv(q) && w !in q.claiming && w !in q.holding && id in q.rows
    ensures Inv(TaskStart(q, w, id)) <==> q.rows[id].state.Done? || (q.rows[id].state.Pending? && !Claimed(q, id))
  {
    var after, row := TaskStart(q, w, id), q.rows[id];
    if row.state.Pending? && !Claimed(q, id) {
      TaskAsClaim(q, w, id);
    } else if row.state.Failed? {
      assert !RowSound(after.rows[id]);
    } else if row.state.Processing? {
      var v :| v in q.holding && id in q.holding[v];
      assert id in after.holding[v] && id in after.holding[w] && v != w;
    } else if row.state.Pending? {
      assert Claimed(after, id) && after.rows[id].state.Processing?;
    }
  }

  lemma TaskAsClaim(q: Queue, w: WorkerId, id: ReviewId)
    requires Inv(q) && w !in q.claiming && w !in q.holding && Claimable(q, id)
    ensures Inv(TaskStart(q, w, id))
  {
    var mid := Step(q, Claim(w, {id}));
    StepKeeps(q, Claim(w, {id}));
    StepKeeps(mid, Commit(w));
    ClaimThenCommit(q, w, id);
  }

  lemma ClaimThenCommit(q: Queue, w: WorkerId, id: ReviewId)
    requires w !in q.claiming && w !in q.holding && Claimable(q, id)
    ensures Step(Step(q, Claim(w, {id})), Commit(w)) == TaskStart(q, w, id)
  {
    assert Step(Step(q, Claim(w, {id})), Commit(w)).rows == TaskStart(q, w, id).rows;
    assert q.claiming[w := {id}] - {w} == q.claiming;
  }

  /** One run on a review whose analysis fails; Celery then runs it again. */
  function FailedTask(r: Row): Row { if r.state.Done? then r else AfterFailure(Started(r)) }

  /** The task run `n` times on a review whose analysis keeps failing. */
  function FailedTasks(r: Row, n: nat): Row { if n == 0 then r else FailedTask(FailedTasks(r, n - 1)) }

  /** Failing runs break the attempt limit exactly when they outnumber the attempts left; five retries do. */
  lemma {:induction false} RetriesBreakTheBoundIff(r: Row, n: nat)
    requires RowSound(r) && !r.state.Done?
    ensures FailedTasks(r, n).attempts == r.attempts + n && !FailedTasks(r, n).state.Done?
    ensures RowSound(FailedTasks(r, n)) <==> r.attempts + n <= MaxAttempts
  {
    if n > 0 { RetriesBreakTheBoundIff(r, n - 1); }
  }

  // ---- every run, submissions and rolled-back claims included ----

  function Empty(): Queue { Queue(map[], map[], map[]) }

  predicate IsRun(q: Queue, es: seq<Event>)
    decreases |es|
  {
    es == [] || (Enabled(q, es[0]) && IsRun(Step(q, es[0]), es[1..]))
  }

  function AfterRun(q: Queue, es: seq<Event>): Queue
    requires IsRun(q, es)
    decreases |es|
  {
    if es == [] then q else AfterRun(Step(q, es[0]), es[1..])
  }

  lemma {:induction false} RunKeeps(q: Queue, es: seq<Event>)
    requires Inv(q) && IsRun(q, es)
    ensures Inv(AfterRun(q, es))
    decreases |es|
  {
    if es != [] {
      StepKeeps(q, es[0]);
      RunKeeps(Step(q, es[0]), es[1..]);
    }
  }

  /** From the empty queue no run of the workers ever puts a review in two hands or past its attempts. */
  lemma EveryRunIsSafe(es: seq<Event>)
    requires IsRun(Empty(), es)
    ensures Inv(AfterRun(Empty(), es))
  {
    RunKeeps(Empty(), es);
  }

  // ---- killed workers ----

  /** Besides the workers' own steps: a worker is killed, or a stuck review is reset. */
  datatype Life = Work(event: Event) | Kill(worker: WorkerId) | ResetStuck(id: ReviewId)

  /** A killed worker's claim is rolled back; what it held stays in processing. */
  function Killed(q: Queue, w: WorkerId): Queue { q.(claiming := q.claiming - {w}, holding := q.holding - {w}) }

  /** `reset_stuck_reviews` */
  function Reset(q: Queue, id: ReviewId): Queue
    requires id in q.rows
  {
    q.(rows := q.rows[id := q.rows[id].(state := Pending)])
  }

  /** Thirty minutes without an update mean that nobody holds the review any more. */
  predicate LifeEnabled(q: Queue, l: Life) {
    match l
    case Work(e) => Enabled(q, e)
    case Kill(w) => w in q.claiming || w in q.holding
    case ResetStuck(id) => id in q.rows && q.rows[id].state.Processing? && !Held(q, id)
  }

  function LifeStep(q: Queue, l: Life): Queue
    requires LifeEnabled(q, l)
  {
    match l
    case Work(e) => Step(q, e)
    case Kill(w) => Killed(q, w)
    case ResetStuck(id) => Reset(q, id)
  }

  /** What kills and resets leave of the invariant. */
  ghost predicate KilledInv(q: Queue) {
    && Exclusive(q)
    && (forall id | id in q.rows :: q.rows[id].attempts <= MaxAttempts && (q.rows[id].state.Failed? ==> q.rows[id].attempts == MaxAttempts))
    && (forall id | Claimed(q, id) :: id in q.rows && q.rows[id].state.Pending? && q.rows[id].attempts < MaxAttempts)
    && (forall id | Held(q, id) :: id in q.rows && q.rows[id].state.Processing?)
  }

  lemma InvIsKilledInv(q: Queue)
    requires Inv(q)
    ensures KilledInv(q)
  {
    forall id | Claimed(q, id) ensures q.rows[id].attempts < MaxAttempts { assert RowSound(q.rows[id]); }
  }

  lemma KillKeeps(q: Queue, w: WorkerId)
    requires KilledInv(q)
    ensures KilledInv(Killed(q, w))
    ensures forall id :: Held(Killed(q, w), id) <==> Held(q, id) && !(w in q.holding && id in q.holding[w])
  {
    var after := Killed(q, w);
    forall id ensures Held(after, id) <==> Held(q, id) && !(w in q.holding && id in q.holding[w]) {
      if v :| v in q.holding && id in q.holding[v] { assert v != w ==> v in after.holding && id in after.holding[v]; }
      if v :| v in after.holding && id in after.holding[v] { assert id in q.holding[v]; }
    }
    forall id | Claimed(after, id) ensures Claimed(q, id) {
      var v :| v in after.claiming && id in after.claiming[v];
      assert id in q.claiming[v];
    }
  }

  lemma ResetKeeps(q: Queue, id: ReviewId)
    requires KilledInv(q) && LifeEnabled(q, ResetStuck(id))
    ensures KilledInv(Reset(q, id)) && forall x :: Held(Reset(q, id), x) <==> Held(q, x)
  {
    forall x ensures Claimed(Reset(q, id), x) <==> Claimed(q, x) {}
    forall x ensures Held(Reset(q, id), x) <==> Held(q, x) {}
  }

  lemma WorkKeepsExclusive(q: Queue, e: Event)
    requires KilledInv(q) && Enabled(q, e)
    ensures Exclusive(Step(q, e))
  {
    match e
    case Claim(w, picked) =>
      forall id | id in picked ensures !Claimed(q, id) { assert Claimable(q, id); }
    case Commit(w) =>
      forall id | id in q.claiming[w] ensures !Held(q, id) { assert Claimed(q, id); }
    case _ =>
  }

  lemma WorkKeepsClaims(q: Queue, e: Event, id: ReviewId)
    requires KilledInv(q) && Enabled(q, e) && Claimed(Step(q, e), id)
    ensures var after := Step(q, e);
            id in after.rows && after.rows[id].state.Pending? && after.rows[id].attempts < MaxAttempts
  {
    ClaimedAfter(q, e, id);
    if e.Claim? && id in e.picked { assert Claimable(q, id); }
    if e.Commit? && id in q.claiming[e.worker] { CommittedNotClaimed(q, e.worker, id); }
    if e.Succeed? || e.Fail? { assert Held(q, e.id) && !Claimed(q, e.id); }
  }

  lemma WorkKeepsHolds(q: Queue, e: Event, id: ReviewId)
    requires KilledInv(q) && Enabled(q, e) && Held(Step(q, e), id)
    ensures id in Step(q, e).rows && Step(q, e).rows[id].state.Processing?
  {
    HeldAfter(q, e, id);
    if e.Commit? && id in q.claiming[e.worker] { assert Claimed(q, id); }
  }

  lemma WorkKeeps(q: Queue, e: Event)
    requires KilledInv(q) && Enabled(q, e)
    ensures KilledInv(Step(q, e))
  {
    var after := Step(q, e);
    WorkKeepsExclusive(q, e);
    forall id | Claimed(after, id)
      ensures id in after.rows && after.rows[id].state.Pending? && after.rows[id].attempts < MaxAttempts
    {
      WorkKeepsClaims(q, e, id);
    }
    forall id | Held(after, id) ensures id in after.rows && after.rows[id].state.Processing? { WorkKeepsHolds(q, e, id); }
    forall id | id in after.rows
      ensures after.rows[id].attempts <= MaxAttempts && (after.rows[id].state.Failed? ==> after.rows[id].attempts == MaxAttempts)
    {
      if e.Commit? && id in q.claiming[e.worker] { assert Claimed(q, id); }
    }
  }

  lemma LifeKeeps(q: Queue, l: Life)
    requires KilledInv(q) && LifeEnabled(q, l)
    ensures KilledInv(LifeStep(q, l))
  {
    match l
    case Work(e) => WorkKeeps(q, e);
    case Kill(w) => KillKeeps(q, w);
    case ResetStuck(id) => ResetKeeps(q, id);
  }

  /** Resetting a review that a worker still holds is what this would not survive. */
  lemma ResetSafeIff(q: Queue, id: ReviewId)
    requires KilledInv(q) && id in q.rows && q.rows[id].state.Processing?
    ensures KilledInv(Reset(q, id)) <==> !Held(q, id)
  {
    if Held(q, id) {
      assert Held(Reset(q, id), id) by { var w :| w in q.holding && id in q.holding[w]; assert id in Reset(q, id).holding[w]; }
    } else {
      ResetKeeps(q, id);
    }
  }

  predicate IsLife(q: Queue, ls: seq<Life>)
    decreases |ls|
  {
    ls == [] || (LifeEnabled(q, ls[0]) && IsLife(LifeStep(q, ls[0]), ls[1..]))
  }

  function AfterLife(q: Queue, ls: seq<Life>): Queue
    requires IsLife(q, ls)
    decreases |ls|
  {
    if ls == [] then q else AfterLife(LifeStep(q, ls[0]), ls[1..])
  }

  /** A killed worker claims and holds nothing any more, other workers keep what they had, and no row changes. */
  lemma KillReleases(q: Queue, w: WorkerId, v: WorkerId)
    ensures var after := Killed(q, w);
            && w !in after.claiming && w !in after.holding && after.rows == q.rows
            && (v != w ==> (v in after.claiming <==> v in q.claiming) && (v in q.claiming ==> after.claiming[v] == q.claiming[v]))
            && (v != w ==> (v in after.holding <==> v in q.holding) && (v in q.holding ==> after.holding[v] == q.holding[v]))
  {
  }

  /** What the workers' invariant says of one review and of two workers. */
  lemma SafeMeans(q: Queue, id: ReviewId, v: WorkerId, w: WorkerId)
    requires Inv(q)
    ensures v != w ==> !(((v in q.claiming && id in q.claiming[v]) || (v in q.holding && id in q.holding[v]))
                         && ((w in q.claiming && id in q.claiming[w]) || (w in q.holding && id in q.holding[w])))
    ensures id in q.rows ==>
              var r := q.rows[id];
              && r.attempts <= 5 && (r.state == Pending ==> r.attempts < 5) && (r.state == Failed ==> r.attempts == 5)
              && (r.state == Processing <==> exists u :: u in q.holding && id in q.holding[u])
              && (r.state != Pending ==> forall u | u in q.claiming :: id !in q.claiming[u])
  {
    if v in q.claiming && id in q.claiming[v] { assert Claimed(q, id); }
    if w in q.claiming && id in q.claiming[w] { assert Claimed(q, id); }
    if v in q.holding && id in q.holding[v] { assert Held(q, id); }
    if w in q.holding && id in q.holding[w] { assert Held(q, id); }
    if u :| u in q.holding && id in q.holding[u] { assert Held(q, id); }
    if id in q.rows && q.rows[id].state != Pending {
      forall u | u in q.claiming ensures id !in q.claiming[u] { assert id in q.claiming[u] ==> Claimed(q, id); }
    }
    assert id in q.rows ==> RowSound(q.rows[id]);
  }

  // ---- stranded reviews ----

  /** Pending, but with no attempt left: no claim will ever take it. */
  predicate Stranded(q: Queue, id: ReviewId) {
    id in q.rows && q.rows[id].state.Pending? && q.rows[id].attempts >= MaxAttempts
  }

  /** Its fifth attempt is over, and nobody holds it. */
  predicate Orphaned(q: Queue, id: ReviewId) {
    id in q.rows && q.rows[id].state.Processing? && q.rows[id].attempts == MaxAttempts && !Held(q, id)
  }

  /** The step kills the worker that holds the review at its fifth attempt. */
  predicate KillsFifth(q: Queue, l: Life, id: ReviewId) {
    l.Kill? && l.worker in q.holding && id in q.holding[l.worker] && id in q.rows && q.rows[id].attempts == MaxAttempts
  }

  lemma WorkAndStranded(q: Queue, e: Event, id: ReviewId)
    requires KilledInv(q) && Enabled(q, e)
    ensures Stranded(Step(q, e), id) <==> Stranded(q, id)
    ensures Orphaned(Step(q, e), id) <==> Orphaned(q, id)
  {
    HeldAfter(q, e, id);
    if e.Commit? && id in q.claiming[e.worker] { assert Claimed(q, id); }
    if e.Succeed? || e.Fail? { assert Held(q, e.id); }
  }

  /** Only a kill at the fifth attempt orphans a review, and only a reset strands it. */
  lemma LifeAndStranded(q: Queue, l: Life, id: ReviewId)
    requires KilledInv(q) && LifeEnabled(q, l)
    ensures Stranded(LifeStep(q, l), id) <==> Stranded(q, id) || (Orphaned(q, id) && l == ResetStuck(id))
    ensures Orphaned(LifeStep(q, l), id) <==> (Orphaned(q, id) && l != ResetStuck(id)) || KillsFifth(q, l, id)
  {
    match l
    case Work(e) => WorkAndStranded(q, e, id);
    case Kill(w) =>
      KillKeeps(q, w);
      if w in q.holding && id in q.holding[w] { assert Held(q, id); }
    case ResetStuck(x) => ResetKeeps(q, x);
  }

  ghost predicate ResetIn(ls: seq<Life>, id: ReviewId) { exists j :: 0 <= j < |ls| && ls[j] == ResetStuck(id) }

  /** Somewhere in the run the holder is killed at the fifth attempt, and later the review is reset. */
  ghost predicate Doomed(q: Queue, ls: seq<Life>, id: ReviewId)
    requires IsLife(q, ls)
    decreases |ls|
  {
    ls != [] && ((KillsFifth(q, ls[0], id) && ResetIn(ls[1..], id)) || Doomed(LifeStep(q, ls[0]), ls[1..], id))
  }

  lemma ResetInTail(ls: seq<Life>, id: ReviewId)
    requires ls != []
    ensures ResetIn(ls, id) <==> ls[0] == ResetStuck(id) || ResetIn(ls[1..], id)
  {
    if j :| 0 <= j < |ls| && ls[j] == ResetStuck(id) && j > 0 { assert ls[1..][j - 1] == ls[j]; }
    if j :| 0 <= j < |ls[1..]| && ls[1..][j] == ResetStuck(id) { assert ls[j + 1] == ls[1..][j]; }
  }

  lemma {:induction false} StrandedAfterIff(q: Queue, ls: seq<Life>, id: ReviewId)
    requires KilledInv(q) && IsLife(q, ls)
    ensures KilledInv(AfterLife(q, ls))
    ensures Stranded(AfterLife(q, ls), id) <==> Stranded(q, id) || (Orphaned(q, id) && ResetIn(ls, id)) || Doomed(q, ls, id)
    decreases |ls|
  {
    if ls != [] {
      LifeKeeps(q, ls[0]);
      LifeAndStranded(q, ls[0], id);
      ResetInTail(ls, id);
      StrandedAfterIff(LifeStep(q, ls[0]), ls[1..], id);
    }
  }

  /**
   * Over every run from the empty queue, or from whatever the workers' own steps make of it, the stranded
   * reviews are exactly those whose fifth attempt was killed and that were then reset.
   */
  lemma {:induction false} StrandedIff(q: Queue, ls: seq<Life>, id: ReviewId)
    requires Inv(q) && IsLife(q, ls)
    ensures Inv(Empty()) && KilledInv(AfterLife(q, ls))
    ensures Stranded(AfterLife(q, ls), id) <==> Doomed(q, ls, id)
  {
    InvIsKilledInv(q);
    StrandedAfterIff(q, ls, id);
    assert id in q.rows ==> RowSound(q.rows[id]);
  }

  /** Once stranded, a review stays so through every later run, and no worker is ever given it again. */
  lemma StrandedForever(q: Queue, ls: seq<Life>, id: ReviewId)
    requires KilledInv(q) && IsLife(q, ls) && Stranded(q, id)
    ensures Stranded(AfterLife(q, ls), id) && !Claimable(AfterLife(q, ls), id) && !Held(AfterLife(q, ls), id)
  {
    StrandedAfterIff(q, ls, id);
  }

  // ---- the batch worker ----

  /** What settling the reviews of `settled` made of the rows the claim had started. */
  ghost predicate BatchRows(before: map<ReviewId, Row>, rows: map<ReviewId, Row>, picked: set<ReviewId>, settled: set<ReviewId>) {
    && rows.Keys == before.Keys && picked <= before.Keys
    && forall id | id in rows ::
         if id !in picked then rows[id] == before[id]
         else if id !in settled then rows[id] == Started(before[id])
         else rows[id] == Started(before[id]).(state := Done) || rows[id] == AfterFailure(Started(before[id]))
  }

  class Store {
    var rows: map<ReviewId, Row>
    var claiming: map<WorkerId, set<ReviewId>>
    var holding: map<WorkerId, set<ReviewId>>

    function View(): Queue
      reads this
    {
      Queue(rows, claiming, holding)
    }

    /** SELECT … FOR UPDATE SKIP LOCKED LIMIT: as many claimable reviews as the limit allows. */
    method ClaimPending(w: WorkerId, limit: nat) returns (picked: set<ReviewId>)
      requires Inv(View()) && w !in claiming && w !in holding
      modifies this`claiming
      ensures Enabled(old(View()), Claim(w, picked)) && View() == Step(old(View()), Claim(w, picked)) && Inv(View())
      ensures |picked| <= limit && (|picked| < limit ==> forall id | Claimable(old(View()), id) :: id in picked)
    {
      picked := {};
      var rest := rows.Keys;
      while rest != {} && |picked| < limit
        invariant |picked| <= limit
        invariant forall id | id in picked :: Claimable(View(), id)
        invariant forall id | Claimable(View(), id) :: id in picked || id in rest
        invariant rest !! picked
        decreases |rest|
      {
        var id :| id in rest;
        rest := rest - {id};
        if Claimable(View(), id) { picked := picked + {id}; }
      }
      StepKeeps(View(), Claim(w, picked));
      claiming := claiming[w := picked];
    }

    method CommitClaim(w: WorkerId)
      requires Inv(View()) && w in claiming
      modifies this
      ensures View() == Step(old(View()), Commit(w)) && Inv(View())
    {
      StepKeeps(View(), Commit(w));
      var ids := claiming[w];
      rows := map id | id in rows :: if id in ids then Started(rows[id]) else rows[id];
      holding := holding[w := ids];
      claiming := claiming - {w};
    }

    /** One review of the batch: whether its analysis succeeds may be anything. */
    method SettleOne(w: WorkerId, id: ReviewId) returns (ok: bool)
      requires Inv(View()) && w in holding && id in holding[w]
      modifies this`rows, this`holding
      ensures id in old(rows)
      ensures View() == Step(old(View()), if ok then Succeed(w, id) else Fail(w, id)) && Inv(View())
    {
      assert Held(View(), id);
      ok := *;
      StepKeeps(View(), if ok then Succeed(w, id) else Fail(w, id));
      if ok {
        rows := rows[id := rows[id].(state := Done)];
      } else {
        rows := rows[id := rows[id].(state := if rows[id].attempts >= MaxAttempts then Failed else Pending)];
      }
      holding := holding[w := holding[w] - {id}];
    }

    /** A whole batch: claimed and committed, then each review settled and committed on its own. */
    method ProcessPending(w: WorkerId, limit: nat) returns (processed: nat, failed: nat, ghost picked: set<ReviewId>)
      requires Inv(View()) && w !in claiming && w !in holding
      modifies this
      ensures Inv(View()) && claiming == old(claiming) && holding == old(holding)
      ensures |picked| <= limit && processed + failed == |picked|
      ensures forall id | id in picked :: Claimable(old(View()), id)
      ensures BatchRows(old(rows), rows, picked, picked)
      ensures processed == |DoneOf(rows, picked)|
      ensures forall id | id in old(rows) :: id in rows && SettledAs(old(rows)[id], rows[id], id in picked)
    {
      ghost var before := rows;
      var ids := StartBatch(w, limit);
      picked := ids;
      processed, failed := SettleBatch(w, ids, before);
      PutTwice(old(holding), w, ids, {});
      PutTwice(old(holding), w, {}, {});
      EndOf(w);
      assert ids - {} == ids;
      BatchMeans(old(rows), rows, ids);
    }

    method StartBatch(w: WorkerId, limit: nat) returns (ids: set<ReviewId>)
      requires Inv(View()) && w !in claiming && w !in holding
      modifies this
      ensures Settling(w, ids, ids, old(rows))
      ensures claiming == old(claiming) && holding == old(holding)[w := ids]
      ensures |ids| <= limit && forall id | id in ids :: Claimable(old(View()), id)
    {
      ids := ClaimPending(w, limit);
      forall id | id in ids ensures id in rows { assert Claimable(old(View()), id); }
      ghost var before := rows;
      CommitClaim(w);
      PutTwice(old(claiming), w, ids, ids);
      assert ids - ids == {};
      assert BatchRows(before, rows, ids, {});
    }

    method EndOf(w: WorkerId)
      requires Inv(View()) && w in holding && holding[w] == {}
      modifies this`holding
      ensures holding == old(holding) - {w} && Inv(View())
    {
      StepKeeps(View(), EndBatch(w));
      holding := holding - {w};
    }

    /** The batch of `w` is committed, and its reviews but for those in `left` are settled. */
    ghost predicate Settling(w: WorkerId, ids: set<ReviewId>, left: set<ReviewId>, before: map<ReviewId, Row>)
      reads this
    {
      Inv(View()) && w in holding && holding[w] == left && left <= ids && BatchRows(before, rows, ids, ids - left)
    }

    method SettleNext(w: WorkerId, ids: set<ReviewId>, left: set<ReviewId>, id: ReviewId, ghost before: map<ReviewId, Row>,
                      processed: nat, failed: nat)
      returns (processed': nat, failed': nat)
      requires Settling(w, ids, left, before) && id in left && Tallied(rows, ids, left, processed, failed)
      modifies this`rows, this`holding
      ensures Settling(w, ids, left - {id}, before) && Tallied(rows, ids, left - {id}, processed', failed')
      ensures holding == old(holding)[w := left - {id}]
    {
      var ok := SettleStep(w, ids, left, id, before);
      OneMoreDone(old(rows), rows, ids, left, id);
      if ok { processed', failed' := processed + 1, failed; } else { processed', failed' := processed, failed + 1; }
    }

    method SettleStep(w: WorkerId, ids: set<ReviewId>, left: set<ReviewId>, id: ReviewId, ghost before: map<ReviewId, Row>) returns (ok: bool)
      requires Settling(w, ids, left, before) && id in left
      modifies this`rows, this`holding
      ensures Settling(w, ids, left - {id}, before)
      ensures holding == old(holding)[w := left - {id}]
      ensures id in old(rows) && id in rows && rows == old(rows)[id := rows[id]] && (ok <==> rows[id].state == Done)
    {
      BatchNext(before, rows, ids, ids - left, id, true);
      BatchNext(before, rows, ids, ids - left, id, false);
      ok := SettleOne(w, id);
      assert ids - (left - {id}) == ids - left + {id};
    }

    method SettleBatch(w: WorkerId, ids: set<ReviewId>, ghost before: map<ReviewId, Row>) returns (processed: nat, failed: nat)
      requires Settling(w, ids, ids, before)
      modifies this`rows, this`holding
      ensures Settling(w, ids, {}, before) && holding == old(holding)[w := {}]
      ensures processed + failed == |ids| && processed == |DoneOf(rows, ids)|
    {
      processed, failed := 0, 0;
      var left := ids;
      AllLeft(rows, ids);
      assert old(holding)[w := ids] == old(holding);
      while left != {}
        invariant Settling(w, ids, left, before)
        invariant holding == old(holding)[w := left]
        invariant Tallied(rows, ids, left, processed, failed)
        decreases |left|
      {
        var id :| id in left;
        PutTwice(old(holding), w, left, left - {id});
        processed, failed := SettleNext(w, ids, left, id, before, processed, failed);
        left := left - {id};
      }
      AllTallied(rows, ids, processed, failed);
    }
  }

  /** The counters of a batch: reviews done, reviews failed, and those of `left` still to come. */
  ghost predicate Tallied(rows: map<ReviewId, Row>, ids: set<ReviewId>, left: set<ReviewId>, processed: nat, failed: nat) {
    left <= ids && processed == |DoneOf(rows, ids - left)| && processed + failed + |left| == |ids|
  }

  lemma AllTallied(rows: map<ReviewId, Row>, ids: set<ReviewId>, processed: nat, failed: nat)
    requires Tallied(rows, ids, {}, processed, failed)
    ensures processed + failed == |ids| && processed == |DoneOf(rows, ids)|
  {
    assert ids - {} == ids;
  }

  /** A picked review spent one attempt and is done, or is to be tried again until five are spent; no other changed. */
  predicate SettledAs(before: Row, after: Row, picked: bool) {
    if !picked then after == before else
      after.attempts == before.attempts + 1
      && (after.state == Done || after.state == if before.attempts + 1 >= 5 then Failed else Pending)
  }

  lemma BatchMeans(before: map<ReviewId, Row>, rows: map<ReviewId, Row>, picked: set<ReviewId>)
    requires BatchRows(before, rows, picked, picked)
    ensures forall id | id in before :: id in rows && SettledAs(before[id], rows[id], id in picked)
  {
  }

  function DoneOf(rows: map<ReviewId, Row>, ids: set<ReviewId>): set<ReviewId> { set id | id in ids && id in rows && rows[id].state == Done }

  lemma AllLeft(rows: map<ReviewId, Row>, ids: set<ReviewId>)
    ensures Tallied(rows, ids, ids, 0, 0)
  {
    assert DoneOf(rows, ids - ids) == {};
  }

  lemma OneMoreDone(was: map<ReviewId, Row>, rows: map<ReviewId, Row>, ids: set<ReviewId>, left: set<ReviewId>, id: ReviewId)
    requires id in left && left <= ids && id in rows && rows.Keys == was.Keys && forall x | x in was && x != id :: rows[x] == was[x]
    ensures |DoneOf(rows, ids - (left - {id}))| == |DoneOf(was, ids - left)| + (if rows[id].state == Done then 1 else 0)
  {
    assert DoneOf(rows, ids - (left - {id})) == DoneOf(was, ids - left) + (if rows[id].state == Done then {id} else {});
  }

  lemma PutTwice(m: map<WorkerId, set<ReviewId>>, w: WorkerId, a: set<ReviewId>, b: set<ReviewId>)
    ensures m[w := a][w := b] == m[w := b]
    ensures w !in m ==> m[w := a] - {w} == m
  {
  }

  lemma BatchNext(before: map<ReviewId, Row>, rows: map<ReviewId, Row>, picked: set<ReviewId>, settled: set<ReviewId>, id: ReviewId, ok: bool)
    requires BatchRows(before, rows, picked, settled) && id in picked && id !in settled
    ensures BatchRows(before, rows[id := if ok then rows[id].(state := Done) else AfterFailure(rows[id])], picked, settled + {id})
  {
  }
}
