/** The YouTube runs: two calls on one reservation with partial refunds, and one unit a comment thread. */
module YouTubeLedger {

  /** What a run does to its units. A call is charged when it succeeds, or when it is known to be billed. */
  datatype Act = Reserve(units: nat) | Call(units: nat, charged: bool) | Refund(units: nat)

  const CostSearch: nat := 100
  const CostVideos: nat := 1
  const CostComments: nat := 1

  /** What an act adds to the counter. */
  function Delta(a: Act): int {
    match a
    case Reserve(units) => units
    case Refund(units) => 0 - units
    case Call(_, _) => 0
  }

  function Held(acts: seq<Act>): int {
    if acts == [] then 0 else Held(acts[..|acts| - 1]) + Delta(acts[|acts| - 1])
  }

  function Charged(acts: seq<Act>): nat {
    if acts == [] then 0 else
      var last := acts[|acts| - 1];
      Charged(acts[..|acts| - 1]) + (if last.Call? && last.charged then last.units else 0)
  }

  /** Whenever a call is made, units enough for it are held beyond those already charged. */
  ghost predicate Covered(acts: seq<Act>) {
    forall i | 0 <= i < |acts| && acts[i].Call? :: Held(acts[..i]) >= Charged(acts[..i]) + acts[i].units
  }

  ghost predicate Balanced(acts: seq<Act>) { Covered(acts) && Held(acts) == Charged(acts) }

  lemma Append(acts: seq<Act>, a: Act)
    ensures Held(acts + [a]) == Held(acts) + Delta(a)
    ensures Charged(acts + [a]) == Charged(acts) + (if a.Call? && a.charged then a.units else 0)
    ensures Covered(acts) && (a.Call? ==> Held(acts) >= Charged(acts) + a.units) ==> Covered(acts + [a])
  {
    var all := acts + [a];
    assert all[..|acts|] == acts;
    if Covered(acts) && (a.Call? ==> Held(acts) >= Charged(acts) + a.units) {
      forall i | 0 <= i < |all| && all[i].Call? ensures Held(all[..i]) >= Charged(all[..i]) + all[i].units {
        if i < |acts| { assert all[..i] == acts[..i]; }
      }
    }
  }

  lemma Searched(acts: seq<Act>, ok: bool)
    requires Balanced(acts)
    ensures var reserved := acts + [Reserve(CostSearch + CostVideos)];
            var called := reserved + [Call(CostSearch, ok)];
            && Covered(called)
            && Held(called) == Charged(acts) + CostSearch + CostVideos
            && Charged(called) == Charged(acts) + (if ok then CostSearch else 0)
  {
    Append(acts, Reserve(CostSearch + CostVideos));
    Append(acts + [Reserve(CostSearch + CostVideos)], Call(CostSearch, ok));
  }

  /**
   * One query template: the search and its details share a reservation. What the quota grants and
   * what the API answers may be anything; only videos not seen before are asked for.
   */
  method FetchTemplate(seen: set<string>, acts: seq<Act>)
    returns (outcome: Outcome, seen': set<string>, asked: set<string>, acts': seq<Act>)
    requires Balanced(acts)
    ensures Balanced(acts') && seen <= seen'
    ensures asked !! seen && seen' == seen + asked
    ensures outcome.Refused? ==> acts' == acts
    ensures outcome.Raised? ==>
              || (asked == {} && acts' == acts + [Reserve(101)] + [Call(100, false)] + [Refund(101)])
              || (asked != {} && acts' == acts + [Reserve(101)] + [Call(100, true)] + [Call(1, false)] + [Refund(1)])
    ensures outcome.Done? ==>
              acts' == acts + [Reserve(101)] + [Call(100, true)] + (if asked == {} then [Refund(1)] else [Call(1, true)])
  {
    seen', asked, acts' := seen, {}, acts;
    var granted: bool := *;
    if !granted {
      return Refused, seen', asked, acts';
    }
    var found: bool, ids: set<string> := *, *;
    Searched(acts, found);
    acts' := acts + [Reserve(CostSearch + CostVideos)] + [Call(CostSearch, found)];
    if !found {
      Append(acts', Refund(CostSearch + CostVideos));
      acts' := acts' + [Refund(CostSearch + CostVideos)];
      return Raised, seen', asked, acts';
    }
    var unseen := ids - seen;
    if unseen == {} {
      Append(acts', Refund(CostVideos));
      acts' := acts' + [Refund(CostVideos)];
      return Done, seen', asked, acts';
    }
    seen', asked := seen + unseen, unseen;
    var detailed: bool := *;
    Append(acts', Call(CostVideos, detailed));
    acts' := acts' + [Call(CostVideos, detailed)];
    if !detailed {
      Append(acts', Refund(CostVideos));
      acts' := acts' + [Refund(CostVideos)];
      return Raised, seen', asked, acts';
    }
    outcome := Done;
  }

  datatype Outcome = Done | Refused | Raised

  function AllOf(batches: seq<set<string>>): set<string> {
    if batches == [] then {} else AllOf(batches[..|batches| - 1]) + batches[|batches| - 1]
  }

  /** No video is in two batches. */
  ghost predicate Apart(batches: seq<set<string>>) { forall i, j | 0 <= i < j < |batches| :: batches[i] !! batches[j] }

  lemma {:induction false} PartOfAll(batches: seq<set<string>>, i: nat)
    requires i < |batches|
    ensures batches[i] <= AllOf(batches)
  {
    if i < |batches| - 1 { PartOfAll(batches[..|batches| - 1], i); }
  }

  lemma {:induction false} OneMoreBatch(batches: seq<set<string>>, asked: set<string>)
    requires Apart(batches) && asked !! AllOf(batches)
    ensures AllOf(batches + [asked]) == AllOf(batches) + asked && Apart(batches + [asked])
  {
    assert (batches + [asked])[..|batches|] == batches;
    forall i | 0 <= i < |batches| ensures batches[i] !! asked { PartOfAll(batches, i); }
  }

  /** The run over the query templates, until enough videos are seen, a unit is refused, or a call fails. */
  method FetchReviews(templates: nat, maxVideos: nat) returns (outcome: Outcome, acts: seq<Act>, batches: seq<set<string>>, refused: bool)
    ensures Balanced(acts)
    ensures |batches| <= templates && forall i, j | 0 <= i < j < |batches| :: batches[i] !! batches[j]
    ensures outcome.Done? ==> refused || |batches| == templates || |AllOf(batches)| >= maxVideos
  {
    var seen: set<string> := {};
    acts, batches, refused := [], [], false;
    for t := 0 to templates
      invariant Balanced(acts) && |batches| == t && seen == AllOf(batches) && Apart(batches)
    {
      if |seen| >= maxVideos {
        return Done, acts, batches, false;
      }
      var asked;
      outcome, seen, asked, acts := FetchTemplate(seen, acts);
      OneMoreBatch(batches, asked);
      batches := batches + [asked];
      if outcome.Refused? {
        return Done, acts, batches, true;
      }
      if outcome.Raised? {
        return Raised, acts, batches, false;
      }
    }
    outcome := Done;
  }

  /** One unit a video; a 403 means comments are off, and stays charged. The run ends early only by a refusal or another status. */
  method FetchComments(videos: nat) returns (outcome: Outcome, acts: seq<Act>, threads: nat, refused: bool)
    ensures Balanced(acts)
    ensures |acts| <= 3 * videos
    ensures outcome.Done? ==> (refused || threads == videos) && |acts| == 2 * threads
  {
    acts, threads, refused := [], 0, false;
    while threads < videos
      invariant threads <= videos
      invariant Balanced(acts) && |acts| == 2 * threads
    {
      var status;
      outcome, acts, status := FetchThread(acts);
      if outcome.Refused? {
        return Done, acts, threads, true;
      }
      if outcome.Raised? {
        return Raised, acts, threads, false;
      }
      threads := threads + 1;
    }
    outcome := Done;
  }

  /** One thread: a unit, a call, and its status. Success and a 403 stay charged; any other status is refunded and ends the run. */
  method FetchThread(acts: seq<Act>) returns (outcome: Outcome, acts': seq<Act>, status: int)
    requires Balanced(acts)
    ensures Balanced(acts') && |acts'| <= |acts| + 3
    ensures outcome.Refused? ==> acts' == acts
    ensures outcome.Done? ==> (status == 200 || status == 403) && acts' == acts + [Reserve(1)] + [Call(1, true)]
    ensures outcome.Raised? ==> status != 200 && status != 403 && acts' == acts + [Reserve(1)] + [Call(1, false)] + [Refund(1)]
  {
    var granted: bool := *;
    if !granted {
      return Refused, acts, 0;
    }
    status := *;
    var charged := status == 200 || status == 403;
    Threaded(acts, charged);
    acts' := acts + [Reserve(CostComments)] + [Call(CostComments, charged)];
    if !charged {
      acts' := acts' + [Refund(CostComments)];
      return Raised, acts', status;
    }
    outcome := Done;
  }

  /** A thread's unit is kept by a charged call, and handed back after any other. */
  lemma Threaded(acts: seq<Act>, charged: bool)
    requires Balanced(acts)
    ensures var called := acts + [Reserve(CostComments)] + [Call(CostComments, charged)];
            Balanced(if charged then called else called + [Refund(CostComments)])
  {
    Append(acts, Reserve(CostComments));
    Append(acts + [Reserve(CostComments)], Call(CostComments, charged));
    if !charged { Append(acts + [Reserve(CostComments)] + [Call(CostComments, charged)], Refund(CostComments)); }
  }
}
