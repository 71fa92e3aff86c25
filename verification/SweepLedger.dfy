/** A Google sweep: the calls it makes, the units it holds for them, and the places it returns. */
module SweepLedger {
  import opened Wrappers

  /** A place of a page; pages may also hold items that are not usable. */
  datatype Place = Place(externalId: string, payload: string)

  datatype Reply =
    | Page(items: seq<Option<Place>>, next: Option<string>)
    | TransientError
    | PermanentError(status: nat)

  datatype Call = Call(cell: nat, page: nat, token: Option<string>, reply: Reply)

  /** What the run does, in order. */
  datatype Act = Granted | Refused | Called(call: Call) | Refunded

  datatype Exit = Finished(places: seq<Place>, stoppedEarly: bool) | CredentialsRejected | NetworkFailed

  const MaxPages: nat := 3

  // ---- the order of calls ----

  /** Where the run goes after a call: the next page of the cell, or the next cell. */
  function NextCell(c: Call): nat { if MorePages(c) then c.cell else c.cell + 1 }

  function NextPage(c: Call): nat { if MorePages(c) then c.page + 1 else 0 }

  predicate MorePages(c: Call) {
    c.reply.Page? && c.reply.next.Some? && c.reply.next.value != "" && c.page + 1 < MaxPages
  }

  function NextToken(c: Call): Option<string> { if MorePages(c) then c.reply.next else None }

  predicate Fatal(c: Call) {
    c.reply.TransientError? || (c.reply.PermanentError? && (c.reply.status == 401 || c.reply.status == 403))
  }

  /** Each call is the one its predecessor leads to, and nothing follows a fatal one. */
  ghost predicate Chained(calls: seq<Call>) {
    && (calls != [] ==> calls[0].cell == 0 && calls[0].page == 0 && calls[0].token == None)
    && (forall i | 0 <= i < |calls| - 1 ::
          && !Fatal(calls[i]) && calls[i + 1].cell == NextCell(calls[i])
          && calls[i + 1].page == NextPage(calls[i]) && calls[i + 1].token == NextToken(calls[i]))
  }

  function Frontier(calls: seq<Call>): (nat, nat) {
    if calls == [] then (0, 0) else (NextCell(calls[|calls| - 1]), NextPage(calls[|calls| - 1]))
  }

  // ---- the ledger ----

  function CallsOf(acts: seq<Act>): seq<Call> {
    if acts == [] then [] else
      var last := acts[|acts| - 1];
      CallsOf(acts[..|acts| - 1]) + (if last.Called? then [last.call] else [])
  }

  function UnitsHeld(acts: seq<Act>): int {
    if acts == [] then 0 else
      var last := acts[|acts| - 1];
      UnitsHeld(acts[..|acts| - 1]) + (if last.Granted? then 1 else if last.Refunded? then -1 else 0)
  }

  /** Google bills every call that was answered, with a page or with a 4xx. */
  function Billed(calls: seq<Call>): nat {
    if calls == [] then 0 else
      Billed(calls[..|calls| - 1]) + (if calls[|calls| - 1].reply.TransientError? then 0 else 1)
  }

  /** Every call directly follows a unit granted for it, and every granted unit is used for a call. */
  ghost predicate Paired(acts: seq<Act>) {
    && (forall i | 0 <= i < |acts| && acts[i].Called? :: i > 0 && acts[i - 1].Granted?)
    && (forall i | 0 <= i < |acts| && acts[i].Granted? :: i + 1 < |acts| && acts[i + 1].Called?)
    && (forall i | 0 <= i < |acts| && acts[i].Refused? :: i + 1 == |acts|)
  }

  lemma CallsAppend(acts: seq<Act>, more: seq<Act>)
    ensures |more| == 1 ==> CallsOf(acts + more) == CallsOf(acts) + (if more[0].Called? then [more[0].call] else [])
    ensures |more| == 1 ==> UnitsHeld(acts + more) == UnitsHeld(acts) + (if more[0].Granted? then 1 else if more[0].Refunded? then -1 else 0)
  {
    if |more| == 1 { assert (acts + more)[..|acts|] == acts; }
  }

  lemma BilledAppend(calls: seq<Call>, c: Call)
    ensures Billed(calls + [c]) == Billed(calls) + (if c.reply.TransientError? then 0 else 1)
  {
    assert (calls + [c])[..|calls|] == calls;
  }

  // ---- the places ----

  /** All places of the pages received, in order. */
  function Received(calls: seq<Call>): seq<Place> {
    if calls == [] then [] else
      Received(calls[..|calls| - 1]) + (if calls[|calls| - 1].reply.Page? then Usable(calls[|calls| - 1].reply.items) else [])
  }

  function Usable(items: seq<Option<Place>>): seq<Place> {
    if items == [] then [] else
      Usable(items[..|items| - 1]) + (if items[|items| - 1].Some? then [items[|items| - 1].value] else [])
  }

  ghost predicate HasId(places: seq<Place>, id: string) {
    exists p | p in places :: p.externalId == id
  }

  /** The first place of each identifier, in the order of first sight. */
  ghost function FirstOfEach(places: seq<Place>): seq<Place> {
    if places == [] then [] else
      var before, p := FirstOfEach(places[..|places| - 1]), places[|places| - 1];
      if HasId(before, p.externalId) then before else before + [p]
  }

  /** No identifier twice, none missing, nothing that was not received. */
  lemma {:induction false} FirstOfEachIs(places: seq<Place>)
    ensures var r := FirstOfEach(places);
            && (forall i, j | 0 <= i < j < |r| :: r[i].externalId != r[j].externalId)
            && (forall p | p in r :: p in places)
            && (forall id :: HasId(places, id) <==> HasId(r, id))
  {
    if places != [] {
      var before, p := places[..|places| - 1], places[|places| - 1];
      FirstOfEachIs(before);
      assert places == before + [p];
      forall id ensures HasId(places, id) <==> HasId(FirstOfEach(places), id) {
        assert HasId(places, id) <==> HasId(before, id) || p.externalId == id by { assert p in places; }
        var r := FirstOfEach(before);
        if !HasId(r, p.externalId) {
          assert HasId(r + [p], id) <==> HasId(r, id) || p.externalId == id by { assert p in r + [p]; }
        }
      }
    }
  }

  // ---- the run ----

  /** What holds whenever the run is about to make the call at (cell, page). */
  ghost predicate Running(acts: seq<Act>, cell: nat, page: nat, token: Option<string>, requests: nat, places: seq<Place>, cap: nat) {
    var calls := CallsOf(acts);
    && Paired(acts) && (forall i | 0 <= i < |acts| :: !acts[i].Refused?)
    && Chained(calls) && Frontier(calls) == (cell, page)
    && (calls == [] ==> token == None) && (calls != [] ==> !Fatal(calls[|calls| - 1]) && token == NextToken(calls[|calls| - 1]))
    && UnitsHeld(acts) == Billed(calls) == requests == |calls|
    && page < MaxPages && |calls| <= MaxPages * cell + page && requests <= cap
    && places == FirstOfEach(Received(calls))
  }

  /** What holds however the run ends: calls in order, each paid for, and as many units held as calls billed. */
  ghost predicate Settled(acts: seq<Act>, cells: nat, cap: nat) {
    var calls := CallsOf(acts);
    && Paired(acts) && Chained(calls)
    && UnitsHeld(acts) == Billed(calls)
    && |calls| <= cap && |calls| <= MaxPages * cells
  }

  lemma {:induction false} RunningSettles(acts: seq<Act>, cell: nat, page: nat, token: Option<string>, requests: nat, places: seq<Place>, cap: nat, cells: nat)
    requires Running(acts, cell, page, token, requests, places, cap) && (cell < cells || (cell == cells && page == 0))
    ensures Settled(acts, cells, cap)
  {
  }

  lemma {:induction false} RefusedSettles(acts: seq<Act>, cell: nat, page: nat, token: Option<string>, requests: nat, places: seq<Place>, cap: nat, cells: nat)
    requires Running(acts, cell, page, token, requests, places, cap) && cell < cells
    ensures CutShort(acts + [Refused], cells, cap, places)
  {
    CallsAppend(acts, [Refused]);
    assert CallsOf(acts) + [] == CallsOf(acts);
  }

  lemma {:induction false} CappedSettles(acts: seq<Act>, cell: nat, page: nat, token: Option<string>, requests: nat, places: seq<Place>, cap: nat, cells: nat)
    requires Running(acts, cell, page, token, requests, places, cap) && cell < cells && requests >= cap
    ensures CutShort(acts, cells, cap, places)
  {
  }

  lemma {:induction false} PairedCall(acts: seq<Act>, c: Call)
    requires Paired(acts) && forall i | 0 <= i < |acts| :: !acts[i].Refused?
    ensures Paired(acts + [Granted, Called(c)])
    ensures forall i | 0 <= i < |acts + [Granted, Called(c)]| :: !(acts + [Granted, Called(c)])[i].Refused?
    ensures CallsOf(acts + [Granted, Called(c)]) == CallsOf(acts) + [c]
    ensures UnitsHeld(acts + [Granted, Called(c)]) == UnitsHeld(acts) + 1
  {
    CallsAppend(acts, [Granted]);
    CallsAppend(acts + [Granted], [Called(c)]);
    assert acts + [Granted] + [Called(c)] == acts + [Granted, Called(c)];
    assert CallsOf(acts) + [] == CallsOf(acts);
  }

  lemma ChainedCall(calls: seq<Call>, c: Call)
    requires Chained(calls) && (c.cell, c.page) == Frontier(calls)
    requires (calls == [] ==> c.token == None) && (calls != [] ==> !Fatal(calls[|calls| - 1]) && c.token == NextToken(calls[|calls| - 1]))
    ensures Chained(calls + [c]) && Frontier(calls + [c]) == (NextCell(c), NextPage(c))
  {
  }

  lemma ReceivedCall(calls: seq<Call>, c: Call)
    ensures Received(calls + [c]) == Received(calls) + (if c.reply.Page? then Usable(c.reply.items) else [])
  {
    assert (calls + [c])[..|calls|] == calls;
  }

  /** A call that is not fatal takes the run to where it leads. */
  lemma {:induction false} CallAdvances(acts: seq<Act>, c: Call, requests: nat, places: seq<Place>, cap: nat, places': seq<Place>)
    requires Running(acts, c.cell, c.page, c.token, requests, places, cap) && requests < cap && !Fatal(c)
    requires places' == FirstOfEach(Received(CallsOf(acts)) + (if c.reply.Page? then Usable(c.reply.items) else []))
    ensures Running(acts + [Granted, Called(c)], NextCell(c), NextPage(c), NextToken(c), requests + 1, places', cap)
  {
    CallIsPaid(acts, c, requests, places, cap);
    ChainedCall(CallsOf(acts), c);
    ReceivedCall(CallsOf(acts), c);
  }

  /** The ledger's half of that: the call has its own unit, and is billed. */
  lemma CallIsPaid(acts: seq<Act>, c: Call, requests: nat, places: seq<Place>, cap: nat)
    requires Running(acts, c.cell, c.page, c.token, requests, places, cap) && !Fatal(c)
    ensures var after := acts + [Granted, Called(c)];
            && Paired(after) && (forall i | 0 <= i < |after| :: !after[i].Refused?)
            && CallsOf(after) == CallsOf(acts) + [c]
            && UnitsHeld(after) == Billed(CallsOf(after)) == requests + 1 == |CallsOf(after)|
  {
    PairedCall(acts, c);
    BilledAppend(CallsOf(acts), c);
  }

  /** A 4xx other than a rejected key is billed and moves the run to the next cell. */
  lemma {:induction false} PlainErrorAdvances(acts: seq<Act>, c: Call, requests: nat, places: seq<Place>, cap: nat)
    requires Running(acts, c.cell, c.page, c.token, requests, places, cap) && requests < cap
    requires c.reply.PermanentError? && !Fatal(c)
    ensures Running(acts + [Granted, Called(c)], c.cell + 1, 0, None, requests + 1, places, cap)
  {
    assert Received(CallsOf(acts)) + [] == Received(CallsOf(acts));
    CallAdvances(acts, c, requests, places, cap, places);
  }

  /** A rejected key ends the run with its call billed. */
  lemma {:induction false} RejectedSettles(acts: seq<Act>, c: Call, requests: nat, places: seq<Place>, cap: nat, cells: nat)
    requires Running(acts, c.cell, c.page, c.token, requests, places, cap) && requests < cap && c.cell < cells
    requires c.reply.PermanentError? && c.reply.status in {401, 403}
    ensures Settled(acts + [Granted, Called(c)], cells, cap) && Failed(acts + [Granted, Called(c)], CredentialsRejected)
  {
    PairedCall(acts, c);
    ChainedCall(CallsOf(acts), c);
    BilledAppend(CallsOf(acts), c);
  }

  /** A network failure ends the run with its call refunded. */
  lemma {:induction false} FailedSettles(acts: seq<Act>, c: Call, requests: nat, places: seq<Place>, cap: nat, cells: nat)
    requires Running(acts, c.cell, c.page, c.token, requests, places, cap) && requests < cap && c.cell < cells
    requires c.reply.TransientError?
    ensures Settled(acts + [Granted, Called(c)] + [Refunded], cells, cap)
    ensures Failed(acts + [Granted, Called(c)] + [Refunded], NetworkFailed)
  {
    PairedCall(acts, c);
    ChainedCall(CallsOf(acts), c);
    BilledAppend(CallsOf(acts), c);
    RefundedAppend(acts + [Granted, Called(c)]);
    PairedRefund(acts + [Granted, Called(c)]);
  }

  lemma RefundedAppend(acts: seq<Act>)
    ensures CallsOf(acts + [Refunded]) == CallsOf(acts) && UnitsHeld(acts + [Refunded]) == UnitsHeld(acts) - 1
  {
    CallsAppend(acts, [Refunded]);
    assert CallsOf(acts) + [] == CallsOf(acts);
  }

  lemma PairedRefund(acts: seq<Act>)
    requires Paired(acts) && forall i | 0 <= i < |acts| :: !acts[i].Refused?
    ensures Paired(acts + [Refunded])
  {
  }

  ghost predicate SeenIs(seen: set<string>, places: seq<Place>) {
    forall id :: id in seen <==> HasId(places, id)
  }

  lemma SeenMore(seen: set<string>, places: seq<Place>, p: Place)
    requires SeenIs(seen, places)
    ensures SeenIs(seen + {p.externalId}, places + [p])
  {
    forall id ensures HasId(places + [p], id) <==> HasId(places, id) || id == p.externalId { assert p in places + [p]; }
  }

  lemma UsableNext(received: seq<Place>, items: seq<Option<Place>>, i: nat)
    requires i < |items|
    ensures received + Usable(items[..i + 1])
            == if items[i].Some? then (received + Usable(items[..i])) + [items[i].value] else received + Usable(items[..i])
  {
    assert items[..i + 1][..i] == items[..i];
  }

  /** Add a page's places to those seen so far. */
  method AddPlaces(items: seq<Option<Place>>, places: seq<Place>, seen: set<string>, ghost received: seq<Place>)
    returns (places': seq<Place>, seen': set<string>)
    requires places == FirstOfEach(received) && SeenIs(seen, places)
    ensures places' == FirstOfEach(received + Usable(items)) && SeenIs(seen', places')
  {
    places', seen' := places, seen;
    assert received + Usable(items[..0]) == received;
    for i := 0 to |items|
      invariant places' == FirstOfEach(received + Usable(items[..i]))
      invariant SeenIs(seen', places')
    {
      UsableNext(received, items, i);
      if items[i].None? {
        continue;
      }
      OneMorePlace(received + Usable(items[..i]), items[i].value);
      if items[i].value.externalId in seen' {
        continue;
      }
      SeenMore(seen', places', items[i].value);
      seen' := seen' + {items[i].value.externalId};
      places' := places' + [items[i].value];
    }
    assert items[..|items|] == items;
  }

  lemma OneMorePlace(before: seq<Place>, p: Place)
    ensures FirstOfEach(before + [p]) == if HasId(FirstOfEach(before), p.externalId) then FirstOfEach(before) else FirstOfEach(before) + [p]
  {
    assert (before + [p])[..|before|] == before;
  }

  datatype CellEnd = Next | Stop | Exit(exit: Exit)

  /** A run fails only by its last call: a rejected key, which stays billed, or an error of the network, which is refunded. */
  predicate Failed(acts: seq<Act>, exit: Exit) {
    var n := |acts|;
    match exit
    case Finished(_, _) => false
    case CredentialsRejected =>
      n > 0 && acts[n - 1].Called? && acts[n - 1].call.reply.PermanentError? && acts[n - 1].call.reply.status in {401, 403}
    case NetworkFailed => n > 1 && acts[n - 1].Refunded? && acts[n - 2].Called? && acts[n - 2].call.reply.TransientError?
  }

  /** The run was cut short, by its own cap or by a refused unit. */
  ghost predicate CutShort(acts: seq<Act>, cells: nat, cap: nat, places: seq<Place>) {
    && Settled(acts, cells, cap) && places == FirstOfEach(Received(CallsOf(acts)))
    && (|CallsOf(acts)| == cap || (acts != [] && acts[|acts| - 1].Refused?))
  }

  /** One page: a unit, a call, and where it leads. Whether the unit is granted, and the reply, may be anything. */
  method CallPage(cell: nat, page: nat, token: Option<string>, cells: nat, cap: nat, requests: nat, places: seq<Place>, seen: set<string>,
                  acts: seq<Act>)
    returns (end: Option<CellEnd>, token': Option<string>, requests': nat, places': seq<Place>, seen': set<string>, acts': seq<Act>)
    requires cell < cells && Running(acts, cell, page, token, requests, places, cap) && SeenIs(seen, places)
    ensures SeenIs(seen', places')
    ensures end.None? ==> page + 1 < MaxPages && Running(acts', cell, page + 1, token', requests', places', cap)
    ensures end == Some(Next) ==> Running(acts', cell + 1, 0, None, requests', places', cap)
    ensures end == Some(Stop) ==> CutShort(acts', cells, cap, places')
    ensures end.Some? && end.value.Exit? ==> Settled(acts', cells, cap) && Failed(acts', end.value.exit)
  {
    var held;
    held, acts' := ReserveUnit(cell, page, token, cells, cap, requests, places, acts);
    if !held {
      return Some(Stop), None, requests, places, seen, acts';
    }
    var reply: Reply := *;
    end, token', requests', places', seen', acts' := HandleReply(Call(cell, page, token, reply), cells, cap, requests, places, seen, acts);
  }

  /** The unit for the next call, unless the run's cap is reached or the quota refuses it. */
  method ReserveUnit(cell: nat, page: nat, token: Option<string>, cells: nat, cap: nat, requests: nat, places: seq<Place>, acts: seq<Act>)
    returns (held: bool, acts': seq<Act>)
    requires cell < cells && Running(acts, cell, page, token, requests, places, cap)
    ensures held ==> requests < cap
    ensures !held ==> CutShort(acts', cells, cap, places)
  {
    if requests >= cap {
      CappedSettles(acts, cell, page, token, requests, places, cap, cells);
      return false, acts;
    }
    held := *;
    if !held {
      RefusedSettles(acts, cell, page, token, requests, places, cap, cells);
      return false, acts + [Refused];
    }
    acts' := acts;
  }

  /** What a reply means: a failure ends the run, another 4xx the cell, and a page may have a successor. */
  method HandleReply(c: Call, cells: nat, cap: nat, requests: nat, places: seq<Place>, seen: set<string>, acts: seq<Act>)
    returns (end: Option<CellEnd>, token': Option<string>, requests': nat, places': seq<Place>, seen': set<string>, acts': seq<Act>)
    requires c.cell < cells && requests < cap
    requires Running(acts, c.cell, c.page, c.token, requests, places, cap) && SeenIs(seen, places)
    ensures SeenIs(seen', places')
    ensures end.None? ==> c.page + 1 < MaxPages && Running(acts', c.cell, c.page + 1, token', requests', places', cap)
    ensures end == Some(Next) ==> Running(acts', c.cell + 1, 0, None, requests', places', cap)
    ensures end != Some(Stop)
    ensures end.Some? && end.value.Exit? ==> Settled(acts', cells, cap) && Failed(acts', end.value.exit)
  {
    if !c.reply.Page? {
      end, requests', acts' := HandleError(c, cells, cap, requests, places, acts);
      return end, None, requests', places, seen, acts';
    }
    requests' := requests + 1;
    end, token', places', seen', acts' := HandlePage(c, cap, requests, places, seen, acts);
  }

  /** A failure of the network is refunded and ends the run, a rejected key ends it billed, and another 4xx ends the cell. */
  method HandleError(c: Call, cells: nat, cap: nat, requests: nat, ghost places: seq<Place>, acts: seq<Act>)
    returns (end: Option<CellEnd>, requests': nat, acts': seq<Act>)
    requires !c.reply.Page? && c.cell < cells && requests < cap
    requires Running(acts, c.cell, c.page, c.token, requests, places, cap)
    ensures end == Some(Next) || (end.Some? && end.value.Exit?)
    ensures end == Some(Next) ==> Running(acts', c.cell + 1, 0, None, requests', places, cap)
    ensures end.Some? && end.value.Exit? ==> Settled(acts', cells, cap) && Failed(acts', end.value.exit)
  {
    if c.reply.TransientError? {
      FailedSettles(acts, c, requests, places, cap, cells);
      return Some(Exit(NetworkFailed)), requests, acts + [Granted, Called(c)] + [Refunded];
    }
    if c.reply.status == 401 || c.reply.status == 403 {
      RejectedSettles(acts, c, requests, places, cap, cells);
      return Some(Exit(CredentialsRejected)), requests + 1, acts + [Granted, Called(c)];
    }
    PlainErrorAdvances(acts, c, requests, places, cap);
    return Some(Next), requests + 1, acts + [Granted, Called(c)];
  }

  /** A page adds its places and leads to its successor, if it names one. */
  method HandlePage(c: Call, cap: nat, requests: nat, places: seq<Place>, seen: set<string>, acts: seq<Act>)
    returns (end: Option<CellEnd>, token': Option<string>, places': seq<Place>, seen': set<string>, acts': seq<Act>)
    requires c.reply.Page? && requests < cap
    requires Running(acts, c.cell, c.page, c.token, requests, places, cap) && SeenIs(seen, places)
    ensures SeenIs(seen', places') && (end.None? || end == Some(Next))
    ensures end.None? ==> c.page + 1 < MaxPages && Running(acts', c.cell, c.page + 1, token', requests + 1, places', cap)
    ensures end == Some(Next) ==> Running(acts', c.cell + 1, 0, None, requests + 1, places', cap)
  {
    places', seen' := AddPlaces(c.reply.items, places, seen, Received(CallsOf(acts)));
    PageAdvances(acts, c, requests, places, cap, places');
    token', acts' := NextToken(c), acts + [Granted, Called(c)];
    end := if MorePages(c) then None else Some(Next);
  }

  lemma {:induction false} PageAdvances(acts: seq<Act>, c: Call, requests: nat, places: seq<Place>, cap: nat, places': seq<Place>)
    requires c.reply.Page? && requests < cap && Running(acts, c.cell, c.page, c.token, requests, places, cap)
    requires places' == FirstOfEach(Received(CallsOf(acts)) + Usable(c.reply.items))
    ensures MorePages(c) ==> c.page + 1 < MaxPages && Running(acts + [Granted, Called(c)], c.cell, c.page + 1, NextToken(c), requests + 1, places', cap)
    ensures !MorePages(c) ==> Running(acts + [Granted, Called(c)], c.cell + 1, 0, None, requests + 1, places', cap)
  {
    CallAdvances(acts, c, requests, places, cap, places');
    LeadsTo(c);
  }

  lemma LeadsTo(c: Call)
    ensures MorePages(c) ==> c.page + 1 < MaxPages && NextCell(c) == c.cell && NextPage(c) == c.page + 1
    ensures !MorePages(c) ==> NextCell(c) == c.cell + 1 && NextPage(c) == 0 && NextToken(c) == None
  {
  }

  /** The pages of one cell. */
  method SweepCell(cell: nat, cells: nat, cap: nat, requests: nat, places: seq<Place>, seen: set<string>, acts: seq<Act>)
    returns (end: CellEnd, requests': nat, places': seq<Place>, seen': set<string>, acts': seq<Act>)
    requires cell < cells && Running(acts, cell, 0, None, requests, places, cap) && SeenIs(seen, places)
    ensures SeenIs(seen', places')
    ensures end == Next ==> Running(acts', cell + 1, 0, None, requests', places', cap)
    ensures end == Stop ==> CutShort(acts', cells, cap, places')
    ensures end.Exit? ==> Settled(acts', cells, cap) && Failed(acts', end.exit)
  {
    requests', places', seen', acts' := requests, places, seen, acts;
    var page, token, ended := 0, None, None;
    while ended.None?
      invariant SeenIs(seen', places')
      invariant ended.None? ==> Running(acts', cell, page, token, requests', places', cap)
      invariant ended == Some(Next) ==> Running(acts', cell + 1, 0, None, requests', places', cap)
      invariant ended == Some(Stop) ==> CutShort(acts', cells, cap, places')
      invariant ended.Some? && ended.value.Exit? ==> Settled(acts', cells, cap) && Failed(acts', ended.value.exit)
      decreases if ended.None? then MaxPages + 1 - page else 0
    {
      ended, token, requests', places', seen', acts' := CallPage(cell, page, token, cells, cap, requests', places', seen', acts');
      page := page + 1;
    }
    end := ended.value;
  }

  method DiscoverPlaces(cells: nat, cap: nat) returns (exit: Exit, acts: seq<Act>)
    ensures Settled(acts, cells, cap)
    ensures exit.Finished? ==> exit.places == FirstOfEach(Received(CallsOf(acts)))
    ensures exit.Finished? && !exit.stoppedEarly ==> Frontier(CallsOf(acts)) == (cells, 0)
    ensures exit.Finished? && exit.stoppedEarly ==> |CallsOf(acts)| == cap || (acts != [] && acts[|acts| - 1].Refused?)
    ensures !exit.Finished? ==> Failed(acts, exit)
  {
    acts := [];
    var places: seq<Place>, seen: set<string>, requests := [], {}, 0;
    for cell := 0 to cells
      invariant SeenIs(seen, places)
      invariant Running(acts, cell, 0, None, requests, places, cap)
    {
      var end;
      end, requests, places, seen, acts := SweepCell(cell, cells, cap, requests, places, seen, acts);
      match end
      case Stop => return Finished(places, true), acts;
      case Exit(e) => return e, acts;
      case Next =>
    }
    RunningSettles(acts, cells, 0, None, requests, places, cap, cells);
    exit := Finished(places, false);
  }

  /** The places of a sweep have pairwise different identifiers, and every identifier received is among them. */
  lemma SweepReturnsEachOnce(acts: seq<Act>)
    ensures var received := Received(CallsOf(acts));
            var places := FirstOfEach(received);
            && (forall i, j | 0 <= i < j < |places| :: places[i].externalId != places[j].externalId)
            && (forall id :: HasId(received, id) <==> HasId(places, id))
  {
    FirstOfEachIs(Received(CallsOf(acts)));
  }

  // ---- the ledger, counted ----

  /** The acts of one kind, by their places. */
  function Grants(acts: seq<Act>): set<int> { set i | 0 <= i < |acts| && acts[i].Granted? }

  function Refunds(acts: seq<Act>): set<int> { set i | 0 <= i < |acts| && acts[i].Refunded? }

  /** The calls that were answered at all. */
  function Answered(calls: seq<Call>): set<int> { set i | 0 <= i < |calls| && !calls[i].reply.TransientError? }

  lemma {:induction false} HeldIsGrantsLessRefunds(acts: seq<Act>)
    ensures UnitsHeld(acts) == |Grants(acts)| - |Refunds(acts)|
  {
    if acts == [] {
      assert Grants(acts) == {} && Refunds(acts) == {};
    } else {
      var n := |acts| - 1;
      HeldIsGrantsLessRefunds(acts[..n]);
      OneMoreGrant(acts);
      OneMoreRefund(acts);
    }
  }

  lemma OneMoreGrant(acts: seq<Act>)
    requires acts != []
    ensures |Grants(acts)| == |Grants(acts[..|acts| - 1])| + (if acts[|acts| - 1].Granted? then 1 else 0)
  {
    assert Grants(acts) == Grants(acts[..|acts| - 1]) + (if acts[|acts| - 1].Granted? then {|acts| - 1} else {});
  }

  lemma OneMoreRefund(acts: seq<Act>)
    requires acts != []
    ensures |Refunds(acts)| == |Refunds(acts[..|acts| - 1])| + (if acts[|acts| - 1].Refunded? then 1 else 0)
  {
    assert Refunds(acts) == Refunds(acts[..|acts| - 1]) + (if acts[|acts| - 1].Refunded? then {|acts| - 1} else {});
  }

  lemma {:induction false} BilledIsAnswered(calls: seq<Call>)
    ensures Billed(calls) == |Answered(calls)|
  {
    if calls == [] {
      assert Answered(calls) == {};
    } else {
      var n := |calls| - 1;
      BilledIsAnswered(calls[..n]);
      assert Answered(calls) == Answered(calls[..n]) + (if !calls[n].reply.TransientError? then {n} else {});
    }
  }

  /** However a run ends: units granted less those refunded are the calls that were answered, and each call has a unit granted just before it. */
  lemma {:induction false} LedgerAddsUp(acts: seq<Act>, cells: nat, cap: nat)
    requires Settled(acts, cells, cap)
    ensures |Grants(acts)| - |Refunds(acts)| == |Answered(CallsOf(acts))|
    ensures forall i | 0 <= i < |acts| && acts[i].Called? :: i > 0 && acts[i - 1] == Granted
    ensures |CallsOf(acts)| <= cap && |CallsOf(acts)| <= 3 * cells
  {
    HeldIsGrantsLessRefunds(acts);
    BilledIsAnswered(CallsOf(acts));
  }

  /**
   * Calls go in order, from the first page of the first cell: a page that names another is followed by it, up to
   * the third; any other page or client error by the next cell; a rejected key or a failure by nothing.
   */
  lemma {:induction false} CallsFollow(acts: seq<Act>, cells: nat, cap: nat, i: nat)
    requires Settled(acts, cells, cap) && i < |CallsOf(acts)|
    ensures i == 0 ==> CallsOf(acts)[0].cell == 0 && CallsOf(acts)[0].page == 0 && CallsOf(acts)[0].token == None
    ensures i + 1 < |CallsOf(acts)| ==>
              var c, d := CallsOf(acts)[i], CallsOf(acts)[i + 1];
              match c.reply
              case Page(_, next) =>
                if next.Some? && next.value != "" && c.page < 2 then d.cell == c.cell && d.page == c.page + 1 && d.token == next
                else d.cell == c.cell + 1 && d.page == 0 && d.token == None
              case PermanentError(status) => status != 401 && status != 403 && d.cell == c.cell + 1 && d.page == 0 && d.token == None
              case TransientError => false
  {
  }
}
