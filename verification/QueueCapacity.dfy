/**
What the limit on the processing map says about the operations under way. The map is keyed by
host, and a second operation on one host shares or takes over its entry, so its size and the
number of operations drift apart. This module keeps the account of the difference over every
run, and says exactly which steps keep the map and the operations together.
*/
module QueueCapacity {
  import opened Clock
  import opened Options
  import opened Sequences
  import opened QueueModel
  import opened QueueRuns
  import opened QueueSafety
  import opened QueueWaiting
  import opened QueueOccupancy

  function AtWork(): Phase -> int {
    (p: Phase) => One(p.Busy?)
  }

  /** Operations under way: requests held by workers and permits not yet released. */
  function Outstanding(w: World): int {
    Sum(w.workers, AtWork()) + |w.permits|
  }

  /** How many more there are than entries in the processing map. */
  function Excess(w: World): int {
    Outstanding(w) - |w.core.processing|
  }

  // ----- the account

  /** A caller is let in on a host that is being processed. */
  function ReEnters(): (World, Step) -> bool {
    (w: World, s: Step) => s.TryAcquire? && s.host in w.core.processing
  }

  /** A request starts on a host that is being processed. */
  function TakesOver(): (World, Step) -> bool {
    (w: World, s: Step) => Started(w, s).Some? && Started(w, s).value.host in w.core.processing
  }

  /** A caller without a permit for a host releases it, and frees the entry of another's operation. */
  function FreesAnothers(): (World, Step) -> bool {
    (w: World, s: Step) => s.Release? && s.host in w.core.processing && !HasPermit(w, s.caller, s.host)
  }

  /** An operation ends whose host has no entry any more. */
  function FindsNoEntry(): (World, Step) -> bool {
    (w: World, s: Step) =>
      || (s.Release? && s.host !in w.core.processing && HasPermit(w, s.caller, s.host))
      || (s.Finish? && s.worker < |w.workers| && w.workers[s.worker].Busy?
          && w.workers[s.worker].req.host !in w.core.processing)
  }

  /** What one step adds to the operations that the map does not count. */
  function Drift(w: World, s: Step): int {
    One(ReEnters()(w, s)) + One(TakesOver()(w, s)) + One(FreesAnothers()(w, s)) - One(FindsNoEntry()(w, s))
  }

  lemma FreeShrinks(c: Core, host: string, bmc: string, now: Time)
    ensures |FreeAndStamp(c, host, bmc, now).processing| == |c.processing| - One(host in c.processing)
  {
    assert (c.processing - {host}).Keys == c.processing.Keys - {host};
  }

  lemma AcquireDrift(w: World, s: Step)
    requires Enabled(w, s) && s.TryAcquire?
    ensures Excess(Apply(w, s)) == Excess(w) + Drift(w, s)
  {
  }

  lemma ReleaseDrift(w: World, s: Step)
    requires Enabled(w, s) && s.Release?
    ensures Excess(Apply(w, s)) == Excess(w) + Drift(w, s)
  {
    FreeShrinks(w.core, s.host, s.bmc, s.now);
    assert s.ended.Some? ==> |w.permits - multiset{s.ended.value}| == |w.permits| - 1;
  }

  lemma TakeDrift(w: World, s: Step)
    requires Enabled(w, s) && s.TakeNext?
    ensures Excess(Apply(w, s)) == Excess(w) + Drift(w, s)
  {
    var d := TakeDecision(w.core, s.readings);
    if d.Some? {
      var r := w.core.queue[d.value];
      SumUpdate(w.workers, s.worker, Busy(r), AtWork());
      assert |w.core.processing[r.host := r]| == |w.core.processing| + 1 - One(r.host in w.core.processing);
    }
  }

  lemma FinishDrift(w: World, s: Step)
    requires Enabled(w, s) && s.Finish?
    ensures Excess(Apply(w, s)) == Excess(w) + Drift(w, s)
  {
    var r := w.workers[s.worker].req;
    SumUpdate(w.workers, s.worker, Sending(r), AtWork());
    FreeShrinks(w.core, r.host, r.bmc, s.now);
  }

  lemma NoneBegins(ws: seq<Phase>, i: nat, p: Phase)
    requires i < |ws| && !ws[i].Busy? && !p.Busy?
    ensures Sum(ws[i := p], AtWork()) == Sum(ws, AtWork())
  {
    SumUpdate(ws, i, p, AtWork());
  }

  lemma MoreWorkers(ws: seq<Phase>, n: nat)
    ensures Sum(ws + seq(n, _ => Idle), AtWork()) == Sum(ws, AtWork())
  {
    SumConcat(ws, seq(n, _ => Idle), AtWork());
    SumIdle(n, AtWork());
  }

  lemma WorkersDoNotDrift(w: World, s: Step)
    requires Enabled(w, s) && (s.Send? || s.WorkerExit? || s.StartWorkers?)
    ensures Outstanding(Apply(w, s)) == Outstanding(w) && Apply(w, s).core == w.core && Drift(w, s) == 0
  {
    match s
    case Send(i, _) => NoneBegins(w.workers, i, Idle);
    case WorkerExit(i) => NoneBegins(w.workers, i, Exited);
    case StartWorkers(n) => MoreWorkers(w.workers, n);
  }

  lemma OthersDoNotDrift(w: World, s: Step)
    requires Enabled(w, s) && (s.Submit? || s.Receive? || s.Cancel? || s.CloseStop? || s.StopReturn?)
    ensures Outstanding(Apply(w, s)) == Outstanding(w) && Apply(w, s).core.processing == w.core.processing
    ensures Drift(w, s) == 0
  {
  }

  lemma StepDrift(w: World, s: Step)
    requires Enabled(w, s)
    ensures Excess(Apply(w, s)) == Excess(w) + Drift(w, s)
  {
    match s
    case TryAcquire(_, _, _, _) => AcquireDrift(w, s);
    case Release(_, _, _, _, _) => ReleaseDrift(w, s);
    case TakeNext(_, _, _) => TakeDrift(w, s);
    case Finish(_, _) => FinishDrift(w, s);
    case Send(_, _) => WorkersDoNotDrift(w, s);
    case WorkerExit(_) => WorkersDoNotDrift(w, s);
    case StartWorkers(_) => WorkersDoNotDrift(w, s);
    case _ => OthersDoNotDrift(w, s);
  }

  /** Callers let in on a host being processed, starts on such a host and releases of another's
      entry, less the operations that ended without an entry: what the map fails to count. */
  function Uncounted(tr: seq<World>, steps: seq<Step>, k: nat): int
    requires k <= |steps| < |tr|
  {
    Tally(tr, steps, 0, k, ReEnters()) + Tally(tr, steps, 0, k, TakesOver()) + Tally(tr, steps, 0, k, FreesAnothers())
    - Tally(tr, steps, 0, k, FindsNoEntry())
  }

  lemma UncountedExtends(tr: seq<World>, steps: seq<Step>, k: nat)
    requires k < |steps| < |tr|
    ensures Uncounted(tr, steps, k + 1) == Uncounted(tr, steps, k) + Drift(tr[k], steps[k])
  {
  }

  lemma DriftAt(tr: seq<World>, steps: seq<Step>, k: nat)
    requires k < |steps| < |tr| && Moves(tr, steps, k)
    ensures Excess(tr[k + 1]) - Excess(tr[k]) == Uncounted(tr, steps, k + 1) - Uncounted(tr, steps, k)
  {
    StepDrift(tr[k], steps[k]);
    UncountedExtends(tr, steps, k);
  }

  lemma NoneAtFirst(tr: seq<World>, steps: seq<Step>)
    requires Run(tr, steps)
    ensures Outstanding(tr[0]) == |tr[0].core.processing| == Uncounted(tr, steps, 0) == 0
  {
  }

  /** At every point of every run the operations under way are the entries of the map plus the
      uncounted ones. */
  lemma {:induction false} OperationsAccount(tr: seq<World>, steps: seq<Step>, k: nat)
    requires Run(tr, steps) && k < |tr|
    ensures Outstanding(tr[k]) == |tr[k].core.processing| + Uncounted(tr, steps, k)
  {
    if k == 0 {
      NoneAtFirst(tr, steps);
    } else {
      OperationsAccount(tr, steps, k - 1);
      DriftAt(tr, steps, k - 1);
    }
  }

  /** So the limit is exceeded exactly when the uncounted operations outnumber the free slots. */
  lemma LimitExceededExactly(tr: seq<World>, steps: seq<Step>, k: nat)
    requires Run(tr, steps) && k < |tr|
    ensures Outstanding(tr[k]) > tr[k].core.maxOps <==>
            Uncounted(tr, steps, k) > tr[k].core.maxOps - |tr[k].core.processing|
    ensures Outstanding(tr[k]) <= (if tr[k].core.maxOps < 0 then 0 else tr[k].core.maxOps) + Uncounted(tr, steps, k)
  {
    OperationsAccount(tr, steps, k);
    LimitsHold(tr, steps, k);
  }

  // ----- one operation per host

  /** No host has two operations, and the keys of the map are the hosts that have one. */
  predicate Matched(w: World) {
    Single(ByHost, w) && w.core.processing.Keys == Occupied(ByHost, w)
  }

  /** The entry of a host is the operation under way: the request, or the permit's reservation. */
  predicate Recorded(w: World) {
    && (forall i | 0 <= i < |w.workers| && w.workers[i].Busy? ::
          var r := w.workers[i].req; r.host in w.core.processing && w.core.processing[r.host] == r)
    && (forall p | p in w.permits ::
          p.host in w.core.processing && w.core.processing[p.host] == Reservation(p.host, p.bmc))
  }

  /** The processing map is exactly the operations under way, and no host has two. */
  predicate OnePerHost(w: World) {
    Matched(w) && Recorded(w)
  }

  /** What can be checked before the call: no re-entry, no release of another's slot, no start
      on a host that is being processed. */
  predicate Careful(w: World, s: Step) {
    match s
    case TryAcquire(_, host, _, _) => host !in w.core.processing
    case Release(caller, host, _, _, _) => HasPermit(w, caller, host) || host !in w.core.processing
    case TakeNext(_, readings, _) =>
      |readings| == |w.core.queue| ==>
        forall j | 0 <= j < |w.core.queue| && Starts(w.core, readings, j) :: w.core.queue[j].host !in w.core.processing
    case _ => true
  }

  lemma AcquireExact(w: World, s: Step)
    requires Matched(w) && Enabled(w, s) && s.TryAcquire?
    ensures Matched(Apply(w, s)) <==> Careful(w, s)
  {
    AcquireOccupies(ByHost, w, s);
  }

  lemma ReleaseExact(w: World, s: Step)
    requires Matched(w) && Enabled(w, s) && s.Release?
    ensures Matched(Apply(w, s)) <==> Careful(w, s)
  {
    ReleaseFrees(ByHost, w, s);
    assert Apply(w, s).core.processing.Keys == w.core.processing.Keys - {s.host};
    if s.ended.Some? {
      assert OfPermit(ByHost, s.ended.value) in PermitsAt(ByHost, w.permits);
    }
  }

  /** The request that a step starts, if any, is on a host that is not being processed. */
  predicate StartsFree(w: World, s: Step) {
    Started(w, s).Some? ==> Started(w, s).value.host !in w.core.processing
  }

  lemma CarefulTake(w: World, s: Step)
    requires Enabled(w, s) && s.TakeNext?
    ensures Careful(w, s) <==> StartsFree(w, s)
  {
    StartedAt(w, s);
  }

  /** What a scan does to workers, permits and map. */
  predicate Takes(w: World, w': World, i: nat, started: Option<Request>) {
    && w'.permits == w.permits && i < |w.workers| && !w.workers[i].Busy?
    && if started.Some?
       then w'.workers == w.workers[i := Busy(started.value)]
            && w'.core.processing == w.core.processing[started.value.host := started.value]
       else w'.workers == w.workers && w'.core.processing == w.core.processing
  }

  lemma TakeTakes(w: World, s: Step)
    requires Enabled(w, s) && s.TakeNext?
    ensures Takes(w, Apply(w, s), s.worker, Started(w, s))
  {
  }

  lemma TakeMatches(w: World, w': World, i: nat, started: Option<Request>)
    requires Matched(w) && Takes(w, w', i, started)
    ensures Matched(w') <==> (started.Some? ==> started.value.host !in w.core.processing)
  {
    if started.Some? {
      StartOccupies(ByHost, w, w', i, started.value);
      assert w'.core.processing.Keys == w.core.processing.Keys + {started.value.host};
    } else {
      SameOccupied(ByHost, w, w');
    }
  }

  lemma TakeExact(w: World, s: Step)
    requires Matched(w) && Enabled(w, s) && s.TakeNext?
    ensures Matched(Apply(w, s)) <==> StartsFree(w, s)
  {
    TakeTakes(w, s);
    TakeMatches(w, Apply(w, s), s.worker, Started(w, s));
  }

  lemma FinishKeepsMatched(w: World, s: Step)
    requires Matched(w) && Enabled(w, s) && s.Finish?
    ensures Matched(Apply(w, s))
  {
    FinishFrees(ByHost, w, s);
    var r := w.workers[s.worker].req;
    assert Apply(w, s).core.processing.Keys == w.core.processing.Keys - {r.host};
  }

  lemma MatchedExactly(w: World, s: Step)
    requires Matched(w) && Enabled(w, s)
    ensures Matched(Apply(w, s)) <==> Careful(w, s)
  {
    match s
    case TryAcquire(_, _, _, _) => AcquireExact(w, s);
    case Release(_, _, _, _, _) => ReleaseExact(w, s);
    case TakeNext(_, _, _) =>
      TakeExact(w, s);
      CarefulTake(w, s);
    case Finish(_, _) => FinishKeepsMatched(w, s);
    case _ => OthersOccupyNothing(ByHost, w, s);
  }

  lemma AcquireRecords(w: World, s: Step)
    requires OnePerHost(w) && Enabled(w, s) && Careful(w, s) && s.TryAcquire?
    ensures Recorded(Apply(w, s))
  {
    assert forall p | p in Apply(w, s).permits :: p in w.permits || p == Permit(s.caller, s.host, s.bmc);
  }

  /** Freeing a host leaves the entries of all others. */
  lemma FreeKeepsRecorded(w: World, w': World, host: string)
    requires Recorded(w) && w'.core.processing == w.core.processing - {host}
    requires |w'.workers| == |w.workers|
    requires forall i | 0 <= i < |w.workers| && w'.workers[i].Busy? ::
               w'.workers[i] == w.workers[i] && w.workers[i].req.host != host
    requires forall p | p in w'.permits :: p in w.permits && p.host != host
    ensures Recorded(w')
  {
  }

  lemma EndRecords(w: World, w': World, p: Permit)
    requires OnePerHost(w) && p in w.permits
    requires w'.workers == w.workers && w'.permits == w.permits - multiset{p}
    requires w'.core.processing == w.core.processing - {p.host}
    ensures Recorded(w')
  {
    assert OfPermit(ByHost, p) in PermitsAt(ByHost, w.permits);
    forall i | 0 <= i < |w.workers| && w.workers[i].Busy? ensures w.workers[i].req.host != p.host {
      assert OfRequest(ByHost, w.workers[i].req) in BusyAt(ByHost, w.workers);
    }
    forall q | q in w'.permits ensures q in w.permits && q.host != p.host {
      assert OfPermit(ByHost, q) == OfPermit(ByHost, p) ==> q == p;
    }
    FreeKeepsRecorded(w, w', p.host);
  }

  lemma ReleaseRecords(w: World, s: Step)
    requires OnePerHost(w) && Enabled(w, s) && Careful(w, s) && s.Release?
    ensures Recorded(Apply(w, s))
  {
    if s.ended.Some? {
      EndRecords(w, Apply(w, s), s.ended.value);
    } else {
      assert w.core.processing - {s.host} == w.core.processing;
    }
  }

  lemma TakesRecorded(w: World, w': World, i: nat, started: Option<Request>)
    requires Recorded(w) && Takes(w, w', i, started)
    requires started.Some? ==> started.value.host !in w.core.processing
    ensures Recorded(w')
  {
  }

  lemma TakeRecords(w: World, s: Step)
    requires OnePerHost(w) && Enabled(w, s) && Careful(w, s) && s.TakeNext?
    ensures Recorded(Apply(w, s))
  {
    CarefulTake(w, s);
    TakeTakes(w, s);
    TakesRecorded(w, Apply(w, s), s.worker, Started(w, s));
  }

  lemma FinishRecords(w: World, s: Step)
    requires OnePerHost(w) && Enabled(w, s) && s.Finish?
    ensures Recorded(Apply(w, s))
  {
    var r := w.workers[s.worker].req;
    assert OfRequest(ByHost, r) in BusyAt(ByHost, w.workers);
    forall i | 0 <= i < |w.workers| && i != s.worker && w.workers[i].Busy? ensures w.workers[i].req.host != r.host {
      assert OfRequest(ByHost, w.workers[i].req) != OfRequest(ByHost, r);
    }
    forall p | p in w.permits ensures p.host != r.host {
      assert OfPermit(ByHost, p) in PermitsAt(ByHost, w.permits);
    }
    FreeKeepsRecorded(w, Apply(w, s), r.host);
  }

  lemma OthersRecord(w: World, s: Step)
    requires Recorded(w) && Enabled(w, s) && !s.TryAcquire? && !s.Release? && !s.TakeNext? && !s.Finish?
    ensures Recorded(Apply(w, s))
  {
  }

  lemma CarefulRecords(w: World, s: Step)
    requires OnePerHost(w) && Enabled(w, s) && Careful(w, s)
    ensures Recorded(Apply(w, s))
  {
    match s
    case TryAcquire(_, _, _, _) => AcquireRecords(w, s);
    case Release(_, _, _, _, _) => ReleaseRecords(w, s);
    case TakeNext(_, _, _) => TakeRecords(w, s);
    case Finish(_, _) => FinishRecords(w, s);
    case _ => OthersRecord(w, s);
  }

  /** From a state with one operation per host, a step leads to another exactly when it is
      careful. */
  lemma CarefulIsExact(w: World, s: Step)
    requires OnePerHost(w) && Enabled(w, s)
    ensures OnePerHost(Apply(w, s)) <==> Careful(w, s)
  {
    MatchedExactly(w, s);
    if Careful(w, s) {
      CarefulRecords(w, s);
    }
  }

  predicate OnePerHostAt(tr: seq<World>, i: nat)
    requires i < |tr|
  {
    OnePerHost(tr[i])
  }

  predicate CarefulAt(tr: seq<World>, steps: seq<Step>, i: nat)
    requires i < |steps| < |tr|
  {
    Careful(tr[i], steps[i])
  }

  lemma CarefulNext(tr: seq<World>, steps: seq<Step>, k: nat)
    requires Run(tr, steps) && k < |steps| && OnePerHostAt(tr, k)
    ensures OnePerHostAt(tr, k + 1) <==> CarefulAt(tr, steps, k)
  {
    assert Moves(tr, steps, k);
    CarefulIsExact(tr[k], steps[k]);
  }

  lemma OnePerHostInitially(tr: seq<World>, steps: seq<Step>)
    requires Run(tr, steps)
    ensures OnePerHostAt(tr, 0)
  {
    SingleInitially(ByHost, tr, steps);
    var maxOps, maxQueue, clock :| tr[0] == Init(maxOps, maxQueue, clock);
  }

  /** A run keeps one operation per host throughout exactly when all its steps are careful. */
  lemma {:induction false} CarefulRunsExactly(tr: seq<World>, steps: seq<Step>, k: nat)
    requires Run(tr, steps) && k < |tr|
    ensures (forall i | 0 <= i <= k :: OnePerHostAt(tr, i)) <==> (forall i | 0 <= i < k :: CarefulAt(tr, steps, i))
  {
    if k == 0 {
      OnePerHostInitially(tr, steps);
    } else {
      CarefulRunsExactly(tr, steps, k - 1);
      if OnePerHostAt(tr, k - 1) {
        CarefulNext(tr, steps, k - 1);
      }
    }
  }

  // ----- then the map counts the operations

  lemma {:induction false} BusyAreCounted(ws: seq<Phase>)
    requires DistinctBusy(ByHost, ws)
    ensures Sum(ws, AtWork()) == |BusyAt(ByHost, ws)|
  {
    if ws == [] {
    } else {
      var n := |ws| - 1;
      var front := ws[..n];
      BusyAreCounted(front);
      assert ws == front + [ws[n]];
      if ws[n].Busy? {
        BusyGrowsAtEnd(front, ws[n]);
      } else {
        BusyStays(ByHost, front, ws);
      }
    }
  }

  lemma BusyGrowsAtEnd(front: seq<Phase>, p: Phase)
    requires p.Busy? && DistinctBusy(ByHost, front + [p])
    ensures BusyAt(ByHost, front + [p]) == BusyAt(ByHost, front) + {p.req.host} && p.req.host !in BusyAt(ByHost, front)
  {
    var ws := front + [p];
    assert ws[|front|] == p;
    assert forall i | 0 <= i < |front| :: ws[i] == front[i];
    forall h | h in BusyAt(ByHost, front) ensures h in BusyAt(ByHost, ws) && h != p.req.host {
      var i :| 0 <= i < |front| && front[i].Busy? && OfRequest(ByHost, front[i].req) == h;
      assert ws[i].Busy?;
    }
  }

  lemma {:induction false} PermitsAreCounted(permits: multiset<Permit>)
    requires DistinctPermits(ByHost, permits)
    ensures |permits| == |PermitsAt(ByHost, permits)|
    decreases |permits|
  {
    if permits == multiset{} {
    } else {
      var p :| p in permits;
      PermitsShrink(ByHost, permits, p);
      PermitsAreCounted(permits - multiset{p});
      assert OfPermit(ByHost, p) in PermitsAt(ByHost, permits);
    }
  }

  lemma MapCountsOperations(w: World)
    requires OnePerHost(w)
    ensures Outstanding(w) == |w.core.processing|
  {
    BusyAreCounted(w.workers);
    PermitsAreCounted(w.permits);
    assert |w.core.processing| == |w.core.processing.Keys|;
  }

  /** In a run of careful steps the operations under way are the entries of the map, and never
      more than the limit. */
  lemma OperationsWithinLimit(tr: seq<World>, steps: seq<Step>, k: nat)
    requires Run(tr, steps) && k < |tr| && forall i | 0 <= i < k :: CarefulAt(tr, steps, i)
    ensures OnePerHost(tr[k]) && Outstanding(tr[k]) == |tr[k].core.processing|
    ensures Outstanding(tr[k]) <= if tr[k].core.maxOps < 0 then 0 else tr[k].core.maxOps
  {
    CarefulRunsExactly(tr, steps, k);
    assert OnePerHostAt(tr, k);
    MapCountsOperations(tr[k]);
    LimitsHold(tr, steps, k);
  }

  /** Then a request in flight is found, by cancellation and status query alike. */
  lemma InFlightIsFound(w: World, i: nat)
    requires OnePerHost(w) && i < |w.workers| && w.workers[i].Busy?
    ensures !CancelCan(w.core, w.workers[i].req.id, Absent)
    ensures exists h | h in w.core.processing :: w.core.processing[h].id == w.workers[i].req.id
  {
    assert w.core.processing[w.workers[i].req.host].id == w.workers[i].req.id;
  }

  // ----- what callers can do

  predicate QueuedHost(w: World, host: string) {
    exists i | 0 <= i < |w.core.queue| :: w.core.queue[i].host == host
  }

  /** Callers do not start a second operation on a host they have queued or outstanding, and
      release only permits that they hold. */
  predicate Polite(w: World, s: Step) {
    match s
    case Submit(host, _, _, _) => !QueuedHost(w, host)
    case TryAcquire(_, host, _, _) => !QueuedHost(w, host) && host !in w.core.processing
    case Release(caller, host, _, _, _) => HasPermit(w, caller, host)
    case _ => true
  }

  /** Queued hosts are pairwise different, and none is being processed. */
  predicate Apart(c: Core) {
    && (forall i, j | 0 <= i < j < |c.queue| :: c.queue[i].host != c.queue[j].host)
    && (forall i | 0 <= i < |c.queue| :: c.queue[i].host !in c.processing)
  }

  lemma RemoveKeepsHostsApart(c: Core, i: nat)
    requires Apart(c) && i < |c.queue|
    ensures Apart(c.(queue := Remove(c.queue, i)))
    ensures Apart(c.(queue := Remove(c.queue, i), processing := c.processing[c.queue[i].host := c.queue[i]]))
  {
  }

  lemma PoliteKeepsApart(w: World, s: Step)
    requires Apart(w.core) && Enabled(w, s) && Polite(w, s)
    ensures Apart(Apply(w, s).core) && Careful(w, s)
  {
    match s
    case Submit(_, _, _, _) =>
    case TryAcquire(_, _, _, _) =>
    case TakeNext(_, readings, _) =>
      var d := TakeDecision(w.core, readings);
      if d.Some? {
        RemoveKeepsHostsApart(w.core, d.value);
      }
    case Cancel(_, o) =>
      if o.Removed? {
        RemoveKeepsHostsApart(w.core, o.index);
      }
    case _ =>
  }

  lemma {:induction false} PoliteRunsStayApart(tr: seq<World>, steps: seq<Step>, k: nat)
    requires Run(tr, steps) && k < |tr|
    requires forall i | 0 <= i < k :: Polite(tr[i], steps[i])
    ensures Apart(tr[k].core) && (k > 0 ==> Careful(tr[k - 1], steps[k - 1]))
  {
    if k == 0 {
    } else {
      PoliteRunsStayApart(tr, steps, k - 1);
      assert Moves(tr, steps, k - 1);
      PoliteKeepsApart(tr[k - 1], steps[k - 1]);
    }
  }

  /** With polite callers the map is exactly the hosts with an operation under way, and the
      operations never exceed the limit. */
  lemma PoliteCallersSuffice(tr: seq<World>, steps: seq<Step>, k: nat)
    requires Run(tr, steps) && k < |tr|
    requires forall i | 0 <= i < k :: Polite(tr[i], steps[i])
    ensures OnePerHost(tr[k])
    ensures Outstanding(tr[k]) <= if tr[k].core.maxOps < 0 then 0 else tr[k].core.maxOps
  {
    forall i | 0 <= i < k ensures CarefulAt(tr, steps, i) {
      PoliteRunsStayApart(tr, steps, i + 1);
    }
    OperationsWithinLimit(tr, steps, k);
  }

  // ----- without such callers

  /** Two callers are let in on one host, under a limit of one operation. */
  lemma TwoCallersOneHost() returns (tr: seq<World>, steps: seq<Step>)
    ensures Run(tr, steps) && tr[|steps|].permits == multiset{Permit(0, "h", "b"), Permit(1, "h", "b")}
    ensures Outstanding(tr[|steps|]) == 2 && tr[|steps|].core.maxOps == 1 == |tr[|steps|].core.processing|
  {
    tr, steps := [Init(1, 1, 0)], [];
    tr, steps := Extend(tr, steps, TryAcquire(0, "h", "b", 0));
    assert tr[|steps|].core.processing == map["h" := Reservation("h", "b")];
    tr, steps := Extend(tr, steps, TryAcquire(1, "h", "b", 0));
    OperationsAccount(tr, steps, 2);
  }

  lemma ReleasedByAnother() returns (tr: seq<World>, steps: seq<Step>)
    ensures Run(tr, steps) && |steps| == 2 && steps[1].Release? && !Careful(tr[1], steps[1])
    ensures tr[2].permits == multiset{Permit(0, "h", "b")} && tr[2].workers == [] && tr[2].clock == 0
    ensures tr[2].core == Fresh(1, 1).(last := map["b" := 0])
  {
    tr, steps := [Init(1, 1, 0)], [];
    tr, steps := Extend(tr, steps, TryAcquire(0, "h", "b", 0));
    assert tr[1].core.processing == map["h" := Reservation("h", "b")];
    tr, steps := Extend(tr, steps, Release(1, "h", "b", 0, None));
    assert tr[2].core.processing == map[];
  }

  lemma TwoPermits(w: World, p: Permit, q: Permit)
    requires w.workers == [] && w.permits == multiset{p, q} && p.bmc == q.bmc && p != q
    ensures Outstanding(w) == 2 && !OnePerBMC(w)
  {
    assert p in w.permits && q in w.permits && OfPermit(ByBMC, p) == OfPermit(ByBMC, q);
  }

  /** A release by a caller without a permit lets another in beside the first, after the
      cooldown: two operations on one host and one BMC, under a limit of one. */
  lemma ForeignRelease() returns (tr: seq<World>, steps: seq<Step>)
    ensures Run(tr, steps) && |steps| == 3 && steps[1].Release? && !Careful(tr[1], steps[1])
    ensures tr[3].permits == multiset{Permit(0, "h", "b"), Permit(2, "h", "b")} && !OnePerBMC(tr[3])
    ensures Outstanding(tr[3]) == 2 && tr[3].core.maxOps == 1 == |tr[3].core.processing|
  {
    tr, steps := ReleasedByAnother();
    var w, s := tr[2], TryAcquire(2, "h", "b", COOLDOWN);
    assert AcquireDecision(w.core, "h", "b", COOLDOWN).Granted?;
    tr, steps := Extend(tr, steps, s);
    assert tr[3].core.processing == map["h" := Reservation("h", "b")];
    TwoPermits(tr[3], Permit(0, "h", "b"), Permit(2, "h", "b"));
  }

  lemma SameHostTwice() returns (tr: seq<World>, steps: seq<Step>)
    ensures Run(tr, steps)
    ensures var w := tr[|steps|];
            && w.workers == [Idle, Idle] && w.permits == multiset{} && w.clock == 0
            && |w.core.queue| == 2 && w.core.queue[0].host == w.core.queue[1].host == "h"
            && w.core.queue[0].bmc == w.core.queue[1].bmc == "b"
            && w.core.last == map[] && w.core.processing == map[] && w.core.maxOps == 2
  {
    tr, steps := [Init(2, 2, 0)], [];
    tr, steps := Extend(tr, steps, StartWorkers(2));
    tr, steps := Extend(tr, steps, Submit("h", "b", "claim", 0));
    tr, steps := Extend(tr, steps, Submit("h", "b", "provision", 1));
  }

  lemma TwoOnOneBMC(w: World)
    requires |w.workers| == 2 && w.workers[0].Busy? && w.workers[1].Busy?
    requires w.workers[0].req.bmc == w.workers[1].req.bmc
    ensures !OnePerBMC(w)
  {
    assert OfRequest(ByBMC, w.workers[0].req) == OfRequest(ByBMC, w.workers[1].req);
  }

  /** The cooldown runs from completions, so two requests can be in flight on one BMC. */
  lemma BothStarted() returns (tr: seq<World>, steps: seq<Step>)
    ensures Run(tr, steps)
    ensures var w := tr[|steps|];
            && |w.workers| == 2 && w.workers[0].Busy? && w.workers[1].Busy?
            && w.workers[0].req.host == w.workers[1].req.host == "h"
            && w.workers[0].req.bmc == w.workers[1].req.bmc == "b"
            && w.permits == multiset{} && w.clock == 0
            && w.core.last == map[] && w.core.processing.Keys == {"h"} && w.core.maxOps == 2
            && w.core.queue == [] && !OnePerBMC(w)
  {
    tr, steps := SameHostTwice();
    var w := tr[|steps|];
    assert Enabled(w, TakeNext(0, [0, 0], 0));
    tr, steps := Extend(tr, steps, TakeNext(0, [0, 0], 0));
    var w' := tr[|steps|];
    assert w'.core.processing.Keys == {"h"};
    assert |w'.core.processing| == |w'.core.processing.Keys|;
    assert |w'.core.queue| == 1 && w'.core.queue[0] == w.core.queue[1];
    tr, steps := Extend(tr, steps, TakeNext(1, [0], 0));
    TwoOnOneBMC(tr[|steps|]);
  }

  /** Two requests for one host and a permit for another: three operations under way with a
      limit of two. */
  lemma LimitCanBeExceeded() returns (tr: seq<World>, steps: seq<Step>)
    ensures Run(tr, steps) && Outstanding(tr[|steps|]) > tr[|steps|].core.maxOps == 2
  {
    tr, steps := BothStarted();
    var w := tr[|steps|];
    assert |w.core.processing| == |w.core.processing.Keys|;
    tr, steps := Extend(tr, steps, TryAcquire(0, "g", "b", 0));
    assert w.workers == [w.workers[0], w.workers[1]];
    SumSnoc([w.workers[0]], w.workers[1], AtWork());
    SumSnoc([], w.workers[0], AtWork());
    assert [] + [w.workers[0]] == [w.workers[0]];
    assert [w.workers[0]] + [w.workers[1]] == w.workers;
  }

  /** Once one of the two requests in flight is finished, the other is reported absent. */
  lemma LostInFlight() returns (tr: seq<World>, steps: seq<Step>)
    ensures Run(tr, steps) && |tr[|steps|].workers| == 2 && tr[|steps|].workers[1].Busy?
    ensures CancelCan(tr[|steps|].core, tr[|steps|].workers[1].req.id, Absent)
    ensures tr[|steps|].core.queue == [] && tr[|steps|].core.processing == map[]
  {
    tr, steps := BothStarted();
    tr, steps := Extend(tr, steps, Finish(0, 0));
  }
}
