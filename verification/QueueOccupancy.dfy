/**
The operations under way, requests held by workers and permits not released, and the hosts
and BMCs that they occupy. What a step begins or ends decides whether a host, or a BMC, has
two at once; both aspects are treated alike here.
*/
module QueueOccupancy {
  import opened Options
  import opened Sequences
  import opened QueueModel
  import opened QueueRuns
  import opened QueueSafety

  datatype Aspect = ByHost | ByBMC

  function OfRequest(a: Aspect, r: Request): string {
    match a
    case ByHost => r.host
    case ByBMC => r.bmc
  }

  function OfPermit(a: Aspect, p: Permit): string {
    match a
    case ByHost => p.host
    case ByBMC => p.bmc
  }

  function BusyAt(a: Aspect, ws: seq<Phase>): set<string> {
    set i | 0 <= i < |ws| && ws[i].Busy? :: OfRequest(a, ws[i].req)
  }

  function PermitsAt(a: Aspect, permits: multiset<Permit>): set<string> {
    set p | p in permits :: OfPermit(a, p)
  }

  /** The hosts, or BMCs, with an operation under way. */
  function Occupied(a: Aspect, w: World): set<string> {
    BusyAt(a, w.workers) + PermitsAt(a, w.permits)
  }

  predicate DistinctBusy(a: Aspect, ws: seq<Phase>) {
    forall i, j | 0 <= i < j < |ws| && ws[i].Busy? && ws[j].Busy? :: OfRequest(a, ws[i].req) != OfRequest(a, ws[j].req)
  }

  predicate DistinctPermits(a: Aspect, permits: multiset<Permit>) {
    && (forall p | p in permits :: permits[p] == 1)
    && (forall p, q | p in permits && q in permits && OfPermit(a, p) == OfPermit(a, q) :: p == q)
  }

  /** No host, or no BMC, has two operations under way. */
  predicate Single(a: Aspect, w: World) {
    DistinctBusy(a, w.workers) && DistinctPermits(a, w.permits) && BusyAt(a, w.workers) !! PermitsAt(a, w.permits)
  }

  // ----- edits of the worker table and of the permits

  lemma BusyGrows(a: Aspect, ws: seq<Phase>, i: nat, r: Request)
    requires i < |ws| && !ws[i].Busy?
    ensures BusyAt(a, ws[i := Busy(r)]) == BusyAt(a, ws) + {OfRequest(a, r)}
    ensures DistinctBusy(a, ws[i := Busy(r)]) <==> DistinctBusy(a, ws) && OfRequest(a, r) !in BusyAt(a, ws)
  {
    var ws' := ws[i := Busy(r)];
    assert ws'[i].Busy? && ws'[i].req == r;
    assert forall j | 0 <= j < |ws| && j != i :: ws'[j] == ws[j];
    forall j | 0 <= j < |ws| && ws[j].Busy? ensures OfRequest(a, ws[j].req) in BusyAt(a, ws') {
      assert ws'[j].Busy?;
    }
    if DistinctBusy(a, ws') {
      forall j, k | 0 <= j < k < |ws| && ws[j].Busy? && ws[k].Busy?
        ensures OfRequest(a, ws[j].req) != OfRequest(a, ws[k].req)
      {
        assert ws'[j] == ws[j] && ws'[k] == ws[k];
      }
      forall j | 0 <= j < |ws| && ws[j].Busy? ensures OfRequest(a, ws[j].req) != OfRequest(a, r) {
        assert ws'[j] == ws[j];
      }
    }
  }

  lemma BusyShrinks(a: Aspect, ws: seq<Phase>, i: nat, p: Phase)
    requires i < |ws| && ws[i].Busy? && !p.Busy? && DistinctBusy(a, ws)
    ensures BusyAt(a, ws[i := p]) == BusyAt(a, ws) - {OfRequest(a, ws[i].req)} && DistinctBusy(a, ws[i := p])
  {
    var ws' := ws[i := p];
    forall j | 0 <= j < |ws| && j != i && ws[j].Busy? ensures OfRequest(a, ws[j].req) in BusyAt(a, ws') {
      assert ws'[j] == ws[j];
    }
  }

  lemma BusyStays(a: Aspect, ws: seq<Phase>, ws': seq<Phase>)
    requires |ws| <= |ws'|
    requires forall i | 0 <= i < |ws| :: ws'[i] == ws[i] || (!ws[i].Busy? && !ws'[i].Busy?)
    requires forall i | |ws| <= i < |ws'| :: !ws'[i].Busy?
    ensures BusyAt(a, ws') == BusyAt(a, ws) && (DistinctBusy(a, ws) ==> DistinctBusy(a, ws'))
  {
    forall j | 0 <= j < |ws| && ws[j].Busy? ensures OfRequest(a, ws[j].req) in BusyAt(a, ws') {
      assert ws'[j] == ws[j];
    }
  }

  lemma PermitsGrow(a: Aspect, permits: multiset<Permit>, p: Permit)
    requires DistinctPermits(a, permits)
    ensures PermitsAt(a, permits + multiset{p}) == PermitsAt(a, permits) + {OfPermit(a, p)}
    ensures DistinctPermits(a, permits + multiset{p}) <==> OfPermit(a, p) !in PermitsAt(a, permits)
  {
    var permits' := permits + multiset{p};
    assert forall q :: q in permits' <==> q in permits || q == p;
    if OfPermit(a, p) in PermitsAt(a, permits) {
      var q :| q in permits && OfPermit(a, q) == OfPermit(a, p);
      assert p == q ==> permits'[p] == 2;
    }
  }

  lemma PermitsShrink(a: Aspect, permits: multiset<Permit>, p: Permit)
    requires DistinctPermits(a, permits)
    ensures DistinctPermits(a, permits - multiset{p})
    ensures PermitsAt(a, permits - multiset{p})
            == PermitsAt(a, permits) - if p in permits then {OfPermit(a, p)} else {}
  {
    var permits' := permits - multiset{p};
    assert forall q :: q in permits' <==> q in permits && q != p;
  }

  // ----- which steps put two operations in one place

  /** Where a step begins an operation, if it does: hands out a permit or starts a request. */
  function Begun(a: Aspect, w: World, s: Step): set<string> {
    match s
    case TryAcquire(caller, host, bmc, now) =>
      if AcquireDecision(w.core, host, bmc, now).Wait? then {} else {OfPermit(a, Permit(caller, host, bmc))}
    case TakeNext(_, _, _) => if Started(w, s).Some? then {OfRequest(a, Started(w, s).value)} else {}
    case _ => {}
  }

  lemma AcquireOccupies(a: Aspect, w: World, s: Step)
    requires Enabled(w, s) && s.TryAcquire? && Single(a, w)
    ensures Single(a, Apply(w, s)) <==> Begun(a, w, s) !! Occupied(a, w)
    ensures Occupied(a, Apply(w, s)) == Occupied(a, w) + Begun(a, w, s)
  {
    PermitsGrow(a, w.permits, Permit(s.caller, s.host, s.bmc));
  }

  lemma StartOccupies(a: Aspect, w: World, w': World, i: nat, r: Request)
    requires Single(a, w) && i < |w.workers| && !w.workers[i].Busy?
    requires w'.workers == w.workers[i := Busy(r)] && w'.permits == w.permits
    ensures Single(a, w') <==> OfRequest(a, r) !in Occupied(a, w)
    ensures Occupied(a, w') == Occupied(a, w) + {OfRequest(a, r)}
  {
    BusyGrows(a, w.workers, i, r);
  }

  lemma SameOccupied(a: Aspect, w: World, w': World)
    requires w'.workers == w.workers && w'.permits == w.permits
    ensures Occupied(a, w') == Occupied(a, w) && (Single(a, w') <==> Single(a, w))
  {
  }

  lemma TakeOccupies(a: Aspect, w: World, s: Step)
    requires Enabled(w, s) && s.TakeNext? && Single(a, w)
    ensures Single(a, Apply(w, s)) <==> Begun(a, w, s) !! Occupied(a, w)
    ensures Occupied(a, Apply(w, s)) == Occupied(a, w) + Begun(a, w, s)
  {
    var d := TakeDecision(w.core, s.readings);
    if d.Some? {
      StartOccupies(a, w, Apply(w, s), s.worker, w.core.queue[d.value]);
    } else {
      SameOccupied(a, w, Apply(w, s));
    }
  }

  lemma ReleaseFrees(a: Aspect, w: World, s: Step)
    requires Enabled(w, s) && s.Release? && Single(a, w)
    ensures Single(a, Apply(w, s))
    ensures Occupied(a, Apply(w, s))
            == Occupied(a, w) - if s.ended.Some? then {OfPermit(a, s.ended.value)} else {}
  {
    if s.ended.Some? {
      PermitsShrink(a, w.permits, s.ended.value);
    } else {
      SameOccupied(a, w, Apply(w, s));
    }
  }

  lemma FinishFrees(a: Aspect, w: World, s: Step)
    requires Enabled(w, s) && s.Finish? && Single(a, w)
    ensures Single(a, Apply(w, s))
    ensures Occupied(a, Apply(w, s)) == Occupied(a, w) - {OfRequest(a, w.workers[s.worker].req)}
  {
    var r := w.workers[s.worker].req;
    BusyShrinks(a, w.workers, s.worker, Sending(r));
    assert OfRequest(a, r) in BusyAt(a, w.workers);
  }

  lemma OthersOccupyNothing(a: Aspect, w: World, s: Step)
    requires Enabled(w, s) && Single(a, w) && !s.TryAcquire? && !s.TakeNext? && !s.Release? && !s.Finish?
    ensures Single(a, Apply(w, s)) && Occupied(a, Apply(w, s)) == Occupied(a, w)
    ensures Apply(w, s).core.processing == w.core.processing
  {
    BusyStays(a, w.workers, Apply(w, s).workers);
  }

  /** From a state in which no place has two operations, a step leads to another exactly if it
      begins none in a place that is occupied. */
  lemma SingleExactly(a: Aspect, w: World, s: Step)
    requires Enabled(w, s) && Single(a, w)
    ensures Single(a, Apply(w, s)) <==> Begun(a, w, s) !! Occupied(a, w)
  {
    match s
    case TryAcquire(_, _, _, _) => AcquireOccupies(a, w, s);
    case TakeNext(_, _, _) => TakeOccupies(a, w, s);
    case Release(_, _, _, _, _) => ReleaseFrees(a, w, s);
    case Finish(_, _) => FinishFrees(a, w, s);
    case _ => OthersOccupyNothing(a, w, s);
  }

  // ----- one operation per BMC

  predicate OnePerBMC(w: World) {
    Single(ByBMC, w)
  }

  /** What can be checked before the call: a permit asked for on an occupied BMC has to wait,
      and the request that the readings would start is on a free one. */
  predicate Gentle(w: World, s: Step) {
    match s
    case TryAcquire(_, host, bmc, now) =>
      bmc in Occupied(ByBMC, w) ==> host !in w.core.processing && (SlotsFull(w.core) || Cooling(w.core, bmc, now))
    case TakeNext(_, readings, _) =>
      |readings| == |w.core.queue| ==>
        forall j | 0 <= j < |w.core.queue| && Starts(w.core, readings, j) :: w.core.queue[j].bmc !in Occupied(ByBMC, w)
    case _ => true
  }

  lemma StartedAt(w: World, s: Step)
    requires Enabled(w, s) && s.TakeNext?
    ensures Started(w, s).None? ==> forall j | 0 <= j < |w.core.queue| :: !Starts(w.core, s.readings, j)
    ensures Started(w, s).Some? ==>
              exists j | 0 <= j < |w.core.queue| ::
                Starts(w.core, s.readings, j) && w.core.queue[j] == Started(w, s).value
    ensures forall j | 0 <= j < |w.core.queue| && Starts(w.core, s.readings, j) ::
              Started(w, s) == Some(w.core.queue[j])
  {
    forall j | 0 <= j < |w.core.queue|
      ensures Starts(w.core, s.readings, j) <==> TakeDecision(w.core, s.readings) == Some(j)
    {
      StartsMeans(w.core, s.readings, j);
    }
    var d := TakeDecision(w.core, s.readings);
    if d.Some? {
      assert Starts(w.core, s.readings, d.value);
    }
  }

  /** From a state with one operation per BMC a step leads to another exactly if it is gentle. */
  lemma GentleIsExact(w: World, s: Step)
    requires Enabled(w, s) && OnePerBMC(w)
    ensures OnePerBMC(Apply(w, s)) <==> Gentle(w, s)
  {
    SingleExactly(ByBMC, w, s);
    if s.TakeNext? {
      StartedAt(w, s);
    }
  }

  lemma SingleInitially(a: Aspect, tr: seq<World>, steps: seq<Step>)
    requires Run(tr, steps)
    ensures Single(a, tr[0]) && Occupied(a, tr[0]) == {} && tr[0].core.processing == map[]
  {
    var maxOps, maxQueue, clock :| tr[0] == Init(maxOps, maxQueue, clock);
  }

  lemma OnePerBMCAt(tr: seq<World>, steps: seq<Step>, k: nat)
    requires Run(tr, steps) && k < |steps| && OnePerBMC(tr[k])
    ensures OnePerBMC(tr[k + 1]) <==> Gentle(tr[k], steps[k])
  {
    assert Moves(tr, steps, k);
    GentleIsExact(tr[k], steps[k]);
  }

  /** A run keeps one operation per BMC throughout exactly if all its steps are gentle. */
  lemma {:induction false} GentleRunsExactly(tr: seq<World>, steps: seq<Step>, k: nat)
    requires Run(tr, steps) && k < |tr|
    ensures (forall i | 0 <= i <= k :: OnePerBMC(tr[i])) <==> (forall i | 0 <= i < k :: Gentle(tr[i], steps[i]))
  {
    if k == 0 {
      SingleInitially(ByBMC, tr, steps);
    } else {
      GentleRunsExactly(tr, steps, k - 1);
      if OnePerBMC(tr[k - 1]) {
        OnePerBMCAt(tr, steps, k - 1);
      }
    }
  }

  // ----- callers that keep to one operation per BMC

  predicate QueuedOn(w: World, bmc: string) {
    exists i | 0 <= i < |w.core.queue| :: w.core.queue[i].bmc == bmc
  }

  /** A caller submits a request or asks for a permit on a BMC only when it has neither a
      queued request nor an operation under way. */
  predicate Considerate(w: World, s: Step) {
    match s
    case Submit(_, bmc, _, _) => !QueuedOn(w, bmc) && bmc !in Occupied(ByBMC, w)
    case TryAcquire(_, _, bmc, _) => !QueuedOn(w, bmc) && bmc !in Occupied(ByBMC, w)
    case _ => true
  }

  /** Queued BMCs are pairwise different, and none is occupied. */
  predicate ApartByBMC(q: seq<Request>, occupied: set<string>) {
    && (forall i, j | 0 <= i < j < |q| :: q[i].bmc != q[j].bmc)
    && (forall i | 0 <= i < |q| :: q[i].bmc !in occupied)
  }

  lemma RemoveKeepsApart(q: seq<Request>, i: nat, occupied: set<string>)
    requires ApartByBMC(q, occupied) && i < |q|
    ensures ApartByBMC(Remove(q, i), occupied + {q[i].bmc})
  {
    var q' := Remove(q, i);
    assert forall j | 0 <= j < |q'| :: q'[j] == if j < i then q[j] else q[j + 1];
  }

  /** After the step, queued BMCs are apart from each other and from what is then occupied. */
  predicate LeavesApart(w: World, s: Step)
    requires Enabled(w, s)
  {
    ApartByBMC(Apply(w, s).core.queue, Occupied(ByBMC, w) + Begun(ByBMC, w, s))
  }

  lemma AppendKeepsApart(q: seq<Request>, r: Request, occupied: set<string>)
    requires ApartByBMC(q, occupied) && r.bmc !in occupied && forall i | 0 <= i < |q| :: q[i].bmc != r.bmc
    ensures ApartByBMC(q + [r], occupied)
  {
  }

  lemma SubmitLeavesApart(w: World, s: Step)
    requires Enabled(w, s) && Considerate(w, s) && ApartByBMC(w.core.queue, Occupied(ByBMC, w)) && s.Submit?
    ensures Gentle(w, s) && LeavesApart(w, s)
  {
    var d := SubmitDecision(w.core, s.host, s.bmc, s.operation, s.nanos);
    if d.Accepted? {
      assert forall i | 0 <= i < |w.core.queue| :: w.core.queue[i].bmc != s.bmc;
      AppendKeepsApart(w.core.queue, d.request, Occupied(ByBMC, w));
    }
  }

  lemma AcquireLeavesApart(w: World, s: Step)
    requires Enabled(w, s) && Considerate(w, s) && ApartByBMC(w.core.queue, Occupied(ByBMC, w)) && s.TryAcquire?
    ensures Gentle(w, s) && LeavesApart(w, s)
  {
    assert Apply(w, s).core.queue == w.core.queue;
    assert forall i | 0 <= i < |w.core.queue| :: w.core.queue[i].bmc != s.bmc;
  }

  lemma TakeLeavesApart(w: World, s: Step)
    requires Enabled(w, s) && ApartByBMC(w.core.queue, Occupied(ByBMC, w)) && s.TakeNext?
    ensures Gentle(w, s) && LeavesApart(w, s)
  {
    var d := TakeDecision(w.core, s.readings);
    if d.Some? {
      RemoveKeepsApart(w.core.queue, d.value, Occupied(ByBMC, w));
    }
  }

  lemma OthersLeaveApart(w: World, s: Step)
    requires Enabled(w, s) && ApartByBMC(w.core.queue, Occupied(ByBMC, w))
    requires !s.Submit? && !s.TryAcquire? && !s.TakeNext?
    ensures Gentle(w, s) && LeavesApart(w, s)
  {
    if s.Cancel? && s.result.Removed? {
      RemoveKeepsApart(w.core.queue, s.result.index, Occupied(ByBMC, w));
    } else {
      assert Apply(w, s).core.queue == w.core.queue;
    }
  }

  lemma ConsiderateQueue(w: World, s: Step)
    requires Enabled(w, s) && Considerate(w, s) && ApartByBMC(w.core.queue, Occupied(ByBMC, w))
    ensures Gentle(w, s) && LeavesApart(w, s)
  {
    if s.Submit? {
      SubmitLeavesApart(w, s);
    } else if s.TryAcquire? {
      AcquireLeavesApart(w, s);
    } else if s.TakeNext? {
      TakeLeavesApart(w, s);
    } else {
      OthersLeaveApart(w, s);
    }
  }

  lemma OccupiedGrowsByBegun(a: Aspect, w: World, s: Step)
    requires Enabled(w, s) && Single(a, w)
    ensures Occupied(a, Apply(w, s)) <= Occupied(a, w) + Begun(a, w, s)
  {
    match s
    case TryAcquire(_, _, _, _) => AcquireOccupies(a, w, s);
    case TakeNext(_, _, _) => TakeOccupies(a, w, s);
    case Release(_, _, _, _, _) => ReleaseFrees(a, w, s);
    case Finish(_, _) => FinishFrees(a, w, s);
    case _ => OthersOccupyNothing(a, w, s);
  }

  lemma ConsiderateAt(tr: seq<World>, steps: seq<Step>, k: nat)
    requires k < |steps| < |tr| && Moves(tr, steps, k) && Considerate(tr[k], steps[k])
    requires OnePerBMC(tr[k]) && ApartByBMC(tr[k].core.queue, Occupied(ByBMC, tr[k]))
    ensures OnePerBMC(tr[k + 1]) && ApartByBMC(tr[k + 1].core.queue, Occupied(ByBMC, tr[k + 1]))
  {
    ConsiderateQueue(tr[k], steps[k]);
    GentleIsExact(tr[k], steps[k]);
    OccupiedGrowsByBegun(ByBMC, tr[k], steps[k]);
  }

  /** With considerate callers no BMC ever has two operations under way. */
  lemma {:induction false} ConsiderateCallersSuffice(tr: seq<World>, steps: seq<Step>, k: nat)
    requires Run(tr, steps) && k < |tr|
    requires forall i | 0 <= i < k :: Considerate(tr[i], steps[i])
    ensures OnePerBMC(tr[k]) && ApartByBMC(tr[k].core.queue, Occupied(ByBMC, tr[k]))
  {
    if k == 0 {
      SingleInitially(ByBMC, tr, steps);
      var maxOps, maxQueue, clock :| tr[0] == Init(maxOps, maxQueue, clock);
    } else {
      ConsiderateCallersSuffice(tr, steps, k - 1);
      ConsiderateAt(tr, steps, k - 1);
    }
  }
}
