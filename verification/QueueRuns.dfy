/**
Runs of the provisioning queue. A step is one lock-held block, one channel operation of a
worker, or one move of Start and Stop; any number of callers and workers interleave freely,
so a run is any sequence of enabled steps from the empty queue.
*/
module QueueRuns {
  import opened Clock
  import opened Options
  import opened Sequences
  import opened QueueModel

  /** `Busy` is a worker between getNextRequest and the bookkeeping that ends its request;
      `Sending` one that still has to offer the result. */
  datatype Phase = Idle | Busy(req: Request) | Sending(req: Request) | Exited

  datatype SendOutcome = Sent | ContextDone | Blocked

  /** A permit that was handed out to a caller: for a host, on a BMC. */
  datatype Permit = Permit(caller: nat, host: string, bmc: string)

  /** `permits` holds the permits handed out and not released; `slots` the
      requests whose one-place result channel is full. `completed` and `cancelled` record
      what became of the requests that left the queue. */
  datatype World = World(core: Core, clock: Time, workers: seq<Phase>, permits: multiset<Permit>,
                         cancelled: set<int>, completed: set<int>, slots: set<int>, stopClosed: bool)

  /** A release gives no permit back, it only names a host and a BMC; `ended` is the operation
      of the caller that it ends, if the caller has one on that host. */
  datatype Step =
    | Submit(host: string, bmc: string, operation: string, nanos: int)
    | TryAcquire(caller: nat, host: string, bmc: string, now: Time)
    | Release(caller: nat, host: string, bmc: string, now: Time, ended: Option<Permit>)
    | TakeNext(worker: nat, readings: seq<Time>, now: Time)
    | Finish(worker: nat, now: Time)
    | Send(worker: nat, outcome: SendOutcome)
    | Receive(tag: int)
    | Cancel(id: string, result: CancelOutcome)
    | StartWorkers(n: nat)
    | WorkerExit(worker: nat)
    | CloseStop
    | StopReturn

  function Init(maxOps: int, maxQueue: int, clock: Time): World {
    World(Fresh(maxOps, maxQueue), clock, [], multiset{}, {}, {}, {}, false)
  }

  /** The clock never runs backwards, neither between steps nor within a scan. */
  predicate ReadInOrder(readings: seq<Time>, from: Time, to: Time) {
    && from <= to
    && (forall i | 0 <= i < |readings| :: from <= readings[i] <= to)
    && (forall i, j | 0 <= i < j < |readings| :: readings[i] <= readings[j])
  }

  predicate HasPermit(w: World, caller: nat, host: string) {
    exists p | p in w.permits :: p.caller == caller && p.host == host
  }

  predicate Enabled(w: World, s: Step) {
    match s
    case Submit(_, _, _, _) => true
    case TryAcquire(_, _, _, now) => w.clock <= now
    case Release(caller, host, _, now, ended) =>
      && w.clock <= now
      && if HasPermit(w, caller, host)
         then ended.Some? && ended.value in w.permits && ended.value.caller == caller && ended.value.host == host
         else ended.None?
    case TakeNext(i, readings, now) =>
      i < |w.workers| && w.workers[i].Idle? && |readings| == |w.core.queue| && ReadInOrder(readings, w.clock, now)
    case Finish(i, now) => i < |w.workers| && w.workers[i].Busy? && w.clock <= now
    case Send(i, o) =>
      && i < |w.workers| && w.workers[i].Sending?
      && (o.Sent? ==> w.workers[i].req.tag !in w.slots)
      && (o.Blocked? ==> w.workers[i].req.tag in w.slots)
    case Receive(t) => t in w.slots
    case Cancel(id, o) => CancelCan(w.core, id, o)
    case StartWorkers(_) => true
    case WorkerExit(i) => i < |w.workers| && w.workers[i].Idle?
    case CloseStop => !w.stopClosed
    case StopReturn => w.stopClosed && forall i | 0 <= i < |w.workers| :: w.workers[i].Exited?
  }

  function Take(w: World, i: nat, readings: seq<Time>, now: Time): World
    requires Enabled(w, TakeNext(i, readings, now))
  {
    var w' := w.(core := AfterTake(w.core, readings), clock := now);
    match TakeDecision(w.core, readings)
    case None => w'
    case Some(k) => w'.(workers := w.workers[i := Busy(w.core.queue[k])])
  }

  function Apply(w: World, s: Step): World
    requires Enabled(w, s)
  {
    match s
    case Submit(host, bmc, op, nanos) => w.(core := AfterSubmit(w.core, host, bmc, op, nanos))
    case TryAcquire(caller, host, bmc, now) =>
      w.(core := AfterAcquire(w.core, host, bmc, now), clock := now,
         permits := if AcquireDecision(w.core, host, bmc, now).Wait? then w.permits
                    else w.permits + multiset{Permit(caller, host, bmc)})
    case Release(_, host, bmc, now, ended) =>
      w.(core := FreeAndStamp(w.core, host, bmc, now), clock := now,
         permits := if ended.Some? then w.permits - multiset{ended.value} else w.permits)
    case TakeNext(i, readings, now) => Take(w, i, readings, now)
    case Finish(i, now) =>
      var r := w.workers[i].req;
      w.(core := FreeAndStamp(w.core, r.host, r.bmc, now), clock := now,
         workers := w.workers[i := Sending(r)], completed := w.completed + {r.tag})
    case Send(i, o) =>
      w.(workers := w.workers[i := Idle],
         slots := if o.Sent? then w.slots + {w.workers[i].req.tag} else w.slots)
    case Receive(t) => w.(slots := w.slots - {t})
    case Cancel(id, o) =>
      w.(core := AfterCancel(w.core, o),
         cancelled := if o.Removed? && o.index < |w.core.queue| then w.cancelled + {w.core.queue[o.index].tag}
                      else w.cancelled)
    case StartWorkers(n) => w.(workers := w.workers + seq(n, _ => Idle))
    case WorkerExit(i) => w.(workers := w.workers[i := Exited])
    case CloseStop => w.(stopClosed := true)
    case StopReturn => w
  }

  ghost predicate Run(tr: seq<World>, steps: seq<Step>) {
    && |tr| == |steps| + 1
    && (exists maxOps, maxQueue, clock :: tr[0] == Init(maxOps, maxQueue, clock))
    && (forall i | 0 <= i < |steps| :: Moves(tr, steps, i))
  }

  predicate Moves(tr: seq<World>, steps: seq<Step>, i: nat)
    requires i < |steps| < |tr|
  {
    Enabled(tr[i], steps[i]) && tr[i + 1] == Apply(tr[i], steps[i])
  }

  lemma Extend(tr: seq<World>, steps: seq<Step>, s: Step) returns (tr': seq<World>, steps': seq<Step>)
    requires Run(tr, steps) && Enabled(tr[|steps|], s)
    ensures tr' == tr + [Apply(tr[|steps|], s)] && steps' == steps + [s] && Run(tr', steps')
  {
    tr', steps' := tr + [Apply(tr[|steps|], s)], steps + [s];
    assert tr'[0] == tr[0];
    forall i | 0 <= i < |steps'| ensures Moves(tr', steps', i) {
      if i < |steps| {
        assert Moves(tr, steps, i);
      }
    }
  }

  // ----- the invariant

  function QueuedTags(q: seq<Request>): set<int> {
    set r | r in q :: r.tag
  }

  function BusyTags(ws: seq<Phase>): set<int> {
    set i | 0 <= i < |ws| && ws[i].Busy? :: ws[i].req.tag
  }

  function Tags(n: nat): (ts: set<int>)
    ensures forall t :: t in ts <==> 0 <= t < n
  {
    if n == 0 then {} else Tags(n - 1) + {n - 1}
  }

  predicate Holds(p: Phase) {
    p.Busy? || p.Sending?
  }

  /** The queue is in submission order. */
  predicate Ordered(c: Core) {
    && (forall i | 0 <= i < |c.queue| :: 0 <= c.queue[i].tag < c.next)
    && (forall i, j | 0 <= i < j < |c.queue| :: c.queue[i].tag < c.queue[j].tag)
  }

  /** Every accepted request is in exactly one place. */
  predicate Partition(w: World) {
    && QueuedTags(w.core.queue) + BusyTags(w.workers) + w.cancelled + w.completed == Tags(w.core.next)
    && QueuedTags(w.core.queue) !! BusyTags(w.workers) !! w.cancelled !! w.completed
  }

  /** No request is held by two workers; one being sent is complete and its slot is empty. */
  predicate Custody(w: World) {
    && (forall i, j | 0 <= i < j < |w.workers| && Holds(w.workers[i]) && Holds(w.workers[j]) ::
          w.workers[i].req.tag != w.workers[j].req.tag)
    && (forall i | 0 <= i < |w.workers| && w.workers[i].Sending? ::
          w.workers[i].req.tag in w.completed && w.workers[i].req.tag !in w.slots)
    && w.slots <= w.completed
  }

  predicate Genuine(r: Request) {
    r.hasCancel && r.id != "" && r.tag >= 0
  }

  /** Submitted requests can be cancelled; only permit reservations cannot. */
  predicate Cancellable(c: Core) {
    && (forall i | 0 <= i < |c.queue| :: Genuine(c.queue[i]))
    && (forall h | h in c.processing ::
          Genuine(c.processing[h]) || c.processing[h] == Reservation(h, c.processing[h].bmc))
  }

  predicate WithinLimits(c: Core) {
    && (|c.queue| == 0 || |c.queue| <= c.maxQueue)
    && (|c.processing| == 0 || |c.processing| <= c.maxOps)
  }

  predicate Inv(w: World) {
    Ordered(w.core) && Partition(w) && Custody(w) && Cancellable(w.core) && WithinLimits(w.core)
  }

  // ----- edits of the queue and of the worker table

  lemma RemoveKeepsOrder(c: Core, i: nat)
    requires Ordered(c) && i < |c.queue|
    ensures Ordered(c.(queue := Remove(c.queue, i)))
  {
  }

  lemma RemoveTags(c: Core, i: nat)
    requires Ordered(c) && i < |c.queue|
    ensures QueuedTags(Remove(c.queue, i)) == QueuedTags(c.queue) - {c.queue[i].tag}
  {
  }

  lemma AppendTags(q: seq<Request>, r: Request)
    ensures QueuedTags(q + [r]) == QueuedTags(q) + {r.tag}
  {
  }

  lemma NewBusy(ws: seq<Phase>, i: nat, r: Request)
    requires i < |ws| && !ws[i].Busy?
    ensures BusyTags(ws[i := Busy(r)]) == BusyTags(ws) + {r.tag}
  {
    var ws' := ws[i := Busy(r)];
    assert ws'[i].Busy? && ws'[i].req.tag == r.tag;
    forall j | 0 <= j < |ws| && ws[j].Busy? ensures ws[j].req.tag in BusyTags(ws') {
      assert ws'[j] == ws[j];
    }
  }

  lemma NoLongerBusy(ws: seq<Phase>, i: nat, p: Phase)
    requires i < |ws| && ws[i].Busy? && !p.Busy?
    requires forall j | 0 <= j < |ws| && j != i && ws[j].Busy? :: ws[j].req.tag != ws[i].req.tag
    ensures BusyTags(ws[i := p]) == BusyTags(ws) - {ws[i].req.tag}
  {
    var ws' := ws[i := p];
    forall j | 0 <= j < |ws| && j != i && ws[j].Busy? ensures ws[j].req.tag in BusyTags(ws') {
      assert ws'[j] == ws[j];
    }
  }

  lemma StillBusy(ws: seq<Phase>, ws': seq<Phase>)
    requires |ws| <= |ws'|
    requires forall i | 0 <= i < |ws| :: ws'[i] == ws[i] || (!ws[i].Busy? && !ws'[i].Busy?)
    requires forall i | |ws| <= i < |ws'| :: !ws'[i].Busy?
    ensures BusyTags(ws') == BusyTags(ws)
  {
  }

  // ----- every step keeps the invariant

  lemma NewTag(w: World, r: Request)
    requires Partition(w) && r.tag == w.core.next
    ensures Partition(w.(core := w.core.(queue := w.core.queue + [r], next := w.core.next + 1)))
  {
  }

  lemma AppendKeepsCore(c: Core, r: Request)
    requires Ordered(c) && Cancellable(c) && WithinLimits(c) && |c.queue| < c.maxQueue && r.tag == c.next && Genuine(r)
    ensures var c' := c.(queue := c.queue + [r], next := c.next + 1);
            Ordered(c') && Cancellable(c') && WithinLimits(c')
  {
  }

  lemma AcceptedIsGenuine(c: Core, host: string, bmc: string, operation: string, nanos: int)
    ensures var d := SubmitDecision(c, host, bmc, operation, nanos);
            d.Accepted? ==> Genuine(d.request) && d.request.tag == c.next && |c.queue| < c.maxQueue
  {
  }

  lemma AcceptKeeps(w: World, r: Request)
    requires Inv(w) && Genuine(r) && r.tag == w.core.next && |w.core.queue| < w.core.maxQueue
    ensures Inv(w.(core := w.core.(queue := w.core.queue + [r], next := w.core.next + 1)))
  {
    NewTag(w, r);
    AppendKeepsCore(w.core, r);
  }

  lemma SubmitKeeps(w: World, s: Step)
    requires Inv(w) && s.Submit?
    ensures Inv(Apply(w, s))
  {
    var d := SubmitDecision(w.core, s.host, s.bmc, s.operation, s.nanos);
    AcceptedIsGenuine(w.core, s.host, s.bmc, s.operation, s.nanos);
    if d.Accepted? {
      AcceptKeeps(w, d.request);
    }
  }

  lemma AcquireKeepsCore(c: Core, host: string, bmc: string, now: Time)
    requires Cancellable(c) && WithinLimits(c)
    ensures Cancellable(AfterAcquire(c, host, bmc, now)) && WithinLimits(AfterAcquire(c, host, bmc, now))
  {
  }

  lemma AcquireKeeps(w: World, s: Step)
    requires Inv(w) && s.TryAcquire? && Enabled(w, s)
    ensures Inv(Apply(w, s))
  {
    AcquireKeepsCore(w.core, s.host, s.bmc, s.now);
  }

  lemma FreeKeepsLimits(c: Core, host: string, bmc: string, now: Time)
    requires Cancellable(c) && WithinLimits(c)
    ensures Cancellable(FreeAndStamp(c, host, bmc, now)) && WithinLimits(FreeAndStamp(c, host, bmc, now))
  {
  }

  lemma StartKeeps(w: World, i: nat, k: nat, now: Time)
    requires Inv(w) && i < |w.workers| && w.workers[i].Idle? && k < |w.core.queue| && !SlotsFull(w.core)
    ensures var r := w.core.queue[k];
            Inv(w.(core := w.core.(queue := Remove(w.core.queue, k), processing := w.core.processing[r.host := r]),
                   clock := now, workers := w.workers[i := Busy(r)]))
  {
    var r := w.core.queue[k];
    assert r.tag in QueuedTags(w.core.queue);
    RemoveTags(w.core, k);
    RemoveKeepsOrder(w.core, k);
    NewBusy(w.workers, i, r);
    TakeKeepsCustody(w, i, r);
    TakeKeepsCore(w.core, k);
  }

  lemma TakeKeeps(w: World, s: Step)
    requires Inv(w) && s.TakeNext? && Enabled(w, s)
    ensures Inv(Apply(w, s))
  {
    var d := TakeDecision(w.core, s.readings);
    if d.Some? {
      StartKeeps(w, s.worker, d.value, s.now);
    }
  }

  lemma TakeKeepsCustody(w: World, i: nat, r: Request)
    requires Partition(w) && Custody(w) && i < |w.workers| && w.workers[i].Idle?
    requires r.tag in QueuedTags(w.core.queue)
    ensures Custody(w.(workers := w.workers[i := Busy(r)]))
  {
  }

  lemma TakeKeepsCore(c: Core, i: nat)
    requires Cancellable(c) && WithinLimits(c) && i < |c.queue| && !SlotsFull(c)
    ensures var c' := c.(queue := Remove(c.queue, i), processing := c.processing[c.queue[i].host := c.queue[i]]);
            Cancellable(c') && WithinLimits(c')
  {
  }

  lemma FinishKeeps(w: World, s: Step)
    requires Inv(w) && s.Finish? && Enabled(w, s)
    ensures Inv(Apply(w, s))
  {
    var r := w.workers[s.worker].req;
    assert r.tag in BusyTags(w.workers);
    NoLongerBusy(w.workers, s.worker, Sending(r));
    FreeKeepsLimits(w.core, r.host, r.bmc, s.now);
  }

  lemma DropKeeps(w: World, k: nat)
    requires Inv(w) && k < |w.core.queue|
    ensures Inv(w.(core := w.core.(queue := Remove(w.core.queue, k)), cancelled := w.cancelled + {w.core.queue[k].tag}))
  {
    RemoveTags(w.core, k);
    RemoveKeepsOrder(w.core, k);
    assert w.core.queue[k].tag in QueuedTags(w.core.queue);
  }

  lemma CancelKeeps(w: World, s: Step)
    requires Inv(w) && s.Cancel? && Enabled(w, s)
    ensures Inv(Apply(w, s))
  {
    if s.result.Removed? {
      DropKeeps(w, s.result.index);
    }
  }

  lemma WorkerMoveKeeps(w: World, s: Step)
    requires Inv(w) && (s.Send? || s.Receive? || s.StartWorkers? || s.WorkerExit? || s.CloseStop? || s.StopReturn?)
    requires Enabled(w, s)
    ensures Inv(Apply(w, s))
  {
    StillBusy(w.workers, Apply(w, s).workers);
  }

  lemma StepKeeps(w: World, s: Step)
    requires Inv(w) && Enabled(w, s)
    ensures Inv(Apply(w, s))
  {
    match s
    case Submit(_, _, _, _) => SubmitKeeps(w, s);
    case TryAcquire(_, _, _, _) => AcquireKeeps(w, s);
    case Release(_, h, b, now, _) => FreeKeepsLimits(w.core, h, b, now);
    case TakeNext(_, _, _) => TakeKeeps(w, s);
    case Finish(_, _) => FinishKeeps(w, s);
    case Cancel(_, _) => CancelKeeps(w, s);
    case _ => WorkerMoveKeeps(w, s);
  }

  lemma InvKept(tr: seq<World>, steps: seq<Step>, k: nat)
    requires k < |steps| < |tr| && Moves(tr, steps, k) && Inv(tr[k])
    ensures Inv(tr[k + 1])
  {
    StepKeeps(tr[k], steps[k]);
  }

  lemma {:induction false} InvHolds(tr: seq<World>, steps: seq<Step>, k: nat)
    requires Run(tr, steps) && k < |tr|
    ensures Inv(tr[k])
  {
    if k == 0 {
    } else {
      InvHolds(tr, steps, k - 1);
      InvKept(tr, steps, k - 1);
    }
  }
}
