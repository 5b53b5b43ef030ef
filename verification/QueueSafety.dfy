/**
What holds in every run of the provisioning queue: no request is lost or processed twice,
the order of service, the cooldown between operations on one BMC, the result slot,
cancellation and shutdown.
*/
module QueueSafety {
  import opened Clock
  import opened Options
  import opened Sequences
  import opened QueueModel
  import opened QueueRuns

  // ----- conservation

  function One(b: bool): nat {
    if b then 1 else 0
  }

  /** At every point of every run each accepted request is in exactly one place: queued once,
      in flight with one worker, cancelled out of the queue, or completed. */
  lemma Conservation(tr: seq<World>, steps: seq<Step>, k: nat, t: int)
    requires Run(tr, steps) && k < |tr|
    ensures var w := tr[k];
            One(t in QueuedTags(w.core.queue)) + One(t in BusyTags(w.workers))
            + One(t in w.cancelled) + One(t in w.completed)
            == One(0 <= t < w.core.next)
    ensures forall i, j | 0 <= i < j < |tr[k].core.queue| :: tr[k].core.queue[i].tag != tr[k].core.queue[j].tag
    ensures forall i, j | 0 <= i < j < |tr[k].workers| && Holds(tr[k].workers[i]) && Holds(tr[k].workers[j]) ::
              tr[k].workers[i].req.tag != tr[k].workers[j].req.tag
  {
    InvHolds(tr, steps, k);
    var w := tr[k];
    assert t in Tags(w.core.next) <==>
           t in QueuedTags(w.core.queue) || t in BusyTags(w.workers) || t in w.cancelled || t in w.completed;
  }

  /** The request that a step starts, if any. */
  function Started(w: World, s: Step): Option<Request> {
    if s.TakeNext? && |s.readings| == |w.core.queue| && TakeDecision(w.core, s.readings).Some?
    then Some(w.core.queue[TakeDecision(w.core, s.readings).value])
    else None
  }

  /** A scan with these readings starts the request at `j`: slots are free, all before it is
      cooling and it is not. */
  predicate Starts(c: Core, readings: seq<Time>, j: nat)
    requires |readings| == |c.queue|
  {
    && j < |c.queue| && !SlotsFull(c) && !Cooling(c, c.queue[j].bmc, readings[j])
    && forall m | 0 <= m < j :: Cooling(c, c.queue[m].bmc, readings[m])
  }

  lemma StartsMeans(c: Core, readings: seq<Time>, j: nat)
    requires |readings| == |c.queue|
    ensures Starts(c, readings, j) <==> TakeDecision(c, readings) == Some(j)
  {
  }

  /** What has left the queue stays out, and what was cancelled or completed stays so. */
  predicate NoneBack(w: World, w': World, t: int) {
    && (t < w.core.next ==> t < w'.core.next)
    && (t < w.core.next && t !in QueuedTags(w.core.queue) ==> t !in QueuedTags(w'.core.queue))
    && w.cancelled <= w'.cancelled
    && w.completed <= w'.completed
  }

  lemma StepBringsNoneBack(tr: seq<World>, steps: seq<Step>, k: nat, t: int)
    requires Run(tr, steps) && k < |steps|
    ensures NoneBack(tr[k], tr[k + 1], t)
  {
    InvHolds(tr, steps, k);
    var w, s := tr[k], steps[k];
    assert Moves(tr, steps, k);
    match s {
      case Submit(host, bmc, op, nanos) =>
        var d := SubmitDecision(w.core, host, bmc, op, nanos);
        if d.Accepted? { AppendTags(w.core.queue, d.request); }
      case TakeNext(_, readings, _) =>
        var d := TakeDecision(w.core, readings);
        if d.Some? { RemoveTags(w.core, d.value); }
      case Cancel(_, o) =>
        if o.Removed? { RemoveTags(w.core, o.index); }
      case _ =>
    }
  }

  lemma {:induction false} NothingComesBack(tr: seq<World>, steps: seq<Step>, i: nat, j: nat, t: int)
    requires Run(tr, steps) && i <= j < |tr|
    ensures NoneBack(tr[i], tr[j], t)
  {
    if i == j {
    } else {
      NothingComesBack(tr, steps, i, j - 1, t);
      StepBringsNoneBack(tr, steps, j - 1, t);
    }
  }

  /** No request is started twice. */
  lemma NotStartedTwice(tr: seq<World>, steps: seq<Step>, i: nat, j: nat)
    requires Run(tr, steps) && i < j < |steps|
    requires Started(tr[i], steps[i]).Some? && Started(tr[j], steps[j]).Some?
    ensures Started(tr[i], steps[i]).value.tag != Started(tr[j], steps[j]).value.tag
  {
    assert Moves(tr, steps, i);
    InvHolds(tr, steps, i);
    var d := TakeDecision(tr[i].core, steps[i].readings);
    RemoveTags(tr[i].core, d.value);
    NothingComesBack(tr, steps, i + 1, j, tr[i].core.queue[d.value].tag);
    var d' := TakeDecision(tr[j].core, steps[j].readings);
    assert tr[j].core.queue[d'.value].tag in QueuedTags(tr[j].core.queue);
  }

  // ----- order

  /** Queued and held requests are the accepted ones, unaltered. */
  predicate Unaltered(w: World, subs: seq<Request>) {
    && |subs| == w.core.next
    && (forall i | 0 <= i < |w.core.queue| ::
          0 <= w.core.queue[i].tag < |subs| && w.core.queue[i] == subs[w.core.queue[i].tag])
    && (forall i | 0 <= i < |w.workers| && Holds(w.workers[i]) ::
          0 <= w.workers[i].req.tag < |subs| && w.workers[i].req == subs[w.workers[i].req.tag])
  }

  function Accepting(w: World, s: Step, subs: seq<Request>): seq<Request> {
    if s.Submit? && SubmitDecision(w.core, s.host, s.bmc, s.operation, s.nanos).Accepted?
    then subs + [SubmitDecision(w.core, s.host, s.bmc, s.operation, s.nanos).request]
    else subs
  }

  /** The requests accepted in the first `k` steps, in order. */
  function Submissions(tr: seq<World>, steps: seq<Step>, k: nat): seq<Request>
    requires k <= |steps| < |tr|
  {
    if k == 0 then [] else Accepting(tr[k - 1], steps[k - 1], Submissions(tr, steps, k - 1))
  }

  lemma RemoveAltersNothing(w: World, k: nat, subs: seq<Request>)
    requires Unaltered(w, subs) && k < |w.core.queue|
    ensures Unaltered(w.(core := w.core.(queue := Remove(w.core.queue, k))), subs)
  {
  }

  lemma TakeAltersNothing(w: World, i: nat, readings: seq<Time>, now: Time, subs: seq<Request>)
    requires Enabled(w, TakeNext(i, readings, now)) && Unaltered(w, subs)
    ensures Unaltered(Take(w, i, readings, now), subs)
  {
  }

  lemma AcceptAltersNothing(w: World, r: Request, subs: seq<Request>)
    requires Unaltered(w, subs) && r.tag == w.core.next
    ensures Unaltered(w.(core := w.core.(queue := w.core.queue + [r], next := w.core.next + 1)), subs + [r])
  {
  }

  lemma SubmitAltersNothing(w: World, s: Step, subs: seq<Request>)
    requires s.Submit? && Unaltered(w, subs)
    ensures Unaltered(Apply(w, s), Accepting(w, s, subs))
  {
    var d := SubmitDecision(w.core, s.host, s.bmc, s.operation, s.nanos);
    if d.Accepted? {
      AcceptAltersNothing(w, d.request, subs);
    }
  }

  lemma CancelAltersNothing(w: World, s: Step, subs: seq<Request>)
    requires Enabled(w, s) && s.Cancel? && Unaltered(w, subs)
    ensures Unaltered(Apply(w, s), subs)
  {
    if s.result.Removed? {
      RemoveAltersNothing(w, s.result.index, subs);
    }
  }

  lemma OthersAlterNothing(w: World, s: Step, subs: seq<Request>)
    requires Enabled(w, s) && !s.Submit? && !s.TakeNext? && !s.Cancel? && Unaltered(w, subs)
    ensures Unaltered(Apply(w, s), subs)
  {
    var w' := Apply(w, s);
    assert w'.core.queue == w.core.queue && w'.core.next == w.core.next;
    assert forall i | 0 <= i < |w'.workers| && Holds(w'.workers[i]) ::
        i < |w.workers| && Holds(w.workers[i]) && w'.workers[i].req == w.workers[i].req;
  }

  lemma StepAltersNothing(w: World, s: Step, subs: seq<Request>)
    requires Enabled(w, s) && Unaltered(w, subs)
    ensures Unaltered(Apply(w, s), Accepting(w, s, subs))
  {
    match s
    case Submit(_, _, _, _) => SubmitAltersNothing(w, s, subs);
    case TakeNext(i, readings, now) => TakeAltersNothing(w, i, readings, now, subs);
    case Cancel(_, _) => CancelAltersNothing(w, s, subs);
    case _ => OthersAlterNothing(w, s, subs);
  }

  lemma UnalteredAt(tr: seq<World>, steps: seq<Step>, k: nat)
    requires k < |steps| < |tr| && Moves(tr, steps, k) && Unaltered(tr[k], Submissions(tr, steps, k))
    ensures Unaltered(tr[k + 1], Submissions(tr, steps, k + 1))
  {
    StepAltersNothing(tr[k], steps[k], Submissions(tr, steps, k));
  }

  /** The queue at every point is a subsequence of the accepted requests, and workers hold
      accepted requests unaltered. */
  lemma {:induction false} QueueIsSubsequence(tr: seq<World>, steps: seq<Step>, k: nat)
    requires Run(tr, steps) && k < |tr|
    ensures Unaltered(tr[k], Submissions(tr, steps, k))
    ensures forall i, j | 0 <= i < j < |tr[k].core.queue| :: tr[k].core.queue[i].tag < tr[k].core.queue[j].tag
  {
    InvHolds(tr, steps, k);
    if k == 0 {
    } else {
      QueueIsSubsequence(tr, steps, k - 1);
      UnalteredAt(tr, steps, k - 1);
    }
  }

  /** A started request overtakes an earlier one still queued only if the earlier one's BMC
      was cooling when this very scan looked at it; and a scan starts nothing exactly when
      the slots are full or every queued request was cooling when looked at. */
  lemma ServiceOrder(tr: seq<World>, steps: seq<Step>, k: nat)
    requires Run(tr, steps) && k < |steps| && steps[k].TakeNext?
    ensures var c, rs := tr[k].core, steps[k].readings;
            && |rs| == |c.queue|
            && (Started(tr[k], steps[k]).Some? ==>
                  forall i | 0 <= i < |c.queue| && c.queue[i].tag < Started(tr[k], steps[k]).value.tag ::
                    Cooling(c, c.queue[i].bmc, rs[i]))
            && (Started(tr[k], steps[k]).None? <==>
                  SlotsFull(c) || forall i | 0 <= i < |c.queue| :: Cooling(c, c.queue[i].bmc, rs[i]))
  {
    assert Moves(tr, steps, k);
    InvHolds(tr, steps, k);
  }

  // ----- cooldown

  /** The BMC that a step stamps, and the one it grants, with the times. */
  function Stamped(w: World, s: Step): Option<(string, Time)> {
    match s
    case Release(_, _, bmc, now, _) => Some((bmc, now))
    case Finish(i, now) => if i < |w.workers| && w.workers[i].Busy? then Some((w.workers[i].req.bmc, now)) else None
    case _ => None
  }

  function GrantedBMC(w: World, s: Step): Option<(string, Time)> {
    match s
    case TryAcquire(_, host, bmc, now) =>
      if AcquireDecision(w.core, host, bmc, now).Granted? then Some((bmc, now)) else None
    case TakeNext(_, _, now) =>
      if Started(w, s).Some? then Some((Started(w, s).value.bmc, now)) else None
    case _ => None
  }

  /** The recorded time of `b` is that of the latest stamp among the first `k` steps. */
  ghost predicate Latest(tr: seq<World>, steps: seq<Step>, k: nat, b: string)
    requires k <= |steps| < |tr|
  {
    var last := tr[k].core.last;
    && (b in last ==> last[b] <= tr[k].clock && exists i | 0 <= i < k :: Stamped(tr[i], steps[i]) == Some((b, last[b])))
    && (forall i, t | 0 <= i < k && Stamped(tr[i], steps[i]) == Some((b, t)) :: b in last && t <= last[b])
  }

  /** How a step moves the clock and the recorded times. */
  predicate StampEffect(w: World, s: Step, w': World) {
    && w'.core.cooldown == w.core.cooldown
    && w.clock <= w'.clock
    && match Stamped(w, s)
       case Some((b', now)) =>
         now == w'.clock && w'.core.last == w.core.last[b' := now]
       case None => w'.core.last == w.core.last
  }

  lemma StepStamps(w: World, s: Step)
    requires Enabled(w, s)
    ensures StampEffect(w, s, Apply(w, s))
  {
    if !s.Release? && !s.Finish? {
      assert Stamped(w, s).None?;
      assert Apply(w, s).core.last == w.core.last && Apply(w, s).core.cooldown == w.core.cooldown;
    }
  }

  /** The recorded time of a BMC is that of its latest stamp, if it has any. */
  lemma {:induction false} LastIsLatestStamp(tr: seq<World>, steps: seq<Step>, k: nat, b: string)
    requires Run(tr, steps) && k < |tr|
    ensures tr[k].core.cooldown == COOLDOWN && Latest(tr, steps, k, b)
  {
    if k == 0 {
    } else {
      LastIsLatestStamp(tr, steps, k - 1, b);
      assert Moves(tr, steps, k - 1);
      StepStamps(tr[k - 1], steps[k - 1]);
      LatestExtends(tr, steps, k, b);
    }
  }

  lemma LatestExtends(tr: seq<World>, steps: seq<Step>, k: nat, b: string)
    requires 0 < k <= |steps| < |tr| && Latest(tr, steps, k - 1, b)
    requires StampEffect(tr[k - 1], steps[k - 1], tr[k])
    ensures Latest(tr, steps, k, b)
  {
  }

  /** Every fresh grant on a BMC, to a permit or to a worker, comes at least a cooldown after
      every earlier release or completion on it. */
  lemma CooldownRespected(tr: seq<World>, steps: seq<Step>, i: nat, j: nat)
    requires Run(tr, steps) && i < j < |steps|
    requires Stamped(tr[i], steps[i]).Some? && GrantedBMC(tr[j], steps[j]).Some?
    requires Stamped(tr[i], steps[i]).value.0 == GrantedBMC(tr[j], steps[j]).value.0
    ensures GrantedBMC(tr[j], steps[j]).value.1 - Stamped(tr[i], steps[i]).value.1 >= 10_000_000_000
  {
    var b := Stamped(tr[i], steps[i]).value.0;
    LastIsLatestStamp(tr, steps, j, b);
    assert Moves(tr, steps, j);
    assert Stamped(tr[i], steps[i]).value.1 <= tr[j].core.last[b];
    if steps[j].TakeNext? {
      var k := TakeDecision(tr[j].core, steps[j].readings).value;
      assert !Cooling(tr[j].core, b, steps[j].readings[k]);
      assert steps[j].readings[k] <= steps[j].now;
    }
  }

  // ----- result slot, cancellation, limits

  /** The branch taken when a result cannot be delivered because the channel is full is
      never reached: in no reachable state is it enabled for any worker. */
  lemma ResultSlotNeverBlocks(tr: seq<World>, steps: seq<Step>, k: nat, i: nat)
    requires Run(tr, steps) && k < |tr|
    ensures !Enabled(tr[k], Send(i, Blocked))
    ensures i < |tr[k].workers| && tr[k].workers[i].Sending? ==> Enabled(tr[k], Send(i, Sent))
  {
    InvHolds(tr, steps, k);
  }

  /** Cancelling calls a missing cancel function exactly when the ID is empty and a permit is
      recorded; no non-empty ID ever does. */
  lemma CancelPanicsExactly(tr: seq<World>, steps: seq<Step>, k: nat, id: string)
    requires Run(tr, steps) && k < |tr|
    ensures CancelCan(tr[k].core, id, NilCall) <==>
            id == "" && exists h | h in tr[k].core.processing :: tr[k].core.processing[h].tag == NO_TAG
    ensures id != "" ==> !CancelCan(tr[k].core, id, NilCall)
  {
    InvHolds(tr, steps, k);
  }

  /** A permit on record is enough for that panic. */
  lemma CancelCanPanic() returns (tr: seq<World>, steps: seq<Step>)
    ensures Run(tr, steps) && CancelCan(tr[|steps|].core, "", NilCall) && Enabled(tr[|steps|], Cancel("", NilCall))
  {
    tr, steps := [Init(1, 1, 0)], [];
    tr, steps := Extend(tr, steps, TryAcquire(0, "h", "b", 0));
    assert tr[|steps|].core.processing["h"] == Reservation("h", "b");
  }

  /** Queue and processing map stay within their limits; a negative limit admits nothing. */
  lemma LimitsHold(tr: seq<World>, steps: seq<Step>, k: nat)
    requires Run(tr, steps) && k < |tr|
    ensures |tr[k].core.queue| <= if tr[k].core.maxQueue < 0 then 0 else tr[k].core.maxQueue
    ensures |tr[k].core.processing| <= if tr[k].core.maxOps < 0 then 0 else tr[k].core.maxOps
  {
    InvHolds(tr, steps, k);
  }

  // ----- shutdown

  predicate AllExited(w: World) {
    forall i | 0 <= i < |w.workers| :: w.workers[i].Exited?
  }

  lemma ExitedStayExited(tr: seq<World>, steps: seq<Step>, k: nat)
    requires k < |steps| < |tr| && Moves(tr, steps, k) && AllExited(tr[k]) && !steps[k].StartWorkers?
    ensures AllExited(tr[k + 1]) && tr[k + 1].completed == tr[k].completed && Started(tr[k], steps[k]).None?
  {
  }

  lemma StopWaits(tr: seq<World>, steps: seq<Step>, k: nat)
    requires k < |steps| < |tr| && Moves(tr, steps, k) && steps[k].StopReturn?
    ensures AllExited(tr[k])
  {
  }

  lemma {:induction false} StaysStopped(tr: seq<World>, steps: seq<Step>, k: nat, j: nat)
    requires Run(tr, steps) && k <= j < |tr| && k < |steps| && steps[k].StopReturn?
    requires forall i | k <= i < j :: !steps[i].StartWorkers?
    ensures AllExited(tr[j]) && tr[j].completed == tr[k].completed
  {
    if k == j {
      StopWaits(tr, steps, k);
    } else {
      StaysStopped(tr, steps, k, j - 1);
      ExitedStayExited(tr, steps, j - 1);
    }
  }

  lemma NoneBusy(w: World)
    requires AllExited(w) && Partition(w)
    ensures QueuedTags(w.core.queue) + w.cancelled + w.completed == Tags(w.core.next)
  {
  }

  /** After Stop has returned, and until workers are started again, no request is in flight,
      none is started, and each accepted one is queued, cancelled or completed. */
  lemma StopIsFinal(tr: seq<World>, steps: seq<Step>, k: nat, j: nat)
    requires Run(tr, steps) && k <= j < |tr| && k < |steps| && steps[k].StopReturn?
    requires forall i | k <= i < j :: !steps[i].StartWorkers?
    ensures AllExited(tr[j])
    ensures QueuedTags(tr[j].core.queue) + tr[j].cancelled + tr[j].completed == Tags(tr[j].core.next)
    ensures tr[j].completed == tr[k].completed
    ensures forall i | k <= i < j :: Started(tr[i], steps[i]).None?
  {
    StaysStopped(tr, steps, k, j);
    InvHolds(tr, steps, j);
    NoneBusy(tr[j]);
    forall i | k <= i < j ensures Started(tr[i], steps[i]).None? {
      StaysStopped(tr, steps, k, i);
      ExitedStayExited(tr, steps, i);
    }
  }
}
