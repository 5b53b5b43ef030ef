/**
How long a queued request can be passed over. Every stamp of its BMC while it waits is paid
for by a request that was ahead of it, by a permit release, or by a request that overtook it;
and overtaking needs a scan in the middle of which the cooldown ran out.
*/
module QueueWaiting {
  import opened Clock
  import opened Options
  import opened Sequences
  import opened QueueModel
  import opened QueueRuns
  import opened QueueSafety

  // ----- counting

  lemma {:induction false} SumIdle(n: nat, f: Phase -> int)
    requires f(Idle) == 0
    ensures Sum(seq(n, _ => Idle), f) == 0
  {
    if n == 0 {
    } else {
      SumIdle(n - 1, f);
      assert seq(n, _ => Idle)[..n - 1] == seq(n - 1, _ => Idle);
    }
  }

  /** How many of the steps `lo..hi` of a run have a property. */
  function Tally(tr: seq<World>, steps: seq<Step>, lo: nat, hi: nat, p: (World, Step) -> bool): nat
    requires lo <= hi <= |steps| < |tr|
    decreases hi - lo
  {
    if lo == hi then 0 else Tally(tr, steps, lo, hi - 1, p) + One(p(tr[hi - 1], steps[hi - 1]))
  }

  // ----- what stands before a request

  function Ahead(b: string, t: int): Request -> int {
    (r: Request) => One(r.bmc == b && r.tag < t)
  }

  function InFlight(b: string): Phase -> int {
    (p: Phase) => One(p.Busy? && p.req.bmc == b)
  }

  /** Requests on BMC `b` queued ahead of request `t`, and those in flight. */
  function Standing(w: World, b: string, t: int): int {
    Sum(w.core.queue, Ahead(b, t)) + Sum(w.workers, InFlight(b))
  }

  function Finishes(b: string): (World, Step) -> bool {
    (w: World, s: Step) => s.Finish? && Stamped(w, s).Some? && Stamped(w, s).value.0 == b
  }

  function Releases(b: string): (World, Step) -> bool {
    (w: World, s: Step) => s.Release? && s.bmc == b
  }

  function Stamps(b: string): (World, Step) -> bool {
    (w: World, s: Step) => Stamped(w, s).Some? && Stamped(w, s).value.0 == b
  }

  function CancelsAhead(b: string, t: int): (World, Step) -> bool {
    (w: World, s: Step) =>
      && s.Cancel? && s.result.Removed? && s.result.index < |w.core.queue|
      && w.core.queue[s.result.index].bmc == b && w.core.queue[s.result.index].tag < t
  }

  function StartsBehind(b: string, t: int): (World, Step) -> bool {
    (w: World, s: Step) => Started(w, s).Some? && Started(w, s).value.bmc == b && Started(w, s).value.tag >= t
  }

  // ----- the account of one step

  lemma SubmitAccount(w: World, s: Step, b: string, t: int)
    requires Enabled(w, s) && s.Submit? && t <= w.core.next
    ensures Standing(Apply(w, s), b, t) == Standing(w, b, t)
  {
  }

  lemma TakeAccount(w: World, s: Step, b: string, t: int)
    requires Enabled(w, s) && s.TakeNext?
    ensures Standing(Apply(w, s), b, t) == Standing(w, b, t) + One(StartsBehind(b, t)(w, s))
  {
    var d := TakeDecision(w.core, s.readings);
    if d.Some? {
      SumRemove(w.core.queue, d.value, Ahead(b, t));
      SumUpdate(w.workers, s.worker, Busy(w.core.queue[d.value]), InFlight(b));
    }
  }

  lemma FinishAccount(w: World, s: Step, b: string, t: int)
    requires Enabled(w, s) && s.Finish?
    ensures Standing(Apply(w, s), b, t) + One(Finishes(b)(w, s)) == Standing(w, b, t)
  {
    SumUpdate(w.workers, s.worker, Sending(w.workers[s.worker].req), InFlight(b));
  }

  lemma CancelAccount(w: World, s: Step, b: string, t: int)
    requires Enabled(w, s) && s.Cancel?
    ensures Standing(Apply(w, s), b, t) + One(CancelsAhead(b, t)(w, s)) == Standing(w, b, t)
  {
    if s.result.Removed? {
      SumRemove(w.core.queue, s.result.index, Ahead(b, t));
    }
  }

  lemma WorkersAccount(w: World, s: Step, b: string, t: int)
    requires Enabled(w, s) && (s.Send? || s.StartWorkers? || s.WorkerExit?)
    ensures Standing(Apply(w, s), b, t) == Standing(w, b, t)
  {
    match s
    case Send(i, _) => SumUpdate(w.workers, i, Idle, InFlight(b));
    case WorkerExit(i) => SumUpdate(w.workers, i, Exited, InFlight(b));
    case StartWorkers(n) =>
      SumConcat(w.workers, seq(n, _ => Idle), InFlight(b));
      SumIdle(n, InFlight(b));
  }

  lemma StepAccount(w: World, s: Step, b: string, t: int)
    requires Enabled(w, s) && t <= w.core.next
    ensures Standing(Apply(w, s), b, t) + One(Finishes(b)(w, s)) + One(CancelsAhead(b, t)(w, s))
            == Standing(w, b, t) + One(StartsBehind(b, t)(w, s))
  {
    match s
    case Submit(_, _, _, _) => SubmitAccount(w, s, b, t);
    case TakeNext(_, _, _) => TakeAccount(w, s, b, t);
    case Finish(_, _) => FinishAccount(w, s, b, t);
    case Cancel(_, _) => CancelAccount(w, s, b, t);
    case Send(_, _) => WorkersAccount(w, s, b, t);
    case StartWorkers(_) => WorkersAccount(w, s, b, t);
    case WorkerExit(_) => WorkersAccount(w, s, b, t);
    case _ =>
  }

  /** What stands before `t` at the end, plus the completions on its BMC and the
      cancellations ahead of it, is what stood before it at the start plus the starts on its
      BMC of requests not ahead of it. */
  ghost predicate Balanced(tr: seq<World>, steps: seq<Step>, lo: nat, hi: nat, b: string, t: int)
    requires lo <= hi <= |steps| < |tr|
  {
    Standing(tr[hi], b, t) + Tally(tr, steps, lo, hi, Finishes(b)) + Tally(tr, steps, lo, hi, CancelsAhead(b, t))
    == Standing(tr[lo], b, t) + Tally(tr, steps, lo, hi, StartsBehind(b, t))
  }

  lemma BalanceExtends(tr: seq<World>, steps: seq<Step>, lo: nat, k: nat, b: string, t: int)
    requires Run(tr, steps) && lo <= k < |steps| && t <= tr[k].core.next && Balanced(tr, steps, lo, k, b, t)
    ensures Balanced(tr, steps, lo, k + 1, b, t)
  {
    assert Moves(tr, steps, k);
    StepAccount(tr[k], steps[k], b, t);
  }

  lemma StaysAccepted(tr: seq<World>, steps: seq<Step>, lo: nat, hi: nat, t: int)
    requires Run(tr, steps) && lo <= hi < |tr| && t < tr[lo].core.next
    ensures t < tr[hi].core.next
  {
    NothingComesBack(tr, steps, lo, hi, t);
  }

  /** The account balances over any stretch of any run, for any request already accepted. */
  lemma {:induction false} WaitingAccount(tr: seq<World>, steps: seq<Step>, lo: nat, hi: nat, b: string, t: int)
    requires Run(tr, steps) && lo <= hi <= |steps| && t < tr[lo].core.next
    ensures Balanced(tr, steps, lo, hi, b, t)
  {
    if lo == hi {
    } else {
      WaitingAccount(tr, steps, lo, hi - 1, b, t);
      StaysAccepted(tr, steps, lo, hi - 1, t);
      BalanceExtends(tr, steps, lo, hi - 1, b, t);
    }
  }

  // ----- overtaking

  /** Within this one scan, `b` was cooling at one entry and no longer at a later one. */
  ghost predicate RunsOutDuring(w: World, s: Step, b: string) {
    && s.TakeNext? && |s.readings| == |w.core.queue|
    && exists i, j | 0 <= i < j < |w.core.queue| ::
         w.core.queue[i].bmc == b && w.core.queue[j].bmc == b
         && Cooling(w.core, b, s.readings[i]) && !Cooling(w.core, b, s.readings[j])
  }

  /** Request `t` on BMC `b` is waiting in the queue. */
  predicate Waits(w: World, b: string, t: int) {
    exists i | 0 <= i < |w.core.queue| :: w.core.queue[i].tag == t && w.core.queue[i].bmc == b
  }

  /** While `t` stays in the queue, only a scan during which the cooldown of its BMC runs out
      can start a later request on that BMC. */
  lemma OvertakingNeedsExpiry(tr: seq<World>, steps: seq<Step>, k: nat, b: string, t: int)
    requires Run(tr, steps) && k < |steps| && Waits(tr[k], b, t) && Waits(tr[k + 1], b, t)
    ensures StartsBehind(b, t)(tr[k], steps[k]) ==> RunsOutDuring(tr[k], steps[k], b)
  {
    if StartsBehind(b, t)(tr[k], steps[k]) {
      InvHolds(tr, steps, k);
      var w, s := tr[k], steps[k];
      assert Moves(tr, steps, k);
      var q, j := w.core.queue, TakeDecision(w.core, s.readings).value;
      var i :| 0 <= i < |q| && q[i].tag == t && q[i].bmc == b;
      RemoveTags(w.core, j);
      assert t in QueuedTags(tr[k + 1].core.queue);
      assert i < j;
    }
  }

  /** A scan with these readings starts a request on `b` that is behind index `i`. */
  ghost predicate PassesOver(c: Core, readings: seq<Time>, b: string, i: nat)
    requires |readings| == |c.queue|
  {
    exists j | i < j < |c.queue| :: c.queue[j].bmc == b && Starts(c, readings, j)
  }

  lemma PassesOverMeans(c: Core, readings: seq<Time>, b: string, i: nat)
    requires |readings| == |c.queue|
    ensures PassesOver(c, readings, b, i) <==>
            var d := TakeDecision(c, readings); d.Some? && d.value > i && c.queue[d.value].bmc == b
  {
    var d := TakeDecision(c, readings);
    if d.Some? {
      StartsMeans(c, readings, d.value);
    }
    if PassesOver(c, readings, b, i) {
      var j :| i < j < |c.queue| && c.queue[j].bmc == b && Starts(c, readings, j);
      StartsMeans(c, readings, j);
    }
  }

  lemma StartsBehindMeans(tr: seq<World>, steps: seq<Step>, k: nat, b: string, t: int, i: nat)
    requires Run(tr, steps) && k < |steps| && steps[k].TakeNext? && i < |tr[k].core.queue|
    requires tr[k].core.queue[i].tag == t && tr[k].core.queue[i].bmc == b && Waits(tr[k + 1], b, t)
    ensures |steps[k].readings| == |tr[k].core.queue|
    ensures StartsBehind(b, t)(tr[k], steps[k]) <==> PassesOver(tr[k].core, steps[k].readings, b, i)
  {
    InvHolds(tr, steps, k);
    assert Moves(tr, steps, k);
    PassesOverMeans(tr[k].core, steps[k].readings, b, i);
    var d := TakeDecision(tr[k].core, steps[k].readings);
    if d.Some? {
      RemoveTags(tr[k].core, d.value);
      assert t in QueuedTags(tr[k + 1].core.queue);
    }
  }

  lemma RisesOnlyByStarts(w: World, s: Step, b: string, t: int)
    requires Enabled(w, s) && t <= w.core.next
    ensures Standing(Apply(w, s), b, t) > Standing(w, b, t) <==> StartsBehind(b, t)(w, s)
  {
    StepAccount(w, s, b, t);
  }

  /** While `t` waits at index `i`, what stands before it rises at a step exactly when the step
      is a scan that passes over it. */
  lemma StandingRisesExactly(tr: seq<World>, steps: seq<Step>, k: nat, b: string, t: int, i: nat)
    requires Run(tr, steps) && k < |steps| && i < |tr[k].core.queue|
    requires tr[k].core.queue[i].tag == t && tr[k].core.queue[i].bmc == b && Waits(tr[k + 1], b, t)
    ensures Standing(tr[k + 1], b, t) > Standing(tr[k], b, t) <==>
            && steps[k].TakeNext? && |steps[k].readings| == |tr[k].core.queue|
            && PassesOver(tr[k].core, steps[k].readings, b, i)
  {
    InvHolds(tr, steps, k);
    assert Moves(tr, steps, k);
    RisesOnlyByStarts(tr[k], steps[k], b, t);
    if steps[k].TakeNext? {
      StartsBehindMeans(tr, steps, k, b, t, i);
    }
  }

  lemma {:induction false} NoOvertaking(tr: seq<World>, steps: seq<Step>, lo: nat, hi: nat, b: string, t: int)
    requires Run(tr, steps) && lo <= hi <= |steps|
    requires forall k | lo <= k <= hi :: Waits(tr[k], b, t)
    requires forall k | lo <= k < hi :: !RunsOutDuring(tr[k], steps[k], b)
    ensures Tally(tr, steps, lo, hi, StartsBehind(b, t)) == 0
  {
    if lo == hi {
    } else {
      NoOvertaking(tr, steps, lo, hi - 1, b, t);
      OvertakingNeedsExpiry(tr, steps, hi - 1, b, t);
    }
  }

  lemma {:induction false} StampsAreFinishesAndReleases(tr: seq<World>, steps: seq<Step>, lo: nat, hi: nat, b: string)
    requires lo <= hi <= |steps| < |tr|
    ensures Tally(tr, steps, lo, hi, Stamps(b))
            == Tally(tr, steps, lo, hi, Finishes(b)) + Tally(tr, steps, lo, hi, Releases(b))
  {
    if lo == hi {
    } else {
      StampsAreFinishesAndReleases(tr, steps, lo, hi - 1, b);
    }
  }

  /** Bounded waiting: while a request waits, and if no scan is caught by the cooldown of its
      BMC running out, that BMC is stamped at most as often as requests on it stood ahead or
      were in flight at the start, plus the permits released on it meanwhile; and what still
      stands before the request has shrunk by at least the number of completions. */
  lemma BoundedWaiting(tr: seq<World>, steps: seq<Step>, lo: nat, hi: nat, b: string, t: int)
    requires Run(tr, steps) && lo <= hi <= |steps|
    requires forall k | lo <= k <= hi :: Waits(tr[k], b, t)
    requires forall k | lo <= k < hi :: !RunsOutDuring(tr[k], steps[k], b)
    ensures Standing(tr[hi], b, t) + Tally(tr, steps, lo, hi, Finishes(b)) <= Standing(tr[lo], b, t)
    ensures Tally(tr, steps, lo, hi, Stamps(b)) <= Standing(tr[lo], b, t) + Tally(tr, steps, lo, hi, Releases(b))
  {
    InvHolds(tr, steps, lo);
    assert Waits(tr[lo], b, t);
    WaitingAccount(tr, steps, lo, hi, b, t);
    NoOvertaking(tr, steps, lo, hi, b, t);
    StampsAreFinishesAndReleases(tr, steps, lo, hi, b);
    SumOfNaturals(tr[hi].core.queue, Ahead(b, t));
    SumOfNaturals(tr[hi].workers, InFlight(b));
  }

  /** A scan that reads the clock once cannot be caught this way. */
  lemma OneReadingSuffices(w: World, s: Step, b: string)
    requires s.TakeNext? && forall i, j | 0 <= i < j < |s.readings| :: s.readings[i] == s.readings[j]
    ensures !RunsOutDuring(w, s, b)
  {
  }

  /** A queue with two requests waiting on a BMC that was stamped at time 0. */
  lemma TwoWaiting() returns (tr: seq<World>, steps: seq<Step>)
    ensures Run(tr, steps)
    ensures var w := tr[|steps|];
            && |w.core.queue| == 2 && w.core.queue[0].tag == 0 && w.core.queue[1].tag == 1
            && w.core.queue[0].bmc == w.core.queue[1].bmc == "b"
            && w.core.last == map["b" := 0] && w.core.cooldown == COOLDOWN
            && w.core.processing == map[] && w.core.maxOps == 1
            && w.workers == [Idle] && w.clock == 0
  {
    tr, steps := [Init(1, 2, 0)], [];
    tr, steps := Extend(tr, steps, StartWorkers(1));
    tr, steps := Extend(tr, steps, Release(0, "h", "b", 0, None));
    tr, steps := Extend(tr, steps, Submit("h0", "b", "claim", 0));
    tr, steps := Extend(tr, steps, Submit("h1", "b", "claim", 1));
  }

  /** With a reading per entry the bound can fail: here the second request on a BMC starts
      while the first, submitted earlier, is passed over, and the count before it rises. */
  lemma OvertakingHappens() returns (tr: seq<World>, steps: seq<Step>, k: nat)
    ensures Run(tr, steps) && k < |steps|
    ensures Waits(tr[k], "b", 0) && Waits(tr[k + 1], "b", 0) && Standing(tr[k + 1], "b", 0) > Standing(tr[k], "b", 0)
    ensures RunsOutDuring(tr[k], steps[k], "b")
  {
    tr, steps := TwoWaiting();
    k := |steps|;
    var w := tr[k];
    var s := TakeNext(0, [COOLDOWN - 1, COOLDOWN], COOLDOWN);
    tr, steps := Extend(tr, steps, s);
    assert Cooling(w.core, w.core.queue[0].bmc, s.readings[0]) && !Cooling(w.core, w.core.queue[1].bmc, s.readings[1]);
    assert Scan(w.core, s.readings, 0) == Scan(w.core, s.readings, 1) == 1;
    TakeAccount(w, s, "b", 0);
    assert tr[k + 1].core.queue[0] == w.core.queue[0];
  }
}
