/**
What every call of the queue answers, and what it leaves behind, at every step of every run: in
terms of the fields before the call alone.
*/
module QueueAnswers {
  import opened Clock
  import opened QueueModel
  import opened QueueRuns
  import opened QueueSafety

  /** The BMC was never stamped, or ten seconds ago or more. */
  predicate Rested(c: Core, bmc: string, reading: Time) {
    bmc in c.last ==> reading - c.last[bmc] >= 10_000_000_000
  }

  lemma RestedIsNotCooling(tr: seq<World>, steps: seq<Step>, k: nat)
    requires Run(tr, steps) && k < |tr|
    ensures forall bmc, t :: Rested(tr[k].core, bmc, t) <==> !Cooling(tr[k].core, bmc, t)
  {
    LastIsLatestStamp(tr, steps, k, "");
  }

  // ----- permits

  /** A caller is let in exactly if the host is being processed, or there is a free slot and the
      BMC has rested; in the second case, and only then, the host is recorded. */
  lemma AcquireAnswers(tr: seq<World>, steps: seq<Step>, k: nat)
    requires Run(tr, steps) && k < |steps| && steps[k].TryAcquire?
    ensures var s, c := steps[k], tr[k].core;
            var free := |c.processing| < c.maxOps && Rested(c, s.bmc, s.now);
            && tr[k + 1].permits == tr[k].permits
               + (if s.host in c.processing || free then multiset{Permit(s.caller, s.host, s.bmc)} else multiset{})
            && var entry := Request(-1, "", s.host, s.bmc, "", false);
               tr[k + 1].core == if s.host !in c.processing && free
                                 then c.(processing := c.processing[s.host := entry])
                                 else c
  {
    RestedIsNotCooling(tr, steps, k);
    assert Moves(tr, steps, k);
  }

  /** A release or a completion frees the host's entry and stamps the BMC, and that is all. */
  lemma EndingAnswers(tr: seq<World>, steps: seq<Step>, k: nat)
    requires Run(tr, steps) && k < |steps|
    ensures steps[k].Release? ==>
              var s, c := steps[k], tr[k].core;
              tr[k + 1].core == c.(processing := c.processing - {s.host}, last := c.last[s.bmc := s.now])
    ensures steps[k].Finish? ==>
              var s, c := steps[k], tr[k].core;
              && s.worker < |tr[k].workers| && tr[k].workers[s.worker].Busy?
              && var r := tr[k].workers[s.worker].req;
                 && tr[k + 1].core == c.(processing := c.processing - {r.host}, last := c.last[r.bmc := s.now])
                 && tr[k + 1].completed == tr[k].completed + {r.tag}
  {
    assert Moves(tr, steps, k);
  }

  /** A worker whose request is completed offers its result: sent, it fills the request's slot;
      either way the worker is idle again. Receiving empties the slot. Other steps of workers
      touch neither queue nor slots. */
  lemma HandOverAnswers(tr: seq<World>, steps: seq<Step>, k: nat)
    requires Run(tr, steps) && k < |steps|
    requires steps[k].Send? || steps[k].Receive? || steps[k].Finish? || steps[k].WorkerExit?
    ensures var s, w := steps[k], tr[k];
            match s
            case Send(i, o) =>
              && i < |w.workers| && w.workers[i].Sending?
              && tr[k + 1] == w.(workers := w.workers[i := Idle],
                                 slots := if o.Sent? then w.slots + {w.workers[i].req.tag} else w.slots)
            case Receive(t) => t in w.slots && tr[k + 1] == w.(slots := w.slots - {t})
            case Finish(i, _) =>
              && i < |w.workers| && w.workers[i].Busy?
              && tr[k + 1].workers == w.workers[i := Sending(w.workers[i].req)] && tr[k + 1].slots == w.slots
            case WorkerExit(i) =>
              i < |w.workers| && w.workers[i].Idle? && tr[k + 1] == w.(workers := w.workers[i := Exited])
  {
    assert Moves(tr, steps, k);
  }

  // ----- submission

  /** A request is accepted exactly if the queue has room and its host is not being processed;
      it is then queued last, with the fields of the call. */
  lemma SubmitAnswers(tr: seq<World>, steps: seq<Step>, k: nat)
    requires Run(tr, steps) && k < |steps| && steps[k].Submit?
    ensures var s, c := steps[k], tr[k].core;
            var id := s.host + "-" + s.operation + "-" + Decimal(s.nanos);
            tr[k + 1].core == if |c.queue| < c.maxQueue && s.host !in c.processing
                              then c.(queue := c.queue + [Request(c.next, id, s.host, s.bmc, s.operation, true)],
                                      next := c.next + 1)
                              else c
  {
    assert Moves(tr, steps, k);
  }

  /** Only submissions bring requests, in number as in the queue. */
  lemma OnlySubmitAccepts(tr: seq<World>, steps: seq<Step>, k: nat)
    requires Run(tr, steps) && k < |steps|
    ensures tr[k + 1].core.next > tr[k].core.next <==>
            steps[k].Submit? && |tr[k].core.queue| < tr[k].core.maxQueue && steps[k].host !in tr[k].core.processing
    ensures tr[k + 1].core.next in {tr[k].core.next, tr[k].core.next + 1}
  {
    assert Moves(tr, steps, k);
  }

  /** The number that a decimal text spells. */
  function Spelt(s: string): int
    requires forall i | 0 <= i < |s| :: '0' <= s[i] <= '9'
  {
    if s == "" then 0 else 10 * Spelt(s[..|s| - 1]) + (s[|s| - 1] as int - '0' as int)
  }

  lemma {:induction false} DigitsSpell(n: nat)
    ensures forall i | 0 <= i < |Digits(n)| :: '0' <= Digits(n)[i] <= '9'
    ensures Spelt(Digits(n)) == n
    decreases n
  {
    var d := "0123456789"[n % 10];
    assert d as int - '0' as int == n % 10;
    if n < 10 {
      assert Digits(n)[..0] == "";
    } else {
      DigitsSpell(n / 10);
      assert Digits(n) == Digits(n / 10) + [d] && Digits(n)[..|Digits(n)| - 1] == Digits(n / 10);
    }
  }

  /** The time in a request's ID can be read off it. */
  lemma DecimalSpells(n: int)
    ensures n >= 0 ==> (forall i | 0 <= i < |Decimal(n)| :: '0' <= Decimal(n)[i] <= '9') && Spelt(Decimal(n)) == n
    ensures n < 0 ==> Decimal(n)[0] == '-' && (forall i | 1 <= i < |Decimal(n)| :: '0' <= Decimal(n)[i] <= '9')
                      && Spelt(Decimal(n)[1..]) == -n
  {
    DigitsSpell(if n < 0 then -n else n);
    if n < 0 {
      assert Decimal(n)[1..] == Digits(-n);
    }
  }

  // ----- the next request

  /** Entry `i` is the first whose BMC has rested at its own reading. */
  predicate FirstRested(c: Core, readings: seq<Time>, i: nat)
    requires |readings| == |c.queue|
  {
    && i < |c.queue| && Rested(c, c.queue[i].bmc, readings[i])
    && forall j | 0 <= j < i :: !Rested(c, c.queue[j].bmc, readings[j])
  }

  lemma ScanStopsAt(c: Core, readings: seq<Time>, i: nat)
    requires |readings| == |c.queue| && (forall bmc, t :: Rested(c, bmc, t) <==> !Cooling(c, bmc, t))
    requires FirstRested(c, readings, i)
    ensures Scan(c, readings, 0) == i
  {
  }

  lemma TakeEffect(w: World, s: Step)
    requires Enabled(w, s) && s.TakeNext?
    ensures var i := Scan(w.core, s.readings, 0);
            if |w.core.processing| < w.core.maxOps && i < |w.core.queue| then
              var r := w.core.queue[i];
              && Apply(w, s).core == w.core.(queue := w.core.queue[..i] + w.core.queue[i + 1..],
                                             processing := w.core.processing[r.host := r])
              && Apply(w, s).workers == w.workers[s.worker := Busy(r)]
            else
              Apply(w, s).core == w.core && Apply(w, s).workers == w.workers
  {
  }

  /** With a free slot, a worker gets the first queued request whose BMC has rested, which moves
      from the queue to the map; without a slot or such a request it gets none, and nothing
      changes. */
  lemma TakeAnswers(tr: seq<World>, steps: seq<Step>, k: nat)
    requires Run(tr, steps) && k < |steps| && steps[k].TakeNext?
    ensures var s, c := steps[k], tr[k].core;
            && |s.readings| == |c.queue| && s.worker < |tr[k].workers|
            && (forall i | 0 <= i < |c.queue| && |c.processing| < c.maxOps && FirstRested(c, s.readings, i) ::
                  && tr[k + 1].core == c.(queue := c.queue[..i] + c.queue[i + 1..],
                                          processing := c.processing[c.queue[i].host := c.queue[i]])
                  && tr[k + 1].workers == tr[k].workers[s.worker := Busy(c.queue[i])])
            && ((|| |c.processing| >= c.maxOps
                 || forall i | 0 <= i < |c.queue| :: !Rested(c, c.queue[i].bmc, s.readings[i]))
                ==> tr[k + 1].core == c && tr[k + 1].workers == tr[k].workers)
  {
    RestedIsNotCooling(tr, steps, k);
    assert Moves(tr, steps, k);
    var s, c := steps[k], tr[k].core;
    TakeEffect(tr[k], s);
    forall i | 0 <= i < |c.queue| && FirstRested(c, s.readings, i) ensures Scan(c, s.readings, 0) == i {
      ScanStopsAt(c, s.readings, i);
    }
  }

  // ----- cancellation

  /** Entry `i` is the first in the queue with the ID. */
  predicate FirstNamed(q: seq<Request>, id: string, i: nat) {
    i < |q| && q[i].id == id && forall j | 0 <= j < i :: q[j].id != id
  }

  lemma SearchStopsAt(q: seq<Request>, id: string, i: nat)
    requires FirstNamed(q, id, i)
    ensures FirstWithId(q, id, 0) == i
  {
  }

  /** Cancelling the ID of a queued request removes the first that has it, and records that one
      as cancelled. */
  lemma CancelAnswers(tr: seq<World>, steps: seq<Step>, k: nat, i: nat)
    requires Run(tr, steps) && k < |steps| && steps[k].Cancel? && FirstNamed(tr[k].core.queue, steps[k].id, i)
    ensures var c := tr[k].core;
            && steps[k].result == Removed(i)
            && tr[k + 1].core == c.(queue := c.queue[..i] + c.queue[i + 1..])
            && tr[k + 1].cancelled == tr[k].cancelled + {c.queue[i].tag}
  {
    assert Moves(tr, steps, k);
    InvHolds(tr, steps, k);
    SearchStopsAt(tr[k].core.queue, steps[k].id, i);
  }

  /** Cancelling another ID leaves the queue alone, and reports it absent exactly if no entry of
      the map has it. */
  lemma CancelElsewhere(tr: seq<World>, steps: seq<Step>, k: nat)
    requires Run(tr, steps) && k < |steps| && steps[k].Cancel?
    requires forall i | 0 <= i < |tr[k].core.queue| :: tr[k].core.queue[i].id != steps[k].id
    ensures tr[k + 1] == tr[k]
    ensures steps[k].result == Absent <==>
            forall h | h in tr[k].core.processing :: tr[k].core.processing[h].id != steps[k].id
    ensures steps[k].result.Signalled? ==>
              steps[k].result.host in tr[k].core.processing
              && tr[k].core.processing[steps[k].result.host].id == steps[k].id
  {
    assert Moves(tr, steps, k);
  }

  /** Every request recorded as cancelled was the first in the queue with the ID given. */
  lemma OnlyCancelCancels(tr: seq<World>, steps: seq<Step>, k: nat, t: int) returns (i: nat)
    requires Run(tr, steps) && k < |steps| && t in tr[k + 1].cancelled && t !in tr[k].cancelled
    ensures steps[k].Cancel? && FirstNamed(tr[k].core.queue, steps[k].id, i) && tr[k].core.queue[i].tag == t
  {
    assert Moves(tr, steps, k);
    i := FirstWithId(tr[k].core.queue, steps[k].id, 0);
  }
}
