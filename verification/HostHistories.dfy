/**
The history of one host: how its stored value follows from the edits committed to it. Every
run projects to such a history for every host, and what controllers promise about a host is
proved here of all histories.
*/
module HostHistories {
  import opened Options
  import opened Hardware
  import opened HostModel
  import opened HostRuns

  predicate Legal(scan: Scanner, h: Option<Host>, e: Option<Edit>, h': Option<Host>) {
    match e
    case None => h' == h
    case Some(x) => Possible(scan, h, x) && h' == Edited(scan, h, x)
  }

  /** `hs[i]` is the host before edit `es[i]`, if it exists; some positions have no edit. */
  predicate History(scan: Scanner, hs: seq<Option<Host>>, es: seq<Option<Edit>>) {
    && |hs| == |es| + 1
    && hs[0] == None
    && forall i | 0 <= i < |es| :: LegalAt(scan, hs, es, i)
  }

  predicate LegalAt(scan: Scanner, hs: seq<Option<Host>>, es: seq<Option<Edit>>, i: nat)
    requires i < |es| < |hs|
  {
    Legal(scan, hs[i], es[i], hs[i + 1])
  }

  function EditOn(scan: Scanner, sv: Server, s: Step, key: Key): Option<Edit> {
    if Enabled(sv, s) && Commit(scan, sv, s).Some? && Commit(scan, sv, s).value.0 == key
    then Some(Commit(scan, sv, s).value.1)
    else None
  }

  function HostsOf(tr: seq<Server>, key: Key): seq<Option<Host>> {
    seq(|tr|, i requires 0 <= i < |tr| => Lookup(tr[i], key))
  }

  function EditsOf(scan: Scanner, tr: seq<Server>, steps: seq<Step>, key: Key): seq<Option<Edit>>
    requires |tr| == |steps| + 1
  {
    seq(|steps|, i requires 0 <= i < |steps| => EditOn(scan, tr[i], steps[i], key))
  }

  lemma StepIsLegal(scan: Scanner, tr: seq<Server>, steps: seq<Step>, i: nat, key: Key)
    requires i < |steps| < |tr| && MovesAt(scan, tr, steps, i) && Versioned(tr[i])
    ensures Legal(scan, Lookup(tr[i], key), EditOn(scan, tr[i], steps[i], key), Lookup(tr[i + 1], key))
  {
    StepIsAtomic(scan, tr[i], steps[i]);
  }

  /** Every run, however stale the copies its controllers read, is for each host a history of
      edits made at one instant each. */
  lemma RunIsHistory(scan: Scanner, tr: seq<Server>, steps: seq<Step>, key: Key)
    requires Run(scan, tr, steps)
    ensures History(scan, HostsOf(tr, key), EditsOf(scan, tr, steps, key))
  {
    var hs, es := HostsOf(tr, key), EditsOf(scan, tr, steps, key);
    forall i | 0 <= i < |es| ensures LegalAt(scan, hs, es, i) {
      VersionedHolds(scan, tr, steps, i);
      StepIsLegal(scan, tr, steps, i, key);
    }
  }

  // ----- status coherence

  predicate InState(h: Option<Host>, s: State) {
    h.Some? && h.value.status.state == s
  }

  /** The error message is set exactly in state Error; a host in a working state is marked
      ready; an inspection has a start time; a complete inspection has a report. */
  predicate Coherent(st: Status) {
    && (st.errorMessage != "" <==> st.state == Error)
    && (st.state in {Available, InUse, Inspecting, Ready} ==> st.ready)
    && st.state in {StateNone, Available, InUse, Inspecting, Ready, Error}
    && (st.state == Inspecting ==> st.stamp.Some? && st.phase in {Booting, Complete})
    && (st.phase == Complete ==> st.report.Some?)
  }

  lemma ObservingKeepsCoherent(h: Host, o: Observation)
    requires Coherent(h.status)
    ensures Coherent(Observed(h, o))
  {
  }

  lemma EditKeepsCoherent(scan: Scanner, hs: seq<Option<Host>>, es: seq<Option<Edit>>, i: nat)
    requires History(scan, hs, es) && i < |es| && (hs[i].Some? ==> Coherent(hs[i].value.status))
    ensures hs[i + 1].Some? ==> Coherent(hs[i + 1].value.status)
  {
    assert LegalAt(scan, hs, es, i);
    if es[i].Some? {
      match es[i].value
      case Observe(o) => ObservingKeepsCoherent(hs[i].value, o);
      case Expire(_, text) => assert ("Inspection timeout after " + text)[0] == 'I';
      case _ =>
    }
  }

  lemma {:induction false} StatusCoherent(scan: Scanner, hs: seq<Option<Host>>, es: seq<Option<Edit>>, k: nat)
    requires History(scan, hs, es) && k < |hs|
    ensures hs[k].Some? ==> Coherent(hs[k].value.status)
  {
    if k == 0 {
    } else {
      StatusCoherent(scan, hs, es, k - 1);
      EditKeepsCoherent(scan, hs, es, k - 1);
    }
  }

  /** A pass of the host reconciler fails exactly if the BMC or its credentials fail; a pass
      that reaches the BMC makes an unclaimed host Available and a claimed one InUse, except
      that it leaves a claim already at work as it is. No pass touches the inspection. */
  lemma ObservationSettles(h: Host, o: Observation)
    requires Coherent(h.status)
    ensures Observed(h, o).state == Error <==> !o.Connected?
    ensures o.Connected? ==> Observed(h, o).ready && Observed(h, o).errorMessage == ""
    ensures o.Connected? ==> (Observed(h, o).state == Available <==> h.consumer.None?)
    ensures o.Connected? && h.consumer.Some? ==>
              Observed(h, o).state == if h.status.state in {InUse, Inspecting, Ready} then h.status.state else InUse
    ensures Observed(h, o).report == h.status.report && Observed(h, o).phase == h.status.phase
            && Observed(h, o).stamp == h.status.stamp
  {
  }

  // ----- evidence for Ready

  predicate IsTrigger(e: Option<Edit>) { e.Some? && e.value.Trigger? }
  predicate IsReport(e: Option<Edit>) { e.Some? && e.value.StoreReport? }
  predicate IsValidate(e: Option<Edit>) { e.Some? && e.value.Validate? }

  /** The host was triggered by edit `a` and has been Inspecting ever since, up to `k`. */
  predicate InspectingSince(hs: seq<Option<Host>>, es: seq<Option<Edit>>, a: nat, k: nat)
    requires |hs| == |es| + 1 && k < |hs|
  {
    && a < k && IsTrigger(es[a]) && InState(hs[a], InUse)
    && forall j | a < j <= k ::
         InState(hs[j], Inspecting) && hs[j].value.status.stamp == Some(StoredTime(es[a].value.now))
  }

  /** Edit `b` stored the report that the host has at `k`, after `a`, and no later one did. */
  predicate ReportedBy(hs: seq<Option<Host>>, es: seq<Option<Edit>>, a: nat, b: nat, k: nat)
    requires |hs| == |es| + 1 && k < |hs|
  {
    && a < b < k && IsReport(es[b]) && (forall j | b < j < k :: !IsReport(es[j]))
    && hs[k].Some? && hs[k].value.status.report == Some(StoredReport(es[b].value.posted, es[b].value.now))
  }

  /** The host reconciler neither starts an inspection nor touches one under way. */
  lemma ObservingInspecting(h: Host, o: Observation)
    requires Observed(h, o).state == Inspecting
    ensures h.status.state == Inspecting
    ensures Observed(h, o).stamp == h.status.stamp && Observed(h, o).phase == h.status.phase
            && Observed(h, o).report == h.status.report
  {
  }

  lemma IntoInspecting(scan: Scanner, hs: seq<Option<Host>>, es: seq<Option<Edit>>, i: nat)
    requires History(scan, hs, es) && i < |es| && InState(hs[i + 1], Inspecting)
    ensures var st, e := hs[i + 1].value.status, es[i];
            if IsTrigger(e) then
              InState(hs[i], InUse) && st.phase == Booting && st.stamp == Some(StoredTime(e.value.now))
            else
              && InState(hs[i], Inspecting) && st.stamp == hs[i].value.status.stamp
              && if IsReport(e) then st.report == Some(StoredReport(e.value.posted, e.value.now))
                 else st.report == hs[i].value.status.report && st.phase == hs[i].value.status.phase
  {
    assert LegalAt(scan, hs, es, i);
    if es[i].Some? {
      match es[i].value
      case Observe(o) => ObservingInspecting(hs[i].value, o);
      case _ =>
    }
  }

  lemma {:induction false} TriggeredBefore(scan: Scanner, hs: seq<Option<Host>>, es: seq<Option<Edit>>, k: nat)
    returns (a: nat)
    requires History(scan, hs, es) && k < |hs| && InState(hs[k], Inspecting)
    ensures InspectingSince(hs, es, a, k)
  {
    IntoInspecting(scan, hs, es, k - 1);
    if IsTrigger(es[k - 1]) {
      a := k - 1;
    } else {
      a := TriggeredBefore(scan, hs, es, k - 1);
    }
  }

  lemma {:induction false} ReportedBefore(scan: Scanner, hs: seq<Option<Host>>, es: seq<Option<Edit>>, a: nat, k: nat)
    returns (b: nat)
    requires History(scan, hs, es) && k < |hs| && InspectingSince(hs, es, a, k) && hs[k].value.status.phase == Complete
    ensures ReportedBy(hs, es, a, b, k)
  {
    IntoInspecting(scan, hs, es, k - 1);
    if IsReport(es[k - 1]) {
      b := k - 1;
      if a == k - 1 { assert false; }
    } else {
      if a == k - 1 { assert false; }
      b := ReportedBefore(scan, hs, es, a, k - 1);
    }
  }

  /** The validation at `c` rests on a trigger at `a` and on the latest report at `b`, both of
      the same inspection, and was made in time. */
  predicate Evidence(scan: Scanner, hs: seq<Option<Host>>, es: seq<Option<Edit>>, a: nat, b: nat, c: nat)
    requires |hs| == |es| + 1 && c < |es|
  {
    && InspectingSince(hs, es, a, c)
    && ReportedBy(hs, es, a, b, c)
    && IsValidate(es[c])
    && Check(scan, es[c].value.requirements, StoredReport(es[b].value.posted, es[b].value.now)) == Passed
    && es[c].value.now - StoredTime(es[a].value.now) <= INSPECTION_TIMEOUT
  }

  /** A validation in time, of a complete inspection whose report passes. */
  predicate AboutToPass(scan: Scanner, h: Option<Host>, e: Edit) {
    && e.Validate? && InState(h, Inspecting) && !TimedOut(h.value.status, e.now)
    && h.value.status.phase == Complete && h.value.status.report.Some?
    && Check(scan, e.requirements, h.value.status.report.value) == Passed
  }

  lemma ObservingReady(h: Host, o: Observation)
    requires Observed(h, o).state == Ready
    ensures h.status.state == Ready
  {
  }

  lemma IntoReady(scan: Scanner, hs: seq<Option<Host>>, es: seq<Option<Edit>>, i: nat)
    requires History(scan, hs, es) && i < |es| && InState(hs[i + 1], Ready)
    ensures InState(hs[i], Ready) || (IsValidate(es[i]) && AboutToPass(scan, hs[i], es[i].value))
  {
    assert LegalAt(scan, hs, es, i);
    if es[i].Some? {
      match es[i].value
      case Observe(o) => ObservingReady(hs[i].value, o);
      case _ =>
    }
  }

  /** Whenever a host is Ready, it has been since a validation, and that validation rests on
      an inspection of its own. */
  lemma {:induction false} FreshEvidence(scan: Scanner, hs: seq<Option<Host>>, es: seq<Option<Edit>>, k: nat)
    returns (a: nat, b: nat, c: nat)
    requires History(scan, hs, es) && k < |hs| && InState(hs[k], Ready)
    ensures c < k && Evidence(scan, hs, es, a, b, c)
    ensures forall j | c < j <= k :: InState(hs[j], Ready)
  {
    IntoReady(scan, hs, es, k - 1);
    if !InState(hs[k - 1], Ready) {
      c := k - 1;
      a := TriggeredBefore(scan, hs, es, c);
      b := ReportedBefore(scan, hs, es, a, c);
    } else {
      a, b, c := FreshEvidence(scan, hs, es, k - 1);
    }
  }

  // ----- reports

  predicate ExistsThroughout(hs: seq<Option<Host>>, i: nat, j: nat)
    requires j < |hs|
  {
    forall m | i <= m <= j :: hs[m].Some?
  }

  lemma ObservingKeepsReport(h: Host, o: Observation)
    ensures Observed(h, o).report == h.status.report
  {
  }

  lemma EditAndReport(scan: Scanner, hs: seq<Option<Host>>, es: seq<Option<Edit>>, i: nat)
    requires History(scan, hs, es) && i < |es| && hs[i + 1].Some?
    ensures var report := hs[i + 1].value.status.report;
            if IsReport(es[i]) then hs[i].Some? && report == Some(StoredReport(es[i].value.posted, es[i].value.now))
            else if hs[i].None? then report.None?
            else report == hs[i].value.status.report
  {
    assert LegalAt(scan, hs, es, i);
    if es[i].Some? {
      match es[i].value
      case Observe(o) => ObservingKeepsReport(hs[i].value, o);
      case _ =>
    }
  }

  /** A report once stored is kept until the next one, whatever else is written. */
  lemma {:induction false} ReportKept(scan: Scanner, hs: seq<Option<Host>>, es: seq<Option<Edit>>, i: nat, k: nat)
    requires History(scan, hs, es) && i < k < |hs| && IsReport(es[i])
    requires ExistsThroughout(hs, i + 1, k) && forall j | i < j < k :: !IsReport(es[j])
    ensures hs[k].value.status.report == Some(StoredReport(es[i].value.posted, es[i].value.now))
  {
    EditAndReport(scan, hs, es, k - 1);
    if i == k - 1 {
    } else {
      ReportKept(scan, hs, es, i, k - 1);
    }
  }

  /** The stored report is the one most recently stored. */
  lemma {:induction false} ReportIsLatest(scan: Scanner, hs: seq<Option<Host>>, es: seq<Option<Edit>>, k: nat)
    returns (i: nat)
    requires History(scan, hs, es) && k < |hs| && hs[k].Some? && hs[k].value.status.report.Some?
    ensures i < k && IsReport(es[i]) && ExistsThroughout(hs, i, k) && forall j | i < j < k :: !IsReport(es[j])
    ensures hs[k].value.status.report == Some(StoredReport(es[i].value.posted, es[i].value.now))
  {
    EditAndReport(scan, hs, es, k - 1);
    if IsReport(es[k - 1]) {
      i := k - 1;
    } else {
      i := ReportIsLatest(scan, hs, es, k - 1);
    }
  }

  /** A host that has a report has one as long as it exists. */
  lemma {:induction false} ReportStays(scan: Scanner, hs: seq<Option<Host>>, es: seq<Option<Edit>>, i: nat, k: nat)
    requires History(scan, hs, es) && i <= k < |hs| && ExistsThroughout(hs, i, k) && hs[i].value.status.report.Some?
    ensures hs[k].value.status.report.Some?
  {
    if i == k {
    } else {
      ReportStays(scan, hs, es, i, k - 1);
      EditAndReport(scan, hs, es, k - 1);
    }
  }

  // ----- claims

  /** While a host exists its consumer changes only from none to a claimant, and from a
      consumer to none by a release in that consumer's name or by hand. */
  lemma ConsumerChanges(scan: Scanner, hs: seq<Option<Host>>, es: seq<Option<Edit>>, i: nat)
    requires History(scan, hs, es) && i < |es| && hs[i].Some? && hs[i + 1].Some?
    requires hs[i + 1].value.consumer != hs[i].value.consumer
    ensures match hs[i].value.consumer
            case None => hs[i].value.status.state == Available && es[i] == Some(ClaimBy(hs[i + 1].value.consumer.value))
            case Some(r) => hs[i + 1].value.consumer.None? && (es[i] == Some(ReleaseBy(r.name)) || es[i] == Some(Clear))
  {
    assert LegalAt(scan, hs, es, i);
  }

  /** A committed claim is neither lost nor replaced: it stays until released in its
      consumer's name or by hand, or the host is gone. */
  lemma {:induction false} ClaimKept(scan: Scanner, hs: seq<Option<Host>>, es: seq<Option<Edit>>, i: nat, k: nat)
    requires History(scan, hs, es) && i <= k < |hs| && ExistsThroughout(hs, i, k) && hs[i].value.consumer.Some?
    requires forall j | i <= j < k :: es[j] != Some(ReleaseBy(hs[i].value.consumer.value.name)) && es[j] != Some(Clear)
    ensures hs[k].value.consumer == hs[i].value.consumer
  {
    if i == k {
    } else {
      ClaimKept(scan, hs, es, i, k - 1);
      if hs[k].value.consumer != hs[k - 1].value.consumer {
        ConsumerChanges(scan, hs, es, k - 1);
        assert false;
      }
    }
  }

  predicate IsRelease(e: Option<Edit>) { e.Some? && (e.value.ReleaseBy? || e.value.Clear?) }

  lemma ConsumerOfReady(scan: Scanner, hs: seq<Option<Host>>, es: seq<Option<Edit>>, i: nat)
    requires History(scan, hs, es) && i < |es| && InState(hs[i + 1], Ready)
    requires InState(hs[i], Ready) || IsValidate(es[i])
    ensures hs[i].Some?
    ensures hs[i + 1].value.consumer == if IsRelease(es[i]) then None else hs[i].value.consumer
  {
    assert LegalAt(scan, hs, es, i);
  }

  /** From its validation on, while a host is Ready, it keeps its consumer exactly if none is
      released, and it never gets another. */
  lemma {:induction false} ConsumerWhileReady(scan: Scanner, hs: seq<Option<Host>>, es: seq<Option<Edit>>, c: nat,
                                              k: nat)
    requires History(scan, hs, es) && c < k < |hs| && IsValidate(es[c])
    requires forall j | c < j <= k :: InState(hs[j], Ready)
    ensures hs[c].Some? && hs[k].Some?
    ensures if forall j | c < j < k :: !IsRelease(es[j]) then hs[k].value.consumer == hs[c].value.consumer
            else hs[k].value.consumer.None?
  {
    ConsumerOfReady(scan, hs, es, k - 1);
    if c + 1 == k {
    } else {
      ConsumerWhileReady(scan, hs, es, c, k - 1);
    }
  }
}
