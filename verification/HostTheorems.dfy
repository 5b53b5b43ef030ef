/**
What holds in every run of the protocol, for any number of hosts and machines, any stale
copies and any failed writes.
*/
module HostTheorems {
  import opened Options
  import opened Hardware
  import opened HostModel
  import opened HostRuns
  import opened HostHistories

  // ----- which step makes which edit

  lemma EditSource(scan: Scanner, sv: Server, s: Step, key: Key)
    requires EditOn(scan, sv, s, key).Some?
    ensures match EditOn(scan, sv, s, key).value
            case Trigger(now) => s.HandleHost? && s.key == key && s.now == now
            case Validate(reqs, now) => s.HandleHost? && s.key == key && s.now == now && s.msnap.requirements == reqs
            case StoreReport(p, now) => s.PostReport? && s.key == key && s.posted == p && s.now == now
            case ClaimBy(ref) => s.ClaimHost? && ref == RefOf(s.mkey, s.msnap)
            case ReleaseBy(name) => s.ReleaseHost? && s.key == key && s.mkey.name == name && s.msnap.deleting
            case Clear => s.ClearConsumer? && s.key == key
            case _ => true
  {
  }

  function StateAt(sv: Server, key: Key): State {
    if key in sv.hosts then sv.hosts[key].host.status.state else StateNone
  }

  predicate InStateFrom(tr: seq<Server>, key: Key, lo: nat, hi: nat, s: State)
    requires hi < |tr|
  {
    forall j | lo <= j <= hi :: key in tr[j].hosts && tr[j].hosts[key].host.status.state == s
  }

  // ----- Ready

  /** Whenever a host is Ready: a machine triggered its inspection when it was InUse (step a);
      the inspection then lasted until the validation (step c), with a report posted to the
      handler in between (step b) and none later before the validation; that validation came
      within the timeout of the trigger, found the report to satisfy its machine's
      requirements, and the host has been Ready ever since. */
  lemma ReadyNeedsFreshEvidence(scan: Scanner, tr: seq<Server>, steps: seq<Step>, key: Key, k: nat)
    returns (a: nat, b: nat, c: nat)
    requires Run(scan, tr, steps) && k < |tr| && StateAt(tr[k], key) == Ready
    ensures a < b < c < k
    ensures IsTrigger(EditOn(scan, tr[a], steps[a], key)) && IsReport(EditOn(scan, tr[b], steps[b], key))
    ensures IsValidate(EditOn(scan, tr[c], steps[c], key))
    ensures steps[a].HandleHost? && steps[a].key == key && StateAt(tr[a], key) == InUse
    ensures steps[b].PostReport? && steps[b].key == key
    ensures steps[c].HandleHost? && steps[c].key == key
    ensures InStateFrom(tr, key, a + 1, c, Inspecting) && InStateFrom(tr, key, c + 1, k, Ready)
    ensures forall j | b < j < c :: !IsReport(EditOn(scan, tr[j], steps[j], key))
    ensures Check(scan, steps[c].msnap.requirements, StoredReport(steps[b].posted, steps[b].now)) == Passed
    ensures Meets(scan, steps[c].msnap.requirements, steps[b].posted) <==>
            !Underflows(scan, steps[c].msnap.requirements, steps[b].posted)
    ensures steps[c].now - steps[a].now <= 600_000_000_000
  {
    RunIsHistory(scan, tr, steps, key);
    var hs, es := HostsOf(tr, key), EditsOf(scan, tr, steps, key);
    assert InState(hs[k], Ready);
    a, b, c := FreshEvidence(scan, hs, es, k);
    EditSource(scan, tr[a], steps[a], key);
    EditSource(scan, tr[b], steps[b], key);
    EditSource(scan, tr[c], steps[c], key);
    EvidenceOnRun(scan, tr, steps, key, a, b, c, k);
    PassingMeansMeeting(scan, steps[c].msnap.requirements, steps[b].posted, StoredTime(steps[b].now));
  }

  lemma EvidenceOnRun(scan: Scanner, tr: seq<Server>, steps: seq<Step>, key: Key, a: nat, b: nat, c: nat, k: nat)
    requires |tr| == |steps| + 1 && c < k < |tr|
    requires Evidence(scan, HostsOf(tr, key), EditsOf(scan, tr, steps, key), a, b, c)
    requires forall j | c < j <= k :: InState(HostsOf(tr, key)[j], Ready)
    ensures InStateFrom(tr, key, a + 1, c, Inspecting) && InStateFrom(tr, key, c + 1, k, Ready)
    ensures forall j | b < j < c :: !IsReport(EditOn(scan, tr[j], steps[j], key))
  {
    var hs, es := HostsOf(tr, key), EditsOf(scan, tr, steps, key);
    forall j | a < j <= c ensures key in tr[j].hosts && tr[j].hosts[key].host.status.state == Inspecting {
      assert InState(hs[j], Inspecting);
    }
    forall j | c < j <= k ensures key in tr[j].hosts && tr[j].hosts[key].host.status.state == Ready {
      assert InState(hs[j], Ready);
    }
    forall j | b < j < c ensures !IsReport(EditOn(scan, tr[j], steps[j], key)) {
      assert !IsReport(es[j]);
    }
  }

  /** A host that was in Error or Available, or absent, and is Ready later has been through
      trigger, report and validation in between. */
  lemma EvidenceAfterSetback(scan: Scanner, tr: seq<Server>, steps: seq<Step>, key: Key, i: nat, k: nat)
    returns (a: nat, b: nat, c: nat)
    requires Run(scan, tr, steps) && i <= k < |tr| && StateAt(tr[k], key) == Ready
    requires StateAt(tr[i], key) != Inspecting && StateAt(tr[i], key) != Ready
    ensures i <= a < b < c < k
    ensures IsTrigger(EditOn(scan, tr[a], steps[a], key)) && IsReport(EditOn(scan, tr[b], steps[b], key))
    ensures IsValidate(EditOn(scan, tr[c], steps[c], key))
  {
    a, b, c := ReadyNeedsFreshEvidence(scan, tr, steps, key, k);
  }

  // ----- copies

  /** Every copy that a controller can hold was stored at some earlier point of the run. */
  lemma {:induction false} CopiesWereStored(scan: Scanner, tr: seq<Server>, steps: seq<Step>, k: nat, key: Key,
                                            snap: Stored)
    returns (j: nat)
    requires Run(scan, tr, steps) && k < |tr| && (key, snap) in tr[k].hostPast
    ensures j <= k && key in tr[j].hosts && tr[j].hosts[key] == snap
  {
    assert MovesAt(scan, tr, steps, k - 1);
    if (key, snap) in tr[k - 1].hostPast {
      j := CopiesWereStored(scan, tr, steps, k - 1, key, snap);
    } else {
      NewCopiesAreStored(scan, tr[k - 1], steps[k - 1], key, snap);
      j := k;
    }
  }

  lemma NewCopiesAreStored(scan: Scanner, sv: Server, s: Step, key: Key, snap: Stored)
    requires Enabled(sv, s) && (key, snap) in Apply(scan, sv, s).hostPast && (key, snap) !in sv.hostPast
    ensures key in Apply(scan, sv, s).hosts && Apply(scan, sv, s).hosts[key] == snap
  {
  }

  /** Stored hosts and stale copies alike are coherent; so the branch of the validation that
      waits for a missing report is never taken. */
  lemma CopiesAreCoherent(scan: Scanner, tr: seq<Server>, steps: seq<Step>, k: nat, key: Key, snap: Stored)
    requires Run(scan, tr, steps) && k < |tr| && (key, snap) in tr[k].hostPast
    ensures Coherent(snap.host.status)
  {
    var j := CopiesWereStored(scan, tr, steps, k, key, snap);
    RunIsHistory(scan, tr, steps, key);
    var hs, es := HostsOf(tr, key), EditsOf(scan, tr, steps, key);
    StatusCoherent(scan, hs, es, j);
    assert hs[j] == Some(snap.host);
  }

  // ----- claims

  function ConsumerAt(sv: Server, key: Key): Option<Ref> {
    if key in sv.hosts then sv.hosts[key].host.consumer else None
  }

  /** The consumer of a host that stays changes in two ways only: an available host without
      one is claimed by the machine it then names, or a consumer is dropped: by a user's hand, or
      by a pass on a copy, marked as being deleted, of a machine of the consumer's name. */
  lemma NoStolenClaim(scan: Scanner, tr: seq<Server>, steps: seq<Step>, k: nat, key: Key)
    requires Run(scan, tr, steps) && k < |steps| && key in tr[k].hosts && key in tr[k + 1].hosts
    requires ConsumerAt(tr[k], key) != ConsumerAt(tr[k + 1], key)
    ensures var s := steps[k];
            match ConsumerAt(tr[k], key)
            case None =>
              && s.ClaimHost? && StateAt(tr[k], key) == Available
              && ConsumerAt(tr[k + 1], key) == Some(RefOf(s.mkey, s.msnap))
            case Some(r) =>
              && ConsumerAt(tr[k + 1], key) == None
              && (|| s == ClearConsumer(key)
                  || (s.ReleaseHost? && s.key == key && s.mkey.name == r.name && s.msnap.deleting))
  {
    RunIsHistory(scan, tr, steps, key);
    var hs, es := HostsOf(tr, key), EditsOf(scan, tr, steps, key);
    ConsumerChanges(scan, hs, es, k);
    EditSource(scan, tr[k], steps[k], key);
  }

  /** From a committed claim on, as long as the host exists and neither a machine of the
      consumer's name nor a user releases it, the host names the same consumer. */
  lemma NoLostClaim(scan: Scanner, tr: seq<Server>, steps: seq<Step>, i: nat, k: nat, key: Key)
    requires Run(scan, tr, steps) && i <= k < |tr|
    requires forall j | i <= j <= k :: key in tr[j].hosts
    requires ConsumerAt(tr[i], key).Some?
    requires forall j | i <= j < k :: steps[j] != ClearConsumer(key)
    requires forall j | i <= j < k && steps[j].ReleaseHost? && steps[j].key == key ::
               steps[j].mkey.name != ConsumerAt(tr[i], key).value.name
    ensures ConsumerAt(tr[k], key) == ConsumerAt(tr[i], key)
  {
    RunIsHistory(scan, tr, steps, key);
    var hs, es := HostsOf(tr, key), EditsOf(scan, tr, steps, key);
    forall j | i <= j < k ensures es[j] != Some(ReleaseBy(hs[i].value.consumer.value.name)) && es[j] != Some(Clear) {
      if es[j].Some? {
        EditSource(scan, tr[j], steps[j], key);
      }
    }
    ClaimKept(scan, hs, es, i, k);
  }

  // ----- reports

  /** A report committed by the handler stays the stored one, through all concurrent writes of
      the whole status, until another is committed or the host is gone. */
  lemma NoLostReport(scan: Scanner, tr: seq<Server>, steps: seq<Step>, i: nat, k: nat, key: Key)
    requires Run(scan, tr, steps) && i < k < |tr|
    requires forall j | i < j <= k :: key in tr[j].hosts
    requires IsReport(EditOn(scan, tr[i], steps[i], key))
    requires forall j | i < j < k :: !IsReport(EditOn(scan, tr[j], steps[j], key))
    ensures steps[i].PostReport?
    ensures tr[k].hosts[key].host.status.report == Some(StoredReport(steps[i].posted, steps[i].now))
    ensures SameFields(steps[i].posted, tr[k].hosts[key].host.status.report.value)
  {
    ConvertedSays(steps[i].posted, StoredTime(steps[i].now));
    RunIsHistory(scan, tr, steps, key);
    EditSource(scan, tr[i], steps[i], key);
    ReportKept(scan, HostsOf(tr, key), EditsOf(scan, tr, steps, key), i, k);
  }

  /** And a stored report was committed by the handler, with none committed since. */
  lemma StoredReportWasPosted(scan: Scanner, tr: seq<Server>, steps: seq<Step>, k: nat, key: Key) returns (i: nat)
    requires Run(scan, tr, steps) && k < |tr| && key in tr[k].hosts && tr[k].hosts[key].host.status.report.Some?
    ensures i < k && steps[i].PostReport? && steps[i].key == key && IsReport(EditOn(scan, tr[i], steps[i], key))
    ensures tr[k].hosts[key].host.status.report == Some(StoredReport(steps[i].posted, steps[i].now))
    ensures SameFields(steps[i].posted, tr[k].hosts[key].host.status.report.value)
    ensures forall j | i < j < k :: !IsReport(EditOn(scan, tr[j], steps[j], key))
  {
    RunIsHistory(scan, tr, steps, key);
    var es := EditsOf(scan, tr, steps, key);
    i := ReportIsLatest(scan, HostsOf(tr, key), es, k);
    EditSource(scan, tr[i], steps[i], key);
    ConvertedSays(steps[i].posted, StoredTime(steps[i].now));
    forall j | i < j < k ensures !IsReport(EditOn(scan, tr[j], steps[j], key)) {
      assert !IsReport(es[j]);
    }
  }

  // ----- whose requirements a Ready host meets

  predicate NoReportBetween(scan: Scanner, tr: seq<Server>, steps: seq<Step>, key: Key, lo: nat, hi: nat)
    requires hi <= |steps| < |tr|
  {
    forall j | lo < j < hi :: !IsReport(EditOn(scan, tr[j], steps[j], key))
  }

  predicate NoReleaseBetween(scan: Scanner, tr: seq<Server>, steps: seq<Step>, key: Key, lo: nat, hi: nat)
    requires hi <= |steps| < |tr|
  {
    forall j | lo < j < hi :: !IsRelease(EditOn(scan, tr[j], steps[j], key))
  }

  /** Step c validated the host, which is Ready since, on the report that step b posted. */
  predicate ValidatedBy(scan: Scanner, tr: seq<Server>, steps: seq<Step>, key: Key, b: nat, c: nat)
    requires |tr| == |steps| + 1
  {
    && b < c < |steps| && steps[b].PostReport? && steps[c].HandleHost?
    && IsReport(EditOn(scan, tr[b], steps[b], key)) && IsValidate(EditOn(scan, tr[c], steps[c], key))
    && NoReportBetween(scan, tr, steps, key, b, c)
    && Check(scan, steps[c].msnap.requirements, StoredReport(steps[b].posted, steps[b].now)) == Passed
  }

  /** Step i posted the report that the host has at k. */
  predicate Holds(scan: Scanner, tr: seq<Server>, steps: seq<Step>, key: Key, i: nat, k: nat)
    requires |tr| == |steps| + 1 && k < |tr|
  {
    && i < k && steps[i].PostReport? && key in tr[k].hosts
    && IsReport(EditOn(scan, tr[i], steps[i], key)) && NoReportBetween(scan, tr, steps, key, i, k)
    && tr[k].hosts[key].host.status.report == Some(StoredReport(steps[i].posted, steps[i].now))
  }

  /** A validation finds the host Inspecting and with a report. */
  lemma AtValidation(scan: Scanner, tr: seq<Server>, steps: seq<Step>, key: Key, c: nat)
    requires Run(scan, tr, steps) && c < |steps| && IsValidate(EditOn(scan, tr[c], steps[c], key))
    ensures key in tr[c].hosts && tr[c].hosts[key].host.status.state == Inspecting
    ensures tr[c].hosts[key].host.status.report.Some?
  {
    RunIsHistory(scan, tr, steps, key);
    var hs, es := HostsOf(tr, key), EditsOf(scan, tr, steps, key);
    assert LegalAt(scan, hs, es, c);
  }

  lemma NoEarlierValidation(tr: seq<Server>, key: Key, c': nat, c: nat)
    requires c' <= c && c + 1 < |tr| && InStateFrom(tr, key, c' + 1, c + 1, Ready) && StateAt(tr[c], key) == Inspecting
    ensures c' == c
  {
  }

  lemma ValidatedOn(scan: Scanner, tr: seq<Server>, steps: seq<Step>, key: Key, c: nat) returns (b: nat)
    requires Run(scan, tr, steps) && c < |steps| && IsValidate(EditOn(scan, tr[c], steps[c], key))
    requires StateAt(tr[c + 1], key) == Ready
    ensures ValidatedBy(scan, tr, steps, key, b, c)
  {
    var a, c';
    a, b, c' := ReadyNeedsFreshEvidence(scan, tr, steps, key, c + 1);
    AtValidation(scan, tr, steps, key, c);
    NoEarlierValidation(tr, key, c', c);
  }

  lemma HeldAt(scan: Scanner, tr: seq<Server>, steps: seq<Step>, key: Key, c: nat, k: nat) returns (i: nat)
    requires Run(scan, tr, steps) && c < k < |tr| && IsValidate(EditOn(scan, tr[c], steps[c], key))
    requires InStateFrom(tr, key, c + 1, k, Ready)
    ensures Holds(scan, tr, steps, key, i, k)
  {
    AtValidation(scan, tr, steps, key, c);
    RunIsHistory(scan, tr, steps, key);
    ReportStays(scan, HostsOf(tr, key), EditsOf(scan, tr, steps, key), c, k);
    i := StoredReportWasPosted(scan, tr, steps, k, key);
  }

  lemma ConsumerSinceValidation(scan: Scanner, tr: seq<Server>, steps: seq<Step>, key: Key, c: nat, k: nat)
    requires Run(scan, tr, steps) && c < k < |tr| && IsValidate(EditOn(scan, tr[c], steps[c], key))
    requires InStateFrom(tr, key, c + 1, k, Ready)
    ensures if NoReleaseBetween(scan, tr, steps, key, c, k) then ConsumerAt(tr[k], key) == ConsumerAt(tr[c], key)
            else ConsumerAt(tr[k], key).None?
  {
    RunIsHistory(scan, tr, steps, key);
    var hs, es := HostsOf(tr, key), EditsOf(scan, tr, steps, key);
    forall j | c < j <= k ensures InState(hs[j], Ready) {
      assert key in tr[j].hosts && tr[j].hosts[key].host.status.state == Ready;
    }
    ConsumerWhileReady(scan, hs, es, c, k);
    assert forall j | c < j < k :: es[j] == EditOn(scan, tr[j], steps[j], key);
    assert NoReleaseBetween(scan, tr, steps, key, c, k) <==> forall j | c < j < k :: !IsRelease(es[j]);
  }

  lemma SameReportExactly(scan: Scanner, tr: seq<Server>, steps: seq<Step>, key: Key, b: nat, c: nat, i: nat, k: nat)
    requires |tr| == |steps| + 1 && c < k < |tr|
    requires ValidatedBy(scan, tr, steps, key, b, c) && Holds(scan, tr, steps, key, i, k)
    ensures i == b <==> NoReportBetween(scan, tr, steps, key, c, k)
  {
    if NoReportBetween(scan, tr, steps, key, c, k) {
      assert !IsReport(EditOn(scan, tr[c], steps[c], key));
    }
  }

  /** While a host is Ready since the validation c: its consumer is the machine that validated
      it and its report is the one validated, exactly if that machine was its consumer at the
      validation and no release and no report was committed since. Then its report passes its
      consumer's requirements, as that machine had them. */
  lemma ReadyForConsumerExactly(scan: Scanner, tr: seq<Server>, steps: seq<Step>, key: Key, c: nat, k: nat)
    returns (b: nat, i: nat)
    requires Run(scan, tr, steps) && c < k < |tr| && IsValidate(EditOn(scan, tr[c], steps[c], key))
    requires InStateFrom(tr, key, c + 1, k, Ready)
    ensures ValidatedBy(scan, tr, steps, key, b, c) && Holds(scan, tr, steps, key, i, k)
    ensures i == b <==> NoReportBetween(scan, tr, steps, key, c, k)
    ensures ConsumerAt(tr[k], key) == ConsumerAt(tr[c], key) <==>
            ConsumerAt(tr[c], key).None? || NoReleaseBetween(scan, tr, steps, key, c, k)
    ensures var validator := Some(RefOf(steps[c].mkey, steps[c].msnap));
            ConsumerAt(tr[k], key) == validator && i == b <==>
            ConsumerAt(tr[c], key) == validator && NoReleaseBetween(scan, tr, steps, key, c, k)
            && NoReportBetween(scan, tr, steps, key, c, k)
    ensures i == b ==> Check(scan, steps[c].msnap.requirements, tr[k].hosts[key].host.status.report.value) == Passed
  {
    assert key in tr[c + 1].hosts && tr[c + 1].hosts[key].host.status.state == Ready;
    b := ValidatedOn(scan, tr, steps, key, c);
    i := HeldAt(scan, tr, steps, key, c, k);
    SameReportExactly(scan, tr, steps, key, b, c, i, k);
    ConsumerSinceValidation(scan, tr, steps, key, c, k);
  }

  // ----- claim accounting

  function Claimed(sv: Server): set<Key> {
    set key | key in sv.hosts && sv.hosts[key].host.consumer.Some?
  }

  datatype Kind = Claims | ClaimedCreations | ClaimReleases | ClaimedRemovals

  predicate IsKind(h: Option<Host>, e: Edit, kind: Kind) {
    match kind
    case Claims => e.ClaimBy?
    case ClaimedCreations => e.Create? && e.consumer.Some?
    case ClaimReleases => e.ReleaseBy? || (e.Clear? && h.Some? && h.value.consumer.Some?)
    case ClaimedRemovals => e.Remove? && h.Some? && h.value.consumer.Some?
  }

  function OfKind(scan: Scanner, sv: Server, s: Step, kind: Kind): nat {
    if Enabled(sv, s) && Commit(scan, sv, s).Some?
       && IsKind(Lookup(sv, Commit(scan, sv, s).value.0), Commit(scan, sv, s).value.1, kind)
    then 1 else 0
  }

  function Tally(scan: Scanner, tr: seq<Server>, steps: seq<Step>, k: nat, kind: Kind): nat
    requires k <= |steps| < |tr|
  {
    if k == 0 then 0 else Tally(scan, tr, steps, k - 1, kind) + OfKind(scan, tr[k - 1], steps[k - 1], kind)
  }

  lemma ClaimedMoves(sv: Server, sv': Server, key: Key)
    requires Elsewhere(sv, sv', key)
    ensures Claimed(sv') == Claimed(sv) - {key} + (if ConsumerAt(sv', key).Some? then {key} else {})
  {
    forall k | k != key ensures k in Claimed(sv) <==> k in Claimed(sv') {
      assert Lookup(sv', k) == Lookup(sv, k);
    }
  }

  function Holder(h: Option<Host>): nat {
    if h.Some? && h.value.consumer.Some? then 1 else 0
  }

  lemma ClaimedCount(sv: Server, sv': Server, key: Key)
    requires Elsewhere(sv, sv', key)
    ensures |Claimed(sv')| + Holder(Lookup(sv, key)) == |Claimed(sv)| + Holder(Lookup(sv', key))
  {
    ClaimedMoves(sv, sv', key);
    assert key in Claimed(sv) <==> Holder(Lookup(sv, key)) == 1;
  }

  lemma EditBalance(scan: Scanner, h: Option<Host>, e: Edit)
    requires Possible(scan, h, e)
    ensures Holder(Edited(scan, h, e)) + (if IsKind(h, e, ClaimReleases) || IsKind(h, e, ClaimedRemovals) then 1 else 0)
            == Holder(h) + (if IsKind(h, e, Claims) || IsKind(h, e, ClaimedCreations) then 1 else 0)
  {
  }

  lemma StepBalance(scan: Scanner, sv: Server, s: Step, sv': Server)
    requires Enabled(sv, s) && Atomic(scan, sv, s, sv')
    ensures |Claimed(sv')| + OfKind(scan, sv, s, ClaimReleases) + OfKind(scan, sv, s, ClaimedRemovals)
            == |Claimed(sv)| + OfKind(scan, sv, s, Claims) + OfKind(scan, sv, s, ClaimedCreations)
  {
    var commit := Commit(scan, sv, s);
    if commit.None? {
      assert Claimed(sv') == Claimed(sv);
    } else {
      var (key, e) := commit.value;
      ClaimedCount(sv, sv', key);
      EditBalance(scan, Lookup(sv, key), e);
    }
  }

  /** Claims committed and hosts created claimed, less the releases committed and the removals
      of claimed hosts. */
  function Net(scan: Scanner, tr: seq<Server>, steps: seq<Step>, k: nat): int
    requires k <= |steps| < |tr|
  {
    Tally(scan, tr, steps, k, Claims) + Tally(scan, tr, steps, k, ClaimedCreations)
    - Tally(scan, tr, steps, k, ClaimReleases) - Tally(scan, tr, steps, k, ClaimedRemovals)
  }

  lemma NetExtends(scan: Scanner, tr: seq<Server>, steps: seq<Step>, k: nat)
    requires k < |steps| < |tr|
    ensures Net(scan, tr, steps, k + 1) == Net(scan, tr, steps, k)
            + OfKind(scan, tr[k], steps[k], Claims) + OfKind(scan, tr[k], steps[k], ClaimedCreations)
            - OfKind(scan, tr[k], steps[k], ClaimReleases) - OfKind(scan, tr[k], steps[k], ClaimedRemovals)
  {
  }

  lemma BalanceAt(scan: Scanner, tr: seq<Server>, steps: seq<Step>, k: nat)
    requires k < |steps| < |tr| && MovesAt(scan, tr, steps, k) && Versioned(tr[k])
    ensures |Claimed(tr[k + 1])| - |Claimed(tr[k])| == Net(scan, tr, steps, k + 1) - Net(scan, tr, steps, k)
  {
    StepIsAtomic(scan, tr[k], steps[k]);
    StepBalance(scan, tr[k], steps[k], tr[k + 1]);
    NetExtends(scan, tr, steps, k);
  }

  lemma BalanceMoves(scan: Scanner, tr: seq<Server>, steps: seq<Step>, k: nat)
    requires Run(scan, tr, steps) && k < |steps|
    ensures |Claimed(tr[k + 1])| - |Claimed(tr[k])| == Net(scan, tr, steps, k + 1) - Net(scan, tr, steps, k)
  {
    VersionedHolds(scan, tr, steps, k);
    BalanceAt(scan, tr, steps, k);
  }

  lemma BalanceStarts(scan: Scanner, tr: seq<Server>, steps: seq<Step>)
    requires |steps| < |tr| && tr[0] == EMPTY
    ensures |Claimed(tr[0])| == Net(scan, tr, steps, 0)
  {
  }

  /** The claimed hosts number the net of claims. */
  lemma {:induction false} ClaimsBalance(scan: Scanner, tr: seq<Server>, steps: seq<Step>, k: nat)
    requires Run(scan, tr, steps) && k < |tr|
    ensures |Claimed(tr[k])| == Net(scan, tr, steps, k)
  {
    if k == 0 {
      BalanceStarts(scan, tr, steps);
    } else {
      ClaimsBalance(scan, tr, steps, k - 1);
      BalanceMoves(scan, tr, steps, k - 1);
    }
  }
}
