/**
What every pass of a controller leaves in the store, at every step of every run: in terms of the
copies it read and of the clock, the BMC and the request alone.
*/
module HostAnswers {
  import opened Clock
  import opened Options
  import opened Hardware
  import opened HostModel
  import opened HostRuns
  import opened HostTheorems
  import ProviderIds

  /** A write on a copy: if the copy is current it is the stored host, and becomes `h'`, and no
      other host changes; if it is stale, no host changes. */
  ghost predicate Writes(sv: Server, sv': Server, key: Key, snap: Stored, h': Option<Host>) {
    if key in sv.hosts && sv.hosts[key].version == snap.version
    then Lookup(sv, key) == Some(snap.host) && Lookup(sv', key) == h' && Elsewhere(sv, sv', key)
    else sv'.hosts == sv.hosts
  }

  /** The time cut down to whole seconds. */
  predicate InSeconds(now: Time, t: Time) {
    t <= now < t + 1_000_000_000 && t % 1_000_000_000 == 0
  }

  lemma StoredInSeconds(now: Time)
    ensures InSeconds(now, StoredTime(now))
  {
  }

  /** The host that a machine's ProviderID names: behind any five bytes, in the machine's own
      namespace, or for a deletion in any. */
  lemma NamedExactly(mkey: Key, m: Machine, key: Key)
    ensures Named(m) == Some(key) <==>
            && m.providerID.Some? && |m.providerID.value| >= 5
            && m.providerID.value[5..] == key.namespace + "/" + key.name && key.namespace != "" && '/' !in key.namespace
    ensures Associated(mkey, m) == Some(key) <==> Named(m) == Some(key) && key.namespace == mkey.namespace
  {
    if m.providerID.Some? {
      ProviderIds.ParseExactly(m.providerID.value, key.namespace, key.name);
    }
  }

  // ----- the machine reconciler

  /** The copy's inspection began more than ten minutes ago. */
  predicate Late(st: Status, now: Time) {
    st.stamp.Some? && now - st.stamp.value > 600_000_000_000
  }

  predicate Passes(scan: Scanner, m: Machine, st: Status) {
    st.phase == Complete && st.report.Some? && Check(scan, m.requirements, st.report.value) == Passed
  }

  lemma HandleWrites(scan: Scanner, sv: Server, s: Step, st: Status)
    requires Versioned(sv) && Enabled(sv, s) && s.HandleHost?
    requires match Handle(scan, s.msnap, s.key, s.snap.host, s.now, s.bmcOk, s.text)
             case WriteStatus(x) => x == st
             case Nothing => st == s.snap.host.status
             case SetProviderID(_) => false
    ensures Writes(sv, Apply(scan, sv, s), s.key, s.snap, Some(s.snap.host.(status := st)))
  {
    UpdateStatusIsAtomic(sv, s.key, s.snap, st);
    if Current(sv, s.key, s.snap) {
      CurrentIsStored(sv, s.key, s.snap);
    }
  }

  /** A pass over a host under inspection: too late, it fails the host; in time, with a complete
      report that passes, it makes it Ready; otherwise it leaves it. */
  lemma InspectingPass(scan: Scanner, tr: seq<Server>, steps: seq<Step>, k: nat)
    requires Run(scan, tr, steps) && k < |steps| && steps[k].HandleHost?
    requires steps[k].snap.host.status.state == Inspecting
    ensures var s := steps[k];
            var st := s.snap.host.status;
            Writes(tr[k], tr[k + 1], s.key, s.snap, Some(s.snap.host.(status :=
              if Late(st, s.now)
              then st.(state := Error, phase := Timeout, errorMessage := "Inspection timeout after " + s.text)
              else if Passes(scan, s.msnap, st)
              then st.(state := Ready, conditions := st.conditions["HostInspected" := true])
              else st)))
  {
    var s := steps[k];
    assert MovesAt(scan, tr, steps, k);
    VersionedHolds(scan, tr, steps, k);
    var a := Handle(scan, s.msnap, s.key, s.snap.host, s.now, s.bmcOk, s.text);
    HandleWrites(scan, tr[k], s, if a.WriteStatus? then a.status else s.snap.host.status);
  }

  /** So, on a current copy, the inspection ends in Error exactly if it is too late, and in Ready
      exactly if it is in time, complete and its report passes. */
  lemma InspectionSettles(scan: Scanner, tr: seq<Server>, steps: seq<Step>, k: nat)
    requires Run(scan, tr, steps) && k < |steps| && steps[k].HandleHost?
    requires StateAt(tr[k], steps[k].key) == Inspecting && Current(tr[k], steps[k].key, steps[k].snap)
    ensures var s := steps[k];
            var st := tr[k].hosts[s.key].host.status;
            && (StateAt(tr[k + 1], s.key) == Error <==> Late(st, s.now))
            && (StateAt(tr[k + 1], s.key) == Ready <==> !Late(st, s.now) && Passes(scan, s.msnap, st))
            && (StateAt(tr[k + 1], s.key) == Inspecting <==> !Late(st, s.now) && !Passes(scan, s.msnap, st))
            && s.key in tr[k + 1].hosts
            && (Late(st, s.now) ==> tr[k + 1].hosts[s.key].host.status.errorMessage != ""
                                    && tr[k + 1].hosts[s.key].host.status.phase == Timeout)
  {
    var s := steps[k];
    assert MovesAt(scan, tr, steps, k);
    VersionedHolds(scan, tr, steps, k);
    CurrentIsStored(tr[k], s.key, s.snap);
    InspectingPass(scan, tr, steps, k);
    assert ("Inspection timeout after " + s.text)[0] == 'I';
  }

  /** A pass over a claimed host starts an inspection exactly if the BMC answers, and records the
      time in whole seconds. */
  lemma InUsePass(scan: Scanner, tr: seq<Server>, steps: seq<Step>, k: nat) returns (t: Time)
    requires Run(scan, tr, steps) && k < |steps| && steps[k].HandleHost?
    requires steps[k].snap.host.status.state == InUse
    ensures InSeconds(steps[k].now, t)
    ensures var s := steps[k];
            var st := s.snap.host.status;
            Writes(tr[k], tr[k + 1], s.key, s.snap, Some(s.snap.host.(status :=
              if s.bmcOk then st.(state := Inspecting, phase := Booting, stamp := Some(t)) else st)))
  {
    var s := steps[k];
    t := StoredTime(s.now);
    StoredInSeconds(s.now);
    assert MovesAt(scan, tr, steps, k);
    VersionedHolds(scan, tr, steps, k);
    var a := Handle(scan, s.msnap, s.key, s.snap.host, s.now, s.bmcOk, s.text);
    HandleWrites(scan, tr[k], s, if a.WriteStatus? then a.status else s.snap.host.status);
  }

  /** A pass over a Ready host leaves the hosts and writes the host's ID into the stored machine,
      unless the copy has it already. */
  lemma ReadyPass(scan: Scanner, tr: seq<Server>, steps: seq<Step>, k: nat)
    requires Run(scan, tr, steps) && k < |steps| && steps[k].HandleHost?
    requires steps[k].snap.host.status.state == Ready
    ensures tr[k + 1].hosts == tr[k].hosts
    ensures var s := steps[k];
            var id := "b7://" + s.key.namespace + "/" + s.key.name;
            s.mkey in tr[k].machines && s.mkey in tr[k + 1].machines ==>
              var m := tr[k].machines[s.mkey];
              tr[k + 1].machines[s.mkey]
              == m.(providerID := if s.msnap.providerID == Some(id) then m.providerID else Some(id))
  {
    assert MovesAt(scan, tr, steps, k);
    ProviderIds.ParseUndoesPrint(steps[k].key.namespace, steps[k].key.name);
  }

  /** In all other states a pass changes nothing. */
  lemma IdlePass(scan: Scanner, tr: seq<Server>, steps: seq<Step>, k: nat)
    requires Run(scan, tr, steps) && k < |steps| && steps[k].HandleHost?
    requires steps[k].snap.host.status.state !in {InUse, Inspecting, Ready}
    ensures tr[k + 1] == tr[k]
  {
    assert MovesAt(scan, tr, steps, k);
  }

  /** Entry `i` is the first of the list that is Available without a consumer. */
  predicate FirstFree(list: seq<(Key, Stored)>, i: nat) {
    && i < |list| && list[i].1.host.status.state == Available && list[i].1.host.consumer.None?
    && forall j | 0 <= j < i :: list[j].1.host.status.state != Available || list[j].1.host.consumer.Some?
  }

  lemma ClaimStopsAt(list: seq<(Key, Stored)>, i: nat)
    requires FirstFree(list, i)
    ensures FirstClaimable(list, 0) == i
  {
  }

  /** A claim goes to the first listed host that is Available without a consumer, and gives it
      the machine's identity; if there is none, or its copy is stale, nothing changes. */
  lemma ClaimAnswers(scan: Scanner, tr: seq<Server>, steps: seq<Step>, k: nat)
    requires Run(scan, tr, steps) && k < |steps| && steps[k].ClaimHost?
    ensures var s := steps[k];
            var ref := Ref(s.msnap.kind, s.msnap.apiVersion, s.mkey.name, s.mkey.namespace, s.msnap.uid);
            forall i | 0 <= i < |s.list| && FirstFree(s.list, i) ::
              && Writes(tr[k], tr[k + 1], s.list[i].0, s.list[i].1, Some(s.list[i].1.host.(consumer := Some(ref))))
              && (!Current(tr[k], s.list[i].0, s.list[i].1) ==> tr[k + 1] == tr[k])
    ensures (forall i | 0 <= i < |steps[k].list| :: !FirstFree(steps[k].list, i)) ==> tr[k + 1] == tr[k]
  {
    var s := steps[k];
    assert MovesAt(scan, tr, steps, k);
    VersionedHolds(scan, tr, steps, k);
    var f := FirstClaimable(s.list, 0);
    forall i | 0 <= i < |s.list| && FirstFree(s.list, i) ensures f == i {
      ClaimStopsAt(s.list, i);
    }
    if f < |s.list| {
      assert FirstFree(s.list, f);
      ClaimWrites(scan, tr[k], s, f);
    }
  }

  lemma ClaimWrites(scan: Scanner, sv: Server, s: Step, i: nat)
    requires Versioned(sv) && Enabled(sv, s) && s.ClaimHost? && i == FirstClaimable(s.list, 0) < |s.list|
    ensures var ref := Ref(s.msnap.kind, s.msnap.apiVersion, s.mkey.name, s.mkey.namespace, s.msnap.uid);
            Writes(sv, Apply(scan, sv, s), s.list[i].0, s.list[i].1, Some(s.list[i].1.host.(consumer := Some(ref))))
  {
    assert s.list[i] == (s.list[i].0, s.list[i].1);
    UpdateIsAtomic(sv, s.list[i].0, s.list[i].1, s.list[i].1.host.(consumer := Some(RefOf(s.mkey, s.msnap))));
  }

  /** A release clears the consumer of the copy, and nothing else. */
  lemma ReleaseAnswers(scan: Scanner, tr: seq<Server>, steps: seq<Step>, k: nat)
    requires Run(scan, tr, steps) && k < |steps| && steps[k].ReleaseHost?
    ensures var s := steps[k];
            Writes(tr[k], tr[k + 1], s.key, s.snap, Some(s.snap.host.(consumer := None)))
  {
    var s := steps[k];
    assert MovesAt(scan, tr, steps, k);
    VersionedHolds(scan, tr, steps, k);
    UpdateIsAtomic(tr[k], s.key, s.snap, s.snap.host.(consumer := None));
  }

  /** The finalizer patch of a machine that is still there: added unless the machine is being
      deleted; dropped, and the machine with it if it is being deleted. */
  lemma MachineFinalizerAnswers(scan: Scanner, tr: seq<Server>, steps: seq<Step>, k: nat)
    requires Run(scan, tr, steps) && k < |steps| && (steps[k].AddMachineFinalizer? || steps[k].DropMachineFinalizer?)
    requires steps[k].mkey in tr[k].machines && steps[k].msnap.finalizer == steps[k].DropMachineFinalizer?
    ensures var s := steps[k];
            var m := tr[k].machines[s.mkey];
            tr[k + 1].machines ==
            if s.AddMachineFinalizer? then
              if m.deleting then tr[k].machines else tr[k].machines[s.mkey := m.(finalizer := true)]
            else if !m.finalizer then tr[k].machines
            else if m.deleting then tr[k].machines - {s.mkey}
            else tr[k].machines[s.mkey := m.(finalizer := false)]
    ensures tr[k + 1].hosts == tr[k].hosts
  {
    assert MovesAt(scan, tr, steps, k);
  }

  // ----- the host reconciler

  /** What the status says after a pass that saw `o`. */
  predicate Tells(h: Host, o: Observation, st: Status) {
    var was := h.status;
    && st.report == was.report && st.phase == was.phase && st.stamp == was.stamp
    && match o
       case Connected(details, power, addresses) =>
         && st.details == details
         && st.power == (if power.Some? then power.value else was.power)
         && st.addresses == (if addresses.Some? then addresses.value else was.addresses)
         && st.state == (if h.consumer.None? then Available
                         else if was.state in {InUse, Inspecting, Ready} then was.state else InUse)
         && (if st.state == was.state then st.ready == was.ready && st.errorMessage == was.errorMessage
             else st.ready && st.errorMessage == "")
         && st.conditions == (if st.state == Available && was.state != Available
                              then was.conditions["RedfishConnectionReady" := true]["HostAvailable" := true]
                              else was.conditions["RedfishConnectionReady" := true])
       case NoClient(text) => Fails(was, st) && st.errorMessage == "Redfish connection failed: " + text
       case NoSystemInfo(text) => Fails(was, st) && st.errorMessage == "Failed to query system: " + text
       case NoCredentials(e) => Fails(was, st) && Explains(e, st.errorMessage)
  }

  predicate Fails(was: Status, st: Status) {
    && st.details == was.details && st.power == was.power && st.addresses == was.addresses
    && st.state == Error && !st.ready && st.conditions == was.conditions["RedfishConnectionReady" := false]
  }

  /** The message for credentials that could not be read. */
  predicate Explains(e: CredentialsError, message: string) {
    match e
    case EmptyReference => message == "credentials secret reference is empty"
    case SecretNotFound(name) => message == "credentials secret \"" + name + "\" not found"
    case SecretUnreadable(text) => message == "failed to get credentials secret: " + text
    case NoUsername(name) => message == "username not found in secret \"" + name + "\""
    case NoPassword(name) => message == "password not found in secret \"" + name + "\""
  }

  lemma ObservedTells(h: Host, o: Observation)
    ensures Tells(h, o, Observed(h, o))
  {
  }

  /** A pass of the host reconciler writes what it saw, by one status write. */
  lemma ObserveAnswers(scan: Scanner, tr: seq<Server>, steps: seq<Step>, k: nat) returns (st: Status)
    requires Run(scan, tr, steps) && k < |steps| && steps[k].ObserveHost?
    ensures Tells(steps[k].snap.host, steps[k].seen, st)
    ensures Writes(tr[k], tr[k + 1], steps[k].key, steps[k].snap, Some(steps[k].snap.host.(status := st)))
  {
    var s := steps[k];
    st := Observed(s.snap.host, s.seen);
    ObservedTells(s.snap.host, s.seen);
    assert MovesAt(scan, tr, steps, k);
    VersionedHolds(scan, tr, steps, k);
    UpdateStatusIsAtomic(tr[k], s.key, s.snap, st);
  }

  /** A finalizer is added to a host, or dropped and the host with it. */
  lemma HostFinalizerAnswers(scan: Scanner, tr: seq<Server>, steps: seq<Step>, k: nat)
    requires Run(scan, tr, steps) && k < |steps| && (steps[k].AddHostFinalizer? || steps[k].DropHostFinalizer?)
    ensures var s := steps[k];
            Writes(tr[k], tr[k + 1], s.key, s.snap,
                   if s.AddHostFinalizer? then Some(s.snap.host.(finalizer := true)) else None)
  {
    var s := steps[k];
    assert MovesAt(scan, tr, steps, k);
    VersionedHolds(scan, tr, steps, k);
    UpdateIsAtomic(tr[k], s.key, s.snap, s.snap.host.(finalizer := s.AddHostFinalizer?));
  }

  // ----- the inspection handler

  /** A posted request is stored field by field, with the time in whole seconds, and completes the
      inspection. */
  lemma PostAnswers(scan: Scanner, tr: seq<Server>, steps: seq<Step>, k: nat) returns (r: Report)
    requires Run(scan, tr, steps) && k < |steps| && steps[k].PostReport?
    ensures SameFields(steps[k].posted, r) && InSeconds(steps[k].now, r.timestamp)
    ensures var s := steps[k];
            Writes(tr[k], tr[k + 1], s.key, s.snap,
                   Some(s.snap.host.(status := s.snap.host.status.(report := Some(r), phase := Complete))))
  {
    var s := steps[k];
    r := StoredReport(s.posted, s.now);
    ConvertedSays(s.posted, StoredTime(s.now));
    StoredInSeconds(s.now);
    assert MovesAt(scan, tr, steps, k);
    VersionedHolds(scan, tr, steps, k);
    UpdateStatusIsAtomic(tr[k], s.key, s.snap, Reported(s.snap.host.status, s.posted, s.now));
  }
}
