/**
Runs that show what the protocol does not promise. Passes go by ProviderID and do not look at
ConsumerRef, reports are taken in every state, and releases compare names only.
*/
module HostExample {
  import opened Options
  import opened Sequences
  import opened Hardware
  import opened HostModel
  import opened HostRuns
  import opened HostMachines
  import ProviderIds

  const HOST := Key("n", "h")
  const CLAIMANT := Key("n", "claimant")
  const OTHER := Key("n", "other")
  const ABROAD := Key("x", "claimant")

  const FOUND := Connected(Details("", "", "", "", "", ""), None, None)
  const ONE_CORE := Posted("", "", "", "", "", [CPUData("", "", "", 1, 1, "")], [], [], [])
  const NOTHING := Posted("", "", "", "", "", [], [], [], [])

  /** The claimant asks for two cores and has no ProviderID; the other machine asks for one and
      names the host, with any five characters before the name. */
  const CLAIMING := Machine("", "", "1", None, Some(Requirements(2, 0, 0)), false, false)
  const NAMING := Machine("", "", "2", Some("?????n/h"), Some(Requirements(1, 0, 0)), false, false)

  function Last(tr: seq<Server>): Server
    requires tr != []
  {
    tr[|tr| - 1]
  }

  predicate HasHost(sv: Server, h: Host) {
    HOST in sv.hosts && sv.hosts[HOST].host == h
  }

  predicate HasMachine(sv: Server, mkey: Key, m: Machine) {
    mkey in sv.machines && sv.machines[mkey] == m && (mkey, m) in sv.machinePast
  }

  predicate SameMachines(sv: Server, sv': Server) {
    sv'.machines == sv.machines && sv'.machinePast == sv.machinePast
  }

  lemma NamesHost(mkey: Key, m: Machine)
    requires m.providerID == Some("?????n/h")
    ensures Named(m) == Some(HOST) && (mkey.namespace == "n" ==> Associated(mkey, m) == Some(HOST))
  {
    var id := "?????n/h";
    var parts := id[|ProviderIds.PREFIX|..];
    assert parts == "n/h";
    ProviderIds.SlashUnique(parts, 1);
    assert parts[..1] == "n" && parts[2..] == "h";
  }

  // ----- stretches of runs, on current copies

  lemma AddMachine(scan: Scanner, tr: seq<Server>, steps: seq<Step>, mkey: Key, m: Machine)
    returns (tr': seq<Server>, steps': seq<Step>)
    requires Run(scan, tr, steps) && Enabled(Last(tr), CreateMachine(mkey, m))
    ensures Run(scan, tr', steps') && Last(tr').hosts == Last(tr).hosts
    ensures Last(tr').machines == Last(tr).machines[mkey := m.(finalizer := true)]
    ensures Last(tr').machinePast == Last(tr).machinePast + {(mkey, m), (mkey, m.(finalizer := true))}
  {
    tr', steps' := Extend(scan, tr, steps, CreateMachine(mkey, m));
    tr', steps' := Extend(scan, tr', steps', AddMachineFinalizer(mkey, m));
  }

  lemma MarkDeleting(scan: Scanner, tr: seq<Server>, steps: seq<Step>, mkey: Key, m: Machine)
    returns (tr': seq<Server>, steps': seq<Step>)
    requires Run(scan, tr, steps) && HasMachine(Last(tr), mkey, m) && m.finalizer
    ensures Run(scan, tr', steps') && Last(tr').hosts == Last(tr).hosts
    ensures Last(tr').machines == Last(tr).machines[mkey := m.(deleting := true)]
    ensures Last(tr').machinePast == Last(tr).machinePast + {(mkey, m.(deleting := true))}
  {
    tr', steps' := Extend(scan, tr, steps, DeleteMachine(mkey));
  }

  lemma DropMachine(scan: Scanner, tr: seq<Server>, steps: seq<Step>, mkey: Key, m: Machine)
    returns (tr': seq<Server>, steps': seq<Step>)
    requires Run(scan, tr, steps) && HasMachine(Last(tr), mkey, m) && m.finalizer && m.deleting
    ensures Run(scan, tr', steps') && Last(tr').hosts == Last(tr).hosts
    ensures Last(tr').machines == Last(tr).machines - {mkey} && Last(tr').machinePast == Last(tr).machinePast
  {
    tr', steps' := Extend(scan, tr, steps, DropMachineFinalizer(mkey, m));
  }

  /** One observation of a host that the BMC answers for. */
  lemma ObserveNow(scan: Scanner, tr: seq<Server>, steps: seq<Step>, h: Host)
    returns (tr': seq<Server>, steps': seq<Step>)
    requires Run(scan, tr, steps) && HasHost(Last(tr), h) && h.finalizer && !h.deleting
    ensures Run(scan, tr', steps') && SameMachines(Last(tr), Last(tr'))
    ensures HasHost(Last(tr'), h.(status := Observed(h, FOUND)))
  {
    VersionedHolds(scan, tr, steps, |steps|);
    tr', steps' := Extend(scan, tr, steps, ObserveHost(HOST, Last(tr).hosts[HOST], FOUND));
  }

  lemma CreateHostNow(scan: Scanner, tr: seq<Server>, steps: seq<Step>, consumer: Option<Ref>)
    returns (tr': seq<Server>, steps': seq<Step>)
    requires Run(scan, tr, steps) && HOST !in Last(tr).hosts
    ensures Run(scan, tr', steps') && SameMachines(Last(tr), Last(tr'))
    ensures HasHost(Last(tr'), Host(Connection("", "", None), consumer, true, false, NEW_STATUS))
  {
    tr', steps' := Extend(scan, tr, steps, CreateHost(HOST, Connection("", "", None), consumer));
    tr', steps' := Extend(scan, tr', steps', AddHostFinalizer(HOST, Last(tr').hosts[HOST]));
  }

  /** A host appears and is observed: Available without a consumer, InUse with one. */
  lemma AddHost(scan: Scanner, tr: seq<Server>, steps: seq<Step>, consumer: Option<Ref>)
    returns (tr': seq<Server>, steps': seq<Step>, h: Host)
    requires Run(scan, tr, steps) && HOST !in Last(tr).hosts
    ensures Run(scan, tr', steps') && HasHost(Last(tr'), h) && SameMachines(Last(tr), Last(tr'))
    ensures h.finalizer && !h.deleting && h.consumer == consumer && h.status.phase == PhaseNone
    ensures h.status.state == if consumer.None? then Available else InUse
  {
    tr', steps' := CreateHostNow(scan, tr, steps, consumer);
    h := Last(tr').hosts[HOST].host;
    tr', steps' := ObserveNow(scan, tr', steps', h);
    h := h.(status := Observed(h, FOUND));
  }

  lemma ClaimNow(scan: Scanner, tr: seq<Server>, steps: seq<Step>, h: Host, m: Machine)
    returns (tr': seq<Server>, steps': seq<Step>)
    requires Run(scan, tr, steps) && HasHost(Last(tr), h) && Claimable(h) && !h.deleting
    requires HasMachine(Last(tr), CLAIMANT, m) && m.finalizer && !m.deleting
    ensures Run(scan, tr', steps') && SameMachines(Last(tr), Last(tr'))
    ensures HasHost(Last(tr'), h.(consumer := Some(RefOf(CLAIMANT, m))))
  {
    VersionedHolds(scan, tr, steps, |steps|);
    var list := [(HOST, Last(tr).hosts[HOST])];
    assert FirstClaimable(list, 0) == 0;
    tr', steps' := Extend(scan, tr, steps, ClaimHost(CLAIMANT, m, list));
  }

  lemma PostNow(scan: Scanner, tr: seq<Server>, steps: seq<Step>, h: Host, p: Posted)
    returns (tr': seq<Server>, steps': seq<Step>)
    requires Run(scan, tr, steps) && HasHost(Last(tr), h) && !h.deleting
    ensures Run(scan, tr', steps') && SameMachines(Last(tr), Last(tr'))
    ensures HasHost(Last(tr'), h.(status := Reported(h.status, p, 0)))
  {
    VersionedHolds(scan, tr, steps, |steps|);
    tr', steps' := Extend(scan, tr, steps, PostReport(HOST, Last(tr).hosts[HOST], p, 0));
  }

  /** One pass of the machine that names the host. */
  lemma HandleNow(scan: Scanner, tr: seq<Server>, steps: seq<Step>, mkey: Key, m: Machine, h: Host, st: Status)
    returns (tr': seq<Server>, steps': seq<Step>)
    requires Run(scan, tr, steps) && HasHost(Last(tr), h) && !h.deleting
    requires (mkey, m) in Last(tr).machinePast && m.finalizer && !m.deleting && Associated(mkey, m) == Some(HOST)
    requires Handle(scan, m, HOST, h, 0, true, "") == WriteStatus(st)
    ensures Run(scan, tr', steps') && HasHost(Last(tr'), h.(status := st)) && SameMachines(Last(tr), Last(tr'))
  {
    VersionedHolds(scan, tr, steps, |steps|);
    tr', steps' := Extend(scan, tr, steps, HandleHost(mkey, m, HOST, Last(tr).hosts[HOST], 0, true, ""));
  }

  lemma CoresOf(scan: Scanner)
    ensures Check(scan, Some(Requirements(1, 0, 0)), StoredReport(ONE_CORE, 0)) == Passed
    ensures Check(scan, Some(Requirements(2, 0, 0)), StoredReport(ONE_CORE, 0)) != Passed
    ensures Check(scan, Some(Requirements(1, 0, 0)), StoredReport(NOTHING, 0)) != Passed
  {
    TotalsThroughConversion(scan, ONE_CORE, 0);
    SumSnoc([], ONE_CORE.cpus[0], DataCores());
    assert [] + [ONE_CORE.cpus[0]] == ONE_CORE.cpus;
  }

  /** The naming machine, stored under some name, takes a host in use through an inspection that
      finds one core. */
  lemma Inspect(scan: Scanner, tr: seq<Server>, steps: seq<Step>, mkey: Key, h: Host)
    returns (tr': seq<Server>, steps': seq<Step>, h': Host)
    requires Run(scan, tr, steps) && HasHost(Last(tr), h) && h.status.state == InUse && !h.deleting
    requires mkey.namespace == "n" && (mkey, NAMING.(finalizer := true)) in Last(tr).machinePast
    ensures Run(scan, tr', steps') && HasHost(Last(tr'), h') && SameMachines(Last(tr), Last(tr'))
    ensures h'.status.state == Ready && h'.status.report == Some(StoredReport(ONE_CORE, 0))
    ensures h'.consumer == h.consumer && !h'.deleting
  {
    var m := NAMING.(finalizer := true);
    NamesHost(mkey, m);
    h' := h.(status := Triggered(h.status, 0));
    tr', steps' := HandleNow(scan, tr, steps, mkey, m, h, h'.status);
    tr', steps' := PostNow(scan, tr', steps', h', ONE_CORE);
    h' := h'.(status := Reported(h'.status, ONE_CORE, 0));
    CoresOf(scan);
    tr', steps' := HandleNow(scan, tr', steps', mkey, m, h', Validated(h'.status));
    h' := h'.(status := Validated(h'.status));
  }

  /** A run that stores one machine. */
  lemma WithMachine(scan: Scanner, mkey: Key, m: Machine) returns (tr: seq<Server>, steps: seq<Step>)
    requires !m.finalizer && !m.deleting
    ensures Run(scan, tr, steps) && Last(tr).hosts == map[]
    ensures Last(tr).machines == map[mkey := m.(finalizer := true)]
    ensures Last(tr).machinePast == {(mkey, m), (mkey, m.(finalizer := true))}
  {
    tr, steps := [EMPTY], [];
    tr, steps := AddMachine(scan, tr, steps, mkey, m);
  }

  // ----- Ready

  /** Ready is reachable, and a Ready host's report may fail its consumer's requirements. */
  lemma ReadyForAnother(scan: Scanner) returns (tr: seq<Server>, steps: seq<Step>, h: Host)
    ensures Run(scan, tr, steps) && HasHost(Last(tr), h) && h.status.state == Ready
    ensures h.consumer == Some(RefOf(CLAIMANT, CLAIMING)) && h.status.report.Some?
    ensures Check(scan, CLAIMING.requirements, h.status.report.value) != Passed
  {
    tr, steps := WithMachine(scan, CLAIMANT, CLAIMING);
    tr, steps := AddMachine(scan, tr, steps, OTHER, NAMING);
    tr, steps, h := AddHost(scan, tr, steps, None);
    tr, steps := ClaimNow(scan, tr, steps, h, CLAIMING.(finalizer := true));
    h := h.(consumer := Some(RefOf(CLAIMANT, CLAIMING)));
    tr, steps := ObserveNow(scan, tr, steps, h);
    h := h.(status := Observed(h, FOUND));
    tr, steps, h := Inspect(scan, tr, steps, OTHER, h);
    CoresOf(scan);
  }

  /** A host validated by its own consumer takes another report and stays Ready: the report that
      it then has was never validated, and fails. */
  lemma UnvalidatedReport(scan: Scanner) returns (tr: seq<Server>, steps: seq<Step>, h: Host)
    ensures Run(scan, tr, steps) && HasHost(Last(tr), h) && h.status.state == Ready
    ensures h.consumer == Some(RefOf(OTHER, NAMING)) && h.status.report.Some?
    ensures Check(scan, NAMING.requirements, h.status.report.value) != Passed
  {
    tr, steps := WithMachine(scan, OTHER, NAMING);
    tr, steps, h := AddHost(scan, tr, steps, Some(RefOf(OTHER, NAMING)));
    tr, steps, h := Inspect(scan, tr, steps, OTHER, h);
    tr, steps := PostNow(scan, tr, steps, h, NOTHING);
    h := h.(status := Reported(h.status, NOTHING, 0));
    CoresOf(scan);
  }

  /** The consumer validates its host, and a user raises its requirements: the host stays Ready
      and claimed by the live machine, whose requirements the report fails. */
  lemma RaisedRequirements(scan: Scanner) returns (tr: seq<Server>, steps: seq<Step>, h: Host)
    ensures Run(scan, tr, steps) && HasHost(Last(tr), h) && h.status.state == Ready && h.status.report.Some?
    ensures h.consumer == Some(RefOf(OTHER, NAMING)) && LiveClaim(Last(tr), HOST)
    ensures Check(scan, Last(tr).machines[OTHER].requirements, h.status.report.value) != Passed
  {
    tr, steps := WithMachine(scan, OTHER, NAMING);
    tr, steps, h := AddHost(scan, tr, steps, Some(RefOf(OTHER, NAMING)));
    tr, steps, h := Inspect(scan, tr, steps, OTHER, h);
    tr, steps := Extend(scan, tr, steps, EditMachine(OTHER, NAMING.providerID, Some(Requirements(2, 0, 0))));
    CoresOf(scan);
  }

  // ----- claims and associations

  /** A copy, marked as being deleted, of another machine of the claimant's name. */
  predicate HasNamesake(sv: Server, mkey: Key) {
    (mkey, NAMING.(finalizer := true, deleting := true)) in sv.machinePast && mkey.name == CLAIMANT.name
  }

  /** The claimant claims the host, and the namesake's deletion releases it. */
  lemma Stolen(scan: Scanner, tr: seq<Server>, steps: seq<Step>, mkey: Key)
    returns (tr': seq<Server>, steps': seq<Step>)
    requires Run(scan, tr, steps) && HOST !in Last(tr).hosts && HasNamesake(Last(tr), mkey)
    requires HasMachine(Last(tr), CLAIMANT, CLAIMING.(finalizer := true))
    ensures Run(scan, tr', steps') && |steps'| > 0
    ensures LiveClaim(tr'[|steps'| - 1], HOST) && Drops(tr', |steps'| - 1, HOST)
    ensures steps'[|steps'| - 1].ReleaseHost? && steps'[|steps'| - 1].mkey == mkey
  {
    var h;
    tr', steps', h := AddHost(scan, tr, steps, None);
    tr', steps' := ClaimNow(scan, tr', steps', h, CLAIMING.(finalizer := true));
    VersionedHolds(scan, tr', steps', |steps'|);
    NamesHost(mkey, NAMING.(finalizer := true, deleting := true));
    assert LiveClaim(Last(tr'), HOST);
    tr', steps' := Extend(scan, tr', steps',
                          ReleaseHost(mkey, NAMING.(finalizer := true, deleting := true), HOST, Last(tr').hosts[HOST]));
  }

  /** The naming machine, stored under the claimant's name, is deleted, and the claimant is
      created in its place. */
  lemma Succeed(scan: Scanner, tr: seq<Server>, steps: seq<Step>) returns (tr': seq<Server>, steps': seq<Step>)
    requires Run(scan, tr, steps) && HasMachine(Last(tr), CLAIMANT, NAMING.(finalizer := true))
    requires forall e | e in Last(tr).machinePast :: e.1.uid == NAMING.uid
    ensures Run(scan, tr', steps') && Last(tr').hosts == Last(tr).hosts && Last(tr).machinePast <= Last(tr').machinePast
    ensures HasMachine(Last(tr'), CLAIMANT, CLAIMING.(finalizer := true)) && HasNamesake(Last(tr'), CLAIMANT)
  {
    var m := NAMING.(finalizer := true);
    tr', steps' := MarkDeleting(scan, tr, steps, CLAIMANT, m);
    tr', steps' := DropMachine(scan, tr', steps', CLAIMANT, m.(deleting := true));
    tr', steps' := AddMachine(scan, tr', steps', CLAIMANT, CLAIMING);
  }

  /** A machine is deleted and another is created under its name; a late pass on a copy of the
      first takes the second one's host. */
  lemma StolenByPredecessor(scan: Scanner) returns (tr: seq<Server>, steps: seq<Step>)
    ensures Run(scan, tr, steps) && |steps| > 0
    ensures steps[|steps| - 1].ReleaseHost? && steps[|steps| - 1].mkey == CLAIMANT
    ensures LiveClaim(tr[|steps| - 1], HOST) && Drops(tr, |steps| - 1, HOST)
  {
    tr, steps := WithMachine(scan, CLAIMANT, NAMING);
    tr, steps := Succeed(scan, tr, steps);
    tr, steps := Stolen(scan, tr, steps, CLAIMANT);
  }

  /** So does the deletion of a machine of the same name in another namespace, on current copies:
      deletion follows the ProviderID into any namespace. */
  lemma StolenFromAbroad(scan: Scanner) returns (tr: seq<Server>, steps: seq<Step>)
    ensures Run(scan, tr, steps) && |steps| > 0 && steps[|steps| - 1].ReleaseHost? && steps[|steps| - 1].mkey == ABROAD
    ensures LiveClaim(tr[|steps| - 1], HOST) && Drops(tr, |steps| - 1, HOST)
  {
    tr, steps := WithMachine(scan, CLAIMANT, CLAIMING);
    tr, steps := AddMachine(scan, tr, steps, ABROAD, NAMING);
    tr, steps := MarkDeleting(scan, tr, steps, ABROAD, NAMING.(finalizer := true));
    tr, steps := Stolen(scan, tr, steps, ABROAD);
  }

  lemma WritesForeignID(scan: Scanner, sv: Server, s: Step, m: Machine)
    requires Enabled(sv, s) && s.HandleHost? && s.key == HOST && s.snap.host.status.state == Ready
    requires HasMachine(sv, s.mkey, m) && !m.deleting && s.msnap == NAMING.(finalizer := true)
    ensures HasMachine(Apply(scan, sv, s), s.mkey, m.(providerID := Some(Canonical(HOST))))
  {
    assert Canonical(HOST)[0] == 'b' && "?????n/h"[0] == '?';
  }

  /** A pass on the copy of the naming machine over the Ready host, after the stored machine became
      another or was edited. */
  lemma PatchNow(scan: Scanner, tr: seq<Server>, steps: seq<Step>, h: Host, mkey: Key, m: Machine)
    returns (tr': seq<Server>, steps': seq<Step>)
    requires Run(scan, tr, steps) && HasHost(Last(tr), h) && h.status.state == Ready
    requires mkey.namespace == "n" && (mkey, NAMING.(finalizer := true)) in Last(tr).machinePast
    requires HasMachine(Last(tr), mkey, m) && !m.deleting
    ensures Run(scan, tr', steps') && |steps'| == |steps| + 1 && tr'[|steps|] == Last(tr)
    ensures HasMachine(Last(tr'), mkey, m.(providerID := Some(Canonical(HOST))))
  {
    VersionedHolds(scan, tr, steps, |steps|);
    NamesHost(mkey, NAMING.(finalizer := true));
    var s := HandleHost(mkey, NAMING.(finalizer := true), HOST, Last(tr).hosts[HOST], 0, true, "");
    WritesForeignID(scan, Last(tr), s, m);
    tr', steps' := Extend(scan, tr, steps, s);
  }

  /** A late pass on a copy of an earlier machine of the same name writes the ID of that one's
      host into the new machine, which named none. */
  lemma ForeignPatch(scan: Scanner) returns (tr: seq<Server>, steps: seq<Step>)
    ensures Run(scan, tr, steps) && |steps| > 0
    ensures HasMachine(tr[|steps| - 1], CLAIMANT, CLAIMING.(finalizer := true))
    ensures HasMachine(Last(tr), CLAIMANT, CLAIMING.(finalizer := true, providerID := Some(Canonical(HOST))))
  {
    var h;
    tr, steps := WithMachine(scan, CLAIMANT, NAMING);
    tr, steps, h := AddHost(scan, tr, steps, Some(RefOf(CLAIMANT, NAMING)));
    tr, steps, h := Inspect(scan, tr, steps, CLAIMANT, h);
    tr, steps := Succeed(scan, tr, steps);
    tr, steps := PatchNow(scan, tr, steps, h, CLAIMANT, CLAIMING.(finalizer := true));
  }

  /** A user edits the ProviderID of a machine, and a late pass on the copy from before the edit
      writes back the host that it named. */
  lemma EditOverwritten(scan: Scanner) returns (tr: seq<Server>, steps: seq<Step>)
    ensures Run(scan, tr, steps) && |steps| > 0
    ensures HasMachine(tr[|steps| - 1], OTHER, NAMING.(finalizer := true, providerID := None))
    ensures HasMachine(Last(tr), OTHER, NAMING.(finalizer := true, providerID := Some(Canonical(HOST))))
  {
    var h;
    tr, steps := WithMachine(scan, OTHER, NAMING);
    tr, steps, h := AddHost(scan, tr, steps, Some(RefOf(OTHER, NAMING)));
    tr, steps, h := Inspect(scan, tr, steps, OTHER, h);
    tr, steps := Extend(scan, tr, steps, EditMachine(OTHER, None, NAMING.requirements));
    tr, steps := PatchNow(scan, tr, steps, h, OTHER, NAMING.(finalizer := true, providerID := None));
  }
}
