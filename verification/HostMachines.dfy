/**
What every run does to machines. Patches and releases name a machine by its key and act on
copies; names may be used again, so a copy may be of an earlier machine of the same name.
*/
module HostMachines {
  import opened Options
  import opened Hardware
  import opened HostModel
  import opened HostRuns
  import opened HostHistories
  import opened HostTheorems
  import ProviderIds

  function Canonical(key: Key): string {
    ProviderIds.Print(key.namespace, key.name)
  }

  /** Writing the canonical ID of an associated host keeps the association. */
  lemma CanonicalKeepsAssociation(mkey: Key, m: Machine)
    requires Associated(mkey, m).Some?
    ensures var key := Associated(mkey, m).value;
            forall m': Machine | m'.providerID == Some(Canonical(key)) :: Associated(mkey, m') == Some(key)
  {
    ProviderIds.PrintAfterParse(m.providerID.value);
  }

  // ----- the association

  /** The ProviderID of a machine changes only to the canonical ID of the host that it names. */
  predicate KeepsName(mkey: Key, m: Machine, m': Machine) {
    && Associated(mkey, m') == Associated(mkey, m)
    && (m'.providerID == m.providerID
        || (Associated(mkey, m).Some? && m'.providerID == Some(Canonical(Associated(mkey, m).value))))
  }

  /** A user edits this machine. */
  predicate Edits(s: Step, mkey: Key) {
    s.EditMachine? && s.mkey == mkey
  }

  /** A pass over a Ready host that is about to write its ID acts on the host that the stored
      machine names, and an edit by a user keeps naming that host. */
  predicate Heeds(sv: Server, s: Step, mkey: Key) {
    mkey in sv.machines ==>
      && (Edits(s, mkey) ==> AssociatedBy(mkey, s.providerID) == Associated(mkey, sv.machines[mkey]))
      && (s.HandleHost? && s.mkey == mkey && s.snap.host.status.state == Ready
          && s.msnap.providerID != Some(Canonical(s.key))
          ==> Associated(mkey, sv.machines[mkey]) == Some(s.key))
  }

  lemma PatchedProviderID(sv: Server, mkey: Key, before: Machine, after: Machine)
    requires mkey in sv.machines && mkey in MergePatch(sv, mkey, before, after).machines
    requires after.finalizer == before.finalizer || after.providerID == before.providerID
    ensures MergePatch(sv, mkey, before, after).machines[mkey].providerID ==
            if after.providerID == before.providerID then sv.machines[mkey].providerID else after.providerID
  {
  }

  predicate IsMachineStep(s: Step) {
    s.CreateMachine? || s.EditMachine? || s.DeleteMachine? || s.AddMachineFinalizer? || s.DropMachineFinalizer?
  }

  lemma HostStepLeavesMachines(scan: Scanner, sv: Server, s: Step)
    requires Enabled(sv, s) && !IsMachineStep(s) && !s.HandleHost?
    ensures Apply(scan, sv, s).machines == sv.machines && Apply(scan, sv, s).machinePast == sv.machinePast
  {
  }

  /** Steps other than edits and passes over a Ready host leave ProviderIDs alone. */
  lemma OthersLeaveProviderID(scan: Scanner, sv: Server, s: Step, mkey: Key)
    requires Enabled(sv, s) && mkey in sv.machines && mkey in Apply(scan, sv, s).machines
    requires !Edits(s, mkey) && (s.HandleHost? ==> s.mkey != mkey || s.snap.host.status.state != Ready)
    ensures Apply(scan, sv, s).machines[mkey].providerID == sv.machines[mkey].providerID
  {
    if !IsMachineStep(s) && !s.HandleHost? {
      HostStepLeavesMachines(scan, sv, s);
    }
  }

  /** From one state to the next, a machine that stays names the same host exactly if the step
      heeds it; then, but for edits, its ProviderID changes at most to the canonical one. */
  lemma HeedsExactly(scan: Scanner, sv: Server, s: Step, mkey: Key)
    requires Enabled(sv, s) && mkey in sv.machines && mkey in Apply(scan, sv, s).machines
    ensures Associated(mkey, Apply(scan, sv, s).machines[mkey]) == Associated(mkey, sv.machines[mkey]) <==>
            Heeds(sv, s, mkey)
    ensures Heeds(sv, s, mkey) && !Edits(s, mkey) ==>
              KeepsName(mkey, sv.machines[mkey], Apply(scan, sv, s).machines[mkey])
  {
    if Edits(s, mkey) {
      assert Apply(scan, sv, s).machines[mkey].providerID == s.providerID;
    } else if s.HandleHost? && s.mkey == mkey && s.snap.host.status.state == Ready {
      PatchedProviderID(sv, mkey, s.msnap, s.msnap.(providerID := Some(Canonical(s.key))));
      CanonicalKeepsAssociation(mkey, s.msnap);
    } else {
      OthersLeaveProviderID(scan, sv, s, mkey);
    }
  }

  predicate SameHost(tr: seq<Server>, mkey: Key, i: nat, j: nat)
    requires i < |tr| && j < |tr|
  {
    && mkey in tr[i].machines && mkey in tr[j].machines
    && Associated(mkey, tr[i].machines[mkey]) == Associated(mkey, tr[j].machines[mkey])
  }

  predicate SameName(tr: seq<Server>, mkey: Key, i: nat, j: nat)
    requires i < |tr| && j < |tr|
  {
    mkey in tr[i].machines && mkey in tr[j].machines && KeepsName(mkey, tr[i].machines[mkey], tr[j].machines[mkey])
  }

  predicate HeedsAt(tr: seq<Server>, steps: seq<Step>, mkey: Key, j: nat)
    requires j < |steps| < |tr|
  {
    Heeds(tr[j], steps[j], mkey)
  }

  ghost predicate HeedsAll(tr: seq<Server>, steps: seq<Step>, j: nat)
    requires j < |steps| < |tr|
  {
    forall mkey: Key :: HeedsAt(tr, steps, mkey, j)
  }

  lemma HeedsExactlyAt(scan: Scanner, tr: seq<Server>, steps: seq<Step>, k: nat, mkey: Key)
    requires Run(scan, tr, steps) && k < |steps| && mkey in tr[k].machines && mkey in tr[k + 1].machines
    ensures HeedsAt(tr, steps, mkey, k) <==> SameHost(tr, mkey, k, k + 1)
    ensures HeedsAt(tr, steps, mkey, k) && !Edits(steps[k], mkey) ==> SameName(tr, mkey, k, k + 1)
  {
    assert MovesAt(scan, tr, steps, k);
    HeedsExactly(scan, tr[k], steps[k], mkey);
  }

  lemma SameHostNext(scan: Scanner, tr: seq<Server>, steps: seq<Step>, i: nat, k: nat, mkey: Key)
    requires Run(scan, tr, steps) && i <= k < |steps| && mkey in tr[k + 1].machines && SameHost(tr, mkey, i, k)
    ensures SameHost(tr, mkey, i, k + 1) <==> HeedsAt(tr, steps, mkey, k)
  {
    HeedsExactlyAt(scan, tr, steps, k, mkey);
  }

  /** Stable association: as long as a machine stays, the host that its ProviderID names in its
      own namespace stays the same exactly if every step heeds it. */
  lemma {:induction false} AssociationStable(scan: Scanner, tr: seq<Server>, steps: seq<Step>, i: nat, k: nat,
                                             mkey: Key)
    requires Run(scan, tr, steps) && i <= k < |tr|
    requires forall j | i <= j <= k :: mkey in tr[j].machines
    ensures (forall j | i <= j <= k :: SameHost(tr, mkey, i, j)) <==>
            (forall j | i <= j < k :: HeedsAt(tr, steps, mkey, j))
  {
    if i == k {
      assert SameHost(tr, mkey, i, i);
    } else {
      AssociationStable(scan, tr, steps, i, k - 1, mkey);
      if SameHost(tr, mkey, i, k - 1) {
        SameHostNext(scan, tr, steps, i, k - 1, mkey);
      }
    }
  }

  lemma SameNameNext(scan: Scanner, tr: seq<Server>, steps: seq<Step>, i: nat, k: nat, mkey: Key)
    requires Run(scan, tr, steps) && i <= k < |steps| && mkey in tr[k + 1].machines && SameName(tr, mkey, i, k)
    requires HeedsAt(tr, steps, mkey, k) && !Edits(steps[k], mkey)
    ensures SameName(tr, mkey, i, k + 1)
  {
    HeedsExactlyAt(scan, tr, steps, k, mkey);
  }

  /** If moreover no user edits the machine, the ProviderID changes at most to the canonical one,
      and one that names no host of its namespace, or is absent, never changes. */
  lemma {:induction false} ProviderIDStable(scan: Scanner, tr: seq<Server>, steps: seq<Step>, i: nat, k: nat, mkey: Key)
    requires Run(scan, tr, steps) && i <= k < |tr|
    requires forall j | i <= j <= k :: mkey in tr[j].machines
    requires forall j | i <= j < k :: HeedsAt(tr, steps, mkey, j) && !Edits(steps[j], mkey)
    ensures SameName(tr, mkey, i, k)
    ensures Associated(mkey, tr[i].machines[mkey]).None? ==>
              tr[k].machines[mkey].providerID == tr[i].machines[mkey].providerID
  {
    if i == k {
    } else {
      ProviderIDStable(scan, tr, steps, i, k - 1, mkey);
      SameNameNext(scan, tr, steps, i, k - 1, mkey);
    }
  }

  // ----- copies and the machines they are of

  /** A UID belongs to one name, and no copy of the stored machine is being deleted before it is. */
  predicate Tracked(sv: Server) {
    && (forall mkey | mkey in sv.machines :: (mkey, sv.machines[mkey]) in sv.machinePast)
    && (forall e, f | e in sv.machinePast && f in sv.machinePast && e.1.uid == f.1.uid :: e.0 == f.0)
    && (forall e | e in sv.machinePast && e.0 in sv.machines && e.1.uid == sv.machines[e.0].uid && e.1.deleting ::
          sv.machines[e.0].deleting)
  }

  /** Copies of the stored machine name the host that it names. */
  predicate CopiesAgree(sv: Server) {
    forall e | e in sv.machinePast && e.0 in sv.machines && e.1.uid == sv.machines[e.0].uid ::
      Associated(e.0, e.1) == Associated(e.0, sv.machines[e.0])
  }

  /** All copies under a name are of the machine stored under it. */
  predicate NoPredecessors(sv: Server) {
    forall e | e in sv.machinePast && e.0 in sv.machines :: e.1.uid == sv.machines[e.0].uid
  }

  /** A pass over a host acts on a copy of the machine that is stored. */
  predicate OwnCopy(sv: Server, s: Step) {
    s.HandleHost? && s.mkey in sv.machines ==> s.msnap.uid == sv.machines[s.mkey].uid
  }

  /** An edit by a user keeps naming the host that the machine names. */
  predicate SameHostEdit(sv: Server, s: Step) {
    s.EditMachine? && s.mkey in sv.machines ==>
      AssociatedBy(s.mkey, s.providerID) == Associated(s.mkey, sv.machines[s.mkey])
  }

  /** A machine is created under a name that was never used. */
  predicate FreshName(sv: Server, s: Step) {
    s.CreateMachine? ==> forall e | e in sv.machinePast :: e.0 != s.mkey
  }

  /** What a step does to the stored machines: nothing, a machine new to the server is stored, a
      machine is replaced by its own next version, or one is gone. */
  datatype Change = Stay | Add(mkey: Key, m: Machine) | Replace(mkey: Key, m: Machine) | Drop(mkey: Key)

  predicate Fits(sv: Server, c: Change) {
    match c
    case Stay => true
    case Add(mkey, m) => mkey !in sv.machines && forall e | e in sv.machinePast :: e.1.uid != m.uid
    case Replace(mkey, m) =>
      mkey in sv.machines && m.uid == sv.machines[mkey].uid && (sv.machines[mkey].deleting ==> m.deleting)
    case Drop(mkey) => true
  }

  predicate Makes(sv: Server, c: Change, sv': Server) {
    match c
    case Stay => sv'.machines == sv.machines && sv'.machinePast == sv.machinePast
    case Add(mkey, m) => sv'.machines == sv.machines[mkey := m] && sv'.machinePast == sv.machinePast + {(mkey, m)}
    case Replace(mkey, m) => sv'.machines == sv.machines[mkey := m] && sv'.machinePast == sv.machinePast + {(mkey, m)}
    case Drop(mkey) => sv'.machines == sv.machines - {mkey} && sv'.machinePast == sv.machinePast
  }

  lemma PatchChanges(sv: Server, mkey: Key, before: Machine, after: Machine) returns (c: Change)
    ensures Fits(sv, c) && Makes(sv, c, MergePatch(sv, mkey, before, after))
    ensures !c.Add? && (c.Replace? ==> c.mkey == mkey)
    ensures c.Replace? ==>
              c.m.providerID
              == if after.providerID != before.providerID then after.providerID else sv.machines[mkey].providerID
  {
    var sv' := MergePatch(sv, mkey, before, after);
    c := if sv' == sv then Stay else if mkey in sv'.machines then Replace(mkey, sv'.machines[mkey]) else Drop(mkey);
  }

  lemma MachineStepChanges(scan: Scanner, sv: Server, s: Step) returns (c: Change)
    requires Enabled(sv, s) && IsMachineStep(s)
    ensures Fits(sv, c) && Makes(sv, c, Apply(scan, sv, s))
    ensures c.Add? ==> s.CreateMachine? && c.mkey == s.mkey
    ensures c.Replace? ==>
              c.m.providerID == if Edits(s, c.mkey) then s.providerID else sv.machines[c.mkey].providerID
  {
    match s
    case CreateMachine(mkey, m) => c := Add(mkey, m);
    case EditMachine(mkey, id, reqs) => c := Replace(mkey, sv.machines[mkey].(providerID := id, requirements := reqs));
    case DeleteMachine(mkey) =>
      c := if sv.machines[mkey].finalizer then Replace(mkey, sv.machines[mkey].(deleting := true)) else Drop(mkey);
    case AddMachineFinalizer(mkey, m) => c := PatchChanges(sv, mkey, m, m.(finalizer := true));
    case DropMachineFinalizer(mkey, m) => c := PatchChanges(sv, mkey, m, m.(finalizer := false));
  }

  lemma HandleChanges(scan: Scanner, sv: Server, s: Step) returns (c: Change)
    requires Enabled(sv, s) && s.HandleHost?
    ensures Fits(sv, c) && Makes(sv, c, Apply(scan, sv, s)) && !c.Add?
    ensures c.Replace? && c.m.providerID != sv.machines[c.mkey].providerID ==>
              c.mkey == s.mkey && c.m.providerID == Some(Canonical(s.key))
  {
    if s.snap.host.status.state == Ready {
      c := PatchChanges(sv, s.mkey, s.msnap, s.msnap.(providerID := Some(Canonical(s.key))));
    } else {
      c := Stay;
    }
  }

  /** The change that a step makes, and what it does to the ProviderID. */
  lemma StepChanges(scan: Scanner, sv: Server, s: Step) returns (c: Change)
    requires Enabled(sv, s)
    ensures Fits(sv, c) && Makes(sv, c, Apply(scan, sv, s))
    ensures c.Add? ==> s.CreateMachine? && c.mkey == s.mkey
    ensures c.Replace? && c.m.providerID != sv.machines[c.mkey].providerID ==>
              if Edits(s, c.mkey) then c.m.providerID == s.providerID
              else s.HandleHost? && c.mkey == s.mkey && c.m.providerID == Some(Canonical(s.key))
  {
    if IsMachineStep(s) {
      c := MachineStepChanges(scan, sv, s);
    } else if s.HandleHost? {
      c := HandleChanges(scan, sv, s);
    } else {
      HostStepLeavesMachines(scan, sv, s);
      c := Stay;
    }
  }

  lemma ChangeKeepsTracked(sv: Server, c: Change, sv': Server)
    requires Tracked(sv) && Fits(sv, c) && Makes(sv, c, sv')
    ensures Tracked(sv')
  {
  }

  lemma ChangeKeepsAgreement(sv: Server, c: Change, sv': Server)
    requires CopiesAgree(sv) && Fits(sv, c) && Makes(sv, c, sv')
    requires c.Replace? ==> Associated(c.mkey, c.m) == Associated(c.mkey, sv.machines[c.mkey])
    ensures CopiesAgree(sv')
  {
  }

  lemma ChangeKeepsNoPredecessors(sv: Server, c: Change, sv': Server)
    requires NoPredecessors(sv) && Fits(sv, c) && Makes(sv, c, sv')
    requires c.Add? ==> forall e | e in sv.machinePast :: e.0 != c.mkey
    ensures NoPredecessors(sv')
  {
  }

  lemma TrackedAt(scan: Scanner, tr: seq<Server>, steps: seq<Step>, k: nat)
    requires Run(scan, tr, steps) && k < |steps| && Tracked(tr[k])
    ensures Tracked(tr[k + 1])
  {
    assert MovesAt(scan, tr, steps, k);
    var c := StepChanges(scan, tr[k], steps[k]);
    ChangeKeepsTracked(tr[k], c, tr[k + 1]);
  }

  lemma {:induction false} TrackedHolds(scan: Scanner, tr: seq<Server>, steps: seq<Step>, k: nat)
    requires Run(scan, tr, steps) && k < |tr|
    ensures Tracked(tr[k])
  {
    if k == 0 {
    } else {
      TrackedHolds(scan, tr, steps, k - 1);
      TrackedAt(scan, tr, steps, k - 1);
    }
  }

  /** A pass on a copy of the stored machine heeds it, and leaves the copies in agreement. */
  lemma OwnCopyHeeds(scan: Scanner, sv: Server, s: Step)
    requires CopiesAgree(sv) && Enabled(sv, s) && OwnCopy(sv, s) && SameHostEdit(sv, s)
    ensures CopiesAgree(Apply(scan, sv, s)) && forall mkey: Key :: Heeds(sv, s, mkey)
  {
    var c := StepChanges(scan, sv, s);
    if s.HandleHost? {
      assert (s.mkey, s.msnap) in sv.machinePast;
      CanonicalKeepsAssociation(s.mkey, s.msnap);
    }
    ChangeKeepsAgreement(sv, c, Apply(scan, sv, s));
  }

  lemma OwnCopyHeedsAt(scan: Scanner, tr: seq<Server>, steps: seq<Step>, k: nat)
    requires Run(scan, tr, steps) && k < |steps| && CopiesAgree(tr[k])
    requires OwnCopy(tr[k], steps[k]) && SameHostEdit(tr[k], steps[k])
    ensures CopiesAgree(tr[k + 1]) && HeedsAll(tr, steps, k)
  {
    assert MovesAt(scan, tr, steps, k);
    OwnCopyHeeds(scan, tr[k], steps[k]);
  }

  /** If passes over hosts act on copies of the machines that are stored, and edits keep the host
      named, every step heeds every machine, so every association is stable. */
  lemma {:induction false} OwnCopiesHeed(scan: Scanner, tr: seq<Server>, steps: seq<Step>, k: nat)
    requires Run(scan, tr, steps) && k < |tr|
    requires forall j | 0 <= j < k :: OwnCopy(tr[j], steps[j]) && SameHostEdit(tr[j], steps[j])
    ensures CopiesAgree(tr[k]) && forall j | 0 <= j < k :: HeedsAll(tr, steps, j)
  {
    if k == 0 {
    } else {
      OwnCopiesHeed(scan, tr, steps, k - 1);
      OwnCopyHeedsAt(scan, tr, steps, k - 1);
    }
  }

  lemma FreshNameAt(scan: Scanner, tr: seq<Server>, steps: seq<Step>, k: nat)
    requires Run(scan, tr, steps) && k < |steps| && NoPredecessors(tr[k]) && FreshName(tr[k], steps[k])
    ensures NoPredecessors(tr[k + 1]) && OwnCopy(tr[k], steps[k])
  {
    assert MovesAt(scan, tr, steps, k);
    var c := StepChanges(scan, tr[k], steps[k]);
    ChangeKeepsNoPredecessors(tr[k], c, tr[k + 1]);
    if steps[k].HandleHost? {
      assert (steps[k].mkey, steps[k].msnap) in tr[k].machinePast;
    }
  }

  /** And if no name is used again, passes act on such copies. */
  lemma {:induction false} FreshNamesSuffice(scan: Scanner, tr: seq<Server>, steps: seq<Step>, k: nat)
    requires Run(scan, tr, steps) && k < |tr|
    requires forall j | 0 <= j < k :: FreshName(tr[j], steps[j])
    ensures NoPredecessors(tr[k]) && forall j | 0 <= j < k :: OwnCopy(tr[j], steps[j])
  {
    if k == 0 {
    } else {
      FreshNamesSuffice(scan, tr, steps, k - 1);
      FreshNameAt(scan, tr, steps, k - 1);
    }
  }

  // ----- whose claim a release drops

  /** The host's consumer is a stored machine that is not being deleted. */
  predicate LiveClaim(sv: Server, key: Key) {
    ConsumerAt(sv, key).Some? &&
    var r := ConsumerAt(sv, key).value;
    var mkey := Key(r.namespace, r.name);
    mkey in sv.machines && sv.machines[mkey].uid == r.uid && !sv.machines[mkey].deleting
  }

  /** A release acts for a machine that is being deleted or gone, if the UID of its copy is that
      of the machine stored under its name; and on a copy with the consumer's UID it never drops
      the claim of a live machine. */
  lemma RightfulRelease(scan: Scanner, tr: seq<Server>, steps: seq<Step>, k: nat)
    requires Run(scan, tr, steps) && k < |steps| && steps[k].ReleaseHost?
    ensures var s := steps[k];
            s.mkey in tr[k].machines && tr[k].machines[s.mkey].uid == s.msnap.uid ==> tr[k].machines[s.mkey].deleting
    ensures var s := steps[k];
            ConsumerAt(tr[k], s.key).Some? && ConsumerAt(tr[k], s.key).value.uid == s.msnap.uid ==>
              !LiveClaim(tr[k], s.key)
  {
    TrackedHolds(scan, tr, steps, k);
    assert MovesAt(scan, tr, steps, k);
    assert (steps[k].mkey, steps[k].msnap) in tr[k].machinePast;
  }

  /** The consumer of a host is dropped at this step. */
  predicate Drops(tr: seq<Server>, k: nat, key: Key)
    requires k + 1 < |tr|
  {
    ConsumerAt(tr[k], key).Some? && key in tr[k + 1].hosts && ConsumerAt(tr[k + 1], key).None?
  }

  /** A step takes a host from a live machine exactly if a user does it by hand, or it is a
      release that goes through on a copy of another machine of the consumer's name. */
  lemma StolenReleaseExactly(scan: Scanner, tr: seq<Server>, steps: seq<Step>, k: nat, key: Key)
    requires Run(scan, tr, steps) && k < |steps| && LiveClaim(tr[k], key)
    ensures Drops(tr, k, key) <==>
            || steps[k] == ClearConsumer(key)
            || (&& steps[k].ReleaseHost? && steps[k].key == key && Current(tr[k], key, steps[k].snap)
                && steps[k].msnap.uid != ConsumerAt(tr[k], key).value.uid)
  {
    assert MovesAt(scan, tr, steps, k);
    VersionedHolds(scan, tr, steps, k);
    if Drops(tr, k, key) {
      NoStolenClaim(scan, tr, steps, k, key);
      if steps[k].ReleaseHost? {
        RightfulRelease(scan, tr, steps, k);
        ReleaseGoesThrough(scan, tr, steps, k);
      }
    } else if steps[k].ReleaseHost? && steps[k].key == key && Current(tr[k], key, steps[k].snap) {
      ReleaseGoesThrough(scan, tr, steps, k);
      assert false;
    }
  }

  lemma ReleaseGoesThrough(scan: Scanner, tr: seq<Server>, steps: seq<Step>, k: nat)
    requires |tr| == |steps| + 1 && k < |steps| && MovesAt(scan, tr, steps, k)
    requires Versioned(tr[k]) && steps[k].ReleaseHost?
    ensures var key := steps[k].key;
            if Current(tr[k], key, steps[k].snap)
            then ConsumerAt(tr[k + 1], key).None? && key in tr[k + 1].hosts
            else tr[k + 1] == tr[k]
  {
    ReleaseIsAtomic(scan, tr[k], steps[k]);
  }

  // ----- inspection needs a ProviderID given in advance

  predicate LeftUnassociated(s: Step) {
    && (s.CreateMachine? ==> Associated(s.mkey, s.machine).None?)
    && (s.EditMachine? ==> AssociatedBy(s.mkey, s.providerID).None?)
  }

  predicate AllUnassociated(sv: Server) {
    && (forall e | e in sv.machinePast :: Associated(e.0, e.1).None?)
    && (forall mkey | mkey in sv.machines :: Associated(mkey, sv.machines[mkey]).None?)
  }

  lemma StaysUnassociated(scan: Scanner, sv: Server, s: Step)
    requires AllUnassociated(sv) && Enabled(sv, s) && LeftUnassociated(s)
    ensures AllUnassociated(Apply(scan, sv, s)) && !s.HandleHost?
  {
    if !IsMachineStep(s) && !s.HandleHost? {
      HostStepLeavesMachines(scan, sv, s);
    }
  }

  lemma {:induction false} UnassociatedHolds(scan: Scanner, tr: seq<Server>, steps: seq<Step>, k: nat)
    requires Run(scan, tr, steps) && k < |tr|
    requires forall j | 0 <= j < k :: LeftUnassociated(steps[j])
    ensures AllUnassociated(tr[k]) && forall j | 0 <= j < k :: !steps[j].HandleHost?
  {
    if k == 0 {
    } else {
      UnassociatedHolds(scan, tr, steps, k - 1);
      assert MovesAt(scan, tr, steps, k - 1);
      StaysUnassociated(scan, tr[k - 1], steps[k - 1]);
    }
  }

  /** If no user gives a machine a ProviderID that names a host of its namespace, no host
      is ever inspected, let alone Ready: claiming alone does not lead there. */
  lemma NoInspectionWithoutProviderID(scan: Scanner, tr: seq<Server>, steps: seq<Step>, k: nat, key: Key)
    requires Run(scan, tr, steps) && k < |tr|
    requires forall j | 0 <= j < k :: LeftUnassociated(steps[j])
    ensures StateAt(tr[k], key) != Inspecting && StateAt(tr[k], key) != Ready
  {
    UnassociatedHolds(scan, tr, steps, k);
    if StateAt(tr[k], key) == Ready {
      var a, b, c := ReadyNeedsFreshEvidence(scan, tr, steps, key, k);
      assert false;
    } else if StateAt(tr[k], key) == Inspecting {
      RunIsHistory(scan, tr, steps, key);
      var hs, es := HostsOf(tr, key), EditsOf(scan, tr, steps, key);
      var a := TriggeredBefore(scan, hs, es, k);
      EditSource(scan, tr[a], steps[a], key);
      assert false;
    }
  }
}
