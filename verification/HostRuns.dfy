/**
Runs of the claim / inspect / validate protocol. A step is one write attempt of a controller
or a user. Controllers act on copies read at any earlier time; the store refuses a host write
whose copy is no longer current.
*/
module HostRuns {
  import opened Clock
  import opened Options
  import opened Hardware
  import opened HostModel

  datatype Step =
    // users
    | CreateHost(key: Key, connection: Connection, consumer: Option<Ref>)
    | EditHost(key: Key, connection: Connection)
    | DeleteHost(key: Key)
    | ClearConsumer(key: Key)
    | StripFinalizer(key: Key)
    | CreateMachine(mkey: Key, machine: Machine)
    | EditMachine(mkey: Key, providerID: Option<string>, requirements: Option<Requirements>)
    | DeleteMachine(mkey: Key)
    // host reconciler
    | AddHostFinalizer(key: Key, snap: Stored)
    | ObserveHost(key: Key, snap: Stored, seen: Observation)
    | DropHostFinalizer(key: Key, snap: Stored)
    // machine reconciler
    | AddMachineFinalizer(mkey: Key, msnap: Machine)
    | ClaimHost(mkey: Key, msnap: Machine, list: seq<(Key, Stored)>)
    | HandleHost(mkey: Key, msnap: Machine, key: Key, snap: Stored, now: Time, bmcOk: bool, text: string)
    | ReleaseHost(mkey: Key, msnap: Machine, key: Key, snap: Stored)
    | DropMachineFinalizer(mkey: Key, msnap: Machine)
    // inspection handler
    | PostReport(key: Key, snap: Stored, posted: Posted, now: Time)

  function FirstClaimable(list: seq<(Key, Stored)>, from: nat): (k: nat)
    requires from <= |list|
    ensures from <= k <= |list|
    ensures forall i | from <= i < k :: !Claimable(list[i].1.host)
    ensures k < |list| ==> Claimable(list[k].1.host)
    decreases |list| - from
  {
    if from < |list| && !Claimable(list[from].1.host) then FirstClaimable(list, from + 1) else from
  }

  /** The server gives every new machine a UID of its own; names may be used again. */
  predicate Enabled(sv: Server, s: Step) {
    match s
    case CreateHost(key, _, _) => key !in sv.hosts
    case EditHost(key, _) => key in sv.hosts
    case DeleteHost(key) => key in sv.hosts
    case ClearConsumer(key) => key in sv.hosts
    case StripFinalizer(key) => key in sv.hosts
    case CreateMachine(mkey, m) =>
      mkey !in sv.machines && (forall e | e in sv.machinePast :: e.1.uid != m.uid) && !m.finalizer && !m.deleting
    case EditMachine(mkey, _, _) => mkey in sv.machines
    case DeleteMachine(mkey) => mkey in sv.machines
    case AddHostFinalizer(key, snap) => (key, snap) in sv.hostPast && !snap.host.deleting && !snap.host.finalizer
    case ObserveHost(key, snap, _) => (key, snap) in sv.hostPast && !snap.host.deleting && snap.host.finalizer
    case DropHostFinalizer(key, snap) => (key, snap) in sv.hostPast && snap.host.deleting && snap.host.finalizer
    case AddMachineFinalizer(mkey, m) => (mkey, m) in sv.machinePast && !m.deleting && !m.finalizer
    case ClaimHost(mkey, m, list) =>
      && (mkey, m) in sv.machinePast && !m.deleting && m.finalizer
      && (forall i | 0 <= i < |list| :: list[i] in sv.hostPast && list[i].0.namespace == mkey.namespace)
    case HandleHost(mkey, m, key, snap, _, _, _) =>
      && (mkey, m) in sv.machinePast && !m.deleting && m.finalizer
      && (key, snap) in sv.hostPast && Associated(mkey, m) == Some(key)
    case ReleaseHost(mkey, m, key, snap) =>
      && (mkey, m) in sv.machinePast && m.deleting
      && (key, snap) in sv.hostPast && Named(m) == Some(key)
      && snap.host.consumer.Some? && snap.host.consumer.value.name == mkey.name
    case DropMachineFinalizer(mkey, m) => (mkey, m) in sv.machinePast && m.deleting
    case PostReport(key, snap, _, _) => (key, snap) in sv.hostPast
  }

  function Apply(scan: Scanner, sv: Server, s: Step): Server
    requires Enabled(sv, s)
  {
    match s
    case CreateHost(key, connection, consumer) => Put(sv, key, Host(connection, consumer, false, false, NEW_STATUS))
    case EditHost(key, connection) => Write(sv, key, sv.hosts[key].host.(connection := connection))
    case DeleteHost(key) => Write(sv, key, sv.hosts[key].host.(deleting := true))
    case ClearConsumer(key) => Write(sv, key, sv.hosts[key].host.(consumer := None))
    case StripFinalizer(key) => Write(sv, key, sv.hosts[key].host.(finalizer := false))
    case CreateMachine(mkey, m) => PutMachine(sv, mkey, m)
    case EditMachine(mkey, id, reqs) => PutMachine(sv, mkey, sv.machines[mkey].(providerID := id, requirements := reqs))
    case DeleteMachine(mkey) =>
      var m := sv.machines[mkey];
      if m.finalizer then PutMachine(sv, mkey, m.(deleting := true)) else sv.(machines := sv.machines - {mkey})
    case AddHostFinalizer(key, snap) => Update(sv, key, snap.(host := snap.host.(finalizer := true)))
    case ObserveHost(key, snap, o) => UpdateStatus(sv, key, snap.(host := snap.host.(status := Observed(snap.host, o))))
    case DropHostFinalizer(key, snap) => Update(sv, key, snap.(host := snap.host.(finalizer := false)))
    case AddMachineFinalizer(mkey, m) => MergePatch(sv, mkey, m, m.(finalizer := true))
    case ClaimHost(mkey, m, list) =>
      var k := FirstClaimable(list, 0);
      if k == |list| then sv
      else Update(sv, list[k].0, list[k].1.(host := list[k].1.host.(consumer := Some(RefOf(mkey, m)))))
    case HandleHost(mkey, m, key, snap, now, bmcOk, text) =>
      (match Handle(scan, m, key, snap.host, now, bmcOk, text)
       case Nothing => sv
       case WriteStatus(st) => UpdateStatus(sv, key, snap.(host := snap.host.(status := st)))
       case SetProviderID(id) => MergePatch(sv, mkey, m, m.(providerID := Some(id))))
    case ReleaseHost(_, _, key, snap) => Update(sv, key, snap.(host := snap.host.(consumer := None)))
    case DropMachineFinalizer(mkey, m) => MergePatch(sv, mkey, m, m.(finalizer := false))
    case PostReport(key, snap, p, now) =>
      UpdateStatus(sv, key, snap.(host := snap.host.(status := Reported(snap.host.status, p, now))))
  }

  predicate Moves(scan: Scanner, sv: Server, s: Step, sv': Server) {
    Enabled(sv, s) && sv' == Apply(scan, sv, s)
  }

  ghost predicate Run(scan: Scanner, tr: seq<Server>, steps: seq<Step>) {
    && |tr| == |steps| + 1
    && tr[0] == EMPTY
    && (forall i | 0 <= i < |steps| :: MovesAt(scan, tr, steps, i))
  }

  predicate MovesAt(scan: Scanner, tr: seq<Server>, steps: seq<Step>, i: nat)
    requires i < |steps| < |tr|
  {
    Moves(scan, tr[i], steps[i], tr[i + 1])
  }

  lemma Extend(scan: Scanner, tr: seq<Server>, steps: seq<Step>, s: Step) returns (tr': seq<Server>, steps': seq<Step>)
    requires Run(scan, tr, steps) && Enabled(tr[|steps|], s)
    ensures steps' == steps + [s] && tr' == tr + [Apply(scan, tr[|steps|], s)] && Run(scan, tr', steps')
  {
    tr', steps' := tr + [Apply(scan, tr[|steps|], s)], steps + [s];
    forall i | 0 <= i < |steps'| ensures MovesAt(scan, tr', steps', i) {
      if i < |steps| {
        assert MovesAt(scan, tr, steps, i);
      }
    }
  }

  // ----- a current copy is the stored host

  /** Versions identify what was stored. */
  predicate Versioned(sv: Server) {
    && (forall key | key in sv.hosts :: (key, sv.hosts[key]) in sv.hostPast)
    && (forall e | e in sv.hostPast :: e.1.version <= sv.version)
    && (forall e, f | e in sv.hostPast && f in sv.hostPast && e.0 == f.0 && e.1.version == f.1.version :: e.1 == f.1)
    && (forall key | key in sv.hosts && sv.hosts[key].host.deleting :: sv.hosts[key].host.finalizer)
  }

  lemma PutKeepsVersioned(sv: Server, key: Key, h: Host)
    requires Versioned(sv) && (h.deleting ==> h.finalizer)
    ensures Versioned(Put(sv, key, h))
  {
  }

  lemma WriteKeepsVersioned(sv: Server, key: Key, h: Host)
    requires Versioned(sv) && key in sv.hosts
    ensures Versioned(Write(sv, key, h))
  {
    if h != sv.hosts[key].host && (h.deleting ==> h.finalizer) {
      PutKeepsVersioned(sv, key, h);
    }
  }

  lemma UpdatesKeepVersioned(sv: Server, key: Key, copy: Stored)
    requires Versioned(sv)
    ensures Versioned(Update(sv, key, copy)) && Versioned(UpdateStatus(sv, key, copy))
  {
    if Current(sv, key, copy) {
      var h := sv.hosts[key].host;
      WriteKeepsVersioned(sv, key, h.(connection := copy.host.connection, consumer := copy.host.consumer,
                                      finalizer := copy.host.finalizer));
      WriteKeepsVersioned(sv, key, h.(status := copy.host.status));
    }
  }

  lemma ClaimKeepsVersioned(scan: Scanner, sv: Server, s: Step)
    requires Versioned(sv) && Enabled(sv, s) && s.ClaimHost?
    ensures Versioned(Apply(scan, sv, s))
  {
    var k := FirstClaimable(s.list, 0);
    if k < |s.list| {
      var (key, snap) := s.list[k];
      UpdatesKeepVersioned(sv, key, snap.(host := snap.host.(consumer := Some(RefOf(s.mkey, s.msnap)))));
    }
  }

  lemma HandleKeepsVersioned(scan: Scanner, sv: Server, s: Step)
    requires Versioned(sv) && Enabled(sv, s) && s.HandleHost?
    ensures Versioned(Apply(scan, sv, s))
  {
    var a := Handle(scan, s.msnap, s.key, s.snap.host, s.now, s.bmcOk, s.text);
    if a.WriteStatus? {
      UpdatesKeepVersioned(sv, s.key, s.snap.(host := s.snap.host.(status := a.status)));
    }
  }

  predicate IsUserStep(s: Step) {
    s.CreateHost? || s.EditHost? || s.DeleteHost? || s.ClearConsumer? || s.StripFinalizer?
  }

  lemma UserStepKeepsVersioned(scan: Scanner, sv: Server, s: Step)
    requires Versioned(sv) && Enabled(sv, s) && IsUserStep(s)
    ensures Versioned(Apply(scan, sv, s))
  {
    match s
    case CreateHost(key, c, r) => PutKeepsVersioned(sv, key, Host(c, r, false, false, NEW_STATUS));
    case EditHost(key, c) => WriteKeepsVersioned(sv, key, sv.hosts[key].host.(connection := c));
    case DeleteHost(key) => WriteKeepsVersioned(sv, key, sv.hosts[key].host.(deleting := true));
    case ClearConsumer(key) => WriteKeepsVersioned(sv, key, sv.hosts[key].host.(consumer := None));
    case StripFinalizer(key) => WriteKeepsVersioned(sv, key, sv.hosts[key].host.(finalizer := false));
  }

  lemma StepKeepsVersioned(scan: Scanner, sv: Server, s: Step)
    requires Versioned(sv) && Enabled(sv, s)
    ensures Versioned(Apply(scan, sv, s))
  {
    if IsUserStep(s) {
      UserStepKeepsVersioned(scan, sv, s);
    } else if s.AddHostFinalizer? {
      UpdatesKeepVersioned(sv, s.key, s.snap.(host := s.snap.host.(finalizer := true)));
    } else if s.ObserveHost? {
      UpdatesKeepVersioned(sv, s.key, s.snap.(host := s.snap.host.(status := Observed(s.snap.host, s.seen))));
    } else if s.DropHostFinalizer? {
      UpdatesKeepVersioned(sv, s.key, s.snap.(host := s.snap.host.(finalizer := false)));
    } else if s.ClaimHost? {
      ClaimKeepsVersioned(scan, sv, s);
    } else if s.HandleHost? {
      HandleKeepsVersioned(scan, sv, s);
    } else if s.ReleaseHost? {
      UpdatesKeepVersioned(sv, s.key, s.snap.(host := s.snap.host.(consumer := None)));
    } else if s.PostReport? {
      var status := Reported(s.snap.host.status, s.posted, s.now);
      UpdatesKeepVersioned(sv, s.key, s.snap.(host := s.snap.host.(status := status)));
    }
  }

  /** A copy read at any time, if its version is still current, is the stored host. */
  lemma CurrentIsStored(sv: Server, key: Key, snap: Stored)
    requires Versioned(sv) && (key, snap) in sv.hostPast && Current(sv, key, snap)
    ensures snap == sv.hosts[key]
  {
  }

  lemma {:induction false} VersionedHolds(scan: Scanner, tr: seq<Server>, steps: seq<Step>, k: nat)
    requires Run(scan, tr, steps) && k < |tr|
    ensures Versioned(tr[k])
  {
    if k == 0 {
    } else {
      VersionedHolds(scan, tr, steps, k - 1);
      assert MovesAt(scan, tr, steps, k - 1);
      StepKeepsVersioned(scan, tr[k - 1], steps[k - 1]);
    }
  }

  // ----- the protocol without stale copies

  /** What a step does to one host, as if read and written in one instant. */
  datatype Edit =
    | Create(connection: Connection, consumer: Option<Ref>)
    | Connect(connection: Connection)
    | MarkDeleting
    | AddFinalizer
    | Unfinalize
    | Remove
    | Clear
    | ClaimBy(ref: Ref)
    | ReleaseBy(name: string)
    | Observe(seen: Observation)
    | Trigger(now: Time)
    | Expire(now: Time, text: string)
    | Validate(requirements: Option<Requirements>, now: Time)
    | StoreReport(posted: Posted, now: Time)

  /** When an edit can happen to the host as it is stored at that instant. */
  predicate Possible(scan: Scanner, h: Option<Host>, e: Edit) {
    match e
    case Create(_, _) => h.None?
    case Unfinalize => h.Some? && !h.value.deleting
    case Remove => h.Some? && (h.value.deleting || !h.value.finalizer)
    case ClaimBy(_) => h.Some? && Claimable(h.value)
    case ReleaseBy(name) => h.Some? && h.value.consumer.Some? && h.value.consumer.value.name == name
    case Trigger(_) => h.Some? && h.value.status.state == InUse
    case Expire(now, _) => h.Some? && h.value.status.state == Inspecting && TimedOut(h.value.status, now)
    case Validate(reqs, now) =>
      && h.Some? && h.value.status.state == Inspecting && !TimedOut(h.value.status, now)
      && h.value.status.phase == Complete && h.value.status.report.Some?
      && Check(scan, reqs, h.value.status.report.value) == Passed
    case _ => h.Some?
  }

  function Edited(scan: Scanner, h: Option<Host>, e: Edit): Option<Host>
    requires Possible(scan, h, e)
  {
    match e
    case Create(connection, consumer) => Some(Host(connection, consumer, false, false, NEW_STATUS))
    case Connect(connection) => Some(h.value.(connection := connection))
    case MarkDeleting => Some(h.value.(deleting := true))
    case AddFinalizer => Some(h.value.(finalizer := true))
    case Unfinalize => Some(h.value.(finalizer := false))
    case Remove => None
    case Clear => Some(h.value.(consumer := None))
    case ClaimBy(ref) => Some(h.value.(consumer := Some(ref)))
    case ReleaseBy(_) => Some(h.value.(consumer := None))
    case Observe(o) => Some(h.value.(status := Observed(h.value, o)))
    case Trigger(now) => Some(h.value.(status := Triggered(h.value.status, now)))
    case Expire(_, text) => Some(h.value.(status := Expired(h.value.status, text)))
    case Validate(_, _) => Some(h.value.(status := Validated(h.value.status)))
    case StoreReport(p, now) => Some(h.value.(status := Reported(h.value.status, p, now)))
  }

  /** The edit that a handled host gets, by the state in the copy. */
  function HandleEdit(m: Machine, h: Host, now: Time, text: string): Edit {
    if h.status.state == InUse then Trigger(now)
    else if TimedOut(h.status, now) then Expire(now, text)
    else Validate(m.requirements, now)
  }

  /** The host a step writes and the edit it makes, if its write goes through. */
  function Commit(scan: Scanner, sv: Server, s: Step): Option<(Key, Edit)>
    requires Enabled(sv, s)
  {
    match s
    case CreateHost(key, c, r) => Some((key, Create(c, r)))
    case EditHost(key, c) => Some((key, Connect(c)))
    case DeleteHost(key) => Some((key, if sv.hosts[key].host.finalizer then MarkDeleting else Remove))
    case ClearConsumer(key) => Some((key, Clear))
    case StripFinalizer(key) => Some((key, if sv.hosts[key].host.deleting then Remove else Unfinalize))
    case AddHostFinalizer(key, snap) => if Current(sv, key, snap) then Some((key, AddFinalizer)) else None
    case ObserveHost(key, snap, o) => if Current(sv, key, snap) then Some((key, Observe(o))) else None
    case DropHostFinalizer(key, snap) => if Current(sv, key, snap) then Some((key, Remove)) else None
    case ClaimHost(mkey, m, list) =>
      var k := FirstClaimable(list, 0);
      if k < |list| && Current(sv, list[k].0, list[k].1) then Some((list[k].0, ClaimBy(RefOf(mkey, m)))) else None
    case HandleHost(_, m, key, snap, now, bmcOk, text) =>
      if Handle(scan, m, key, snap.host, now, bmcOk, text).WriteStatus? && Current(sv, key, snap)
      then Some((key, HandleEdit(m, snap.host, now, text))) else None
    case ReleaseHost(mkey, _, key, snap) => if Current(sv, key, snap) then Some((key, ReleaseBy(mkey.name))) else None
    case PostReport(key, snap, p, now) => if Current(sv, key, snap) then Some((key, StoreReport(p, now))) else None
    case _ => None
  }

  lemma WriteLookup(sv: Server, key: Key, h: Host)
    requires key in sv.hosts && (sv.hosts[key].host.deleting ==> sv.hosts[key].host.finalizer)
    ensures Lookup(Write(sv, key, h), key) == if h.deleting && !h.finalizer then None else Some(h)
    ensures forall k | k != key :: Lookup(Write(sv, key, h), k) == Lookup(sv, k)
  {
  }

  lemma UpdateIsAtomic(sv: Server, key: Key, snap: Stored, h: Host)
    requires Versioned(sv) && (key, snap) in sv.hostPast
    requires h.status == snap.host.status && h.deleting == snap.host.deleting
    ensures var sv' := Update(sv, key, snap.(host := h));
            && (!Current(sv, key, snap) ==> sv' == sv)
            && (Current(sv, key, snap) ==>
                  && Lookup(sv, key) == Some(snap.host)
                  && Lookup(sv', key) == (if h.deleting && !h.finalizer then None else Some(h))
                  && forall k | k != key :: Lookup(sv', k) == Lookup(sv, k))
  {
  }

  lemma UpdateStatusIsAtomic(sv: Server, key: Key, snap: Stored, st: Status)
    requires Versioned(sv) && (key, snap) in sv.hostPast
    ensures var sv' := UpdateStatus(sv, key, snap.(host := snap.host.(status := st)));
            && (!Current(sv, key, snap) ==> sv' == sv)
            && (Current(sv, key, snap) ==>
                  && Lookup(sv, key) == Some(snap.host)
                  && Lookup(sv', key) == Some(snap.host.(status := st))
                  && forall k | k != key :: Lookup(sv', k) == Lookup(sv, k))
  {
  }

  /** A step does to the stored hosts what its edit says: to the one it commits, and to no
      other. */
  ghost predicate Atomic(scan: Scanner, sv: Server, s: Step, sv': Server)
    requires Enabled(sv, s)
  {
    match Commit(scan, sv, s)
    case None => sv'.hosts == sv.hosts
    case Some((key, e)) =>
      && Possible(scan, Lookup(sv, key), e)
      && Lookup(sv', key) == Edited(scan, Lookup(sv, key), e)
      && Elsewhere(sv, sv', key)
  }

  ghost predicate Elsewhere(sv: Server, sv': Server, key: Key) {
    forall k | k != key :: Lookup(sv', k) == Lookup(sv, k)
  }

  lemma ManualRecoveryIsAtomic(scan: Scanner, sv: Server, s: Step)
    requires Versioned(sv) && Enabled(sv, s) && (s.ClearConsumer? || s.StripFinalizer?)
    ensures Atomic(scan, sv, s, Apply(scan, sv, s))
  {
    match s
    case ClearConsumer(key) => WriteLookup(sv, key, sv.hosts[key].host.(consumer := None));
    case StripFinalizer(key) => WriteLookup(sv, key, sv.hosts[key].host.(finalizer := false));
  }

  lemma UserStepIsAtomic(scan: Scanner, sv: Server, s: Step)
    requires Versioned(sv) && Enabled(sv, s) && (s.CreateHost? || s.EditHost? || s.DeleteHost?)
    ensures Atomic(scan, sv, s, Apply(scan, sv, s))
  {
    match s
    case CreateHost(_, _, _) =>
    case EditHost(key, c) => WriteLookup(sv, key, sv.hosts[key].host.(connection := c));
    case DeleteHost(key) => WriteLookup(sv, key, sv.hosts[key].host.(deleting := true));
  }

  lemma ObserveIsAtomic(scan: Scanner, sv: Server, s: Step)
    requires Versioned(sv) && Enabled(sv, s) && s.ObserveHost?
    ensures Atomic(scan, sv, s, Apply(scan, sv, s))
  {
    UpdateStatusIsAtomic(sv, s.key, s.snap, Observed(s.snap.host, s.seen));
  }

  lemma FinalizerIsAtomic(scan: Scanner, sv: Server, s: Step)
    requires Versioned(sv) && Enabled(sv, s) && (s.AddHostFinalizer? || s.DropHostFinalizer?)
    ensures Atomic(scan, sv, s, Apply(scan, sv, s))
  {
    UpdateIsAtomic(sv, s.key, s.snap, s.snap.host.(finalizer := s.AddHostFinalizer?));
  }

  lemma ClaimIsAtomic(scan: Scanner, sv: Server, s: Step)
    requires Versioned(sv) && Enabled(sv, s) && s.ClaimHost?
    ensures Atomic(scan, sv, s, Apply(scan, sv, s))
  {
    var k := FirstClaimable(s.list, 0);
    if k < |s.list| {
      assert s.list[k] == (s.list[k].0, s.list[k].1);
      UpdateIsAtomic(sv, s.list[k].0, s.list[k].1, s.list[k].1.host.(consumer := Some(RefOf(s.mkey, s.msnap))));
    }
  }

  lemma HandleMakesItsEdit(scan: Scanner, m: Machine, key: Key, h: Host, now: Time, bmcOk: bool, text: string)
    requires Handle(scan, m, key, h, now, bmcOk, text).WriteStatus?
    ensures var e := HandleEdit(m, h, now, text);
            && Possible(scan, Some(h), e)
            && Edited(scan, Some(h), e) == Some(h.(status := Handle(scan, m, key, h, now, bmcOk, text).status))
  {
  }

  lemma HandleIsAtomic(scan: Scanner, sv: Server, s: Step)
    requires Versioned(sv) && Enabled(sv, s) && s.HandleHost?
    ensures Atomic(scan, sv, s, Apply(scan, sv, s))
  {
    var a := Handle(scan, s.msnap, s.key, s.snap.host, s.now, s.bmcOk, s.text);
    if a.WriteStatus? {
      UpdateStatusIsAtomic(sv, s.key, s.snap, a.status);
      HandleMakesItsEdit(scan, s.msnap, s.key, s.snap.host, s.now, s.bmcOk, s.text);
    }
  }

  lemma ReleaseIsAtomic(scan: Scanner, sv: Server, s: Step)
    requires Versioned(sv) && Enabled(sv, s) && s.ReleaseHost?
    ensures Atomic(scan, sv, s, Apply(scan, sv, s))
  {
    UpdateIsAtomic(sv, s.key, s.snap, s.snap.host.(consumer := None));
  }

  lemma PostIsAtomic(scan: Scanner, sv: Server, s: Step)
    requires Versioned(sv) && Enabled(sv, s) && s.PostReport?
    ensures Atomic(scan, sv, s, Apply(scan, sv, s))
  {
    UpdateStatusIsAtomic(sv, s.key, s.snap, Reported(s.snap.host.status, s.posted, s.now));
  }

  /** Every step is atomic, so every run on stale copies is a run that reads and writes each
      host at one instant. */
  lemma StepIsAtomic(scan: Scanner, sv: Server, s: Step)
    requires Versioned(sv) && Enabled(sv, s)
    ensures Atomic(scan, sv, s, Apply(scan, sv, s))
  {
    if s.CreateHost? || s.EditHost? || s.DeleteHost? {
      UserStepIsAtomic(scan, sv, s);
    } else if s.ClearConsumer? || s.StripFinalizer? {
      ManualRecoveryIsAtomic(scan, sv, s);
    } else if s.AddHostFinalizer? || s.DropHostFinalizer? {
      FinalizerIsAtomic(scan, sv, s);
    } else if s.ObserveHost? {
      ObserveIsAtomic(scan, sv, s);
    } else if s.ClaimHost? {
      ClaimIsAtomic(scan, sv, s);
    } else if s.HandleHost? {
      HandleIsAtomic(scan, sv, s);
    } else if s.ReleaseHost? {
      ReleaseIsAtomic(scan, sv, s);
    } else if s.PostReport? {
      PostIsAtomic(scan, sv, s);
    }
  }
}
