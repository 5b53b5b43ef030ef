/**
The controllers as the program writes them: each pass changes the fields of the copies it
read, one by one, and then writes them to the API server. Each is proved to make exactly the
step of `HostRuns` that its branch stands for. Copies read, clock readings and the results of
BMC calls are parameters.
*/
module Controllers {
  import opened Clock
  import opened Options
  import opened Hardware
  import opened HostModel
  import opened HostRuns
  import ProviderIds

  /** The store that the controllers share. */
  class ApiServer {
    var hosts: map<Key, Stored>
    var machines: map<Key, Machine>
    var version: nat
    ghost var hostPast: set<(Key, Stored)>
    ghost var machinePast: set<(Key, Machine)>

    ghost function View(): Server
      reads this
    {
      Server(hosts, machines, version, hostPast, machinePast)
    }

    constructor ()
      ensures View() == EMPTY
    {
      hosts, machines, version, hostPast, machinePast := map[], map[], 0, {}, {};
    }

    method Store(key: Key, h: Host)
      requires key in hosts
      modifies this
      ensures View() == Write(old(View()), key, h)
    {
      if h == hosts[key].host {
        return;
      }
      if h.deleting && !h.finalizer {
        hosts := hosts - {key};
      } else {
        version := version + 1;
        hosts := hosts[key := Stored(version, h)];
        hostPast := hostPast + {(key, Stored(version, h))};
      }
    }

    method UpdateHost(key: Key, copy: Stored) returns (ok: bool)
      modifies this
      ensures View() == Update(old(View()), key, copy)
      ensures ok == Current(old(View()), key, copy)
    {
      ok := key in hosts && hosts[key].version == copy.version;
      if ok {
        Store(key, hosts[key].host.(connection := copy.host.connection, consumer := copy.host.consumer,
                                    finalizer := copy.host.finalizer));
      }
    }

    method UpdateHostStatus(key: Key, copy: Stored) returns (ok: bool)
      modifies this
      ensures View() == UpdateStatus(old(View()), key, copy)
      ensures ok == Current(old(View()), key, copy)
    {
      ok := key in hosts && hosts[key].version == copy.version;
      if ok {
        Store(key, hosts[key].host.(status := copy.host.status));
      }
    }

    method Patch(mkey: Key, before: Machine, after: Machine)
      modifies this
      ensures View() == MergePatch(old(View()), mkey, before, after)
    {
      if mkey !in machines {
        return;
      }
      var m := machines[mkey];
      if after.providerID != before.providerID {
        m := m.(providerID := after.providerID);
      }
      if after.finalizer != before.finalizer {
        m := m.(finalizer := after.finalizer);
      }
      if m == machines[mkey] || (m.deleting && m.finalizer && !machines[mkey].finalizer) {
        return;
      }
      if m.deleting && !m.finalizer {
        machines := machines - {mkey};
      } else {
        machines := machines[mkey := m];
        machinePast := machinePast + {(mkey, m)};
      }
    }
  }

  // ----- the machine reconciler

  /** What the pass over a host and the deferred patch do together. */
  lemma HandleMoves(scan: Scanner, sv: Server, middle: Server, s: Step, machine: Machine)
    requires Enabled(sv, s) && s.HandleHost?
    requires match Handle(scan, s.msnap, s.key, s.snap.host, s.now, s.bmcOk, s.text)
             case Nothing => middle == sv && machine == s.msnap
             case WriteStatus(st) =>
               middle == UpdateStatus(sv, s.key, s.snap.(host := s.snap.host.(status := st))) && machine == s.msnap
             case SetProviderID(id) => middle == sv && machine == s.msnap.(providerID := Some(id))
    ensures Moves(scan, sv, s, MergePatch(middle, s.mkey, s.msnap, machine))
  {
  }

  method ReconcileMachine(scan: Scanner, api: ApiServer, mkey: Key, m: Machine, get: Option<Stored>,
                          list: seq<(Key, Stored)>, now: Time, bmcOk: bool, text: string)
    returns (ghost step: Step)
    requires (mkey, m) in api.machinePast && !m.deleting
    requires get.Some? && Associated(mkey, m).Some? ==> (Associated(mkey, m).value, get.value) in api.hostPast
    requires forall i | 0 <= i < |list| :: list[i] in api.hostPast && list[i].0.namespace == mkey.namespace
    modifies api
    ensures step == if !m.finalizer then AddMachineFinalizer(mkey, m)
                    else if Associated(mkey, m).Some? && get.Some?
                    then HandleHost(mkey, m, Associated(mkey, m).value, get.value, now, bmcOk, text)
                    else ClaimHost(mkey, m, list)
    ensures Moves(scan, old(api.View()), step, api.View())
  {
    var machine := m;
    if !machine.finalizer {
      machine := machine.(finalizer := true);
      api.Patch(mkey, m, machine);
      return AddMachineFinalizer(mkey, m);
    }
    if machine.providerID.Some? && machine.providerID.value != "" {
      var parsed := ProviderIds.ParseProviderId(machine.providerID.value);
      if parsed.Some? && parsed.value.0 == mkey.namespace && get.Some? {
        var key := Key(parsed.value.0, parsed.value.1);
        step := HandleHost(mkey, m, key, get.value, now, bmcOk, text);
        machine := HandlePhysicalHostState(scan, api, machine, key, get.value, now, bmcOk, text);
        HandleMoves(scan, old(api.View()), api.View(), step, machine);
        api.Patch(mkey, m, machine);
        return;
      }
    }
    ClaimFirstAvailable(api, mkey, machine, list);
    return ClaimHost(mkey, m, list);
  }

  /** Acts on the host copy and returns the machine copy, changed if the host is Ready. */
  method HandlePhysicalHostState(scan: Scanner, api: ApiServer, m: Machine, key: Key, snap: Stored, now: Time,
                                 bmcOk: bool, text: string)
    returns (machine: Machine)
    modifies api
    ensures match Handle(scan, m, key, snap.host, now, bmcOk, text)
            case Nothing => api.View() == old(api.View()) && machine == m
            case WriteStatus(st) =>
              api.View() == UpdateStatus(old(api.View()), key, snap.(host := snap.host.(status := st))) && machine == m
            case SetProviderID(id) => api.View() == old(api.View()) && machine == m.(providerID := Some(id))
  {
    machine := m;
    match snap.host.status.state
    case Ready =>
      var current := ProviderIds.Print(key.namespace, key.name);
      if machine.providerID.None? || machine.providerID.value != current {
        machine := machine.(providerID := Some(current));
      }
    case Inspecting => MonitorInspection(scan, api, m, key, snap, now, text);
    case InUse => TriggerInspection(api, key, snap, now, bmcOk);
    case _ =>
  }

  method TriggerInspection(api: ApiServer, key: Key, snap: Stored, now: Time, bmcOk: bool)
    modifies api
    ensures var host := snap.host.(status := Triggered(snap.host.status, now));
            api.View() == if bmcOk then UpdateStatus(old(api.View()), key, snap.(host := host)) else old(api.View())
  {
    if !bmcOk {
      return;
    }
    var status := snap.host.status;
    status := status.(state := Inspecting);
    status := status.(phase := Booting);
    status := status.(stamp := Some(StoredTime(now)));
    var ok := api.UpdateHostStatus(key, snap.(host := snap.host.(status := status)));
  }

  method MonitorInspection(scan: Scanner, api: ApiServer, m: Machine, key: Key, snap: Stored, now: Time, text: string)
    requires snap.host.status.state == Inspecting
    modifies api
    ensures match Handle(scan, m, key, snap.host, now, true, text)
            case Nothing => api.View() == old(api.View())
            case WriteStatus(st) =>
              api.View() == UpdateStatus(old(api.View()), key, snap.(host := snap.host.(status := st)))
  {
    var status := snap.host.status;
    if status.stamp.Some? {
      var elapsed := now - status.stamp.value;
      if elapsed > INSPECTION_TIMEOUT {
        status := status.(phase := Timeout);
        status := status.(state := Error);
        status := status.(errorMessage := "Inspection timeout after " + text);
        var ok := api.UpdateHostStatus(key, snap.(host := snap.host.(status := status)));
        return;
      }
    }
    if status.phase == Complete {
      if status.report.None? {
        return;
      }
      var verdict := CheckReport(scan, m.requirements, status.report.value);
      if verdict != Passed {
        return;
      }
      status := status.(state := Ready);
      status := status.(conditions := status.conditions["HostInspected" := true]);
      var ok := api.UpdateHostStatus(key, snap.(host := snap.host.(status := status)));
    }
  }

  method ClaimFirstAvailable(api: ApiServer, mkey: Key, m: Machine, list: seq<(Key, Stored)>)
    modifies api
    ensures var k := FirstClaimable(list, 0);
            api.View() == if k == |list| then old(api.View())
                          else var (key, snap) := list[k];
                               Update(old(api.View()), key, snap.(host := snap.host.(consumer := Some(RefOf(mkey, m)))))
  {
    for i := 0 to |list|
      invariant api.View() == old(api.View())
      invariant FirstClaimable(list, 0) == FirstClaimable(list, i)
    {
      var (key, snap) := list[i];
      if snap.host.status.state == Available && snap.host.consumer.None? {
        var host := snap.host.(consumer := Some(Ref(m.kind, m.apiVersion, mkey.name, mkey.namespace, m.uid)));
        var ok := api.UpdateHost(key, snap.(host := host));
        return;
      }
    }
  }

  /** Releases the host, if the machine's ProviderID names one that its name holds, and then
      lets the machine go; if the release is refused the machine stays. */
  method ReconcileMachineDelete(scan: Scanner, api: ApiServer, mkey: Key, m: Machine, get: Option<Stored>)
    returns (ok: bool, ghost middle: Server)
    requires (mkey, m) in api.machinePast && m.deleting
    requires get.Some? && Named(m).Some? ==> (Named(m).value, get.value) in api.hostPast
    modifies api
    ensures if Named(m).Some? && get.Some? && get.value.host.consumer.Some?
               && get.value.host.consumer.value.name == mkey.name
            then Moves(scan, old(api.View()), ReleaseHost(mkey, m, Named(m).value, get.value), middle)
                 && ok == Current(old(api.View()), Named(m).value, get.value)
            else middle == old(api.View()) && ok
    ensures if ok then Moves(scan, middle, DropMachineFinalizer(mkey, m), api.View()) else api.View() == middle
  {
    ok := true;
    if m.providerID.Some? && m.providerID.value != "" {
      var parsed := ProviderIds.ParseProviderId(m.providerID.value);
      if parsed.Some? && get.Some? {
        var host := get.value.host;
        if host.consumer.Some? && host.consumer.value.name == mkey.name {
          host := host.(consumer := None);
          ok := api.UpdateHost(Key(parsed.value.0, parsed.value.1), get.value.(host := host));
        }
      }
    }
    middle := api.View();
    if ok {
      api.Patch(mkey, m, m.(finalizer := false));
    }
  }

  // ----- the host reconciler

  method ReconcileHost(scan: Scanner, api: ApiServer, key: Key, snap: Stored, seen: Observation)
    requires (key, snap) in api.hostPast
    modifies api
    ensures if snap.host.deleting then
              if snap.host.finalizer then Moves(scan, old(api.View()), DropHostFinalizer(key, snap), api.View())
              else api.View() == old(api.View())
            else
              Moves(scan, old(api.View()),
                    if snap.host.finalizer then ObserveHost(key, snap, seen) else AddHostFinalizer(key, snap),
                    api.View())
  {
    var host := snap.host;
    if host.deleting {
      if host.finalizer {
        host := host.(finalizer := false);
        var ok := api.UpdateHost(key, snap.(host := host));
      }
      return;
    }
    if !host.finalizer {
      host := host.(finalizer := true);
      var ok := api.UpdateHost(key, snap.(host := host));
      return;
    }
    var status := StatusAfter(host, seen);
    var ok := api.UpdateHostStatus(key, snap.(host := host.(status := status)));
  }

  /** The status fields that reconcileNormal assigns, step by step. */
  method StatusAfter(host: Host, seen: Observation) returns (status: Status)
    ensures status == Observed(host, seen)
  {
    status := host.status;
    match seen
    case NoCredentials(e) =>
      status := SetStatus(status, Error, false, CredentialsMessage(e));
      status := status.(conditions := status.conditions["RedfishConnectionReady" := false]);
    case NoClient(text) =>
      status := SetStatus(status, Error, false, "Redfish connection failed: " + text);
      status := status.(conditions := status.conditions["RedfishConnectionReady" := false]);
    case NoSystemInfo(text) =>
      status := SetStatus(status, Error, false, "Failed to query system: " + text);
      status := status.(conditions := status.conditions["RedfishConnectionReady" := false]);
    case Connected(details, power, addresses) =>
      status := status.(details := details);
      if power.Some? {
        status := status.(power := power.value);
      }
      if addresses.Some? {
        status := status.(addresses := addresses.value);
      }
      status := status.(conditions := status.conditions["RedfishConnectionReady" := true]);
      if host.consumer.Some? {
        if status.state != InUse && status.state != Inspecting && status.state != Ready {
          status := SetStatus(status, InUse, true, "");
        }
      } else if status.state != Available {
        status := SetStatus(status, Available, true, "");
        status := status.(conditions := status.conditions["HostAvailable" := true]);
      }
  }

  method SetStatus(st: Status, state: State, ready: bool, message: string) returns (status: Status)
    ensures status == st.(state := state, ready := ready, errorMessage := message)
  {
    status := st.(state := state);
    status := status.(ready := ready);
    status := status.(errorMessage := message);
  }

  // ----- the inspection handler

  method UpdatePhysicalHost(scan: Scanner, api: ApiServer, key: Key, get: Option<Stored>, posted: Posted, now: Time)
    returns (ok: bool)
    requires get.Some? ==> (key, get.value) in api.hostPast
    modifies api
    ensures if get.None? then api.View() == old(api.View()) && !ok
            else Moves(scan, old(api.View()), PostReport(key, get.value, posted, now), api.View())
                 && ok == Current(old(api.View()), key, get.value)
  {
    if get.None? {
      return false;
    }
    var report := Convert(posted, StoredTime(now));
    var status := get.value.host.status;
    status := status.(report := Some(report));
    status := status.(phase := Complete);
    ok := api.UpdateHostStatus(key, get.value.(host := get.value.host.(status := status)));
  }
}
