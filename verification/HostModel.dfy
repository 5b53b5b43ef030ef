/**
PhysicalHosts and Beskar7Machines as the API server stores them, and what the machine
reconciler, the host reconciler and the inspection handler decide from the copies they read.
*/
module HostModel {
  import opened Clock
  import opened Options
  import opened Hardware
  import ProviderIds

  const INSPECTION_TIMEOUT: Time := 600 * SECOND

  /** Stored timestamps keep whole seconds. */
  function StoredTime(now: Time): Time {
    now - now % SECOND
  }

  // ----- the stored objects

  datatype Key = Key(namespace: string, name: string)

  datatype Ref = Ref(kind: string, apiVersion: string, name: string, namespace: string, uid: string)

  datatype Connection = Connection(address: string, secret: string, insecure: Option<bool>)

  datatype State = StateNone | Unknown | Enrolling | Available | InUse | Inspecting | Ready | Error

  datatype Phase = PhaseNone | Pending | Booting | InProgress | Complete | Failed | Timeout

  datatype Details = Details(manufacturer: string, model: string, serial: string, health: string,
                             healthRollup: string, state: string)

  datatype Status = Status(ready: bool, state: State, power: string, errorMessage: string, details: Details,
                           addresses: seq<string>, report: Option<Report>, phase: Phase, stamp: Option<Time>,
                           conditions: map<string, bool>)

  datatype Host = Host(connection: Connection, consumer: Option<Ref>, finalizer: bool, deleting: bool, status: Status)

  datatype Machine = Machine(kind: string, apiVersion: string, uid: string, providerID: Option<string>,
                             requirements: Option<Requirements>, finalizer: bool, deleting: bool)

  const NEW_STATUS := Status(false, StateNone, "", "", Details("", "", "", "", "", ""), [], None, PhaseNone, None,
                             map[])

  // ----- the host reconciler

  datatype CredentialsError = EmptyReference | SecretNotFound(name: string) | SecretUnreadable(text: string)
                            | NoUsername(name: string) | NoPassword(name: string)

  function CredentialsMessage(e: CredentialsError): string {
    match e
    case EmptyReference => "credentials secret reference is empty"
    case SecretNotFound(name) => "credentials secret \"" + name + "\" not found"
    case SecretUnreadable(text) => "failed to get credentials secret: " + text
    case NoUsername(name) => "username not found in secret \"" + name + "\""
    case NoPassword(name) => "password not found in secret \"" + name + "\""
  }

  /** What the BMC and the credentials secret yield; every call may fail. */
  datatype Observation =
    | NoCredentials(error: CredentialsError)
    | NoClient(text: string)
    | NoSystemInfo(text: string)
    | Connected(details: Details, power: Option<string>, addresses: Option<seq<string>>)

  function Failing(st: Status, message: string): Status {
    st.(state := Error, ready := false, errorMessage := message,
        conditions := st.conditions["RedfishConnectionReady" := false])
  }

  function Reachable(st: Status, details: Details, power: Option<string>, addresses: Option<seq<string>>): Status {
    st.(details := details,
        power := if power.Some? then power.value else st.power,
        addresses := if addresses.Some? then addresses.value else st.addresses,
        conditions := st.conditions["RedfishConnectionReady" := true])
  }

  function Observed(h: Host, o: Observation): Status {
    match o
    case NoCredentials(e) => Failing(h.status, CredentialsMessage(e))
    case NoClient(text) => Failing(h.status, "Redfish connection failed: " + text)
    case NoSystemInfo(text) => Failing(h.status, "Failed to query system: " + text)
    case Connected(details, power, addresses) =>
      var st := Reachable(h.status, details, power, addresses);
      if h.consumer.Some? then
        if st.state in {InUse, Inspecting, Ready} then st
        else st.(state := InUse, ready := true, errorMessage := "")
      else
        if st.state == Available then st
        else st.(state := Available, ready := true, errorMessage := "",
                 conditions := st.conditions["HostAvailable" := true])
  }

  // ----- the machine reconciler

  /** The host that a ProviderID names in the machine's own namespace. */
  function AssociatedBy(mkey: Key, id: Option<string>): Option<Key> {
    if id.None? then None else
      match ProviderIds.Parse(id.value)
      case Some((ns, name)) => if ns == mkey.namespace then Some(Key(ns, name)) else None
      case None => None
  }

  function Associated(mkey: Key, m: Machine): Option<Key> {
    AssociatedBy(mkey, m.providerID)
  }

  /** The host that a machine's ProviderID names in any namespace; deletion goes by this. */
  function Named(m: Machine): Option<Key> {
    if m.providerID.None? then None else
      match ProviderIds.Parse(m.providerID.value)
      case Some((ns, name)) => Some(Key(ns, name))
      case None => None
  }

  function RefOf(mkey: Key, m: Machine): Ref {
    Ref(m.kind, m.apiVersion, mkey.name, mkey.namespace, m.uid)
  }

  predicate Claimable(h: Host) {
    h.status.state == Available && h.consumer.None?
  }

  function Triggered(st: Status, now: Time): Status {
    st.(state := Inspecting, phase := Booting, stamp := Some(StoredTime(now)))
  }

  predicate TimedOut(st: Status, now: Time) {
    st.stamp.Some? && now - st.stamp.value > INSPECTION_TIMEOUT
  }

  function Expired(st: Status, text: string): Status {
    st.(phase := Timeout, state := Error, errorMessage := "Inspection timeout after " + text)
  }

  function Validated(st: Status): Status {
    st.(state := Ready, conditions := st.conditions["HostInspected" := true])
  }

  /** What a reconcile pass does after it has read the associated host. */
  datatype Action = Nothing | WriteStatus(status: Status) | SetProviderID(id: string)

  function Handle(scan: Scanner, m: Machine, hkey: Key, h: Host, now: Time, bmcOk: bool, text: string): Action {
    match h.status.state
    case Ready => SetProviderID(ProviderIds.Print(hkey.namespace, hkey.name))
    case Inspecting =>
      if TimedOut(h.status, now) then WriteStatus(Expired(h.status, text))
      else if h.status.phase == Complete && h.status.report.Some?
              && Check(scan, m.requirements, h.status.report.value) == Passed
      then WriteStatus(Validated(h.status))
      else Nothing
    case InUse => if bmcOk then WriteStatus(Triggered(h.status, now)) else Nothing
    case _ => Nothing
  }

  // ----- the inspection handler

  /** The report as a reader gets it back. */
  function StoredReport(p: Posted, now: Time): Report {
    Converted(p, StoredTime(now))
  }

  function Reported(st: Status, p: Posted, now: Time): Status {
    st.(report := Some(StoredReport(p, now)), phase := Complete)
  }

  // ----- the store

  /** A stored host with its resource version. */
  datatype Stored = Stored(version: nat, host: Host)

  /** `hostPast` and `machinePast` hold everything ever stored: what a stale read may return. */
  datatype Server = Server(hosts: map<Key, Stored>, machines: map<Key, Machine>, version: nat,
                           hostPast: set<(Key, Stored)>, machinePast: set<(Key, Machine)>)

  const EMPTY := Server(map[], map[], 0, {}, {})

  function Lookup(sv: Server, key: Key): Option<Host> {
    if key in sv.hosts then Some(sv.hosts[key].host) else None
  }

  function Put(sv: Server, key: Key, h: Host): Server {
    var s := Stored(sv.version + 1, h);
    sv.(hosts := sv.hosts[key := s], version := s.version, hostPast := sv.hostPast + {(key, s)})
  }

  /** Stores a changed host under a new version; a deleted one whose finalizer is gone leaves
      the store, and an unchanged one keeps its version. */
  function Write(sv: Server, key: Key, h: Host): Server
    requires key in sv.hosts
  {
    if h == sv.hosts[key].host then sv
    else if h.deleting && !h.finalizer then sv.(hosts := sv.hosts - {key})
    else Put(sv, key, h)
  }

  predicate Current(sv: Server, key: Key, snap: Stored) {
    key in sv.hosts && sv.hosts[key].version == snap.version
  }

  /** Update: takes spec and metadata from the caller's copy if its version is current. */
  function Update(sv: Server, key: Key, copy: Stored): Server {
    if Current(sv, key, copy)
    then Write(sv, key, sv.hosts[key].host.(connection := copy.host.connection, consumer := copy.host.consumer,
                                            finalizer := copy.host.finalizer))
    else sv
  }

  /** Status().Update: takes the whole status from the caller's copy if its version is current. */
  function UpdateStatus(sv: Server, key: Key, copy: Stored): Server {
    if Current(sv, key, copy)
    then Write(sv, key, sv.hosts[key].host.(status := copy.host.status))
    else sv
  }

  function PutMachine(sv: Server, mkey: Key, m: Machine): Server {
    sv.(machines := sv.machines[mkey := m], machinePast := sv.machinePast + {(mkey, m)})
  }

  /** Machines are written by merge patches, which carry no version: the fields that the
      caller changed in its copy are set in the stored machine. A finalizer cannot be added to
      a machine being deleted; one that loses its finalizer leaves the store. */
  function MergePatch(sv: Server, mkey: Key, before: Machine, after: Machine): Server {
    if mkey !in sv.machines then sv else
      var m := sv.machines[mkey];
      var m' := m.(providerID := if after.providerID != before.providerID then after.providerID else m.providerID,
                   finalizer := if after.finalizer != before.finalizer then after.finalizer else m.finalizer);
      if m' == m || (m.deleting && m'.finalizer && !m.finalizer) then sv
      else if m'.deleting && !m'.finalizer then sv.(machines := sv.machines - {mkey})
      else PutMachine(sv, mkey, m')
  }
}
