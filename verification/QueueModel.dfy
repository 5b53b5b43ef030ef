/**
The state that the provisioning queue keeps under its mutex, and what each lock-held
block does to it. Times are nanoseconds on one monotone clock.
*/
module QueueModel {
  import opened Clock
  import opened Options
  import opened Sequences

  const COOLDOWN: Time := 10 * SECOND

  /** A request is identified by `tag`, its position in submission order; this stands for
      the pointer. A permit reservation carries no ID, no cancel function and `NO_TAG`. */
  datatype Request = Request(tag: int, id: string, host: string, bmc: string,
                             operation: string, hasCancel: bool)

  const NO_TAG := -1

  function Reservation(host: string, bmc: string): Request {
    Request(NO_TAG, "", host, bmc, "", false)
  }

  datatype Core = Core(maxOps: int, maxQueue: int, cooldown: Time,
                       queue: seq<Request>, processing: map<string, Request>,
                       last: map<string, Time>, next: nat)

  function Fresh(maxOps: int, maxQueue: int): Core {
    Core(maxOps, maxQueue, COOLDOWN, [], map[], map[], 0)
  }

  /** The BMC was stamped less than a cooldown before the reading. */
  predicate Cooling(c: Core, bmc: string, reading: Time) {
    bmc in c.last && reading - c.last[bmc] < c.cooldown
  }

  predicate SlotsFull(c: Core) {
    |c.processing| >= c.maxOps
  }

  // ----- request identifiers

  function Digits(n: nat): (s: string)
    ensures |s| > 0
    decreases n
  {
    if n < 10 then ["0123456789"[n]] else Digits(n / 10) + ["0123456789"[n % 10]]
  }

  function Decimal(n: int): string {
    if n < 0 then "-" + Digits(-n) else Digits(n)
  }

  function RequestId(host: string, operation: string, nanos: int): string {
    host + "-" + operation + "-" + Decimal(nanos)
  }

  // ----- permits

  datatype AcquireOutcome = ReEntrant | Granted | Wait

  function AcquireDecision(c: Core, host: string, bmc: string, now: Time): AcquireOutcome {
    if host in c.processing then ReEntrant
    else if SlotsFull(c) || Cooling(c, bmc, now) then Wait
    else Granted
  }

  function AfterAcquire(c: Core, host: string, bmc: string, now: Time): Core {
    if AcquireDecision(c, host, bmc, now).Granted?
    then c.(processing := c.processing[host := Reservation(host, bmc)])
    else c
  }

  /** Frees a host's slot and stamps a BMC: the tail of a permit and of a request alike. */
  function FreeAndStamp(c: Core, host: string, bmc: string, now: Time): Core {
    c.(processing := c.processing - {host}, last := c.last[bmc := now])
  }

  // ----- submission

  datatype SubmitOutcome = QueueFull | HostBusy(existing: Request) | Accepted(request: Request)

  function SubmitDecision(c: Core, host: string, bmc: string, operation: string, nanos: int): SubmitOutcome {
    if |c.queue| >= c.maxQueue then QueueFull
    else if host in c.processing then HostBusy(c.processing[host])
    else Accepted(Request(c.next, RequestId(host, operation, nanos), host, bmc, operation, true))
  }

  function AfterSubmit(c: Core, host: string, bmc: string, operation: string, nanos: int): Core {
    match SubmitDecision(c, host, bmc, operation, nanos)
    case Accepted(r) => c.(queue := c.queue + [r], next := c.next + 1)
    case _ => c
  }

  // ----- the scan for the next request

  /** Where a scan stops that starts at `from` and reads the clock once per entry: at the
      first entry not cooling at its own reading, or at the end. */
  function Scan(c: Core, readings: seq<Time>, from: nat): (k: nat)
    requires |readings| == |c.queue| && from <= |c.queue|
    ensures from <= k <= |c.queue|
    ensures forall i | from <= i < k :: Cooling(c, c.queue[i].bmc, readings[i])
    ensures k < |c.queue| ==> !Cooling(c, c.queue[k].bmc, readings[k])
    decreases |c.queue| - from
  {
    if from < |c.queue| && Cooling(c, c.queue[from].bmc, readings[from])
    then Scan(c, readings, from + 1)
    else from
  }

  /** The index of the request a worker gets, if any. */
  function TakeDecision(c: Core, readings: seq<Time>): (k: Option<nat>)
    requires |readings| == |c.queue|
    ensures k.Some? ==> k.value < |c.queue|
  {
    var i := Scan(c, readings, 0);
    if SlotsFull(c) || i == |c.queue| then None else Some(i)
  }

  function AfterTake(c: Core, readings: seq<Time>): Core
    requires |readings| == |c.queue|
  {
    match TakeDecision(c, readings)
    case None => c
    case Some(i) =>
      c.(queue := Remove(c.queue, i), processing := c.processing[c.queue[i].host := c.queue[i]])
  }

  // ----- cancellation

  /** What a cancellation by ID can do. `NilCall` is the run-time panic of calling a cancel
      function that is nil. */
  datatype CancelOutcome = Removed(index: nat) | Signalled(host: string) | Absent | NilCall

  function FirstWithId(q: seq<Request>, id: string, from: nat): (k: nat)
    requires from <= |q|
    ensures from <= k <= |q|
    ensures forall i | from <= i < k :: q[i].id != id
    ensures k < |q| ==> q[k].id == id
    decreases |q| - from
  {
    if from < |q| && q[from].id != id then FirstWithId(q, id, from + 1) else from
  }

  /** The outcomes that a cancellation can have. The queue is searched in order; the
      processing map in no fixed order, so any entry with the ID may be the one found. */
  predicate CancelCan(c: Core, id: string, o: CancelOutcome) {
    var k := FirstWithId(c.queue, id, 0);
    if k < |c.queue| then
      o == if c.queue[k].hasCancel then Removed(k) else NilCall
    else
      match o
      case Removed(_) => false
      case Signalled(h) => h in c.processing && c.processing[h].id == id && c.processing[h].hasCancel
      case Absent => forall h | h in c.processing :: c.processing[h].id != id
      case NilCall => exists h | h in c.processing :: c.processing[h].id == id && !c.processing[h].hasCancel
  }

  function AfterCancel(c: Core, o: CancelOutcome): Core {
    match o
    case Removed(i) => if i < |c.queue| then c.(queue := Remove(c.queue, i)) else c
    case _ => c
  }
}
