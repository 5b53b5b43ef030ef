/**
The provisioning queue as the program keeps it: an object whose fields are changed in
place, one method per lock-held block. Each method is proved to do to the fields what
`QueueModel` says of that block. Clock readings are parameters.
*/
module ProvisioningQueues {
  import opened Clock
  import opened Options
  import opened Sequences
  import opened QueueModel

  class ProvisioningRequest {
    const tag: int
    const id: string
    const host: string
    const bmc: string
    const operation: string
    const hasCancel: bool
    var startedAt: Option<Time>
    var completedAt: Option<Time>

    constructor (r: Request)
      ensures Value() == r && startedAt == None && completedAt == None
    {
      tag, id, host, bmc, operation, hasCancel := r.tag, r.id, r.host, r.bmc, r.operation, r.hasCancel;
      startedAt, completedAt := None, None;
    }

    function Value(): Request {
      Request(tag, id, host, bmc, operation, hasCancel)
    }
  }

  function Values(rs: seq<ProvisioningRequest>): seq<Request> {
    seq(|rs|, i requires 0 <= i < |rs| => rs[i].Value())
  }

  function Entries(m: map<string, ProvisioningRequest>): map<string, Request> {
    map h | h in m :: m[h].Value()
  }

  lemma EntriesSize(m: map<string, ProvisioningRequest>)
    ensures |Entries(m)| == |m|
  {
    assert Entries(m).Keys == m.Keys;
  }

  /** Entry `i` is the first with the ID. */
  predicate FirstNamed(rs: seq<ProvisioningRequest>, id: string, i: nat) {
    i < |rs| && rs[i].id == id && forall j | 0 <= j < i :: rs[j].id != id
  }

  class ProvisioningQueue {
    const maxConcurrentOps: int
    const maxQueueSize: int
    const bmcCooldownPeriod: Time
    var queue: seq<ProvisioningRequest>
    var processing: map<string, ProvisioningRequest>
    var lastBMCOperation: map<string, Time>
    var submitted: nat

    function Core(): Core
      reads this
    {
      QueueModel.Core(maxConcurrentOps, maxQueueSize, bmcCooldownPeriod, Values(queue),
                      Entries(processing), lastBMCOperation, submitted)
    }

    constructor (maxConcurrent: int, maxQueue: int)
      ensures Core() == Fresh(maxConcurrent, maxQueue)
      ensures queue == [] && processing == map[] && lastBMCOperation == map[]
      ensures maxConcurrentOps == maxConcurrent && maxQueueSize == maxQueue && bmcCooldownPeriod == 10_000_000_000
    {
      maxConcurrentOps, maxQueueSize, bmcCooldownPeriod := maxConcurrent, maxQueue, COOLDOWN;
      queue, processing, lastBMCOperation, submitted := [], map[], map[], 0;
    }

    /** One pass of the permit loop under the lock. */
    method TryAcquireBMCPermit(host: string, bmc: string, now: Time) returns (outcome: AcquireOutcome)
      modifies `processing
      ensures outcome == AcquireDecision(old(Core()), host, bmc, now)
      ensures Core() == AfterAcquire(old(Core()), host, bmc, now)
      ensures outcome == ReEntrant <==> host in old(processing)
      ensures outcome == Granted <==>
              && host !in old(processing) && |old(processing)| < maxConcurrentOps
              && (bmc in lastBMCOperation ==> now - lastBMCOperation[bmc] >= bmcCooldownPeriod)
      ensures outcome == Granted ==>
                && host in processing && processing == old(processing)[host := processing[host]]
                && fresh(processing[host]) && processing[host].host == host && processing[host].bmc == bmc
                && processing[host].id == "" && !processing[host].hasCancel
      ensures outcome != Granted ==> processing == old(processing)
    {
      EntriesSize(processing);
      if host in processing {
        return ReEntrant;
      }
      if |processing| < maxConcurrentOps {
        if bmc !in lastBMCOperation || now - lastBMCOperation[bmc] >= bmcCooldownPeriod {
          var r := new ProvisioningRequest(Reservation(host, bmc));
          processing := processing[host := r];
          assert Entries(processing) == old(Entries(processing))[host := r.Value()];
          return Granted;
        }
      }
      return Wait;
    }

    method ReleaseBMCPermit(host: string, bmc: string, now: Time)
      modifies `processing, `lastBMCOperation
      ensures Core() == FreeAndStamp(old(Core()), host, bmc, now)
      ensures processing == old(processing) - {host}
      ensures lastBMCOperation == old(lastBMCOperation)[bmc := now]
    {
      processing := processing - {host};
      lastBMCOperation := lastBMCOperation[bmc := now];
      assert Entries(processing) == old(Entries(processing)) - {host};
    }

    method SubmitRequest(host: string, bmc: string, operation: string, nanos: int)
      returns (outcome: SubmitOutcome, request: ProvisioningRequest?)
      modifies `queue, `submitted
      ensures outcome == SubmitDecision(old(Core()), host, bmc, operation, nanos)
      ensures Core() == AfterSubmit(old(Core()), host, bmc, operation, nanos)
      ensures match outcome
              case QueueFull => request == null
              case HostBusy(r) => request != null && request == processing[host] && request.Value() == r
              case Accepted(r) =>
                request != null && fresh(request) && request.Value() == r && queue == old(queue) + [request]
      ensures outcome.QueueFull? <==> |old(queue)| >= maxQueueSize
      ensures outcome.HostBusy? <==> |old(queue)| < maxQueueSize && host in processing
      ensures outcome.Accepted? <==> |old(queue)| < maxQueueSize && host !in processing
      ensures outcome.Accepted? ==>
                && request.host == host && request.bmc == bmc && request.operation == operation && request.hasCancel
                && request.id == host + "-" + operation + "-" + Decimal(nanos)
      ensures !outcome.Accepted? ==> queue == old(queue) && submitted == old(submitted)
    {
      if |queue| >= maxQueueSize {
        return QueueFull, null;
      }
      if host in processing {
        return HostBusy(processing[host].Value()), processing[host];
      }
      var value := Request(submitted, RequestId(host, operation, nanos), host, bmc, operation, true);
      request := new ProvisioningRequest(value);
      queue := queue + [request];
      submitted := submitted + 1;
      outcome := Accepted(value);
      assert Values(queue) == old(Values(queue)) + [value];
    }

    method GetQueueStatus() returns (queueLength: int, processingCount: int)
      ensures queueLength == |Core().queue| && processingCount == |Core().processing|
    {
      EntriesSize(processing);
      return |queue|, |processing|;
    }

    /** The BMC was never stamped, or a cooldown ago or more. */
    predicate Rested(bmc: string, reading: Time)
      reads this
    {
      bmc in lastBMCOperation ==> reading - lastBMCOperation[bmc] >= bmcCooldownPeriod
    }

    /** The scan of getNextRequest: it reads the clock once per entry it looks at
        (`readings[i]` at entry `i`). */
    method FirstEligible(readings: seq<Time>) returns (i: nat)
      requires |readings| == |queue|
      ensures i == Scan(Core(), readings, 0)
      ensures i < |queue| ==> Rested(queue[i].bmc, readings[i])
      ensures i <= |queue| && forall j | 0 <= j < i :: !Rested(queue[j].bmc, readings[j])
    {
      ghost var core := Core();
      i := 0;
      while i < |queue|
        invariant i <= |queue|
        invariant Scan(core, readings, 0) == Scan(core, readings, i)
        invariant forall j | 0 <= j < i :: !Rested(queue[j].bmc, readings[j])
      {
        var r := queue[i];
        assert core.queue[i] == r.Value();
        if r.bmc in lastBMCOperation && readings[i] - lastBMCOperation[r.bmc] < bmcCooldownPeriod {
          i := i + 1;
        } else {
          return;
        }
      }
    }

    /** The request is stamped with one more clock reading, `now`, when it starts. */
    method GetNextRequest(readings: seq<Time>, now: Time) returns (request: ProvisioningRequest?)
      requires |readings| == |queue|
      modifies `queue, `processing, queue
      ensures Core() == AfterTake(old(Core()), readings)
      ensures match TakeDecision(old(Core()), readings)
              case None => request == null && unchanged(old(queue))
              case Some(i) =>
                && request == old(queue)[i]
                && request.startedAt == Some(now)
                && (forall r | r in old(queue) && r != request :: unchanged(r))
      ensures request == null <==>
              || |old(processing)| >= maxConcurrentOps
              || forall i | 0 <= i < |old(queue)| :: !Rested(old(queue)[i].bmc, readings[i])
      ensures request == null ==> queue == old(queue) && processing == old(processing)
      ensures request != null ==>
                exists i | 0 <= i < |old(queue)| ::
                  && request == old(queue)[i] && Rested(request.bmc, readings[i])
                  && (forall j | 0 <= j < i :: !Rested(old(queue)[j].bmc, readings[j]))
                  && queue == old(queue)[..i] + old(queue)[i + 1..]
                  && processing == old(processing)[request.host := request]
    {
      EntriesSize(processing);
      ghost var core := Core();
      if |processing| >= maxConcurrentOps {
        return null;
      }
      var i := FirstEligible(readings);
      if i == |queue| {
        return null;
      }
      request := queue[i];
      StartAt(i);
      request.startedAt := Some(now);
    }

    /** Moves the request at `i` from the queue to the processing map. */
    method StartAt(i: nat)
      requires i < |queue|
      modifies `queue, `processing
      ensures var r := old(Core()).queue[i];
              Core() == old(Core()).(queue := Remove(old(Core()).queue, i),
                                     processing := old(Core()).processing[r.host := r])
      ensures queue == old(queue)[..i] + old(queue)[i + 1..]
      ensures processing == old(processing)[old(queue)[i].host := old(queue)[i]]
    {
      var r := queue[i];
      queue := queue[..i] + queue[i + 1..];
      processing := processing[r.host := r];
      assert Values(queue) == Remove(old(Values(queue)), i);
      assert Entries(processing) == old(Entries(processing))[r.host := r.Value()];
    }

    /** The bookkeeping of processRequest once the operation itself is over. */
    method FinishRequest(request: ProvisioningRequest, now: Time, completed: Time)
      modifies `processing, `lastBMCOperation, request`completedAt
      ensures Core() == FreeAndStamp(old(Core()), request.host, request.bmc, now)
      ensures request.completedAt == Some(completed)
      ensures processing == old(processing) - {request.host}
      ensures lastBMCOperation == old(lastBMCOperation)[request.bmc := now]
    {
      lastBMCOperation := lastBMCOperation[request.bmc := now];
      processing := processing - {request.host};
      request.completedAt := Some(completed);
      assert Entries(processing) == old(Entries(processing)) - {request.host};
    }

    method CancelRequest(id: string) returns (outcome: CancelOutcome)
      modifies `queue
      ensures CancelCan(old(Core()), id, outcome)
      ensures Core() == AfterCancel(old(Core()), outcome)
      ensures forall i | 0 <= i < |old(queue)| && FirstNamed(old(queue), id, i) ::
                if old(queue)[i].hasCancel
                then outcome == Removed(i) && queue == old(queue)[..i] + old(queue)[i + 1..]
                else outcome == NilCall && queue == old(queue)
      ensures (forall i | 0 <= i < |old(queue)| :: old(queue)[i].id != id) ==>
                && queue == old(queue) && !outcome.Removed?
                && (outcome == Absent <==> forall h | h in processing :: processing[h].id != id)
                && (outcome.Signalled? ==> outcome.host in processing && processing[outcome.host].id == id)
    {
      ghost var core := Core();
      var i := 0;
      while i < |queue|
        invariant i <= |queue| && unchanged(this)
        invariant FirstWithId(core.queue, id, 0) == FirstWithId(core.queue, id, i)
        invariant forall j | 0 <= j < i :: queue[j].id != id
      {
        assert core.queue[i] == queue[i].Value();
        if queue[i].id == id {
          if !queue[i].hasCancel {
            return NilCall;
          }
          queue := queue[..i] + queue[i + 1..];
          assert Values(queue) == Remove(core.queue, i);
          return Removed(i);
        }
        i := i + 1;
      }
      var hosts := processing.Keys;
      while hosts != {}
        invariant hosts <= processing.Keys && unchanged(this)
        invariant forall h | h in processing && h !in hosts :: processing[h].id != id
        decreases |hosts|
      {
        var h :| h in hosts;
        assert core.processing[h] == processing[h].Value();
        if processing[h].id == id {
          return if processing[h].hasCancel then Signalled(h) else NilCall;
        }
        hosts := hosts - {h};
      }
      return Absent;
    }

    method GetRequestStatus(id: string) returns (status: string, found: bool)
      ensures status == "queued" <==> exists r | r in Core().queue :: r.id == id
      ensures status == "processing" <==>
              && (forall r | r in Core().queue :: r.id != id)
              && (exists h | h in Core().processing :: Core().processing[h].id == id)
      ensures found <==> status != ""
      ensures status in {"queued", "processing", ""}
    {
      ghost var core := Core();
      var i := 0;
      while i < |queue|
        invariant i <= |queue|
        invariant forall j | 0 <= j < i :: core.queue[j].id != id
      {
        assert core.queue[i] == queue[i].Value();
        if queue[i].id == id {
          assert core.queue[i] in core.queue;
          return "queued", true;
        }
        i := i + 1;
      }
      var hosts := processing.Keys;
      while hosts != {}
        invariant hosts <= processing.Keys
        invariant forall h | h in processing && h !in hosts :: core.processing[h].id != id
        decreases |hosts|
      {
        var h :| h in hosts;
        assert core.processing[h] == processing[h].Value();
        if processing[h].id == id {
          return "processing", true;
        }
        hosts := hosts - {h};
      }
      return "", false;
    }
  }
}
