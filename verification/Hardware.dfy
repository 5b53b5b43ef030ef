/**
Inspection reports: the posted request, its conversion to the stored report, and the check
of a report against a machine's hardware requirements. Totals are Go ints of 64 bits and
wrap around.
*/
module Hardware {
  import opened Options
  import opened Sequences

  const TWO_63 := 0x8000_0000_0000_0000
  const TWO_64 := 0x1_0000_0000_0000_0000

  type Int64 = x: int | -TWO_63 <= x < TWO_63

  function Wrap(x: int): Int64 {
    (x + TWO_63) % TWO_64 - TWO_63
  }

  predicate Fits(x: int) {
    -TWO_63 <= x < TWO_63
  }

  /** Wrapping is addition modulo 2^64 into the signed range. */
  lemma WrapExactly(x: int, y: int)
    ensures y == Wrap(x) <==>
            -9_223_372_036_854_775_808 <= y < 9_223_372_036_854_775_808 && (x - y) % 18_446_744_073_709_551_616 == 0
  {
  }

  lemma WrapAgain(x: int, y: int)
    ensures Wrap(Wrap(x) + y) == Wrap(x + y)
  {
  }

  // ----- what is posted and what is stored

  datatype CPUData = CPUData(id: string, vendor: string, model: string, cores: Int64, threads: Int64, frequency: string)
  datatype MemData = MemData(id: string, kind: string, capacity: string, speed: string)
  datatype DiskData = DiskData(name: string, model: string, sizeGB: Int64, kind: string, serial: string)
  datatype NICData = NICData(name: string, mac: string, driver: string, speed: string, ips: seq<string>)

  datatype Posted = Posted(manufacturer: string, model: string, serial: string, bootMode: string, firmware: string,
                           cpus: seq<CPUData>, memory: seq<MemData>, disks: seq<DiskData>, nics: seq<NICData>)

  datatype CPUInfo = CPUInfo(id: string, vendor: string, model: string, cores: Int64, threads: Int64, frequency: string)
  datatype MemoryInfo = MemoryInfo(id: string, kind: string, capacity: string, speed: string)
  datatype DiskInfo = DiskInfo(name: string, model: string, sizeGB: Int64, kind: string, serial: string)
  datatype NICInfo = NICInfo(name: string, mac: string, driver: string, speed: string, ips: seq<string>)

  datatype Report = Report(timestamp: int, manufacturer: string, model: string, serial: string, bootMode: string,
                           firmware: string, cpus: seq<CPUInfo>, memory: seq<MemoryInfo>, disks: seq<DiskInfo>,
                           nics: seq<NICInfo>)

  function CPU(c: CPUData): CPUInfo { CPUInfo(c.id, c.vendor, c.model, c.cores, c.threads, c.frequency) }
  function Memory(m: MemData): MemoryInfo { MemoryInfo(m.id, m.kind, m.capacity, m.speed) }
  function Disk(d: DiskData): DiskInfo { DiskInfo(d.name, d.model, d.sizeGB, d.kind, d.serial) }
  function NIC(n: NICData): NICInfo { NICInfo(n.name, n.mac, n.driver, n.speed, n.ips) }

  function Each<T, U>(s: seq<T>, f: T -> U): seq<U> {
    seq(|s|, i requires 0 <= i < |s| => f(s[i]))
  }

  function Converted(p: Posted, now: int): Report {
    Report(now, p.manufacturer, p.model, p.serial, p.bootMode, p.firmware,
           Each(p.cpus, CPU), Each(p.memory, Memory), Each(p.disks, Disk), Each(p.nics, NIC))
  }

  /** The report says what was posted: every field of every component, in order. */
  predicate SameFields(p: Posted, r: Report) {
    && r.manufacturer == p.manufacturer && r.model == p.model && r.serial == p.serial
    && r.bootMode == p.bootMode && r.firmware == p.firmware
    && |r.cpus| == |p.cpus| && |r.memory| == |p.memory| && |r.disks| == |p.disks| && |r.nics| == |p.nics|
    && (forall i | 0 <= i < |p.cpus| ::
          && r.cpus[i].id == p.cpus[i].id && r.cpus[i].vendor == p.cpus[i].vendor
          && r.cpus[i].model == p.cpus[i].model && r.cpus[i].cores == p.cpus[i].cores
          && r.cpus[i].threads == p.cpus[i].threads && r.cpus[i].frequency == p.cpus[i].frequency)
    && (forall i | 0 <= i < |p.memory| ::
          && r.memory[i].id == p.memory[i].id && r.memory[i].kind == p.memory[i].kind
          && r.memory[i].capacity == p.memory[i].capacity && r.memory[i].speed == p.memory[i].speed)
    && (forall i | 0 <= i < |p.disks| ::
          && r.disks[i].name == p.disks[i].name && r.disks[i].model == p.disks[i].model
          && r.disks[i].sizeGB == p.disks[i].sizeGB && r.disks[i].kind == p.disks[i].kind
          && r.disks[i].serial == p.disks[i].serial)
    && (forall i | 0 <= i < |p.nics| ::
          && r.nics[i].name == p.nics[i].name && r.nics[i].mac == p.nics[i].mac
          && r.nics[i].driver == p.nics[i].driver && r.nics[i].speed == p.nics[i].speed
          && r.nics[i].ips == p.nics[i].ips)
  }

  lemma ConvertedSays(p: Posted, now: int)
    ensures SameFields(p, Converted(p, now))
  {
    var r := Converted(p, now);
    assert forall i | 0 <= i < |p.cpus| :: r.cpus[i] == CPU(p.cpus[i]);
    assert forall i | 0 <= i < |p.memory| :: r.memory[i] == Memory(p.memory[i]);
    assert forall i | 0 <= i < |p.disks| :: r.disks[i] == Disk(p.disks[i]);
    assert forall i | 0 <= i < |p.nics| :: r.nics[i] == NIC(p.nics[i]);
  }

  /** No other report with that time says the same: nothing is lost or added in the conversion. */
  lemma ConvertedExactly(p: Posted, r: Report, now: int)
    ensures r == Converted(p, now) <==> r.timestamp == now && SameFields(p, r)
  {
    ConvertedSays(p, now);
    if r.timestamp == now && SameFields(p, r) {
      var c := Converted(p, now);
      assert forall i | 0 <= i < |p.cpus| :: r.cpus[i] == CPU(p.cpus[i]);
      assert forall i | 0 <= i < |p.memory| :: r.memory[i] == Memory(p.memory[i]);
      assert forall i | 0 <= i < |p.disks| :: r.disks[i] == Disk(p.disks[i]);
      assert forall i | 0 <= i < |p.nics| :: r.nics[i] == NIC(p.nics[i]);
      assert r.cpus == c.cpus && r.memory == c.memory && r.disks == c.disks && r.nics == c.nics;
    }
  }

  method Convert(p: Posted, now: int) returns (r: Report)
    ensures r == Converted(p, now)
    ensures r.timestamp == now && SameFields(p, r)
  {
    var cpus: seq<CPUInfo> := [];
    for i := 0 to |p.cpus|
      invariant |cpus| == i && forall j | 0 <= j < i :: cpus[j] == CPU(p.cpus[j])
    {
      cpus := cpus + [CPUInfo(p.cpus[i].id, p.cpus[i].vendor, p.cpus[i].model, p.cpus[i].cores, p.cpus[i].threads,
                              p.cpus[i].frequency)];
    }
    var memory: seq<MemoryInfo> := [];
    for i := 0 to |p.memory|
      invariant |memory| == i && forall j | 0 <= j < i :: memory[j] == Memory(p.memory[j])
    {
      memory := memory + [MemoryInfo(p.memory[i].id, p.memory[i].kind, p.memory[i].capacity, p.memory[i].speed)];
    }
    var disks: seq<DiskInfo> := [];
    for i := 0 to |p.disks|
      invariant |disks| == i && forall j | 0 <= j < i :: disks[j] == Disk(p.disks[j])
    {
      disks := disks + [DiskInfo(p.disks[i].name, p.disks[i].model, p.disks[i].sizeGB, p.disks[i].kind,
                                 p.disks[i].serial)];
    }
    var nics: seq<NICInfo> := [];
    for i := 0 to |p.nics|
      invariant |nics| == i && forall j | 0 <= j < i :: nics[j] == NIC(p.nics[j])
    {
      nics := nics + [NICInfo(p.nics[i].name, p.nics[i].mac, p.nics[i].driver, p.nics[i].speed, p.nics[i].ips)];
    }
    assert cpus == Each(p.cpus, CPU) && memory == Each(p.memory, Memory);
    assert disks == Each(p.disks, Disk) && nics == Each(p.nics, NIC);
    return Report(now, p.manufacturer, p.model, p.serial, p.bootMode, p.firmware, cpus, memory, disks, nics);
  }

  // ----- totals

  lemma SumPrefix<T>(s: seq<T>, i: nat, f: T -> int)
    requires i < |s|
    ensures Sum(s[..i + 1], f) == Sum(s[..i], f) + f(s[i])
  {
    assert s[..i + 1] == s[..i] + [s[i]];
    SumSnoc(s[..i], s[i], f);
  }

  /** Reads the leading integer of a capacity such as "32GB"; fails on others. It stands for
      the library's scanner. */
  type Scanner = string -> Option<Int64>

  function Gigabytes(scan: Scanner, capacity: string): int {
    match scan(capacity)
    case Some(n) => n
    case None => 0
  }

  function InfoCores(): CPUInfo -> int { (c: CPUInfo) => c.cores }
  function InfoSize(): DiskInfo -> int { (d: DiskInfo) => d.sizeGB }
  function InfoMemory(scan: Scanner): MemoryInfo -> int { (m: MemoryInfo) => Gigabytes(scan, m.capacity) }

  function DataCores(): CPUData -> int { (c: CPUData) => c.cores }
  function DataSize(): DiskData -> int { (d: DiskData) => d.sizeGB }
  function DataMemory(scan: Scanner): MemData -> int { (m: MemData) => Gigabytes(scan, m.capacity) }

  // ----- the verdict

  datatype Requirements = Requirements(minCPUCores: Int64, minMemoryGB: Int64, minDiskGB: Int64)

  datatype Verdict = Passed | FewCores(found: Int64) | LittleMemory(found: Int64) | LittleDisk(found: Int64)

  function Judge(reqs: Option<Requirements>, cores: Int64, memory: Int64, disk: Int64): Verdict {
    match reqs
    case None => Passed
    case Some(q) =>
      if q.minCPUCores > 0 && cores < q.minCPUCores then FewCores(cores)
      else if q.minMemoryGB > 0 && memory < q.minMemoryGB then LittleMemory(memory)
      else if q.minDiskGB > 0 && disk < q.minDiskGB then LittleDisk(disk)
      else Passed
  }

  /** The verdict on a stored report. */
  function Check(scan: Scanner, reqs: Option<Requirements>, r: Report): Verdict {
    Judge(reqs, Wrap(Sum(r.cpus, InfoCores())), Wrap(Sum(r.memory, InfoMemory(scan))), Wrap(Sum(r.disks, InfoSize())))
  }

  /** The capacities that can be read, in order. */
  function Readable(scan: Scanner, dimms: seq<MemoryInfo>): seq<int> {
    if dimms == [] then []
    else
      var n := |dimms| - 1;
      match scan(dimms[n].capacity)
      case Some(gb) => Readable(scan, dimms[..n]) + [gb]
      case None => Readable(scan, dimms[..n])
  }

  /** What the totals count: the cores of every CPU, the size of every disk, and the capacities
      that can be read, the others not at all. */
  lemma {:induction false} TotalsCount(scan: Scanner, dimms: seq<MemoryInfo>)
    ensures (forall c: CPUInfo :: InfoCores()(c) == c.cores) && (forall d: DiskInfo :: InfoSize()(d) == d.sizeGB)
    ensures (forall c: CPUData :: DataCores()(c) == c.cores) && (forall d: DiskData :: DataSize()(d) == d.sizeGB)
    ensures Sum(dimms, InfoMemory(scan)) == Sum(Readable(scan, dimms), (gb: int) => gb)
  {
    if dimms == [] {
    } else {
      var n := |dimms| - 1;
      TotalsCount(scan, dimms[..n]);
      if scan(dimms[n].capacity).Some? {
        SumSnoc(Readable(scan, dimms[..n]), scan(dimms[n].capacity).value, (gb: int) => gb);
      }
    }
  }

  /** Which verdict a report gets: cores are looked at first, then memory, then disk, and the
      first total below its positive minimum is the one reported. */
  lemma VerdictExactly(scan: Scanner, reqs: Requirements, r: Report)
    ensures var cores := Wrap(Sum(r.cpus, InfoCores()));
            var memory := Wrap(Sum(r.memory, InfoMemory(scan)));
            var disk := Wrap(Sum(r.disks, InfoSize()));
            var few := reqs.minCPUCores > 0 && cores < reqs.minCPUCores;
            var little := reqs.minMemoryGB > 0 && memory < reqs.minMemoryGB;
            var small := reqs.minDiskGB > 0 && disk < reqs.minDiskGB;
            && (forall n: Int64 :: Check(scan, Some(reqs), r) == FewCores(n) <==> few && n == cores)
            && (forall n: Int64 :: Check(scan, Some(reqs), r) == LittleMemory(n) <==> !few && little && n == memory)
            && (forall n: Int64 ::
                  Check(scan, Some(reqs), r) == LittleDisk(n) <==> !few && !little && small && n == disk)
            && (Check(scan, Some(reqs), r) == Passed <==> !few && !little && !small)
    ensures Check(scan, None, r) == Passed
  {
  }

  method CheckReport(scan: Scanner, reqs: Option<Requirements>, r: Report) returns (v: Verdict)
    ensures v == Check(scan, reqs, r)
  {
    if reqs.None? {
      return Passed;
    }
    var q := reqs.value;
    var totalCores: Int64 := 0;
    for i := 0 to |r.cpus|
      invariant totalCores == Wrap(Sum(r.cpus[..i], InfoCores()))
    {
      SumPrefix(r.cpus, i, InfoCores());
      WrapAgain(Sum(r.cpus[..i], InfoCores()), r.cpus[i].cores);
      totalCores := Wrap(totalCores + r.cpus[i].cores);
    }
    assert r.cpus[..|r.cpus|] == r.cpus;
    if q.minCPUCores > 0 && totalCores < q.minCPUCores {
      return FewCores(totalCores);
    }
    var totalMemoryGB: Int64 := 0;
    for i := 0 to |r.memory|
      invariant totalMemoryGB == Wrap(Sum(r.memory[..i], InfoMemory(scan)))
    {
      SumPrefix(r.memory, i, InfoMemory(scan));
      var memGB := scan(r.memory[i].capacity);
      if memGB.None? {
        continue;
      }
      WrapAgain(Sum(r.memory[..i], InfoMemory(scan)), memGB.value);
      totalMemoryGB := Wrap(totalMemoryGB + memGB.value);
    }
    assert r.memory[..|r.memory|] == r.memory;
    if q.minMemoryGB > 0 && totalMemoryGB < q.minMemoryGB {
      return LittleMemory(totalMemoryGB);
    }
    if q.minDiskGB > 0 {
      var totalDisk: Int64 := 0;
      for i := 0 to |r.disks|
        invariant totalDisk == Wrap(Sum(r.disks[..i], InfoSize()))
      {
        SumPrefix(r.disks, i, InfoSize());
        WrapAgain(Sum(r.disks[..i], InfoSize()), r.disks[i].sizeGB);
        totalDisk := Wrap(totalDisk + r.disks[i].sizeGB);
      }
      assert r.disks[..|r.disks|] == r.disks;
      if totalDisk < q.minDiskGB {
        return LittleDisk(totalDisk);
      }
    }
    return Passed;
  }

  // ----- what the verdict means for the posted request

  /** Each positive minimum is at most the sum over the posted components. */
  predicate Meets(scan: Scanner, reqs: Option<Requirements>, p: Posted) {
    reqs.Some? ==>
      && (reqs.value.minCPUCores > 0 ==> reqs.value.minCPUCores <= Sum(p.cpus, DataCores()))
      && (reqs.value.minMemoryGB > 0 ==> reqs.value.minMemoryGB <= Sum(p.memory, DataMemory(scan)))
      && (reqs.value.minDiskGB > 0 ==> reqs.value.minDiskGB <= Sum(p.disks, DataSize()))
  }

  predicate TotalsFit(scan: Scanner, p: Posted) {
    Fits(Sum(p.cpus, DataCores())) && Fits(Sum(p.memory, DataMemory(scan))) && Fits(Sum(p.disks, DataSize()))
  }

  lemma {:induction false} SumThroughConversion<T, U>(s: seq<T>, conv: T -> U, f: U -> int, g: T -> int)
    requires forall x :: f(conv(x)) == g(x)
    ensures Sum(Each(s, conv), f) == Sum(s, g)
  {
    if s == [] {
    } else {
      SumThroughConversion(s[..|s| - 1], conv, f, g);
      assert Each(s, conv)[..|s| - 1] == Each(s[..|s| - 1], conv);
    }
  }

  lemma TotalsThroughConversion(scan: Scanner, p: Posted, now: int)
    ensures var r := Converted(p, now);
            && Sum(r.cpus, InfoCores()) == Sum(p.cpus, DataCores())
            && Sum(r.memory, InfoMemory(scan)) == Sum(p.memory, DataMemory(scan))
            && Sum(r.disks, InfoSize()) == Sum(p.disks, DataSize())
  {
    SumThroughConversion(p.cpus, CPU, InfoCores(), DataCores());
    SumThroughConversion(p.memory, Memory, InfoMemory(scan), DataMemory(scan));
    SumThroughConversion(p.disks, Disk, InfoSize(), DataSize());
  }

  /** Each positive minimum is compared with the wrapped total. */
  lemma VerdictOnWrappedTotals(scan: Scanner, reqs: Requirements, p: Posted, now: int)
    ensures Check(scan, Some(reqs), Converted(p, now)) == Passed <==>
            && (reqs.minCPUCores > 0 ==> reqs.minCPUCores <= Wrap(Sum(p.cpus, DataCores())))
            && (reqs.minMemoryGB > 0 ==> reqs.minMemoryGB <= Wrap(Sum(p.memory, DataMemory(scan))))
            && (reqs.minDiskGB > 0 ==> reqs.minDiskGB <= Wrap(Sum(p.disks, DataSize())))
  {
    TotalsThroughConversion(scan, p, now);
  }

  /** Some total that is asked for lies below the 64-bit range. */
  predicate Underflows(scan: Scanner, reqs: Option<Requirements>, p: Posted) {
    reqs.Some? &&
    (|| (reqs.value.minCPUCores > 0 && Sum(p.cpus, DataCores()) < -TWO_63)
     || (reqs.value.minMemoryGB > 0 && Sum(p.memory, DataMemory(scan)) < -TWO_63)
     || (reqs.value.minDiskGB > 0 && Sum(p.disks, DataSize()) < -TWO_63))
  }

  predicate WrapsBelow(minimum: int, total: int) {
    minimum > 0 && total >= TWO_63 && Wrap(total) < minimum
  }

  /** Some total lies above the 64-bit range and wraps below its minimum. */
  predicate Overflows(scan: Scanner, reqs: Option<Requirements>, p: Posted) {
    reqs.Some? &&
    (|| WrapsBelow(reqs.value.minCPUCores, Sum(p.cpus, DataCores()))
     || WrapsBelow(reqs.value.minMemoryGB, Sum(p.memory, DataMemory(scan)))
     || WrapsBelow(reqs.value.minDiskGB, Sum(p.disks, DataSize())))
  }

  lemma WrapsDown(x: int)
    ensures x >= -TWO_63 ==> Wrap(x) <= x
    ensures x < TWO_63 ==> x <= Wrap(x)
  {
  }

  lemma WrapsDownTotals(scan: Scanner, p: Posted)
    ensures var cores, memory := Sum(p.cpus, DataCores()), Sum(p.memory, DataMemory(scan));
            var disk := Sum(p.disks, DataSize());
            && (cores >= -TWO_63 ==> Wrap(cores) <= cores) && (cores < TWO_63 ==> cores <= Wrap(cores))
            && (memory >= -TWO_63 ==> Wrap(memory) <= memory) && (memory < TWO_63 ==> memory <= Wrap(memory))
            && (disk >= -TWO_63 ==> Wrap(disk) <= disk) && (disk < TWO_63 ==> disk <= Wrap(disk))
  {
    WrapsDown(Sum(p.cpus, DataCores()));
    WrapsDown(Sum(p.memory, DataMemory(scan)));
    WrapsDown(Sum(p.disks, DataSize()));
  }

  /** A report that passes was posted by a request that meets the requirements, exactly unless
      a total that is asked for underflows: overflow upwards never admits, underflow can. */
  lemma PassingMeansMeeting(scan: Scanner, reqs: Option<Requirements>, p: Posted, now: int)
    requires Check(scan, reqs, Converted(p, now)) == Passed
    ensures Meets(scan, reqs, p) <==> !Underflows(scan, reqs, p)
  {
    if reqs.Some? {
      VerdictOnWrappedTotals(scan, reqs.value, p, now);
      WrapsDownTotals(scan, p);
    }
  }

  /** A request that meets the requirements yields a report that passes, exactly unless a total
      overflows below its minimum. */
  lemma MeetingMeansPassing(scan: Scanner, reqs: Option<Requirements>, p: Posted, now: int)
    requires Meets(scan, reqs, p)
    ensures Check(scan, reqs, Converted(p, now)) == Passed <==> !Overflows(scan, reqs, p)
  {
    if reqs.Some? {
      VerdictOnWrappedTotals(scan, reqs.value, p, now);
      WrapsDownTotals(scan, p);
    }
  }

  /** The verdict on a converted report is the verdict on the posted request if the totals fit in
      64 bits; for all requests it differs exactly where it admits an underflow or refuses an
      overflow. */
  lemma VerdictThroughConversion(scan: Scanner, reqs: Option<Requirements>, p: Posted, now: int)
    ensures TotalsFit(scan, p) ==> (Check(scan, reqs, Converted(p, now)) == Passed <==> Meets(scan, reqs, p))
    ensures Check(scan, reqs, Converted(p, now)) == Passed && !Meets(scan, reqs, p) <==>
            Check(scan, reqs, Converted(p, now)) == Passed && Underflows(scan, reqs, p)
    ensures Check(scan, reqs, Converted(p, now)) != Passed && Meets(scan, reqs, p) <==>
            Meets(scan, reqs, p) && Overflows(scan, reqs, p)
  {
    if Check(scan, reqs, Converted(p, now)) == Passed {
      PassingMeansMeeting(scan, reqs, p, now);
    }
    if Meets(scan, reqs, p) {
      MeetingMeansPassing(scan, reqs, p, now);
    }
  }

  /** Two disks whose sizes add up to 2^63 meet a minimum of one gigabyte and are refused. */
  lemma OverflowRefuses(scan: Scanner) returns (reqs: Option<Requirements>, p: Posted)
    ensures Meets(scan, reqs, p) && Check(scan, reqs, Converted(p, 0)) != Passed
  {
    var d := DiskData("", "", TWO_63 / 2, "", "");
    reqs := Some(Requirements(0, 0, 1));
    p := Posted("", "", "", "", "", [], [], [d, d], []);
    assert [d, d][..1] == [d];
    assert Sum([d], DataSize()) == TWO_63 / 2;
    assert Sum([d, d], DataSize()) == TWO_63;
    TotalsThroughConversion(scan, p, 0);
  }

  /** Disks of -2^63 and -1 gigabytes add up to less than nothing and pass a minimum of one. */
  lemma UnderflowAdmits(scan: Scanner) returns (reqs: Option<Requirements>, p: Posted)
    ensures !Meets(scan, reqs, p) && Check(scan, reqs, Converted(p, 0)) == Passed
  {
    var d, e := DiskData("", "", -TWO_63, "", ""), DiskData("", "", -1, "", "");
    reqs := Some(Requirements(0, 0, 1));
    p := Posted("", "", "", "", "", [], [], [d, e], []);
    assert [d, e][..1] == [d];
    assert Sum([d], DataSize()) == -TWO_63;
    assert Sum([d, e], DataSize()) == -TWO_63 - 1;
    TotalsThroughConversion(scan, p, 0);
  }

  // ----- changed requirements

  predicate Easier(minimum': int, minimum: int) {
    minimum' <= 0 || minimum' <= minimum
  }

  /** Every positive minimum asked for is at most the one asked for before. */
  predicate NoHarder(reqs': Option<Requirements>, reqs: Option<Requirements>) {
    reqs'.Some? ==>
      var q := if reqs.Some? then reqs.value else Requirements(0, 0, 0);
      && Easier(reqs'.value.minCPUCores, q.minCPUCores)
      && Easier(reqs'.value.minMemoryGB, q.minMemoryGB)
      && Easier(reqs'.value.minDiskGB, q.minDiskGB)
  }

  /** A report that passes requirements passes those that are no harder. */
  lemma NoHarderPasses(scan: Scanner, reqs': Option<Requirements>, reqs: Option<Requirements>, r: Report)
    requires NoHarder(reqs', reqs) && Check(scan, reqs, r) == Passed
    ensures Check(scan, reqs', r) == Passed
  {
  }

  function AtLeastZero(n: Int64): Int64 {
    if n < 0 then 0 else n
  }

  lemma SumOfOne<T>(x: T, f: T -> int)
    ensures Sum([x], f) == f(x)
  {
    assert [x] == [] + [x];
    SumSnoc([], x, f);
  }

  /** And no others: of any that are harder in some minimum, there is a request that passes the
      former and fails these, provided that some capacity reads as the memory asked for. */
  lemma HarderFails(scan: Scanner, reqs': Option<Requirements>, reqs: Option<Requirements>, capacity: string)
    returns (p: Posted)
    requires !NoHarder(reqs', reqs)
    requires scan(capacity) == Some(if reqs.Some? then AtLeastZero(reqs.value.minMemoryGB) else 0)
    ensures Check(scan, reqs, Converted(p, 0)) == Passed && Check(scan, reqs', Converted(p, 0)) != Passed
  {
    var q := if reqs.Some? then reqs.value else Requirements(0, 0, 0);
    var cpu := CPUData("", "", "", AtLeastZero(q.minCPUCores), 0, "");
    var dimm := MemData("", "", capacity, "");
    var disk := DiskData("", "", AtLeastZero(q.minDiskGB), "", "");
    p := Posted("", "", "", "", "", [cpu], [dimm], [disk], []);
    SumOfOne(cpu, DataCores());
    SumOfOne(dimm, DataMemory(scan));
    SumOfOne(disk, DataSize());
    TotalsThroughConversion(scan, p, 0);
  }

  // ----- the order of the components does not matter

  /** Reports that list the same components in any order get the same verdict, found totals
      included. */
  lemma OrderIrrelevant(scan: Scanner, reqs: Option<Requirements>, r: Report, r': Report)
    requires multiset(r.cpus) == multiset(r'.cpus)
    requires multiset(r.memory) == multiset(r'.memory)
    requires multiset(r.disks) == multiset(r'.disks)
    ensures Check(scan, reqs, r) == Check(scan, reqs, r')
  {
    PermutationKeepsSum(r.cpus, r'.cpus, InfoCores());
    PermutationKeepsSum(r.memory, r'.memory, InfoMemory(scan));
    PermutationKeepsSum(r.disks, r'.disks, InfoSize());
  }
}
