/**
The requirements of a stored machine, and when a Ready host's report passes them. They change
only by users' edits, which the machine that validated the host may have missed.
*/
module HostRequirements {
  import opened Options
  import opened Hardware
  import opened HostModel
  import opened HostRuns
  import opened HostHistories
  import opened HostTheorems
  import opened HostMachines

  // ----- machines that stay

  predicate StoredAs(tr: seq<Server>, mkey: Key, j: nat, uid: string)
    requires j < |tr|
  {
    mkey in tr[j].machines && tr[j].machines[mkey].uid == uid
  }

  predicate KnownAs(tr: seq<Server>, mkey: Key, j: nat, uid: string)
    requires j < |tr|
  {
    exists e | e in tr[j].machinePast :: e.0 == mkey && e.1.uid == uid
  }

  lemma KnownNext(scan: Scanner, tr: seq<Server>, steps: seq<Step>, k: nat, mkey: Key, uid: string)
    requires Run(scan, tr, steps) && k < |steps| && KnownAs(tr, mkey, k, uid)
    ensures KnownAs(tr, mkey, k + 1, uid)
    ensures StoredAs(tr, mkey, k + 1, uid) ==> StoredAs(tr, mkey, k, uid)
  {
    assert MovesAt(scan, tr, steps, k);
    var c := StepChanges(scan, tr[k], steps[k]);
    var e :| e in tr[k].machinePast && e.0 == mkey && e.1.uid == uid;
    assert e in tr[k + 1].machinePast;
  }

  /** A machine that was known once and is stored later has been stored in between: once gone,
      it does not come back. */
  lemma {:induction false} StoredThroughout(scan: Scanner, tr: seq<Server>, steps: seq<Step>, i: nat, k: nat, mkey: Key,
                                            uid: string)
    requires Run(scan, tr, steps) && i <= k < |tr| && KnownAs(tr, mkey, i, uid) && StoredAs(tr, mkey, k, uid)
    ensures forall j | i <= j <= k :: StoredAs(tr, mkey, j, uid)
    decreases k - i
  {
    if i == k {
    } else {
      KnownNext(scan, tr, steps, i, mkey, uid);
      StoredThroughout(scan, tr, steps, i + 1, k, mkey, uid);
      assert StoredAs(tr, mkey, i + 1, uid);
    }
  }

  lemma NewMachineIsStored(scan: Scanner, tr: seq<Server>, steps: seq<Step>, k: nat, mkey: Key, m: Machine)
    requires Run(scan, tr, steps) && k < |steps|
    requires (mkey, m) in tr[k + 1].machinePast && (mkey, m) !in tr[k].machinePast
    ensures mkey in tr[k + 1].machines && tr[k + 1].machines[mkey] == m
  {
    assert MovesAt(scan, tr, steps, k);
    var c := StepChanges(scan, tr[k], steps[k]);
  }

  /** Every copy of a machine was stored at some earlier point of the run. */
  lemma {:induction false} MachineCopiesWereStored(scan: Scanner, tr: seq<Server>, steps: seq<Step>, k: nat, mkey: Key,
                                                   m: Machine)
    returns (j: nat)
    requires Run(scan, tr, steps) && k < |tr| && (mkey, m) in tr[k].machinePast
    ensures j <= k && mkey in tr[j].machines && tr[j].machines[mkey] == m
  {
    if (mkey, m) in tr[k - 1].machinePast {
      j := MachineCopiesWereStored(scan, tr, steps, k - 1, mkey, m);
    } else {
      NewMachineIsStored(scan, tr, steps, k - 1, mkey, m);
      j := k;
    }
  }

  // ----- requirements

  /** The requirements that the last edit of a machine set, or those it had before. */
  function LastSet(steps: seq<Step>, mkey: Key, i: nat, k: nat, reqs: Option<Requirements>): Option<Requirements>
    requires i <= k <= |steps|
  {
    if i == k then reqs
    else if Edits(steps[k - 1], mkey) then steps[k - 1].requirements
    else LastSet(steps, mkey, i, k - 1, reqs)
  }

  /** Requirements of a machine that stays change only by edits, and its identity not at all. */
  lemma RequirementsStep(scan: Scanner, sv: Server, s: Step, mkey: Key)
    requires Enabled(sv, s) && mkey in sv.machines && mkey in Apply(scan, sv, s).machines
    ensures Apply(scan, sv, s).machines[mkey].requirements
            == if Edits(s, mkey) then s.requirements else sv.machines[mkey].requirements
    ensures RefOf(mkey, Apply(scan, sv, s).machines[mkey]) == RefOf(mkey, sv.machines[mkey])
  {
    if !IsMachineStep(s) && !s.HandleHost? {
      HostStepLeavesMachines(scan, sv, s);
    }
  }

  lemma RequirementsAt(scan: Scanner, tr: seq<Server>, steps: seq<Step>, k: nat, mkey: Key)
    requires Run(scan, tr, steps) && k < |steps| && mkey in tr[k].machines && mkey in tr[k + 1].machines
    ensures tr[k + 1].machines[mkey].requirements
            == if Edits(steps[k], mkey) then steps[k].requirements else tr[k].machines[mkey].requirements
    ensures RefOf(mkey, tr[k + 1].machines[mkey]) == RefOf(mkey, tr[k].machines[mkey])
  {
    assert MovesAt(scan, tr, steps, k);
    RequirementsStep(scan, tr[k], steps[k], mkey);
  }

  /** The requirements of a machine that stays are those last set. */
  lemma {:induction false} RequirementsAreLastSet(scan: Scanner, tr: seq<Server>, steps: seq<Step>, i: nat, k: nat,
                                                  mkey: Key)
    requires Run(scan, tr, steps) && i <= k < |tr| && forall j | i <= j <= k :: mkey in tr[j].machines
    ensures tr[k].machines[mkey].requirements == LastSet(steps, mkey, i, k, tr[i].machines[mkey].requirements)
    ensures RefOf(mkey, tr[k].machines[mkey]) == RefOf(mkey, tr[i].machines[mkey])
  {
    if i == k {
    } else {
      RequirementsAreLastSet(scan, tr, steps, i, k - 1, mkey);
      RequirementsAt(scan, tr, steps, k - 1, mkey);
    }
  }

  // ----- the stored consumer

  /** The machine that step c acted for is still stored at k. */
  predicate StillThere(tr: seq<Server>, s: Step, k: nat)
    requires k < |tr| && s.HandleHost?
  {
    StoredAs(tr, s.mkey, k, s.msnap.uid)
  }

  lemma CopyWasKnown(scan: Scanner, tr: seq<Server>, steps: seq<Step>, c: nat)
    requires Run(scan, tr, steps) && c < |steps| && steps[c].HandleHost?
    ensures (steps[c].mkey, steps[c].msnap) in tr[c].machinePast
  {
    assert MovesAt(scan, tr, steps, c);
  }

  /** What the validator's copy says of the machine stored now. */
  lemma SinceTheCopy(scan: Scanner, tr: seq<Server>, steps: seq<Step>, c: nat, k: nat) returns (j: nat)
    requires Run(scan, tr, steps) && c < k < |tr| && steps[c].HandleHost? && StillThere(tr, steps[c], k)
    ensures j <= c && steps[c].mkey in tr[j].machines && tr[j].machines[steps[c].mkey] == steps[c].msnap
    ensures tr[k].machines[steps[c].mkey].requirements
            == LastSet(steps, steps[c].mkey, j, k, steps[c].msnap.requirements)
    ensures RefOf(steps[c].mkey, tr[k].machines[steps[c].mkey]) == RefOf(steps[c].mkey, steps[c].msnap)
  {
    var mkey, m := steps[c].mkey, steps[c].msnap;
    CopyWasKnown(scan, tr, steps, c);
    j := MachineCopiesWereStored(scan, tr, steps, c, mkey, m);
    TrackedHolds(scan, tr, steps, j);
    assert (mkey, m) in tr[j].machinePast;
    StoredThroughout(scan, tr, steps, j, k, mkey, m.uid);
    forall i | j <= i <= k ensures mkey in tr[i].machines {
      assert StoredAs(tr, mkey, i, m.uid);
    }
    RequirementsAreLastSet(scan, tr, steps, j, k, mkey);
  }

  /** While a host is Ready since the validation c and its validator is still stored: the report
      passes the requirements of the stored machine exactly if the report last committed (step i)
      passes those last set since the validator's copy was stored (j). It does if no report was
      committed since and those last set are no harder than the copy's. */
  lemma ReadyForStoredConsumer(scan: Scanner, tr: seq<Server>, steps: seq<Step>, key: Key, c: nat, k: nat)
    returns (i: nat, j: nat)
    requires Run(scan, tr, steps) && c < k < |tr| && IsValidate(EditOn(scan, tr[c], steps[c], key))
    requires InStateFrom(tr, key, c + 1, k, Ready) && steps[c].HandleHost? && StillThere(tr, steps[c], k)
    ensures Holds(scan, tr, steps, key, i, k)
    ensures j <= c && steps[c].mkey in tr[j].machines && tr[j].machines[steps[c].mkey] == steps[c].msnap
    ensures ConsumerAt(tr[k], key) == Some(RefOf(steps[c].mkey, tr[k].machines[steps[c].mkey])) <==>
            ConsumerAt(tr[c], key) == Some(RefOf(steps[c].mkey, steps[c].msnap))
            && NoReleaseBetween(scan, tr, steps, key, c, k)
    ensures var stored := tr[k].machines[steps[c].mkey].requirements;
            var last := LastSet(steps, steps[c].mkey, j, k, steps[c].msnap.requirements);
            var report := tr[k].hosts[key].host.status.report.value;
            && (Check(scan, stored, report) == Passed <==>
                Check(scan, last, StoredReport(steps[i].posted, steps[i].now)) == Passed)
            && (NoReportBetween(scan, tr, steps, key, c, k) && NoHarder(last, steps[c].msnap.requirements)
                ==> Check(scan, stored, report) == Passed)
  {
    var b;
    b, i := ReadyForConsumerExactly(scan, tr, steps, key, c, k);
    j := SinceTheCopy(scan, tr, steps, c, k);
    ConsumerSinceValidation(scan, tr, steps, key, c, k);
    var last := LastSet(steps, steps[c].mkey, j, k, steps[c].msnap.requirements);
    var report := tr[k].hosts[key].host.status.report.value;
    if NoReportBetween(scan, tr, steps, key, c, k) && NoHarder(last, steps[c].msnap.requirements) {
      NoHarderPasses(scan, last, steps[c].msnap.requirements, report);
    }
  }

  /** Without edits since the copy was stored, the requirements are the copy's. */
  lemma {:induction false} NoEditsNoChange(steps: seq<Step>, mkey: Key, i: nat, k: nat, reqs: Option<Requirements>)
    requires i <= k <= |steps|
    requires forall j | i <= j < k :: !Edits(steps[j], mkey)
    ensures LastSet(steps, mkey, i, k, reqs) == reqs && NoHarder(reqs, reqs)
  {
    if i == k {
    } else {
      NoEditsNoChange(steps, mkey, i, k - 1, reqs);
    }
  }
}
