/** Recovering a whole journal: any number of records, on any store, and what that
    comes to when each record is a replacement the protocol left unfinished
    (internal/evs/journal.go, RecoverPending). */
module Pending {
  import opened Paths
  import opened Store
  import opened Record
  import opened Protocol
  import opened Recovery

  type Journal = map<string, Record>

  ghost predicate PendingStep(records: Journal, d: Durable, d': Durable) {
    exists stem :: stem in records && records[stem].id == stem && SafeStep(records[stem], d, d')
  }

  /** Every change of durable state is a safe recovery step of some record. */
  ghost predicate PendingRun(records: Journal, from: nat, t: seq<Durable>) {
    forall i, j :: from <= i && j == i + 1 && j < |t| ==> PendingStep(records, t[i], t[j])
  }

  lemma NothingSwept(records: Journal, t: seq<Durable>)
    requires t != []
    ensures PendingRun(records, |t| - 1, t)
  {
  }

  lemma PendingJoins(records: Journal, stem: string, from: nat, mid: nat, t: seq<Durable>)
    requires from <= mid < |t| && PendingRun(records, from, t[..mid + 1])
    requires stem in records && records[stem].id == stem && SafeRun(records[stem], mid, t)
    ensures PendingRun(records, from, t)
  {
  }

  /** A record that stops a recovery in which no call went wrong. */
  ghost predicate Blocked(records: Journal, from: nat, t: seq<Durable>) {
    exists stem, k :: stem in records && from <= k < |t| && BlockedAt(records[stem], stem, t[k])
  }

  predicate BlockedAt(r: Record, stem: string, d: Durable) {
    stem in d.ledger && !(ValidRecord(r, stem) && Recoverable(r, d.remote))
  }

  /** On any store, whatever the journal holds, a path no record reaches is never
      touched. */
  lemma {:induction false} PendingIsSafeAnywhere(records: Journal, from: nat, t: seq<Durable>, k: nat, q: Path)
    requires from <= k < |t| && PendingRun(records, from, t)
    requires forall stem :: stem in records ==> !Reaches(records[stem], q)
    ensures Lookup(t[k].remote, q) == Lookup(t[from].remote, q)
  {
    if k == from {
    } else {
      hide Reaches, SafeStep;
      PendingIsSafeAnywhere(records, from, t, k - 1, q);
      assert PendingStep(records, t[k - 1], t[k]);
      var stem :| stem in records && SafeStep(records[stem], t[k - 1], t[k]);
      StepWithinReach(records[stem], t[k - 1], t[k]);
    }
  }

  // ------------------------------------------------- unfinished replacements

  /** Neither job may change a name the other works on. */
  ghost predicate Disjoint(a: Job, b: Job) {
    forall q :: a.Owns(q) ==> !b.Owns(q) && !(b.backup <= q) && (b.IsUpload() ==> !(b.stage <= q))
  }

  /** Replacements in progress side by side. */
  ghost predicate Together(jobs: map<string, Job>, d: Durable) {
    && (forall a :: a in jobs ==> jobs[a].id == a && jobs[a].WellFormed() && jobs[a].Changeable() && Inv(jobs[a], d))
    && (forall a, b :: a in jobs && b in jobs && a != b ==> Disjoint(jobs[a], jobs[b]))
  }

  /** A step of one leaves another as it is. */
  lemma OthersKeepPlaces(a: Job, b: Job, d: Durable, d': Durable)
    requires a.WellFormed() && Framed(a, d, d') && Disjoint(a, b) && Grounded(b, d.remote)
    ensures Grounded(b, d'.remote)
    ensures b.Dest(d'.remote) == b.Dest(d.remote) && b.Stage(d'.remote) == b.Stage(d.remote)
    ensures b.Backup(d'.remote) == b.Backup(d.remote)
  {
    assert !a.Owns(b.dest) && !a.Owns(b.stage) && !a.Owns(b.backup);
    forall q | q in d'.remote && (b.backup <= q || (b.IsUpload() && b.stage <= q))
      ensures q in d.remote
    {
      assert !a.Owns(q);
      assert Lookup(d'.remote, q) == Lookup(d.remote, q);
    }
    forall n | b.Owns(n)
      ensures Listable(d'.remote, Parent(n)) <==> b.Shows(n)
    {
      ListingStays(a, d, d', Parent(n));
    }
    forall g | Lookup(d'.remote, g) == Some(Directory(true))
      ensures Lookup(d.remote, g) == Some(Directory(true))
    {
    }
  }

  lemma OthersKeepInv(a: Job, b: Job, d: Durable, d': Durable)
    requires a.WellFormed() && b.WellFormed() && a.id != b.id && Disjoint(a, b)
    requires Inv(a, d) && Inv(b, d) && Next(a, d, d')
    ensures Inv(b, d')
  {
    hide Next, Disjoint, Describes, Job.WellFormed;
    StepFramed(a, d, d');
    assert Grounded(b, d.remote);
    OthersKeepPlaces(a, b, d, d');
    hide Grounded;
  }

  lemma OthersKeepTracks(a: Job, b: Job, r: Record, d: Durable, d': Durable)
    requires a.WellFormed() && b.WellFormed() && a.id != b.id && Disjoint(a, b)
    requires Inv(a, d) && Inv(b, d) && Next(a, d, d') && Tracks(b, r, d)
    ensures Tracks(b, r, d')
  {
    StepFramed(a, d, d');
    assert Grounded(b, d.remote);
    OthersKeepPlaces(a, b, d, d');
  }

  /** Every record of the journal is one of these replacements, as last saved. */
  ghost predicate Recorded(jobs: map<string, Job>, records: Journal, d: Durable) {
    && Together(jobs, d) && records.Keys <= jobs.Keys && d.ledger.Keys <= jobs.Keys
    && forall a :: a in records ==> Tracks(jobs[a], records[a], d)
  }

  lemma JournalIsRecorded(jobs: map<string, Job>, d: Durable)
    requires Together(jobs, d) && d.ledger.Keys <= jobs.Keys
    ensures Recorded(jobs, d.ledger, d)
  {
  }

  /** A recovery step is a step of its own replacement and disturbs no other. */
  lemma PendingStepIsNext(jobs: map<string, Job>, records: Journal, d: Durable, d': Durable) returns (stem: string)
    requires Recorded(jobs, records, d) && PendingStep(records, d, d')
    ensures stem in jobs && Next(jobs[stem], d, d')
    ensures Recorded(jobs, records, d')
  {
    hide Inv, SafeStep, Next, Disjoint, Job.WellFormed, Job.Changeable, Tracks;
    stem :| stem in records && SafeStep(records[stem], d, d');
    assert stem in jobs;
    SafeStepIsNext(jobs[stem], records[stem], d, d');
    StillOneOfThem(jobs, stem, d, d');
    forall b | b in records
      ensures Tracks(jobs[b], records[b], d')
    {
      if b != stem { OthersKeepTracks(jobs[stem], jobs[b], records[b], d, d'); }
    }
  }

  lemma StillOneOfThem(jobs: map<string, Job>, a: string, d: Durable, d': Durable)
    requires Together(jobs, d) && a in jobs && Next(jobs[a], d, d') && Inv(jobs[a], d')
    requires d.ledger.Keys <= jobs.Keys
    ensures Together(jobs, d') && d'.ledger.Keys <= jobs.Keys
  {
    StepFramed(jobs[a], d, d');
    forall b | b in jobs
      ensures Inv(jobs[b], d')
    {
      if b != a { OthersKeepInv(jobs[a], jobs[b], d, d'); }
    }
  }

  lemma PendingStepAt(jobs: map<string, Job>, records: Journal, from: nat, t: seq<Durable>, k: nat)
    returns (stem: string)
    requires from < k < |t| && PendingRun(records, from, t) && Recorded(jobs, records, t[k - 1])
    ensures stem in jobs && Next(jobs[stem], t[k - 1], t[k])
    ensures Recorded(jobs, records, t[k])
  {
    hide Recorded, PendingStep, Next;
    stem := PendingStepIsNext(jobs, records, t[k - 1], t[k]);
  }

  lemma PendingKeepsRecorded(jobs: map<string, Job>, records: Journal, from: nat, t: seq<Durable>, k: nat)
    requires from <= k < |t| && PendingRun(records, from, t) && Recorded(jobs, records, t[from])
    ensures Recorded(jobs, records, t[k])
  {
    hide Recorded, PendingRun, Next;
    var i := from;
    while i < k
      invariant from <= i <= k && Recorded(jobs, records, t[i])
    {
      i := i + 1;
      var stem := PendingStepAt(jobs, records, from, t, i);
    }
  }

  /** Some recorded move went to where nobody finds the file. */
  ghost predicate SomeStuck(jobs: map<string, Job>, d: Durable) {
    exists a :: a in d.ledger && a in jobs && Stuck(jobs[a], d.remote)
  }

  /** Recovery moves no move's source. */
  lemma StepKeepsSource(jobs: map<string, Job>, records: Journal, d: Durable, d': Durable, a: string)
    requires Recorded(jobs, records, d) && PendingStep(records, d, d') && a in jobs && !jobs[a].IsUpload()
    ensures jobs[a].Stage(d'.remote) == jobs[a].Stage(d.remote)
  {
    var stem :| stem in records && SafeStep(records[stem], d, d');
    assert stem in jobs && Tracks(jobs[stem], records[stem], d);
    if stem == a {
      StepWithinReach(records[a], d, d');
      JobApart(jobs[a], records[a]);
    } else {
      SafeStepIsNext(jobs[stem], records[stem], d, d');
      StepFramed(jobs[stem], d, d');
      assert Disjoint(jobs[a], jobs[stem]) && jobs[a].Owns(jobs[a].stage);
    }
    hide Inv, Next, SafeStep, Tracks, Disjoint, Job.WellFormed, Protects;
  }

  lemma {:induction false} SourceStays(jobs: map<string, Job>, records: Journal, from: nat, t: seq<Durable>, k: nat,
                                       a: string)
    requires from <= k < |t| && PendingRun(records, from, t) && Recorded(jobs, records, t[from])
    requires a in jobs && !jobs[a].IsUpload()
    ensures jobs[a].Stage(t[k].remote) == jobs[a].Stage(t[from].remote)
  {
    hide Recorded, PendingStep;
    if k == from {
    } else {
      SourceStays(jobs, records, from, t, k - 1, a);
      PendingKeepsRecorded(jobs, records, from, t, k - 1);
      StepKeepsSource(jobs, records, t[k - 1], t[k], a);
    }
  }

  lemma {:induction false} RecordsOnlyGo(records: Journal, from: nat, t: seq<Durable>, k: nat)
    requires from <= k < |t| && PendingRun(records, from, t) && t[from].ledger.Keys <= records.Keys
    ensures t[k].ledger.Keys <= records.Keys
  {
    if k == from {
    } else {
      RecordsOnlyGo(records, from, t, k - 1);
      assert PendingStep(records, t[k - 1], t[k]);
    }
  }

  lemma StuckIsRecorded(jobs: map<string, Job>, d: Durable, a: string)
    requires Together(jobs, d) && a in jobs && Stuck(jobs[a], d.remote)
    ensures a in d.ledger
  {
    assert Inv(jobs[a], d);
  }

  /** Recovery neither gets such a file unstuck nor any other one stuck. */
  lemma RecoveryUnsticksNone(jobs: map<string, Job>, from: nat, t: seq<Durable>, k: nat)
    requires from <= k < |t| && PendingRun(t[from].ledger, from, t)
    requires Together(jobs, t[from]) && t[from].ledger.Keys <= jobs.Keys
    ensures SomeStuck(jobs, t[k]) <==> SomeStuck(jobs, t[from])
  {
    hide PendingRun, Tracks, Inv, Disjoint, Job.WellFormed, Job.Changeable;
    var records := t[from].ledger;
    JournalIsRecorded(jobs, t[from]);
    RecordsOnlyGo(records, from, t, k);
    PendingKeepsRecorded(jobs, records, from, t, k);
    forall a | a in jobs && !jobs[a].IsUpload()
      ensures Stuck(jobs[a], t[k].remote) <==> Stuck(jobs[a], t[from].remote)
      ensures Stuck(jobs[a], t[k].remote) ==> a in t[k].ledger
    {
      SourceStays(jobs, records, from, t, k, a);
      if Stuck(jobs[a], t[k].remote) { StuckIsRecorded(jobs, t[k], a); }
    }
  }

  /** Progress: the records of unfinished replacements stop a recovery if and only if one
      of them is of a file that was moved to where nobody finds it. Otherwise only a call
      that goes wrong can. */
  lemma UnfinishedBlocksIff(jobs: map<string, Job>, from: nat, t: seq<Durable>)
    requires from < |t| && PendingRun(t[from].ledger, from, t)
    requires Together(jobs, t[from]) && t[from].ledger.Keys <= jobs.Keys
    requires forall a :: a in t[from].ledger ==> ValidRecord(t[from].ledger[a], a)
    ensures Blocked(t[from].ledger, from, t) <==> SomeStuck(jobs, t[from])
  {
    hide PendingRun, Tracks, ValidRecord, Recoverable, Inv, Disjoint, Job.WellFormed, Job.Changeable;
    var records := t[from].ledger;
    JournalIsRecorded(jobs, t[from]);
    forall stem, k | stem in records && from <= k < |t|
      ensures BlockedAt(records[stem], stem, t[k]) <==> stem in t[k].ledger && Stuck(jobs[stem], t[from].remote)
    {
      PendingKeepsRecorded(jobs, records, from, t, k);
      assert stem in jobs;
      if stem in t[k].ledger {
        TracksIsRecoverable(jobs[stem], records[stem], t[k]);
        if !jobs[stem].IsUpload() { SourceStays(jobs, records, from, t, k, stem); }
      }
    }
    if SomeStuck(jobs, t[from]) {
      var a :| a in records && a in jobs && Stuck(jobs[a], t[from].remote);
      assert BlockedAt(records[a], a, t[from]);
    }
  }

  lemma TogetherAlone(job: Job, d: Durable)
    requires job.WellFormed() && job.Changeable() && Inv(job, d)
    ensures Together(map[job.id := job], d)
  {
    hide Inv, Disjoint, Job.WellFormed, Job.Changeable;
  }

  lemma PendingStepContinues(jobs: map<string, Job>, from: nat, t: seq<Durable>, k: nat) returns (stem: string)
    requires from < k < |t| && PendingRun(t[from].ledger, from, t) && Recorded(jobs, t[from].ledger, t[from])
    ensures stem in jobs && Next(jobs[stem], t[k - 1], t[k])
  {
    hide Recorded, PendingRun, Next;
    PendingKeepsRecorded(jobs, t[from].ledger, from, t, k - 1);
    stem := PendingStepAt(jobs, t[from].ledger, from, t, k);
  }

  /** For the only replacement in the journal, recovering the journal continues its
      run. */
  lemma PendingContinues(job: Job, from: nat, t: seq<Durable>)
    requires from < |t| && PendingRun(t[from].ledger, from, t)
    requires t[from].ledger.Keys <= {job.id} && job.WellFormed() && job.Changeable() && Inv(job, t[from])
    ensures Run(job, from, t)
  {
    hide Inv, Next, Tracks, Disjoint, Job.WellFormed, Job.Changeable;
    var jobs := map[job.id := job];
    TogetherAlone(job, t[from]);
    JournalIsRecorded(jobs, t[from]);
    forall i, j | from <= i && j == i + 1 && j < |t|
      ensures Next(job, t[i], t[j])
    {
      var stem := PendingStepContinues(jobs, from, t, j);
    }
  }

  lemma StillTogether(jobs: map<string, Job>, from: nat, t: seq<Durable>)
    requires from < |t| && PendingRun(t[from].ledger, from, t)
    requires Together(jobs, t[from]) && t[from].ledger.Keys <= jobs.Keys
    ensures var d := t[|t| - 1]; Together(jobs, d) && d.ledger.Keys <= jobs.Keys
  {
    hide PendingRun, Together, Tracks;
    JournalIsRecorded(jobs, t[from]);
    PendingKeepsRecorded(jobs, t[from].ledger, from, t, |t| - 1);
  }

  /** When there is only one replacement, this is a stretch of its run. */
  ghost predicate RunsAlone(jobs: map<string, Job>, from: nat, t: seq<Durable>) {
    forall a :: jobs.Keys == {a} ==> Run(jobs[a], from, t)
  }

  lemma RunsAloneJoins(jobs: map<string, Job>, from: nat, mid: nat, t: seq<Durable>)
    requires from <= mid < |t| && RunsAlone(jobs, from, t[..mid + 1]) && RunsAlone(jobs, mid, t)
    ensures RunsAlone(jobs, from, t)
  {
  }

  lemma AllSettled(jobs: map<string, Job>, d: Durable)
    requires Together(jobs, d) && d.ledger == map[]
    ensures forall a :: a in jobs ==> Settled(jobs[a], d.remote)
  {
  }

  /** A run that began on an empty journal leaves at most its own record there. */
  lemma BegunTogether(job: Job, from: nat, t: seq<Durable>)
    requires from < |t| && Ready(job, t[from]) && t[from].ledger == map[] && Run(job, from, t)
    ensures Together(map[job.id := job], t[|t| - 1]) && t[|t| - 1].ledger.Keys <= {job.id}
  {
    hide Run, Grounded, AtBase, Consistent, Job.WellFormed, Job.Changeable, Together;
    RunKeepsInv(job, from, t, |t| - 1);
    TogetherAlone(job, t[|t| - 1]);
  }

  /** A replacement and everything that came after it, down to an empty journal. */
  lemma AloneIsAtomic(job: Job, from: nat, mid: nat, t: seq<Durable>)
    requires from <= mid < |t| && Ready(job, t[from]) && Run(job, from, t[..mid + 1])
    requires RunsAlone(map[job.id := job], mid, t) && t[|t| - 1].ledger == map[]
    ensures Concludes(job, t[from].remote, t[|t| - 1].remote)
  {
    hide Ready, Run, Replaced, Concludes;
    assert map[job.id := job].Keys == {job.id};
    RunJoins(job, from, mid, t);
    AtomicReplacement(job, from, t, |t| - 1);
  }

  /** Or, if it is a move to where nobody finds the file, down to a journal that stays. */
  lemma AloneIsStuck(job: Job, from: nat, mid: nat, t: seq<Durable>)
    requires from <= mid < |t| && Ready(job, t[from]) && Run(job, from, t[..mid + 1])
    requires RunsAlone(map[job.id := job], mid, t) && Stuck(job, t[|t| - 1].remote)
    ensures t[|t| - 1].remote == Replaced(job, t[from].remote)
  {
    hide Ready, Run, Replaced, Stuck;
    assert map[job.id := job].Keys == {job.id};
    RunJoins(job, from, mid, t);
    StuckIsMoved(job, from, t, |t| - 1);
  }

  lemma OnlyOneContinues(jobs: map<string, Job>, from: nat, t: seq<Durable>)
    requires from < |t| && PendingRun(t[from].ledger, from, t)
    requires Together(jobs, t[from]) && t[from].ledger.Keys <= jobs.Keys
    ensures RunsAlone(jobs, from, t)
  {
    hide PendingRun, Inv, Run, Job.WellFormed, Job.Changeable;
    forall a | jobs.Keys == {a}
      ensures Run(jobs[a], from, t)
    {
      assert a in jobs;
      PendingContinues(jobs[a], from, t);
    }
  }
}
