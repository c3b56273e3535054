/** What recovering one record may do to a store nobody vouches for, and what
    that comes to while the store is as the protocol left it
    (internal/evs/journal.go). */
module Recovery {
  import opened Paths
  import opened Store
  import opened Record
  import opened Protocol

  /** Recovery may declare success: the payload is at the destination, and for a
      move the rename had been attempted. */
  predicate WillCommit(r: Record, m: Remote) {
    r.committed || (r.PayloadAt(m, r.dest) && (r.IsUpload() || r.moveStarted))
  }

  /** The destination is as it was before, and a move's source is whole. */
  predicate RolledBack(r: Record, m: Remote) {
    && (if r.hadOriginal then r.OriginalAt(m, r.dest) else Seen(m, r.dest) == None)
    && (!r.IsUpload() ==> r.PayloadAt(m, r.source))
  }

  predicate RecordedCommitted(r: Record, d: Durable) {
    r.id in d.ledger && d.ledger[r.id] == r.(committed := true)
  }

  predicate Decided(r: Record, d: Durable) {
    RecordedCommitted(r, d) || RolledBack(r, d.remote)
  }

  /** No recovery name is to be found any more. */
  predicate Cleared(r: Record, m: Remote) {
    && (r.IsUpload() ==> Seen(m, r.stage) == None)
    && (r.ready && r.hadOriginal ==> Seen(m, r.backup) == None)
  }

  // ------------------------------------------------------ steps on any store

  predicate Recommits(r: Record, d: Durable, d': Durable) {
    && d'.remote == d.remote && d'.ledger == d.ledger[r.id := r.(committed := true)]
    && r.ready && WillCommit(r, d.remote)
  }

  predicate Forgets(r: Record, d: Durable, d': Durable) {
    && d'.remote == d.remote && d'.ledger == d.ledger - {r.id}
    && Cleared(r, d.remote) && (r.ready && Apart(r) ==> Decided(r, d))
  }

  /** Nothing is cleaned up before the outcome is known. */
  predicate ClearsStage(r: Record, d: Durable, d': Durable) {
    && d'.ledger == d.ledger && d'.remote == Deleted(d.remote, r.stage)
    && r.IsUpload() && Seen(d.remote, r.stage).Some?
    && (r.ready ==> r.PayloadAt(d.remote, r.stage) && Decided(r, d))
  }

  /** Nor later, unless cleaning up the stage has undone it. */
  predicate ClearsBackup(r: Record, d: Durable, d': Durable) {
    && d'.ledger == d.ledger && d'.remote == Deleted(d.remote, r.backup)
    && r.ready && r.hadOriginal && r.OriginalAt(d.remote, r.backup)
    && ((r.IsUpload() && r.stage <= r.dest) || Decided(r, d))
  }

  predicate PutsBack(r: Record, d: Durable, d': Durable) {
    && d'.ledger == d.ledger && r.backup in d.remote
    && d'.remote == Renamed(d.remote, r.backup, r.dest)
    && r.ready && !r.committed && r.hadOriginal
    && r.dest !in d.remote && r.OriginalAt(d.remote, r.backup)
    && (!r.IsUpload() ==> r.PayloadAt(d.remote, r.source))
  }

  predicate SafeStep(r: Record, d: Durable, d': Durable) {
    || d' == d
    || ((r.id in d.ledger || r.committed) && Recommits(r, d, d'))
    || (r.id in d.ledger
        && (|| Forgets(r, d, d')
            || ClearsStage(r, d, d') || ClearsBackup(r, d, d') || PutsBack(r, d, d')))
  }

  ghost predicate SafeRun(r: Record, from: nat, t: seq<Durable>) {
    forall i, j :: from <= i && j == i + 1 && j < |t| ==> SafeStep(r, t[i], t[j])
  }

  lemma SafeRunExtends(r: Record, from: nat, t: seq<Durable>, d: Durable)
    requires from < |t| && SafeRun(r, from, t) && SafeStep(r, t[|t| - 1], d)
    ensures SafeRun(r, from, t + [d])
  {
  }

  // ------------------------------------------------------------- when it works

  /** The name can be cleaned up: if it is found it holds the recorded bytes. */
  predicate Removable(m: Remote, name: Path, size: int, hash: Option<Digest>) {
    Seen(m, name).Some? ==> hash.Some? && Matches(m, name, size, hash.value) && CanDelete(m, name)
  }

  function Without(m: Remote, name: Path): Remote {
    if Seen(m, name).Some? then Deleted(m, name) else m
  }

  predicate Finishable(r: Record, m: Remote) {
    && (r.hadOriginal ==> Removable(m, r.backup, r.originalSize, r.originalHash))
    && (r.IsUpload() ==>
          Removable(if r.hadOriginal then Without(m, r.backup) else m, r.stage, r.size, r.hash))
  }

  predicate MustPutBack(r: Record, m: Remote) {
    r.hadOriginal && Seen(m, r.dest) == None
  }

  predicate CanPutBack(r: Record, m: Remote) {
    r.OriginalAt(m, r.backup) && CanRename(m, r.backup, r.dest)
  }

  /** The store once the old target is in place again. */
  function Reestablished(r: Record, m: Remote): Remote {
    if MustPutBack(r, m) && r.backup in m then Renamed(m, r.backup, r.dest) else m
  }

  predicate Reestablishable(r: Record, m: Remote) {
    && (!r.IsUpload() ==> r.PayloadAt(m, r.source))
    && (MustPutBack(r, m) ==> CanPutBack(r, m))
    && (if r.hadOriginal then r.OriginalAt(Reestablished(r, m), r.dest) else Seen(m, r.dest) == None)
  }

  predicate Cleanable(r: Record, m: Remote) {
    && (r.IsUpload() ==> Removable(m, r.stage, r.size, r.hash))
    && (r.hadOriginal ==>
          Removable(if r.IsUpload() then Without(m, r.stage) else m, r.backup, r.originalSize, r.originalHash))
  }

  predicate RollBackable(r: Record, m: Remote) {
    Reestablishable(r, m) && Cleanable(r, Reestablished(r, m))
  }

  /** Taking away what is at or beneath one name leaves what is found elsewhere. */
  lemma SeenElsewhere(m: Remote, top: Path, name: Path)
    requires !(top <= name)
    ensures Seen(Without(m, top), name) == Seen(m, name)
  {
    assert top <= Parent(name) ==> top <= name;
  }

  /** Nor does it bring anything back. */
  lemma StillUnseen(m: Remote, top: Path, name: Path)
    ensures Seen(m, name) == None ==> Seen(Without(m, top), name) == None
    ensures Seen(Without(m, top), top) == None
  {
  }

  lemma FoundIffSeen(m: Remote, name: Path, size: int, digest: Digest)
    ensures Matches(m, name, size, digest) <==> (
      && Seen(m, name).Some? && Seen(m, name).value.File?
      && |Seen(m, name).value.data| == size && Sha256(Seen(m, name).value.data) == digest)
  {
  }

  lemma RollBackSurvives(r: Record, m: Remote, top: Path)
    requires RolledBack(r, m) && !(top <= r.dest) && (!r.IsUpload() ==> !(top <= r.source))
    ensures RolledBack(r, Without(m, top))
  {
    SeenElsewhere(m, top, r.dest);
    if r.hadOriginal && r.originalHash.Some? {
      FoundIffSeen(m, r.dest, r.originalSize, r.originalHash.value);
      FoundIffSeen(Without(m, top), r.dest, r.originalSize, r.originalHash.value);
    }
    if !r.IsUpload() && r.hash.Some? {
      SeenElsewhere(m, top, r.source);
      FoundIffSeen(m, r.source, r.size, r.hash.value);
      FoundIffSeen(Without(m, top), r.source, r.size, r.hash.value);
    }
    hide Matches, Seen, Without;
  }

  /** Exactly when recovering this record succeeds if no call goes wrong. */
  predicate Recoverable(r: Record, m: Remote) {
    if !r.ready then Seen(m, r.stage).Some? ==> CanDelete(m, r.stage)
    else if WillCommit(r, m) then Finishable(r, m)
    else RollBackable(r, m)
  }

  /** Every name recovery may touch: the destination and what is at or beneath
      the record's two unique names. */
  predicate Reaches(r: Record, name: Path) {
    name == r.dest || r.backup <= name || (r.IsUpload() && r.stage <= name)
  }

  /** What a record is to protect: a move's source stays; the destination goes at most
      from absent to the recorded original, and stays once committed. */
  predicate Protects(r: Record, d: Durable, d': Durable) {
    && (!r.IsUpload() ==> Lookup(d'.remote, r.source) == Lookup(d.remote, r.source))
    && (|| Lookup(d'.remote, r.dest) == Lookup(d.remote, r.dest)
        || (r.dest !in d.remote && r.ready && !r.committed && r.hadOriginal && r.OriginalStored(d'.remote, r.dest)))
  }

  /** How far a store may differ from what recovery found: only under the record's
      own names, and no other record is changed. */
  ghost predicate WithinReach(r: Record, d: Durable, d': Durable) {
    && (forall q :: !Reaches(r, q) ==> Lookup(d'.remote, q) == Lookup(d.remote, q))
    && (forall stem :: stem != r.id ==>
          (stem in d'.ledger <==> stem in d.ledger) && (stem in d.ledger ==> d'.ledger[stem] == d.ledger[stem]))
    && (Guarded(r) ==> Protects(r, d, d'))
  }

  lemma StepWithinReach(r: Record, d: Durable, d': Durable)
    requires SafeStep(r, d, d')
    ensures WithinReach(r, d, d')
    ensures Guarded(r) && r.dest in d.remote ==> Lookup(d'.remote, r.dest) == Lookup(d.remote, r.dest)
  {
  }

  lemma StepStaysWithinReach(r: Record, a: Durable, b: Durable, c: Durable)
    requires WithinReach(r, a, b) && SafeStep(r, b, c)
    ensures WithinReach(r, a, c)
  {
    StepWithinReach(r, b, c);
  }

  /** Recovery is safe on any store whatever, however often it is interrupted. */
  lemma {:induction false} RecoveryIsSafeAnywhere(r: Record, from: nat, t: seq<Durable>, k: nat)
    requires from <= k < |t| && SafeRun(r, from, t)
    ensures WithinReach(r, t[from], t[k])
  {
    if k == from {
    } else {
      RecoveryIsSafeAnywhere(r, from, t, k - 1);
      assert SafeStep(r, t[k - 1], t[k]);
      StepStaysWithinReach(r, t[from], t[k - 1], t[k]);
    }
  }

  /** However recovery of this record goes, from whatever store, what it is to protect is
      protected. */
  ghost predicate Safeguards(r: Record) {
    forall t: seq<Durable> :: t != [] && SafeRun(r, 0, t) ==> Protects(r, t[0], t[|t| - 1])
  }

  /** The exact condition: recovering a valid record protects what it should if and only
      if nothing it may delete is spelled like the destination or lies above a move's
      source. */
  lemma RecoveryIsSafeIff(r: Record, stem: string)
    requires ValidRecord(r, stem)
    ensures var last := r.dest[|r.dest| - 1];
      Safeguards(r) <==>
        && (MayDropStage(r) ==> !Mimics(UPLOAD, r.id, last))
        && (MayDropBackup(r) ==> !Mimics(BACKUP, r.id, last) && !Within(r.source, r.backup))
  {
    hide Mimics, Within, SafeStep, Protects, ValidId;
    ValidRecordGuardedIff(r, stem);
    if Guarded(r) {
      forall t: seq<Durable> | t != [] && SafeRun(r, 0, t)
        ensures Protects(r, t[0], t[|t| - 1])
      {
        RecoveryIsSafeAnywhere(r, 0, t, |t| - 1);
      }
    } else {
      var d, d' := HarmfulStep(r, stem);
      var t := [d, d'];
      assert SafeRun(r, 0, t);
    }
  }

  /** Otherwise there is a store on which recovery harms it at once. */
  lemma HarmfulStep(r: Record, stem: string) returns (d: Durable, d': Durable)
    requires ValidRecord(r, stem) && !Guarded(r)
    ensures SafeStep(r, d, d') && !Protects(r, d, d')
  {
    ValidRecordGuardedIff(r, stem);
    ValidRecordShaped(r, stem);
    hide ValidRecord, Mimics, SafeStep, Protects;
    if MayDropStage(r) && r.stage <= r.dest {
      d, d' := HarmfulToStage(r);
    } else if r.backup <= r.dest {
      d, d' := HarmfulToBackup(r);
    } else {
      d, d' := HarmfulToSource(r);
    }
  }

  /** A store with this one file, and its directory. */
  function Lone(name: Path, data: Bytes): (m: Remote)
    requires name != []
    ensures Lookup(m, name) == Some(File(data)) && Listable(m, Parent(name))
  {
    (if Parent(name) == [] then map[] else map[Parent(name) := Directory(false)])[name := File(data)]
  }

  lemma HarmfulToStage(r: Record) returns (d: Durable, d': Durable)
    requires Shaped(r) && MayDropStage(r) && r.stage == r.dest
    ensures SafeStep(r, d, d') && !Protects(r, d, d')
  {
    d := Durable(Lone(r.dest, if r.ready then r.hash.value.preimage else []), map[r.id := r.(committed := true)]);
    d' := Durable(Deleted(d.remote, r.stage), d.ledger);
    assert ClearsStage(r, d, d');
  }

  lemma HarmfulToBackup(r: Record) returns (d: Durable, d': Durable)
    requires Shaped(r) && MayDropBackup(r) && r.backup == r.dest
    ensures SafeStep(r, d, d') && !Protects(r, d, d')
  {
    d := Durable(Lone(r.dest, r.originalHash.value.preimage), map[r.id := r.(committed := true)]);
    d' := Durable(Deleted(d.remote, r.backup), d.ledger);
    assert ClearsBackup(r, d, d');
  }

  lemma HarmfulToSource(r: Record) returns (d: Durable, d': Durable)
    requires Shaped(r) && MayDropBackup(r) && r.backup <= r.source
    ensures SafeStep(r, d, d') && !Protects(r, d, d')
  {
    assert r.backup <= r.source && r.backup != r.source && |r.backup| < |r.source|;
    var lone := Lone(r.backup, r.originalHash.value.preimage);
    assert Parent(r.backup) != r.source;
    d := Durable(lone[r.source := File([])], map[r.id := r.(committed := true)]);
    d' := Durable(Deleted(d.remote, r.backup), d.ledger);
    assert ClearsBackup(r, d, d');
  }

  /** The first kind at work. A valid upload record for a name spelled like its own
      stage has recovery delete the very file it was to replace: nothing in such a
      journal and store makes recovery fail, and its first step is the deletion. */
  lemma SelfStagedIsDeleted(id: string, tail: string, data: Bytes) returns (r: Record, d: Durable, d': Durable)
    requires ValidId(id) && '/' !in tail && '.' !in tail && (tail != "" ==> tail[|tail| - 1] !in WHITESPACE)
    ensures ValidRecord(r, id) && !Apart(r) && d.ledger == map[id := r]
    ensures Lookup(d.remote, r.dest) == Some(File(data)) && Recoverable(r, d.remote)
    ensures SafeStep(r, d, d') && r.dest !in d'.remote
  {
    r := ValidRecordMayStageItsDestination(id, tail);
    EndsPlainly(".idrive-gateway-" + UPLOAD + "-" + id, tail);
    assert Mutable(r.dest) && r.stage <= r.dest;
    d, d' := SelfStagedDeletion(r, data);
  }

  lemma EndsPlainly(stem: string, tail: string)
    requires tail != "" ==> tail[|tail| - 1] !in WHITESPACE
    ensures Mutable([stem + "." + tail])
  {
    var c := stem + "." + tail;
    assert c[|c| - 1] == if tail == "" then '.' else tail[|tail| - 1];
  }

  lemma SelfStagedDeletion(r: Record, data: Bytes) returns (d: Durable, d': Durable)
    requires r.IsUpload() && !r.ready && r.stage == r.dest && |r.dest| == 1 && Mutable(r.dest)
    ensures d.ledger == map[r.id := r]
    ensures Lookup(d.remote, r.dest) == Some(File(data)) && Recoverable(r, d.remote)
    ensures SafeStep(r, d, d') && r.dest !in d'.remote
  {
    var m: Remote := map[r.dest := File(data)];
    d, d' := Durable(m, map[r.id := r]), Durable(Deleted(m, r.stage), map[r.id := r]);
    assert ClearsStage(r, d, d');
  }

  // ------------------------------------------------- steps within a protocol

  /** The replacement stands and nothing is left to clean up. */
  predicate Stands(job: Job, m: Remote) {
    job.Dest(m) == job.New() && job.Backup(m) == None && (job.IsUpload() ==> job.Stage(m) == None)
  }

  /** The record in memory agrees with the saved one: it is the same, or further
      along and just as true, or the saved one already says committed. */
  ghost predicate Tracks(job: Job, r: Record, d: Durable) {
    && Describes(r, job)
    && (job.id in d.ledger ==>
          RecordedCommitted(r, d) || (Ahead(r, d.ledger[job.id]) && Consistent(job, r, d.remote)))
    && (job.id !in d.ledger && r.committed ==> Stands(job, d.remote))
  }

  lemma JobApart(job: Job, r: Record)
    requires job.WellFormed() && Describes(r, job)
    ensures Apart(r) && Guarded(r) && (job.Changeable() ==> Shaped(r))
  {
  }

  /** Fingerprints identify the bytes the job is about, where they can be read. */
  lemma FingerprintsIdentify(job: Job, r: Record, m: Remote)
    requires Describes(r, job)
    ensures forall name :: r.PayloadAt(m, name) <==> Listable(m, Parent(name)) && Lookup(m, name) == job.New()
    ensures r.ready && r.hadOriginal ==>
      forall name :: r.OriginalAt(m, name) <==> Listable(m, Parent(name)) && Lookup(m, name) == job.original
  {
  }

  /** Every name of a job whose directory is there is found if it is stored. */
  lemma GroundedSees(job: Job, m: Remote)
    requires job.WellFormed() && Grounded(job, m)
    ensures Listable(m, Parent(job.dest)) == Listable(m, Parent(job.backup)) == job.housed
    ensures Listable(m, Parent(job.stage)) == (job.housed || !job.IsUpload())
    ensures Seen(m, job.dest) == (if job.housed then job.Dest(m) else None)
    ensures Seen(m, job.backup) == (if job.housed then job.Backup(m) else None)
    ensures Seen(m, job.stage) == (if job.housed || !job.IsUpload() then job.Stage(m) else None)
  {
    assert job.Shows(job.dest) == job.Shows(job.backup) == job.housed;
    assert job.Shows(job.stage) == (job.housed || !job.IsUpload());
  }

  lemma PutsBackIsNext(job: Job, r: Record, d: Durable, d': Durable)
    requires job.WellFormed() && Inv(job, d) && job.id in d.ledger && Tracks(job, r, d)
    requires PutsBack(r, d, d')
    ensures Restores(job, d, d')
  {
  }

  lemma RecommitsIsNext(job: Job, r: Record, d: Durable, d': Durable)
    requires job.WellFormed() && Inv(job, d) && Tracks(job, r, d)
    requires (job.id in d.ledger || r.committed) && Recommits(r, d, d')
    ensures Saves(job, d, d')
  {
  }

  lemma ForgetsIsNext(job: Job, r: Record, d: Durable, d': Durable)
    requires job.WellFormed() && Inv(job, d) && job.id in d.ledger && Tracks(job, r, d)
    requires Forgets(r, d, d')
    ensures Erases(job, d, d')
  {
    JobApart(job, r);
  }

  lemma ClearsIsNext(job: Job, r: Record, d: Durable, d': Durable)
    requires job.WellFormed() && Inv(job, d) && job.id in d.ledger && Tracks(job, r, d)
    requires ClearsStage(r, d, d') || ClearsBackup(r, d, d')
    ensures DropsStage(job, d, d') || DropsBackup(job, d, d')
  {
    JobApart(job, r);
  }

  /** While the store is as the protocol left it, every recovery step is a step of
      the protocol. */
  lemma SafeStepIsNext(job: Job, r: Record, d: Durable, d': Durable)
    requires job.WellFormed() && Inv(job, d) && Tracks(job, r, d) && SafeStep(r, d, d')
    ensures Next(job, d, d') && Inv(job, d') && Tracks(job, r, d')
  {
    if d' == d {
    } else if Recommits(r, d, d') && (job.id in d.ledger || r.committed) {
      RecommitsIsNext(job, r, d, d');
    } else if PutsBack(r, d, d') {
      PutsBackIsNext(job, r, d, d');
    } else if Forgets(r, d, d') {
      ForgetsIsNext(job, r, d, d');
    } else {
      ClearsIsNext(job, r, d, d');
    }
    StepKeepsInv(job, d, d');
    StepKeepsTracks(job, r, d, d');
  }

  lemma StepKeepsTracks(job: Job, r: Record, d: Durable, d': Durable)
    requires job.WellFormed() && Inv(job, d) && Tracks(job, r, d)
    requires SafeStep(r, d, d') && Next(job, d, d') && Inv(job, d')
    ensures Tracks(job, r, d')
  {
    if d' != d && !Recommits(r, d, d') {
      StepPlaces(job, d, d');
      FingerprintsIdentify(job, r, d.remote);
    }
  }

  /** Recovering one record is a stretch of a protocol run. */
  lemma {:induction false} SafeRunIsRun(job: Job, r: Record, from: nat, t: seq<Durable>)
    requires from < |t| && SafeRun(r, from, t)
    requires job.WellFormed() && Inv(job, t[from]) && Tracks(job, r, t[from])
    ensures Run(job, from, t) && Inv(job, t[|t| - 1]) && Tracks(job, r, t[|t| - 1])
  {
    hide Inv, Tracks, SafeStep, Next, Job.WellFormed;
    if |t| - 1 == from {
    } else {
      var t' := t[..|t| - 1];
      SafeRunIsRun(job, r, from, t');
      var d, d' := t[|t| - 2], t[|t| - 1];
      assert SafeStep(r, d, d') && d == t'[|t'| - 1];
      SafeStepIsNext(job, r, d, d');
      RunExtends(job, from, t', d');
      assert t == t' + [d'];
    }
  }

  /** Recovery may declare success only of what it can find. */
  lemma WillCommitHoused(job: Job, r: Record, d: Durable)
    requires job.WellFormed() && Inv(job, d) && Tracks(job, r, d)
    ensures WillCommit(r, d.remote) ==> job.housed
  {
    GroundedSees(job, d.remote);
    hide Grounded, Job.WellFormed;
  }

  /** It changes nothing beside a destination whose directory is not there. */
  lemma SafeStepUnhoused(job: Job, r: Record, d: Durable, d': Durable)
    requires job.WellFormed() && Inv(job, d) && Tracks(job, r, d) && SafeStep(r, d, d') && !job.housed
    ensures d'.remote == d.remote
  {
    GroundedSees(job, d.remote);
    hide Grounded, Job.WellFormed;
  }

  lemma {:induction false} SafeRunUnhoused(job: Job, r: Record, from: nat, t: seq<Durable>)
    requires from < |t| && SafeRun(r, from, t) && !job.housed
    requires job.WellFormed() && Inv(job, t[from]) && Tracks(job, r, t[from])
    ensures t[|t| - 1].remote == t[from].remote
  {
    hide Inv, Tracks, SafeStep, Job.WellFormed;
    if |t| - 1 == from {
    } else {
      var t' := t[..|t| - 1];
      SafeRunUnhoused(job, r, from, t');
      SafeRunIsRun(job, r, from, t');
      SafeStepUnhoused(job, r, t[|t| - 2], t[|t| - 1]);
    }
  }

  /** A record that may be written already tells the truth in memory. */
  lemma MayRecordTracks(job: Job, d: Durable, r: Record)
    requires job.WellFormed() && Inv(job, d) && job.id in d.ledger && MayRecord(job, d, r)
    ensures Tracks(job, r, d)
  {
  }

  lemma SameFlagsTrack(job: Job, r: Record, d: Durable)
    requires Inv(job, d) && job.id in d.ledger && Describes(r, job)
    requires var saved := d.ledger[job.id];
      saved.ready == r.ready && saved.moveStarted == r.moveStarted && saved.committed == r.committed
    ensures Tracks(job, r, d)
  {
  }

  /** The corner of `CommittedMeansHappenedIff` is within reach of the code: an
      interrupted recovery puts the target back, and the next takes the bytes it
      finds there for the moved ones. */
  lemma RecoveryCommitsUnmoved(job: Job, d: Durable) returns (t: seq<Durable>, r: Record)
    requires Ready(job, d) && !job.IsUpload() && job.Known() == job.New()
    ensures |t| == 6 && t[0] == d && Run(job, 0, t) && t[3].ledger == t[4].ledger
    ensures job.id in t[3].ledger && t[3].ledger[job.id] == r && SafeRun(r, 3, t)
    ensures RecordedCommitted(r, t[5]) && !Happened(job, t[5].remote)
  {
    t := UnmovedRun(job, d);
    r := t[3].ledger[job.id];
    RunKeepsInv(job, 0, t, 3);
    RunKeepsInv(job, 0, t, 4);
    UnmovedSteps(job, r, t[3], t[4], t[5]);
    UnmovedSafely(r, t);
    hide Next, SafeStep, Grounded, AtBase, FirstRecord, Run, SafeRun, Job.WellFormed, Job.Changeable;
  }

  lemma UnmovedSafely(r: Record, t: seq<Durable>)
    requires |t| == 6 && SafeStep(r, t[3], t[4]) && SafeStep(r, t[4], t[5])
    ensures SafeRun(r, 3, t)
  {
    hide SafeStep;
  }

  lemma UnmovedSteps(job: Job, r: Record, d3: Durable, d4: Durable, d5: Durable)
    requires !job.IsUpload() && job.Known() == job.New() && Aside(job, d3.remote)
    requires job.WellFormed() && Grounded(job, d3.remote) && Grounded(job, d4.remote)
    requires r == FirstRecord(job).(moveStarted := true) && job.id in d3.ledger && d3.ledger[job.id] == r
    requires job.dest != job.source && job.backup != job.source && job.stage == job.source
    requires d4 == Durable(Renamed(d3.remote, job.backup, job.dest), d3.ledger)
    requires d5 == Durable(d4.remote, d4.ledger[job.id := r.(committed := true)])
    ensures SafeStep(r, d3, d4) && SafeStep(r, d4, d5)
  {
    GroundedSees(job, d3.remote);
    GroundedSees(job, d4.remote);
    assert PutsBack(r, d3, d4);
    assert Recommits(r, d4, d5);
  }

  // -------------------------------------------------------------- it does work

  /** No file of the job is anything the service refuses to change. */
  lemma FileChangeable(job: Job, m: Remote, name: Path)
    requires job.Changeable() && Grounded(job, m) && job.Owns(name)
    requires name in m && m[name].File?
    ensures CanDelete(m, name)
  {
  }

  /** Cleaning up changes no directory. */
  lemma ConsistentStep(job: Job, r: Record, m: Remote, m': Remote)
    requires job.WellFormed() && Consistent(job, r, m)
    requires m' == Without(m, job.backup) || (job.IsUpload() && m' == Without(m, job.stage))
      || (job.backup in m && job.dest !in m && m[job.backup].File? && m' == Renamed(m, job.backup, job.dest))
    ensures Grounded(job, m')
  {
    var d, d' := Durable(m, map[]), Durable(m', map[]);
    DeletedAlone(m, job.backup);
    if job.IsUpload() { DeletedAlone(m, job.stage); }
    FramedWithout(job, r, d, d');
    hide Places, Describes, Framed, Job.WellFormed;
    FramedGrounded(job, d, d');
  }

  lemma FramedWithout(job: Job, r: Record, d: Durable, d': Durable)
    requires Describes(r, job) && Places(job, r, d.remote) && d'.ledger == d.ledger
    requires || d'.remote == d.remote || d'.remote == d.remote - {job.backup}
             || (job.IsUpload() && d'.remote == d.remote - {job.stage})
             || (&& job.backup in d.remote && job.dest !in d.remote && d.remote[job.backup].File?
                 && d'.remote == Renamed(d.remote, job.backup, job.dest))
    ensures Framed(job, d, d')
  {
  }

  lemma ConsistentIsFinishable(job: Job, r: Record, m: Remote)
    requires job.WellFormed() && job.Changeable() && Consistent(job, r, m) && r.ready && WillCommit(r, m)
    ensures Finishable(r, m)
  {
    FingerprintsIdentify(job, r, m);
    var m1 := Without(m, r.backup);
    ConsistentStep(job, r, m, m1);
    GroundedSees(job, m);
    GroundedSees(job, m1);
    if r.backup in m { FileChangeable(job, m, r.backup); }
    if r.IsUpload() && r.stage in m {
      FileChangeable(job, m, r.stage);
      FileChangeable(job, m1, r.stage);
    }
    hide Grounded, Job.WellFormed;
  }

  lemma ConsistentIsReestablishable(job: Job, r: Record, m: Remote)
    requires job.WellFormed() && job.Changeable() && Consistent(job, r, m) && r.ready && !WillCommit(r, m)
    requires job.housed
    ensures Reestablishable(r, m)
    ensures var m' := Reestablished(r, m);
      && Grounded(job, m') && job.Dest(m') == job.original && job.Backup(m') == None
      && (r.IsUpload() ==> job.Stage(m') in {None, job.New()})
  {
    FingerprintsIdentify(job, r, m);
    GroundedSees(job, m);
    if MustPutBack(r, m) {
      FileChangeable(job, m, r.backup);
      ConsistentStep(job, r, m, Renamed(m, r.backup, r.dest));
    }
    GroundedSees(job, Reestablished(r, m));
    FingerprintsIdentify(job, r, Reestablished(r, m));
    hide Grounded, Job.WellFormed;
  }

  /** Progress: from every store and record the protocol can leave, recovery succeeds
      unless a call goes wrong, save for a file moved to where nobody finds it. */
  lemma ConsistentIsRecoverable(job: Job, r: Record, m: Remote)
    requires job.WellFormed() && job.Changeable() && Consistent(job, r, m)
    ensures Recoverable(r, m) <==> !Stuck(job, m)
  {
    GroundedSees(job, m);
    FingerprintsIdentify(job, r, m);
    if !job.housed {
      UnhousedIsRecoverable(job, r, m);
    } else if !r.ready {
      if r.stage in m { FileChangeable(job, m, r.stage); }
    } else if WillCommit(r, m) {
      ConsistentIsFinishable(job, r, m);
    } else {
      ConsistentIsReestablishable(job, r, m);
      ReestablishedIsCleanable(job, r, Reestablished(r, m));
    }
    hide Grounded, Job.WellFormed, Reestablishable, Cleanable, Finishable, Places;
  }

  lemma UnhousedIsRecoverable(job: Job, r: Record, m: Remote)
    requires job.WellFormed() && Consistent(job, r, m) && !job.housed
    ensures Recoverable(r, m) <==> !Stuck(job, m)
  {
    GroundedSees(job, m);
    FingerprintsIdentify(job, r, m);
    hide Grounded, Job.WellFormed;
  }

  lemma ReestablishedIsCleanable(job: Job, r: Record, m: Remote)
    requires job.WellFormed() && job.Changeable() && Describes(r, job) && Grounded(job, m)
    requires job.Backup(m) == None && (r.IsUpload() ==> job.Stage(m) in {None, job.New()})
    ensures Cleanable(r, m)
  {
    GroundedSees(job, m);
    FingerprintsIdentify(job, r, m);
    if r.IsUpload() && r.stage in m { FileChangeable(job, m, r.stage); }
    StillUnseen(m, r.stage, r.backup);
    hide Grounded, Job.WellFormed;
  }

  lemma TracksIsRecoverable(job: Job, r: Record, d: Durable)
    requires job.WellFormed() && job.Changeable() && Inv(job, d) && Tracks(job, r, d)
    requires job.id in d.ledger || r.committed
    ensures Recoverable(r, d.remote) <==> !Stuck(job, d.remote)
  {
    if job.id in d.ledger {
      var told := d.ledger[job.id];
      if told == r.(committed := true) {
        FingerprintsIdentify(job, r, d.remote);
        GroundedSees(job, d.remote);
        ConsistentIsFinishable(job, told, d.remote);
        assert Finishable(r, d.remote);
      } else {
        ConsistentIsRecoverable(job, r, d.remote);
      }
    } else {
      GroundedSees(job, d.remote);
    }
    hide Grounded, Job.WellFormed;
  }

  lemma CommittedEnds(job: Job, r: Record, d: Durable, d': Durable)
    requires job.WellFormed() && Inv(job, d) && Tracks(job, r, d)
    requires Settled(job, d'.remote) && Protects(r, d, d')
    requires r.ready && WillCommit(r, d.remote)
    requires job.id in d.ledger || r.committed
    requires job.IsUpload() || job.Dest(d.remote) == None || job.Stage(d.remote) == None
    ensures AtTarget(job, d'.remote)
  {
    FingerprintsIdentify(job, r, d.remote);
    assert job.Dest(d.remote) == job.New();
    hide Grounded, Job.WellFormed;
  }

  /** When recovery has not found the new bytes in place, what it leaves is the old
      state. */
  lemma RolledBackEnds(job: Job, r: Record, d: Durable, d': Durable)
    requires job.WellFormed() && Inv(job, d) && Tracks(job, r, d) && job.housed
    requires Settled(job, d'.remote) && Protects(r, d, d')
    requires !(r.ready && WillCommit(r, d.remote)) && job.id in d.ledger
    ensures AtBase(job, d'.remote)
  {
    FingerprintsIdentify(job, r, d.remote);
    GroundedSees(job, d.remote);
    hide Grounded, Job.WellFormed;
  }

  lemma RolledBackStands(job: Job, r: Record, from: nat, t: seq<Durable>)
    requires job.WellFormed() && job.Changeable() && from < |t| && SafeRun(r, from, t) && job.housed
    requires Inv(job, t[from]) && Tracks(job, r, t[from]) && (job.id in t[from].ledger || (r.ready && r.committed))
    requires !(r.ready && WillCommit(r, t[from].remote)) && job.id !in t[|t| - 1].ledger
    ensures AtBase(job, t[|t| - 1].remote)
  {
    hide Run, SafeRun, Grounded, Guarded, Apart, Settled, Protects, AtBase, Consistent, Describes, Job.WellFormed;
    JobApart(job, r);
    RecoveryIsSafeAnywhere(r, from, t, |t| - 1);
    SafeRunIsRun(job, r, from, t);
    RolledBackEnds(job, r, t[from], t[|t| - 1]);
  }

  /** Once recovery has found the new bytes in place they stay there, so when it
      is through the replacement stands. */
  lemma CommittedStands(job: Job, r: Record, from: nat, t: seq<Durable>)
    requires job.WellFormed() && job.Changeable() && from < |t| && SafeRun(r, from, t)
    requires Inv(job, t[from]) && Tracks(job, r, t[from]) && (job.id in t[from].ledger || r.committed)
    requires r.ready && WillCommit(r, t[from].remote)
    requires job.IsUpload() || job.Dest(t[from].remote) == None || job.Stage(t[from].remote) == None
    requires job.id !in t[|t| - 1].ledger
    ensures AtTarget(job, t[|t| - 1].remote)
  {
    hide Run, SafeRun, Grounded, Guarded, Apart, WillCommit, Settled, Protects, AtTarget, Consistent, Describes;
    hide Job.WellFormed;
    JobApart(job, r);
    RecoveryIsSafeAnywhere(r, from, t, |t| - 1);
    SafeRunIsRun(job, r, from, t);
    CommittedEnds(job, r, t[from], t[|t| - 1]);
  }

  // ------------------------------------------------------------- a fresh start

  /** A random identity no user path and no record contains. */
  ghost predicate Fresh(id: string, d: Durable) {
    id !in d.ledger && forall q :: q in d.remote ==> Free(id, q)
  }

  /** The recovery names are the ones derived from the identity. */
  ghost predicate Named(job: Job) {
    job.dest != [] && forall kind {:trigger RecoveryName(kind, job.id, job.dest)} ::
      && (kind == UPLOAD && job.IsUpload() ==> job.stage == RecoveryName(kind, job.id, job.dest))
      && (kind == BACKUP ==> job.backup == RecoveryName(kind, job.id, job.dest))
  }

  /** The job of bringing these bytes under this name to a store in this state. */
  ghost predicate Brings(job: Job, id: string, source: Path, dest: Path, m: Remote, payload: Bytes) {
    && job.id == id && job.source == source && job.dest == dest
    && job.original == Lookup(m, dest) && (job.housed <==> Listable(m, Parent(dest)))
    && job.payload == payload && Named(job)
  }

  lemma RecoveryNameUnused(kind: string, id: string, dest: Path, m: Remote)
    requires ValidId(id) && '/' !in kind && dest != [] && forall q :: q in m ==> Free(id, q)
    ensures forall q :: q in m ==> !(RecoveryName(kind, id, dest) <= q)
  {
    var i := |dest| - 1;
    var name := RecoveryName(kind, id, dest);
    RecoveryBaseProper(kind, id, dest[i]);
    assert Occurs(id, name[i]);
    forall q | q in m
      ensures !(name <= q)
    {
      assert |q| > i ==> q[i] in q;
    }
  }

  /** A name beside the destination that recovery can make and remove at will. */
  ghost predicate Spare(name: Path, dest: Path, m: Remote) {
    && name != [] && |name| == |dest| && Parent(name) == Parent(dest)
    && Mutable(name) && Writable(m, name) && forall q :: q in m ==> !(name <= q)
  }

  lemma SpareName(kind: string, id: string, dest: Path, m: Remote) returns (name: Path)
    requires ValidId(id) && kind in {UPLOAD, BACKUP} && dest != [] && Mutable(dest) && Writable(m, dest)
    requires forall q :: q in m ==> Free(id, q)
    ensures name == RecoveryName(kind, id, dest) && Spare(name, dest, m)
  {
    hide RecoveryBase, ValidId, Writable, Mutable;
    name := RecoveryName(kind, id, dest);
    RecoveryNameUnused(kind, id, dest, m);
    RecoveryNameChangeable(kind, id, dest, m);
  }

  /** Where a job may start, in terms of names alone. */
  ghost predicate Startable(job: Job, m: Remote, stage: Path) {
    && NamesApart(job.source, job.dest, stage, job.backup) && Spare(job.backup, job.dest, m)
    && job.dest != [] && Mutable(job.dest) && Writable(m, job.dest) && (job.housed <==> Listable(m, Parent(job.dest)))
    && job.original == Lookup(m, job.dest)
    && (job.IsUpload() ==> job.stage == stage && Spare(stage, job.dest, m))
    && (!job.IsUpload() ==>
          && job.stage == job.source && Mutable(job.source) && Writable(m, job.source)
          && Seen(m, job.source) == job.New())
  }

  lemma StartableWellFormed(job: Job, m: Remote, stage: Path)
    requires Startable(job, m, stage)
    ensures job.WellFormed()
  {
    hide Mutable, Writable;
  }

  lemma JobStarts(job: Job, m: Remote, stage: Path)
    requires Startable(job, m, stage)
    ensures job.WellFormed() && job.Changeable() && Grounded(job, m) && AtBase(job, m)
  {
    StartableWellFormed(job, m, stage);
  }

  lemma UploadNames(id: string, dest: Path, m: Remote) returns (stage: Path, backup: Path)
    requires ValidId(id) && Free(id, dest) && forall q :: q in m ==> Free(id, q)
    requires AllProper(dest) && dest != [] && Mutable(dest) && Writable(m, dest)
    ensures stage == StageName(id, dest) && backup == BackupName(id, dest)
    ensures NamesApart([], dest, stage, backup) && Spare(stage, dest, m) && Spare(backup, dest, m)
  {
    RecoveryNamesApart(id, [], dest);
    stage := SpareName(UPLOAD, id, dest, m);
    backup := SpareName(BACKUP, id, dest, m);
  }

  /** An upload with a fresh identity starts where the protocol requires. */
  lemma UploadStarts(job: Job, d: Durable)
    requires ValidId(job.id) && Fresh(job.id, d) && Free(job.id, job.dest)
    requires job.dest != [] && AllProper(job.dest) && Mutable(job.dest) && Writable(d.remote, job.dest)
    requires job.IsUpload() && job.stage == StageName(job.id, job.dest) && job.backup == BackupName(job.id, job.dest)
    requires job.original == Lookup(d.remote, job.dest) && (job.housed <==> Listable(d.remote, Parent(job.dest)))
    ensures Ready(job, d) && Named(job)
  {
    var stage, backup := UploadNames(job.id, job.dest, d.remote);
    JobStarts(job, d.remote, stage);
  }

  lemma MoveNames(id: string, source: Path, dest: Path, m: Remote) returns (stage: Path, backup: Path)
    requires ValidId(id) && Free(id, dest) && Free(id, source) && source != dest
    requires forall q :: q in m ==> Free(id, q)
    requires AllProper(dest) && dest != [] && Mutable(dest) && Writable(m, dest)
    ensures backup == BackupName(id, dest)
    ensures NamesApart(source, dest, stage, backup) && Spare(backup, dest, m)
  {
    RecoveryNamesApart(id, source, dest);
    stage := StageName(id, dest);
    backup := SpareName(BACKUP, id, dest, m);
  }

  /** And so does a move. */
  lemma MoveStarts(job: Job, d: Durable)
    requires ValidId(job.id) && Fresh(job.id, d) && Free(job.id, job.dest) && Free(job.id, job.source)
    requires job.dest != [] && AllProper(job.dest) && Mutable(job.dest) && Writable(d.remote, job.dest)
    requires job.source != [] && AllProper(job.source) && Mutable(job.source) && Writable(d.remote, job.source)
    requires job.source != job.dest && job.stage == job.source && job.backup == BackupName(job.id, job.dest)
    requires job.original == Lookup(d.remote, job.dest) && (job.housed <==> Listable(d.remote, Parent(job.dest)))
    requires Seen(d.remote, job.source) == job.New()
    ensures Ready(job, d) && Named(job)
  {
    var stage, backup := MoveNames(job.id, job.source, job.dest, d.remote);
    JobStarts(job, d.remote, stage);
  }

  /** The job's names are spelled as validation expects them. */
  ghost predicate Sound(job: Job) {
    && Named(job) && ValidId(job.id) && AllProper(job.dest) && AllProper(job.source) && Mutable(job.source)
    && (job.IsUpload() ==> |job.payload| <= MAX_UPLOAD_SIZE)
  }

  lemma BringsSoundly(job: Job, id: string, source: Path, dest: Path, m: Remote, payload: Bytes)
    requires Brings(job, id, source, dest, m, payload) && ValidId(id)
    requires AllProper(dest) && AllProper(source) && Mutable(source)
    requires source == [] ==> |payload| <= MAX_UPLOAD_SIZE
    ensures Sound(job)
  {
  }

  /** A record that tells the truth about a job passes validation on restart. */
  lemma DescriptionSurvivesRestart(job: Job, r: Record)
    requires job.WellFormed() && Sound(job) && Describes(r, job)
    ensures ValidRecord(r, job.id) && ValidWritten(Write(r), job.id + ".json")
  {
    assert job.backup == BackupName(job.id, job.dest);
    assert job.IsUpload() ==> job.stage == StageName(job.id, job.dest);
    WriteIsValid(r, job.id);
  }

  /** Whatever record a run of the protocol leaves behind, at any moment, its file
      passes the code's validation on restart. */
  lemma RecordsSurviveRestart(job: Job, from: nat, t: seq<Durable>, k: nat)
    requires from <= k < |t| && Run(job, from, t) && Ready(job, t[from]) && Sound(job)
    ensures job.id in t[k].ledger ==> ValidWritten(Write(t[k].ledger[job.id]), job.id + ".json")
  {
    RunKeepsInv(job, from, t, k);
    if job.id in t[k].ledger { DescriptionSurvivesRestart(job, t[k].ledger[job.id]); }
  }
}
