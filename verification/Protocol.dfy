/** The replacement protocol as an interruptible machine over durable state only.

    A crash, a failed call or a lost reply changes nothing that a step may depend
    on: every guard below reads the remote store and the saved record, never the
    memory of the process that was interrupted. A run is therefore any sequence of
    these steps, by whichever process, in whichever order the guards allow. */
module Protocol {
  import opened Paths
  import opened Store
  import opened Record

  datatype Durable = Durable(remote: Remote, ledger: map<string, Record>)

  /** One replacement: what it brings, and what the target held before it. The
      source is empty for an upload; a move's stage is its source. It is housed if the
      destination's directory is there; if not, no listing shows anything beside the
      destination, but the service stores files there all the same. */
  datatype Job = Job(
    id: string,
    source: Path,
    dest: Path,
    stage: Path,
    backup: Path,
    original: Option<Entry>,
    payload: Bytes,
    housed: bool)
  {
    predicate IsUpload() { source == [] }
    function New(): Option<Entry> { Some(File(payload)) }
    predicate Owns(name: Path) { name == dest || name == stage || name == backup }

    /** What a lookup of the target found before anything was done. */
    function Known(): Option<Entry> { if housed then original else None }
    /** The directory of the name is there. */
    predicate Shows(name: Path) { housed || Parent(name) != Parent(dest) }

    predicate WellFormed() {
      && dest != stage && dest != backup && stage != backup
      && !(backup <= dest) && !(backup <= stage)
      && (IsUpload() ==> !(stage <= dest) && !(stage <= backup))
      && (!IsUpload() ==> stage == source)
      && !Shows(dest) == !Shows(backup) == !housed && Shows(stage) == (housed || !IsUpload())
    }

    /** The names have nothing in them that rename and delete refuse. */
    predicate Changeable() {
      && Mutable(dest) && Mutable(stage) && Mutable(backup)
      && dest != [] && stage != [] && backup != []
    }

    function Dest(m: Remote): Option<Entry> { Lookup(m, dest) }
    function Stage(m: Remote): Option<Entry> { Lookup(m, stage) }
    function Backup(m: Remote): Option<Entry> { Lookup(m, backup) }
  }

  // --------------------------------------------------------------- invariant

  /** The record describes this job. */
  predicate Describes(r: Record, job: Job) {
    && r.version == 1 && r.id == job.id
    && r.source == job.source && r.dest == job.dest && r.stage == job.stage && r.backup == job.backup
    && r.size == |job.payload| && r.hash == Some(Sha256(job.payload))
    && (r.ready ==> (r.hadOriginal <==> job.Known().Some?))
    && (r.ready && r.hadOriginal ==>
          && job.original.value.File?
          && r.originalSize == |job.original.value.data|
          && r.originalHash == Some(Sha256(job.original.value.data)))
    && (!job.IsUpload() ==> r.ready)
    && (r.moveStarted ==> r.ready && !job.IsUpload())
    && (r.committed ==> r.ready && (job.IsUpload() || r.moveStarted))
    && (!job.housed ==> !r.committed && !r.hadOriginal && (job.IsUpload() ==> !r.ready))
  }

  /** The record a replacement saves before anything else; a move has looked at
      its target by then. */
  function FirstRecord(job: Job): (r: Record)
    requires !job.IsUpload() && job.Known().Some? ==> job.original.value.File?
  {
    var r := Record(job.source, false, 1, job.id, job.dest, job.stage, job.backup,
                    |job.payload|, Some(Sha256(job.payload)), false, 0, None, !job.IsUpload(), false);
    if job.IsUpload() || job.Known().None? then r
    else
      var target := job.original.value.data;
      r.(hadOriginal := true, originalSize := |target|, originalHash := Some(Sha256(target)))
  }

  /** Nothing lies beneath the recovery names, every name of the job may be changed, and
      those can be looked up whose directory is there. */
  ghost predicate Grounded(job: Job, m: Remote) {
    && (forall q :: q in m && job.backup <= q ==> q == job.backup)
    && (job.IsUpload() ==> forall q :: q in m && job.stage <= q ==> q == job.stage)
    && Writable(m, job.dest) && Writable(m, job.stage) && Writable(m, job.backup)
    && forall n {:trigger job.Shows(n)} :: job.Owns(n) ==> (Listable(m, Parent(n)) <==> job.Shows(n))
  }

  predicate AtBase(job: Job, m: Remote) {
    && job.Dest(m) == job.original && job.Backup(m) == None
    && job.Stage(m) == (if job.IsUpload() then None else job.New())
  }

  predicate AtTarget(job: Job, m: Remote) {
    job.Dest(m) == job.New() && job.Backup(m) == None && job.Stage(m) == None
  }

  /** A staged file that nobody finds any more. */
  predicate Astray(job: Job, m: Remote) {
    && !job.housed && job.IsUpload()
    && job.Dest(m) == job.original && job.Backup(m) == None
    && job.Stage(m).Some? && job.Stage(m).value.File?
  }

  /** Moved to where nobody finds it, so that nothing can tell that it arrived. */
  predicate Stuck(job: Job, m: Remote) {
    !job.housed && !job.IsUpload() && job.Stage(m) == None
  }

  predicate UploadPlaces(job: Job, r: Record, m: Remote) {
    var d, s, b := job.Dest(m), job.Stage(m), job.Backup(m);
    if r.committed then
      d == job.New() && s in {None, job.New()} && b in {None, job.original}
    else if r.ready then
      || (d == job.original && b == None && s in {None, job.New()})
      || (job.original.Some? && d == None && b == job.original && s == job.New())
      || (d == job.New() && s == None && b == job.original)
    else
      d == job.original && b == None && (s.Some? ==> s.value.File?)
  }

  predicate MovePlaces(job: Job, r: Record, m: Remote) {
    var d, s, b := job.Dest(m), job.Stage(m), job.Backup(m);
    if r.committed then
      && d == job.New() && b in {None, job.original}
      && (s == None || (s == job.New() == job.original && b == None))
    else if r.moveStarted then
      || (s == job.New() && d == None && b == job.original)
      || (s == None && d == job.New() && b == job.original)
      || (s == job.New() && d == job.original && b == None)
    else
      && s == job.New()
      && ((d == job.original && b == None) || (job.original.Some? && d == None && b == job.original))
  }

  /** Nothing is set aside that nobody sees. */
  predicate Places(job: Job, r: Record, m: Remote) {
    && (if job.IsUpload() then UploadPlaces(job, r, m) else MovePlaces(job, r, m))
    && (!job.housed ==> job.Backup(m) == None)
  }

  /** Where the bytes may be while a record with these flags is kept. */
  ghost predicate Consistent(job: Job, r: Record, m: Remote) {
    Describes(r, job) && Grounded(job, m) && Places(job, r, m)
  }

  ghost predicate Settled(job: Job, m: Remote) {
    Grounded(job, m) && (AtBase(job, m) || (job.housed && AtTarget(job, m)) || Astray(job, m))
  }

  ghost predicate Inv(job: Job, d: Durable) {
    if job.id in d.ledger then Consistent(job, d.ledger[job.id], d.remote)
    else Settled(job, d.remote)
  }

  // ------------------------------------------------------------------- steps

  /** The flags of a record only ever advance. */
  predicate Ahead(r': Record, r: Record) {
    (r.ready ==> r'.ready) && (r.moveStarted ==> r'.moveStarted) && (r.committed ==> r'.committed)
  }

  /** A first record is written over an untouched store, or a committed one again
      over a store in which the replacement stands. */
  predicate MayBegin(job: Job, m: Remote, r': Record) {
    || (AtBase(job, m) && !r'.committed && !r'.moveStarted && (r'.ready <==> !job.IsUpload()))
    || (r'.committed && job.Dest(m) == job.New() && job.Backup(m) == None && (job.IsUpload() ==> job.Stage(m) == None))
  }

  /** A flag is set only once the store bears it out. */
  predicate MayAdvance(job: Job, m: Remote, r: Record, r': Record) {
    && Ahead(r', r)
    && (r'.ready && !r.ready ==>
          job.Dest(m) == job.original && (job.Stage(m) == job.New() || (r'.committed && job.Stage(m) == None)))
    && (r'.moveStarted && !r.moveStarted ==>
          && job.Stage(m) == job.New()
          && (|| (job.Dest(m) == None && job.Backup(m) == job.original) || (r'.committed && job.Dest(m) == job.New())
              || (!job.housed && job.Dest(m) == job.original)))
    && (r'.committed && !r.committed ==> job.Dest(m) == job.New())
  }

  /** What must be true of the store for the record to be written. */
  predicate MayRecord(job: Job, d: Durable, r': Record) {
    && Describes(r', job)
    && if job.id in d.ledger then MayAdvance(job, d.remote, d.ledger[job.id], r') else MayBegin(job, d.remote, r')
  }

  predicate Saves(job: Job, d: Durable, d': Durable) {
    && d'.remote == d.remote && job.id in d'.ledger
    && d'.ledger == d.ledger[job.id := d'.ledger[job.id]]
    && MayRecord(job, d, d'.ledger[job.id])
  }

  /** The old target is in place again, or never left it. */
  predicate BackInPlace(job: Job, m: Remote) {
    job.Dest(m) == job.original && (!job.IsUpload() ==> job.Stage(m) == job.New())
  }

  predicate Erases(job: Job, d: Durable, d': Durable) {
    && job.id in d.ledger && d'.remote == d.remote && d'.ledger == d.ledger - {job.id}
    && job.Backup(d.remote) == None && (job.IsUpload() && job.housed ==> job.Stage(d.remote) == None)
    && (d.ledger[job.id].committed || BackInPlace(job, d.remote))
  }

  /** Staging may store anything at all under its own name, and only there. */
  predicate Uploads(job: Job, d: Durable, d': Durable) {
    && job.id in d.ledger && d'.ledger == d.ledger && job.IsUpload() && !d.ledger[job.id].ready
    && job.stage in d'.remote && d'.remote[job.stage].File?
    && d'.remote == d.remote[job.stage := d'.remote[job.stage]]
  }

  predicate DropsStage(job: Job, d: Durable, d': Durable) {
    && job.id in d.ledger && d'.ledger == d.ledger && job.IsUpload() && job.housed
    && (d.ledger[job.id].committed || job.Dest(d.remote) == job.original)
    && d'.remote == Deleted(d.remote, job.stage)
  }

  /** The preserved original goes only after the record says committed, or once
      its bytes are at the destination again. */
  predicate DropsBackup(job: Job, d: Durable, d': Durable) {
    && job.id in d.ledger && d'.ledger == d.ledger && d.ledger[job.id].ready && job.housed
    && job.Backup(d.remote) == job.original
    && (d.ledger[job.id].committed || BackInPlace(job, d.remote))
    && d'.remote == Deleted(d.remote, job.backup)
  }

  predicate Preserves(job: Job, d: Durable, d': Durable) {
    && job.id in d.ledger && d'.ledger == d.ledger
    && d.ledger[job.id].ready && !d.ledger[job.id].moveStarted && !d.ledger[job.id].committed
    && job.Known().Some? && job.Dest(d.remote) == job.original
    && job.Stage(d.remote) == job.New() && job.Backup(d.remote) == None
    && d'.remote == Renamed(d.remote, job.dest, job.backup)
  }

  predicate Promotes(job: Job, d: Durable, d': Durable) {
    && job.id in d.ledger && d'.ledger == d.ledger
    && d.ledger[job.id].ready && !d.ledger[job.id].committed
    && (job.IsUpload() || d.ledger[job.id].moveStarted)
    && job.Stage(d.remote) == job.New() && job.Dest(d.remote) == None
    && job.Backup(d.remote) == job.original
    && d'.remote == Renamed(d.remote, job.stage, job.dest)
  }

  predicate Restores(job: Job, d: Durable, d': Durable) {
    && job.id in d.ledger && d'.ledger == d.ledger
    && d.ledger[job.id].ready && !d.ledger[job.id].committed
    && job.Known().Some? && job.Dest(d.remote) == None && job.Backup(d.remote) == job.original
    && d'.remote == Renamed(d.remote, job.backup, job.dest)
  }

  predicate Next(job: Job, d: Durable, d': Durable) {
    || d' == d
    || Saves(job, d, d') || Erases(job, d, d')
    || Uploads(job, d, d') || DropsStage(job, d, d') || DropsBackup(job, d, d')
    || Preserves(job, d, d') || Promotes(job, d, d') || Restores(job, d, d')
  }

  /** From position `from` on, every change of durable state is a step. */
  ghost predicate Run(job: Job, from: nat, t: seq<Durable>) {
    forall i, j :: from <= i && j == i + 1 && j < |t| ==> Next(job, t[i], t[j])
  }

  /** A run that also started where the invariant held. */
  ghost predicate Lawful(job: Job, from: nat, t: seq<Durable>) {
    Run(job, from, t) && forall k {:trigger Inv(job, t[k])} :: from <= k < |t| ==> Inv(job, t[k])
  }

  // ----------------------------------------------------------- one step keeps

  /** A step changes only the job's own names and record, and no directory. */
  ghost predicate Framed(job: Job, d: Durable, d': Durable) {
    && (forall q :: !job.Owns(q) ==> Lookup(d'.remote, q) == Lookup(d.remote, q))
    && (forall q :: q in d'.remote && d'.remote[q].Directory? ==> Lookup(d.remote, q) == Some(d'.remote[q]))
    && (forall q :: q in d.remote && d.remote[q].Directory? ==> Lookup(d'.remote, q) == Some(d.remote[q]))
    && (forall k :: k != job.id ==>
          (k in d'.ledger <==> k in d.ledger) && (k in d.ledger ==> d'.ledger[k] == d.ledger[k]))
  }

  lemma DeletedAlone(m: Remote, name: Path)
    requires forall q :: q in m && name <= q ==> q == name
    ensures Deleted(m, name) == m - {name}
  {
  }

  lemma DropFramed(job: Job, d: Durable, d': Durable)
    requires job.WellFormed() && Inv(job, d) && (DropsStage(job, d, d') || DropsBackup(job, d, d'))
    ensures Framed(job, d, d')
  {
    hide Deleted, Job.WellFormed, BackInPlace, Settled;
    if DropsStage(job, d, d') {
      DeletedAlone(d.remote, job.stage);
    } else {
      hide Places;
      DeletedAlone(d.remote, job.backup);
    }
  }

  lemma StepFramed(job: Job, d: Durable, d': Durable)
    requires job.WellFormed() && Inv(job, d) && Next(job, d, d')
    ensures Framed(job, d, d')
  {
    hide Framed, Inv, Saves, Erases, Uploads, DropsStage, DropsBackup, Preserves, Promotes, Restores, Job.WellFormed;
    if d' == d {
      FramedTwice(job, d, d, d);
    } else if DropsStage(job, d, d') || DropsBackup(job, d, d') {
      DropFramed(job, d, d');
    } else if Preserves(job, d, d') || Promotes(job, d, d') || Restores(job, d, d') {
      RenameFramed(job, d, d');
    } else {
      WriteFramed(job, d, d');
    }
  }

  lemma WriteFramed(job: Job, d: Durable, d': Durable)
    requires Inv(job, d) && (Saves(job, d, d') || Erases(job, d, d') || Uploads(job, d, d'))
    ensures Framed(job, d, d')
  {
    hide Grounded, MayRecord, BackInPlace;
  }

  lemma RenameFramed(job: Job, d: Durable, d': Durable)
    requires job.WellFormed() && Inv(job, d) && (Preserves(job, d, d') || Promotes(job, d, d') || Restores(job, d, d'))
    ensures Framed(job, d, d')
  {
    hide Grounded;
  }

  /** No step makes or removes a directory. */
  lemma ListingStays(job: Job, d: Durable, d': Durable, dir: Path)
    requires Framed(job, d, d')
    ensures Listable(d'.remote, dir) <==> Listable(d.remote, dir)
  {
  }

  lemma FramedGrounded(job: Job, d: Durable, d': Durable)
    requires job.WellFormed() && Grounded(job, d.remote) && Framed(job, d, d')
    ensures Grounded(job, d'.remote)
  {
    hide Listable, IsReadOnlyPath;
    var m, m' := d.remote, d'.remote;
    forall q | q in m' && !job.Owns(q)
      ensures q in m
    {
      assert Lookup(m', q) == Lookup(m, q);
    }
    hide Framed, Writable;
    forall n | job.Owns(n)
      ensures Writable(m', n) && (Listable(m', Parent(n)) <==> Listable(m, Parent(n)))
    {
      WritingStays(job, d, d', n);
      ListingStays(job, d, d', Parent(n));
    }
  }

  lemma WritingStays(job: Job, d: Durable, d': Durable, name: Path)
    requires Framed(job, d, d') && Writable(d.remote, name)
    ensures Writable(d'.remote, name)
  {
  }

  /** Where a remote step puts the bytes of the job's three names. */
  lemma StepPlaces(job: Job, d: Durable, d': Durable)
    requires job.WellFormed() && Inv(job, d) && Next(job, d, d')
    ensures DropsStage(job, d, d') ==>
      && job.Stage(d'.remote) == None && job.Dest(d'.remote) == job.Dest(d.remote)
      && job.Backup(d'.remote) == job.Backup(d.remote)
    ensures DropsBackup(job, d, d') ==>
      && job.Backup(d'.remote) == None && job.Dest(d'.remote) == job.Dest(d.remote)
      && job.Stage(d'.remote) == job.Stage(d.remote)
    ensures Preserves(job, d, d') ==>
      && job.Dest(d'.remote) == None && job.Backup(d'.remote) == job.original
      && job.Stage(d'.remote) == job.Stage(d.remote)
    ensures Promotes(job, d, d') ==>
      job.Dest(d'.remote) == job.New() && job.Stage(d'.remote) == None && job.Backup(d'.remote) == job.Backup(d.remote)
    ensures Restores(job, d, d') ==>
      && job.Dest(d'.remote) == job.original && job.Backup(d'.remote) == None
      && job.Stage(d'.remote) == job.Stage(d.remote)
  {
  }

  lemma RecordStepKeepsInv(job: Job, d: Durable, d': Durable)
    requires job.WellFormed() && Inv(job, d) && (Saves(job, d, d') || Erases(job, d, d'))
    ensures Inv(job, d')
  {
  }

  lemma RemoteStepKeepsInv(job: Job, d: Durable, d': Durable)
    requires job.WellFormed() && Inv(job, d) && Grounded(job, d'.remote)
    requires Next(job, d, d') && !Saves(job, d, d') && !Erases(job, d, d')
    ensures Inv(job, d')
  {
    StepPlaces(job, d, d');
  }

  /** The invariant is inductive. */
  lemma StepKeepsInv(job: Job, d: Durable, d': Durable)
    requires job.WellFormed() && Inv(job, d) && Next(job, d, d')
    ensures Inv(job, d')
  {
    if Saves(job, d, d') || Erases(job, d, d') {
      RecordStepKeepsInv(job, d, d');
    } else {
      StepFramed(job, d, d');
      FramedGrounded(job, d, d');
      RemoteStepKeepsInv(job, d, d');
    }
  }

  lemma RunExtends(job: Job, from: nat, t: seq<Durable>, d: Durable)
    requires from < |t| && Run(job, from, t) && Next(job, t[|t| - 1], d)
    ensures Run(job, from, t + [d])
  {
  }

  lemma LawfulExtends(job: Job, from: nat, t: seq<Durable>, d: Durable)
    requires job.WellFormed() && from < |t| && Lawful(job, from, t) && Next(job, t[|t| - 1], d)
    ensures Lawful(job, from, t + [d])
  {
    RunExtends(job, from, t, d);
    assert Inv(job, t[|t| - 1]);
    StepKeepsInv(job, t[|t| - 1], d);
    var t' := t + [d];
    forall k | from <= k < |t'|
      ensures Inv(job, t'[k])
    {
      if k < |t| { assert t'[k] == t[k]; assert Inv(job, t[k]); }
    }
  }

  lemma RunJoins(job: Job, from: nat, mid: nat, t: seq<Durable>)
    requires from <= mid < |t| && Run(job, from, t[..mid + 1]) && Run(job, mid, t)
    ensures Run(job, from, t)
  {
  }

  // ----------------------------------------------------- the writer's moves

  /** The old target, moved aside. */
  lemma MovesAside(job: Job, from: nat, t: seq<Durable>)
    requires job.WellFormed() && from < |t| && Lawful(job, from, t) && job.id in t[|t| - 1].ledger
    requires var r := t[|t| - 1].ledger[job.id]; r.ready && !r.moveStarted && !r.committed
    requires var m := t[|t| - 1].remote;
      && job.Known().Some? && job.original.value.File? && job.Dest(m) == job.original
      && job.Stage(m) == job.New() && job.Backup(m) == None
    ensures var d' := Durable(Renamed(t[|t| - 1].remote, job.dest, job.backup), t[|t| - 1].ledger);
      && Lawful(job, from, t + [d'])
      && job.Dest(d'.remote) == None && job.Backup(d'.remote) == job.original && job.Stage(d'.remote) == job.New()
  {
    var d := t[|t| - 1];
    var d' := Durable(Renamed(d.remote, job.dest, job.backup), d.ledger);
    assert Preserves(job, d, d');
    LawfulExtends(job, from, t, d');
  }

  /** The new bytes, given their final name. */
  lemma Installs(job: Job, from: nat, t: seq<Durable>)
    requires job.WellFormed() && from < |t| && Lawful(job, from, t) && job.id in t[|t| - 1].ledger
    requires var r := t[|t| - 1].ledger[job.id]; r.ready && !r.committed && (job.IsUpload() || r.moveStarted)
    requires var m := t[|t| - 1].remote;
      job.Stage(m) == job.New() && job.Dest(m) == None && job.Backup(m) == job.original
    ensures var d' := Durable(Renamed(t[|t| - 1].remote, job.stage, job.dest), t[|t| - 1].ledger);
      && Lawful(job, from, t + [d'])
      && job.Dest(d'.remote) == job.New() && job.Stage(d'.remote) == None && job.Backup(d'.remote) == job.original
  {
    var d := t[|t| - 1];
    var d' := Durable(Renamed(d.remote, job.stage, job.dest), d.ledger);
    assert Promotes(job, d, d');
    LawfulExtends(job, from, t, d');
  }

  /** The old target, back from its backup. */
  lemma MovesBack(job: Job, from: nat, t: seq<Durable>)
    requires job.WellFormed() && from < |t| && Lawful(job, from, t) && job.id in t[|t| - 1].ledger
    requires var r := t[|t| - 1].ledger[job.id]; r.ready && !r.committed
    requires var m := t[|t| - 1].remote;
      job.Known().Some? && job.original.value.File? && job.Dest(m) == None && job.Backup(m) == job.original
    ensures var d' := Durable(Renamed(t[|t| - 1].remote, job.backup, job.dest), t[|t| - 1].ledger);
      Lawful(job, from, t + [d']) && job.Dest(d'.remote) == job.original
  {
    var d := t[|t| - 1];
    var d' := Durable(Renamed(d.remote, job.backup, job.dest), d.ledger);
    assert Restores(job, d, d');
    LawfulExtends(job, from, t, d');
  }

  /** The old target's backup, dropped once success is on record. */
  lemma DropsBackupLawfully(job: Job, from: nat, t: seq<Durable>)
    requires job.WellFormed() && from < |t| && Lawful(job, from, t) && job.id in t[|t| - 1].ledger
    requires t[|t| - 1].ledger[job.id].committed && t[|t| - 1].ledger[job.id].ready && job.housed
    ensures var d := t[|t| - 1];
      var d' := Durable(Deleted(d.remote, job.backup), d.ledger);
      job.Backup(d.remote) == job.original ==>
        && Lawful(job, from, t + [d'])
        && job.Backup(d'.remote) == None && job.Dest(d'.remote) == job.Dest(d.remote)
        && job.Stage(d'.remote) == job.Stage(d.remote)
  {
    var d := t[|t| - 1];
    var d' := Durable(Deleted(d.remote, job.backup), d.ledger);
    if job.Backup(d.remote) == job.original {
      assert DropsBackup(job, d, d');
      LawfulExtends(job, from, t, d');
    }
  }

  // -------------------------------------------------------------- whole runs

  lemma {:induction false} RunKeepsInv(job: Job, from: nat, t: seq<Durable>, k: nat)
    requires job.WellFormed() && from <= k < |t| && Run(job, from, t) && Inv(job, t[from])
    ensures Inv(job, t[k]) && Framed(job, t[from], t[k])
  {
    hide Inv, Next, Framed, Job.WellFormed;
    if k == from {
      FramedTwice(job, t[from], t[from], t[from]);
    } else {
      RunKeepsInv(job, from, t, k - 1);
      StepFramed(job, t[k - 1], t[k]);
      StepKeepsInv(job, t[k - 1], t[k]);
      FramedTwice(job, t[from], t[k - 1], t[k]);
    }
  }

  lemma FramedTwice(job: Job, a: Durable, b: Durable, c: Durable)
    ensures Framed(job, a, a)
    ensures Framed(job, a, b) && Framed(job, b, c) ==> Framed(job, a, c)
  {
  }

  lemma RunIsLawful(job: Job, from: nat, t: seq<Durable>)
    requires job.WellFormed() && from < |t| && Run(job, from, t) && Inv(job, t[from])
    ensures Lawful(job, from, t)
  {
    forall k | from <= k < |t|
      ensures Inv(job, t[k])
    {
      RunKeepsInv(job, from, t, k);
    }
  }

  /** The store after the replacement, and nothing else, has happened. */
  function Replaced(job: Job, m: Remote): Remote {
    (if job.IsUpload() then m else m - {job.source})[job.dest := File(job.payload)]
  }

  lemma SameLookups(a: Remote, b: Remote)
    requires forall q :: Lookup(a, q) == Lookup(b, q)
    ensures a == b
  {
    assert forall q :: q in a ==> Lookup(b, q) == Some(a[q]);
    assert forall q :: q in b ==> Lookup(a, q) == Some(b[q]);
  }

  lemma SettledIsOneOfTwo(job: Job, m: Remote, m': Remote)
    requires job.WellFormed() && AtBase(job, m) && (AtBase(job, m') || AtTarget(job, m'))
    requires forall q :: !job.Owns(q) ==> Lookup(m', q) == Lookup(m, q)
    ensures m' == m || m' == Replaced(job, m)
    ensures AtBase(job, m') ==> m' == m
    ensures AtTarget(job, m') ==> m' == Replaced(job, m)
  {
    var other := if AtBase(job, m') then m else Replaced(job, m);
    forall q ensures Lookup(m', q) == Lookup(other, q) {
      if !job.Owns(q) { assert Lookup(m', q) == Lookup(m, q); }
    }
    SameLookups(m', other);
    if AtTarget(job, m') {
      forall q ensures Lookup(m', q) == Lookup(Replaced(job, m), q) {
        if !job.Owns(q) { assert Lookup(m', q) == Lookup(m, q); }
      }
      SameLookups(m', Replaced(job, m));
    }
  }

  /** An upload leaves its staged file behind, and nothing else. */
  predicate LeavesStage(job: Job, m: Remote, m': Remote) {
    !job.housed && job.IsUpload() && job.stage in m' && m'[job.stage].File? && m' == m[job.stage := m'[job.stage]]
  }

  /** What may have become of the store when no record is kept any more. */
  predicate Concludes(job: Job, m: Remote, m': Remote) {
    m' == m || (job.housed && m' == Replaced(job, m)) || LeavesStage(job, m, m')
  }

  lemma AstrayIsOneFile(job: Job, m: Remote, m': Remote)
    requires job.WellFormed() && AtBase(job, m) && Astray(job, m')
    requires forall q :: !job.Owns(q) ==> Lookup(m', q) == Lookup(m, q)
    ensures LeavesStage(job, m, m')
  {
    var other := m[job.stage := m'[job.stage]];
    forall q ensures Lookup(m', q) == Lookup(other, q) {
      if !job.Owns(q) { assert Lookup(m', q) == Lookup(m, q); }
    }
    SameLookups(m', other);
  }

  /** The payload at its stage, and nothing else changed. */
  lemma StagedOnly(job: Job, m: Remote, m': Remote)
    requires job.WellFormed() && AtBase(job, m) && job.IsUpload()
    requires job.Dest(m') == job.original && job.Backup(m') == None && job.Stage(m') == job.New()
    requires forall q :: !job.Owns(q) ==> Lookup(m', q) == Lookup(m, q)
    ensures m' == m[job.stage := File(job.payload)]
  {
    var other := m[job.stage := File(job.payload)];
    forall q ensures Lookup(m', q) == Lookup(other, q) {
      if !job.Owns(q) { assert Lookup(m', q) == Lookup(m, q); }
    }
    SameLookups(m', other);
  }

  lemma FirstMayBegin(job: Job, d: Durable)
    requires Ready(job, d) && (!job.IsUpload() && job.Known().Some? ==> job.original.value.File?)
    ensures Describes(FirstRecord(job), job) && MayRecord(job, d, FirstRecord(job))
  {
  }

  lemma SettledOutcome(job: Job, d: Durable, d': Durable)
    requires job.WellFormed() && AtBase(job, d.remote) && job.id !in d.ledger && job.id !in d'.ledger
    requires Framed(job, d, d') && Settled(job, d'.remote)
    ensures d'.ledger == d.ledger && Concludes(job, d.remote, d'.remote)
    ensures AtTarget(job, d'.remote) ==> d'.remote == Replaced(job, d.remote)
    ensures Astray(job, d'.remote) ==> LeavesStage(job, d.remote, d'.remote)
  {
    if Astray(job, d'.remote) {
      AstrayIsOneFile(job, d.remote, d'.remote);
    } else {
      SettledIsOneOfTwo(job, d.remote, d'.remote);
    }
    assert forall id :: id in d'.ledger <==> id in d.ledger;
  }

  /** A job about to begin: nothing recorded, nothing moved. */
  ghost predicate Ready(job: Job, d: Durable) {
    job.WellFormed() && job.Changeable() && job.id !in d.ledger && Grounded(job, d.remote) && AtBase(job, d.remote)
  }

  /** No step of a run touches what is off limits. */
  lemma RunSpares(job: Job, from: nat, t: seq<Durable>, k: nat)
    requires from <= k < |t| && Run(job, from, t) && Ready(job, t[from])
    ensures Spared(t[from].remote, t[k].remote)
  {
    hide Run, Framed, Grounded, AtBase;
    RunKeepsInv(job, from, t, k);
    FramedSpares(job, t[from], t[k]);
  }

  lemma FramedSpares(job: Job, d: Durable, d': Durable)
    requires Grounded(job, d.remote) && Framed(job, d, d')
    ensures Spared(d.remote, d'.remote)
  {
  }

  /** Atomic replacement: however a run is interrupted and resumed, whenever no
      record of it is kept the whole store is exactly as before, or exactly as
      before with the replacement done. Only an upload to a directory that is not
      there may leave one more thing, its staged file. */
  lemma AtomicReplacement(job: Job, from: nat, t: seq<Durable>, k: nat)
    requires from <= k < |t| && Run(job, from, t) && Ready(job, t[from])
    ensures job.id !in t[k].ledger ==>
      && t[k].ledger == t[from].ledger && Concludes(job, t[from].remote, t[k].remote)
      && (AtTarget(job, t[k].remote) ==> t[k].remote == Replaced(job, t[from].remote))
  {
    hide Run, Grounded, Concludes, AtTarget, Astray, Replaced, LeavesStage, Framed;
    RunKeepsInv(job, from, t, k);
    if job.id !in t[k].ledger { SettledOutcome(job, t[from], t[k]); }
  }

  /** Whichever run begins here, whenever no record is kept the store is the old one
      or exactly the replaced one. */
  ghost predicate Atomically(job: Job, d: Durable) {
    forall t: seq<Durable>, k: nat :: k < |t| && t[0] == d && Run(job, 0, t) ==> SettledAt(job, t, k)
  }

  predicate SettledAt(job: Job, t: seq<Durable>, k: nat)
    requires k < |t|
  {
    job.id !in t[k].ledger ==> t[k].remote in {t[0].remote, Replaced(job, t[0].remote)}
  }

  /** That is so exactly if the destination's directory is there; a move elsewhere
      keeps to it as well, but by never coming to an end. */
  lemma AtomicIffHoused(job: Job, d: Durable)
    requires Ready(job, d)
    ensures Atomically(job, d) <==> job.housed || !job.IsUpload()
  {
    if job.housed || !job.IsUpload() {
      forall t: seq<Durable>, k: nat | k < |t| && t[0] == d && Run(job, 0, t)
        ensures SettledAt(job, t, k)
      {
        AtomicReplacement(job, 0, t, k);
      }
    } else {
      var t := OrphanRun(job, d);
      assert job.stage in t[3].remote && job.stage !in d.remote && job.stage !in Replaced(job, d.remote);
      assert !SettledAt(job, t, 3);
    }
  }

  /** The run that shows it, without anything going wrong: the payload is staged, is not
      found again, and the record is forgotten. */
  lemma OrphanRun(job: Job, d: Durable) returns (t: seq<Durable>)
    requires Ready(job, d) && job.IsUpload() && !job.housed
    ensures |t| == 4 && t[0] == d && Run(job, 0, t) && t[3].ledger == d.ledger
    ensures t[3].remote == d.remote[job.stage := File(job.payload)]
  {
    var first := FirstRecord(job);
    FirstMayBegin(job, d);
    var d1 := Durable(d.remote, d.ledger[job.id := first]);
    assert Saves(job, d, d1);
    var d2 := Durable(d.remote[job.stage := File(job.payload)], d1.ledger);
    assert Uploads(job, d1, d2);
    var d3 := Durable(d2.remote, d.ledger);
    assert d3.ledger == d2.ledger - {job.id};
    assert Erases(job, d2, d3);
    hide Next;
    t := [d, d1, d2, d3];
  }

  /** The other one: the file is moved to where nobody finds it. */
  lemma StuckRun(job: Job, d: Durable) returns (t: seq<Durable>)
    requires Ready(job, d) && !job.IsUpload() && !job.housed && job.original == None
    ensures |t| == 4 && t[0] == d && Run(job, 0, t) && job.id in t[3].ledger
    ensures Stuck(job, t[3].remote) && t[3].remote == Replaced(job, d.remote)
  {
    var first := FirstRecord(job);
    FirstMayBegin(job, d);
    var d1 := Durable(d.remote, d.ledger[job.id := first]);
    assert Saves(job, d, d1);
    var d2 := Durable(d.remote, d1.ledger[job.id := first.(moveStarted := true)]);
    assert Saves(job, d1, d2);
    var d3 := Durable(Renamed(d.remote, job.stage, job.dest), d2.ledger);
    assert Promotes(job, d2, d3);
    hide Next;
    t := [d, d1, d2, d3];
  }

  /** From there no step leads any further. */
  lemma StuckStays(job: Job, d: Durable, d': Durable)
    requires job.WellFormed() && Inv(job, d) && Stuck(job, d.remote) && (d' == d || Next(job, d, d'))
    ensures d'.remote == d.remote && job.id in d.ledger && job.id in d'.ledger
  {
  }

  /** A file can only be stuck there if it was moved there. */
  lemma StuckIsMoved(job: Job, from: nat, t: seq<Durable>, k: nat)
    requires from <= k < |t| && Run(job, from, t) && Ready(job, t[from]) && Stuck(job, t[k].remote)
    ensures job.id in t[k].ledger && t[k].remote == Replaced(job, t[from].remote)
  {
    RunKeepsInv(job, from, t, k);
    SettledIsOneOfTwo(job, t[from].remote, t[k].remote);
  }

  lemma {:induction false} StuckForever(job: Job, from: nat, t: seq<Durable>, k: nat)
    requires from <= k < |t| && Run(job, from, t)
    requires job.WellFormed() && Inv(job, t[from]) && Stuck(job, t[from].remote)
    ensures t[k].remote == t[from].remote && job.id in t[k].ledger
  {
    hide Framed, Inv, Next, Stuck, Job.WellFormed;
    StuckStays(job, t[from], t[from]);
    if k == from {
    } else {
      StuckForever(job, from, t, k - 1);
      RunKeepsInv(job, from, t, k - 1);
      StuckStays(job, t[k - 1], t[k]);
    }
  }

  lemma BytesAreSomewhere(job: Job, d: Durable)
    requires job.WellFormed() && Inv(job, d)
    ensures || job.Dest(d.remote) == job.original || job.Backup(d.remote) == job.original
            || (job.Dest(d.remote) == job.New() && (job.id in d.ledger ==> d.ledger[job.id].committed))
    ensures !job.IsUpload() ==> job.Stage(d.remote) == job.New() || job.Dest(d.remote) == job.New()
    ensures job.Dest(d.remote) in {job.original, None, job.New()}
  {
    hide Grounded, Describes;
  }

  /** At every moment of every run the old target is whole at the destination or
      at its backup, unless the new bytes are at the destination and no record
      says otherwise; the new bytes of a move are at the source or the
      destination; and no other path of the store has changed. */
  lemma NothingIsLost(job: Job, from: nat, t: seq<Durable>, k: nat)
    requires from <= k < |t| && Run(job, from, t) && Ready(job, t[from])
    ensures var d := t[k];
      && (|| job.Dest(d.remote) == job.original || job.Backup(d.remote) == job.original
          || (job.Dest(d.remote) == job.New() && (job.id in d.ledger ==> d.ledger[job.id].committed)))
      && (!job.IsUpload() ==> job.Stage(d.remote) == job.New() || job.Dest(d.remote) == job.New())
      && job.Dest(d.remote) in {job.original, None, job.New()}
      && (forall q :: !job.Owns(q) ==> Lookup(d.remote, q) == Lookup(t[from].remote, q))
  {
    RunKeepsInv(job, from, t, k);
    BytesAreSomewhere(job, t[k]);
    hide Inv, Run, Job.WellFormed, Job.Changeable;
  }

  // ------------------------------------------------ what a committed move means

  /** The moved bytes are at the destination and no longer at the source. */
  predicate Happened(job: Job, m: Remote) {
    job.Dest(m) == job.New() && job.Stage(m) == None
  }

  /** Whichever run began here, a record that says committed tells the truth. */
  ghost predicate CommittedMeansHappened(job: Job, d: Durable) {
    forall t: seq<Durable>, k: nat :: k < |t| && t[0] == d && Run(job, 0, t) ==>
      CommittedHappened(job, t, k)
  }

  predicate CommittedHappened(job: Job, t: seq<Durable>, k: nat)
    requires k < |t|
  {
    job.id in t[k].ledger && t[k].ledger[job.id].committed ==> Happened(job, t[k].remote)
  }

  /** A committed record of a move means that the move happened exactly when its
      target was not found to hold the same bytes to begin with. */
  lemma CommittedMeansHappenedIff(job: Job, d: Durable)
    requires Ready(job, d) && !job.IsUpload()
    ensures CommittedMeansHappened(job, d) <==> job.Known() != job.New()
  {
    if job.Known() == job.New() {
      var t := UnmovedRun(job, d);
      assert !CommittedHappened(job, t, 5);
    } else {
      forall t: seq<Durable>, k: nat | k < |t| && t[0] == d && Run(job, 0, t)
        ensures CommittedHappened(job, t, k)
      {
        RunKeepsInv(job, 0, t, k);
      }
    }
  }

  /** The run that shows it, for any target with the source's bytes: the target is set
      aside, the rename announced but never tried, and the target put back; whoever
      looks next finds the bytes the move was to bring. */
  lemma UnmovedRun(job: Job, d: Durable) returns (t: seq<Durable>)
    requires Ready(job, d) && !job.IsUpload() && job.Known() == job.New()
    ensures |t| == 6 && t[0] == d && Run(job, 0, t)
    ensures job.id in t[3].ledger && t[3].ledger[job.id] == FirstRecord(job).(moveStarted := true)
    ensures Aside(job, t[3].remote)
    ensures t[4] == Durable(Renamed(t[3].remote, job.backup, job.dest), t[3].ledger)
    ensures t[5] == Durable(t[4].remote, t[4].ledger[job.id := t[3].ledger[job.id].(committed := true)])
    ensures job.Stage(t[5].remote) == job.New()
  {
    hide Next, Renamed, Grounded, AtBase, FirstRecord, Job.WellFormed, Job.Changeable;
    var d1, d2, d3 := UnmovedBegins(job, d);
    var d4, d5 := UnmovedEnds(job, d3);
    t := [d, d1, d2, d3, d4, d5];
  }

  /** The old target is at its backup, and nothing is in its place. */
  predicate Aside(job: Job, m: Remote) {
    job.Dest(m) == None && job.Backup(m) == job.original && job.Stage(m) == job.New()
  }

  lemma UnmovedBegins(job: Job, d: Durable) returns (d1: Durable, d2: Durable, d3: Durable)
    requires Ready(job, d) && !job.IsUpload() && job.Known() == job.New()
    ensures Next(job, d, d1) && Next(job, d1, d2) && Next(job, d2, d3)
    ensures job.id in d3.ledger && d3.ledger[job.id] == FirstRecord(job).(moveStarted := true)
    ensures Aside(job, d3.remote)
  {
    hide MayBegin, Grounded;
    var first := FirstRecord(job);
    d1 := Durable(d.remote, d.ledger[job.id := first]);
    FirstMayBegin(job, d);
    assert Saves(job, d, d1);
    d2 := Durable(Renamed(d.remote, job.dest, job.backup), d1.ledger);
    assert Preserves(job, d1, d2);
    d3 := Durable(d2.remote, d2.ledger[job.id := first.(moveStarted := true)]);
    assert Saves(job, d2, d3);
  }

  lemma UnmovedEnds(job: Job, d3: Durable) returns (d4: Durable, d5: Durable)
    requires job.WellFormed() && !job.IsUpload() && job.Known() == job.New()
    requires job.id in d3.ledger && d3.ledger[job.id] == FirstRecord(job).(moveStarted := true)
    requires Aside(job, d3.remote)
    ensures Next(job, d3, d4) && Next(job, d4, d5)
    ensures d4.ledger == d3.ledger && d4.remote == Renamed(d3.remote, job.backup, job.dest) && d5.remote == d4.remote
    ensures d5.ledger == d3.ledger[job.id := d3.ledger[job.id].(committed := true)]
    ensures job.Stage(d5.remote) == job.New()
  {
    d4 := Durable(Renamed(d3.remote, job.backup, job.dest), d3.ledger);
    assert Restores(job, d3, d4);
    d5 := Durable(d4.remote, d4.ledger[job.id := d4.ledger[job.id].(committed := true)]);
    assert Saves(job, d4, d5);
  }

  // ------------------------------------------------ a replacement seen through

  /** The record once the payload is in place and the target set aside. */
  function LastRecord(job: Job): (r: Record)
    requires job.original.Some? ==> job.original.value.File?
  {
    var r := Record(job.source, !job.IsUpload(), 1, job.id, job.dest, job.stage, job.backup,
                    |job.payload|, Some(Sha256(job.payload)), false, 0, None, true, false);
    if job.original.None? then r
    else
      var target := job.original.value.data;
      r.(hadOriginal := true, originalSize := |target|, originalHash := Some(Sha256(target)))
  }

  ghost predicate Completable(job: Job, d: Durable) {
    Ready(job, d) && job.housed && (job.original.Some? ==> job.original.value.File?)
  }

  /** Everything is ready for the last rename. */
  ghost predicate Promotable(job: Job, d: Durable)
    requires job.original.Some? ==> job.original.value.File?
  {
    Aside(job, d.remote) && job.id in d.ledger && d.ledger[job.id] == LastRecord(job)
  }

  lemma UploadPromotable(job: Job, d: Durable) returns (t: seq<Durable>)
    requires Completable(job, d) && job.IsUpload()
    ensures t != [] && t[0] == d && Run(job, 0, t) && Promotable(job, t[|t| - 1])
  {
    hide MayBegin, Grounded;
    FirstMayBegin(job, d);
    var d1 := Durable(d.remote, d.ledger[job.id := FirstRecord(job)]);
    assert Saves(job, d, d1);
    var d2 := Durable(d.remote[job.stage := File(job.payload)], d1.ledger);
    assert Uploads(job, d1, d2);
    var d3 := Durable(d2.remote, d2.ledger[job.id := LastRecord(job)]);
    assert Saves(job, d2, d3);
    t := [d, d1, d2, d3];
    if job.original.Some? {
      var d4 := Durable(Renamed(d3.remote, job.dest, job.backup), d3.ledger);
      assert Preserves(job, d3, d4);
      t := t + [d4];
    }
  }

  lemma MovePromotable(job: Job, d: Durable) returns (t: seq<Durable>)
    requires Completable(job, d) && !job.IsUpload()
    ensures t != [] && t[0] == d && Run(job, 0, t) && Promotable(job, t[|t| - 1])
  {
    hide MayBegin, Grounded, Job.Changeable;
    FirstMayBegin(job, d);
    var d1 := Durable(d.remote, d.ledger[job.id := FirstRecord(job)]);
    assert Saves(job, d, d1);
    t := [d, d1];
    var d2 := d1;
    if job.original.Some? {
      d2 := Durable(Renamed(d.remote, job.dest, job.backup), d1.ledger);
      assert Preserves(job, d1, d2);
      t := t + [d2];
    }
    var d3 := Durable(d2.remote, d2.ledger[job.id := LastRecord(job)]);
    assert Saves(job, d2, d3);
    t := t + [d3];
  }

  lemma Concluding(job: Job, d: Durable) returns (t: seq<Durable>)
    requires job.WellFormed() && job.housed && Inv(job, d) && (job.original.Some? ==> job.original.value.File?)
    requires Promotable(job, d)
    ensures t != [] && t[0] == d && Run(job, 0, t)
    ensures t[|t| - 1].ledger == d.ledger - {job.id} && AtTarget(job, t[|t| - 1].remote)
  {
    var d1 := Durable(Renamed(d.remote, job.stage, job.dest), d.ledger);
    assert Promotes(job, d, d1);
    var d2 := Durable(d1.remote, d1.ledger[job.id := LastRecord(job).(committed := true)]);
    assert Saves(job, d1, d2);
    t := [d, d1, d2];
    var d3 := d2;
    if job.original.Some? {
      d3 := Durable(Deleted(d2.remote, job.backup), d2.ledger);
      assert DropsBackup(job, d2, d3);
      t := t + [d3];
    }
    var d4 := Durable(d3.remote, d3.ledger - {job.id});
    assert Erases(job, d3, d4);
    t := t + [d4];
  }

  lemma RunsOn(job: Job, s: seq<Durable>, t: seq<Durable>) returns (u: seq<Durable>)
    requires s != [] && t != [] && Run(job, 0, s) && Run(job, 0, t) && s[|s| - 1] == t[0]
    ensures u != [] && u[0] == s[0] && Run(job, 0, u) && u[|u| - 1] == t[|t| - 1]
  {
    hide Next;
    u := s + t[1..];
    forall i, j | 0 <= i && j == i + 1 && j < |u|
      ensures Next(job, u[i], u[j])
    {
      if j < |s| {
        assert Next(job, s[i], s[j]);
      } else {
        var k := j - |s|;
        assert Next(job, t[k], t[k + 1]) && u[i] == t[k];
      }
    }
  }

  lemma EndsReplaced(job: Job, d: Durable, d': Durable)
    requires Ready(job, d) && Framed(job, d, d') && AtTarget(job, d'.remote) && job.id !in d'.ledger
    ensures d' == Durable(Replaced(job, d.remote), d.ledger)
  {
    hide Grounded, Job.WellFormed, Job.Changeable, AtTarget, AtBase, Replaced;
    SettledIsOneOfTwo(job, d.remote, d'.remote);
    assert forall k :: k in d'.ledger <==> k in d.ledger;
  }

  /** Every replacement in a directory that is there can be seen through: some run ends
      with exactly the replaced store and no record. */
  lemma CompleteRun(job: Job, d: Durable) returns (t: seq<Durable>)
    requires Completable(job, d)
    ensures t != [] && t[0] == d && Run(job, 0, t) && t[|t| - 1] == Durable(Replaced(job, d.remote), d.ledger)
  {
    hide Run, AtTarget, AtBase, Grounded, Framed, Promotable, Replaced, Job.WellFormed, Job.Changeable;
    if job.IsUpload() {
      t := UploadPromotable(job, d);
    } else {
      t := MovePromotable(job, d);
    }
    RunKeepsInv(job, 0, t, |t| - 1);
    var rest := Concluding(job, t[|t| - 1]);
    t := RunsOn(job, t, rest);
    RunKeepsInv(job, 0, t, |t| - 1);
    EndsReplaced(job, d, t[|t| - 1]);
  }

  /** The destination is only ever vacated by moving its bytes to the backup. */
  lemma VacatedOnlyByPreserving(job: Job, d: Durable, d': Durable)
    requires job.WellFormed() && Inv(job, d) && Next(job, d, d')
    requires job.Dest(d.remote).Some? && job.Dest(d'.remote) == None
    ensures job.Backup(d'.remote) == job.Dest(d.remote) == job.original
  {
  }
}
