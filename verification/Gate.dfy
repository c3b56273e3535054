/** The request gate in front of the replacement protocol: a weighted semaphore,
    recovery before every mutation, and the on-disk copies readers leave behind
    (internal/webdav/handler.go, fs.go, cache.go). */
module Gate {
  import opened Paths
  import opened Store
  import opened Record
  import opened Protocol
  import opened Recovery
  import opened Pending

  /** What a mutation acquires; a reader acquires one unit. */
  const EXCLUSIVE: nat := 0x10_0000

  /** A downloaded file, in a reader's hands or published in the file cache. */
  datatype Copy = Copy(name: Path, data: Bytes)

  datatype Phase = Waiting | Admitted | Reading(copy: Option<Copy>) | Mutating | Done

  datatype Request = Request(readOnly: bool, phase: Phase) {
    predicate Active() { phase.Admitted? || phase.Reading? || phase.Mutating? }
    function Weight(): nat { if readOnly then 1 else EXCLUSIVE }
    predicate Sensible() {
      (phase.Reading? ==> readOnly) && (phase.Mutating? ==> !readOnly)
    }
  }

  /** `view` is the store an atomic service would show: it changes only when a
      mutation takes effect as a whole. `pending` is a replacement begun and not
      yet known to be over. */
  datatype State = State(
    store: Durable,
    requests: seq<Request>,
    held: nat,
    serving: bool,
    pending: Option<Job>,
    copies: set<Copy>,
    view: Remote)

  datatype Event =
    | Arrive(readOnly: bool)
    | Acquire(i: nat)
    | Admit(i: nat)
    | Recover(i: nat, to: Durable, ok: bool)
    | Fetch(i: nat, name: Path)
    | Peek(i: nat, name: Path)
    | Publish(i: nat)
    | Evict(copy: Copy)
    | Begin(i: nat, job: Job)
    | Work(i: nat, to: Durable)
    | Direct(i: nat, after: Remote)
    | Settle(i: nat)
    | Leave(i: nat)
    | Crash
    | Restart(to: Durable, ok: bool)

  // ------------------------------------------------------------------- steps

  /** One recovery of the whole journal, complete or cut short. */
  ghost predicate Recovers(d: Durable, d': Durable) {
    exists t: seq<Durable> :: t != [] && t[0] == d && t[|t| - 1] == d' && PendingRun(d.ledger, 0, t)
  }

  /** A mutation the server performs as a whole. */
  ghost predicate Native(m: Remote, m': Remote) {
    || m' == m
    || (exists q :: m' == Deleted(m, q))
    || (exists a, b :: a in m && b !in m && m' == Renamed(m, a, b))
  }

  predicate Makes(m: Remote, m': Remote, q: Path) {
    q !in m && m' == m[q := Directory(false)]
  }

  /** Once no record is kept, whatever was pending is over. */
  function Concluded(s: State): State {
    if s.store.ledger == map[] then s.(pending := None, view := s.store.remote) else s
  }

  function Moved(s: State, i: nat, phase: Phase): State
    requires i < |s.requests|
  {
    var r := s.requests[i];
    var r' := r.(phase := phase);
    s.(requests := s.requests[i := r'],
       held := if r.Active() && !r'.Active() && r.Weight() <= s.held then s.held - r.Weight() else s.held)
  }

  function Without(copies: set<Copy>, name: Path): set<Copy> {
    set c | c in copies && c.name != name
  }

  predicate At(s: State, i: nat, readOnly: bool, phase: Phase) {
    i < |s.requests| && s.requests[i] == Request(readOnly, phase)
  }

  /** invalidate before an upload, invalidateAll before a move. */
  function Invalidated(s: State, job: Job): set<Copy> {
    if job.IsUpload() then Without(s.copies, job.dest) else {}
  }

  /** A copying request reads its source through the cache before it writes. A
      replacement begins under a fresh identity, so nobody has a copy of a file named
      after it. */
  ghost predicate Step(s: State, e: Event, s': State) {
    match e
    case Arrive(readOnly) =>
      s.serving && s' == s.(requests := s.requests + [Request(readOnly, Waiting)])
    case Acquire(i) =>
      && i < |s.requests| && s.requests[i].phase.Waiting? && s.held + s.requests[i].Weight() <= EXCLUSIVE
      && s' == Moved(s, i, Admitted).(held := s.held + s.requests[i].Weight())
    case Admit(i) =>
      At(s, i, true, Admitted) && s' == Moved(s, i, Reading(None))
    case Recover(i, to, ok) =>
      && At(s, i, false, Admitted) && Recovers(s.store, to) && (ok ==> to.ledger == map[])
      && s' == Concluded(Moved(s, i, if ok then Mutating else Done).(
                 store := to, copies := if ok && s.store.ledger != map[] then {} else s.copies))
    case Fetch(i, name) =>
      && i < |s.requests| && s.requests[i].phase.Reading? && name in s.store.remote && s.store.remote[name].File?
      && s' == Moved(s, i, Reading(Some(Copy(name, s.store.remote[name].data))))
    case Peek(i, name) =>
      && At(s, i, false, Mutating) && s.pending == None && name in s.store.remote && s.store.remote[name].File?
      && s' == s.(copies := s.copies + {Copy(name, s.store.remote[name].data)})
    case Publish(i) =>
      && i < |s.requests| && s.requests[i].phase.Reading? && s.requests[i].phase.copy.Some?
      && s' == s.(copies := s.copies + {s.requests[i].phase.copy.value})
    case Evict(copy) =>
      s' == s.(copies := s.copies - {copy})
    case Begin(i, job) =>
      && At(s, i, false, Mutating) && s.pending == None && Ready(job, s.store) && Named(job) && ValidId(job.id)
      && (forall c :: c in s.copies ==> c.name != job.backup && (job.IsUpload() ==> c.name != job.stage))
      && s' == s.(pending := Some(job), copies := Invalidated(s, job))
    case Work(i, to) =>
      At(s, i, false, Mutating) && s.pending.Some? && Next(s.pending.value, s.store, to) && s' == s.(store := to)
    case Direct(i, after) =>
      && At(s, i, false, Mutating) && s.pending == None
      && s' == s.(store := Durable(after, s.store.ledger), view := after, copies := s'.copies)
      && (|| (Native(s.store.remote, after) && s'.copies == {})
          || (s'.copies == s.copies && exists q :: Makes(s.store.remote, after, q)))
    case Settle(i) =>
      At(s, i, false, Mutating) && s' == Concluded(s)
    case Leave(i) =>
      && i < |s.requests| && !s.requests[i].phase.Done?
      && s' == if s.requests[i].phase.Mutating? then Concluded(Moved(s, i, Done)) else Moved(s, i, Done)
    case Crash =>
      s' == Concluded(s.(requests := [], held := 0, serving := false))
    case Restart(to, ok) =>
      && !s.serving && Recovers(s.store, to) && (ok ==> to.ledger == map[])
      && s' == Concluded(s.(store := to, serving := ok))
  }

  // --------------------------------------------------------------- semaphore

  function Units(r: Request): nat {
    if r.Active() then r.Weight() else 0
  }

  function Load(requests: seq<Request>): nat {
    if requests == [] then 0 else Load(requests[..|requests| - 1]) + Units(requests[|requests| - 1])
  }

  lemma {:induction false} LoadUpdate(requests: seq<Request>, i: nat, r: Request)
    requires i < |requests|
    ensures Load(requests[i := r]) + Units(requests[i]) == Load(requests) + Units(r)
  {
    var k := |requests| - 1;
    if i < k {
      LoadUpdate(requests[..k], i, r);
      assert requests[i := r][..k] == requests[..k][i := r];
    } else {
      assert requests[i := r][..k] == requests[..k];
    }
  }

  lemma {:induction false} LoadCovers(requests: seq<Request>, i: nat)
    requires i < |requests|
    ensures Load(requests) >= Units(requests[i])
  {
    LoadUpdate(requests, i, requests[i].(phase := Done));
  }

  lemma LoadCoversBoth(requests: seq<Request>, i: nat, j: nat)
    requires i < |requests| && j < |requests| && i != j
    ensures Load(requests) >= Units(requests[i]) + Units(requests[j])
  {
    var rest := requests[i := requests[i].(phase := Done)];
    LoadUpdate(requests, i, requests[i].(phase := Done));
    LoadCovers(rest, j);
  }

  /** The semaphore's count is what its holders hold, and each request is in a
      phase of its own kind. */
  ghost predicate Counted(s: State) {
    && s.held == Load(s.requests) <= EXCLUSIVE
    && (forall r :: r in s.requests ==> r.Sensible())
    && (!s.serving ==> s.requests == [])
  }

  /** A mutation that is past the semaphore has the gateway to itself. */
  lemma Alone(s: State, i: nat, j: nat)
    requires Counted(s) && i < |s.requests| && j < |s.requests| && i != j
    requires s.requests[i].Active() && !s.requests[i].readOnly
    ensures !s.requests[j].Active()
  {
    LoadCoversBoth(s.requests, i, j);
  }

  lemma MovedCounted(s: State, i: nat, phase: Phase)
    requires Counted(s) && i < |s.requests| && s.requests[i].(phase := phase).Sensible()
    requires s.requests[i].Active() || !s.requests[i].(phase := phase).Active()
    ensures Counted(Moved(s, i, phase))
  {
    LoadUpdate(s.requests, i, s.requests[i].(phase := phase));
    LoadCovers(s.requests, i);
    var s' := Moved(s, i, phase);
    forall r | r in s'.requests
      ensures r.Sensible()
    {
      var k :| 0 <= k < |s'.requests| && s'.requests[k] == r;
      assert s.requests[k] in s.requests;
    }
  }

  lemma StepCounted(s: State, e: Event, s': State)
    requires Counted(s) && Step(s, e, s')
    ensures Counted(s')
  {
    match e
    case Arrive(readOnly) =>
      var r := Request(readOnly, Waiting);
      assert (s.requests + [r])[..|s.requests|] == s.requests;
    case Acquire(i) =>
      LoadUpdate(s.requests, i, s.requests[i].(phase := Admitted));
      forall r | r in s'.requests
        ensures r.Sensible()
      {
        var k :| 0 <= k < |s'.requests| && s'.requests[k] == r;
        assert s.requests[k] in s.requests;
      }
    case Admit(i) => MovedCounted(s, i, Reading(None));
    case Recover(i, to, ok) => MovedCounted(s, i, if ok then Mutating else Done);
    case Fetch(i, name) =>
      assert s.requests[i] in s.requests;
      MovedCounted(s, i, Reading(Some(Copy(name, s.store.remote[name].data))));
    case Leave(i) => MovedCounted(s, i, Done);
    case _ =>
  }

  // ------------------------------------------------------------- replacement

  ghost predicate Busy(s: State) {
    exists r :: r in s.requests && r.phase.Mutating?
  }

  /** The view is the store as it was before the pending replacement, and without
      one it is the store itself. */
  ghost predicate Tracked(s: State) {
    match s.pending
    case None => s.store.ledger == map[] && s.view == s.store.remote
    case Some(job) =>
      && Ready(job, Durable(s.view, map[])) && Inv(job, s.store)
      && Framed(job, Durable(s.view, map[]), s.store)
      && (Busy(s) || s.store.ledger != map[])
  }

  /** The view only ever takes a whole step. */
  ghost predicate Atomic(m: Remote, m': Remote) {
    || (exists job :: Ready(job, Durable(m, map[])) && m' != m && Concludes(job, m, m'))
    || Native(m, m')
    || (exists q :: Makes(m, m', q))
  }

  /** How recovery may change the store under a single replacement's names: what
      is at a recovery name stays or goes, an absent destination may return, and
      everything else stays. */
  ghost predicate Fades(job: Job, m: Remote, m': Remote) {
    forall q :: Lookup(m', q) == Lookup(m, q) || (q == job.dest && q !in m) || (Spares(job, q) && q !in m')
  }

  /** The name is at or beneath one that exists only for this replacement. */
  predicate Spares(job: Job, q: Path) {
    job.backup <= q || (job.IsUpload() && job.stage <= q)
  }

  lemma SafeStepFades(job: Job, r: Record, d: Durable, d': Durable)
    requires job.WellFormed() && Describes(r, job) && SafeStep(r, d, d')
    ensures Fades(job, d.remote, d'.remote)
  {
    JobApart(job, r);
  }

  lemma FadesTwice(job: Job, a: Remote, b: Remote, c: Remote)
    requires job.WellFormed() && Fades(job, a, b) && Fades(job, b, c)
    ensures Fades(job, a, c)
  {
  }

  lemma {:induction false} RunFades(job: Job, t: seq<Durable>, k: nat)
    requires k < |t| && PendingRun(t[0].ledger, 0, t) && job.WellFormed()
    requires t[0].ledger.Keys <= {job.id} && Inv(job, t[0])
    ensures Fades(job, t[0].remote, t[k].remote)
  {
    if k == 0 {
    } else {
      RunFades(job, t, k - 1);
      assert PendingStep(t[0].ledger, t[k - 1], t[k]);
      var stem :| stem in t[0].ledger && SafeStep(t[0].ledger[stem], t[k - 1], t[k]);
      assert stem == job.id;
      SafeStepFades(job, t[0].ledger[stem], t[k - 1], t[k]);
      FadesTwice(job, t[0].remote, t[k - 1].remote, t[k].remote);
    }
  }

  lemma RecoveringKeeps(job: Job, d: Durable, d': Durable)
    requires job.WellFormed() && job.Changeable() && Inv(job, d) && d.ledger.Keys <= {job.id}
    requires Recovers(d, d')
    ensures Inv(job, d') && Framed(job, d, d') && Fades(job, d.remote, d'.remote)
  {
    var t: seq<Durable> :| t != [] && t[0] == d && t[|t| - 1] == d' && PendingRun(d.ledger, 0, t);
    PendingContinues(job, 0, t);
    RunKeepsInv(job, 0, t, |t| - 1);
    RunFades(job, t, |t| - 1);
  }

  lemma NothingToRecover(d: Durable, d': Durable)
    requires Recovers(d, d') && d.ledger == map[]
    ensures d' == d
  {
    var t: seq<Durable> :| t != [] && t[0] == d && t[|t| - 1] == d' && PendingRun(d.ledger, 0, t);
    assert !PendingStep(d.ledger, t[0], if |t| > 1 then t[1] else t[0]);
  }

  /** What RecoverPending does between its call and its return is one recovery. */
  lemma SweepIsRecovery(from: nat, t: seq<Durable>)
    requires from < |t| && PendingRun(t[from].ledger, from, t)
    ensures Recovers(t[from], t[|t| - 1])
  {
    var u := t[from..];
    forall i, j | 0 <= i && j == i + 1 && j < |u|
      ensures PendingStep(t[from].ledger, u[i], u[j])
    {
      assert u[i] == t[from + i] && u[j] == t[from + j];
    }
    assert u[0] == t[from] && u[|u| - 1] == t[|t| - 1];
  }

  /** When a replacement is over the view takes one whole step, or none. */
  lemma ConcludedTracked(s: State)
    requires s.pending.Some? ==>
      && Ready(s.pending.value, Durable(s.view, map[])) && Inv(s.pending.value, s.store)
      && Framed(s.pending.value, Durable(s.view, map[]), s.store)
    requires s.pending.None? ==> s.store.ledger == map[] && s.view == s.store.remote
    ensures Tracked(Concluded(s)) && Atomic(s.view, Concluded(s).view)
  {
    if s.pending.Some? && s.store.ledger == map[] {
      var job := s.pending.value;
      SettledOutcome(job, Durable(s.view, map[]), s.store);
      hide Grounded, Concludes, Ready, Framed;
      assert s.store.remote != s.view ==> Ready(job, Durable(s.view, map[])) && Concludes(job, s.view, s.store.remote);
    }
  }

  lemma StaysBusy(s: State, i: nat, r: Request)
    requires i < |s.requests| && !s.requests[i].phase.Mutating? && Busy(s)
    ensures Busy(s.(requests := s.requests[i := r]))
  {
    var m :| m in s.requests && m.phase.Mutating?;
    var k :| 0 <= k < |s.requests| && s.requests[k] == m;
    assert s.requests[i := r][k] == m;
  }

  /** The events that leave store and view alone. */
  predicate Quiet(e: Event) {
    e.Arrive? || e.Acquire? || e.Admit? || e.Fetch? || e.Peek? || e.Publish? || e.Evict?
  }

  lemma QuietTracked(s: State, e: Event, s': State)
    requires Tracked(s) && Step(s, e, s')
    requires Quiet(e) || (e.Leave? && !s.requests[e.i].phase.Mutating?)
    ensures Tracked(s') && s'.view == s.view
  {
    hide Ready, Inv, Framed, Recovers, Next, Native, Concluded;
    if Busy(s) {
      match e
      case Arrive(readOnly) =>
        var m :| m in s.requests && m.phase.Mutating?;
        assert m in s'.requests;
      case Acquire(i) => StaysBusy(s, i, s'.requests[i]);
      case Admit(i) => StaysBusy(s, i, s'.requests[i]);
      case Fetch(i, name) => StaysBusy(s, i, s'.requests[i]);
      case Leave(i) => StaysBusy(s, i, s'.requests[i]);
      case _ =>
    }
  }

  lemma RecoverTracked(s: State, to: Durable, s': State)
    requires Tracked(s) && Recovers(s.store, to)
    requires s'.store == to && s'.view == s.view && s'.pending == s.pending
    ensures Tracked(Concluded(s')) && Atomic(s.view, Concluded(s').view)
  {
    if s.pending.Some? {
      var job := s.pending.value;
      RecoveringKeeps(job, s.store, to);
      FramedTwice(job, Durable(s.view, map[]), s.store, to);
    } else {
      NothingToRecover(s.store, to);
    }
    ConcludedTracked(s');
  }

  lemma WorkTracked(s: State, i: nat, to: Durable, s': State)
    requires Tracked(s) && Step(s, Work(i, to), s')
    ensures Tracked(s') && s'.view == s.view
  {
    var job := s.pending.value;
    StepFramed(job, s.store, to);
    StepKeepsInv(job, s.store, to);
    FramedTwice(job, Durable(s.view, map[]), s.store, to);
    assert s'.requests[i] in s'.requests;
  }

  lemma BeginTracked(s: State, i: nat, job: Job, s': State)
    requires Tracked(s) && Step(s, Begin(i, job), s')
    ensures Tracked(s') && s'.view == s.view
  {
    hide Grounded, AtBase, Invalidated, Job.WellFormed, Job.Changeable, Named, ValidId;
    assert s.store == Durable(s.view, map[]);
    assert s'.requests[i] in s'.requests;
  }

  lemma LeaveTracked(s: State, i: nat, s': State)
    requires Counted(s) && Tracked(s) && Step(s, Leave(i), s')
    ensures Tracked(s') && Atomic(s.view, s'.view)
  {
    if s.requests[i].phase.Mutating? {
      ConcludedTracked(Moved(s, i, Done));
    } else {
      QuietTracked(s, Leave(i), s');
    }
  }

  /** Every step keeps the store explained by the view and one replacement. */
  lemma StepTracked(s: State, e: Event, s': State)
    requires Counted(s) && Tracked(s) && Step(s, e, s')
    ensures Tracked(s') && Atomic(s.view, s'.view)
  {
    hide Ready, Inv, Framed, Recovers, Next, Makes, Busy;
    if Quiet(e) {
      QuietTracked(s, e, s');
    } else {
      match e
      case Recover(i, to, ok) =>
        RecoverTracked(s, to, Moved(s, i, if ok then Mutating else Done).(
                         store := to, copies := if ok && s.store.ledger != map[] then {} else s.copies));
      case Begin(i, job) => BeginTracked(s, i, job, s');
      case Work(i, to) => WorkTracked(s, i, to, s');
      case Leave(i) => LeaveTracked(s, i, s');
      case Crash => ConcludedTracked(s.(requests := [], held := 0, serving := false));
      case Restart(to, ok) => RecoverTracked(s, to, s.(store := to, serving := ok));
      case Settle(i) => ConcludedTracked(s);
      case _ =>
    }
  }

  // ------------------------------------------------------------ cached copies

  predicate Exact(m: Remote, c: Copy) {
    Lookup(m, c.name) == Some(File(c.data))
  }

  /** A name the gateway makes up beside a destination it replaces. */
  ghost predicate Internal(name: Path) {
    exists kind, id, dest: Path ::
      kind in {UPLOAD, BACKUP} && ValidId(id) && dest != [] && Mutable(dest) && name == RecoveryName(kind, id, dest)
  }

  /** Such a name is recognised by how its last component begins. */
  lemma InternalIsMarked(name: Path)
    requires Internal(name)
    ensures name != [] && ".idrive-gateway-" <= name[|name| - 1]
  {
    hide ValidId, Mutable, Ext;
    var kind, id, dest: Path :| kind in {UPLOAD, BACKUP} && ValidId(id) && dest != [] && Mutable(dest)
      && name == RecoveryName(kind, id, dest);
    var last := dest[|dest| - 1];
    assert RecoveryBase(kind, id, last) == ".idrive-gateway-" + (kind + "-" + id + Ext(last));
  }

  /** No file is stored under the name. */
  predicate Absent(m: Remote, name: Path) {
    name in m ==> m[name].Directory?
  }

  /** Every copy is of the file now stored under its name, or of a recovery file
      that is gone. */
  ghost predicate NoneWrong(copies: set<Copy>, m: Remote) {
    forall c :: c in copies ==> Exact(m, c) || (Absent(m, c.name) && Internal(c.name))
  }

  /** The destination is not among those gone. */
  ghost predicate NoneLeft(copies: set<Copy>, m: Remote, dest: Path) {
    forall c :: c in copies && c.name == dest ==> Exact(m, c)
  }

  ghost predicate Unnamed(job: Job) {
    Internal(job.backup) && (job.IsUpload() ==> Internal(job.stage))
  }

  /** Besides, what a reader holds is what is stored. */
  ghost predicate Coherent(s: State) {
    && NoneWrong(s.copies, s.store.remote)
    && (s.pending.Some? ==>
          && Unnamed(s.pending.value)
          && NoneLeft(s.copies, s.store.remote, s.pending.value.dest)
          && (Busy(s) ==> forall c :: c in s.copies ==> !s.pending.value.Owns(c.name)))
    && (forall r :: r in s.requests && r.phase.Reading? && r.phase.copy.Some? ==>
          Exact(s.store.remote, r.phase.copy.value))
  }

  lemma NoReaders(s: State, i: nat)
    requires Counted(s) && i < |s.requests| && s.requests[i].Active() && !s.requests[i].readOnly
    ensures forall r :: r in s.requests ==> !r.phase.Reading?
  {
    forall r | r in s.requests
      ensures !r.phase.Reading?
    {
      var j :| 0 <= j < |s.requests| && s.requests[j] == r;
      if j != i { Alone(s, i, j); }
    }
  }

  lemma NotBusy(s: State, i: nat)
    requires Counted(s) && i < |s.requests| && s.requests[i].Active() && !s.requests[i].phase.Mutating?
    ensures !Busy(s)
  {
    forall r | r in s.requests
      ensures !r.phase.Mutating?
    {
      var j :| 0 <= j < |s.requests| && s.requests[j] == r;
      if j != i && r.phase.Mutating? { Alone(s, j, i); }
    }
  }

  /** Recovery never makes a copy wrong, for it brings back nothing but a
      destination that was absent. */
  lemma FadingKeepsCopies(job: Job, copies: set<Copy>, d: Durable, d': Durable)
    requires job.WellFormed() && Unnamed(job) && NoneWrong(copies, d.remote) && NoneLeft(copies, d.remote, job.dest)
    requires Fades(job, d.remote, d'.remote) && Framed(job, d, d')
    ensures NoneWrong(copies, d'.remote) && NoneLeft(copies, d'.remote, job.dest)
  {
    hide Internal;
    forall c | c in copies
      ensures Exact(d'.remote, c) || (Absent(d'.remote, c.name) && Internal(c.name) && c.name != job.dest)
    {
      if !job.Owns(c.name) { assert Lookup(d'.remote, c.name) == Lookup(d.remote, c.name); }
    }
  }

  lemma RecoverCoherent(s: State, to: Durable, s': State)
    requires Tracked(s) && Coherent(s) && !Busy(s) && Recovers(s.store, to)
    requires s'.store == to && s'.pending == s.pending && s'.copies <= s.copies
    requires forall r :: r in s'.requests ==> !r.phase.Reading?
    requires Busy(s') ==> to.ledger == map[]
    ensures Coherent(Concluded(s'))
  {
    hide Exact, Internal, Absent, Grounded, AtBase, Fades, Inv, Job.WellFormed, Job.Changeable, Recovers;
    if s.pending.Some? {
      RecoveringKeeps(s.pending.value, s.store, to);
      FadingKeepsCopies(s.pending.value, s.copies, s.store, to);
    } else {
      NothingToRecover(s.store, to);
    }
  }

  lemma WorkCoherent(s: State, i: nat, to: Durable, s': State)
    requires Counted(s) && Tracked(s) && Coherent(s) && Step(s, Work(i, to), s')
    ensures Coherent(s')
  {
    NoReaders(s, i);
    assert s.requests[i] in s.requests && Busy(s);
    StepFramed(s.pending.value, s.store, to);
    forall c | c in s.copies
      ensures Lookup(to.remote, c.name) == Lookup(s.store.remote, c.name)
    {
      assert !s.pending.value.Owns(c.name);
    }
  }

  lemma FetchCoherent(s: State, i: nat, name: Path, s': State)
    requires Counted(s) && Coherent(s) && Step(s, Fetch(i, name), s')
    ensures Coherent(s')
  {
    NotBusy(s, i);
    forall r | r in s'.requests
      ensures !r.phase.Mutating?
      ensures r.phase.Reading? && r.phase.copy.Some? ==> Exact(s.store.remote, r.phase.copy.value)
    {
      var k :| 0 <= k < |s'.requests| && s'.requests[k] == r;
      assert s.requests[k] in s.requests;
    }
  }

  lemma PeekCoherent(s: State, i: nat, name: Path, s': State)
    requires Coherent(s) && Step(s, Peek(i, name), s')
    ensures Coherent(s')
  {
  }

  lemma PublishCoherent(s: State, i: nat, s': State)
    requires Counted(s) && Coherent(s) && Step(s, Publish(i), s')
    ensures Coherent(s')
  {
    hide Internal, Load;
    NotBusy(s, i);
    assert s.requests[i] in s.requests;
  }

  lemma RephasedCoherent(s: State, i: nat, phase: Phase, s': State)
    requires i < |s.requests| && Coherent(s) && (phase.Reading? ==> phase.copy.None?) && !phase.Mutating?
    requires s'.requests == s.requests[i := s.requests[i].(phase := phase)]
    requires s'.store == s.store && s'.copies == s.copies && s'.pending == s.pending
    ensures Coherent(s')
  {
    hide Internal, Exact, NoneWrong, NoneLeft, Unnamed;
  }

  lemma BeginCoherent(s: State, i: nat, job: Job, s': State)
    requires Counted(s) && Tracked(s) && Coherent(s) && Step(s, Begin(i, job), s')
    ensures Coherent(s')
  {
    hide Inv, Framed, Named, Unnamed, Exact, Internal, Absent, Native, Grounded, AtBase, Job.WellFormed, Job.Changeable;
    NoReaders(s, i);
    NamedIsUnnamed(job);
    BegunOwnsNone(s, job);
  }

  /** Invalidation leaves no copy of anything the replacement is going to change, and
      before an upload drops none of anything else. */
  lemma BegunOwnsNone(s: State, job: Job)
    requires forall c :: c in s.copies ==> c.name != job.backup && (job.IsUpload() ==> c.name != job.stage)
    ensures forall c :: c in Invalidated(s, job) ==> c in s.copies && !job.Owns(c.name)
    ensures job.IsUpload() ==> forall c :: c in s.copies && c.name != job.dest ==> c in Invalidated(s, job)
  {
  }

  lemma NamedIsUnnamed(job: Job)
    requires Named(job) && ValidId(job.id) && job.Changeable()
    ensures Unnamed(job)
  {
    assert job.backup == RecoveryName(BACKUP, job.id, job.dest);
    assert job.IsUpload() ==> job.stage == RecoveryName(UPLOAD, job.id, job.dest);
  }

  lemma DirectCoherent(s: State, i: nat, after: Remote, s': State)
    requires Counted(s) && Tracked(s) && Coherent(s) && Step(s, Direct(i, after), s')
    ensures Coherent(s')
  {
    NoReaders(s, i);
  }

  lemma RecoverStepCoherent(s: State, i: nat, to: Durable, ok: bool, s': State)
    requires Counted(s) && Tracked(s) && Coherent(s) && Step(s, Recover(i, to, ok), s')
    ensures Coherent(s')
  {
    hide Exact, Internal, Absent, NoneWrong, NoneLeft, Inv, Tracked, Recovers, Unnamed, Load;
    NoReaders(s, i);
    NotBusy(s, i);
    var m := Moved(s, i, if ok then Mutating else Done).(
      store := to, copies := if ok && s.store.ledger != map[] then {} else s.copies);
    forall r | r in m.requests
      ensures !r.phase.Reading? && (r.phase.Mutating? ==> ok)
    {
      var k :| 0 <= k < |m.requests| && m.requests[k] == r;
      if k != i { assert s.requests[k] in s.requests; }
    }
    RecoverCoherent(s, to, m);
  }

  lemma LeaveCoherent(s: State, i: nat, s': State)
    requires Counted(s) && Coherent(s) && Step(s, Leave(i), s')
    ensures Coherent(s')
  {
    RephasedCoherent(s, i, Done, Moved(s, i, Done));
  }

  lemma QuietCoherent(s: State, e: Event, s': State)
    requires Counted(s) && Coherent(s) && Step(s, e, s') && Quiet(e)
    ensures Coherent(s')
  {
    hide Exact, Unnamed, Internal, Load;
    match e
    case Acquire(i) => RephasedCoherent(s, i, Admitted, s');
    case Admit(i) => RephasedCoherent(s, i, Reading(None), s');
    case Fetch(i, name) => FetchCoherent(s, i, name, s');
    case Peek(i, name) => PeekCoherent(s, i, name, s');
    case Publish(i) => PublishCoherent(s, i, s');
    case _ =>
  }

  lemma StepCoherent(s: State, e: Event, s': State)
    requires Counted(s) && Tracked(s) && Coherent(s) && Step(s, e, s')
    ensures Coherent(s')
  {
    hide Ready, Inv, Framed, Recovers, Next, Native, Makes, Tracked, NoneWrong, NoneLeft, Exact, Unnamed;
    if Quiet(e) {
      QuietCoherent(s, e, s');
    } else {
      match e
      case Recover(i, to, ok) => RecoverStepCoherent(s, i, to, ok, s');
      case Begin(i, job) => BeginCoherent(s, i, job, s');
      case Work(i, to) => WorkCoherent(s, i, to, s');
      case Direct(i, after) => DirectCoherent(s, i, after, s');
      case Leave(i) => LeaveCoherent(s, i, s');
      case Restart(to, ok) => RecoverCoherent(s, to, s.(store := to, serving := ok));
      case _ =>
    }
  }

  // -------------------------------------------------------------- every run

  ghost predicate Reachable(run: seq<State>) {
    && run != [] && run[0] == State(Durable(run[0].view, map[]), [], 0, true, None, {}, run[0].view)
    && forall i, j :: 0 <= i && j == i + 1 && j < |run| ==> Follows(run[i], run[j])
  }

  ghost predicate Follows(s: State, s': State) {
    exists e :: Step(s, e, s')
  }

  lemma {:induction false} RunKeeps(run: seq<State>, k: nat)
    requires Reachable(run) && k < |run|
    ensures Counted(run[k]) && Tracked(run[k]) && Coherent(run[k])
    ensures k > 0 ==> Atomic(run[k - 1].view, run[k].view)
  {
    if k == 0 {
    } else {
      RunKeeps(run, k - 1);
      var i := k - 1;
      assert Follows(run[i], run[k]);
      var e :| Step(run[i], e, run[k]);
      StepCounted(run[i], e, run[k]);
      StepTracked(run[i], e, run[k]);
      StepCoherent(run[i], e, run[k]);
    }
  }

  /** In every interleaving a request that may change the store shares the gateway
      with no other, and its body starts only once the journal is empty. */
  lemma MutationsAreAlone(run: seq<State>, k: nat, i: nat, j: nat)
    requires Reachable(run) && k < |run|
    requires i < |run[k].requests| && j < |run[k].requests| && i != j
    ensures run[k].requests[i].Active() && run[k].requests[j].Active() ==>
      run[k].requests[i].readOnly && run[k].requests[j].readOnly
    ensures run[k].requests[i].phase.Mutating? && run[k].pending.None? ==> run[k].store.ledger == map[]
  {
    RunKeeps(run, k);
    if run[k].requests[i].Active() && run[k].requests[j].Active() {
      if !run[k].requests[i].readOnly { Alone(run[k], i, j); }
      if !run[k].requests[j].readOnly { Alone(run[k], j, i); }
    }
  }

  lemma ViewIsAtomic(run: seq<State>)
    requires Reachable(run)
    ensures forall m, n :: 0 <= m && n == m + 1 && n < |run| ==> Atomic(run[m].view, run[n].view)
  {
    forall m, n | 0 <= m && n == m + 1 && n < |run|
      ensures Atomic(run[m].view, run[n].view)
    {
      RunKeeps(run, n);
    }
  }

  /** Readers see an atomic store: as long as the journal is empty, what a reader
      finds is the view, and the view only ever takes whole steps. */
  lemma ReadersSeeAnAtomicStore(run: seq<State>, k: nat, i: nat)
    requires Reachable(run) && k < |run| && i < |run[k].requests|
    requires run[k].requests[i].phase.Reading? && run[k].store.ledger == map[]
    ensures run[k].store.remote == run[k].view
    ensures forall m, n :: 0 <= m && n == m + 1 && n < |run| ==> Atomic(run[m].view, run[n].view)
  {
    ViewIsAtomic(run);
    RunKeeps(run, k);
    NotBusy(run[k], i);
  }

  /** A file was moved to where nobody finds it, and its record is kept. */
  ghost predicate Jammed(s: State) {
    s.pending.Some? && Stuck(s.pending.value, s.store.remote)
  }

  lemma StuckNeverEmpties(job: Job, d: Durable)
    requires job.WellFormed() && Inv(job, d) && Stuck(job, d.remote)
    ensures job.id in d.ledger && d.ledger != map[]
  {
  }

  lemma RecoveryStaysJammed(s: State, to: Durable)
    requires Tracked(s) && Jammed(s) && Recovers(s.store, to)
    ensures Stuck(s.pending.value, to.remote) && to.ledger != map[]
  {
    var job := s.pending.value;
    RecoveringKeeps(job, s.store, to);
    assert Lookup(to.remote, job.stage) == Lookup(s.store.remote, job.stage);
    StuckNeverEmpties(job, to);
  }

  /** Only a recovery that succeeds lets a request change the store. */
  lemma StaysIdle(s: State, e: Event, s': State)
    requires Step(s, e, s') && !Busy(s) && (e.Recover? ==> !e.ok)
    ensures !Busy(s')
  {
    hide Next, Recovers, Native, Makes, Ready, Named, ValidId, Invalidated, Concludes;
    forall r | r in s'.requests
      ensures !r.phase.Mutating?
    {
      var k :| 0 <= k < |s'.requests| && s'.requests[k] == r;
      assert k < |s.requests| ==> s.requests[k] in s.requests;
    }
  }

  lemma StepStaysJammed(s: State, e: Event, s': State)
    requires Tracked(s) && Jammed(s) && Step(s, e, s')
    ensures Jammed(s') && s'.pending == s.pending && (!Busy(s) ==> !Busy(s')) && (!s.serving ==> !s'.serving)
  {
    hide Stuck, Inv, Next, Recovers, Native, Makes, Framed, Grounded, Job.WellFormed, Job.Changeable, Busy, AtBase,
      Named, ValidId, Invalidated;
    var job := s.pending.value;
    StuckNeverEmpties(job, s.store);
    if e.Recover? { RecoveryStaysJammed(s, e.to); }
    if !Busy(s) { StaysIdle(s, e, s'); }
    match e
    case Restart(to, ok) => RecoveryStaysJammed(s, to);
    case Work(i, to) => StuckStays(job, s.store, to);
    case _ =>
  }

  /** From then on every mutation is refused: once the request that moved the file is
      over, no request ever gets to change the store again, and once the gateway has
      stopped it never serves again. */
  lemma {:induction false} JammedForever(run: seq<State>, k: nat, l: nat)
    requires Reachable(run) && k <= l < |run| && Jammed(run[k]) && !Busy(run[k])
    ensures Jammed(run[l]) && !Busy(run[l]) && (!run[k].serving ==> !run[l].serving)
  {
    hide Step, Counted, Tracked, Coherent, Jammed, Busy;
    if l == k {
    } else {
      JammedForever(run, k, l - 1);
      RunKeeps(run, l - 1);
      assert Follows(run[l - 1], run[l]);
      var e :| Step(run[l - 1], e, run[l]);
      StepStaysJammed(run[l - 1], e, run[l]);
    }
  }

  /** The file cache agrees with the store: whatever was deleted, moved, evicted,
      interrupted or recovered, every copy is of the file now stored under its name.
      The exception is a file of the gateway's own that was read while its replacement
      was pending and is gone since. */
  lemma CopiesAreCurrent(run: seq<State>, k: nat, c: Copy)
    requires Reachable(run) && k < |run| && c in run[k].copies
    ensures Exact(run[k].store.remote, c) || (Absent(run[k].store.remote, c.name) && Internal(c.name))
  {
    RunKeeps(run, k);
  }

  // ------------------------------------------- what recovery does to the copies

  /** No recovery that empties the journal goes without invalidation: the gateway has not
      been restarted, and no recovery failed with nothing left to recover. */
  predicate Orderly(e: Event, s': State) {
    !e.Restart? && (e.Recover? && !e.ok ==> s'.store.ledger != map[])
  }

  ghost predicate OrderlyFollows(s: State, s': State) {
    exists e :: Step(s, e, s') && Orderly(e, s')
  }

  ghost predicate AllOrderly(run: seq<State>) {
    forall i, j :: 0 <= i && j == i + 1 && j < |run| ==> OrderlyFollows(run[i], run[j])
  }

  /** Only copies of what is being replaced may be out of date. */
  ghost predicate Clean(s: State) {
    forall c :: c in s.copies ==>
      Exact(s.store.remote, c) || (s.pending.Some? && s.pending.value.Owns(c.name))
  }

  lemma ConcludedClean(s: State, s': State)
    requires Tracked(s) && Coherent(s) && Clean(s) && s'.store == s.store && s'.copies == s.copies
    requires s'.pending == s.pending
    ensures Clean(Concluded(s'))
  {
    hide Ready, Inv, Framed, NoneWrong, NoneLeft, Unnamed, Exact;
  }

  lemma RecoverClean(s: State, i: nat, to: Durable, ok: bool, s': State)
    requires Counted(s) && Tracked(s) && Clean(s) && Step(s, Recover(i, to, ok), s')
    requires ok || to.ledger != map[]
    ensures Clean(s')
  {
    hide Grounded, AtBase, Inv, Recovers, Framed, Exact;
    NotBusy(s, i);
    if s.store.ledger == map[] {
      NothingToRecover(s.store, to);
    } else if !ok {
      OneRecord(s);
      RecoveringKeeps(s.pending.value, s.store, to);
      FramedClean(s, to);
    }
  }

  lemma OneRecord(s: State)
    requires Tracked(s) && s.pending.Some?
    ensures s.store.ledger.Keys <= {s.pending.value.id}
  {
    hide Ready, Inv, Busy;
  }

  lemma FramedClean(s: State, to: Durable)
    requires Clean(s) && s.pending.Some? && Framed(s.pending.value, s.store, to)
    ensures Clean(s.(store := to))
  {
  }

  lemma WorkClean(s: State, i: nat, to: Durable, s': State)
    requires Tracked(s) && Clean(s) && Step(s, Work(i, to), s')
    ensures Clean(s')
  {
    hide Grounded, AtBase, Inv, Next, Framed, Exact, Busy;
    StepFramed(s.pending.value, s.store, to);
    FramedClean(s, to);
  }

  lemma StepClean(s: State, e: Event, s': State)
    requires Counted(s) && Tracked(s) && Coherent(s) && Clean(s) && Step(s, e, s') && Orderly(e, s')
    ensures Clean(s')
  {
    hide Ready, Inv, Framed, Recovers, Next, Busy, NoneWrong, NoneLeft, Unnamed, Named, ValidId, Load;
    match e
    case Recover(i, to, ok) => RecoverClean(s, i, to, ok, s');
    case Work(i, to) => WorkClean(s, i, to, s');
    case Publish(i) => assert s.requests[i] in s.requests;
    case Settle(i) => ConcludedClean(s, s);
    case Leave(i) => ConcludedClean(s, Moved(s, i, Done));
    case Crash => ConcludedClean(s, s.(requests := [], held := 0, serving := false));
    case _ =>
  }

  /** As long as that is so the exception never occurs: whenever the journal is empty,
      every copy is of the file now stored under its name, recovery files included. */
  lemma {:induction false} CopiesStayCurrent(run: seq<State>, k: nat)
    requires Reachable(run) && AllOrderly(run) && k < |run|
    ensures Clean(run[k])
    ensures run[k].store.ledger == map[] ==>
      forall c :: c in run[k].copies ==> Exact(run[k].store.remote, c)
  {
    hide Step, Counted, Coherent, Tracked, Clean, Orderly;
    RunKeeps(run, k);
    if k == 0 {
      NoCopiesYet(run);
    } else {
      CopiesStayCurrent(run, k - 1);
      RunKeeps(run, k - 1);
      assert OrderlyFollows(run[k - 1], run[k]);
      var e :| Step(run[k - 1], e, run[k]) && Orderly(e, run[k]);
      StepClean(run[k - 1], e, run[k]);
    }
    if run[k].store.ledger == map[] { CleanIsCurrent(run[k]); }
  }

  lemma NoCopiesYet(run: seq<State>)
    requires Reachable(run)
    ensures Clean(run[0])
  {
  }

  lemma CleanIsCurrent(s: State)
    requires Tracked(s) && Coherent(s) && Clean(s) && s.store.ledger == map[]
    ensures forall c :: c in s.copies ==> Exact(s.store.remote, c)
  {
    hide Ready, Inv, Framed, NoneWrong, NoneLeft, Unnamed, Exact;
  }

  // ------------------------------------------------ the copy that does survive

  lemma RunExtends(run: seq<State>, e: Event, s': State)
    requires Reachable(run) && Step(run[|run| - 1], e, s')
    ensures Reachable(run + [s'])
  {
    hide Step;
    var run' := run + [s'];
    forall i, j | 0 <= i && j == i + 1 && j < |run'|
      ensures Follows(run'[i], run'[j])
    {
      if j < |run| { assert Follows(run[i], run[j]); }
    }
  }

  /** A move interrupted once it has set its target aside, and the recovery of it. */
  lemma AsideAndBack(job: Job, m: Remote) returns (d1: Durable, d2: Durable)
    requires Ready(job, Durable(m, map[])) && !job.IsUpload()
    requires job.Known().Some? && job.original.value.File?
    ensures Next(job, Durable(m, map[]), d1) && Next(job, d1, d2) && d2.ledger != map[]
    ensures Lookup(d2.remote, job.backup) == job.original && Recovers(d2, Durable(m, map[]))
  {
    var d0, r := Durable(m, map[]), FirstRecord(job);
    FirstMayBegin(job, d0);
    d1 := Durable(m, map[job.id := r]);
    assert Saves(job, d0, d1) by { assert d1.ledger == d0.ledger[job.id := r]; }
    d2 := Durable(Renamed(m, job.dest, job.backup), d1.ledger);
    assert Preserves(job, d1, d2);
    PutBackAndForgotten(job, r, m, d2);
  }

  lemma PutBackAndForgotten(job: Job, r: Record, m: Remote, d: Durable)
    requires Ready(job, Durable(m, map[])) && !job.IsUpload() && job.Known().Some? && job.original.value.File?
    requires r == FirstRecord(job) && d == Durable(Renamed(m, job.dest, job.backup), map[job.id := r])
    ensures Recovers(d, Durable(m, map[]))
  {
    hide Grounded, Job.Changeable, Apart, Mutable, PendingRun;
    var back := Durable(m, d.ledger);
    RenamedBack(m, job.dest, job.backup);
    GroundedSees(job, m);
    assert PutsBack(r, d, back);
    assert Forgets(r, back, Durable(m, map[]));
    TwoSteps(d.ledger, job.id, d, back, Durable(m, map[]));
  }

  lemma RenamedBack(m: Remote, dest: Path, backup: Path)
    requires dest in m && m[dest].File? && backup !in m
    ensures Renamed(Renamed(m, dest, backup), backup, dest) == m
  {
  }

  lemma NothingElse(m: Remote, stage: Path, payload: Bytes)
    requires forall q :: q in m ==> !(stage <= q)
    ensures Deleted(m[stage := File(payload)], stage) == m
    ensures Seen(m[stage := File(payload)], stage).Some? <==> Listable(m, Parent(stage)) || Parent(stage) == []
  {
  }

  /** An upload interrupted once its payload is staged, and the recovery of it. */
  lemma StagedAndDropped(job: Job, m: Remote) returns (d1: Durable, d2: Durable)
    requires Ready(job, Durable(m, map[])) && job.IsUpload() && job.housed
    ensures Next(job, Durable(m, map[]), d1) && Next(job, d1, d2) && d2.ledger != map[]
    ensures Lookup(d2.remote, job.stage) == job.New() && Recovers(d2, Durable(m, map[]))
  {
    var d0, r := Durable(m, map[]), FirstRecord(job);
    FirstMayBegin(job, d0);
    d1 := Durable(m, map[job.id := r]);
    assert Saves(job, d0, d1) by { assert d1.ledger == d0.ledger[job.id := r]; }
    d2 := Durable(m[job.stage := File(job.payload)], d1.ledger);
    assert Uploads(job, d1, d2);
    DroppedAndForgotten(job, r, m, d2);
  }

  lemma DroppedAndForgotten(job: Job, r: Record, m: Remote, d: Durable)
    requires Ready(job, Durable(m, map[])) && job.IsUpload() && job.housed
    requires r == FirstRecord(job) && d == Durable(m[job.stage := File(job.payload)], map[job.id := r])
    ensures Recovers(d, Durable(m, map[]))
  {
    hide Deleted, Job.Changeable, Apart, Mutable, PendingRun;
    var gone := Durable(m, d.ledger);
    NothingElse(m, job.stage, job.payload);
    GroundedSees(job, m);
    assert ClearsStage(r, d, gone);
    assert Forgets(r, gone, Durable(m, map[]));
    TwoSteps(d.ledger, job.id, d, gone, Durable(m, map[]));
  }

  lemma TwoSteps(records: Journal, stem: string, a: Durable, b: Durable, c: Durable)
    requires stem in records && records[stem].id == stem && records == a.ledger
    requires SafeStep(records[stem], a, b) && SafeStep(records[stem], b, c)
    ensures Recovers(a, c)
  {
    hide SafeStep;
    var t := [a, b, c];
    assert PendingStep(records, t[0], t[1]) && PendingStep(records, t[1], t[2]);
  }

  lemma Then(run: seq<State>, e: Event, s': State) returns (run': seq<State>)
    requires Reachable(run) && Step(run[|run| - 1], e, s')
    ensures Reachable(run') && run < run' && run'[|run'| - 1] == s'
  {
    RunExtends(run, e, s');
    run' := run + [s'];
  }

  lemma NothingHappens(d: Durable)
    ensures Recovers(d, d)
  {
    var t := [d];
    assert PendingRun(d.ledger, 0, t);
  }

  /** The same state with one more request. */
  function Joined(s: State, r: Request, held: nat): State {
    s.(requests := s.requests + [r], held := held)
  }

  lemma LastMoves(s: State, r: Request, held: nat, phase: Phase)
    ensures var n := |s.requests|;
      && Moved(Joined(s, r, held), n, phase).requests == s.requests + [r.(phase := phase)]
      && Joined(s, r, held).requests[n] == r
  {
  }

  /** One more request, admitted to change the store. */
  lemma AWriterEnters(run0: seq<State>) returns (run: seq<State>)
    requires run0 != [] && Reachable(run0)
    requires var s := run0[|run0| - 1];
      s.serving && s.held == 0 && s.store.ledger == map[] && s.pending == None && s.view == s.store.remote
    ensures Reachable(run) && run0 < run
    ensures run[|run| - 1] == Joined(run0[|run0| - 1], Request(false, Mutating), EXCLUSIVE)
  {
    hide Recovers, Reachable;
    var s, r := run0[|run0| - 1], Request(false, Waiting);
    var n := |s.requests|;
    run := Then(run0, Arrive(false), Joined(s, r, 0));
    LastMoves(s, r, 0, Admitted);
    run := Then(run, Acquire(n), Joined(s, r.(phase := Admitted), EXCLUSIVE));
    NothingHappens(s.store);
    LastMoves(s, r.(phase := Admitted), EXCLUSIVE, Mutating);
    run := Then(run, Recover(n, s.store, true), Joined(s, r.(phase := Mutating), EXCLUSIVE));
  }

  /** It carries out a replacement, or part of one. */
  lemma TheWriterWorks(run0: seq<State>, i: nat, job: Job, t: seq<Durable>) returns (run: seq<State>)
    requires run0 != [] && Reachable(run0)
    requires var s := run0[|run0| - 1];
      && At(s, i, false, Mutating) && s.pending == None && t != [] && t[0] == s.store
      && forall c :: c in s.copies ==> c.name != job.backup && (job.IsUpload() ==> c.name != job.stage)
    requires Ready(job, t[0]) && Named(job) && ValidId(job.id) && Run(job, 0, t)
    ensures Reachable(run) && run0 < run
    ensures var s := run0[|run0| - 1];
      run[|run| - 1] == s.(store := t[|t| - 1], pending := Some(job), copies := Invalidated(s, job))
  {
    hide Ready, Named, ValidId, Next, Reachable;
    var s := run0[|run0| - 1];
    s := s.(pending := Some(job), copies := Invalidated(s, job));
    run := Then(run0, Begin(i, job), s);
    for k := 0 to |t| - 1
      invariant Reachable(run) && run0 < run && run[|run| - 1] == s && s.store == t[k]
      invariant s ==
        run0[|run0| - 1].(store := t[k], pending := Some(job), copies := Invalidated(run0[|run0| - 1], job))
    {
      s := s.(store := t[k + 1]);
      run := Then(run, Work(i, t[k + 1]), s);
    }
  }

  lemma TheWriterIsCutShort(job: Job, m: Remote, t: seq<Durable>) returns (run: seq<State>)
    requires Ready(job, Durable(m, map[])) && Named(job) && ValidId(job.id)
    requires t != [] && t[0] == Durable(m, map[]) && Run(job, 0, t) && t[|t| - 1].ledger != map[]
    ensures Reachable(run) && run != [] && run[0].view == m
    ensures run[|run| - 1] == State(t[|t| - 1], [Request(false, Done)], 0, true, Some(job), {}, m)
  {
    hide Ready, Named, ValidId, Run;
    run := AWriterEnters([State(Durable(m, map[]), [], 0, true, None, {}, m)]);
    run := TheWriterWorks(run, 0, job, t);
    hide Reachable;
    run := Then(run, Leave(0), State(t[|t| - 1], [Request(false, Done)], 0, true, Some(job), {}, m));
  }

  /** A reader comes, caches what it finds under this name, and goes. */
  lemma AReaderPublishes(run0: seq<State>, c: Copy) returns (run: seq<State>)
    requires run0 != [] && Reachable(run0)
    requires var s := run0[|run0| - 1]; s.serving && s.held == 0 && Exact(s.store.remote, c)
    ensures Reachable(run) && run0 < run
    ensures var s := run0[|run0| - 1];
      run[|run| - 1] == Joined(s, Request(true, Done), 0).(copies := s.copies + {c})
  {
    hide Reachable;
    var s, r := run0[|run0| - 1], Request(true, Waiting);
    var n := |s.requests|;
    run := Then(run0, Arrive(true), Joined(s, r, 0));
    LastMoves(s, r, 0, Admitted);
    r := r.(phase := Admitted);
    run := Then(run, Acquire(n), Joined(s, r, 1));
    LastMoves(s, r, 1, Reading(None));
    r := r.(phase := Reading(None));
    run := Then(run, Admit(n), Joined(s, r, 1));
    LastMoves(s, r, 1, Reading(Some(c)));
    r := r.(phase := Reading(Some(c)));
    run := Then(run, Fetch(n, c.name), Joined(s, r, 1));
    run := Then(run, Publish(n), Joined(s, r, 1).(copies := s.copies + {c}));
    LastMoves(s.(copies := s.copies + {c}), r, 1, Done);
    run := Then(run, Leave(n), Joined(s, r.(phase := Done), 0).(copies := s.copies + {c}));
  }

  lemma TargetIsThere(job: Job, m: Remote, data: Bytes)
    requires Ready(job, Durable(m, map[])) && job.original == Some(File(data))
    ensures Exact(m, Copy(job.dest, data)) && job.dest != job.backup && (job.IsUpload() ==> job.dest != job.stage)
  {
  }

  /** Readers share the gateway: up to a million of them may read at once. */
  lemma {:induction false} ReadersShare(m: Remote, n: nat) returns (run: seq<State>)
    requires n <= 1_048_576
    ensures Reachable(run) && run != [] && run[0].view == m
    ensures var s := run[|run| - 1];
      s == State(Durable(m, map[]), seq(n, _ => Request(true, Reading(None))), n, true, None, {}, m)
    decreases n
  {
    if n == 0 {
      run := [State(Durable(m, map[]), [], 0, true, None, {}, m)];
    } else {
      run := ReadersShare(m, n - 1);
      hide Reachable;
      var s, r := run[|run| - 1], Request(true, Waiting);
      run := Then(run, Arrive(true), Joined(s, r, n - 1));
      LastMoves(s, r, n - 1, Admitted);
      run := Then(run, Acquire(n - 1), Joined(s, r.(phase := Admitted), n));
      LastMoves(s, r.(phase := Admitted), n, Reading(None));
      run := Then(run, Admit(n - 1), Joined(s, r.(phase := Reading(None)), n));
      assert s.requests + [r.(phase := Reading(None))] == seq(n, _ => Request(true, Reading(None)));
    }
  }

  /** A replacement can always be seen through while its target is in the file cache, and
      then no copy of what was there before is left: for every upload and every move onto
      an existing file there is a run in which a reader caches the old bytes, a later
      request begins the replacement and completes it, and the new bytes are stored. */
  lemma ReplacedUnderACopy(job: Job, m: Remote, data: Bytes) returns (run: seq<State>, cached: nat, begun: nat)
    requires Completable(job, Durable(m, map[])) && Named(job) && ValidId(job.id) && job.original == Some(File(data))
    ensures Reachable(run) && cached < begun < |run| && run[0].view == m
    ensures run[cached].copies == {Copy(job.dest, data)} && run[cached].store == Durable(m, map[])
    ensures run[begun].pending == Some(job)
    ensures var s := run[|run| - 1];
      && s.store == Durable(Replaced(job, m), map[]) && s.serving && s.pending == None && s.view == s.store.remote
      && Lookup(s.store.remote, job.dest) == job.New() && s.copies == {}
  {
    hide Ready, Named, ValidId, Run;
    var t := CompleteRun(job, Durable(m, map[]));
    var c := Copy(job.dest, data);
    TargetIsThere(job, m, data);
    run := AReaderPublishes([State(Durable(m, map[]), [], 0, true, None, {}, m)], c);
    cached := |run| - 1;
    run := AWriterEnters(run);
    hide Reachable;
    run := TheWriterWorks(run, 1, job, t);
    begun := |run| - 1;
    var s := run[begun];
    run := Then(run, Settle(1), s.(pending := None, view := s.store.remote));
  }

  /** Every move of a file to a directory that is not there can end that way, without
      anything going wrong. */
  lemma MovesGetJammed(job: Job, m: Remote) returns (run: seq<State>)
    requires Ready(job, Durable(m, map[])) && Named(job) && ValidId(job.id)
    requires !job.IsUpload() && !job.housed && job.original == None
    ensures Reachable(run) && run != [] && run[0].view == m
    ensures var s := run[|run| - 1]; Jammed(s) && !Busy(s) && s.store.remote == Replaced(job, m)
  {
    hide Ready, Named, ValidId, Next, Reachable, Stuck, Replaced;
    var t := StuckRun(job, Durable(m, map[]));
    run := TheWriterIsCutShort(job, m, t);
  }

  /** What a reader cached while a replacement was pending is still there once the next
      start of the gateway has undone it. */
  lemma CopySurvives(job: Job, m: Remote, d1: Durable, d2: Durable, c: Copy) returns (run: seq<State>)
    requires Ready(job, Durable(m, map[])) && Named(job) && ValidId(job.id)
    requires Next(job, Durable(m, map[]), d1) && Next(job, d1, d2) && d2.ledger != map[]
    requires Recovers(d2, Durable(m, map[])) && Exact(d2.remote, c)
    ensures Reachable(run) && run != [] && run[0].view == m && run[|run| - 1].store == Durable(m, map[])
    ensures run[|run| - 1].serving && run[|run| - 1].copies == {c}
  {
    hide Ready, Named, ValidId, Next, Reachable, Recovers, Inv, Job.WellFormed, Grounded;
    run := TheWriterIsCutShort(job, m, [Durable(m, map[]), d1, d2]);
    run := AReaderPublishes(run, c);
    var s := run[|run| - 1];
    s := s.(requests := [], held := 0, serving := false);
    run := Then(run, Crash, s);
    s := s.(store := Durable(m, map[]), serving := true, pending := None, view := m);
    run := Then(run, Restart(Durable(m, map[]), true), s);
  }

  /** So does a copy of the backup, for every move onto an existing file. */
  lemma BackupCopySurvives(job: Job, m: Remote) returns (run: seq<State>)
    requires Ready(job, Durable(m, map[])) && Named(job) && ValidId(job.id) && !job.IsUpload()
    requires job.Known().Some? && job.original.value.File?
    ensures Reachable(run) && run != [] && run[0].view == m && run[|run| - 1].store == Durable(m, map[])
    ensures run[|run| - 1].serving && job.backup !in m
    ensures run[|run| - 1].copies == {Copy(job.backup, job.original.value.data)}
  {
    hide Named, ValidId, Next, Reachable, Recovers, Inv, Job.WellFormed, Grounded;
    var d1, d2 := AsideAndBack(job, m);
    run := CopySurvives(job, m, d1, d2, Copy(job.backup, job.original.value.data));
  }

  /** And of the staged file, for every upload. */
  lemma StageCopySurvives(job: Job, m: Remote) returns (run: seq<State>)
    requires Ready(job, Durable(m, map[])) && Named(job) && ValidId(job.id) && job.IsUpload() && job.housed
    ensures Reachable(run) && run != [] && run[0].view == m && run[|run| - 1].store == Durable(m, map[])
    ensures run[|run| - 1].serving && job.stage !in m
    ensures run[|run| - 1].copies == {Copy(job.stage, job.payload)}
  {
    hide Named, ValidId, Next, Reachable, Recovers, Inv, Job.WellFormed, Grounded;
    var d1, d2 := StagedAndDropped(job, m);
    run := CopySurvives(job, m, d1, d2, Copy(job.stage, job.payload));
  }

  /** A store with nothing in it but one directory. */
  function Around(dest: Path): Remote {
    if Parent(dest) == [] then map[] else map[Parent(dest) := Directory(false)]
  }

  predicate Beside(a: Path, b: Path) {
    a != [] && b != [] && a != b && |a| == |b| && Parent(a) == Parent(b) && Mutable(a) && Mutable(b)
  }

  lemma UploadIsReady(job: Job)
    requires Beside(job.dest, job.stage) && Beside(job.dest, job.backup) && Beside(job.stage, job.backup)
    requires job.source == [] && job.original == None && job.housed
    ensures Ready(job, Durable(Around(job.dest), map[]))
  {
    hide Mutable;
    assert Listable(Around(job.dest), Parent(job.dest));
  }

  lemma MoveIsReady(job: Job, m: Remote)
    requires Beside(job.dest, job.stage) && Beside(job.dest, job.backup) && Beside(job.stage, job.backup)
    requires job.source == job.stage && job.original == Some(File(job.payload)) && job.housed
    requires m == Around(job.dest)[job.dest := File(job.payload)][job.source := File(job.payload)]
    ensures Ready(job, Durable(m, map[]))
  {
    hide Mutable;
    assert Listable(m, Parent(job.dest));
  }

  lemma RecoveryNameBeside(kind: string, id: string, dest: Path) returns (name: Path)
    requires ValidId(id) && kind in {UPLOAD, BACKUP} && dest != [] && Mutable(dest)
    requires var last := dest[|dest| - 1]; last != "" && last[0] == 'x'
    ensures name == RecoveryName(kind, id, dest) && Beside(dest, name)
    ensures name[|name| - 1] != "" && name[|name| - 1][0] == '.'
  {
    hide RecoveryBase, ValidId;
    name := RecoveryName(kind, id, dest);
    RecoveryNameChangeable(kind, id, dest, map[]);
    var last := dest[|dest| - 1];
    assert last in dest;
    RecoveryBaseEnds(kind, id, last);
    assert name[|name| - 1] == RecoveryBase(kind, id, last);
  }

  lemma RecoveryNamesDiffer(id: string, dest: Path)
    requires dest != []
    ensures RecoveryName(UPLOAD, id, dest) != RecoveryName(BACKUP, id, dest)
  {
    BasesDiffer(id, dest[|dest| - 1]);
    assert RecoveryName(UPLOAD, id, dest)[|dest| - 1] != RecoveryName(BACKUP, id, dest)[|dest| - 1];
  }

  lemma SomeUpload(id: string, dest: Path) returns (run: seq<State>, c: Copy)
    requires ValidId(id) && dest != [] && Mutable(dest)
    requires var last := dest[|dest| - 1]; last != "" && last[0] == 'x'
    ensures run != [] && c.name == RecoveryName(UPLOAD, id, dest) && StaleAtEnd(run, c)
  {
    hide RecoveryName, Mutable, ValidId, Ready, Reachable;
    var stage := RecoveryNameBeside(UPLOAD, id, dest);
    var backup := RecoveryNameBeside(BACKUP, id, dest);
    RecoveryNamesDiffer(id, dest);
    var job := Job(id, [], dest, stage, backup, None, [], true);
    UploadIsReady(job);
    run := StageCopySurvives(job, Around(dest));
    c := Copy(stage, []);
  }

  lemma SomeSibling(dest: Path, backup: Path) returns (source: Path)
    requires Beside(dest, backup) && dest[|dest| - 1] != "" && dest[|dest| - 1][0] == 'x'
    requires backup[|backup| - 1] != "" && backup[|backup| - 1][0] == '.'
    ensures Beside(dest, source) && Beside(source, backup)
  {
    source := Parent(dest) + ["y"];
    assert source[|dest| - 1] == "y";
    assert forall d :: d in Parent(dest) ==> d in dest;
  }

  lemma SomeMove(id: string, dest: Path) returns (run: seq<State>, c: Copy)
    requires ValidId(id) && dest != [] && Mutable(dest)
    requires var last := dest[|dest| - 1]; last != "" && last[0] == 'x'
    ensures run != [] && c.name == RecoveryName(BACKUP, id, dest) && StaleAtEnd(run, c)
  {
    var backup := RecoveryNameBeside(BACKUP, id, dest);
    var source := SomeSibling(dest, backup);
    var job := Job(id, source, dest, source, backup, Some(File([])), [], true);
    var m := Around(dest)[dest := File([])][source := File([])];
    hide RecoveryName, Mutable, ValidId, Ready, Reachable, Parent;
    MoveIsReady(job, m);
    run := BackupCopySurvives(job, m);
    c := Copy(backup, []);
  }

  /** In some run a copy of this name is kept although it is not what is stored. */
  ghost predicate MayGoStale(name: Path) {
    exists run: seq<State>, c: Copy :: run != [] && c.name == name && StaleAtEnd(run, c)
  }

  ghost predicate StaleAtEnd(run: seq<State>, c: Copy)
    requires run != []
  {
    Reachable(run) && c in run[|run| - 1].copies && !Exact(run[|run| - 1].store.remote, c)
  }

  lemma InternalGoesStale(name: Path)
    requires Internal(name)
    ensures MayGoStale(name)
  {
    hide ValidId, Mutable, RecoveryName, Ext, StaleAtEnd;
    var kind, id, dest: Path :| kind in {UPLOAD, BACKUP} && ValidId(id) && dest != [] && Mutable(dest)
      && name == RecoveryName(kind, id, dest);
    PlainSharesNames(kind, id, dest);
    PlainMutable(dest);
    var run: seq<State>, c: Copy;
    if kind == BACKUP {
      run, c := SomeMove(id, Plain(dest));
    } else {
      run, c := SomeUpload(id, Plain(dest));
    }
    assert StaleAtEnd(run, c);
  }

  /** The exception is exact: the names whose copies may go stale are the recovery names. */
  lemma StaleIffInternal(name: Path)
    ensures MayGoStale(name) <==> Internal(name)
  {
    hide Internal, Reachable, Exact, Absent;
    if MayGoStale(name) {
      var run: seq<State>, c: Copy :| run != [] && c.name == name && StaleAtEnd(run, c);
      CopiesAreCurrent(run, |run| - 1, c);
    }
    if Internal(name) { InternalGoesStale(name); }
  }
}
