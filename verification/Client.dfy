/** The EVS client: remote calls under injected faults, the journal, and the
    methods that replace and recover (internal/evs/client.go, journal.go,
    upload.go, move.go). */
module Client {
  import opened Paths
  import opened Store
  import opened Record
  import opened Protocol
  import opened Recovery
  import opened Pending

  /** What can go wrong with one call: it is not performed, or it is performed but
      its reply is lost, or the process dies on either side of it; a staging
      transfer may also store something else than it was given. */
  datatype Fault = NoFault | NotDone | LostReply | CrashBefore | CrashAfter | Garbled(data: Bytes, replied: bool)

  datatype Error =
    | NotFound | Exists | IsDirectory | ReadOnly | UnsupportedPath | TooLarge | Invalid
    | Transport | Mismatch | Uncertain | LocalFile

  datatype Status = Ok | Fail(error: Error) | Crash {
    predicate IsFailure() { !Ok? }
    function PropagateFailure(): Status
      requires IsFailure()
    {
      this
    }
  }

  function FaultCount(faults: seq<Fault>): nat {
    if faults == [] then 0 else (if faults[0].NoFault? then 0 else 1) + FaultCount(faults[1..])
  }

  lemma {:induction false} FaultsBound(faults: seq<Fault>)
    ensures FaultCount(faults) <= |faults|
  {
    if faults == [] {
    } else {
      FaultsBound(faults[1..]);
    }
  }

  lemma PutBackKeepsSource(r: Record, m: Remote)
    requires Shaped(r)
    ensures r.PayloadAt(m, r.source) && r.backup in m && m[r.backup].File? && r.dest !in m ==>
      r.PayloadAt(Renamed(m, r.backup, r.dest), r.source)
  {
  }

  lemma NoneStuckWhenEmpty(jobs: map<string, Job>, d: Durable)
    ensures d.ledger == map[] ==> !SomeStuck(jobs, d)
  {
  }

  /** The two differ at most by a file under this name. */
  predicate OnlyAt(name: Path, m: Remote, m': Remote) {
    name in m' && m'[name].File? && m' == m[name := m'[name]]
  }

  /** The local file handed to an upload. */
  datatype Local = Missing | LocalDirectory | Regular(data: Bytes)

  class Client {
    const journaled: bool
    var remote: Remote
    var journal: map<string, Record>
    var faults: seq<Fault>

    /** The record each save leaves behind, whether or not a journal keeps it. */
    ghost var ledger: map<string, Record>
    /** Every durable state there has been, the present one last. */
    ghost var trace: seq<Durable>

    ghost predicate Valid()
      reads this`remote, this`journal, this`ledger, this`trace
    {
      && trace != [] && trace[|trace| - 1] == Durable(remote, ledger)
      && (if journaled then journal == ledger else journal == map[])
    }

    ghost function Now(): Durable
      reads this`remote, this`ledger
    {
      Durable(remote, ledger)
    }

    /** How many more calls are going to go wrong. */
    ghost function Budget(): nat
      reads this`faults
    {
      FaultCount(faults)
    }

    constructor (journaled: bool, remote: Remote, journal: map<string, Record>, faults: seq<Fault>)
      requires !journaled ==> journal == map[]
      ensures Valid() && this.journaled == journaled && this.remote == remote && this.journal == journal
      ensures this.faults == faults && ledger == journal && trace == [Now()]
    {
      this.journaled, this.remote, this.journal, this.faults := journaled, remote, journal, faults;
      ledger, trace := journal, [Durable(remote, journal)];
    }

    // ---------------------------------------------------------------- calls

    method Step() returns (f: Fault)
      modifies this`faults
      ensures f.NoFault? ==> Budget() == old(Budget())
      ensures !f.NoFault? ==> Budget() == old(Budget()) - 1
    {
      if faults == [] {
        f := NoFault;
      } else {
        f, faults := faults[0], faults[1..];
      }
    }

    /** A call that changes nothing remotely. */
    method Query() returns (s: Status)
      modifies this`faults
      ensures s.Ok? ==> Budget() == old(Budget())
      ensures !s.Ok? ==> Budget() < old(Budget()) && s != Fail(NotFound)
    {
      var f := Step();
      match f
      case NoFault => s := Ok;
      case CrashBefore => s := Crash;
      case CrashAfter => s := Crash;
      case _ => s := Fail(Transport);
    }

    /** Finds a name in a fresh listing of its directory. The service answers that there
        is no such path where the directory is not there, and that reads as not found. */
    method StatFresh(name: Path) returns (s: Status, node: Option<Entry>)
      modifies this`faults
      ensures Budget() <= old(Budget())
      ensures name == [] ==> s == Ok && node == Some(Directory(false))
      ensures name != [] ==>
        && (s.Ok? ==> node.Some? && Seen(remote, name) == node)
        && (s == Fail(NotFound) ==> Seen(remote, name) == None)
        && (!s.Ok? && s != Fail(NotFound) ==> Budget() < old(Budget()))
    {
      if name == [] {
        return Ok, Some(Directory(false));
      }
      s := Query();
      if !s.Ok? {
        return s, None;
      }
      if !Listable(remote, Parent(name)) || name !in remote {
        return Fail(NotFound), None;
      }
      node := Some(remote[name]);
    }

    method Download(name: Path) returns (s: Status, data: Bytes)
      modifies this`faults
      ensures Budget() <= old(Budget())
      ensures s.Ok? ==> Lookup(remote, name) == Some(File(data))
      ensures s.Crash? ==> Budget() < old(Budget())
      ensures !s.Ok? && Budget() == old(Budget()) ==>
        name !in remote || !remote[name].File?
    {
      s := Query();
      if !s.Ok? {
        return s, [];
      }
      if name !in remote || !remote[name].File? {
        return Fail(NotFound), [];
      }
      data := remote[name].data;
    }

    /** Size from a fresh listing, then the bytes themselves. */
    method VerifyUpload(name: Path, size: int, expected: Option<Digest>) returns (s: Status)
      requires name != []
      modifies this`faults
      ensures Budget() <= old(Budget())
      ensures s.Ok? ==> expected.Some? && Matches(remote, name, size, expected.value)
      ensures !s.Ok? && Budget() == old(Budget()) ==>
        !(expected.Some? && Matches(remote, name, size, expected.value))
      ensures s.Crash? ==> Budget() < old(Budget())
    {
      var node, data;
      s, node := StatFresh(name);
      if !s.Ok? { return; }
      if node.value.Directory? || |node.value.data| != size {
        return Fail(Mismatch);
      }
      s, data := Download(name);
      if !s.Ok? { return; }
      if |data| != size || Some(Sha256(data)) != expected {
        return Fail(Mismatch);
      }
    }

    method RemoteSha256(name: Path, size: int) returns (s: Status, digest: Option<Digest>)
      modifies this`faults
      ensures Budget() <= old(Budget())
      ensures s.Ok? ==> digest.Some? && StoresFile(remote, name, size, digest.value)
      ensures !s.Ok? && Budget() == old(Budget()) ==>
        name !in remote || !remote[name].File? || |remote[name].data| != size
    {
      var data;
      s, data := Download(name);
      if !s.Ok? { return s, None; }
      if |data| != size {
        return Fail(Mismatch), None;
      }
      digest := Some(Sha256(data));
    }

    method RequireWritable(name: Path) returns (s: Status)
      modifies this`faults
      ensures Budget() <= old(Budget())
      ensures s.Ok? ==> Writable(remote, name)
      ensures s.Crash? ==> Budget() < old(Budget())
      ensures !s.Ok? && Budget() == old(Budget()) ==> !Writable(remote, name) && s == Fail(ReadOnly)
    {
      if !IsReadOnlyPath(name) {
        return Ok;
      }
      s := Query();
      if s.Ok? && Lookup(remote, [name[0]]) == Some(Directory(true)) {
        s := Fail(ReadOnly);
      }
    }

    method ProtectDeviceRoot(name: Path) returns (s: Status)
      modifies this`faults
      ensures Budget() <= old(Budget())
      ensures s.Ok? ==> Unprotected(remote, name)
      ensures s.Crash? ==> Budget() < old(Budget())
      ensures !s.Ok? && Budget() == old(Budget()) ==>
        !Unprotected(remote, name) && s == Fail(if name == [] || name in remote then ReadOnly else NotFound)
    {
      if name == [] {
        return Fail(ReadOnly);
      }
      if Parent(name) != [] {
        return Ok;
      }
      var node;
      s, node := StatFresh(name);
      if s.Ok? && node == Some(Directory(true)) {
        s := Fail(ReadOnly);
      }
    }

    /** Everything a rename checks before it is sent. */
    method ApproveRename(from: Path, to: Path) returns (s: Status)
      requires from != to
      modifies this`faults
      ensures Budget() <= old(Budget())
      ensures s.Ok? ==> MayRename(remote, from, to)
      ensures s.Crash? ==> Budget() < old(Budget())
      ensures !s.Ok? && Budget() == old(Budget()) ==> !CanRename(remote, from, to)
      ensures !s.Ok? && Budget() == old(Budget()) ==> s == Fail(
        if !Mutable(from) || !Mutable(to) then UnsupportedPath
        else if from == [] || to == [] then Invalid
        else if !Writable(remote, from) || !Writable(remote, to) then ReadOnly
        else if |from| == 1 && from !in remote then NotFound
        else if |from| == 1 && remote[from] == Directory(true) then ReadOnly
        else Exists)
      ensures s == Fail(Exists) && Budget() == old(Budget()) ==> to in remote
    {
      if !Mutable(from) || !Mutable(to) {
        return Fail(UnsupportedPath);
      }
      if from == [] || to == [] {
        return Fail(Invalid);
      }
      :- RequireWritable(from);
      :- RequireWritable(to);
      :- ProtectDeviceRoot(from);
      var node;
      s, node := StatFresh(to);
      if s.Ok? {
        return Fail(Exists);
      }
      if s == Fail(NotFound) {
        s := Ok;
      }
    }

    /** The server moves what is there to a name nothing has, and the reply may be
        lost afterwards. */
    method SendRename(from: Path, to: Path) returns (s: Status)
      requires Valid()
      modifies this`faults, this`remote, this`trace
      ensures Valid() && Budget() <= old(Budget())
      ensures
        || (remote == old(remote) && trace == old(trace))
        || (&& from in old(remote) && to !in old(remote) && remote == Renamed(old(remote), from, to)
            && trace == old(trace) + [Now()])
      ensures s.Ok? ==> trace != old(trace)
      ensures s.Crash? ==> Budget() < old(Budget())
      ensures !s.Ok? && (trace != old(trace) || (from in old(remote) && to !in old(remote))) ==>
        Budget() < old(Budget())
      ensures !s.Ok? && Budget() == old(Budget()) ==> s == Fail(if to in old(remote) then Exists else NotFound)
    {
      var f := Step();
      if f.CrashBefore? {
        return Crash;
      }
      if f.NotDone? || f.Garbled? {
        return Fail(Transport);
      }
      var refusal := if to in remote then Fail(Exists) else if from !in remote then Fail(NotFound) else Ok;
      if refusal.Ok? {
        remote := Renamed(remote, from, to);
        trace := trace + [Durable(remote, ledger)];
      }
      s := if f.CrashAfter? then Crash else if f.LostReply? then Fail(Transport) else refusal;
    }

    /** A non-overwriting rename: performed whole, or not at all. */
    method Rename(from: Path, to: Path) returns (s: Status)
      requires Valid()
      modifies this`faults, this`remote, this`trace
      ensures Valid() && Budget() <= old(Budget())
      ensures
        || (remote == old(remote) && trace == old(trace))
        || (&& CanRename(old(remote), from, to)
            && remote == Renamed(old(remote), from, to)
            && trace == old(trace) + [Now()])
      ensures from != to ==>
        && (s.Ok? ==> trace != old(trace))
        && (s.Crash? ==> Budget() < old(Budget()))
        && (!s.Ok? && trace != old(trace) ==> Budget() < old(Budget()))
        && (!s.Ok? && Budget() == old(Budget()) ==> !CanRename(old(remote), from, to))
        && (OffLimits(old(remote), from) || OffLimits(old(remote), to) ==> !s.Ok?)
        && (!s.Ok? && Budget() == old(Budget()) ==> s == Fail(
              if !Mutable(from) || !Mutable(to) then UnsupportedPath
              else if from == [] || to == [] then Invalid
              else if OffLimits(old(remote), from) || (OffLimits(old(remote), to) && |to| > 1) then ReadOnly
              else if |from| == 1 && from !in old(remote) then NotFound
              else if to in old(remote) then Exists else NotFound))
      ensures Spared(old(remote), remote)
    {
      if CanRename(remote, from, to) { RenamingSpares(remote, from, to); }
      if from == to {
        return if Mutable(from) then Ok else Fail(UnsupportedPath);
      }
      :- ApproveRename(from, to);
      s := SendRename(from, to);
    }

    method ApproveDelete(name: Path) returns (s: Status)
      modifies this`faults
      ensures Budget() <= old(Budget())
      ensures s.Ok? ==> CanDelete(remote, name)
      ensures s.Crash? ==> Budget() < old(Budget())
      ensures !s.Ok? && Budget() == old(Budget()) ==> !CanDelete(remote, name) && s == Fail(
        if !Mutable(name) then UnsupportedPath else if name == [] then Invalid
        else if OffLimits(remote, name) then ReadOnly else NotFound)
    {
      if !Mutable(name) {
        return Fail(UnsupportedPath);
      }
      if name == [] {
        return Fail(Invalid);
      }
      :- RequireWritable(name);
      s := ProtectDeviceRoot(name);
    }

    method SendDelete(name: Path) returns (s: Status)
      requires Valid()
      modifies this`faults, this`remote, this`trace
      ensures Valid()
      ensures
        || (remote == old(remote) && trace == old(trace))
        || (remote == Deleted(old(remote), name) && trace == old(trace) + [Now()])
      ensures s.Ok? ==> trace != old(trace) && Budget() == old(Budget())
      ensures !s.Ok? ==> Budget() < old(Budget())
    {
      var f := Step();
      if f.CrashBefore? {
        return Crash;
      }
      if f.NotDone? || f.Garbled? {
        return Fail(Transport);
      }
      remote := Deleted(remote, name);
      trace := trace + [Durable(remote, ledger)];
      s := if f.CrashAfter? then Crash else if f.LostReply? then Fail(Transport) else Ok;
    }

    method Delete(name: Path) returns (s: Status)
      requires Valid()
      modifies this`faults, this`remote, this`trace
      ensures Valid() && Budget() <= old(Budget())
      ensures
        || (remote == old(remote) && trace == old(trace))
        || (&& CanDelete(old(remote), name)
            && remote == Deleted(old(remote), name)
            && trace == old(trace) + [Now()])
      ensures s.Ok? ==> trace != old(trace)
      ensures s.Crash? || (!s.Ok? && trace != old(trace)) ==> Budget() < old(Budget())
      ensures !s.Ok? && Budget() == old(Budget()) ==> !CanDelete(old(remote), name)
      ensures !s.Ok? && Budget() == old(Budget()) ==> s == Fail(
        if !Mutable(name) then UnsupportedPath else if name == [] then Invalid
        else if OffLimits(old(remote), name) then ReadOnly else NotFound)
      ensures Spared(old(remote), remote) && (OffLimits(old(remote), name) ==> !s.Ok?)
    {
      if CanDelete(remote, name) { DeletingSpares(remote, name); }
      s := ApproveDelete(name);
      if !s.Ok? { return; }
      s := SendDelete(name);
    }

    /** A staging transfer may store anything, or nothing, under the given name. */
    method SendUpload(name: Path, payload: Bytes) returns (s: Status)
      requires Valid()
      modifies this`faults, this`remote, this`trace
      ensures Valid() && Budget() <= old(Budget())
      ensures
        || (remote == old(remote) && trace == old(trace))
        || (&& name in remote && remote[name].File? && remote == old(remote)[name := remote[name]]
            && trace == old(trace) + [Now()])
      ensures !s.Ok? ==> Budget() < old(Budget())
      ensures s.Ok? && Budget() == old(Budget()) ==> Lookup(remote, name) == Some(File(payload))
    {
      var f := Step();
      if f.CrashBefore? {
        return Crash;
      }
      if f.NotDone? {
        return Fail(Transport);
      }
      remote := remote[name := File(if f.Garbled? then f.data else payload)];
      trace := trace + [Durable(remote, ledger)];
      s := if f.CrashAfter? then Crash
           else if f.LostReply? || (f.Garbled? && !f.replied) then Fail(Transport) else Ok;
    }

    // -------------------------------------------------------------- journal

    method SaveUpload(r: Record) returns (s: Status)
      requires Valid()
      modifies this`faults, this`journal, this`ledger, this`trace
      ensures Valid() && Budget() <= old(Budget())
      ensures
        || (ledger == old(ledger) && trace == old(trace))
        || (ledger == old(ledger)[r.id := r] && trace == old(trace) + [Now()])
      ensures s.Ok? ==> r.id in ledger && ledger[r.id] == r && trace != old(trace)
      ensures !s.Ok? ==> Budget() < old(Budget())
    {
      if !journaled {
        ledger := ledger[r.id := r];
        trace := trace + [Durable(remote, ledger)];
        return Ok;
      }
      var f := Step();
      if f.CrashBefore? {
        return Crash;
      }
      if f.NotDone? || f.Garbled? {
        return Fail(LocalFile);
      }
      journal := journal[r.id := r];
      ledger := journal;
      trace := trace + [Durable(remote, ledger)];
      s := if f.CrashAfter? then Crash else if f.LostReply? then Fail(LocalFile) else Ok;
    }

    method ForgetUpload(r: Record) returns (s: Status)
      requires Valid()
      modifies this`faults, this`journal, this`ledger, this`trace
      ensures Valid() && Budget() <= old(Budget())
      ensures
        || (ledger == old(ledger) && trace == old(trace))
        || (ledger == old(ledger) - {r.id} && trace == old(trace) + [Now()])
      ensures s.Ok? ==> ledger == old(ledger) - {r.id}
      ensures !s.Ok? ==> Budget() < old(Budget())
    {
      if !journaled {
        ledger := ledger - {r.id};
        trace := trace + [Durable(remote, ledger)];
        return Ok;
      }
      var f := Step();
      if f.CrashBefore? {
        return Crash;
      }
      if f.NotDone? || f.Garbled? {
        return Fail(LocalFile);
      }
      journal := journal - {r.id};
      ledger := journal;
      trace := trace + [Durable(remote, ledger)];
      s := if f.CrashAfter? then Crash else if f.LostReply? then Fail(LocalFile) else Ok;
    }

    // ------------------------------------------------------------- recovery

    /** Deletes a recovery file only while it still has its recorded contents. */
    method RemoveKnown(name: Path, size: int, hash: Option<Digest>) returns (s: Status)
      requires Valid() && name != []
      modifies this`faults, this`remote, this`trace
      ensures Valid() && Budget() <= old(Budget())
      ensures
        || (remote == old(remote) && trace == old(trace) && (s.Ok? ==> Seen(remote, name) == None))
        || (&& hash.Some? && Matches(old(remote), name, size, hash.value) && CanDelete(old(remote), name)
            && remote == Deleted(old(remote), name) && trace == old(trace) + [Now()])
      ensures s.Ok? ==> Removable(old(remote), name, size, hash) && remote == Without(old(remote), name)
      ensures !s.Ok? && Budget() == old(Budget()) ==> !Removable(old(remote), name, size, hash)
      ensures Spared(old(remote), remote)
    {
      var node;
      s, node := StatFresh(name);
      if s == Fail(NotFound) {
        return Ok;
      }
      if !s.Ok? { return; }
      if hash.None? {
        return Fail(Invalid);
      }
      :- VerifyUpload(name, size, hash);
      s := Delete(name);
    }

    /** Every durable state since `from` was reached by safe recovery steps. */
    ghost predicate Safe(r: Record, from: nat)
      reads this`remote, this`journal, this`ledger, this`trace
    {
      Valid() && (r.id in ledger || r.committed) && from < |trace| && SafeRun(r, from, trace)
    }

    /** A call made while recovering continues the run of safe steps. */
    twostate predicate Continues(r: Record, from: nat)
      reads this
    {
      && Valid() && Budget() <= old(Budget())
      && from < |trace| && old(trace) <= trace && SafeRun(r, from, trace) && Spared(old(remote), remote)
    }

    ghost method Continue(r: Record, from: nat, before: seq<Durable>)
      requires before != [] && from < |before| && SafeRun(r, from, before)
      requires trace == before || (trace == before + [Now()] && SafeStep(r, before[|before| - 1], Now()))
      ensures from < |trace| && before <= trace && SafeRun(r, from, trace)
    {
      if trace != before { SafeRunExtends(r, from, before, Now()); }
    }

    method MarkCommitted(r: Record, ghost from: nat) returns (s: Status)
      requires Safe(r, from) && r.ready && WillCommit(r, remote)
      modifies this`faults, this`journal, this`ledger, this`trace
      ensures Continues(r, from) && (r.id in ledger || r.committed)
      ensures s.Ok? ==> RecordedCommitted(r, Now())
      ensures !s.Ok? ==> Budget() < old(Budget())
    {
      ghost var t := trace;
      s := SaveUpload(r.(committed := true));
      assert trace != t ==> Recommits(r, t[|t| - 1], Now());
      Continue(r, from, t);
    }

    method RetireBackup(r: Record, ghost from: nat) returns (s: Status)
      requires Safe(r, from) && r.id in ledger && r.ready && r.hadOriginal && r.backup != []
      requires (r.IsUpload() && r.stage <= r.dest) || Decided(r, Now())
      modifies this`faults, this`remote, this`trace
      ensures Continues(r, from)
      ensures s.Ok? ==> remote == Without(old(remote), r.backup)
      ensures s.Ok? ==> Removable(old(remote), r.backup, r.originalSize, r.originalHash)
      ensures !s.Ok? && Budget() == old(Budget()) ==> !Removable(old(remote), r.backup, r.originalSize, r.originalHash)
    {
      ghost var t := trace;
      s := RemoveKnown(r.backup, r.originalSize, r.originalHash);
      assert trace != t ==> ClearsBackup(r, t[|t| - 1], Now());
      Continue(r, from, t);
    }

    method RetireStage(r: Record, ghost from: nat) returns (s: Status)
      requires Safe(r, from) && r.id in ledger && r.ready && r.IsUpload() && Decided(r, Now()) && r.stage != []
      modifies this`faults, this`remote, this`trace
      ensures Continues(r, from)
      ensures s.Ok? ==> remote == Without(old(remote), r.stage) && Removable(old(remote), r.stage, r.size, r.hash)
      ensures !s.Ok? && Budget() == old(Budget()) ==> !Removable(old(remote), r.stage, r.size, r.hash)
    {
      ghost var t := trace;
      s := RemoveKnown(r.stage, r.size, r.hash);
      assert trace != t ==> ClearsStage(r, t[|t| - 1], Now());
      Continue(r, from, t);
    }

    method Forget(r: Record, ghost from: nat) returns (s: Status)
      requires Safe(r, from) && r.id in ledger && Cleared(r, remote) && (r.ready && Apart(r) ==> Decided(r, Now()))
      modifies this`faults, this`journal, this`ledger, this`trace
      ensures Continues(r, from)
      ensures s.Ok? ==> r.id !in ledger
      ensures !s.Ok? ==> Budget() < old(Budget())
    {
      ghost var t := trace;
      s := ForgetUpload(r);
      assert trace != t ==> Forgets(r, t[|t| - 1], Now());
      Continue(r, from, t);
    }

    method DeleteStage(r: Record, ghost from: nat) returns (s: Status)
      requires Safe(r, from) && r.id in ledger && !r.ready && r.IsUpload() && Seen(remote, r.stage).Some?
      modifies this`faults, this`remote, this`trace
      ensures Continues(r, from)
      ensures s.Ok? ==> r.stage !in remote && CanDelete(old(remote), r.stage)
      ensures !s.Ok? && Budget() == old(Budget()) ==> !CanDelete(old(remote), r.stage)
    {
      ghost var t := trace;
      s := Delete(r.stage);
      assert trace != t ==> ClearsStage(r, t[|t| - 1], Now());
      Continue(r, from, t);
    }

    /** Before the record is ready nothing but staging has been tried, so the staged
        file is all there is to undo. */
    method DiscardStage(r: Record, ghost from: nat) returns (s: Status)
      requires Safe(r, from) && r.id in ledger && !r.ready && r.IsUpload() && r.stage != []
      modifies this`faults, this`remote, this`journal, this`ledger, this`trace
      ensures Continues(r, from)
      ensures s.Ok? ==> r.id !in ledger && Seen(remote, r.stage) == None
      ensures s.Ok? ==> Seen(old(remote), r.stage).Some? ==> CanDelete(old(remote), r.stage)
      ensures !s.Ok? && Budget() == old(Budget()) ==>
        Seen(old(remote), r.stage).Some? && !CanDelete(old(remote), r.stage)
    {
      var node;
      s, node := StatFresh(r.stage);
      if s.Ok? {
        :- DeleteStage(r, from);
      } else if s != Fail(NotFound) {
        return;
      }
      s := Forget(r, from);
    }

    /** Once success is on record the destination is the user's again, and may have been
        edited since: only the two recovery names are still cleaned up. */
    method FinishCommitted(r: Record, ghost from: nat) returns (s: Status)
      requires Safe(r, from) && r.ready && WillCommit(r, remote)
      requires r.stage != [] && r.backup != []
      modifies this`faults, this`remote, this`journal, this`ledger, this`trace
      ensures Continues(r, from)
      ensures s.Ok? ==> r.id !in ledger && Cleared(r, remote) && Finishable(r, old(remote))
      ensures !s.Ok? && Budget() == old(Budget()) ==> !Finishable(r, old(remote))
    {
      hide SafeRun, Removable, WillCommit;
      s := MarkCommitted(r, from);
      if !s.Ok? { return; }
      if r.hadOriginal {
        :- RetireBackup(r, from);
      }
      if r.IsUpload() {
        :- RetireStage(r, from);
      }
      s := Forget(r, from);
    }

    /** Puts a preserved original back where nothing has taken its place. */
    method PutBack(r: Record, ghost from: nat) returns (s: Status)
      requires Safe(r, from) && r.id in ledger && r.ready && !r.committed && r.hadOriginal
      requires Seen(remote, r.dest) == None
      requires (!r.IsUpload() ==> r.PayloadAt(remote, r.source)) && r.backup != []
      modifies this`faults, this`remote, this`trace
      ensures Continues(r, from)
      ensures s.Ok? ==>
        && r.backup in old(remote) && CanPutBack(r, old(remote)) && r.dest !in old(remote)
        && remote == Renamed(old(remote), r.backup, r.dest)
      ensures !s.Ok? && Budget() == old(Budget()) ==>
        !CanPutBack(r, old(remote))
    {
      hide MayRename, SafeRun, Renamed, Listable;
      s := VerifyUpload(r.backup, r.originalSize, r.originalHash);
      if !s.Ok? { return; }
      ghost var t := trace;
      s := Rename(r.backup, r.dest);
      assert trace != t ==> PutsBack(r, t[|t| - 1], Now());
      Continue(r, from, t);
    }

    method VerifySource(r: Record) returns (s: Status)
      modifies this`faults
      ensures Budget() <= old(Budget())
      ensures s.Ok? ==> r.IsUpload() || r.PayloadAt(remote, r.source)
      ensures !s.Ok? && Budget() == old(Budget()) ==>
        !r.IsUpload() && !r.PayloadAt(remote, r.source)
    {
      s := Ok;
      if !r.IsUpload() {
        s := VerifyUpload(r.source, r.size, r.hash);
        if s.Fail? {
          s := Fail(Uncertain);
        }
      }
    }

    /** Makes sure the destination is as it was before, and a move's source whole. */
    method Reestablish(r: Record, ghost from: nat) returns (s: Status)
      requires Safe(r, from) && r.id in ledger && r.ready && !r.committed && Shaped(r)
      modifies this`faults, this`remote, this`trace
      ensures Continues(r, from)
      ensures s.Ok? ==>
        RolledBack(r, remote) && remote == Reestablished(r, old(remote)) && Reestablishable(r, old(remote))
      ensures !s.Ok? && Budget() == old(Budget()) ==> !Reestablishable(r, old(remote))
    {
      hide SafeRun, Renamed, Record.PayloadAt, CanRename, Seen;
      PutBackKeepsSource(r, remote);
      s := VerifySource(r);
      if !s.Ok? { return; }
      var node;
      s, node := StatFresh(r.dest);
      if !s.Ok? && s != Fail(NotFound) { return; }
      if r.hadOriginal {
        if s == Fail(NotFound) {
          :- PutBack(r, from);
        }
        s := VerifyUpload(r.dest, r.originalSize, r.originalHash);
      } else {
        s := if s.Ok? then Fail(Uncertain) else Ok;
      }
    }

    /** Removes what is left under the unique names of a rolled back record. */
    method CleanUp(r: Record, ghost from: nat) returns (s: Status)
      requires Safe(r, from) && r.id in ledger && r.ready && RolledBack(r, remote) && Shaped(r)
      modifies this`faults, this`remote, this`journal, this`ledger, this`trace
      ensures Continues(r, from)
      ensures s.Ok? ==> r.id !in ledger && Cleared(r, remote) && Cleanable(r, old(remote))
      ensures !s.Ok? && Budget() == old(Budget()) ==> !Cleanable(r, old(remote))
    {
      hide Record.PayloadAt, Record.OriginalAt, CanDelete, RolledBack, Seen, Without, OffLimits, SafeRun, Removable;
      if r.IsUpload() {
        if !(r.stage <= r.dest) { RollBackSurvives(r, remote, r.stage); }
        StillUnseen(remote, r.stage, r.stage);
        :- RetireStage(r, from);
      }
      if Apart(r) { RollBackSurvives(r, remote, r.backup); }
      StillUnseen(remote, r.backup, r.stage);
      if r.hadOriginal {
        :- RetireBackup(r, from);
      }
      s := Forget(r, from);
    }

    /** Reconciles one record, and reports whether the replacement stands. */
    method RecoverUpload(r: Record) returns (s: Status, committed: bool)
      requires Valid() && (r.id in ledger || (r.committed && r.ready)) && Shaped(r)
      modifies this`faults, this`remote, this`journal, this`ledger, this`trace
      ensures Valid() && Budget() <= old(Budget())
      ensures old(trace) != [] && old(trace) <= trace && SafeRun(r, |old(trace)| - 1, trace)
      ensures Spared(old(remote), remote)
      ensures s.Ok? ==> r.id !in ledger && Cleared(r, remote)
      ensures committed ==> r.ready && WillCommit(r, old(remote))
      ensures s.Ok? && Budget() == old(Budget()) && r.ready && WillCommit(r, old(remote)) ==> committed
      ensures s.Ok? && Budget() == old(Budget()) && r.ready && (r.IsUpload() || r.moveStarted) ==>
        (r.hash.Some? && Matches(old(remote), r.dest, r.size, r.hash.value) ==> committed)
      ensures Budget() == old(Budget()) ==> (s.Ok? <==> Recoverable(r, old(remote)))
    {
      ghost var from := |trace| - 1;
      committed := false;
      if !r.ready {
        s := DiscardStage(r, from);
        return;
      }
      if !r.committed {
        s := VerifyUpload(r.dest, r.size, r.hash);
        if s.Crash? { return; }
        if !(s.Ok? && (r.IsUpload() || r.moveStarted)) {
          s := Reestablish(r, from);
          if s.Ok? {
            s := CleanUp(r, from);
          }
          return;
        }
        s := MarkCommitted(r, from);
        if !s.Ok? { return; }
      }
      committed := true;
      s := FinishCommitted(r, from);
    }

    // ------------------------------------------------------------ replacing

    /** A replacement is under way and every step so far was the protocol's. */
    ghost predicate Going(job: Job, from: nat)
      reads this`remote, this`journal, this`ledger, this`trace
    {
      && Valid() && job.WellFormed() && job.Changeable()
      && from < |trace| && Lawful(job, from, trace)
    }

    /** A call made while replacing continues the run. */
    twostate predicate Advances(job: Job, from: nat)
      reads this
    {
      Going(job, from) && Budget() <= old(Budget()) && old(trace) <= trace
    }

    /** What the invariant says about the present store and record. */
    lemma Present(job: Job, from: nat)
      requires Going(job, from)
      ensures Inv(job, Now())
    {
    }

    ghost method Proceed(job: Job, from: nat, before: seq<Durable>)
      requires before != [] && from < |before| && job.WellFormed() && Lawful(job, from, before)
      requires trace == before || (trace == before + [Now()] && Next(job, before[|before| - 1], Now()))
      ensures from < |trace| && before <= trace && Lawful(job, from, trace)
    {
      if trace != before { LawfulExtends(job, from, before, Now()); }
    }

    method WriteRecord(job: Job, ghost from: nat, r: Record) returns (s: Status)
      requires Going(job, from) && MayRecord(job, Now(), r)
      modifies this`faults, this`journal, this`ledger, this`trace
      ensures Advances(job, from)
      ensures ledger == old(ledger) || ledger == old(ledger)[job.id := r]
      ensures s.Ok? ==> ledger == old(ledger)[job.id := r]
      ensures !s.Ok? ==> Budget() < old(Budget())
    {
      ghost var t := trace;
      s := SaveUpload(r);
      assert trace != t ==> Saves(job, t[|t| - 1], Now());
      Proceed(job, from, t);
    }

    method EraseRecord(job: Job, ghost from: nat, r: Record) returns (s: Status)
      requires Going(job, from) && r.id == job.id && job.id in ledger && ledger[job.id].committed
      requires job.Backup(remote) == None && (job.IsUpload() ==> job.Stage(remote) == None)
      modifies this`faults, this`journal, this`ledger, this`trace
      ensures Advances(job, from)
      ensures ledger == old(ledger) || ledger == old(ledger) - {job.id}
      ensures s.Ok? ==> ledger == old(ledger) - {job.id}
      ensures !s.Ok? ==> Budget() < old(Budget())
    {
      ghost var t := trace;
      s := ForgetUpload(r);
      assert trace != t ==> Erases(job, t[|t| - 1], Now());
      Proceed(job, from, t);
    }

    method Transfer(job: Job, ghost from: nat) returns (s: Status)
      requires Going(job, from) && job.IsUpload() && job.id in ledger && !ledger[job.id].ready
      modifies this`faults, this`remote, this`trace
      ensures Advances(job, from)
      ensures !s.Ok? ==> Budget() < old(Budget())
      ensures s.Ok? && Budget() == old(Budget()) ==> job.Stage(remote) == job.New()
    {
      ghost var t := trace;
      s := SendUpload(job.stage, job.payload);
      assert trace != t ==> Uploads(job, t[|t| - 1], Now());
      Proceed(job, from, t);
    }

    /** While the record is not ready the target is untouched. */
    lemma Untouched(job: Job, from: nat)
      requires Going(job, from) && job.id in ledger && !ledger[job.id].ready
      ensures job.IsUpload() && job.Dest(remote) == job.original && job.Backup(remote) == None
      ensures Describes(ledger[job.id], job) && !ledger[job.id].committed && !ledger[job.id].moveStarted
    {
      Present(job, from);
    }

    lemma StageDeletable(job: Job, from: nat)
      requires Going(job, from) && job.IsUpload() && job.id in ledger && job.stage in remote
      ensures CanDelete(remote, job.stage)
    {
      hide Lawful, CanDelete, Grounded, Describes, Job.Changeable;
      Present(job, from);
      FileChangeable(job, remote, job.stage);
    }

    method DropStage(job: Job, ghost from: nat) returns (s: Status)
      requires Going(job, from) && job.IsUpload() && job.id in ledger && job.Dest(remote) == job.original && job.housed
      modifies this`faults, this`remote, this`trace
      ensures Advances(job, from) && (s.Crash? ==> Budget() < old(Budget()))
      ensures old(job.stage in remote) && Budget() == old(Budget()) ==> remote == Deleted(old(remote), job.stage)
    {
      if job.stage in remote { StageDeletable(job, from); }
      ghost var t := trace;
      s := Delete(job.stage);
      assert trace != t ==> DropsStage(job, t[|t| - 1], Now());
      Proceed(job, from, t);
    }

    /** What listings show of the job's names is there; where the destination's directory
        is not, they show nothing beside it. */
    lemma Sees(job: Job, from: nat)
      requires Going(job, from)
      ensures Seen(remote, job.dest) == (if job.housed then job.Dest(remote) else None)
      ensures Seen(remote, job.backup) == (if job.housed then job.Backup(remote) else None)
      ensures Seen(remote, job.stage) == (if job.housed || !job.IsUpload() then job.Stage(remote) else None)
    {
      Present(job, from);
      GroundedSees(job, remote);
    }

    /** Removes a staged file after a failure, if it is found, and reports the failure's
        cause. */
    method CleanupStage(job: Job, ghost from: nat, cause: Error) returns (s: Status)
      requires Going(job, from) && job.IsUpload() && job.id in ledger && job.Dest(remote) == job.original
      modifies this`faults, this`remote, this`trace
      ensures Advances(job, from)
      ensures s == Fail(cause) || (s.Crash? && Budget() < old(Budget()))
      ensures !job.housed ==> remote == old(remote)
      ensures job.housed && Budget() == old(Budget()) ==> remote == Without(old(remote), job.stage)
    {
      Sees(job, from);
      var node;
      s, node := StatFresh(job.stage);
      if s.Ok? {
        s := DropStage(job, from);
      }
      if !s.Crash? {
        s := Fail(cause);
      }
    }

    /** Stages the payload and reads it back, which fails where it is not found. */
    method StagePayload(job: Job, ghost from: nat) returns (s: Status)
      requires Going(job, from) && job.IsUpload() && job.id in ledger && !ledger[job.id].ready
      modifies this`faults, this`remote, this`trace
      ensures Advances(job, from)
      ensures s.Ok? ==> job.Stage(remote) == job.New() && job.housed
      ensures !s.Ok? ==> Budget() < old(Budget()) || !job.housed
      ensures !job.housed && Budget() == old(Budget()) ==> s.Fail? && job.Stage(remote) == job.New()
    {
      hide Lawful, Job.WellFormed, Describes;
      s := Transfer(job, from);
      Untouched(job, from);
      if s.Fail? {
        s := CleanupStage(job, from, s.error);
      }
      if !s.Ok? { return; }
      Sees(job, from);
      s := VerifyUpload(job.stage, |job.payload|, Some(Sha256(job.payload)));
      if s.Fail? {
        s := CleanupStage(job, from, s.error);
      }
    }

    /** A rename the protocol allows here if the new name is free; then nothing but a fault
        keeps it from succeeding. */
    method RenameStep(job: Job, ghost from: nat, a: Path, b: Path) returns (s: Status)
      requires Going(job, from) && a in remote && a != b
      requires b !in remote ==>
        CanRename(remote, a, b) && Lawful(job, from, trace + [Durable(Renamed(remote, a, b), ledger)])
      modifies this`faults, this`remote, this`trace
      ensures Advances(job, from)
      ensures remote == old(remote) || remote == Renamed(old(remote), a, b)
      ensures s.Ok? ==> remote == Renamed(old(remote), a, b)
      ensures !s.Ok? ==> Budget() < old(Budget()) || b in old(remote)
      ensures b in old(remote) ==> !s.Ok? && remote == old(remote)
      ensures s.Crash? ==> Budget() < old(Budget())
    {
      s := Rename(a, b);
    }

    /** A file of the job can be renamed to an absent name of the job. */
    lemma CanMove(job: Job, from: nat, a: Path, b: Path)
      requires Going(job, from) && job.id in ledger && job.Owns(a) && job.Owns(b)
      requires a in remote && remote[a].File? && b !in remote
      ensures CanRename(remote, a, b)
    {
      Present(job, from);
      FileChangeable(job, remote, a);
    }

    /** Moves the old target to its backup name. */
    method MoveAside(job: Job, ghost from: nat) returns (s: Status)
      requires Going(job, from) && job.id in ledger
      requires ledger[job.id].ready && !ledger[job.id].moveStarted && !ledger[job.id].committed
      requires job.Known().Some? && job.original.value.File? && job.Dest(remote) == job.original
      requires job.Stage(remote) == job.New() && job.Backup(remote) == None
      modifies this`faults, this`remote, this`trace
      ensures Advances(job, from)
      ensures s.Ok? ==> job.Dest(remote) == None && job.Backup(remote) == job.original && job.Stage(remote) == job.New()
      ensures !s.Ok? ==> Budget() < old(Budget())
    {
      MovesAside(job, from, trace);
      CanMove(job, from, job.dest, job.backup);
      s := RenameStep(job, from, job.dest, job.backup);
    }

    /** The new bytes are at the stage, and their final name is free, or taken by what
        nobody sees there. */
    predicate Clear(job: Job)
      reads this`remote
    {
      && job.Stage(remote) == job.New()
      && (|| (job.Dest(remote) == None && job.Backup(remote) == job.original)
          || (!job.housed && job.Dest(remote) == job.original && job.original.Some?))
    }

    lemma NothingAside(job: Job, from: nat)
      requires Going(job, from) && job.id in ledger
      ensures !job.housed ==> job.Backup(remote) == None
      ensures job.dest != job.stage
    {
      Present(job, from);
    }

    /** Gives the new bytes their final name. */
    method Install(job: Job, ghost from: nat) returns (s: Status)
      requires Going(job, from) && job.id in ledger && ledger[job.id].ready && !ledger[job.id].committed
      requires (job.IsUpload() || ledger[job.id].moveStarted) && Clear(job)
      modifies this`faults, this`remote, this`trace
      ensures Advances(job, from)
      ensures || remote == old(remote)
              || (job.Dest(remote) == job.New() && job.Stage(remote) == None && job.Backup(remote) == job.original)
      ensures s.Ok? ==> remote != old(remote)
      ensures !s.Ok? ==> Budget() < old(Budget()) || (!job.housed && job.original.Some?)
      ensures !job.housed && job.original.Some? ==> remote == old(remote)
      ensures s.Crash? ==> Budget() < old(Budget())
    {
      hide Lawful, MayRename, Writable, Grounded, Places, Job.WellFormed, Job.Changeable;
      NothingAside(job, from);
      if job.Dest(remote) == None {
        Installs(job, from, trace);
        CanMove(job, from, job.stage, job.dest);
      }
      s := RenameStep(job, from, job.stage, job.dest);
    }

    /** Undoes MoveAside. */
    method MoveBack(job: Job, ghost from: nat) returns (s: Status)
      requires Going(job, from) && job.id in ledger && ledger[job.id].ready && !ledger[job.id].committed
      requires job.Known().Some? && job.original.value.File?
      requires job.Dest(remote) == None && job.Backup(remote) == job.original
      modifies this`faults, this`remote, this`trace
      ensures Advances(job, from)
      ensures s.Ok? ==> job.Dest(remote) == job.original && job.Backup(remote) == None
      ensures !s.Ok? ==> Budget() < old(Budget())
    {
      MovesBack(job, from, trace);
      CanMove(job, from, job.backup, job.dest);
      s := RenameStep(job, from, job.backup, job.dest);
    }

    /** Puts the original back and drops the staged file. */
    method Retreat(job: Job, ghost from: nat, cause: Error) returns (s: Status)
      requires Going(job, from) && job.IsUpload()
      requires job.id in ledger && ledger[job.id].ready && !ledger[job.id].committed
      requires job.Known().Some? && job.original.value.File?
      requires job.Dest(remote) == None && job.Backup(remote) == job.original
      modifies this`faults, this`remote, this`trace
      ensures Advances(job, from)
      ensures s == Fail(cause) || s.Crash?
      ensures job.housed && Budget() == old(Budget()) ==> AtBase(job, remote)
    {
      hide Lawful, Grounded, Job.Changeable;
      s := MoveBack(job, from);
      if s.Ok? {
        Sees(job, from);
        s := CleanupStage(job, from, cause);
      } else if s.Fail? {
        s := Fail(cause);
      }
    }

    /** The rename may have happened although its reply is missing. The original goes
        back only where nothing has its name; in every other case all files stay. */
    method RecoverReplacement(job: Job, ghost from: nat, hadBackup: bool, cause: Error) returns (s: Status)
      requires Going(job, from) && job.IsUpload()
      requires job.id in ledger && ledger[job.id].ready && !ledger[job.id].committed
      requires job.housed && hadBackup == job.original.Some? && (hadBackup ==> job.original.value.File?)
      requires job.Backup(remote) == job.original
      modifies this`faults, this`remote, this`trace
      ensures Advances(job, from)
      ensures s == Fail(cause) || s.Crash?
      ensures Budget() == old(Budget()) && old(job.Dest(remote)) == None && hadBackup ==> AtBase(job, remote)
      ensures old(job.Dest(remote)) == job.New() || !hadBackup ==> remote == old(remote)
    {
      s := VerifyUpload(job.dest, |job.payload|, Some(Sha256(job.payload)));
      if s.Crash? { return; }
      if s.Ok? {
        return Fail(cause);
      }
      Sees(job, from);
      var node;
      s, node := StatFresh(job.dest);
      if s == Fail(NotFound) && hadBackup {
        s := Retreat(job, from, cause);
      } else if !s.Crash? {
        s := Fail(cause);
      }
    }

    /** The record in memory tells the truth about what has been saved and stored. */
    ghost predicate Truthful(job: Job, tx: Record)
      reads this`remote, this`ledger
    {
      Tracks(job, tx, Now()) && (job.id in ledger || tx.committed)
    }

    /** Saves flags the store bears out; if the save fails, memory is still true. */
    method Announce(job: Job, ghost from: nat, tx: Record) returns (s: Status)
      requires Going(job, from) && job.id in ledger && MayRecord(job, Now(), tx)
      modifies this`faults, this`journal, this`ledger, this`trace
      ensures Advances(job, from) && Truthful(job, tx)
      ensures ledger == old(ledger) || ledger == old(ledger)[job.id := tx]
      ensures s.Ok? ==> ledger == old(ledger)[job.id := tx]
      ensures !s.Ok? ==> Budget() < old(Budget())
    {
      s := WriteRecord(job, from, tx);
      Present(job, from);
      if ledger == old(ledger)[job.id := tx] {
        SameFlagsTrack(job, tx, Now());
      } else {
        MayRecordTracks(job, Now(), tx);
      }
    }

    lemma StillTruthful(job: Job, from: nat, tx: Record)
      requires Going(job, from) && job.id in ledger && Describes(tx, job)
      requires ledger[job.id] == tx || (!ledger[job.id].ready && !tx.ready)
      ensures Truthful(job, tx)
    {
      Present(job, from);
      SameFlagsTrack(job, tx, Now());
    }

    /** Fingerprints the target, makes the record ready and moves the target aside. */
    method PreserveTarget(job: Job, ghost from: nat, tx0: Record, data: Bytes) returns (s: Status, tx: Record)
      requires Going(job, from) && job.id in ledger && ledger[job.id] == tx0 && !tx0.ready && job.housed
      requires job.original == Some(File(data)) && job.Stage(remote) == job.New()
      modifies this`faults, this`remote, this`journal, this`ledger, this`trace
      ensures Advances(job, from) && Truthful(job, tx)
      ensures s.Ok? ==> job.id in ledger && ledger[job.id] == tx && tx.ready && !tx.committed && tx.hadOriginal
      ensures s.Ok? ==> job.Dest(remote) == None && job.Backup(remote) == job.original && job.Stage(remote) == job.New()
      ensures !s.Ok? ==> Budget() < old(Budget())
    {
      hide Lawful, Tracks, Job.WellFormed, Job.Changeable;
      Untouched(job, from);
      tx := tx0.(hadOriginal := true, originalSize := |data|);
      var digest;
      s, digest := RemoteSha256(job.dest, |data|);
      if !s.Ok? {
        if s.Fail? {
          s := CleanupStage(job, from, s.error);
        }
        StillTruthful(job, from, tx);
        return;
      }
      tx := tx.(originalHash := digest, ready := true);
      s := Announce(job, from, tx);
      if !s.Ok? { return; }
      s := MoveAside(job, from);
      StillTruthful(job, from, tx);
    }

    /** Second look at the target, once the payload is staged and verified. */
    method PrepareTarget(job: Job, ghost from: nat, tx0: Record) returns (s: Status, tx: Record)
      requires Going(job, from) && job.id in ledger && ledger[job.id] == tx0 && !tx0.ready && !tx0.hadOriginal
      requires job.Stage(remote) == job.New() && job.housed
      modifies this`faults, this`remote, this`journal, this`ledger, this`trace
      ensures Advances(job, from) && Truthful(job, tx)
      ensures s.Ok? ==> job.id in ledger && ledger[job.id] == tx && tx.ready && !tx.committed
      ensures s.Ok? ==> job.Dest(remote) == None && job.Backup(remote) == job.original && job.Stage(remote) == job.New()
      ensures !s.Ok? && Budget() == old(Budget()) ==> job.original.Some? && job.original.value.Directory?
    {
      hide Lawful, Tracks, Job.WellFormed;
      Untouched(job, from);
      Sees(job, from);
      tx := tx0;
      var node;
      s, node := StatFresh(job.dest);
      if s.Ok? {
        if node.value.Directory? {
          s := CleanupStage(job, from, IsDirectory);
        } else {
          s, tx := PreserveTarget(job, from, tx0, node.value.data);
          return;
        }
      } else if s == Fail(NotFound) {
        tx := tx.(ready := true);
        s := Announce(job, from, tx);
        return;
      } else if s.Fail? {
        s := CleanupStage(job, from, s.error);
      }
      StillTruthful(job, from, tx);
    }

    lemma MayCommit(job: Job, from: nat)
      requires Going(job, from) && job.id in ledger && ledger[job.id].ready
      requires job.IsUpload() || ledger[job.id].moveStarted
      requires job.Dest(remote) == job.New() && job.housed
      ensures Describes(ledger[job.id], job) && MayRecord(job, Now(), ledger[job.id].(committed := true))
    {
      Present(job, from);
    }

    /** Reads the final name back and records success. */
    method Commit(job: Job, ghost from: nat, tx0: Record) returns (s: Status, tx: Record)
      requires Going(job, from) && job.id in ledger && ledger[job.id] == tx0
      requires tx0.ready && !tx0.committed && (job.IsUpload() || tx0.moveStarted)
      requires job.Dest(remote) == job.New()
      modifies this`faults, this`journal, this`ledger, this`trace
      ensures Advances(job, from) && Truthful(job, tx) && job.id in ledger
      ensures s.Ok? ==> ledger[job.id] == tx && tx == tx0.(committed := true)
      ensures !s.Ok? ==> Budget() < old(Budget()) || !job.housed
      ensures !job.housed ==> !s.Ok? && tx == tx0 && (s.Fail? || Budget() < old(Budget()))
    {
      hide Lawful, MayAdvance, Places, Grounded, Job.WellFormed;
      Sees(job, from);
      Present(job, from);
      s := VerifyUpload(job.dest, |job.payload|, Some(Sha256(job.payload)));
      if s.Ok? {
        MayCommit(job, from);
        tx := tx0.(committed := true);
        s := Announce(job, from, tx);
      } else {
        tx := tx0;
        StillTruthful(job, from, tx);
      }
    }

    lemma CommittedPlaces(job: Job, from: nat)
      requires Going(job, from) && job.id in ledger && ledger[job.id].committed
      ensures Describes(ledger[job.id], job) && ledger[job.id].ready && job.housed
      ensures job.Dest(remote) == job.New() && job.Backup(remote) in {None, job.original}
      ensures ledger[job.id].hadOriginal <==> job.original.Some?
    {
      Present(job, from);
    }

    /** Drops the preserved original once success is on record. */
    method DropBackup(job: Job, ghost from: nat, tx: Record) returns (s: Status)
      requires Going(job, from) && job.id in ledger && ledger[job.id] == tx && tx.committed && tx.hadOriginal
      modifies this`faults, this`remote, this`trace
      ensures Advances(job, from) && job.Backup(remote) in {None, job.original}
      ensures job.Stage(remote) == old(job.Stage(remote)) && job.Dest(remote) == job.New()
      ensures s.Ok? ==> job.Backup(remote) == None
      ensures !s.Ok? ==> Budget() < old(Budget())
    {
      CommittedPlaces(job, from);
      BackupRemovable(job, from);
      Sees(job, from);
      DropsBackupLawfully(job, from, trace);
      s := RemoveKnown(job.backup, tx.originalSize, tx.originalHash);
    }

    lemma BackupRemovable(job: Job, from: nat)
      requires Going(job, from) && job.id in ledger && ledger[job.id].committed && ledger[job.id].hadOriginal
      ensures var r := ledger[job.id]; Removable(remote, job.backup, r.originalSize, r.originalHash)
    {
      Present(job, from);
      FingerprintsIdentify(job, ledger[job.id], remote);
      Sees(job, from);
      if job.backup in remote { FileChangeable(job, remote, job.backup); }
    }

    /** After the final rename: verify, commit, drop the backup, forget. */
    method Complete(job: Job, ghost from: nat, tx0: Record) returns (s: Status, tx: Record)
      requires Going(job, from) && job.id in ledger && ledger[job.id] == tx0
      requires tx0.ready && !tx0.committed && (job.IsUpload() || tx0.moveStarted)
      requires job.Dest(remote) == job.New() && job.Stage(remote) == None && job.Backup(remote) == job.original
      modifies this`faults, this`remote, this`journal, this`ledger, this`trace
      ensures Advances(job, from) && Truthful(job, tx)
      ensures job.Dest(remote) == job.New() && job.Stage(remote) == None
      ensures s.Ok? ==> job.id !in ledger && job.Backup(remote) == None
      ensures !s.Ok? ==> Budget() < old(Budget()) || !job.housed
      ensures !job.housed ==> !s.Ok? && tx == tx0 && (s.Fail? || Budget() < old(Budget()))
    {
      hide Lawful, Consistent, Job.WellFormed, Job.Changeable;
      s, tx := Commit(job, from, tx0);
      if !s.Ok? { return; }
      CommittedPlaces(job, from);
      if tx.hadOriginal {
        s := DropBackup(job, from, tx);
        if !s.Ok? {
          StillTruthful(job, from, tx);
          return;
        }
      }
      s := EraseRecord(job, from, tx);
      if job.id in ledger {
        StillTruthful(job, from, tx);
      }
    }

    /** The original, if any, is a file by the time the record is ready. */
    lemma ReadyOriginal(job: Job, from: nat)
      requires Going(job, from) && job.id in ledger && ledger[job.id].ready
      ensures ledger[job.id].hadOriginal == job.Known().Some? && (job.Known().Some? ==> job.original.value.File?)
      ensures job.IsUpload() ==> job.housed
      ensures Describes(ledger[job.id], job)
    {
      Present(job, from);
    }

    /** Promotes the staged file; a failed rename may put the original back. */
    method Promote(job: Job, ghost from: nat, tx0: Record) returns (s: Status, tx: Record)
      requires Going(job, from) && job.IsUpload() && job.id in ledger && ledger[job.id] == tx0
      requires tx0.ready && !tx0.committed
      requires job.Stage(remote) == job.New() && job.Dest(remote) == None && job.Backup(remote) == job.original
      modifies this`faults, this`remote, this`journal, this`ledger, this`trace
      ensures Advances(job, from) && Truthful(job, tx)
      ensures s.Ok? ==> job.id !in ledger && AtTarget(job, remote)
      ensures !s.Ok? ==> Budget() < old(Budget())
      ensures s.Fail? && Budget() + 1 == old(Budget()) && job.original.Some? ==> job.Dest(remote).Some?
    {
      ReadyOriginal(job, from);
      s := Install(job, from);
      if s.Ok? {
        s, tx := Complete(job, from, tx0);
      } else {
        tx := tx0;
        if s.Fail? {
          s := RecoverReplacement(job, from, tx.hadOriginal, s.error);
        }
        StillTruthful(job, from, tx);
      }
    }

    /** Stage, verify, set the target aside, promote, verify, commit, clean up. */
    method Replace(job: Job, ghost from: nat, tx0: Record) returns (s: Status, tx: Record)
      requires Going(job, from) && job.id in ledger && ledger[job.id] == tx0 && !tx0.ready && !tx0.hadOriginal
      modifies this`faults, this`remote, this`journal, this`ledger, this`trace
      ensures Advances(job, from) && Truthful(job, tx)
      ensures s.Ok? ==> job.id !in ledger && AtTarget(job, remote) && job.housed
      ensures !s.Ok? && Budget() == old(Budget()) ==>
        !job.housed || (job.original.Some? && job.original.value.Directory?)
      ensures !job.housed && Budget() == old(Budget()) ==> s.Fail? && job.Stage(remote) == job.New()
    {
      hide Lawful, Tracks, AtTarget, Job.WellFormed, Job.Changeable;
      Untouched(job, from);
      s := StagePayload(job, from);
      if !s.Ok? {
        tx := tx0;
        StillTruthful(job, from, tx);
        return;
      }
      s, tx := PrepareTarget(job, from, tx0);
      if s.Ok? {
        s, tx := Promote(job, from, tx);
      }
    }

    // ----------------------------------------------------------- operations

    lemma Resumable(job: Job, from: nat, tx: Record)
      requires Going(job, from) && Truthful(job, tx)
      ensures Inv(job, Now()) && Shaped(tx) && (Recoverable(tx, remote) <==> !Stuck(job, remote))
      ensures tx.id == job.id && (job.id in ledger || (tx.committed && tx.ready))
    {
      Present(job, from);
      JobApart(job, tx);
      TracksIsRecoverable(job, tx, Now());
    }

    /** A move that has started has left its source, or not reached its destination. */
    predicate Definite(job: Job, tx: Record)
      reads this`remote
    {
      job.housed && !job.IsUpload() && tx.moveStarted ==> job.Dest(remote) == None || job.Stage(remote) == None
    }

    /** Recovery on behalf of a replacement, which is all it needs to succeed. */
    method Resume(job: Job, ghost from: nat, tx: Record) returns (s: Status, committed: bool)
      requires Going(job, from) && Truthful(job, tx) && Definite(job, tx)
      modifies this`faults, this`remote, this`journal, this`ledger, this`trace
      ensures Advances(job, from)
      ensures s.Ok? ==> job.id !in ledger && (committed ==> job.housed && AtTarget(job, remote))
      ensures s.Ok? && !committed && job.housed && Budget() == old(Budget()) ==> AtBase(job, remote)
      ensures !s.Ok? ==> Budget() < old(Budget()) || Stuck(job, remote)
      ensures !job.housed ==> remote == old(remote)
    {
      hide Lawful, Inv, SafeRun, Recoverable, Run, Consistent, Cleared, AtTarget, AtBase, Job.WellFormed,
          Job.Changeable;
      ghost var t, before, mid := trace, Now(), |trace| - 1;
      Resumable(job, from, tx);
      s, committed := RecoverUpload(tx);
      assert trace[..mid + 1] == t;
      Resumed(job, from, tx, before, mid);
      WillCommitHoused(job, tx, before);
      if !job.housed { SafeRunUnhoused(job, tx, mid, trace); }
      if s.Ok? && committed { Committed(job, tx, before, mid); }
      if s.Ok? && job.housed && !(tx.ready && WillCommit(tx, before.remote)) {
        RolledBackStands(job, tx, mid, trace);
      }
    }

    /** The recovery both operations fall back on when they fail: success is
        reported if the replacement turns out to stand after all. */
    method Reconcile(job: Job, ghost from: nat, tx: Record, outcome: Status) returns (s: Status)
      requires Going(job, from) && Truthful(job, tx) && Definite(job, tx) && outcome.Fail?
      modifies this`faults, this`remote, this`journal, this`ledger, this`trace
      ensures Advances(job, from)
      ensures s in {Ok, outcome, Crash}
      ensures s.Ok? ==> job.id !in ledger && AtTarget(job, remote) && job.housed
      ensures Budget() == old(Budget()) ==> job.id !in ledger || Stuck(job, remote)
      ensures Budget() == old(Budget()) && job.housed && !s.Ok? ==> AtBase(job, remote)
      ensures !job.housed ==> remote == old(remote)
    {
      hide Going, AtTarget, AtBase;
      var committed;
      s, committed := Resume(job, from, tx);
      if !s.Crash? && !(s.Ok? && committed) {
        s := outcome;
      }
    }

    lemma Committed(job: Job, tx: Record, before: Durable, mid: nat)
      requires Valid() && job.WellFormed() && job.Changeable() && mid < |trace| && trace[mid] == before
      requires SafeRun(tx, mid, trace) && Inv(job, before) && Tracks(job, tx, before)
      requires (job.id in before.ledger || tx.committed) && tx.ready && WillCommit(tx, before.remote)
      requires job.IsUpload() || job.Dest(before.remote) == None || job.Stage(before.remote) == None
      requires job.id !in ledger && Cleared(tx, remote)
      ensures AtTarget(job, remote)
    {
      CommittedStands(job, tx, mid, trace);
    }

    /** A run of recovery steps taken on behalf of a replacement continues it. */
    lemma Resumed(job: Job, from: nat, tx: Record, before: Durable, mid: nat)
      requires Valid() && job.WellFormed() && job.Changeable() && from <= mid < |trace| && trace[mid] == before
      requires Lawful(job, from, trace[..mid + 1]) && SafeRun(tx, mid, trace) && Tracks(job, tx, before)
      ensures Going(job, from)
    {
      assert trace[..mid + 1][from] == trace[from] && trace[..mid + 1][mid] == trace[mid];
      assert Inv(job, trace[..mid + 1][from]) && Inv(job, trace[..mid + 1][mid]);
      SafeRunIsRun(job, tx, mid, trace);
      RunJoins(job, from, mid, trace);
      RunIsLawful(job, from, trace);
    }

    ghost predicate Uploadable(local: Local, clean: Path)
      reads this`remote
    {
      && Mutable(clean) && Writable(remote, clean) && clean != []
      && local.Regular? && |local.data| <= MAX_UPLOAD_SIZE
      && (Seen(remote, clean).Some? ==> Seen(remote, clean).value.File?)
    }

    lemma UploadableIsAllowed(local: Local, clean: Path)
      requires Uploadable(local, clean)
      ensures !OffLimits(remote, clean)
    {
      AllowedIsWithin(remote, clean);
    }

    /** A file goes up unless it is too large, or its path is the root, off limits, that of
        a directory, or has a component that ends in white space. */
    lemma UploadableIff(data: Bytes, clean: Path)
      ensures Uploadable(Regular(data), clean) <==>
        && clean != [] && |data| <= 2_000_000_000 && !OffLimits(remote, clean)
        && !(clean in remote && remote[clean].Directory? && Housed(clean))
        && (forall c :: c in clean && c != "" ==> !SpaceAtEnd(c))
    {
    }

    /** The directory the name is in is there. */
    ghost predicate Housed(name: Path)
      reads this`remote
    {
      Listable(remote, Parent(name))
    }

    /** What UploadFile checks before it writes anything; last, the local file is
        read through for its fingerprint. */
    method ApproveUpload(local: Local, clean: Path) returns (s: Status, node: Option<Entry>)
      modifies this`faults
      ensures Budget() <= old(Budget())
      ensures s.Ok? ==> Uploadable(local, clean) && node == Seen(remote, clean)
      ensures !s.Ok? && Budget() == old(Budget()) ==> !Uploadable(local, clean) && s == Fail(
        if !Mutable(clean) then UnsupportedPath else if OffLimits(remote, clean) && |clean| > 1 then ReadOnly
        else if local.Missing? then LocalFile else if local.LocalDirectory? then IsDirectory
        else if |local.data| > 2_000_000_000 then TooLarge else IsDirectory)
    {
      node := None;
      if !Mutable(clean) {
        return Fail(UnsupportedPath), node;
      }
      s := RequireWritable(clean);
      if !s.Ok? { return; }
      if local.Missing? {
        return Fail(LocalFile), node;
      }
      if local.LocalDirectory? {
        return Fail(IsDirectory), node;
      }
      if |local.data| > MAX_UPLOAD_SIZE {
        return Fail(TooLarge), node;
      }
      if clean == [] {
        return Fail(IsDirectory), node;
      }
      s, node := StatFresh(clean);
      if s.Ok? && node.value.Directory? {
        return Fail(IsDirectory), node;
      }
      if s == Fail(NotFound) {
        s, node := Ok, None;
      }
      if s.Ok? {
        s := Query();
      }
    }

    /** What a whole run from the state before it comes to. */
    twostate lemma Outcome(job: Job)
      requires old(Valid()) && Ready(job, old(Now())) && Going(job, |old(trace)| - 1) && old(trace) <= trace
      ensures job.id !in ledger ==> ledger == old(ledger) && Concludes(job, old(remote), remote)
      ensures AtTarget(job, remote) ==> remote == Replaced(job, old(remote))
      ensures AtBase(job, remote) ==> remote == old(remote)
      ensures Spared(old(remote), remote)
      ensures job.IsUpload() && !job.housed && job.Stage(remote) == job.New() ==>
        remote == old(remote)[job.stage := File(job.payload)]
      ensures !job.IsUpload() && !job.housed ==>
        remote == if Stuck(job, remote) then Replaced(job, old(remote)) else old(remote)
    {
      hide Run, Grounded, Concludes, Replaced;
      var from, k := |old(trace)| - 1, |trace| - 1;
      AtomicReplacement(job, from, trace, k);
      RunSpares(job, from, trace, k);
      RunKeepsInv(job, from, trace, k);
      if job.IsUpload() && !job.housed && job.Stage(remote) == job.New() { StagedOnly(job, old(remote), remote); }
      if AtBase(job, remote) || AtTarget(job, remote) { SettledIsOneOfTwo(job, old(remote), remote); }
    }

    /** What both operations promise of their job. Success means the store differs
        by exactly the replacement. Without a kept record, the store is exactly as
        before or exactly replaced. Every durable state on the way was a step of the
        protocol, only a call gone wrong makes it fail, and with recovery at hand a single
        such call never makes it fail with anything changed. */
    twostate predicate Replaces(job: Job, s: Status)
      reads this
    {
      && Valid() && Budget() <= old(Budget()) && (!s.Ok? ==> Budget() < old(Budget()))
      && old(trace) != [] && old(trace) <= trace && Run(job, |old(trace)| - 1, trace)
      && (s.Ok? ==> job.id !in ledger && remote == Replaced(job, old(remote)))
      && (job.id !in ledger ==> ledger == old(ledger) && remote in {old(remote), Replaced(job, old(remote))})
      && ((journaled || !job.IsUpload()) && s.Fail? && Budget() + 1 == old(Budget()) ==> remote == old(remote))
    }

    /** What becomes of a job whose destination's directory is not there: it never
        succeeds. If nothing goes wrong an upload leaves its staged file behind and a move
        takes the file to where nobody finds it, with a record that stays; unless something
        is stored there already, which nobody sees either. */
    twostate predicate Strays(job: Job, s: Status)
      reads this
    {
      && Valid() && Budget() <= old(Budget()) && !s.Ok?
      && old(trace) != [] && old(trace) <= trace && Run(job, |old(trace)| - 1, trace)
      && (job.id !in ledger ==> ledger == old(ledger) && Concludes(job, old(remote), remote))
      && (!job.IsUpload() ==> remote in {old(remote), Replaced(job, old(remote))})
      && (Budget() == old(Budget()) ==>
            if job.IsUpload() then
              remote == old(remote)[job.stage := File(job.payload)] && (journaled ==> ledger == old(ledger))
            else if job.original.None? then
              remote == Replaced(job, old(remote)) && Stuck(job, remote) && job.id in ledger
            else
              remote == old(remote) && ledger == old(ledger))
    }

    /** The same, and the job is the one of bringing these bytes here. */
    twostate predicate Brought(job: Job, id: string, source: Path, dest: Path, payload: Bytes, s: Status)
      reads this
    {
      && Brings(job, id, source, dest, old(remote), payload) && Ready(job, old(Now())) && Spared(old(remote), remote)
      && if job.housed then Replaces(job, s) else Strays(job, s)
    }

    method SaveFirst(job: Job, ghost from: nat) returns (s: Status, tx: Record)
      requires Valid() && Ready(job, Now()) && from == |trace| - 1
      requires job.Known().Some? ==> job.original.value.File?
      modifies this`faults, this`journal, this`ledger, this`trace
      ensures Advances(job, from) && tx == FirstRecord(job)
      ensures if s.Ok? then job.id in ledger && ledger[job.id] == tx else Budget() < old(Budget())
    {
      hide Grounded, AtBase, Describes, Job.WellFormed, Job.Changeable;
      FirstMayBegin(job, Now());
      tx := FirstRecord(job);
      s := WriteRecord(job, from, tx);
    }

    /** Saves the first record of an upload and, if that succeeds, runs it. */
    method RunUpload(job: Job, ghost from: nat) returns (s: Status)
      requires Valid() && Ready(job, Now()) && job.IsUpload() && from == |trace| - 1
      requires job.Known().Some? ==> job.original.value.File?
      modifies this`faults, this`remote, this`journal, this`ledger, this`trace
      ensures Advances(job, from)
      ensures s.Ok? ==> job.id !in ledger && AtTarget(job, remote) && job.housed
      ensures !s.Ok? ==> Budget() < old(Budget()) || !job.housed
      ensures journaled && job.housed && s.Fail? && Budget() + 1 == old(Budget()) ==>
        AtBase(job, remote) || remote == old(remote)
      ensures !job.housed && Budget() == old(Budget()) ==>
        job.Stage(remote) == job.New() && (journaled ==> job.id !in ledger)
    {
      hide Lawful, Tracks, AtBase, Grounded, Job.WellFormed, Job.Changeable, Inv, Describes;
      var tx;
      s, tx := SaveFirst(job, from);
      if !s.Ok? { return; }
      s, tx := Replace(job, from, tx);
      if journaled && s.Fail? {
        s := Reconcile(job, from, tx, s);
      }
    }

    method PerformUpload(job: Job) returns (s: Status)
      requires Valid() && Ready(job, Now()) && job.IsUpload()
      requires job.Known().Some? ==> job.original.value.File?
      modifies this`faults, this`remote, this`journal, this`ledger, this`trace
      ensures Spared(old(remote), remote)
      ensures if job.housed then Replaces(job, s) else Strays(job, s)
    {
      s := RunUpload(job, |trace| - 1);
      Outcome(job);
    }

    /** An approved upload under a fresh identity. */
    ghost predicate MayUpload(id: string, clean: Path, node: Option<Entry>, data: Bytes)
      reads this`remote, this`journal, this`ledger, this`trace
    {
      && Valid() && ValidId(id) && Fresh(id, Now()) && Free(id, clean)
      && AllProper(clean) && Uploadable(Regular(data), clean) && node == Seen(remote, clean)
    }

    /** Names an approved upload. */
    method NewUpload(id: string, clean: Path, node: Option<Entry>, data: Bytes) returns (job: Job)
      requires MayUpload(id, clean, node, data)
      ensures Brings(job, id, [], clean, remote, data) && job.Known() == node
      ensures Ready(job, Now())
    {
      job := Job(id, [], clean, StageName(id, clean), BackupName(id, clean), Lookup(remote, clean), data,
                 Listable(remote, Parent(clean)));
      UploadStarts(job, Now());
    }

    method BeginUpload(id: string, clean: Path, node: Option<Entry>, data: Bytes) returns (s: Status, ghost job: Job)
      requires MayUpload(id, clean, node, data)
      modifies this`faults, this`remote, this`journal, this`ledger, this`trace
      ensures Brought(job, id, [], clean, data, s)
    {
      hide Run, Replaced, Concludes, Fresh, Free, ValidId, AllProper, Mutable, Writable, Grounded, AtBase;
      var begun := NewUpload(id, clean, node, data);
      job := begun;
      s := PerformUpload(begun);
    }

    /** Replaces or creates a remote file with the bytes of a local one, under a
        random identity. Short of a fault it does so if and only if the file's directory is
        there; if not, it leaves the staged file. */
    method UploadFile(local: Local, clean: Path, id: string) returns (s: Status, ghost job: Job)
      requires Valid() && AllProper(clean) && ValidId(id) && Fresh(id, Now()) && Free(id, clean)
      modifies this`faults, this`remote, this`journal, this`ledger, this`trace
      ensures Valid() && Budget() <= old(Budget())
      ensures !s.Ok? && Budget() == old(Budget()) ==> !old(Uploadable(local, clean)) || !old(Housed(clean))
      ensures !old(Uploadable(local, clean)) && Budget() == old(Budget()) ==> s == Fail(
        if !Mutable(clean) then UnsupportedPath else if OffLimits(old(remote), clean) && |clean| > 1 then ReadOnly
        else if local.Missing? then LocalFile else if local.LocalDirectory? then IsDirectory
        else if |local.data| > 2_000_000_000 then TooLarge else IsDirectory)
      ensures s.Ok? || trace != old(trace) ==>
        old(Uploadable(local, clean)) && Brought(job, id, [], clean, local.data, s)
      ensures old(Uploadable(local, clean)) && Budget() == old(Budget()) ==>
        && (s.Ok? <==> old(Housed(clean)))
        && remote == old(remote)[if old(Housed(clean)) then clean else StageName(id, clean) := File(local.data)]
      ensures journaled && old(Housed(clean)) && s.Fail? && Budget() + 1 == old(Budget()) ==> remote == old(remote)
      ensures Spared(old(remote), remote) && (OffLimits(old(remote), clean) ==> !s.Ok? && remote == old(remote))
    {
      hide Ready, Run, Fresh, Free, ValidId, AllProper, Mutable, Writable, Listable;
      job := *;
      if Uploadable(local, clean) { UploadableIsAllowed(local, clean); }
      var node;
      s, node := ApproveUpload(local, clean);
      if s.Ok? {
        s, job := BeginUpload(id, clean, node, local.data);
      }
    }

    /** Sets the target aside, records that the rename is about to be tried,
        renames, and completes. The record separates a move that happened from one
        that did not even where source and target hold the same bytes. */
    method Move(job: Job, ghost from: nat, tx0: Record) returns (s: Status, tx: Record)
      requires Going(job, from) && !job.IsUpload() && job.id in ledger && ledger[job.id] == tx0
      requires tx0.ready && !tx0.moveStarted && !tx0.committed && AtBase(job, remote)
      modifies this`faults, this`remote, this`journal, this`ledger, this`trace
      ensures Advances(job, from) && Truthful(job, tx)
      ensures s.Ok? ==> job.id !in ledger && AtTarget(job, remote) && job.housed
      ensures !s.Ok? ==> Budget() < old(Budget()) || !job.housed
      ensures Definite(job, tx)
      ensures !job.housed && Budget() == old(Budget()) ==> s.Fail? && (Stuck(job, remote) <==> job.original.None?)
    {
      ReadyOriginal(job, from);
      tx := tx0;
      s := Ok;
      if tx.hadOriginal {
        s := MoveAside(job, from);
      }
      if !s.Ok? {
        StillTruthful(job, from, tx);
        return;
      }
      s, tx := StartMove(job, from, tx);
    }

    method StartMove(job: Job, ghost from: nat, tx0: Record) returns (s: Status, tx: Record)
      requires Going(job, from) && !job.IsUpload() && job.id in ledger && ledger[job.id] == tx0
      requires tx0.ready && !tx0.moveStarted && !tx0.committed && Describes(tx0, job)
      requires Clear(job)
      modifies this`faults, this`remote, this`journal, this`ledger, this`trace
      ensures Advances(job, from) && Truthful(job, tx)
      ensures s.Ok? ==> job.id !in ledger && AtTarget(job, remote) && job.housed
      ensures !s.Ok? ==> Budget() < old(Budget()) || !job.housed
      ensures Definite(job, tx)
      ensures !job.housed && Budget() == old(Budget()) ==> s.Fail? && (Stuck(job, remote) <==> job.original.None?)
    {
      hide Lawful, Tracks, Job.WellFormed, Job.Changeable;
      tx := tx0.(moveStarted := true);
      s := Announce(job, from, tx);
      if s.Ok? {
        s := Install(job, from);
        if s.Ok? {
          s, tx := Complete(job, from, tx);
        } else {
          StillTruthful(job, from, tx);
        }
      }
    }

    /** Saves the first record of a move and, if that succeeds, runs it. */
    method RunMove(job: Job, ghost from: nat) returns (s: Status)
      requires Valid() && Ready(job, Now()) && !job.IsUpload() && from == |trace| - 1
      requires job.Known().Some? ==> job.original.value.File?
      modifies this`faults, this`remote, this`journal, this`ledger, this`trace
      ensures Advances(job, from)
      ensures s.Ok? ==> job.id !in ledger && AtTarget(job, remote) && job.housed
      ensures !s.Ok? ==> Budget() < old(Budget()) || !job.housed
      ensures job.housed && s.Fail? && Budget() + 1 == old(Budget()) ==>
        AtBase(job, remote) || remote == old(remote)
      ensures !job.housed && Budget() == old(Budget()) ==>
        (Stuck(job, remote) <==> job.original.None?) && (job.original.Some? ==> job.id !in ledger)
    {
      hide Lawful, Tracks, Grounded, Job.WellFormed, Job.Changeable, Inv, Describes;
      var tx;
      s, tx := SaveFirst(job, from);
      if !s.Ok? { return; }
      s, tx := Move(job, from, tx);
      if s.Fail? {
        s := Reconcile(job, from, tx, s);
      }
    }

    method PerformMove(job: Job) returns (s: Status)
      requires Valid() && Ready(job, Now()) && !job.IsUpload()
      requires job.Known().Some? ==> job.original.value.File?
      modifies this`faults, this`remote, this`journal, this`ledger, this`trace
      ensures Spared(old(remote), remote)
      ensures if job.housed then Replaces(job, s) else Strays(job, s)
    {
      s := RunMove(job, |trace| - 1);
      Outcome(job);
      StuckIsRecorded(job, |old(trace)| - 1);
    }

    lemma StuckIsRecorded(job: Job, from: nat)
      requires Going(job, from)
      ensures Stuck(job, remote) ==> job.id in ledger
    {
      Present(job, from);
    }

    ghost predicate Movable(source: Path, dest: Path)
      reads this`remote
    {
      && Mutable(source) && Mutable(dest) && source != [] && dest != [] && !Within(dest, source)
      && Writable(remote, source) && Writable(remote, dest) && Unprotected(remote, source)
      && source in remote && Listable(remote, Parent(source))
      && if remote[source].Directory? then dest !in remote else Seen(remote, dest).Some? ==>
        Seen(remote, dest).value.File?
    }

    lemma MovableIsAllowed(source: Path, dest: Path)
      requires Movable(source, dest)
      ensures !OffLimits(remote, source) && !OffLimits(remote, dest)
    {
      AllowedIsWithin(remote, source);
      AllowedIsWithin(remote, dest);
    }

    /** A name moves unless either path is the root, off limits or has a component that ends
        in white space, the new name is beneath the old one, or nothing is found under the
        old one or something in the way under the new one. */
    lemma MovableIff(source: Path, dest: Path)
      ensures Movable(source, dest) <==>
        && source != [] && dest != [] && !(source < dest) && !OffLimits(remote, source) && !OffLimits(remote, dest)
        && (forall p, c :: p in {source, dest} && c in p && c != "" ==> !SpaceAtEnd(c))
        && source in remote && Housed(source)
        && (if remote[source].Directory? then dest !in remote
            else dest in remote && remote[dest].Directory? ==> !Housed(dest))
    {
    }

    /** The first checks of a move: all are made, and any may refuse. */
    method ApproveNames(source: Path, dest: Path) returns (s: Status)
      requires Mutable(source) && Mutable(dest)
      modifies this`faults
      ensures Budget() <= old(Budget())
      ensures s.Ok? ==> (
        && source != [] && dest != [] && !Within(dest, source)
        && Writable(remote, source) && Writable(remote, dest) && Unprotected(remote, source))
      ensures !s.Ok? && Budget() == old(Budget()) ==> !Movable(source, dest) && s == Fail(
        if source == [] || dest == [] || source < dest then Invalid
        else if OffLimits(remote, source) || (OffLimits(remote, dest) && |dest| > 1) then ReadOnly
        else NotFound)
      ensures s == Fail(NotFound) && Budget() == old(Budget()) ==> source !in remote
    {
      if source == [] || dest == [] || Within(dest, source) {
        return Fail(Invalid);
      }
      var from := RequireWritable(source);
      if from.Crash? { return from; }
      var to := RequireWritable(dest);
      if to.Crash? { return to; }
      s := ProtectDeviceRoot(source);
      if !s.Crash? {
        s := if !from.Ok? then from else if !to.Ok? then to else s;
      }
    }

    lemma NamesAreAllowed(source: Path, dest: Path)
      requires Writable(remote, source) && Writable(remote, dest) && Unprotected(remote, source)
      ensures !OffLimits(remote, source) && (OffLimits(remote, dest) ==> |dest| <= 1)
      ensures |source| == 1 ==> source in remote
    {
      AllowedIsWithin(remote, source);
      if |dest| > 1 { AllowedIsWithin(remote, dest); }
    }

    /** Fingerprints the source and an existing target before anything is moved. */
    method ReadBoth(source: Path, dest: Path, node: Entry, target: Option<Entry>) returns (s: Status)
      requires Lookup(remote, source) == Some(node) && node.File?
      requires Seen(remote, dest) == target && (target.Some? ==> target.value.File?)
      modifies this`faults
      ensures Budget() <= old(Budget())
      ensures !s.Ok? ==> Budget() < old(Budget())
    {
      var digest;
      s, digest := RemoteSha256(source, |node.data|);
      if s.Ok? && target.Some? {
        s, digest := RemoteSha256(dest, |target.value.data|);
      }
    }

    /** An approved move of a file under a fresh identity. */
    ghost predicate MayMove(id: string, source: Path, dest: Path, node: Entry, target: Option<Entry>)
      reads this`remote, this`journal, this`ledger, this`trace
    {
      && Valid() && ValidId(id) && Fresh(id, Now()) && Free(id, source) && Free(id, dest)
      && AllProper(source) && AllProper(dest) && source != dest && Movable(source, dest)
      && Lookup(remote, source) == Some(node) && node.File? && target == Seen(remote, dest)
    }

    /** Names an approved move of a file. */
    method NewMove(id: string, source: Path, dest: Path, node: Entry, target: Option<Entry>) returns (job: Job)
      requires MayMove(id, source, dest, node, target)
      ensures Brings(job, id, source, dest, remote, node.data) && job.Known() == target
      ensures Ready(job, Now())
    {
      job := Job(id, source, dest, source, BackupName(id, dest), Lookup(remote, dest), node.data,
                 Listable(remote, Parent(dest)));
      MoveStarts(job, Now());
    }

    method BeginMove(id: string, source: Path, dest: Path, node: Entry, target: Option<Entry>)
      returns (s: Status, ghost job: Job)
      requires MayMove(id, source, dest, node, target)
      modifies this`faults, this`remote, this`journal, this`ledger, this`trace
      ensures Brought(job, id, source, dest, node.data, s)
      ensures Budget() == old(Budget()) ==> MovesExactly(source, dest)
    {
      hide Run, Concludes, Fresh, Free, ValidId, AllProper, Mutable, Writable, Grounded, AtBase;
      var begun := NewMove(id, source, dest, node, target);
      job := begun;
      s := PerformMove(begun);
    }

    /** Moves a remote file over whatever file has the destination's name. */
    method MoveFile(id: string, source: Path, dest: Path, node: Entry, target: Option<Entry>)
      returns (s: Status, ghost job: Job)
      requires MayMove(id, source, dest, node, target)
      modifies this`faults, this`remote, this`journal, this`ledger, this`trace
      ensures Valid() && Budget() <= old(Budget()) && (!s.Ok? ==> Budget() < old(Budget()) || !old(Housed(dest)))
      ensures Spared(old(remote), remote)
      ensures s.Ok? || trace != old(trace) ==> Brought(job, id, source, dest, node.data, s)
      ensures Budget() == old(Budget()) ==> MovesExactly(source, dest)
    {
      hide Ready, Run, Replaced, Fresh, Free, ValidId, AllProper, Mutable, Writable, Unprotected;
      job := *;
      s := ReadBoth(source, dest, node, target);
      if s.Ok? {
        s, job := BeginMove(id, source, dest, node, target);
      }
    }

    /** Looks at both ends of an approved move; an existing target must be a file. */
    method StatBoth(source: Path, dest: Path) returns (s: Status, node: Option<Entry>, target: Option<Entry>)
      requires Mutable(source) && Mutable(dest) && source != [] && dest != [] && !Within(dest, source)
      requires Writable(remote, source) && Writable(remote, dest) && Unprotected(remote, source)
      modifies this`faults
      ensures Budget() <= old(Budget())
      ensures s.Ok? ==> (
        && node.Some? && Lookup(remote, source) == node && Listable(remote, Parent(source))
        && Seen(remote, dest) == target && (node.value.File? ==> Movable(source, dest)))
      ensures !s.Ok? && Budget() == old(Budget()) ==> !Movable(source, dest) && s == Fail(
        if source !in remote || !Housed(source) then NotFound
        else if remote[source].Directory? then Exists else IsDirectory)
    {
      target := None;
      s, node := StatFresh(source);
      if !s.Ok? { return; }
      s, target := StatFresh(dest);
      if s == Fail(NotFound) {
        s, target := Ok, None;
      } else if s.Ok? && node.value.Directory? {
        s := Fail(Exists);
      } else if s.Ok? && target.value.Directory? {
        s := Fail(IsDirectory);
      }
    }

    /** What a move comes to when its names are approved: a directory is renamed as a
        whole, a file replaces. */
    twostate predicate Moves(job: Job, source: Path, dest: Path, id: string, s: Status)
      reads this
    {
      && old(Movable(source, dest))
      && match old(remote)[source]
         case Directory(_) => remote == Renamed(old(remote), source, dest) && ledger == old(ledger)
         case File(moved) => Brought(job, id, source, dest, moved, s)
    }

    /** The source is a file, and the destination's directory is not there. */
    twostate predicate Unmovable(source: Path, dest: Path)
      reads this
    {
      old(source in remote && remote[source].File? && !Housed(dest))
    }

    /** Where a file goes if nothing goes wrong: to the destination; unless its directory is
        not there, which leaves a record, and something is stored there all the same, which
        leaves everything as it was. */
    twostate predicate MovesExactly(source: Path, dest: Path)
      reads this
    {
      old(Movable(source, dest)) && old(remote[source].File?) ==>
        && remote == (if old(Housed(dest) || dest !in remote) then (old(remote) - {source})[dest := old(remote[source])]
                      else old(remote))
        && (ledger == old(ledger) <==> old(Housed(dest) || dest in remote))
    }

    method MoveApproved(source: Path, dest: Path, id: string) returns (s: Status, ghost job: Job)
      requires Valid() && ValidId(id) && Fresh(id, Now()) && Free(id, source) && Free(id, dest)
      requires AllProper(source) && AllProper(dest) && source != dest
      requires Mutable(source) && Mutable(dest) && source != [] && dest != [] && !Within(dest, source)
      requires Writable(remote, source) && Writable(remote, dest) && Unprotected(remote, source)
      modifies this`faults, this`remote, this`journal, this`ledger, this`trace
      ensures Valid() && Budget() <= old(Budget())
      ensures !s.Ok? && Budget() == old(Budget()) ==> !old(Movable(source, dest)) || Unmovable(source, dest)
      ensures Spared(old(remote), remote)
      ensures !old(Movable(source, dest)) && Budget() == old(Budget()) ==> s == Fail(
        if source !in old(remote) || !old(Housed(source)) then NotFound
        else if old(remote)[source].Directory? then Exists else IsDirectory)
      ensures s.Ok? || trace != old(trace) ==> Moves(job, source, dest, id, s)
      ensures Budget() == old(Budget()) ==> MovesExactly(source, dest)
    {
      hide Brings, Ready, Run, Replaced, Fresh, Free, ValidId, AllProper, Mutable, Writable, Unprotected;
      job := *;
      NamesAreAllowed(source, dest);
      var node, target;
      s, node, target := StatBoth(source, dest);
      if !s.Ok? { return; }
      if node.value.Directory? {
        s := Rename(source, dest);
      } else {
        s, job := MoveFile(id, source, dest, node.value, target);
      }
    }

    /** A rename that replaces an existing file. Success means the source is gone
        and the destination has its bytes, even if it had the same bytes before. */
    method MoveReplace(source: Path, dest: Path, id: string) returns (s: Status, ghost job: Job)
      requires Valid() && ValidId(id) && Fresh(id, Now()) && Free(id, source) && Free(id, dest)
      requires AllProper(source) && AllProper(dest)
      modifies this`faults, this`remote, this`journal, this`ledger, this`trace
      ensures Valid() && Budget() <= old(Budget())
      ensures source == dest ==> trace == old(trace) && (s.Ok? <==> Mutable(source))
      ensures source != dest && !s.Ok? && Budget() == old(Budget()) ==>
        !old(Movable(source, dest)) || Unmovable(source, dest)
      ensures source != dest && (s.Ok? || trace != old(trace)) ==> Moves(job, source, dest, id, s)
      ensures source != dest && s.Ok? && old(source in remote && remote[source].File?) ==> old(Housed(dest))
      ensures source != dest && Budget() == old(Budget()) ==> MovesExactly(source, dest)
      ensures s.Fail? && Budget() + 1 == old(Budget()) ==>
        (old(source in remote && remote[source].File? && Housed(dest)) ==> remote == old(remote))
      ensures Spared(old(remote), remote)
      ensures source != dest && !old(Movable(source, dest)) && Budget() == old(Budget()) ==> s == Fail(
        if !Mutable(source) || !Mutable(dest) then UnsupportedPath
        else if source == [] || dest == [] || source < dest then Invalid
        else if OffLimits(old(remote), source) || (OffLimits(old(remote), dest) && |dest| > 1) then ReadOnly
        else if source !in old(remote) || !old(Housed(source)) then NotFound
        else if old(remote)[source].Directory? then Exists else IsDirectory)
      ensures source != dest && (OffLimits(old(remote), source) || OffLimits(old(remote), dest)) ==>
        !s.Ok? && remote == old(remote)
    {
      hide Ready, Run, Replaced, Fresh, Free, ValidId, AllProper, Mutable, Writable, Unprotected;
      job := *;
      if Movable(source, dest) { MovableIsAllowed(source, dest); }
      if !Mutable(source) || !Mutable(dest) {
        s := Fail(UnsupportedPath);
        return;
      }
      if source == dest {
        s := Ok;
        return;
      }
      s := ApproveNames(source, dest);
      if s.Ok? {
        NamesAreAllowed(source, dest);
        s, job := MoveApproved(source, dest, id);
      }
    }

    // ------------------------------------------------------ the whole journal

    /** Every durable state since `from` was reached by recovering these records. */
    ghost predicate Sweeping(records: Journal, from: nat)
      reads this`remote, this`journal, this`ledger, this`trace
    {
      Valid() && journaled && from < |trace| && PendingRun(records, from, trace)
    }

    lemma SweptOn(records: Journal, from: nat, stem: string, before: seq<Durable>)
      requires from < |before| && PendingRun(records, from, before) && before <= trace
      requires stem in records && records[stem].id == stem
      requires SafeRun(records[stem], |before| - 1, trace)
      ensures PendingRun(records, from, trace)
      ensures WithinReach(records[stem], before[|before| - 1], trace[|trace| - 1])
    {
      assert trace[..|before|] == before;
      PendingJoins(records, stem, from, |before| - 1, trace);
      RecoveryIsSafeAnywhere(records[stem], |before| - 1, trace, |trace| - 1);
    }

    method RecoverOne(stem: string, ghost records: Journal, ghost from: nat) returns (s: Status)
      requires Sweeping(records, from)
      requires stem in journal && stem in records && journal[stem] == records[stem]
      modifies this`faults, this`remote, this`journal, this`ledger, this`trace
      ensures Sweeping(records, from) && old(trace) <= trace && Budget() <= old(Budget())
      ensures Spared(old(remote), remote)
      ensures s.Ok? ==> journal == old(journal) - {stem}
      ensures !s.Ok? && Budget() == old(Budget()) ==> BlockedAt(records[stem], stem, old(Now()))
    {
      s := Query();
      if !s.Ok? { return; }
      var r := journal[stem];
      if !ValidRecord(r, stem) {
        return Fail(Invalid);
      }
      ValidRecordShaped(r, stem);
      ghost var before := trace;
      var committed;
      s, committed := RecoverUpload(r);
      SweptOn(records, from, stem, before);
    }

    /** Reconciles the records of the journal one after the other, in any order, and
        stops at the first it cannot reconcile. */
    method RecoverPending() returns (s: Status, count: nat)
      requires Valid()
      modifies this`faults, this`remote, this`journal, this`ledger, this`trace
      ensures Valid() && Budget() <= old(Budget()) && old(trace) != [] && old(trace) <= trace
      ensures PendingRun(old(journal), |old(trace)| - 1, trace) && Spared(old(remote), remote)
      ensures s.Ok? ==> journal == map[] && count == |old(journal)|
      ensures !s.Ok? && Budget() == old(Budget()) ==> Blocked(old(journal), |old(trace)| - 1, trace)
    {
      hide PendingRun, ValidRecord, Recoverable, OffLimits, WithinReach;
      NothingSwept(journal, trace);
      s, count := Ok, 0;
      if !journaled { return; }
      s := Query();
      if !s.Ok? { return; }
      ghost var records, from := journal, |trace| - 1;
      var stems := journal.Keys;
      while stems != {}
        invariant s.Ok? && Sweeping(records, from) && old(trace) <= trace && Budget() <= old(Budget())
        invariant Spared(old(remote), remote)
        invariant journal.Keys == stems && stems <= records.Keys && count + |stems| == |records.Keys|
        invariant forall stem :: stem in stems ==> journal[stem] == records[stem]
        decreases |stems|
      {
        var stem :| stem in stems;
        ghost var k := |trace| - 1;
        s := RecoverOne(stem, records, from);
        if !s.Ok? {
          assert Budget() == old(Budget()) ==> BlockedAt(records[stem], stem, trace[k]);
          return;
        }
        stems := stems - {stem};
        count := count + 1;
      }
    }

    // ------------------------------------------------------------- restarts

    /** Replacements begun under this journal, some of them unfinished. */
    ghost predicate Unfinished(jobs: map<string, Job>)
      reads this`remote, this`journal, this`ledger, this`trace
    {
      && Valid() && journaled && Together(jobs, Now()) && ledger.Keys <= jobs.Keys
      && forall a :: a in jobs ==> Sound(jobs[a])
    }

    lemma UnfinishedIsValid(jobs: map<string, Job>)
      requires Unfinished(jobs)
      ensures forall a :: a in journal ==> ValidRecord(journal[a], a)
    {
      forall a | a in journal
        ensures ValidRecord(journal[a], a)
      {
        assert Consistent(jobs[a], journal[a], remote);
        DescriptionSurvivesRestart(jobs[a], journal[a]);
      }
    }

    /** One recovery of whatever is unfinished: it fails only if a call goes wrong,
        and leaves every replacement either finished, undone or still on record. */
    method Restart(ghost jobs: map<string, Job>) returns (s: Status)
      requires Unfinished(jobs)
      modifies this`faults, this`remote, this`journal, this`ledger, this`trace
      ensures Unfinished(jobs) && Budget() <= old(Budget()) && old(trace) != [] && old(trace) <= trace
      ensures if s.Ok? then journal == map[] else Budget() < old(Budget()) || old(SomeStuck(jobs, Now()))
      ensures SomeStuck(jobs, Now()) <==> old(SomeStuck(jobs, Now()))
      ensures RunsAlone(jobs, |old(trace)| - 1, trace)
    {
      hide Together, PendingRun, Blocked, ValidRecord, RunsAlone, SomeStuck;
      ghost var from := |trace| - 1;
      UnfinishedIsValid(jobs);
      var count;
      s, count := RecoverPending();
      UnfinishedBlocksIff(jobs, from, trace);
      RecoveryUnsticksNone(jobs, from, trace, |trace| - 1);
      OnlyOneContinues(jobs, from, trace);
      StillTogether(jobs, from, trace);
    }

    /** As many restarts as it takes: with k calls still going wrong, at most k + 1. They
        empty the journal unless a file is stuck, and then they never do. */
    method RestartUntilClean(ghost jobs: map<string, Job>) returns (runs: nat)
      requires Unfinished(jobs)
      modifies this`faults, this`remote, this`journal, this`ledger, this`trace
      ensures Unfinished(jobs) && old(trace) != [] && old(trace) <= trace
      ensures SomeStuck(jobs, Now()) <==> old(SomeStuck(jobs, Now()))
      ensures journal == map[] <==> !SomeStuck(jobs, Now())
      ensures journal == map[] ==> runs <= old(Budget()) + 1 && forall a :: a in jobs ==> Settled(jobs[a], remote)
      ensures RunsAlone(jobs, |old(trace)| - 1, trace)
    {
      hide SomeStuck, RunsAlone, Together;
      FaultsBound(faults);
      ghost var from := |trace| - 1;
      var enough := |faults| + 1;
      var s := Restart(jobs);
      runs := 1;
      while !s.Ok? && runs < enough
        invariant Unfinished(jobs) && old(trace) <= trace && runs <= enough
        invariant SomeStuck(jobs, Now()) <==> old(SomeStuck(jobs, Now()))
        invariant s.Ok? ==> journal == map[]
        invariant !SomeStuck(jobs, Now()) ==>
          if s.Ok? then runs <= old(Budget()) + 1 else runs + Budget() <= old(Budget())
        invariant RunsAlone(jobs, from, trace)
        decreases enough - runs
      {
        s := RestartAgain(jobs, from);
        runs := runs + 1;
      }
      if journal == map[] { AllSettledWhenClean(jobs); }
    }

    method RestartAgain(ghost jobs: map<string, Job>, ghost from: nat) returns (s: Status)
      requires Unfinished(jobs) && from < |trace| && RunsAlone(jobs, from, trace)
      modifies this`faults, this`remote, this`journal, this`ledger, this`trace
      ensures Unfinished(jobs) && Budget() <= old(Budget()) && old(trace) <= trace
      ensures if s.Ok? then journal == map[] else Budget() < old(Budget()) || old(SomeStuck(jobs, Now()))
      ensures SomeStuck(jobs, Now()) <==> old(SomeStuck(jobs, Now()))
      ensures from < |trace| && RunsAlone(jobs, from, trace)
    {
      hide SomeStuck, RunsAlone, Together, Sound;
      ghost var before := trace;
      s := Restart(jobs);
      assert trace[..|before|] == before;
      RunsAloneJoins(jobs, from, |before| - 1, trace);
    }

    lemma AllSettledWhenClean(jobs: map<string, Job>)
      requires Unfinished(jobs) && journal == map[]
      ensures !SomeStuck(jobs, Now()) && forall a :: a in jobs ==> Settled(jobs[a], remote)
    {
      AllSettled(jobs, Now());
      hide Together;
    }

    lemma BegunIsUnfinished(job: Job, from: nat)
      requires Valid() && journaled && from < |trace| && Sound(job)
      requires Ready(job, trace[from]) && trace[from].ledger == map[] && Run(job, from, trace)
      ensures Unfinished(map[job.id := job])
      ensures SomeStuck(map[job.id := job], Now()) <==> Stuck(job, remote)
    {
      hide Ready, Run, Together, Stuck, Sound;
      BegunTogether(job, from, trace);
      if Stuck(job, remote) { StuckIsMoved(job, from, trace, |trace| - 1); }
      AloneStuck(job);
    }

    lemma AloneStuck(job: Job)
      requires Valid() && journaled && (Stuck(job, remote) ==> job.id in ledger)
      ensures SomeStuck(map[job.id := job], Now()) <==> Stuck(job, remote)
    {
      hide Stuck;
      assert job.id in map[job.id := job];
    }

    /** Whatever becomes of one replacement, restarts bring the store back to what it
        was before or to exactly the replacement, unless the file is stuck. */
    method Outlast(ghost job: Job, ghost from: nat) returns (runs: nat)
      requires Valid() && journaled && from < |trace| && Sound(job)
      requires Ready(job, trace[from]) && trace[from].ledger == map[] && Run(job, from, trace)
      modifies this`faults, this`remote, this`journal, this`ledger, this`trace
      ensures Valid() && (journal == map[] <==> !old(Stuck(job, remote)))
      ensures if journal == map[] then runs <= old(Budget()) + 1 && Concludes(job, old(trace)[from].remote, remote)
              else remote == Replaced(job, old(trace)[from].remote)
    {
      hide Ready, Run, Replaced, Concludes, Sound, Stuck, Together, RunsAlone, SomeStuck, Settled;
      ghost var before := trace;
      BegunIsUnfinished(job, from);
      runs := RestartUntilClean(map[job.id := job]);
      ConcludedAlone(job, from, before);
    }

    lemma ConcludedAlone(job: Job, from: nat, before: seq<Durable>)
      requires Valid() && from < |before| && before <= trace
      requires Ready(job, before[from]) && Run(job, from, before) && RunsAlone(map[job.id := job], |before| - 1, trace)
      ensures ledger == map[] ==> Concludes(job, before[from].remote, remote)
      ensures SomeStuck(map[job.id := job], Now()) ==> remote == Replaced(job, before[from].remote)
    {
      hide Ready, Run, RunsAlone, Replaced, Concludes;
      assert trace[..|before|] == before && trace[from] == before[from];
      if ledger == map[] { AloneIsAtomic(job, from, |before| - 1, trace); }
      if Stuck(job, remote) { AloneIsStuck(job, from, |before| - 1, trace); }
    }

    /** An upload and, if it left a record, the restarts after it. Where the directory is
        not there the staged file is all that may be left of it. */
    method UploadAndRestart(local: Local, clean: Path, id: string) returns (s: Status, runs: nat)
      requires Valid() && journaled && journal == map[]
      requires AllProper(clean) && ValidId(id) && Fresh(id, Now()) && Free(id, clean)
      modifies this`faults, this`remote, this`journal, this`ledger, this`trace
      ensures Valid() && journal == map[] && runs <= old(Budget())
      ensures s.Ok? ==> local.Regular? && old(Housed(clean)) && remote == old(remote)[clean := File(local.data)]
      ensures || remote == old(remote)
              || (local.Regular? && old(Housed(clean)) && remote == old(remote)[clean := File(local.data)])
              || (!old(Housed(clean)) && clean != [] && OnlyAt(StageName(id, clean), old(remote), remote))
    {
      hide Ready, Run, Fresh, Free, ValidId, AllProper, Sound, Mutable, Writable, Listable;
      ghost var from, job := |trace| - 1, *;
      s, job := UploadFile(local, clean, id);
      runs := 0;
      if journal != map[] {
        assert trace[from] == old(Now());
        BringsSoundly(job, id, [], clean, old(remote), local.data);
        runs := Outlast(job, from);
      }
    }

    /** A move of a file and, if it left a record, the restarts after it. The journal is
        empty in the end if and only if the file's new directory is there or the file has
        not moved. */
    method MoveAndRestart(source: Path, dest: Path, id: string) returns (s: Status, runs: nat)
      requires Valid() && journaled && journal == map[] && source != dest && source in remote && remote[source].File?
      requires AllProper(source) && AllProper(dest)
      requires ValidId(id) && Fresh(id, Now()) && Free(id, source) && Free(id, dest)
      modifies this`faults, this`remote, this`journal, this`ledger, this`trace
      ensures Valid() && (journal == map[] ==> runs <= old(Budget()))
      ensures remote in {old(remote), (old(remote) - {source})[dest := old(remote)[source]]}
      ensures s.Ok? ==> old(Housed(dest)) && remote == (old(remote) - {source})[dest := old(remote)[source]]
      ensures journal == map[] <==> old(Housed(dest)) || remote == old(remote)
    {
      hide Ready, Run, Fresh, Free, ValidId, AllProper, Sound, Renamed, Writable, Unprotected, OffLimits, Spared,
          Mutable;
      ghost var from, job := |trace| - 1, *;
      s, job := MoveReplace(source, dest, id);
      runs := 0;
      if journal != map[] {
        assert trace[from] == old(Now());
        BringsSoundly(job, id, source, dest, old(remote), old(remote)[source].data);
        runs := Outlast(job, from);
      }
    }
  }
}
