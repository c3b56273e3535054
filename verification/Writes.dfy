/** A request that writes: its body, the temporary file it fills and what closing
    that file does (internal/webdav/handler.go, fs.go). */
module Writes {
  import opened Paths
  import opened Store
  import opened Record
  import opened Protocol
  import opened Recovery
  import Maintenance
  import Reads
  import C = Client

  datatype ReadError = NoError | EndOfFile | Broken
  datatype Chunk = Chunk(data: Bytes, err: ReadError)

  /** The bytes of a body up to the first read that reports an end or an error. */
  function Sent(body: seq<Chunk>): Bytes {
    if body == [] then []
    else body[0].data + if body[0].err.NoError? then Sent(body[1..]) else []
  }

  /** The body's end was read, and nothing went wrong before. */
  predicate Ended(body: seq<Chunk>) {
    body != [] && (body[0].err.EndOfFile? || (body[0].err.NoError? && Ended(body[1..])))
  }

  /** Neither an end nor an error is read. */
  predicate Lasting(body: seq<Chunk>) {
    body == [] || (body[0].err.NoError? && Lasting(body[1..]))
  }

  lemma NothingSent(content: Bytes, at: nat)
    ensures Sent([]) == [] && !Ended([]) && Lasting([]) && Overwritten(content, at, []) == content
  {
  }

  /** One more read of the body. */
  lemma SentNext(sent: Bytes, body: seq<Chunk>, k: nat)
    requires k < |body|
    ensures var rest := if body[k].err.NoError? then Sent(body[k + 1..]) else [];
      sent + Sent(body[k..]) == (sent + body[k].data) + rest
    ensures Ended(body[k..]) == (body[k].err.EndOfFile? || (body[k].err.NoError? && Ended(body[k + 1..])))
    ensures Lasting(body[k..]) == (body[k].err.NoError? && Lasting(body[k + 1..]))
  {
    assert body[k..][0] == body[k] && body[k..][1..] == body[k + 1..];
  }

  /** The disk takes every byte it is given. */
  ghost predicate Accepting(body: seq<Chunk>, accepted: nat -> nat) {
    forall k: nat :: k < |body| ==> accepted(k) >= |body[k].data|
  }

  class WriteState {
    const put: bool
    const length: int
    var received: nat
    var eof: bool
    var failed: bool

    constructor (put: bool, length: int)
      ensures this.put == put && this.length == length && received == 0 && !eof && !failed
    {
      this.put, this.length, received, eof, failed := put, length, 0, false, false;
    }

    /** Remembers any error but the end of the body. */
    method Fail(err: ReadError)
      modifies this`failed
      ensures failed == (old(failed) || err.Broken?)
    {
      if err.Broken? {
        failed := true;
      }
    }

    method Read(chunk: Chunk)
      modifies this
      ensures received == old(received) + |chunk.data|
      ensures eof == (old(eof) || chunk.err.EndOfFile?)
      ensures failed == (old(failed) || chunk.err.Broken?)
    {
      received := received + |chunk.data|;
      if chunk.err.EndOfFile? {
        eof := true;
      }
      Fail(chunk.err);
    }

    /** Nothing failed and, for a PUT, the whole declared body arrived. */
    method Complete() returns (ok: bool)
      ensures !put ==> ok == !failed
      ensures put ==> (ok <==> !failed && eof && (length < 0 || received == length))
    {
      if failed {
        return false;
      }
      if put && (!eof || (length >= 0 && received != length)) {
        return false;
      }
      ok := true;
    }
  }

  datatype Outcome = Closed | Refused | Committed | Failed | Died

  /** What the local system may do to one close. */
  datatype Local = Local(fileCloses: bool, canceled: bool, invalidates: bool, copied: bool, described: bool)

  // ---------------------------------------------------------- the local file

  /** A file after writing these bytes at this offset: what was beneath them is gone,
      and a gap before them is filled with zeros. */
  function Overwritten(content: Bytes, at: nat, p: Bytes): Bytes {
    if p == [] then content
    else
      var before := if at <= |content| then content[..at] else content + seq(at - |content|, _ => 0 as byte);
      before + p + if at + |p| <= |content| then content[at + |p|..] else []
  }

  /** What was written reads back, and everything else reads as before. */
  lemma ReadsBack(content: Bytes, at: nat, p: Bytes)
    requires p != []
    ensures var c := Overwritten(content, at, p);
      && |c| == (if at + |p| <= |content| then |content| else at + |p|)
      && forall i :: 0 <= i < |c| ==>
           c[i] == if at <= i < at + |p| then p[i - at] else if i < |content| then content[i] else 0
  {
  }

  lemma WrittenAlone(p: Bytes)
    ensures Overwritten([], 0, p) == p
  {
  }

  /** Two writes in a row are one. */
  lemma WrittenOn(content: Bytes, at: nat, p: Bytes, q: Bytes)
    ensures Overwritten(Overwritten(content, at, p), at + |p|, q) == Overwritten(content, at, p + q)
  {
    if p == [] {
      assert p + q == q;
    } else if q == [] {
      assert p + q == p;
    } else {
      var c, d, more := Overwritten(content, at, p), Overwritten(content, at, p + q), p + q;
      ReadsBack(content, at, p);
      ReadsBack(c, at + |p|, q);
      ReadsBack(content, at, more);
      assert forall i :: 0 <= i < |more| ==> more[i] == if i < |p| then p[i] else q[i - |p|];
      hide Overwritten;
      assert Overwritten(c, at + |p|, q) == d;
    }
  }

  class WriteFile {
    const client: C.Client
    const recovery: Maintenance.Folder
    const state: WriteState
    const remotePath: Path
    /** The temporary file, until it is removed. */
    var temp: Option<Bytes>
    var position: nat
    var dirty: bool
    var commitOnClose: bool

    ghost predicate Valid()
      reads this, client, recovery, state
    {
      client.Valid() && recovery.Valid() && AllProper(remotePath)
    }

    constructor (client: C.Client, recovery: Maintenance.Folder, state: WriteState, remotePath: Path,
                 content: Bytes, append: bool, commitOnClose: bool)
      requires client.Valid() && recovery.Valid() && AllProper(remotePath)
      ensures Valid() && fresh(this)
      ensures this.client == client && this.recovery == recovery && this.state == state && this.remotePath == remotePath
      ensures temp == Some(content) && !dirty && this.commitOnClose == commitOnClose
      ensures position == if append then |content| else 0
    {
      this.client, this.recovery, this.state, this.remotePath := client, recovery, state, remotePath;
      temp, dirty, this.commitOnClose := Some(content), false, commitOnClose;
      position := if append then |content| else 0;
    }

    /** Anywhere at or after the start, even beyond the end. */
    method Seek(off: int, whence: Reads.Whence) returns (ok: bool)
      requires temp.Some?
      modifies this`position
      ensures var target := Reads.Target(old(position), |temp.value|, off, whence);
        ok == target.Some? && position == if ok then target.value else old(position)
    {
      var base := position;
      match whence {
        case Start => base := 0;
        case Current =>
        case End => base := |temp.value|;
        case Unknown => return false;
      }
      ok := base + off >= 0;
      if ok {
        position := base + off;
      }
    }

    /** Reads from where the last operation ended; nothing more is read than is there. */
    method ReadSome(count: nat) returns (p: Bytes)
      requires temp.Some?
      modifies this`position
      ensures p == Reads.Slice(temp.value, old(position), count).bytes && position == old(position) + |p|
    {
      p := Reads.Slice(temp.value, position, count).bytes;
      position := position + |p|;
    }

    /** Writes where the last operation ended, up to the offset a web upload may reach.
        The disk may accept only so many of the bytes; then the state fails. */
    method Write(p: Bytes, accepted: nat) returns (n: nat, ok: bool)
      requires temp.Some?
      modifies this`temp, this`position, this`dirty, state`failed
      ensures ok == (n == |p| && old(position) + |p| <= MAX_UPLOAD_SIZE)
      ensures n == if old(position) + |p| > MAX_UPLOAD_SIZE then 0 else if accepted < |p| then accepted else |p|
      ensures temp == Some(Overwritten(old(temp).value, old(position), p[..n])) && position == old(position) + n
      ensures dirty == (old(dirty) || n > 0)
      ensures state.failed == (old(state.failed) || !ok)
    {
      if position > MAX_UPLOAD_SIZE || |p| > MAX_UPLOAD_SIZE - position {
        state.Fail(Broken);
        return 0, false;
      }
      n := if accepted < |p| then accepted else |p|;
      temp := Some(Overwritten(temp.value, position, p[..n]));
      position := position + n;
      state.Fail(if n < |p| then Broken else NoError);
      if n > 0 {
        dirty := true;
      }
      ok := n == |p|;
    }

    /** Copies a request's body, or another file of the account, into this one until it
        ends or something fails; a state that has not failed vouches for every byte. Only
        what comes with the request is counted. */
    method CopyBody(body: seq<Chunk>, accepted: nat -> nat, fromRequest: bool)
      requires temp.Some? && !state.failed && (fromRequest ==> !state.eof && state.received == 0)
      modifies this`temp, this`position, this`dirty, state
      ensures temp.Some?
      ensures !state.failed ==> temp.value == Overwritten(old(temp).value, old(position), Sent(body))
      ensures fromRequest && !state.failed ==> state.received == |Sent(body)|
      ensures fromRequest && state.eof && !state.failed ==> Ended(body)
      ensures !fromRequest && !state.failed && !Lasting(body) ==> Ended(body)
      ensures Ended(body) && Accepting(body, accepted) && old(position) + |Sent(body)| <= MAX_UPLOAD_SIZE ==>
        !state.failed && (fromRequest ==> state.eof)
    {
      hide Overwritten, Sent, Ended, Lasting;
      NothingSent(old(temp).value, old(position));
      var k := 0;
      ghost var sent: Bytes := [];
      assert body[k..] == body && [] + Sent(body) == Sent(body);
      while k < |body|
        invariant k <= |body| && temp.Some? && !state.failed && (fromRequest ==> !state.eof)
        invariant temp.value == Overwritten(old(temp).value, old(position), sent) && position == old(position) + |sent|
        invariant sent + Sent(body[k..]) == Sent(body) && (fromRequest ==> state.received == |sent|)
        invariant Ended(body[k..]) == Ended(body) && Lasting(body[k..]) == Lasting(body)
      {
        var chunk := body[k];
        SentNext(sent, body, k);
        if fromRequest {
          state.Read(chunk);
        } else {
          state.Fail(chunk.err);
        }
        if chunk.data != [] {
          WrittenOn(old(temp).value, old(position), sent, chunk.data);
          var n, ok := Write(chunk.data, accepted(k));
          assert ok ==> chunk.data[..n] == chunk.data;
          if !ok { return; }
        } else {
          assert sent + chunk.data == sent;
        }
        sent := sent + chunk.data;
        if !chunk.err.NoError? {
          assert sent + [] == sent;
          return;
        }
        k := k + 1;
      }
      assert body[k..] == [] && sent + [] == sent;
    }

    /** Closing goes on to upload. */
    ghost predicate Accepted(local: Local)
      reads this, state
    {
      && local.fileCloses && (dirty || commitOnClose) && !local.canceled && !state.failed
      && (state.put ==> state.eof && (state.length < 0 || state.received == state.length))
    }

    /** The upload can be had: the path may be written, and its directory is there. */
    ghost predicate Committable(payload: Bytes)
      reads this, client
    {
      client.Uploadable(C.Regular(payload), remotePath) && client.Housed(remotePath)
    }

    /** The bytes are where they can be found again. */
    ghost predicate Preserved(payload: Bytes, blob: nat)
      reads this, client, recovery
    {
      || Lookup(client.remote, remotePath) == Some(File(payload))
      || (&& Maintenance.Regular(recovery.disk, Maintenance.Blob(blob))
          && recovery.disk[Maintenance.Blob(blob)].data == payload)
      || temp == Some(payload)
    }

    /** Nothing is uploaded unless the whole body arrived, and once it has, no outcome
        loses its bytes. */
    method Close(id: string, blob: nat, description: Bytes, budget: int, now: int, local: Local) returns (o: Outcome)
      requires Valid() && temp.Some?
      requires ValidId(id) && Fresh(id, client.Now()) && Free(id, remotePath)
      requires Maintenance.Blob(blob) !in recovery.names && Maintenance.Metadata(blob) !in recovery.names
      modifies this`temp, client`faults, client`remote, client`journal, client`ledger, client`trace, recovery
      ensures client.Valid() && recovery.Valid()
      ensures !old(Accepted(local)) ==> client.trace == old(client.trace) && temp == None
      ensures !old(Accepted(local)) ==>
        o == if !local.fileCloses then Failed else if !old(dirty || commitOnClose) then Closed else Refused
      ensures old(Accepted(local)) ==> o in {Committed, Failed, Died} && Preserved(old(temp).value, blob)
      ensures state.failed ==> client.trace == old(client.trace) && o != Committed
      // The temporary file goes once its bytes are elsewhere, and they go to the recovery
      // directory if the upload fails and they fit.
      ensures o == Committed ==> temp == None && recovery.disk == old(recovery.disk)
      ensures old(Accepted(local)) && o == Failed && local.copied && local.described ==>
        (|old(temp).value| + |description| <= budget ==>
           temp == None && Maintenance.Regular(recovery.disk, Maintenance.Blob(blob))
           && recovery.disk[Maintenance.Blob(blob)].data == old(temp).value)
      ensures !state.put && !state.failed && local.fileCloses && !local.canceled && local.invalidates ==>
        (old(dirty || commitOnClose) && old(Committable(temp.value)) ==>
           o == Committed || client.Budget() < old(client.Budget()))
      ensures o == Committed ==>
        && old(Accepted(local)) && old(Committable(temp.value))
        && client.remote == old(client.remote)[remotePath := File(old(temp).value)]
      ensures old(Accepted(local)) && local.invalidates && old(Committable(temp.value)) ==>
        o == Committed || client.Budget() < old(client.Budget())
      ensures old(recovery.Within(budget, now)) ==> recovery.Within(budget, now)
    {
      hide Mutable, Fresh, Free, ValidId, AllProper, Maintenance.OnlyAged, Maintenance.Needed,
          Maintenance.NoneYoungerGone,
        Maintenance.Usage;
      var payload := temp.value;
      if !local.fileCloses {
        temp := None;
        return Failed;
      }
      if !dirty && !commitOnClose {
        temp := None;
        return Closed;
      }
      var whole := state.Complete();
      if local.canceled || !whole {
        temp := None;
        return Refused;
      }
      var s := Upload(payload, id, local.invalidates);
      o := if s.Ok? then Committed else if s.Crash? then Died else Failed;
      var kept, ok := false, s.Ok?;
      if s.Fail? {
        kept, ok := recovery.RetainUpload(payload, description, blob, budget, now, local.copied, local.described);
      }
      if ok {
        temp := None;
      }
    }

    /** Drops the cached copies of the path and uploads. */
    method Upload(payload: Bytes, id: string, invalidates: bool) returns (s: C.Status)
      requires Valid() && ValidId(id) && Fresh(id, client.Now()) && Free(id, remotePath)
      modifies client`faults, client`remote, client`journal, client`ledger, client`trace
      ensures client.Valid()
      ensures s.Ok? ==> old(Committable(payload)) && client.remote == old(client.remote)[remotePath := File(payload)]
      ensures invalidates && old(Committable(payload)) ==>
        s.Ok? || client.Budget() < old(client.Budget())
    {
      s := C.Fail(C.LocalFile);
      if invalidates {
        ghost var job;
        s, job := client.UploadFile(C.Regular(payload), remotePath, id);
      }
    }

    /** A PUT from its first byte to its last: what it commits is the body, whole. */
    method HandlePut(body: seq<Chunk>, accepted: nat -> nat, id: string, blob: nat, description: Bytes, budget: int,
                     now: int, local: Local) returns (o: Outcome)
      requires Valid() && temp == Some([]) && position == 0
      requires state.put && !state.eof && !state.failed && state.received == 0
      requires ValidId(id) && Fresh(id, client.Now()) && Free(id, remotePath)
      requires Maintenance.Blob(blob) !in recovery.names && Maintenance.Metadata(blob) !in recovery.names
      modifies this, state, client`faults, client`remote, client`journal, client`ledger, client`trace, recovery
      ensures client.trace != old(client.trace) ==>
        Ended(body) && (state.length >= 0 ==> |Sent(body)| == state.length) && Preserved(Sent(body), blob)
      ensures o == Committed ==>
        && Ended(body) && (state.length >= 0 ==> |Sent(body)| == state.length)
        && client.remote == old(client.remote)[remotePath := File(Sent(body))]
      ensures Ended(body) && (state.length >= 0 ==> |Sent(body)| == state.length) && Accepting(body, accepted) ==>
        (local.fileCloses && !local.canceled && local.invalidates && old(commitOnClose)
         && old(Committable(Sent(body))) ==>
           o == Committed || client.Budget() < old(client.Budget()))
    {
      hide Overwritten, Sent, Ended, Accepting, ValidId, Fresh, Free, Mutable;
      WrittenAlone(Sent(body));
      CopyBody(body, accepted, true);
      o := Close(id, blob, description, budget, now, local);
    }

    /** A COPY of a file, whose reads come to an end or fail: what it commits is the source,
        whole, however much of a body came with the request. */
    method HandleCopy(source: seq<Chunk>, accepted: nat -> nat, id: string, blob: nat, description: Bytes, budget: int,
                      now: int, local: Local) returns (o: Outcome)
      requires Valid() && temp == Some([]) && position == 0 && !state.put && !state.failed && !Lasting(source)
      requires ValidId(id) && Fresh(id, client.Now()) && Free(id, remotePath)
      requires Maintenance.Blob(blob) !in recovery.names && Maintenance.Metadata(blob) !in recovery.names
      modifies this, state, client`faults, client`remote, client`journal, client`ledger, client`trace, recovery
      ensures client.trace != old(client.trace) ==> Ended(source) && Preserved(Sent(source), blob)
      ensures o == Committed ==>
        Ended(source) && client.remote == old(client.remote)[remotePath := File(Sent(source))]
      ensures Ended(source) && Accepting(source, accepted) ==>
        (local.fileCloses && !local.canceled && local.invalidates && old(commitOnClose)
         && old(Committable(Sent(source))) ==>
           o == Committed || client.Budget() < old(client.Budget()))
    {
      hide Overwritten, Sent, Ended, Accepting, ValidId, Fresh, Free, Mutable;
      WrittenAlone(Sent(source));
      CopyBody(source, accepted, false);
      o := Close(id, blob, description, budget, now, local);
    }
  }
}
