/** A read handle that downloads its file only when it is first read
    (internal/webdav/fs.go, cache.go). */
module Reads {
  import opened Store

  datatype Whence = Start | Current | End | Unknown
  datatype Error = ClosedHandle | InvalidSeek | Unavailable

  datatype Reply = Offset(at: nat) | Data(bytes: Bytes, eof: bool) | Failure(error: Error) | Done

  datatype Op =
    | Seek(off: int, whence: Whence)
    | Read(count: nat, fetched: Option<Bytes>)
    | ReadAt(count: nat, from: nat, fetched: Option<Bytes>)
    | Close

  /** A file open from the start: its bytes and an offset into them. */
  datatype Eager = Eager(content: Bytes, at: nat, closed: bool)

  function Target(at: nat, size: nat, off: int, whence: Whence): Option<nat> {
    var base := match whence case Start => 0 case Current => at case End => size as int case Unknown => 0;
    if whence.Unknown? || base + off < 0 then None else Some(base + off)
  }

  /** What a read of this many bytes at this offset gives. */
  function Slice(content: Bytes, at: nat, count: nat): Reply {
    if at >= |content| then Data([], count > 0)
    else if at + count <= |content| then Data(content[at..at + count], false)
    else Data(content[at..], false)
  }

  /** A positioned read says so when it comes up short. */
  function SliceAt(content: Bytes, from: nat, count: nat): Reply {
    var bytes := Slice(content, from, count).bytes;
    Data(bytes, |bytes| < count)
  }

  /** A read gives as much as is asked for and there, from the offset on, and tells the end
      only where there is nothing. */
  lemma SliceIsThere(content: Bytes, at: nat, count: nat)
    ensures var r, left := Slice(content, at, count), if at <= |content| then |content| - at else 0;
      && r.Data? && |r.bytes| == (if count < left then count else left)
      && (forall i :: 0 <= i < |r.bytes| ==> r.bytes[i] == content[at + i])
      && (r.eof <==> count > 0 && at >= |content|)
    ensures var r, s := Slice(content, at, count), SliceAt(content, at, count);
      s.Data? && s.bytes == r.bytes && (s.eof <==> |r.bytes| < count)
  {
  }

  /** Offsets are counted from the start, the present offset or the end. */
  lemma TargetIsCounted(at: nat, size: nat, off: int)
    ensures Target(at, size, off, Start) == (if off >= 0 then Some(off) else None)
    ensures Target(at, size, off, Current) == (if at + off >= 0 then Some(at + off) else None)
    ensures Target(at, size, off, End) == (if size + off >= 0 then Some(size + off) else None)
    ensures Target(at, size, off, Unknown) == None
  {
  }

  function EagerStep(e: Eager, op: Op): (Eager, Reply) {
    if e.closed then (e, if op.Close? then Done else Failure(ClosedHandle))
    else
      match op
      case Seek(off, whence) =>
        var target := Target(e.at, |e.content|, off, whence);
        if target.None? then (e, Failure(InvalidSeek)) else (e.(at := target.value), Offset(target.value))
      case Read(count, fetched) =>
        var r := Slice(e.content, e.at, count);
        (e.(at := e.at + |r.bytes|), r)
      case ReadAt(count, from, fetched) => (e, SliceAt(e.content, from, count))
      case Close => (e.(closed := true), Done)
  }

  /** Downloads bring the file's own bytes, or bytes whose size gives them away, or
      nothing. */
  predicate Honest(op: Op, content: Bytes) {
    (op.Read? || op.ReadAt?) && op.fetched.Some? && |op.fetched.value| == |content| ==> op.fetched.value == content
  }

  /** A download that fails loses the operation it was for, and nothing else. */
  predicate MayBeLost(op: Op, size: nat) {
    (op.Read? || op.ReadAt?) && (op.fetched.None? || |op.fetched.value| != size)
  }

  function Step(e: Eager, op: Op, lost: bool): (Eager, Reply) {
    if lost then (e, Failure(Unavailable)) else EagerStep(e, op)
  }

  function After(e: Eager, ops: seq<Op>, lost: seq<bool>): Eager
    requires |lost| == |ops|
  {
    var k := |ops| - 1;
    if ops == [] then e else Step(After(e, ops[..k], lost[..k]), ops[k], lost[k]).0
  }

  function Replies(e: Eager, ops: seq<Op>, lost: seq<bool>): seq<Reply>
    requires |lost| == |ops|
  {
    var k := |ops| - 1;
    if ops == [] then []
    else Replies(e, ops[..k], lost[..k]) + [Step(After(e, ops[..k], lost[..k]), ops[k], lost[k]).1]
  }

  lemma NothingAsked(e: Eager)
    ensures After(e, [], []) == e && Replies(e, [], []) == []
  {
  }

  lemma OneMoreAsked(e: Eager, ops: seq<Op>, lost: seq<bool>, k: nat, missed: bool)
    requires k < |ops| && |lost| == k
    ensures var before := After(e, ops[..k], lost);
      && After(e, ops[..k + 1], lost + [missed]) == Step(before, ops[k], missed).0
      && Replies(e, ops[..k + 1], lost + [missed]) == Replies(e, ops[..k], lost) + [Step(before, ops[k], missed).1]
      && Step(before, ops[k], missed).0.content == before.content
  {
    hide EagerStep;
    assert ops[..k + 1][..k] == ops[..k] && (lost + [missed])[..k] == lost;
    StepKeepsContent(After(e, ops[..k], lost), ops[k], missed);
  }

  lemma StepKeepsContent(e: Eager, op: Op, lost: bool)
    ensures Step(e, op, lost).0.content == e.content
  {
  }

  /** The handle's own state: the downloaded file with its offset, or the offset to
      open it at. */
  datatype OpenFile = OpenFile(content: Bytes, at: nat)

  class ReadFile {
    /** The size the listing gave. */
    const size: nat
    var file: Option<OpenFile>
    var pendingSeek: nat
    var closed: bool

    constructor (size: nat)
      ensures this.size == size && file == None && pendingSeek == 0 && !closed
    {
      this.size, file, pendingSeek, closed := size, None, 0, false;
    }

    /** The handle stands for a file of these bytes opened at the start. */
    ghost predicate Stands(e: Eager)
      reads this
    {
      && |e.content| == size && closed == e.closed
      && (!closed ==> match file case None => pendingSeek == e.at case Some(f) => f == OpenFile(e.content, e.at))
    }

    /** Downloads on first use; a copy of any other size is refused. */
    method EnsureLocal(fetched: Option<Bytes>) returns (err: Option<Error>)
      modifies this`file
      ensures closed ==> err == Some(ClosedHandle) && file == old(file)
      ensures !closed && old(file).Some? ==> err == None && file == old(file)
      ensures !closed && old(file).None? ==>
        if fetched.Some? && |fetched.value| == size
        then err == None && file == Some(OpenFile(fetched.value, pendingSeek))
        else err == Some(Unavailable) && file == None
    {
      if closed {
        return Some(ClosedHandle);
      }
      if file.Some? {
        return None;
      }
      if fetched.None? || |fetched.value| != size {
        return Some(Unavailable);
      }
      file := Some(OpenFile(fetched.value, pendingSeek));
      err := None;
    }

    method SeekTo(off: int, whence: Whence) returns (r: Reply)
      modifies this`file, this`pendingSeek
      ensures forall e :: old(Stands(e)) ==>
        Stands(EagerStep(e, Seek(off, whence)).0) && r == EagerStep(e, Seek(off, whence)).1
    {
      if closed {
        return Failure(ClosedHandle);
      }
      if file.Some? {
        var target := Target(file.value.at, |file.value.content|, off, whence);
        if target.None? {
          return Failure(InvalidSeek);
        }
        file := Some(file.value.(at := target.value));
        return Offset(target.value);
      }
      var base := pendingSeek;
      match whence {
        case Start => base := 0;
        case Current =>
        case End => base := size;
        case Unknown => return Failure(InvalidSeek);
      }
      if base + off < 0 {
        return Failure(InvalidSeek);
      }
      pendingSeek := base + off;
      r := Offset(pendingSeek);
    }

    method ReadSome(count: nat, fetched: Option<Bytes>) returns (r: Reply, ghost lost: bool)
      modifies this`file
      ensures forall e :: old(Stands(e)) && Honest(Read(count, fetched), e.content) ==>
        Stands(Step(e, Read(count, fetched), lost).0) && r == Step(e, Read(count, fetched), lost).1
      ensures lost ==> MayBeLost(Read(count, fetched), size)
    {
      var err := EnsureLocal(fetched);
      lost := err == Some(Unavailable);
      if err.Some? {
        return Failure(err.value), lost;
      }
      r := Slice(file.value.content, file.value.at, count);
      file := Some(file.value.(at := file.value.at + |r.bytes|));
    }

    method ReadSomeAt(count: nat, from: nat, fetched: Option<Bytes>) returns (r: Reply, ghost lost: bool)
      modifies this`file
      ensures forall e :: old(Stands(e)) && Honest(ReadAt(count, from, fetched), e.content) ==>
        Stands(Step(e, ReadAt(count, from, fetched), lost).0) && r == Step(e, ReadAt(count, from, fetched), lost).1
      ensures lost ==> MayBeLost(ReadAt(count, from, fetched), size)
    {
      var err := EnsureLocal(fetched);
      lost := err == Some(Unavailable);
      if err.Some? {
        return Failure(err.value), lost;
      }
      r := SliceAt(file.value.content, from, count);
    }

    method CloseHandle()
      modifies this`file, this`closed
      ensures forall e :: old(Stands(e)) ==> Stands(EagerStep(e, Close).0)
    {
      closed, file := true, None;
    }

    method Perform(op: Op) returns (r: Reply, ghost lost: bool)
      modifies this
      ensures forall e :: old(Stands(e)) && Honest(op, e.content) ==>
        Stands(Step(e, op, lost).0) && r == Step(e, op, lost).1
      ensures lost ==> MayBeLost(op, size)
    {
      lost := false;
      match op {
        case Seek(off, whence) => r := SeekTo(off, whence);
        case Read(count, fetched) => r, lost := ReadSome(count, fetched);
        case ReadAt(count, from, fetched) => r, lost := ReadSomeAt(count, from, fetched);
        case Close =>
          CloseHandle();
          r := Done;
      }
    }

    /** Whatever is asked of it, in whatever order, the lazy handle replies as the
        eager one does, save for the operations lost to failed downloads. */
    method PerformAll(ops: seq<Op>, ghost content: Bytes) returns (replies: seq<Reply>, ghost lost: seq<bool>)
      requires Stands(Eager(content, 0, false)) && forall op :: op in ops ==> Honest(op, content)
      modifies this
      ensures |lost| == |ops| && replies == Replies(Eager(content, 0, false), ops, lost)
      ensures forall k :: 0 <= k < |ops| && lost[k] ==> MayBeLost(ops[k], |content|)
    {
      assert |content| == size;
      hide After, Replies, Step, EagerStep, Stands, Honest, MayBeLost;
      ghost var start := Eager(content, 0, false);
      NothingAsked(start);
      replies, lost := [], [];
      for k := 0 to |ops|
        invariant |lost| == k && Stands(After(start, ops[..k], lost)) && After(start, ops[..k], lost).content == content
        invariant replies == Replies(start, ops[..k], lost)
        invariant forall i :: 0 <= i < k && lost[i] ==> MayBeLost(ops[i], |content|)
      {
        assert ops[k] in ops;
        var r;
        ghost var missed;
        r, missed := Perform(ops[k]);
        OneMoreAsked(start, ops, lost, k, missed);
        replies, lost := replies + [r], lost + [missed];
      }
      assert ops[..|ops|] == ops;
    }
  }
}
