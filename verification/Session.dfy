/** The saved session: logins replace it, and running servers refresh it without
    ever overwriting a login they have not seen (internal/session/store.go,
    cmd/idrive-gateway/session.go). */
module Session {
  import opened Store

  /** `cookies` stands for everything a session holds besides its identity. */
  datatype Saved = Saved(id: string, host: string, savedAt: int, cookies: seq<string>)

  /** A time no save ever gets: the revision of a server that found no file. */
  const ZERO: int := 0

  /** One write of the file, and the session it was to replace if it named one. */
  datatype Write = Write(saved: Saved, expected: Option<Saved>)

  datatype Result = Ok | MissingHost | Unreadable | Changed | NotWritten

  /** What the file system makes of a write. */
  datatype Fault = NoFault | NotDone | LostReply

  function Fingerprint(s: Saved): Saved {
    s.(savedAt := ZERO)
  }

  predicate Same(a: Saved, b: Saved) {
    a.id == b.id && a.host == b.host && a.savedAt == b.savedAt
  }

  class SessionFile {
    var file: Option<Saved>
    /** Every write there has been, in order. */
    ghost var log: seq<Write>

    /** Times increase from write to write, and a write that names the session it is to
        replace directly follows a write of it. */
    ghost predicate Valid()
      reads this
    {
      && (file.Some? ==> log != [] && log[|log| - 1].saved == file.value)
      && (forall i :: 0 <= i < |log| ==> log[i].saved.savedAt > ZERO)
      && (forall i, j :: 0 <= i < j < |log| ==> log[i].saved.savedAt < log[j].saved.savedAt)
      && (forall j :: 0 <= j < |log| && log[j].expected.Some? ==>
            j > 0 && Same(log[j - 1].saved, log[j].expected.value))
    }

    ghost predicate Later(now: int)
      reads this
    {
      now > ZERO && forall i :: 0 <= i < |log| ==> log[i].saved.savedAt < now
    }

    constructor ()
      ensures Valid() && file == None && log == []
    {
      file, log := None, [];
    }

    /** Writes the session, but where one to replace is named only over that one. */
    method Save(data: Saved, expected: Option<Saved>, now: int, fault: Fault)
      returns (result: Result, saved: Saved)
      requires Valid() && Later(now)
      modifies this
      ensures Valid()
      ensures log == old(log) || (log == old(log) + [Write(saved, expected)] && file == Some(saved))
      ensures log != old(log) ==>
        saved == data.(savedAt := now) && (expected.Some? ==> old(file).Some? && Same(old(file).value, expected.value))
      ensures result ==
        if data.host == "" then MissingHost
        else if expected.Some? && old(file).None? then Unreadable
        else if expected.Some? && !Same(old(file).value, expected.value) then Changed
        else if fault.NoFault? then Ok else NotWritten
      ensures result.Ok? ==> log != old(log)
    {
      saved := data;
      if data.host == "" {
        return MissingHost, saved;
      }
      if expected.Some? {
        if file.None? {
          return Unreadable, saved;
        }
        if !Same(file.value, expected.value) {
          return Changed, saved;
        }
      }
      saved := data.(savedAt := now);
      if fault.NotDone? {
        return NotWritten, saved;
      }
      file := Some(saved);
      log := log + [Write(saved, expected)];
      result := if fault.LostReply? then NotWritten else Ok;
    }
  }

  /** A running server's periodic save. */
  class Persistence {
    const store: SessionFile
    const id: string
    const host: string
    var last: Option<Saved>
    var revision: int
    /** The write the revision belongs to. */
    ghost var seen: Option<nat>

    ghost predicate Valid()
      reads this, store
    {
      && store.Valid()
      && match seen
         case None => revision == ZERO
         case Some(k) => k < |store.log| && store.log[k].saved.savedAt == revision
    }

    /** Takes its revision from whatever file is there. */
    constructor (store: SessionFile, id: string, host: string, current: Saved)
      requires store.Valid()
      ensures Valid() && this.store == store && this.id == id && this.host == host
      ensures seen == if store.file.Some? then Some(|store.log| - 1) else None
    {
      this.store, this.id, this.host := store, id, host;
      last := Some(Fingerprint(current));
      revision := if store.file.Some? then store.file.value.savedAt else ZERO;
      seen := if store.file.Some? then Some(|store.log| - 1) else None;
    }

    /** Another process's writes leave this server's claim as it is. */
    twostate lemma Undisturbed()
      requires old(Valid()) && store.Valid() && old(store.log) <= store.log
      requires revision == old(revision) && seen == old(seen)
      ensures Valid()
    {
    }

    /** A save that writes replaces exactly the write this server last saw, which is
        of its own session; and it fails to recognise no such write. */
    method Save(cookies: seq<string>, now: int, fault: Fault) returns (result: Result)
      requires Valid() && store.Later(now)
      modifies this`last, this`revision, this`seen, store
      ensures Valid() && old(store.log) <= store.log
      ensures store.log != old(store.log) ==>
        && Refreshes(store.log[|store.log| - 1])
        && seen.Some? && |store.log| == |old(store.log)| + 1 && old(seen) == Some(|old(store.log)| - 1)
        && old(store.log)[|old(store.log)| - 1].saved.id == id
        && old(store.log)[|old(store.log)| - 1].saved.host == host
      ensures result.Ok? ==> last == Some(Saved(id, host, ZERO, cookies))
      ensures result.Ok? && old(last) != Some(Saved(id, host, ZERO, cookies)) ==>
        store.file == Some(Saved(id, host, now, cookies)) && seen == Some(|store.log| - 1)
      ensures fault.NoFault? && host != "" && old(seen).Some? && old(seen).value == |old(store.log)| - 1 ==>
        (old(store.file).Some? && old(store.file).value.id == id && old(store.file).value.host == host ==> result.Ok?)
      ensures result.Changed? ==> old(store.file).Some?
      ensures result.Changed? && old(store.file).value.id == id && old(store.file).value.host == host ==>
        old(seen).None? || old(seen).value < |old(store.log)| - 1
    {
      var data := Saved(id, host, ZERO, cookies);
      var sum := Fingerprint(data);
      if last == Some(sum) {
        return Ok;
      }
      data := data.(savedAt := revision);
      var saved;
      result, saved := store.Save(data, Some(data), now, fault);
      if !result.Ok? { return; }
      last, revision := Some(sum), saved.savedAt;
      seen := Some(|store.log| - 1);
    }
  }

  /** A server saves what it loaded, with new cookies. */
  predicate Refreshes(w: Write) {
    w.expected.Some? && w.expected.value.id == w.saved.id && w.expected.value.host == w.saved.host
  }

  /** Between one login and the next the file stays in that login's session, however
      many servers refresh it: none ever brings an older session back. */
  lemma {:induction false} SessionSinceLogin(store: SessionFile, login: nat, k: nat)
    requires store.Valid() && login <= k < |store.log|
    requires forall j :: login < j <= k ==> Refreshes(store.log[j])
    ensures store.log[k].saved.id == store.log[login].saved.id && store.log[k].saved.host == store.log[login].saved.host
  {
    if k == login {
    } else {
      SessionSinceLogin(store, login, k - 1);
      assert Refreshes(store.log[k]);
    }
  }
}
