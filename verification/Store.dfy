// The remote store as its own rename and delete behave, and the fingerprints
// the gateway compares (internal/testevs/server.go, internal/evs/upload.go).
module Store {
  import opened Paths

  newtype byte = x: int | 0 <= x < 256
  type Bytes = seq<byte>

  datatype Option<+T> = None | Some(value: T)

  /** A directory is a device root, or of unknown class, when `device` is set. */
  datatype Entry = File(data: Bytes) | Directory(device: bool)

  type Remote = map<Path, Entry>

  /** SHA-256 taken as injective: a digest stands for the bytes it came from. */
  datatype Digest = Digest(preimage: Bytes)

  function Sha256(data: Bytes): Digest {
    Digest(data)
  }

  function Lookup(m: Remote, name: Path): Option<Entry> {
    if name in m then Some(m[name]) else None
  }

  /** A regular file of this size and digest is stored under the name. */
  predicate StoresFile(m: Remote, name: Path, size: int, digest: Digest) {
    name in m && m[name].File? && |m[name].data| == size && Sha256(m[name].data) == digest
  }

  /** Deleting a name takes everything beneath it. */
  function Deleted(m: Remote, top: Path): Remote {
    map q | q in m && !(top <= q) :: m[q]
  }

  /** The names a directory and its contents get when it is renamed. */
  function Carried(m: Remote, from: Path, to: Path): set<Path> {
    set q | q in m && from <= q :: to + q[|from|..]
  }

  /** One server-side rename: a file moves alone, a directory with its contents. */
  function Renamed(m: Remote, from: Path, to: Path): Remote
    requires from in m
  {
    if m[from].File? then (m - {from})[to := m[from]]
    else
      var carried := Carried(m, from, to);
      CarriedBack(m, from, to);
      map q | q in m.Keys + carried && (q in carried || !(from <= q)) ::
        if q in carried then m[from + q[|to|..]] else m[q]
  }

  lemma CarriedBack(m: Remote, from: Path, to: Path)
    ensures forall q :: q in Carried(m, from, to) ==> to <= q && from + q[|to|..] in m
  {
    forall q | q in Carried(m, from, to)
      ensures to <= q && from + q[|to|..] in m
    {
      var p :| p in m && from <= p && q == to + p[|from|..];
      assert from + q[|to|..] == p;
    }
  }

  /** Only a directory that is there can be listed. */
  predicate Listable(m: Remote, dir: Path) {
    dir == [] || (dir in m && m[dir].Directory?)
  }

  /** What looking a name up in a listing of its directory finds; where there is no
      such directory, nothing, although the service may store files there. */
  function Seen(m: Remote, name: Path): Option<Entry> {
    if Listable(m, Parent(name)) then Lookup(m, name) else None
  }

  /** Such a file is there to be found and read back. */
  predicate Matches(m: Remote, name: Path, size: int, digest: Digest) {
    Listable(m, Parent(name)) && StoresFile(m, name, size, digest)
  }

  /** The root entry above a special folder is an ordinary directory, so the name
      may be changed. */
  predicate Writable(m: Remote, name: Path) {
    IsReadOnlyPath(name) ==> Lookup(m, [name[0]]) != Some(Directory(true))
  }

  /** Device roots themselves can be neither moved nor deleted. */
  predicate Unprotected(m: Remote, name: Path) {
    name != [] && (|name| == 1 ==> name in m && m[name] != Directory(true))
  }

  predicate CanDelete(m: Remote, name: Path) {
    Mutable(name) && Writable(m, name) && Unprotected(m, name)
  }

  /** What is checked before a rename is sent, other than that the new name is free. */
  predicate MayRename(m: Remote, from: Path, to: Path) {
    && Mutable(from) && Mutable(to) && to != []
    && Writable(m, from) && Writable(m, to) && Unprotected(m, from)
  }

  predicate CanRename(m: Remote, from: Path, to: Path) {
    MayRename(m, from, to) && from in m && to !in m
  }

  /** Device roots, and what is in their special folders or is one. */
  predicate OffLimits(m: Remote, name: Path) {
    || (|name| == 1 && Lookup(m, name) == Some(Directory(true)))
    || (&& |name| >= 2 && Lookup(m, [name[0]]) == Some(Directory(true))
        && (name[1] == "Contacts" || name[1] == "Calendar" || name[1] == "Call Logs" || name[1] == "SMS"))
  }

  /** Whatever is off limits is there as before, and off limits as before. */
  ghost predicate Spared(m: Remote, m': Remote) {
    forall q :: OffLimits(m, q) ==> OffLimits(m', q) && Lookup(m', q) == Lookup(m, q)
  }

  // -------------------------------------------------------------------- lemmas

  /** Every name above one that is off limits is so too, but the root. */
  lemma OffLimitsAbove(m: Remote, name: Path, q: Path)
    requires OffLimits(m, q) && name <= q && name != []
    ensures OffLimits(m, name)
  {
    if |name| == 1 {
      assert name == [q[0]];
      assert |q| == 1 ==> q == name;
    }
  }

  lemma AllowedIsWithin(m: Remote, name: Path)
    requires Writable(m, name) && (name in m && |name| == 1 ==> m[name] != Directory(true))
    ensures !OffLimits(m, name)
  {
  }

  /** A name may be deleted unless it is the root, off limits, has a component that ends in
      white space, or would be a root nobody lists. */
  lemma CanDeleteIff(m: Remote, name: Path)
    ensures CanDelete(m, name) <==>
      && name != [] && !OffLimits(m, name) && (|name| == 1 ==> name in m)
      && forall c :: c in name && c != "" ==> !SpaceAtEnd(c)
  {
  }

  lemma CanRenameIff(m: Remote, from: Path, to: Path)
    ensures CanRename(m, from, to) <==>
      && from in m && to !in m && from != [] && to != [] && !OffLimits(m, from) && !OffLimits(m, to)
      && forall p, c :: p in {from, to} && c in p && c != "" ==> !SpaceAtEnd(c)
  {
  }

  lemma DeletingSpares(m: Remote, name: Path)
    requires CanDelete(m, name)
    ensures Spared(m, Deleted(m, name)) && !OffLimits(m, name)
  {
    AllowedIsWithin(m, name);
    forall q | OffLimits(m, q)
      ensures !(name <= q) && !(name <= [q[0]])
    {
      OffLimitsAbove(m, [q[0]], q);
      if name <= q { OffLimitsAbove(m, name, q); }
      if name <= [q[0]] { OffLimitsAbove(m, name, [q[0]]); }
    }
    hide Mutable, Writable, Unprotected;
  }

  lemma RenamingSpares(m: Remote, from: Path, to: Path)
    requires CanRename(m, from, to)
    ensures Spared(m, Renamed(m, from, to)) && !OffLimits(m, from) && !OffLimits(m, to)
  {
    AllowedIsWithin(m, from);
    AllowedIsWithin(m, to);
    forall q | OffLimits(m, q)
      ensures Lookup(Renamed(m, from, to), q) == Lookup(m, q)
      ensures Lookup(Renamed(m, from, to), [q[0]]) == Lookup(m, [q[0]])
    {
      OffLimitsAbove(m, [q[0]], q);
      RenamingSparesOne(m, from, to, q);
      RenamingSparesOne(m, from, to, [q[0]]);
    }
  }

  lemma RenamingSparesOne(m: Remote, from: Path, to: Path, q: Path)
    requires from in m && OffLimits(m, q) && !OffLimits(m, from) && !OffLimits(m, to) && from != [] && to != []
    ensures Lookup(Renamed(m, from, to), q) == Lookup(m, q)
  {
    if from <= q { OffLimitsAbove(m, from, q); }
    if to <= q { OffLimitsAbove(m, to, q); }
    CarriedBack(m, from, to);
    hide OffLimits;
  }

  lemma PrefixesNest(q: Path, a: Path, b: Path)
    requires a <= q && b <= q
    ensures a <= b || b <= a
  {
  }

  /** A directory rename puts every descendant at the same place beneath the new
      name, empties the old one and leaves the rest of the store alone. */
  lemma DirectoryRenameCarriesSubtree(m: Remote, from: Path, to: Path)
    requires from in m && m[from].Directory? && !(from <= to) && !(to <= from)
    ensures var m' := Renamed(m, from, to);
      && (forall q :: q in m && from <= q ==> Lookup(m', to + q[|from|..]) == Some(m[q]))
      && (forall q :: from <= q ==> q !in m')
      && (forall q :: !(from <= q) && !(to <= q) ==> Lookup(m', q) == Lookup(m, q))
  {
    CarriedBack(m, from, to);
    forall q | q in m && from <= q
      ensures Lookup(Renamed(m, from, to), to + q[|from|..]) == Some(m[q])
    {
      var q' := to + q[|from|..];
      assert q' in Carried(m, from, to);
      assert from + q'[|to|..] == q;
    }
    forall q | q in Carried(m, from, to)
      ensures !(from <= q)
    {
      if from <= q { PrefixesNest(q, from, to); }
    }
  }
}
