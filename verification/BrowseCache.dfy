/** The cache of directory listings, guarded by a generation counter against
    listings still in flight when something changes (internal/evs/client.go). */
module BrowseCache {
  import opened Paths
  import opened Store

  /** What a listing shows of an entry. */
  datatype Node = Folder | Sized(size: nat)
  type Listing = map<string, Node>

  datatype Cached = Cached(nodes: Listing, expiresAt: int)
  type Entries = map<Path, Cached>

  const LIMIT: nat := 1024
  const TTL: int := 300

  function Shown(e: Entry): Node {
    if e.File? then Sized(|e.data|) else Folder
  }

  /** The server's listing of a directory: its immediate entries. */
  function Listed(m: Remote, dir: Path): Listing {
    var names := set q | q in m && |q| == |dir| + 1 && dir <= q :: q[|dir|];
    ListedNames(m, dir);
    map c | c in names :: Shown(m[dir + [c]])
  }

  /** A listing shows exactly what is directly in the directory, files with their sizes. */
  lemma ListedIff(m: Remote, dir: Path, c: string, n: Node)
    ensures c in Listed(m, dir) && Listed(m, dir)[c] == n <==>
      dir + [c] in m && n == match m[dir + [c]] case File(data) => Sized(|data|) case Directory(_) => Folder
  {
    ListedNames(m, dir);
  }

  lemma ListedNames(m: Remote, dir: Path)
    ensures forall c :: c in (set q | q in m && |q| == |dir| + 1 && dir <= q :: q[|dir|]) <==> dir + [c] in m
  {
    forall c
      ensures c in (set q | q in m && |q| == |dir| + 1 && dir <= q :: q[|dir|]) <==> dir + [c] in m
    {
      var names := set q | q in m && |q| == |dir| + 1 && dir <= q :: q[|dir|];
      if c in names {
        var q :| q in m && |q| == |dir| + 1 && dir <= q && q[|dir|] == c;
        assert q == dir + [c];
      }
      if dir + [c] in m { assert (dir + [c])[|dir|] == c; }
    }
  }

  predicate Covered(q: Path, paths: seq<Path>) {
    exists k :: 0 <= k < |paths| && paths[k] <= q
  }

  function Uncovered(entries: Entries, paths: seq<Path>): Entries {
    map q | q in entries && !Covered(q, paths) :: entries[q]
  }

  /** The new entry is in, and whatever else is there was there before. */
  predicate Admits(old': Entries, entries: Entries, path: Path, cached: Cached) {
    && path in entries && entries[path] == cached
    && forall q :: q in entries && q != path ==> q in old' && entries[q] == old'[q]
  }

  predicate Stale(entries: Entries, now: int) {
    exists q :: q in entries && now > entries[q].expiresAt
  }

  class Cache {
    var entries: Entries
    var generation: nat

    /** The cache stays within its bound. */
    ghost predicate Valid()
      reads this
    {
      |entries| <= LIMIT
    }

    constructor ()
      ensures Valid() && entries == map[] && generation == 0
    {
      entries, generation := map[], 0;
    }

    /** Forgets every listing at or beneath the paths, and turns away every listing
        still on its way. */
    method InvalidatePaths(paths: seq<Path>)
      requires Valid()
      modifies this
      ensures Valid() && generation == old(generation) + 1
      ensures entries == Uncovered(old(entries), paths)
    {
      generation := generation + 1;
      for k := 0 to |paths|
        invariant entries == Uncovered(old(entries), paths[..k]) && generation == old(generation) + 1
      {
        DropBeneath(paths[k]);
        forall q ensures Covered(q, paths[..k + 1]) <==> Covered(q, paths[..k]) || paths[k] <= q {
          CoveredNext(q, paths, k);
        }
      }
      assert paths[..|paths|] == paths;
      Shrinks(entries, old(entries));
    }

    method DropBeneath(top: Path)
      modifies this`entries
      ensures entries == map q | q in old(entries) && !(top <= q) :: old(entries)[q]
    {
      var names := entries.Keys;
      while names != {}
        invariant names <= entries.Keys <= old(entries).Keys
        invariant forall q :: q in entries ==> entries[q] == old(entries)[q]
        invariant forall q :: q in old(entries) && q !in names ==> (q in entries <==> !(top <= q))
        decreases |names|
      {
        var cached :| cached in names;
        names := names - {cached};
        if top <= cached {
          entries := entries - {cached};
        }
      }
    }

    method DropExpired(now: int)
      modifies this`entries
      ensures entries == map q | q in old(entries) && now <= old(entries)[q].expiresAt :: old(entries)[q]
    {
      var names := entries.Keys;
      while names != {}
        invariant names <= entries.Keys <= old(entries).Keys
        invariant forall q :: q in entries ==> entries[q] == old(entries)[q]
        invariant forall q :: q in old(entries) && q !in names ==> (q in entries <==> now <= old(entries)[q].expiresAt)
        decreases |names|
      {
        var name :| name in names;
        names := names - {name};
        if now > entries[name].expiresAt {
          entries := entries - {name};
        }
      }
    }

    /** Frees a place when there is none: all expired listings go, or failing that
        any one. */
    method MakeRoom(now: int)
      requires Valid()
      modifies this`entries
      ensures |entries| < LIMIT && entries.Keys <= old(entries).Keys
      ensures forall q :: q in entries ==> entries[q] == old(entries)[q]
      ensures |old(entries)| < LIMIT ==> entries == old(entries)
      ensures !Stale(old(entries), now) ==>
        forall p, q :: p in old(entries) && p !in entries && q in old(entries) && q !in entries ==> p == q
      ensures Stale(old(entries), now) ==>
        forall q :: q in old(entries) && now <= old(entries)[q].expiresAt ==> q in entries
    {
      if |entries| < LIMIT { return; }
      DropExpired(now);
      Shrinks(entries, old(entries));
      if |entries| >= LIMIT {
        var name :| name in entries;
        entries := entries - {name};
        assert entries.Keys == old(entries).Keys - {name};
      }
    }

    /** Keeps a listing unless something was invalidated since it was asked for. No
        listing that is still good makes way while an expired one could, and never more
        than one does. */
    method StoreBrowse(path: Path, nodes: Listing, asked: nat, now: int)
      requires Valid()
      modifies this`entries
      ensures Valid()
      ensures asked != generation ==> entries == old(entries)
      ensures asked == generation ==> Admits(old(entries), entries, path, Cached(nodes, now + 300))
      ensures asked == generation && |old(entries)| < 1024 ==>
        entries == old(entries)[path := Cached(nodes, now + 300)]
      ensures |entries| <= 1024
      ensures !Stale(old(entries), now) ==>
        forall p, q :: p in old(entries) && p !in entries && q in old(entries) && q !in entries ==> p == q
      ensures Stale(old(entries), now) ==>
        forall q :: q in old(entries) && now <= old(entries)[q].expiresAt ==> q in entries
    {
      if asked != generation { return; }
      MakeRoom(now);
      assert entries[path := Cached(nodes, now + TTL)].Keys == entries.Keys + {path};
      entries := entries[path := Cached(nodes, now + TTL)];
    }

    /** Serves a listing until it expires; an expired one is invalidated. */
    method CachedBrowse(path: Path, now: int) returns (nodes: Option<Listing>)
      requires Valid()
      modifies this
      ensures Valid()
      ensures nodes == if path in old(entries) && now <= old(entries)[path].expiresAt
                       then Some(old(entries)[path].nodes) else None
      ensures if path in old(entries) && nodes.None?
              then entries == Uncovered(old(entries), [path]) && generation == old(generation) + 1
              else entries == old(entries) && generation == old(generation)
    {
      if path !in entries {
        return None;
      }
      if now > entries[path].expiresAt {
        InvalidatePaths([path]);
        return None;
      }
      nodes := Some(entries[path].nodes);
    }
  }

  lemma CoveredNext(q: Path, paths: seq<Path>, k: nat)
    requires k < |paths|
    ensures Covered(q, paths[..k + 1]) <==> Covered(q, paths[..k]) || paths[k] <= q
  {
  }

  lemma Shrinks(a: Entries, b: Entries)
    requires a.Keys <= b.Keys
    ensures |a| <= |b| && (a.Keys != b.Keys ==> |a| < |b|)
  {
    SubsetSize(a.Keys, b.Keys);
    if a.Keys != b.Keys {
      var q :| q in b && q !in a;
      SubsetSize(a.Keys, b.Keys - {q});
    }
  }

  lemma {:induction false} SubsetSize<T>(a: set<T>, b: set<T>)
    requires a <= b
    ensures |a| <= |b|
  {
    if a == {} {
    } else {
      var x :| x in a;
      SubsetSize(a - {x}, b - {x});
    }
  }

  // ------------------------------------------------------------ interleaving

  /** A listing between its three steps, or a mutation between two. */
  datatype Task =
    | Browsing(path: Path, asked: nat, seen: Option<Listing>)
    | Changing(paths: seq<Path>)
    | Over

  datatype State = State(remote: Remote, entries: Entries, generation: nat, tasks: seq<Task>)

  /** The store differs only at or beneath these names. */
  ghost predicate Differs(m: Remote, m': Remote, names: seq<Path>) {
    forall q :: Lookup(m', q) != Lookup(m, q) ==> Covered(q, names)
  }

  /** A mutation invalidates the names it works on and their directories. */
  predicate Announces(paths: seq<Path>, names: seq<Path>) {
    && (forall n :: n in names ==> n != [])
    && (forall n :: n in names ==> n in paths && Parent(n) in paths)
  }

  datatype Event =
    | Ask(path: Path)
    | Answer(i: nat)
    | Store(i: nat, now: int)
    | Apply(after: Remote, names: seq<Path>, paths: seq<Path>)
    | Invalidate(i: nat)
    | Expire(path: Path)

  ghost predicate Step(s: State, e: Event, s': State) {
    match e
    case Ask(path) =>
      s' == s.(tasks := s.tasks + [Browsing(path, s.generation, None)])
    case Answer(i) =>
      && i < |s.tasks| && s.tasks[i].Browsing? && s.tasks[i].seen.None? && Listable(s.remote, s.tasks[i].path)
      && s' == s.(tasks := s.tasks[i := s.tasks[i].(seen := Some(Listed(s.remote, s.tasks[i].path)))])
    case Store(i, now) =>
      && i < |s.tasks| && s.tasks[i].Browsing? && s.tasks[i].seen.Some?
      && s' == s.(tasks := s.tasks[i := Over], entries := s'.entries)
      && (if s.tasks[i].asked == s.generation
          then Admits(s.entries, s'.entries, s.tasks[i].path, Cached(s.tasks[i].seen.value, now + TTL))
          else s'.entries == s.entries)
    case Apply(after, names, paths) =>
      && Differs(s.remote, after, names) && Announces(paths, names)
      && s' == s.(remote := after, tasks := s.tasks + [Changing(paths)])
    case Invalidate(i) =>
      && i < |s.tasks| && s.tasks[i].Changing?
      && s' == s.(tasks := s.tasks[i := Over], generation := s.generation + 1,
                  entries := Uncovered(s.entries, s.tasks[i].paths))
    case Expire(path) =>
      s' == s.(entries := Uncovered(s.entries, [path]), generation := s.generation + 1)
  }

  /** Some mutation that has been applied has still to invalidate this listing. */
  ghost predicate Awaited(tasks: seq<Task>, dir: Path) {
    exists k :: 0 <= k < |tasks| && tasks[k].Changing? && Covered(dir, tasks[k].paths)
  }

  ghost predicate Current(s: State, dir: Path, nodes: Listing) {
    nodes == Listed(s.remote, dir) || Awaited(s.tasks, dir)
  }

  /** What the cache holds, and what may still enter it, is current unless it is
      about to be invalidated. */
  ghost predicate Coherent(s: State) {
    && (forall dir :: dir in s.entries ==> Current(s, dir, s.entries[dir].nodes))
    && (forall t :: t in s.tasks && t.Browsing? ==>
          && t.asked <= s.generation
          && (t.asked == s.generation && t.seen.Some? ==> Current(s, t.path, t.seen.value)))
  }

  /** A mutation changes no listing but those it goes on to invalidate. */
  lemma ListingsChangedAreAnnounced(m: Remote, m': Remote, names: seq<Path>, paths: seq<Path>, dir: Path)
    requires Differs(m, m', names) && Announces(paths, names) && Listed(m', dir) != Listed(m, dir)
    ensures Covered(dir, paths)
  {
    var c := ListingsDiffer(m, m', dir);
    var q := dir + [c];
    var k :| 0 <= k < |names| && names[k] <= q;
    var n := names[k];
    assert n in names && Parent(q) == dir;
    if |n| == |q| {
      assert n == q;
      var i :| 0 <= i < |paths| && paths[i] == dir;
      assert paths[i] <= dir;
    } else {
      var i :| 0 <= i < |paths| && paths[i] == n;
      assert n <= dir;
      assert paths[i] <= dir;
    }
  }

  lemma MapsDiffer(a: Listing, b: Listing) returns (c: string)
    requires a != b
    ensures (c in a) != (c in b) || (c in a && c in b && a[c] != b[c])
  {
    if a.Keys == b.Keys {
      c :| c in a && c in b && a[c] != b[c];
    } else if !(a.Keys <= b.Keys) {
      c :| c in a && c !in b;
    } else {
      c :| c in b && c !in a;
    }
  }

  lemma ListingsDiffer(m: Remote, m': Remote, dir: Path) returns (c: string)
    requires Listed(m', dir) != Listed(m, dir)
    ensures Lookup(m', dir + [c]) != Lookup(m, dir + [c])
  {
    ListedNames(m, dir);
    ListedNames(m', dir);
    var a, b := Listed(m, dir), Listed(m', dir);
    c := MapsDiffer(a, b);
  }

  /** Tasks that only grow, or lose one that is not changing anything, still await
      what they awaited. */
  lemma StillAwaited(s: State, s': State, dir: Path)
    requires Awaited(s.tasks, dir)
    requires |s.tasks| <= |s'.tasks|
    requires forall k :: 0 <= k < |s.tasks| && s.tasks[k].Changing? ==> s'.tasks[k] == s.tasks[k]
    ensures Awaited(s'.tasks, dir)
  {
  }

  /** A step that changes nothing remotely only has to account for what is new. */
  lemma QuietCoherent(s: State, s': State)
    requires Coherent(s) && s'.remote == s.remote && s.generation <= s'.generation && |s.tasks| <= |s'.tasks|
    requires forall k :: 0 <= k < |s.tasks| && s.tasks[k].Changing? ==> s'.tasks[k] == s.tasks[k]
    requires forall dir :: dir in s'.entries ==>
      (dir in s.entries && s.entries[dir] == s'.entries[dir]) || Current(s, dir, s'.entries[dir].nodes)
    requires forall t :: t in s'.tasks && t.Browsing? && t !in s.tasks ==>
      t.asked <= s.generation && (t.seen.Some? ==> t.seen.value == Listed(s.remote, t.path))
    ensures Coherent(s')
  {
    hide Awaited, Listed;
    forall dir | Awaited(s.tasks, dir)
      ensures Awaited(s'.tasks, dir)
    {
      StillAwaited(s, s', dir);
    }
    forall dir | dir in s'.entries
      ensures Current(s', dir, s'.entries[dir].nodes)
    {
      assert Current(s, dir, s'.entries[dir].nodes);
    }
    forall t | t in s'.tasks && t.Browsing?
      ensures t.asked <= s'.generation
      ensures t.asked == s'.generation && t.seen.Some? ==> Current(s', t.path, t.seen.value)
    {
      if t in s.tasks {
        assert t.asked == s'.generation && t.seen.Some? ==> Current(s, t.path, t.seen.value);
      }
    }
  }

  lemma AskCoherent(s: State, path: Path, s': State)
    requires Coherent(s) && Step(s, Ask(path), s')
    ensures Coherent(s')
  {
    QuietCoherent(s, s');
  }

  lemma OtherTasksStay(s: State, i: nat, task: Task, t: Task)
    requires i < |s.tasks| && t in s.tasks[i := task] && t != task
    ensures t in s.tasks
  {
  }

  lemma AnswerCoherent(s: State, i: nat, s': State)
    requires Coherent(s) && Step(s, Answer(i), s')
    ensures Coherent(s')
  {
    assert s.tasks[i] in s.tasks;
    forall t | t in s'.tasks && t != s'.tasks[i]
      ensures t in s.tasks
    {
      OtherTasksStay(s, i, s'.tasks[i], t);
    }
    QuietCoherent(s, s');
  }

  lemma StoreCoherent(s: State, i: nat, now: int, s': State)
    requires Coherent(s) && Step(s, Store(i, now), s')
    ensures Coherent(s')
  {
    assert s.tasks[i] in s.tasks;
    forall t | t in s'.tasks && t != Over
      ensures t in s.tasks
    {
      OtherTasksStay(s, i, Over, t);
    }
    QuietCoherent(s, s');
  }

  lemma ApplyCoherent(s: State, after: Remote, names: seq<Path>, paths: seq<Path>, s': State)
    requires Coherent(s) && Step(s, Apply(after, names, paths), s')
    ensures Coherent(s')
  {
    forall dir, nodes | Current(s, dir, nodes)
      ensures Current(s', dir, nodes)
    {
      if Awaited(s.tasks, dir) {
        StillAwaited(s, s', dir);
      } else if nodes != Listed(after, dir) {
        ListingsChangedAreAnnounced(s.remote, after, names, paths, dir);
        assert s'.tasks[|s.tasks|] == Changing(paths);
      }
    }
  }

  lemma InvalidateCoherent(s: State, i: nat, s': State)
    requires Coherent(s) && Step(s, Invalidate(i), s')
    ensures Coherent(s')
  {
    forall dir | dir in s'.entries
      ensures Current(s', dir, s'.entries[dir].nodes)
    {
      assert Current(s, dir, s.entries[dir].nodes);
      if Awaited(s.tasks, dir) {
        var k :| 0 <= k < |s.tasks| && s.tasks[k].Changing? && Covered(dir, s.tasks[k].paths);
        assert k != i && s'.tasks[k] == s.tasks[k];
      }
    }
    forall t | t in s'.tasks && t.Browsing?
      ensures t.asked < s'.generation
    {
      var k :| 0 <= k < |s'.tasks| && s'.tasks[k] == t;
      assert s.tasks[k] in s.tasks;
    }
  }

  lemma StepCoherent(s: State, e: Event, s': State)
    requires Coherent(s) && Step(s, e, s')
    ensures Coherent(s')
  {
    match e
    case Ask(path) => AskCoherent(s, path, s');
    case Answer(i) => AnswerCoherent(s, i, s');
    case Store(i, now) => StoreCoherent(s, i, now, s');
    case Apply(after, names, paths) => ApplyCoherent(s, after, names, paths, s');
    case Invalidate(i) => InvalidateCoherent(s, i, s');
    case Expire(path) => QuietCoherent(s, s');
  }

  ghost predicate Next(s: State, s': State) {
    exists e :: Step(s, e, s')
  }

  lemma NextCoherent(s: State, s': State)
    requires Coherent(s) && Next(s, s')
    ensures Coherent(s')
  {
    var e :| Step(s, e, s');
    StepCoherent(s, e, s');
  }

  ghost predicate Reachable(run: seq<State>) {
    && run != [] && run[0] == State(run[0].remote, map[], 0, [])
    && forall i, j :: 0 <= i && j == i + 1 && j < |run| ==> Next(run[i], run[j])
  }

  lemma {:induction false} RunCoherent(run: seq<State>, k: nat)
    requires Reachable(run) && k < |run|
    ensures Coherent(run[k])
  {
    if k == 0 {
    } else {
      RunCoherent(run, k - 1);
      NextCoherent(run[k - 1], run[k]);
    }
  }

  /** In every interleaving of listings with mutations, a cached listing is the
      server's own unless a mutation has still to invalidate it; so while none is
      between its two steps, all of them are. */
  lemma CachedListingsAreCurrent(run: seq<State>, k: nat, dir: Path)
    requires Reachable(run) && k < |run| && dir in run[k].entries
    ensures run[k].entries[dir].nodes == Listed(run[k].remote, dir) || Awaited(run[k].tasks, dir)
    ensures (forall t :: t in run[k].tasks ==> !t.Changing?) ==>
      run[k].entries[dir].nodes == Listed(run[k].remote, dir)
  {
    RunCoherent(run, k);
  }

  // ------------------------------------------------- the mutations themselves

  lemma MkdirAnnounces(m: Remote, name: Path)
    requires name != [] && name !in m
    ensures Differs(m, m[name := Directory(false)], [name]) && Announces([Parent(name), name], [name])
  {
    var names := [name];
    assert names[0] == name;
    assert [Parent(name), name][1] == name;
  }

  lemma DeleteAnnounces(m: Remote, name: Path)
    requires name != []
    ensures Differs(m, Deleted(m, name), [name]) && Announces([Parent(name), name], [name])
  {
    var names := [name];
    assert names[0] == name;
    assert [Parent(name), name][1] == name;
  }

  lemma RenameAnnounces(m: Remote, a: Path, b: Path)
    requires a != [] && b != [] && a in m && b !in m
    ensures Differs(m, Renamed(m, a, b), [a, b]) && Announces([Parent(a), Parent(b), a, b], [a, b])
  {
    var names, paths := [a, b], [Parent(a), Parent(b), a, b];
    assert names[0] == a && names[1] == b;
    assert paths[0] == Parent(a) && paths[1] == Parent(b) && paths[2] == a && paths[3] == b;
    CarriedBack(m, a, b);
    forall q | Lookup(Renamed(m, a, b), q) != Lookup(m, q)
      ensures Covered(q, names)
    {
      assert a <= q || b <= q;
    }
  }
}
