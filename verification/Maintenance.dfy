/** Pruning of the cache and recovery directories, and the retention of uploads
    that failed (internal/webdav/maintenance.go). */
module Maintenance {
  import opened Store

  /** Names by what pruning makes of them: a retained upload and the metadata beside
      it, a download in progress, and anything else. */
  datatype Name = Blob(id: nat) | Metadata(id: nat) | Partial(id: nat) | Plain(id: nat)

  /** A regular file, a symbolic link, with the size of the regular file it leads to if
      it leads to one, or anything else that is not a directory. */
  datatype Item = Kept(data: Bytes, mtime: int) | Link(target: Option<nat>) | Irregular
  type Disk = map<Name, Item>

  const DAY: int := 86_400
  const RETENTION_AGE: int := 7 * DAY

  datatype Counted = Counted(name: Name, size: nat, mtime: int)

  predicate Regular(disk: Disk, name: Name) {
    name in disk && disk[name].Kept?
  }

  /** Looking the name up finds something, a link's target if it is a link. */
  predicate Exists(disk: Disk, name: Name) {
    name in disk && disk[name] != Link(None)
  }

  /** The size of the regular file one finds, if any. */
  function Size(disk: Disk, name: Name): nat {
    if name !in disk then 0
    else
      match disk[name]
      case Kept(data, _) => |data|
      case Link(target) => if target.Some? then target.value else 0
      case Irregular => 0
  }

  /** A retained upload weighs as much as its bytes and its metadata together. */
  function Weight(disk: Disk, name: Name): nat {
    Size(disk, name) + if name.Blob? && name in disk then Size(disk, Metadata(name.id)) else 0
  }

  /** Only regular files count; metadata is counted with its upload, and a recent
      download is nobody's yet. */
  predicate Counts(disk: Disk, name: Name, now: int) {
    Regular(disk, name) && !name.Metadata? && !(name.Partial? && now - disk[name].mtime < DAY)
  }

  function Usage(names: seq<Name>, disk: Disk, now: int): nat {
    if names == [] then 0
    else
      var last := names[|names| - 1];
      Usage(names[..|names| - 1], disk, now) + if Counts(disk, last, now) then Weight(disk, last) else 0
  }

  predicate Distinct<T(==)>(s: seq<T>) {
    forall i, j :: 0 <= i < j < |s| ==> s[i] != s[j]
  }

  // ----------------------------------------------------------------- sorting

  predicate Sorted(s: seq<Counted>) {
    forall i, j :: 0 <= i < j < |s| ==> s[i].mtime <= s[j].mtime
  }

  predicate DistinctNames(s: seq<Counted>) {
    forall i, j :: 0 <= i < j < |s| ==> s[i].name != s[j].name
  }

  function Insert(f: Counted, s: seq<Counted>): seq<Counted> {
    if s == [] || f.mtime <= s[0].mtime then [f] + s else [s[0]] + Insert(f, s[1..])
  }

  function OldestFirst(s: seq<Counted>): seq<Counted> {
    if s == [] then [] else Insert(s[0], OldestFirst(s[1..]))
  }

  lemma {:induction false} InsertKeeps(f: Counted, s: seq<Counted>)
    ensures forall x :: x in Insert(f, s) <==> x == f || x in s
  {
    if s == [] || f.mtime <= s[0].mtime {
    } else {
      InsertKeeps(f, s[1..]);
      assert forall x :: x in s <==> x == s[0] || x in s[1..];
    }
  }

  lemma {:induction false} InsertPermutes(f: Counted, s: seq<Counted>)
    ensures multiset(Insert(f, s)) == multiset([f]) + multiset(s)
  {
    if s == [] || f.mtime <= s[0].mtime {
    } else {
      InsertPermutes(f, s[1..]);
      assert s == [s[0]] + s[1..];
    }
  }

  lemma {:induction false} InsertSorts(f: Counted, s: seq<Counted>)
    requires Sorted(s)
    ensures Sorted(Insert(f, s))
  {
    if s == [] || f.mtime <= s[0].mtime {
    } else {
      var rest := Insert(f, s[1..]);
      InsertSorts(f, s[1..]);
      InsertKeeps(f, s[1..]);
      forall k | 0 <= k < |rest|
        ensures s[0].mtime <= rest[k].mtime
      {
        assert rest[k] in rest;
      }
    }
  }

  lemma {:induction false} OldestFirstSorts(s: seq<Counted>)
    ensures Sorted(OldestFirst(s)) && multiset(OldestFirst(s)) == multiset(s)
  {
    if s == [] {
    } else {
      OldestFirstSorts(s[1..]);
      InsertSorts(s[0], OldestFirst(s[1..]));
      InsertPermutes(s[0], OldestFirst(s[1..]));
      assert s == [s[0]] + s[1..];
    }
  }

  lemma PermutedNames(s: seq<Counted>, t: seq<Counted>)
    requires DistinctNames(s) && multiset(t) == multiset(s)
    ensures DistinctNames(t)
    ensures forall f :: f in t <==> f in s
  {
    assert forall f :: f in t <==> f in multiset(t);
    assert forall f :: f in s <==> f in multiset(s);
    forall i, j | 0 <= i < j < |t|
      ensures t[i].name != t[j].name
    {
      if t[i].name == t[j].name {
        assert t[i] in s && t[j] in s;
        assert t[i] == t[j];
        Twice(t, i, j);
        OnlyOnce(s, t[i]);
      }
    }
  }

  lemma Twice(t: seq<Counted>, i: nat, j: nat)
    requires i < j < |t| && t[i] == t[j]
    ensures multiset(t)[t[i]] >= 2
  {
    assert t == t[..i] + [t[i]] + t[i + 1..j] + [t[j]] + t[j + 1..];
  }

  lemma OnlyOnce(s: seq<Counted>, f: Counted)
    requires DistinctNames(s)
    ensures multiset(s)[f] <= 1
  {
    if f in s {
      var i :| 0 <= i < |s| && s[i] == f;
      assert f !in s[..i] && f !in s[i + 1..];
      assert s == s[..i] + [f] + s[i + 1..];
    }
  }

  // ------------------------------------------------------------------- sums

  lemma {:induction false} UsageSame(names: seq<Name>, a: Disk, b: Disk, now: int)
    requires forall n :: n in names ==>
      (Counts(a, n, now) <==> Counts(b, n, now)) && (Counts(a, n, now) ==> Weight(a, n) == Weight(b, n))
    ensures Usage(names, a, now) == Usage(names, b, now)
  {
    if names == [] {
    } else {
      assert names[|names| - 1] in names;
      UsageSame(names[..|names| - 1], a, b, now);
    }
  }

  /** Taking one counted name away takes exactly its weight. */
  lemma {:induction false} UsageWithout(names: seq<Name>, a: Disk, b: Disk, now: int, gone: Name)
    requires Distinct(names) && gone in names && Counts(a, gone, now) && !Counts(b, gone, now)
    requires forall n :: n in names && n != gone ==>
      (Counts(a, n, now) <==> Counts(b, n, now)) && (Counts(a, n, now) ==> Weight(a, n) == Weight(b, n))
    ensures Usage(names, b, now) + Weight(a, gone) == Usage(names, a, now)
  {
    var k := |names| - 1;
    if names[k] == gone {
      UsageSame(names[..k], a, b, now);
    } else {
      assert gone in names[..k];
      UsageWithout(names[..k], a, b, now, gone);
      assert names[k] in names;
    }
  }

  /** The bytes of a regular file. */
  function Held(disk: Disk, name: Name): nat {
    if name in disk && disk[name].Kept? then |disk[name].data| else 0
  }

  /** The bytes of these files and nothing else. */
  function BytesOf(names: seq<Name>, disk: Disk): nat {
    if names == [] then 0
    else BytesOf(names[..|names| - 1], disk) + Held(disk, names[|names| - 1])
  }

  /** What the total has to account for: every regular file but a recent download, and
      metadata only beside its upload. */
  predicate Owed(disk: Disk, name: Name, now: int) {
    && name in disk && disk[name].Kept?
    && (name.Partial? ==> now - disk[name].mtime >= 86_400)
    && (name.Metadata? ==> Blob(name.id) in disk && disk[Blob(name.id)].Kept?)
  }

  /** An upload and its metadata go together, everything else alone. */
  function Partner(name: Name): Name {
    match name
    case Blob(id) => Metadata(id)
    case Metadata(id) => Blob(id)
    case _ => name
  }

  /** Nothing escapes the total: it is no less than all those bytes together. */
  lemma {:induction false} NothingEscapes(owed: seq<Name>, names: seq<Name>, disk: Disk, now: int)
    requires Distinct(owed) && Distinct(names) && forall n :: n in disk ==> n in names
    requires forall n :: n in owed ==> Owed(disk, n, now)
    ensures BytesOf(owed, disk) <= Usage(names, disk, now)
    decreases |owed|
  {
    if owed == [] {
    } else {
      hide Usage, Owed, Counts, Held;
      var last, rest := owed[|owed| - 1], owed[..|owed| - 1];
      assert last in owed;
      var fewer := Dropped(rest, Partner(last));
      DroppedKeeps(rest, Partner(last));
      DroppedBytes(rest, Partner(last), disk);
      StillOwed(fewer, disk, last, now);
      TotalDrops(names, disk, last, now);
      SameBytes(fewer, disk, disk - {last, Partner(last)});
      NothingEscapes(fewer, names, disk - {last, Partner(last)}, now);
    }
  }

  lemma StillOwed(owed: seq<Name>, disk: Disk, last: Name, now: int)
    requires forall n :: n in owed ==> Owed(disk, n, now) && n != last && n != Partner(last)
    ensures var disk' := disk - {last, Partner(last)};
      forall n :: n in owed ==> Owed(disk', n, now) && Held(disk', n) == Held(disk, n)
  {
  }

  lemma TotalDrops(names: seq<Name>, disk: Disk, last: Name, now: int)
    requires Distinct(names) && Owed(disk, last, now) && forall n :: n in disk ==> n in names
    ensures Usage(names, disk - {last, Partner(last)}, now) + Held(disk, last)
      + (if Partner(last) != last then Held(disk, Partner(last)) else 0) <= Usage(names, disk, now)
  {
    var top := if last.Metadata? then Blob(last.id) else last;
    UsageWithout(names, disk, disk - {last, Partner(last)}, now, top);
  }

  function Dropped(names: seq<Name>, gone: Name): (rest: seq<Name>)
    ensures |rest| <= |names|
  {
    if names == [] then []
    else
      var last := names[|names| - 1];
      Dropped(names[..|names| - 1], gone) + if last == gone then [] else [last]
  }

  lemma {:induction false} DroppedKeeps(names: seq<Name>, gone: Name)
    requires Distinct(names)
    ensures Distinct(Dropped(names, gone))
    ensures forall n :: n in Dropped(names, gone) <==> n in names && n != gone
  {
    if names == [] {
    } else {
      var k := |names| - 1;
      DroppedKeeps(names[..k], gone);
      assert names == names[..k] + [names[k]] && names[k] !in names[..k];
    }
  }

  lemma {:induction false} DroppedBytes(names: seq<Name>, gone: Name, disk: Disk)
    requires Distinct(names)
    ensures BytesOf(names, disk) == BytesOf(Dropped(names, gone), disk) + if gone in names then Held(disk, gone) else 0
  {
    hide Held, BytesOf, Dropped;
    if names == [] {
      OneMoreOf([], gone, gone, disk);
    } else {
      var k := |names| - 1;
      DroppedBytes(names[..k], gone, disk);
      assert names == names[..k] + [names[k]];
      OneMoreOf(names[..k], names[k], gone, disk);
      OneMoreOf(Dropped(names[..k], gone), names[k], gone, disk);
    }
  }

  lemma OneMoreOf(names: seq<Name>, n: Name, gone: Name, disk: Disk)
    ensures Dropped([], gone) == [] && BytesOf([], disk) == 0
    ensures BytesOf(names + [n], disk) == BytesOf(names, disk) + Held(disk, n)
    ensures Dropped(names + [n], gone) == if n == gone then Dropped(names, gone) else Dropped(names, gone) + [n]
  {
    assert (names + [n])[..|names|] == names;
  }

  lemma {:induction false} SameBytes(names: seq<Name>, a: Disk, b: Disk)
    requires forall n :: n in names ==> Held(a, n) == Held(b, n)
    ensures BytesOf(names, a) == BytesOf(names, b)
  {
    if names == [] {
    } else {
      assert names[|names| - 1] in names;
      SameBytes(names[..|names| - 1], a, b);
    }
  }

  // ----------------------------------------------------------------- pruning

  /** The requested file, and every file some reader has pinned. */
  predicate Shielded(name: Name, protected: Option<Name>, pins: set<Name>) {
    protected == Some(name) || name in pins
  }

  predicate Subset(a: Disk, b: Disk) {
    forall n :: n in a ==> n in b && a[n] == b[n]
  }

  predicate Listed(files: seq<Counted>, name: Name) {
    exists f :: f in files && f.name == name
  }

  /** The tally is right about every file that is still there. */
  ghost predicate Tallies(files: seq<Counted>, disk: Disk, now: int) {
    && DistinctNames(files) && (forall f :: f in files ==> !f.name.Metadata?)
    && forall f :: f in files && f.name in disk ==>
         Counts(disk, f.name, now) && f.size == Weight(disk, f.name) && f.mtime == disk[f.name].mtime
  }

  /** Metadata goes only with its upload. */
  ghost predicate Companions(disk: Disk, before: Disk) {
    forall id :: Regular(disk, Blob(id)) ==> (Metadata(id) in disk <==> Metadata(id) in before)
  }

  /** Metadata of an upload that is not there. */
  predicate Orphaned(disk: Disk, id: nat) {
    Regular(disk, Metadata(id)) && !Exists(disk, Blob(id))
  }

  /** That is so if looking for the upload finds nothing, not even through a link. */
  lemma OrphanedIff(disk: Disk, id: nat)
    ensures Orphaned(disk, id) <==>
      && Metadata(id) in disk && disk[Metadata(id)].Kept?
      && (Blob(id) in disk ==> disk[Blob(id)].Link? && disk[Blob(id)].target == None)
  {
  }

  ghost predicate NoNewOrphans(disk: Disk, before: Disk, busy: set<Name>) {
    forall id :: Orphaned(disk, id) ==> Metadata(id) in busy || !Exists(before, Blob(id))
  }

  /** Links and irregular files stay, unless a link stood where a retained upload's
      metadata belongs. */
  ghost predicate OthersStay(disk: Disk, before: Disk) {
    forall n :: n in before && n !in disk ==> before[n].Kept? || (n.Metadata? && Regular(before, Blob(n.id)))
  }

  /** A younger file goes only if every older one that may go is gone. */
  ghost predicate EldersFirst(files: seq<Counted>, before: Disk, after: Disk, stays: Name -> bool) {
    forall f, g :: f in files && g in files && g.mtime < f.mtime && f.name in before && f.name !in after ==>
      g.name !in after || stays(g.name)
  }

  lemma UsageAfterRemoval(names: seq<Name>, before: Disk, after: Disk, gone: Name, now: int)
    requires Distinct(names) && gone in names && Counts(before, gone, now) && gone !in after
    requires Subset(after, before) && Companions(after, before)
    requires forall n :: n in before && n !in after ==> n == gone || n.Metadata?
    ensures Usage(names, after, now) + Weight(before, gone) == Usage(names, before, now)
  {
    UsageWithout(names, before, after, now, gone);
  }

  predicate Gone(before: Disk, after: Disk, name: Name) {
    Regular(before, name) && name !in after && !name.Metadata?
  }

  /** Even the youngest of the files that went had to go: with it the rest would be too
      much. */
  ghost predicate Needed(names: seq<Name>, before: Disk, after: Disk, maxBytes: int, now: int) {
    exists n :: Gone(before, after, n) && Usage(names, after, now) + Weight(before, n) > maxBytes
      && forall g :: Gone(before, after, g) ==> before[g].mtime <= before[n].mtime
  }

  /** What went was past its age. */
  ghost predicate OnlyAged(before: Disk, after: Disk, maxAge: int, now: int) {
    forall f :: Gone(before, after, f) ==> now - before[f].mtime > maxAge
  }

  /** Taking files away never makes the rest weigh more. */
  lemma {:induction false} UsageShrinks(names: seq<Name>, before: Disk, after: Disk, now: int)
    requires Subset(after, before)
    ensures Usage(names, after, now) <= Usage(names, before, now)
  {
    if names == [] {
    } else {
      UsageShrinks(names[..|names| - 1], before, after, now);
    }
  }

  lemma CompanionsTwice(a: Disk, b: Disk, c: Disk)
    requires Subset(b, a) && Subset(c, b) && Companions(b, a) && Companions(c, b)
    ensures Companions(c, a)
  {
  }

  /** Of the names passed nothing is left that is past its age and could have gone, and
      nothing is gone but what is. */
  ghost predicate Swept(past: seq<Name>, before: Disk, disk: Disk, busy: set<Name>, protected: Option<Name>,
                        pins: set<Name>, maxAge: int, now: int) {
    && Subset(disk, before) && Companions(disk, before) && OthersStay(disk, before)
    && (forall n :: Gone(before, disk, n) ==> !Shielded(n, protected, pins) && now - before[n].mtime > maxAge)
    && (forall n :: n in past && Counts(disk, n, now) && !Shielded(n, protected, pins) ==>
          (now - disk[n].mtime > maxAge ==> n in busy))
    && (forall id :: Metadata(id) in past && Orphaned(disk, id) ==> Metadata(id) in busy)
  }

  lemma SweptNext(past: seq<Name>, p: Name, before: Disk, was: Disk, disk: Disk, busy: set<Name>,
                  protected: Option<Name>, pins: set<Name>, maxAge: int, now: int)
    requires Swept(past, before, was, busy, protected, pins, maxAge, now)
    requires Subset(disk, was) && Companions(disk, was) && OthersStay(disk, was) && NoNewOrphans(disk, was, busy)
    requires forall n :: n in was && n !in disk ==> n == p || n.Metadata?
    requires Regular(was, p) && !p.Metadata? ==>
      (Shielded(p, protected, pins) || now - was[p].mtime <= maxAge ==> p in disk)
    requires Counts(disk, p, now) && !Shielded(p, protected, pins) && now - disk[p].mtime > maxAge ==> p in busy
    requires p.Metadata? && Orphaned(disk, p.id) ==> p in busy
    ensures Swept(past + [p], before, disk, busy, protected, pins, maxAge, now)
  {
    CompanionsTwice(before, was, disk);
    OrphansStay(was, disk, busy);
    hide Companions, Orphaned, NoNewOrphans, Exists;
  }

  lemma OrphansStay(before: Disk, after: Disk, busy: set<Name>)
    requires Subset(after, before) && NoNewOrphans(after, before, busy)
    ensures forall id :: Orphaned(after, id) ==> Metadata(id) in busy || Orphaned(before, id)
  {
  }

  lemma PastSame(past: seq<Name>, p: Name, before: Disk, after: Disk, now: int)
    requires p !in past && Subset(after, before) && Companions(after, before)
    requires forall n :: n in before && n !in after ==> n == p || n.Metadata?
    ensures Usage(past, after, now) == Usage(past, before, now)
  {
    UsageSame(past, before, after, now);
  }

  lemma StillTallies(files: seq<Counted>, before: Disk, after: Disk, now: int)
    requires Tallies(files, before, now) && Subset(after, before) && Companions(after, before)
    ensures Tallies(files, after, now)
  {
  }

  lemma CountsOneMore(files: seq<Counted>, f: Counted, disk: Disk, now: int)
    requires Tallies(files, disk, now) && !f.name.Metadata? && forall g :: g in files ==> g.name != f.name
    requires f.name in disk ==>
      Counts(disk, f.name, now) && f.size == Weight(disk, f.name) && f.mtime == disk[f.name].mtime
    ensures Tallies(files + [f], disk, now)
    ensures forall n :: Listed(files + [f], n) <==> Listed(files, n) || n == f.name
  {
  }

  /** No file is gone while an older one that could have gone is still there. */
  ghost predicate OldestGone(before: Disk, after: Disk, now: int, stays: Name -> bool) {
    forall f, g :: Gone(before, after, f) && Counts(after, g, now) && after[g].mtime < before[f].mtime ==> stays(g)
  }

  lemma SortingTallies(files: seq<Counted>, disk: Disk, now: int)
    requires Tallies(files, disk, now)
    ensures Sorted(OldestFirst(files)) && Tallies(OldestFirst(files), disk, now)
    ensures forall f :: f in OldestFirst(files) <==> f in files
    ensures forall n :: Listed(files, n) ==> Listed(OldestFirst(files), n)
  {
    OldestFirstSorts(files);
    PermutedNames(files, OldestFirst(files));
    forall n | Listed(files, n)
      ensures Listed(OldestFirst(files), n)
    {
      var f :| f in files && f.name == n;
      assert f in OldestFirst(files);
    }
  }

  lemma StillNeeded(names: seq<Name>, before: Disk, middle: Disk, after: Disk, maxBytes: int, maxAge: int, now: int)
    requires Subset(middle, before) && Companions(middle, before) && Needed(names, middle, after, maxBytes, now)
    requires OnlyAged(before, middle, maxAge, now)
    requires forall n :: Gone(middle, after, n) ==> now - middle[n].mtime <= maxAge
    ensures Needed(names, before, after, maxBytes, now)
  {
    var n :| Gone(middle, after, n) && Usage(names, after, now) + Weight(middle, n) > maxBytes
      && forall g :: Gone(middle, after, g) ==> middle[g].mtime <= middle[n].mtime;
    hide Usage;
    assert Gone(before, after, n) && Weight(middle, n) <= Weight(before, n);
    forall g | Gone(before, after, g)
      ensures before[g].mtime <= before[n].mtime
    {
      assert Gone(middle, after, g) || Gone(before, middle, g);
    }
  }

  lemma PrunedAsNeeded(names: seq<Name>, files: seq<Counted>, before: Disk, middle: Disk, after: Disk,
                       protected: Option<Name>, pins: set<Name>, maxBytes: int, maxAge: int, now: int)
    requires Swept(names, before, middle, {}, protected, pins, maxAge, now) && Tallies(files, middle, now)
    requires forall n :: n in middle ==> n in names
    requires forall n :: n in middle && n !in after && !n.Metadata? ==>
      Listed(files, n) && !Shielded(n, protected, pins)
    requires after == middle || Needed(names, middle, after, maxBytes, now)
    ensures OnlyAged(before, after, maxAge, now) || Needed(names, before, after, maxBytes, now)
    ensures after == middle ==> OnlyAged(before, after, maxAge, now)
  {
    hide Needed, OthersStay, Companions;
    if after != middle {
      forall n | Gone(middle, after, n)
        ensures now - middle[n].mtime <= maxAge
      {
        var f :| f in files && f.name == n;
      }
      StillNeeded(names, before, middle, after, maxBytes, maxAge, now);
    }
  }

  /** Ages and budget agree on who goes first. */
  lemma EldersGoFirst(files: seq<Counted>, before: Disk, middle: Disk, after: Disk, maxAge: int, now: int,
                      stays: Name -> bool)
    requires Subset(middle, before) && Subset(after, middle) && Tallies(files, middle, now)
    requires forall n :: Counts(middle, n, now) ==> Listed(files, n)
    requires forall n :: Gone(before, middle, n) ==> now - before[n].mtime > maxAge
    requires forall n :: Counts(middle, n, now) && now - middle[n].mtime > maxAge ==> stays(n)
    requires forall n :: Gone(middle, after, n) ==> Listed(files, n)
    requires EldersFirst(files, middle, after, stays)
    ensures OldestGone(before, after, now, stays)
  {
    forall f, g | Gone(before, after, f) && Counts(after, g, now) && after[g].mtime < before[f].mtime
      ensures stays(g)
    {
      assert Counts(middle, g, now);
      if f in middle {
        assert Gone(middle, after, f);
        var a :| a in files && a.name == f;
        var b :| b in files && b.name == g;
      }
    }
  }

  /** In order of age the last to go is the youngest. */
  lemma YoungestYet(files: seq<Counted>, before: Disk, after: Disk, k: nat, now: int)
    requires k < |files| && Sorted(files) && Tallies(files, before, now)
    requires files[k].name in before && files[k].name !in after
    requires forall j :: k < j < |files| ==> (files[j].name in after <==> files[j].name in before)
    requires forall n :: n in before && n !in after && !n.Metadata? ==> Listed(files, n)
    ensures Gone(before, after, files[k].name)
    ensures forall g :: Gone(before, after, g) ==> before[g].mtime <= before[files[k].name].mtime
  {
    assert files[k] in files;
    forall g | Gone(before, after, g)
      ensures before[g].mtime <= files[k].mtime
    {
      var f :| f in files && f.name == g;
      var j :| 0 <= j < |files| && files[j] == f;
    }
  }

  lemma RestStays(files: seq<Counted>, before: Disk, after: Disk, k: nat)
    requires k < |files| && DistinctNames(files) && (forall f :: f in files ==> !f.name.Metadata?)
    requires Subset(after, before) && forall n :: n in before && n !in after ==> n == files[k].name || n.Metadata?
    ensures forall j :: 0 <= j < |files| && j != k ==> (files[j].name in after <==> files[j].name in before)
  {
  }

  /** Regular files only, uploads and their metadata, and none of that without its
      upload; all of it together is no larger than this. */
  ghost predicate Bounded(names: seq<Name>, disk: Disk, budget: int, now: int) {
    && (forall n :: n in names ==> n.Blob? || n.Metadata?) && (forall n :: n in disk ==> disk[n].Kept?)
    && (forall id :: !Orphaned(disk, id)) && Usage(names, disk, now) <= budget
  }

  /** Nothing is gone that is younger than something left. */
  ghost predicate NoneYoungerGone(before: Disk, after: Disk, now: int) {
    forall f, g :: Gone(before, after, f) && g in before && Counts(after, g, now) ==> before[f].mtime <= after[g].mtime
  }

  /** One upload that failed, and what becomes of the attempt to retain it. */
  datatype Failure = Failure(local: Bytes, description: Bytes, id: nat, now: int, copied: bool, described: bool) {
    predicate Retainable(budget: int) {
      |local| + |description| <= budget && copied && described
    }
    function Total(): nat { |local| + |description| }
  }

  function Totals(failures: seq<Failure>): nat {
    if failures == [] then 0 else Totals(failures[..|failures| - 1]) + failures[|failures| - 1].Total()
  }

  lemma {:induction false} TotalsGrow(failures: seq<Failure>, i: nat)
    requires i <= |failures|
    ensures Totals(failures[..i]) <= Totals(failures)
  {
    if i == |failures| {
      assert failures[..i] == failures;
    } else {
      var k := |failures| - 1;
      TotalsGrow(failures[..k], i);
      assert failures[..k][..i] == failures[..i];
    }
  }

  lemma OneMoreTotal(failures: seq<Failure>, i: nat)
    requires i < |failures|
    ensures Totals(failures[..i + 1]) == Totals(failures[..i]) + failures[i].Total()
  {
    assert failures[..i + 1][..i] == failures[..i];
  }

  /** All of them fit in beside what was there, and none comes more than seven days after
      another. */
  ghost predicate Roomy(failures: seq<Failure>, usage: nat, budget: int) {
    && usage + Totals(failures) <= budget
    && forall i, j :: 0 <= i < j < |failures| ==> failures[j].now - failures[i].now <= 604_800
  }

  /** None of them comes more than seven days after this. */
  predicate Recent(mtime: int, failures: seq<Failure>) {
    forall k :: 0 <= k < |failures| ==> failures[k].now - mtime <= 604_800
  }

  /** The upload is kept with its description. */
  predicate Keeps(disk: Disk, f: Failure) {
    && Regular(disk, Blob(f.id)) && disk[Blob(f.id)] == Kept(f.local, f.now)
    && Regular(disk, Metadata(f.id)) && disk[Metadata(f.id)].data == f.description
  }

  predicate DistinctIds(failures: seq<Failure>) {
    forall i, j :: 0 <= i < j < |failures| ==> failures[i].id != failures[j].id
  }

  class Folder {
    var disk: Disk
    /** The order in which a walk of the directory meets the names. */
    var names: seq<Name>
    /** Files the operating system will not remove. */
    const busy: set<Name>

    ghost predicate Valid()
      reads this
    {
      Distinct(names) && forall n :: n in disk ==> n in names
    }

    constructor (busy: set<Name>)
      ensures Valid() && disk == map[] && names == [] && this.busy == busy
    {
      disk, names, this.busy := map[], [], busy;
    }

    method Remove(name: Name) returns (ok: bool)
      modifies this`disk
      ensures ok <==> name in old(disk) && name !in busy
      ensures disk == if ok then old(disk) - {name} else old(disk)
    {
      ok := name in disk && name !in busy;
      if ok {
        disk := disk - {name};
      }
    }

    /** Removes a file and, for a retained upload, the metadata beside it. */
    method RemoveRetainedFile(name: Name) returns (ok: bool)
      requires !name.Metadata?
      modifies this`disk
      ensures Subset(disk, old(disk)) && Companions(disk, old(disk))
      ensures Regular(old(disk), name) ==> OthersStay(disk, old(disk))
      ensures ok ==> name in old(disk) && name !in disk
      ensures name in disk || name !in old(disk) ==> disk == old(disk)
      ensures name in disk <==> name in old(disk) && name in busy
      ensures busy == {} && name in old(disk) ==> ok
      ensures forall n :: n in old(disk) && n !in disk ==> n == name || (name.Blob? && n == Metadata(name.id))
      ensures NoNewOrphans(disk, old(disk), busy)
    {
      ok := Remove(name);
      if ok && name.Blob? && Metadata(name.id) in disk {
        ok := Remove(Metadata(name.id));
      }
    }

    /** What the walk does with one name: orphaned metadata goes, a file past its age
        goes if it may, and whatever is left to account for is returned. */
    method Visit(p: Name, protected: Option<Name>, pins: set<Name>, maxAge: int, now: int)
      returns (counted: Option<Counted>)
      modifies this`disk
      ensures Subset(disk, old(disk)) && Companions(disk, old(disk)) && NoNewOrphans(disk, old(disk), busy)
      ensures OthersStay(disk, old(disk))
      ensures forall n :: n in old(disk) && n !in disk ==> n == p || n.Metadata?
      ensures counted.None? ==> !Counts(disk, p, now)
      ensures counted.Some? ==>
        Counts(old(disk), p, now) && counted.value == Counted(p, Weight(old(disk), p), old(disk)[p].mtime)
      ensures counted.Some? && p in disk ==> Counts(disk, p, now) && counted.value.size == Weight(disk, p)
      ensures counted.Some? && busy == {} ==> p in disk
      ensures Regular(old(disk), p) && !p.Metadata? ==>
        (Shielded(p, protected, pins) || now - old(disk)[p].mtime <= maxAge ==> p in disk)
      ensures Counts(disk, p, now) && !Shielded(p, protected, pins) && now - disk[p].mtime > maxAge ==> p in busy
      ensures p.Metadata? && Orphaned(disk, p.id) ==> p in busy
    {
      counted := None;
      if p !in disk || !disk[p].Kept? { return; }
      if p.Metadata? {
        if !Exists(disk, Blob(p.id)) {
          var ok := Remove(p);
        }
        return;
      }
      if p.Partial? && now - disk[p].mtime < DAY { return; }
      var f := Counted(p, Weight(disk, p), disk[p].mtime);
      if !Shielded(p, protected, pins) && now - f.mtime > maxAge {
        var gone := RemoveRetainedFile(p);
        if gone { return; }
      }
      counted := Some(f);
    }

    /** How far the walk has come: every file it passed that is still there is counted,
        and none of them is past its age that could have gone. */
    ghost predicate Walked(past: seq<Name>, before: Disk, files: seq<Counted>, total: int, protected: Option<Name>,
                           pins: set<Name>, maxAge: int, now: int)
      reads this
    {
      && Swept(past, before, disk, busy, protected, pins, maxAge, now) && Tallies(files, disk, now)
      && (forall f :: f in files ==> f.name in past)
      && (forall n :: n in past && Counts(disk, n, now) ==> Listed(files, n))
      && total >= Usage(past, disk, now)
      && (busy == {} ==> total == Usage(past, disk, now) && forall f :: f in files ==> f.name in disk)
    }

    method VisitNext(ghost past: seq<Name>, p: Name, ghost before: Disk, files0: seq<Counted>, total0: int,
                     protected: Option<Name>, pins: set<Name>, maxAge: int, now: int)
      returns (files: seq<Counted>, total: int)
      requires Walked(past, before, files0, total0, protected, pins, maxAge, now) && p !in past
      modifies this`disk
      ensures Walked(past + [p], before, files, total, protected, pins, maxAge, now) && Subset(disk, old(disk))
    {
      hide Exists, Distinct, Size, Weight, Companions, Tallies, Orphaned, NoNewOrphans, OthersStay, Swept;
      ghost var was := disk;
      var counted := Visit(p, protected, pins, maxAge, now);
      StillTallies(files0, was, disk, now);
      PastSame(past, p, was, disk, now);
      SweptNext(past, p, before, was, disk, busy, protected, pins, maxAge, now);
      assert (past + [p])[..|past|] == past;
      files, total := files0, total0;
      if counted.Some? {
        files, total := files + [counted.value], total + counted.value.size;
        CountsOneMore(files0, counted.value, disk, now);
      }
    }

    /** The walk over the whole directory. */
    method CollectFiles(protected: Option<Name>, pins: set<Name>, maxAge: int, now: int)
      returns (files: seq<Counted>, total: int)
      requires Valid()
      modifies this`disk
      ensures Valid() && Walked(names, old(disk), files, total, protected, pins, maxAge, now)
    {
      files, total := [], 0;
      for k := 0 to |names|
        invariant Valid() && Walked(names[..k], old(disk), files, total, protected, pins, maxAge, now)
      {
        files, total := VisitNext(names[..k], names[k], old(disk), files, total, protected, pins, maxAge, now);
        assert names[..k + 1] == names[..k] + [names[k]];
      }
      assert names[..|names|] == names;
    }

    /** Evicts files in the order given until the total is within the budget. */
    method EvictOldest(files: seq<Counted>, total0: int, protected: Option<Name>, pins: set<Name>, maxBytes: int,
                       now: int)
      requires Valid() && Sorted(files) && Tallies(files, disk, now)
      requires forall n :: Counts(disk, n, now) ==> Listed(files, n)
      requires total0 >= Usage(names, disk, now) && (busy == {} ==> total0 == Usage(names, disk, now))
      requires busy == {} ==> forall f :: f in files ==> f.name in disk
      modifies this`disk
      ensures Valid() && Subset(disk, old(disk)) && Companions(disk, old(disk)) && OthersStay(disk, old(disk))
      ensures forall n :: n in old(disk) && n !in disk && !n.Metadata? ==>
        Listed(files, n) && !Shielded(n, protected, pins)
      ensures NoNewOrphans(disk, old(disk), busy)
      ensures || Usage(names, disk, now) <= maxBytes
              || forall n :: Counts(disk, n, now) ==> Shielded(n, protected, pins) || n in busy
      ensures EldersFirst(files, old(disk), disk, (g: Name) => Shielded(g, protected, pins) || g in busy)
      ensures busy == {} ==> disk == old(disk) || Needed(names, old(disk), disk, maxBytes, now)
      ensures total0 <= maxBytes ==> disk == old(disk)
    {
      hide Usage, Weight, Distinct;
      var total := total0;
      var k := 0;
      while k < |files| && total > maxBytes
        invariant k <= |files| && Valid() && Subset(disk, old(disk)) && Companions(disk, old(disk))
        invariant OthersStay(disk, old(disk))
        invariant Tallies(files, disk, now)
        invariant forall j :: 0 <= j < k && !Shielded(files[j].name, protected, pins) ==>
          files[j].name !in disk || files[j].name in busy
        invariant forall j :: k <= j < |files| ==> (files[j].name in disk <==> files[j].name in old(disk))
        invariant forall n :: n in old(disk) && n !in disk && !n.Metadata? ==>
          Listed(files, n) && !Shielded(n, protected, pins)
        invariant NoNewOrphans(disk, old(disk), busy)
        invariant total >= Usage(names, disk, now) && (busy == {} ==> total == Usage(names, disk, now))
        invariant busy == {} ==> disk == old(disk) || Needed(names, old(disk), disk, maxBytes, now)
        invariant total0 <= maxBytes ==> k == 0 && disk == old(disk) && total == total0
      {
        var f := files[k];
        if !Shielded(f.name, protected, pins) {
          ghost var before := disk;
          assert f in files && Listed(files, f.name);
          var ok := RemoveRetainedFile(f.name);
          StillTallies(files, before, disk, now);
          RestStays(files, before, disk, k);
          if f.name in before && f.name !in disk {
            UsageAfterRemoval(names, before, disk, f.name, now);
            YoungestYet(files, old(disk), disk, k, now);
          }
          if ok {
            total := total - f.size;
          }
        }
        k := k + 1;
      }
      forall n | Counts(disk, n, now) && total > maxBytes
        ensures Shielded(n, protected, pins) || n in busy
      {
        assert Counts(old(disk), n, now);
        var f :| f in files && f.name == n;
        var j :| 0 <= j < |files| && files[j] == f;
      }
    }

    /** Prunes on use. Nothing shielded goes; what is left is within the budget or
        could not be removed; files past their age go first and then the oldest; and
        no more goes than has to. */
    method PruneFiles(protected: Option<Name>, pins: set<Name>, maxBytes: int, maxAge: int, now: int)
      requires Valid()
      modifies this`disk
      ensures Valid() && Subset(disk, old(disk)) && Companions(disk, old(disk)) && OthersStay(disk, old(disk))
      ensures forall n :: n in old(disk) && !n.Metadata? && Shielded(n, protected, pins) ==> n in disk
      ensures || Usage(names, disk, now) <= maxBytes
              || forall n :: Counts(disk, n, now) ==> Shielded(n, protected, pins) || n in busy
      ensures OldestGone(old(disk), disk, now, (g: Name) => Shielded(g, protected, pins) || g in busy)
      ensures busy == {} ==>
        OnlyAged(old(disk), disk, maxAge, now) || Needed(names, old(disk), disk, maxBytes, now)
      ensures busy == {} && old(Usage(names, disk, now)) <= maxBytes ==> OnlyAged(old(disk), disk, maxAge, now)
      ensures forall id :: Orphaned(disk, id) ==> Metadata(id) in busy
    {
      hide Usage, Weight, Size, Tallies, Distinct, Needed, OnlyAged;
      var files, total := CollectFiles(protected, pins, maxAge, now);
      ghost var middle := disk;
      UsageShrinks(names, old(disk), middle, now);
      SortingTallies(files, disk, now);
      EvictOldest(OldestFirst(files), total, protected, pins, maxBytes, now);
      EldersGoFirst(OldestFirst(files), old(disk), middle, disk, maxAge, now,
                    n => Shielded(n, protected, pins) || n in busy);
      if busy == {} {
        PrunedAsNeeded(names, OldestFirst(files), old(disk), middle, disk, protected, pins, maxBytes, maxAge, now);
      }
    }

    /** A recovery directory: uploads and their metadata, all within the budget. */
    ghost predicate Within(budget: int, now: int)
      reads this
    {
      Valid() && busy == {} && Bounded(names, disk, budget, now)
    }

    /** Within the budget means that all the bytes in the directory are. */
    lemma AllBytesWithin(all: seq<Name>, budget: int, now: int)
      requires Within(budget, now) && Distinct(all) && forall n :: n in all ==> n in disk
      ensures BytesOf(all, disk) <= budget
    {
      forall n | n in all
        ensures Owed(disk, n, now)
      {
        if n.Metadata? { assert !Orphaned(disk, n.id); }
      }
      NothingEscapes(all, names, disk, now);
    }

    /** What is within the budget stays within it as time passes. */
    lemma WithinAnytime(budget: int, now: int)
      requires Within(budget, now)
      ensures forall later :: Within(budget, later)
    {
      forall later
        ensures Within(budget, later)
      {
        UsageAnytime(names, disk, now, later);
      }
    }

    /** Prunes for an upload of which nothing is protected. */
    method MakeRoom(room: nat, now: int)
      requires Valid()
      modifies this`disk
      ensures Valid() && Subset(disk, old(disk)) && Companions(disk, old(disk))
      ensures busy == {} ==> Usage(names, disk, now) <= room && forall id :: !Orphaned(disk, id)
      ensures busy == {} ==> OnlyAged(old(disk), disk, 604_800, now) || Needed(names, old(disk), disk, room, now)
      ensures busy == {} && old(Usage(names, disk, now)) <= room ==> OnlyAged(old(disk), disk, 604_800, now)
      ensures busy == {} ==> NoneYoungerGone(old(disk), disk, now)
    {
      hide OnlyAged, Needed, Usage, Counts;
      PruneFiles(None, {}, room, RETENTION_AGE, now);
      if busy == {} && Usage(names, disk, now) > room {
        NothingCounts(names, disk, now);
      }
    }

    /** Keeps the bytes of an upload that failed. Whatever goes wrong, the directory
        stays within the budget; success means the bytes are in it. */
    method RetainUpload(local: Bytes, description: Bytes, id: nat, budget: int, now: int, copied: bool, described: bool)
      returns (kept: bool, ok: bool)
      requires Valid() && Blob(id) !in names && Metadata(id) !in names
      modifies this
      ensures Valid() && (ok ==> kept)
      ensures kept ==> Blob(id) in disk && disk[Blob(id)] == Kept(local, now)
      ensures ok ==> Regular(disk, Metadata(id)) && disk[Metadata(id)].data == description
      ensures names == if kept then old(names) + [Blob(id), Metadata(id)] else old(names)
      ensures forall n :: n in disk && n !in old(disk) ==> kept && (n == Blob(id) || n == Metadata(id))
      ensures forall n :: n in disk && n in old(disk) ==> disk[n] == old(disk)[n]
      ensures old(Within(budget, now)) ==> Within(budget, now)
      ensures busy == {} && |local| + |description| <= budget ==> Usage(names, disk, now) <= budget
      ensures ok <==> |local| + |description| <= budget && copied && described
      // What was retained in the last seven days goes only for want of room, oldest first.
      ensures busy == {} ==>
        || OnlyAged(old(disk), disk, 604_800, now)
        || Needed(old(names), old(disk), disk, budget - |local| - |description|, now)
      ensures busy == {} && old(Usage(names, disk, now)) + |local| + |description| <= budget ==>
        OnlyAged(old(disk), disk, 604_800, now)
      ensures busy == {} ==> NoneYoungerGone(old(disk), disk, now)
      ensures forall i: nat :: i != id && Regular(disk, Blob(i)) && Metadata(i) in old(disk) ==> Metadata(i) in disk
      ensures Usage(names, disk, now) <= old(Usage(names, disk, now)) + |local| + |description|
    {
      hide OnlyAged, Needed, NoneYoungerGone, Usage;
      kept, ok := false, false;
      NothingGone(old(disk), 604_800, now);
      if |local| > budget - |description| { return; }
      MakeRoom(budget - |local| - |description|, now);
      ghost var before, listed := disk, names;
      UsageShrinks(listed, old(disk), before, now);
      if !copied { return; }
      disk, names := disk[Blob(id) := Kept(local, now)], names + [Blob(id), Metadata(id)];
      kept := true;
      if described {
        disk := disk[Metadata(id) := Kept(description, now)];
        ok := true;
      }
      OneMoreUpload(listed, before, disk, id, now);
      StillGone(listed, old(disk), before, disk, id, 604_800, budget - |local| - |description|, now);
      if old(Within(budget, now)) {
        UploadFits(listed, before, disk, id, local, description, budget, now);
      }
    }

    /** One more of them, and those kept before stay if there is room for all. */
    method RetainNext(failures: seq<Failure>, i: nat, ghost claims: seq<bool>, ghost usage: nat, budget: int,
                      ghost start: int)
      returns (ok: bool)
      requires i < |failures| && |claims| == i && Within(budget, failures[i].now) && Within(budget, start)
      requires DistinctIds(failures) && Blob(failures[i].id) !in names && Metadata(failures[i].id) !in names
      requires Usage(names, disk, start) <= usage + Totals(failures[..i])
      modifies this
      ensures forall now :: Within(budget, now)
      ensures ok == failures[i].Retainable(budget)
      ensures forall n :: n in disk && n !in old(disk) ==> n == Blob(failures[i].id) || n == Metadata(failures[i].id)
      ensures forall n :: n in names && n !in old(names) ==> n == Blob(failures[i].id) || n == Metadata(failures[i].id)
      ensures forall n :: n in disk && n in old(disk) ==> disk[n] == old(disk)[n]
      ensures Usage(names, disk, start) <= usage + Totals(failures[..i + 1])
      ensures Roomy(failures, usage, budget) ==>
        && (ok ==> Keeps(disk, failures[i]))
        && (forall k :: 0 <= k < i && claims[k] && old(Keeps(disk, failures[k])) ==> Keeps(disk, failures[k]))
        && (forall n: Name :: n.Blob? && Regular(old(disk), n) && failures[i].now - old(disk)[n].mtime <= 604_800 ==>
              n in disk)
    {
      hide Usage, Needed, NoneYoungerGone, Totals, Distinct;
      var f := failures[i];
      OneMoreTotal(failures, i);
      TotalsGrow(failures, i + 1);
      UsageAnytime(names, disk, start, f.now);
      var kept;
      kept, ok := RetainUpload(f.local, f.description, f.id, budget, f.now, f.copied, f.described);
      WithinAnytime(budget, f.now);
      UsageAnytime(names, disk, f.now, start);
    }

    /** Any uploads that failed, one after the other and whenever that was, each with a
        file name nothing had before: the directory stays within its budget at all times,
        holds nothing else that is new, and success is claimed exactly where due. */
    method RetainAll(failures: seq<Failure>, budget: int, start: int) returns (claims: seq<bool>)
      requires Within(budget, start) && DistinctIds(failures)
      requires forall k :: 0 <= k < |failures| ==> Blob(failures[k].id) !in names && Metadata(failures[k].id) !in names
      modifies this
      ensures Valid() && forall now :: Within(budget, now)
      ensures |claims| == |failures| && forall k :: 0 <= k < |failures| ==> claims[k] == failures[k].Retainable(budget)
      ensures forall n :: n in disk && n !in old(disk) ==>
        exists k :: 0 <= k < |failures| && n in {Blob(failures[k].id), Metadata(failures[k].id)}
      ensures Roomy(failures, old(Usage(names, disk, start)), budget) ==>
        && (forall k :: 0 <= k < |failures| && claims[k] ==> Keeps(disk, failures[k]))
        && (forall i: nat :: Regular(old(disk), Blob(i)) && Recent(old(disk)[Blob(i)].mtime, failures) ==>
              Blob(i) in disk && disk[Blob(i)] == old(disk)[Blob(i)])
    {
      hide Usage, Bounded, Keeps, Roomy, Totals;
      claims := [];
      assert failures[..|failures|] == failures && failures[..0] == [];
      ghost var usage := Usage(names, disk, start);
      WithinAnytime(budget, start);
      for i := 0 to |failures|
        invariant forall now :: Within(budget, now)
        invariant |claims| == i && forall k :: 0 <= k < i ==> claims[k] == failures[k].Retainable(budget)
        invariant forall k :: i <= k < |failures| ==>
          Blob(failures[k].id) !in names && Metadata(failures[k].id) !in names
        invariant forall n :: n in disk && n !in old(disk) ==>
          exists k :: 0 <= k < i && n in {Blob(failures[k].id), Metadata(failures[k].id)}
        invariant Usage(names, disk, start) <= usage + Totals(failures[..i])
        invariant Roomy(failures, usage, budget) ==>
          && (forall k :: 0 <= k < i && claims[k] ==> Keeps(disk, failures[k]))
          && (forall i: nat :: Regular(old(disk), Blob(i)) && Recent(old(disk)[Blob(i)].mtime, failures) ==>
                Blob(i) in disk && disk[Blob(i)] == old(disk)[Blob(i)])
      {
        var ok := RetainNext(failures, i, claims, usage, budget, start);
        claims := claims + [ok];
      }
      assert Within(budget, start);
    }
  }

  /** Where nothing is being downloaded, what counts does not depend on the hour. */
  lemma {:induction false} UsageAnytime(names: seq<Name>, disk: Disk, now: int, later: int)
    requires forall n :: n in names ==> !n.Partial?
    ensures Usage(names, disk, now) == Usage(names, disk, later)
  {
    if names == [] {
    } else {
      assert names[|names| - 1] in names;
      UsageAnytime(names[..|names| - 1], disk, now, later);
    }
  }

  lemma {:induction false} NothingCounts(names: seq<Name>, disk: Disk, now: int)
    requires forall n :: n in names ==> !Counts(disk, n, now)
    ensures Usage(names, disk, now) == 0
  {
    if names == [] {
    } else {
      assert names[|names| - 1] in names;
      NothingCounts(names[..|names| - 1], disk, now);
    }
  }

  lemma NothingGone(disk: Disk, maxAge: int, now: int)
    ensures OnlyAged(disk, disk, maxAge, now) && NoneYoungerGone(disk, disk, now)
  {
  }

  /** A new upload changes nothing about what went before it. */
  lemma StillGone(names: seq<Name>, before: Disk, middle: Disk, after: Disk, id: nat, maxAge: int, room: int, now: int)
    requires Subset(middle, before) && (forall n :: n in before ==> n in names)
    requires Blob(id) !in names && Metadata(id) !in names
    requires forall n :: n != Blob(id) && n != Metadata(id) ==>
      (n in middle <==> n in after) && (n in middle ==> after[n] == middle[n])
    ensures OnlyAged(before, middle, maxAge, now) ==> OnlyAged(before, after, maxAge, now)
    ensures NoneYoungerGone(before, middle, now) ==> NoneYoungerGone(before, after, now)
    ensures Needed(names, before, middle, room, now) ==> Needed(names, before, after, room, now)
  {
    forall n | n in names
      ensures Counts(middle, n, now) <==> Counts(after, n, now)
      ensures Counts(middle, n, now) ==> Weight(middle, n) == Weight(after, n)
    {
      if n.Blob? { assert n.id != id; }
    }
    UsageSame(names, middle, after, now);
    hide Usage, Weight, Counts;
    assert forall n :: Gone(before, middle, n) <==> Gone(before, after, n);
  }

  lemma UploadFits(names: seq<Name>, before: Disk, after: Disk, id: nat, local: Bytes, description: Bytes,
                   budget: int, now: int)
    requires Bounded(names, before, budget - |local| - |description|, now) && forall n :: n in before ==> n in names
    requires Blob(id) !in names && Metadata(id) !in names
    requires after in {before[Blob(id) := Kept(local, now)],
                       before[Blob(id) := Kept(local, now)][Metadata(id) := Kept(description, now)]}
    ensures Bounded(names + [Blob(id), Metadata(id)], after, budget, now)
  {
    OneMoreUpload(names, before, after, id, now);
    forall k: nat ensures !Orphaned(after, k) {
      assert !Orphaned(before, k);
    }
  }

  lemma OneMoreUpload(names: seq<Name>, before: Disk, after: Disk, id: nat, now: int)
    requires Blob(id) !in names && Metadata(id) !in names && Regular(after, Blob(id))
    requires forall n :: n != Blob(id) && n != Metadata(id) ==>
      (n in before <==> n in after) && (n in before ==> after[n] == before[n])
    ensures Usage(names + [Blob(id), Metadata(id)], after, now) == Usage(names, before, now) + Weight(after, Blob(id))
  {
    var more := names + [Blob(id), Metadata(id)];
    assert more[..|more| - 1] == names + [Blob(id)];
    assert (names + [Blob(id)])[..|names|] == names;
    forall n | n in names
      ensures Counts(before, n, now) <==> Counts(after, n, now)
      ensures Counts(before, n, now) ==> Weight(before, n) == Weight(after, n)
    {
      if n.Blob? { assert n.id != id; }
    }
    UsageSame(names, before, after, now);
  }

  // ------------------------------------------------------- empty directories

  /** A directory by its components beneath the pruned one. */
  type Dir = seq<string>

  /** A walk meets every directory once and after the one it is in, and every file in
      one of them or at the top. */
  predicate Tree(dirs: seq<Dir>, homes: set<Dir>) {
    && Distinct(dirs)
    && (forall d :: d in dirs ==> d != [] && (|d| == 1 || d[..|d| - 1] in dirs))
    && (forall h :: h in homes ==> h == [] || h in dirs)
    && forall i, j :: 0 <= i < |dirs| && 0 <= j < |dirs| && dirs[i] < dirs[j] ==> i < j
  }

  /** One of the marked directories is this one or beneath it. */
  ghost predicate Occupied(dir: Dir, marks: set<Dir>) {
    exists h :: h in marks && dir <= h
  }

  lemma {:induction false} AncestorListed(dirs: seq<Dir>, homes: set<Dir>, d: Dir, n: nat)
    requires Tree(dirs, homes) && d in dirs && 0 < n <= |d|
    ensures d[..n] in dirs
    decreases |d| - n
  {
    if n == |d| {
      assert d[..n] == d;
    } else {
      AncestorListed(dirs, homes, d, n + 1);
      var c := d[..n + 1];
      assert c[..|c| - 1] == d[..n];
    }
  }

  /** A directory with something marked in it has a child with something marked in it,
      or is marked itself. */
  lemma OccupiedChild(dirs: seq<Dir>, homes: set<Dir>, dir: Dir, h: Dir) returns (child: Dir)
    requires Tree(dirs, homes) && h in dirs && dir < h
    ensures child in dirs && |child| == |dir| + 1 && dir < child && child <= h
  {
    AncestorListed(dirs, homes, h, |dir| + 1);
    child := h[..|dir| + 1];
  }

  predicate Nested(dir: Dir, d: Dir) {
    |d| == |dir| + 1 && dir < d
  }

  /** What is standing when the loop comes to directory i. */
  ghost predicate Standing(dirs: seq<Dir>, i: int, marks: set<Dir>, standing: set<Dir>) {
    && (forall d :: d in standing ==> d in dirs)
    && forall k :: 0 <= k < |dirs| ==> (dirs[k] in standing <==> k <= i || Occupied(dirs[k], marks))
  }

  lemma OccupiedHasReason(dirs: seq<Dir>, i: nat, homes: set<Dir>, dir: Dir, h: Dir, marks: set<Dir>,
                          standing: set<Dir>)
    requires Tree(dirs, homes) && Standing(dirs, i, marks, standing) && h in marks && h in dirs && dir < h
    ensures exists d :: d in standing && Nested(dir, d)
  {
    var child := OccupiedChild(dirs, homes, dir, h);
    hide Tree;
    var k :| 0 <= k < |dirs| && dirs[k] == child;
    assert Occupied(child, marks);
    assert child in standing && Nested(dir, child);
  }

  lemma ReasonOccupies(dirs: seq<Dir>, i: nat, homes: set<Dir>, d: Dir, marks: set<Dir>, standing: set<Dir>)
    requires Tree(dirs, homes) && i < |dirs| && Standing(dirs, i, marks, standing)
    requires d in standing && Nested(dirs[i], d)
    ensures Occupied(dirs[i], marks)
  {
    var k :| 0 <= k < |dirs| && dirs[k] == d;
    assert dirs[i] < dirs[k];
    var h :| h in marks && d <= h;
    assert dirs[i] <= h;
  }

  lemma StandsIffOccupied(dirs: seq<Dir>, i: nat, homes: set<Dir>, held: set<Dir>, stuck: set<Dir>, standing: set<Dir>)
    requires Tree(dirs, homes) && i < |dirs| && forall d :: d in stuck ==> d in dirs
    requires Standing(dirs, i, homes + held + stuck, standing)
    ensures Occupied(dirs[i], homes + held + stuck) <==>
      || (exists h :: h in held && dirs[i] <= h) || dirs[i] in homes || dirs[i] in stuck
      || exists d :: d in standing && Nested(dirs[i], d)
  {
    var dir, marks := dirs[i], homes + held + stuck;
    if Occupied(dir, marks) {
      var h :| h in marks && dir <= h;
      if h !in held && dir != h { OccupiedHasReason(dirs, i, homes, dir, h, marks, standing); }
    }
    if exists d :: d in standing && Nested(dir, d) {
      var d :| d in standing && Nested(dir, d);
      ReasonOccupies(dirs, i, homes, d, marks, standing);
    }
  }

  lemma StandingNext(dirs: seq<Dir>, i: nat, marks: set<Dir>, standing: set<Dir>)
    requires Distinct(dirs) && i < |dirs| && Standing(dirs, i, marks, standing)
    ensures Standing(dirs, i - 1, marks, if Occupied(dirs[i], marks) then standing else standing - {dirs[i]})
  {
    hide Occupied;
  }

  lemma AllStanding(dirs: seq<Dir>, marks: set<Dir>)
    ensures Standing(dirs, |dirs| - 1, marks, set d | d in dirs)
  {
    hide Occupied;
  }

  /** The last loop of pruning, deepest directories first. What remains is exactly the
      directories at or above a remaining file, the protected or a pinned file, whether
      that is there or not, or a directory that cannot be removed. */
  method RemoveEmpty(dirs: seq<Dir>, homes: set<Dir>, held: set<Dir>, stuck: set<Dir>) returns (standing: set<Dir>)
    requires Tree(dirs, homes) && forall d :: d in stuck ==> d in dirs
    ensures forall d :: d in standing <==> d in dirs && Occupied(d, homes + held + stuck)
  {
    hide Standing;
    ghost var marks := homes + held + stuck;
    standing := set d | d in dirs;
    AllStanding(dirs, marks);
    for i := |dirs| downto 0
      invariant Standing(dirs, i - 1, marks, standing)
    {
      var dir := dirs[i];
      StandsIffOccupied(dirs, i, homes, held, stuck, standing);
      StandingNext(dirs, i, marks, standing);
      var pinned := exists h :: h in held && dir <= h;
      var empty := dir !in homes && forall d :: d in standing ==> !Nested(dir, d);
      if !pinned && empty && dir !in stuck {
        standing := standing - {dir};
      }
    }
    StandingEnds(dirs, marks, standing);
  }

  lemma StandingEnds(dirs: seq<Dir>, marks: set<Dir>, standing: set<Dir>)
    requires Standing(dirs, -1, marks, standing)
    ensures forall d :: d in standing <==> d in dirs && Occupied(d, marks)
  {
    forall d | d in dirs
      ensures d in standing <==> Occupied(d, marks)
    {
      var k :| 0 <= k < |dirs| && dirs[k] == d;
    }
  }
}
