/** Downloads kept on disk: filled on demand, pinned while they are being opened,
    and pruned by whoever comes by (internal/webdav/cache.go). */
module FileCache {
  import opened Store
  import opened Maintenance

  /** What the service and the disk do to one fill. */
  datatype Supply = Supply(downloaded: Option<Bytes>, renamed: bool)

  /** A new file adds no more than its own bytes to the total. */
  lemma OneMoreFile(names: seq<Name>, disk: Disk, target: Name, data: Bytes, now: int)
    requires Distinct(names) && target in names && target.Plain?
    ensures Usage(names, disk[target := Kept(data, now)], now) <= Usage(names, disk, now) + |data|
  {
    UsageShrinks(names, disk, disk - {target}, now);
    UsageWithout(names, disk[target := Kept(data, now)], disk - {target}, now, target);
  }

  /** What is left but the target is as it was. */
  predicate Untouched(a: Disk, b: Disk, target: Name) {
    forall n :: n in b && n != target ==> n in a && b[n] == a[n]
  }

  lemma AgedThrough(a: Disk, b: Disk, c: Disk, target: Name, now: int)
    requires OnlyAged(a, b, 604_800, now) && OnlyAged(b, c, 604_800, now)
    requires target in a && Regular(a, target) ==> target in c
    requires Untouched(a, b, target)
    ensures OnlyAged(a, c, 604_800, now)
  {
    forall f | Gone(a, c, f)
      ensures now - a[f].mtime > 604_800
    {
      assert f in b ==> Gone(b, c, f);
      assert f !in b ==> Gone(a, b, f);
    }
  }

  class Cache {
    const folder: Folder
    /** How many callers are between asking for a file and holding it open. */
    var pins: map<Name, nat>

    ghost predicate Valid()
      reads this, folder
    {
      folder.Valid() && forall n :: n in pins ==> pins[n] > 0
    }

    constructor (folder: Folder)
      requires folder.Valid()
      ensures Valid() && this.folder == folder && pins == map[]
    {
      this.folder, pins := folder, map[];
    }

    method Pin(target: Name)
      requires Valid()
      modifies this`pins
      ensures Valid() && pins == old(pins)[target := (if target in old(pins) then old(pins)[target] else 0) + 1]
    {
      pins := pins[target := (if target in pins then pins[target] else 0) + 1];
    }

    method Unpin(target: Name)
      requires Valid() && target in pins
      modifies this`pins
      ensures Valid()
      ensures pins ==
        if old(pins)[target] == 1 then old(pins) - {target} else old(pins)[target := old(pins)[target] - 1]
    {
      pins := pins[target := pins[target] - 1];
      if pins[target] == 0 {
        pins := pins - {target};
      }
    }

    /** A pin taken and given back leaves every other pin in place. */
    lemma PinsBalance(before: map<Name, nat>, target: Name)
      requires forall n :: n in before ==> before[n] > 0
      ensures var held := before[target := (if target in before then before[target] else 0) + 1];
        (if held[target] == 1 then held - {target} else held[target := held[target] - 1]) == before
    {
    }

    predicate Holds(target: Name, size: nat)
      reads folder
    {
      Regular(folder.disk, target) && |folder.disk[target].data| == size
    }

    /** A copy can be had: nothing but a file is in the way, and the download is whole. */
    predicate Fillable(target: Name, size: nat, supply: Supply)
      reads folder
    {
      && (target in folder.disk ==> Regular(folder.disk, target))
      && supply.renamed && supply.downloaded.Some? && |supply.downloaded.value| == size
    }

    /** Eviction by anyone, for any other file. */
    method Prune(protected: Option<Name>, maxBytes: int, now: int)
      requires Valid()
      modifies folder`disk
      ensures Valid() && Subset(folder.disk, old(folder.disk))
      ensures forall n :: n in old(folder.disk) && !n.Metadata? && Shielded(n, protected, pins.Keys) ==>
        n in folder.disk
      ensures folder.busy == {} ==>
        || OnlyAged(old(folder.disk), folder.disk, 604_800, now)
        || Needed(folder.names, old(folder.disk), folder.disk, maxBytes, now)
      ensures folder.busy == {} && old(Usage(folder.names, folder.disk, now)) <= maxBytes ==>
        OnlyAged(old(folder.disk), folder.disk, 604_800, now)
      ensures forall f, g :: Gone(old(folder.disk), folder.disk, f) && Counts(folder.disk, g, now) ==>
        old(folder.disk)[f].mtime <= folder.disk[g].mtime || Shielded(g, protected, pins.Keys) || g in folder.busy
    {
      folder.PruneFiles(protected, pins.Keys, maxBytes, RETENTION_AGE, now);
    }

    /** Downloads to a file of its own and publishes it only if it has the listed
        size. */
    method Fill(target: Name, size: nat, supply: Supply, maxBytes: int, now: int) returns (ok: bool)
      requires Valid() && !target.Metadata? && target in folder.names
      modifies folder`disk
      ensures Valid()
      ensures ok ==> Holds(target, size)
      ensures ok && !old(Holds(target, size)) ==>
        supply.downloaded == Some(folder.disk[target].data) && folder.disk[target].mtime == now
      ensures old(Holds(target, size)) ==> ok && folder.disk == old(folder.disk)
      ensures Untouched(old(folder.disk), folder.disk, target)
      ensures target.Plain? && folder.busy == {} && old(Usage(folder.names, folder.disk, now)) + size <= maxBytes ==>
        OnlyAged(old(folder.disk), folder.disk, 604_800, now)
      ensures target.Plain? ==>
        Usage(folder.names, folder.disk, now) <= old(Usage(folder.names, folder.disk, now)) + size
      ensures !ok ==> folder.disk == old(folder.disk)
      ensures ok <==> old(Holds(target, size)) || old(Fillable(target, size, supply))
    {
      if target in folder.disk {
        if !folder.disk[target].Kept? {
          return false;
        }
        if |folder.disk[target].data| == size {
          return true;
        }
      }
      if supply.downloaded.None? || |supply.downloaded.value| != size || !supply.renamed {
        return false;
      }
      ghost var was := folder.disk;
      if target.Plain? { OneMoreFile(folder.names, was, target, supply.downloaded.value, now); }
      folder.disk := folder.disk[target := Kept(supply.downloaded.value, now)];
      ghost var with := folder.disk;
      Prune(Some(target), maxBytes, now);
      UsageShrinks(folder.names, with, folder.disk, now);
      ok := true;
      if OnlyAged(with, folder.disk, 604_800, now) { AgedThrough(was, with, folder.disk, target, now); }
    }

    /** Makes sure the file is there; a kept copy is used again if its size is right, and
        counts as new. */
    method Ensure(target: Name, size: nat, supply: Supply, maxBytes: int, now: int) returns (ok: bool)
      requires Valid() && !target.Metadata? && target in folder.names
      modifies folder`disk
      ensures Valid()
      ensures ok ==> Holds(target, size) && folder.disk[target].mtime == now
      ensures ok && !old(Holds(target, size)) ==> supply.downloaded == Some(folder.disk[target].data)
      ensures ok && old(Holds(target, size)) ==> folder.disk[target].data == old(folder.disk)[target].data
      ensures target.Plain? && folder.busy == {} && old(Usage(folder.names, folder.disk, now)) + size <= maxBytes ==>
        OnlyAged(old(folder.disk), folder.disk, 604_800, now)
      ensures target.Plain? ==>
        Usage(folder.names, folder.disk, now) <= old(Usage(folder.names, folder.disk, now)) + size
      ensures Untouched(old(folder.disk), folder.disk, target)
      ensures ok <==> old(Holds(target, size)) || old(Fillable(target, size, supply))
    {
      ghost var was := folder.disk;
      Prune(Some(target), maxBytes, now);
      ghost var pruned := folder.disk;
      UsageShrinks(folder.names, was, pruned, now);
      if target in folder.disk {
        if !folder.disk[target].Kept? {
          return false;
        }
        if |folder.disk[target].data| == size {
          if target.Plain? { OneMoreFile(folder.names, pruned, target, folder.disk[target].data, now); }
          folder.disk := folder.disk[target := folder.disk[target].(mtime := now)];
          return true;
        }
      }
      ok := Fill(target, size, supply, maxBytes, now);
      if OnlyAged(was, pruned, 604_800, now) && OnlyAged(pruned, folder.disk, 604_800, now) {
        assert target in pruned ==> !ok ==> folder.disk == pruned;
        AgedThrough(was, pruned, folder.disk, target, now);
      }
    }

    /** Opens a file. The pin keeps it from being evicted between the moment it is
        there and the moment it is open, whatever others prune meanwhile. */
    method Open(target: Name, size: nat, supply: Supply, maxBytes: int, now: int, others: seq<Option<Name>>)
      returns (content: Option<Bytes>)
      requires Valid() && !target.Metadata? && target in folder.names
      modifies this`pins, folder`disk
      ensures Valid() && pins == old(pins)
      ensures target.Plain? && folder.busy == {} && old(Usage(folder.names, folder.disk, now)) + size <= maxBytes ==>
        OnlyAged(old(folder.disk), folder.disk, 604_800, now)
      ensures content.Some? ==> |content.value| == size
      ensures content.Some? && old(Holds(target, size)) ==> content.value == old(folder.disk)[target].data
      ensures content.Some? && !old(Holds(target, size)) ==> content == supply.downloaded
      ensures content.Some? <==> old(Holds(target, size)) || old(Fillable(target, size, supply))
    {
      hide Usage, OnlyAged, Needed;
      ghost var was := folder.disk;
      ghost var roomy := target.Plain? && folder.busy == {} && Usage(folder.names, was, now) + size <= maxBytes;
      PinsBalance(pins, target);
      Pin(target);
      var ok := Ensure(target, size, supply, maxBytes, now);
      if ok {
        ghost var published := folder.disk[target];
        for k := 0 to |others|
          invariant Valid() && target in pins && Regular(folder.disk, target) && folder.disk[target] == published
          invariant pins == old(pins)[target := (if target in old(pins) then old(pins)[target] else 0) + 1]
          invariant roomy ==> Usage(folder.names, folder.disk, now) <= maxBytes
          invariant roomy ==> OnlyAged(was, folder.disk, 604_800, now) && Untouched(was, folder.disk, target)
        {
          ghost var before := folder.disk;
          Prune(others[k], maxBytes, now);
          UsageShrinks(folder.names, before, folder.disk, now);
          if roomy { AgedThrough(was, before, folder.disk, target, now); }
        }
        content := Some(folder.disk[target].data);
      } else {
        content := None;
      }
      Unpin(target);
    }
  }
}
