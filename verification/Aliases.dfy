/** Display names for the device roots of an account (internal/webdav/fs.go). */
module Aliases {
  import opened Paths
  import opened Store

  /** A root entry; a device carries the name its owner gave it, trimmed. */
  datatype Root = Root(name: string, device: Option<string>)

  datatype AliasSet = AliasSet(rawToDisplay: map<string, string>, displayToRaw: map<string, string>,
                               protectedRaw: set<string>)

  /** BrowseFresh refuses a listing with an invalid or repeated name. */
  predicate ValidListing(nodes: seq<Root>) {
    && (forall i, j :: 0 <= i < j < |nodes| ==> nodes[i].name != nodes[j].name)
    && (forall n :: n in nodes ==> Proper(n.name))
  }

  predicate ValidAlias(name: string) {
    name != "" && name != "." && name != ".." && '/' !in name && '\\' !in name && '\0' !in name
  }

  /** The name a device asks for. */
  function Wanted(n: Root): string {
    if n.device.None? || n.device.value == "" then n.name else n.device.value
  }

  function Wishes(nodes: seq<Root>, display: string): nat {
    if nodes == [] then 0
    else
      var last := nodes[|nodes| - 1];
      Wishes(nodes[..|nodes| - 1], display) + if last.device.Some? && Wanted(last) == display then 1 else 0
  }

  predicate Reserved(nodes: seq<Root>, name: string) {
    exists n :: n in nodes && n.name == name
  }

  /** A device is shown under the name it asks for if that is usable, asked for only
      once and no root's own name; otherwise under its raw name. */
  function Display(nodes: seq<Root>, n: Root): string {
    if Wanted(n) != n.name && ValidAlias(Wanted(n)) && Wishes(nodes, Wanted(n)) == 1 && !Reserved(nodes, Wanted(n))
    then Wanted(n) else n.name
  }

  lemma {:induction false} WishedByOne(nodes: seq<Root>, i: nat)
    requires i < |nodes| && nodes[i].device.Some?
    ensures Wishes(nodes, Wanted(nodes[i])) >= 1
  {
    var k := |nodes| - 1;
    if i == k {
    } else {
      WishedByOne(nodes[..k], i);
    }
  }

  lemma {:induction false} WishedByTwo(nodes: seq<Root>, i: nat, j: nat)
    requires i < j < |nodes| && nodes[i].device.Some? && nodes[j].device.Some? && Wanted(nodes[i]) == Wanted(nodes[j])
    ensures Wishes(nodes, Wanted(nodes[i])) >= 2
  {
    var k := |nodes| - 1;
    if j < k { WishedByTwo(nodes[..k], i, j); } else { WishedByOne(nodes[..k], i); }
  }

  /** No two devices are shown under one name, and none under the name of another
      root. */
  lemma DisplaysApart(nodes: seq<Root>, a: Root, b: Root)
    requires ValidListing(nodes) && a in nodes && a.device.Some? && b in nodes && a != b
    ensures Display(nodes, a) != b.name
    ensures b.device.Some? ==> Display(nodes, a) != Display(nodes, b)
  {
    var i :| 0 <= i < |nodes| && nodes[i] == a;
    var j :| 0 <= j < |nodes| && nodes[j] == b;
    if b.device.Some? && Wanted(a) == Wanted(b) {
      WishedByTwo(nodes, if i < j then i else j, if i < j then j else i);
    }
  }

  lemma {:induction false} WishedByAtMostOne(nodes: seq<Root>, a: Root, display: string)
    requires ValidListing(nodes) && forall b :: b in nodes && b.device.Some? && Wanted(b) == display ==> b == a
    ensures Wishes(nodes, display) <= if a in nodes then 1 else 0
  {
    if nodes == [] {
    } else {
      var k := |nodes| - 1;
      assert nodes == nodes[..k] + [nodes[k]];
      assert nodes[k] == a ==> a !in nodes[..k];
      WishedByAtMostOne(nodes[..k], a, display);
    }
  }

  /** A device is shown under the name its owner gave it if that is a usable name no other
      root has and no other device was given, and otherwise under its raw name. */
  lemma DisplayIff(nodes: seq<Root>, a: Root, given: string)
    requires ValidListing(nodes) && a in nodes && a.device == Some(given) && given != a.name
    ensures Display(nodes, a) ==
      if && given != "" && given != "." && given != ".." && '/' !in given && '\\' !in given && '\0' !in given
         && (forall b :: b in nodes ==> b.name != given && (b != a ==> b.device != Some(given)))
      then given else a.name
  {
    if Display(nodes, a) == given {
      forall b | b in nodes && b != a
        ensures b.device != Some(given)
      {
        if b.device == Some(given) { SharedIsRaw(nodes, a, b); }
      }
    }
    if forall b :: b in nodes ==> b.name != given && (b != a ==> b.device != Some(given)) {
      WishedByAtMostOne(nodes, a, given);
      var i :| 0 <= i < |nodes| && nodes[i] == a;
      WishedByOne(nodes, i);
    }
  }

  lemma SharedIsRaw(nodes: seq<Root>, a: Root, b: Root)
    requires ValidListing(nodes) && a in nodes && b in nodes && a != b && a.device.Some? && b.device == a.device
    requires Wanted(a) != a.name && Wanted(b) != b.name
    ensures Display(nodes, a) == a.name
  {
    var i :| 0 <= i < |nodes| && nodes[i] == a;
    var j :| 0 <= j < |nodes| && nodes[j] == b;
    WishedByTwo(nodes, if i < j then i else j, if i < j then j else i);
  }

  /** The set names exactly these devices, each as it is shown. */
  ghost predicate Names(devices: seq<Root>, shown: Root -> string, a: AliasSet) {
    && (forall n :: n in devices ==> Paired(a, n.name, shown(n)))
    && (forall raw :: raw in a.rawToDisplay ==> exists n :: n in devices && n.name == raw)
    && (forall d :: d in a.displayToRaw ==> exists n :: n in devices && shown(n) == d)
    && a.protectedRaw == a.rawToDisplay.Keys
  }

  predicate Paired(a: AliasSet, raw: string, display: string) {
    && raw in a.rawToDisplay && a.rawToDisplay[raw] == display
    && display in a.displayToRaw && a.displayToRaw[display] == raw
  }

  function Devices(nodes: seq<Root>): seq<Root> {
    if nodes == [] then []
    else
      var last := nodes[|nodes| - 1];
      Devices(nodes[..|nodes| - 1]) + if last.device.Some? then [last] else []
  }

  lemma {:induction false} InDevices(nodes: seq<Root>)
    ensures forall n :: n in Devices(nodes) <==> n in nodes && n.device.Some?
  {
    if nodes == [] {
    } else {
      var k := |nodes| - 1;
      InDevices(nodes[..k]);
      assert nodes == nodes[..k] + [nodes[k]];
    }
  }

  lemma OneMoreName(devices: seq<Root>, shown: Root -> string, a: AliasSet, item: Root)
    requires Names(devices, shown, a)
    requires forall n :: n in devices && n != item ==> n.name != item.name && shown(n) != shown(item)
    ensures Names(devices + [item], shown, AliasSet(a.rawToDisplay[item.name := shown(item)],
      a.displayToRaw[shown(item) := item.name], a.protectedRaw + {item.name}))
  {
    var more, d := devices + [item], shown(item);
    var a' := AliasSet(a.rawToDisplay[item.name := d], a.displayToRaw[d := item.name], a.protectedRaw + {item.name});
    assert forall n :: n in more <==> n in devices || n == item;
    PairedStay(devices, shown, a, item);
    forall raw | raw in a'.rawToDisplay
      ensures exists n :: n in more && n.name == raw
    {
      hide Paired;
      if raw == item.name { assert item in more; }
    }
    forall display | display in a'.displayToRaw
      ensures exists n :: n in more && shown(n) == display
    {
      hide Paired;
      if display == d { assert item in more; }
    }
  }

  lemma PairedStay(devices: seq<Root>, shown: Root -> string, a: AliasSet, item: Root)
    requires forall n :: n in devices ==> Paired(a, n.name, shown(n))
    requires forall n :: n in devices && n != item ==> n.name != item.name && shown(n) != shown(item)
    ensures var a' := AliasSet(a.rawToDisplay[item.name := shown(item)], a.displayToRaw[shown(item) := item.name],
                               a.protectedRaw + {item.name});
      Paired(a', item.name, shown(item)) && forall n :: n in devices ==> Paired(a', n.name, shown(n))
  {
  }

  /** Collects wishes and names, then gives each device its name. */
  method BuildRootAliases(nodes: seq<Root>) returns (aliases: AliasSet)
    requires ValidListing(nodes)
    ensures Names(Devices(nodes), n => Display(nodes, n), aliases)
  {
    var counts: map<string, nat>, reserved: set<string>, devices: seq<Root> := map[], {}, [];
    for k := 0 to |nodes|
      invariant forall name :: name in reserved <==> Reserved(nodes[..k], name)
      invariant forall d :: (if d in counts then counts[d] else 0) == Wishes(nodes[..k], d)
      invariant devices == Devices(nodes[..k])
    {
      var node := nodes[k];
      assert nodes[..k + 1][..k] == nodes[..k] && nodes[..k + 1] == nodes[..k] + [node];
      reserved := reserved + {node.name};
      OneMoreReserved(nodes[..k], node);
      if node.device.Some? {
        var display := Wanted(node);
        counts := counts[display := (if display in counts then counts[display] else 0) + 1];
        devices := devices + [node];
      }
    }
    assert nodes[..|nodes|] == nodes;
    aliases := GiveNames(nodes, devices, counts, reserved);
  }

  lemma OneMoreReserved(nodes: seq<Root>, node: Root)
    ensures forall name :: Reserved(nodes + [node], name) <==> Reserved(nodes, name) || name == node.name
  {
  }

  method GiveNames(nodes: seq<Root>, devices: seq<Root>, counts: map<string, nat>, reserved: set<string>)
    returns (aliases: AliasSet)
    requires ValidListing(nodes) && devices == Devices(nodes)
    requires forall name :: name in reserved <==> Reserved(nodes, name)
    requires forall d :: (if d in counts then counts[d] else 0) == Wishes(nodes, d)
    ensures Names(devices, n => Display(nodes, n), aliases)
  {
    ghost var shown := n => Display(nodes, n);
    aliases := AliasSet(map[], map[], {});
    for k := 0 to |devices|
      invariant Names(devices[..k], shown, aliases)
    {
      var item := devices[k];
      var display := item.name;
      if Wanted(item) != item.name && ValidAlias(Wanted(item)) && Wanted(item) in counts && counts[Wanted(item)] == 1 {
        if Wanted(item) !in reserved {
          display := Wanted(item);
        }
      }
      ShownApart(nodes, item);
      OneMoreName(devices[..k], shown, aliases, item);
      aliases := AliasSet(aliases.rawToDisplay[item.name := display], aliases.displayToRaw[display := item.name],
                          aliases.protectedRaw + {item.name});
      assert devices[..k + 1] == devices[..k] + [item];
    }
    assert devices[..|devices|] == devices;
  }

  lemma ShownApart(nodes: seq<Root>, item: Root)
    requires ValidListing(nodes) && item in Devices(nodes)
    ensures forall n :: n in Devices(nodes) && n != item ==>
      n.name != item.name && Display(nodes, n) != Display(nodes, item)
  {
    InDevices(nodes);
    forall n | n in Devices(nodes) && n != item
      ensures n.name != item.name && Display(nodes, n) != Display(nodes, item)
    {
      SameNameSameRoot(nodes, n, item);
      DisplaysApart(nodes, n, item);
    }
  }

  lemma SameNameSameRoot(nodes: seq<Root>, a: Root, b: Root)
    requires ValidListing(nodes) && a in nodes && b in nodes
    ensures a.name == b.name ==> a == b
  {
  }

  // -------------------------------------------------------------- translation

  function ToRaw(aliases: AliasSet, p: Path): Path {
    if p != [] && p[0] in aliases.displayToRaw then [aliases.displayToRaw[p[0]]] + p[1..] else p
  }

  function ToDisplay(aliases: AliasSet, p: Path): Path {
    if p != [] && p[0] in aliases.rawToDisplay then [aliases.rawToDisplay[p[0]]] + p[1..] else p
  }

  /** What a root is exposed as. */
  function Exposed(nodes: seq<Root>, n: Root): string {
    if n.device.Some? then Display(nodes, n) else n.name
  }

  lemma ExposedTranslates(nodes: seq<Root>, aliases: AliasSet, n: Root, tail: Path)
    requires ValidListing(nodes) && Names(Devices(nodes), n => Display(nodes, n), aliases) && n in nodes
    ensures ToDisplay(aliases, [n.name] + tail) == [Exposed(nodes, n)] + tail
    ensures ToRaw(aliases, [Exposed(nodes, n)] + tail) == [n.name] + tail
  {
    assert ([n.name] + tail)[1..] == tail && ([Exposed(nodes, n)] + tail)[1..] == tail;
    InDevices(nodes);
    if n.device.None? {
      forall m | m in Devices(nodes)
        ensures m.name != n.name && Display(nodes, m) != n.name
      {
        SameNameSameRoot(nodes, m, n);
        DisplaysApart(nodes, m, n);
      }
    } else {
      assert Paired(aliases, n.name, Display(nodes, n));
    }
  }

  /** Translating any path beneath an existing root to its display form and back is
      the identity. */
  lemma RawRoundTrip(nodes: seq<Root>, aliases: AliasSet, n: Root, tail: Path)
    requires ValidListing(nodes) && Names(Devices(nodes), n => Display(nodes, n), aliases) && n in nodes
    ensures ToRaw(aliases, ToDisplay(aliases, [n.name] + tail)) == [n.name] + tail
  {
    ExposedTranslates(nodes, aliases, n, tail);
  }

  /** And so is translating any exposed path to its raw form and back. */
  lemma DisplayRoundTrip(nodes: seq<Root>, aliases: AliasSet, n: Root, tail: Path)
    requires ValidListing(nodes) && Names(Devices(nodes), n => Display(nodes, n), aliases) && n in nodes
    ensures ToDisplay(aliases, ToRaw(aliases, [Exposed(nodes, n)] + tail)) == [Exposed(nodes, n)] + tail
    ensures Proper(Exposed(nodes, n))
  {
    ExposedTranslates(nodes, aliases, n, tail);
  }
}
