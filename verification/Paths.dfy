/** The path algebra every remote operation rests on (internal/evs/client.go).

    The first part is the code's own, on strings. The second represents a clean
    path by its components, and the lemmas at the end say that nothing is lost by
    doing so; every other module works on components. */
module Paths {
  const WHITESPACE: set<char> := {' ', '\t', '\r', '\n', '\U{000B}', '\U{000C}'}
  const SPECIAL_FOLDERS: set<string> := {"Contacts", "Calendar", "Call Logs", "SMS"}

  // ---------------------------------------------------------------- components

  /** strings.Split(s, "/") */
  function Split(s: string): (parts: seq<string>)
    ensures parts != []
  {
    if s == "" then [""]
    else if s[0] == '/' then [""] + Split(s[1..])
    else [[s[0]] + Split(s[1..])[0]] + Split(s[1..])[1..]
  }

  predicate Proper(c: string) {
    c != "" && c != "." && c != ".." && '/' !in c
  }

  predicate AllProper(cs: seq<string>) {
    forall c :: c in cs ==> Proper(c)
  }

  /** Lexical resolution of "", "." and ".." under the root. */
  function Resolve(parts: seq<string>, stack: seq<string>): seq<string> {
    if parts == [] then stack
    else if parts[0] == "" || parts[0] == "." then Resolve(parts[1..], stack)
    else if parts[0] == ".." then
      Resolve(parts[1..], if stack == [] then [] else stack[..|stack| - 1])
    else Resolve(parts[1..], stack + [parts[0]])
  }

  function Slashed(cs: seq<string>): string {
    if cs == [] then "" else Slashed(cs[..|cs| - 1]) + "/" + cs[|cs| - 1]
  }

  function Render(cs: seq<string>): string {
    if cs == [] then "/" else Slashed(cs)
  }

  function Components(p: string): seq<string> {
    Resolve(Split(p), [])
  }

  /** path.Clean of the rooted form of the argument. */
  function CleanPath(p: string): string {
    if p == "" then "/"
    else Render(Components(if p[0] == '/' then p else "/" + p))
  }

  predicate IsClean(p: string) {
    CleanPath(p) == p
  }

  function LastSlash(s: string): (i: int)
    ensures -1 <= i < |s|
    ensures i >= 0 ==> s[i] == '/'
    ensures '/' !in s[i + 1..]
  {
    if s == "" then -1
    else if s[|s| - 1] == '/' then |s| - 1
    else
      assert s == s[..|s| - 1] + [s[|s| - 1]];
      LastSlash(s[..|s| - 1])
  }

  /** path.Dir of the clean form: everything up to the last slash, cleaned. */
  function ParentDir(p: string): string {
    var clean := CleanPath(p);
    if clean == "/" then "/" else CleanPath(clean[..LastSlash(clean) + 1])
  }

  /** path.Base of a clean path. */
  function Base(p: string): (b: string)
    ensures '/' !in b
  {
    p[LastSlash(p) + 1..]
  }

  /** path.Ext: the suffix from the last dot of the final component. */
  function Ext(p: string): string {
    ExtBefore(p, |p|)
  }

  function ExtBefore(p: string, n: nat): string
    requires n <= |p|
  {
    if n == 0 || p[n - 1] == '/' then ""
    else if p[n - 1] == '.' then p[n - 1..]
    else ExtBefore(p, n - 1)
  }

  function JoinClean(parent: string, name: string): string {
    if CleanPath(parent) == "/" then CleanPath("/" + name)
    else CleanPath(parent + "/" + name)
  }

  // ------------------------------------------------------------- classification

  /** mutablePath: rename and delete trim trailing whitespace of a component, so
      such names are refused before any mutation. */
  predicate MutableString(p: string) {
    forall c :: c in Split(p) ==> c == "" || c[|c| - 1] !in WHITESPACE
  }

  /** IsReadOnlyPath of a clean path. */
  predicate IsReadOnlyString(p: string) {
    p != "/" && |p| > 0 &&
    var parts := Split(p[1..]);
    |parts| >= 2 && parts[1] in SPECIAL_FOLDERS
  }

  /** stringsWithin */
  predicate StringsWithin(name: string, parent: string) {
    |name| > |parent| && name[..|parent|] == parent && name[|parent|] == '/'
  }

  // ------------------------------------------------ clean paths by components

  /** A clean path; the root has no components. */
  type Path = seq<string>

  function Clean(p: string): Path {
    if p == "" then [] else Components(if p[0] == '/' then p else "/" + p)
  }

  function Parent(p: Path): Path {
    if p == [] then [] else p[..|p| - 1]
  }

  predicate Mutable(p: Path) {
    forall c :: c in p ==> c == "" || c[|c| - 1] !in WHITESPACE
  }

  predicate SpaceAtEnd(c: string)
    requires c != ""
  {
    var e := c[|c| - 1];
    e == ' ' || e == '\t' || e == '\r' || e == '\n' || e == '\U{000B}' || e == '\U{000C}'
  }

  predicate IsReadOnlyPath(p: Path) {
    |p| >= 2 && p[1] in SPECIAL_FOLDERS
  }

  predicate Within(name: Path, parent: Path) {
    parent < name
  }

  predicate OccursAt(sub: string, s: string, i: int) {
    0 <= i <= |s| - |sub| && s[i..i + |sub|] == sub
  }

  ghost predicate Occurs(sub: string, s: string) {
    exists i :: OccursAt(sub, s, i)
  }

  /** No component contains the token. */
  ghost predicate Free(token: string, p: Path) {
    forall c :: c in p ==> !Occurs(token, c)
  }

  // -------------------------------------------------------------------- lemmas

  /** What one more leading character does to the pieces. */
  function Lead(c: char, pieces: seq<string>): seq<string>
    requires pieces != []
  {
    if c == '/' then [""] + pieces else [[c] + pieces[0]] + pieces[1..]
  }

  lemma {:induction false} ExtBeforeIsSuffix(p: string, n: nat)
    requires n <= |p| && '/' !in p[n..]
    ensures var e := ExtBefore(p, n); '/' !in e && |e| <= |p| && p[|p| - |e|..] == e
  {
    if n == 0 || p[n - 1] == '/' {
    } else {
      assert p[n - 1..] == [p[n - 1]] + p[n..];
      if p[n - 1] != '.' { ExtBeforeIsSuffix(p, n - 1); }
    }
  }

  lemma ExtIsSuffix(p: string)
    ensures '/' !in Ext(p) && |Ext(p)| <= |p| && p[|p| - |Ext(p)|..] == Ext(p)
  {
    ExtBeforeIsSuffix(p, |p|);
  }

  lemma SplitCons(c: char, s: string)
    ensures Split([c] + s) == Lead(c, Split(s))
  {
  }

  lemma LeadAppend(c: char, x: seq<string>, y: seq<string>)
    requires x != []
    ensures Lead(c, x + y) == Lead(c, x) + y
  {
  }

  lemma {:induction false} SplitAppend(a: string, b: string)
    ensures Split(a + "/" + b) == Split(a) + Split(b)
  {
    if a == "" {
      assert a + "/" + b == ['/'] + b;
      SplitCons('/', b);
    } else {
      var c, rest := a[0], a[1..];
      SplitAppend(rest, b);
      SplitCons(c, rest + "/" + b);
      SplitCons(c, rest);
      LeadAppend(c, Split(rest), Split(b));
      assert a + "/" + b == [c] + (rest + "/" + b);
      assert a == [c] + rest;
    }
  }

  lemma {:induction false} SplitPlain(a: string)
    requires '/' !in a
    ensures Split(a) == [a]
  {
    if a == "" {
    } else {
      SplitPlain(a[1..]);
      assert a == [a[0]] + a[1..];
    }
  }

  lemma {:induction false} SplitSlashed(cs: seq<string>)
    requires AllProper(cs)
    ensures Split(Slashed(cs)) == [""] + cs
  {
    if cs == [] {
    } else {
      var init, last := cs[..|cs| - 1], cs[|cs| - 1];
      assert last in cs;
      SplitSlashed(init);
      SplitAppend(Slashed(init), last);
      SplitPlain(last);
      assert cs == init + [last];
    }
  }

  lemma {:induction false} SplitPieces(s: string)
    ensures forall c :: c in Split(s) ==> '/' !in c
  {
    if s == "" {
    } else {
      SplitPieces(s[1..]);
    }
  }

  lemma {:induction false} ResolveAllProper(parts: seq<string>, stack: seq<string>)
    requires AllProper(stack) && forall c :: c in parts ==> '/' !in c
    ensures AllProper(Resolve(parts, stack))
  {
    if parts == [] {
    } else {
      var stack' :=
        if parts[0] == "" || parts[0] == "." then stack
        else if parts[0] == ".." then (if stack == [] then [] else stack[..|stack| - 1])
        else stack + [parts[0]];
      assert parts[0] in parts;
      ResolveAllProper(parts[1..], stack');
    }
  }

  lemma ComponentsProper(p: string)
    ensures AllProper(Components(p))
  {
    SplitPieces(p);
    ResolveAllProper(Split(p), []);
  }

  lemma {:induction false} ResolveAppend(a: seq<string>, b: seq<string>, stack: seq<string>)
    ensures Resolve(a + b, stack) == Resolve(b, Resolve(a, stack))
  {
    if a == [] {
      assert a + b == b;
    } else {
      assert (a + b)[1..] == a[1..] + b;
      var stack' :=
        if a[0] == "" || a[0] == "." then stack
        else if a[0] == ".." then (if stack == [] then [] else stack[..|stack| - 1])
        else stack + [a[0]];
      ResolveAppend(a[1..], b, stack');
    }
  }

  lemma {:induction false} ResolveProper(cs: seq<string>, stack: seq<string>)
    requires AllProper(cs) && AllProper(stack)
    ensures Resolve(cs, stack) == stack + cs
  {
    if cs == [] {
    } else {
      assert cs[0] in cs;
      ResolveProper(cs[1..], stack + [cs[0]]);
      assert stack + [cs[0]] + cs[1..] == stack + cs;
    }
  }

  /** Cleaning a rendered path changes nothing and keeps its components. */
  lemma RenderIsClean(cs: seq<string>)
    requires AllProper(cs)
    ensures IsClean(Render(cs)) && Components(Render(cs)) == cs
    ensures Render(cs)[0] == '/'
    ensures cs == [] <==> Render(cs) == "/"
  {
    if cs == [] {
      assert Split("/") == ["", ""] by { assert "/"[1..] == ""; }
    } else {
      SlashedStarts(cs);
      SplitSlashed(cs);
      ResolveProper(cs, []);
      assert ([""] + cs)[1..] == cs;
      assert Resolve([""] + cs, []) == Resolve(cs, []) == [] + cs == cs;
      assert Components(Slashed(cs)) == cs;
      assert CleanPath(Slashed(cs)) == Render(Components(Slashed(cs)));
    }
  }

  lemma {:induction false} SlashedStarts(cs: seq<string>)
    requires cs != [] && AllProper(cs)
    ensures |Slashed(cs)| > 1 && Slashed(cs)[0] == '/'
  {
    var init, last := cs[..|cs| - 1], cs[|cs| - 1];
    assert last in cs;
    if init == [] {
    } else {
      SlashedStarts(init);
    }
  }

  /** Piece by piece: nothing and "." change nothing, ".." goes up but never above the root,
      and every other piece goes down. */
  lemma OneMorePiece(p: string, c: string)
    requires '/' !in c
    ensures Clean(p + "/" + c) ==
      if c == "" || c == "." then Clean(p)
      else if c == ".." then (if Clean(p) == [] then [] else Clean(p)[..|Clean(p)| - 1])
      else Clean(p) + [c]
  {
    var rooted := if p == "" || p[0] == '/' then p else "/" + p;
    assert Components("") == [];
    assert rooted + "/" + c == if p == "" || p[0] == '/' then p + "/" + c else "/" + (p + "/" + c);
    SplitAppend(rooted, c);
    SplitPlain(c);
    ResolveAppend(Split(rooted), [c], []);
  }

  /** Every clean path is the rendering of its own components. */
  lemma CleanIsRender(p: string)
    requires IsClean(p)
    ensures p == Render(Components(p))
  {
  }

  lemma CleanPathIdempotent(p: string)
    ensures IsClean(CleanPath(p))
  {
    var rooted := if p == "" || p[0] == '/' then p else "/" + p;
    ComponentsProper(rooted);
    RenderIsClean(if p == "" then [] else Components(rooted));
  }

  lemma {:induction false} LastSlashOfJoin(d: string, b: string)
    requires '/' !in b
    ensures LastSlash(d + "/" + b) == |d|
  {
    var s := d + "/" + b;
    if b == "" {
      assert s[|s| - 1] == '/';
    } else {
      assert s[|s| - 1] == b[|b| - 1];
      assert s[..|s| - 1] == d + "/" + b[..|b| - 1];
      LastSlashOfJoin(d, b[..|b| - 1]);
    }
  }

  /** The directory and final component of a clean path other than the root. */
  lemma CleanParts(p: string) returns (init: seq<string>, last: string)
    requires IsClean(p) && p != "/"
    ensures AllProper(init) && Proper(last) && Components(p) == init + [last]
    ensures p == Slashed(init) + "/" + last
    ensures ParentDir(p) == Render(init) && Base(p) == last
  {
    CleanIsRender(p);
    ComponentsProper(p);
    var cs := Components(p);
    init, last := cs[..|cs| - 1], cs[|cs| - 1];
    assert cs == init + [last];
    assert last in cs;
    LastSlashOfJoin(Slashed(init), last);
    var dir := p[..LastSlash(p) + 1];
    assert dir == Slashed(init) + "/" + "";
    DirectoryComponents(init);
    hide LastSlash, Resolve, Split;
    assert dir == Slashed(init) + "/";
  }

  /** What is left of a path before its last component names the directory. */
  lemma DirectoryComponents(init: seq<string>)
    requires AllProper(init)
    ensures CleanPath(Slashed(init) + "/") == Render(init)
  {
    var dir := Slashed(init) + "/";
    assert dir == Slashed(init) + "/" + "";
    SplitAppend(Slashed(init), "");
    SplitSlashed(init);
    assert Split(dir) == [""] + init + [""];
    ResolveAppend([""] + init, [""], []);
    ResolveProper(init, []);
    assert ([""] + init)[1..] == init;
    assert dir[0] == '/' by { if init != [] { SlashedStarts(init); } }
    assert Resolve([""] + init, []) == Resolve(init, []) == [] + init == init;
    assert Components(dir) == init;
  }

  /** A proper name joined to a rendered directory stays directly beneath it. */
  lemma JoinCleanChild(init: seq<string>, name: string)
    requires AllProper(init) && Proper(name)
    ensures JoinClean(Render(init), name) == Slashed(init) + "/" + name
    ensures JoinClean(Render(init), name) == Render(init + [name])
  {
    RenderIsClean(init);
    RenderIsClean(init + [name]);
    assert (init + [name])[..|init|] == init;
    assert Render(init + [name]) == Slashed(init) + "/" + name;
    if init == [] {
      assert "/" + name == Render(init + [name]);
    }
  }

  /** Splitting a clean path and joining it again is the identity. */
  lemma RejoinClean(p: string)
    requires IsClean(p) && p != "/"
    ensures JoinClean(ParentDir(p), Base(p)) == p
  {
    var init, last := CleanParts(p);
    JoinCleanChild(init, last);
  }

  lemma OccursInside(x: string, id: string, y: string)
    ensures Occurs(id, x + id + y)
  {
    assert (x + id + y)[|x|..|x| + |id|] == id;
    assert OccursAt(id, x + id + y, |x|);
  }

  // ------------------------------------- components represent clean strings

  /** Cleaning a string is reading off its components and rendering them, and on
      clean strings the two directions are inverse. */
  lemma CleanRepresents(p: string)
    ensures AllProper(Clean(p)) && CleanPath(p) == Render(Clean(p))
    ensures IsClean(p) ==> Render(Clean(p)) == p
    ensures forall q: Path :: AllProper(q) ==> Clean(Render(q)) == q && IsClean(Render(q))
  {
    if p != "" { ComponentsProper(if p[0] == '/' then p else "/" + p); }
    forall q: Path | AllProper(q)
      ensures Clean(Render(q)) == q && IsClean(Render(q))
    {
      RenderIsClean(q);
    }
  }

  lemma ParentRepresents(p: Path)
    requires AllProper(p)
    ensures ParentDir(Render(p)) == Render(Parent(p))
  {
    RenderIsClean(p);
    if p != [] {
      var init, last := CleanParts(Render(p));
      assert init == (init + [last])[..|init|];
    }
  }

  lemma ChildRepresents(p: Path, name: string)
    requires AllProper(p) && Proper(name)
    ensures JoinClean(Render(p), name) == Render(p + [name])
  {
    JoinCleanChild(p, name);
  }

  lemma MutableRepresents(p: Path)
    requires AllProper(p)
    ensures MutableString(Render(p)) <==> Mutable(p)
  {
    if p == [] {
      assert Split("/") == ["", ""] by { assert "/"[1..] == ""; }
    } else {
      SplitSlashed(p);
      assert forall c :: c in [""] + p <==> c == "" || c in p;
    }
  }

  lemma ReadOnlyRepresents(p: Path)
    requires AllProper(p)
    ensures IsReadOnlyString(Render(p)) <==> IsReadOnlyPath(p)
  {
    RenderIsClean(p);
    if p != [] {
      SplitSlashed(p);
      var s := Render(p);
      assert s == ['/'] + s[1..];
      SplitCons('/', s[1..]);
      assert Split(s[1..]) == p by {
        assert ([""] + Split(s[1..]))[1..] == Split(s[1..]);
        assert ([""] + p)[1..] == p;
      }
    }
  }

  lemma {:induction false} SlashedAppend(p: Path, q: Path)
    ensures Slashed(p + q) == Slashed(p) + Slashed(q)
  {
    if q == [] {
      assert p + q == p;
    } else {
      var init, last := q[..|q| - 1], q[|q| - 1];
      SlashedAppend(p, init);
      assert (p + q)[..|p + q| - 1] == p + init;
      assert (p + q)[|p + q| - 1] == last;
    }
  }

  lemma WithinRenders(q: Path, p: Path)
    requires AllProper(q) && AllProper(p) && p != [] && Within(q, p)
    ensures StringsWithin(Render(q), Render(p))
  {
    var rest := q[|p|..];
    assert q == p + rest;
    SlashedAppend(p, rest);
    assert forall c :: c in rest ==> c in q;
    SlashedStarts(rest);
  }

  lemma WithinParses(q: Path, p: Path)
    requires AllProper(q) && AllProper(p) && p != [] && q != [] && StringsWithin(Render(q), Render(p))
    ensures Within(q, p)
  {
    var s, t := Render(q), Render(p);
    var tail := s[|t| + 1..];
    assert s == t + "/" + tail;
    SplitAppend(t, tail);
    SplitSlashed(q);
    SplitSlashed(p);
    PrefixOfPieces(q, p, Split(tail));
  }

  lemma PrefixOfPieces(q: Path, p: Path, rest: seq<string>)
    requires [""] + q == [""] + p + rest && rest != []
    ensures p < q
  {
    assert q == ([""] + q)[1..] == ([""] + p + rest)[1..] == p + rest;
  }

  /** The string test for lying beneath a directory is the prefix order. */
  lemma WithinRepresents(q: Path, p: Path)
    requires AllProper(q) && AllProper(p) && p != []
    ensures StringsWithin(Render(q), Render(p)) <==> Within(q, p)
  {
    RenderIsClean(q);
    RenderIsClean(p);
    if Within(q, p) { WithinRenders(q, p); }
    if q != [] && StringsWithin(Render(q), Render(p)) { WithinParses(q, p); }
  }
}
