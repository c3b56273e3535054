// The write-ahead record of one replacement and its validation
// (internal/evs/journal.go).
module Record {
  import opened Paths
  import opened Store

  const MAX_UPLOAD_SIZE: int := 2_000_000_000

  /** `source` is empty for an upload; a digest that does not decode is None. */
  datatype Record = Record(
    source: Path,
    moveStarted: bool,
    version: int,
    id: string,
    dest: Path,
    stage: Path,
    backup: Path,
    size: int,
    hash: Option<Digest>,
    hadOriginal: bool,
    originalSize: int,
    originalHash: Option<Digest>,
    ready: bool,
    committed: bool)
  {
    predicate IsUpload() { source == [] }

    /** The bytes this replacement brings are found under the name. */
    predicate PayloadAt(m: Remote, name: Path) {
      hash.Some? && Matches(m, name, size, hash.value)
    }

    /** The bytes recorded for the old target are found under the name. */
    predicate OriginalAt(m: Remote, name: Path) {
      originalHash.Some? && Matches(m, name, originalSize, originalHash.value)
    }

    /** Likewise, whether or not a listing shows them. */
    predicate OriginalStored(m: Remote, name: Path) {
      originalHash.Some? && StoresFile(m, name, originalSize, originalHash.value)
    }
  }

  // ------------------------------------------------------------------ identity

  predicate IsHex(c: char) {
    '0' <= c <= '9' || 'a' <= c <= 'f' || 'A' <= c <= 'F'
  }

  function WithoutDashes(id: string): string {
    if id == "" then ""
    else if id[0] == '-' then WithoutDashes(id[1..])
    else [id[0]] + WithoutDashes(id[1..])
  }

  predicate ValidId(id: string) {
    && |id| == 36
    && |WithoutDashes(id)| == 32
    && forall c :: c in WithoutDashes(id) ==> IsHex(c)
  }

  function HexDigit(d: int): (c: char)
    requires 0 <= d < 16
    ensures IsHex(c)
  {
    if d < 10 then '0' + d as char else 'a' + (d - 10) as char
  }

  predicate DashBefore(i: nat) {
    i == 4 || i == 6 || i == 8 || i == 10
  }

  /** Two digits for byte i and for every byte after it. */
  function FormatFrom(raw: Bytes, i: nat): string
    requires |raw| == 16 && i <= 16
    decreases 16 - i
  {
    if i == 16 then ""
    else
      var digits := [HexDigit(raw[i] as int / 16)] + ([HexDigit(raw[i] as int % 16)] + FormatFrom(raw, i + 1));
      if DashBefore(i) then ['-'] + digits else digits
  }

  /** randomUploadID: sixteen random bytes in five dash-separated groups. */
  function FormatId(raw: Bytes): string
    requires |raw| == 16
  {
    FormatFrom(raw, 0)
  }

  lemma WithoutDashesCons(c: char, s: string)
    ensures WithoutDashes([c] + s) == if c == '-' then WithoutDashes(s) else [c] + WithoutDashes(s)
  {
  }

  lemma {:induction false} FormatFromShape(raw: Bytes, i: nat)
    requires |raw| == 16 && i <= 16
    ensures |WithoutDashes(FormatFrom(raw, i))| == 2 * (16 - i)
    ensures forall c :: c in WithoutDashes(FormatFrom(raw, i)) ==> IsHex(c)
    ensures |FormatFrom(raw, i)| ==
      2 * (16 - i) + (if i <= 4 then 4 else if i <= 6 then 3 else if i <= 8 then 2 else if i <= 10 then 1 else 0)
    decreases 16 - i
  {
    hide HexDigit;
    if i == 16 {
    } else {
      FormatFromShape(raw, i + 1);
      var x, y, rest := HexDigit(raw[i] as int / 16), HexDigit(raw[i] as int % 16), FormatFrom(raw, i + 1);
      WithoutDashesCons(y, rest);
      WithoutDashesCons(x, [y] + rest);
      WithoutDashesCons('-', [x] + ([y] + rest));
    }
  }

  lemma {:induction false} IdCharacters(id: string)
    requires forall c :: c in WithoutDashes(id) ==> IsHex(c)
    ensures forall c :: c in id ==> c == '-' || IsHex(c)
  {
    if id == "" {
    } else {
      if id[0] != '-' { assert id[0] in WithoutDashes(id); }
      assert forall c :: c in WithoutDashes(id[1..]) ==> c in WithoutDashes(id);
      IdCharacters(id[1..]);
      assert id == [id[0]] + id[1..];
    }
  }

  lemma HexDigitsDiffer(a: int, b: int)
    requires 0 <= a < 256 && 0 <= b < 256 && HexDigit(a / 16) == HexDigit(b / 16)
      && HexDigit(a % 16) == HexDigit(b % 16)
    ensures a == b
  {
    assert a / 16 == b / 16 && a % 16 == b % 16;
  }

  lemma FormatFromParts(raw: Bytes, i: nat)
    requires |raw| == 16 && i < 16
    ensures var s, k := FormatFrom(raw, i), if DashBefore(i) then 1 else 0;
      && |s| >= k + 2 && s[k] == HexDigit(raw[i] as int / 16) && s[k + 1] == HexDigit(raw[i] as int % 16)
      && s[k + 2..] == FormatFrom(raw, i + 1)
  {
    var rest := FormatFrom(raw, i + 1);
    var low := [HexDigit(raw[i] as int % 16)] + rest;
    var digits := [HexDigit(raw[i] as int / 16)] + low;
    var s := FormatFrom(raw, i);
    assert low[1..] == rest && digits[1..] == low && digits[2..] == rest;
    assert DashBefore(i) ==> s[1..] == digits && s[3..] == digits[2..];
  }

  lemma {:induction false} FormatFromDiffers(a: Bytes, b: Bytes, i: nat)
    requires |a| == |b| == 16 && i <= 16 && FormatFrom(a, i) == FormatFrom(b, i)
    ensures a[i..] == b[i..]
    decreases 16 - i
  {
    if i == 16 {
    } else {
      hide FormatFrom, HexDigit, DashBefore;
      FormatFromParts(a, i);
      FormatFromParts(b, i);
      HexDigitsDiffer(a[i] as int, b[i] as int);
      FormatFromDiffers(a, b, i + 1);
      assert a[i..] == [a[i]] + a[i + 1..] && b[i..] == [b[i]] + b[i + 1..];
    }
  }

  /** Different bytes drawn make different identities. */
  lemma FormattedIdsDiffer(a: Bytes, b: Bytes)
    requires |a| == |b| == 16 && a != b
    ensures FormatId(a) != FormatId(b)
  {
    if FormatId(a) == FormatId(b) { FormatFromDiffers(a, b, 0); }
  }

  /** Every freshly drawn identity passes the check made on restart. */
  lemma FormattedIdIsValid(raw: Bytes)
    requires |raw| == 16
    ensures ValidId(FormatId(raw))
  {
    FormatFromShape(raw, 0);
  }

  // ---------------------------------------------------------------- validation

  const UPLOAD := "upload"
  const BACKUP := "backup"

  function RecoveryBase(kind: string, id: string, dest: string): string {
    ".idrive-gateway-" + kind + "-" + id + Ext(dest)
  }

  /** A sibling of the destination: joinClean of its directory and a unique base. */
  function RecoveryName(kind: string, id: string, dest: Path): Path
    requires dest != []
  {
    Parent(dest) + [RecoveryBase(kind, id, dest[|dest| - 1])]
  }

  function StageName(id: string, dest: Path): Path
    requires dest != []
  {
    RecoveryName(UPLOAD, id, dest)
  }

  function BackupName(id: string, dest: Path): Path
    requires dest != []
  {
    RecoveryName(BACKUP, id, dest)
  }

  /** validateUploadRecord for the journal file whose name has this stem. */
  predicate ValidRecord(r: Record, stem: string) {
    && ValidId(r.id) && stem == r.id && r.version == 1
    && AllProper(r.dest) && r.dest != []
    && (r.source == [] ==> r.stage == StageName(r.id, r.dest))
    && r.backup == BackupName(r.id, r.dest)
    && (r.source != [] ==>
          && AllProper(r.source) && r.source != r.dest && r.source != r.backup
          && r.stage == r.source && r.ready && Mutable(r.source))
    && r.hash.Some? && r.size >= 0
    && (r.source == [] ==> r.size <= MAX_UPLOAD_SIZE)
    && (r.ready && r.hadOriginal ==> r.originalHash.Some? && r.originalSize >= 0)
  }

  /** The record as its file spells it. An empty source string means none. */
  datatype Written = Written(
    source: string, moveStarted: bool, version: int, id: string,
    dest: string, stage: string, backup: string,
    size: int, hash: Option<Digest>,
    hadOriginal: bool, originalSize: int, originalHash: Option<Digest>,
    ready: bool, committed: bool)

  function Write(r: Record): Written {
    Written(if r.source == [] then "" else Render(r.source), r.moveStarted, r.version, r.id,
            Render(r.dest), Render(r.stage), Render(r.backup), r.size, r.hash,
            r.hadOriginal, r.originalSize, r.originalHash, r.ready, r.committed)
  }

  /** The code's own validation, on the strings of the file. */
  predicate ValidWritten(w: Written, name: string) {
    && ValidId(w.id) && name == w.id + ".json" && w.version == 1
    && !(w.dest != CleanPath(w.dest) || w.dest == "/"
         || (w.source == "" && w.stage != JoinClean(ParentDir(w.dest), RecoveryBase(UPLOAD, w.id, w.dest)))
         || w.backup != JoinClean(ParentDir(w.dest), RecoveryBase(BACKUP, w.id, w.dest)))
    && !(w.source != "" &&
         (w.source != CleanPath(w.source) || w.source == "/" || w.source == w.dest || w.source == w.backup
          || w.stage != w.source || !w.ready || !MutableString(w.source)))
    && w.hash.Some? && w.size >= 0 && (w.source == "" ==> w.size <= MAX_UPLOAD_SIZE)
    && (w.ready && w.hadOriginal ==> w.originalHash.Some? && w.originalSize >= 0)
  }

  // -------------------------------------------------- files and records agree

  lemma RecoveryBaseProper(kind: string, id: string, dest: string)
    requires ValidId(id) && '/' !in kind
    ensures Proper(RecoveryBase(kind, id, dest)) && Occurs(id, RecoveryBase(kind, id, dest))
  {
    IdCharacters(id);
    ExtIsSuffix(dest);
    var pre := ".idrive-gateway-";
    assert '/' !in pre && |pre| == 16;
    var pre' := pre + kind + "-";
    assert '/' !in pre';
    assert RecoveryBase(kind, id, dest) == pre' + id + Ext(dest);
    OccursInside(pre', id, Ext(dest));
  }

  lemma {:induction false} ExtBeforeOfChild(d: string, b: string, n: nat)
    requires n <= |b| && '/' !in b
    ensures ExtBefore(d + "/" + b, |d| + 1 + n) == ExtBefore(b, n)
  {
    var p := d + "/" + b;
    if n == 0 {
    } else {
      assert p[|d| + n] == b[n - 1] && b[n - 1] in b;
      assert p[|d| + n..] == b[n - 1..];
      ExtBeforeOfChild(d, b, n - 1);
    }
  }

  lemma ExtOfChild(d: string, b: string)
    requires '/' !in b
    ensures Ext(d + "/" + b) == Ext(b)
  {
    ExtBeforeOfChild(d, b, |b|);
  }

  /** The joined string name is the sibling with the unique base. */
  lemma RecoveryNameRepresents(kind: string, id: string, dest: Path)
    requires ValidId(id) && AllProper(dest) && dest != [] && '/' !in kind
    ensures AllProper(RecoveryName(kind, id, dest))
    ensures JoinClean(ParentDir(Render(dest)), RecoveryBase(kind, id, Render(dest))) ==
      Render(RecoveryName(kind, id, dest))
  {
    var init, last := Parent(dest), dest[|dest| - 1];
    assert last in dest;
    ExtOfChild(Slashed(init), last);
    RecoveryBaseProper(kind, id, last);
    ParentRepresents(dest);
    ChildRepresents(init, RecoveryBase(kind, id, last));
  }

  /** A file passes the code's validation exactly when it spells a valid record. */
  lemma ValidWrittenIffRecord(w: Written, stem: string)
    ensures ValidWritten(w, stem + ".json") <==> exists r :: ValidRecord(r, stem) && Write(r) == w
  {
    if ValidWritten(w, stem + ".json") {
      var r := ReadBack(w, stem);
    }
    if exists r :: ValidRecord(r, stem) && Write(r) == w {
      var r :| ValidRecord(r, stem) && Write(r) == w;
      WriteIsValid(r, stem);
    }
  }

  lemma WriteIsValid(r: Record, stem: string)
    requires ValidRecord(r, stem)
    ensures ValidWritten(Write(r), stem + ".json")
  {
    RenderIsClean(r.dest);
    RecoveryNameRepresents(UPLOAD, r.id, r.dest);
    RecoveryNameRepresents(BACKUP, r.id, r.dest);
    if r.source != [] {
      RenderIsClean(r.source);
      RenderIsClean(r.backup);
      MutableRepresents(r.source);
      assert Components(Render(r.source)) == r.source && Components(Render(r.dest)) == r.dest;
    }
  }

  lemma ReadBack(w: Written, stem: string) returns (r: Record)
    requires ValidWritten(w, stem + ".json")
    ensures ValidRecord(r, stem) && Write(r) == w
  {
    var dest, stage, backup := ReadNames(w.id, w.dest);
    var source := ReadSource(w);
    r := Record(source, w.moveStarted, w.version, w.id, dest,
                if w.source == "" then stage else source, backup,
                w.size, w.hash, w.hadOriginal, w.originalSize, w.originalHash, w.ready, w.committed);
    SameStem(stem, w.id);
  }

  lemma ReadNames(id: string, d: string) returns (dest: Path, stage: Path, backup: Path)
    requires ValidId(id) && d == CleanPath(d) && d != "/"
    ensures AllProper(dest) && dest != [] && Render(dest) == d
    ensures stage == StageName(id, dest) && Render(stage) == JoinClean(ParentDir(d), RecoveryBase(UPLOAD, id, d))
    ensures backup == BackupName(id, dest) && Render(backup) == JoinClean(ParentDir(d), RecoveryBase(BACKUP, id, d))
  {
    dest := Clean(d);
    CleanRepresents(d);
    RecoveryNameRepresents(UPLOAD, id, dest);
    RecoveryNameRepresents(BACKUP, id, dest);
    stage, backup := StageName(id, dest), BackupName(id, dest);
  }

  lemma ReadSource(w: Written) returns (source: Path)
    requires w.source != "" ==> w.source == CleanPath(w.source) && w.source != "/" && MutableString(w.source)
    ensures AllProper(source) && (source == [] <==> w.source == "")
    ensures w.source != "" ==> Render(source) == w.source && Mutable(source)
  {
    source := [];
    if w.source != "" {
      source := Clean(w.source);
      CleanRepresents(w.source);
      MutableRepresents(source);
    }
  }

  lemma SameStem(a: string, b: string)
    requires a + ".json" == b + ".json"
    ensures a == b
  {
    assert (a + ".json")[..|a + ".json"| - 5] == a;
    assert (b + ".json")[..|b + ".json"| - 5] == b;
  }

  // ------------------------------------------------------------ recovery names

  /** No name of one transaction lies at or beneath a name recovery may delete. */
  predicate NamesApart(source: Path, dest: Path, stage: Path, backup: Path) {
    && !(stage <= dest) && !(backup <= dest) && !(backup <= stage) && !(stage <= backup)
    && source != dest && !(backup <= source)
  }

  lemma BasesDiffer(id: string, dest: string)
    ensures RecoveryBase(UPLOAD, id, dest) != RecoveryBase(BACKUP, id, dest)
  {
    var pre := ".idrive-gateway-";
    assert |pre| == 16;
    assert (pre + UPLOAD + "-" + id + Ext(dest))[16] == UPLOAD[0];
    assert (pre + BACKUP + "-" + id + Ext(dest))[16] == BACKUP[0];
  }

  /** Since the recovery names are siblings of the destination, they are apart from
      it, from each other and from a move's source as long as the identity does not
      already occur in the user's paths. */
  lemma RecoveryNamesApart(id: string, source: Path, dest: Path)
    requires ValidId(id) && AllProper(dest) && dest != []
    requires Free(id, dest) && Free(id, source) && source != dest
    ensures NamesApart(source, dest, StageName(id, dest), BackupName(id, dest))
    ensures Parent(StageName(id, dest)) == Parent(BackupName(id, dest)) == Parent(dest)
  {
    var last := dest[|dest| - 1];
    RecoveryBaseProper(UPLOAD, id, last);
    RecoveryBaseProper(BACKUP, id, last);
    BasesDiffer(id, last);
    var i := |dest| - 1;
    assert StageName(id, dest)[i] == RecoveryBase(UPLOAD, id, last);
    assert BackupName(id, dest)[i] == RecoveryBase(BACKUP, id, last);
    assert last in dest;
    assert i < |source| ==> source[i] in source;
  }

  /** What validation sees to whatever the names are: recovery can look each of
      them up, and renaming the backup leaves a move's source alone. */
  predicate Shaped(r: Record) {
    && r.dest != [] && r.stage != [] && r.backup != []
    && r.source != r.dest && r.source != r.backup && (!r.ready ==> r.IsUpload())
  }

  lemma ValidRecordShaped(r: Record, stem: string)
    requires ValidRecord(r, stem)
    ensures Shaped(r)
  {
  }

  /** Neither the destination nor a move's source is at or beneath a name that
      recovery deletes. */
  predicate Apart(r: Record) {
    && !(r.backup <= r.dest) && !(r.backup <= r.source)
    && (if r.IsUpload() then !(r.stage <= r.dest) else r.source != r.dest)
  }

  /** Some bytes have this size and digest. */
  predicate Possible(size: int, hash: Option<Digest>) {
    hash.Some? && size == |hash.value.preimage|
  }

  /** Recovery may delete what it finds under the stage's name, or the backup's. */
  predicate MayDropStage(r: Record) {
    r.IsUpload() && (!r.ready || Possible(r.size, r.hash))
  }

  predicate MayDropBackup(r: Record) {
    r.ready && r.hadOriginal && Possible(r.originalSize, r.originalHash)
  }

  /** What it may delete leaves the destination and a move's source alone. */
  predicate Guarded(r: Record) {
    && (MayDropStage(r) ==> !(r.stage <= r.dest))
    && (MayDropBackup(r) ==> !(r.backup <= r.dest) && !(r.backup <= r.source))
    && (!r.IsUpload() ==> r.source != r.dest)
  }

  /** The name is spelled like a recovery name of this identity, with an extension. */
  predicate Mimics(kind: string, id: string, last: string) {
    var prefix := ".idrive-gateway-" + kind + "-" + id + ".";
    prefix <= last && '.' !in last[|prefix|..]
  }

  /** Validation accepts three kinds of record that name what they are to protect
      among what recovery deletes: an upload to a name spelled like its own stage, a
      replacement of a name spelled like its own backup, and a move from beneath its
      own backup. Every other valid record keeps its names apart. */
  lemma ValidRecordApartIff(r: Record, stem: string)
    requires ValidRecord(r, stem)
    ensures var last := r.dest[|r.dest| - 1];
      Apart(r) <==>
        && !(r.IsUpload() && Mimics(UPLOAD, r.id, last)) && !Mimics(BACKUP, r.id, last)
        && !Within(r.source, r.backup)
  {
    if r.IsUpload() { ValidStageIff(r, stem); }
    ValidBackupIff(r, stem);
  }

  lemma ValidStageIff(r: Record, stem: string)
    requires ValidRecord(r, stem) && r.IsUpload()
    ensures r.stage <= r.dest <==> Mimics(UPLOAD, r.id, r.dest[|r.dest| - 1])
  {
    assert r.dest[|r.dest| - 1] in r.dest;
    SiblingIsSelfIff(UPLOAD, r.id, r.dest);
  }

  lemma ValidBackupIff(r: Record, stem: string)
    requires ValidRecord(r, stem)
    ensures r.backup <= r.dest <==> Mimics(BACKUP, r.id, r.dest[|r.dest| - 1])
    ensures r.backup <= r.source <==> Within(r.source, r.backup)
  {
    assert r.dest[|r.dest| - 1] in r.dest;
    SiblingIsSelfIff(BACKUP, r.id, r.dest);
  }

  /** Those it can harm: what it may delete is spelled like the destination, or lies above
      the source. */
  lemma ValidRecordGuardedIff(r: Record, stem: string)
    requires ValidRecord(r, stem)
    ensures var last := r.dest[|r.dest| - 1];
      Guarded(r) <==>
        && (MayDropStage(r) ==> !Mimics(UPLOAD, r.id, last))
        && (MayDropBackup(r) ==> !Mimics(BACKUP, r.id, last) && !Within(r.source, r.backup))
    ensures r.IsUpload() && r.stage <= r.dest ==> r.stage == r.dest
    ensures r.backup <= r.dest ==> r.backup == r.dest
    ensures Parent(r.backup) == Parent(r.dest)
  {
    if r.IsUpload() { ValidStageIff(r, stem); }
    ValidBackupIff(r, stem);
  }

  lemma SiblingIsSelfIff(kind: string, id: string, dest: Path)
    requires ValidId(id) && kind in {UPLOAD, BACKUP} && dest != [] && Proper(dest[|dest| - 1])
    ensures RecoveryName(kind, id, dest) <= dest <==> Mimics(kind, id, dest[|dest| - 1])
  {
    var last, name := dest[|dest| - 1], RecoveryName(kind, id, dest);
    BaseIsSelfIff(kind, id, last);
    assert name[|dest| - 1] == RecoveryBase(kind, id, last);
    assert dest == Parent(dest) + [last];
  }

  lemma BaseIsSelfIff(kind: string, id: string, last: string)
    requires ValidId(id) && kind in {UPLOAD, BACKUP} && '/' !in last
    ensures RecoveryBase(kind, id, last) == last <==> Mimics(kind, id, last)
  {
    var name := ".idrive-gateway-" + kind + "-" + id;
    var prefix := name + ".";
    if Mimics(kind, id, last) {
      var tail := last[|prefix|..];
      assert last == name + "." + tail;
      ExtOfDotted(name, tail);
    }
    if RecoveryBase(kind, id, last) == last {
      ExtShape(last);
      assert last == name + Ext(last) && last[0] == '.';
      assert last == prefix + Ext(last)[1..];
    }
  }

  /** An extension is empty, for a name without dots, or begins with its only dot. */
  lemma ExtShape(p: string)
    requires '/' !in p
    ensures if '.' in p then Ext(p) != "" && Ext(p)[0] == '.' && '.' !in Ext(p)[1..] else Ext(p) == ""
  {
    ExtBeforeShape(p, |p|);
  }

  lemma {:induction false} ExtBeforeShape(p: string, n: nat)
    requires n <= |p| && '/' !in p && '.' !in p[n..]
    ensures var e := ExtBefore(p, n); if '.' in p then e != "" && e[0] == '.' && '.' !in e[1..] else e == ""
  {
    if n == 0 {
      assert p[0..] == p;
    } else if p[n - 1] == '.' {
      assert p[n - 1..][1..] == p[n..];
    } else {
      assert p[n - 1] in p && p[n - 1..] == [p[n - 1]] + p[n..];
      ExtBeforeShape(p, n - 1);
    }
  }

  lemma {:induction false} ExtBeforeForm(p: string, n: nat)
    requires n <= |p| && '.' !in p[n..] && '/' !in p[n..]
    ensures var e := ExtBefore(p, n); e == "" || (e[0] == '.' && '.' !in e[1..] && '/' !in e)
  {
    if n == 0 || p[n - 1] == '/' {
    } else if p[n - 1] == '.' {
      assert p[n - 1..][1..] == p[n..] && p[n - 1..] == [p[n - 1]] + p[n..];
    } else {
      assert p[n - 1..] == [p[n - 1]] + p[n..];
      ExtBeforeForm(p, n - 1);
    }
  }

  /** A plain name with the same extension as the destination, so that it has the same
      recovery names. */
  function Plain(dest: Path): Path
    requires dest != []
  {
    Parent(dest) + ["x" + Ext(dest[|dest| - 1])]
  }

  lemma PlainSharesNames(kind: string, id: string, dest: Path)
    requires dest != []
    ensures RecoveryName(kind, id, Plain(dest)) == RecoveryName(kind, id, dest)
  {
    var last := dest[|dest| - 1];
    var e := Ext(last);
    ExtBeforeForm(last, |last|);
    if e == "" {
      assert '/' !in "x" && '.' !in "x";
      ExtShape("x");
      assert "x" + e == "x";
    } else {
      ExtOfDotted("x", e[1..]);
      assert "x" + e == "x" + "." + e[1..] && "." + e[1..] == e;
    }
  }

  lemma PlainMutable(dest: Path)
    requires dest != [] && Mutable(dest)
    ensures Mutable(Plain(dest))
  {
    var last := dest[|dest| - 1];
    assert last in dest;
    ExtIsSuffix(last);
    var c := "x" + Ext(last);
    assert c[|c| - 1] == if Ext(last) == "" then 'x' else last[|last| - 1];
    assert forall d :: d in Parent(dest) ==> d in dest;
  }

  /** For every identity there is such a record of the first kind. */
  lemma ValidRecordMayStageItsDestination(id: string, tail: string) returns (r: Record)
    requires ValidId(id) && '/' !in tail && '.' !in tail
    ensures ValidRecord(r, id) && r.IsUpload() && !r.ready && r.stage == r.dest
    ensures r.dest == [".idrive-gateway-" + UPLOAD + "-" + id + "." + tail]
  {
    var base := ".idrive-gateway-" + UPLOAD + "-" + id + "." + tail;
    ExtOfDotted(".idrive-gateway-" + UPLOAD + "-" + id, tail);
    assert RecoveryBase(UPLOAD, id, base) == base;
    RecoveryBaseProper(UPLOAD, id, base);
    r := Record([], false, 1, id, [base], [base], BackupName(id, [base]), 0, Some(Sha256([])), false, 0, None, false,
                false);
  }

  lemma ExtOfDotted(stem: string, tail: string)
    requires '/' !in tail && '.' !in tail
    ensures Ext(stem + "." + tail) == "." + tail
  {
    ExtBeforeDotted(stem, tail, |tail|);
  }

  lemma {:induction false} ExtBeforeDotted(stem: string, tail: string, k: nat)
    requires '/' !in tail && '.' !in tail && k <= |tail|
    ensures ExtBefore(stem + "." + tail, |stem| + 1 + k) == "." + tail
  {
    var p := stem + "." + tail;
    if k == 0 {
      assert p[|stem|..] == "." + tail;
    } else {
      assert p[|stem| + k] == tail[k - 1] && tail[k - 1] in tail;
      ExtBeforeDotted(stem, tail, k - 1);
    }
  }

  // --------------------------------------------------- recovery names are usable

  /** A recovery name may be changed wherever its destination may. */
  lemma RecoveryNameChangeable(kind: string, id: string, dest: Path, m: Remote)
    requires ValidId(id) && dest != [] && Mutable(dest) && Writable(m, dest)
    ensures Mutable(RecoveryName(kind, id, dest)) && Writable(m, RecoveryName(kind, id, dest))
  {
    var last := dest[|dest| - 1];
    assert last in dest;
    RecoveryBaseEnds(kind, id, last);
    SiblingChangeable(dest, RecoveryBase(kind, id, last), m);
  }

  lemma SiblingChangeable(dest: Path, base: string, m: Remote)
    requires dest != [] && Mutable(dest) && Writable(m, dest)
    requires base != "" && base[|base| - 1] !in WHITESPACE && base[0] == '.'
    ensures Mutable(Parent(dest) + [base]) && Writable(m, Parent(dest) + [base])
  {
    assert forall c :: c in Parent(dest) ==> c in dest;
  }

  lemma RecoveryBaseEnds(kind: string, id: string, last: string)
    requires ValidId(id) && (last == "" || last[|last| - 1] !in WHITESPACE)
    ensures var base := RecoveryBase(kind, id, last);
      base != "" && base[0] == '.' && base[|base| - 1] !in WHITESPACE
  {
    IdCharacters(id);
    ExtIsSuffix(last);
    assert id[35] in id;
    var pre := ".idrive-gateway-" + kind + "-";
    var e := Ext(last);
    assert pre[0] == '.';
    assert RecoveryBase(kind, id, last) == pre + id + e;
    if e != "" { assert e[|e| - 1] == last[|last| - 1]; }
  }
}
