/** The jar that keeps what a session file needs of each cookie, and the round trip
    through that file (internal/session/jar.go, store.go; the storage model is that
    of section 5.3 of RFC 6265). */
module CookieJar {
  import opened Paths
  import opened Store

  const MAX_DURATION: int := 0x7FFF_FFFF_FFFF_FFFF
  /** 23:59:59 on December 31, 9999, in seconds since 1970. */
  const END_OF_9999: int := 253_402_300_799

  /** A Set-Cookie as it arrives; a maximum age of zero means none was given. */
  datatype Header = Header(name: string, value: string, path: string, domain: string, maxAge: int,
                           expires: Option<int>, secure: bool, httpOnly: bool)

  /** A cookie as it is saved; the domain is empty for one that is host-only. */
  datatype Cookie = Cookie(name: string, value: string, path: string, domain: string, originHost: string,
                           expires: Option<int>, secure: bool, httpOnly: bool)

  datatype Url = Url(host: string, path: string)

  datatype Key = Key(domain: string, path: string, name: string)

  /** What the public suffix list decides, and what parsing as an address or as a URL
      accepts. */
  datatype Rules = Rules(suffix: string -> bool, address: string -> bool, parses: string -> bool)

  function LowerChar(c: char): char {
    if 'A' <= c <= 'Z' then (c as int + 32) as char else c
  }

  function Lower(s: string): string {
    seq(|s|, i requires 0 <= i < |s| => LowerChar(s[i]))
  }

  function TrimDot(s: string): string {
    if s != "" && s[0] == '.' then s[1..] else s
  }

  predicate HasSuffix(s: string, suffix: string) {
    |suffix| <= |s| && s[|s| - |suffix|..] == suffix
  }

  lemma HasSuffixIff(s: string, suffix: string)
    ensures HasSuffix(s, suffix) <==> exists front :: s == front + suffix
  {
    if HasSuffix(s, suffix) { assert s == s[..|s| - |suffix|] + suffix; }
  }

  predicate Beneath(host: string, domain: string, rules: Rules) {
    !rules.address(host) && HasSuffix(host, "." + domain)
  }

  /** The file spells a key with its three parts between NULs. */
  function KeyText(k: Key): string {
    k.domain + "\0" + k.path + "\0" + k.name
  }

  function Domain(host: string, c: Header): string {
    if Lower(TrimDot(c.domain)) == "" then host else Lower(TrimDot(c.domain))
  }

  function PathOf(url: Url, c: Header): string {
    if c.path != "" && c.path[0] == '/' then c.path
    else
      var i := LastSlash(url.path);
      if i > 0 then url.path[..i] else "/"
  }

  /** An age that overflows a duration in nanoseconds reaches to the end of the year 9999. */
  function Expiry(c: Header, now: int): Option<int> {
    if c.maxAge > MAX_DURATION / 1_000_000_000 then Some(END_OF_9999)
    else if c.maxAge > 0 then Some(now + c.maxAge)
    else c.expires
  }

  predicate Refused(host: string, c: Header, rules: Rules) {
    var domain := Domain(host, c);
    || (host != domain && !Beneath(host, domain, rules))
    || (c.domain != "" && rules.suffix(domain) && host != domain)
  }

  predicate Ends(expires: Option<int>, now: int) {
    expires.Some? && expires.value <= now
  }

  function Stored(url: Url, c: Header, now: int, rules: Rules): Cookie {
    var host := Lower(url.host);
    var domain := Domain(host, c);
    Cookie(c.name, c.value, PathOf(url, c),
           if c.domain == "" || (domain == host && rules.suffix(domain)) then "" else domain,
           host, Expiry(c, now), c.secure, c.httpOnly)
  }

  function SetOne(cookies: map<Key, Cookie>, url: Url, c: Header, now: int, rules: Rules): map<Key, Cookie> {
    var host := Lower(url.host);
    var key := Key(Domain(host, c), PathOf(url, c), c.name);
    if Refused(host, c, rules) then cookies
    else if c.maxAge < 0 || Ends(Expiry(c, now), now) then cookies - {key}
    else cookies[key := Stored(url, c, now, rules)]
  }

  function SetAll(cookies: map<Key, Cookie>, url: Url, cs: seq<Header>, now: int, rules: Rules): map<Key, Cookie> {
    if cs == [] then cookies
    else SetOne(SetAll(cookies, url, cs[..|cs| - 1], now, rules), url, cs[|cs| - 1], now, rules)
  }

  // -------------------------------------------------------------- well formed

  /** A plain DNS name: no empty label. */
  predicate PlainHost(h: string) {
    h != "" && h[0] != '.' && forall i :: 0 <= i < |h| - 1 ==> !(h[i] == '.' && h[i + 1] == '.')
  }

  predicate Rooted(path: string) {
    path != "" && path[0] == '/'
  }

  /** The path of a URL with a host. */
  predicate UrlPath(path: string) {
    path == "" || path[0] == '/'
  }

  function KeyOf(c: Cookie): Key {
    Key(if c.domain == "" then c.originHost else c.domain, c.path, c.name)
  }

  /** A kept cookie says of itself where it was kept, and would be accepted again
      from the host it came from. */
  predicate Kept(k: Key, c: Cookie, rules: Rules) {
    && k == KeyOf(c)
    && Rooted(c.path) && PlainHost(c.originHost) && Lower(c.originHost) == c.originHost
    && (c.domain != "" ==>
          && Lower(TrimDot(c.domain)) == c.domain
          && (c.originHost == c.domain || (Beneath(c.originHost, c.domain, rules) && !rules.suffix(c.domain)))
          && !(c.domain == c.originHost && rules.suffix(c.domain)))
  }

  predicate Sound(cookies: map<Key, Cookie>, rules: Rules) {
    forall k :: k in cookies ==> Kept(k, cookies[k], rules)
  }

  lemma LowerTwice(s: string)
    ensures Lower(Lower(s)) == Lower(s) && |Lower(s)| == |s|
  {
  }

  /** A domain above a plain host does not begin with a dot. */
  lemma PlainDomain(host: string, domain: string)
    requires PlainHost(host) && (host == domain || HasSuffix(host, "." + domain))
    ensures domain == "" || domain[0] != '.'
  {
    if domain != "" && host != domain {
      var k := |host| - |domain| - 1;
      assert host[k..] == "." + domain;
      assert host[k] == '.' && host[k + 1] == domain[0];
    }
  }

  lemma PathIsRooted(url: Url, c: Header)
    requires UrlPath(url.path)
    ensures Rooted(PathOf(url, c))
  {
  }

  /** What the jar accepts it can accept again. */
  lemma SetOneSound(cookies: map<Key, Cookie>, url: Url, c: Header, now: int, rules: Rules)
    requires Sound(cookies, rules) && PlainHost(Lower(url.host)) && UrlPath(url.path)
    ensures Sound(SetOne(cookies, url, c, now, rules), rules)
  {
    var host := Lower(url.host);
    PathIsRooted(url, c);
    LowerTwice(url.host);
    LowerTwice(TrimDot(c.domain));
    hide PathOf, Rooted, PlainHost, UrlPath, Expiry;
    if !Refused(host, c, rules) {
      PlainDomain(host, Domain(host, c));
    }
  }

  /** Distinct cookies never collapse: the spelled key determines its parts. */
  lemma KeysApart(a: Key, b: Key)
    requires '\0' !in a.domain && '\0' !in b.domain && '\0' !in a.path && '\0' !in b.path
    ensures KeyText(a) == KeyText(b) ==> a == b
  {
    if KeyText(a) == KeyText(b) {
      var x, y := a.path + "\0" + a.name, b.path + "\0" + b.name;
      assert KeyText(a) == a.domain + "\0" + x && KeyText(b) == b.domain + "\0" + y;
      CutAtNul(a.domain, x, b.domain, y);
      CutAtNul(a.path, a.name, b.path, b.name);
    }
  }

  lemma {:induction false} CutAtNul(a: string, x: string, b: string, y: string)
    requires '\0' !in a && '\0' !in b && a + "\0" + x == b + "\0" + y
    ensures a == b && x == y
  {
    var s, t := a + "\0" + x, b + "\0" + y;
    assert s[0] == (if a == "" then '\0' else a[0]) && t[0] == (if b == "" then '\0' else b[0]);
    assert (a != "" ==> a[0] in a) && (b != "" ==> b[0] in b);
    if a == "" {
      assert x == s[1..] && y == t[1..];
    } else {
      assert s[1..] == a[1..] + "\0" + x && t[1..] == b[1..] + "\0" + y;
      CutAtNul(a[1..], x, b[1..], y);
      assert a == [a[0]] + a[1..] && b == [b[0]] + b[1..];
    }
  }

  // ------------------------------------------------------------------ the jar

  predicate Sent(c: Cookie, host: string) {
    if c.domain == "" then host == c.originHost else host == c.domain || HasSuffix(host, "." + c.domain)
  }

  predicate Wanted(c: Cookie, host: string, now: int) {
    !Ends(c.expires, now) && Sent(c, host)
  }

  /** What is left when all but these keys have been looked at. */
  function Swept(cookies: map<Key, Cookie>, keys: set<Key>, now: int): map<Key, Cookie> {
    map k | k in cookies && (k in keys || !Ends(cookies[k].expires, now)) :: cookies[k]
  }

  /** The cookies of a jar that a session for this host is to keep. */
  function Selected(cookies: map<Key, Cookie>, host: string, now: int): map<Key, Cookie> {
    map k | k in cookies && Wanted(cookies[k], host, now) :: cookies[k]
  }

  /** The list holds each of these cookies once. */
  predicate Lists(out: seq<Cookie>, cookies: map<Key, Cookie>) {
    && (forall c :: c in out ==> KeyOf(c) in cookies && cookies[KeyOf(c)] == c)
    && (forall k :: k in cookies ==> cookies[k] in out)
    && forall i, j :: 0 <= i < j < |out| ==> out[i] != out[j]
  }

  class Jar {
    const rules: Rules
    var cookies: map<Key, Cookie>

    constructor (rules: Rules)
      ensures this.rules == rules && cookies == map[]
    {
      this.rules, cookies := rules, map[];
    }

    method SetCookies(url: Url, cs: seq<Header>, now: int)
      requires Sound(cookies, rules) && PlainHost(Lower(url.host)) && UrlPath(url.path)
      modifies this
      ensures Sound(cookies, rules) && cookies == SetAll(old(cookies), url, cs, now, rules)
    {
      hide Refused, Domain, PathOf, Expiry, Ends, Stored, Lower, PlainHost, UrlPath, Sound;
      var host := Lower(url.host);
      for n := 0 to |cs|
        invariant Sound(cookies, rules) && cookies == SetAll(old(cookies), url, cs[..n], now, rules)
      {
        assert cs[..n + 1][..n] == cs[..n];
        var c := cs[n];
        SetOneSound(cookies, url, c, now, rules);
        if !Refused(host, c, rules) {
          var key := Key(Domain(host, c), PathOf(url, c), c.name);
          if c.maxAge < 0 || Ends(Expiry(c, now), now) {
            cookies := cookies - {key};
          } else {
            cookies := cookies[key := Stored(url, c, now, rules)];
          }
        }
      }
      assert cs[..|cs|] == cs;
    }

    method Consider(key: Key, host: string, now: int, out0: seq<Cookie>, ghost seen: map<Key, Cookie>)
      returns (out: seq<Cookie>)
      requires key in cookies && KeyOf(cookies[key]) == key && key !in seen && Lists(out0, seen)
      modifies this`cookies
      ensures cookies == if Ends(old(cookies)[key].expires, now) then old(cookies) - {key} else old(cookies)
      ensures Lists(out, if Wanted(old(cookies)[key], host, now) then seen[key := old(cookies)[key]] else seen)
    {
      out := out0;
      var c := cookies[key];
      if Ends(c.expires, now) {
        cookies := cookies - {key};
      } else if Sent(c, host) {
        OneMore(out, seen, c);
        out := out + [c];
      }
    }

    method Visit(key: Key, host: string, now: int, out0: seq<Cookie>, ghost keys: set<Key>, ghost all: map<Key, Cookie>)
      returns (out: seq<Cookie>)
      requires key in keys && keys <= all.Keys && KeyOf(all[key]) == key
      requires cookies == Swept(all, keys, now) && Lists(out0, Selected(all, host, now) - keys)
      modifies this`cookies
      ensures cookies == Swept(all, keys - {key}, now) && Lists(out, Selected(all, host, now) - (keys - {key}))
    {
      SweptNext(all, keys, key, now);
      AddedBack(Selected(all, host, now), keys, key);
      out := Consider(key, host, now, out0, Selected(all, host, now) - keys);
    }

    method Sweep(host: string, now: int) returns (out: seq<Cookie>)
      requires forall k :: k in cookies ==> KeyOf(cookies[k]) == k
      modifies this`cookies
      ensures cookies == Swept(old(cookies), {}, now) && Lists(out, Selected(old(cookies), host, now))
    {
      var keys := cookies.Keys;
      ghost var all := cookies;
      out := [];
      SweptEnds(all, host, now);
      while keys != {}
        invariant keys <= all.Keys && cookies == Swept(all, keys, now)
        invariant Lists(out, Selected(all, host, now) - keys)
        decreases |keys|
      {
        var key :| key in keys;
        out := Visit(key, host, now, out, keys, all);
        keys := keys - {key};
      }
    }

    /** Drops what has expired and lists what the host would be sent. */
    method Snapshot(serverHost: string, now: int) returns (out: seq<Cookie>)
      requires forall k :: k in cookies ==> KeyOf(cookies[k]) == k
      modifies this`cookies
      ensures cookies == Swept(old(cookies), {}, now)
      ensures Lists(out, Selected(old(cookies), Lower(serverHost), now))
    {
      out := Sweep(Lower(serverHost), now);
    }
  }

  lemma SweptEnds(all: map<Key, Cookie>, host: string, now: int)
    ensures Swept(all, all.Keys, now) == all && Selected(all, host, now) - all.Keys == map[]
    ensures Selected(all, host, now) - {} == Selected(all, host, now)
  {
  }

  lemma SweptNext(cookies: map<Key, Cookie>, keys: set<Key>, key: Key, now: int)
    requires key in keys && key in cookies
    ensures Swept(cookies, keys - {key}, now) ==
      if Ends(cookies[key].expires, now) then Swept(cookies, keys, now) - {key} else Swept(cookies, keys, now)
  {
  }

  lemma AddedBack(kept: map<Key, Cookie>, keys: set<Key>, key: Key)
    requires key in keys
    ensures kept - (keys - {key}) == if key in kept then (kept - keys)[key := kept[key]] else kept - keys
  {
  }

  lemma OneMore(out: seq<Cookie>, cookies: map<Key, Cookie>, c: Cookie)
    requires Lists(out, cookies) && KeyOf(c) !in cookies
    ensures Lists(out + [c], cookies[KeyOf(c) := c])
  {
  }

  // ------------------------------------------------- what becomes of a cookie

  /** Its path, or failing that the directory of the page that set it. */
  lemma DirectoryIsThePath(dir: string, page: string, c: Header, host: string)
    requires '/' !in page
    ensures PathOf(Url(host, dir + "/" + page), c) ==
      if c.path != "" && c.path[0] == '/' then c.path else if dir != "" then dir else "/"
  {
    LastSlashOfJoin(dir, page);
    assert (dir + "/" + page)[..|dir|] == dir;
  }

  /** One leading dot of a domain is ignored. */
  lemma LeadingDotIsIgnored(host: string, c: Header, d: string)
    requires d != "" && d[0] != '.'
    ensures Domain(host, c.(domain := "." + d)) == Domain(host, c.(domain := d)) == Lower(d)
  {
    assert TrimDot("." + d) == d && |Lower(d)| == |d|;
  }

  /** A cookie that is taken takes the place of the one with its domain, path and name, or
      ends it; no other cookie changes, and one that is refused changes nothing. */
  lemma SettingTouchesOne(cookies: map<Key, Cookie>, url: Url, c: Header, now: int, rules: Rules, k: Key)
    ensures var from := Lower(url.host);
      var domain := if Lower(TrimDot(c.domain)) == "" then from else Lower(TrimDot(c.domain));
      var taken := domain == from
        || (!rules.address(from) && HasSuffix(from, "." + domain) && !rules.suffix(domain));
      var end := if c.maxAge > 9_223_372_036 then 253_402_300_799 else now + c.maxAge;
      var alive := if c.maxAge != 0 then c.maxAge > 0 && now < end else c.expires.None? || now < c.expires.value;
      var after := SetOne(cookies, url, c, now, rules);
      if taken && k == Key(domain, PathOf(url, c), c.name)
      then (k in after <==> alive) && (alive ==> after[k].name == c.name && after[k].value == c.value)
      else (k in after <==> k in cookies) && (k in after ==> after[k] == cookies[k])
  {
    hide PathOf;
    assert c.domain == "" ==> |Lower(TrimDot(c.domain))| == 0;
  }

  /** A jar takes a cookie for a host or for a domain above it that is no public suffix,
      and keeps it until it ends: a maximum age counts from when it was set and goes before
      a date. Until then it is sent to the host alone if it names no domain, or only the
      host where that is a public suffix, and otherwise to the domain and everything
      beneath it. */
  lemma SentUntilItEnds(url: Url, c: Header, now: int, host: string, later: int, rules: Rules)
    requires url.host != ""
    ensures var from := Lower(url.host);
      var domain := if Lower(TrimDot(c.domain)) == "" then from else Lower(TrimDot(c.domain));
      var taken := domain == from
        || (!rules.address(from) && HasSuffix(from, "." + domain) && !rules.suffix(domain));
      var end := if c.maxAge > 9_223_372_036 then 253_402_300_799 else now + c.maxAge;
      var alive := (t: int) =>
        if c.maxAge != 0 then c.maxAge > 0 && t < end else c.expires.None? || t < c.expires.value;
      var reached :=
        if c.domain == "" || (domain == from && rules.suffix(domain)) then host == from
        else host == domain || HasSuffix(host, "." + domain);
      Selected(SetOne(map[], url, c, now, rules), host, later) != map[] <==>
        taken && alive(now) && alive(later) && reached
  {
    hide PathOf;
    assert |Lower(url.host)| == |url.host| && (c.domain == "" ==> |Lower(TrimDot(c.domain))| == 0);
    var jar := SetOne(map[], url, c, now, rules);
    var key := Key(Domain(Lower(url.host), c), PathOf(url, c), c.name);
    if key in jar {
      assert jar == map[key := Stored(url, c, now, rules)];
      assert key in Selected(jar, host, later) <==> Wanted(jar[key], host, later);
    } else {
      assert jar == map[];
    }
  }

  // -------------------------------------------------------------- round trip

  /** The request ApplyToJar makes up for a saved cookie, as text and once parsed, and
      the header in it. */
  function Address(c: Cookie, serverHost: string): string {
    "https://" + Origin(c, serverHost).host + Origin(c, serverHost).path
  }

  function Origin(c: Cookie, serverHost: string): Url {
    Url(if c.originHost == "" then serverHost else c.originHost, if Rooted(c.path) then c.path else "/")
  }

  function Rebuilt(c: Cookie): Header {
    Header(c.name, c.value, c.path, c.domain, 0, c.expires, c.secure, c.httpOnly)
  }

  /** The address can be made up again; nothing but its text decides. */
  predicate Restorable(c: Cookie, serverHost: string, rules: Rules) {
    rules.parses(Address(c, serverHost))
  }

  /** One saved cookie put back, unless it has expired meanwhile. */
  function PutIn(cookies: map<Key, Cookie>, c: Cookie, now: int): map<Key, Cookie> {
    if Ends(c.expires, now) then cookies - {KeyOf(c)} else cookies[KeyOf(c) := c]
  }

  /** Setting a saved cookie again puts back exactly what was kept. */
  lemma SettingRestores(cookies: map<Key, Cookie>, k: Key, c: Cookie, serverHost: string, now: int, rules: Rules)
    requires Kept(k, c, rules)
    ensures SetOne(cookies, Origin(c, serverHost), Rebuilt(c), now, rules) == PutIn(cookies, c, now)
  {
  }

  method Restore(jar: Jar, c: Cookie, serverHost: string, now: int) returns (ok: bool)
    requires Kept(KeyOf(c), c, jar.rules) && Sound(jar.cookies, jar.rules)
    modifies jar
    ensures ok == Restorable(c, serverHost, jar.rules) && Sound(jar.cookies, jar.rules)
    ensures jar.cookies == if ok then PutIn(old(jar.cookies), c, now) else old(jar.cookies)
  {
    ok := jar.rules.parses(Address(c, serverHost));
    if ok {
      SettingRestores(jar.cookies, KeyOf(c), c, serverHost, now, jar.rules);
      SetAllOne(jar.cookies, Origin(c, serverHost), Rebuilt(c), now, jar.rules);
      jar.SetCookies(Origin(c, serverHost), [Rebuilt(c)], now);
    }
  }

  function Loaded(saved: seq<Cookie>, now: int): map<Key, Cookie> {
    if saved == [] then map[] else PutIn(Loaded(saved[..|saved| - 1], now), saved[|saved| - 1], now)
  }

  /** What has not expired by then. */
  function Alive(cookies: map<Key, Cookie>, now: int): map<Key, Cookie> {
    map k | k in cookies && !Ends(cookies[k].expires, now) :: cookies[k]
  }

  lemma {:induction false} LoadedHolds(saved: seq<Cookie>, now: int)
    requires forall c, d :: c in saved && d in saved && KeyOf(c) == KeyOf(d) ==> c == d
    ensures var m := Loaded(saved, now);
      && (forall k :: k in m ==> m[k] in saved && KeyOf(m[k]) == k && !Ends(m[k].expires, now))
      && (forall c :: c in saved && !Ends(c.expires, now) ==> KeyOf(c) in m)
  {
    if saved == [] {
    } else {
      var n := |saved| - 1;
      assert saved == saved[..n] + [saved[n]];
      assert forall c :: c in saved <==> c in saved[..n] || c == saved[n];
      LoadedHolds(saved[..n], now);
    }
  }

  lemma LoadedIsListed(saved: seq<Cookie>, kept: map<Key, Cookie>, now: int)
    requires Lists(saved, kept) && forall k :: k in kept ==> KeyOf(kept[k]) == k
    ensures Loaded(saved, now) == Alive(kept, now)
  {
    LoadedHolds(saved, now);
    var m := Loaded(saved, now);
    forall k | k in Alive(kept, now)
      ensures k in m && m[k] == kept[k]
    {
      assert kept[k] in saved;
    }
  }

  /** A fresh jar filled from a saved list; it is of use only if every saved cookie
      could be set again. */
  method NewCookieJar(saved: seq<Cookie>, serverHost: string, now: int, rules: Rules) returns (ok: bool, jar: Jar)
    requires forall c :: c in saved ==> Kept(KeyOf(c), c, rules)
    ensures fresh(jar) && jar.rules == rules && Sound(jar.cookies, rules)
    ensures ok <==> forall c :: c in saved ==> Restorable(c, serverHost, rules)
    ensures ok ==> jar.cookies == Loaded(saved, now)
  {
    jar := new Jar(rules);
    for n := 0 to |saved|
      invariant fresh(jar) && jar.rules == rules && Sound(jar.cookies, rules)
      invariant jar.cookies == Loaded(saved[..n], now)
      invariant forall c :: c in saved[..n] ==> Restorable(c, serverHost, rules)
    {
      assert saved[n] in saved;
      ok := Restore(jar, saved[n], serverHost, now);
      if !ok { return; }
      assert saved[..n + 1][..n] == saved[..n];
      assert forall c :: c in saved[..n + 1] ==> c in saved[..n] || c == saved[n];
    }
    assert saved[..|saved|] == saved;
    ok := true;
  }

  lemma SetAllOne(cookies: map<Key, Cookie>, url: Url, c: Header, now: int, rules: Rules)
    ensures SetAll(cookies, url, [c], now, rules) == SetOne(cookies, url, c, now, rules)
  {
  }

  /** Selecting from what was selected before leaves just what is still alive. */
  lemma SelectedAgain(cookies: map<Key, Cookie>, host: string, now: int, later: int)
    ensures Selected(Alive(Selected(cookies, host, now), later), host, later) ==
      Alive(Selected(cookies, host, now), later)
  {
  }

  /** Out to the file now and back later. It works exactly if the address of every
      cookie kept can be made up again; then the restored jar, and the next snapshot of
      it, hold those of them that have not expired. */
  method SaveAndRestore(jar: Jar, serverHost: string, now: int, later: int)
    returns (ok: bool, restored: Jar, again: seq<Cookie>)
    requires Sound(jar.cookies, jar.rules)
    modifies jar
    ensures fresh(restored)
    ensures var kept := Selected(old(jar.cookies), Lower(serverHost), now);
      && (ok <==> forall k :: k in kept ==> Restorable(kept[k], serverHost, jar.rules))
      && (ok ==> restored.cookies == Alive(kept, later) && Lists(again, Alive(kept, later)))
  {
    ghost var kept := Selected(jar.cookies, Lower(serverHost), now);
    assert forall k :: k in jar.cookies ==> Kept(k, jar.cookies[k], jar.rules);
    var saved := jar.Snapshot(serverHost, now);
    assert forall k :: k in kept ==> kept[k] in saved;
    ok, restored := NewCookieJar(saved, serverHost, later, jar.rules);
    again := [];
    if ok {
      LoadedIsListed(saved, kept, later);
      SelectedAgain(old(jar.cookies), Lower(serverHost), now, later);
      again := restored.Snapshot(serverHost, later);
    }
  }

  /** The jar keeps a cookie under whatever rooted path it was set. */
  lemma KeptWhateverItsPath(host: string, path: string, c: Header, now: int, rules: Rules)
    requires Lower(host) == host && Rooted(c.path) && c.domain == "" && c.maxAge == 0 && c.expires == None
    ensures SetOne(map[], Url(host, path), c, now, rules) ==
      map[Key(host, c.path, c.name) := Cookie(c.name, c.value, c.path, "", host, None, c.secure, c.httpOnly)]
  {
    assert TrimDot(c.domain) == "" && Lower("") == "";
    assert Domain(host, c) == host;
  }

  /** So a server that sends `Path=/%zz` leaves a session that can be saved but not
      loaded, if such a path does not parse. */
  lemma BadEscapeIsKept(host: string, path: string, name: string, value: string, now: int, rules: Rules)
    requires PlainHost(host) && Lower(host) == host && UrlPath(path) && !rules.parses("https://" + host + "/%zz")
    ensures var c := Header(name, value, "/%zz", "", 0, None, false, false);
      var cookies := SetOne(map[], Url(host, path), c, now, rules);
      var kept := Selected(cookies, host, now);
      Sound(cookies, rules) && exists k :: k in kept && !Restorable(kept[k], host, rules)
  {
    var c := Header(name, value, "/%zz", "", 0, None, false, false);
    SetOneSound(map[], Url(host, path), c, now, rules);
    KeptWhateverItsPath(host, path, c, now, rules);
    hide SetOne, PlainHost, Kept;
    var cookies := SetOne(map[], Url(host, path), c, now, rules);
    var k := Key(host, c.path, name);
    assert k in Selected(cookies, host, now);
    assert Address(cookies[k], host) == "https://" + host + "/%zz";
  }
}
