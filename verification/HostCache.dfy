// internal/dnsx: the host cache, its string keys and its eviction.
module HostCache {
  import opened Basics

  // --- Strings -------------------------------------------------------------------------------------------

  predicate HasSuffix(s: string, x: string) {
    |x| <= |s| && s[|s| - |x|..] == x
  }

  function Join(xs: seq<string>, sep: char): string {
    if xs == [] then [] else if |xs| == 1 then xs[0] else xs[0] + [sep] + Join(xs[1..], sep)
  }

  predicate Free(xs: seq<string>, c: char) {
    forall x | x in xs :: c !in x
  }

  lemma FirstSeparator(a: string, b: string, x: string, y: string, sep: char)
    requires a + [sep] + x == b + [sep] + y && sep !in a && sep !in b
    ensures a == b && x == y
  {
    var s := a + [sep] + x;
    assert s[|a|] == sep && s[|b|] == sep;
    assert s[..|a|] == a && s[..|b|] == b;
    assert x == s[|a| + 1..] == y;
  }

  lemma {:induction false} JoinHasNoOther(xs: seq<string>, sep: char, c: char)
    requires Free(xs, c) && c != sep
    ensures c !in Join(xs, sep)
  {
    if |xs| > 1 {
      JoinHasNoOther(xs[1..], sep, c);
      assert xs[0] in xs;
    }
  }

  lemma JoinHasSeparator(xs: seq<string>, sep: char)
    requires Free(xs, sep) && "" !in xs
    ensures (Join(xs, sep) == [] <==> xs == []) && (sep in Join(xs, sep) <==> |xs| > 1)
  {
    if xs != [] {
      assert xs[0] in xs;
    }
  }

  lemma {:induction false} JoinInjective(xs: seq<string>, ys: seq<string>, sep: char)
    requires Free(xs, sep) && Free(ys, sep) && "" !in xs && "" !in ys
    requires Join(xs, sep) == Join(ys, sep)
    ensures xs == ys
  {
    JoinHasSeparator(xs, sep);
    JoinHasSeparator(ys, sep);
    if |xs| > 1 {
      assert xs[0] in xs && ys[0] in ys;
      FirstSeparator(xs[0], ys[0], Join(xs[1..], sep), Join(ys[1..], sep), sep);
      JoinInjective(xs[1..], ys[1..], sep);
    }
  }

  // --- Server lists ----------------------------------------------------------------------------------------

  // net.JoinHostPort with port 53.
  function WithPort(host: string): string {
    if ':' in host then "[" + host + "]:53" else host + ":53"
  }

  // A bare name or IPv4 address, and an IPv6 address, which has colons.
  lemma WithPortMeans(host: string)
    ensures ':' !in host ==> WithPort(host) == host + ":53"
    ensures ':' in host ==> WithPort(host) == "[" + host + "]:53"
  {
  }

  // One entry of the list, with hasPort standing for a net.SplitHostPort without error.
  function Address(s: string, hasPort: string -> bool): string {
    var t := TrimSpace(s);
    if hasPort(t) then t else WithPort(t)
  }

  function NormalizeOnto(out: seq<string>, servers: seq<string>, hasPort: string -> bool): seq<string>
    decreases |servers|
  {
    if servers == [] then out
    else
      var a := Address(servers[0], hasPort);
      NormalizeOnto(if TrimSpace(servers[0]) == "" || a in out then out else out + [a], servers[1..], hasPort)
  }

  method NormalizeServers(servers: seq<string>, hasPort: string -> bool) returns (out: seq<string>)
    ensures out == NormalizeOnto([], servers, hasPort)
  {
    out := [];
    var seen: set<string> := {};
    var i := 0;
    while i < |servers|
      invariant 0 <= i <= |servers|
      invariant forall x :: x in seen <==> x in out
      invariant NormalizeOnto(out, servers[i..], hasPort) == NormalizeOnto([], servers, hasPort)
    {
      assert servers[i..][1..] == servers[i + 1..];
      var s := TrimSpace(servers[i]);
      if s != "" {
        if !hasPort(s) {
          s := WithPort(s);
        }
        if s !in seen {
          seen := seen + {s};
          out := out + [s];
        }
      }
      i := i + 1;
    }
  }

  // A normalized list names no server twice and no empty one, and brings in no separator.
  lemma {:induction false} Normalized(out: seq<string>, servers: seq<string>, hasPort: string -> bool, c: char)
    requires Distinct(out) && "" !in out && Free(out, c) && Free(servers, c) && c !in "[]:53"
    ensures var r := NormalizeOnto(out, servers, hasPort); Distinct(r) && "" !in r && Free(r, c)
    decreases |servers|
  {
    if servers != [] {
      assert servers[0] in servers;
      TrimSubset(servers[0], c);
      var a := Address(servers[0], hasPort);
      assert TrimSpace(servers[0]) != "" ==> a != "";
      assert c !in a;
      hide Address, TrimSpace;
      assert Free(servers[1..], c);
      var next := if TrimSpace(servers[0]) == "" || a in out then out else out + [a];
      Normalized(next, servers[1..], hasPort, c);
    }
  }

  // --- Keys --------------------------------------------------------------------------------------------------

  function CacheKey(mode: string, servers: seq<string>, hasPort: string -> bool, host: string): string {
    mode + "|" + Join(NormalizeOnto([], servers, hasPort), ',') + "|" + host
  }

  // Keys are equal if and only if their modes, normalized servers and hosts are.
  lemma KeyInjective(mode: string, servers: seq<string>, host: string,
                     mode': string, servers': seq<string>, host': string, hasPort: string -> bool)
    requires '|' !in mode && '|' !in mode' && Free(servers, '|') && Free(servers', '|')
    requires Free(servers, ',') && Free(servers', ',')
    ensures CacheKey(mode, servers, hasPort, host) == CacheKey(mode', servers', hasPort, host')
       <==> mode == mode' && NormalizeOnto([], servers, hasPort) == NormalizeOnto([], servers', hasPort) && host == host'
  {
    var n, n' := NormalizeOnto([], servers, hasPort), NormalizeOnto([], servers', hasPort);
    Normalized([], servers, hasPort, '|');
    Normalized([], servers, hasPort, ',');
    Normalized([], servers', hasPort, '|');
    Normalized([], servers', hasPort, ',');
    hide NormalizeOnto;
    JoinHasNoOther(n, ',', '|');
    JoinHasNoOther(n', ',', '|');
    if Join(n, ',') == Join(n', ',') {
      JoinInjective(n, n', ',');
    }
    PartsInjective(mode, Join(n, ','), host, mode', Join(n', ','), host');
    hide Join, Free;
  }

  lemma PartsInjective(a: string, b: string, c: string, a': string, b': string, c': string)
    requires '|' !in a && '|' !in a' && '|' !in b && '|' !in b'
    ensures a + "|" + b + "|" + c == a' + "|" + b' + "|" + c' <==> a == a' && b == b' && c == c'
  {
    if a + "|" + b + "|" + c == a' + "|" + b' + "|" + c' {
      assert a + "|" + b + "|" + c == a + "|" + (b + "|" + c);
      assert a' + "|" + b' + "|" + c' == a' + "|" + (b' + "|" + c');
      FirstSeparator(a, a', b + "|" + c, b' + "|" + c', '|');
      FirstSeparator(b, b', c, c', '|');
    }
  }

  // A key is evicted for h if and only if it is a key of h, or of a host that itself ends in a bar and h.
  lemma EvictedExactly(mode: string, servers: seq<string>, hasPort: string -> bool, host: string, h: string)
    requires '|' !in h
    ensures HasSuffix(CacheKey(mode, servers, hasPort, host), "|" + h) <==> host == h || HasSuffix(host, "|" + h)
  {
    var before := mode + "|" + Join(NormalizeOnto([], servers, hasPort), ',');
    var key := before + "|" + host;
    hide NormalizeOnto, Join;
    var x := "|" + h;
    var at := |key| - |x|;
    assert key[|before|] == '|';
    if |host| > |h| {
      assert key[at..] == host[|host| - |x|..];
    } else if |host| == |h| {
      assert key[at..] == "|" + host;
      assert x[1..] == h && ("|" + host)[1..] == host;
    } else if at >= 0 {
      assert key[at..][|before| - at] == '|';
      assert x[|before| - at] == h[|before| - at - 1];
    }
  }

  // --- The cache ---------------------------------------------------------------------------------------------

  datatype Entry = Entry(ips: seq<string>, resolver: string, expires: int)

  datatype Stored = Stored(key: string, entry: Entry)

  const LIMIT := 2000
  const LIFETIME := 300

  // What was stored last under a key.
  function Last(history: seq<Stored>, key: string): Option<Entry> {
    if history == [] then None
    else if history[|history| - 1].key == key then Some(history[|history| - 1].entry)
    else Last(history[..|history| - 1], key)
  }

  ghost predicate Earliest(m: map<string, Entry>, key: string) {
    key in m && forall k | k in m :: m[key].expires <= m[k].expires
  }

  // What is left when the keys that end in a bar and h go.
  function Evicted(m: map<string, Entry>, h: string): map<string, Entry> {
    map k | k in m && !HasSuffix(k, "|" + h) :: m[k]
  }

  ghost predicate KeyOf(key: string, host: string, hasPort: string -> bool) {
    exists mode, servers :: key == CacheKey(mode, servers, hasPort, host)
  }

  lemma BarInside(s: string, h: string)
    requires HasSuffix(s, "|" + h)
    ensures '|' in s
  {
    assert s[|s| - |h| - 1] == ("|" + h)[0];
  }

  lemma EvictsKeysOf(key: string, host: string, h: string, hasPort: string -> bool)
    requires '|' !in h && '|' !in host && KeyOf(key, host, hasPort)
    ensures HasSuffix(key, "|" + h) <==> KeyOf(key, h, hasPort)
  {
    var mode, servers :| key == CacheKey(mode, servers, hasPort, host);
    EvictedExactly(mode, servers, hasPort, host, h);
    hide CacheKey;
    if HasSuffix(host, "|" + h) {
      BarInside(host, h);
      assert false;
    }
    if mode', servers' :| key == CacheKey(mode', servers', hasPort, h) {
      EvictedExactly(mode', servers', hasPort, h, h);
    }
  }

  // In a cache for hosts without a bar in them, these are the entries of all other hosts, and none of h is
  // among them, whatever the mode and the servers.
  lemma EvictionIsByHost(m: map<string, Entry>, h: string, hasPort: string -> bool)
    requires '|' !in h && forall k | k in m :: exists host :: '|' !in host && KeyOf(k, host, hasPort)
    ensures Evicted(m, h) == map k | k in m && !KeyOf(k, h, hasPort) :: m[k]
  {
    hide KeyOf, HasSuffix;
    forall k | k in m ensures HasSuffix(k, "|" + h) <==> KeyOf(k, h, hasPort) {
      var host :| '|' !in host && KeyOf(k, host, hasPort);
      EvictsKeysOf(k, host, h, hasPort);
    }
  }

  class Cache {
    var entries: map<string, Entry>
    ghost var history: seq<Stored>

    ghost predicate Valid()
      reads this
    {
      && |entries| <= 2000 && "" !in entries
      && forall k | k in entries :: Last(history, k) == Some(entries[k])
    }

    constructor ()
      ensures Valid() && entries == map[] && history == []
    {
      entries, history := map[], [];
    }

    // The hit path of ResolveHost: what was stored last for the key, and not expired.
    method Lookup(key: string, now: int) returns (hit: Option<Entry>)
      requires Valid()
      ensures hit.Some? <==> key in entries && now < entries[key].expires
      ensures hit.Some? ==> hit == Last(history, key) && now < hit.value.expires
    {
      if key in entries && now < entries[key].expires {
        return Some(entries[key]);
      }
      return None;
    }

    // The scan for the entry to evict; the empty key means none yet.
    method Oldest() returns (oldestKey: string)
      requires Valid() && entries != map[]
      ensures Earliest(entries, oldestKey)
    {
      oldestKey := "";
      var oldestTime := 0;
      var keys := entries.Keys;
      while keys != {}
        invariant keys <= entries.Keys
        invariant if oldestKey == "" then keys == entries.Keys
                  else oldestKey in entries && oldestTime == entries[oldestKey].expires
        invariant oldestKey != "" ==> forall k | k in entries && k !in keys :: oldestTime <= entries[k].expires
        decreases |keys|
      {
        var k :| k in keys;
        if oldestKey == "" || entries[k].expires < oldestTime {
          oldestKey, oldestTime := k, entries[k].expires;
        }
        keys := keys - {k};
      }
      assert exists k :: k in entries;
    }

    // At the limit one entry goes first, and it is one that expires earliest.
    method Store(key: string, ips: seq<string>, resolver: string, now: int)
      requires Valid() && key != ""
      modifies this
      ensures Valid()
      ensures history == old(history) + [Stored(key, Entry(ips, resolver, now + 300))]
      ensures |old(entries)| < 2000 ==> entries == old(entries)[key := Entry(ips, resolver, now + 300)]
      ensures |old(entries)| == 2000 ==>
                exists k :: Earliest(old(entries), k) && entries == (old(entries) - {k})[key := Entry(ips, resolver, now + 300)]
    {
      var e := Entry(ips, resolver, now + LIFETIME);
      if |entries| >= LIMIT {
        var oldest := Oldest();
        entries := entries - {oldest};
        assert |entries| == LIMIT - 1;
      }
      entries := entries[key := e];
      history := history + [Stored(key, e)];
      assert history[..|history| - 1] == old(history);
    }

    // Drops the keys that end in a bar and the host, and no others.
    method EvictHost(host: string)
      requires Valid()
      modifies this`entries
      ensures Valid()
      ensures var h := ToLower(TrimSpace(host));
              entries == if h == "" then old(entries) else Evicted(old(entries), h)
    {
      var h := ToLower(TrimSpace(host));
      if h == "" {
        return;
      }
      var keys := entries.Keys;
      ghost var m := entries;
      while keys != {}
        invariant keys <= m.Keys && |entries| <= |m|
        invariant entries == map k | k in m && (k in keys || !HasSuffix(k, "|" + h)) :: m[k]
        decreases |keys|
      {
        var key :| key in keys;
        if HasSuffix(key, "|" + h) {
          entries := entries - {key};
        }
        keys := keys - {key};
      }
    }
  }
}
