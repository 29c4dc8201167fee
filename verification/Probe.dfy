// internal/transport: the probe of the payload's answer, the SSH banner in it, and the connection that
// replays what the probe took.
module Probe {
  import opened Basics
  import opened Streams

  const SSH: seq<Byte> := [0x53, 0x53, 0x48, 0x2D]   // SSH-
  const CRLF: seq<Byte> := [13, 10]
  const LF: seq<Byte> := [10]
  const MAX_PROBE := 65536
  const CHUNK := 2048

  // --- Searching -----------------------------------------------------------------------------------------

  predicate At(s: seq<Byte>, i: nat, what: seq<Byte>) {
    i + |what| <= |s| && s[i..i + |what|] == what
  }

  // bytes.Index.
  function Index(s: seq<Byte>, what: seq<Byte>): (i: int)
    ensures i >= 0 ==> At(s, i, what) && forall j: nat | j < i :: !At(s, j, what)
    ensures i < 0 ==> forall j: nat :: !At(s, j, what)
  {
    if |s| < |what| then -1
    else if s[..|what|] == what then 0
    else if s == [] then -1
    else
      var i := Index(s[1..], what);
      assert forall j: nat | j > 0 :: At(s, j, what) <==> At(s[1..], j - 1, what) by { Shift(s, what); }
      if i < 0 then -1 else i + 1
  }

  lemma Shift(s: seq<Byte>, what: seq<Byte>)
    requires s != []
    ensures forall j: nat | j > 0 :: At(s, j, what) <==> At(s[1..], j - 1, what)
  {
    forall j: nat | j > 0 ensures At(s, j, what) <==> At(s[1..], j - 1, what) {
      if j + |what| <= |s| {
        var a, b := s[j..j + |what|], s[1..][j - 1..j - 1 + |what|];
        assert forall i | 0 <= i < |what| :: a[i] == b[i];
        assert a == b;
      }
    }
  }

  predicate Contains(s: seq<Byte>, what: seq<Byte>) {
    Index(s, what) >= 0
  }

  // What follows does not move the first occurrence.
  lemma IndexOfPrefix(s: seq<Byte>, t: seq<Byte>, what: seq<Byte>)
    requires Contains(s, what)
    ensures Index(s + t, what) == Index(s, what)
  {
    var i := Index(s, what);
    assert (s + t)[i..i + |what|] == s[i..i + |what|];
    assert At(s + t, i, what);
    forall j: nat | j < i ensures !At(s + t, j, what) {
      assert (s + t)[j..j + |what|] == s[j..j + |what|];
      assert !At(s, j, what);
    }
  }

  // --- The banner ------------------------------------------------------------------------------------------

  predicate IsSpace(b: Byte) {
    b == 32 || 9 <= b <= 13
  }

  function TrimLeft(s: seq<Byte>): seq<Byte> {
    if s != [] && IsSpace(s[0]) then TrimLeft(s[1..]) else s
  }

  function TrimRight(s: seq<Byte>): (r: seq<Byte>)
    ensures r <= s
    ensures s != [] && !IsSpace(s[0]) ==> r != []
  {
    if s != [] && IsSpace(s[|s| - 1]) then TrimRight(s[..|s| - 1]) else s
  }

  function TrimSpace(s: seq<Byte>): seq<Byte> {
    TrimRight(TrimLeft(s))
  }

  // Up to the first CRLF, or else the first LF, or else 120 bytes.
  function ExtractSSHBanner(s: seq<Byte>): seq<Byte> {
    var i := Index(s, SSH);
    if i < 0 then []
    else
      var tail := s[i..];
      if Contains(tail, CRLF) then TrimSpace(tail[..Index(tail, CRLF)])
      else if Contains(tail, LF) then TrimSpace(tail[..Index(tail, LF)])
      else TrimSpace(if |tail| > 120 then tail[..120] else tail)
  }

  // There is a banner to report if and only if SSH- occurs.
  lemma BannerIffSSH(s: seq<Byte>)
    ensures ExtractSSHBanner(s) != [] <==> exists i: nat :: At(s, i, SSH)
  {
    var i := Index(s, SSH);
    if i >= 0 {
      var tail := s[i..];
      assert tail[..4] == SSH;
      assert tail[0] == 0x53 && tail[1] == 0x53;
      if Contains(tail, CRLF) {
        assert !At(tail, 0, CRLF);
      } else if Contains(tail, LF) {
        assert !At(tail, 0, LF);
      }
    }
  }

  lemma {:induction false} TrimLeftKeeps(s: seq<Byte>) returns (l: seq<Byte>)
    ensures s == l + TrimLeft(s) && (forall b | b in l :: IsSpace(b)) && (TrimLeft(s) != [] ==> !IsSpace(TrimLeft(s)[0]))
  {
    l := [];
    if s != [] && IsSpace(s[0]) {
      var m := TrimLeftKeeps(s[1..]);
      l := [s[0]] + m;
      assert s == [s[0]] + s[1..];
    }
  }

  lemma {:induction false} TrimRightKeeps(s: seq<Byte>) returns (r: seq<Byte>)
    ensures s == TrimRight(s) + r && (forall b | b in r :: IsSpace(b))
    ensures TrimRight(s) != [] ==> !IsSpace(TrimRight(s)[|TrimRight(s)| - 1])
  {
    r := [];
    if s != [] && IsSpace(s[|s| - 1]) {
      var m := TrimRightKeeps(s[..|s| - 1]);
      r := m + [s[|s| - 1]];
      assert s == s[..|s| - 1] + [s[|s| - 1]];
    }
  }

  const WHITE: set<Byte> := {9, 10, 11, 12, 13, 32}

  lemma TrimmedEnds(s: seq<Byte>)
    ensures var t := TrimSpace(s); t != [] ==> !IsSpace(t[0]) && !IsSpace(t[|t| - 1])
  {
    var l := TrimLeftKeeps(s);
    var r := TrimRightKeeps(TrimLeft(s));
    hide IsSpace, TrimLeft, TrimRight;
  }

  // Trimming takes white space from both ends, all of it and nothing else.
  lemma TrimsSpaceOnly(s: seq<Byte>) returns (l: seq<Byte>, r: seq<Byte>)
    ensures var t := TrimSpace(s);
            && s == l + t + r && (forall b | b in l || b in r :: b in WHITE)
            && (t != [] ==> t[0] !in WHITE && t[|t| - 1] !in WHITE)
  {
    TrimmedEnds(s);
    l := TrimLeftKeeps(s);
    var u := TrimLeft(s);
    r := TrimRightKeeps(u);
    forall b: Byte ensures IsSpace(b) <==> b in WHITE {
      SpaceIsWhite(b);
    }
    hide TrimLeft, TrimRight, IsSpace, WHITE;
    assert l + (TrimSpace(s) + r) == l + TrimSpace(s) + r;
  }

  lemma SpaceIsWhite(b: Byte)
    ensures IsSpace(b) <==> b in WHITE
  {
  }

  lemma IndexIs(s: seq<Byte>, what: seq<Byte>, i: nat)
    requires At(s, i, what) && forall j: nat | j < i :: !At(s, j, what)
    ensures Index(s, what) == i
  {
  }

  // Where SSH- first begins.
  lemma BannerStarts(before: seq<Byte>, tail: seq<Byte>)
    requires !Contains(before + SSH[..3], SSH) && SSH <= tail
    ensures Index(before + tail, SSH) == |before| && (before + tail)[|before|..] == tail
  {
    var s, b := before + tail, before + SSH[..3];
    assert s[|before|..|before| + 4] == tail[..4] == SSH;
    forall j: nat | j < |before| ensures !At(s, j, SSH) {
      assert tail[..3] == SSH[..3];
      assert b == s[..|before| + 3];
      if At(s, j, SSH) {
        assert b[j..j + 4] == s[j..j + 4];
        assert At(b, j, SSH);
        assert false;
      }
    }
    IndexIs(s, SSH, |before|);
  }

  // The banner is the line that begins with the first SSH-, trimmed, if the line ends in CRLF; likewise up to
  // the first LF if there is no CRLF behind it; and without a line end it is at most 120 bytes.
  lemma BannerLine(before: seq<Byte>, line: seq<Byte>, rest: seq<Byte>)
    requires !Contains(before + SSH[..3], SSH) && SSH <= line && !Contains(line, CRLF)
    ensures ExtractSSHBanner(before + (line + CRLF + rest)) == TrimSpace(line)
  {
    var tail := line + CRLF + rest;
    BannerStarts(before, tail);
    EndsAt(line, CRLF, rest);
    hide TrimSpace;
    assert tail[..|line|] == line;
  }

  lemma BannerLfLine(before: seq<Byte>, line: seq<Byte>, rest: seq<Byte>)
    requires !Contains(before + SSH[..3], SSH) && SSH <= line && !Contains(line, LF) && !Contains(line + LF + rest, CRLF)
    ensures ExtractSSHBanner(before + (line + LF + rest)) == TrimSpace(line)
  {
    var tail := line + LF + rest;
    BannerStarts(before, tail);
    EndsAt(line, LF, rest);
    hide TrimSpace;
    assert tail[..|line|] == line;
  }

  lemma BannerWithoutEnd(before: seq<Byte>, tail: seq<Byte>)
    requires !Contains(before + SSH[..3], SSH) && SSH <= tail && !Contains(tail, LF) && !Contains(tail, CRLF)
    ensures ExtractSSHBanner(before + tail) == TrimSpace(if |tail| <= 120 then tail else tail[..120])
  {
    BannerStarts(before, tail);
    hide TrimSpace;
  }

  // A line end that is not in the line is found behind it.
  lemma EndsAt(line: seq<Byte>, end: seq<Byte>, rest: seq<Byte>)
    requires (end == CRLF || end == LF) && !Contains(line, end)
    ensures Index(line + end + rest, end) == |line|
  {
    var s := line + end + rest;
    assert s[|line|..|line| + |end|] == end;
    forall j: nat | j < |line| ensures !At(s, j, end) {
      if j + |end| <= |line| {
        assert line[j..j + |end|] == s[j..j + |end|];
        assert !At(line, j, end);
      } else {
        assert s[j..j + 2][1] == s[j + 1] == 13;
      }
    }
    IndexIs(s, end, |line|);
  }

  // --- Reading ---------------------------------------------------------------------------------------------

  datatype ReadError = Timeout | Eof | Broken

  // The remote end: what it will send and was not read yet.
  class Remote {
    var stream: seq<Byte>

    constructor (stream: seq<Byte>)
      ensures this.stream == stream
    {
      this.stream := stream;
    }

    // One Read: some of what is to come, in any portion, an error, or both.
    method Read(tmp: array<Byte>) returns (n: nat, err: Option<ReadError>)
      requires tmp.Length > 0
      modifies this`stream, tmp
      ensures n <= tmp.Length && n <= |old(stream)|
      ensures tmp[..n] == old(stream)[..n] && stream == old(stream)[n..]
      ensures n == 0 ==> err.Some?
      ensures err == Some(Eof) ==> stream == []
    {
      n :| 0 <= n <= tmp.Length && n <= |stream|;
      err := *;
      if n == 0 && err.None? {
        err := Some(Timeout);
      }
      var i := 0;
      while i < n
        invariant 0 <= i <= n
        invariant stream == old(stream) && tmp[..i] == stream[..i]
      {
        tmp[i] := stream[i];
        i := i + 1;
      }
      stream := stream[n..];
      if err == Some(Eof) && stream != [] {
        err := Some(Broken);
      }
    }
  }

  datatype Stop = Found | Full | Quiet | Failed

  // The probe reads until SSH- shows, 64 KiB, a pause or the end, or an error; last is the error that it stopped
  // for. Whatever it does, what it took and what is still to come make up the stream. A banner is found whole,
  // even across reads, and in the read that completes it.
  method ReadProbe(conn: Remote) returns (bytes: seq<Byte>, stop: Stop, ghost last: Option<ReadError>)
    modifies conn
    ensures old(conn.stream) == bytes + conn.stream
    ensures stop == Found <==> Contains(bytes, SSH)
    ensures stop == Found ==> exists m: nat :: m < |bytes| <= m + 2048 && !Contains(bytes[..m], SSH)
    ensures stop == Full <==> !Contains(bytes, SSH) && last.None?
    ensures stop == Full ==> |bytes| >= 65536
    ensures stop == Quiet <==> !Contains(bytes, SSH) && bytes != [] && (last == Some(Timeout) || last == Some(Eof))
    ensures stop == Failed <==> !Contains(bytes, SSH) && (last == Some(Broken) || (last.Some? && bytes == []))
    ensures |bytes| < 65536 + 2048
  {
    bytes, last := [], None;
    var tmp := new Byte[CHUNK];
    while |bytes| < MAX_PROBE
      invariant old(conn.stream) == bytes + conn.stream
      invariant !Contains(bytes, SSH) && |bytes| < MAX_PROBE + CHUNK && last.None?
      decreases MAX_PROBE + CHUNK - |bytes|
    {
      var n, err := conn.Read(tmp);
      if n > 0 {
        ghost var before := bytes;
        bytes := bytes + tmp[..n];
        assert bytes[..|before|] == before;
        if Contains(bytes, SSH) {
          return bytes, Found, err;
        }
      }
      if err.Some? {
        if err.value == Timeout || err.value == Eof {
          return bytes, if bytes == [] then Failed else Quiet, err;
        }
        return bytes, Failed, err;
      }
    }
    return bytes, Full, None;
  }

  // --- Replaying -------------------------------------------------------------------------------------------

  // A connection whose first reads come from what the probe took.
  class PrefixConn {
    var prefix: seq<Byte>
    const conn: Remote

    constructor (conn: Remote, prefix: seq<Byte>)
      ensures this.conn == conn && this.prefix == prefix
    {
      this.conn, this.prefix := conn, prefix;
    }

    ghost function Pending(): seq<Byte>
      reads this, conn
    {
      prefix + conn.stream
    }

    method Read(p: array<Byte>) returns (n: nat, err: Option<ReadError>)
      requires p.Length > 0
      modifies this`prefix, conn`stream, p
      ensures n <= p.Length && old(Pending()) == p[..n] + Pending()
      ensures n == 0 ==> err.Some?
    {
      if |prefix| > 0 {
        n, err := if |prefix| < p.Length then |prefix| else p.Length, None;
        ghost var all := prefix;
        var i := 0;
        while i < n
          invariant 0 <= i <= n && prefix == all && conn.stream == old(conn.stream)
          invariant p[..i] == prefix[..i]
        {
          p[i] := prefix[i];
          i := i + 1;
        }
        assert prefix == prefix[..n] + prefix[n..];
        prefix := prefix[n..];
      } else {
        n, err := conn.Read(p);
      }
    }
  }

  // Any number of reads, with buffers of any sizes, hands out the pending bytes in order, none lost and none
  // twice.
  method ReadMany(c: PrefixConn, sizes: seq<nat>) returns (out: seq<Byte>)
    requires forall n | n in sizes :: n > 0
    modifies c`prefix, c.conn`stream
    ensures old(c.Pending()) == out + c.Pending()
  {
    out := [];
    var i := 0;
    while i < |sizes|
      invariant 0 <= i <= |sizes|
      invariant old(c.Pending()) == out + c.Pending()
    {
      assert sizes[i] in sizes;
      var p := new Byte[sizes[i]];
      var n, _ := c.Read(p);
      out := out + p[..n];
      i := i + 1;
    }
  }

  // --- Opening ---------------------------------------------------------------------------------------------

  datatype Payload = Payload(enabled: bool, readResponse: bool, allowStatuses: seq<int>)

  predicate AllowedStatuses(got: seq<int>, allowed: seq<int>) {
    got == [] || allowed == [] || forall g | g in got :: g in allowed
  }

  // From the first SSH- on.
  function FromBanner(s: seq<Byte>): seq<Byte>
    requires Contains(s, SSH)
  {
    s[Index(s, SSH)..]
  }

  lemma FromBannerOn(s: seq<Byte>, t: seq<Byte>)
    requires Contains(s, SSH)
    ensures Index(s, SSH) >= 0 && Contains(s + t, SSH) && s[Index(s, SSH)..] + t == FromBanner(s + t)
  {
    IndexOfPrefix(s, t, SSH);
  }

  lemma WaitingKeeps(all: seq<Byte>, later: seq<Byte>)
    requires !Contains(all, SSH)
    ensures !(exists k: nat :: EndsInside(all, k)) && Contains(all + later, SSH) ==>
              Contains(later, SSH) && FromBanner(later) == FromBanner(all + later)
  {
    BannerKeptExactly(all);
    hide Contains, EndsInside, FromBanner;
    assert (forall t :: Kept(all, t)) ==> Kept(all, later);
  }

  lemma BannerIffFound(s: seq<Byte>)
    ensures (ExtractSSHBanner(s) != [] <==> Contains(s, SSH)) && (Index(s, SSH) >= 0 <==> Contains(s, SSH))
    ensures Index(s, SSH) <= |s| && (s == [] ==> !Contains(s, SSH))
  {
    BannerIffSSH(s);
    hide ExtractSSHBanner;
  }

  datatype Opening = Opened | Waiting | NoProbe | Refused

  // All statuses are allowed; 301 always is.
  predicate Permitted(statuses: seq<int>, allow: seq<int>) {
    forall s | s in statuses :: s in allow || s == 301
  }

  // openPreparedConn from the payload on. statusesIn stands for ExtractHTTPStatuses. stop is None if nothing is
  // probed.
  method OpenPrepared(conn: Remote, payload: Payload, statusesIn: seq<Byte> -> seq<int>)
    returns (how: Opening, c: PrefixConn, banner: seq<Byte>, ghost probed: seq<Byte>, ghost stop: Option<Stop>)
    modifies conn
    ensures fresh(c) && c.conn == conn
    ensures old(conn.stream) == probed + conn.stream
    ensures stop.Some? <==> payload.enabled && payload.readResponse
    ensures stop.None? ==> probed == []
    ensures how == NoProbe <==> stop.None? && Permitted(statusesIn([]), payload.allowStatuses)
    ensures how == Opened <==> stop.Some? && Contains(probed, SSH) && Permitted(statusesIn(probed), payload.allowStatuses)
    ensures how == Waiting <==>
              && stop.Some? && stop != Some(Failed) && !Contains(probed, SSH)
              && statusesIn(probed) != [] && Permitted(statusesIn(probed), payload.allowStatuses)
    ensures how == Opened ==>
              && banner == ExtractSSHBanner(probed) != []
              && Contains(old(conn.stream), SSH) && c.Pending() == FromBanner(old(conn.stream))
    ensures how == Waiting || how == NoProbe ==> banner == [] && c.Pending() == conn.stream
    ensures how == Waiting && !(exists k: nat :: EndsInside(probed, k)) && Contains(old(conn.stream), SSH) ==>
              Contains(c.Pending(), SSH) && FromBanner(c.Pending()) == FromBanner(old(conn.stream))
  {
    hide Contains, At, FromBanner, ExtractSSHBanner, EndsInside;
    var all: seq<Byte> := [];
    probed, stop := [], None;
    NothingFound();
    if payload.enabled {
      if payload.readResponse {
        var why;
        ghost var last;
        all, why, last := ReadProbe(conn);
        probed, stop := all, Some(why);
        if why == Failed {
          c := new PrefixConn(conn, []);
          return Refused, c, [], probed, stop;
        }
      }
    }
    var statuses := statusesIn(all);
    var effective := payload.allowStatuses;
    if 301 !in effective {
      effective := effective + [301];
    }
    if |statuses| > 0 && !AllowedStatuses(statuses, effective) {
      c := new PrefixConn(conn, []);
      return Refused, c, [], probed, stop;
    }
    banner := ExtractSSHBanner(all);
    var idx := Index(all, SSH);
    BannerIffFound(all);
    if payload.enabled && payload.readResponse {
      if banner != [] && idx >= 0 {
        c := new PrefixConn(conn, all[idx..]);
        FromBannerOn(all, conn.stream);
        return Opened, c, banner, probed, stop;
      } else if |statuses| > 0 {
        c := new PrefixConn(conn, []);
        WaitingKeeps(all, conn.stream);
        return Waiting, c, banner, probed, stop;
      } else {
        c := new PrefixConn(conn, []);
        return Refused, c, banner, probed, stop;
      }
    }
    c := new PrefixConn(conn, []);
    return NoProbe, c, banner, probed, stop;
  }

  lemma NothingFound()
    ensures !Contains([], SSH)
  {
  }

  // --- Going on without a banner -----------------------------------------------------------------------------

  // The first SSH- of the stream is still in the later reads, at the same place.
  ghost predicate Kept(probed: seq<Byte>, later: seq<Byte>) {
    Contains(probed + later, SSH) ==> Contains(later, SSH) && FromBanner(later) == FromBanner(probed + later)
  }

  // What was probed ends inside SSH-, after k bytes of it.
  predicate EndsInside(probed: seq<Byte>, k: nat) {
    0 < k < |SSH| && k <= |probed| && probed[|probed| - k..] == SSH[..k]
  }

  // When the daemon goes on without a banner, the later reads have all of it, whatever is still to come, if
  // and only if the probe did not stop inside SSH-.
  lemma BannerKeptExactly(probed: seq<Byte>)
    requires !Contains(probed, SSH)
    ensures (forall later :: Kept(probed, later)) <==> !(exists k: nat :: EndsInside(probed, k))
  {
    forall later | !(exists k: nat :: EndsInside(probed, k)) ensures Kept(probed, later) {
      KeptLater(probed, later);
    }
    if k: nat :| EndsInside(probed, k) {
      BannerLost(probed, k);
      assert !Kept(probed, SSH[k..]);
    }
  }

  // Stopped inside SSH-, the daemon loses a banner that goes on as it began: the later reads do not have it.
  lemma BannerLost(probed: seq<Byte>, k: nat)
    requires !Contains(probed, SSH) && EndsInside(probed, k)
    ensures Contains(probed + SSH[k..], SSH) && !Contains(SSH[k..], SSH)
  {
    var s, i := probed + SSH[k..], |probed| - k;
    assert s[i..i + 4] == probed[i..] + SSH[k..] == SSH;
    assert At(s, i, SSH);
  }

  lemma KeptLater(probed: seq<Byte>, later: seq<Byte>)
    requires !Contains(probed, SSH) && !(exists k: nat :: EndsInside(probed, k))
    ensures Kept(probed, later)
  {
    var s, n := probed + later, |probed|;
    if Contains(s, SSH) {
      var i := Index(s, SSH);
      if i < n {
        BeginsInside(probed, later, i);
        assert false;
      }
      assert later[i - n..i - n + 4] == s[i..i + 4];
      assert At(later, i - n, SSH);
      forall j: nat | j < i - n ensures !At(later, j, SSH) {
        LaterAt(probed, later, j);
      }
      assert s[i..] == later[i - n..];
    }
  }

  lemma AtPrefix(probed: seq<Byte>, later: seq<Byte>, i: nat)
    requires i + 4 <= |probed|
    ensures At(probed + later, i, SSH) <==> At(probed, i, SSH)
  {
    assert (probed + later)[i..i + 4] == probed[i..i + 4];
  }

  lemma BeginsInside(probed: seq<Byte>, later: seq<Byte>, i: nat)
    requires !Contains(probed, SSH) && i < |probed| && At(probed + later, i, SSH)
    ensures EndsInside(probed, |probed| - i)
  {
    var s, n := probed + later, |probed|;
    if i + 4 <= n {
      AtPrefix(probed, later, i);
      assert false;
    }
    assert probed[i..] == s[i..i + 4][..n - i] == SSH[..n - i];
  }

  lemma LaterAt(probed: seq<Byte>, later: seq<Byte>, j: nat)
    ensures At(later, j, SSH) <==> At(probed + later, |probed| + j, SSH)
  {
    if j + 4 <= |later| {
      assert (probed + later)[|probed| + j..|probed| + j + 4] == later[j..j + 4];
    }
  }
}
