// internal/api/socksclient.go: the client that the daemon points at its own SOCKS5 server.
module SocksClient {
  import opened Streams
  import opened Socks5
  import opened Exchanges

  // The result of a connect: whether it succeeded, the bytes left unread and the bytes written.
  datatype Dial = Dial(ok: bool, rest: seq<Byte>, sent: seq<Byte>)

  const GREETING: seq<Byte> := [5, 1, 0]

  // The length is cut to a byte and the port to a uint16.
  function ConnectRequest(host: seq<Byte>, port: int): seq<Byte> {
    [5, 1, 0, 3, |host| % 256] + host + BigEndian(port)
  }

  function Skip(s: seq<Byte>, n: nat, sent: seq<Byte>): Dial {
    if |s| < n then Dial(false, [], sent) else Dial(true, s[n..], sent)
  }

  function AwaitReply(s: seq<Byte>, sent: seq<Byte>): Dial {
    if |s| < 4 then Dial(false, [], sent)
    else if s[0] != 5 || s[1] != 0 then Dial(false, s[4..], sent)
    else if s[3] == 1 then Skip(s[4..], 6, sent)
    else if s[3] == 4 then Skip(s[4..], 18, sent)
    else if s[3] == 3 then AwaitDomain(s[4..], sent)
    else Dial(false, s[4..], sent)
  }

  function AwaitDomain(s: seq<Byte>, sent: seq<Byte>): Dial {
    if |s| < 1 then Dial(false, [], sent)
    else
      var n: nat := s[0];
      Skip(s[1..], n + 2, sent)
  }

  function Connect(s: seq<Byte>, host: seq<Byte>, port: int): Dial {
    if |s| < 2 then Dial(false, [], GREETING)
    else if s[0] != 5 || s[1] != 0 then Dial(false, s[2..], GREETING)
    else AwaitReply(s[2..], GREETING + ConnectRequest(host, port))
  }

  method Socks5Connect(c: Conn, host: seq<Byte>, port: int) returns (ok: bool)
    requires c.output == []
    modifies c
    ensures Dial(ok, c.input, c.output) == Connect(old(c.input), host, port)
  {
    hide AwaitReply, ConnectRequest;
    c.Write(GREETING);
    assert c.output == GREETING;
    var buf := new Byte[2];
    var read := c.ReadFull(buf, 2);
    if !read {
      return false;
    }
    assert buf[0] == buf[..2][0] && buf[1] == buf[..2][1];
    if buf[0] != 5 || buf[1] != 0 {
      return false;
    }
    c.Write(ConnectRequest(host, port));
    ok := ReadReply(c);
  }

  method ReadReply(c: Conn) returns (ok: bool)
    modifies c
    ensures Dial(ok, c.input, c.output) == AwaitReply(old(c.input), old(c.output))
  {
    var resp := new Byte[4];
    var read := c.ReadFull(resp, 4);
    if !read {
      return false;
    }
    assert forall i | 0 <= i < 4 :: resp[i] == resp[..4][i];
    if resp[0] != 5 || resp[1] != 0 {
      return false;
    }
    if resp[3] == 1 {
      var extra := new Byte[6];
      read := c.ReadFull(extra, 6);
    } else if resp[3] == 3 {
      var dlen := new Byte[1];
      read := c.ReadFull(dlen, 1);
      if !read {
        return false;
      }
      assert dlen[0] == dlen[..1][0];
      var n: nat := dlen[0];
      var extra := new Byte[n + 2];
      read := c.ReadFull(extra, n + 2);
    } else if resp[3] == 4 {
      var extra := new Byte[18];
      read := c.ReadFull(extra, 18);
    } else {
      return false;
    }
    return read;
  }

  // --- Client and server together ------------------------------------------------------------------------

  // Both ends are satisfied with the same target, and the next byte each way is the first tunnelled one.
  predicate Agree(host: seq<Byte>, port: int, up: seq<Byte>, down: seq<Byte>) {
    var server := Serve(GREETING + ConnectRequest(host, port) + up, true);
    var client := Connect(server.sent + down, host, port);
    && 0 <= port && server.outcome == Target(Domain(host), port) && server.rest == up
    && client.ok && client.rest == down
  }

  lemma ServerReads(host: seq<Byte>, tail: seq<Byte>)
    ensures Parse(GREETING + ([5, 1, 0, 3, |host| % 256] + tail)) == Sending(NO_AUTH, ParseDomain([|host| % 256] + tail))
  {
    hide ParseDomain, ParseRequest, ParseLogin;
    var domain := [|host| % 256] + tail;
    assert GREETING + ([5, 1, 0, 3, |host| % 256] + tail) == [5, |[0]|] + ([0] + ([5, 1, 0, 3] + domain));
    ParseGreetingPrinted([0], [5, 1, 0, 3] + domain);
    ParseHeaderPrinted(0, 3, domain);
  }

  // The request is read as the host's first bytes, as many as its length leaves in a byte.
  lemma DomainRead(host: seq<Byte>, port: int, up: seq<Byte>)
    requires var n := |host| % 256; n > 0
    ensures var n := |host| % 256;
            var r := ParseDomain([n] + (host + BigEndian(port) + up));
            && r.outcome.Target? && r.outcome.address == Domain(host[..n])
            && (n == |host| ==> r == Run(Target(Domain(host), port % 0x1_0000), up, []))
  {
    var n: nat := |host| % 256;
    var s := [n] + (host + BigEndian(port) + up);
    assert s[1..] == host + BigEndian(port) + up;
    assert s[1..][..n] == host[..n];
    if n == |host| {
      assert s[1..][n + 2..] == up;
      assert host[..n] == host;
    }
  }

  lemma ServerServes(host: seq<Byte>, port: int, up: seq<Byte>)
    ensures var n := |host| % 256;
            var r := Parse(GREETING + ConnectRequest(host, port) + up);
            && (n == 0 ==> r.outcome == Refused(EmptyDomain))
            && (n > 0 ==> r.outcome.Target? && r.outcome.address == Domain(host[..n]))
            && (n == |host| > 0 ==> r == Run(Target(Domain(host), port % 0x1_0000), up, NO_AUTH))
  {
    var n: nat := |host| % 256;
    var tail := host + BigEndian(port) + up;
    hide Parse, BigEndian;
    assert GREETING + ConnectRequest(host, port) + up == GREETING + ([5, 1, 0, 3, n] + tail);
    ServerReads(host, tail);
    if n == 0 {
      assert ParseDomain([n] + tail).outcome == Refused(EmptyDomain);
    } else {
      DomainRead(host, port, up);
      hide ParseDomain;
    }
  }

  lemma ClientServed(host: seq<Byte>, port: int, down: seq<Byte>)
    ensures Connect((NO_AUTH + Reply(0)) + down, host, port) == Dial(true, down, GREETING + ConnectRequest(host, port))
  {
    hide ConnectRequest;
    var s := (NO_AUTH + Reply(0)) + down;
    assert s[2..] == Reply(0) + down;
    assert s[2..][4..] == [0, 0, 0, 0, 0, 0] + down;
    assert s[2..][4..][6..] == down;
  }

  // The two agree for exactly the hosts of 1 to 255 bytes and the ports of a uint16.
  lemma AgreeExactly(host: seq<Byte>, port: int, up: seq<Byte>, down: seq<Byte>)
    ensures Agree(host, port, up, down) <==> 1 <= |host| <= 255 && 0 <= port < 0x1_0000
  {
    ServerServes(host, port, up);
    ClientServed(host, port, down);
    hide Parse, ConnectRequest, Connect, Reply;
  }

  lemma GreetingAnswered()
    ensures Parse(GREETING).sent == NO_AUTH && Parse(GREETING).outcome.Refused?
  {
    assert GREETING[2..][..1] == [0];
    assert GREETING[2..][1..] == [];
  }

  // Each end has written all it can, given what the other one wrote.
  predicate AtRest(host: seq<Byte>, port: int, dialled: bool, up: seq<Byte>, down: seq<Byte>) {
    up == Connect(down, host, port).sent && down == Serve(up, dialled).sent
  }

  lemma ClientSends(host: seq<Byte>, port: int, down: seq<Byte>)
    ensures Connect(down, host, port).sent == GREETING + if NO_AUTH <= down then ConnectRequest(host, port) else []
  {
    hide ConnectRequest;
    if |down| >= 2 {
      assert down[..2] == [down[0], down[1]];
    }
  }

  lemma ServerSends(host: seq<Byte>, port: int, dialled: bool)
    ensures Serve(GREETING, dialled).sent == NO_AUTH
    ensures var outcome := Serve(GREETING + ConnectRequest(host, port), dialled).outcome;
            if |host| % 256 == 0 then outcome == Refused(EmptyDomain) else outcome.Target?
    ensures NO_AUTH <= Serve(GREETING + ConnectRequest(host, port), dialled).sent
    ensures 0 < |host| <= 255 ==> Serve(GREETING + ConnectRequest(host, port), dialled).sent == NO_AUTH + Reply(if dialled then 0 else 4)
  {
    GreetingAnswered();
    ServerServes(host, port, []);
    AnswersGrow(GREETING, ConnectRequest(host, port));
    hide Parse, ConnectRequest;
    assert GREETING + ConnectRequest(host, port) + [] == GREETING + ConnectRequest(host, port);
  }

  // Neither end waits for the other: when neither has more to write, the whole request has been sent, and the
  // server has read it, and replied or refused it, which it does for an empty host alone.
  lemma NeitherWaits(host: seq<Byte>, port: int, dialled: bool, up: seq<Byte>, down: seq<Byte>)
    ensures var all := GREETING + ConnectRequest(host, port);
            AtRest(host, port, dialled, up, down) <==> up == all && down == Serve(all, dialled).sent
    ensures AtRest(host, port, dialled, up, down) ==>
              var outcome := Serve(up, dialled).outcome;
              if |host| % 256 == 0 then outcome == Refused(EmptyDomain) else outcome.Target?
  {
    ServerSends(host, port, dialled);
    ClientSends(host, port, down);
    hide Serve, Connect, ConnectRequest;
    assert GREETING + [] == GREETING;
  }

  // For the hosts that fit, they come to rest with the client told whether the dialler got through.
  lemma RestIsTheDial(host: seq<Byte>, port: int, dialled: bool, up: seq<Byte>, down: seq<Byte>)
    requires 1 <= |host| <= 255 && AtRest(host, port, dialled, up, down)
    ensures down == [5, 0] + [5, if dialled then 0 else 4, 0, 1, 0, 0, 0, 0, 0, 0]
    ensures Connect(down, host, port).ok <==> dialled
  {
    NeitherWaits(host, port, dialled, up, down);
    ServerSends(host, port, dialled);
    ClientTold(host, port, dialled);
    hide *;
  }

  lemma ClientTold(host: seq<Byte>, port: int, dialled: bool)
    ensures NO_AUTH == [5, 0] && Reply(if dialled then 0 else 4) == [5, if dialled then 0 else 4, 0, 1, 0, 0, 0, 0, 0, 0]
    ensures Connect(NO_AUTH + Reply(if dialled then 0 else 4), host, port).ok <==> dialled
  {
    var s := NO_AUTH + Reply(if dialled then 0 else 4);
    assert s[2..] == Reply(if dialled then 0 else 4);
    hide ConnectRequest;
  }

  // --- Replies of any server -------------------------------------------------------------------------------

  // Section 6 of RFC 1928: a bound address of one of the three types, and a port.
  predicate BoundAddress(kind: Byte, body: seq<Byte>) {
    || (kind == 1 && |body| == 4 + 2)
    || (kind == 4 && |body| == 16 + 2)
    || (kind == 3 && |body| >= 1 && |body| - 3 == body[0])
  }

  // The choice of no authentication, and a reply with code 0.
  ghost predicate Granted(s: seq<Byte>, rest: seq<Byte>) {
    exists reserved, kind, body :: BoundAddress(kind, body) && s == [5, 0, 5, 0, reserved, kind] + body + rest
  }

  // The client takes an answer for a success, with some rest behind it, if and only if it is one.
  lemma ConnectsExactly(s: seq<Byte>, host: seq<Byte>, port: int, rest: seq<Byte>)
    ensures (Connect(s, host, port).ok && Connect(s, host, port).rest == rest) <==> Granted(s, rest)
  {
    if Connect(s, host, port).ok {
      ReplySplit(s, host, port);
    }
    hide Connect, ConnectRequest;
    if Granted(s, rest) {
      var reserved, kind, body :| BoundAddress(kind, body) && s == [5, 0, 5, 0, reserved, kind] + body + rest;
      ReplyTaken(reserved, kind, body, rest, host, port);
    }
  }

  // It sends its request once it has seen that choice, and never before.
  lemma RequestSentExactly(s: seq<Byte>, host: seq<Byte>, port: int)
    ensures Connect(s, host, port).sent == [5, 1, 0] + if [5, 0] <= s then ConnectRequest(host, port) else []
  {
    ClientSends(host, port, s);
    assert NO_AUTH == [5, 0] && GREETING == [5, 1, 0];
    hide Connect, ConnectRequest;
  }

  lemma ReplySplit(s: seq<Byte>, host: seq<Byte>, port: int)
    requires Connect(s, host, port).ok
    ensures Granted(s, Connect(s, host, port).rest)
  {
    hide ConnectRequest;
    assert Connect(s, [], 0).ok;
    var n := BodyLength(s);
    hide Connect, BoundAddress;
    var body := s[6..6 + n];
    assert s[..6] == [5, 0, 5, 0, s[4], s[5]];
    assert s == s[..6] + body + s[6 + n..];
  }

  lemma BodyLength(s: seq<Byte>) returns (n: nat)
    requires Connect(s, [], 0).ok
    ensures |s| >= 6 + n && s[0] == 5 && s[1] == 0 && s[2] == 5 && s[3] == 0
    ensures BoundAddress(s[5], s[6..6 + n]) && forall host, port :: Connect(s, host, port).rest == s[6 + n..]
  {
    hide ConnectRequest;
    assert s[2..][4..] == s[6..];
    var l: nat := if s[5] == 3 then s[6] else 0;
    n := if s[5] == 1 then 6 else if s[5] == 4 then 18 else l + 3;
    forall host, port ensures Connect(s, host, port).rest == s[6 + n..] {
      assert s[6..][n..] == s[6 + n..];
      if s[5] == 3 {
        assert s[6..][1..][l + 2..] == s[6 + n..];
      }
    }
  }

  lemma ReplyTaken(reserved: Byte, kind: Byte, body: seq<Byte>, rest: seq<Byte>, host: seq<Byte>, port: int)
    requires BoundAddress(kind, body)
    ensures var r := Connect([5, 0, 5, 0, reserved, kind] + body + rest, host, port); r.ok && r.rest == rest
  {
    hide ConnectRequest;
    var s := [5, 0, 5, 0, reserved, kind] + body + rest;
    var t := s[2..];
    assert t[4..] == body + rest;
    if kind == 3 {
      assert t[4..][0] == body[0] && t[4..][1..] == body[1..] + rest;
      assert (body[1..] + rest)[|body| - 1..] == rest;
    } else {
      assert (body + rest)[|body|..] == rest;
    }
  }
}
