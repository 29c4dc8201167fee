// internal/socks5: the server side of the handshake, reading through one shared buffer, against a
// parser of byte sequences.
module Socks5 {
  import opened Streams

  datatype Address = IPv4(bytes: seq<Byte>) | Domain(name: seq<Byte>) | IPv6(bytes: seq<Byte>)

  datatype Error =
    | Closed | BadVersion | NoMethods | BadAuthVersion | NoUsername
    | BadRequest | BadCommand | BadAddressType | EmptyDomain

  datatype Outcome = Target(address: Address, port: nat) | Refused(error: Error)

  // What came of a handshake: the result, the bytes left unread and the bytes written.
  datatype Run = Run(outcome: Outcome, rest: seq<Byte>, sent: seq<Byte>)

  const NO_AUTH: seq<Byte> := [5, 0]
  const PASSWORD: seq<Byte> := [5, 2]
  const GRANTED: seq<Byte> := [1, 0]
  const BUFFER_SIZE := 262

  function Reply(code: Byte): seq<Byte> {
    [5, code, 0, 1, 0, 0, 0, 0, 0, 0]
  }

  // --- The parser ---------------------------------------------------------------------------------------

  function Sending(sent: seq<Byte>, r: Run): Run {
    r.(sent := sent + r.sent)
  }

  function Refuse(error: Error, rest: seq<Byte>): Run {
    Run(Refused(error), rest, [])
  }

  function Parse(s: seq<Byte>): Run {
    if |s| < 2 then Refuse(Closed, [])
    else if s[0] != 5 then Refuse(BadVersion, s[2..])
    else if s[1] < 1 then Refuse(NoMethods, s[2..])
    else ParseMethods(s[2..], s[1])
  }

  function ParseMethods(s: seq<Byte>, n: nat): Run {
    if |s| < n then Refuse(Closed, [])
    else if 2 in s[..n] then Sending(PASSWORD, ParseLogin(s[n..]))
    else Sending(NO_AUTH, ParseRequest(s[n..]))
  }

  function ParseLogin(s: seq<Byte>): Run {
    if |s| < 2 then Refuse(Closed, [])
    else if s[0] != 1 then Refuse(BadAuthVersion, s[2..])
    else if s[1] <= 0 then Refuse(NoUsername, s[2..])
    else ParseCredentials(s[2..], s[1])
  }

  function ParseCredentials(s: seq<Byte>, ulen: nat): Run {
    if |s| < ulen + 1 then Refuse(Closed, [])
    else ParsePassword(s[ulen + 1..], s[ulen])
  }

  function ParsePassword(s: seq<Byte>, plen: nat): Run {
    if |s| < plen then Refuse(Closed, []) else Sending(GRANTED, ParseRequest(s[plen..]))
  }

  function ParseRequest(s: seq<Byte>): Run {
    if |s| < 4 then Refuse(Closed, [])
    else if s[0] != 5 then Refuse(BadRequest, s[4..])
    else if s[1] != 1 then Sending(Reply(7), Refuse(BadCommand, s[4..]))
    else ParseTyped(s[4..], s[3])
  }

  function ParseTyped(s: seq<Byte>, kind: Byte): Run {
    if kind == 1 then ParseAddress(s, 1, 4)
    else if kind == 4 then ParseAddress(s, 4, 16)
    else if kind == 3 then ParseDomain(s)
    else Sending(Reply(8), Refuse(BadAddressType, s))
  }

  function ParseDomain(s: seq<Byte>): Run {
    if |s| < 1 then Refuse(Closed, [])
    else if s[0] <= 0 then Refuse(EmptyDomain, s[1..])
    else ParseAddress(s[1..], 3, s[0])
  }

  function AddressOf(kind: Byte, bytes: seq<Byte>): Address {
    if kind == 1 then IPv4(bytes) else if kind == 4 then IPv6(bytes) else Domain(bytes)
  }

  function ParseAddress(s: seq<Byte>, kind: Byte, n: nat): Run {
    if |s| < n + 2 then Refuse(Closed, [])
    else Run(Target(AddressOf(kind, s[..n]), Word(s[n], s[n + 1])), s[n + 2..], [])
  }

  // --- The server -----------------------------------------------------------------------------------------

  method WantsAuth(buf: array<Byte>, n: nat) returns (wantsAuth: bool)
    requires n <= buf.Length
    ensures wantsAuth <==> 2 in buf[..n]
  {
    wantsAuth := false;
    var i := 0;
    while i < n
      invariant i <= n
      invariant !wantsAuth && 2 !in buf[..i]
    {
      if buf[i] == 2 {
        wantsAuth := true;
        assert buf[..n][i] == 2;
        break;
      }
      i := i + 1;
    }
  }

  // The handshake reads every part into one 262-byte buffer, never past its end, and does what the parser
  // does, however its input is fragmented.
  method Handshake(c: Conn) returns (outcome: Outcome)
    modifies c
    ensures Run(outcome, c.input, c.output) == Sending(old(c.output), Parse(old(c.input)))
  {
    hide ParseMethods;
    var buf := new Byte[BUFFER_SIZE];
    var ok := c.ReadFull(buf, 2);
    if !ok {
      return Refused(Closed);
    }
    assert buf[0] == buf[..2][0] && buf[1] == buf[..2][1];
    if buf[0] != 5 {
      return Refused(BadVersion);
    }
    var nmethods := buf[1];
    if nmethods < 1 || nmethods > 255 {
      return Refused(NoMethods);
    }
    outcome := Negotiate(c, buf, nmethods);
  }

  method Negotiate(c: Conn, buf: array<Byte>, nmethods: nat) returns (outcome: Outcome)
    requires buf.Length == BUFFER_SIZE && nmethods <= 255
    modifies c, buf
    ensures Run(outcome, c.input, c.output) == Sending(old(c.output), ParseMethods(old(c.input), nmethods))
  {
    hide ParseRequest, ParseLogin;
    var ok := c.ReadFull(buf, nmethods);
    if !ok {
      return Refused(Closed);
    }
    var wantsAuth := WantsAuth(buf, nmethods);
    if wantsAuth {
      c.Write(PASSWORD);
      outcome := Login(c, buf);
    } else {
      c.Write(NO_AUTH);
      outcome := Request(c, buf);
    }
  }

  // The sub-negotiation of RFC 1929, and on to the request: any credentials will do.
  method Login(c: Conn, buf: array<Byte>) returns (outcome: Outcome)
    requires buf.Length == BUFFER_SIZE
    modifies c, buf
    ensures Run(outcome, c.input, c.output) == Sending(old(c.output), ParseLogin(old(c.input)))
  {
    hide ParseRequest;
    var ok := c.ReadFull(buf, 2);
    if !ok {
      return Refused(Closed);
    }
    assert buf[0] == buf[..2][0] && buf[1] == buf[..2][1];
    if buf[0] != 1 {
      return Refused(BadAuthVersion);
    }
    var ulen := buf[1];
    if ulen <= 0 || ulen > 255 {
      return Refused(NoUsername);
    }
    ok := c.ReadFull(buf, ulen);
    if !ok {
      return Refused(Closed);
    }
    ok := c.ReadFull(buf, 1);
    if !ok {
      return Refused(Closed);
    }
    assert buf[0] == buf[..1][0];
    var plen := buf[0];
    if plen > 0 {
      ok := c.ReadFull(buf, plen);
      if !ok {
        return Refused(Closed);
      }
    }
    c.Write(GRANTED);
    outcome := Request(c, buf);
  }

  method Request(c: Conn, buf: array<Byte>) returns (outcome: Outcome)
    requires buf.Length == BUFFER_SIZE
    modifies c, buf
    ensures Run(outcome, c.input, c.output) == Sending(old(c.output), ParseRequest(old(c.input)))
  {
    var ok := c.ReadFull(buf, 4);
    if !ok {
      return Refused(Closed);
    }
    assert forall i | 0 <= i < 4 :: buf[i] == buf[..4][i];
    if buf[0] != 5 {
      return Refused(BadRequest);
    }
    if buf[1] != 1 {
      c.Write(Reply(7));
      return Refused(BadCommand);
    }
    var address;
    var kind := buf[3];
    if kind == 1 {
      ok := c.ReadFull(buf, 4);
      if !ok {
        return Refused(Closed);
      }
      address := IPv4(buf[..4]);
    } else if kind == 3 {
      ok := c.ReadFull(buf, 1);
      if !ok {
        return Refused(Closed);
      }
      assert buf[0] == buf[..1][0];
      var l := buf[0];
      if l <= 0 {
        return Refused(EmptyDomain);
      }
      ok := c.ReadFull(buf, l);
      if !ok {
        return Refused(Closed);
      }
      address := Domain(buf[..l]);
    } else if kind == 4 {
      ok := c.ReadFull(buf, 16);
      if !ok {
        return Refused(Closed);
      }
      address := IPv6(buf[..16]);
    } else {
      c.Write(Reply(8));
      return Refused(BadAddressType);
    }
    ok := c.ReadFull(buf, 2);
    if !ok {
      return Refused(Closed);
    }
    assert buf[0] == buf[..2][0] && buf[1] == buf[..2][1];
    return Target(address, Word(buf[0], buf[1]));
  }

  // What the server writes for a request it could read, with the dialler's answer.
  function Serve(s: seq<Byte>, dialled: bool): Run {
    var r := Parse(s);
    if r.outcome.Refused? then r else r.(sent := r.sent + Reply(if dialled then 0 else 4))
  }

  method Handle(c: Conn, dialled: bool) returns (outcome: Outcome)
    modifies c
    ensures Run(outcome, c.input, c.output) == Sending(old(c.output), Serve(old(c.input), dialled))
  {
    hide Parse;
    outcome := Handshake(c);
    if outcome.Refused? {
      return;
    }
    if !dialled {
      c.Write(Reply(4));
    } else {
      c.Write(Reply(0));
    }
  }
}
