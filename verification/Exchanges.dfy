// The exchanges of RFC 1928 and RFC 1929, printed, and the handshake as the inverse of the printer.
module Exchanges {
  import opened Basics
  import opened Streams
  import opened Socks5

  datatype Credentials = Credentials(user: seq<Byte>, pass: seq<Byte>)

  datatype Exchange = Exchange(
    methods: seq<Byte>, credentials: Option<Credentials>, reserved: Byte, address: Address, port: nat)

  predicate FitsItsKind(a: Address) {
    match a case IPv4(bytes) => |bytes| == 4 case IPv6(bytes) => |bytes| == 16 case Domain(name) => 1 <= |name| <= 255
  }

  // Sections 3 to 5 of RFC 1928 and section 2 of RFC 1929. The client logs in when it offered to.
  predicate WellFormed(e: Exchange) {
    && 1 <= |e.methods| <= 255
    && (e.credentials.Some? <==> 2 in e.methods)
    && (e.credentials.Some? ==> 1 <= |e.credentials.value.user| <= 255 && |e.credentials.value.pass| <= 255)
    && FitsItsKind(e.address)
    && e.port < 0x1_0000
  }

  function PrintLogin(c: Option<Credentials>): seq<Byte>
    requires c.Some? ==> |c.value.user| <= 255 && |c.value.pass| <= 255
  {
    if c.None? then [] else [1, |c.value.user|] + c.value.user + [|c.value.pass|] + c.value.pass
  }

  function Kind(a: Address): Byte {
    match a case IPv4(_) => 1 case Domain(_) => 3 case IPv6(_) => 4
  }

  function PrintAddress(a: Address): seq<Byte>
    requires a.Domain? ==> |a.name| <= 255
  {
    match a case IPv4(bytes) => bytes case Domain(name) => [|name|] + name case IPv6(bytes) => bytes
  }

  function PrintRequest(reserved: Byte, a: Address, port: nat): seq<Byte>
    requires a.Domain? ==> |a.name| <= 255
  {
    [5, 1, reserved, Kind(a)] + (PrintAddress(a) + BigEndian(port))
  }

  function Print(e: Exchange): seq<Byte>
    requires WellFormed(e)
  {
    [5, |e.methods|] + e.methods + PrintLogin(e.credentials) + PrintRequest(e.reserved, e.address, e.port)
  }

  function Answers(e: Exchange): seq<Byte> {
    if e.credentials.Some? then [5, 2, 1, 0] else [5, 0]
  }

  lemma ParseAddressPrinted(kind: Byte, bytes: seq<Byte>, port: nat, rest: seq<Byte>)
    requires port < 0x1_0000
    ensures ParseAddress(bytes + (BigEndian(port) + rest), kind, |bytes|) == Run(Target(AddressOf(kind, bytes), port), rest, [])
  {
    var tail := BigEndian(port) + rest;
    var s := bytes + tail;
    assert s[..|bytes|] == bytes;
    assert s[|bytes| + 2..] == tail[2..] == rest;
    assert s[|bytes|] == tail[0] && s[|bytes| + 1] == tail[1];
  }

  lemma ParseTypedPrinted(a: Address, port: nat, rest: seq<Byte>)
    requires FitsItsKind(a) && port < 0x1_0000
    ensures ParseTyped(PrintAddress(a) + (BigEndian(port) + rest), Kind(a)) == Run(Target(a, port), rest, [])
  {
    hide ParseAddress, BigEndian;
    var tail := BigEndian(port) + rest;
    if a.Domain? {
      ParseAddressPrinted(3, a.name, port, rest);
      assert PrintAddress(a) + tail == [|a.name|] + (a.name + tail);
    } else {
      ParseAddressPrinted(Kind(a), a.bytes, port, rest);
    }
  }

  lemma Regroup(a: seq<Byte>, b: seq<Byte>, c: seq<Byte>, d: seq<Byte>)
    ensures (a + (b + c)) + d == a + (b + (c + d))
  {
  }

  lemma ParseHeaderPrinted(reserved: Byte, kind: Byte, body: seq<Byte>)
    ensures ParseRequest([5, 1, reserved, kind] + body) == ParseTyped(body, kind)
  {
    hide ParseTyped;
    assert ([5, 1, reserved, kind] + body)[4..] == body;
  }

  lemma ParseRequestPrinted(reserved: Byte, a: Address, port: nat, rest: seq<Byte>)
    requires FitsItsKind(a) && port < 0x1_0000
    ensures ParseRequest(PrintRequest(reserved, a, port) + rest) == Run(Target(a, port), rest, [])
  {
    ParseTypedPrinted(a, port, rest);
    hide PrintAddress, BigEndian, ParseTyped, ParseRequest;
    ParseHeaderPrinted(reserved, Kind(a), PrintAddress(a) + (BigEndian(port) + rest));
    Regroup([5, 1, reserved, Kind(a)], PrintAddress(a), BigEndian(port), rest);
  }

  lemma ParseLoginPrinted(c: Credentials, tail: seq<Byte>)
    requires 1 <= |c.user| <= 255 && |c.pass| <= 255
    ensures ParseLogin(PrintLogin(Some(c)) + tail) == Sending(GRANTED, ParseRequest(tail))
  {
    hide ParseRequest;
    var s := PrintLogin(Some(c)) + tail;
    assert s[2..] == c.user + [|c.pass|] + c.pass + tail;
    assert s[2..][|c.user| + 1..] == c.pass + tail;
    assert (c.pass + tail)[|c.pass|..] == tail;
  }

  // What the method list decides.
  function ParseChosen(methods: seq<Byte>, tail: seq<Byte>): Run {
    if 2 in methods then Sending(PASSWORD, ParseLogin(tail)) else Sending(NO_AUTH, ParseRequest(tail))
  }

  lemma ParseGreetingPrinted(methods: seq<Byte>, tail: seq<Byte>)
    requires 1 <= |methods| <= 255
    ensures Parse([5, |methods|] + (methods + tail)) == ParseChosen(methods, tail)
  {
    hide ParseRequest, ParseLogin;
    var s := [5, |methods|] + (methods + tail);
    assert s[2..] == methods + tail;
    assert (methods + tail)[..|methods|] == methods;
    assert (methods + tail)[|methods|..] == tail;
  }

  // Every well-formed exchange is understood, and exactly its bytes are consumed.
  lemma ParsePrinted(e: Exchange, rest: seq<Byte>)
    requires WellFormed(e)
    ensures Parse(Print(e) + rest) == Run(Target(e.address, e.port), rest, Answers(e))
  {
    hide Parse, ParseRequest, ParseLogin, PrintRequest;
    var request := PrintRequest(e.reserved, e.address, e.port);
    var tail := PrintLogin(e.credentials) + (request + rest);
    ParseRequestPrinted(e.reserved, e.address, e.port, rest);
    if e.credentials.Some? {
      ParseLoginPrinted(e.credentials.value, request + rest);
    } else {
      assert tail == request + rest;
    }
    ParseGreetingPrinted(e.methods, tail);
    hide PrintLogin;
    assert Print(e) + rest == [5, |e.methods|] + (e.methods + tail);
  }

  lemma AddressUnderstood(s: seq<Byte>, kind: Byte, n: nat)
    requires ParseAddress(s, kind, n).outcome.Target?
    ensures var r := ParseAddress(s, kind, n);
            && n <= |s| && r.outcome.address == AddressOf(kind, s[..n]) && r.outcome.port < 0x1_0000
            && s == s[..n] + (BigEndian(r.outcome.port) + r.rest)
  {
    var r := ParseAddress(s, kind, n);
    assert BigEndian(r.outcome.port) == [s[n], s[n + 1]];
  }

  lemma TypedUnderstood(s: seq<Byte>, kind: Byte)
    requires ParseTyped(s, kind).outcome.Target?
    ensures var r := ParseTyped(s, kind);
            && FitsItsKind(r.outcome.address) && r.outcome.port < 0x1_0000 && Kind(r.outcome.address) == kind
            && s == PrintAddress(r.outcome.address) + (BigEndian(r.outcome.port) + r.rest)
  {
    hide ParseAddress, BigEndian;
    var r := ParseTyped(s, kind);
    if kind == 3 {
      AddressUnderstood(s[1..], 3, s[0]);
      assert s == [s[0]] + s[1..];
      assert r == ParseAddress(s[1..], 3, s[0]);
      var tail := BigEndian(r.outcome.port) + r.rest;
      assert [s[0]] + (s[1..][..s[0]] + tail) == ([s[0]] + s[1..][..s[0]]) + tail;
    } else {
      AddressUnderstood(s, kind, if kind == 1 then 4 else 16);
    }
  }

  lemma RequestUnderstood(s: seq<Byte>) returns (reserved: Byte)
    requires ParseRequest(s).outcome.Target?
    ensures var r := ParseRequest(s);
            && FitsItsKind(r.outcome.address) && r.outcome.port < 0x1_0000
            && s == PrintRequest(reserved, r.outcome.address, r.outcome.port) + r.rest
  {
    hide ParseTyped, PrintAddress, BigEndian;
    var r := ParseRequest(s);
    reserved := s[2];
    TypedUnderstood(s[4..], s[3]);
    assert s == [5, 1, s[2], s[3]] + s[4..];
    var body, port := PrintAddress(r.outcome.address), BigEndian(r.outcome.port);
    Regroup([5, 1, s[2], s[3]], body, port, r.rest);
  }

  lemma CredentialsUnderstood(s: seq<Byte>, ulen: nat) returns (c: Credentials, tail: seq<Byte>)
    requires ulen <= 255 && (ParseCredentials(s, ulen).outcome.Target? || ParseCredentials(s, ulen).sent != [])
    ensures |c.user| == ulen && |c.pass| <= 255 && s == c.user + ([|c.pass|] + (c.pass + tail))
    ensures ParseCredentials(s, ulen) == Sending(GRANTED, ParseRequest(tail))
  {
    hide ParseRequest;
    var plen: nat := s[ulen];
    var t := s[ulen + 1..];
    c, tail := Credentials(s[..ulen], t[..plen]), t[plen..];
    assert t == c.pass + tail;
    assert s == s[..ulen] + ([s[ulen]] + t);
  }

  lemma LoginUnderstood(s: seq<Byte>) returns (c: Credentials, tail: seq<Byte>)
    requires ParseLogin(s).outcome.Target?
    ensures 1 <= |c.user| <= 255 && |c.pass| <= 255 && s == PrintLogin(Some(c)) + tail
    ensures ParseLogin(s) == Sending(GRANTED, ParseRequest(tail))
  {
    hide ParseRequest, ParseCredentials;
    c, tail := CredentialsUnderstood(s[2..], s[1]);
    assert s == [1, s[1]] + s[2..];
    assert PrintLogin(Some(c)) + tail == [1, s[1]] + (c.user + ([|c.pass|] + (c.pass + tail)));
  }

  lemma GreetingUnderstood(s: seq<Byte>) returns (methods: seq<Byte>, tail: seq<Byte>)
    requires Parse(s).outcome.Target?
    ensures 1 <= |methods| <= 255 && s == [5, |methods|] + (methods + tail) && Parse(s) == ParseChosen(methods, tail)
  {
    hide ParseRequest, ParseLogin;
    methods, tail := s[2..][..s[1]], s[2..][s[1]..];
    assert s[2..] == methods + tail;
    assert s == [5, s[1]] + s[2..];
  }

  lemma NoLogin()
    ensures PrintLogin(None) == []
  {
  }

  lemma Understood(s: seq<Byte>) returns (e: Exchange)
    requires Parse(s).outcome.Target?
    ensures WellFormed(e) && Parse(s).outcome == Target(e.address, e.port) && s == Print(e) + Parse(s).rest
  {
    hide Parse, ParseRequest, ParseLogin, PrintRequest, PrintLogin;
    var methods, tail := GreetingUnderstood(s);
    var credentials, login: seq<Byte> := None, [];
    var request := tail;
    if 2 in methods {
      var c;
      c, request := LoginUnderstood(tail);
      credentials, login := Some(c), PrintLogin(Some(c));
    } else {
      NoLogin();
      assert tail == login + request;
    }
    var reserved := RequestUnderstood(request);
    var r := Parse(s);
    e := Exchange(methods, credentials, reserved, r.outcome.address, r.outcome.port);
    assert Print(e) + r.rest == [5, |methods|] + (methods + (login + (PrintRequest(reserved, e.address, e.port) + r.rest)));
  }

  // The handshake ends with a target if and only if the bytes it consumed are a well-formed exchange for
  // that target.
  lemma AcceptsExactly(s: seq<Byte>, address: Address, port: nat, rest: seq<Byte>)
    ensures (Parse(s).outcome == Target(address, port) && Parse(s).rest == rest)
       <==> exists e :: WellFormed(e) && e.address == address && e.port == port && s == Print(e) + rest
  {
    hide Parse, Print;
    if Parse(s).outcome == Target(address, port) && Parse(s).rest == rest {
      var e := Understood(s);
    }
    if e :| WellFormed(e) && e.address == address && e.port == port && s == Print(e) + rest {
      ParsePrinted(e, rest);
    }
  }

  // The server answers as it reads: more input only adds to what it has written.
  lemma AnswersGrow(s: seq<Byte>, t: seq<Byte>)
    ensures Parse(s).sent <= Parse(s + t).sent
  {
    if |s| >= 2 && s[0] == 5 && s[1] >= 1 {
      var n: nat := s[1];
      assert (s + t)[2..] == s[2..] + t;
      if |s[2..]| >= n {
        assert (s[2..] + t)[..n] == s[2..][..n];
        assert (s[2..] + t)[n..] == s[2..][n..] + t;
        LoginGrows(s[2..][n..], t);
        RequestGrows(s[2..][n..], t);
        hide ParseLogin, ParseRequest;
      }
    }
  }

  lemma RequestGrows(s: seq<Byte>, t: seq<Byte>)
    ensures ParseRequest(s).sent <= ParseRequest(s + t).sent
  {
    if |s| >= 4 {
      assert (s + t)[..4] == s[..4];
      assert forall i | 0 <= i < 4 :: (s + t)[i] == s[i];
    }
  }

  lemma LoginGrows(s: seq<Byte>, t: seq<Byte>)
    ensures ParseLogin(s).sent <= ParseLogin(s + t).sent
  {
    var ulen: nat := if |s| >= 2 then s[1] else 0;
    if |s| >= 2 && |s[2..]| >= ulen + 1 {
      var u := s[2..];
      assert (s + t)[2..] == u + t;
      assert (u + t)[ulen + 1..] == u[ulen + 1..] + t;
      var v := u[ulen + 1..];
      var plen: nat := u[ulen];
      if |v| >= plen {
        assert (v + t)[plen..] == v[plen..] + t;
        RequestGrows(v[plen..], t);
        hide ParseRequest;
      }
    }
  }

  // Section 3 of RFC 1928 has the server select one of the methods offered, or refuse with 255. This one
  // selects a method that was offered if and only if the client offered no authentication or a password.
  lemma SelectsAnOfferedMethod(methods: seq<Byte>, tail: seq<Byte>)
    requires 1 <= |methods| <= 255
    ensures var sent := Parse([5, |methods|] + methods + tail).sent;
            |sent| >= 2 && sent[0] == 5 && (sent[1] in methods <==> 0 in methods || 2 in methods)
  {
    assert [5, |methods|] + methods + tail == [5, |methods|] + (methods + tail);
    ParseGreetingPrinted(methods, tail);
    hide Parse, ParseRequest, ParseLogin;
  }

  // --- What is refused, and how ----------------------------------------------------------------------------

  // Nothing is written until a whole greeting of version 5 with some method is read.
  lemma SilentExactly(s: seq<Byte>)
    ensures Parse(s).sent == [] <==> !(exists methods, tail :: 1 <= |methods| <= 255 && s == [5, |methods|] + (methods + tail))
    ensures |s| >= 2 && s[0] != 5 ==> Parse(s) == Run(Refused(BadVersion), s[2..], [])
    ensures |s| >= 2 && s[0] == 5 && s[1] == 0 ==> Parse(s) == Run(Refused(NoMethods), s[2..], [])
  {
    hide ParseLogin, ParseRequest;
    if Parse(s).sent != [] {
      var methods, tail := s[2..][..s[1]], s[2..][s[1]..];
      assert s == [5, |methods|] + (methods + tail);
    }
    if methods, tail :| 1 <= |methods| <= 255 && s == [5, |methods|] + (methods + tail) {
      ParseGreetingPrinted(methods, tail);
    }
  }

  predicate Usable(c: Credentials) {
    1 <= |c.user| <= 255 && |c.pass| <= 255
  }

  // Any login with a user name is granted, and nothing else is.
  lemma GrantedExactly(tail: seq<Byte>)
    ensures [1, 0] <= ParseLogin(tail).sent <==> exists c, rest :: Usable(c) && tail == PrintLogin(Some(c)) + rest
    ensures ParseLogin(tail).sent == [] || [1, 0] <= ParseLogin(tail).sent
    ensures |tail| >= 2 && tail[0] != 1 ==> ParseLogin(tail) == Run(Refused(BadAuthVersion), tail[2..], [])
    ensures |tail| >= 2 && tail[0] == 1 && tail[1] == 0 ==> ParseLogin(tail) == Run(Refused(NoUsername), tail[2..], [])
  {
    if ParseLogin(tail).sent != [] {
      var c, rest := LoginRead(tail);
    }
    if c, rest :| Usable(c) && tail == PrintLogin(Some(c)) + rest {
      ParseLoginPrinted(c, rest);
    }
    hide ParseRequest;
  }

  lemma LoginRead(tail: seq<Byte>) returns (c: Credentials, rest: seq<Byte>)
    requires ParseLogin(tail).sent != []
    ensures Usable(c) && tail == PrintLogin(Some(c)) + rest
  {
    hide ParseRequest, ParseCredentials;
    c, rest := CredentialsUnderstood(tail[2..], tail[1]);
    LoginInParts(c, rest);
    hide ParseLogin, PrintLogin;
    assert tail == [1, tail[1]] + tail[2..];
  }

  lemma LoginInParts(c: Credentials, rest: seq<Byte>)
    requires |c.user| <= 255 && |c.pass| <= 255
    ensures PrintLogin(Some(c)) + rest == [1, |c.user|] + (c.user + ([|c.pass|] + (c.pass + rest)))
  {
  }

  // What is written to a request that is not understood: 7 for a command that is not CONNECT, 8 for an address
  // of another type, and nothing otherwise.
  function Complaint(request: seq<Byte>): seq<Byte> {
    if |request| < 4 || request[0] != 5 then []
    else if request[1] != 1 then [5, 7, 0, 1, 0, 0, 0, 0, 0, 0]
    else if request[3] == 1 || request[3] == 3 || request[3] == 4 then []
    else [5, 8, 0, 1, 0, 0, 0, 0, 0, 0]
  }

  lemma Complains(request: seq<Byte>)
    ensures ParseRequest(request).sent == Complaint(request)
    ensures |request| >= 4 && request[0] != 5 ==> ParseRequest(request).outcome == Refused(BadRequest)
    ensures |request| >= 4 && request[0] == 5 && request[1] != 1 ==> ParseRequest(request).outcome == Refused(BadCommand)
    ensures |request| >= 4 && request[0] == 5 && request[1] == 1 && request[3] !in {1, 3, 4} ==>
              ParseRequest(request).outcome == Refused(BadAddressType)
    ensures |request| >= 5 && request[0] == 5 && request[1] == 1 && request[3] == 3 && request[4] == 0 ==>
              ParseRequest(request).outcome == Refused(EmptyDomain)
  {
    assert |request| >= 5 ==> request[4..][0] == request[4];
  }

  lemma RequestReached(methods: seq<Byte>, c: Option<Credentials>, request: seq<Byte>)
    requires 1 <= |methods| <= 255 && (c.Some? <==> 2 in methods) && (c.Some? ==> Usable(c.value))
    ensures Parse([5, |methods|] + (methods + (PrintLogin(c) + request)))
         == Sending(if c.Some? then [5, 2, 1, 0] else [5, 0], ParseRequest(request))
  {
    var tail := PrintLogin(c) + request;
    ParseGreetingPrinted(methods, tail);
    if c.Some? {
      ParseLoginPrinted(c.value, request);
    } else {
      assert tail == request;
    }
    hide Parse, ParseLogin, ParseRequest, PrintLogin;
    var r := ParseRequest(request);
    assert [5, 2] + ([1, 0] + r.sent) == [5, 2, 1, 0] + r.sent;
  }

  lemma Served(s: seq<Byte>, dialled: bool)
    ensures Serve(s, dialled) == Parse(s).(sent := Parse(s).sent
              + if Parse(s).outcome.Refused? then [] else if dialled then [5, 0, 0, 1, 0, 0, 0, 0, 0, 0] else [5, 4, 0, 1, 0, 0, 0, 0, 0, 0])
  {
    hide Parse;
  }

  // Everything the server writes to a client that offers methods and, if asked to, logs in: its choice, the
  // grant, and the complaint about the request or the outcome of the dial.
  lemma WritesExactly(methods: seq<Byte>, c: Option<Credentials>, request: seq<Byte>, dialled: bool)
    requires 1 <= |methods| <= 255 && (c.Some? <==> 2 in methods) && (c.Some? ==> Usable(c.value))
    ensures var r := Serve([5, |methods|] + (methods + (PrintLogin(c) + request)), dialled);
            r.sent == (if c.Some? then [5, 2, 1, 0] else [5, 0])
                      + if r.outcome.Refused? then Complaint(request)
                        else if dialled then [5, 0, 0, 1, 0, 0, 0, 0, 0, 0] else [5, 4, 0, 1, 0, 0, 0, 0, 0, 0]
  {
    RequestReached(methods, c, request);
    Served([5, |methods|] + (methods + (PrintLogin(c) + request)), dialled);
    Complains(request);
    TargetIsQuiet(request);
    hide Parse, Serve, ParseRequest, Complaint, PrintLogin;
  }

  lemma TargetIsQuiet(request: seq<Byte>)
    ensures ParseRequest(request).outcome.Target? ==> ParseRequest(request).sent == []
  {
  }
}
