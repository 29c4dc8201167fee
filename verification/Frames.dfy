// internal/udpgw: the frames of the UDPGW stream, both ways.
module Frames {
  import opened Basics
  import opened Streams

  // Where a datagram was going. Other: an address that is not IPv4, of which only the port is sent.
  datatype Destination = Unknown | IPv4(ip: seq<Byte>, port: int) | Other(port: int)

  const HEADER := 11
  const MAX_FRAME := 8192
  const KEEPALIVE_CONID := 0xFFFF

  function AddressBytes(d: Destination): (bs: seq<Byte>)
    requires d.IPv4? ==> |d.ip| == 4
    ensures |bs| == 6
  {
    match d
    case Unknown => [0, 0, 0, 0, 0, 0]
    case IPv4(ip, port) => ip + BigEndian(port)
    case Other(port) => [0, 0, 0, 0] + BigEndian(port)
  }

  // The SEND frame: flags, conid, length, address, payload.
  function SendFrame(conid: nat, d: Destination, payload: seq<Byte>): seq<Byte>
    requires d.IPv4? ==> |d.ip| == 4
  {
    [1] + BigEndian(conid) + BigEndian(|payload|) + AddressBytes(d) + payload
  }

  lemma AddressAt(d: Destination)
    requires d.IPv4? ==> |d.ip| == 4
    ensures var bs := AddressBytes(d);
            && bs[..4] == (if d.IPv4? then d.ip else [0, 0, 0, 0])
            && (bs[4] as int) * 256 + bs[5]
               == (match d case Unknown => 0 case IPv4(_, port) => port % 0x1_0000 case Other(port) => port % 0x1_0000)
  {
    hide BigEndian;
  }

  // Where the fields are: a flag, then conid and length, both big endian, the address, its port, and the payload.
  lemma FrameLayout(conid: nat, d: Destination, payload: seq<Byte>)
    requires conid < 0x1_0000 && (d.IPv4? ==> |d.ip| == 4)
    ensures var f := SendFrame(conid, d, payload);
            && |f| == 11 + |payload| && f[0] == 1 && f[11..] == payload
            && (f[1] as int) * 256 + f[2] == conid && (f[3] as int) * 256 + f[4] == |payload| % 0x1_0000
            && f[5..9] == (if d.IPv4? then d.ip else [0, 0, 0, 0])
            && (f[9] as int) * 256 + f[10] == (match d case Unknown => 0 case IPv4(_, port) => port % 0x1_0000 case Other(port) => port % 0x1_0000)
  {
    var f, a, b := SendFrame(conid, d, payload), BigEndian(conid), BigEndian(|payload|);
    var head, address := [1] + a + b, AddressBytes(d);
    hide BigEndian;
    AddressAt(d);
    hide AddressBytes;
    assert f == head + (address + payload);
    assert head[1] == a[0] && head[2] == a[1] && head[3] == b[0] && head[4] == b[1];
    assert f[..5] == head && f[5..11] == address;
    assert f[5..9] == address[..4] && f[9] == address[4] && f[10] == address[5];
  }

  // A buffer of the right length holds the frame once each field is in its place.
  lemma FrameByField(f: seq<Byte>, conid: nat, d: Destination, payload: seq<Byte>)
    requires d.IPv4? ==> |d.ip| == 4
    requires |f| == HEADER + |payload| && f[0] == 1
    requires f[1] == BigEndian(conid)[0] && f[2] == BigEndian(conid)[1]
    requires f[3] == BigEndian(|payload|)[0] && f[4] == BigEndian(|payload|)[1]
    requires forall i | 0 <= i < 6 :: f[5 + i] == AddressBytes(d)[i]
    requires forall i | 0 <= i < |payload| :: f[HEADER + i] == payload[i]
    ensures f == SendFrame(conid, d, payload)
  {
    hide BigEndian, AddressBytes;
    var head := f[..5];
    assert head == [1] + BigEndian(conid) + BigEndian(|payload|);
    assert f[5..HEADER] == AddressBytes(d);
    assert f[HEADER..] == payload;
    assert f == f[..5] + f[5..HEADER] + f[HEADER..];
  }

  method PutUint16(a: array<Byte>, i: nat, x: int)
    requires i + 2 <= a.Length
    modifies a
    ensures a[i] == BigEndian(x)[0] && a[i + 1] == BigEndian(x)[1]
    ensures forall j | 0 <= j < a.Length && j != i && j != i + 1 :: a[j] == old(a[j])
  {
    a[i] := x / 256 % 256;
    a[i + 1] := x % 256;
  }

  method Copy(a: array<Byte>, i: nat, bytes: seq<Byte>)
    requires i + |bytes| <= a.Length
    modifies a
    ensures forall k | 0 <= k < |bytes| :: a[i + k] == bytes[k]
    ensures forall j | 0 <= j < a.Length && !(i <= j < i + |bytes|) :: a[j] == old(a[j])
  {
    var k := 0;
    while k < |bytes|
      invariant 0 <= k <= |bytes|
      invariant forall j | 0 <= j < k :: a[i + j] == bytes[j]
      invariant forall j | 0 <= j < a.Length && !(i <= j < i + k) :: a[j] == old(a[j])
    {
      a[i + k] := bytes[k];
      k := k + 1;
    }
  }

  method EncodeFrame(conid: nat, d: Destination, payload: seq<Byte>) returns (frame: array<Byte>)
    requires conid < 0x1_0000 && (d.IPv4? ==> |d.ip| == 4)
    ensures frame[..] == SendFrame(conid, d, payload)
  {
    hide BigEndian, SendFrame;
    frame := new Byte[HEADER + |payload|](_ => 0);
    frame[0] := 1;
    PutUint16(frame, 1, conid);
    PutUint16(frame, 3, |payload|);
    if d.IPv4? {
      Copy(frame, 5, d.ip);
      assert forall i | 0 <= i < 4 :: frame[5 + i] == d.ip[i];
    }
    if !d.Unknown? {
      PutUint16(frame, 9, d.port);
    }
    assert forall i | 0 <= i < 6 :: frame[5 + i] == AddressBytes(d)[i];
    Copy(frame, HEADER, payload);
    FrameByField(frame[..], conid, d, payload);
  }

  lemma KeepaliveFields()
    ensures BigEndian(KEEPALIVE_CONID) == [255, 255] && BigEndian(1) == [0, 1] && BigEndian(53) == [0, 53]
  {
    assert 0xFFFF / 256 == 255 && 0xFFFF % 256 == 255;
  }

  lemma KeepaliveIsAFrame(f: seq<Byte>)
    requires |f| == 12 && f[..5] == [1, 255, 255, 0, 1] && f[5..] == [1, 1, 1, 1, 0, 53, 0]
    ensures f == SendFrame(KEEPALIVE_CONID, IPv4([1, 1, 1, 1], 53), [0])
  {
    KeepaliveFields();
    hide BigEndian;
    assert f == [1, 255, 255, 0, 1] + [1, 1, 1, 1, 0, 53, 0];
  }

  // The frame of one zero byte to 1.1.1.1, port 53, written out by hand.
  method KeepaliveFrame() returns (frame: array<Byte>)
    ensures frame[..] == SendFrame(KEEPALIVE_CONID, IPv4([1, 1, 1, 1], 53), [0])
  {
    KeepaliveFields();
    hide SendFrame, BigEndian;
    frame := new Byte[12](_ => 0);
    frame[0] := 1;
    PutUint16(frame, 1, KEEPALIVE_CONID);
    PutUint16(frame, 3, 1);
    assert frame[..5] == [1, 255, 255, 0, 1];
    hide *;
    frame[5] := 1;
    frame[6] := 1;
    frame[7] := 1;
    frame[8] := 1;
    frame[9] := 0;
    frame[10] := 53;
    frame[11] := 0;
    assert frame[..5] == [1, 255, 255, 0, 1];
    assert frame[5..] == [1, 1, 1, 1, 0, 53, 0];
    KeepaliveIsAFrame(frame[..]);
  }

  // --- The documented SEND format ----------------------------------------------------------------------

  // A frame as the server reads it; without an address it goes where the conid went before.
  datatype Sent = Sent(conid: nat, address: Option<(seq<Byte>, nat)>, payload: seq<Byte>)

  datatype Decoded<+T> = Got(frame: T, rest: seq<Byte>) | Short | Bad

  function DecodeSend(s: seq<Byte>): Decoded<Sent> {
    if |s| < 5 then Short
    else if s[0] > 1 then Bad
    else
      var conid, n := Word(s[1], s[2]), Word(s[3], s[4]);
      if s[0] == 0 then DecodePayload(conid, None, s[5..], n)
      else if |s| < HEADER then Short
      else DecodePayload(conid, Some((s[5..9], Word(s[9], s[10]))), s[HEADER..], n)
  }

  function DecodePayload(conid: nat, address: Option<(seq<Byte>, nat)>, s: seq<Byte>, n: nat): Decoded<Sent> {
    if |s| < n then Short else Got(Sent(conid, address, s[..n]), s[n..])
  }

  function DecodeStream(s: seq<Byte>): Option<seq<Sent>> {
    if s == [] then Some([])
    else
      match DecodeSend(s)
      case Got(f, rest) =>
        if |rest| >= |s| then None
        else (match DecodeStream(rest) case Some(fs) => Some([f] + fs) case None => None)
      case _ => None
  }

  // What the forward loop hands to encodeFrame: a conid, an IPv4 destination and one datagram.
  datatype Outgoing = Outgoing(conid: nat, ip: seq<Byte>, port: int, payload: seq<Byte>)

  predicate Sendable(o: Outgoing) {
    o.conid < 0x1_0000 && |o.ip| == 4 && 0 <= o.port < 0x1_0000 && |o.payload| < 0x1_0000
  }

  type Datagram = o: Outgoing | Sendable(o) witness Outgoing(1, [0, 0, 0, 0], 0, [])

  function Encode(o: Outgoing): seq<Byte>
    requires |o.ip| == 4
  {
    SendFrame(o.conid, IPv4(o.ip, o.port), o.payload)
  }

  function EncodeAll(ds: seq<Datagram>): seq<Byte> {
    if ds == [] then [] else Encode(ds[0]) + EncodeAll(ds[1..])
  }

  function Meant(o: Outgoing): Sent
    requires 0 <= o.port
  {
    Sent(o.conid, Some((o.ip, o.port)), o.payload)
  }

  function MeantAll(ds: seq<Datagram>): seq<Sent> {
    if ds == [] then [] else [Meant(ds[0])] + MeantAll(ds[1..])
  }

  lemma FrameFields(o: Outgoing, rest: seq<Byte>)
    requires |o.ip| == 4
    ensures var s := Encode(o) + rest;
            && |Encode(o)| == HEADER + |o.payload| && s[0] == 1
            && Word(s[1], s[2]) == o.conid % 0x1_0000 && Word(s[3], s[4]) == |o.payload| % 0x1_0000
            && s[5..9] == o.ip && Word(s[9], s[10]) == o.port % 0x1_0000 && s[HEADER..] == o.payload + rest
  {
    var s := Encode(o) + rest;
    assert s[1] == BigEndian(o.conid)[0] && s[2] == BigEndian(o.conid)[1];
    assert s[3] == BigEndian(|o.payload|)[0] && s[4] == BigEndian(|o.payload|)[1];
    assert s[9] == BigEndian(o.port)[0] && s[10] == BigEndian(o.port)[1];
    hide BigEndian, Word;
  }

  lemma DecodeEncoded(o: Outgoing, rest: seq<Byte>)
    requires |o.ip| == 4
    ensures DecodeSend(Encode(o) + rest)
         == DecodePayload(o.conid % 0x1_0000, Some((o.ip, o.port % 0x1_0000)), o.payload + rest, |o.payload| % 0x1_0000)
  {
    FrameFields(o, rest);
    hide Encode, Word, DecodePayload;
  }

  lemma PayloadDecoded(conid: nat, address: Option<(seq<Byte>, nat)>, payload: seq<Byte>, rest: seq<Byte>)
    ensures var d := DecodePayload(conid, address, payload + rest, |payload| % 0x1_0000);
            if |payload| < 0x1_0000 then d == Got(Sent(conid, address, payload), rest)
            else d.Got? ==> d.frame.payload != payload
  {
    var n := |payload| % 0x1_0000;
    if |payload| < 0x1_0000 {
      assert n == |payload|;
      assert (payload + rest)[..n] == payload;
      assert (payload + rest)[n..] == rest;
    } else {
      assert n < |payload|;
    }
  }

  lemma Fields(o: Outgoing)
    requires 0 <= o.port && |o.ip| == 4
    ensures Sendable(o) <==> o.conid % 0x1_0000 == o.conid && o.port % 0x1_0000 == o.port && |o.payload| < 0x1_0000
  {
  }

  // The documented format takes a frame back to what was put in, and leaves what follows it, if and only
  // if conid, port and length fit their fields.
  lemma DecodesExactly(o: Outgoing, rest: seq<Byte>)
    requires |o.ip| == 4 && 0 <= o.port
    ensures DecodeSend(Encode(o) + rest) == Got(Meant(o), rest) <==> Sendable(o)
  {
    var conid, port := o.conid % 0x1_0000, o.port % 0x1_0000;
    DecodeEncoded(o, rest);
    PayloadDecoded(conid, Some((o.ip, port)), o.payload, rest);
    Fields(o);
    hide Encode, DecodeSend, DecodePayload, Sendable;
  }

  // A stream of frames decodes to the datagrams that were encoded, in order.
  lemma {:induction false} StreamDecodes(ds: seq<Datagram>)
    ensures DecodeStream(EncodeAll(ds)) == Some(MeantAll(ds))
  {
    if ds != [] {
      StreamDecodes(ds[1..]);
      DecodesExactly(ds[0], EncodeAll(ds[1..]));
      assert |Encode(ds[0])| > 0;
      hide DecodeSend, Encode;
    }
  }

  // --- The RECV format -----------------------------------------------------------------------------------

  datatype Reply = Reply(conid: nat, payload: seq<Byte>)

  type Answer = r: Reply | r.conid < 0x1_0000 && |r.payload| < 0x1_0000 witness Reply(0, [])

  predicate InRange(r: Answer) {
    1 <= |r.payload| <= MAX_FRAME
  }

  function RecvFrame(r: Answer): seq<Byte> {
    BigEndian(r.conid) + BigEndian(|r.payload|) + r.payload
  }

  function RecvAll(rs: seq<Answer>): seq<Byte> {
    if rs == [] then [] else RecvFrame(rs[0]) + RecvAll(rs[1..])
  }

  // One turn of the read loop: a length of 0, or above the buffer's size, is an error.
  function DecodeRecv(s: seq<Byte>): (d: Decoded<Answer>)
    ensures d.Got? ==> |d.rest| < |s|
  {
    if |s| < 4 then Short
    else
      var n := Word(s[2], s[3]);
      if n <= 0 || n > MAX_FRAME then Bad
      else if |s[4..]| < n then Short
      else
        var r: Answer := Reply(Word(s[0], s[1]), s[4..][..n]);
        Got(r, s[4..][n..])
  }

  // What the read loop made of a stream: the replies, and whether it stopped at an invalid length.
  datatype Reading = Reading(replies: seq<Answer>, rejected: bool)

  function Preceded(rs: seq<Answer>, r: Reading): Reading {
    r.(replies := rs + r.replies)
  }

  function ReadAll(s: seq<Byte>): Reading
    decreases |s|
  {
    var d := DecodeRecv(s);
    if d.Got? then Preceded([d.frame], ReadAll(d.rest)) else Reading([], d.Bad?)
  }

  // One turn of the loop over the shared buffer.
  method ReadFrame(c: Conn, buf: array<Byte>) returns (r: Option<Answer>, rejected: bool)
    requires buf.Length == MAX_FRAME
    modifies c`input, buf
    ensures var d := DecodeRecv(old(c.input));
            && (r.Some? <==> d.Got?) && (rejected <==> d.Bad?)
            && (r.Some? ==> r.value == d.frame && c.input == d.rest)
  {
    var ok := c.ReadFull(buf, 4);
    if !ok {
      return None, false;
    }
    assert forall i | 0 <= i < 4 :: buf[i] == buf[..4][i];
    var conid, datalen := Word(buf[0], buf[1]), Word(buf[2], buf[3]);
    if datalen <= 0 || datalen > MAX_FRAME {
      return None, true;
    }
    hide Word;
    ok := c.ReadFull(buf, datalen);
    if !ok {
      return None, false;
    }
    return Some(Reply(conid, buf[..datalen])), false;
  }

  method ReadLoop(c: Conn) returns (replies: seq<Answer>, rejected: bool)
    modifies c
    ensures Reading(replies, rejected) == ReadAll(old(c.input))
  {
    hide DecodeRecv;
    replies, rejected := [], false;
    var buf := new Byte[MAX_FRAME];
    var more := true;
    while more
      invariant more ==> Preceded(replies, ReadAll(c.input)) == ReadAll(old(c.input))
      invariant !more ==> Reading(replies, rejected) == ReadAll(old(c.input))
      decreases more, |c.input|
    {
      ghost var s := c.input;
      var r;
      r, rejected := ReadFrame(c, buf);
      if r.Some? {
        assert replies + ([r.value] + ReadAll(c.input).replies) == (replies + [r.value]) + ReadAll(c.input).replies;
        replies := replies + [r.value];
      } else {
        more := false;
        assert replies + [] == replies;
      }
    }
  }

  lemma RecvFields(r: Answer, rest: seq<Byte>)
    ensures var s := RecvFrame(r) + rest;
            && |s| >= 4 && Word(s[0], s[1]) == r.conid && Word(s[2], s[3]) == |r.payload| && s[4..] == r.payload + rest
  {
    var s := RecvFrame(r) + rest;
    assert s[0] == BigEndian(r.conid)[0] && s[1] == BigEndian(r.conid)[1];
    assert s[2] == BigEndian(|r.payload|)[0] && s[3] == BigEndian(|r.payload|)[1];
    hide BigEndian, Word;
  }

  // The layout of a reply: conid and length, both big endian, and the payload.
  lemma RecvLayout(r: Answer)
    ensures var f := RecvFrame(r);
            |f| == 4 + |r.payload| && (f[0] as int) * 256 + f[1] == r.conid && (f[2] as int) * 256 + f[3] == |r.payload| && f[4..] == r.payload
  {
    RecvFields(r, []);
    hide BigEndian;
    assert RecvFrame(r) + [] == RecvFrame(r) && r.payload + [] == r.payload;
  }

  lemma DecodeRecvFrame(r: Answer, rest: seq<Byte>)
    ensures DecodeRecv(RecvFrame(r) + rest) == if InRange(r) then Got(r, rest) else Bad
  {
    RecvFields(r, rest);
    hide RecvFrame, Word;
    assert (r.payload + rest)[..|r.payload|] == r.payload;
    assert (r.payload + rest)[|r.payload|..] == rest;
  }

  lemma ReadOne(r: Answer, rest: seq<Byte>)
    ensures ReadAll(RecvFrame(r) + rest) == if InRange(r) then Preceded([r], ReadAll(rest)) else Reading([], true)
  {
    DecodeRecvFrame(r, rest);
    hide DecodeRecv, RecvFrame, InRange;
  }

  function Readable(rs: seq<Answer>): seq<Answer> {
    if rs != [] && InRange(rs[0]) then [rs[0]] + Readable(rs[1..]) else []
  }

  // Whatever the server sends, the loop delivers exactly the replies before the first one that is empty or
  // too long, and stops there.
  lemma {:induction false} DeliversUpToFirstBad(rs: seq<Answer>)
    ensures ReadAll(RecvAll(rs)) == Reading(Readable(rs), Readable(rs) != rs)
  {
    if rs == [] {
    } else {
      hide DecodeRecv, RecvFrame, InRange;
      ReadOne(rs[0], RecvAll(rs[1..]));
      DeliversUpToFirstBad(rs[1..]);
      assert RecvAll(rs) == RecvFrame(rs[0]) + RecvAll(rs[1..]);
      assert rs == [rs[0]] + rs[1..];
      if !InRange(rs[0]) {
        assert Readable(rs) == [];
      } else {
        assert Readable(rs) == [rs[0]] + Readable(rs[1..]);
      }
    }
  }

  // Exactly the replies of a stream come out of it if and only if none is empty and none is longer than the
  // buffer.
  lemma {:induction false} DeliversAllExactly(rs: seq<Answer>)
    ensures ReadAll(RecvAll(rs)).replies == rs <==> forall r | r in rs :: 1 <= |r.payload| <= 8192
  {
    DeliversUpToFirstBad(rs);
    ReadableAll(rs);
    hide ReadAll, RecvAll, Readable;
  }

  lemma {:induction false} ReadableAll(rs: seq<Answer>)
    ensures Readable(rs) == rs <==> forall r | r in rs :: InRange(r)
  {
    hide InRange;
    if rs != [] {
      ReadableAll(rs[1..]);
      assert rs == [rs[0]] + rs[1..];
    }
  }

  lemma DecodedRecv(s: seq<Byte>)
    requires DecodeRecv(s).Got?
    ensures var d := DecodeRecv(s); InRange(d.frame) && s == RecvFrame(d.frame) + d.rest
  {
    var d := DecodeRecv(s);
    assert BigEndian(d.frame.conid) == [s[0], s[1]] && BigEndian(|d.frame.payload|) == [s[2], s[3]];
    hide BigEndian, Word;
    assert s == [s[0], s[1]] + [s[2], s[3]] + s[4..];
    assert s[4..] == d.frame.payload + d.rest;
  }

  // Conversely, what the loop delivers is in the stream: it starts with those frames, one after the other.
  lemma {:induction false} DeliversOnlyWhatIsThere(s: seq<Byte>)
    ensures forall r | r in ReadAll(s).replies :: InRange(r)
    ensures RecvAll(ReadAll(s).replies) <= s
    decreases |s|
  {
    var d := DecodeRecv(s);
    if d.Got? {
      DecodedRecv(s);
      DeliversOnlyWhatIsThere(d.rest);
      hide DecodeRecv, RecvFrame, InRange;
      var rs := ReadAll(d.rest).replies;
      assert ([d.frame] + rs)[1..] == rs;
      assert RecvFrame(d.frame) + RecvAll(rs) <= RecvFrame(d.frame) + d.rest;
    }
  }
}
