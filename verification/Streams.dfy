// A connection as two byte streams. A read returns any non-empty part of what is left to read, so
// whatever is proved of a reader holds for every fragmentation of its input.
module Streams {
  type Byte = b: int | 0 <= b < 256

  function Word(hi: Byte, lo: Byte): (w: nat)
    ensures w < 0x1_0000
  {
    hi * 256 + lo
  }

  // The two bytes of a uint16 conversion, most significant first.
  function BigEndian(x: int): (bs: seq<Byte>)
    ensures |bs| == 2 && Word(bs[0], bs[1]) == x % 0x1_0000
  {
    [x / 256 % 256, x % 256]
  }

  class Conn {
    var input: seq<Byte>    // what the peer sends before the stream ends, and is not read yet
    var output: seq<Byte>   // what was written

    constructor (input: seq<Byte>)
      ensures this.input == input && output == []
    {
      this.input, output := input, [];
    }

    // One Read into buf[lo..hi]. The result is 0 only at the end of the stream.
    method Read(buf: array<Byte>, lo: nat, hi: nat) returns (n: nat)
      requires lo < hi <= buf.Length
      modifies this`input, buf
      ensures n <= hi - lo && n <= |old(input)|
      ensures n == 0 <==> old(input) == []
      ensures input == old(input)[n..]
      ensures buf[..lo] == old(buf[..lo])
      ensures buf[lo..lo + n] == old(input)[..n]
    {
      if input == [] {
        return 0;
      }
      n :| 1 <= n <= hi - lo && n <= |input|;
      var i := 0;
      while i < n
        invariant 0 <= i <= n
        invariant input == old(input)
        invariant buf[..lo] == old(buf[..lo])
        invariant buf[lo..lo + i] == input[..i]
      {
        buf[lo + i] := input[i];
        i := i + 1;
      }
      input := input[n..];
    }

    // io.ReadFull on buf[..n].
    method ReadFull(buf: array<Byte>, n: nat) returns (ok: bool)
      requires n <= buf.Length
      modifies this`input, buf
      ensures ok <==> n <= |old(input)|
      ensures ok ==> input == old(input)[n..] && buf[..n] == old(input)[..n]
      ensures !ok ==> input == []
    {
      var got := 0;
      while got < n
        invariant got <= n && got <= |old(input)|
        invariant input == old(input)[got..]
        invariant buf[..got] == old(input)[..got]
      {
        var k := Read(buf, got, n);
        if k == 0 {
          return false;
        }
        assert buf[..got + k] == buf[..got] + buf[got..got + k];
        got := got + k;
      }
      return true;
    }

    method Write(bytes: seq<Byte>)
      modifies this`output
      ensures output == old(output) + bytes
    {
      output := output + bytes;
    }
  }
}
