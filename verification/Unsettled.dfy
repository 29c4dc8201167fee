// Where the order of the replacements in RenderPayload matters: a template that is not settled has a profile
// and two orders of the keys with different results.
module Unsettled {
  import opened Basics
  import opened Payload

  // --- Counting ----------------------------------------------------------------------------------------------

  function Count(s: string, c: char): nat {
    if s == [] then 0 else (if s[0] == c then 1 else 0) + Count(s[1..], c)
  }

  // The number of places where k is written.
  function Places(s: string, k: Key): nat {
    if s == [] then 0 else (if Text(k) <= s then 1 else 0) + Places(s[1..], k)
  }

  lemma {:induction false} CountConcat(x: string, s: string, c: char)
    ensures Count(x + s, c) == Count(x, c) + Count(s, c)
  {
    if x == [] {
      assert x + s == s;
    } else {
      assert (x + s)[1..] == x[1..] + s;
      CountConcat(x[1..], s, c);
    }
  }

  lemma {:induction false} CountNone(x: string, c: char)
    requires c !in x
    ensures Count(x, c) == 0
  {
    if x != [] {
      CountNone(x[1..], c);
    }
  }

  lemma {:induction false} PlacesSkip(x: string, s: string, k: Key)
    requires '[' !in x
    ensures Places(x + s, k) == Places(s, k)
  {
    TextShape(k);
    hide Text;
    if x == [] {
      assert x + s == s;
    } else {
      assert (x + s)[1..] == x[1..] + s;
      assert (x + s)[0] != '[';
      PlacesSkip(x[1..], s, k);
    }
  }

  lemma PlacesAfter(next: Key, s: string, k: Key)
    ensures Places(Text(next) + s, k) == (if next == k then 1 else 0) + Places(s, k)
  {
    TextShape(next);
    hide Text;
    var y := Text(next);
    assert y <= y + s;
    if Text(k) <= y + s {
      PrefixFree(y + s, k, next);
    }
    assert (y + s)[1..] == y[1..] + s;
    PlacesSkip(y[1..], s, k);
  }

  // A replacement changes a count by the same number for every place.
  lemma {:induction false} CountReplaced(s: string, k: Key, p: Settings, c: char)
    ensures Count(Replaced(s, k, p), c) == Count(s, c) + Places(s, k) * (Count(Value(p, k), c) - Count(Text(k), c))
    decreases |s|
  {
    TextShape(k);
    var x, v := Text(k), Value(p, k);
    hide Text, Value;
    if s == [] {
    } else if x <= s {
      var rest := s[|x|..];
      assert s == x + rest;
      CountReplaced(rest, k, p, c);
      CountConcat(v, Replaced(rest, k, p), c);
      CountConcat(x, rest, c);
      PlacesAfter(k, rest, k);
      Distribute(Places(rest, k), Count(v, c) - Count(x, c));
      hide Count, Places;
    } else {
      CountReplaced(s[1..], k, p, c);
      assert Replaced(s, k, p) == [s[0]] + Replaced(s[1..], k, p);
    }
  }

  lemma Distribute(n: nat, d: int)
    ensures (1 + n) * d == d + n * d
  {
  }

  lemma PlacesOne(c: char, s: string, k: Key)
    ensures Places([c] + s, k) == (if Text(k) <= [c] + s then 1 else 0) + Places(s, k)
  {
    hide Text;
    assert ([c] + s)[1..] == s;
  }

  lemma ReplacedHere(s: string, k: Key, p: Settings)
    requires Text(k) <= s
    ensures s == Text(k) + s[|Text(k)|..] && Replaced(s, k, p) == Value(p, k) + Replaced(s[|Text(k)|..], k, p)
  {
    TextShape(k);
    hide Text, Value;
  }

  lemma ReplacedNext(s: string, k: Key, p: Settings)
    requires s != [] && !(Text(k) <= s)
    ensures s == [s[0]] + s[1..] && Replaced(s, k, p) == [s[0]] + Replaced(s[1..], k, p)
  {
    hide Text, Value;
  }

  // A replacement leaves the places of the other placeholders.
  lemma {:induction false} PlacesStay(s: string, f: Key, v: Key, p: Settings)
    requires f != v && BracketFree(p)
    ensures Places(Replaced(s, f, p), v) >= Places(s, v)
    decreases |s|
  {
    TextShape(f);
    if s != [] {
      hide Text, Value, Replaced, Places;
      if Text(f) <= s {
        var rest := s[|Text(f)|..];
        ReplacedHere(s, f, p);
        PlacesStay(rest, f, v, p);
        PlacesAfter(f, rest, v);
        ValueShape(p, f);
        PlacesSkip(Value(p, f), Replaced(rest, f, p), v);
      } else {
        PlacesStay(s[1..], f, v, p);
        HeadStays(s, f, v, p);
        ReplacedNext(s, f, p);
        PlacesOne(s[0], s[1..], v);
        PlacesOne(s[0], Replaced(s[1..], f, p), v);
      }
    }
  }

  lemma HeadStays(s: string, f: Key, v: Key, p: Settings)
    requires f != v
    ensures Text(v) <= s ==> Text(v) <= Replaced(s, f, p)
  {
    hide Text, Value, ReplaceAll;
    if Text(v) <= s {
      assert s == Text(v) + s[|Text(v)|..];
      ReplaceOther(v, s[|Text(v)|..], f, Value(p, f));
    }
  }

  // --- Pieces of a template ---------------------------------------------------------------------------------

  predicate Within(w: string, s: string) {
    w <= s || (s != [] && Within(w, s[1..]))
  }

  lemma {:induction false} WithinRight(w: string, x: string, s: string)
    requires Within(w, s)
    ensures Within(w, x + s)
  {
    if x == [] {
      assert x + s == s;
    } else {
      assert (x + s)[1..] == x[1..] + s;
      WithinRight(w, x[1..], s);
    }
  }

  lemma {:induction false} WithinSkip(w: string, x: string, s: string)
    requires Within(w, x + s) && w != [] && w[0] == '[' && '[' !in x
    ensures Within(w, s)
  {
    if x == [] {
      assert x + s == s;
    } else {
      assert (x + s)[1..] == x[1..] + s;
      assert (x + s)[0] == x[0];
      WithinSkip(w, x[1..], s);
    }
  }

  // The bracket of a piece and what follows up to the first placeholder of it.
  predicate IsRun(x: string) {
    x != [] && x[0] == '[' && '[' !in x[1..]
  }

  // A bracket that opens nothing, with the placeholder filler behind it and a tail in which every bracket
  // opens a placeholder. Once all but the victim are replaced, it opens the victim.
  datatype Clash = Clash(run: string, filler: Key, tail: string, victim: Key)

  function Piece(c: Clash, tail: string): string {
    c.run + (Text(c.filler) + tail)
  }

  ghost function AllBut(v: Key): (s: set<Key>)
    ensures forall k: Key :: k in s <==> k != v
  {
    AllKeys();
    set k | k in KEYS && k != v
  }

  ghost predicate Fits(c: Clash, p: Settings) {
    && IsRun(c.run) && c.filler != c.victim && Clear(c.tail) && !(Text(c.victim) <= c.run)
    && Text(c.victim) <= c.run + (Value(p, c.filler) + Partial(c.tail, AllBut(c.victim), p))
  }

  // No other placeholder is opened by the bracket.
  lemma RunOpensNone(c: Clash, p: Settings, k: Key)
    requires Fits(c, p)
    ensures !(Text(k) <= c.run)
  {
    var x, rest := c.run, Value(p, c.filler) + Partial(c.tail, AllBut(c.victim), p);
    hide Text, Value, Partial, Clear, IsRun;
    if Text(k) <= x {
      PrefixOfSum(x, rest, Text(c.victim));
      assert Text(k) <= x <= Text(c.victim);
      PrefixFree(Text(c.victim), k, c.victim);
      assert false;
    }
  }

  // Every bracket opens a placeholder.
  ghost predicate Clear(t: string)
    decreases |t|
  {
    t == [] ||
    match Opens(t)
    case Some(k) =>
      TextShape(k);
      Clear(t[|Text(k)|..])
    case None => t[0] != '[' && Clear(t[1..])
  }

  lemma {:induction false} ClearIsSettled(t: string)
    requires Clear(t)
    ensures Settled(t)
    decreases |t|
  {
    hide Text;
    if t != [] {
      var n := match Opens(t) case Some(k) => |Text(k)| case None => 1;
      if Opens(t).Some? {
        TextShape(Opens(t).value);
      }
      ClearIsSettled(t[n..]);
    }
  }

  // A replacement goes through text in which every bracket opens a placeholder, one placeholder at a time.
  lemma {:induction false} ReplaceClear(u: string, rest: string, k: Key, with: string)
    requires Clear(u)
    ensures Text(k) != [] && ReplaceAll(u + rest, Text(k), with) == ReplaceAll(u, Text(k), with) + ReplaceAll(rest, Text(k), with)
    decreases |u|
  {
    TextShape(k);
    hide Text, ReplaceAll;
    if u == [] {
      assert u + rest == rest;
      NothingToReplace(k, with);
    } else {
      match Opens(u)
      case Some(next) =>
        TextShape(next);
        var u' := u[|Text(next)|..];
        assert u == Text(next) + u' && u + rest == Text(next) + (u' + rest);
        ReplaceClear(u', rest, k, with);
        if next == k {
          ReplaceHead(u', k, with);
          ReplaceHead(u' + rest, k, with);
        } else {
          ReplaceOther(next, u', k, with);
          ReplaceOther(next, u' + rest, k, with);
        }
      case None =>
        assert u == [u[0]] + u[1..] && u + rest == [u[0]] + (u[1..] + rest);
        ReplaceClear(u[1..], rest, k, with);
        NotOpened(u[0], u[1..], k);
        NotOpened(u[0], u[1..] + rest, k);
        ReplaceChar(u[0], u[1..], k, with);
        ReplaceChar(u[0], u[1..] + rest, k, with);
    }
  }

  lemma RunReplaced(x: string, s: string, k: Key, with: string)
    requires IsRun(x) && !(Text(k) <= x) && s != [] && s[0] == '['
    ensures Text(k) != [] && ReplaceAll(x + s, Text(k), with) == x + ReplaceAll(s, Text(k), with)
  {
    TextShape(k);
    hide Text, ReplaceAll;
    NotAcrossABracket(x, s, k);
    assert x + s == [x[0]] + (x[1..] + s);
    ReplaceChar(x[0], x[1..] + s, k, with);
    ReplaceSkips(x[1..], s, k, with);
    var r := ReplaceAll(s, Text(k), with);
    assert [x[0]] + (x[1..] + r) == x + r;
  }

  // The replacement of a placeholder other than filler keeps the piece, with its tail replaced.
  lemma PieceStays(c: Clash, tail: string, rest: string, k: Key, p: Settings)
    requires IsRun(c.run) && Clear(tail) && k != c.filler && !(Text(k) <= c.run)
    ensures Replaced(Piece(c, tail) + rest, k, p) == Piece(c, Replaced(tail, k, p)) + Replaced(rest, k, p)
  {
    TextShape(c.filler);
    var v := Value(p, k);
    hide Text, Value, ReplaceAll, Clear, IsRun;
    assert Piece(c, tail) + rest == c.run + (Text(c.filler) + (tail + rest));
    RunReplaced(c.run, Text(c.filler) + (tail + rest), k, v);
    ReplaceOther(c.filler, tail + rest, k, v);
    ReplaceClear(tail, rest, k, v);
    var a, b := Replaced(tail, k, p), Replaced(rest, k, p);
    assert c.run + (Text(c.filler) + (a + b)) == Piece(c, a) + b;
  }

  lemma PieceFilled(c: Clash, tail: string, rest: string, p: Settings)
    requires IsRun(c.run) && Clear(tail) && !(Text(c.filler) <= c.run)
    ensures Replaced(Piece(c, tail) + rest, c.filler, p)
         == c.run + (Value(p, c.filler) + Replaced(tail, c.filler, p)) + Replaced(rest, c.filler, p)
  {
    var k, v := c.filler, Value(p, c.filler);
    TextShape(k);
    hide Text, Value, ReplaceAll, Clear, IsRun;
    assert Piece(c, tail) + rest == c.run + (Text(k) + (tail + rest));
    RunReplaced(c.run, Text(k) + (tail + rest), k, v);
    ReplaceHead(tail + rest, k, v);
    ReplaceClear(tail, rest, k, v);
    var a, b := Replaced(tail, k, p), Replaced(rest, k, p);
    assert c.run + (v + (a + b)) == c.run + (v + a) + b;
  }

  // A piece does not begin where another placeholder is written.
  lemma NotAPlaceholder(c: Clash, tail: string, s: string, k: Key)
    requires !(Text(k) <= c.run) && c.run != [] && Piece(c, tail) <= s
    ensures !(Text(k) <= s)
  {
    TextShape(c.filler);
    hide Text;
    var rest := s[|Piece(c, tail)|..];
    assert s == Piece(c, tail) + rest == c.run + (Text(c.filler) + tail + rest);
    NotAcrossABracket(c.run, Text(c.filler) + tail + rest, k);
  }

  lemma WithinHere(w: string, s: string)
    requires w <= s
    ensures Within(w, s)
  {
  }

  lemma WithinNext(w: string, s: string)
    requires Within(w, s) && !(w <= s)
    ensures s != [] && Within(w, s[1..])
  {
  }

  // Where another placeholder is written, the piece is behind it.
  lemma WithinBehind(w: string, s: string, k: Key)
    requires Within(w, s) && !(w <= s) && w != [] && w[0] == '[' && Text(k) <= s
    ensures Within(w, s[|Text(k)|..])
  {
    TextShape(k);
    hide Text, Within;
    WithinNext(w, s);
    var x := Text(k);
    assert s[1..] == x[1..] + s[|x|..];
    WithinSkip(w, x[1..], s[|x|..]);
  }

  lemma {:induction false} WithinStays(c: Clash, tail: string, s: string, k: Key, p: Settings)
    requires IsRun(c.run) && Clear(tail) && k != c.filler && !(Text(k) <= c.run)
    requires Within(Piece(c, tail), s)
    ensures Within(Piece(c, Replaced(tail, k, p)), Replaced(s, k, p))
    decreases |s|
  {
    var w, w' := Piece(c, tail), Piece(c, Replaced(tail, k, p));
    assert w[0] == '[';
    TextShape(k);
    hide Text, Piece, Replaced, Clear, Within, Value;
    if w <= s {
      var rest := s[|w|..];
      assert s == w + rest;
      PieceStays(c, tail, rest, k, p);
      WithinHere(w', w' + Replaced(rest, k, p));
    } else if Text(k) <= s {
      var rest := s[|Text(k)|..];
      WithinBehind(w, s, k);
      WithinStays(c, tail, rest, k, p);
      ReplacedHere(s, k, p);
      WithinRight(w', Value(p, k), Replaced(rest, k, p));
    } else {
      WithinNext(w, s);
      WithinStays(c, tail, s[1..], k, p);
      ReplacedNext(s, k, p);
      WithinRight(w', [s[0]], Replaced(s[1..], k, p));
    }
  }

  // Filling the pieces makes a place more for the victim.
  lemma {:induction false} OnePlaceMore(c: Clash, tail: string, s: string, p: Settings)
    requires IsRun(c.run) && Clear(tail) && c.filler != c.victim && BracketFree(p)
    requires !(Text(c.filler) <= c.run) && !(Text(c.victim) <= c.run)
    requires Text(c.victim) <= c.run + (Value(p, c.filler) + Replaced(tail, c.filler, p))
    requires Within(Piece(c, tail), s)
    ensures Places(Replaced(s, c.filler, p), c.victim) > Places(s, c.victim)
    decreases |s|
  {
    var w, f, v := Piece(c, tail), c.filler, c.victim;
    TextShape(f);
    assert w[0] == '[';
    hide Text, Piece, Clear, Value, Replaced, Places, BracketFree, Within, IsRun;
    if Text(f) <= s {
      if w <= s {
        NotAPlaceholder(c, tail, s, f);
        assert false;
      }
      var rest := s[|Text(f)|..];
      ReplacedHere(s, f, p);
      WithinBehind(w, s, f);
      OnePlaceMore(c, tail, rest, p);
      PlacesAfter(f, rest, v);
      ValueShape(p, f);
      PlacesSkip(Value(p, f), Replaced(rest, f, p), v);
    } else {
      if !(w <= s) {
        WithinNext(w, s);
      }
      ReplacedNext(s, f, p);
      PlacesOne(s[0], s[1..], v);
      PlacesOne(s[0], Replaced(s[1..], f, p), v);
      if w <= s {
        MoreHere(c, tail, s, p);
        PlacesStay(s[1..], f, v, p);
      } else {
        OnePlaceMore(c, tail, s[1..], p);
        HeadStays(s, f, v, p);
      }
    }
  }

  lemma MoreHere(c: Clash, tail: string, s: string, p: Settings)
    requires IsRun(c.run) && Clear(tail)
    requires !(Text(c.filler) <= c.run) && !(Text(c.victim) <= c.run)
    requires Text(c.victim) <= c.run + (Value(p, c.filler) + Replaced(tail, c.filler, p))
    requires Piece(c, tail) <= s
    ensures Text(c.victim) <= Replaced(s, c.filler, p) && !(Text(c.victim) <= s)
  {
    NotAPlaceholder(c, tail, s, c.victim);
    var rest := s[|Piece(c, tail)|..];
    hide Text, Piece, Clear, Value, Replaced;
    assert s == Piece(c, tail) + rest;
    PieceFilled(c, tail, rest, p);
  }

  // --- All the other placeholders first ---------------------------------------------------------------------

  lemma {:induction false} ClearAfter(x: string, s: string)
    requires '[' !in x && Clear(s)
    ensures Clear(x + s)
  {
    if x == [] {
      assert x + s == s;
    } else {
      assert (x + s)[1..] == x[1..] + s && (x + s)[0] == x[0];
      ClearAfter(x[1..], s);
      OpensNothing(x + s);
    }
  }

  lemma OpensNothing(s: string)
    requires s != [] && s[0] != '['
    ensures Opens(s).None?
  {
    if Opens(s).Some? {
      TextShape(Opens(s).value);
      assert false;
    }
  }

  lemma ClearBehind(k: Key, s: string)
    requires Clear(s)
    ensures Clear(Text(k) + s) && Opens(Text(k) + s) == Some(k) && (Text(k) + s)[|Text(k)|..] == s && Text(k) + s != []
  {
    TextShape(k);
    hide Text;
    assert Text(k) <= Text(k) + s;
    OpensExactly(Text(k) + s, k);
  }

  lemma {:induction false} PartialIsClear(u: string, done: set<Key>, p: Settings)
    requires Clear(u) && BracketFree(p)
    ensures Clear(Partial(u, done, p))
    decreases |u|
  {
    hide Text, Value;
    if u != [] {
      match Opens(u)
      case Some(k) =>
        TextShape(k);
        ValueShape(p, k);
        PartialIsClear(u[|Text(k)|..], done, p);
        var rest := Partial(u[|Text(k)|..], done, p);
        ClearAfter(Value(p, k), rest);
        ClearBehind(k, rest);
      case None =>
        PartialIsClear(u[1..], done, p);
        ClearAfter([u[0]], Partial(u[1..], done, p));
    }
  }

  lemma {:induction false} OthersKeep(t: string, c: Clash, p: Settings, keys: seq<Key>)
    requires Fits(c, p) && BracketFree(p) && Within(Piece(c, c.tail), t)
    requires Distinct(keys) && c.filler !in keys && c.victim !in keys
    ensures Within(Piece(c, Partial(c.tail, (set k | k in keys), p)), Rendered(t, p, keys))
  {
    hide Value, Replaced, Piece, Clear, IsRun, Within, Text;
    if keys == [] {
      NothingDone(c.tail, p);
      assert (set k | k in keys) == {};
    } else {
      var before, last := keys[..|keys| - 1], keys[|keys| - 1];
      OthersKeep(t, c, p, before);
      var sofar := set k | k in before;
      assert keys == before + [last];
      assert (set k | k in keys) == sofar + {last};
      ClearIsSettled(c.tail);
      OnePass(c.tail, sofar, last, p);
      PartialIsClear(c.tail, sofar, p);
      RunOpensNone(c, p, last);
      WithinStays(c, Partial(c.tail, sofar, p), Rendered(t, p, before), last, p);
    }
  }

  function Others(keys: seq<Key>, a: Key, b: Key): seq<Key> {
    if keys == [] then []
    else if keys[0] == a || keys[0] == b then Others(keys[1..], a, b)
    else [keys[0]] + Others(keys[1..], a, b)
  }

  lemma {:induction false} OthersMembers(keys: seq<Key>, a: Key, b: Key)
    requires Distinct(keys)
    ensures Distinct(Others(keys, a, b))
    ensures forall k: Key :: k in Others(keys, a, b) <==> k in keys && k != a && k != b
  {
    if keys != [] {
      assert Distinct(keys[1..]);
      OthersMembers(keys[1..], a, b);
      assert keys == [keys[0]] + keys[1..];
      assert keys[0] !in keys[1..];
      PutFirst(keys[0], Others(keys[1..], a, b));
      hide Distinct;
    }
  }

  lemma PutFirst(k: Key, keys: seq<Key>)
    ensures Distinct(keys) && k !in keys ==> Distinct([k] + keys)
  {
  }

  lemma PutLast(keys: seq<Key>, k: Key)
    ensures Distinct(keys) && k !in keys ==> Distinct(keys + [k])
  {
  }

  lemma LastTwo(keys: seq<Key>, a: Key, b: Key)
    requires Distinct(keys) && a != b && forall k: Key :: k in keys <==> k != a && k != b
    ensures IsOrder(keys + [a, b])
  {
    hide Distinct;
    PutLast(keys, a);
    PutLast(keys + [a], b);
    assert keys + [a] + [b] == keys + [a, b];
    assert forall k: Key :: k in keys || k == a || k == b;
  }

  lemma OrderOf(keys: seq<Key>, a: Key, b: Key)
    requires a != b && IsOrder(keys)
    ensures IsOrder(Others(keys, a, b) + [a, b]) && IsOrder(Others(keys, a, b) + [b, a])
    ensures (set k | k in Others(keys, a, b)) + {a} == AllBut(b)
    ensures a !in Others(keys, a, b) && b !in Others(keys, a, b) && Distinct(Others(keys, a, b))
  {
    OthersMembers(keys, a, b);
    var others := Others(keys, a, b);
    hide Others, Distinct, AllBut;
    LastTwo(others, a, b);
    LastTwo(others, b, a);
  }

  lemma AllKeys()
    ensures IsOrder(KEYS)
  {
    forall k: Key ensures k in KEYS {
      InKeys(k);
    }
  }

  lemma RenderedTwo(t: string, p: Settings, keys: seq<Key>, a: Key, b: Key)
    ensures Rendered(t, p, keys + [a, b]) == Replaced(Replaced(Rendered(t, p, keys), a, p), b, p)
  {
    hide Replaced;
    assert (keys + [a, b])[..|keys| + 1] == keys + [a];
    assert (keys + [a])[..|keys|] == keys;
  }

  // A character that the replacement of f leaves as often as it is, and that of v does not.
  ghost predicate Separates(p: Settings, f: Key, v: Key, c: char) {
    Count(Value(p, f), c) == Count(Text(f), c) && Count(Value(p, v), c) != Count(Text(v), c)
  }

  lemma LastTwoDiffer(s: string, p: Settings, f: Key, v: Key, c: char)
    requires Separates(p, f, v, c) && Places(Replaced(s, f, p), v) > Places(s, v)
    ensures Replaced(Replaced(s, f, p), v, p) != Replaced(Replaced(s, v, p), f, p)
  {
    hide Text, Value, Places, Count, Replaced;
    CountReplaced(s, f, p, c);
    CountReplaced(Replaced(s, f, p), v, p, c);
    CountReplaced(s, v, p, c);
    CountReplaced(Replaced(s, v, p), f, p, c);
    var d := Count(Value(p, v), c) - Count(Text(v), c);
    ProductsDiffer(Places(Replaced(s, f, p), v), Places(s, v), d);
  }

  lemma ProductsDiffer(m: nat, n: nat, d: int)
    requires m != n && d != 0
    ensures m * d != n * d
  {
    assert (m - n) * d != 0;
  }

  // --- The profile that shows it -----------------------------------------------------------------------------

  lemma FillShape(v: Key, n: nat)
    requires 0 < n <= |Text(v)|
    ensures '[' !in Text(v)[n..] && forall c | Foreign(c) :: c !in Text(v)[n..] && c !in Text(v)
  {
    TextShape(v);
  }

  // Without a proxy; filler is the placeholder that has fill as the beginning of its value.
  function BareProfile(filler: Key, fill: string): Settings {
    Settings((if filler.Host? || filler.SshHost? then fill else "") + "@", 1, Some((if filler.Sni? then fill else "") + "@"), None)
  }

  function BareMark(v: Key): char {
    match v case Crlf => '\r' case Lf => '\n' case Port => '1' case SshPort => '1' case ProxyHost => 'h' case _ => '@'
  }

  lemma {:induction false} CountSome(x: string, c: char)
    requires c in x
    ensures Count(x, c) > 0
  {
    if x[0] != c {
      assert c in x[1..];
      CountSome(x[1..], c);
    }
  }

  lemma OneDigit()
    ensures Decimal(1) == "1"
  {
  }

  lemma ProxyPortUnmarked(c: char)
    requires Foreign(c) || c == 'h'
    ensures Count(Text(ProxyPort), c) == 0
  {
    TextShape(ProxyPort);
    if c == 'h' {
      assert 'h' !in Text(ProxyPort);
    }
    hide Text, Count;
    CountNone(Text(ProxyPort), c);
  }

  lemma BareValue(filler: Key, fill: string)
    ensures var p := BareProfile(filler, fill);
            && ('[' !in fill ==> BracketFree(p)) && p.proxy.None? && Value(p, ProxyPort) == "" && Value(p, ProxyHost) == ""
            && (filler.Host? || filler.SshHost? || filler.Sni? ==> Value(p, filler) == fill + "@")
  {
  }

  lemma CountOfNone(c: char)
    ensures Count("", c) == 0
  {
  }

  lemma HasAnH()
    ensures 'h' in Text(ProxyHost)
  {
    assert Text(ProxyHost)[7] == 'h';
  }

  lemma BareMarkIsForeign(v: Key)
    ensures if v.ProxyHost? then BareMark(v) == 'h' else Foreign(BareMark(v))
  {
  }

  lemma BareSeparates(filler: Key, fill: string, v: Key)
    requires !v.ProxyPort?
    ensures Separates(BareProfile(filler, fill), ProxyPort, v, BareMark(v))
  {
    var p, c := BareProfile(filler, fill), BareMark(v);
    hide Text, Value, Count, BareProfile, BareMark, Foreign;
    BareMarkIsForeign(v);
    ProxyPortUnmarked(c);
    BareValue(filler, fill);
    CountOfNone(c);
    if v.ProxyHost? {
      HasAnH();
      CountSome(Text(v), c);
    } else {
      TextShape(v);
      FillShape(v, |Text(v)|);
      MarkIsThere(filler, fill, v);
      CountNone(Text(v), c);
      CountSome(Value(p, v), c);
    }
  }

  lemma MarkIsThere(filler: Key, fill: string, v: Key)
    requires !v.ProxyPort? && !v.ProxyHost?
    ensures BareMark(v) in Value(BareProfile(filler, fill), v)
  {
    var p := BareProfile(filler, fill);
    OneDigit();
    assert p.host[|p.host| - 1] == '@' && p.sni.value[|p.sni.value| - 1] == '@';
    if v.Crlf? {
      assert "\r\n"[0] == '\r';
    } else if v.Lf? {
      assert "\n"[0] == '\n';
    } else if v.Port? || v.SshPort? {
      assert "1"[0] == '1';
    }
  }

  // With a proxy. The host is also the value of another placeholder, which an underscore tells apart.
  function FullProfile(filler: Key, fill: string, v: Key): Settings {
    Settings(if filler.Host? then fill else if filler.SshHost? then fill + (if v.Host? then "_" else "") else "@", 1,
             Some(if filler.Sni? then fill else "@"), Some((if filler.ProxyHost? then fill else "@", 1)))
  }

  function FullMark(filler: Key, v: Key): char {
    match v
    case Crlf => '\r'
    case Lf => '\n'
    case Port => '1'
    case SshPort => '1'
    case ProxyPort => '1'
    case Host => if filler.SshHost? then '_' else '@'
    case SshHost => if filler.Host? then '_' else '@'
    case _ => '@'
  }

  predicate FreeKey(k: Key) {
    k.Host? || k.SshHost? || k.Sni? || k.ProxyHost?
  }

  lemma FullMarkIsForeign(filler: Key, fill: string, v: Key)
    requires FreeKey(filler) && FullMark(filler, v) != '_'
    ensures Foreign(FullMark(filler, v))
    ensures v != filler ==> Value(FullProfile(filler, fill, v), filler) == fill
  {
    assert fill + "" == fill;
  }

  lemma FullSeparates(filler: Key, v: Key, n: nat)
    requires FreeKey(filler) && v != filler && 0 < n <= |Text(v)| && (filler.Host? && v.SshHost? ==> n >= 5)
    ensures Separates(FullProfile(filler, Text(v)[n..], v), filler, v, FullMark(filler, v))
  {
    var fill, c := Text(v)[n..], FullMark(filler, v);
    if c == '_' {
      HostsApart(filler, v, n);
    } else {
      TextShape(filler);
      hide Text, Value, Count, FullProfile, FullMark, Foreign;
      FullMarkIsForeign(filler, fill, v);
      FillShape(v, n);
      FillShape(filler, 1);
      CountNone(fill, c);
      CountNone(Text(v), c);
      CountNone(Text(filler), c);
      FullMarkIsThere(filler, fill, v);
      CountSome(Value(FullProfile(filler, fill, v), v), c);
    }
  }

  lemma FullMarkIsThere(filler: Key, fill: string, v: Key)
    requires FreeKey(filler) && v != filler && FullMark(filler, v) != '_'
    ensures FullMark(filler, v) in Value(FullProfile(filler, fill, v), v)
  {
    OneDigit();
    assert "\r\n"[0] == '\r' && "\n"[0] == '\n' && "1"[0] == '1' && "@"[0] == '@';
  }

  lemma HostHasNoUnderscore()
    ensures Count(Text(Host), '_') == 0 && Count("host]", '_') == 0 && Count("[ssh", '_') == 0
  {
    assert '_' !in Text(Host) && '_' !in "host]" && '_' !in "[ssh";
    hide Count;
    CountNone(Text(Host), '_');
    CountNone("host]", '_');
    CountNone("[ssh", '_');
  }

  lemma Underscores()
    ensures Count(Text(SshHost), '_') == 1 && Count(Text(Host), '_') == 0
  {
    HostHasNoUnderscore();
    var rest := "_host]";
    assert rest[0] == '_' && rest[1..] == "host]";
    assert Count(rest, '_') == 1;
    assert Text(SshHost) == "[ssh" + rest;
    hide Text, Count;
    CountConcat("[ssh", rest, '_');
  }

  lemma NoUnderscore(v: Key, n: nat)
    requires (v.Host? && n <= |Text(v)|) || (v.SshHost? && 5 <= n <= |Text(v)|)
    ensures Count(Text(v)[n..], '_') == 0
  {
    assert '_' !in Text(v)[n..];
    CountNone(Text(v)[n..], '_');
  }

  lemma HostsApart(filler: Key, v: Key, n: nat)
    requires (filler.SshHost? && v.Host? && n <= |Text(v)|) || (filler.Host? && v.SshHost? && 5 <= n <= |Text(v)|)
    ensures Separates(FullProfile(filler, Text(v)[n..], v), filler, v, '_')
  {
    var fill := Text(v)[n..];
    hide Text, Count, Value, FullProfile;
    HostsShare(filler, v, fill);
    Underscores();
    NoUnderscore(v, n);
    OneUnderscore();
    CountConcat(fill, "_", '_');
  }

  lemma OneUnderscore()
    ensures Count("_", '_') == 1
  {
  }

  lemma HostsShare(filler: Key, v: Key, fill: string)
    requires (filler.SshHost? && v.Host?) || (filler.Host? && v.SshHost?)
    ensures var p := FullProfile(filler, fill, v); Value(p, filler) == Value(p, v) == if v.Host? then fill + "_" else fill
  {
  }

  lemma Completes(x: string, v: Key, rest: string)
    requires x <= Text(v) && Text(v)[|x|..] <= rest
    ensures Text(v) <= x + rest
  {
    hide Text;
    assert Text(v) == x + Text(v)[|x|..];
  }

  // --- Finding the piece ---------------------------------------------------------------------------------------

  lemma {:induction false} DeadIsHarmless(x: string, u: string, passed: set<Key>)
    requires forall k: Key :: !(x <= Text(k))
    ensures Harmless(x, u, passed)
    decreases |u|
  {
    hide Text;
    if u != [] {
      match Opens(u)
      case Some(next) =>
        TextShape(next);
        DeadIsHarmless(x, u[|Text(next)|..], passed + {next});
      case None =>
        var q := x + [u[0]];
        forall k: Key ensures !(q <= Text(k)) {
          assert q <= Text(k) ==> x <= Text(k);
        }
        DeadIsHarmless(q, u[1..], passed);
    }
  }

  lemma NoInnerBracket(x: string, k: Key)
    requires x != []
    ensures !(x + ['['] <= Text(k))
  {
    TextShape(k);
    hide Text;
    assert (x + ['['])[|x|] == '[';
  }

  ghost predicate Bare(passed: set<Key>) {
    passed <= {ProxyHost, ProxyPort} && ProxyPort in passed
  }

  // The tail that completes x when the proxy's port and host are empty.
  ghost predicate Completed(x: string, tail: string, v: Key, p: Settings) {
    && Clear(tail) && x <= Text(v) && !v.ProxyPort?
    && Text(v) <= x + Partial(tail, AllBut(v), p)
    && BracketFree(p) && p.proxy.None? && Separates(p, ProxyPort, v, BareMark(v))
  }

  lemma FillTail(x: string, next: Key, v: Key) returns (tail: string, p: Settings)
    requires (next.Host? || next.SshHost? || next.Sni?) && v != next && !v.ProxyPort? && x != [] && x <= Text(v)
    ensures tail == Text(next) && Completed(x, tail, v, p)
  {
    var fill := Text(v)[|x|..];
    tail, p := Text(next), BareProfile(next, Text(v)[|x|..]);
    FillShape(v, |x|);
    BareSeparates(next, fill, v);
    BareValue(next, fill);
    TextShape(next);
    hide Text, Separates, BareMark, BareProfile, Value, Clear;
    ClearNothing();
    ClearBehind(next, "");
    assert Text(next) + "" == Text(next);
    PartialHead(Text(next), next, AllBut(v), p);
    assert Partial("", AllBut(v), p) == "" && fill + "@" + "" == fill + "@";
    Completes(x, v, fill + "@");
  }

  lemma ClearNothing()
    ensures Clear("")
  {
  }

  lemma LiteralTail(x: string, c: char, v: Key) returns (p: Settings)
    requires x != [] && x + [c] == Text(v) && !v.ProxyPort?
    ensures Completed(x, [c], v, p)
  {
    p := BareProfile(Crlf, "");
    BareSeparates(Crlf, "", v);
    BareValue(Crlf, "");
    NoInnerBracket(x, v);
    assert c != '[' && x <= Text(v);
    OpensNothing([c]);
    hide Text, Separates, BareMark, BareProfile, Value;
    assert [c][1..] == [];
    assert Clear([c]) && Partial([c], AllBut(v), p) == [c];
  }

  lemma {:induction false} FindTail(x: string, u: string, passed: set<Key>) returns (tail: string, v: Key, p: Settings)
    requires x != [] && Bare(passed) && !Harmless(x, u, passed)
    requires forall k: Key | k !in passed :: !(Text(k) <= x)
    ensures tail <= u && v !in passed && Completed(x, tail, v, p)
    decreases |u|
  {
    hide Text, Completed;
    match Opens(u)
    case Some(next) =>
      TextShape(next);
      if next.ProxyPort? || next.ProxyHost? {
        var u' := u[|Text(next)|..];
        tail, v, p := FindTail(x, u', passed + {next});
        assert u == Text(next) + u';
        PassOver(x, next, tail, v, p);
        tail := Text(next) + tail;
      } else {
        v :| x <= Text(v) && v != next && v !in passed;
        tail, p := FillTail(x, next, v);
      }
    case None =>
      var q := x + [u[0]];
      if k: Key :| q == Text(k) && k !in passed {
        v, tail := k, [u[0]];
        p := LiteralTail(x, u[0], v);
      } else {
        forall k: Key | k !in passed ensures !(Text(k) <= q) {
          if Text(k) <= q {
            OneLonger(x, u[0], k);
            assert false;
          }
        }
        tail, v, p := FindTail(q, u[1..], passed);
        TakeIn(x, u[0], tail, v, p);
        tail := [u[0]] + tail;
      }
  }

  lemma PassOver(x: string, next: Key, tail: string, v: Key, p: Settings)
    requires Completed(x, tail, v, p) && v != next && (next.ProxyPort? || next.ProxyHost?)
    ensures Completed(x, Text(next) + tail, v, p)
  {
    ValueShape(p, next);
    assert Clear(tail);
    hide Text, Value, Separates, Clear, BareMark, BracketFree;
    ClearBehind(next, tail);
    PartialHead(Text(next) + tail, next, AllBut(v), p);
    hide Partial;
    assert Partial(Text(next) + tail, AllBut(v), p) == Partial(tail, AllBut(v), p);
  }

  lemma TakeIn(x: string, c: char, tail: string, v: Key, p: Settings)
    requires Completed(x + [c], tail, v, p) && x != []
    ensures Completed(x, [c] + tail, v, p)
  {
    hide Text, Separates;
    NoInnerBracket(x, v);
    assert c != '[' && x <= Text(v);
    ClearAfter([c], tail);
    OpensNothing([c] + tail);
    assert ([c] + tail)[1..] == tail;
    StepOver(x, [c] + tail, AllBut(v), p);
  }

  // A victim whose value tells it apart from next.
  function Rival(x: string, next: Key, k: Key): Key {
    if next.Host? && k.SshHost? && |x| < 5 then SshPort else k
  }

  lemma RivalShape(x: string, next: Key, k: Key)
    requires FreeKey(next) && k != next && x <= Text(k) && !(Text(k) <= x)
    ensures var v := Rival(x, next, k); v != next && x <= Text(v) && !(Text(v) <= x) && (next.Host? && v.SshHost? ==> |x| >= 5)
  {
    if Rival(x, next, k) != k {
      assert Text(SshHost)[..5] == "[ssh_" == Text(SshPort)[..5];
      assert x == Text(SshHost)[..5][..|x|] == Text(SshPort)[..5][..|x|];
      assert Text(SshPort)[..|x|] == Text(SshPort)[..5][..|x|];
    }
  }

  lemma FullValue(filler: Key, fill: string, v: Key)
    requires FreeKey(filler) && '[' !in fill
    ensures var p := FullProfile(filler, fill, v); BracketFree(p) && fill <= Value(p, filler)
  {
  }

  lemma FillRun(x: string, next: Key, k: Key) returns (v: Key, p: Settings)
    requires FreeKey(next) && k != next && IsRun(x) && x <= Text(k) && !(Text(k) <= x)
    ensures Fits(Clash(x, next, "", v), p) && BracketFree(p) && Separates(p, next, v, FullMark(next, v))
  {
    v := Rival(x, next, k);
    RivalShape(x, next, k);
    p := FullProfile(next, Text(v)[|x|..], v);
    FillShape(v, |x|);
    FullSeparates(next, v, |x|);
    FullValue(next, Text(v)[|x|..], v);
    hide Text, Separates, FullMark, FullProfile, Value, Rival;
    FitsAlone(x, next, v, p);
  }

  lemma FitsAlone(x: string, next: Key, v: Key, p: Settings)
    requires IsRun(x) && next != v && x <= Text(v) && !(Text(v) <= x) && Text(v)[|x|..] <= Value(p, next)
    ensures Fits(Clash(x, next, "", v), p)
  {
    ClearNothing();
    hide Text, Value, Clear, IsRun;
    assert Value(p, next) + "" == Value(p, next);
    Completes(x, v, Value(p, next));
  }

  ghost predicate Found(c: Clash, p: Settings) {
    Fits(c, p) && BracketFree(p) && exists mark :: Separates(p, c.filler, c.victim, mark)
  }

  lemma {:induction false} FindRun(x: string, u: string) returns (c: Clash, p: Settings)
    requires IsRun(x) && !Harmless(x, u, {})
    requires forall k: Key :: !(Text(k) <= x + u)
    ensures Piece(c, c.tail) <= x + u && Found(c, p)
    decreases |u|
  {
    hide Text;
    match Opens(u)
    case Some(next) =>
      TextShape(next);
      var u' := u[|Text(next)|..];
      assert u == Text(next) + u';
      forall k: Key ensures !(Text(k) <= x) {
        assert Text(k) <= x ==> Text(k) <= x + u;
      }
      if next.ProxyPort? {
        assert {} + {next} == {next};
        var tail, v, q := FindTail(x, u', {next});
        c, p := Clash(x, next, tail, v), q;
        FoundTail(x, tail, v, p);
        assert x + (Text(next) + tail) <= x + (Text(next) + u');
      } else {
        var k: Key :| x <= Text(k) && k != next;
        var v, q := FillRun(x, next, k);
        c, p := Clash(x, next, "", v), q;
        assert x + (Text(next) + "") <= x + (Text(next) + u');
      }
    case None =>
      var q := x + [u[0]];
      assert q + u[1..] == x + u;
      forall k: Key ensures q != Text(k) {
        assert q <= q + u[1..];
      }
      if u[0] == '[' {
        forall k: Key ensures !(q <= Text(k)) {
          NoInnerBracket(x, k);
        }
        DeadIsHarmless(q, u[1..], {});
        assert false;
      } else {
        c, p := FindRun(q, u[1..]);
      }
  }

  lemma FoundTail(x: string, tail: string, v: Key, p: Settings)
    requires IsRun(x) && Completed(x, tail, v, p) && !(Text(v) <= x)
    ensures Found(Clash(x, ProxyPort, tail, v), p)
  {
    ValueShape(p, ProxyPort);
    hide Text, Value, Separates;
    assert [] + Partial(tail, AllBut(v), p) == Partial(tail, AllBut(v), p);
  }

  lemma {:induction false} FindPiece(t: string) returns (c: Clash, p: Settings)
    requires !Settled(t)
    ensures Within(Piece(c, c.tail), t) && Found(c, p)
    decreases |t|
  {
    hide Text, Found, Piece;
    match Opens(t)
    case Some(k) =>
      TextShape(k);
      c, p := FindPiece(t[|Text(k)|..]);
      assert t == Text(k) + t[|Text(k)|..];
      WithinRight(Piece(c, c.tail), Text(k), t[|Text(k)|..]);
    case None =>
      if t[0] == '[' && !Harmless("[", t[1..], {}) {
        assert "[" + t[1..] == t;
        forall k: Key ensures !(Text(k) <= t) {
          OpensExactly(t, k);
        }
        c, p := FindRun("[", t[1..]);
      } else {
        c, p := FindPiece(t[1..]);
      }
  }

  // --- Main results ------------------------------------------------------------------------------------------

  lemma Unsettled(t: string) returns (p: Settings, o: seq<Key>, o': seq<Key>)
    requires !Settled(t)
    ensures BracketFree(p) && IsOrder(o) && IsOrder(o') && Rendered(t, p, o) != Rendered(t, p, o')
  {
    var c;
    c, p := FindPiece(t);
    var mark :| Separates(p, c.filler, c.victim, mark);
    var f, v, others := c.filler, c.victim, Others(KEYS, c.filler, c.victim);
    AllKeys();
    OrderOf(KEYS, f, v);
    o, o' := others + [f, v], others + [v, f];
    hide Text, Settled, Rendered, Places, Others, IsOrder, Separates, Clear, Value, Replaced, Piece, Within, IsRun, Distinct;
    RunOpensNone(c, p, f);
    OthersKeep(t, c, p, others);
    var s, done := Rendered(t, p, others), set k | k in others;
    ClearIsSettled(c.tail);
    PartialIsClear(c.tail, done, p);
    OnePass(c.tail, done, f, p);
    OnePlaceMore(c, Partial(c.tail, done, p), s, p);
    LastTwoDiffer(s, p, f, v, mark);
    RenderedTwo(t, p, others, f, v);
    RenderedTwo(t, p, others, v, f);
  }

  // Every order gives the same string, for all profiles without a bracket in their values, if and only if the
  // template is settled; and then that string is the simultaneous substitution.
  lemma OrderIrrelevantExactly(t: string)
    ensures (forall p, o, o' | BracketFree(p) && IsOrder(o) && IsOrder(o') :: Rendered(t, p, o) == Rendered(t, p, o'))
       <==> Settled(t)
    ensures Settled(t) ==> forall p, o | BracketFree(p) && IsOrder(o) :: Rendered(t, p, o) == Substitute(t, p)
  {
    hide Rendered, Settled, Substitute, BracketFree;
    if Settled(t) {
      forall p, o | BracketFree(p) && IsOrder(o) ensures Rendered(t, p, o) == Substitute(t, p) {
        RenderedPartly(t, p, o);
        AllDone(t, p, (set k | k in o));
      }
    } else {
      var p, o, o' := Unsettled(t);
    }
  }

  // --- A template that is not settled --------------------------------------------------------------------------

  lemma {:induction false} OthersLeave(t: string, p: Settings, first: seq<Key>, others: seq<Key>)
    requires var r := Rendered(t, p, first); forall k | k in others :: Replaced(r, k, p) == r
    ensures Rendered(t, p, first + others) == Rendered(t, p, first)
  {
    hide Replaced;
    if others == [] {
      assert first + others == first;
    } else {
      var before := others[..|others| - 1];
      assert first + others == (first + before) + [others[|others| - 1]];
      assert (first + others)[..|first + others| - 1] == first + before;
      OthersLeave(t, p, first, before);
    }
  }

  const NESTED := "[[sni]lf]"

  lemma ReplaceBare(k: Key, with: string)
    ensures ReplaceAll(Text(k), Text(k), with) == with
  {
    ReplaceHead("", k, with);
    hide Text, ReplaceAll;
    assert Text(k) + "" == Text(k) && with + "" == with;
    NothingToReplace(k, with);
  }

  lemma NestedBySni()
    ensures ReplaceAll(NESTED, Text(Sni), "") == Text(Lf)
  {
    assert NESTED == ['['] + (Text(Sni) + "lf]");
    ReplaceHead("lf]", Sni, "");
    assert "lf]" + "" == "lf]";
    ReplaceSkips("lf]", "", Sni, "");
    hide ReplaceAll;
    NothingToReplace(Sni, "");
    assert NESTED[1] != Text(Sni)[1];
    ReplaceChar('[', Text(Sni) + "lf]", Sni, "");
  }

  lemma NestedByLf(with: string)
    ensures ReplaceAll(NESTED, Text(Lf), with) == NESTED
  {
    assert NESTED == ['['] + (Text(Sni) + "lf]");
    ReplaceOther(Sni, "lf]", Lf, with);
    assert "lf]" + "" == "lf]";
    ReplaceSkips("lf]", "", Lf, with);
    hide ReplaceAll;
    NothingToReplace(Lf, with);
    assert NESTED[1] != Text(Lf)[1];
    ReplaceChar('[', Text(Sni) + "lf]", Lf, with);
  }

  lemma LineFeedStays(k: Key, with: string)
    ensures Text(k) != [] && ReplaceAll("\n", Text(k), with) == "\n"
  {
    TextShape(k);
    ReplaceSkips("\n", "", k, with);
    assert "\n" + "" == "\n";
  }

  lemma PlaceholderStays(k: Key, with: string)
    requires k != Lf
    ensures Text(k) != [] && ReplaceAll("[lf]", Text(k), with) == "[lf]"
  {
    ReplaceOther(Lf, "", k, with);
    NothingToReplace(k, with);
    assert Text(Lf) + "" == Text(Lf);
  }

  lemma OrderFrom(keys: seq<Key>, a: Key, b: Key)
    requires a != b && IsOrder(keys)
    ensures IsOrder([a, b] + Others(keys, a, b)) && forall k | k in Others(keys, a, b) :: k != a && k != b
  {
    var others := Others(keys, a, b);
    OthersMembers(keys, a, b);
    hide Others, Distinct;
    PutFirst(b, others);
    PutFirst(a, [b] + others);
    assert [a, b] + others == [a] + ([b] + others);
    assert forall k: Key :: k in others || k == a || k == b;
  }

  // In a profile without TLS settings one order turns this template into a line feed, and another leaves a
  // placeholder in it.
  lemma NestedPlaceholder(p: Settings) returns (o: seq<Key>, o': seq<Key>)
    requires p.sni.None?
    ensures IsOrder(o) && IsOrder(o')
    ensures Rendered(NESTED, p, o) == "\n" && Rendered(NESTED, p, o') == "[lf]"
  {
    assert Value(p, Sni) == "" && Value(p, Lf) == "\n" && Text(Lf) == "[lf]";
    AllKeys();
    OrderFrom(KEYS, Sni, Lf);
    OrderFrom(KEYS, Lf, Sni);
    hide KEYS, Others, IsOrder, Text, ReplaceAll, Rendered, Value;
    var others, others' := Others(KEYS, Sni, Lf), Others(KEYS, Lf, Sni);
    o, o' := [Sni, Lf] + others, [Lf, Sni] + others';
    RenderedNone(NESTED, p);
    RenderedTwo(NESTED, p, [], Sni, Lf);
    RenderedTwo(NESTED, p, [], Lf, Sni);
    assert [] + [Sni, Lf] == [Sni, Lf] && [] + [Lf, Sni] == [Lf, Sni];
    NestedBySni();
    NestedByLf(Value(p, Lf));
    ReplaceBare(Lf, "\n");
    forall k | k in others ensures Replaced("\n", k, p) == "\n" {
      LineFeedStays(k, Value(p, k));
    }
    forall k | k in others' ensures Replaced("[lf]", k, p) == "[lf]" {
      PlaceholderStays(k, Value(p, k));
    }
    OthersLeave(NESTED, p, [Sni, Lf], others);
    OthersLeave(NESTED, p, [Lf, Sni], others');
  }

  lemma RenderedNone(t: string, p: Settings)
    ensures Rendered(t, p, []) == t
  {
  }
}
