// Stock definitions shared by the other modules.
module Basics {

  datatype Option<+T> = None | Some(value: T)

  ghost predicate Distinct<T>(xs: seq<T>) {
    forall i, j | 0 <= i < j < |xs| :: xs[i] != xs[j]
  }

  // The white space that strings.TrimSpace strips, within Latin-1.
  predicate IsSpace(c: char) {
    c == ' ' || '\t' <= c <= '\r' || c == 0x85 as char || c == 0xA0 as char
  }

  function TrimLeft(s: string): string {
    if s != [] && IsSpace(s[0]) then TrimLeft(s[1..]) else s
  }

  function TrimRight(s: string): string {
    if s != [] && IsSpace(s[|s| - 1]) then TrimRight(s[..|s| - 1]) else s
  }

  function TrimSpace(s: string): string {
    TrimRight(TrimLeft(s))
  }

  lemma {:induction false} TrimSubset(s: string, c: char)
    requires c !in s
    ensures c !in TrimSpace(s)
  {
    TrimLeftSubset(s, c);
    TrimRightSubset(TrimLeft(s), c);
  }

  lemma {:induction false} TrimLeftSubset(s: string, c: char)
    requires c !in s
    ensures c !in TrimLeft(s)
  {
    if s != [] && IsSpace(s[0]) {
      TrimLeftSubset(s[1..], c);
    }
  }

  lemma {:induction false} TrimRightSubset(s: string, c: char)
    requires c !in s
    ensures c !in TrimRight(s)
  {
    if s != [] && IsSpace(s[|s| - 1]) {
      TrimRightSubset(s[..|s| - 1], c);
    }
  }

  lemma {:induction false} TrimLeftKeeps(s: string) returns (l: string)
    ensures s == l + TrimLeft(s) && forall c | c in l :: IsSpace(c)
  {
    l := [];
    if s != [] && IsSpace(s[0]) {
      var m := TrimLeftKeeps(s[1..]);
      l := [s[0]] + m;
      assert s == [s[0]] + s[1..];
    }
  }

  lemma {:induction false} TrimRightKeeps(s: string) returns (r: string)
    ensures s == TrimRight(s) + r && forall c | c in r :: IsSpace(c)
  {
    r := [];
    if s != [] && IsSpace(s[|s| - 1]) {
      var m := TrimRightKeeps(s[..|s| - 1]);
      r := m + [s[|s| - 1]];
      assert s == s[..|s| - 1] + [s[|s| - 1]];
    }
  }

  const WHITE := {' ', '\t', '\n', 11 as char, 12 as char, '\r', 0x85 as char, 0xA0 as char}

  // Trimming takes white space from both ends, all of it and nothing else.
  lemma TrimsSpaceOnly(s: string) returns (l: string, r: string)
    ensures s == l + TrimSpace(s) + r
    ensures forall c | c in l || c in r :: c in WHITE
    ensures var t := TrimSpace(s); t != "" ==> t[0] !in WHITE && t[|t| - 1] !in WHITE
  {
    TrimSpaceTrims(s);
    l := TrimLeftKeeps(s);
    r := TrimRightKeeps(TrimLeft(s));
    assert l + (TrimSpace(s) + r) == l + TrimSpace(s) + r;
  }

  // strings.ToLower, within ASCII.
  function Lower(c: char): char {
    if 'A' <= c <= 'Z' then c - 'A' + 'a' else c
  }

  function ToLower(s: string): (r: string)
    ensures |r| == |s|
  {
    if s == [] then [] else [Lower(s[0])] + ToLower(s[1..])
  }

  // Each letter becomes its lower-case form, 32 further on, and every other character stays.
  lemma {:induction false} LowerMeans(s: string, i: nat)
    requires i < |s|
    ensures ToLower(s)[i] == if 'A' <= s[i] <= 'Z' then (s[i] as int + 32) as char else s[i]
  {
    if i > 0 {
      LowerMeans(s[1..], i - 1);
    }
  }

  predicate Trimmed(s: string) {
    s == "" || (!IsSpace(s[0]) && !IsSpace(s[|s| - 1]))
  }

  lemma {:induction false} TrimLeftStarts(s: string)
    ensures TrimLeft(s) == "" || !IsSpace(TrimLeft(s)[0])
  {
    if s != "" && IsSpace(s[0]) {
      TrimLeftStarts(s[1..]);
    }
  }

  lemma {:induction false} TrimRightEnds(s: string)
    requires s == "" || !IsSpace(s[0])
    ensures Trimmed(TrimRight(s))
  {
    if s != "" && IsSpace(s[|s| - 1]) {
      TrimRightEnds(s[..|s| - 1]);
    }
  }

  lemma TrimSpaceTrims(s: string)
    ensures Trimmed(TrimSpace(s)) && TrimSpace(TrimSpace(s)) == TrimSpace(s)
  {
    TrimLeftStarts(s);
    TrimRightEnds(TrimLeft(s));
  }

  // The decimal digits of n.
  function Itoa(n: nat): (s: string)
    ensures |s| > 0 && forall c | c in s :: '0' <= c <= '9'
  {
    var digit := [('0' as int + n % 10) as char];
    if n < 10 then digit else Itoa(n / 10) + digit
  }

  function ValueOf(s: string): int {
    if s == [] then 0 else ValueOf(s[..|s| - 1]) * 10 + (s[|s| - 1] as int - '0' as int)
  }

  lemma {:induction false} ItoaValue(n: nat)
    ensures ValueOf(Itoa(n)) == n
  {
    var s := Itoa(n);
    if n < 10 {
      assert s[..0] == [];
    } else {
      ItoaValue(n / 10);
      assert s[..|s| - 1] == Itoa(n / 10);
    }
  }
}
