// internal/transport RenderPayload: nine placeholders, replaced one after the other in whatever order Go
// ranges over a map.
module Payload {
  import opened Basics

  datatype Key = Crlf | Lf | Host | Port | SshHost | SshPort | Sni | ProxyHost | ProxyPort

  const KEYS: seq<Key> := [Crlf, Lf, Host, Port, SshHost, SshPort, Sni, ProxyHost, ProxyPort]

  function Text(k: Key): string {
    match k
    case Crlf => "[crlf]"
    case Lf => "[lf]"
    case Host => "[host]"
    case Port => "[port]"
    case SshHost => "[ssh_host]"
    case SshPort => "[ssh_port]"
    case Sni => "[sni]"
    case ProxyHost => "[proxy_host]"
    case ProxyPort => "[proxy_port]"
  }

  // What the loop reads of a profile: sni and proxy are there if the TLS and proxy settings are.
  datatype Settings = Settings(host: string, port: int, sni: Option<string>, proxy: Option<(string, int)>)

  // strconv.Itoa
  function Decimal(n: int): string {
    if n < 0 then "-" + Itoa(-n) else Itoa(n)
  }

  function Value(p: Settings, k: Key): string {
    match k
    case Crlf => "\r\n"
    case Lf => "\n"
    case Host => p.host
    case Port => Decimal(p.port)
    case SshHost => p.host
    case SshPort => Decimal(p.port)
    case Sni => if p.sni.Some? then p.sni.value else ""
    case ProxyHost => if p.proxy.Some? then p.proxy.value.0 else ""
    case ProxyPort => if p.proxy.Some? then Decimal(p.proxy.value.1) else ""
  }

  ghost predicate BracketFree(p: Settings) {
    && '[' !in p.host
    && (p.sni.Some? ==> '[' !in p.sni.value)
    && (p.proxy.Some? ==> '[' !in p.proxy.value.0)
  }

  // strings.ReplaceAll, for a non-empty string to look for.
  function ReplaceAll(s: string, what: string, with: string): string
    requires what != []
    decreases |s|
  {
    if s == [] then []
    else if what <= s then with + ReplaceAll(s[|what|..], what, with)
    else [s[0]] + ReplaceAll(s[1..], what, with)
  }

  function Replaced(s: string, k: Key, p: Settings): string {
    TextShape(k);
    ReplaceAll(s, Text(k), Value(p, k))
  }

  // The result of the loop for one order of the keys.
  function Rendered(t: string, p: Settings, order: seq<Key>): string {
    if order == [] then t else Replaced(Rendered(t, p, order[..|order| - 1]), order[|order| - 1], p)
  }

  ghost predicate IsOrder(order: seq<Key>) {
    (forall k: Key :: k in order) && Distinct(order)
  }

  // --- Placeholders ------------------------------------------------------------------------------------------

  // Characters that no placeholder has.
  predicate Foreign(c: char) {
    c == '\r' || c == '\n' || c == '-' || '0' <= c <= '9' || c == '@'
  }

  lemma TextShape(k: Key)
    ensures var x := Text(k);
            && |x| >= 2 && x[0] == '[' && x[|x| - 1] == ']'
            && (forall i | 0 < i < |x| :: x[i] != '[') && (forall i | 0 <= i < |x| - 1 :: x[i] != ']')
            && (forall i | 0 <= i < |x| :: !Foreign(x[i]))
  {
  }

  lemma TextInjective(a: Key, b: Key)
    requires Text(a) == Text(b)
    ensures a == b
  {
  }

  // No placeholder is a proper prefix of another.
  lemma PrefixFree(s: string, a: Key, b: Key)
    requires Text(a) <= s && Text(b) <= s
    ensures a == b
  {
    TextShape(a);
    TextShape(b);
    TextInjective(a, b);
    hide Text;
    var x, y := Text(a), Text(b);
    assert x[|x| - 1] == s[|x| - 1] && y[|y| - 1] == s[|y| - 1];
    assert |x| == |y|;
  }

  // The placeholder that s starts with.
  function Opens(s: string): (k: Option<Key>)
    ensures k.Some? ==> Text(k.value) <= s
  {
    OpensAmong(s, KEYS)
  }

  function OpensAmong(s: string, keys: seq<Key>): (k: Option<Key>)
    ensures k.Some? ==> Text(k.value) <= s
  {
    if keys == [] then None else if Text(keys[0]) <= s then Some(keys[0]) else OpensAmong(s, keys[1..])
  }

  lemma {:induction false} OpensAmongAny(s: string, keys: seq<Key>, k: Key)
    requires k in keys && Text(k) <= s
    ensures OpensAmong(s, keys) == Some(k)
  {
    if Text(keys[0]) <= s {
      PrefixFree(s, keys[0], k);
    } else {
      OpensAmongAny(s, keys[1..], k);
    }
  }

  lemma InKeys(k: Key)
    ensures k in KEYS
  {
    var i := match k case Crlf => 0 case Lf => 1 case Host => 2 case Port => 3 case SshHost => 4
                     case SshPort => 5 case Sni => 6 case ProxyHost => 7 case ProxyPort => 8;
    assert KEYS[i] == k;
  }

  lemma OpensExactly(s: string, k: Key)
    ensures Opens(s) == Some(k) <==> Text(k) <= s
  {
    if Text(k) <= s {
      InKeys(k);
      OpensAmongAny(s, KEYS, k);
    }
  }

  // One pass over the template, with the placeholders of done replaced and the others left as they are.
  function Partial(t: string, done: set<Key>, p: Settings): string
    decreases |t|
  {
    if t == [] then []
    else
      match Opens(t)
      case Some(k) =>
        TextShape(k);
        (if k in done then Value(p, k) else Text(k)) + Partial(t[|Text(k)|..], done, p)
      case None => [t[0]] + Partial(t[1..], done, p)
  }

  // The simultaneous substitution of all nine.
  function Substitute(t: string, p: Settings): string
    decreases |t|
  {
    if t == [] then []
    else
      match Opens(t)
      case Some(k) =>
        TextShape(k);
        Value(p, k) + Substitute(t[|Text(k)|..], p)
      case None => [t[0]] + Substitute(t[1..], p)
  }

  // Line ends and ports bring characters that no placeholder has.
  predicate Fixed(k: Key) {
    k.Crlf? || k.Lf? || k.Port? || k.SshPort?
  }

  // Nothing can complete the bracketed text x to a placeholder when u follows it. The proxy's port may be
  // empty, and then so is its host; passed are those of the two that x goes over. Any other placeholder may
  // have the missing end of x as its value, unless x begins no placeholder but that one.
  ghost predicate Harmless(x: string, u: string, passed: set<Key>)
    decreases |u|
  {
    u == [] ||
    match Opens(u)
    case Some(next) =>
      TextShape(next);
      if Fixed(next) then true
      else if next.ProxyPort? || (next.ProxyHost? && passed != {}) then
        Harmless(x, u[|Text(next)|..], passed + {next})
      else forall k: Key | x <= Text(k) :: k == next || k in passed
    case None =>
      var q := x + [u[0]];
      (forall k: Key | q == Text(k) :: k in passed) && Harmless(q, u[1..], passed)
  }

  // No bracket of the template that opens no placeholder can come to open one.
  ghost predicate Settled(t: string)
    decreases |t|
  {
    t == [] ||
    match Opens(t)
    case Some(k) =>
      TextShape(k);
      Settled(t[|Text(k)|..])
    case None => (t[0] == '[' ==> Harmless("[", t[1..], {})) && Settled(t[1..])
  }

  // --- Values ----------------------------------------------------------------------------------------------

  lemma DecimalShape(n: int)
    ensures var s := Decimal(n); s != [] && Foreign(s[0]) && '[' !in s
  {
    var s := Itoa(if n < 0 then -n else n);
    assert s[0] in s;
    hide Itoa;
  }

  lemma ValueShape(p: Settings, k: Key)
    requires BracketFree(p)
    ensures '[' !in Value(p, k)
    ensures Fixed(k) || (k.ProxyPort? && p.proxy.Some?) ==> Value(p, k) != [] && Foreign(Value(p, k)[0])
    ensures (k.ProxyPort? || k.ProxyHost?) && p.proxy.None? ==> Value(p, k) == []
  {
    DecimalShape(p.port);
    if p.proxy.Some? {
      DecimalShape(p.proxy.value.1);
    }
    hide Decimal;
  }

  // --- One replacement -----------------------------------------------------------------------------------

  lemma {:induction false} ReplaceSkips(x: string, s: string, k: Key, with: string)
    requires '[' !in x
    ensures ReplaceAll(x + s, Text(k), with) == x + ReplaceAll(s, Text(k), with)
  {
    TextShape(k);
    hide Text;
    if x != [] {
      assert x + s == [x[0]] + (x[1..] + s);
      assert (x + s)[0] != '[';
      ReplaceSkips(x[1..], s, k, with);
    } else {
      assert x + s == s;
    }
  }

  lemma NothingToReplace(k: Key, with: string)
    ensures Text(k) != [] && ReplaceAll("", Text(k), with) == ""
  {
  }

  lemma ReplaceHead(s: string, k: Key, with: string)
    ensures ReplaceAll(Text(k) + s, Text(k), with) == with + ReplaceAll(s, Text(k), with)
  {
    TextShape(k);
    hide Text;
    assert (Text(k) + s)[|Text(k)|..] == s;
  }

  lemma ReplaceChar(c: char, s: string, k: Key, with: string)
    requires !(Text(k) <= [c] + s)
    ensures ReplaceAll([c] + s, Text(k), with) == [c] + ReplaceAll(s, Text(k), with)
  {
    TextShape(k);
    hide Text;
    assert ([c] + s)[1..] == s;
  }

  lemma ReplaceOther(next: Key, s: string, k: Key, with: string)
    requires next != k
    ensures ReplaceAll(Text(next) + s, Text(k), with) == Text(next) + ReplaceAll(s, Text(k), with)
  {
    TextShape(next);
    hide Text, ReplaceAll;
    var y := Text(next);
    assert y <= y + s;
    if Text(k) <= y + s {
      PrefixFree(y + s, k, next);
    }
    assert y + s == [y[0]] + (y[1..] + s);
    ReplaceChar(y[0], y[1..] + s, k, with);
    ReplaceSkips(y[1..], s, k, with);
    var r := ReplaceAll(s, Text(k), with);
    assert [y[0]] + (y[1..] + r) == y + r;
  }

  // A placeholder does not start in p and go on into text that starts with a bracket.
  lemma NotAcrossABracket(p: string, rest: string, k: Key)
    requires p != [] && rest != [] && rest[0] == '[' && !(Text(k) <= p)
    ensures !(Text(k) <= p + rest)
  {
    TextShape(k);
    hide Text;
    assert (p + rest)[|p|] == '[';
    if Text(k) <= p + rest {
      PrefixOfSum(p, rest, Text(k));
      assert false;
    }
  }

  lemma PrefixOfSum(p: string, rest: string, x: string)
    requires x <= p + rest
    ensures p <= x || x <= p
  {
    if |x| <= |p| {
      assert x == (p + rest)[..|x|] == p[..|x|];
    } else {
      assert p == (p + rest)[..|p|] == x[..|p|];
    }
  }

  lemma PlaceholderStarts(u: string, next: Key, done: set<Key>, p: Settings)
    requires u != [] && Opens(u) == Some(next) && next !in done
    ensures var rest := Partial(u, done, p); rest != [] && rest[0] == '['
  {
    TextShape(next);
    hide Text;
  }

  lemma NotAcrossForeign(x: string, rest: string, k: Key)
    requires rest != [] && Foreign(rest[0]) && !(Text(k) <= x)
    ensures !(Text(k) <= x + rest)
  {
    TextShape(k);
    hide Text;
    assert (x + rest)[|x|] == rest[0];
    if Text(k) <= x + rest {
      PrefixOfSum(x, rest, Text(k));
      assert false;
    }
  }

  lemma StepOver(x: string, u: string, done: set<Key>, p: Settings)
    requires u != [] && Opens(u).None?
    ensures x + Partial(u, done, p) == (x + [u[0]]) + Partial(u[1..], done, p)
  {
  }

  lemma PartialHead(u: string, next: Key, done: set<Key>, p: Settings)
    requires u != [] && Opens(u) == Some(next) && next in done
    ensures |Text(next)| <= |u| && Partial(u, done, p) == Value(p, next) + Partial(u[|Text(next)|..], done, p)
  {
    TextShape(next);
    hide Text;
  }

  lemma OneLonger(x: string, c: char, k: Key)
    requires !(Text(k) <= x) && Text(k) <= x + [c]
    ensures Text(k) == x + [c]
  {
    PrefixOfSum(x, [c], Text(k));
  }

  // A bracketed text that does not run into a placeholder as it stands does not after replacements.
  lemma {:induction false} NoSpurious(x: string, u: string, passed: set<Key>, done: set<Key>, k: Key, p: Settings)
    requires x != [] && k !in done && !(Text(k) <= x) && BracketFree(p)
    requires Harmless(x, u, passed) && passed <= done && (passed != {} ==> p.proxy.None?)
    ensures !(Text(k) <= x + Partial(u, done, p))
    decreases |u|
  {
    hide Text, Value;
    if u == [] {
      assert x + Partial(u, done, p) == x;
    } else {
      hide Partial;
      match Opens(u)
      case Some(next) =>
        TextShape(next);
        ValueShape(p, next);
        var rest := Partial(u, done, p);
        if next !in done {
          hide Opens, Harmless;
          PlaceholderStarts(u, next, done, p);
          NotAcrossABracket(x, rest, k);
        } else {
          PartialHead(u, next, done, p);
          var after := u[|Text(next)|..];
          if Value(p, next) == [] && (next.ProxyPort? || (next.ProxyHost? && passed != {})) {
            NoSpurious(x, after, passed + {next}, done, k, p);
            assert rest == Partial(after, done, p);
          } else if Fixed(next) || next.ProxyPort? {
            hide Opens, Harmless;
            NotAcrossForeign(x, rest, k);
          } else if Text(k) <= x + rest {
            PrefixOfSum(x, rest, Text(k));
            assert false;
          }
        }
      case None =>
        var q := x + [u[0]];
        if Text(k) <= q {
          OneLonger(x, u[0], k);
          assert false;
        }
        NoSpurious(q, u[1..], passed, done, k, p);
        StepOver(x, u, done, p);
    }
  }

  // On a settled template the next replacement replaces exactly the placeholders of the template.
  lemma {:induction false} OnePass(t: string, done: set<Key>, k: Key, p: Settings)
    requires k !in done && BracketFree(p) && Settled(t)
    ensures Replaced(Partial(t, done, p), k, p) == Partial(t, done + {k}, p)
    decreases |t|
  {
    TextShape(k);
    var v := Value(p, k);
    hide Text, ReplaceAll, Value;
    if t == [] {
      NothingToReplace(k, v);
    } else {
      match Opens(t)
      case Some(next) =>
        TextShape(next);
        ValueShape(p, next);
        var rest := Partial(t[|Text(next)|..], done, p);
        OnePass(t[|Text(next)|..], done, k, p);
        if next == k {
          ReplaceHead(rest, k, v);
        } else if next in done {
          ReplaceSkips(Value(p, next), rest, k, v);
        } else {
          ReplaceOther(next, rest, k, v);
        }
      case None =>
        var rest := Partial(t[1..], done, p);
        OnePass(t[1..], done, k, p);
        if t[0] == '[' {
          NoSpurious("[", t[1..], {}, done, k, p);
        }
        NotOpened(t[0], rest, k);
        ReplaceChar(t[0], rest, k, v);
    }
  }

  lemma NotOpened(c: char, rest: string, k: Key)
    requires c == '[' ==> !(Text(k) <= "[" + rest)
    ensures !(Text(k) <= [c] + rest)
  {
    TextShape(k);
    hide Text;
  }

  lemma {:induction false} NothingDone(t: string, p: Settings)
    ensures Partial(t, {}, p) == t
    decreases |t|
  {
    hide Text;
    if t != [] {
      match Opens(t)
      case Some(k) =>
        TextShape(k);
        NothingDone(t[|Text(k)|..], p);
      case None =>
        NothingDone(t[1..], p);
    }
  }

  lemma AllDone(t: string, p: Settings, done: set<Key>)
    requires forall k: Key :: k in done
    ensures Partial(t, done, p) == Substitute(t, p)
    decreases |t|
  {
    hide Text, Value;
    if t != [] {
      match Opens(t)
      case Some(k) =>
        TextShape(k);
        AllDone(t[|Text(k)|..], p, done);
      case None => AllDone(t[1..], p, done);
    }
  }

  lemma {:induction false} RenderedPartly(t: string, p: Settings, order: seq<Key>)
    requires Settled(t) && BracketFree(p)
    requires Distinct(order)
    ensures Rendered(t, p, order) == Partial(t, (set k | k in order), p)
  {
    hide Replaced, Value;
    var done := set k | k in order;
    if order == [] {
      assert done == {};
      NothingDone(t, p);
    } else {
      var before, last := order[..|order| - 1], order[|order| - 1];
      RenderedPartly(t, p, before);
      var sofar := set k | k in before;
      assert order == before + [last];
      assert done == sofar + {last};
      OnePass(t, sofar, last, p);
    }
  }

  // A template in which every bracket opens one of the nine is settled.
  lemma {:induction false} EveryBracketOpensSettles(t: string)
    requires forall i | 0 <= i < |t| && t[i] == '[' :: exists k: Key :: Text(k) <= t[i..]
    ensures Settled(t)
    decreases |t|
  {
    hide Text;
    if t != [] {
      var n := match Opens(t) case Some(k) => |Text(k)| case None => 1;
      if Opens(t).Some? {
        TextShape(Opens(t).value);
      } else if t[0] == '[' {
        assert t[0..] == t;
        var k: Key :| Text(k) <= t;
        OpensExactly(t, k);
        assert false;
      }
      forall i | 0 <= i < |t[n..]| && t[n..][i] == '[' ensures exists k: Key :: Text(k) <= t[n..][i..] {
        assert t[n..][i..] == t[n + i..];
      }
      EveryBracketOpensSettles(t[n..]);
    }
  }

  // --- What the nine stand for -----------------------------------------------------------------------------

  lemma SubstituteHead(k: Key, t: string, p: Settings)
    ensures Substitute(Text(k) + t, p) == Value(p, k) + Substitute(t, p)
  {
    TextShape(k);
    OpensExactly(Text(k) + t, k);
    hide Text, Value, Opens;
    assert Text(k) <= Text(k) + t;
    assert (Text(k) + t)[|Text(k)|..] == t;
  }

  // A line end, or a field of the profile; nothing where the settings are missing.
  lemma NinePlaceholders(t: string, p: Settings)
    ensures Substitute("[crlf]" + t, p) == "\r\n" + Substitute(t, p)
    ensures Substitute("[lf]" + t, p) == "\n" + Substitute(t, p)
    ensures Substitute("[host]" + t, p) == p.host + Substitute(t, p)
    ensures Substitute("[ssh_host]" + t, p) == p.host + Substitute(t, p)
    ensures Substitute("[port]" + t, p) == Decimal(p.port) + Substitute(t, p)
    ensures Substitute("[ssh_port]" + t, p) == Decimal(p.port) + Substitute(t, p)
    ensures Substitute("[sni]" + t, p) == (if p.sni.Some? then p.sni.value else "") + Substitute(t, p)
    ensures Substitute("[proxy_host]" + t, p) == (if p.proxy.Some? then p.proxy.value.0 else "") + Substitute(t, p)
    ensures Substitute("[proxy_port]" + t, p) == (if p.proxy.Some? then Decimal(p.proxy.value.1) else "") + Substitute(t, p)
  {
    hide Substitute, Decimal;
    SubstituteHead(Crlf, t, p);
    SubstituteHead(Lf, t, p);
    SubstituteHead(Host, t, p);
    SubstituteHead(SshHost, t, p);
    SubstituteHead(Port, t, p);
    SubstituteHead(SshPort, t, p);
    SubstituteHead(Sni, t, p);
    SubstituteHead(ProxyHost, t, p);
    SubstituteHead(ProxyPort, t, p);
  }

  const NINE := {"[crlf]", "[lf]", "[host]", "[port]", "[ssh_host]", "[ssh_port]", "[sni]", "[proxy_host]", "[proxy_port]"}

  lemma OneOfNine(k: Key)
    ensures Text(k) in NINE
  {
  }

  // Everything else stays as it is.
  lemma NothingElse(t: string, p: Settings)
    requires t != [] && forall x | x in NINE :: !(x <= t)
    ensures Substitute(t, p) == [t[0]] + Substitute(t[1..], p)
  {
    if Opens(t).Some? {
      OneOfNine(Opens(t).value);
      assert false;
    }
  }

  // A port is written in decimal digits, without leading zeros.
  lemma {:induction false} DigitsOf(n: nat)
    ensures ValueOf(Itoa(n)) == n && (n > 0 ==> Itoa(n)[0] != '0') && (n == 0 ==> Itoa(n) == "0")
  {
    ItoaValue(n);
    if n >= 10 {
      DigitsOf(n / 10);
    }
  }

  lemma DecimalMeans(n: int)
    ensures n >= 0 ==> ValueOf(Decimal(n)) == n && forall c | c in Decimal(n) :: '0' <= c <= '9'
    ensures n < 0 ==> Decimal(n) == "-" + Decimal(-n)
    ensures Decimal(0) == "0" && (n > 0 ==> Decimal(n)[0] != '0')
  {
    DigitsOf(if n < 0 then -n else n);
    hide ValueOf;
  }

  // --- The program -----------------------------------------------------------------------------------------

  // The map that the loop ranges over.
  method Replacements(p: Settings) returns (repl: map<Key, string>)
    ensures forall k: Key :: k in repl && repl[k] == Value(p, k)
  {
    hide Decimal;
    repl := map[Crlf := "\r\n", Lf := "\n", Host := p.host, Port := Decimal(p.port), SshHost := p.host,
                SshPort := Decimal(p.port), Sni := "", ProxyHost := "", ProxyPort := ""];
    if p.sni.Some? {
      repl := repl[Sni := p.sni.value];
    }
    if p.proxy.Some? {
      repl := repl[ProxyHost := p.proxy.value.0];
      repl := repl[ProxyPort := Decimal(p.proxy.value.1)];
    }
    forall k: Key ensures k in repl && repl[k] == Value(p, k) {
      match k case Crlf => case Lf => case Host => case Port => case SshHost => case SshPort =>
        case Sni => case ProxyHost => case ProxyPort =>
    }
  }

  // The loop takes the keys in any order. On a settled template, with no bracket in the profile, they all
  // give the simultaneous substitution.
  method RenderPayload(t: string, p: Settings) returns (out: string, ghost order: seq<Key>)
    ensures IsOrder(order) && out == Rendered(t, p, order)
    ensures Settled(t) && BracketFree(p) ==> out == Substitute(t, p)
  {
    hide Text, Value;
    var repl := Replacements(p);
    out, order := t, [];
    var keys := repl.Keys;
    while keys != {}
      invariant keys <= repl.Keys
      invariant forall k: Key :: k in order <==> k !in keys
      invariant Distinct(order)
      invariant out == Rendered(t, p, order)
      decreases |keys|
    {
      var k :| k in keys;
      assert (order + [k])[..|order|] == order;
      TextShape(k);
      out := ReplaceAll(out, Text(k), repl[k]);
      order := order + [k];
      keys := keys - {k};
    }
    if Settled(t) && BracketFree(p) {
      RenderedPartly(t, p, order);
      AllDone(t, p, (set k | k in order));
    }
  }
}
