// What the installed rules do to packets: an interpreter for rule chains, and the verdict of every
// packet after a successful Apply.
module Traffic {
  import opened Basics
  import opened Netfilter
  import opened Iptables

  datatype Packet = Packet(
    protocol: Protocol, dst: nat, dport: int, inIface: string, outIface: string,
    uid: Option<nat>, mark: nat, transparent: bool)

  // Fell and Returned carry the packet on to the calling chain, or to the policy of a built-in chain.
  datatype Outcome =
    | Decided(target: Target, packet: Packet)
    | Returned(packet: Packet)
    | Fell(packet: Packet)
    | TooDeep

  function Pow2(n: nat): (r: nat)
    ensures r > 0
  {
    if n == 0 then 1 else 2 * Pow2(n - 1)
  }

  predicate Contains(net: Net, addr: nat) {
    net.bits <= 32 && addr / Pow2(32 - net.bits) == net.addr / Pow2(32 - net.bits)
  }

  // An interface pattern that ends in '+' matches every name with that prefix.
  predicate IfaceMatches(pattern: string, name: string) {
    if pattern != "" && pattern[|pattern| - 1] == '+' then pattern[..|pattern| - 1] <= name else pattern == name
  }

  lemma IfacePatterns(prefix: string, name: string)
    ensures IfaceMatches(prefix + "+", name) <==> prefix <= name
    ensures prefix == "" || prefix[|prefix| - 1] != '+' ==> (IfaceMatches(prefix, name) <==> prefix == name)
  {
    assert (prefix + "+")[..|prefix|] == prefix;
  }

  predicate IsMarked(p: Packet) {
    p.mark % 2 == 1
  }

  // Only the lowest bit is looked at, or set.
  function Marked(p: Packet): Packet {
    p.(mark := p.mark / 2 * 2 + 1)
  }

  predicate Holds(m: Match, p: Packet) {
    match m
    case To(net) => Contains(net, p.dst)
    case In(iface) => IfaceMatches(iface, p.inIface)
    case Out(iface) => IfaceMatches(iface, p.outIface)
    case Proto(protocol) => p.protocol == protocol
    case DPort(port) => p.dport == port
    case Owner(uid) => p.uid == Some(uid)
    case Unmarked => !IsMarked(p)
    case TransparentSocket => p.transparent
  }

  predicate Applies(r: Rule, p: Packet) {
    forall m | m in r.matches :: Holds(m, p)
  }

  // The traversal of a rule list; depth bounds the nesting of jumps, as the kernel's jump stack does.
  function Eval(t: Tables, depth: nat, table: Table, rs: seq<Rule>, p: Packet): Outcome
    decreases depth, |rs|
  {
    if rs == [] then Fell(p)
    else if !Applies(rs[0], p) then Eval(t, depth, table, rs[1..], p)
    else
      match rs[0].target
      case Return => Returned(p)
      case SetMark => Eval(t, depth, table, rs[1..], Marked(p))
      case Jump(name) =>
        if depth == 0 || User(table, name) !in t then TooDeep
        else (
          var o := Eval(t, depth - 1, table, t[User(table, name)], p);
          if o.Fell? || o.Returned? then Eval(t, depth, table, rs[1..], o.packet) else o)
      case target => Decided(target, p)
  }

  lemma {:induction false} EvalConcat(t: Tables, depth: nat, table: Table, a: seq<Rule>, b: seq<Rule>, p: Packet)
    ensures var o := Eval(t, depth, table, a, p);
            Eval(t, depth, table, a + b, p) == if o.Fell? then Eval(t, depth, table, b, o.packet) else o
    decreases |a|
  {
    hide Applies, Marked;
    if a == [] {
      assert a + b == b;
    } else {
      assert (a + b)[0] == a[0] && (a + b)[1..] == a[1..] + b;
      EvalConcat(t, depth, table, a[1..], b, p);
      EvalConcat(t, depth, table, a[1..], b, Marked(p));
      if a[0].target.Jump? && depth > 0 && User(table, a[0].target.name) in t {
        var o := Eval(t, depth - 1, table, t[User(table, a[0].target.name)], p);
        if o.Fell? || o.Returned? {
          EvalConcat(t, depth, table, a[1..], b, o.packet);
        }
      }
    }
  }

  // Rules whose jumps stay within chains that t and t' share get the same outcome in both.
  ghost predicate SharesUserChains(t: Tables, t': Tables, table: Table) {
    forall ch | ch in t && ch.User? && ch.table == table :: ch in t' && t'[ch] == t[ch]
  }

  lemma {:induction false} EvalFrame(t: Tables, t': Tables, depth: nat, table: Table, rs: seq<Rule>, p: Packet)
    requires WellFormed(t) && SharesUserChains(t, t', table)
    requires forall r | r in rs :: Resolves(t, table, r)
    ensures Eval(t', depth, table, rs, p) == Eval(t, depth, table, rs, p)
    decreases depth, |rs|
  {
    hide Applies, Marked;
    if rs != [] {
      assert rs[0] in rs && forall r | r in rs[1..] :: r in rs;
      EvalFrame(t, t', depth, table, rs[1..], p);
      EvalFrame(t, t', depth, table, rs[1..], Marked(p));
      if rs[0].target.Jump? && depth > 0 {
        var ch := User(table, rs[0].target.name);
        assert Resolves(t, table, rs[0]);
        EvalFrame(t, t', depth - 1, table, t[ch], p);
        var o := Eval(t, depth - 1, table, t[ch], p);
        if o.Fell? || o.Returned? {
          EvalFrame(t, t', depth, table, rs[1..], o.packet);
        }
      }
    }
  }

  // --- The rule lists of the daemon's chains --------------------------------------------------------

  predicate InSome(nets: seq<Net>, addr: nat) {
    exists net :: net in nets && Contains(net, addr)
  }

  lemma AppliesTo(m: Match, target: Target, p: Packet)
    ensures Applies(Rule([m], target), p) <==> Holds(m, p)
  {
    assert [m][0] in [m];
  }

  lemma AppliesBoth(a: Match, b: Match, target: Target, p: Packet)
    ensures Applies(Rule([a, b], target), p) <==> Holds(a, p) && Holds(b, p)
  {
    assert [a, b][0] in [a, b] && [a, b][1] in [a, b];
  }

  lemma EvalOne(t: Tables, depth: nat, table: Table, r: Rule, p: Packet)
    requires !r.target.Jump? && !r.target.SetMark?
    ensures Eval(t, depth, table, [r], p)
            == if !Applies(r, p) then Fell(p) else if r.target.Return? then Returned(p) else Decided(r.target, p)
  {
    hide Applies;
    assert [r][1..] == [];
    assert Eval(t, depth, table, [], p) == Fell(p);
  }

  lemma {:induction false} EvalNetReturns(t: Tables, depth: nat, table: Table, nets: seq<Net>, p: Packet)
    ensures Eval(t, depth, table, NetReturns(nets), p) == if InSome(nets, p.dst) then Returned(p) else Fell(p)
  {
    hide Applies;
    if nets != [] {
      var front, last := nets[..|nets| - 1], nets[|nets| - 1];
      assert nets == front + [last];
      EvalNetReturns(t, depth, table, front, p);
      var r := Rule([To(last)], Return);
      EvalConcat(t, depth, table, NetReturns(front), [r], p);
      EvalOne(t, depth, table, r, p);
      AppliesTo(To(last), Return, p);
    }
  }

  predicate Bypassed(bypass: seq<Bypass>, addr: nat) {
    exists entry | entry in bypass :: entry.Some? && Contains(entry.value, addr)
  }

  lemma {:induction false} BypassContains(bypass: seq<Bypass>, addr: nat)
    ensures InSome(BypassNets(bypass), addr) <==> Bypassed(bypass, addr)
  {
    hide Contains;
    if bypass != [] {
      var front, last := bypass[..|bypass| - 1], bypass[|bypass| - 1];
      assert bypass == front + [last];
      BypassContains(front, addr);
      if last.Some? {
        assert BypassNets(bypass) == BypassNets(front) + [last.value];
        assert last.value in BypassNets(bypass) && last in bypass;
        assert forall net | net in BypassNets(front) :: net in BypassNets(bypass);
      } else {
        assert BypassNets(bypass) == BypassNets(front) + [];
      }
    }
  }

  // An entry that is a bare address exempts that address alone.
  lemma BareAddress(a: nat, addr: nat)
    ensures Contains(Net(a, 32), addr) <==> addr == a
  {
  }

  // A port that the daemon itself listens on.
  predicate IsOwnPort(ports: seq<int>, port: int) {
    port > 0 && port in ports
  }

  lemma {:induction false} EvalPortReturns(t: Tables, depth: nat, table: Table, ports: seq<int>, p: Packet)
    ensures Eval(t, depth, table, PortReturns(ports), p)
            == if p.protocol == Tcp && IsOwnPort(ports, p.dport) then Returned(p) else Fell(p)
  {
    hide Applies;
    if ports != [] {
      var front, last := ports[..|ports| - 1], ports[|ports| - 1];
      assert ports == front + [last];
      EvalPortReturns(t, depth, table, front, p);
      if last > 0 {
        var r := Rule([Proto(Tcp), DPort(last)], Return);
        EvalConcat(t, depth, table, PortReturns(front), [r], p);
        EvalOne(t, depth, table, r, p);
        AppliesBoth(Proto(Tcp), DPort(last), Return, p);
      } else {
        assert PortReturns(ports) == PortReturns(front) + [];
        assert PortReturns(front) + [] == PortReturns(front);
      }
    }
  }

  lemma EvalDnsReturn(t: Tables, depth: nat, table: Table, cfg: Config, p: Packet)
    ensures Eval(t, depth, table, DnsReturn(cfg), p)
            == if cfg.dnsForwardPort > 0 && p.protocol == Udp && p.dport == 53 then Returned(p) else Fell(p)
  {
    hide Applies;
    if cfg.dnsForwardPort > 0 {
      EvalOne(t, depth, table, Rule([Proto(Udp), DPort(53)], Return), p);
      AppliesBoth(Proto(Udp), DPort(53), Return, p);
    }
  }

  // --- Local addresses ----------------------------------------------------------------------------

  // This host, private, shared, loopback, link-local, multicast and reserved addresses.
  predicate LocalAddress(a: nat) {
    || a < 0x0100_0000
    || 0x0A00_0000 <= a < 0x0B00_0000
    || 0x6440_0000 <= a < 0x6480_0000
    || 0x7F00_0000 <= a < 0x8000_0000
    || 0xA9FE_0000 <= a < 0xA9FF_0000
    || 0xAC10_0000 <= a < 0xAC20_0000
    || 0xC0A8_0000 <= a < 0xC0A9_0000
    || 0xE000_0000 <= a < 0x1_0000_0000
  }

  lemma Spans()
    ensures Pow2(16) == 0x1_0000 && Pow2(20) == 0x10_0000 && Pow2(22) == 0x40_0000
    ensures Pow2(24) == 0x100_0000 && Pow2(28) == 0x1000_0000
  {
    assert Pow2(8) == 0x100;
    assert Pow2(16) == 0x1_0000;
    assert Pow2(20) == 0x10_0000;
    assert Pow2(22) == 0x40_0000;
    assert Pow2(24) == 0x100_0000;
  }

  lemma ContainsSpan(net: Net, span: nat, a: nat)
    requires net.bits <= 32 && span == Pow2(32 - net.bits) && span > 0 && net.addr % span == 0
    ensures Contains(net, a) <==> net.addr <= a < net.addr + span
  {
    hide Pow2;
    SameQuotient(net.addr, a, span);
  }

  lemma SameQuotient(n: nat, a: nat, span: nat)
    requires span > 0 && n % span == 0
    ensures a / span == n / span <==> n <= a < n + span
  {
    var q, r, q', r' := n / span, n % span, a / span, a % span;
    Division(n, span);
    Division(a, span);
    hide *;
    if q' < q {
      Apart(q', q, span);
    } else if q < q' {
      Apart(q, q', span);
    }
  }

  lemma Division(a: nat, s: nat)
    requires s > 0
    ensures a == (a / s) * s + a % s && 0 <= a % s < s
  {
  }

  lemma {:induction false} Apart(x: nat, y: nat, s: nat)
    requires x < y
    ensures x * s + s <= y * s
    decreases y - x
  {
    NextMultiple(y - 1, s);
    if x < y - 1 {
      Apart(x, y - 1, s);
    }
  }

  lemma NextMultiple(x: nat, s: nat)
    ensures (x + 1) * s == x * s + s
  {
  }

  // The nine prefixes cover exactly the local addresses.
  lemma LocalNets(a: nat)
    requires a < 0x1_0000_0000
    ensures InSome(LOCAL_NETS, a) <==> LocalAddress(a)
  {
    hide Contains, Pow2;
    Spans();
    var n := LOCAL_NETS;
    assert |n| == 9;
    ContainsSpan(n[0], 0x100_0000, a);
    ContainsSpan(n[1], 0x100_0000, a);
    ContainsSpan(n[2], 0x40_0000, a);
    ContainsSpan(n[3], 0x100_0000, a);
    ContainsSpan(n[4], 0x1_0000, a);
    ContainsSpan(n[5], 0x10_0000, a);
    ContainsSpan(n[6], 0x1_0000, a);
    ContainsSpan(n[7], 0x1000_0000, a);
    ContainsSpan(n[8], 0x1000_0000, a);
    if InSome(n, a) {
      var net :| net in n && Contains(net, a);
      var i :| 0 <= i < 9 && n[i] == net;
    }
    forall i | 0 <= i < 9 && Contains(n[i], a) ensures InSome(n, a) {
      assert n[i] in n;
    }
    if LocalAddress(a) {
      assert exists i :: 0 <= i < 9 && Contains(n[i], a) by {
        assert Contains(n[0], a) || Contains(n[1], a) || Contains(n[2], a) || Contains(n[3], a) || Contains(n[4], a)
            || Contains(n[5], a) || Contains(n[6], a) || Contains(n[7], a) || Contains(n[8], a);
      }
    }
  }
}
