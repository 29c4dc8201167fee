// The verdict of every packet after a successful Apply.
module Verdicts {
  import opened Basics
  import opened Netfilter
  import opened Sweep
  import opened Iptables
  import opened Guarantees
  import opened Installed
  import opened Traffic

  // Destinations that both proxy chains leave alone.
  predicate Exempt(bypass: seq<Bypass>, dst: nat) {
    LocalAddress(dst) || Bypassed(bypass, dst)
  }

  // A port that the daemon listens on: of the API, of SOCKS, or of the transparent proxy, which is 10810 unless
  // the configuration says otherwise.
  predicate DaemonPort(cfg: Config, port: int) {
    port > 0 && (port == cfg.apiPort || port == cfg.socksPort || port == if cfg.tcpPort > 0 then cfg.tcpPort else 10810)
  }

  lemma DaemonPorts(cfg: Config, port: int)
    ensures DaemonPort(cfg, port) <==> IsOwnPort(OwnPorts(cfg), port)
    ensures TcpPort(cfg) == if cfg.tcpPort > 0 then cfg.tcpPort else 10810
  {
    var ports := OwnPorts(cfg);
    assert ports[0] in ports && ports[1] in ports && ports[2] in ports;
  }

  // Device TCP that is sent to the daemon: not its own (uid 0), not exempt, not to its own ports.
  predicate Redirected(cfg: Config, bypass: seq<Bypass>, p: Packet) {
    p.protocol == Tcp && p.uid != Some(0) && !Exempt(bypass, p.dst) && !DaemonPort(cfg, p.dport)
  }

  // Device DNS that is sent to the local forwarder.
  predicate Hijacked(cfg: Config, p: Packet) {
    cfg.dnsHijack && cfg.dnsForwardPort > 0 && p.protocol == Udp && p.dport == 53 && p.uid != Some(0)
  }

  // Forwarded TCP that is sent to the daemon.
  predicate Proxied(bypass: seq<Bypass>, p: Packet) {
    p.protocol == Tcp && !Exempt(bypass, p.dst) && !(p.inIface == "lo" && p.mark % 2 == 0)
  }

  lemma Marks(p: Packet)
    ensures IsMarked(p) <==> p.mark % 2 == 1
    ensures Marked(p) == if p.mark % 2 == 1 then p else p.(mark := p.mark + 1)
  {
    assert p.mark == p.mark / 2 * 2 + p.mark % 2;
  }

  // --- The daemon's chains ----------------------------------------------------------------------------

  lemma ExemptNets(bypass: seq<Bypass>, dst: nat)
    requires dst < 0x1_0000_0000
    ensures InSome(LOCAL_NETS, dst) || InSome(BypassNets(bypass), dst) <==> Exempt(bypass, dst)
  {
    hide InSome, LocalAddress, Bypassed;
    LocalNets(dst);
    BypassContains(bypass, dst);
  }

  lemma RedirectChain(s: Tables, depth: nat, cfg: Config, bypass: seq<Bypass>, p: Packet)
    requires p.protocol == Tcp && p.dst < 0x1_0000_0000
    ensures Eval(s, depth, Nat, RedirectRules(cfg, bypass), p)
            == if Redirected(cfg, bypass, p) then Decided(Redirect(TcpPort(cfg)), p) else Returned(p)
  {
    DaemonPorts(cfg, p.dport);
    hide Eval, Applies, InSome, Exempt, IsOwnPort, NetReturns, BypassNets, PortReturns, OwnPorts, DnsReturn, TcpPort, DaemonPort;
    var a, b, c := [Rule([Owner(0)], Return)], NetReturns(LOCAL_NETS), NetReturns(BypassNets(bypass));
    var d, e, f := PortReturns(OwnPorts(cfg)), DnsReturn(cfg), [Rule([Proto(Tcp)], Redirect(TcpPort(cfg)))];
    EvalConcat(s, depth, Nat, a, b, p);
    EvalConcat(s, depth, Nat, a + b, c, p);
    EvalConcat(s, depth, Nat, a + b + c, d, p);
    EvalConcat(s, depth, Nat, a + b + c + d, e, p);
    EvalConcat(s, depth, Nat, a + b + c + d + e, f, p);
    EvalOne(s, depth, Nat, a[0], p);
    AppliesTo(Owner(0), Return, p);
    EvalNetReturns(s, depth, Nat, LOCAL_NETS, p);
    EvalNetReturns(s, depth, Nat, BypassNets(bypass), p);
    ExemptNets(bypass, p.dst);
    EvalPortReturns(s, depth, Nat, OwnPorts(cfg), p);
    EvalDnsReturn(s, depth, Nat, cfg, p);
    EvalOne(s, depth, Nat, f[0], p);
    AppliesTo(Proto(Tcp), f[0].target, p);
  }

  lemma TproxyChain(s: Tables, depth: nat, cfg: Config, bypass: seq<Bypass>, p: Packet)
    requires p.dst < 0x1_0000_0000
    ensures var o := Eval(s, depth, Mangle, TproxyRules(cfg, bypass), p);
            if Proxied(bypass, p) then o == Decided(Tproxy(TcpPort(cfg)), p) else o == Returned(p) || o == Fell(p)
  {
    Marks(p);
    hide Eval, Applies, InSome, Exempt, NetReturns, BypassNets, DnsReturn, TcpPort, IsMarked;
    var a, b, c := NetReturns(LOCAL_NETS), NetReturns(BypassNets(bypass)), [Rule([In("lo"), Unmarked], Return)];
    var d, e := DnsReturn(cfg), [Rule([Proto(Tcp)], Tproxy(TcpPort(cfg)))];
    EvalConcat(s, depth, Mangle, a, b, p);
    EvalConcat(s, depth, Mangle, a + b, c, p);
    EvalConcat(s, depth, Mangle, a + b + c, d, p);
    EvalConcat(s, depth, Mangle, a + b + c + d, e, p);
    EvalNetReturns(s, depth, Mangle, LOCAL_NETS, p);
    EvalNetReturns(s, depth, Mangle, BypassNets(bypass), p);
    ExemptNets(bypass, p.dst);
    EvalOne(s, depth, Mangle, c[0], p);
    AppliesBoth(In("lo"), Unmarked, Return, p);
    EvalDnsReturn(s, depth, Mangle, cfg, p);
    EvalOne(s, depth, Mangle, e[0], p);
    AppliesTo(Proto(Tcp), e[0].target, p);
  }

  lemma DnsChain(s: Tables, depth: nat, cfg: Config, p: Packet)
    requires p.protocol == Udp && p.dport == 53
    ensures Eval(s, depth, Nat, DnsRules(cfg), p)
            == if p.uid == Some(0) then Returned(p) else Decided(DnatLocal(cfg.dnsForwardPort), p)
  {
    hide Eval, Applies;
    var a, b := DnsRules(cfg)[0], DnsRules(cfg)[1];
    assert DnsRules(cfg) == [a] + [b];
    EvalConcat(s, depth, Nat, [a], [b], p);
    EvalOne(s, depth, Nat, a, p);
    EvalOne(s, depth, Nat, b, p);
    AppliesTo(Owner(0), Return, p);
    AppliesBoth(Proto(Udp), DPort(53), b.target, p);
  }

  lemma DivertChain(s: Tables, depth: nat, p: Packet)
    ensures Eval(s, depth, Mangle, DIVERT_RULES, p) == Decided(Accept, Marked(p))
  {
    hide Marked;
    assert DIVERT_RULES[1..] == [Rule([], Accept)];
    assert Applies(DIVERT_RULES[0], p) && Applies(Rule([], Accept), Marked(p));
  }

  // A hook at the head of a rule list: packets it does not match, and packets its chain lets go,
  // continue with the rest.
  lemma EvalHook(s: Tables, depth: nat, table: Table, hook: Rule, rest: seq<Rule>, p: Packet)
    requires depth > 0 && hook.target.Jump? && User(table, hook.target.name) in s
    ensures Eval(s, depth, table, [hook] + rest, p)
            == if !Applies(hook, p) then Eval(s, depth, table, rest, p)
               else
                 var o := Eval(s, depth - 1, table, s[User(table, hook.target.name)], p);
                 if o.Fell? || o.Returned? then Eval(s, depth, table, rest, o.packet) else o
  {
    hide Applies;
    assert ([hook] + rest)[0] == hook && ([hook] + rest)[1..] == rest;
  }

  // The rules that were there before get the same outcome in both states.
  lemma OldRules(t: Tables, s: Tables, depth: nat, ch: Chain, p: Packet)
    requires WellFormed(t) && SharesUserChains(t, s, ch.table) && ch in t
    ensures Eval(s, depth, ch.table, t[ch], p) == Eval(t, depth, ch.table, t[ch], p)
  {
    EvalFrame(t, s, depth, ch.table, t[ch], p);
  }

  lemma NatVerdict(cfg: Config, bypass: seq<Bypass>, t: Tables, s: Tables, depth: nat, p: Packet)
    requires NAT_OUTPUT in t && NatShape(cfg, bypass, t, s, Hijacks(cfg))
    requires depth > 0 && p.dst < 0x1_0000_0000
    ensures Eval(s, depth, Nat, s[NAT_OUTPUT], p)
            == if Hijacked(cfg, p) then Decided(DnatLocal(cfg.dnsForwardPort), p)
               else if Redirected(cfg, bypass, p) then Decided(Redirect(TcpPort(cfg)), p)
               else Eval(s, depth, Nat, t[NAT_OUTPUT], p)
  {
    hide Eval, Applies, RedirectRules, DnsRules, TcpPort, DaemonPort, Exempt, OutName, DnsName;
    var orig, hook := t[NAT_OUTPUT], TcpTo(OutName(cfg));
    EvalHook(s, depth, Nat, hook, orig, p);
    AppliesTo(Proto(Tcp), hook.target, p);
    if p.protocol == Tcp {
      RedirectChain(s, depth - 1, cfg, bypass, p);
    }
    if Hijacks(cfg) {
      var dns := DnsTo(DnsName(cfg));
      assert s[NAT_OUTPUT] == [dns] + ([hook] + orig);
      EvalHook(s, depth, Nat, dns, [hook] + orig, p);
      AppliesBoth(Proto(Udp), DPort(53), dns.target, p);
      if p.protocol == Udp && p.dport == 53 {
        DnsChain(s, depth - 1, cfg, p);
      }
    } else {
      assert s[NAT_OUTPUT] == [hook] + orig;
    }
  }

  lemma MangleVerdict(k: Kernel, cfg: Config, bypass: seq<Bypass>, t: Tables, s: Tables, depth: nat, p: Packet)
    requires MANGLE_PREROUTING in t && MangleShape(k, cfg, bypass, t, s)
    requires depth > 0 && p.dst < 0x1_0000_0000
    ensures Eval(s, depth, Mangle, s[MANGLE_PREROUTING], p)
            == if k(Insert(MANGLE_PREROUTING, DIVERT_HOOK)) && p.protocol == Tcp && p.transparent
               then Decided(Accept, Marked(p))
               else if Proxied(bypass, p) then Decided(Tproxy(TcpPort(cfg)), p)
               else Eval(s, depth, Mangle, t[MANGLE_PREROUTING], p)
  {
    hide Eval, Applies, TproxyRules, TcpPort, Exempt, PreName, Marked, IsMarked;
    var orig, hook := t[MANGLE_PREROUTING], AllTo(PreName(cfg));
    EvalHook(s, depth, Mangle, hook, orig, p);
    AppliesAlways(hook.target, p);
    TproxyChain(s, depth - 1, cfg, bypass, p);
    if k(Insert(MANGLE_PREROUTING, DIVERT_HOOK)) {
      assert s[MANGLE_PREROUTING] == [DIVERT_HOOK] + ([hook] + orig);
      EvalHook(s, depth, Mangle, DIVERT_HOOK, [hook] + orig, p);
      AppliesBoth(Proto(Tcp), TransparentSocket, DIVERT_HOOK.target, p);
      DivertChain(s, depth - 1, p);
    } else {
      assert s[MANGLE_PREROUTING] == [hook] + orig;
    }
  }

  lemma AppliesAlways(target: Target, p: Packet)
    ensures Applies(Rule([], target), p)
  {
  }

  predicate IsQuic(p: Packet) {
    p.protocol == Udp && (p.dport == 443 || p.dport == 80)
  }

  lemma QuicVerdict(k: Kernel, t: Tables, s: Tables, depth: nat, p: Packet)
    requires FILTER_OUTPUT in t && FilterShape(k, t, s)
    ensures Eval(s, depth, Filter, s[FILTER_OUTPUT], p)
         == if IsQuic(p) then Decided(QuicBlock(k, p.dport).target, p) else Eval(s, depth, Filter, t[FILTER_OUTPUT], p)
  {
    hide Eval, Applies;
    var q80, q443 := QuicBlock(k, 80), QuicBlock(k, 443);
    assert [q80, q443] == [q80] + [q443];
    EvalConcat(s, depth, Filter, [q80], [q443], p);
    EvalConcat(s, depth, Filter, [q80, q443], t[FILTER_OUTPUT], p);
    EvalOne(s, depth, Filter, q80, p);
    EvalOne(s, depth, Filter, q443, p);
    AppliesBoth(Proto(Udp), DPort(80), q80.target, p);
    AppliesBoth(Proto(Udp), DPort(443), q443.target, p);
  }

  // --- Main results -------------------------------------------------------------------------------------

  // nat OUTPUT: exactly the redirected TCP goes to the daemon and exactly the hijacked DNS to its
  // forwarder; every other packet gets the verdict of the rules that were there before. Of the kernel this
  // needs what Apply asks of it for the nat table.
  lemma OutputVerdict(k: Kernel, cfg: Config, bypass: seq<Bypass>, t: Tables, depth: nat, p: Packet)
    requires Supports(k, RedirectProgram(cfg, bypass))
    requires Hijacks(cfg) ==> Supports(k, DnsProgram(cfg)) && k(Insert(NAT_OUTPUT, DnsTo(DnsName(cfg))))
    requires WellFormed(t) && NAT_OUTPUT in t && DaemonFree(cfg, t) && Applied(k, cfg, bypass, t).1
    requires depth > 0 && p.dst < 0x1_0000_0000
    ensures var s := Applied(k, cfg, bypass, t).0;
            NAT_OUTPUT in s && Eval(s, depth, Nat, s[NAT_OUTPUT], p) ==
            if Hijacked(cfg, p) then Decided(DnatLocal(cfg.dnsForwardPort), p)
            else if Redirected(cfg, bypass, p) then Decided(Redirect(if cfg.tcpPort > 0 then cfg.tcpPort else 10810), p)
            else Eval(t, depth, Nat, t[NAT_OUTPUT], p)
  {
    DaemonPorts(cfg, p.dport);
    hide Applied, Eval, Supports, RedirectProgram, DnsProgram, DaemonFree, WellFormed, Hijacked, Redirected, TcpPort,
         RedirectRules, DnsRules, OutName, DnsName;
    InstalledNat(k, cfg, bypass, t);
    var s := Applied(k, cfg, bypass, t).0;
    OldRules(t, s, depth, NAT_OUTPUT, p);
    NatVerdict(cfg, bypass, t, s, depth, p);
  }

  // One more bypass entry, a bare address, exempts what goes to that address and nothing else.
  lemma BareEntryExempts(bypass: seq<Bypass>, a: nat, dst: nat)
    ensures Exempt(bypass + [Some(Net(a, 32))], dst) <==> Exempt(bypass, dst) || dst == a
  {
    var more := bypass + [Some(Net(a, 32))];
    BareAddress(a, dst);
    assert more[|bypass|] in more;
    assert forall entry | entry in more :: entry in bypass || entry == Some(Net(a, 32));
    assert forall entry | entry in bypass :: entry in more;
    hide Contains, LocalAddress;
  }

  // So in nat OUTPUT the packets to it, and no others, get the verdict that they had before the daemon came
  // instead of the redirection.
  lemma OutputBypass(k: Kernel, cfg: Config, bypass: seq<Bypass>, a: nat, t: Tables, depth: nat, p: Packet)
    requires Supports(k, RedirectProgram(cfg, bypass)) && Supports(k, RedirectProgram(cfg, bypass + [Some(Net(a, 32))]))
    requires Hijacks(cfg) ==> Supports(k, DnsProgram(cfg)) && k(Insert(NAT_OUTPUT, DnsTo(DnsName(cfg))))
    requires WellFormed(t) && DaemonFree(cfg, t) && HooksTaken(k, cfg, t)
    requires depth > 0 && p.dst < 0x1_0000_0000
    ensures var s, s' := Applied(k, cfg, bypass, t).0, Applied(k, cfg, bypass + [Some(Net(a, 32))], t).0;
            && NAT_OUTPUT in s && NAT_OUTPUT in s'
            && Eval(s', depth, Nat, s'[NAT_OUTPUT], p)
               == if Redirected(cfg, bypass, p) && p.dst == a then Eval(t, depth, Nat, t[NAT_OUTPUT], p)
                  else Eval(s, depth, Nat, s[NAT_OUTPUT], p)
  {
    RefusedIsFailed(k, cfg, bypass, t);
    RefusedIsFailed(k, cfg, bypass + [Some(Net(a, 32))], t);
    BareEntryExempts(bypass, a, p.dst);
    hide Applied, Eval, Supports, RedirectProgram, DnsProgram, DaemonFree, WellFormed, TcpPort, OutName, DnsName, Exempt,
         DaemonPort;
    OutputVerdict(k, cfg, bypass, t, depth, p);
    OutputVerdict(k, cfg, bypass + [Some(Net(a, 32))], t, depth, p);
  }

  // mangle PREROUTING: transparent-socket TCP is marked and accepted (when the kernel takes that hook),
  // exactly the proxied TCP goes to the daemon, and everything else continues, with its mark unchanged, to
  // the rules that were there before.
  lemma PreroutingVerdict(k: Kernel, cfg: Config, bypass: seq<Bypass>, t: Tables, depth: nat, p: Packet)
    requires Supports(k, TproxyProgram(cfg, bypass)) && Supports(k, DIVERT_PROGRAM)
    requires WellFormed(t) && MANGLE_PREROUTING in t && DaemonFree(cfg, t) && Applied(k, cfg, bypass, t).1
    requires depth > 0 && p.dst < 0x1_0000_0000
    ensures var s := Applied(k, cfg, bypass, t).0;
            MANGLE_PREROUTING in s && Eval(s, depth, Mangle, s[MANGLE_PREROUTING], p) ==
            if k(Insert(MANGLE_PREROUTING, DIVERT_HOOK)) && p.protocol == Tcp && p.transparent then
              Decided(Accept, if p.mark % 2 == 1 then p else p.(mark := p.mark + 1))
            else if Proxied(bypass, p) then Decided(Tproxy(if cfg.tcpPort > 0 then cfg.tcpPort else 10810), p)
            else Eval(t, depth, Mangle, t[MANGLE_PREROUTING], p)
  {
    Marks(p);
    DaemonPorts(cfg, p.dport);
    hide Applied, Eval, Supports, TproxyProgram, DaemonFree, WellFormed, Proxied, Marked, TcpPort, TproxyRules, PreName;
    InstalledMangle(k, cfg, bypass, t);
    var s := Applied(k, cfg, bypass, t).0;
    OldRules(t, s, depth, MANGLE_PREROUTING, p);
    MangleVerdict(k, cfg, bypass, t, s, depth, p);
  }

  // filter OUTPUT: all UDP to ports 443 and 80 is rejected, or dropped if the kernel has no such REJECT, and nothing
  // else changes.
  lemma FilterVerdict(k: Kernel, cfg: Config, bypass: seq<Bypass>, t: Tables, depth: nat, p: Packet)
    requires Blocks(k) && WellFormed(t) && FILTER_OUTPUT in t && DaemonFree(cfg, t) && Applied(k, cfg, bypass, t).1
    ensures var s := Applied(k, cfg, bypass, t).0;
            FILTER_OUTPUT in s && Eval(s, depth, Filter, s[FILTER_OUTPUT], p) ==
            if p.protocol == Udp && (p.dport == 443 || p.dport == 80) then
              var reject := Reject("icmp-port-unreachable");
              Decided(if k(Insert(FILTER_OUTPUT, Rule([Proto(Udp), DPort(p.dport)], reject))) then reject else Drop, p)
            else Eval(t, depth, Filter, t[FILTER_OUTPUT], p)
  {
    hide Applied, Eval, Blocks, DaemonFree, WellFormed;
    InstalledFilter(k, cfg, bypass, t);
    var s := Applied(k, cfg, bypass, t).0;
    OldRules(t, s, depth, FILTER_OUTPUT, p);
    QuicVerdict(k, t, s, depth, p);
  }

  // What blocks IPv6: REJECT, or DROP if the kernel has no such REJECT.
  function Blocked6(k: Kernel): Target {
    var reject := Reject("icmp6-adm-prohibited");
    if k(Append(User(Filter, "SSHC_DROP6"), Rule([], reject))) then reject else Drop
  }

  // IPv6 filter OUTPUT and FORWARD, once the hook is in: every packet that does not leave by loopback
  // is rejected or dropped, and loopback traffic gets the verdict of the other rules.
  lemma Verdict6(k: Kernel, t: Tables, hook: Hook, depth: nat, p: Packet)
    requires k(New(DROP6)) && k(Append(DROP6, Rule([Out("lo")], Return)))
    requires k(Append(DROP6, REJECT6)) || k(Append(DROP6, Rule([], Drop)))
    requires WellFormed(t) && DaemonFree6(t) && depth > 0
    requires hook != Prerouting && Builtin(Filter, hook) in t && k(Insert(Builtin(Filter, hook), DROP6_HOOK))
    ensures var s, ch := Disabled6(k, t), Builtin(Filter, hook);
            && ch in s
            && Eval(s, depth, Filter, s[ch], p)
               == if p.outIface != "lo" then Decided(Blocked6(k), p) else Eval(t, depth, Filter, t[ch], p)
  {
    Shape6(k, t, hook);
    hide Disabled6, Applies, Eval, DaemonFree6, WellFormed;
    var s, ch := Disabled6(k, t), Builtin(Filter, hook);
    var lo, block := Rule([Out("lo")], Return), Rule([], Blocked6(k));
    EvalHook(s, depth, Filter, DROP6_HOOK, t[ch], p);
    AppliesAlways(DROP6_HOOK.target, p);
    EvalConcat(s, depth - 1, Filter, [lo], [block], p);
    EvalOne(s, depth - 1, Filter, lo, p);
    EvalOne(s, depth - 1, Filter, block, p);
    AppliesTo(Out("lo"), Return, p);
    AppliesAlways(block.target, p);
    assert "lo"[1] == 'o';
    OldRules(t, s, depth, ch, p);
  }

  lemma Shape6(k: Kernel, t: Tables, hook: Hook)
    requires k(New(DROP6)) && k(Append(DROP6, Rule([Out("lo")], Return)))
    requires k(Append(DROP6, REJECT6)) || k(Append(DROP6, Rule([], Drop)))
    requires DaemonFree6(t) && hook != Prerouting && Builtin(Filter, hook) in t && k(Insert(Builtin(Filter, hook), DROP6_HOOK))
    ensures var s, ch := Disabled6(k, t), Builtin(Filter, hook);
            && DROP6 in s && s[DROP6] == [Rule([Out("lo")], Return)] + [Rule([], Blocked6(k))]
            && ch in s && s[ch] == [DROP6_HOOK] + t[ch] && SharesUserChains(t, s, Filter)
  {
    Disabled6Form(k, t);
    HookAbsent6(t, FILTER_OUTPUT);
    HookAbsent6(t, FILTER_FORWARD);
    hide Disabled6, RemoveFirst;
  }

  lemma HookAbsent6(t: Tables, ch: Chain)
    requires DaemonFree6(t) && (ch == FILTER_OUTPUT || ch == FILTER_FORWARD)
    ensures ch in t ==> RemoveFirst(t[ch], DROP6_HOOK) == t[ch]
  {
    if ch in t {
      RemoveFirstAbsent(t[ch], DROP6_HOOK);
    }
  }
}
