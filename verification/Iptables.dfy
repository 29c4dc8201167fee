// internal/iptables: the rule program of Apply and Cleanup, as command lists and as the class that
// issues them. Addresses are IPv4 numbers; sysctls, policy routing and Android settings are not modelled.
module Iptables {
  import opened Basics
  import opened Netfilter

  datatype Config = Config(
    prefix: string, tcpPort: int, apiPort: int, socksPort: int, dnsForwardPort: int,
    dnsHijack: bool, hotspot: bool, hotspotDns: bool, ifaces: seq<string>)

  // One bypass entry after TrimSpace: an IPv4 address (a prefix of 32 bits) or prefix, or nothing if it is
  // blank. Appending an entry that iptables cannot parse fails, which leaves the chain as a blank one does.
  type Bypass = Option<Net>

  const DEFAULT_PREFIX := "SSHC"
  const DEFAULT_IFACES := ["wlan+", "swlan+", "ap+", "rndis+", "ncm+", "bt-pan+"]
  const DIVERT := User(Mangle, "DIVERT")
  const DROP6 := User(Filter, "SSHC_DROP6")

  const NAT_OUTPUT := Builtin(Nat, Output)
  const NAT_PREROUTING := Builtin(Nat, Prerouting)
  const MANGLE_OUTPUT := Builtin(Mangle, Output)
  const MANGLE_PREROUTING := Builtin(Mangle, Prerouting)
  const FILTER_OUTPUT := Builtin(Filter, Output)
  const FILTER_FORWARD := Builtin(Filter, Forward)

  // 0/8, 10/8, 100.64/10, 127/8, 169.254/16, 172.16/12, 192.168/16, 224/4, 240/4
  const LOCAL_NETS := [
    Net(0x0000_0000, 8), Net(0x0A00_0000, 8), Net(0x6440_0000, 10), Net(0x7F00_0000, 8),
    Net(0xA9FE_0000, 16), Net(0xAC10_0000, 12), Net(0xC0A8_0000, 16),
    Net(0xE000_0000, 4), Net(0xF000_0000, 4)]

  const SUFFIXES := [
    "_OUT", "_PRE", "_DNS", "_MOUT", "_OUTPUT", "_PREROUTING", "_PROXY",
    "_HOTSPOT", "_HOTSPOT_DNS", "_TPROXY"]

  function Prefix(cfg: Config): string {
    if cfg.prefix == "" then DEFAULT_PREFIX else cfg.prefix
  }

  function TcpPort(cfg: Config): int {
    if cfg.tcpPort <= 0 then 10810 else cfg.tcpPort
  }

  // Interface names, trimmed, without the blank ones.
  function NonBlank(ifaces: seq<string>): seq<string> {
    if ifaces == [] then []
    else
      var iface := TrimSpace(ifaces[|ifaces| - 1]);
      NonBlank(ifaces[..|ifaces| - 1]) + (if iface == "" then [] else [iface])
  }

  function IfaceList(cfg: Config): seq<string> {
    if cfg.ifaces == [] then DEFAULT_IFACES else cfg.ifaces
  }

  function OutName(cfg: Config): string { Prefix(cfg) + "_OUT" }
  function PreName(cfg: Config): string { Prefix(cfg) + "_PRE" }
  function DnsName(cfg: Config): string { Prefix(cfg) + "_DNS" }

  // --- Rules ------------------------------------------------------------------------------------

  function TcpTo(name: string): Rule { Rule([Proto(Tcp)], Jump(name)) }
  function AllTo(name: string): Rule { Rule([], Jump(name)) }
  function DnsTo(name: string): Rule { Rule([Proto(Udp), DPort(53)], Jump(name)) }
  function IfaceTcpTo(iface: string, name: string): Rule { Rule([In(iface), Proto(Tcp)], Jump(name)) }
  function IfaceAllTo(iface: string, name: string): Rule { Rule([In(iface)], Jump(name)) }
  function IfaceDnsTo(iface: string, name: string): Rule { Rule([In(iface), Proto(Udp), DPort(53)], Jump(name)) }

  const DIVERT_HOOK := Rule([Proto(Tcp), TransparentSocket], Jump("DIVERT"))
  const FORWARD_ALL := Rule([], Accept)
  const DROP6_HOOK := Rule([], Jump("SSHC_DROP6"))

  function QuicDrop(port: int): Rule { Rule([Proto(Udp), DPort(port)], Drop) }
  function QuicReject(port: int): Rule { Rule([Proto(Udp), DPort(port)], Reject("icmp-port-unreachable")) }

  function NetReturns(nets: seq<Net>): seq<Rule> {
    if nets == [] then [] else NetReturns(nets[..|nets| - 1]) + [Rule([To(nets[|nets| - 1])], Return)]
  }

  function BypassNets(bypass: seq<Bypass>): seq<Net> {
    if bypass == [] then []
    else
      BypassNets(bypass[..|bypass| - 1])
      + match bypass[|bypass| - 1] case None => [] case Some(net) => [net]
  }

  function OwnPorts(cfg: Config): seq<int> {
    [cfg.apiPort, cfg.socksPort, TcpPort(cfg)]
  }

  function PortReturns(ports: seq<int>): seq<Rule> {
    if ports == [] then []
    else
      var p := ports[|ports| - 1];
      PortReturns(ports[..|ports| - 1]) + (if p > 0 then [Rule([Proto(Tcp), DPort(p)], Return)] else [])
  }

  function DnsReturn(cfg: Config): seq<Rule> {
    if cfg.dnsForwardPort > 0 then [Rule([Proto(Udp), DPort(53)], Return)] else []
  }

  function RedirectRules(cfg: Config, bypass: seq<Bypass>): seq<Rule> {
    [Rule([Owner(0)], Return)] + NetReturns(LOCAL_NETS) + NetReturns(BypassNets(bypass))
    + PortReturns(OwnPorts(cfg)) + DnsReturn(cfg) + [Rule([Proto(Tcp)], Redirect(TcpPort(cfg)))]
  }

  function TproxyRules(cfg: Config, bypass: seq<Bypass>): seq<Rule> {
    NetReturns(LOCAL_NETS) + NetReturns(BypassNets(bypass)) + [Rule([In("lo"), Unmarked], Return)]
    + DnsReturn(cfg) + [Rule([Proto(Tcp)], Tproxy(TcpPort(cfg)))]
  }

  const DIVERT_RULES := [Rule([], SetMark), Rule([], Accept)]

  function DnsRules(cfg: Config): seq<Rule> {
    [Rule([Owner(0)], Return), Rule([Proto(Udp), DPort(53)], DnatLocal(cfg.dnsForwardPort))]
  }

  // --- Command lists ----------------------------------------------------------------------------

  function Appends(ch: Chain, rules: seq<Rule>): seq<Command> {
    if rules == [] then [] else Appends(ch, rules[..|rules| - 1]) + [Append(ch, rules[|rules| - 1])]
  }

  // ensureChain followed by one addRule per rule.
  function Build(ch: Chain, rules: seq<Rule>): seq<Command> {
    [New(ch), Flush(ch)] + Appends(ch, rules)
  }

  // delRule followed by insRule.
  function Rehook(ch: Chain, r: Rule): seq<Command> {
    [Delete(ch, r), Insert(ch, r)]
  }

  function RehookDns(ifaces: seq<string>, name: string): seq<Command> {
    if ifaces == [] then []
    else RehookDns(ifaces[..|ifaces| - 1], name) + Rehook(NAT_PREROUTING, IfaceDnsTo(ifaces[|ifaces| - 1], name))
  }

  function RedirectProgram(cfg: Config, bypass: seq<Bypass>): seq<Command> {
    Build(User(Nat, OutName(cfg)), RedirectRules(cfg, bypass)) + Rehook(NAT_OUTPUT, TcpTo(OutName(cfg)))
  }

  function TproxyProgram(cfg: Config, bypass: seq<Bypass>): seq<Command> {
    Build(User(Mangle, PreName(cfg)), TproxyRules(cfg, bypass)) + Rehook(MANGLE_PREROUTING, AllTo(PreName(cfg)))
  }

  const DIVERT_PROGRAM := Build(DIVERT, DIVERT_RULES) + Rehook(MANGLE_PREROUTING, DIVERT_HOOK)

  function DnsProgram(cfg: Config): seq<Command> {
    Build(User(Nat, DnsName(cfg)), DnsRules(cfg)) + Rehook(NAT_OUTPUT, DnsTo(DnsName(cfg)))
    + if cfg.hotspot && cfg.hotspotDns then RehookDns(NonBlank(IfaceList(cfg)), DnsName(cfg)) else []
  }

  function IfaceDetachOne(iface: string, name: string): seq<Command> {
    [Delete(NAT_PREROUTING, IfaceTcpTo(iface, name)), Delete(NAT_PREROUTING, IfaceAllTo(iface, name)),
     Delete(NAT_PREROUTING, IfaceDnsTo(iface, name))]
  }

  function IfaceDetach(ifaces: seq<string>, name: string): seq<Command> {
    if ifaces == [] then []
    else IfaceDetach(ifaces[..|ifaces| - 1], name) + IfaceDetachOne(ifaces[|ifaces| - 1], name)
  }

  function NatDetach(name: string): seq<Command> {
    [Delete(NAT_OUTPUT, TcpTo(name)), Delete(NAT_OUTPUT, AllTo(name)), Delete(NAT_OUTPUT, DnsTo(name)),
     Delete(NAT_PREROUTING, TcpTo(name)), Delete(NAT_PREROUTING, AllTo(name)), Delete(NAT_PREROUTING, DnsTo(name))]
  }

  function MangleDetach(name: string): seq<Command> {
    [Delete(MANGLE_PREROUTING, AllTo(name)), Delete(MANGLE_OUTPUT, AllTo(name))]
  }

  function Remove(ch: Chain): seq<Command> {
    [Flush(ch), Destroy(ch)]
  }

  // Everything cleanupRules does for one chain name.
  function Detach(ifaces: seq<string>, name: string): seq<Command> {
    NatDetach(name) + IfaceDetach(ifaces, name) + MangleDetach(name)
    + Remove(User(Nat, name)) + Remove(User(Mangle, name))
  }

  function DetachAll(ifaces: seq<string>, prefix: string, suffixes: seq<string>): seq<Command> {
    if suffixes == [] then []
    else
      DetachAll(ifaces, prefix, suffixes[..|suffixes| - 1]) + Detach(ifaces, prefix + suffixes[|suffixes| - 1])
  }

  function Repeat(c: Command, n: nat): seq<Command> {
    if n == 0 then [] else Repeat(c, n - 1) + [c]
  }

  function UnblockPort(port: int): seq<Command> {
    Repeat(Delete(FILTER_OUTPUT, QuicDrop(port)), 4) + Repeat(Delete(FILTER_OUTPUT, QuicReject(port)), 4)
  }

  function CleanupHead(prefix: string): seq<Command> {
    [Delete(NAT_OUTPUT, TcpTo(prefix + "_OUT")), Delete(MANGLE_PREROUTING, AllTo(prefix + "_PRE")),
     Delete(MANGLE_PREROUTING, DIVERT_HOOK)]
  }

  const CLEANUP_TAIL := Remove(DIVERT) + [Delete(FILTER_FORWARD, FORWARD_ALL)] + UnblockPort(443) + UnblockPort(80)

  function CleanupProgram(cfg: Config): seq<Command> {
    CleanupHead(Prefix(cfg)) + DetachAll(NonBlank(IfaceList(cfg)), Prefix(cfg), SUFFIXES) + CLEANUP_TAIL
  }

  const ENABLE6_PROGRAM :=
    [Delete(FILTER_OUTPUT, DROP6_HOOK), Delete(FILTER_FORWARD, DROP6_HOOK)] + Remove(DROP6)

  // --- What Apply computes ----------------------------------------------------------------------

  // -I only when -C does not find the rule. The result says whether the rule is in place.
  function InsertMissing(k: Kernel, t: Tables, ch: Chain, r: Rule): (Tables, bool) {
    if ch in t && r in t[ch] then (t, true) else Step(k, t, Insert(ch, r))
  }

  function BlockPort(k: Kernel, t: Tables, port: int): Tables {
    var (t1, ok) := InsertMissing(k, t, FILTER_OUTPUT, QuicReject(port));
    if ok then t1 else InsertMissing(k, t1, FILTER_OUTPUT, QuicDrop(port)).0
  }

  // The state and outcome of a program whose last command is checked.
  function Checked(k: Kernel, t: Tables, cs: seq<Command>): (Tables, bool)
    requires cs != []
  {
    Step(k, Run(k, t, cs[..|cs| - 1]), cs[|cs| - 1])
  }

  // Phases 5 to 7: unchecked, so they never fail.
  function FinishInstall(k: Kernel, cfg: Config, t: Tables): Tables {
    var t1 := if cfg.dnsHijack && cfg.dnsForwardPort > 0 then Run(k, t, DnsProgram(cfg)) else t;
    var t2 := if cfg.hotspot then InsertMissing(k, t1, FILTER_FORWARD, FORWARD_ALL).0 else t1;
    BlockPort(k, BlockPort(k, t2, 443), 80)
  }

  // Phases 2 to 7, up to the first failing hook.
  function Install(k: Kernel, cfg: Config, bypass: seq<Bypass>, t: Tables): (Tables, bool) {
    var (t1, ok1) := Checked(k, t, RedirectProgram(cfg, bypass));
    if !ok1 then (t1, false) else
    var (t2, ok2) := Checked(k, t1, TproxyProgram(cfg, bypass));
    if !ok2 then (t2, false) else
    (FinishInstall(k, cfg, Run(k, t2, DIVERT_PROGRAM)), true)
  }

  // IPv4 tables after Apply, and whether it returned nil.
  function Applied(k: Kernel, cfg: Config, bypass: seq<Bypass>, t: Tables): (Tables, bool) {
    var (t1, ok) := Install(k, cfg, bypass, Run(k, t, CleanupProgram(cfg)));
    if ok then (t1, true) else (Run(k, t1, CleanupProgram(cfg)), false)
  }

  const REJECT6 := Rule([], Reject("icmp6-adm-prohibited"))
  const BUILD6 := Build(DROP6, [Rule([Out("lo")], Return)])
  const HOOK6 := Rehook(FILTER_OUTPUT, DROP6_HOOK) + Rehook(FILTER_FORWARD, DROP6_HOOK)

  // IPv6 filter table after disableIPv6.
  function Disabled6(k: Kernel, t: Tables): Tables {
    var (t1, ok) := Checked(k, t, BUILD6 + [Append(DROP6, REJECT6)]);
    var t2 := if ok then t1 else Step(k, t1, Append(DROP6, Rule([], Drop))).0;
    Run(k, t2, HOOK6)
  }

  // --- The class that issues the commands -------------------------------------------------------

  class Firewall {
    const kernel4: Kernel
    const kernel6: Kernel
    var v4: Tables
    var v6: Tables

    constructor (kernel4: Kernel, kernel6: Kernel, v4: Tables, v6: Tables)
      ensures this.kernel4 == kernel4 && this.kernel6 == kernel6 && this.v4 == v4 && this.v6 == v6
    {
      this.kernel4, this.kernel6, this.v4, this.v6 := kernel4, kernel6, v4, v6;
    }

    method Ipt(c: Command) returns (ok: bool)
      modifies this`v4
      ensures (v4, ok) == Step(kernel4, old(v4), c)
      ensures v4 == Run(kernel4, old(v4), [c])
    {
      RunOne(kernel4, v4, c);
      var r := Step(kernel4, v4, c);
      v4, ok := r.0, r.1;
    }

    method Ip6t(c: Command) returns (ok: bool)
      modifies this`v6
      ensures (v6, ok) == Step(kernel6, old(v6), c)
      ensures v6 == Run(kernel6, old(v6), [c])
    {
      RunOne(kernel6, v6, c);
      var r := Step(kernel6, v6, c);
      v6, ok := r.0, r.1;
    }

    method RuleExists(ch: Chain, r: Rule) returns (found: bool)
      ensures found <==> ch in v4 && r in v4[ch]
    {
      found := ch in v4 && r in v4[ch];
    }

    method EnsureChain(ch: Chain)
      requires ch.User?
      modifies this`v4
      ensures v4 == Run(kernel4, old(v4), [New(ch), Flush(ch)])
    {
      RunConcat(kernel4, v4, [New(ch)], [Flush(ch)]);
      RunOne(kernel4, v4, New(ch));
      if ch !in v4 {
        var _ := Ipt(New(ch));
      }
      var _ := Ipt(Flush(ch));
    }

    method DelRule(ch: Chain, r: Rule)
      modifies this`v4
      ensures v4 == Run(kernel4, old(v4), [Delete(ch, r)])
    {
      var _ := Ipt(Delete(ch, r));
    }

    method AddRule(ch: Chain, r: Rule)
      modifies this`v4
      ensures v4 == Run(kernel4, old(v4), Appends(ch, [r]))
    {
      assert Appends(ch, [r]) == [Append(ch, r)];
      var _ := Ipt(Append(ch, r));
    }

    method AppendNets(ch: Chain, nets: seq<Net>)
      modifies this`v4
      ensures v4 == Run(kernel4, old(v4), Appends(ch, NetReturns(nets)))
    {
      hide Step;
      for i := 0 to |nets|
        invariant v4 == Run(kernel4, old(v4), Appends(ch, NetReturns(nets[..i])))
      {
        var r := Rule([To(nets[i])], Return);
        AddRule(ch, r);
        assert nets[..i + 1][..i] == nets[..i];
        Grow(kernel4, old(v4), ch, NetReturns(nets[..i]), [r]);
      }
      assert nets[..|nets|] == nets;
    }

    method AppendBypass(ch: Chain, bypass: seq<Bypass>)
      modifies this`v4
      ensures v4 == Run(kernel4, old(v4), Appends(ch, NetReturns(BypassNets(bypass))))
    {
      hide Step;
      for i := 0 to |bypass|
        invariant v4 == Run(kernel4, old(v4), Appends(ch, NetReturns(BypassNets(bypass[..i]))))
      {
        assert bypass[..i + 1][..i] == bypass[..i];
        ghost var nets := BypassNets(bypass[..i]);
        if bypass[i].Some? {
          var r := Rule([To(bypass[i].value)], Return);
          AddRule(ch, r);
          assert (nets + [bypass[i].value])[..|nets|] == nets;
          Grow(kernel4, old(v4), ch, NetReturns(nets), [r]);
        } else {
          assert nets + [] == nets;
        }
      }
      assert bypass[..|bypass|] == bypass;
    }

    method AppendPorts(ch: Chain, ports: seq<int>)
      modifies this`v4
      ensures v4 == Run(kernel4, old(v4), Appends(ch, PortReturns(ports)))
    {
      hide Step;
      for i := 0 to |ports|
        invariant v4 == Run(kernel4, old(v4), Appends(ch, PortReturns(ports[..i])))
      {
        assert ports[..i + 1][..i] == ports[..i];
        if ports[i] > 0 {
          var r := Rule([Proto(Tcp), DPort(ports[i])], Return);
          AddRule(ch, r);
          Grow(kernel4, old(v4), ch, PortReturns(ports[..i]), [r]);
        } else {
          assert PortReturns(ports[..i]) + [] == PortReturns(ports[..i]);
        }
      }
      assert ports[..|ports|] == ports;
    }

    method AppendDnsReturn(cfg: Config, ch: Chain)
      modifies this`v4
      ensures v4 == Run(kernel4, old(v4), Appends(ch, DnsReturn(cfg)))
    {
      hide Step;
      if cfg.dnsForwardPort > 0 {
        AddRule(ch, Rule([Proto(Udp), DPort(53)], Return));
      }
    }

    // delRule, then a checked insRule.
    method HookIn(ch: Chain, r: Rule) returns (ok: bool)
      modifies this`v4
      ensures v4 == Run(kernel4, old(v4), Rehook(ch, r))
      ensures ok == Step(kernel4, Run(kernel4, old(v4), [Delete(ch, r)]), Insert(ch, r)).1
    {
      DelRule(ch, r);
      ok := Ipt(Insert(ch, r));
      RunConcat(kernel4, old(v4), [Delete(ch, r)], [Insert(ch, r)]);
      assert Rehook(ch, r) == [Delete(ch, r)] + [Insert(ch, r)];
    }

    // Phase 2.
    method InstallRedirect(cfg: Config, bypass: seq<Bypass>) returns (ok: bool)
      modifies this`v4
      ensures (v4, ok) == Checked(kernel4, old(v4), RedirectProgram(cfg, bypass))
    {
      hide Step;
      var ch := User(Nat, OutName(cfg));
      EnsureChain(ch);
      ghost var t := v4;
      AddRule(ch, Rule([Owner(0)], Return));
      ghost var rules := [Rule([Owner(0)], Return)];
      AppendNets(ch, LOCAL_NETS);
      Grow(kernel4, t, ch, rules, NetReturns(LOCAL_NETS));
      rules := rules + NetReturns(LOCAL_NETS);
      AppendBypass(ch, bypass);
      Grow(kernel4, t, ch, rules, NetReturns(BypassNets(bypass)));
      rules := rules + NetReturns(BypassNets(bypass));
      AppendPorts(ch, OwnPorts(cfg));
      Grow(kernel4, t, ch, rules, PortReturns(OwnPorts(cfg)));
      rules := rules + PortReturns(OwnPorts(cfg));
      AppendDnsReturn(cfg, ch);
      Grow(kernel4, t, ch, rules, DnsReturn(cfg));
      rules := rules + DnsReturn(cfg);
      AddRule(ch, Rule([Proto(Tcp)], Redirect(TcpPort(cfg))));
      Grow(kernel4, t, ch, rules, [Rule([Proto(Tcp)], Redirect(TcpPort(cfg)))]);
      assert v4 == Run(kernel4, t, Appends(ch, RedirectRules(cfg, bypass)));
      RunConcat(kernel4, old(v4), [New(ch), Flush(ch)], Appends(ch, RedirectRules(cfg, bypass)));
      ok := HookIn(NAT_OUTPUT, TcpTo(OutName(cfg)));
      CheckedHook(kernel4, old(v4), Build(ch, RedirectRules(cfg, bypass)), NAT_OUTPUT, TcpTo(OutName(cfg)));
    }

    // Phase 3.
    method InstallTproxy(cfg: Config, bypass: seq<Bypass>) returns (ok: bool)
      modifies this`v4
      ensures (v4, ok) == Checked(kernel4, old(v4), TproxyProgram(cfg, bypass))
    {
      hide Step;
      var ch := User(Mangle, PreName(cfg));
      EnsureChain(ch);
      ghost var t := v4;
      AppendNets(ch, LOCAL_NETS);
      ghost var rules := NetReturns(LOCAL_NETS);
      AppendBypass(ch, bypass);
      Grow(kernel4, t, ch, rules, NetReturns(BypassNets(bypass)));
      rules := rules + NetReturns(BypassNets(bypass));
      AddRule(ch, Rule([In("lo"), Unmarked], Return));
      Grow(kernel4, t, ch, rules, [Rule([In("lo"), Unmarked], Return)]);
      rules := rules + [Rule([In("lo"), Unmarked], Return)];
      AppendDnsReturn(cfg, ch);
      Grow(kernel4, t, ch, rules, DnsReturn(cfg));
      rules := rules + DnsReturn(cfg);
      AddRule(ch, Rule([Proto(Tcp)], Tproxy(TcpPort(cfg))));
      Grow(kernel4, t, ch, rules, [Rule([Proto(Tcp)], Tproxy(TcpPort(cfg)))]);
      assert v4 == Run(kernel4, t, Appends(ch, TproxyRules(cfg, bypass)));
      RunConcat(kernel4, old(v4), [New(ch), Flush(ch)], Appends(ch, TproxyRules(cfg, bypass)));
      ok := HookIn(MANGLE_PREROUTING, AllTo(PreName(cfg)));
      CheckedHook(kernel4, old(v4), Build(ch, TproxyRules(cfg, bypass)), MANGLE_PREROUTING, AllTo(PreName(cfg)));
    }

    // Phase 4; a refused DIVERT hook is only logged.
    method InstallDivert()
      modifies this`v4
      ensures v4 == Run(kernel4, old(v4), DIVERT_PROGRAM)
    {
      hide Step;
      BuildTwo(DIVERT, Rule([], SetMark), Rule([], Accept));
      var _ := HookIn(MANGLE_PREROUTING, DIVERT_HOOK);
      RunConcat(kernel4, old(v4), Build(DIVERT, DIVERT_RULES), Rehook(MANGLE_PREROUTING, DIVERT_HOOK));
    }

    // The DNS chain and its hook for the device's own queries.
    method InstallDns(cfg: Config)
      modifies this`v4
      ensures v4 == Run(kernel4, old(v4), Build(User(Nat, DnsName(cfg)), DnsRules(cfg)) + Rehook(NAT_OUTPUT, DnsTo(DnsName(cfg))))
    {
      hide Step;
      var ch := User(Nat, DnsName(cfg));
      var owner, dnat := DnsRules(cfg)[0], DnsRules(cfg)[1];
      BuildTwo(ch, owner, dnat);
      var hook := DnsTo(DnsName(cfg));
      var _ := HookIn(NAT_OUTPUT, hook);
      RunConcat(kernel4, old(v4), Build(ch, [owner, dnat]), Rehook(NAT_OUTPUT, hook));
    }

    // ensureChain and two rules.
    method BuildTwo(ch: Chain, a: Rule, b: Rule)
      requires ch.User?
      modifies this`v4
      ensures v4 == Run(kernel4, old(v4), Build(ch, [a, b]))
    {
      hide Step;
      EnsureChain(ch);
      ghost var t := v4;
      AddRule(ch, a);
      AddRule(ch, b);
      Grow(kernel4, t, ch, [a], [b]);
      assert [a] + [b] == [a, b];
      RunConcat(kernel4, old(v4), [New(ch), Flush(ch)], Appends(ch, [a, b]));
    }

    method SetupDns(cfg: Config)
      modifies this`v4
      ensures v4 == Run(kernel4, old(v4), DnsProgram(cfg))
    {
      hide Step;
      ghost var base := Build(User(Nat, DnsName(cfg)), DnsRules(cfg)) + Rehook(NAT_OUTPUT, DnsTo(DnsName(cfg)));
      InstallDns(cfg);
      if cfg.hotspot && cfg.hotspotDns {
        HookHotspot(IfaceList(cfg), DnsName(cfg));
        RunConcat(kernel4, old(v4), base, RehookDns(NonBlank(IfaceList(cfg)), DnsName(cfg)));
      } else {
        assert base + [] == base;
      }
    }

    method HookHotspot(ifaces: seq<string>, name: string)
      modifies this`v4
      ensures v4 == Run(kernel4, old(v4), RehookDns(NonBlank(ifaces), name))
    {
      hide Step;
      for i := 0 to |ifaces|
        invariant v4 == Run(kernel4, old(v4), RehookDns(NonBlank(ifaces[..i]), name))
      {
        assert ifaces[..i + 1][..i] == ifaces[..i];
        ghost var done := NonBlank(ifaces[..i]);
        var iface := TrimSpace(ifaces[i]);
        if iface != "" {
          var r := IfaceDnsTo(iface, name);
          var _ := HookIn(NAT_PREROUTING, r);
          RunConcat(kernel4, old(v4), RehookDns(done, name), Rehook(NAT_PREROUTING, r));
          assert (done + [iface])[..|done|] == done;
        } else {
          assert done + [] == done;
        }
      }
      assert ifaces[..|ifaces|] == ifaces;
    }

    method InsertIfMissing(ch: Chain, r: Rule) returns (ok: bool)
      modifies this`v4
      ensures (v4, ok) == InsertMissing(kernel4, old(v4), ch, r)
    {
      ok := RuleExists(ch, r);
      if !ok {
        ok := Ipt(Insert(ch, r));
      }
    }

    method BlockQuic()
      modifies this`v4
      ensures v4 == BlockPort(kernel4, BlockPort(kernel4, old(v4), 443), 80)
    {
      hide Step, InsertMissing;
      var ports := [443, 80];
      for i := 0 to 2
        invariant v4 == if i == 0 then old(v4) else if i == 1 then BlockPort(kernel4, old(v4), 443)
                        else BlockPort(kernel4, BlockPort(kernel4, old(v4), 443), 80)
      {
        var ok := InsertIfMissing(FILTER_OUTPUT, QuicReject(ports[i]));
        if !ok {
          var _ := InsertIfMissing(FILTER_OUTPUT, QuicDrop(ports[i]));
        }
      }
    }

    // -N fails harmlessly when the chain is left over; the IPv6 hooks are always replaced.
    method DisableIpv6()
      modifies this`v6
      ensures v6 == Disabled6(kernel6, old(v6))
    {
      var lo := Append(DROP6, Rule([Out("lo")], Return));
      var _ := Ip6t(New(DROP6));
      var _ := Ip6t(Flush(DROP6));
      RunPair(kernel6, old(v6), New(DROP6), Flush(DROP6));
      var _ := Ip6t(lo);
      RunSnoc(kernel6, old(v6), [New(DROP6), Flush(DROP6)], lo);
      assert Appends(DROP6, [lo.rule]) == [lo];
      assert BUILD6 == [New(DROP6), Flush(DROP6)] + [lo];
      assert v6 == Run(kernel6, old(v6), BUILD6);
      var ok := Ip6t(Append(DROP6, REJECT6));
      assert (BUILD6 + [Append(DROP6, REJECT6)])[..|BUILD6|] == BUILD6;
      if !ok {
        var _ := Ip6t(Append(DROP6, Rule([], Drop)));
      }
      ghost var t := v6;
      var _ := Ip6t(Delete(FILTER_OUTPUT, DROP6_HOOK));
      var _ := Ip6t(Insert(FILTER_OUTPUT, DROP6_HOOK));
      RunPair(kernel6, t, Delete(FILTER_OUTPUT, DROP6_HOOK), Insert(FILTER_OUTPUT, DROP6_HOOK));
      ghost var t' := v6;
      var _ := Ip6t(Delete(FILTER_FORWARD, DROP6_HOOK));
      var _ := Ip6t(Insert(FILTER_FORWARD, DROP6_HOOK));
      RunPair(kernel6, t', Delete(FILTER_FORWARD, DROP6_HOOK), Insert(FILTER_FORWARD, DROP6_HOOK));
      RunConcat(kernel6, t, Rehook(FILTER_OUTPUT, DROP6_HOOK), Rehook(FILTER_FORWARD, DROP6_HOOK));
    }

    method EnableIpv6()
      modifies this`v6
      ensures v6 == Run(kernel6, old(v6), ENABLE6_PROGRAM)
    {
      var _ := Ip6t(Delete(FILTER_OUTPUT, DROP6_HOOK));
      var _ := Ip6t(Delete(FILTER_FORWARD, DROP6_HOOK));
      RunPair(kernel6, old(v6), Delete(FILTER_OUTPUT, DROP6_HOOK), Delete(FILTER_FORWARD, DROP6_HOOK));
      ghost var t := v6;
      var _ := Ip6t(Flush(DROP6));
      var _ := Ip6t(Destroy(DROP6));
      RunPair(kernel6, t, Flush(DROP6), Destroy(DROP6));
      RunConcat(kernel6, old(v6), ENABLE6_PROGRAM[..2], Remove(DROP6));
      assert ENABLE6_PROGRAM == ENABLE6_PROGRAM[..2] + Remove(DROP6);
      assert ENABLE6_PROGRAM[..2] == [Delete(FILTER_OUTPUT, DROP6_HOOK), Delete(FILTER_FORWARD, DROP6_HOOK)];
    }

    method DetachIface(iface: string, name: string)
      modifies this`v4
      ensures v4 == Run(kernel4, old(v4), IfaceDetachOne(iface, name))
    {
      hide Step;
      DelRule(NAT_PREROUTING, IfaceTcpTo(iface, name));
      DelRule(NAT_PREROUTING, IfaceAllTo(iface, name));
      DelRule(NAT_PREROUTING, IfaceDnsTo(iface, name));
      RunTriple(kernel4, old(v4), IfaceDetachOne(iface, name)[0], IfaceDetachOne(iface, name)[1],
                IfaceDetachOne(iface, name)[2]);
    }

    method DetachIfaces(ifaces: seq<string>, name: string)
      modifies this`v4
      ensures v4 == Run(kernel4, old(v4), IfaceDetach(NonBlank(ifaces), name))
    {
      hide Step, IfaceDetachOne;
      for i := 0 to |ifaces|
        invariant v4 == Run(kernel4, old(v4), IfaceDetach(NonBlank(ifaces[..i]), name))
      {
        assert ifaces[..i + 1][..i] == ifaces[..i];
        ghost var done := NonBlank(ifaces[..i]);
        var iface := TrimSpace(ifaces[i]);
        if iface != "" {
          DetachIface(iface, name);
          RunConcat(kernel4, old(v4), IfaceDetach(done, name), IfaceDetachOne(iface, name));
          assert (done + [iface])[..|done|] == done;
        } else {
          assert done + [] == done;
        }
      }
      assert ifaces[..|ifaces|] == ifaces;
    }

    // -F and -X of one chain name in the nat and mangle tables.
    method RemoveChain(name: string)
      modifies this`v4
      ensures v4 == Run(kernel4, old(v4), Remove(User(Nat, name)) + Remove(User(Mangle, name)))
    {
      hide Step;
      var _ := Ipt(Flush(User(Nat, name)));
      var _ := Ipt(Destroy(User(Nat, name)));
      RunPair(kernel4, old(v4), Flush(User(Nat, name)), Destroy(User(Nat, name)));
      ghost var t := v4;
      var _ := Ipt(Flush(User(Mangle, name)));
      var _ := Ipt(Destroy(User(Mangle, name)));
      RunPair(kernel4, t, Flush(User(Mangle, name)), Destroy(User(Mangle, name)));
      RunConcat(kernel4, old(v4), Remove(User(Nat, name)), Remove(User(Mangle, name)));
    }

    method DetachChain(ifaces: seq<string>, name: string)
      modifies this`v4
      ensures v4 == Run(kernel4, old(v4), Detach(NonBlank(ifaces), name))
    {
      hide Step;
      ghost var k, t0 := kernel4, v4;
      DelRule(NAT_OUTPUT, TcpTo(name));
      DelRule(NAT_OUTPUT, AllTo(name));
      DelRule(NAT_OUTPUT, DnsTo(name));
      ghost var det := NatDetach(name);
      RunTriple(k, t0, det[0], det[1], det[2]);
      ghost var t1 := v4;
      DelRule(NAT_PREROUTING, TcpTo(name));
      DelRule(NAT_PREROUTING, AllTo(name));
      DelRule(NAT_PREROUTING, DnsTo(name));
      RunTriple(k, t1, det[3], det[4], det[5]);
      RunConcat(k, t0, det[..3], det[3..]);
      assert det[..3] == [det[0], det[1], det[2]] && det[3..] == [det[3], det[4], det[5]];
      assert det[..3] + det[3..] == det;
      DetachIfaces(ifaces, name);
      ghost var cs := det + IfaceDetach(NonBlank(ifaces), name);
      RunConcat(k, t0, det, IfaceDetach(NonBlank(ifaces), name));
      ghost var t2 := v4;
      DelRule(MANGLE_PREROUTING, AllTo(name));
      DelRule(MANGLE_OUTPUT, AllTo(name));
      RunPair(k, t2, MangleDetach(name)[0], MangleDetach(name)[1]);
      RunConcat(k, t0, cs, MangleDetach(name));
      cs := cs + MangleDetach(name);
      RemoveChain(name);
      RunConcat(k, t0, cs, Remove(User(Nat, name)) + Remove(User(Mangle, name)));
      assert Detach(NonBlank(ifaces), name) == cs + (Remove(User(Nat, name)) + Remove(User(Mangle, name)));
    }

    // At most four deletions, stopping when the rule is gone.
    method DeleteStacked(ch: Chain, r: Rule)
      modifies this`v4
      ensures v4 == Run(kernel4, old(v4), Repeat(Delete(ch, r), 4))
    {
      var i := 0;
      while i < 4
        invariant 0 <= i <= 4
        invariant v4 == Run(kernel4, old(v4), Repeat(Delete(ch, r), i))
      {
        var found := RuleExists(ch, r);
        if !found {
          DeleteGone(kernel4, old(v4), ch, r, i, 4);
          break;
        }
        DelRule(ch, r);
        RunSnoc(kernel4, old(v4), Repeat(Delete(ch, r), i), Delete(ch, r));
        i := i + 1;
      }
    }

    method UnblockQuic()
      modifies this`v4
      ensures v4 == Run(kernel4, old(v4), UnblockPort(443) + UnblockPort(80))
    {
      hide Step;
      var ports := [443, 80];
      for i := 0 to 2
        invariant v4 == Run(kernel4, old(v4), if i == 0 then [] else if i == 1 then UnblockPort(443)
                                              else UnblockPort(443) + UnblockPort(80))
      {
        ghost var t := v4;
        DeleteStacked(FILTER_OUTPUT, QuicDrop(ports[i]));
        DeleteStacked(FILTER_OUTPUT, QuicReject(ports[i]));
        RunConcat(kernel4, t, Repeat(Delete(FILTER_OUTPUT, QuicDrop(ports[i])), 4),
                  Repeat(Delete(FILTER_OUTPUT, QuicReject(ports[i])), 4));
        RunConcat(kernel4, old(v4), UnblockPort(443), UnblockPort(80));
      }
    }

    method DetachChains(ifaces: seq<string>, prefix: string)
      modifies this`v4
      ensures v4 == Run(kernel4, old(v4), DetachAll(NonBlank(ifaces), prefix, SUFFIXES))
    {
      hide Step;
      var suffixes := SUFFIXES;
      for i := 0 to |suffixes|
        invariant v4 == Run(kernel4, old(v4), DetachAll(NonBlank(ifaces), prefix, suffixes[..i]))
      {
        DetachChain(ifaces, prefix + suffixes[i]);
        DetachAllSnoc(kernel4, old(v4), NonBlank(ifaces), prefix, suffixes, i);
      }
      assert suffixes[..|suffixes|] == suffixes;
    }

    // The DIVERT chain, the hotspot FORWARD rule and the QUIC rules.
    method CleanupShared()
      modifies this`v4
      ensures v4 == Run(kernel4, old(v4), CLEANUP_TAIL)
    {
      hide Step;
      var _ := Ipt(Flush(DIVERT));
      var _ := Ipt(Destroy(DIVERT));
      DelRule(FILTER_FORWARD, FORWARD_ALL);
      RunTriple(kernel4, old(v4), Flush(DIVERT), Destroy(DIVERT), Delete(FILTER_FORWARD, FORWARD_ALL));
      ghost var shared := Remove(DIVERT) + [Delete(FILTER_FORWARD, FORWARD_ALL)];
      assert shared == [Flush(DIVERT), Destroy(DIVERT), Delete(FILTER_FORWARD, FORWARD_ALL)];
      UnblockQuic();
      RunConcat(kernel4, old(v4), shared, UnblockPort(443) + UnblockPort(80));
      assert CLEANUP_TAIL == shared + (UnblockPort(443) + UnblockPort(80));
    }

    method CleanupRules(cfg: Config)
      modifies this`v4
      ensures v4 == Run(kernel4, old(v4), CleanupProgram(cfg))
    {
      hide Step;
      var prefix := Prefix(cfg);
      ghost var head := CleanupHead(prefix);
      DelRule(NAT_OUTPUT, TcpTo(prefix + "_OUT"));
      DelRule(MANGLE_PREROUTING, AllTo(prefix + "_PRE"));
      DelRule(MANGLE_PREROUTING, DIVERT_HOOK);
      RunTriple(kernel4, old(v4), head[0], head[1], head[2]);
      DetachChains(IfaceList(cfg), prefix);
      ghost var detach := DetachAll(NonBlank(IfaceList(cfg)), prefix, SUFFIXES);
      RunConcat(kernel4, old(v4), head, detach);
      CleanupShared();
      RunConcat(kernel4, old(v4), head + detach, CLEANUP_TAIL);
    }

    method Apply(cfg: Config, bypass: seq<Bypass>) returns (ok: bool)
      modifies this`v4, this`v6
      ensures (v4, ok) == Applied(kernel4, cfg, bypass, old(v4))
      ensures v6 == if ok then Disabled6(kernel6, old(v6)) else old(v6)
    {
      hide Step, CleanupProgram, RedirectProgram, TproxyProgram, DnsProgram, InsertMissing, BlockPort, Disabled6, Checked;
      CleanupRules(cfg);
      ok := InstallRedirect(cfg, bypass);
      if !ok {
        CleanupRules(cfg);
        return;
      }
      ok := InstallTproxy(cfg, bypass);
      if !ok {
        CleanupRules(cfg);
        return;
      }
      InstallDivert();
      if cfg.dnsHijack && cfg.dnsForwardPort > 0 {
        SetupDns(cfg);
      }
      if cfg.hotspot {
        var _ := InsertIfMissing(FILTER_FORWARD, FORWARD_ALL);
      }
      BlockQuic();
      DisableIpv6();
    }

    method Cleanup(cfg: Config)
      modifies this`v4, this`v6
      ensures v4 == Run(kernel4, old(v4), CleanupProgram(cfg))
      ensures v6 == Run(kernel6, old(v6), ENABLE6_PROGRAM)
    {
      hide Step, CleanupProgram;
      CleanupRules(cfg);
      EnableIpv6();
    }
  }

  // --- Lemmas for the methods -------------------------------------------------------------------

  lemma {:induction false} AppendsConcat(ch: Chain, a: seq<Rule>, b: seq<Rule>)
    ensures Appends(ch, a + b) == Appends(ch, a) + Appends(ch, b)
  {
    if b == [] {
      assert a + b == a;
    } else {
      var front := b[..|b| - 1];
      assert (a + b)[..|a + b| - 1] == a + front;
      AppendsConcat(ch, a, front);
    }
  }

  lemma Grow(k: Kernel, t: Tables, ch: Chain, a: seq<Rule>, b: seq<Rule>)
    ensures Run(k, Run(k, t, Appends(ch, a)), Appends(ch, b)) == Run(k, t, Appends(ch, a + b))
  {
    AppendsConcat(ch, a, b);
    RunConcat(k, t, Appends(ch, a), Appends(ch, b));
  }

  lemma DetachAllSnoc(k: Kernel, t: Tables, ifaces: seq<string>, prefix: string, suffixes: seq<string>, i: nat)
    requires i < |suffixes|
    ensures Run(k, t, DetachAll(ifaces, prefix, suffixes[..i + 1]))
            == Run(k, Run(k, t, DetachAll(ifaces, prefix, suffixes[..i])), Detach(ifaces, prefix + suffixes[i]))
  {
    assert suffixes[..i + 1][..i] == suffixes[..i];
    RunConcat(k, t, DetachAll(ifaces, prefix, suffixes[..i]), Detach(ifaces, prefix + suffixes[i]));
  }

  lemma CheckedHook(k: Kernel, t: Tables, cs: seq<Command>, ch: Chain, r: Rule)
    ensures Checked(k, t, cs + Rehook(ch, r)).0 == Run(k, Run(k, t, cs), Rehook(ch, r))
    ensures Checked(k, t, cs + Rehook(ch, r)).1
            == Step(k, Run(k, Run(k, t, cs), [Delete(ch, r)]), Insert(ch, r)).1
  {
    var all := cs + Rehook(ch, r);
    assert all[..|all| - 1] == cs + [Delete(ch, r)];
    RunConcat(k, t, cs, [Delete(ch, r)]);
    RunConcat(k, t, cs, Rehook(ch, r));
  }

  lemma RunPair(k: Kernel, t: Tables, a: Command, b: Command)
    ensures Run(k, t, [a, b]) == Step(k, Step(k, t, a).0, b).0
  {
    RunOne(k, t, a);
    RunSnoc(k, t, [a], b);
    assert [a] + [b] == [a, b];
  }

  lemma RunTriple(k: Kernel, t: Tables, a: Command, b: Command, c: Command)
    ensures Run(k, t, [a, b, c]) == Step(k, Step(k, Step(k, t, a).0, b).0, c).0
  {
    RunPair(k, t, a, b);
    RunSnoc(k, t, [a, b], c);
    assert [a, b] + [c] == [a, b, c];
  }

  // Deleting an absent rule changes nothing, however often.
  lemma {:induction false} DeleteGone(k: Kernel, t: Tables, ch: Chain, r: Rule, i: nat, n: nat)
    requires i <= n
    requires var s := Run(k, t, Repeat(Delete(ch, r), i)); !(ch in s && r in s[ch])
    ensures Run(k, t, Repeat(Delete(ch, r), n)) == Run(k, t, Repeat(Delete(ch, r), i))
  {
    if i < n {
      DeleteGone(k, t, ch, r, i, n - 1);
      RunSnoc(k, t, Repeat(Delete(ch, r), n - 1), Delete(ch, r));
    }
  }
}
