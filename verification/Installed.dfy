// The tables after a successful Apply, table by table: each depends only on the commands that Apply issues
// for it.
module Installed {
  import opened Netfilter
  import opened Sweep
  import opened Iptables
  import opened Restore
  import opened Guarantees

  // The kernel takes what cs creates and appends.
  ghost predicate Supports(k: Kernel, cs: seq<Command>) {
    forall c | c in cs && (c.New? || c.Append?) :: k(c)
  }

  lemma SupportsParts(k: Kernel, a: seq<Command>, b: seq<Command>)
    requires Supports(k, a + b)
    ensures Supports(k, a) && Supports(k, b)
  {
  }

  lemma SupportsBuild(k: Kernel, ch: Chain, rules: seq<Rule>)
    requires Supports(k, Build(ch, rules))
    ensures k(New(ch)) && Supports(k, Appends(ch, rules))
  {
    SupportsParts(k, [New(ch), Flush(ch)], Appends(ch, rules));
    assert [New(ch), Flush(ch)][0] == New(ch);
  }

  predicate Hijacks(cfg: Config) {
    cfg.dnsHijack && cfg.dnsForwardPort > 0
  }

  // --- One table at a time ------------------------------------------------------------------------

  predicate On(cs: seq<Command>, table: Table) {
    forall c: Command | c in cs :: c.chain.table == table
  }

  // t and s have the same chains of a table, but for those of except.
  ghost predicate SameBut(t: Tables, s: Tables, table: Table, except: set<Chain>) {
    forall ch: Chain | ch.table == table && ch !in except :: (ch in t <==> ch in s) && (ch in t ==> s[ch] == t[ch])
  }

  lemma Onwards(a: Tables, b: Tables, c: Tables, table: Table, x: set<Chain>, y: set<Chain>)
    requires SameBut(a, b, table, x) && SameBut(b, c, table, y)
    ensures SameBut(a, c, table, x + y)
  {
  }

  lemma {:induction false} RunFrame(k: Kernel, t: Tables, cs: seq<Command>, table: Table, other: Table)
    requires On(cs, other) && other != table
    ensures SameBut(t, Run(k, t, cs), table, {})
  {
    if cs != [] {
      RunFrame(k, t, cs[..|cs| - 1], table, other);
    }
  }

  lemma {:induction false} AppendsOn(ch: Chain, rules: seq<Rule>)
    ensures On(Appends(ch, rules), ch.table)
  {
    if rules != [] {
      AppendsOn(ch, rules[..|rules| - 1]);
    }
  }

  lemma BuildAndHookOn(ch: Chain, rules: seq<Rule>, at: Chain, hook: Rule)
    requires ch.table == at.table
    ensures On(Build(ch, rules) + Rehook(at, hook), ch.table)
  {
    AppendsOn(ch, rules);
  }

  lemma {:induction false} RehookDnsOn(ifaces: seq<string>, name: string)
    ensures On(RehookDns(ifaces, name), Nat)
  {
    if ifaces != [] {
      RehookDnsOn(ifaces[..|ifaces| - 1], name);
    }
  }

  lemma ProgramsOn(cfg: Config, bypass: seq<Bypass>)
    ensures On(RedirectProgram(cfg, bypass), Nat) && On(DnsProgram(cfg), Nat)
    ensures On(TproxyProgram(cfg, bypass), Mangle) && On(DIVERT_PROGRAM, Mangle)
  {
    hide RedirectRules, TproxyRules, DnsRules, Build, Rehook, RehookDns, OutName, PreName, DnsName, NonBlank, IfaceList;
    BuildAndHookOn(User(Nat, OutName(cfg)), RedirectRules(cfg, bypass), NAT_OUTPUT, TcpTo(OutName(cfg)));
    BuildAndHookOn(User(Nat, DnsName(cfg)), DnsRules(cfg), NAT_OUTPUT, DnsTo(DnsName(cfg)));
    RehookDnsOn(NonBlank(IfaceList(cfg)), DnsName(cfg));
    BuildAndHookOn(User(Mangle, PreName(cfg)), TproxyRules(cfg, bypass), MANGLE_PREROUTING, AllTo(PreName(cfg)));
    BuildAndHookOn(DIVERT, DIVERT_RULES, MANGLE_PREROUTING, DIVERT_HOOK);
  }

  lemma CheckedIsRun(k: Kernel, t: Tables, cs: seq<Command>)
    requires cs != []
    ensures Checked(k, t, cs).0 == Run(k, t, cs)
  {
  }

  lemma InsertFrame(k: Kernel, t: Tables, ch: Chain, r: Rule, table: Table)
    ensures SameBut(t, InsertMissing(k, t, ch, r).0, table, if table == ch.table then {ch} else {})
  {
  }

  lemma BlockFrame(k: Kernel, t: Tables, port: int, table: Table)
    requires table != Filter
    ensures SameBut(t, BlockPort(k, t, port), table, {})
  {
    InsertFrame(k, t, FILTER_OUTPUT, QuicReject(port), table);
    InsertFrame(k, InsertMissing(k, t, FILTER_OUTPUT, QuicReject(port)).0, FILTER_OUTPUT, QuicDrop(port), table);
    hide InsertMissing;
  }

  // What phases 5 to 7 leave alone.
  lemma FinishFrame(k: Kernel, cfg: Config, t: Tables, table: Table)
    requires table != Filter
    ensures SameBut(if Hijacks(cfg) && table == Nat then Run(k, t, DnsProgram(cfg)) else t, FinishInstall(k, cfg, t), table, {})
  {
    ProgramsOn(cfg, []);
    hide DnsProgram, On, Run, BlockPort, InsertMissing;
    var t1 := if Hijacks(cfg) then Run(k, t, DnsProgram(cfg)) else t;
    if Hijacks(cfg) && table == Mangle {
      RunFrame(k, t, DnsProgram(cfg), Mangle, Nat);
    }
    var t2 := if cfg.hotspot then InsertMissing(k, t1, FILTER_FORWARD, FORWARD_ALL).0 else t1;
    InsertFrame(k, t1, FILTER_FORWARD, FORWARD_ALL, table);
    BlockFrame(k, t2, 443, table);
    BlockFrame(k, BlockPort(k, t2, 443), 80, table);
  }

  // --- Single steps -----------------------------------------------------------------------------

  lemma {:induction false} AppendsRun(k: Kernel, t: Tables, ch: Chain, rules: seq<Rule>)
    requires Supports(k, Appends(ch, rules)) && ch in t && forall r | r in rules :: !r.target.Jump?
    ensures Run(k, t, Appends(ch, rules)) == t[ch := t[ch] + rules]
  {
    if rules == [] {
      assert t[ch] + rules == t[ch];
    } else {
      var front, last := rules[..|rules| - 1], rules[|rules| - 1];
      assert rules == front + [last];
      assert Append(ch, last) in Appends(ch, rules);
      assert Supports(k, Appends(ch, front));
      AppendsRun(k, t, ch, front);
      RunSnoc(k, t, Appends(ch, front), Append(ch, last));
      hide Run, Appends, Supports;
      assert t[ch] + front + [last] == t[ch] + rules;
    }
  }

  lemma Overwrite(t: Tables, ch: Chain, a: seq<Rule>, b: seq<Rule>)
    ensures t[ch := a][ch := b] == t[ch := b]
  {
  }

  lemma StartEmpty(k: Kernel, t: Tables, ch: Chain)
    requires k(New(ch)) && ch.User?
    ensures Run(k, t, [New(ch), Flush(ch)]) == t[ch := []]
  {
    hide Run;
    RunPair(k, t, New(ch), Flush(ch));
    Overwrite(t, ch, [], []);
  }

  lemma BuildRun(k: Kernel, t: Tables, ch: Chain, rules: seq<Rule>)
    requires Supports(k, Build(ch, rules)) && ch.User? && forall r | r in rules :: !r.target.Jump?
    ensures Run(k, t, Build(ch, rules)) == t[ch := rules]
  {
    hide Run, Supports, Appends;
    SupportsBuild(k, ch, rules);
    StartEmpty(k, t, ch);
    RunConcat(k, t, [New(ch), Flush(ch)], Appends(ch, rules));
    AppendsRun(k, t[ch := []], ch, rules);
    Overwrite(t, ch, [], rules);
    assert t[ch := []][ch] + rules == rules;
  }

  lemma RehookRun(k: Kernel, t: Tables, ch: Chain, r: Rule)
    requires ch in t && r !in t[ch] && Resolves(t, ch.table, r)
    ensures Run(k, t, [Delete(ch, r)]) == t
    ensures Run(k, t, Rehook(ch, r)) == if k(Insert(ch, r)) then t[ch := [r] + t[ch]] else t
  {
    RunOne(k, t, Delete(ch, r));
    RunPair(k, t, Delete(ch, r), Insert(ch, r));
  }

  // A chain of the daemon together with the hook that reaches it.
  lemma BuildAndHook(k: Kernel, t: Tables, ch: Chain, rules: seq<Rule>, at: Chain, hook: Rule)
    requires Supports(k, Build(ch, rules)) && ch.User? && at.Builtin? && at in t && hook !in t[at]
    requires hook.target == Jump(ch.name) && ch.table == at.table
    requires forall r | r in rules :: !r.target.Jump?
    ensures Run(k, t, Build(ch, rules) + Rehook(at, hook))
            == if k(Insert(at, hook)) then t[ch := rules][at := [hook] + t[at]] else t[ch := rules]
    ensures Checked(k, t, Build(ch, rules) + Rehook(at, hook)).0 == Run(k, t, Build(ch, rules) + Rehook(at, hook))
    ensures Checked(k, t, Build(ch, rules) + Rehook(at, hook)).1 ==> k(Insert(at, hook))
  {
    hide Build, Supports;
    BuildRun(k, t, ch, rules);
    RunConcat(k, t, Build(ch, rules), Rehook(at, hook));
    RehookRun(k, t[ch := rules], at, hook);
    CheckedHook(k, t, Build(ch, rules), at, hook);
  }

  // --- Names --------------------------------------------------------------------------------------

  lemma NamesDiffer(cfg: Config)
    ensures OutName(cfg) != DnsName(cfg)
    ensures User(Mangle, PreName(cfg)) != DIVERT
  {
    assert OutName(cfg)[|OutName(cfg)| - 1] == 'T' && DnsName(cfg)[|DnsName(cfg)| - 1] == 'S';
    assert PreName(cfg)[|PreName(cfg)| - 1] == 'E' && "DIVERT"[|"DIVERT"| - 1] == 'T';
  }

  lemma HooksAreDaemonRules(cfg: Config)
    ensures DaemonRule(cfg, NAT_OUTPUT, TcpTo(OutName(cfg))) && DaemonRule(cfg, NAT_OUTPUT, DnsTo(DnsName(cfg)))
    ensures DaemonRule(cfg, MANGLE_PREROUTING, AllTo(PreName(cfg))) && DaemonRule(cfg, MANGLE_PREROUTING, DIVERT_HOOK)
  {
    ShippedSuffixes();
    hide Prefix, NonBlank, IfaceList;
    assert DaemonName(cfg, OutName(cfg)) && DaemonName(cfg, PreName(cfg)) && DaemonName(cfg, DnsName(cfg));
  }

  lemma ChainRulesDoNotJump(cfg: Config, bypass: seq<Bypass>)
    ensures forall r | r in RedirectRules(cfg, bypass) || r in TproxyRules(cfg, bypass) :: !r.target.Jump?
  {
    NetReturnsOnly(LOCAL_NETS);
    NetReturnsOnly(BypassNets(bypass));
    PortReturnsOnly(OwnPorts(cfg));
  }

  // --- The nat table --------------------------------------------------------------------------------

  // nat OUTPUT and the two chains it reaches.
  ghost predicate NatShape(cfg: Config, bypass: seq<Bypass>, t: Tables, s: Tables, dns: bool)
    requires NAT_OUTPUT in t
  {
    && NAT_OUTPUT in s && User(Nat, OutName(cfg)) in s
    && s[NAT_OUTPUT] == (if dns then [DnsTo(DnsName(cfg))] else []) + [TcpTo(OutName(cfg))] + t[NAT_OUTPUT]
    && s[User(Nat, OutName(cfg))] == RedirectRules(cfg, bypass)
    && (dns ==> User(Nat, DnsName(cfg)) in s && s[User(Nat, DnsName(cfg))] == DnsRules(cfg))
  }

  lemma RedirectShape(k: Kernel, cfg: Config, bypass: seq<Bypass>, t: Tables)
    requires Supports(k, RedirectProgram(cfg, bypass)) && NAT_OUTPUT in t && DaemonFree(cfg, t)
    requires Checked(k, t, RedirectProgram(cfg, bypass)).1
    ensures var s := Checked(k, t, RedirectProgram(cfg, bypass)).0;
            NatShape(cfg, bypass, t, s, false) && SameBut(t, s, Nat, {NAT_OUTPUT, User(Nat, OutName(cfg))})
  {
    hide Run, Build, RedirectRules, OutName, DaemonRule, Supports, Checked;
    var out := User(Nat, OutName(cfg));
    SupportsParts(k, Build(out, RedirectRules(cfg, bypass)), Rehook(NAT_OUTPUT, TcpTo(OutName(cfg))));
    HooksAreDaemonRules(cfg);
    ChainRulesDoNotJump(cfg, bypass);
    BuildAndHook(k, t, out, RedirectRules(cfg, bypass), NAT_OUTPUT, TcpTo(OutName(cfg)));
    var s := Checked(k, t, RedirectProgram(cfg, bypass)).0;
    assert s == t[out := RedirectRules(cfg, bypass)][NAT_OUTPUT := [TcpTo(OutName(cfg))] + t[NAT_OUTPUT]];
    assert [] + [TcpTo(OutName(cfg))] + t[NAT_OUTPUT] == [TcpTo(OutName(cfg))] + t[NAT_OUTPUT];
  }

  // The hotspot loop touches nat PREROUTING only.
  lemma {:induction false} RehookDnsFrame(k: Kernel, t: Tables, ifaces: seq<string>, name: string)
    ensures SameBut(t, Run(k, t, RehookDns(ifaces, name)), Nat, {NAT_PREROUTING})
  {
    if ifaces != [] {
      var front, last := ifaces[..|ifaces| - 1], ifaces[|ifaces| - 1];
      var r := IfaceDnsTo(last, name);
      RehookDnsFrame(k, t, front, name);
      var s := Run(k, t, RehookDns(front, name));
      RunConcat(k, t, RehookDns(front, name), Rehook(NAT_PREROUTING, r));
      RunPair(k, s, Delete(NAT_PREROUTING, r), Insert(NAT_PREROUTING, r));
    }
  }

  lemma DnsShape(k: Kernel, cfg: Config, bypass: seq<Bypass>, t: Tables, s: Tables)
    requires Supports(k, DnsProgram(cfg)) && k(Insert(NAT_OUTPUT, DnsTo(DnsName(cfg))))
    requires NAT_OUTPUT in t && DaemonFree(cfg, t) && NatShape(cfg, bypass, t, s, false)
    ensures var s' := Run(k, s, DnsProgram(cfg));
            NatShape(cfg, bypass, t, s', true) && SameBut(s, s', Nat, {NAT_OUTPUT, NAT_PREROUTING, User(Nat, DnsName(cfg))})
  {
    var ch, hook := User(Nat, DnsName(cfg)), DnsTo(DnsName(cfg));
    var base := Build(ch, DnsRules(cfg)) + Rehook(NAT_OUTPUT, hook);
    var rest := if cfg.hotspot && cfg.hotspotDns then RehookDns(NonBlank(IfaceList(cfg)), DnsName(cfg)) else [];
    hide Run, Build, OutName, DnsName, DaemonRule, RedirectRules, NonBlank, IfaceList, Supports, Rehook, RehookDns;
    SupportsParts(k, base, rest);
    SupportsParts(k, Build(ch, DnsRules(cfg)), Rehook(NAT_OUTPUT, hook));
    NamesDiffer(cfg);
    HooksAreDaemonRules(cfg);
    assert [] + [TcpTo(OutName(cfg))] + t[NAT_OUTPUT] == [TcpTo(OutName(cfg))] + t[NAT_OUTPUT];
    assert hook !in s[NAT_OUTPUT];
    BuildAndHook(k, s, ch, DnsRules(cfg), NAT_OUTPUT, hook);
    assert [hook] + ([TcpTo(OutName(cfg))] + t[NAT_OUTPUT]) == [hook] + [TcpTo(OutName(cfg))] + t[NAT_OUTPUT];
    RunConcat(k, s, base, rest);
    if rest == [] {
      assert base + rest == base;
    } else {
      RehookDnsFrame(k, Run(k, s, base), NonBlank(IfaceList(cfg)), DnsName(cfg));
    }
  }

  // --- The mangle table -----------------------------------------------------------------------------

  // mangle PREROUTING and the two chains it reaches.
  ghost predicate MangleShape(k: Kernel, cfg: Config, bypass: seq<Bypass>, t: Tables, s: Tables)
    requires MANGLE_PREROUTING in t
  {
    && MANGLE_PREROUTING in s && User(Mangle, PreName(cfg)) in s && DIVERT in s
    && s[MANGLE_PREROUTING] == (if k(Insert(MANGLE_PREROUTING, DIVERT_HOOK)) then [DIVERT_HOOK] else [])
                               + [AllTo(PreName(cfg))] + t[MANGLE_PREROUTING]
    && s[User(Mangle, PreName(cfg))] == TproxyRules(cfg, bypass)
    && s[DIVERT] == DIVERT_RULES
  }

  lemma ProxyShape(k: Kernel, cfg: Config, bypass: seq<Bypass>, t: Tables, t1: Tables)
    requires Supports(k, TproxyProgram(cfg, bypass)) && Supports(k, DIVERT_PROGRAM)
    requires MANGLE_PREROUTING in t && DaemonFree(cfg, t) && SameBut(t, t1, Mangle, {})
    requires Checked(k, t1, TproxyProgram(cfg, bypass)).1
    ensures var s := Run(k, Checked(k, t1, TproxyProgram(cfg, bypass)).0, DIVERT_PROGRAM);
            MangleShape(k, cfg, bypass, t, s) && SameBut(t, s, Mangle, {MANGLE_PREROUTING, User(Mangle, PreName(cfg)), DIVERT})
  {
    hide Run, Build, TproxyRules, PreName, DaemonFree, DaemonRule, Supports, Checked, SameBut, MangleShape;
    var pre, hook := User(Mangle, PreName(cfg)), AllTo(PreName(cfg));
    SupportsParts(k, Build(pre, TproxyRules(cfg, bypass)), Rehook(MANGLE_PREROUTING, hook));
    SupportsParts(k, Build(DIVERT, DIVERT_RULES), Rehook(MANGLE_PREROUTING, DIVERT_HOOK));
    NamesDiffer(cfg);
    ChainRulesDoNotJump(cfg, bypass);
    MangleHooksAbsent(cfg, t, t1);
    BuildAndHook(k, t1, pre, TproxyRules(cfg, bypass), MANGLE_PREROUTING, hook);
    var t2 := Checked(k, t1, TproxyProgram(cfg, bypass)).0;
    BuildAndHook(k, t2, DIVERT, DIVERT_RULES, MANGLE_PREROUTING, DIVERT_HOOK);
    var s := Run(k, t2, DIVERT_PROGRAM);
    assert t2 == t1[pre := TproxyRules(cfg, bypass)][MANGLE_PREROUTING := [hook] + t[MANGLE_PREROUTING]];
    var heads := if k(Insert(MANGLE_PREROUTING, DIVERT_HOOK)) then [DIVERT_HOOK] else [];
    assert [] + t2[MANGLE_PREROUTING] == t2[MANGLE_PREROUTING];
    assert t2[DIVERT := DIVERT_RULES][MANGLE_PREROUTING := t2[MANGLE_PREROUTING]] == t2[DIVERT := DIVERT_RULES];
    assert s == t2[DIVERT := DIVERT_RULES][MANGLE_PREROUTING := heads + t2[MANGLE_PREROUTING]];
    ProxyTables(k, cfg, bypass, t, t1, t2, s);
  }

  lemma MangleHooksAbsent(cfg: Config, t: Tables, t1: Tables)
    requires MANGLE_PREROUTING in t && DaemonFree(cfg, t) && SameBut(t, t1, Mangle, {})
    ensures MANGLE_PREROUTING in t1 && t1[MANGLE_PREROUTING] == t[MANGLE_PREROUTING]
    ensures AllTo(PreName(cfg)) !in t[MANGLE_PREROUTING] && DIVERT_HOOK !in t[MANGLE_PREROUTING]
    ensures AllTo(PreName(cfg)) != DIVERT_HOOK
  {
    HooksAreDaemonRules(cfg);
    hide PreName, DaemonRule;
  }

  lemma ProxyTables(k: Kernel, cfg: Config, bypass: seq<Bypass>, t: Tables, t1: Tables, t2: Tables, s: Tables)
    requires MANGLE_PREROUTING in t && SameBut(t, t1, Mangle, {}) && User(Mangle, PreName(cfg)) != DIVERT
    requires t2 == t1[User(Mangle, PreName(cfg)) := TproxyRules(cfg, bypass)]
                     [MANGLE_PREROUTING := [AllTo(PreName(cfg))] + t[MANGLE_PREROUTING]]
    requires var heads := if k(Insert(MANGLE_PREROUTING, DIVERT_HOOK)) then [DIVERT_HOOK] else [];
             s == t2[DIVERT := DIVERT_RULES][MANGLE_PREROUTING := heads + t2[MANGLE_PREROUTING]]
    ensures MangleShape(k, cfg, bypass, t, s) && SameBut(t, s, Mangle, {MANGLE_PREROUTING, User(Mangle, PreName(cfg)), DIVERT})
  {
    hide PreName, TproxyRules;
    assert [DIVERT_HOOK] + ([AllTo(PreName(cfg))] + t[MANGLE_PREROUTING])
        == [DIVERT_HOOK] + [AllTo(PreName(cfg))] + t[MANGLE_PREROUTING];
    assert [] + ([AllTo(PreName(cfg))] + t[MANGLE_PREROUTING]) == [] + [AllTo(PreName(cfg))] + t[MANGLE_PREROUTING];
  }

  // --- The filter table -----------------------------------------------------------------------------

  // REJECT, or DROP if the kernel does not take it.
  function QuicBlock(k: Kernel, port: int): Rule {
    if k(Insert(FILTER_OUTPUT, QuicReject(port))) then QuicReject(port) else QuicDrop(port)
  }

  // The kernel takes REJECT or DROP for each of the two ports.
  ghost predicate Blocks(k: Kernel) {
    forall port | port in {443, 80} ::
      k(Insert(FILTER_OUTPUT, QuicReject(port))) || k(Insert(FILTER_OUTPUT, QuicDrop(port)))
  }

  // The QUIC rules at the head of filter OUTPUT, port 80 first.
  ghost predicate FilterShape(k: Kernel, t: Tables, s: Tables)
    requires FILTER_OUTPUT in t
  {
    FILTER_OUTPUT in s && s[FILTER_OUTPUT] == [QuicBlock(k, 80), QuicBlock(k, 443)] + t[FILTER_OUTPUT]
  }

  lemma BlockShape(k: Kernel, t: Tables, port: int)
    requires FILTER_OUTPUT in t && QuicReject(port) !in t[FILTER_OUTPUT] && QuicDrop(port) !in t[FILTER_OUTPUT]
    requires k(Insert(FILTER_OUTPUT, QuicReject(port))) || k(Insert(FILTER_OUTPUT, QuicDrop(port)))
    ensures BlockPort(k, t, port) == t[FILTER_OUTPUT := [QuicBlock(k, port)] + t[FILTER_OUTPUT]]
  {
  }

  lemma QuicShape(k: Kernel, cfg: Config, t: Tables, s: Tables)
    requires Blocks(k) && FILTER_OUTPUT in t && DaemonFree(cfg, t) && FILTER_OUTPUT in s && s[FILTER_OUTPUT] == t[FILTER_OUTPUT]
    ensures var s' := BlockPort(k, BlockPort(k, s, 443), 80);
            FilterShape(k, t, s') && SameBut(s, s', Filter, {FILTER_OUTPUT})
  {
    NoQuic(cfg, t);
    hide BlockPort, DaemonFree;
    BlockShape(k, s, 443);
    var s1 := BlockPort(k, s, 443);
    var q443, q80 := QuicBlock(k, 443), QuicBlock(k, 80);
    assert QuicReject(80) != q443 && QuicDrop(80) != q443;
    BlockShape(k, s1, 80);
    assert [q80] + ([q443] + t[FILTER_OUTPUT]) == [q80, q443] + t[FILTER_OUTPUT];
  }

  lemma NoQuic(cfg: Config, t: Tables)
    requires FILTER_OUTPUT in t && DaemonFree(cfg, t)
    ensures forall port | port in {443, 80} :: QuicReject(port) !in t[FILTER_OUTPUT] && QuicDrop(port) !in t[FILTER_OUTPUT]
  {
    forall port | port in {443, 80} ensures QuicReject(port) !in t[FILTER_OUTPUT] && QuicDrop(port) !in t[FILTER_OUTPUT] {
      assert DaemonRule(cfg, FILTER_OUTPUT, QuicReject(port)) && DaemonRule(cfg, FILTER_OUTPUT, QuicDrop(port));
    }
  }

  // --- The results ----------------------------------------------------------------------------------

  // On a state without daemon traces the pre-pass does nothing, and a successful Apply is its phases.
  lemma Phases(k: Kernel, cfg: Config, bypass: seq<Bypass>, t: Tables)
    requires WellFormed(t) && DaemonFree(cfg, t) && Applied(k, cfg, bypass, t).1
    ensures var (t1, ok1) := Checked(k, t, RedirectProgram(cfg, bypass));
            var (t2, ok2) := Checked(k, t1, TproxyProgram(cfg, bypass));
            ok1 && ok2 && Applied(k, cfg, bypass, t).0 == FinishInstall(k, cfg, Hooked(k, cfg, bypass, t))
  {
    hide Run, CleanupProgram, RedirectProgram, TproxyProgram, FinishInstall, Checked, Clean, Tidy, DaemonFree, Erase;
    RegularIsTidy(cfg, t);
    CleanIsTidy(CleanupProgram(cfg), t);
    CleanIsErased(CleanupProgram(cfg), t);
    CleanupErases(k, cfg, t);
  }

  // The state after phases 2 to 4.
  function Hooked(k: Kernel, cfg: Config, bypass: seq<Bypass>, t: Tables): Tables {
    Run(k, Checked(k, Checked(k, t, RedirectProgram(cfg, bypass)).0, TproxyProgram(cfg, bypass)).0, DIVERT_PROGRAM)
  }

  lemma MangleFrame(k: Kernel, cfg: Config, bypass: seq<Bypass>, t: Tables, table: Table)
    requires table != Mangle
    ensures SameBut(Checked(k, t, RedirectProgram(cfg, bypass)).0, Hooked(k, cfg, bypass, t), table, {})
  {
    ProgramsOn(cfg, bypass);
    var t1 := Checked(k, t, RedirectProgram(cfg, bypass)).0;
    CheckedIsRun(k, t1, TproxyProgram(cfg, bypass));
    hide Run, TproxyProgram, RedirectProgram, Checked, On, SameBut;
    var t2 := Checked(k, t1, TproxyProgram(cfg, bypass)).0;
    RunFrame(k, t1, TproxyProgram(cfg, bypass), table, Mangle);
    RunFrame(k, t2, DIVERT_PROGRAM, table, Mangle);
    Onwards(t1, t2, Hooked(k, cfg, bypass, t), table, {}, {});
  }

  lemma RedirectFrame(k: Kernel, cfg: Config, bypass: seq<Bypass>, t: Tables, table: Table)
    requires table != Nat
    ensures SameBut(t, Checked(k, t, RedirectProgram(cfg, bypass)).0, table, {})
  {
    ProgramsOn(cfg, bypass);
    CheckedIsRun(k, t, RedirectProgram(cfg, bypass));
    hide RedirectProgram, Checked, On;
    RunFrame(k, t, RedirectProgram(cfg, bypass), table, Nat);
  }

  lemma NatShapeFrame(cfg: Config, bypass: seq<Bypass>, t: Tables, s: Tables, s': Tables, dns: bool)
    requires NAT_OUTPUT in t && NatShape(cfg, bypass, t, s, dns) && SameBut(s, s', Nat, {})
    ensures NatShape(cfg, bypass, t, s', dns)
  {
    hide RedirectRules, DnsRules, OutName, DnsName;
  }

  lemma MangleShapeFrame(k: Kernel, cfg: Config, bypass: seq<Bypass>, t: Tables, s: Tables, s': Tables)
    requires MANGLE_PREROUTING in t && MangleShape(k, cfg, bypass, t, s) && SameBut(s, s', Mangle, {})
    ensures MangleShape(k, cfg, bypass, t, s')
  {
    hide TproxyRules, PreName;
  }

  // Every user chain of the table is as it was.
  ghost predicate Kept(t: Tables, s: Tables, table: Table) {
    forall ch | ch in t && ch.User? && ch.table == table :: ch in s && s[ch] == t[ch]
  }

  lemma KeptBut(t: Tables, s: Tables, table: Table, except: set<Chain>)
    requires SameBut(t, s, table, except) && forall ch | ch in except && ch.User? :: ch !in t
    ensures Kept(t, s, table)
  {
  }

  // After a successful Apply the redirect chain, and with hijacking the DNS chain, have their rules, their
  // hooks stand before the rules of nat OUTPUT, and every other user chain of the table is as it was.
  lemma InstalledNat(k: Kernel, cfg: Config, bypass: seq<Bypass>, t: Tables)
    requires Supports(k, RedirectProgram(cfg, bypass))
    requires Hijacks(cfg) ==> Supports(k, DnsProgram(cfg)) && k(Insert(NAT_OUTPUT, DnsTo(DnsName(cfg))))
    requires WellFormed(t) && NAT_OUTPUT in t && DaemonFree(cfg, t) && Applied(k, cfg, bypass, t).1
    ensures var s := Applied(k, cfg, bypass, t).0; NatShape(cfg, bypass, t, s, Hijacks(cfg)) && Kept(t, s, Nat)
  {
    hide *;
    Phases(k, cfg, bypass, t);
    RedirectNonEmpty(cfg, bypass);
    RedirectShape(k, cfg, bypass, t);
    MangleFrame(k, cfg, bypass, t, Nat);
    var t1, s := Checked(k, t, RedirectProgram(cfg, bypass)).0, Hooked(k, cfg, bypass, t);
    var x := {NAT_OUTPUT, User(Nat, OutName(cfg))};
    NatShapeFrame(cfg, bypass, t, t1, s, false);
    Onwards(t, t1, s, Nat, x, {});
    assert x + {} == x;
    NatFinished(k, cfg, bypass, t, s);
  }

  lemma NatFinished(k: Kernel, cfg: Config, bypass: seq<Bypass>, t: Tables, s: Tables)
    requires Hijacks(cfg) ==> Supports(k, DnsProgram(cfg)) && k(Insert(NAT_OUTPUT, DnsTo(DnsName(cfg))))
    requires NAT_OUTPUT in t && DaemonFree(cfg, t) && NatShape(cfg, bypass, t, s, false)
    requires SameBut(t, s, Nat, {NAT_OUTPUT, User(Nat, OutName(cfg))})
    ensures var s' := FinishInstall(k, cfg, s); NatShape(cfg, bypass, t, s', Hijacks(cfg)) && Kept(t, s', Nat)
  {
    hide *;
    FinishFrame(k, cfg, s, Nat);
    var s' := FinishInstall(k, cfg, s);
    var x, y := {NAT_OUTPUT, User(Nat, OutName(cfg))}, {NAT_OUTPUT, NAT_PREROUTING, User(Nat, DnsName(cfg))};
    if Hijacks(cfg) {
      var s1 := Run(k, s, DnsProgram(cfg));
      DnsShape(k, cfg, bypass, t, s);
      NatShapeFrame(cfg, bypass, t, s1, s', true);
      Onwards(t, s, s1, Nat, x, y);
      Onwards(t, s1, s', Nat, x + y, {});
    } else {
      NatShapeFrame(cfg, bypass, t, s, s', false);
      Onwards(t, s, s', Nat, x, {});
    }
    NatKept(cfg, t, s', Hijacks(cfg));
  }

  lemma NatKept(cfg: Config, t: Tables, s: Tables, dns: bool)
    requires DaemonFree(cfg, t)
    requires var x, y := {NAT_OUTPUT, User(Nat, OutName(cfg))}, {NAT_OUTPUT, NAT_PREROUTING, User(Nat, DnsName(cfg))};
             SameBut(t, s, Nat, if dns then x + y + {} else x + {})
    ensures Kept(t, s, Nat)
  {
    OwnChainsAbsent(cfg, t);
    hide DaemonFree, OutName, DnsName;
  }

  // The proxy chain and DIVERT have their rules, their hooks stand before the rules of mangle PREROUTING -
  // that of DIVERT if the kernel takes it - and every other user chain of the table is as it was.
  lemma InstalledMangle(k: Kernel, cfg: Config, bypass: seq<Bypass>, t: Tables)
    requires Supports(k, TproxyProgram(cfg, bypass)) && Supports(k, DIVERT_PROGRAM)
    requires WellFormed(t) && MANGLE_PREROUTING in t && DaemonFree(cfg, t) && Applied(k, cfg, bypass, t).1
    ensures var s := Applied(k, cfg, bypass, t).0; MangleShape(k, cfg, bypass, t, s) && Kept(t, s, Mangle)
  {
    hide *;
    Phases(k, cfg, bypass, t);
    RedirectFrame(k, cfg, bypass, t, Mangle);
    RedirectNonEmpty(cfg, bypass);
    var t1, s := Checked(k, t, RedirectProgram(cfg, bypass)).0, Hooked(k, cfg, bypass, t);
    ProxyShape(k, cfg, bypass, t, t1);
    HookedIs(k, cfg, bypass, t);
    FinishFrame(k, cfg, s, Mangle);
    MangleFinished(k, cfg, bypass, t, s, FinishInstall(k, cfg, s));
  }

  lemma HookedIs(k: Kernel, cfg: Config, bypass: seq<Bypass>, t: Tables)
    ensures RedirectProgram(cfg, bypass) != [] && TproxyProgram(cfg, bypass) != []
    ensures Hooked(k, cfg, bypass, t)
         == Run(k, Checked(k, Checked(k, t, RedirectProgram(cfg, bypass)).0, TproxyProgram(cfg, bypass)).0, DIVERT_PROGRAM)
  {
  }

  lemma MangleFinished(k: Kernel, cfg: Config, bypass: seq<Bypass>, t: Tables, s: Tables, s': Tables)
    requires MANGLE_PREROUTING in t && MangleShape(k, cfg, bypass, t, s) && DaemonFree(cfg, t)
    requires SameBut(t, s, Mangle, {MANGLE_PREROUTING, User(Mangle, PreName(cfg)), DIVERT})
    requires SameBut(if Hijacks(cfg) && Mangle == Nat then Run(k, s, DnsProgram(cfg)) else s, s', Mangle, {})
    ensures MangleShape(k, cfg, bypass, t, s') && Kept(t, s', Mangle)
  {
    OwnChainsAbsent(cfg, t);
    hide Run, DnsProgram, DaemonFree, PreName, MangleShape, SameBut, Kept;
    var x := {MANGLE_PREROUTING, User(Mangle, PreName(cfg)), DIVERT};
    MangleShapeFrame(k, cfg, bypass, t, s, s');
    Onwards(t, s, s', Mangle, x, {});
    KeptBut(t, s', Mangle, x + {});
  }

  // Up to the QUIC rules, Apply touches filter FORWARD at most.
  function BeforeQuic(k: Kernel, cfg: Config, s: Tables): Tables {
    var s1 := if Hijacks(cfg) then Run(k, s, DnsProgram(cfg)) else s;
    if cfg.hotspot then InsertMissing(k, s1, FILTER_FORWARD, FORWARD_ALL).0 else s1
  }

  lemma FilterFrame(k: Kernel, cfg: Config, s: Tables)
    ensures SameBut(s, BeforeQuic(k, cfg, s), Filter, {FILTER_FORWARD})
  {
    ProgramsOn(cfg, []);
    hide DnsProgram, On, InsertMissing, Run;
    RunFrame(k, s, DnsProgram(cfg), Filter, Nat);
    InsertFrame(k, if Hijacks(cfg) then Run(k, s, DnsProgram(cfg)) else s, FILTER_FORWARD, FORWARD_ALL, Filter);
  }

  // The two QUIC rules stand before the rules of filter OUTPUT, and every user chain of the table is as it was.
  lemma InstalledFilter(k: Kernel, cfg: Config, bypass: seq<Bypass>, t: Tables)
    requires Blocks(k) && WellFormed(t) && FILTER_OUTPUT in t && DaemonFree(cfg, t) && Applied(k, cfg, bypass, t).1
    ensures var s := Applied(k, cfg, bypass, t).0; FilterShape(k, t, s) && Kept(t, s, Filter)
  {
    hide *;
    Phases(k, cfg, bypass, t);
    var s := Hooked(k, cfg, bypass, t);
    var s2 := BeforeQuic(k, cfg, s);
    HookedKeepsFilter(k, cfg, bypass, t);
    FilterFrame(k, cfg, s);
    FinishIsQuic(k, cfg, s);
    Onwards(t, s, s2, Filter, {}, {FILTER_FORWARD});
    OutputKept(t, s2);
    QuicShape(k, cfg, t, s2);
    var s' := FinishInstall(k, cfg, s);
    Onwards(t, s2, s', Filter, {} + {FILTER_FORWARD}, {FILTER_OUTPUT});
    NoUserHooks(t, s');
  }

  lemma FinishIsQuic(k: Kernel, cfg: Config, s: Tables)
    ensures FinishInstall(k, cfg, s) == BlockPort(k, BlockPort(k, BeforeQuic(k, cfg, s), 443), 80)
  {
    hide Run, BlockPort, InsertMissing, DnsProgram;
  }

  lemma HookedKeepsFilter(k: Kernel, cfg: Config, bypass: seq<Bypass>, t: Tables)
    ensures SameBut(t, Hooked(k, cfg, bypass, t), Filter, {})
  {
    hide *;
    RedirectFrame(k, cfg, bypass, t, Filter);
    MangleFrame(k, cfg, bypass, t, Filter);
    RedirectNonEmpty(cfg, bypass);
    var t1 := Checked(k, t, RedirectProgram(cfg, bypass)).0;
    Onwards(t, t1, Hooked(k, cfg, bypass, t), Filter, {}, {});
    var none: set<Chain> := {};
    assert none + none == none;
  }

  lemma RedirectNonEmpty(cfg: Config, bypass: seq<Bypass>)
    ensures RedirectProgram(cfg, bypass) != [] && TproxyProgram(cfg, bypass) != []
  {
  }

  lemma NoUserHooks(t: Tables, s: Tables)
    requires SameBut(t, s, Filter, {} + {FILTER_FORWARD} + {FILTER_OUTPUT})
    ensures Kept(t, s, Filter)
  {
    KeptBut(t, s, Filter, {} + {FILTER_FORWARD} + {FILTER_OUTPUT});
  }

  lemma OutputKept(t: Tables, s: Tables)
    requires FILTER_OUTPUT in t && SameBut(t, s, Filter, {} + {FILTER_FORWARD})
    ensures FILTER_OUTPUT in s && s[FILTER_OUTPUT] == t[FILTER_OUTPUT]
  {
  }

  lemma OwnChainsAbsent(cfg: Config, t: Tables)
    requires DaemonFree(cfg, t)
    ensures User(Nat, OutName(cfg)) !in t && User(Mangle, PreName(cfg)) !in t && User(Nat, DnsName(cfg)) !in t && DIVERT !in t
  {
    ShippedSuffixes();
    hide Prefix;
    assert DaemonName(cfg, OutName(cfg)) && DaemonName(cfg, PreName(cfg)) && DaemonName(cfg, DnsName(cfg));
    assert DaemonChain(cfg, User(Nat, OutName(cfg))) && DaemonChain(cfg, User(Nat, DnsName(cfg)));
    assert DaemonChain(cfg, User(Mangle, PreName(cfg))) && DaemonChain(cfg, DIVERT);
  }
}
