// What Apply does to traffic of hotspot clients: they may be forwarded, and their DNS goes to the forwarder.
module Hotspot {
  import opened Basics
  import opened Netfilter
  import opened Iptables
  import opened Guarantees
  import opened Installed
  import opened Traffic
  import opened Verdicts

  // --- Forwarding -----------------------------------------------------------------------------------------

  lemma BlockKeepsForward(k: Kernel, t: Tables, port: int)
    ensures SameBut(t, BlockPort(k, t, port), Filter, {FILTER_OUTPUT})
  {
    InsertFrame(k, t, FILTER_OUTPUT, QuicReject(port), Filter);
    InsertFrame(k, InsertMissing(k, t, FILTER_OUTPUT, QuicReject(port)).0, FILTER_OUTPUT, QuicDrop(port), Filter);
    hide InsertMissing;
  }

  lemma OldRulesKept(t: Tables, s: Tables, depth: nat, ch: Chain, p: Packet)
    requires WellFormed(t) && Kept(t, s, ch.table) && ch in t
    ensures Eval(s, depth, ch.table, t[ch], p) == Eval(t, depth, ch.table, t[ch], p)
  {
    hide Eval, WellFormed;
    OldRules(t, s, depth, ch, p);
  }

  // The chains that are at issue here, and that they are different ones.
  lemma Places(out: string, dns: string)
    ensures FILTER_FORWARD != FILTER_OUTPUT && FILTER_FORWARD.table == Filter && NAT_PREROUTING.table == Nat
    ensures NAT_PREROUTING !in {NAT_OUTPUT, User(Nat, out), User(Nat, dns)}
  {
  }

  lemma DnsKeepsForward(k: Kernel, cfg: Config, s: Tables)
    ensures SameBut(s, if Hijacks(cfg) then Run(k, s, DnsProgram(cfg)) else s, Filter, {})
  {
    ProgramsOn(cfg, []);
    hide DnsProgram, On, Run;
    RunFrame(k, s, DnsProgram(cfg), Filter, Nat);
  }

  lemma ForwardBefore(k: Kernel, cfg: Config, t: Tables, s: Tables)
    requires FILTER_FORWARD in t && DaemonFree(cfg, t) && SameBut(t, s, Filter, {})
    ensures var s2 := BeforeQuic(k, cfg, s);
            && FILTER_FORWARD in s2
            && s2[FILTER_FORWARD] == (if cfg.hotspot && k(Insert(FILTER_FORWARD, FORWARD_ALL)) then [FORWARD_ALL] else [])
                                     + t[FILTER_FORWARD]
  {
    assert FORWARD_ALL !in t[FILTER_FORWARD] by { assert DaemonRule(cfg, FILTER_FORWARD, FORWARD_ALL); }
    hide DnsProgram, Run, DaemonFree, DaemonRule, Hijacks;
    DnsKeepsForward(k, cfg, s);
    assert [] + t[FILTER_FORWARD] == t[FILTER_FORWARD];
  }

  // With a hotspot, everything may be forwarded; otherwise forwarded packets get the verdict they had.
  lemma ForwardVerdict(k: Kernel, cfg: Config, bypass: seq<Bypass>, t: Tables, depth: nat, p: Packet)
    requires WellFormed(t) && FILTER_FORWARD in t && DaemonFree(cfg, t) && Applied(k, cfg, bypass, t).1
    ensures var s := Applied(k, cfg, bypass, t).0;
            FILTER_FORWARD in s && Eval(s, depth, Filter, s[FILTER_FORWARD], p) ==
            if cfg.hotspot && k(Insert(FILTER_FORWARD, Rule([], Accept))) then Decided(Accept, p)
            else Eval(t, depth, Filter, t[FILTER_FORWARD], p)
  {
    hide *;
    Phases(k, cfg, bypass, t);
    HookedKeepsFilter(k, cfg, bypass, t);
    var s := Hooked(k, cfg, bypass, t);
    var s2 := BeforeQuic(k, cfg, s);
    ForwardBefore(k, cfg, t, s);
    FilterFrame(k, cfg, s);
    FinishIsQuic(k, cfg, s);
    BlockKeepsForward(k, s2, 443);
    var s3 := BlockPort(k, s2, 443);
    BlockKeepsForward(k, s3, 80);
    var s' := FinishInstall(k, cfg, s);
    Onwards(t, s, s2, Filter, {}, {FILTER_FORWARD});
    Onwards(s2, s3, s', Filter, {FILTER_OUTPUT}, {FILTER_OUTPUT});
    assert {FILTER_OUTPUT} + {FILTER_OUTPUT} == {FILTER_OUTPUT};
    Onwards(t, s2, s', Filter, {} + {FILTER_FORWARD}, {FILTER_OUTPUT});
    NoUserHooks(t, s');
    Places("", "");
    ForwardSame(s2, s');
    OldRulesKept(t, s', depth, FILTER_FORWARD, p);
    HeadAccepts(s', depth, t[FILTER_FORWARD], p);
  }

  lemma ForwardSame(s: Tables, s': Tables)
    requires SameBut(s, s', Filter, {FILTER_OUTPUT}) && FILTER_FORWARD in s
    ensures FILTER_FORWARD in s' && s'[FILTER_FORWARD] == s[FILTER_FORWARD]
  {
  }

  lemma HeadAccepts(s: Tables, depth: nat, rest: seq<Rule>, p: Packet)
    ensures Eval(s, depth, Filter, [FORWARD_ALL] + rest, p) == Decided(Accept, p)
    ensures Eval(s, depth, Filter, [] + rest, p) == Eval(s, depth, Filter, rest, p)
    ensures FORWARD_ALL == Rule([], Accept)
  {
    AppliesAlways(Accept, p);
    assert ([FORWARD_ALL] + rest)[0] == FORWARD_ALL;
    assert [] + rest == rest;
    hide Applies;
  }

  // --- DNS ---------------------------------------------------------------------------------------------------

  lemma {:induction false} RunTouches(k: Kernel, t: Tables, cs: seq<Command>, table: Table, chains: set<Chain>)
    requires forall c | c in cs :: c.chain in chains
    ensures SameBut(t, Run(k, t, cs), table, chains)
  {
    if cs != [] {
      RunTouches(k, t, cs[..|cs| - 1], table, chains);
    }
  }

  lemma {:induction false} AppendsChain(ch: Chain, rules: seq<Rule>)
    ensures forall c | c in Appends(ch, rules) :: c.chain == ch
  {
    if rules != [] {
      AppendsChain(ch, rules[..|rules| - 1]);
    }
  }

  lemma BuildAndHookTouches(ch: Chain, rules: seq<Rule>, at: Chain, hook: Rule)
    ensures forall c: Command | c in Build(ch, rules) + Rehook(at, hook) :: c.chain in {at, ch}
  {
    AppendsChain(ch, rules);
  }

  // The names are the trimmed ones, without the blank ones.
  lemma {:induction false} NonBlankMembers(ifaces: seq<string>, name: string)
    ensures name in NonBlank(ifaces) <==> name != "" && exists raw | raw in ifaces :: TrimSpace(raw) == name
  {
    hide TrimSpace;
    if ifaces != [] {
      var front, last := ifaces[..|ifaces| - 1], ifaces[|ifaces| - 1];
      assert ifaces == front + [last];
      NonBlankMembers(front, name);
    }
  }

  // Some interface of the list that has a hook.
  ghost predicate HookFor(k: Kernel, ifaces: seq<string>, name: string, r: Rule) {
    exists iface | iface in ifaces :: r == IfaceDnsTo(iface, name) && k(Insert(NAT_PREROUTING, r))
  }

  ghost predicate HooksOf(k: Kernel, hooks: seq<Rule>, ifaces: seq<string>, name: string) {
    forall r :: r in hooks <==> HookFor(k, ifaces, name, r)
  }

  lemma {:induction false} RemoveFromHead(hooks: seq<Rule>, rest: seq<Rule>, r: Rule)
    requires r !in rest
    ensures RemoveFirst(hooks + rest, r) == RemoveFirst(hooks, r) + rest
    ensures forall x | x != r :: x in RemoveFirst(hooks, r) <==> x in hooks
    ensures r in RemoveFirst(hooks, r) ==> r in hooks
  {
    if hooks == [] {
      assert hooks + rest == rest;
      Gone(rest, r);
    } else {
      assert (hooks + rest)[1..] == hooks[1..] + rest;
      assert hooks == [hooks[0]] + hooks[1..];
      RemoveFromHead(hooks[1..], rest, r);
    }
  }

  lemma {:induction false} Gone(rs: seq<Rule>, r: Rule)
    requires r !in rs
    ensures RemoveFirst(rs, r) == rs
  {
    if rs != [] {
      Gone(rs[1..], r);
    }
  }

  lemma DeleteHook(k: Kernel, s: Tables, hooks: seq<Rule>, rest: seq<Rule>, r: Rule)
    requires NAT_PREROUTING in s && s[NAT_PREROUTING] == hooks + rest && r !in rest
    ensures Step(k, s, Delete(NAT_PREROUTING, r)).0 == s[NAT_PREROUTING := RemoveFirst(hooks, r) + rest]
  {
    RemoveFromHead(hooks, rest, r);
    Gone2(hooks, rest, r);
    hide RemoveFirst;
  }

  lemma InsertHook(k: Kernel, s: Tables, rs: seq<Rule>, r: Rule)
    requires Resolves(s, Nat, r) && NAT_PREROUTING in s
    ensures Step(k, s[NAT_PREROUTING := rs], Insert(NAT_PREROUTING, r)).0
         == s[NAT_PREROUTING := if k(Insert(NAT_PREROUTING, r)) then [r] + rs else rs]
  {
    Overwrite(s, NAT_PREROUTING, rs, [r] + rs);
  }

  lemma RehookOne(k: Kernel, s: Tables, hooks: seq<Rule>, rest: seq<Rule>, r: Rule) returns (hooks': seq<Rule>)
    requires NAT_PREROUTING in s && s[NAT_PREROUTING] == hooks + rest && r !in rest && Resolves(s, Nat, r)
    requires r in hooks ==> k(Insert(NAT_PREROUTING, r))
    ensures Run(k, s, Rehook(NAT_PREROUTING, r)) == s[NAT_PREROUTING := hooks' + rest]
    ensures forall x :: x in hooks' <==> (x == r && k(Insert(NAT_PREROUTING, r))) || (x != r && x in hooks)
  {
    RunPair(k, s, Delete(NAT_PREROUTING, r), Insert(NAT_PREROUTING, r));
    RemoveFromHead(hooks, rest, r);
    DeleteHook(k, s, hooks, rest, r);
    var less := RemoveFirst(hooks, r);
    InsertHook(k, s, less + rest, r);
    hide Step, Run, RemoveFirst;
    hooks' := if k(Insert(NAT_PREROUTING, r)) then [r] + less else less;
    assert [r] + (less + rest) == ([r] + less) + rest;
  }

  lemma Gone2(hooks: seq<Rule>, rest: seq<Rule>, r: Rule)
    ensures r !in hooks ==> RemoveFirst(hooks, r) == hooks
    ensures r in hooks + rest <==> r in hooks || r in rest
  {
    if r !in hooks {
      Gone(hooks, r);
    }
  }

  lemma {:induction false} RehookDnsRun(k: Kernel, s: Tables, ifaces: seq<string>, name: string, rest: seq<Rule>)
    returns (hooks: seq<Rule>)
    requires NAT_PREROUTING in s && s[NAT_PREROUTING] == rest && User(Nat, name) in s
    requires forall iface | iface in ifaces :: IfaceDnsTo(iface, name) !in rest
    ensures Run(k, s, RehookDns(ifaces, name)) == s[NAT_PREROUTING := hooks + rest] && HooksOf(k, hooks, ifaces, name)
  {
    if ifaces == [] {
      hooks := [];
      assert [] + rest == rest;
    } else {
      var front, last := ifaces[..|ifaces| - 1], ifaces[|ifaces| - 1];
      assert ifaces == front + [last];
      var r := IfaceDnsTo(last, name);
      var before := RehookDnsRun(k, s, front, name, rest);
      var s1 := s[NAT_PREROUTING := before + rest];
      RunConcat(k, s, RehookDns(front, name), Rehook(NAT_PREROUTING, r));
      assert HookFor(k, front, name, r) ==> k(Insert(NAT_PREROUTING, r));
      hooks := RehookOne(k, s1, before, rest, r);
      hide Run, RehookDns, Rehook;
      forall x ensures x in hooks <==> HookFor(k, ifaces, name, x) {
        assert HookFor(k, ifaces, name, x) <==> HookFor(k, front, name, x) || (x == r && k(Insert(NAT_PREROUTING, r)));
      }
    }
  }

  // A packet that some hook applies to goes to the DNS chain, and any other past them.
  lemma {:induction false} EvalHooks(s: Tables, depth: nat, cfg: Config, hooks: seq<Rule>, rest: seq<Rule>, p: Packet)
    requires depth > 0 && User(Nat, DnsName(cfg)) in s && s[User(Nat, DnsName(cfg))] == DnsRules(cfg)
    requires forall r | r in hooks :: r.target == Jump(DnsName(cfg)) && Proto(Udp) in r.matches && DPort(53) in r.matches
    ensures Eval(s, depth, Nat, hooks + rest, p)
         == if p.uid != Some(0) && exists r :: r in hooks && Applies(r, p) then Decided(DnatLocal(cfg.dnsForwardPort), p)
            else Eval(s, depth, Nat, rest, p)
  {
    hide DnsName, DnsRules;
    if hooks == [] {
      assert hooks + rest == rest;
    } else {
      var hook, more := hooks[0], hooks[1..];
      assert hooks + rest == [hook] + (more + rest) && hooks == [hook] + more;
      EvalHooks(s, depth, cfg, more, rest, p);
      EvalHook(s, depth, Nat, hook, more + rest, p);
      if Applies(hook, p) {
        assert Holds(Proto(Udp), p) && Holds(DPort(53), p);
        DnsChain(s, depth - 1, cfg, p);
      }
      hide Eval, Applies;
    }
  }

  // DNS of a hotspot client, by the interface it comes in on.
  ghost predicate ClientDns(k: Kernel, cfg: Config, p: Packet) {
    && cfg.hotspot && cfg.hotspotDns && cfg.dnsHijack && cfg.dnsForwardPort > 0
    && p.protocol == Udp && p.dport == 53 && p.uid != Some(0)
    && exists raw | raw in IfaceList(cfg) ::
         var iface := TrimSpace(raw);
         && iface != "" && IfaceMatches(iface, p.inIface)
         && k(Insert(NAT_PREROUTING, Rule([In(iface), Proto(Udp), DPort(53)], Jump(DnsName(cfg)))))
  }

  lemma AppliesThree(a: Match, b: Match, c: Match, target: Target, p: Packet)
    ensures Applies(Rule([a, b, c], target), p) <==> Holds(a, p) && Holds(b, p) && Holds(c, p)
  {
    assert [a, b, c][0] in [a, b, c] && [a, b, c][1] in [a, b, c] && [a, b, c][2] in [a, b, c];
  }

  lemma SomeHookApplies(k: Kernel, cfg: Config, hooks: seq<Rule>, p: Packet)
    requires HooksOf(k, hooks, NonBlank(IfaceList(cfg)), DnsName(cfg))
    requires cfg.hotspot && cfg.hotspotDns && cfg.dnsHijack && cfg.dnsForwardPort > 0
    ensures p.uid != Some(0) && (exists r :: r in hooks && Applies(r, p)) <==> ClientDns(k, cfg, p)
  {
    var ifaces, name := NonBlank(IfaceList(cfg)), DnsName(cfg);
    hide NonBlank, IfaceList, DnsName, TrimSpace, Applies, IfaceMatches;
    if r :| r in hooks && Applies(r, p) {
      assert HookFor(k, ifaces, name, r);
      var iface :| iface in ifaces && r == IfaceDnsTo(iface, name) && k(Insert(NAT_PREROUTING, r));
      AppliesThree(In(iface), Proto(Udp), DPort(53), Jump(name), p);
      NonBlankMembers(IfaceList(cfg), iface);
    }
    if ClientDns(k, cfg, p) {
      var raw :| raw in IfaceList(cfg) && TrimSpace(raw) != "" && IfaceMatches(TrimSpace(raw), p.inIface)
                 && k(Insert(NAT_PREROUTING, Rule([In(TrimSpace(raw)), Proto(Udp), DPort(53)], Jump(name))));
      NonBlankMembers(IfaceList(cfg), TrimSpace(raw));
      var r := IfaceDnsTo(TrimSpace(raw), name);
      assert HookFor(k, ifaces, name, r);
      AppliesThree(In(TrimSpace(raw)), Proto(Udp), DPort(53), Jump(name), p);
    }
  }

  lemma HooksMatchDns(k: Kernel, hooks: seq<Rule>, ifaces: seq<string>, name: string)
    requires HooksOf(k, hooks, ifaces, name)
    ensures forall r | r in hooks :: r.target == Jump(name) && Proto(Udp) in r.matches && DPort(53) in r.matches
  {
    forall r | r in hooks ensures r.target == Jump(name) && Proto(Udp) in r.matches && DPort(53) in r.matches {
      assert HookFor(k, ifaces, name, r);
      assert r.matches[1] == Proto(Udp) && r.matches[2] == DPort(53);
    }
  }

  lemma NoHooksYet(cfg: Config, t: Tables)
    requires NAT_PREROUTING in t && DaemonFree(cfg, t)
    ensures forall iface | iface in NonBlank(IfaceList(cfg)) :: IfaceDnsTo(iface, DnsName(cfg)) !in t[NAT_PREROUTING]
  {
    DnsNameIsOwn(cfg);
    hide NonBlank, IfaceList, DnsName, DaemonName;
    forall iface | iface in NonBlank(IfaceList(cfg)) ensures IfaceDnsTo(iface, DnsName(cfg)) !in t[NAT_PREROUTING] {
      var r := IfaceDnsTo(iface, DnsName(cfg));
      assert r.matches[1..] == [Proto(Udp), DPort(53)];
      assert DaemonRule(cfg, NAT_PREROUTING, r);
    }
  }

  lemma DnsNameIsOwn(cfg: Config)
    ensures DaemonName(cfg, DnsName(cfg))
  {
    assert SUFFIXES[2] == "_DNS";
  }

  // The state after the DNS program: the chain, and in nat PREROUTING the hooks before what was there.
  lemma DnsHooked(k: Kernel, cfg: Config, t: Tables, s: Tables) returns (hooks: seq<Rule>)
    requires cfg.hotspot && cfg.hotspotDns && Supports(k, DnsProgram(cfg))
    requires NAT_PREROUTING in t && DaemonFree(cfg, t) && NAT_PREROUTING in s && s[NAT_PREROUTING] == t[NAT_PREROUTING]
    ensures var s' := Run(k, s, DnsProgram(cfg));
            && SameBut(s, s', Nat, {NAT_OUTPUT, NAT_PREROUTING, User(Nat, DnsName(cfg))})
            && NAT_PREROUTING in s' && s'[NAT_PREROUTING] == hooks + t[NAT_PREROUTING]
            && User(Nat, DnsName(cfg)) in s' && s'[User(Nat, DnsName(cfg))] == DnsRules(cfg)
    ensures HooksOf(k, hooks, NonBlank(IfaceList(cfg)), DnsName(cfg))
  {
    var ch, hook := User(Nat, DnsName(cfg)), DnsTo(DnsName(cfg));
    var base, more := Build(ch, DnsRules(cfg)) + Rehook(NAT_OUTPUT, hook), RehookDns(NonBlank(IfaceList(cfg)), DnsName(cfg));
    assert DnsProgram(cfg) == base + more;
    hide Run, Build, DnsName, NonBlank, IfaceList, Supports, Rehook, RehookDns, DaemonFree, HooksOf;
    SupportsParts(k, base, more);
    SupportsParts(k, Build(ch, DnsRules(cfg)), Rehook(NAT_OUTPUT, hook));
    RunConcat(k, s, base, more);
    RunConcat(k, s, Build(ch, DnsRules(cfg)), Rehook(NAT_OUTPUT, hook));
    BuildRun(k, s, ch, DnsRules(cfg));
    var s1 := s[ch := DnsRules(cfg)];
    RehookTouches(k, s1, hook);
    var s2 := Run(k, s1, Rehook(NAT_OUTPUT, hook));
    NoHooksYet(cfg, t);
    hooks := RehookDnsRun(k, s2, NonBlank(IfaceList(cfg)), DnsName(cfg), t[NAT_PREROUTING]);
  }

  lemma RehookTouches(k: Kernel, s: Tables, hook: Rule)
    ensures SameBut(s, Run(k, s, Rehook(NAT_OUTPUT, hook)), Nat, {NAT_OUTPUT})
  {
    RunTouches(k, s, Rehook(NAT_OUTPUT, hook), Nat, {NAT_OUTPUT});
  }

  lemma RedirectTouches(k: Kernel, cfg: Config, bypass: seq<Bypass>, t: Tables)
    ensures RedirectProgram(cfg, bypass) != []
    ensures SameBut(t, Checked(k, t, RedirectProgram(cfg, bypass)).0, Nat, {NAT_OUTPUT, User(Nat, OutName(cfg))})
  {
    RedirectNonEmpty(cfg, bypass);
    BuildAndHookTouches(User(Nat, OutName(cfg)), RedirectRules(cfg, bypass), NAT_OUTPUT, TcpTo(OutName(cfg)));
    hide Build, Rehook, RedirectRules, OutName;
    CheckedIsRun(k, t, RedirectProgram(cfg, bypass));
    RunTouches(k, t, RedirectProgram(cfg, bypass), Nat, {NAT_OUTPUT, User(Nat, OutName(cfg))});
    hide Checked, Run;
  }

  lemma DnsTouches(k: Kernel, cfg: Config, s: Tables)
    requires !(cfg.hotspot && cfg.hotspotDns)
    ensures SameBut(s, Run(k, s, DnsProgram(cfg)), Nat, {NAT_OUTPUT, User(Nat, DnsName(cfg))})
  {
    var ch, hook := User(Nat, DnsName(cfg)), DnsTo(DnsName(cfg));
    BuildAndHookTouches(ch, DnsRules(cfg), NAT_OUTPUT, hook);
    hide Build, Rehook, DnsRules, DnsName;
    assert DnsProgram(cfg) == Build(ch, DnsRules(cfg)) + Rehook(NAT_OUTPUT, hook);
    RunTouches(k, s, DnsProgram(cfg), Nat, {NAT_OUTPUT, ch});
  }

  lemma PreroutingSame(t: Tables, s: Tables, except: set<Chain>)
    requires SameBut(t, s, Nat, except) && NAT_PREROUTING !in except && NAT_PREROUTING in t
    ensures NAT_PREROUTING in s && s[NAT_PREROUTING] == t[NAT_PREROUTING]
  {
  }

  lemma OwnNatChains(cfg: Config, t: Tables, s: Tables, except: set<Chain>)
    requires DaemonFree(cfg, t) && SameBut(t, s, Nat, except)
    requires except <= {NAT_OUTPUT, NAT_PREROUTING, User(Nat, OutName(cfg)), User(Nat, DnsName(cfg))}
    ensures Kept(t, s, Nat)
  {
    OwnChainsAbsent(cfg, t);
    hide DaemonFree, OutName, DnsName;
    KeptBut(t, s, Nat, except);
  }

  lemma ReachPrerouting(k: Kernel, cfg: Config, bypass: seq<Bypass>, t: Tables)
    requires NAT_PREROUTING in t
    ensures var s := Hooked(k, cfg, bypass, t);
            && SameBut(t, s, Nat, {NAT_OUTPUT, User(Nat, OutName(cfg))})
            && NAT_PREROUTING in s && s[NAT_PREROUTING] == t[NAT_PREROUTING]
  {
    hide Run, Checked, RedirectProgram, SameBut, OutName;
    RedirectTouches(k, cfg, bypass, t);
    MangleFrame(k, cfg, bypass, t, Nat);
    var x := {NAT_OUTPUT, User(Nat, OutName(cfg))};
    var s := Hooked(k, cfg, bypass, t);
    Onwards(t, Checked(k, t, RedirectProgram(cfg, bypass)).0, s, Nat, x, {});
    assert x + {} == x;
    PreroutingSame(t, s, x);
  }

  // The hooks in nat PREROUTING after a successful Apply.
  lemma InstalledPrerouting(k: Kernel, cfg: Config, bypass: seq<Bypass>, t: Tables) returns (hooks: seq<Rule>)
    requires cfg.hotspot && cfg.hotspotDns && Hijacks(cfg) && Supports(k, DnsProgram(cfg))
    requires WellFormed(t) && NAT_PREROUTING in t && DaemonFree(cfg, t) && Applied(k, cfg, bypass, t).1
    ensures HooksOf(k, hooks, NonBlank(IfaceList(cfg)), DnsName(cfg))
    ensures var s := Applied(k, cfg, bypass, t).0;
            && NAT_PREROUTING in s && s[NAT_PREROUTING] == hooks + t[NAT_PREROUTING] && Kept(t, s, Nat)
            && User(Nat, DnsName(cfg)) in s && s[User(Nat, DnsName(cfg))] == DnsRules(cfg)
  {
    hide *;
    Phases(k, cfg, bypass, t);
    ReachPrerouting(k, cfg, bypass, t);
    var s := Hooked(k, cfg, bypass, t);
    hooks := DnsHooked(k, cfg, t, s);
    FinishFrame(k, cfg, s, Nat);
    Places(OutName(cfg), DnsName(cfg));
    var s1, s' := Run(k, s, DnsProgram(cfg)), FinishInstall(k, cfg, s);
    var x, y := {NAT_OUTPUT, User(Nat, OutName(cfg))}, {NAT_OUTPUT, NAT_PREROUTING, User(Nat, DnsName(cfg))};
    SameChain(s1, s', NAT_PREROUTING);
    SameChain(s1, s', User(Nat, DnsName(cfg)));
    Onwards(t, s, s1, Nat, x, y);
    Onwards(t, s1, s', Nat, x + y, {});
    OwnNatChains(cfg, t, s', x + y + {});
  }

  lemma SameChain(s: Tables, s': Tables, ch: Chain)
    requires ch.table == Nat && SameBut(s, s', Nat, {}) && ch in s
    ensures ch in s' && s'[ch] == s[ch]
  {
  }

  lemma UnhookedPrerouting(k: Kernel, cfg: Config, bypass: seq<Bypass>, t: Tables)
    requires !(cfg.hotspot && cfg.hotspotDns && Hijacks(cfg))
    requires WellFormed(t) && NAT_PREROUTING in t && DaemonFree(cfg, t) && Applied(k, cfg, bypass, t).1
    ensures var s := Applied(k, cfg, bypass, t).0;
            NAT_PREROUTING in s && s[NAT_PREROUTING] == t[NAT_PREROUTING] && Kept(t, s, Nat)
  {
    hide *;
    Phases(k, cfg, bypass, t);
    ReachPrerouting(k, cfg, bypass, t);
    var s, s' := Hooked(k, cfg, bypass, t), FinishInstall(k, cfg, Hooked(k, cfg, bypass, t));
    FinishFrame(k, cfg, s, Nat);
    Places(OutName(cfg), DnsName(cfg));
    var x, y := {NAT_OUTPUT, User(Nat, OutName(cfg))}, {NAT_OUTPUT, User(Nat, DnsName(cfg))};
    if Hijacks(cfg) {
      DnsTouches(k, cfg, s);
      Onwards(s, Run(k, s, DnsProgram(cfg)), s', Nat, y, {});
      Onwards(t, s, s', Nat, x, y + {});
      PreroutingSame(t, s', x + (y + {}));
      OwnNatChains(cfg, t, s', x + (y + {}));
    } else {
      Onwards(t, s, s', Nat, x, {});
      PreroutingSame(t, s', x + {});
      OwnNatChains(cfg, t, s', x + {});
    }
  }

  // nat PREROUTING: exactly the DNS of hotspot clients goes to the forwarder, as far as the kernel takes the hooks,
  // and everything else gets the verdict of the rules that were there before.
  lemma HotspotVerdict(k: Kernel, cfg: Config, bypass: seq<Bypass>, t: Tables, depth: nat, p: Packet)
    requires cfg.hotspot && cfg.hotspotDns && Hijacks(cfg) ==> Supports(k, DnsProgram(cfg))
    requires WellFormed(t) && NAT_PREROUTING in t && DaemonFree(cfg, t) && Applied(k, cfg, bypass, t).1 && depth > 0
    ensures var s := Applied(k, cfg, bypass, t).0;
            NAT_PREROUTING in s && Eval(s, depth, Nat, s[NAT_PREROUTING], p) ==
            if ClientDns(k, cfg, p) then Decided(DnatLocal(cfg.dnsForwardPort), p)
            else Eval(t, depth, Nat, t[NAT_PREROUTING], p)
  {
    HijacksMeans(cfg);
    NoClientDns(k, cfg, p);
    hide *;
    var s := Applied(k, cfg, bypass, t).0;
    if cfg.hotspot && cfg.hotspotDns && Hijacks(cfg) {
      var hooks := InstalledPrerouting(k, cfg, bypass, t);
      HooksMatchDns(k, hooks, NonBlank(IfaceList(cfg)), DnsName(cfg));
      EvalHooks(s, depth, cfg, hooks, t[NAT_PREROUTING], p);
      SomeHookApplies(k, cfg, hooks, p);
    } else {
      UnhookedPrerouting(k, cfg, bypass, t);
    }
    Places(OutName(cfg), DnsName(cfg));
    OldRulesKept(t, s, depth, NAT_PREROUTING, p);
  }

  lemma HijacksMeans(cfg: Config)
    ensures Hijacks(cfg) <==> cfg.dnsHijack && cfg.dnsForwardPort > 0
  {
  }

  lemma NoClientDns(k: Kernel, cfg: Config, p: Packet)
    ensures ClientDns(k, cfg, p) ==> cfg.hotspot && cfg.hotspotDns && Hijacks(cfg)
  {
  }
}
