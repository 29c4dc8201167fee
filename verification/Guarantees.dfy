// What Apply and Cleanup guarantee, in terms of the daemon's chain names and rules alone.
module Guarantees {
  import opened Netfilter
  import opened Sweep
  import opened Iptables
  import opened Restore

  // --- The daemon's traces --------------------------------------------------------------------------

  ghost predicate DaemonName(cfg: Config, name: string) {
    exists s :: s in SUFFIXES && name == Prefix(cfg) + s
  }

  // The names start with the configured prefix, or with SSHC if there is none.
  lemma DaemonNameMeans(cfg: Config, name: string)
    ensures DaemonName(cfg, name) <==> exists s :: s in SUFFIXES && name == (if cfg.prefix == "" then "SSHC" else cfg.prefix) + s
  {
    assert Prefix(cfg) == if cfg.prefix == "" then "SSHC" else cfg.prefix;
    hide Prefix;
  }

  ghost predicate DaemonChain(cfg: Config, ch: Chain) {
    ch == DIVERT || (ch.User? && ch.table != Filter && DaemonName(cfg, ch.name))
  }

  // The ways a built-in chain may send packets to a daemon chain: all, all TCP, or UDP port 53.
  ghost predicate HookMatches(ms: seq<Match>) {
    ms == [] || ms == [Proto(Tcp)] || ms == [Proto(Udp), DPort(53)]
  }

  ghost predicate HookAt(ifaces: seq<string>, ch: Chain, ms: seq<Match>) {
    match ch
    case Builtin(Nat, Output) => HookMatches(ms)
    case Builtin(Nat, Prerouting) =>
      HookMatches(ms) || (|ms| > 0 && ms[0].In? && ms[0].iface in ifaces && HookMatches(ms[1..]))
    case Builtin(Mangle, Output) => ms == []
    case Builtin(Mangle, Prerouting) => ms == []
    case _ => false
  }

  ghost predicate DaemonRule(cfg: Config, ch: Chain, r: Rule) {
    || (r.target.Jump? && DaemonName(cfg, r.target.name) && HookAt(NonBlank(IfaceList(cfg)), ch, r.matches))
    || (ch == MANGLE_PREROUTING && r == DIVERT_HOOK)
    || (ch == FILTER_FORWARD && r == FORWARD_ALL)
    || (ch == FILTER_OUTPUT && exists port :: port in {443, 80} && (r == QuicDrop(port) || r == QuicReject(port)))
  }

  ghost function ForeignRules(cfg: Config, ch: Chain, rs: seq<Rule>): seq<Rule> {
    if rs == [] then []
    else if DaemonRule(cfg, ch, rs[0]) then ForeignRules(cfg, ch, rs[1..])
    else [rs[0]] + ForeignRules(cfg, ch, rs[1..])
  }

  // Everyone else's chains and rules, in their order.
  ghost function Foreign(cfg: Config, t: Tables): Tables {
    map ch | ch in t && !DaemonChain(cfg, ch) :: ForeignRules(cfg, ch, t[ch])
  }

  // No daemon rule is stacked twice, and only daemon hooks jump to daemon chains.
  ghost predicate Regular(cfg: Config, t: Tables) {
    && (forall ch, r | ch in t && DaemonRule(cfg, ch, r) :: Once(t[ch], r))
    && (forall ch, r | ch in t && r in t[ch] && r.target.Jump? && DaemonChain(cfg, User(ch.table, r.target.name)) ::
          DaemonRule(cfg, ch, r))
  }

  ghost predicate DaemonFree(cfg: Config, t: Tables) {
    && (forall ch | ch in t :: !DaemonChain(cfg, ch))
    && (forall ch, r | ch in t && r in t[ch] :: !DaemonRule(cfg, ch, r))
  }

  // --- cleanupRules removes exactly these ---------------------------------------------------------

  lemma {:induction false} IfaceDetachRules(ifaces: seq<string>, name: string, ch: Chain, r: Rule)
    ensures Delete(ch, r) in IfaceDetach(ifaces, name) <==>
            && ch == NAT_PREROUTING && r.target == Jump(name)
            && |r.matches| > 0 && r.matches[0].In? && r.matches[0].iface in ifaces && HookMatches(r.matches[1..])
  {
    if ifaces != [] {
      var front, last := ifaces[..|ifaces| - 1], ifaces[|ifaces| - 1];
      IfaceDetachRules(front, name, ch, r);
      assert ifaces == front + [last];
      var one := IfaceDetachOne(last, name);
      assert one[0].rule.matches[1..] == [Proto(Tcp)];
      assert one[1].rule.matches[1..] == [];
      assert one[2].rule.matches[1..] == [Proto(Udp), DPort(53)];
      if r.target == Jump(name) && |r.matches| > 0 && r.matches[0] == In(last) && HookMatches(r.matches[1..]) {
        assert r.matches == [In(last)] + r.matches[1..];
        assert r == one[0].rule || r == one[1].rule || r == one[2].rule;
      }
    }
  }

  lemma NatDetachRules(name: string, ch: Chain, r: Rule)
    ensures Delete(ch, r) in NatDetach(name) <==>
            (ch == NAT_OUTPUT || ch == NAT_PREROUTING) && r.target == Jump(name) && HookMatches(r.matches)
  {
    var cs := NatDetach(name);
    if (ch == NAT_OUTPUT || ch == NAT_PREROUTING) && r.target == Jump(name) && HookMatches(r.matches) {
      assert r == TcpTo(name) || r == AllTo(name) || r == DnsTo(name);
      assert cs[0] in cs && cs[1] in cs && cs[2] in cs && cs[3] in cs && cs[4] in cs && cs[5] in cs;
    }
  }

  lemma MangleDetachRules(name: string, ch: Chain, r: Rule)
    ensures Delete(ch, r) in MangleDetach(name) <==>
            (ch == MANGLE_OUTPUT || ch == MANGLE_PREROUTING) && r.target == Jump(name) && r.matches == []
  {
    var cs := MangleDetach(name);
    if (ch == MANGLE_OUTPUT || ch == MANGLE_PREROUTING) && r.target == Jump(name) && r.matches == [] {
      assert r == AllTo(name);
      assert cs[0] in cs && cs[1] in cs;
    }
  }

  lemma DetachRules(ifaces: seq<string>, name: string, ch: Chain, r: Rule)
    ensures Delete(ch, r) in Detach(ifaces, name) <==> r.target == Jump(name) && HookAt(ifaces, ch, r.matches)
  {
    hide NatDetach, MangleDetach, IfaceDetach, Detach, HookMatches;
    DetachShape(ifaces, name);
    Members3(Hooks(ifaces, name), Remove(User(Nat, name)), Remove(User(Mangle, name)));
    Members3(NatDetach(name), IfaceDetach(ifaces, name), MangleDetach(name));
    NatDetachRules(name, ch, r);
    IfaceDetachRules(ifaces, name, ch, r);
    MangleDetachRules(name, ch, r);
  }

  // Which commands the loop over the ten chain names issues.
  lemma DetachAllRules(cfg: Config, ch: Chain, r: Rule)
    ensures Delete(ch, r) in DetachAll(NonBlank(IfaceList(cfg)), Prefix(cfg), SUFFIXES) <==>
            r.target.Jump? && DaemonName(cfg, r.target.name) && HookAt(NonBlank(IfaceList(cfg)), ch, r.matches)
  {
    hide HookAt, NonBlank, IfaceList, Prefix, DetachAll, Detach;
    var ifaces, all := NonBlank(IfaceList(cfg)), DetachAll(NonBlank(IfaceList(cfg)), Prefix(cfg), SUFFIXES);
    if Delete(ch, r) in all {
      var s := DetachAllOwner(ifaces, Prefix(cfg), SUFFIXES, Delete(ch, r));
      DetachRules(ifaces, Prefix(cfg) + s, ch, r);
    }
    if r.target.Jump? && DaemonName(cfg, r.target.name) && HookAt(ifaces, ch, r.matches) {
      var s :| s in SUFFIXES && r.target.name == Prefix(cfg) + s;
      DetachAllHas(ifaces, Prefix(cfg), SUFFIXES, s);
      DetachRules(ifaces, Prefix(cfg) + s, ch, r);
    }
  }

  lemma DetachAllChains(cfg: Config, ch: Chain)
    ensures Destroy(ch) in DetachAll(NonBlank(IfaceList(cfg)), Prefix(cfg), SUFFIXES) <==>
            ch.User? && ch.table != Filter && DaemonName(cfg, ch.name)
  {
    hide NonBlank, IfaceList, Prefix, DetachAll, Detach, Hooks;
    var ifaces, all := NonBlank(IfaceList(cfg)), DetachAll(NonBlank(IfaceList(cfg)), Prefix(cfg), SUFFIXES);
    if Destroy(ch) in all {
      var s := DetachAllOwner(ifaces, Prefix(cfg), SUFFIXES, Destroy(ch));
      DetachMembers(ifaces, Prefix(cfg) + s);
      DetachShape(ifaces, Prefix(cfg) + s);
      Members3(Hooks(ifaces, Prefix(cfg) + s), Remove(User(Nat, Prefix(cfg) + s)), Remove(User(Mangle, Prefix(cfg) + s)));
      HooksMembers(ifaces, Prefix(cfg) + s);
      RemoveIsSweep(User(Nat, Prefix(cfg) + s));
      RemoveIsSweep(User(Mangle, Prefix(cfg) + s));
    }
    if ch.User? && ch.table != Filter && DaemonName(cfg, ch.name) {
      var s :| s in SUFFIXES && ch.name == Prefix(cfg) + s;
      DetachAllHas(ifaces, Prefix(cfg), SUFFIXES, s);
      DetachMembers(ifaces, Prefix(cfg) + s);
    }
  }

  lemma FilterDeletesRules(ch: Chain, r: Rule)
    ensures Delete(ch, r) in FilterDeletes() <==>
            || (ch == FILTER_FORWARD && r == FORWARD_ALL)
            || (ch == FILTER_OUTPUT && exists port :: port in {443, 80} && (r == QuicDrop(port) || r == QuicReject(port)))
  {
    hide UnblockPort, FilterDeletes;
    FilterDeletesMembers();
    UnblockMembers(443);
    UnblockMembers(80);
    FilterDeletesShape();
    Members3([Delete(FILTER_FORWARD, FORWARD_ALL)], UnblockPort(443), UnblockPort(80));
  }

  lemma FilterDeletesShape()
    ensures FilterDeletes() == [Delete(FILTER_FORWARD, FORWARD_ALL)] + UnblockPort(443) + UnblockPort(80)
  {
  }

  lemma HeadRules(cfg: Config, ch: Chain, r: Rule)
    ensures Delete(ch, r) in CleanupHead(Prefix(cfg)) ==> DaemonRule(cfg, ch, r)
    ensures Delete(MANGLE_PREROUTING, DIVERT_HOOK) in CleanupHead(Prefix(cfg))
  {
    hide NonBlank, IfaceList, Prefix;
    ShippedSuffixes();
    var head := CleanupHead(Prefix(cfg));
    assert head[2] == Delete(MANGLE_PREROUTING, DIVERT_HOOK);
    assert DaemonName(cfg, Prefix(cfg) + "_OUT") && DaemonName(cfg, Prefix(cfg) + "_PRE");
  }

  lemma CleanupParts(cfg: Config, c: Command)
    ensures c in CleanupProgram(cfg) <==>
            || c in CleanupHead(Prefix(cfg)) || c in DetachAll(NonBlank(IfaceList(cfg)), Prefix(cfg), SUFFIXES)
            || c in Remove(DIVERT) || c in FilterDeletes()
  {
    hide *;
    CleanupShape(cfg);
    var head, all := CleanupHead(Prefix(cfg)), DetachAll(NonBlank(IfaceList(cfg)), Prefix(cfg), SUFFIXES);
    Members3(head + all, Remove(DIVERT), FilterDeletes());
  }

  // The rules cleanupRules deletes are the daemon's hooks and filter rules, no more and no fewer.
  lemma CleanupDeletes(cfg: Config, ch: Chain, r: Rule)
    ensures Delete(ch, r) in CleanupProgram(cfg) <==> DaemonRule(cfg, ch, r)
  {
    hide CleanupProgram, CleanupHead, DetachAll, FilterDeletes, Remove, HookAt, DaemonName, NonBlank, IfaceList, Prefix;
    CleanupParts(cfg, Delete(ch, r));
    HeadRules(cfg, ch, r);
    CleanupParts(cfg, Delete(MANGLE_PREROUTING, DIVERT_HOOK));
    DetachAllRules(cfg, ch, r);
    RemoveIsSweep(DIVERT);
    FilterDeletesRules(ch, r);
    assert Delete(ch, r) in Remove(DIVERT) ==> !Delete(ch, r).Delete?;
  }

  // The chains it destroys are the daemon's chains, no more and no fewer.
  lemma CleanupDestroys(cfg: Config, ch: Chain)
    ensures Destroy(ch) in CleanupProgram(cfg) <==> DaemonChain(cfg, ch)
  {
    hide CleanupProgram, DetachAll, FilterDeletes, Remove, DaemonName, NonBlank, IfaceList, Prefix;
    CleanupParts(cfg, Destroy(ch));
    DetachAllChains(cfg, ch);
    RemoveIsSweep(DIVERT);
    FilterDeletesMembers();
    assert Destroy(ch) in Remove(DIVERT) ==> Destroy(ch).chain == DIVERT;
    assert Destroy(ch) in FilterDeletes() ==> Destroy(ch).Delete?;
    assert Destroy(ch) !in CleanupHead(Prefix(cfg));
  }

  lemma {:induction false} ForeignRulesAreKept(cfg: Config, ch: Chain, rs: seq<Rule>)
    ensures ForeignRules(cfg, ch, rs) == Keep(CleanupProgram(cfg), ch, rs)
  {
    hide CleanupProgram, DaemonRule;
    if rs != [] {
      ForeignRulesAreKept(cfg, ch, rs[1..]);
      CleanupDeletes(cfg, ch, rs[0]);
    }
  }

  lemma ForeignIsErase(cfg: Config, t: Tables)
    ensures Foreign(cfg, t) == Erase(CleanupProgram(cfg), t)
  {
    hide CleanupProgram, DaemonChain, ForeignRules, Keep;
    forall ch ensures Owns(CleanupProgram(cfg), ch) <==> DaemonChain(cfg, ch) {
      CleanupDestroys(cfg, ch);
    }
    forall ch | ch in t ensures ForeignRules(cfg, ch, t[ch]) == Keep(CleanupProgram(cfg), ch, t[ch]) {
      ForeignRulesAreKept(cfg, ch, t[ch]);
    }
  }

  lemma RegularIsTidy(cfg: Config, t: Tables)
    ensures Regular(cfg, t) <==> Tidy(CleanupProgram(cfg), t)
    ensures DaemonFree(cfg, t) <==> Clean(CleanupProgram(cfg), t)
  {
    hide CleanupProgram, DaemonChain, DaemonRule, Once;
    forall ch ensures Owns(CleanupProgram(cfg), ch) <==> DaemonChain(cfg, ch) {
      CleanupDestroys(cfg, ch);
    }
    forall ch, r ensures Delete(ch, r) in CleanupProgram(cfg) <==> DaemonRule(cfg, ch, r) {
      CleanupDeletes(cfg, ch, r);
    }
  }

  // --- Main results ---------------------------------------------------------------------------------

  // cleanupRules leaves exactly everyone else's chains and rules.
  lemma CleanupLeavesForeign(k: Kernel, cfg: Config, t: Tables)
    requires Regular(cfg, t)
    ensures Run(k, t, CleanupProgram(cfg)) == Foreign(cfg, t)
  {
    hide *;
    RegularIsTidy(cfg, t);
    CleanupErases(k, cfg, t);
    ForeignIsErase(cfg, t);
  }

  // It leaves no jump without its chain.
  lemma CleanupKeepsWellFormed(k: Kernel, cfg: Config, t: Tables)
    requires Regular(cfg, t) && WellFormed(t)
    ensures WellFormed(Run(k, t, CleanupProgram(cfg)))
  {
    hide *;
    RegularIsTidy(cfg, t);
    CleanupErases(k, cfg, t);
    ErasedIsWellFormed(CleanupProgram(cfg), t);
  }

  // Cleanup after Apply, whatever the kernel refused and whether or not Apply succeeded: the tables
  // are back to the initial ones if and only if those held no chain and no rule that could be taken
  // for the daemon's own.
  lemma ApplyThenCleanup(k1: Kernel, k2: Kernel, cfg: Config, bypass: seq<Bypass>, t: Tables)
    requires Regular(cfg, t)
    ensures Run(k2, Applied(k1, cfg, bypass, t).0, CleanupProgram(cfg)) == Foreign(cfg, t)
    ensures Run(k2, Applied(k1, cfg, bypass, t).0, CleanupProgram(cfg)) == t <==> DaemonFree(cfg, t)
  {
    hide Regular, DaemonFree, Foreign, Applied, CleanupProgram, Run, Tidy, Clean, Erase;
    RegularIsTidy(cfg, t);
    ForeignIsErase(cfg, t);
    AppliedUndoable(k1, cfg, bypass, t);
    CleanupErases(k2, cfg, Applied(k1, cfg, bypass, t).0);
    CleanIsErased(CleanupProgram(cfg), t);
  }

  // A checked hook goes in if the built-in chain is there and the kernel takes the chain it jumps to, and it.
  ghost predicate Takes(k: Kernel, t: Tables, at: Chain, ch: Chain, hook: Rule) {
    at in t && k(New(ch)) && k(Insert(at, hook))
  }

  // The kernel takes both hooks that Apply insists on.
  ghost predicate HooksTaken(k: Kernel, cfg: Config, t: Tables) {
    && Takes(k, t, NAT_OUTPUT, User(Nat, OutName(cfg)), TcpTo(OutName(cfg)))
    && Takes(k, t, MANGLE_PREROUTING, User(Mangle, PreName(cfg)), AllTo(PreName(cfg)))
  }

  lemma {:induction false} AppendsKeepKeys(k: Kernel, t: Tables, ch: Chain, rules: seq<Rule>)
    ensures Run(k, t, Appends(ch, rules)).Keys == t.Keys
  {
    if rules != [] {
      AppendsKeepKeys(k, t, ch, rules[..|rules| - 1]);
    }
  }

  lemma BuildKeys(k: Kernel, t: Tables, ch: Chain, rules: seq<Rule>)
    requires ch.User? && ch !in t
    ensures Run(k, t, Build(ch, rules)).Keys == t.Keys + if k(New(ch)) then {ch} else {}
  {
    RunConcat(k, t, [New(ch), Flush(ch)], Appends(ch, rules));
    RunPair(k, t, New(ch), Flush(ch));
    AppendsKeepKeys(k, Run(k, t, [New(ch), Flush(ch)]), ch, rules);
    hide Run;
  }

  // What a program that builds a chain and hooks it in says, and which chains it leaves.
  lemma HookSucceeds(k: Kernel, t: Tables, ch: Chain, rules: seq<Rule>, at: Chain, hook: Rule)
    requires ch.User? && ch !in t && at.Builtin? && at.table == ch.table && hook.target == Jump(ch.name)
    ensures var p := Build(ch, rules) + Rehook(at, hook);
            && p != [] && (Checked(k, t, p).1 <==> Takes(k, t, at, ch, hook))
            && Checked(k, t, p).0.Keys == t.Keys + if k(New(ch)) then {ch} else {}
  {
    var b := Build(ch, rules);
    var p, front := b + Rehook(at, hook), b + [Delete(at, hook)];
    assert p == front + [Insert(at, hook)];
    assert p[..|p| - 1] == front;
    RunSnoc(k, t, b, Delete(at, hook));
    BuildKeys(k, t, ch, rules);
    hide Run, Build;
  }

  lemma OwnNames(cfg: Config)
    ensures DaemonName(cfg, OutName(cfg)) && DaemonName(cfg, PreName(cfg))
  {
    ShippedSuffixes();
    hide Prefix;
  }

  lemma OwnChainsGone(k: Kernel, cfg: Config, t: Tables)
    requires Regular(cfg, t)
    ensures var s := Run(k, t, CleanupProgram(cfg));
            && User(Nat, OutName(cfg)) !in s && User(Mangle, PreName(cfg)) !in s
            && (forall ch: Chain | ch.Builtin? :: ch in s <==> ch in t)
  {
    hide Run, CleanupProgram, Regular, ForeignRules, DaemonName, OutName, PreName;
    OwnNames(cfg);
    CleanupLeavesForeign(k, cfg, t);
  }

  lemma InstallSucceeds(k: Kernel, cfg: Config, bypass: seq<Bypass>, s: Tables)
    requires User(Nat, OutName(cfg)) !in s && User(Mangle, PreName(cfg)) !in s
    ensures Install(k, cfg, bypass, s).1 <==> HooksTaken(k, cfg, s)
  {
    var out, pre := User(Nat, OutName(cfg)), User(Mangle, PreName(cfg));
    hide Run, Build, Rehook, Checked, RedirectRules, TproxyRules, OutName, PreName, FinishInstall, Takes;
    HookSucceeds(k, s, out, RedirectRules(cfg, bypass), NAT_OUTPUT, TcpTo(OutName(cfg)));
    var s1 := Checked(k, s, RedirectProgram(cfg, bypass)).0;
    HookSucceeds(k, s1, pre, TproxyRules(cfg, bypass), MANGLE_PREROUTING, AllTo(PreName(cfg)));
    SameTakes(k, s, s1, MANGLE_PREROUTING, pre, AllTo(PreName(cfg)));
  }

  lemma SameTakes(k: Kernel, t: Tables, s: Tables, at: Chain, ch: Chain, hook: Rule)
    ensures (at in t <==> at in s) ==> (Takes(k, t, at, ch, hook) <==> Takes(k, s, at, ch, hook))
  {
  }

  // Apply succeeds, from any regular state, if and only if the kernel takes both hooks and their chains; the
  // rules of the chains do not matter.
  lemma ApplySucceedsExactly(k: Kernel, cfg: Config, bypass: seq<Bypass>, t: Tables)
    requires Regular(cfg, t)
    ensures Applied(k, cfg, bypass, t).1 <==> HooksTaken(k, cfg, t)
  {
    var s := Run(k, t, CleanupProgram(cfg));
    hide Run, CleanupProgram, Install, OutName, PreName, Regular;
    OwnChainsGone(k, cfg, t);
    InstallSucceeds(k, cfg, bypass, s);
  }

  // From a state without daemon traces, an Apply for which the kernel refuses a critical hook or its chain fails
  // and leaves the IPv4 tables as they were.
  lemma FailedApplyRollsBack(k: Kernel, cfg: Config, bypass: seq<Bypass>, t: Tables)
    requires WellFormed(t) && DaemonFree(cfg, t) && !HooksTaken(k, cfg, t)
    ensures !Applied(k, cfg, bypass, t).1 && Applied(k, cfg, bypass, t).0 == t
  {
    RefusedIsFailed(k, cfg, bypass, t);
    hide DaemonFree, Applied, CleanupProgram, Tidy, Clean, Erase;
    RegularIsTidy(cfg, t);
    CleanIsTidy(CleanupProgram(cfg), t);
    AppliedUndoable(k, cfg, bypass, t);
    CleanIsErased(CleanupProgram(cfg), t);
  }

  lemma RefusedIsFailed(k: Kernel, cfg: Config, bypass: seq<Bypass>, t: Tables)
    requires WellFormed(t) && DaemonFree(cfg, t)
    ensures Applied(k, cfg, bypass, t).1 <==> HooksTaken(k, cfg, t)
  {
    hide *;
    RegularIsTidy(cfg, t);
    CleanIsTidy(CleanupProgram(cfg), t);
    ApplySucceedsExactly(k, cfg, bypass, t);
  }

  // Apply over an old installation with the same prefix and interfaces, whatever the old flags and
  // bypass list, has the outcome and the tables of an Apply to the state before that installation.
  lemma Reapply(k1: Kernel, k2: Kernel, cfg1: Config, bypass1: seq<Bypass>, cfg2: Config, bypass2: seq<Bypass>, t: Tables)
    requires Prefix(cfg1) == Prefix(cfg2) && NonBlank(IfaceList(cfg1)) == NonBlank(IfaceList(cfg2))
    requires Regular(cfg1, t)
    ensures Applied(k2, cfg2, bypass2, Applied(k1, cfg1, bypass1, t).0) == Applied(k2, cfg2, bypass2, t)
  {
    hide DetachAll, Run, Erase, Tidy, Install, Regular;
    assert CleanupProgram(cfg1) == CleanupProgram(cfg2);
    RegularIsTidy(cfg1, t);
    hide CleanupProgram;
    AppliedUndoable(k1, cfg1, bypass1, t);
    CleanupErases(k2, cfg2, t);
    CleanupErases(k2, cfg2, Applied(k1, cfg1, bypass1, t).0);
  }

  // --- IPv6 -------------------------------------------------------------------------------------------

  // The daemon's IPv6 traces: one chain of the filter table and its two hooks.
  ghost predicate Regular6(t: Tables) {
    && (forall ch | ch in t && (ch == FILTER_OUTPUT || ch == FILTER_FORWARD) :: Once(t[ch], DROP6_HOOK))
    && (forall ch, r | ch in t && r in t[ch] && ch.table == Filter && r.target == Jump("SSHC_DROP6") ::
          r == DROP6_HOOK && (ch == FILTER_OUTPUT || ch == FILTER_FORWARD))
  }

  ghost predicate DaemonFree6(t: Tables) {
    && DROP6 !in t
    && (forall ch | ch in t && (ch == FILTER_OUTPUT || ch == FILTER_FORWARD) :: DROP6_HOOK !in t[ch])
  }

  lemma Enable6Members(c: Command)
    ensures c in ENABLE6_PROGRAM <==>
            c in {Delete(FILTER_OUTPUT, DROP6_HOOK), Delete(FILTER_FORWARD, DROP6_HOOK), Flush(DROP6), Destroy(DROP6)}
  {
    var p := ENABLE6_PROGRAM;
    assert |p| == 4 && p[0] in p && p[1] in p && p[2] in p && p[3] in p;
  }

  lemma Regular6IsTidy(t: Tables)
    ensures Regular6(t) <==> Tidy(ENABLE6_PROGRAM, t)
    ensures DaemonFree6(t) <==> Clean(ENABLE6_PROGRAM, t)
  {
    hide Once;
    forall c ensures c in ENABLE6_PROGRAM <==>
            c in {Delete(FILTER_OUTPUT, DROP6_HOOK), Delete(FILTER_FORWARD, DROP6_HOOK), Flush(DROP6), Destroy(DROP6)} {
      Enable6Members(c);
    }
    assert forall ch, r :: Delete(ch, r) in ENABLE6_PROGRAM <==>
            (ch == FILTER_OUTPUT || ch == FILTER_FORWARD) && r == DROP6_HOOK;
    assert forall ch :: Owns(ENABLE6_PROGRAM, ch) <==> ch == DROP6;
  }

  // enableIPv6 takes back disableIPv6 exactly, if and only if the IPv6 table had no daemon traces.
  lemma Disable6ThenEnable6(k1: Kernel, k2: Kernel, t: Tables)
    requires Regular6(t)
    ensures Run(k2, Disabled6(k1, t), ENABLE6_PROGRAM) == t <==> DaemonFree6(t)
  {
    hide Regular6, DaemonFree6, Tidy, Clean, Erase, Run, Disabled6;
    var p := ENABLE6_PROGRAM;
    Regular6IsTidy(t);
    Enable6IsSweep();
    Enable6Members(Delete(FILTER_OUTPUT, DROP6_HOOK));
    Enable6Members(Delete(FILTER_FORWARD, DROP6_HOOK));
    Disabled6Undoable(k1, p, t);
    SweepErases(k2, p, Disabled6(k1, t));
    CleanIsErased(p, t);
  }

  ghost function Lo6(k: Kernel): seq<Rule> {
    if k(Append(DROP6, Rule([Out("lo")], Return))) then [Rule([Out("lo")], Return)] else []
  }

  // What the kernel accepts of the IPv6 chain: the loopback exception, then REJECT or else DROP.
  ghost function Chain6(k: Kernel): seq<Rule> {
    Lo6(k)
    + (if k(Append(DROP6, REJECT6)) then [REJECT6]
       else if k(Append(DROP6, Rule([], Drop))) then [Rule([], Drop)] else [])
  }

  ghost function Rehooked6(k: Kernel, t: Tables, ch: Chain): Tables {
    if ch !in t then t
    else t[ch := (if DROP6 in t && k(Insert(ch, DROP6_HOOK)) then [DROP6_HOOK] else []) + RemoveFirst(t[ch], DROP6_HOOK)]
  }

  ghost function Built6(k: Kernel, t: Tables): Tables {
    if DROP6 in t || k(New(DROP6)) then t[DROP6 := Chain6(k)] else t
  }

  lemma Build6Start(k: Kernel, t: Tables)
    ensures Run(k, t, BUILD6) == if DROP6 in t || k(New(DROP6)) then t[DROP6 := Lo6(k)] else t
  {
    var lo := Append(DROP6, Rule([Out("lo")], Return));
    assert Appends(DROP6, [lo.rule]) == [lo];
    assert BUILD6 == [New(DROP6), Flush(DROP6)] + [lo];
    RunPair(k, t, New(DROP6), Flush(DROP6));
    RunSnoc(k, t, [New(DROP6), Flush(DROP6)], lo);
    var s := Run(k, t, [New(DROP6), Flush(DROP6)]);
    hide Run;
    if DROP6 in t || k(New(DROP6)) {
      assert s == t[DROP6 := []];
      assert s[DROP6] + [lo.rule] == [lo.rule];
    }
  }

  lemma CheckedSnoc(k: Kernel, t: Tables, p: seq<Command>, c: Command)
    ensures Checked(k, t, p + [c]) == Step(k, Run(k, t, p), c)
  {
    hide Step, Run;
    assert (p + [c])[..|p|] == p;
  }

  lemma Last6(k: Kernel, t: Tables, s: Tables)
    requires s == if DROP6 in t || k(New(DROP6)) then t[DROP6 := Lo6(k)] else t
    ensures var (t1, ok) := Step(k, s, Append(DROP6, REJECT6));
            (if ok then t1 else Step(k, t1, Append(DROP6, Rule([], Drop))).0) == Built6(k, t)
  {
    if DROP6 in s {
      assert s[DROP6] == Lo6(k) && Lo6(k) + [] == Lo6(k);
      hide Lo6;
    }
  }

  lemma Build6Form(k: Kernel, t: Tables)
    ensures var (t1, ok) := Checked(k, t, BUILD6 + [Append(DROP6, REJECT6)]);
            (if ok then t1 else Step(k, t1, Append(DROP6, Rule([], Drop))).0) == Built6(k, t)
  {
    Build6Start(k, t);
    CheckedSnoc(k, t, BUILD6, Append(DROP6, REJECT6));
    Last6(k, t, Run(k, t, BUILD6));
    hide *;
  }

  lemma Rehook6Form(k: Kernel, t: Tables, ch: Chain)
    requires ch.Builtin? && ch.table == Filter
    ensures Run(k, t, Rehook(ch, DROP6_HOOK)) == Rehooked6(k, t, ch)
  {
    RunPair(k, t, Delete(ch, DROP6_HOOK), Insert(ch, DROP6_HOOK));
    if ch in t {
      var rest := RemoveFirst(t[ch], DROP6_HOOK);
      if DROP6_HOOK !in t[ch] {
        RemoveFirstAbsent(t[ch], DROP6_HOOK);
      }
      assert [] + rest == rest;
      assert Step(k, t, Delete(ch, DROP6_HOOK)).0 == t[ch := rest];
    }
  }

  lemma Disabled6Form(k: Kernel, t: Tables)
    ensures Disabled6(k, t) == Rehooked6(k, Rehooked6(k, Built6(k, t), FILTER_OUTPUT), FILTER_FORWARD)
  {
    hide Run, Step, Built6, Rehooked6, Rehook, Checked;
    Build6Form(k, t);
    var s := Built6(k, t);
    RunConcat(k, s, Rehook(FILTER_OUTPUT, DROP6_HOOK), Rehook(FILTER_FORWARD, DROP6_HOOK));
    Rehook6Form(k, s, FILTER_OUTPUT);
    Rehook6Form(k, Rehooked6(k, s, FILTER_OUTPUT), FILTER_FORWARD);
  }

  lemma Rehooked6Again(k: Kernel, t: Tables, ch: Chain)
    requires ch in t ==> Once(t[ch], DROP6_HOOK)
    requires ch != DROP6
    ensures Rehooked6(k, Rehooked6(k, t, ch), ch) == Rehooked6(k, t, ch)
  {
    if ch in t {
      var rest := RemoveFirst(t[ch], DROP6_HOOK);
      RemoveFirstMembers(t[ch], DROP6_HOOK, DROP6_HOOK);
      RemoveFirstAbsent(rest, DROP6_HOOK);
      assert ([DROP6_HOOK] + rest)[1..] == rest && [] + rest == rest;
    }
  }

  // disableIPv6 over its own leftovers rebuilds the same table.
  lemma Redisable6(k: Kernel, t: Tables)
    requires Regular6(t)
    ensures Disabled6(k, Disabled6(k, t)) == Disabled6(k, t)
  {
    hide Chain6, RemoveFirst, Once;
    Disabled6Form(k, t);
    Disabled6Form(k, Disabled6(k, t));
    var s := Built6(k, t);
    var a := Rehooked6(k, s, FILTER_OUTPUT);
    var b := Rehooked6(k, a, FILTER_FORWARD);
    Rehooked6Again(k, s, FILTER_OUTPUT);
    Rehooked6Again(k, a, FILTER_FORWARD);
    assert Built6(k, b) == b;
    var c := Rehooked6(k, b, FILTER_OUTPUT);
    assert c == b by {
      assert FILTER_OUTPUT in b ==> b[FILTER_OUTPUT] == a[FILTER_OUTPUT];
      assert FILTER_OUTPUT in b ==> Rehooked6(k, a, FILTER_OUTPUT)[FILTER_OUTPUT] == a[FILTER_OUTPUT];
    }
  }
}
