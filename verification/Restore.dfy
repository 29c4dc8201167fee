// The cleanup command lists are sweeps, and the installing command lists are polite towards every
// sweep that covers them: an installation can always be taken back.
module Restore {
  import opened Netfilter
  import opened Sweep
  import opened Iptables

  // --- The cleanup programs are sweeps ------------------------------------------------------------

  ghost predicate AllSweep(cs: seq<Command>) {
    forall c | c in cs :: SweepCommand(c)
  }

  // b deletes no hook of a chain that a has already destroyed, unless a deleted it too.
  ghost predicate Follows(a: seq<Command>, b: seq<Command>) {
    forall ch, d, r | Destroy(ch) in a && Delete(d, r) in b && r.target.Jump? && User(d.table, r.target.name) == ch ::
      Delete(d, r) in a
  }

  lemma OrderedConcat(a: seq<Command>, b: seq<Command>)
    requires Ordered(a) && Ordered(b) && Follows(a, b)
    ensures Ordered(a + b)
  {
    var p := a + b;
    forall i: nat | i < |p| && p[i].Destroy? ensures DestroyIsReady(p, i) {
      if i < |a| {
        assert p[..i] == a[..i];
        assert DestroyIsReady(a, i);
        assert Destroy(a[i].chain) in a;
      } else {
        assert p[..i] == a + b[..i - |a|];
        assert DestroyIsReady(b, i - |a|);
      }
    }
  }

  lemma SweepConcat(a: seq<Command>, b: seq<Command>)
    requires IsSweep(a) && IsSweep(b) && Follows(a, b)
    ensures IsSweep(a + b)
  {
    OrderedConcat(a, b);
  }

  // Hook deletions alone.
  ghost predicate Detaches(cs: seq<Command>) {
    forall c | c in cs :: c.Delete? && c.chain.Builtin?
  }

  lemma DetachThenSweep(a: seq<Command>, b: seq<Command>)
    requires Detaches(a) && IsSweep(b)
    ensures IsSweep(a + b)
  {
    DetachesIsSweep(a);
    SweepConcat(a, b);
  }

  lemma SweepThenRemove(a: seq<Command>, ch: Chain)
    requires IsSweep(a) && ch.User?
    ensures IsSweep(a + Remove(ch))
  {
    RemoveIsSweep(ch);
    SweepConcat(a, Remove(ch));
  }

  // Deleting rules that are not jumps never comes too late.
  lemma SweepThenPlain(a: seq<Command>, b: seq<Command>)
    requires IsSweep(a) && Detaches(b) && forall c | c in b :: c.Delete? && !c.rule.target.Jump?
    ensures IsSweep(a + b)
  {
    DetachesIsSweep(b);
    forall d, r: Rule | Delete(d, r) in b ensures !r.target.Jump? {
      assert !Delete(d, r).rule.target.Jump?;
    }
    SweepConcat(a, b);
  }

  lemma DetachesIsSweep(cs: seq<Command>)
    requires Detaches(cs)
    ensures IsSweep(cs)
  {
    forall i: nat | i < |cs| ensures cs[i].Delete? {
      assert cs[i] in cs;
    }
  }

  lemma RemoveIsSweep(ch: Chain)
    requires ch.User?
    ensures IsSweep(Remove(ch)) && Destroy(ch) in Remove(ch)
    ensures forall c | c in Remove(ch) :: !c.Delete? && c.chain == ch
  {
    var p := Remove(ch);
    assert p[0] == Flush(ch) && p[1] == Destroy(ch) && p[..1] == [p[0]];
    forall i: nat | i < |p| && p[i].Destroy? ensures DestroyIsReady(p, i) {
      assert i == 1;
    }
  }

  lemma {:induction false} IfaceDetachMembers(ifaces: seq<string>, name: string)
    ensures Detaches(IfaceDetach(ifaces, name))
    ensures forall c | c in IfaceDetach(ifaces, name) :: c.Delete? && c.rule.target == Jump(name)
    ensures forall iface | iface in ifaces :: Delete(NAT_PREROUTING, IfaceDnsTo(iface, name)) in IfaceDetach(ifaces, name)
  {
    if ifaces != [] {
      IfaceDetachMembers(ifaces[..|ifaces| - 1], name);
      assert ifaces == ifaces[..|ifaces| - 1] + [ifaces[|ifaces| - 1]];
    }
  }

  function Hooks(ifaces: seq<string>, name: string): seq<Command> {
    NatDetach(name) + IfaceDetach(ifaces, name) + MangleDetach(name)
  }

  lemma HooksMembers(ifaces: seq<string>, name: string)
    ensures Detaches(Hooks(ifaces, name))
    ensures forall c | c in Hooks(ifaces, name) :: c.Delete? && c.rule.target == Jump(name)
  {
    IfaceDetachMembers(ifaces, name);
  }

  lemma DetachShape(ifaces: seq<string>, name: string)
    ensures Detach(ifaces, name) == Hooks(ifaces, name) + Remove(User(Nat, name)) + Remove(User(Mangle, name))
  {
    hide NatDetach, IfaceDetach, MangleDetach, Remove;
  }

  lemma DetachIsSweep(ifaces: seq<string>, name: string)
    ensures IsSweep(Detach(ifaces, name))
  {
    hide *;
    HooksMembers(ifaces, name);
    RemoveIsSweep(User(Nat, name));
    DetachThenSweep(Hooks(ifaces, name), Remove(User(Nat, name)));
    SweepThenRemove(Hooks(ifaces, name) + Remove(User(Nat, name)), User(Mangle, name));
    DetachShape(ifaces, name);
  }

  lemma DetachMembers(ifaces: seq<string>, name: string)
    ensures forall c | c in Detach(ifaces, name) ::
              if c.Delete? then c.rule.target == Jump(name) else c.chain.User? && c.chain.name == name
    ensures Destroy(User(Nat, name)) in Detach(ifaces, name) && Destroy(User(Mangle, name)) in Detach(ifaces, name)
    ensures forall c | c in Hooks(ifaces, name) :: c in Detach(ifaces, name)
  {
    hide *;
    HooksMembers(ifaces, name);
    RemoveIsSweep(User(Nat, name));
    RemoveIsSweep(User(Mangle, name));
    Members3(Hooks(ifaces, name), Remove(User(Nat, name)), Remove(User(Mangle, name)));
    DetachShape(ifaces, name);
  }

  lemma Members3(a: seq<Command>, b: seq<Command>, c: seq<Command>)
    ensures forall x :: x in a + b + c <==> x in a || x in b || x in c
  {
  }

  lemma {:induction false} DetachAllHas(ifaces: seq<string>, prefix: string, suffixes: seq<string>, s: string)
    requires s in suffixes
    ensures forall c | c in Detach(ifaces, prefix + s) :: c in DetachAll(ifaces, prefix, suffixes)
  {
    var front, last := suffixes[..|suffixes| - 1], suffixes[|suffixes| - 1];
    assert suffixes == front + [last];
    if s != last {
      DetachAllHas(ifaces, prefix, front, s);
    }
  }

  // Every command of DetachAll belongs to the block of one chain name.
  lemma {:induction false} DetachAllOwner(ifaces: seq<string>, prefix: string, suffixes: seq<string>, c: Command)
    returns (s: string)
    requires c in DetachAll(ifaces, prefix, suffixes)
    ensures s in suffixes && c in Detach(ifaces, prefix + s)
  {
    var front, last := suffixes[..|suffixes| - 1], suffixes[|suffixes| - 1];
    assert suffixes == front + [last];
    if c in Detach(ifaces, prefix + last) {
      s := last;
    } else {
      s := DetachAllOwner(ifaces, prefix, front, c);
    }
  }

  lemma {:induction false} DetachAllIsSweep(ifaces: seq<string>, prefix: string, suffixes: seq<string>)
    ensures IsSweep(DetachAll(ifaces, prefix, suffixes))
  {
    if suffixes != [] {
      var front, last := suffixes[..|suffixes| - 1], suffixes[|suffixes| - 1];
      var a, b := DetachAll(ifaces, prefix, front), Detach(ifaces, prefix + last);
      DetachAllIsSweep(ifaces, prefix, front);
      DetachIsSweep(ifaces, prefix + last);
      DetachMembers(ifaces, prefix + last);
      forall ch, d, r: Rule | Destroy(ch) in a && Delete(d, r) in b && r.target.Jump? && User(d.table, r.target.name) == ch
        ensures Delete(d, r) in a
      {
        assert Delete(d, r).rule.target == Jump(prefix + last);
        var s := DetachAllOwner(ifaces, prefix, front, Destroy(ch));
        DetachMembers(ifaces, prefix + s);
        assert !Destroy(ch).Delete? && Destroy(ch).chain.name == prefix + s;
        DetachAllHas(ifaces, prefix, front, s);
      }
      SweepConcat(a, b);
    }
  }

  lemma {:induction false} RepeatMembers(c: Command, n: nat)
    ensures forall x | x in Repeat(c, n) :: x == c
    ensures n > 0 ==> c in Repeat(c, n)
  {
    if n > 0 {
      RepeatMembers(c, n - 1);
    }
  }

  lemma UnblockMembers(port: int)
    ensures forall c | c in UnblockPort(port) ::
              c == Delete(FILTER_OUTPUT, QuicDrop(port)) || c == Delete(FILTER_OUTPUT, QuicReject(port))
    ensures Delete(FILTER_OUTPUT, QuicDrop(port)) in UnblockPort(port)
    ensures Delete(FILTER_OUTPUT, QuicReject(port)) in UnblockPort(port)
  {
    RepeatMembers(Delete(FILTER_OUTPUT, QuicDrop(port)), 4);
    RepeatMembers(Delete(FILTER_OUTPUT, QuicReject(port)), 4);
  }

  // The FORWARD rule and the QUIC rules, none of which is a jump.
  function FilterDeletes(): seq<Command> {
    [Delete(FILTER_FORWARD, FORWARD_ALL)] + UnblockPort(443) + UnblockPort(80)
  }

  lemma FilterDeletesMembers()
    ensures Detaches(FilterDeletes())
    ensures forall c | c in FilterDeletes() :: c.Delete? && !c.rule.target.Jump?
    ensures Delete(FILTER_FORWARD, FORWARD_ALL) in FilterDeletes()
    ensures forall port | port in {443, 80} ::
              && Delete(FILTER_OUTPUT, QuicDrop(port)) in FilterDeletes()
              && Delete(FILTER_OUTPUT, QuicReject(port)) in FilterDeletes()
  {
    hide UnblockPort;
    UnblockMembers(443);
    UnblockMembers(80);
    Members3([Delete(FILTER_FORWARD, FORWARD_ALL)], UnblockPort(443), UnblockPort(80));
  }

  lemma Regroup(a: seq<Command>, b: seq<Command>, c: seq<Command>, d: seq<Command>)
    ensures a + b + c + d == a + (b + c + d)
  {
  }

  lemma TailShape()
    ensures CLEANUP_TAIL == Remove(DIVERT) + FilterDeletes()
  {
    hide UnblockPort, Remove;
    Regroup(Remove(DIVERT), [Delete(FILTER_FORWARD, FORWARD_ALL)], UnblockPort(443), UnblockPort(80));
  }

  lemma CleanupShape(cfg: Config)
    ensures CleanupProgram(cfg)
            == CleanupHead(Prefix(cfg)) + DetachAll(NonBlank(IfaceList(cfg)), Prefix(cfg), SUFFIXES)
               + Remove(DIVERT) + FilterDeletes()
  {
    hide DetachAll, FilterDeletes, Remove, CleanupHead;
    TailShape();
  }

  lemma CleanupIsSweep(cfg: Config)
    ensures IsSweep(CleanupProgram(cfg))
  {
    var head, all := CleanupHead(Prefix(cfg)), DetachAll(NonBlank(IfaceList(cfg)), Prefix(cfg), SUFFIXES);
    assert Detaches(head);
    hide *;
    DetachAllIsSweep(NonBlank(IfaceList(cfg)), Prefix(cfg), SUFFIXES);
    DetachThenSweep(head, all);
    SweepThenRemove(head + all, DIVERT);
    FilterDeletesMembers();
    SweepThenPlain(head + all + Remove(DIVERT), FilterDeletes());
    CleanupShape(cfg);
  }

  lemma Enable6IsSweep()
    ensures IsSweep(ENABLE6_PROGRAM)
    ensures Destroy(DROP6) in ENABLE6_PROGRAM
  {
    var dels := [Delete(FILTER_OUTPUT, DROP6_HOOK), Delete(FILTER_FORWARD, DROP6_HOOK)];
    DetachesIsSweep(dels);
    RemoveIsSweep(DROP6);
    SweepConcat(dels, Remove(DROP6));
    assert ENABLE6_PROGRAM == dels + Remove(DROP6);
  }

  // --- Installing only adds what a sweep covers ---------------------------------------------------

  // The sweep p removes every chain and every hook that Install can leave behind for cfg.
  ghost predicate Covers(p: seq<Command>, cfg: Config) {
    && Owns(p, User(Nat, OutName(cfg))) && Owns(p, User(Mangle, PreName(cfg)))
    && Owns(p, User(Nat, DnsName(cfg))) && Owns(p, DIVERT)
    && Delete(NAT_OUTPUT, TcpTo(OutName(cfg))) in p
    && Delete(MANGLE_PREROUTING, AllTo(PreName(cfg))) in p
    && Delete(MANGLE_PREROUTING, DIVERT_HOOK) in p
    && Delete(NAT_OUTPUT, DnsTo(DnsName(cfg))) in p
    && (forall iface | iface in NonBlank(IfaceList(cfg)) :: Delete(NAT_PREROUTING, IfaceDnsTo(iface, DnsName(cfg))) in p)
    && Delete(FILTER_FORWARD, FORWARD_ALL) in p
    && (forall port | port in {443, 80} ::
          Delete(FILTER_OUTPUT, QuicDrop(port)) in p && Delete(FILTER_OUTPUT, QuicReject(port)) in p)
  }

  // The hooks and chains of each chain name are among the commands of cleanupRules.
  lemma CleanupHas(cfg: Config, s: string)
    requires s in SUFFIXES
    ensures var p, name, ifaces := CleanupProgram(cfg), Prefix(cfg) + s, NonBlank(IfaceList(cfg));
            && Owns(p, User(Nat, name)) && Owns(p, User(Mangle, name))
            && Delete(NAT_OUTPUT, TcpTo(name)) in p && Delete(NAT_OUTPUT, DnsTo(name)) in p
            && Delete(MANGLE_PREROUTING, AllTo(name)) in p
            && forall iface | iface in ifaces :: Delete(NAT_PREROUTING, IfaceDnsTo(iface, name)) in p
  {
    var ifaces, prefix := NonBlank(IfaceList(cfg)), Prefix(cfg);
    var head, all := CleanupHead(prefix), DetachAll(ifaces, prefix, SUFFIXES);
    hide Detach, Hooks, DetachAll, CleanupHead, NonBlank, IfaceList;
    DetachAllHas(ifaces, prefix, SUFFIXES, s);
    DetachMembers(ifaces, prefix + s);
    HooksHave(ifaces, prefix + s);
    Members3(head, all, CLEANUP_TAIL);
  }

  lemma ShippedSuffixes()
    ensures "_OUT" in SUFFIXES && "_PRE" in SUFFIXES && "_DNS" in SUFFIXES
  {
    assert SUFFIXES[0] == "_OUT" && SUFFIXES[1] == "_PRE" && SUFFIXES[2] == "_DNS";
  }

  lemma CleanupCovers(cfg: Config)
    ensures Covers(CleanupProgram(cfg), cfg)
  {
    hide CleanupProgram, NonBlank, IfaceList, Prefix;
    ShippedSuffixes();
    CleanupHasShared(cfg);
    CleanupHas(cfg, "_OUT");
    CleanupHas(cfg, "_PRE");
    CleanupHas(cfg, "_DNS");
  }

  lemma HooksHave(ifaces: seq<string>, name: string)
    ensures Delete(NAT_OUTPUT, TcpTo(name)) in Hooks(ifaces, name)
    ensures Delete(NAT_OUTPUT, DnsTo(name)) in Hooks(ifaces, name)
    ensures Delete(MANGLE_PREROUTING, AllTo(name)) in Hooks(ifaces, name)
    ensures forall iface | iface in ifaces :: Delete(NAT_PREROUTING, IfaceDnsTo(iface, name)) in Hooks(ifaces, name)
  {
    IfaceDetachMembers(ifaces, name);
    assert NatDetach(name)[0] in Hooks(ifaces, name) && NatDetach(name)[2] in Hooks(ifaces, name);
    assert MangleDetach(name)[0] in Hooks(ifaces, name);
  }

  lemma CleanupHasShared(cfg: Config)
    ensures Delete(MANGLE_PREROUTING, DIVERT_HOOK) in CleanupProgram(cfg) && Owns(CleanupProgram(cfg), DIVERT)
    ensures Delete(FILTER_FORWARD, FORWARD_ALL) in CleanupProgram(cfg)
    ensures forall port | port in {443, 80} ::
              && Delete(FILTER_OUTPUT, QuicDrop(port)) in CleanupProgram(cfg)
              && Delete(FILTER_OUTPUT, QuicReject(port)) in CleanupProgram(cfg)
  {
    hide DetachAll, Remove, FilterDeletes;
    var head, all := CleanupHead(Prefix(cfg)), DetachAll(NonBlank(IfaceList(cfg)), Prefix(cfg), SUFFIXES);
    assert CleanupHead(Prefix(cfg))[2] in head;
    TailShape();
    Members3(head, all, Remove(DIVERT) + FilterDeletes());
    Members3([], Remove(DIVERT), FilterDeletes());
    assert [] + Remove(DIVERT) == Remove(DIVERT);
    RemoveIsSweep(DIVERT);
    FilterDeletesMembers();
  }

  lemma {:induction false} AppendsPolite(p: seq<Command>, ch: Chain, rules: seq<Rule>)
    requires Owns(p, ch) && forall r | r in rules :: !r.target.Jump?
    ensures Polite(p, Appends(ch, rules))
  {
    if rules != [] {
      AppendsPolite(p, ch, rules[..|rules| - 1]);
    }
  }

  lemma PoliteOne(p: seq<Command>, c: Command)
    requires Confined(p, c) && !c.Insert?
    ensures Polite(p, [c])
  {
    assert [c][..0] == [];
    assert Polite(p, []);
  }

  lemma BuildPolite(p: seq<Command>, ch: Chain, rules: seq<Rule>)
    requires Owns(p, ch) && forall r | r in rules :: !r.target.Jump?
    ensures Polite(p, Build(ch, rules))
  {
    var start := [New(ch), Flush(ch)];
    PoliteOne(p, New(ch));
    assert start[..1] == [New(ch)];
    AppendsPolite(p, ch, rules);
    PoliteConcat(p, start, Appends(ch, rules));
  }

  lemma RehookPolite(p: seq<Command>, ch: Chain, r: Rule)
    requires ch.Builtin? && Delete(ch, r) in p
    ensures Polite(p, Rehook(ch, r))
  {
    PoliteOne(p, Delete(ch, r));
    assert Rehook(ch, r)[..1] == [Delete(ch, r)];
  }

  lemma {:induction false} RehookDnsPolite(p: seq<Command>, ifaces: seq<string>, name: string)
    requires forall iface | iface in ifaces :: Delete(NAT_PREROUTING, IfaceDnsTo(iface, name)) in p
    ensures Polite(p, RehookDns(ifaces, name))
  {
    if ifaces != [] {
      var last := ifaces[|ifaces| - 1];
      RehookDnsPolite(p, ifaces[..|ifaces| - 1], name);
      RehookPolite(p, NAT_PREROUTING, IfaceDnsTo(last, name));
      PoliteConcat(p, RehookDns(ifaces[..|ifaces| - 1], name), Rehook(NAT_PREROUTING, IfaceDnsTo(last, name)));
    }
  }

  lemma {:induction false} NetReturnsOnly(nets: seq<Net>)
    ensures forall r | r in NetReturns(nets) :: r.target == Return
  {
    if nets != [] {
      NetReturnsOnly(nets[..|nets| - 1]);
    }
  }

  lemma {:induction false} PortReturnsOnly(ports: seq<int>)
    ensures forall r | r in PortReturns(ports) :: r.target == Return
  {
    if ports != [] {
      PortReturnsOnly(ports[..|ports| - 1]);
    }
  }

  // A chain that p owns, built from rules that do not jump, and hooked in where p deletes the hook.
  lemma BuildAndHookPolite(p: seq<Command>, ch: Chain, rules: seq<Rule>, at: Chain, hook: Rule)
    requires Owns(p, ch) && forall r | r in rules :: !r.target.Jump?
    requires at.Builtin? && Delete(at, hook) in p
    ensures Polite(p, Build(ch, rules) + Rehook(at, hook))
  {
    hide Polite, Build, Rehook;
    BuildPolite(p, ch, rules);
    RehookPolite(p, at, hook);
    PoliteConcat(p, Build(ch, rules), Rehook(at, hook));
  }

  lemma ProxyRulesDoNotJump(cfg: Config, bypass: seq<Bypass>)
    ensures forall r | r in RedirectRules(cfg, bypass) :: !r.target.Jump?
    ensures forall r | r in TproxyRules(cfg, bypass) :: !r.target.Jump?
  {
    NetReturnsOnly(LOCAL_NETS);
    NetReturnsOnly(BypassNets(bypass));
    PortReturnsOnly(OwnPorts(cfg));
    hide NetReturns, PortReturns, BypassNets, OwnPorts;
  }

  lemma ProgramsPolite(p: seq<Command>, cfg: Config, bypass: seq<Bypass>)
    requires Covers(p, cfg)
    ensures Polite(p, RedirectProgram(cfg, bypass)) && Polite(p, TproxyProgram(cfg, bypass))
    ensures Polite(p, DIVERT_PROGRAM) && Polite(p, DnsProgram(cfg))
  {
    ProxyRulesDoNotJump(cfg, bypass);
    hide Polite, Build, Rehook, RedirectRules, TproxyRules, DnsProgram, OutName, PreName;
    BuildAndHookPolite(p, User(Nat, OutName(cfg)), RedirectRules(cfg, bypass), NAT_OUTPUT, TcpTo(OutName(cfg)));
    BuildAndHookPolite(p, User(Mangle, PreName(cfg)), TproxyRules(cfg, bypass), MANGLE_PREROUTING, AllTo(PreName(cfg)));
    BuildAndHookPolite(p, DIVERT, DIVERT_RULES, MANGLE_PREROUTING, DIVERT_HOOK);
    DnsPolite(p, cfg);
  }

  lemma DnsPolite(p: seq<Command>, cfg: Config)
    requires Covers(p, cfg)
    ensures Polite(p, DnsProgram(cfg))
  {
    var build, hook := Build(User(Nat, DnsName(cfg)), DnsRules(cfg)), Rehook(NAT_OUTPUT, DnsTo(DnsName(cfg)));
    BuildPolite(p, User(Nat, DnsName(cfg)), DnsRules(cfg));
    RehookPolite(p, NAT_OUTPUT, DnsTo(DnsName(cfg)));
    PoliteConcat(p, build, hook);
    RehookDnsPolite(p, NonBlank(IfaceList(cfg)), DnsName(cfg));
    PoliteConcat(p, build + hook, RehookDns(NonBlank(IfaceList(cfg)), DnsName(cfg)));
    assert build + hook + [] == build + hook;
  }

  // t' keeps what t has for everyone else, and p can still clear it.
  ghost predicate Undoable(p: seq<Command>, t: Tables, t': Tables) {
    Erase(p, t') == Erase(p, t) && Tidy(p, t')
  }

  lemma CheckedUndoable(k: Kernel, p: seq<Command>, t: Tables, cs: seq<Command>)
    requires AllSweep(p) && cs != [] && Polite(p, cs) && Tidy(p, t)
    ensures Undoable(p, t, Checked(k, t, cs).0)
  {
    PoliteRun(k, p, t, cs);
  }

  lemma InsertMissingUndoable(k: Kernel, p: seq<Command>, t: Tables, ch: Chain, r: Rule)
    requires AllSweep(p) && ch.Builtin? && Delete(ch, r) in p && Tidy(p, t)
    ensures Undoable(p, t, InsertMissing(k, t, ch, r).0)
  {
    if !(ch in t && r in t[ch]) {
      StepErase(k, p, t, Insert(ch, r));
      StepTidy(k, p, t, Insert(ch, r));
    }
  }

  lemma FinishUndoable(k: Kernel, p: seq<Command>, cfg: Config, t: Tables)
    requires AllSweep(p) && Covers(p, cfg) && Tidy(p, t)
    ensures Undoable(p, t, FinishInstall(k, cfg, t))
  {
    hide Run, Tidy, Step, DnsProgram, BlockPort, OutName, PreName, DnsName;
    DnsPolite(p, cfg);
    PoliteRun(k, p, t, DnsProgram(cfg));
    var t1 := if cfg.dnsHijack && cfg.dnsForwardPort > 0 then Run(k, t, DnsProgram(cfg)) else t;
    InsertMissingUndoable(k, p, t1, FILTER_FORWARD, FORWARD_ALL);
    var t2 := if cfg.hotspot then InsertMissing(k, t1, FILTER_FORWARD, FORWARD_ALL).0 else t1;
    BlockUndoable(k, p, t2, 443);
    BlockUndoable(k, p, BlockPort(k, t2, 443), 80);
  }

  lemma BlockUndoable(k: Kernel, p: seq<Command>, t: Tables, port: int)
    requires AllSweep(p) && Tidy(p, t)
    requires Delete(FILTER_OUTPUT, QuicReject(port)) in p && Delete(FILTER_OUTPUT, QuicDrop(port)) in p
    ensures Undoable(p, t, BlockPort(k, t, port))
  {
    InsertMissingUndoable(k, p, t, FILTER_OUTPUT, QuicReject(port));
    InsertMissingUndoable(k, p, InsertMissing(k, t, FILTER_OUTPUT, QuicReject(port)).0, FILTER_OUTPUT, QuicDrop(port));
  }

  // Whatever the kernel refuses and wherever it stops, an installation can be undone by any sweep
  // that covers it.
  lemma InstallUndoable(k: Kernel, p: seq<Command>, cfg: Config, bypass: seq<Bypass>, t: Tables)
    requires AllSweep(p) && Covers(p, cfg) && Tidy(p, t)
    ensures Undoable(p, t, Install(k, cfg, bypass, t).0)
  {
    hide Covers, Run, Tidy, FinishInstall, Polite, Step;
    ProgramsPolite(p, cfg, bypass);
    CheckedUndoable(k, p, t, RedirectProgram(cfg, bypass));
    var t1 := Checked(k, t, RedirectProgram(cfg, bypass)).0;
    CheckedUndoable(k, p, t1, TproxyProgram(cfg, bypass));
    var t2 := Checked(k, t1, TproxyProgram(cfg, bypass)).0;
    PoliteRun(k, p, t2, DIVERT_PROGRAM);
    FinishUndoable(k, p, cfg, Run(k, t2, DIVERT_PROGRAM));
  }

  // Any sweep that covers cfg takes back an installation, wherever it stopped: what is left is what
  // the sweep would have left of the state before.
  lemma InstallThenSweep(k1: Kernel, k2: Kernel, p: seq<Command>, cfg: Config, bypass: seq<Bypass>, t: Tables)
    requires IsSweep(p) && Covers(p, cfg) && Tidy(p, t)
    ensures Run(k2, Install(k1, cfg, bypass, t).0, p) == Erase(p, t)
  {
    InstallUndoable(k1, p, cfg, bypass, t);
    SweepErases(k2, p, Install(k1, cfg, bypass, t).0);
  }

  lemma CleanupErases(k: Kernel, cfg: Config, t: Tables)
    requires Tidy(CleanupProgram(cfg), t)
    ensures Run(k, t, CleanupProgram(cfg)) == Erase(CleanupProgram(cfg), t)
  {
    CleanupIsSweep(cfg);
    SweepErases(k, CleanupProgram(cfg), t);
  }

  lemma AppliedUndoable(k: Kernel, cfg: Config, bypass: seq<Bypass>, t: Tables)
    requires Tidy(CleanupProgram(cfg), t)
    ensures Undoable(CleanupProgram(cfg), t, Applied(k, cfg, bypass, t).0)
    ensures !Applied(k, cfg, bypass, t).1 ==> Applied(k, cfg, bypass, t).0 == Erase(CleanupProgram(cfg), t)
  {
    hide Run, Install, Erase, Tidy, Clean, CleanupProgram, Covers;
    var p := CleanupProgram(cfg);
    CleanupIsSweep(cfg);
    CleanupCovers(cfg);
    CleanupErases(k, cfg, t);
    var e := Erase(p, t);
    ErasedIsTidy(p, t);
    ErasedIsClean(p, t);
    CleanIsErased(p, e);
    InstallUndoable(k, p, cfg, bypass, e);
    var t1 := Install(k, cfg, bypass, e).0;
    CleanupErases(k, cfg, t1);
  }

  // --- IPv6 --------------------------------------------------------------------------------------

  lemma Disabled6Undoable(k: Kernel, p: seq<Command>, t: Tables)
    requires AllSweep(p) && Tidy(p, t) && Owns(p, DROP6)
    requires Delete(FILTER_OUTPUT, DROP6_HOOK) in p && Delete(FILTER_FORWARD, DROP6_HOOK) in p
    ensures Undoable(p, t, Disabled6(k, t))
  {
    var build := BUILD6 + [Append(DROP6, REJECT6)];
    BuildPolite(p, DROP6, [Rule([Out("lo")], Return)]);
    assert build[..|BUILD6|] == BUILD6;
    CheckedUndoable(k, p, t, build);
    var t1 := Checked(k, t, build).0;
    var drop := Append(DROP6, Rule([], Drop));
    StepErase(k, p, t1, drop);
    StepTidy(k, p, t1, drop);
    var t2 := if Checked(k, t, build).1 then t1 else Step(k, t1, drop).0;
    RehookPolite(p, FILTER_OUTPUT, DROP6_HOOK);
    RehookPolite(p, FILTER_FORWARD, DROP6_HOOK);
    PoliteConcat(p, Rehook(FILTER_OUTPUT, DROP6_HOOK), Rehook(FILTER_FORWARD, DROP6_HOOK));
    PoliteRun(k, p, t2, HOOK6);
  }
}
