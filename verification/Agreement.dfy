// The shell script against the daemon's own cleanup: where they agree, and where they cannot.
module Agreement {
  import opened Basics
  import opened Netfilter
  import opened Sweep
  import opened Iptables
  import opened Restore
  import opened Guarantees
  import opened NetClean

  const SCRIPT4 := V4_PROGRAM + QUIC_PROGRAM

  // --- Two sweeps in general ----------------------------------------------------------------------

  // p and q claim the same chains of t and the same rules of the chains that both leave.
  ghost predicate SameClaims(p: seq<Command>, q: seq<Command>, t: Tables) {
    forall ch | ch in t ::
      && (Owns(p, ch) <==> Owns(q, ch))
      && (!Owns(p, ch) ==> forall r | r in t[ch] :: Delete(ch, r) in p <==> Delete(ch, r) in q)
  }

  lemma SweepsAgree(k1: Kernel, k2: Kernel, p: seq<Command>, q: seq<Command>, t: Tables)
    requires IsSweep(p) && IsSweep(q) && Tidy(p, t) && Tidy(q, t)
    ensures Run(k1, t, p) == Run(k2, t, q) <==> SameClaims(p, q, t)
  {
    hide IsSweep, Tidy, Run;
    SweepErases(k1, p, t);
    SweepErases(k2, q, t);
    if SameClaims(p, q, t) {
      forall ch | ch in t && !Owns(p, ch) ensures Keep(p, ch, t[ch]) == Keep(q, ch, t[ch]) {
        KeepSame(p, q, ch, t[ch]);
      }
      assert Erase(p, t) == Erase(q, t);
    }
    if Erase(p, t) == Erase(q, t) {
      forall ch | ch in t ensures Owns(p, ch) <==> Owns(q, ch) {
        assert ch in Erase(p, t) <==> ch in Erase(q, t);
      }
      forall ch, r | ch in t && !Owns(p, ch) && r in t[ch] ensures Delete(ch, r) in p <==> Delete(ch, r) in q {
        assert Keep(p, ch, t[ch]) == Erase(p, t)[ch] == Erase(q, t)[ch] == Keep(q, ch, t[ch]);
        KeepMembers(p, ch, t[ch], r);
        KeepMembers(q, ch, t[ch], r);
      }
    }
  }

  // --- What the IPv4 part of the script takes away ----------------------------------------------------

  ghost predicate ScriptChain(ch: Chain) {
    || ch == DIVERT
    || (ch.User? && ch.table == Nat && ch.name in CHAINS)
    || (ch.User? && ch.table == Mangle && ch.name in CHAINS6)
  }

  // A packet that already has a socket.
  ghost predicate SocketAt(ch: Chain, ms: seq<Match>) {
    ch == MANGLE_PREROUTING && ms == [Proto(Tcp), TransparentSocket]
  }

  ghost predicate ScriptRule(ch: Chain, r: Rule) {
    || (r.target.Jump? && r.target.name in CHAINS && (HookAt(IFACES, ch, r.matches) || SocketAt(ch, r.matches)))
    || (ch == MANGLE_PREROUTING && r == DIVERT_HOOK)
    || (ch == FILTER_FORWARD && r == FORWARD_ALL)
    || (ch == FILTER_OUTPUT && exists port :: port in {443, 80} && (r == QuicDrop(port) || r == QuicReject(port)))
  }

  ghost predicate ScriptFree(t: Tables) {
    && (forall ch | ch in t :: !ScriptChain(ch))
    && (forall ch, r | ch in t && r in t[ch] :: !ScriptRule(ch, r))
  }

  // No rule of the script's is stacked twice, and only those jump to its chains.
  ghost predicate ScriptRegular(t: Tables) {
    && (forall ch, r | ch in t && ScriptRule(ch, r) :: Once(t[ch], r))
    && (forall ch, r | ch in t && r in t[ch] && r.target.Jump? && ScriptChain(User(ch.table, r.target.name)) :: ScriptRule(ch, r))
  }

  lemma MangleDetachV4Rules(name: string, ch: Chain, r: Rule)
    ensures Delete(ch, r) in MangleDetachV4(name) <==>
            && r.target == Jump(name)
            && (SocketAt(ch, r.matches) || ((ch == MANGLE_PREROUTING || ch == MANGLE_OUTPUT) && r.matches == []))
  {
    var cs := MangleDetachV4(name);
    assert cs[0] in cs && cs[1] in cs && cs[2] in cs;
  }

  lemma DetachV4Rules(name: string, ch: Chain, r: Rule)
    ensures Delete(ch, r) in DetachV4(name) <==>
            r.target == Jump(name) && (HookAt(IFACES, ch, r.matches) || SocketAt(ch, r.matches))
  {
    hide NatDetach, IfaceDetach, MangleDetachV4, HookMatches, SocketAt;
    Members3(NatDetach(name), IfaceDetach(IFACES, name), MangleDetachV4(name));
    NatDetachRules(name, ch, r);
    IfaceDetachRules(IFACES, name, ch, r);
    MangleDetachV4Rules(name, ch, r);
  }

  lemma DetachV4Detaches(name: string)
    ensures Detaches(DetachV4(name))
  {
    IfaceDetachMembers(IFACES, name);
    hide IfaceDetach;
    Members3(NatDetach(name), IfaceDetach(IFACES, name), MangleDetachV4(name));
  }

  lemma {:induction false} DetachEachV4Rules(names: seq<string>, ch: Chain, r: Rule)
    ensures Delete(ch, r) in DetachEachV4(names) <==>
            r.target.Jump? && r.target.name in names && (HookAt(IFACES, ch, r.matches) || SocketAt(ch, r.matches))
  {
    hide DetachV4, HookAt, SocketAt;
    if names != [] {
      var front, last := names[..|names| - 1], names[|names| - 1];
      assert names == front + [last];
      DetachEachV4Rules(front, ch, r);
      DetachV4Rules(last, ch, r);
    }
  }

  lemma {:induction false} DetachEachV4Detaches(names: seq<string>)
    ensures Detaches(DetachEachV4(names))
  {
    hide DetachV4;
    if names != [] {
      DetachEachV4Detaches(names[..|names| - 1]);
      DetachV4Detaches(names[|names| - 1]);
    }
  }

  lemma {:induction false} RemoveEachMembers(table: Table, names: seq<string>)
    ensures IsSweep(RemoveEach(table, names))
    ensures forall c | c in RemoveEach(table, names) :: !c.Delete? && c.chain.User? && c.chain.table == table && c.chain.name in names
    ensures forall name | name in names :: Destroy(User(table, name)) in RemoveEach(table, names)
  {
    hide IsSweep, Remove;
    if names == [] {
      DetachesIsSweep([]);
    } else {
      var front, last := names[..|names| - 1], names[|names| - 1];
      assert names == front + [last];
      RemoveEachMembers(table, front);
      SweepThenRemove(RemoveEach(table, front), User(table, last));
      RemoveIsSweep(User(table, last));
    }
  }

  // --- It is a sweep ----------------------------------------------------------------------------------

  // A sweep may go on to detach hooks of a chain it has not destroyed yet.
  lemma SweepThenDetach(a: seq<Command>, ch: Chain, r: Rule)
    requires IsSweep(a) && ch.Builtin? && r.target.Jump? && !Owns(a, User(ch.table, r.target.name))
    ensures IsSweep(a + [Delete(ch, r)])
  {
    DetachesIsSweep([Delete(ch, r)]);
    SweepConcat(a, [Delete(ch, r)]);
  }

  lemma SweepThenSweep(a: seq<Command>, b: seq<Command>)
    requires IsSweep(a) && IsSweep(b) && forall c | c in b :: !c.Delete?
    ensures IsSweep(a + b)
  {
    forall d, r: Rule ensures Delete(d, r) !in b {
      assert Delete(d, r).Delete?;
    }
    SweepConcat(a, b);
  }

  lemma ScriptNames()
    ensures "DIVERT" !in CHAINS6
    ensures forall name | name in CHAINS :: name in CHAINS6
    ensures "SSHC_OUT" in CHAINS && "SSHC_PRE" in CHAINS && "SSHC_DNS" in CHAINS
  {
    assert CHAINS[0] == "SSHC_OUT" && CHAINS[1] == "SSHC_PRE" && CHAINS[2] == "SSHC_DNS";
    forall name | name in CHAINS6 ensures name[..1] == "S" {
    }
    assert "DIVERT"[..1] == "D" && "S"[0] != "D"[0];
  }

  const SCRIPT4_HEAD := DetachEachV4(CHAINS) + RemoveEach(Nat, CHAINS) + RemoveEach(Mangle, CHAINS6)

  lemma Script4Shape()
    ensures SCRIPT4 == SCRIPT4_HEAD + [Delete(MANGLE_PREROUTING, DIVERT_HOOK)] + Remove(DIVERT) + FilterDeletes()
  {
    hide DetachEachV4, RemoveEach, UnblockPort, Remove;
  }

  lemma Script4HeadMembers()
    ensures IsSweep(SCRIPT4_HEAD)
    ensures forall c :: c in SCRIPT4_HEAD <==>
              c in DetachEachV4(CHAINS) || c in RemoveEach(Nat, CHAINS) || c in RemoveEach(Mangle, CHAINS6)
    ensures !Owns(SCRIPT4_HEAD, DIVERT)
  {
    hide IsSweep, DetachEachV4, RemoveEach;
    DetachEachV4Detaches(CHAINS);
    RemoveEachMembers(Nat, CHAINS);
    RemoveEachMembers(Mangle, CHAINS6);
    DetachThenSweep(DetachEachV4(CHAINS), RemoveEach(Nat, CHAINS));
    SweepThenSweep(DetachEachV4(CHAINS) + RemoveEach(Nat, CHAINS), RemoveEach(Mangle, CHAINS6));
    Members3(DetachEachV4(CHAINS), RemoveEach(Nat, CHAINS), RemoveEach(Mangle, CHAINS6));
    ScriptNames();
    assert Destroy(DIVERT) in DetachEachV4(CHAINS) ==> Destroy(DIVERT).Delete?;
    assert Destroy(DIVERT) in RemoveEach(Nat, CHAINS) ==> Destroy(DIVERT).chain.table == Nat;
    assert Destroy(DIVERT) in RemoveEach(Mangle, CHAINS6) ==> "DIVERT" in CHAINS6;
  }

  lemma Script4IsSweep()
    ensures IsSweep(SCRIPT4)
  {
    Script4Shape();
    Script4HeadMembers();
    var head := SCRIPT4_HEAD;
    hide IsSweep, Remove, FilterDeletes, DetachEachV4, RemoveEach;
    SweepThenDetach(head, MANGLE_PREROUTING, DIVERT_HOOK);
    SweepThenRemove(head + [Delete(MANGLE_PREROUTING, DIVERT_HOOK)], DIVERT);
    FilterDeletesMembers();
    SweepThenPlain(head + [Delete(MANGLE_PREROUTING, DIVERT_HOOK)] + Remove(DIVERT), FilterDeletes());
  }

  lemma Script4Parts(c: Command)
    ensures c in SCRIPT4 <==>
            || c in DetachEachV4(CHAINS) || c in RemoveEach(Nat, CHAINS) || c in RemoveEach(Mangle, CHAINS6)
            || c == Delete(MANGLE_PREROUTING, DIVERT_HOOK) || c in Remove(DIVERT) || c in FilterDeletes()
  {
    Script4Shape();
    Script4HeadMembers();
    var head, hook := SCRIPT4_HEAD, [Delete(MANGLE_PREROUTING, DIVERT_HOOK)];
    hide IsSweep, Remove, FilterDeletes, DetachEachV4, RemoveEach;
    Members3(head + hook, Remove(DIVERT), FilterDeletes());
    assert c in hook <==> c == hook[0];
  }

  // The rules the script deletes.
  lemma Script4Deletes(ch: Chain, r: Rule)
    ensures Delete(ch, r) in SCRIPT4 <==> ScriptRule(ch, r)
  {
    Script4Parts(Delete(ch, r));
    hide IsSweep, FilterDeletes, DetachEachV4, RemoveEach, HookAt, SocketAt, Remove;
    DetachEachV4Rules(CHAINS, ch, r);
    RemoveEachMembers(Nat, CHAINS);
    RemoveEachMembers(Mangle, CHAINS6);
    RemoveIsSweep(DIVERT);
    FilterDeletesRules(ch, r);
    assert Delete(ch, r).Delete?;
  }

  // The chains it destroys.
  lemma Script4Destroys(ch: Chain)
    ensures Owns(SCRIPT4, ch) <==> ScriptChain(ch)
  {
    Script4Parts(Destroy(ch));
    hide IsSweep, FilterDeletes, DetachEachV4, RemoveEach, Remove;
    DetachEachV4Detaches(CHAINS);
    RemoveEachMembers(Nat, CHAINS);
    RemoveEachMembers(Mangle, CHAINS6);
    RemoveIsSweep(DIVERT);
    FilterDeletesMembers();
    assert Destroy(ch).Destroy? && Destroy(ch).chain == ch;
  }

  lemma ClaimsDecide(p: seq<Command>, t: Tables)
    requires forall ch :: Owns(p, ch) <==> ScriptChain(ch)
    requires forall ch, r :: Delete(ch, r) in p <==> ScriptRule(ch, r)
    ensures ScriptRegular(t) <==> Tidy(p, t)
    ensures ScriptFree(t) <==> Clean(p, t)
  {
    hide ScriptChain, ScriptRule, Once, Owns;
  }

  lemma ScriptRegularIsTidy(t: Tables)
    ensures ScriptRegular(t) <==> Tidy(SCRIPT4, t)
    ensures ScriptFree(t) <==> Clean(SCRIPT4, t)
  {
    hide *;
    forall ch ensures Owns(SCRIPT4, ch) <==> ScriptChain(ch) {
      Script4Destroys(ch);
    }
    forall ch, r ensures Delete(ch, r) in SCRIPT4 <==> ScriptRule(ch, r) {
      Script4Deletes(ch, r);
    }
    ClaimsDecide(SCRIPT4, t);
  }

  // --- The names of the daemon ------------------------------------------------------------------------

  // The configurations that the script was written for.
  ghost predicate Shipped(cfg: Config) {
    Prefix(cfg) == "SSHC" && forall iface | iface in NonBlank(IfaceList(cfg)) :: iface in IFACES
  }

  // And all its interfaces are in use.
  ghost predicate ShippedInFull(cfg: Config) {
    Shipped(cfg) && forall iface | iface in IFACES :: iface in NonBlank(IfaceList(cfg))
  }

  lemma {:induction false} NonBlankKeeps(ifaces: seq<string>)
    requires forall i | 0 <= i < |ifaces| :: ifaces[i] != "" && TrimSpace(ifaces[i]) == ifaces[i]
    ensures NonBlank(ifaces) == ifaces
  {
    hide TrimSpace;
    if ifaces != [] {
      var front, last := ifaces[..|ifaces| - 1], ifaces[|ifaces| - 1];
      NonBlankKeeps(front);
      assert ifaces == front + [last];
    }
  }

  lemma DefaultsAreShipped(cfg: Config)
    requires cfg.prefix == "" && cfg.ifaces == []
    ensures ShippedInFull(cfg)
  {
    hide NonBlank;
    NonBlankKeeps(IFACES);
  }

  lemma ShippedNames(cfg: Config)
    requires Prefix(cfg) == "SSHC"
    ensures OutName(cfg) == "SSHC_OUT" && PreName(cfg) == "SSHC_PRE" && DnsName(cfg) == "SSHC_DNS"
  {
  }

  lemma ScriptHooks(cfg: Config)
    requires Shipped(cfg)
    ensures ScriptRule(NAT_OUTPUT, TcpTo("SSHC_OUT")) && ScriptRule(MANGLE_PREROUTING, AllTo("SSHC_PRE"))
    ensures ScriptRule(NAT_OUTPUT, DnsTo("SSHC_DNS"))
    ensures forall iface | iface in NonBlank(IfaceList(cfg)) :: ScriptRule(NAT_PREROUTING, IfaceDnsTo(iface, "SSHC_DNS"))
  {
    ScriptNames();
    hide NonBlank, IfaceList, Prefix;
    forall iface | iface in NonBlank(IfaceList(cfg)) ensures ScriptRule(NAT_PREROUTING, IfaceDnsTo(iface, "SSHC_DNS")) {
      assert IfaceDnsTo(iface, "SSHC_DNS").matches[1..] == [Proto(Udp), DPort(53)];
    }
  }

  lemma Script4CoversHooks(cfg: Config)
    requires Shipped(cfg)
    ensures Delete(NAT_OUTPUT, TcpTo("SSHC_OUT")) in SCRIPT4 && Delete(MANGLE_PREROUTING, AllTo("SSHC_PRE")) in SCRIPT4
    ensures Delete(NAT_OUTPUT, DnsTo("SSHC_DNS")) in SCRIPT4
    ensures forall iface | iface in NonBlank(IfaceList(cfg)) :: Delete(NAT_PREROUTING, IfaceDnsTo(iface, "SSHC_DNS")) in SCRIPT4
  {
    hide *;
    ScriptHooks(cfg);
    Script4Deletes(NAT_OUTPUT, TcpTo("SSHC_OUT"));
    Script4Deletes(MANGLE_PREROUTING, AllTo("SSHC_PRE"));
    Script4Deletes(NAT_OUTPUT, DnsTo("SSHC_DNS"));
    forall iface | iface in NonBlank(IfaceList(cfg)) ensures Delete(NAT_PREROUTING, IfaceDnsTo(iface, "SSHC_DNS")) in SCRIPT4 {
      Script4Deletes(NAT_PREROUTING, IfaceDnsTo(iface, "SSHC_DNS"));
    }
  }

  lemma Script4CoversChains()
    ensures Owns(SCRIPT4, User(Nat, "SSHC_OUT")) && Owns(SCRIPT4, User(Mangle, "SSHC_PRE"))
    ensures Owns(SCRIPT4, User(Nat, "SSHC_DNS")) && Owns(SCRIPT4, DIVERT)
  {
    ScriptNames();
    hide Owns;
    Script4Destroys(User(Nat, "SSHC_OUT"));
    Script4Destroys(User(Mangle, "SSHC_PRE"));
    Script4Destroys(User(Nat, "SSHC_DNS"));
    Script4Destroys(DIVERT);
  }

  lemma Script4CoversFilter()
    ensures Delete(FILTER_FORWARD, FORWARD_ALL) in SCRIPT4 && Delete(MANGLE_PREROUTING, DIVERT_HOOK) in SCRIPT4
    ensures forall port | port in {443, 80} ::
              Delete(FILTER_OUTPUT, QuicDrop(port)) in SCRIPT4 && Delete(FILTER_OUTPUT, QuicReject(port)) in SCRIPT4
  {
    Script4Deletes(FILTER_FORWARD, FORWARD_ALL);
    Script4Deletes(MANGLE_PREROUTING, DIVERT_HOOK);
    forall port | port in {443, 80}
      ensures Delete(FILTER_OUTPUT, QuicDrop(port)) in SCRIPT4 && Delete(FILTER_OUTPUT, QuicReject(port)) in SCRIPT4
    {
      Script4Deletes(FILTER_OUTPUT, QuicDrop(port));
      Script4Deletes(FILTER_OUTPUT, QuicReject(port));
    }
  }

  lemma Script4Covers(cfg: Config)
    requires Shipped(cfg)
    ensures Covers(SCRIPT4, cfg)
  {
    ShippedNames(cfg);
    hide Owns, NonBlank, IfaceList, Prefix, OutName, PreName, DnsName;
    Script4CoversHooks(cfg);
    Script4CoversFilter();
    Script4CoversChains();
    hide Shipped;
  }

  // --- Main results: IPv4 -----------------------------------------------------------------------------

  // After any Apply with the shipped prefix and interfaces the script and cleanupRules leave the same
  // tables, the initial ones; and the script changes nothing after cleanupRules has run.
  lemma ScriptAgrees(k1: Kernel, k2: Kernel, k3: Kernel, cfg: Config, bypass: seq<Bypass>, t: Tables)
    requires Shipped(cfg) && WellFormed(t) && DaemonFree(cfg, t) && ScriptFree(t)
    ensures Run(k2, Applied(k1, cfg, bypass, t).0, SCRIPT4) == t
    ensures Run(k3, Applied(k1, cfg, bypass, t).0, CleanupProgram(cfg)) == t
    ensures Run(k2, Run(k3, Applied(k1, cfg, bypass, t).0, CleanupProgram(cfg)), SCRIPT4) == t
  {
    var p := SCRIPT4;
    hide Shipped, DaemonFree, ScriptFree, Clean, Tidy, CleanupProgram, Run, Install, Erase, IsSweep, Covers, Regular;
    RegularIsTidy(cfg, t);
    CleanIsTidy(CleanupProgram(cfg), t);
    ApplyThenCleanup(k1, k3, cfg, bypass, t);
    AppliedUndoable(k1, cfg, bypass, t);
    CleanIsErased(CleanupProgram(cfg), t);
    CleanupErases(k1, cfg, t);
    ScriptRegularIsTidy(t);
    CleanIsTidy(p, t);
    CleanIsErased(p, t);
    Script4IsSweep();
    Script4Covers(cfg);
    InstallThenSweep(k1, k2, p, cfg, bypass, t);
    SweepErases(k2, p, t);
  }

  ghost predicate Sshc(ch: Chain) {
    ch.User? && "SSHC_" <= ch.name
  }

  // The script says that it removes every SSHC_ chain. It does if and only if there are none but those on its
  // lists.
  lemma ScriptRemovesAllSshcExactly(k: Kernel, t: Tables)
    requires ScriptRegular(t)
    ensures (forall ch | ch in Run(k, t, SCRIPT4) :: !Sshc(ch)) <==> (forall ch | ch in t && Sshc(ch) :: ScriptChain(ch))
  {
    var p := SCRIPT4;
    Script4IsSweep();
    ScriptRegularIsTidy(t);
    forall ch ensures Owns(p, ch) <==> ScriptChain(ch) {
      Script4Destroys(ch);
    }
    SweepErases(k, p, t);
    hide IsSweep, Run, Tidy, ScriptRegular, ScriptChain, Owns, Sshc;
    forall ch ensures ch in Run(k, t, p) <==> ch in t && !ScriptChain(ch) {
    }
  }

  // Where the names of the daemon's suffixes stand on the script's list.
  const PLACES := [0, 1, 2, 9, 4, 5, 6, 7, 8, 3]

  lemma NameAt(i: nat)
    requires i < 10
    ensures "SSHC" + SUFFIXES[PLACES[i]] == (CHAINS + ["SSHC_MOUT"])[i]
  {
    if i < 5 {
      assert i == 0 || i == 1 || i == 2 || i == 3 || i == 4;
    } else {
      assert i == 5 || i == 6 || i == 7 || i == 8 || i == 9;
    }
  }

  // The daemon's names are those on the script's list and one more, SSHC_MOUT.
  lemma DaemonNames(cfg: Config, name: string)
    requires Prefix(cfg) == "SSHC"
    ensures DaemonName(cfg, name) <==> name in CHAINS || name == "SSHC_MOUT"
  {
    var all := CHAINS + ["SSHC_MOUT"];
    if DaemonName(cfg, name) {
      var s :| s in SUFFIXES && name == "SSHC" + s;
      var j :| 0 <= j < 10 && SUFFIXES[j] == s;
      var i := if j == 3 then 9 else if j == 9 then 3 else j;
      NameAt(i);
      assert all[i] in all;
    }
    if name in all {
      var i :| 0 <= i < 10 && all[i] == name;
      NameAt(i);
    }
  }

  ghost predicate SocketHook(ch: Chain, r: Rule) {
    r.target.Jump? && r.target.name in CHAINS && SocketAt(ch, r.matches)
  }

  // What one program claims of t and the other does not: chains or hooks of the name SSHC_MOUT, a mangle
  // chain SSHC_DROP6, and socket hooks to chains on the list.
  ghost predicate SameTraces(t: Tables) {
    && User(Nat, "SSHC_MOUT") !in t && User(Mangle, "SSHC_MOUT") !in t && User(Mangle, "SSHC_DROP6") !in t
    && (forall ch, r | ch in t && r in t[ch] :: !(r.target == Jump("SSHC_MOUT") && HookAt(IFACES, ch, r.matches)))
    && (forall ch, r | ch in t && r in t[ch] :: !SocketHook(ch, r))
  }

  // No daemon rule is stacked twice, and only daemon hooks and socket hooks jump to daemon chains.
  ghost predicate RegularButSockets(cfg: Config, t: Tables) {
    && (forall ch, r | ch in t && DaemonRule(cfg, ch, r) :: Once(t[ch], r))
    && (forall ch, r | ch in t && r in t[ch] && r.target.Jump? && DaemonChain(cfg, User(ch.table, r.target.name)) ::
          DaemonRule(cfg, ch, r) || SocketHook(ch, r))
  }

  // Without these, and only then, the script and cleanupRules leave the same tables.
  lemma ScriptAgreesExactly(k1: Kernel, k2: Kernel, cfg: Config, t: Tables)
    requires ShippedInFull(cfg) && RegularButSockets(cfg, t) && ScriptRegular(t)
    ensures Run(k1, t, SCRIPT4) == Run(k2, t, CleanupProgram(cfg)) <==> SameTraces(t)
  {
    if ch, r :| ch in t && r in t[ch] && SocketHook(ch, r) {
      SocketHookDiffers(k1, k2, cfg, t, ch, r);
      assert !SameTraces(t);
    } else {
      assert Regular(cfg, t);
      AgreesWithoutSockets(k1, k2, cfg, t);
    }
  }

  lemma AgreesWithoutSockets(k1: Kernel, k2: Kernel, cfg: Config, t: Tables)
    requires ShippedInFull(cfg) && Regular(cfg, t) && ScriptRegular(t)
    ensures Run(k1, t, SCRIPT4) == Run(k2, t, CleanupProgram(cfg)) <==> SameTraces(t)
  {
    hide *;
    ScriptRegularIsTidy(t);
    RegularIsTidy(cfg, t);
    Script4IsSweep();
    CleanupIsSweep(cfg);
    SweepsAgree(k1, k2, SCRIPT4, CleanupProgram(cfg), t);
    SameClaimsExactly(cfg, t);
  }

  // A rule of a built-in chain that a sweep does not delete is still there afterwards, whatever the state.
  lemma {:induction false} SurvivesSweep(k: Kernel, t: Tables, cs: seq<Command>, ch: Chain, r: Rule)
    requires ch.Builtin? && ch in t && r in t[ch] && Delete(ch, r) !in cs && forall c | c in cs :: SweepCommand(c)
    ensures ch in Run(k, t, cs) && r in Run(k, t, cs)[ch]
  {
    hide RemoveFirst;
    if cs != [] {
      var front, last := cs[..|cs| - 1], cs[|cs| - 1];
      assert SweepCommand(last);
      SurvivesSweep(k, t, front, ch, r);
      if last.Delete? {
        RemoveFirstMembers(Run(k, t, front)[ch], last.rule, r);
      }
    }
  }

  // The script takes a socket hook away, and cleanupRules leaves it.
  lemma SocketHookDiffers(k1: Kernel, k2: Kernel, cfg: Config, t: Tables, ch: Chain, r: Rule)
    requires ShippedInFull(cfg) && ScriptRegular(t) && ch in t && r in t[ch] && SocketHook(ch, r)
    ensures Run(k1, t, SCRIPT4) != Run(k2, t, CleanupProgram(cfg))
  {
    assert ScriptRule(ch, r) && ch.Builtin? && !SameRule(ch, r);
    SameRules(cfg, ch, r);
    hide *;
    ScriptRegularIsTidy(t);
    Script4IsSweep();
    CleanupIsSweep(cfg);
    Script4Deletes(ch, r);
    CleanupDeletes(cfg, ch, r);
    SweepErases(k1, SCRIPT4, t);
    ErasedRule(SCRIPT4, t, ch, r);
    SweepCommands(CleanupProgram(cfg));
    SurvivesSweep(k2, t, CleanupProgram(cfg), ch, r);
  }

  lemma ErasedRule(p: seq<Command>, t: Tables, ch: Chain, r: Rule)
    requires Delete(ch, r) in p
    ensures ch in Erase(p, t) ==> r !in Erase(p, t)[ch]
  {
    if ch in Erase(p, t) {
      KeepMembers(p, ch, t[ch], r);
    }
  }

  lemma SameChains(cfg: Config, ch: Chain)
    requires Prefix(cfg) == "SSHC"
    ensures (Owns(SCRIPT4, ch) <==> Owns(CleanupProgram(cfg), ch)) <==>
            ch != User(Nat, "SSHC_MOUT") && ch != User(Mangle, "SSHC_MOUT") && ch != User(Mangle, "SSHC_DROP6")
    ensures ch.Builtin? ==> !Owns(SCRIPT4, ch)
  {
    Script4Destroys(ch);
    CleanupDestroys(cfg, ch);
    hide CleanupProgram, DaemonName;
    if ch.User? {
      DaemonNames(cfg, ch.name);
      UnlistedNames();
    }
  }

  lemma UnlistedNames()
    ensures "SSHC_MOUT" !in CHAINS6 && "SSHC_DROP6" !in CHAINS && "SSHC_DROP6" in CHAINS6
    ensures forall name | name in CHAINS6 :: name in CHAINS || name == "SSHC_DROP6"
  {
    assert CHAINS6[9] == "SSHC_DROP6";
    MoutIsUnlisted();
    Drop6IsUnlisted();
    hide CHAINS;
    assert "SSHC_MOUT"[5] != "SSHC_DROP6"[5];
  }

  lemma MoutIsUnlisted()
    ensures "SSHC_MOUT" !in CHAINS
  {
    assert forall name | name in CHAINS :: |name| != |"SSHC_MOUT"| || name[5] != 'M';
  }

  lemma Drop6IsUnlisted()
    ensures "SSHC_DROP6" !in CHAINS
  {
    assert forall name | name in CHAINS :: name[5] != 'D' || name[6] == 'N';
  }

  ghost predicate SameRule(ch: Chain, r: Rule) {
    && !(r.target == Jump("SSHC_MOUT") && HookAt(IFACES, ch, r.matches))
    && !SocketHook(ch, r)
  }

  lemma SameHooks(cfg: Config, ch: Chain, r: Rule)
    requires ShippedInFull(cfg)
    ensures HookAt(IFACES, ch, r.matches) <==> HookAt(NonBlank(IfaceList(cfg)), ch, r.matches)
    ensures HookAt(IFACES, ch, r.matches) ==> !SocketAt(ch, r.matches) && ch.Builtin?
    ensures SocketAt(ch, r.matches) ==> ch.Builtin?
  {
    hide NonBlank, IfaceList, Prefix;
  }

  lemma SameRules(cfg: Config, ch: Chain, r: Rule)
    requires ShippedInFull(cfg)
    ensures (ScriptRule(ch, r) <==> DaemonRule(cfg, ch, r)) <==> SameRule(ch, r)
    ensures !SameRule(ch, r) ==> ch.Builtin?
  {
    SameHooks(cfg, ch, r);
    UnlistedNames();
    if r.target.Jump? {
      DaemonNames(cfg, r.target.name);
      NotFilter(ch, r);
    }
    hide DaemonName, HookAt, NonBlank, IfaceList, SocketAt, Shipped;
  }

  // DIVERT is on neither list of names.
  lemma NotFilter(ch: Chain, r: Rule)
    requires r.target.Jump?
    ensures r == DIVERT_HOOK ==> r.target.name !in CHAINS && r.target.name != "SSHC_MOUT"
    ensures r != FORWARD_ALL && forall port :: r != QuicDrop(port) && r != QuicReject(port)
  {
    ScriptNames();
    assert "DIVERT"[0] != "SSHC_MOUT"[0];
  }

  lemma SameClaimsExactly(cfg: Config, t: Tables)
    requires ShippedInFull(cfg)
    ensures SameClaims(SCRIPT4, CleanupProgram(cfg), t) <==> SameTraces(t)
  {
    hide Owns, CleanupProgram, SameRule, ScriptRule, DaemonRule, SameClaims, SameTraces, NonBlank, IfaceList;
    forall ch ensures (Owns(SCRIPT4, ch) <==> Owns(CleanupProgram(cfg), ch)) <==>
            ch != User(Nat, "SSHC_MOUT") && ch != User(Mangle, "SSHC_MOUT") && ch != User(Mangle, "SSHC_DROP6")
    ensures ch.Builtin? ==> !Owns(SCRIPT4, ch)
    {
      SameChains(cfg, ch);
    }
    forall ch, r
      ensures (Delete(ch, r) in SCRIPT4 <==> Delete(ch, r) in CleanupProgram(cfg)) <==> SameRule(ch, r)
      ensures !SameRule(ch, r) ==> ch.Builtin?
    {
      Script4Deletes(ch, r);
      CleanupDeletes(cfg, ch, r);
      SameRules(cfg, ch, r);
    }
    ClaimsAgree(SCRIPT4, CleanupProgram(cfg), t);
  }

  lemma ClaimsAgree(p: seq<Command>, q: seq<Command>, t: Tables)
    requires forall ch :: (Owns(p, ch) <==> Owns(q, ch)) <==>
            ch != User(Nat, "SSHC_MOUT") && ch != User(Mangle, "SSHC_MOUT") && ch != User(Mangle, "SSHC_DROP6")
    requires forall ch: Chain :: ch.Builtin? ==> !Owns(p, ch)
    requires forall ch, r :: (Delete(ch, r) in p <==> Delete(ch, r) in q) <==> SameRule(ch, r)
    requires forall ch, r :: !SameRule(ch, r) ==> ch.Builtin?
    ensures SameClaims(p, q, t) <==> SameTraces(t)
  {
    hide Owns, HookAt;
    assert SameTraces(t) <==>
      && User(Nat, "SSHC_MOUT") !in t && User(Mangle, "SSHC_MOUT") !in t && User(Mangle, "SSHC_DROP6") !in t
      && forall ch, r | ch in t && r in t[ch] :: SameRule(ch, r);
    hide SameRule, SameTraces;
  }

  // For one: a leftover chain SSHC_MOUT survives the script.
  lemma ScriptMissesMout(k: Kernel, cfg: Config, t: Tables)
    requires Prefix(cfg) == "SSHC" && t == map[User(Nat, "SSHC_MOUT") := []]
    ensures Run(k, t, CleanupProgram(cfg)) == map[]
    ensures Run(k, t, SCRIPT4) == t
  {
    UnlistedNames();
    DaemonNames(cfg, "SSHC_MOUT");
    assert ScriptFree(t);
    assert Foreign(cfg, t) == map[];
    assert WellFormed(t) && Regular(cfg, t);
    hide ScriptFree, Foreign, Regular, Clean, Tidy, Run, Erase, CleanupProgram, WellFormed, DaemonName;
    CleanupLeavesForeign(k, cfg, t);
    ScriptRegularIsTidy(t);
    CleanIsTidy(SCRIPT4, t);
    Script4IsSweep();
    SweepErases(k, SCRIPT4, t);
    CleanIsErased(SCRIPT4, t);
  }

  // --- IPv6 ---------------------------------------------------------------------------------------------

  ghost predicate ScriptChain6(ch: Chain) {
    ch.User? && ch.table != Mangle && ch.name in CHAINS6
  }

  ghost predicate TcpOrAll(ms: seq<Match>) {
    ms == [] || ms == [Proto(Tcp)]
  }

  ghost predicate FilterHook6(ch: Chain, r: Rule) {
    (ch == FILTER_OUTPUT || ch == FILTER_FORWARD) && r.matches == []
  }

  ghost predicate IfaceHook6(ifaces: seq<string>, ch: Chain, ms: seq<Match>) {
    ch == NAT_PREROUTING && |ms| > 0 && ms[0].In? && ms[0].iface in ifaces && TcpOrAll(ms[1..])
  }

  ghost predicate NatHook6(ch: Chain, r: Rule) {
    ((ch == NAT_OUTPUT || ch == NAT_PREROUTING) && TcpOrAll(r.matches)) || IfaceHook6(IFACES, ch, r.matches)
  }

  ghost predicate ScriptRule6(ch: Chain, r: Rule) {
    && r.target.Jump?
    && ((r.target.name in CHAINS6 && FilterHook6(ch, r)) || (r.target.name in CHAINS && NatHook6(ch, r)))
  }

  ghost predicate ScriptFree6(t: Tables) {
    && (forall ch | ch in t :: !ScriptChain6(ch))
    && (forall ch, r | ch in t && r in t[ch] :: !ScriptRule6(ch, r))
  }

  ghost predicate ScriptRegular6(t: Tables) {
    && (forall ch, r | ch in t && ScriptRule6(ch, r) :: Once(t[ch], r))
    && (forall ch, r | ch in t && r in t[ch] && r.target.Jump? && ScriptChain6(User(ch.table, r.target.name)) :: ScriptRule6(ch, r))
  }

  lemma {:induction false} DetachFilterV6Rules(names: seq<string>, ch: Chain, r: Rule)
    ensures Delete(ch, r) in DetachFilterV6(names) <==> r.target.Jump? && r.target.name in names && FilterHook6(ch, r)
  {
    if names != [] {
      var front, last := names[..|names| - 1], names[|names| - 1];
      assert names == front + [last];
      DetachFilterV6Rules(front, ch, r);
      var two := [Delete(FILTER_OUTPUT, AllTo(last)), Delete(FILTER_FORWARD, AllTo(last))];
      assert two[0] in two && two[1] in two;
    }
  }

  lemma {:induction false} DetachFilterV6Detaches(names: seq<string>)
    ensures Detaches(DetachFilterV6(names))
  {
    if names != [] {
      DetachFilterV6Detaches(names[..|names| - 1]);
    }
  }

  lemma {:induction false} IfaceDetachV6Rules(ifaces: seq<string>, name: string, ch: Chain, r: Rule)
    ensures Delete(ch, r) in IfaceDetachV6(ifaces, name) <==> r.target == Jump(name) && IfaceHook6(ifaces, ch, r.matches)
  {
    if ifaces != [] {
      var front, last := ifaces[..|ifaces| - 1], ifaces[|ifaces| - 1];
      IfaceDetachV6Rules(front, name, ch, r);
      assert ifaces == front + [last];
      IfaceTwo(last, name, ch, r);
    }
  }

  lemma IfaceTwo(iface: string, name: string, ch: Chain, r: Rule)
    ensures Delete(ch, r) in [Delete(NAT_PREROUTING, IfaceTcpTo(iface, name)), Delete(NAT_PREROUTING, IfaceAllTo(iface, name))] <==>
            r.target == Jump(name) && ch == NAT_PREROUTING && |r.matches| > 0 && r.matches[0] == In(iface) && TcpOrAll(r.matches[1..])
  {
    var two := [Delete(NAT_PREROUTING, IfaceTcpTo(iface, name)), Delete(NAT_PREROUTING, IfaceAllTo(iface, name))];
    assert two[0].rule.matches[1..] == [Proto(Tcp)] && two[1].rule.matches[1..] == [];
    if r.target == Jump(name) && |r.matches| > 0 && r.matches[0] == In(iface) && TcpOrAll(r.matches[1..]) {
      assert r.matches == [In(iface)] + r.matches[1..];
      assert r == two[0].rule || r == two[1].rule;
    }
  }

  lemma {:induction false} IfaceDetachV6Detaches(ifaces: seq<string>, name: string)
    ensures Detaches(IfaceDetachV6(ifaces, name))
  {
    if ifaces != [] {
      IfaceDetachV6Detaches(ifaces[..|ifaces| - 1], name);
    }
  }

  lemma NatDetachV6Rules(name: string, ch: Chain, r: Rule)
    ensures Delete(ch, r) in NatDetachV6(name) <==>
            r.target == Jump(name) && (ch == NAT_OUTPUT || ch == NAT_PREROUTING) && TcpOrAll(r.matches)
  {
    var cs := NatDetachV6(name);
    assert cs[0] in cs && cs[1] in cs && cs[2] in cs && cs[3] in cs;
  }

  lemma {:induction false} DetachNatV6Rules(names: seq<string>, ch: Chain, r: Rule)
    ensures Delete(ch, r) in DetachNatV6(names) <==> r.target.Jump? && r.target.name in names && NatHook6(ch, r)
  {
    hide IfaceDetachV6, TcpOrAll, IfaceHook6;
    if names != [] {
      var front, last := names[..|names| - 1], names[|names| - 1];
      assert names == front + [last];
      DetachNatV6Rules(front, ch, r);
      NatDetachV6Rules(last, ch, r);
      IfaceDetachV6Rules(IFACES, last, ch, r);
      Members3(DetachNatV6(front), NatDetachV6(last), IfaceDetachV6(IFACES, last));
      assert DetachNatV6(names) == DetachNatV6(front) + NatDetachV6(last) + IfaceDetachV6(IFACES, last);
    }
  }

  lemma {:induction false} DetachNatV6Detaches(names: seq<string>)
    ensures Detaches(DetachNatV6(names))
  {
    hide IfaceDetachV6;
    if names != [] {
      DetachNatV6Detaches(names[..|names| - 1]);
      IfaceDetachV6Detaches(IFACES, names[|names| - 1]);
    }
  }

  lemma {:induction false} RemoveEachV6Members(names: seq<string>)
    ensures IsSweep(RemoveEachV6(names))
    ensures forall c | c in RemoveEachV6(names) ::
              !c.Delete? && c.chain.User? && c.chain.table != Mangle && c.chain.name in names
    ensures forall name | name in names ::
              Destroy(User(Filter, name)) in RemoveEachV6(names) && Destroy(User(Nat, name)) in RemoveEachV6(names)
  {
    hide IsSweep, Remove;
    if names == [] {
      DetachesIsSweep([]);
    } else {
      var front, last := names[..|names| - 1], names[|names| - 1];
      assert names == front + [last];
      RemoveEachV6Members(front);
      RemoveIsSweep(User(Filter, last));
      RemoveIsSweep(User(Nat, last));
      SweepThenRemove(RemoveEachV6(front), User(Filter, last));
      SweepThenRemove(RemoveEachV6(front) + Remove(User(Filter, last)), User(Nat, last));
      Members3(RemoveEachV6(front), Remove(User(Filter, last)), Remove(User(Nat, last)));
    }
  }

  lemma Script6Parts()
    ensures IsSweep(V6_PROGRAM)
    ensures forall c :: c in V6_PROGRAM <==>
              c in DetachFilterV6(CHAINS6) || c in DetachNatV6(CHAINS) || c in RemoveEachV6(CHAINS6)
  {
    hide IsSweep, DetachFilterV6, DetachNatV6, RemoveEachV6;
    var a, b, c := DetachFilterV6(CHAINS6), DetachNatV6(CHAINS), RemoveEachV6(CHAINS6);
    DetachFilterV6Detaches(CHAINS6);
    DetachNatV6Detaches(CHAINS);
    RemoveEachV6Members(CHAINS6);
    DetachThenSweep(a + b, c);
    Members3(a, b, c);
  }

  // The rules the IPv6 part deletes.
  lemma Script6Deletes(ch: Chain, r: Rule)
    ensures Delete(ch, r) in V6_PROGRAM <==> ScriptRule6(ch, r)
  {
    Script6Parts();
    hide IsSweep, DetachFilterV6, DetachNatV6, RemoveEachV6, FilterHook6, NatHook6;
    DetachFilterV6Rules(CHAINS6, ch, r);
    DetachNatV6Rules(CHAINS, ch, r);
    RemoveEachV6Members(CHAINS6);
    assert Delete(ch, r).Delete?;
  }

  // The chains it destroys.
  lemma Script6Destroys(ch: Chain)
    ensures Owns(V6_PROGRAM, ch) <==> ScriptChain6(ch)
  {
    Script6Parts();
    hide IsSweep, DetachFilterV6, DetachNatV6, RemoveEachV6;
    DetachFilterV6Detaches(CHAINS6);
    DetachNatV6Detaches(CHAINS);
    RemoveEachV6Members(CHAINS6);
    assert Destroy(ch).Destroy? && Destroy(ch).chain == ch;
  }

  lemma ClaimsDecide6(p: seq<Command>, t: Tables)
    requires forall ch :: Owns(p, ch) <==> ScriptChain6(ch)
    requires forall ch, r :: Delete(ch, r) in p <==> ScriptRule6(ch, r)
    ensures ScriptRegular6(t) <==> Tidy(p, t)
    ensures ScriptFree6(t) <==> Clean(p, t)
  {
    hide ScriptChain6, ScriptRule6, Once, Owns;
  }

  lemma ScriptRegular6IsTidy(t: Tables)
    ensures ScriptRegular6(t) <==> Tidy(V6_PROGRAM, t)
    ensures ScriptFree6(t) <==> Clean(V6_PROGRAM, t)
  {
    hide *;
    forall ch ensures Owns(V6_PROGRAM, ch) <==> ScriptChain6(ch) {
      Script6Destroys(ch);
    }
    forall ch, r ensures Delete(ch, r) in V6_PROGRAM <==> ScriptRule6(ch, r) {
      Script6Deletes(ch, r);
    }
    ClaimsDecide6(V6_PROGRAM, t);
  }

  lemma SweepCommands(p: seq<Command>)
    requires IsSweep(p)
    ensures forall c | c in p :: SweepCommand(c)
  {
  }

  // And in IPv6 it removes every SSHC_ chain if and only if the others are in the filter or nat table and listed.
  lemma Script6RemovesAllSshcExactly(k: Kernel, t: Tables)
    requires ScriptRegular6(t)
    ensures (forall ch | ch in Run(k, t, V6_PROGRAM) :: !Sshc(ch)) <==> (forall ch | ch in t && Sshc(ch) :: ScriptChain6(ch))
  {
    var p := V6_PROGRAM;
    Script6Parts();
    ScriptRegular6IsTidy(t);
    forall ch ensures Owns(p, ch) <==> ScriptChain6(ch) {
      Script6Destroys(ch);
    }
    SweepErases(k, p, t);
    hide IsSweep, Run, Tidy, Owns, ScriptChain6, ScriptRegular6, Sshc;
    assert forall ch :: ch in Run(k, t, p) <==> ch in t && !Owns(p, ch);
  }

  // What enableIPv6 claims of the state, the script claims too.
  lemma Drop6IsListed(ch: Chain)
    ensures "SSHC_DROP6" in CHAINS6 && ScriptChain6(DROP6)
    ensures ScriptRule6(ch, DROP6_HOOK) <==> ch == FILTER_OUTPUT || ch == FILTER_FORWARD
  {
    UnlistedNames();
    hide CHAINS, CHAINS6;
  }

  ghost predicate OnlyDrop6(t: Tables) {
    && (forall ch | ch in t && ScriptChain6(ch) :: ch == DROP6)
    && (forall ch, r | ch in t && r in t[ch] && ScriptRule6(ch, r) :: r == DROP6_HOOK)
  }

  // The IPv6 part and enableIPv6 leave the same tables if and only if, of all that the script removes, there is
  // nothing but the chain SSHC_DROP6 and its hooks.
  lemma Script6AgreesExactly(k1: Kernel, k2: Kernel, t: Tables)
    requires ScriptRegular6(t)
    ensures Run(k1, t, V6_PROGRAM) == Run(k2, t, ENABLE6_PROGRAM) <==> OnlyDrop6(t)
  {
    Script6Parts();
    Enable6IsSweep();
    ScriptRegular6IsTidy(t);
    Regular6IfScript(t);
    Regular6IsTidy(t);
    hide IsSweep, Tidy, ScriptRegular6, Regular6, Run, OnlyDrop6;
    SweepsAgree(k1, k2, V6_PROGRAM, ENABLE6_PROGRAM, t);
    SameClaims6(t);
  }

  lemma Regular6IfScript(t: Tables)
    requires ScriptRegular6(t)
    ensures Regular6(t)
  {
    hide Once;
    Drop6IsListed(FILTER_OUTPUT);
    Drop6IsListed(FILTER_FORWARD);
    forall ch, r | ch in t && r in t[ch] && ch.table == Filter && r.target == Jump("SSHC_DROP6")
      ensures r == DROP6_HOOK && (ch == FILTER_OUTPUT || ch == FILTER_FORWARD)
    {
      assert ScriptChain6(User(ch.table, r.target.name)) && ScriptRule6(ch, r);
      UnlistedNames();
    }
  }

  lemma SameClaims6(t: Tables)
    ensures SameClaims(V6_PROGRAM, ENABLE6_PROGRAM, t) <==> OnlyDrop6(t)
  {
    forall ch ensures (Owns(V6_PROGRAM, ch) <==> ScriptChain6(ch)) && (Owns(ENABLE6_PROGRAM, ch) <==> ch == DROP6) {
      Script6Destroys(ch);
      Enable6Members(Destroy(ch));
    }
    forall ch, r
      ensures Delete(ch, r) in V6_PROGRAM <==> ScriptRule6(ch, r)
      ensures Delete(ch, r) in ENABLE6_PROGRAM <==> r == DROP6_HOOK && ScriptRule6(ch, r)
    {
      Script6Deletes(ch, r);
      Enable6Members(Delete(ch, r));
      Drop6IsListed(ch);
    }
    Drop6IsListed(FILTER_OUTPUT);
    ClaimsAgree6(V6_PROGRAM, ENABLE6_PROGRAM, t);
  }

  lemma ClaimsAgree6(p: seq<Command>, q: seq<Command>, t: Tables)
    requires forall ch :: (Owns(p, ch) <==> ScriptChain6(ch)) && (Owns(q, ch) <==> ch == DROP6)
    requires forall ch, r :: Delete(ch, r) in p <==> ScriptRule6(ch, r)
    requires forall ch, r :: Delete(ch, r) in q <==> r == DROP6_HOOK && ScriptRule6(ch, r)
    requires ScriptChain6(DROP6)
    ensures SameClaims(p, q, t) <==> OnlyDrop6(t)
  {
    hide Owns;
    assert forall ch, r :: ScriptRule6(ch, r) ==> !ScriptChain6(ch);
    hide ScriptRule6, ScriptChain6;
  }

  // From a state without traces, disableIPv6 is taken back by both.
  lemma Script6Agrees(k1: Kernel, k2: Kernel, k3: Kernel, t: Tables)
    requires WellFormed(t) && ScriptFree6(t)
    ensures Run(k2, Disabled6(k1, t), V6_PROGRAM) == t
    ensures Run(k3, Disabled6(k1, t), ENABLE6_PROGRAM) == t
    ensures Run(k2, Run(k3, Disabled6(k1, t), ENABLE6_PROGRAM), V6_PROGRAM) == t
  {
    var p, q := V6_PROGRAM, ENABLE6_PROGRAM;
    Script6Parts();
    ScriptRegular6IsTidy(t);
    Script6HasDrop6();
    Free6IsDaemonFree(t);
    hide DaemonFree6, ScriptFree6, ScriptRegular6, Clean, Tidy, Run, Erase, IsSweep, Regular6, Disabled6, DetachFilterV6,
         DetachNatV6, RemoveEachV6, Owns;
    Regular6IsTidy(t);
    CleanIsTidy(q, t);
    CleanIsTidy(p, t);
    CleanIsErased(p, t);
    Disable6ThenEnable6(k1, k3, t);
    SweepCommands(p);
    Disabled6Undoable(k1, p, t);
    SweepErases(k2, p, Disabled6(k1, t));
    SweepErases(k2, p, t);
  }

  lemma Script6HasDrop6()
    ensures Owns(V6_PROGRAM, DROP6)
    ensures Delete(FILTER_OUTPUT, DROP6_HOOK) in V6_PROGRAM && Delete(FILTER_FORWARD, DROP6_HOOK) in V6_PROGRAM
  {
    hide *;
    Script6Destroys(DROP6);
    Script6Deletes(FILTER_OUTPUT, DROP6_HOOK);
    Script6Deletes(FILTER_FORWARD, DROP6_HOOK);
    Drop6IsListed(FILTER_OUTPUT);
    Drop6IsListed(FILTER_FORWARD);
  }

  lemma Free6IsDaemonFree(t: Tables)
    requires ScriptFree6(t)
    ensures DaemonFree6(t)
  {
    Drop6IsListed(FILTER_OUTPUT);
    Drop6IsListed(FILTER_FORWARD);
    hide ScriptChain6, ScriptRule6;
  }
}
