// src/module/scripts/net_clean.sh: the shell script that removes the daemon's rules a second time.
module NetClean {
  import opened Netfilter
  import opened Iptables

  const CHAINS := [
    "SSHC_OUT", "SSHC_PRE", "SSHC_DNS", "SSHC_TPROXY", "SSHC_OUTPUT", "SSHC_PREROUTING", "SSHC_PROXY",
    "SSHC_HOTSPOT", "SSHC_HOTSPOT_DNS"]

  const IFACES := ["wlan+", "swlan+", "ap+", "rndis+", "ncm+", "bt-pan+"]

  const CHAINS6 := CHAINS + ["SSHC_DROP6"]

  function SocketTo(name: string): Rule { Rule([Proto(Tcp), TransparentSocket], Jump(name)) }

  // --- Command lists ----------------------------------------------------------------------------

  function MangleDetachV4(name: string): seq<Command> {
    [Delete(MANGLE_PREROUTING, AllTo(name)), Delete(MANGLE_PREROUTING, SocketTo(name)), Delete(MANGLE_OUTPUT, AllTo(name))]
  }

  function DetachV4(name: string): seq<Command> {
    NatDetach(name) + IfaceDetach(IFACES, name) + MangleDetachV4(name)
  }

  function DetachEachV4(names: seq<string>): seq<Command> {
    if names == [] then [] else DetachEachV4(names[..|names| - 1]) + DetachV4(names[|names| - 1])
  }

  function RemoveEach(table: Table, names: seq<string>): seq<Command> {
    if names == [] then [] else RemoveEach(table, names[..|names| - 1]) + Remove(User(table, names[|names| - 1]))
  }

  // clean_v4
  const V4_PROGRAM :=
    DetachEachV4(CHAINS) + RemoveEach(Nat, CHAINS) + RemoveEach(Mangle, CHAINS6)
    + [Delete(MANGLE_PREROUTING, DIVERT_HOOK)] + Remove(DIVERT) + [Delete(FILTER_FORWARD, FORWARD_ALL)]

  // clean_quic
  const QUIC_PROGRAM := UnblockPort(443) + UnblockPort(80)

  function DetachFilterV6(names: seq<string>): seq<Command> {
    if names == [] then []
    else
      DetachFilterV6(names[..|names| - 1])
      + [Delete(FILTER_OUTPUT, AllTo(names[|names| - 1])), Delete(FILTER_FORWARD, AllTo(names[|names| - 1]))]
  }

  function IfaceDetachV6(ifaces: seq<string>, name: string): seq<Command> {
    if ifaces == [] then []
    else
      var iface := ifaces[|ifaces| - 1];
      IfaceDetachV6(ifaces[..|ifaces| - 1], name)
      + [Delete(NAT_PREROUTING, IfaceTcpTo(iface, name)), Delete(NAT_PREROUTING, IfaceAllTo(iface, name))]
  }

  function NatDetachV6(name: string): seq<Command> {
    [Delete(NAT_OUTPUT, TcpTo(name)), Delete(NAT_OUTPUT, AllTo(name)),
     Delete(NAT_PREROUTING, TcpTo(name)), Delete(NAT_PREROUTING, AllTo(name))]
  }

  function DetachNatV6(names: seq<string>): seq<Command> {
    if names == [] then []
    else
      var name := names[|names| - 1];
      DetachNatV6(names[..|names| - 1])
      + NatDetachV6(name) + IfaceDetachV6(IFACES, name)
  }

  function RemoveEachV6(names: seq<string>): seq<Command> {
    if names == [] then []
    else
      RemoveEachV6(names[..|names| - 1])
      + Remove(User(Filter, names[|names| - 1])) + Remove(User(Nat, names[|names| - 1]))
  }

  // clean_v6
  const V6_PROGRAM := DetachFilterV6(CHAINS6) + DetachNatV6(CHAINS) + RemoveEachV6(CHAINS6)

  // --- The script -------------------------------------------------------------------------------

  lemma Snoc(names: seq<string>, i: nat)
    requires i < |names|
    ensures names[..i + 1][..i] == names[..i] && names[..i + 1][i] == names[i] && |names[..i + 1]| == i + 1
  {
  }

  // A straight run of commands whose failures are silenced.
  method Issue(fw: Firewall, cs: seq<Command>)
    modifies fw`v4
    ensures fw.v4 == Run(fw.kernel4, old(fw.v4), cs)
  {
    hide Step;
    for i := 0 to |cs|
      invariant fw.v4 == Run(fw.kernel4, old(fw.v4), cs[..i])
    {
      var _ := fw.Ipt(cs[i]);
      RunSnoc(fw.kernel4, old(fw.v4), cs[..i], cs[i]);
      assert cs[..i + 1] == cs[..i] + [cs[i]];
    }
    assert cs[..|cs|] == cs;
  }

  method Issue6(fw: Firewall, cs: seq<Command>)
    modifies fw`v6
    ensures fw.v6 == Run(fw.kernel6, old(fw.v6), cs)
  {
    hide Step;
    for i := 0 to |cs|
      invariant fw.v6 == Run(fw.kernel6, old(fw.v6), cs[..i])
    {
      var _ := fw.Ip6t(cs[i]);
      RunSnoc(fw.kernel6, old(fw.v6), cs[..i], cs[i]);
      assert cs[..i + 1] == cs[..i] + [cs[i]];
    }
    assert cs[..|cs|] == cs;
  }

  method DetachEach(fw: Firewall, names: seq<string>)
    modifies fw`v4
    ensures fw.v4 == Run(fw.kernel4, old(fw.v4), DetachEachV4(names))
  {
    hide Step, DetachV4;
    for i := 0 to |names|
      invariant fw.v4 == Run(fw.kernel4, old(fw.v4), DetachEachV4(names[..i]))
    {
      Issue(fw, DetachV4(names[i]));
      Snoc(names, i);
      RunConcat(fw.kernel4, old(fw.v4), DetachEachV4(names[..i]), DetachV4(names[i]));
    }
    assert names[..|names|] == names;
  }

  method DestroyEach(fw: Firewall, table: Table, names: seq<string>)
    modifies fw`v4
    ensures fw.v4 == Run(fw.kernel4, old(fw.v4), RemoveEach(table, names))
  {
    hide Step, Remove;
    for i := 0 to |names|
      invariant fw.v4 == Run(fw.kernel4, old(fw.v4), RemoveEach(table, names[..i]))
    {
      Issue(fw, Remove(User(table, names[i])));
      Snoc(names, i);
      RunConcat(fw.kernel4, old(fw.v4), RemoveEach(table, names[..i]), Remove(User(table, names[i])));
    }
    assert names[..|names|] == names;
  }

  method CleanV4(fw: Firewall)
    modifies fw`v4
    ensures fw.v4 == Run(fw.kernel4, old(fw.v4), V4_PROGRAM)
  {
    hide Step, DetachEachV4, RemoveEach, Remove;
    ghost var k, t := fw.kernel4, fw.v4;
    DetachEach(fw, CHAINS);
    ghost var done := DetachEachV4(CHAINS);
    DestroyEach(fw, Nat, CHAINS);
    RunConcat(k, t, done, RemoveEach(Nat, CHAINS));
    done := done + RemoveEach(Nat, CHAINS);
    DestroyEach(fw, Mangle, CHAINS6);
    RunConcat(k, t, done, RemoveEach(Mangle, CHAINS6));
    done := done + RemoveEach(Mangle, CHAINS6);
    Issue(fw, [Delete(MANGLE_PREROUTING, DIVERT_HOOK)]);
    RunConcat(k, t, done, [Delete(MANGLE_PREROUTING, DIVERT_HOOK)]);
    done := done + [Delete(MANGLE_PREROUTING, DIVERT_HOOK)];
    Issue(fw, Remove(DIVERT));
    RunConcat(k, t, done, Remove(DIVERT));
    done := done + Remove(DIVERT);
    Issue(fw, [Delete(FILTER_FORWARD, FORWARD_ALL)]);
    RunConcat(k, t, done, [Delete(FILTER_FORWARD, FORWARD_ALL)]);
  }

  // At most four deletions, stopping at the first failure.
  method DeleteUntilGone(fw: Firewall, ch: Chain, r: Rule)
    modifies fw`v4
    ensures fw.v4 == Run(fw.kernel4, old(fw.v4), Repeat(Delete(ch, r), 4))
  {
    var i := 0;
    while i < 4
      invariant 0 <= i <= 4
      invariant fw.v4 == Run(fw.kernel4, old(fw.v4), Repeat(Delete(ch, r), i))
    {
      RunSnoc(fw.kernel4, old(fw.v4), Repeat(Delete(ch, r), i), Delete(ch, r));
      var ok := fw.Ipt(Delete(ch, r));
      if !ok {
        DeleteGone(fw.kernel4, old(fw.v4), ch, r, i, 4);
        break;
      }
      i := i + 1;
    }
  }

  method CleanQuic(fw: Firewall)
    modifies fw`v4
    ensures fw.v4 == Run(fw.kernel4, old(fw.v4), QUIC_PROGRAM)
  {
    hide Step, Repeat;
    var ports := [443, 80];
    for i := 0 to 2
      invariant fw.v4 == Run(fw.kernel4, old(fw.v4), if i == 0 then [] else if i == 1 then UnblockPort(443) else QUIC_PROGRAM)
    {
      ghost var t := fw.v4;
      DeleteUntilGone(fw, FILTER_OUTPUT, QuicDrop(ports[i]));
      DeleteUntilGone(fw, FILTER_OUTPUT, QuicReject(ports[i]));
      RunConcat(fw.kernel4, t, Repeat(Delete(FILTER_OUTPUT, QuicDrop(ports[i])), 4),
                Repeat(Delete(FILTER_OUTPUT, QuicReject(ports[i])), 4));
      RunConcat(fw.kernel4, old(fw.v4), UnblockPort(443), UnblockPort(80));
    }
  }

  method DetachFilter6(fw: Firewall, names: seq<string>)
    modifies fw`v6
    ensures fw.v6 == Run(fw.kernel6, old(fw.v6), DetachFilterV6(names))
  {
    hide Step;
    for i := 0 to |names|
      invariant fw.v6 == Run(fw.kernel6, old(fw.v6), DetachFilterV6(names[..i]))
    {
      var cs := [Delete(FILTER_OUTPUT, AllTo(names[i])), Delete(FILTER_FORWARD, AllTo(names[i]))];
      Issue6(fw, cs);
      Snoc(names, i);
      RunConcat(fw.kernel6, old(fw.v6), DetachFilterV6(names[..i]), cs);
    }
    assert names[..|names|] == names;
  }

  method DetachNat6(fw: Firewall, names: seq<string>)
    modifies fw`v6
    ensures fw.v6 == Run(fw.kernel6, old(fw.v6), DetachNatV6(names))
  {
    hide Step, IfaceDetachV6;
    for i := 0 to |names|
      invariant fw.v6 == Run(fw.kernel6, old(fw.v6), DetachNatV6(names[..i]))
    {
      var cs := NatDetachV6(names[i]);
      Issue6(fw, cs);
      RunConcat(fw.kernel6, old(fw.v6), DetachNatV6(names[..i]), cs);
      Issue6(fw, IfaceDetachV6(IFACES, names[i]));
      RunConcat(fw.kernel6, old(fw.v6), DetachNatV6(names[..i]) + cs, IfaceDetachV6(IFACES, names[i]));
      Snoc(names, i);
    }
    assert names[..|names|] == names;
  }

  method DestroyEach6(fw: Firewall, names: seq<string>)
    modifies fw`v6
    ensures fw.v6 == Run(fw.kernel6, old(fw.v6), RemoveEachV6(names))
  {
    hide Step, Remove;
    for i := 0 to |names|
      invariant fw.v6 == Run(fw.kernel6, old(fw.v6), RemoveEachV6(names[..i]))
    {
      var a, b := Remove(User(Filter, names[i])), Remove(User(Nat, names[i]));
      Issue6(fw, a);
      RunConcat(fw.kernel6, old(fw.v6), RemoveEachV6(names[..i]), a);
      Issue6(fw, b);
      RunConcat(fw.kernel6, old(fw.v6), RemoveEachV6(names[..i]) + a, b);
      Snoc(names, i);
    }
    assert names[..|names|] == names;
  }

  method CleanV6(fw: Firewall)
    modifies fw`v6
    ensures fw.v6 == Run(fw.kernel6, old(fw.v6), V6_PROGRAM)
  {
    hide Step, DetachFilterV6, DetachNatV6, RemoveEachV6;
    ghost var k, t := fw.kernel6, fw.v6;
    DetachFilter6(fw, CHAINS6);
    DetachNat6(fw, CHAINS);
    RunConcat(k, t, DetachFilterV6(CHAINS6), DetachNatV6(CHAINS));
    DestroyEach6(fw, CHAINS6);
    RunConcat(k, t, DetachFilterV6(CHAINS6) + DetachNatV6(CHAINS), RemoveEachV6(CHAINS6));
  }

  method Script(fw: Firewall)
    modifies fw`v4, fw`v6
    ensures fw.v4 == Run(fw.kernel4, old(fw.v4), V4_PROGRAM + QUIC_PROGRAM)
    ensures fw.v6 == Run(fw.kernel6, old(fw.v6), V6_PROGRAM)
  {
    CleanV4(fw);
    CleanV6(fw);
    RunConcat(fw.kernel4, old(fw.v4), V4_PROGRAM, QUIC_PROGRAM);
    CleanQuic(fw);
  }
}
