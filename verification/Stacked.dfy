// Copies of one rule that have piled up, as those of older versions may: what a cleanup leaves of them.
module Stacked {
  import opened Netfilter
  import opened Sweep
  import opened Iptables
  import opened Restore
  import opened Guarantees

  function Copies(rs: seq<Rule>, r: Rule): nat {
    if rs == [] then 0 else (if rs[0] == r then 1 else 0) + Copies(rs[1..], r)
  }

  // The rules without those of some set, in their order.
  function Except(rs: seq<Rule>, out: set<Rule>): seq<Rule> {
    if rs == [] then [] else if rs[0] in out then Except(rs[1..], out) else [rs[0]] + Except(rs[1..], out)
  }

  function Minus(n: nat, m: nat): nat {
    if n <= m then 0 else n - m
  }

  // rs without its first n copies of r.
  function Fewer(rs: seq<Rule>, r: Rule, n: nat): seq<Rule> {
    if n == 0 then rs else RemoveFirst(Fewer(rs, r, n - 1), r)
  }

  lemma {:induction false} OneFewer(rs: seq<Rule>, r: Rule, x: Rule, out: set<Rule>)
    ensures Copies(RemoveFirst(rs, r), x) == if x == r then Minus(Copies(rs, r), 1) else Copies(rs, x)
    ensures r in out ==> Except(RemoveFirst(rs, r), out) == Except(rs, out)
  {
    if rs != [] && rs[0] != r {
      OneFewer(rs[1..], r, x, out);
    }
  }

  lemma {:induction false} FewerCopies(rs: seq<Rule>, r: Rule, n: nat, x: Rule, out: set<Rule>)
    ensures Copies(Fewer(rs, r, n), x) == if x == r then Minus(Copies(rs, r), n) else Copies(rs, x)
    ensures r in out ==> Except(Fewer(rs, r, n), out) == Except(rs, out)
  {
    if n > 0 {
      FewerCopies(rs, r, n - 1, x, out);
      OneFewer(Fewer(rs, r, n - 1), r, x, out);
    }
  }

  lemma DeleteStep(k: Kernel, t: Tables, ch: Chain, rs: seq<Rule>, r: Rule)
    ensures Step(k, t[ch := rs], Delete(ch, r)).0 == t[ch := RemoveFirst(rs, r)]
  {
    if r !in rs {
      RemoveFirstAbsent(rs, r);
    }
    hide RemoveFirst;
    assert t[ch := rs][ch := RemoveFirst(rs, r)] == t[ch := RemoveFirst(rs, r)];
  }

  lemma {:induction false} RepeatedDelete(k: Kernel, t: Tables, ch: Chain, r: Rule, n: nat)
    requires ch in t
    ensures Run(k, t, Repeat(Delete(ch, r), n)) == t[ch := Fewer(t[ch], r, n)]
  {
    hide Step;
    if n == 0 {
      assert t[ch := t[ch]] == t;
    } else {
      RepeatedDelete(k, t, ch, r, n - 1);
      RunSnoc(k, t, Repeat(Delete(ch, r), n - 1), Delete(ch, r));
      DeleteStep(k, t, ch, Fewer(t[ch], r, n - 1), r);
      hide Run;
    }
  }

  lemma {:induction false} Untouched(k: Kernel, t: Tables, cs: seq<Command>, ch: Chain)
    requires ch in t && forall c | c in cs :: c.chain != ch
    ensures ch in Run(k, t, cs) && Run(k, t, cs)[ch] == t[ch]
  {
    if cs != [] {
      Untouched(k, t, cs[..|cs| - 1], ch);
    }
  }

  const QUIC := {QuicDrop(443), QuicReject(443), QuicDrop(80), QuicReject(80)}

  // What unblockQUIC leaves of the rules of filter OUTPUT.
  function Unblocked(rs: seq<Rule>): seq<Rule> {
    Fewer(Fewer(Fewer(Fewer(rs, QuicDrop(443), 4), QuicReject(443), 4), QuicDrop(80), 4), QuicReject(80), 4)
  }

  lemma UnblockRun(k: Kernel, t: Tables)
    requires FILTER_OUTPUT in t
    ensures Run(k, t, UnblockPort(443) + UnblockPort(80)) == t[FILTER_OUTPUT := Unblocked(t[FILTER_OUTPUT])]
  {
    hide Run, Fewer, Repeat;
    var ch, rs := FILTER_OUTPUT, t[FILTER_OUTPUT];
    RunConcat(k, t, UnblockPort(443), UnblockPort(80));
    UnblockOne(k, t, 443);
    var t1 := t[ch := Fewer(Fewer(rs, QuicDrop(443), 4), QuicReject(443), 4)];
    UnblockOne(k, t1, 80);
    assert t1[ch := Unblocked(rs)] == t[ch := Unblocked(rs)];
  }

  lemma UnblockOne(k: Kernel, t: Tables, port: int)
    requires FILTER_OUTPUT in t
    ensures Run(k, t, UnblockPort(port))
         == t[FILTER_OUTPUT := Fewer(Fewer(t[FILTER_OUTPUT], QuicDrop(port), 4), QuicReject(port), 4)]
  {
    hide Run, Fewer, Repeat;
    var ch, rs := FILTER_OUTPUT, t[FILTER_OUTPUT];
    RunConcat(k, t, Repeat(Delete(ch, QuicDrop(port)), 4), Repeat(Delete(ch, QuicReject(port)), 4));
    RepeatedDelete(k, t, ch, QuicDrop(port), 4);
    var rs1 := Fewer(rs, QuicDrop(port), 4);
    RepeatedDelete(k, t[ch := rs1], ch, QuicReject(port), 4);
    assert t[ch := rs1][ch := Fewer(rs1, QuicReject(port), 4)] == t[ch := Fewer(rs1, QuicReject(port), 4)];
  }

  lemma UnblockedCopies(rs: seq<Rule>, x: Rule)
    ensures Copies(Unblocked(rs), x) == if x in QUIC then Minus(Copies(rs, x), 4) else Copies(rs, x)
    ensures Except(Unblocked(rs), QUIC) == Except(rs, QUIC)
  {
    hide Fewer;
    var a := Fewer(rs, QuicDrop(443), 4);
    var b := Fewer(a, QuicReject(443), 4);
    var c := Fewer(b, QuicDrop(80), 4);
    FewerCopies(rs, QuicDrop(443), 4, x, QUIC);
    FewerCopies(a, QuicReject(443), 4, x, QUIC);
    FewerCopies(b, QuicDrop(80), 4, x, QUIC);
    FewerCopies(c, QuicReject(80), 4, x, QUIC);
  }

  // The commands before unblockQUIC.
  function BeforeUnblock(cfg: Config): seq<Command> {
    CleanupHead(Prefix(cfg)) + DetachAll(NonBlank(IfaceList(cfg)), Prefix(cfg), SUFFIXES)
    + (Remove(DIVERT) + [Delete(FILTER_FORWARD, FORWARD_ALL)])
  }

  lemma BeforeUnblockOutput(cfg: Config)
    ensures forall c: Command | c in BeforeUnblock(cfg) :: c.chain != FILTER_OUTPUT
  {
    var head, all := CleanupHead(Prefix(cfg)), DetachAll(NonBlank(IfaceList(cfg)), Prefix(cfg), SUFFIXES);
    var tail := Remove(DIVERT) + [Delete(FILTER_FORWARD, FORWARD_ALL)];
    DetachAllIsSweep(NonBlank(IfaceList(cfg)), Prefix(cfg), SUFFIXES);
    hide DetachAll, NonBlank, IfaceList, Prefix, HookMatches, DaemonName;
    Members3(head, all, tail);
    forall c: Command | c in all ensures c.chain != FILTER_OUTPUT {
      if c.Delete? {
        DetachAllRules(cfg, c.chain, c.rule);
      }
      assert SweepCommand(c);
    }
  }

  // However many copies of the QUIC rules have piled up in filter OUTPUT, a cleanup removes four of each, or
  // all if there are fewer, and leaves the other rules in their order.
  lemma CleanupOfStackedRules(k: Kernel, cfg: Config, t: Tables)
    requires FILTER_OUTPUT in t
    ensures var s := Run(k, t, CleanupProgram(cfg));
            && FILTER_OUTPUT in s
            && (forall r | r in QUIC :: Copies(s[FILTER_OUTPUT], r) == Minus(Copies(t[FILTER_OUTPUT], r), 4))
            && Except(s[FILTER_OUTPUT], QUIC) == Except(t[FILTER_OUTPUT], QUIC)
  {
    BeforeUnblockOutput(cfg);
    var unblock := UnblockPort(443) + UnblockPort(80);
    assert CleanupProgram(cfg) == BeforeUnblock(cfg) + unblock by { hide DetachAll, UnblockPort, NonBlank, IfaceList, Prefix; }
    hide *;
    RunConcat(k, t, BeforeUnblock(cfg), unblock);
    Untouched(k, t, BeforeUnblock(cfg), FILTER_OUTPUT);
    var t1 := Run(k, t, BeforeUnblock(cfg));
    UnblockRun(k, t1);
    forall r ensures r in QUIC ==> Copies(Unblocked(t1[FILTER_OUTPUT]), r) == Minus(Copies(t[FILTER_OUTPUT], r), 4) {
      UnblockedCopies(t1[FILTER_OUTPUT], r);
    }
    UnblockedCopies(t1[FILTER_OUTPUT], QuicDrop(443));
  }
}
