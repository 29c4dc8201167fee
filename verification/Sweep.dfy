// Sweep programs: the -D / -F / -X command lists by which the daemon and its shell script remove
// their rules. One theorem, SweepErases, says what any such program computes; Polite programs are
// the ones whose effect a sweep can undo.
module Sweep {
  import opened Netfilter

  ghost predicate Owns(p: seq<Command>, ch: Chain) {
    Destroy(ch) in p
  }

  // The rules a sweep never deletes.
  ghost function Keep(p: seq<Command>, ch: Chain, rs: seq<Rule>): seq<Rule> {
    if rs == [] then []
    else if Delete(ch, rs[0]) in p then Keep(p, ch, rs[1..])
    else [rs[0]] + Keep(p, ch, rs[1..])
  }

  // The tables without the chains that p destroys and without the rules that p deletes.
  ghost function Erase(p: seq<Command>, t: Tables): Tables {
    map ch | ch in t && !Owns(p, ch) :: Keep(p, ch, t[ch])
  }

  // p[i] destroys a chain only after flushing it and after deleting every hook of p that jumps to it.
  ghost predicate DestroyIsReady(p: seq<Command>, i: nat)
    requires i < |p| && p[i].Destroy?
  {
    && Flush(p[i].chain) in p[..i]
    && forall d, r | Delete(d, r) in p && d.table == p[i].chain.table && r.target.Jump?
                     && User(d.table, r.target.name) == p[i].chain :: Delete(d, r) in p[..i]
  }

  ghost predicate Ordered(p: seq<Command>) {
    forall i: nat | i < |p| && p[i].Destroy? :: DestroyIsReady(p, i)
  }

  ghost predicate SweepCommand(c: Command) {
    match c
    case Delete(ch, _) => ch.Builtin?
    case Flush(ch) => ch.User?
    case Destroy(ch) => ch.User?
    case _ => false
  }

  ghost predicate IsSweep(p: seq<Command>) {
    && (forall c | c in p :: SweepCommand(c))
    && (forall ch :: Flush(ch) in p ==> Destroy(ch) in p)
    && Ordered(p)
  }

  ghost predicate Once(rs: seq<Rule>, r: Rule) {
    forall i, j | 0 <= i < j < |rs| :: !(rs[i] == r && rs[j] == r)
  }

  // A state the sweep can clear: no deletable rule is stacked twice, and the only rules that jump
  // to an owned chain are the hooks that p deletes.
  ghost predicate Tidy(p: seq<Command>, t: Tables) {
    && (forall ch, r | ch in t && Delete(ch, r) in p :: Once(t[ch], r))
    && (forall ch, r | ch in t && r in t[ch] && r.target.Jump? && Owns(p, User(ch.table, r.target.name)) ::
          Delete(ch, r) in p)
  }

  // No trace of the owner: nothing in t that p would remove.
  ghost predicate Clean(p: seq<Command>, t: Tables) {
    && (forall ch | ch in t :: !Owns(p, ch))
    && (forall ch, r | ch in t && r in t[ch] :: Delete(ch, r) !in p)
  }

  // --- Keep -------------------------------------------------------------------------------------

  lemma {:induction false} KeepMembers(p: seq<Command>, ch: Chain, rs: seq<Rule>, r: Rule)
    ensures r in Keep(p, ch, rs) <==> r in rs && Delete(ch, r) !in p
  {
    if rs != [] {
      KeepMembers(p, ch, rs[1..], r);
      assert rs == [rs[0]] + rs[1..];
    }
  }

  lemma {:induction false} KeepAll(p: seq<Command>, ch: Chain, rs: seq<Rule>)
    requires forall r | r in rs :: Delete(ch, r) !in p
    ensures Keep(p, ch, rs) == rs
  {
    if rs != [] {
      KeepAll(p, ch, rs[1..]);
    }
  }

  lemma {:induction false} KeepConcat(p: seq<Command>, ch: Chain, a: seq<Rule>, b: seq<Rule>)
    ensures Keep(p, ch, a + b) == Keep(p, ch, a) + Keep(p, ch, b)
  {
    if a == [] {
      assert a + b == b;
    } else {
      KeepConcat(p, ch, a[1..], b);
      assert (a + b)[0] == a[0] && (a + b)[1..] == a[1..] + b;
      var rest, tail := Keep(p, ch, a[1..]), Keep(p, ch, b);
      assert [a[0]] + rest + tail == [a[0]] + (rest + tail);
    }
  }

  lemma {:induction false} RemoveFirstAbsent(rs: seq<Rule>, r: Rule)
    requires r !in rs
    ensures RemoveFirst(rs, r) == rs
  {
    if rs != [] {
      RemoveFirstAbsent(rs[1..], r);
    }
  }

  // Removing a deletable rule is invisible to Keep.
  lemma {:induction false} KeepRemoveFirst(p: seq<Command>, ch: Chain, rs: seq<Rule>, r: Rule)
    requires Delete(ch, r) in p
    ensures Keep(p, ch, RemoveFirst(rs, r)) == Keep(p, ch, rs)
  {
    if rs != [] && rs[0] != r {
      KeepRemoveFirst(p, ch, rs[1..], r);
      var rest := RemoveFirst(rs[1..], r);
      assert ([rs[0]] + rest)[1..] == rest;
    }
  }

  lemma {:induction false} RemoveFirstMembers(rs: seq<Rule>, r: Rule, x: Rule)
    ensures x in RemoveFirst(rs, r) ==> x in rs
    ensures x != r && x in rs ==> x in RemoveFirst(rs, r)
    ensures Once(rs, r) ==> r !in RemoveFirst(rs, r)
  {
    if rs != [] {
      assert rs == [rs[0]] + rs[1..];
      if rs[0] == r {
        assert Once(rs, r) ==> forall j | 0 < j < |rs| :: rs[j] != r;
      } else {
        assert Once(rs, r) ==> Once(rs[1..], r);
        RemoveFirstMembers(rs[1..], r, x);
      }
    }
  }

  lemma {:induction false} RemoveFirstOnce(rs: seq<Rule>, r: Rule, x: Rule)
    requires Once(rs, x)
    ensures Once(RemoveFirst(rs, r), x)
  {
    if rs != [] {
      assert Once(rs[1..], x);
      if rs[0] != r {
        RemoveFirstOnce(rs[1..], r, x);
        var rest := RemoveFirst(rs[1..], r);
        if rs[0] == x {
          RemoveFirstMembers(rs[1..], r, x);
          assert forall j | 0 < j < |rs| :: rs[j] != x;
          assert x !in rs[1..];
        }
      }
    }
  }

  // Deleting r, once present at most, extends the set of kept-out rules by r.
  lemma {:induction false} KeepOneMore(p: seq<Command>, ch: Chain, rs: seq<Rule>, r: Rule)
    requires Once(rs, r)
    ensures Keep(p + [Delete(ch, r)], ch, rs) == RemoveFirst(Keep(p, ch, rs), r)
    decreases rs
  {
    var q := p + [Delete(ch, r)];
    if rs != [] {
      var rest := rs[1..];
      assert Once(rest, r);
      KeepOneMore(p, ch, rest, r);
      if rs[0] == r {
        assert r !in rest by { assert forall j | 0 < j < |rs| :: rs[j] != r; }
        KeepMembers(p, ch, rest, r);
        RemoveFirstAbsent(Keep(p, ch, rest), r);
        if Delete(ch, r) !in p {
          assert ([r] + Keep(p, ch, rest))[1..] == Keep(p, ch, rest);
        }
      } else if Delete(ch, rs[0]) !in p {
        var kept := [rs[0]] + Keep(p, ch, rest);
        assert kept[0] == rs[0] && kept[1..] == Keep(p, ch, rest);
      }
    }
  }

  lemma {:induction false} KeepSame(p: seq<Command>, q: seq<Command>, ch: Chain, rs: seq<Rule>)
    requires forall r | r in rs :: Delete(ch, r) in p <==> Delete(ch, r) in q
    ensures Keep(p, ch, rs) == Keep(q, ch, rs)
  {
    if rs != [] {
      KeepSame(p, q, ch, rs[1..]);
    }
  }

  // --- What a sweep computes --------------------------------------------------------------------

  // The state after the first commands q of a sweep.
  ghost function Partial(q: seq<Command>, t: Tables): Tables {
    map ch | ch in t && Destroy(ch) !in q :: if Flush(ch) in q then [] else Keep(q, ch, t[ch])
  }

  lemma PartialDelete(k: Kernel, p: seq<Command>, q: seq<Command>, t: Tables, ch: Chain, r: Rule)
    requires ch.Builtin? && Delete(ch, r) in p
    requires Tidy(p, t)
    requires forall c | c in q :: SweepCommand(c)
    ensures Step(k, Partial(q, t), Delete(ch, r)).0 == Partial(q + [Delete(ch, r)], t)
  {
    hide Keep, Once, RemoveFirst;
    var q' := q + [Delete(ch, r)];
    var s := Partial(q, t);
    forall d | d in t && d != ch ensures Keep(q', d, t[d]) == Keep(q, d, t[d]) {
      KeepSame(q', q, d, t[d]);
    }
    if ch in t {
      KeepOneMore(q, ch, t[ch], r);
      if r !in s[ch] {
        RemoveFirstAbsent(s[ch], r);
      }
    }
  }

  lemma PartialFlush(k: Kernel, q: seq<Command>, t: Tables, ch: Chain)
    ensures Step(k, Partial(q, t), Flush(ch)).0 == Partial(q + [Flush(ch)], t)
  {
    var q' := q + [Flush(ch)];
    forall d | d in t ensures Keep(q', d, t[d]) == Keep(q, d, t[d]) {
      KeepSame(q', q, d, t[d]);
    }
  }

  // When its turn to be destroyed comes, an owned chain is referenced by no rule.
  lemma NotReferenced(p: seq<Command>, i: nat, t: Tables)
    requires i < |p| && p[i].Destroy? && p[i].chain.User?
    requires DestroyIsReady(p, i) && Tidy(p, t)
    ensures !Referenced(Partial(p[..i], t), p[i].chain)
  {
    var q, ch := p[..i], p[i].chain;
    var s := Partial(q, t);
    forall d, r: Rule | d in s && r in s[d] && d.table == ch.table
      ensures r.target != Jump(ch.name)
    {
      KeepMembers(q, d, t[d], r);
      assert r in t[d] && Delete(d, r) !in q;
      assert Destroy(ch) in p;
    }
  }

  lemma DestroyStep(k: Kernel, s: Tables, ch: Chain)
    requires ch.User? && !Referenced(s, ch)
    requires ch in s ==> s[ch] == []
    ensures Step(k, s, Destroy(ch)).0 == s - {ch}
  {
  }

  // Destroying one chain of a partial state, leaving the others alone.
  lemma PartialWithout(q: seq<Command>, t: Tables, ch: Chain)
    ensures Partial(q + [Destroy(ch)], t) == Partial(q, t) - {ch}
  {
    var q' := q + [Destroy(ch)];
    forall d | d in t ensures Keep(q', d, t[d]) == Keep(q, d, t[d]) {
      KeepSame(q', q, d, t[d]);
    }
  }

  lemma PartialDestroy(k: Kernel, p: seq<Command>, i: nat, t: Tables)
    requires i < |p| && p[i].Destroy? && p[i].chain.User?
    requires DestroyIsReady(p, i) && Tidy(p, t)
    ensures Step(k, Partial(p[..i], t), p[i]).0 == Partial(p[..i] + [p[i]], t)
  {
    hide Step, Tidy, Keep;
    NotReferenced(p, i, t);
    DestroyStep(k, Partial(p[..i], t), p[i].chain);
    PartialWithout(p[..i], t, p[i].chain);
  }

  lemma {:induction false} SweepPrefix(k: Kernel, p: seq<Command>, n: nat, t: Tables)
    requires n <= |p| && IsSweep(p) && Tidy(p, t)
    ensures Run(k, t, p[..n]) == Partial(p[..n], t)
  {
    if n == 0 {
      forall ch | ch in t ensures Keep([], ch, t[ch]) == t[ch] {
        KeepAll([], ch, t[ch]);
      }
    } else {
      var q, c := p[..n - 1], p[n - 1];
      SweepPrefix(k, p, n - 1, t);
      assert p[..n] == q + [c];
      RunSnoc(k, t, q, c);
      assert c in p && SweepCommand(c);
      assert forall x | x in q :: x in p && SweepCommand(x);
      match c {
        case Delete(ch, r) => PartialDelete(k, p, q, t, ch, r);
        case Flush(ch) => PartialFlush(k, q, t, ch);
        case Destroy(_) => PartialDestroy(k, p, n - 1, t);
      }
    }
  }

  // On every tidy state a sweep removes exactly its own chains and its own rules, whatever order it
  // does so in and however often it repeats itself.
  lemma SweepErases(k: Kernel, p: seq<Command>, t: Tables)
    requires IsSweep(p) && Tidy(p, t)
    ensures Run(k, t, p) == Erase(p, t)
  {
    assert p[..|p|] == p;
    SweepPrefix(k, p, |p|, t);
    assert forall ch | ch in t && Flush(ch) in p :: Owns(p, ch);
  }

  // --- Clean states -----------------------------------------------------------------------------

  lemma CleanIsErased(p: seq<Command>, t: Tables)
    ensures Clean(p, t) <==> Erase(p, t) == t
  {
    if Clean(p, t) {
      forall ch | ch in t ensures Keep(p, ch, t[ch]) == t[ch] {
        KeepAll(p, ch, t[ch]);
      }
    }
    if Erase(p, t) == t {
      forall ch, r | ch in t && r in t[ch] ensures !Owns(p, ch) && Delete(ch, r) !in p {
        assert ch in Erase(p, t);
        KeepMembers(p, ch, t[ch], r);
      }
      forall ch | ch in t ensures !Owns(p, ch) {
        assert ch in Erase(p, t);
      }
    }
  }

  lemma ErasedIsClean(p: seq<Command>, t: Tables)
    ensures Clean(p, Erase(p, t))
  {
    forall ch, r | ch in Erase(p, t) && r in Erase(p, t)[ch] ensures Delete(ch, r) !in p {
      KeepMembers(p, ch, t[ch], r);
    }
  }

  lemma CleanIsTidy(p: seq<Command>, t: Tables)
    requires Clean(p, t) && WellFormed(t)
    ensures Tidy(p, t)
  {
    forall ch, r | ch in t && r in t[ch] && r.target.Jump? ensures !Owns(p, User(ch.table, r.target.name)) {
      assert Resolves(t, ch.table, r);
    }
  }

  lemma ErasedIsTidy(p: seq<Command>, t: Tables)
    requires Tidy(p, t)
    ensures Tidy(p, Erase(p, t))
  {
    var e := Erase(p, t);
    ErasedIsClean(p, t);
    forall ch: Chain, r: Rule | ch in e && r in e[ch] && r.target.Jump?
      ensures !Owns(p, User(ch.table, r.target.name))
    {
      KeepMembers(p, ch, t[ch], r);
    }
  }

  lemma ErasedIsWellFormed(p: seq<Command>, t: Tables)
    requires Tidy(p, t) && WellFormed(t)
    ensures WellFormed(Erase(p, t))
  {
    var e := Erase(p, t);
    forall ch, r | ch in e && r in e[ch] ensures Resolves(e, ch.table, r) {
      KeepMembers(p, ch, t[ch], r);
      assert Resolves(t, ch.table, r);
    }
  }

  // --- Polite programs --------------------------------------------------------------------------

  // A command that only touches what p owns or deletes.
  ghost predicate Confined(p: seq<Command>, c: Command) {
    match c
    case New(ch) => Owns(p, ch)
    case Flush(ch) => Owns(p, ch)
    case Append(ch, r) => Owns(p, ch) && !r.target.Jump?
    case Insert(ch, r) => ch.Builtin? && Delete(ch, r) in p
    case Delete(ch, r) => ch.Builtin? && Delete(ch, r) in p
    case Destroy(ch) => Owns(p, ch)
  }

  // A confined program that inserts a rule only right after deleting its old copy.
  ghost predicate Polite(p: seq<Command>, cs: seq<Command>) {
    cs == [] ||
    var n := |cs| - 1;
    && Polite(p, cs[..n])
    && Confined(p, cs[n])
    && (cs[n].Insert? ==> n > 0 && cs[n - 1] == Delete(cs[n].chain, cs[n].rule))
  }

  lemma {:induction false} PoliteConcat(p: seq<Command>, a: seq<Command>, b: seq<Command>)
    requires Polite(p, a) && Polite(p, b)
    ensures Polite(p, a + b)
  {
    if b == [] {
      assert a + b == a;
    } else {
      var n := |b| - 1;
      PoliteConcat(p, a, b[..n]);
      assert (a + b)[..|a| + n] == a + b[..n];
    }
  }

  lemma StepErase(k: Kernel, p: seq<Command>, t: Tables, c: Command)
    requires Confined(p, c)
    ensures Erase(p, Step(k, t, c).0) == Erase(p, t)
  {
    var t' := Step(k, t, c).0;
    match c {
      case Insert(ch, r) =>
        if ch in t {
          KeepConcat(p, ch, [r], t[ch]);
          assert Keep(p, ch, [r]) == [];
        }
      case Delete(ch, r) =>
        if ch in t {
          KeepRemoveFirst(p, ch, t[ch], r);
        }
      case _ =>
    }
    assert forall ch | ch in t && !Owns(p, ch) :: ch in t' && Keep(p, ch, t'[ch]) == Keep(p, ch, t[ch]);
    assert forall ch | ch in t' && !Owns(p, ch) :: ch in t;
  }

  lemma StepTidy(k: Kernel, p: seq<Command>, t: Tables, c: Command)
    requires forall x | x in p :: SweepCommand(x)
    requires Confined(p, c) && Tidy(p, t)
    requires c.Insert? && c.chain in t ==> c.rule !in t[c.chain]
    ensures Tidy(p, Step(k, t, c).0)
    ensures c.Delete? && c.chain in t ==> c.rule !in Step(k, t, c).0[c.chain]
  {
    var t' := Step(k, t, c).0;
    var deleted := c.Delete? && c.chain in t && c.rule in t[c.chain];
    if deleted {
      RemoveFirstMembers(t[c.chain], c.rule, c.rule);
    }
    forall ch, r | ch in t' && Delete(ch, r) in p ensures Once(t'[ch], r) {
      assert SweepCommand(Delete(ch, r));
      if deleted && ch == c.chain {
        RemoveFirstOnce(t[ch], c.rule, r);
      }
    }
    forall ch: Chain, r: Rule | ch in t' && r in t'[ch] && r.target.Jump? && Owns(p, User(ch.table, r.target.name))
      ensures Delete(ch, r) in p
    {
      if deleted && ch == c.chain {
        RemoveFirstMembers(t[ch], c.rule, r);
      }
    }
  }

  // A polite program changes nothing that p would keep, and leaves a state that p can still clear.
  lemma {:induction false} PoliteRun(k: Kernel, p: seq<Command>, t: Tables, cs: seq<Command>)
    requires forall x | x in p :: SweepCommand(x)
    requires Polite(p, cs) && Tidy(p, t)
    ensures Erase(p, Run(k, t, cs)) == Erase(p, t)
    ensures Tidy(p, Run(k, t, cs))
    ensures cs != [] && cs[|cs| - 1].Delete? && cs[|cs| - 1].chain in Run(k, t, cs)
            ==> cs[|cs| - 1].rule !in Run(k, t, cs)[cs[|cs| - 1].chain]
  {
    if cs != [] {
      var n := |cs| - 1;
      PoliteRun(k, p, t, cs[..n]);
      StepErase(k, p, Run(k, t, cs[..n]), cs[n]);
      StepTidy(k, p, Run(k, t, cs[..n]), cs[n]);
    }
  }
}
