// The kernel's packet-filter tables and the meaning of one iptables command.
//
// A Tables value is one address family: IPv4 (iptables) and IPv6 (ip6tables) each have their own.
module Netfilter {

  datatype Table = Nat | Mangle | Filter

  datatype Hook = Prerouting | Forward | Output

  // Built-in chains always exist and can be neither created nor destroyed. A chain name with an
  // underscore, such as every name the daemon builds from its prefix, never names a built-in chain.
  datatype Chain =
    | Builtin(table: Table, hook: Hook)
    | User(table: Table, name: string)

  datatype Protocol = Tcp | Udp | OtherProtocol

  // An IPv4 prefix; addresses are 32-bit numbers.
  datatype Net = Net(addr: nat, bits: nat)

  datatype Match =
    | To(net: Net)
    | In(iface: string)
    | Out(iface: string)
    | Proto(protocol: Protocol)
    | DPort(port: int)
    | Owner(uid: nat)
    | Unmarked              // -m mark ! --mark 0x1/0x1
    | TransparentSocket     // -m socket --transparent

  datatype Target =
    | Return
    | Accept
    | Drop
    | Reject(with: string)
    | Jump(name: string)
    | Redirect(port: int)
    | Tproxy(port: int)     // --tproxy-mark 0x1/0x1
    | DnatLocal(port: int)  // --to-destination 127.0.0.1:port
    | SetMark               // MARK --set-xmark 0x1/0x1

  // Two rules are equal for -C and -D when they spell the same matches and target.
  datatype Rule = Rule(matches: seq<Match>, target: Target)

  type Tables = map<Chain, seq<Rule>>

  datatype Command =
    | New(chain: Chain)                  // -N
    | Flush(chain: Chain)                // -F
    | Append(chain: Chain, rule: Rule)   // -A
    | Insert(chain: Chain, rule: Rule)   // -I
    | Delete(chain: Chain, rule: Rule)   // -D
    | Destroy(chain: Chain)              // -X

  // Which -N, -A and -I commands this kernel supports: a missing match or target module, a name
  // that is too long, or an address it cannot parse make it refuse.
  type Kernel = Command -> bool

  // A jump resolves to a user chain of the same table.
  predicate Resolves(t: Tables, table: Table, r: Rule) {
    r.target.Jump? ==> User(table, r.target.name) in t
  }

  predicate Referenced(t: Tables, ch: Chain)
    requires ch.User?
  {
    exists d, r :: d in t && r in t[d] && d.table == ch.table && r.target == Jump(ch.name)
  }

  function RemoveFirst(rs: seq<Rule>, r: Rule): (out: seq<Rule>)
  {
    if rs == [] then [] else if rs[0] == r then rs[1..] else [rs[0]] + RemoveFirst(rs[1..], r)
  }

  // One command: the new tables, and whether the command succeeded.
  function Step(k: Kernel, t: Tables, c: Command): (Tables, bool) {
    match c
    case New(ch) =>
      if ch in t || ch.Builtin? || !k(c) then (t, false) else (t[ch := []], true)
    case Flush(ch) =>
      if ch in t then (t[ch := []], true) else (t, false)
    case Append(ch, r) =>
      if ch in t && Resolves(t, ch.table, r) && k(c) then (t[ch := t[ch] + [r]], true) else (t, false)
    case Insert(ch, r) =>
      if ch in t && Resolves(t, ch.table, r) && k(c) then (t[ch := [r] + t[ch]], true) else (t, false)
    case Delete(ch, r) =>
      if ch in t && r in t[ch] then (t[ch := RemoveFirst(t[ch], r)], true) else (t, false)
    case Destroy(ch) =>
      if ch in t && ch.User? && t[ch] == [] && !Referenced(t, ch) then (t - {ch}, true) else (t, false)
  }

  // A command that fails changes nothing, and these are the ways to fail: a chain is there already, or missing; a
  // jump leads nowhere; a rule is missing; a chain is built in, not empty or still jumped to; or the kernel has
  // no support for the command.
  lemma FailsExactly(k: Kernel, t: Tables, c: Command)
    ensures !Step(k, t, c).1 ==> Step(k, t, c).0 == t
    ensures c.New? ==> (Step(k, t, c).1 <==> c.chain !in t && c.chain.User? && k(c))
    ensures c.Flush? ==> (Step(k, t, c).1 <==> c.chain in t)
    ensures c.Append? || c.Insert? ==> (Step(k, t, c).1 <==> c.chain in t && Resolves(t, c.chain.table, c.rule) && k(c))
    ensures c.Delete? ==> (Step(k, t, c).1 <==> c.chain in t && c.rule in t[c.chain])
    ensures c.Destroy? ==> (Step(k, t, c).1 <==>
              c.chain in t && c.chain.User? && t[c.chain] == []
              && forall d, r | d in t && r in t[d] && d.table == c.chain.table :: r.target != Jump(c.chain.name))
  {
  }

  // A program of commands whose individual failures are ignored.
  function Run(k: Kernel, t: Tables, cs: seq<Command>): Tables {
    if cs == [] then t else Step(k, Run(k, t, cs[..|cs| - 1]), cs[|cs| - 1]).0
  }

  lemma {:induction false} RunConcat(k: Kernel, t: Tables, a: seq<Command>, b: seq<Command>)
    ensures Run(k, t, a + b) == Run(k, Run(k, t, a), b)
  {
    if b == [] {
      assert a + b == a;
    } else {
      var front := b[..|b| - 1];
      assert (a + b)[..|a + b| - 1] == a + front;
      RunConcat(k, t, a, front);
    }
  }

  lemma RunOne(k: Kernel, t: Tables, c: Command)
    ensures Run(k, t, [c]) == Step(k, t, c).0
  {
    assert [c][..0] == [];
  }

  lemma RunSnoc(k: Kernel, t: Tables, cs: seq<Command>, c: Command)
    ensures Run(k, t, cs + [c]) == Step(k, Run(k, t, cs), c).0
  {
    assert (cs + [c])[..|cs|] == cs;
  }

  // The tables a kernel can be in: every jump lands on a user chain of its table.
  ghost predicate WellFormed(t: Tables) {
    forall ch, r :: ch in t && r in t[ch] ==> Resolves(t, ch.table, r)
  }
}
