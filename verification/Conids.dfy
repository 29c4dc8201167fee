// internal/udpgw: the table of connection ids. Allocation, the touches of the forward and read loops and
// the janitor's sweeps each hold the lock, so a run is any interleaving of them.
module Conids {
  import opened Basics
  import Frames

  type Ip = i: int | 0 <= i < IPS

  type Port = p: int | 1 <= p <= 65535 witness 1

  datatype Source = Source(ip: Ip, port: Port)

  // last is conidSeq, a uint16. Times are in seconds.
  datatype Table = Table(last: nat, src: map<nat, Source>, idle: map<nat, int>)

  const IPS := 0x1_0000_0000
  const IDLE_TIMEOUT := 120
  const CONIDS := 65535

  // conidSeq++, with 0 skipped when it wraps.
  function Next(last: nat): nat {
    var next := (last + 1) % 0x1_0000;
    if next == 0 then 1 else next
  }

  ghost predicate Unused(t: Table, s: Source) {
    forall id | id in t.src :: t.src[id] != s
  }

  // id may be what allocateConid returns for s: the conid of s if it has one, in the map's own order, or
  // the next one.
  ghost predicate Chosen(t: Table, s: Source, id: nat) {
    if Unused(t, s) then id == Next(t.last) else id in t.src && t.src[id] == s
  }

  ghost function Allocated(t: Table, s: Source, id: nat, now: int): Table {
    if Unused(t, s) then Table(id, t.src[id := s], t.idle[id := now]) else t.(idle := t.idle[id := now])
  }

  function Without(t: Table, ids: set<nat>): Table {
    t.(src := t.src - ids, idle := t.idle - ids)
  }

  predicate Dead(t: Table, id: nat, now: int) {
    id in t.idle && now - t.idle[id] > IDLE_TIMEOUT
  }

  // The janitor deletes what was idle for more than two minutes.
  function Swept(t: Table, now: int): Table {
    Without(t, set id | id in t.idle && Dead(t, id, now))
  }

  lemma WithoutOneMore(t: Table, ids: set<nat>, id: nat)
    ensures Without(t, ids + {id}) == Without(Without(t, ids), {id})
  {
    assert t.src - (ids + {id}) == t.src - ids - {id};
    assert t.idle - (ids + {id}) == t.idle - ids - {id};
  }

  // In the middle of a sweep: ids are still to be looked at, and dead are those found dead.
  ghost predicate Scanned(t: Table, dead: set<nat>, ids: set<nat>, now: int) {
    ids <= t.idle.Keys && forall k :: k in dead <==> k !in ids && Dead(t, k, now)
  }

  lemma NothingScanned(t: Table, ids: set<nat>, now: int)
    requires ids == t.idle.Keys
    ensures Scanned(t, {}, ids, now) && Without(t, {}) == t
  {
  }

  lemma ScanOne(t: Table, dead: set<nat>, ids: set<nat>, k: nat, now: int)
    requires Scanned(t, dead, ids, now) && k in ids
    ensures var u := Without(t, dead);
            && k in u.idle
            && Scanned(t, if now - u.idle[k] > IDLE_TIMEOUT then dead + {k} else dead, ids - {k}, now)
            && Table(u.last, u.src - {k}, u.idle - {k}) == Without(t, dead + {k})
  {
    WithoutOneMore(t, dead, k);
  }

  lemma AllDead(t: Table, dead: set<nat>, now: int)
    requires Scanned(t, dead, {}, now)
    ensures Without(t, dead) == Swept(t, now)
  {
    hide Without;
    assert dead == set id | id in t.idle && Dead(t, id, now);
  }

  ghost predicate Inv(t: Table) {
    && t.last <= CONIDS
    && (forall id | id in t.idle :: 1 <= id <= CONIDS)
    && t.src.Keys <= t.idle.Keys
    && (forall i, j | i in t.src && j in t.src && t.src[i] == t.src[j] :: i == j)
  }

  // A sweep drops exactly what was silent for more than two minutes.
  lemma SweptKeepsInv(t: Table, now: int)
    requires Inv(t)
    ensures Inv(Swept(t, now))
    ensures forall id :: id in Swept(t, now).src <==> id in t.src && now - t.idle[id] <= 120
    ensures forall id | id in Swept(t, now).src :: Swept(t, now).src[id] == t.src[id]
  {
  }

  // --- The table -------------------------------------------------------------------------------------------

  class Server {
    var conidSeq: nat
    var srcByID: map<nat, Source>
    var idleByID: map<nat, int>

    ghost function Contents(): Table
      reads this
    {
      Table(conidSeq, srcByID, idleByID)
    }

    constructor ()
      ensures Contents() == Table(0, map[], map[])
    {
      conidSeq, srcByID, idleByID := 0, map[], map[];
    }

    method AllocateConid(src: Source, now: int) returns (id: nat)
      requires Inv(Contents())
      modifies this
      ensures Inv(Contents())
      ensures Chosen(old(Contents()), src, id) && Contents() == Allocated(old(Contents()), src, id, now)
      ensures id in srcByID && srcByID[id] == src
    {
      var ids := srcByID.Keys;
      while ids != {}
        invariant ids <= srcByID.Keys && Contents() == old(Contents())
        invariant forall k | k in srcByID && k !in ids :: srcByID[k] != src
        decreases |ids|
      {
        var k :| k in ids;
        if srcByID[k] == src {
          idleByID := idleByID[k := now];
          return k;
        }
        ids := ids - {k};
      }
      conidSeq := (conidSeq + 1) % 0x1_0000;
      if conidSeq == 0 {
        conidSeq := 1;
      }
      id := conidSeq;
      srcByID := srcByID[id := src];
      idleByID := idleByID[id := now];
    }

    // The forward loop, after it wrote a frame: unconditional.
    method TouchForward(id: nat, now: int)
      requires Inv(Contents()) && 1 <= id <= CONIDS
      modifies this`idleByID
      ensures Inv(Contents())
      ensures Contents() == old(Contents()).(idle := old(idleByID)[id := now])
    {
      idleByID := idleByID[id := now];
    }

    // The read loop, for a frame from the server: only if the conid is mapped.
    method TouchRead(id: nat, now: int) returns (src: Option<Source>)
      requires Inv(Contents())
      modifies this`idleByID
      ensures Inv(Contents())
      ensures src == if id in srcByID then Some(srcByID[id]) else None
      ensures Contents() == if src.Some? then old(Contents()).(idle := old(idleByID)[id := now]) else old(Contents())
    {
      if id in srcByID {
        idleByID := idleByID[id := now];
        return Some(srcByID[id]);
      }
      return None;
    }

    // One tick of the janitor. It deletes from the maps while it ranges over one.
    method Sweep(now: int)
      requires Inv(Contents())
      modifies this`srcByID, this`idleByID
      ensures Inv(Contents())
      ensures Contents() == Swept(old(Contents()), now)
    {
      var ids := idleByID.Keys;
      ghost var t, dead := Contents(), {};
      NothingScanned(t, ids, now);
      SweptKeepsInv(t, now);
      hide *;
      while ids != {}
        invariant Contents() == Without(t, dead) && Scanned(t, dead, ids, now)
        decreases |ids|
      {
        var k :| k in ids;
        ScanOne(t, dead, ids, k, now);
        if now - idleByID[k] > IDLE_TIMEOUT {
          srcByID, idleByID := srcByID - {k}, idleByID - {k};
          dead := dead + {k};
        }
        ids := ids - {k};
      }
      AllDead(t, dead, now);
    }
  }

  // --- Runs ------------------------------------------------------------------------------------------------

  datatype Event =
    | Alloc(source: Source, id: nat, now: int)
    | Forwarded(id: nat, now: int)
    | Returned(id: nat, now: int)
    | Sweep(now: int)

  // issued: the sources that got a new conid, in order.
  datatype State = State(table: Table, clock: int, issued: seq<Source>)

  const Init := State(Table(0, map[], map[]), 0, [])

  // The conid of the k-th new allocation, counted from 0.
  function Nth(k: nat): (id: nat)
    ensures 1 <= id <= CONIDS
  {
    k % CONIDS + 1
  }

  // A forwarder touches a conid that an allocation gave it, however long ago.
  ghost predicate Can(s: State, e: Event) {
    && s.clock <= e.now
    && (e.Alloc? ==> Chosen(s.table, e.source, e.id))
    && (e.Forwarded? ==> exists k | 0 <= k < |s.issued| :: Nth(k) == e.id)
  }

  ghost function After(s: State, e: Event): State {
    match e
    case Alloc(source, id, now) =>
      State(Allocated(s.table, source, id, now), now, if Unused(s.table, source) then s.issued + [source] else s.issued)
    case Forwarded(id, now) => s.(table := s.table.(idle := s.table.idle[id := now]), clock := now)
    case Returned(id, now) =>
      s.(table := if id in s.table.src then s.table.(idle := s.table.idle[id := now]) else s.table, clock := now)
    case Sweep(now) => s.(table := Swept(s.table, now), clock := now)
  }

  ghost function Exec(es: seq<Event>): Option<State> {
    if es == [] then Some(Init)
    else
      var prev := Exec(es[..|es| - 1]);
      if prev.Some? && Can(prev.value, es[|es| - 1]) then Some(After(prev.value, es[|es| - 1])) else None
  }

  // --- Invariants of a run ---------------------------------------------------------------------------------

  ghost predicate InTurn(s: State) {
    s.table.last == (if s.issued == [] then 0 else Nth(|s.issued| - 1))
  }

  // A mapped conid is mapped to the source of its last issue, among the last 65535.
  ghost predicate Held(s: State) {
    forall id, k | id in s.table.src && 0 <= k < |s.issued| <= k + CONIDS && Nth(k) == id :: s.table.src[id] == s.issued[k]
  }

  ghost predicate OnceIssued(s: State) {
    forall id | id in s.table.src :: exists k | 0 <= k < |s.issued| :: Nth(k) == id
  }

  ghost predicate RunInv(s: State) {
    Inv(s.table) && InTurn(s) && Held(s) && OnceIssued(s)
  }

  lemma NextIsNth(k: nat)
    ensures Next(Nth(k)) == Nth(k + 1) && Next(0) == Nth(0)
  {
  }

  lemma SameTurn(i: nat, j: nat)
    requires i <= j
    ensures Nth(i) == Nth(j) <==> (j - i) % CONIDS == 0
  {
    assert i == i / CONIDS * CONIDS + i % CONIDS;
    assert j == j / CONIDS * CONIDS + j % CONIDS;
  }

  lemma NewConid(s: State, source: Source, id: nat)
    requires InTurn(s) && Unused(s.table, source) && Chosen(s.table, source, id)
    ensures id == Nth(|s.issued|)
  {
    if s.issued != [] {
      NextIsNth(|s.issued| - 1);
    } else {
      NextIsNth(0);
    }
  }

  lemma StepKeepsTable(s: State, e: Event)
    requires Inv(s.table) && InTurn(s) && Can(s, e)
    ensures Inv(After(s, e).table) && InTurn(After(s, e))
  {
    if e.Alloc? && Unused(s.table, e.source) {
      NewConid(s, e.source, e.id);
    }
    hide Next, Nth;
  }

  lemma StepKeepsHeld(s: State, e: Event)
    requires Held(s) && InTurn(s) && Can(s, e)
    ensures Held(After(s, e))
  {
    var s' := After(s, e);
    forall id, k | id in s'.table.src && 0 <= k < |s'.issued| <= k + CONIDS && Nth(k) == id
      ensures s'.table.src[id] == s'.issued[k]
    {
      if e.Alloc? && Unused(s.table, e.source) && e.id == id {
        NewConid(s, e.source, id);
        SameTurn(k, |s.issued|);
      } else if e.Alloc? && Unused(s.table, e.source) {
        NewConid(s, e.source, e.id);
        assert k < |s.issued|;
      }
    }
  }

  lemma StepKeepsIssued(s: State, e: Event)
    requires OnceIssued(s) && InTurn(s) && Can(s, e)
    ensures OnceIssued(After(s, e))
  {
    var s' := After(s, e);
    forall id | id in s'.table.src ensures exists k | 0 <= k < |s'.issued| :: Nth(k) == id {
      if e.Alloc? && Unused(s.table, e.source) && e.id == id {
        NewConid(s, e.source, id);
        assert |s.issued| < |s'.issued|;
      } else {
        assert id in s.table.src;
        var k :| 0 <= k < |s.issued| && Nth(k) == id;
        assert k < |s'.issued|;
      }
    }
  }

  lemma {:induction false} RunKeepsInv(es: seq<Event>)
    requires Exec(es).Some?
    ensures RunInv(Exec(es).value)
  {
    if es != [] {
      var before, e := es[..|es| - 1], es[|es| - 1];
      RunKeepsInv(before);
      var s := Exec(before).value;
      StepKeepsTable(s, e);
      StepKeepsHeld(s, e);
      StepKeepsIssued(s, e);
      hide Inv, InTurn, Held, OnceIssued, Can, After;
    }
  }

  // The conid that an event is about, and the time it gives.
  predicate Touches(s: State, e: Event, id: nat) {
    && (e.Alloc? || e.Forwarded? || e.Returned?) && e.id == id
    && (e.Forwarded? || e.Returned? ==> id in s.table.src)
  }

  // A conid that is handed out or used keeps its source through every sweep of the next two minutes, and no
  // longer if it is not used again.
  lemma KeptWhileUsed(s: State, e: Event, id: nat, later: int)
    requires Inv(s.table) && InTurn(s) && Can(s, e) && Touches(s, e, id)
    ensures var t, u := After(s, e), After(After(s, e), Event.Sweep(later));
            && id in t.table.src
            && (id in u.table.src <==> later - e.now <= 120)
            && (id in u.table.src ==> u.table.src[id] == t.table.src[id])
            && (e.Alloc? ==> t.table.src[id] == e.source) && (!e.Alloc? ==> t.table.src == s.table.src)
  {
    StepKeepsTable(s, e);
    SweptKeepsInv(After(s, e).table, later);
    hide Inv, InTurn, Swept, Next;
  }

  // --- Main results ------------------------------------------------------------------------------------------

  // After any run: conids are non-zero, every mapped conid has an idle entry for the janitor to find, and
  // no two conids share a source.
  lemma {:induction false} TableInvariant(es: seq<Event>)
    requires Exec(es).Some?
    ensures var t := Exec(es).value.table;
            && (forall id | id in t.src :: 1 <= id <= CONIDS && id in t.idle)
            && (forall i, j | i in t.src && j in t.src && t.src[i] == t.src[j] :: i == j)
  {
    RunKeepsInv(es);
    hide Exec;
  }

  ghost function Count(es: seq<Event>): nat
    requires Exec(es).Some?
  {
    |Exec(es).value.issued|
  }

  // The run ends with an allocation for a source that had no conid.
  ghost predicate EndsWithNew(es: seq<Event>) {
    && es != [] && es[|es| - 1].Alloc? && Exec(es).Some?
    && Unused(Exec(es[..|es| - 1]).value.table, es[|es| - 1].source)
  }

  lemma {:induction false} NewIsNth(es: seq<Event>)
    requires EndsWithNew(es)
    ensures Count(es) > 0 && es[|es| - 1].id == Nth(Count(es) - 1)
  {
    var before, e := es[..|es| - 1], es[|es| - 1];
    RunKeepsInv(before);
    NewConid(Exec(before).value, e.source, e.id);
    hide Next, Nth;
  }

  // Two new allocations get the same conid if and only if a whole number of turns lies between them, so a
  // conid is not issued again in the next 65534.
  lemma {:induction false} ReissuedAfterWholeTurns(es: seq<Event>, es': seq<Event>)
    requires EndsWithNew(es) && EndsWithNew(es') && Count(es) <= Count(es')
    ensures es[|es| - 1].id == es'[|es'| - 1].id <==> (Count(es') - Count(es)) % CONIDS == 0
  {
    NewIsNth(es);
    NewIsNth(es');
    SameTurn(Count(es) - 1, Count(es') - 1);
    hide Exec, Nth, Unused;
  }

  // Until a whole turn after a conid was given to a source, it stands for that source or for none, so what
  // comes back for it reaches nobody else.
  lemma {:induction false} NobodyElsesReply(es: seq<Event>, k: nat)
    requires Exec(es).Some? && k < |Exec(es).value.issued| <= k + CONIDS
    ensures var s := Exec(es).value; Nth(k) in s.table.src ==> s.table.src[Nth(k)] == s.issued[k]
  {
    RunKeepsInv(es);
    hide Exec;
  }

  // Sources with different addresses, as long as there are any.
  function Client(k: nat): Source {
    Source(k % IPS, 1)
  }

  lemma ClientsDiffer(i: nat, j: nat)
    requires i < j < i + IPS
    ensures Client(i) != Client(j)
  {
    var d := j - i;
    assert j % IPS == (i % IPS + d) % IPS;
  }

  // n allocations for n sources, and no sweep.
  function Churn(n: nat): seq<Event> {
    if n == 0 then [] else Churn(n - 1) + [Alloc(Client(n - 1), Nth(n - 1), 0)]
  }

  // Every mapped conid was given out in the last turn, to the source it stands for.
  ghost predicate Recent(s: State) {
    forall id | id in s.table.src :: RecentAt(s.table.src, s.issued, id)
  }

  ghost predicate Churned(s: State, n: nat) {
    && |s.issued| == n && s.clock == 0 && InTurn(s) && Recent(s)
    && (forall k: nat | k < n :: s.issued[k] == Client(k) && Nth(k) in s.table.src)
  }

  lemma NextClientIsNew(s: State, n: nat)
    requires Churned(s, n)
    ensures Unused(s.table, Client(n))
  {
    hide Client, Nth;
    forall id | id in s.table.src ensures s.table.src[id] != Client(n) {
      assert RecentAt(s.table.src, s.issued, id);
      var k: nat :| k < n <= k + CONIDS && s.table.src[id] == s.issued[k];
      ClientsDiffer(k, n);
    }
  }

  lemma NextIsChosen(s: State)
    requires InTurn(s)
    ensures Next(s.table.last) == Nth(|s.issued|)
  {
    NextIsNth(if s.issued == [] then 0 else |s.issued| - 1);
  }

  ghost predicate RecentAt(src: map<nat, Source>, issued: seq<Source>, id: nat) {
    id in src && exists k: nat | k < |issued| <= k + CONIDS :: Nth(k) == id && src[id] == issued[k]
  }

  lemma StaysRecentAt(src: map<nat, Source>, issued: seq<Source>, source: Source, id: nat)
    requires RecentAt(src, issued, id) && id != Nth(|issued|)
    ensures RecentAt(src[Nth(|issued|) := source], issued + [source], id)
  {
    var k: nat :| k < |issued| <= k + CONIDS && Nth(k) == id && src[id] == issued[k];
    SameTurn(k, |issued|);
    hide Nth;
    assert (issued + [source])[k] == issued[k];
  }

  lemma NewIsRecent(src: map<nat, Source>, issued: seq<Source>, source: Source)
    ensures RecentAt(src[Nth(|issued|) := source], issued + [source], Nth(|issued|))
  {
    hide Nth;
    assert (issued + [source])[|issued|] == source;
  }

  lemma StaysRecent(s: State, source: Source)
    requires Recent(s)
    ensures Recent(State(Table(Nth(|s.issued|), s.table.src[Nth(|s.issued|) := source], s.table.idle), s.clock, s.issued + [source]))
  {
    NewIsRecent(s.table.src, s.issued, source);
    hide RecentAt, Nth;
    forall id | id in s.table.src && id != Nth(|s.issued|)
      ensures RecentAt(s.table.src[Nth(|s.issued|) := source], s.issued + [source], id)
    {
      StaysRecentAt(s.table.src, s.issued, source, id);
    }
  }

  lemma ChurnStep(s: State, n: nat)
    requires Churned(s, n)
    ensures var e := Alloc(Client(n), Nth(n), 0); Can(s, e) && Churned(After(s, e), n + 1)
  {
    NextClientIsNew(s, n);
    NextIsChosen(s);
    StaysRecent(s, Client(n));
    hide Unused, Next, Nth, Client;
    var s' := After(s, Alloc(Client(n), Nth(n), 0));
    assert s'.table.src == s.table.src[Nth(n) := Client(n)];
    assert Recent(s') by {
      hide Client;
    }
  }

  lemma OneMore(es: seq<Event>, e: Event)
    requires Exec(es).Some? && Can(Exec(es).value, e)
    ensures Exec(es + [e]) == Some(After(Exec(es).value, e))
  {
    hide Can, After;
    assert (es + [e])[..|es + [e]| - 1] == es;
  }

  lemma {:induction false} ChurnRuns(n: nat)
    ensures Exec(Churn(n)).Some? && Churned(Exec(Churn(n)).value, n)
  {
    hide Churned, Can, After, Nth, Client;
    if n == 0 {
      NoneChurned();
    } else {
      ChurnRuns(n - 1);
      ChurnStep(Exec(Churn(n - 1)).value, n - 1);
      OneMore(Churn(n - 1), Alloc(Client(n - 1), Nth(n - 1), 0));
      hide Exec;
    }
  }

  lemma NoneChurned()
    ensures Churned(Init, 0)
  {
  }

  // The bound is sharp: one more new allocation can hand the replies of one source to another.
  lemma SomebodyElsesReply(k: nat)
    ensures var es := Churn(k + CONIDS + 1);
            && Exec(es).Some? && Count(es) == k + CONIDS + 1
            && var s := Exec(es).value; Nth(k) in s.table.src && s.table.src[Nth(k)] != s.issued[k]
  {
    var es := Churn(k + CONIDS + 1);
    ChurnRuns(k + CONIDS + 1);
    RunKeepsInv(es);
    SameTurn(k, k + CONIDS);
    ClientsDiffer(k, k + CONIDS);
    hide Exec, Churn, Nth, Client;
    assert Exec(es).value.issued[k] == Client(k);
  }

  lemma LastOfATurn()
    ensures Nth(CONIDS - 1) == Frames.KEEPALIVE_CONID
  {
  }

  // The keepalive's conid can be mapped to a source, which then gets what answers the keepalives, after n
  // new allocations if and only if n is at least 65535.
  lemma {:induction false} KeepaliveConidTaken(n: nat)
    ensures (exists es :: Exec(es).Some? && Count(es) == n && Frames.KEEPALIVE_CONID in Exec(es).value.table.src) <==> n >= CONIDS
  {
    hide Exec, Count;
    if es :| Exec(es).Some? && Count(es) == n && Frames.KEEPALIVE_CONID in Exec(es).value.table.src {
      KeepaliveConidLate(es);
    }
    if n >= CONIDS {
      KeepaliveConidInChurn(n);
    }
  }

  lemma KeepaliveConidLate(es: seq<Event>)
    requires Exec(es).Some? && Frames.KEEPALIVE_CONID in Exec(es).value.table.src
    ensures Count(es) >= CONIDS
  {
    RunKeepsInv(es);
    hide Exec, Held;
    var s := Exec(es).value;
    var k :| 0 <= k < |s.issued| && Nth(k) == Frames.KEEPALIVE_CONID;
    assert k >= CONIDS - 1;
  }

  lemma KeepaliveConidInChurn(n: nat)
    requires n >= CONIDS
    ensures var es := Churn(n); Exec(es).Some? && Count(es) == n && Frames.KEEPALIVE_CONID in Exec(es).value.table.src
  {
    ChurnRuns(n);
    LastOfATurn();
    hide Exec, Churn, Nth, Recent, InTurn;
    assert Nth(CONIDS - 1) in Exec(Churn(n)).value.table.src;
  }
}
