// What the lifecycle gets done: from every state that a run can reach, a goroutine that may dial comes to serve, and
// starts, stops and restarts come to their ends.
module Progress {
  import opened Basics
  import opened Lifecycle

  ghost predicate Follows(es: seq<Event>, fs: seq<Event>, t: State) {
    Exec(es + fs) == Some(t)
  }

  lemma Then(es: seq<Event>, fs: seq<Event>, gs: seq<Event>)
    ensures (es + fs) + gs == es + (fs + gs)
  {
  }

  // --- Serving ------------------------------------------------------------------------------------------------

  predicate Connected(pc: Pc) {
    pc.Listening? || pc.Applying? || pc.Flagging? || pc.Serving?
  }

  ghost predicate LoopEquipped(s: State, g: nat)
    requires g in s.loops
  {
    var l := s.loops[g];
    && (Connected(l.pc) ==> s.held.client == Some(g) || s.explicitStop)
    && (Connected(l.pc) && !l.pc.Listening? ==> l.listens == 1)
  }

  ghost predicate StopsMarked(s: State) {
    forall id | id in s.requests && (s.requests[id].StopCancel? || s.requests[id].StopClient?) :: s.explicitStop
  }

  ghost predicate Equipped(s: State) {
    StopsMarked(s) && forall g | g in s.loops :: LoopEquipped(s, g)
  }

  lemma ConnectedIsActive(l: Loop)
    ensures Connected(l.pc) ==> Active(l)
  {
  }

  lemma MoveEquips(l: Loop, h: Holding, g: nat, stopped: bool, choice: bool, explicitStop: bool)
    requires Connected(l.pc) ==> h.client == Some(g) || explicitStop
    requires Connected(l.pc) && !l.pc.Listening? ==> l.listens == 1
    requires Active(l) ==> Holds(l, h)
    requires l.listens <= 1
    ensures var l', h' := NextLoop(l, h, stopped, choice), NextHolding(l, h, g, choice);
            && (Connected(l'.pc) ==> h'.client == Some(g) || explicitStop)
            && (Connected(l'.pc) && !l'.pc.Listening? ==> l'.listens == 1)
  {
  }

  lemma MoveKeepsEquipped(s: State, g: nat, choice: bool)
    requires Inv(s) && Equipped(s) && Can(s, Move(g, choice))
    ensures Equipped(MoveStep(s, g, choice))
  {
    var s' := MoveStep(s, g, choice);
    ReasonsOf(s, g);
    Known(s.loops[g]);
    MoveEquips(s.loops[g], s.held, g, s.explicitStop || s.ctxDone, choice, s.explicitStop);
    assert s'.requests == s.requests;
    forall g' | g' in s'.loops && g' != g ensures LoopEquipped(s', g') {
      if Connected(s.loops[g'].pc) {
        ConnectedIsActive(s.loops[g']);
        InvOwner(s, g');
        if Active(s.loops[g]) {
          InvOwner(s, g);
        } else {
          ClosingHolds(s.loops[g], s.held, g, choice);
        }
      }
    }
    hide Inv, NextLoop, NextHolding;
  }

  lemma ServeKeepsEquipped(s: State, id: nat, choice: bool)
    requires Inv(s) && Equipped(s) && Can(s, Serve(id, choice))
    ensures Equipped(ServeStep(s, id, choice))
  {
    var s', q := ServeStep(s, id, choice), s.requests[id];
    ServeLocking(s, id, choice);
    NextRequestFacts(q, s.running, choice);
    ServeKeepsMarks(s, id, choice);
    forall g | g in s'.loops ensures LoopEquipped(s', g) {
      if g in s.loops && Connected(s'.loops[g].pc) {
        assert s'.loops[g] == s.loops[g] by { NewLoopIsNew(s); }
        ConnectedIsActive(s.loops[g]);
        InvOwner(s, g);
        if Critical(q) {
          OnlyHolder(s, id);
        }
      }
    }
  }

  lemma NewLoopIsNew(s: State)
    requires Inv(s)
    ensures s.nextLoop !in s.loops
  {
    hide Locking, Ownership, LoopsOk;
  }

  lemma OnlyHolder(s: State, id: nat)
    requires Inv(s) && id in s.requests && Critical(s.requests[id])
    ensures Holder(s) == s.requests[id]
    ensures forall j | j in s.requests && Critical(s.requests[j]) :: j == id
  {
    hide Bookkeeping, Ownership, LoopsOk;
  }

  lemma ServeKeepsMarks(s: State, id: nat, choice: bool)
    requires Inv(s) && StopsMarked(s) && Can(s, Serve(id, choice))
    ensures StopsMarked(ServeStep(s, id, choice))
  {
    var s', q := ServeStep(s, id, choice), s.requests[id];
    forall j | j in s'.requests && (s'.requests[j].StopCancel? || s'.requests[j].StopClient?) ensures s'.explicitStop {
      if j != id && q.StartReset? {
        OnlyHolder(s, id);
      }
    }
    hide Inv;
  }

  lemma AfterKeepsEquipped(s: State, e: Event)
    requires Inv(s) && Equipped(s) && Can(s, e)
    ensures Equipped(After(s, e))
  {
    hide Inv;
    match e
    case Ask(r) =>
    case Serve(id, choice) => ServeKeepsEquipped(s, id, choice);
    case Move(g, choice) => MoveKeepsEquipped(s, g, choice);
    case Panic(g) =>
    case Shutdown =>
  }

  lemma {:induction false} ExecEquipped(es: seq<Event>)
    ensures Exec(es).Some? ==> Equipped(Exec(es).value)
  {
    hide After, Can, Equipped;
    if es == [] {
      NoneEquipped();
    } else if Exec(es).Some? {
      ExecEquipped(es[..|es| - 1]);
      ExecKeepsInv(es[..|es| - 1]);
      hide Inv;
      AfterKeepsEquipped(Exec(es[..|es| - 1]).value, es[|es| - 1]);
    }
  }

  lemma NoneEquipped()
    ensures Equipped(Init)
  {
  }

  // A goroutine that serves has its listeners, which it started once, and its own client, unless a stop has
  // cleared that.
  lemma ServingIsEquipped(s: State, g: nat)
    requires Reachable(s) && g in s.loops && s.loops[g].pc.Serving?
    ensures s.loops[g].listens == 1 && s.held.listener.Some? && (s.held.client == Some(g) || s.explicitStop)
  {
    var es :| Exec(es) == Some(s);
    ExecEquipped(es);
    ReachableInv(s);
    hide Exec;
    ReasonsOf(s, g);
    ConnectedIsActive(s.loops[g]);
  }

  // --- A goroutine on its own -----------------------------------------------------------------------------------

  // s, but for the goroutine g and what it holds.
  function Look(s: State, g: nat, l: Loop, h: Holding): State {
    s.(loops := s.loops[g := l], held := h)
  }

  lemma LookMoved(es: seq<Event>, s: State, g: nat, l: Loop, h: Holding, choice: bool)
    requires Exec(es) == Some(Look(s, g, l, h)) && (InLoop(l.pc) || InTeardown(l.pc) || l.pc.Judging?)
    requires CanMove(l.pc, Cancelled(s, g), choice)
    ensures Exec(es + [Move(g, choice)])
         == Some(Look(s, g, NextLoop(l, h, s.explicitStop || s.ctxDone, choice), NextHolding(l, h, g, choice)))
  {
    var t := Look(s, g, l, h);
    var l', h' := NextLoop(l, h, s.explicitStop || s.ctxDone, choice), NextHolding(l, h, g, choice);
    assert !l.pc.ClearStopped? && !l.pc.ClearRestart? && !l.pc.Closing? && !l.pc.Deciding?;
    hide Exec, NextLoop, NextHolding, CanMove, InLoop, InTeardown;
    assert s.loops[g := l][g := l'] == s.loops[g := l'];
    assert t.loops[g] == l;
    Snoc(es, Move(g, choice), t, After(t, Move(g, choice)));
  }

  lemma LookSame(s: State, g: nat)
    requires g in s.loops
    ensures Look(s, g, s.loops[g], s.held) == s
  {
    assert s.loops[g := s.loops[g]] == s.loops;
  }

  // What a goroutine that starts its listeners, if there are none, and has Apply succeed or not, comes to hold.
  function Served(h: Holding, g: nat, applied: bool): Holding {
    Holding(Some(g), if h.listener.Some? then h.listener else Some(g),
            h.iptablesUp || (h.listener.None? && applied), h.rules || (h.listener.None? && applied))
  }

  lemma DialLeadsToListening(es: seq<Event>, s: State, g: nat) returns (fs: seq<Event>)
    requires Exec(es) == Some(s) && g in s.loops && s.loops[g].pc.Dialing?
    ensures fs == [Move(g, true), Move(g, true)]
    ensures Follows(es, fs, Look(s, g, s.loops[g].(pc := Listening, dialed := true), s.held.(client := Some(g))))
  {
    var l, h := s.loops[g], s.held;
    LookSame(s, g);
    hide Exec;
    LookMoved(es, s, g, l, h, true);
    var es1 := es + [Move(g, true)];
    LookMoved(es1, s, g, l.(pc := Storing, dialed := true), h, true);
    fs := [Move(g, true), Move(g, true)];
    assert es1 + [Move(g, true)] == es + fs;
  }

  // A successful dial leads to serving: with the client published, with listeners, and, if the listeners are new
  // and rules are wanted, with the rules in the kernel and iptablesUp set if Apply succeeds.
  lemma DialLeadsToServing(es: seq<Event>, s: State, g: nat, wanted: bool, works: bool) returns (fs: seq<Event>)
    requires Exec(es) == Some(s) && g in s.loops && s.loops[g].pc.Dialing?
    ensures forall e | e in fs :: e.Move? && e.g == g
    ensures var l := s.loops[g];
            Follows(es, fs, Look(s, g, Loop(Serving, l.panicking, if s.held.listener.None? then l.listens + 1 else l.listens, true),
                                 Served(s.held, g, wanted && works)))
  {
    var l, h := s.loops[g].(pc := Listening, dialed := true), s.held.(client := Some(g));
    hide Exec;
    var up := DialLeadsToListening(es, s, g);
    var es1 := es + up;
    LookMoved(es1, s, g, l, h, wanted);
    fs := up + [Move(g, wanted)];
    assert es1 + [Move(g, wanted)] == es + fs;
    if h.listener.None? && wanted {
      var l' := Loop(Applying, l.panicking, l.listens + 1, true);
      var gs := ApplyLeadsToServing(es + fs, s, g, l', h.(listener := Some(g)), works);
      Then(es, fs, gs);
      fs := fs + gs;
    }
  }

  lemma ApplyLeadsToServing(es: seq<Event>, s: State, g: nat, l: Loop, h: Holding, works: bool) returns (fs: seq<Event>)
    requires Exec(es) == Some(Look(s, g, l, h)) && l.pc.Applying?
    ensures forall e | e in fs :: e.Move? && e.g == g
    ensures Follows(es, fs, Look(s, g, l.(pc := Serving), if works then h.(rules := true, iptablesUp := true) else h))
  {
    hide Exec;
    LookMoved(es, s, g, l, h, works);
    fs := [Move(g, works)];
    if works {
      LookMoved(es + fs, s, g, l.(pc := Flagging), h.(rules := true), true);
      assert (es + fs) + [Move(g, true)] == es + (fs + [Move(g, true)]);
      fs := fs + [Move(g, true)];
    }
  }

  // From the top of the loop, with the network up.
  lemma WaitingLeadsToDialing(es: seq<Event>, s: State, g: nat, l: Loop, h: Holding) returns (fs: seq<Event>)
    requires Exec(es) == Some(Look(s, g, l, h)) && l.pc.Waiting?
    ensures fs == [Move(g, true), Move(g, true)] && Follows(es, fs, Look(s, g, l.(pc := Dialing), h))
  {
    hide Exec;
    LookMoved(es, s, g, l, h, true);
    var es1 := es + [Move(g, true)];
    LookMoved(es1, s, g, l.(pc := Probing), h, true);
    fs := [Move(g, true), Move(g, true)];
    assert es1 + [Move(g, true)] == es + fs;
  }

  // Without a network, and after a dial that failed, the goroutine goes back to the top with all it holds.
  lemma Retries(es: seq<Event>, s: State, g: nat)
    requires Exec(es) == Some(s) && g in s.loops && (s.loops[g].pc.Probing? || s.loops[g].pc.Dialing?)
    ensures Exec(es + [Move(g, false)]) == Some(s.(loops := s.loops[g := s.loops[g].(pc := Waiting)]))
  {
    LookSame(s, g);
    LookMoved(es, s, g, s.loops[g], s.held, false);
    hide Exec;
  }

  lemma LossLeadsToDialing(es: seq<Event>, s: State, g: nat) returns (fs: seq<Event>)
    requires Exec(es) == Some(s) && g in s.loops && s.loops[g].pc.Serving?
    ensures forall e | e in fs :: e.Move? && e.g == g
    ensures Follows(es, fs, Look(s, g, s.loops[g].(pc := Dialing), s.held.(client := None)))
  {
    var l, h := s.loops[g], s.held;
    LookSame(s, g);
    hide Exec;
    LookMoved(es, s, g, l, h, true);
    var es1 := es + [Move(g, true)];
    LookMoved(es1, s, g, l.(pc := Lost), h, true);
    var es2 := es1 + [Move(g, true)];
    var up := WaitingLeadsToDialing(es2, s, g, l.(pc := Waiting), h.(client := None));
    fs := [Move(g, true), Move(g, true)] + up;
    assert es2 + up == es + fs;
  }

  // A lost connection comes back: with a new client, and with the listeners and the rules that were there.
  lemma Reconnects(es: seq<Event>, s: State, g: nat) returns (fs: seq<Event>)
    requires Exec(es) == Some(s) && g in s.loops && s.loops[g].pc.Serving?
    ensures forall e | e in fs :: e.Move? && e.g == g
    ensures Follows(es, fs, Look(s, g, s.loops[g].(dialed := true), s.held.(client := Some(g))))
  {
    var l, h := s.loops[g], s.held;
    assert h.listener.Some? by { ServingIsEquipped(s, g); }
    hide Exec;
    var up := LossLeadsToDialing(es, s, g);
    var t := Look(s, g, l.(pc := Dialing), h.(client := None));
    var down := DialLeadsToServing(es + up, t, g, true, true);
    Then(es, up, down);
    fs := up + down;
    LookAgain(s, g, l.(pc := Dialing), l.(dialed := true), h.(client := None), h.(client := Some(g)));
    assert Served(h.(client := None), g, true) == h.(client := Some(g));
  }

  lemma LookAgain(s: State, g: nat, l: Loop, l': Loop, h: Holding, h': Holding)
    ensures Look(Look(s, g, l, h), g, l', h') == Look(s, g, l', h')
  {
    assert s.loops[g := l][g := l'] == s.loops[g := l'];
  }

  // --- Starts, stops and restarts --------------------------------------------------------------------------------

  // The script, where there is one, leaves no rules.
  lemma ScriptClears(s: State, id: nat)
    requires id in s.requests && s.requests[id].StopScript?
    ensures var t := After(s, Serve(id, true)); !t.held.rules && t.held == s.held.(rules := false)
  {
  }

  // s in the middle of request id, which holds the lock if it is critical.
  function Asked(s: State, id: nat, r: Request): State {
    s.(lock := if Critical(r) then Some(id) else None, requests := s.requests[id := r], nextRequest := id + 1)
  }

  lemma AskedServed(es: seq<Event>, s: State, id: nat, r: Request, choice: bool)
    requires Exec(es) == Some(Asked(s, id, r)) && CanServe(r, if Critical(r) then Some(id) else None, Seen(s), choice)
    requires !r.StartMark? && !r.StartReset? && !r.StartSpawn? && !r.StopFlag? && !r.StopCancel? && !r.StopClient?
    requires r.StopScript? ==> !choice
    ensures Exec(es + [Serve(id, choice)]) == Some(Asked(s, id, NextRequest(r, s.running, choice)))
  {
    var t, r' := Asked(s, id, r), NextRequest(r, s.running, choice);
    assert s.requests[id := r][id := r'] == s.requests[id := r'];
    hide Exec, NextRequest, Critical;
    Snoc(es, Serve(id, choice), t, After(t, Serve(id, choice)));
  }

  // A start that finds the flag clear, and a profile, sets it and spawns a goroutine.
  lemma StartGoesThrough(es: seq<Event>, s: State, id: nat) returns (fs: seq<Event>)
    requires Exec(es) == Some(Asked(s, id, WantStart)) && !s.running
    ensures forall e | e in fs :: e == Serve(id, true)
    ensures Follows(es, fs, Asked(s, id, Finished).(running := true, explicitStop := false, tunnel := Some(s.nextLoop),
                                                    loops := s.loops[s.nextLoop := Loop(Waiting, false, 0, false)],
                                                    nextLoop := s.nextLoop + 1))
  {
    hide Exec;
    var serve := Serve(id, true);
    AskedServed(es, s, id, WantStart, true);
    var es1 := es + [serve];
    AskedServed(es1, s, id, StartCheck, true);
    var es2 := es1 + [serve];
    MarkServed(es2, s, id);
    var es3 := es2 + [serve];
    ResetServed(es3, s.(running := true), id);
    var es4 := es3 + [serve];
    SpawnServed(es4, s.(running := true, explicitStop := false), id);
    fs := [serve, serve, serve, serve, serve];
    assert es4 + [serve] == es + fs;
  }

  lemma MarkServed(es: seq<Event>, s: State, id: nat)
    requires Exec(es) == Some(Asked(s, id, StartMark))
    ensures Exec(es + [Serve(id, true)]) == Some(Asked(s.(running := true), id, StartReset))
  {
    var t := Asked(s, id, StartMark);
    assert s.requests[id := StartMark][id := StartReset] == s.requests[id := StartReset];
    hide Exec;
    Snoc(es, Serve(id, true), t, After(t, Serve(id, true)));
  }

  lemma ResetServed(es: seq<Event>, s: State, id: nat)
    requires Exec(es) == Some(Asked(s, id, StartReset)) && s.running
    ensures Exec(es + [Serve(id, true)]) == Some(Asked(s.(explicitStop := false), id, StartSpawn))
  {
    var t := Asked(s, id, StartReset);
    assert s.requests[id := StartReset][id := StartSpawn] == s.requests[id := StartSpawn];
    hide Exec;
    Snoc(es, Serve(id, true), t, After(t, Serve(id, true)));
  }

  lemma SpawnServed(es: seq<Event>, s: State, id: nat)
    requires Exec(es) == Some(Asked(s, id, StartSpawn)) && s.running
    ensures Exec(es + [Serve(id, true)])
         == Some(Asked(s, id, Finished).(tunnel := Some(s.nextLoop), nextLoop := s.nextLoop + 1,
                                         loops := s.loops[s.nextLoop := Loop(Waiting, false, 0, false)]))
  {
    var t := Asked(s, id, StartSpawn);
    assert s.requests[id := StartSpawn][id := Finished] == s.requests[id := Finished];
    hide Exec;
    Snoc(es, Serve(id, true), t, After(t, Serve(id, true)));
  }

  lemma RequestAsked(es: seq<Event>, s: State, r: Request)
    requires Exec(es) == Some(s) && s.lock.None? && (r.WantStart? || r.WantStop?)
    ensures Exec(es + [Ask(r)]) == Some(Asked(s, s.nextRequest, r))
  {
    hide Exec;
    Snoc(es, Ask(r), s, Asked(s, s.nextRequest, r));
  }

  // A start of a stopped daemon spawns a goroutine.
  lemma Starts(es: seq<Event>, s: State) returns (fs: seq<Event>)
    requires Exec(es) == Some(s) && s.lock.None? && !s.running
    ensures Follows(es, fs, Asked(s, s.nextRequest, Finished).(
                              running := true, explicitStop := false, tunnel := Some(s.nextLoop),
                              loops := s.loops[s.nextLoop := Loop(Waiting, false, 0, false)], nextLoop := s.nextLoop + 1))
  {
    hide Exec;
    RequestAsked(es, s, WantStart);
    var ask := [Ask(WantStart)];
    var gs := StartGoesThrough(es + ask, s, s.nextRequest);
    Then(es, ask, gs);
    fs := ask + gs;
  }

  // A start of a running one changes nothing.
  lemma StartIsRefused(es: seq<Event>, s: State) returns (fs: seq<Event>)
    requires Exec(es) == Some(s) && s.lock.None? && s.running
    ensures Follows(es, fs, Asked(s, s.nextRequest, Finished))
  {
    hide Exec;
    var id, ask, serve := s.nextRequest, Ask(WantStart), Serve(s.nextRequest, true);
    RequestAsked(es, s, WantStart);
    var es1 := es + [ask];
    AskedServed(es1, s, id, WantStart, true);
    var es2 := es1 + [serve];
    AskedServed(es2, s, id, StartCheck, true);
    fs := [ask, serve, serve];
    assert es2 + [serve] == es + fs;
  }

  // And so does one without a selected profile.
  lemma StartWithoutProfile(es: seq<Event>, s: State) returns (fs: seq<Event>)
    requires Exec(es) == Some(s) && s.lock.None? && !s.running
    ensures Follows(es, fs, Asked(s, s.nextRequest, Finished))
  {
    hide Exec;
    var id, ask := s.nextRequest, Ask(WantStart);
    RequestAsked(es, s, WantStart);
    var es1 := es + [ask];
    AskedServed(es1, s, id, WantStart, true);
    var es2 := es1 + [Serve(id, true)];
    AskedServed(es2, s, id, StartCheck, false);
    fs := [ask, Serve(id, true), Serve(id, false)];
    assert es2 + [Serve(id, false)] == es + fs;
  }

  lemma StopFindsNothing(es: seq<Event>, s: State, again: bool) returns (fs: seq<Event>)
    requires Exec(es) == Some(s) && s.lock.None? && !s.running
    ensures Follows(es, fs, Asked(s, s.nextRequest, if again then WantStart else Finished))
  {
    hide Exec;
    var id, ask, serve := s.nextRequest, Ask(WantStop(again)), Serve(s.nextRequest, true);
    RequestAsked(es, s, WantStop(again));
    var es1 := es + [ask];
    AskedServed(es1, s, id, WantStop(again), true);
    var es2 := es1 + [serve];
    AskedServed(es2, s, id, StopCheck(again), true);
    fs := [ask, serve, serve];
    assert es2 + [serve] == es + fs;
  }

  // A restart of a stopped daemon starts it.
  lemma RestartsStopped(es: seq<Event>, s: State) returns (fs: seq<Event>)
    requires Exec(es) == Some(s) && s.lock.None? && !s.running
    ensures Follows(es, fs, Asked(s, s.nextRequest, Finished).(
                              running := true, explicitStop := false, tunnel := Some(s.nextLoop),
                              loops := s.loops[s.nextLoop := Loop(Waiting, false, 0, false)], nextLoop := s.nextLoop + 1))
  {
    hide Exec;
    var stop := StopFindsNothing(es, s, true);
    var start := StartGoesThrough(es + stop, s, s.nextRequest);
    Then(es, stop, start);
    fs := stop + start;
  }

  lemma FlagServed(es: seq<Event>, s: State, id: nat, again: bool)
    requires Exec(es) == Some(Asked(s, id, StopFlag(again)))
    ensures Exec(es + [Serve(id, true)]) == Some(Asked(s.(explicitStop := true), id, StopCancel(again)))
  {
    var t := Asked(s, id, StopFlag(again));
    assert s.requests[id := StopFlag(again)][id := StopCancel(again)] == s.requests[id := StopCancel(again)];
    hide Exec;
    Snoc(es, Serve(id, true), t, After(t, Serve(id, true)));
  }

  lemma CancelServed(es: seq<Event>, s: State, id: nat, again: bool, g: nat)
    requires Exec(es) == Some(Asked(s, id, StopCancel(again))) && s.tunnel == Some(g)
    ensures Exec(es + [Serve(id, true)]) == Some(Asked(s.(cancelled := s.cancelled + {g}), id, StopClient(again)))
  {
    var t := Asked(s, id, StopCancel(again));
    assert s.requests[id := StopCancel(again)][id := StopClient(again)] == s.requests[id := StopClient(again)];
    hide Exec;
    Snoc(es, Serve(id, true), t, After(t, Serve(id, true)));
  }

  lemma ClientServed(es: seq<Event>, s: State, id: nat, again: bool)
    requires Exec(es) == Some(Asked(s, id, StopClient(again)))
    ensures Exec(es + [Serve(id, true)]) == Some(Asked(s.(held := s.held.(client := None)), id, StopWait(again)))
  {
    var t := Asked(s, id, StopClient(again));
    assert s.requests[id := StopClient(again)][id := StopWait(again)] == s.requests[id := StopWait(again)];
    hide Exec;
    Snoc(es, Serve(id, true), t, After(t, Serve(id, true)));
  }

  // s when a stop of goroutine g waits for done.
  function Stopping(s: State, g: nat): State {
    s.(explicitStop := true, cancelled := s.cancelled + {g}, held := s.held.(client := None))
  }

  lemma StopWaits(es: seq<Event>, s: State, g: nat, again: bool) returns (fs: seq<Event>)
    requires Exec(es) == Some(s) && s.lock.None? && s.running && s.tunnel == Some(g)
    ensures Follows(es, fs, Asked(Stopping(s, g), s.nextRequest, StopWait(again)))
    ensures forall e | e in fs :: e == Ask(WantStop(again)) || e == Serve(s.nextRequest, true)
  {
    hide Exec;
    var id, ask, serve := s.nextRequest, Ask(WantStop(again)), Serve(s.nextRequest, true);
    RequestAsked(es, s, WantStop(again));
    var es1 := es + [ask];
    AskedServed(es1, s, id, WantStop(again), true);
    var es2 := es1 + [serve];
    AskedServed(es2, s, id, StopCheck(again), true);
    var es3 := es2 + [serve];
    FlagServed(es3, s, id, again);
    var es4 := es3 + [serve];
    CancelServed(es4, s.(explicitStop := true), id, again, g);
    var es5 := es4 + [serve];
    ClientServed(es5, s.(explicitStop := true, cancelled := s.cancelled + {g}), id, again);
    fs := [ask, serve, serve, serve, serve, serve];
    assert es5 + [serve] == es + fs;
  }

  lemma DropsListeners(es: seq<Event>, s: State, g: nat, l: Loop, h: Holding) returns (fs: seq<Event>)
    requires Exec(es) == Some(Look(s, g, l, h)) && l.pc.Leaving?
    ensures Follows(es, fs, Look(s, g, l.(pc := DropRules), h.(client := None, listener := None)))
    ensures forall e | e in fs :: e == Move(g, true)
  {
    hide Exec;
    var move := Move(g, true);
    LookMoved(es, s, g, l, h, true);
    var es1 := es + [move];
    LookMoved(es1, s, g, l.(pc := DropListeners), h.(client := None), true);
    fs := [move, move];
    assert es1 + [move] == es + fs;
  }

  lemma DropsRules(es: seq<Event>, s: State, g: nat, l: Loop, h: Holding) returns (fs: seq<Event>)
    requires Exec(es) == Some(Look(s, g, l, h)) && l.pc.DropRules? && (h.rules ==> h.iptablesUp)
    ensures Follows(es, fs, Look(s, g, l.(pc := DropClient), h.(rules := false, iptablesUp := false)))
    ensures forall e | e in fs :: e == Move(g, true)
  {
    hide Exec;
    var move := Move(g, true);
    LookMoved(es, s, g, l, h, true);
    fs := [move];
    if h.iptablesUp {
      LookMoved(es + fs, s, g, l.(pc := DropFlag), h.(rules := false), true);
      assert (es + fs) + [move] == es + (fs + [move]);
      fs := fs + [move];
    }
  }

  // From the inner wait, with the context done, the goroutine leaves and tears everything down.
  lemma TearsDown(es: seq<Event>, s: State, g: nat, l: Loop, h: Holding) returns (fs: seq<Event>)
    requires Exec(es) == Some(Look(s, g, l, h)) && l.pc.Leaving? && !l.panicking && (h.rules ==> h.iptablesUp)
    ensures Follows(es, fs, Look(s, g, l.(pc := Judging), Nothing))
    ensures forall e | e in fs :: e == Move(g, true)
  {
    hide Exec;
    var a := DropsListeners(es, s, g, l, h);
    var b := DropsRules(es + a, s, g, l.(pc := DropRules), h.(client := None, listener := None));
    var es2 := (es + a) + b;
    LookMoved(es2, s, g, l.(pc := DropClient), Nothing, true);
    fs := a + b + [Move(g, true)];
    assert es2 + [Move(g, true)] == es + fs;
  }

  lemma ClearsFlag(es: seq<Event>, s: State, g: nat, l: Loop)
    requires Exec(es) == Some(Look(s, g, l, Nothing)) && l.pc.ClearStopped?
    ensures Exec(es + [Move(g, true)]) == Some(Look(s.(running := false), g, l.(pc := Closing), Nothing))
  {
    var t := Look(s, g, l, Nothing);
    assert s.loops[g := l][g := l.(pc := Closing)] == s.loops[g := l.(pc := Closing)];
    hide Exec;
    Snoc(es, Move(g, true), t, After(t, Move(g, true)));
  }

  lemma ClosesDone(es: seq<Event>, s: State, g: nat, l: Loop)
    requires Exec(es) == Some(Look(s, g, l, Nothing)) && l.pc.Closing?
    ensures Exec(es + [Move(g, true)]) == Some(Look(s.(closed := s.closed + {g}), g, l.(pc := Gone), Nothing))
  {
    var t := Look(s, g, l, Nothing);
    assert s.loops[g := l][g := l.(pc := Gone)] == s.loops[g := l.(pc := Gone)];
    hide Exec;
    Snoc(es, Move(g, true), t, After(t, Move(g, true)));
  }

  // s when goroutine g has ended.
  function Ended(s: State, g: nat, l: Loop): State {
    Look(s.(running := false, closed := s.closed + {g}), g, l.(pc := Gone), Nothing)
  }

  lemma JudgedEnds(es: seq<Event>, s: State, g: nat, l: Loop) returns (fs: seq<Event>)
    requires Exec(es) == Some(Look(s, g, l, Nothing)) && l.pc.Judging? && (s.explicitStop || s.ctxDone)
    ensures Follows(es, fs, Ended(s, g, l))
    ensures forall e | e in fs :: e.Move? && e.g == g
  {
    hide Exec;
    var move := Move(g, true);
    LookMoved(es, s, g, l, Nothing, true);
    var es1 := es + [move];
    ClearsFlag(es1, s, g, l.(pc := ClearStopped));
    var es2 := es1 + [move];
    ClosesDone(es2, s.(running := false), g, l.(pc := Closing));
    fs := [move, move, move];
    assert es2 + [move] == es + fs;
  }

  lemma ServingEnds(es: seq<Event>, s: State, g: nat) returns (fs: seq<Event>)
    requires Exec(es) == Some(s) && g in s.loops && s.loops[g].pc.Serving? && !s.loops[g].panicking && Cancelled(s, g)
    requires (s.explicitStop || s.ctxDone) && (s.held.rules ==> s.held.iptablesUp)
    ensures Follows(es, fs, Ended(s, g, s.loops[g]))
    ensures forall e | e in fs :: e.Move? && e.g == g
  {
    var l, h := s.loops[g], s.held;
    LookSame(s, g);
    hide Exec;
    var leave := Move(g, false);
    LookMoved(es, s, g, l, h, false);
    var es1 := es + [leave];
    var a := TearsDown(es1, s, g, l.(pc := Leaving), h);
    var b := JudgedEnds(es1 + a, s, g, l.(pc := Judging));
    fs := [leave] + a + b;
    assert (es1 + a) + b == es + fs;
  }

  // The stop has seen done.
  lemma StopReturns(es: seq<Event>, s: State, id: nat, again: bool) returns (fs: seq<Event>)
    requires Exec(es) == Some(Asked(s, id, StopWait(again))) && Seen(s)
    ensures Follows(es, fs, Asked(s, id, if again then WantStart else Finished))
    ensures forall e | e in fs :: e.Serve? && e.id == id
  {
    hide Exec;
    AskedServed(es, s, id, StopWait(again), true);
    var es1 := es + [Serve(id, true)];
    AskedServed(es1, s, id, StopScript(again, true), false);
    var es2 := es1 + [Serve(id, false)];
    AskedServed(es2, s, id, StopUnlock(again, true), true);
    fs := [Serve(id, true), Serve(id, false), Serve(id, true)];
    assert es2 + [Serve(id, true)] == es + fs;
  }

  // s when request id has stopped goroutine g.
  function Stopped(s: State, g: nat, l: Loop): State {
    Ended(Stopping(s, g), g, l)
  }

  // The goroutine can end while the stop waits for it.
  lemma WaitingForIt(s: State, g: nat, id: nat, again: bool)
    requires g in s.loops && s.tunnel == Some(g) && (s.held.rules ==> s.held.iptablesUp)
    ensures var t := Asked(Stopping(s, g), id, StopWait(again));
            && g in t.loops && t.loops[g] == s.loops[g] && Cancelled(t, g) && t.explicitStop
            && (t.held.rules ==> t.held.iptablesUp)
            && Ended(t, g, s.loops[g]) == Asked(Stopped(s, g, s.loops[g]), id, StopWait(again))
    ensures Seen(Stopped(s, g, s.loops[g]))
  {
  }

  lemma StopEnds(es: seq<Event>, s: State, g: nat, again: bool) returns (fs: seq<Event>)
    requires Exec(es) == Some(s) && s.lock.None? && g in s.loops && s.loops[g].pc.Serving? && !s.loops[g].panicking
    ensures Follows(es, fs, Asked(Stopped(s, g, s.loops[g]), s.nextRequest, if again then WantStart else Finished))
  {
    var id, l := s.nextRequest, s.loops[g];
    ServingRuns(s, g);
    WaitingForIt(s, g, id, again);
    hide Exec, Asked, Stopping, Stopped, Ended, Seen, Cancelled;
    var ask := StopWaits(es, s, g, again);
    var t := Asked(Stopping(s, g), id, StopWait(again));
    var down := ServingEnds(es + ask, t, g);
    var back := StopReturns((es + ask) + down, Stopped(s, g, l), id, again);
    fs := ask + down + back;
    Then(es + ask, down, back);
    Then(es, ask, down + back);
    assert ask + down + back == ask + (down + back);
  }

  lemma ServingRuns(s: State, g: nat)
    requires Reachable(s) && g in s.loops && s.loops[g].pc.Serving? && !s.loops[g].panicking
    ensures s.running && s.tunnel == Some(g) && (s.held.rules ==> s.held.iptablesUp)
  {
    ReachableInv(s);
    ConnectedIsActive(s.loops[g]);
    InvOwner(s, g);
    ReasonsOf(s, g);
  }

  // A stop of a tunnel that serves ends with nothing held, no rules, the flag clear and the goroutine gone.
  lemma Stops(es: seq<Event>, s: State, g: nat) returns (fs: seq<Event>, t: State)
    requires Exec(es) == Some(s) && s.lock.None? && g in s.loops && s.loops[g].pc.Serving? && !s.loops[g].panicking
    ensures Follows(es, fs, t) && t.lock.None? && t.requests == s.requests[s.nextRequest := Finished]
    ensures !t.running && t.held == Nothing && t.loops == s.loops[g := s.loops[g].(pc := Gone)]
  {
    fs := StopEnds(es, s, g, false);
    t := Asked(Stopped(s, g, s.loops[g]), s.nextRequest, Finished);
    hide Exec;
  }

  // A restart of it ends with a new goroutine, which starts from nothing.
  lemma Restarts(es: seq<Event>, s: State, g: nat) returns (fs: seq<Event>, t: State)
    requires Exec(es) == Some(s) && s.lock.None? && g in s.loops && s.loops[g].pc.Serving? && !s.loops[g].panicking
    ensures Follows(es, fs, t) && t.lock.None? && t.requests == s.requests[s.nextRequest := Finished]
    ensures t.running && !t.explicitStop && t.held == Nothing && t.tunnel == Some(s.nextLoop)
    ensures t.loops == s.loops[g := s.loops[g].(pc := Gone)][s.nextLoop := Loop(Waiting, false, 0, false)]
  {
    var stop := StopEnds(es, s, g, true);
    var u := Stopped(s, g, s.loops[g]);
    hide Exec;
    var start := StartGoesThrough(es + stop, u, s.nextRequest);
    Then(es, stop, start);
    fs := stop + start;
    t := Asked(u, s.nextRequest, Finished).(running := true, explicitStop := false, tunnel := Some(s.nextLoop),
                                             loops := u.loops[s.nextLoop := Loop(Waiting, false, 0, false)],
                                             nextLoop := s.nextLoop + 1);
  }

  // The end of the daemon's context ends a tunnel that serves in the same way, without a stop.
  lemma ShutsDown(es: seq<Event>, s: State, g: nat) returns (fs: seq<Event>)
    requires Exec(es) == Some(s) && g in s.loops && s.loops[g].pc.Serving? && !s.loops[g].panicking
    ensures Follows(es, fs, Ended(s.(ctxDone := true), g, s.loops[g]))
  {
    ServingRuns(s, g);
    hide Exec;
    var t := s.(ctxDone := true);
    Snoc(es, Shutdown, s, t);
    var down := ServingEnds(es + [Shutdown], t, g);
    Then(es, [Shutdown], down);
    fs := [Shutdown] + down;
  }

  lemma PanicDropsListeners(es: seq<Event>, s: State, g: nat) returns (fs: seq<Event>)
    requires Exec(es) == Some(s) && g in s.loops && InLoop(s.loops[g].pc)
    ensures fs == [Panic(g), Move(g, true)]
    ensures Follows(es, fs, Look(s, g, s.loops[g].(pc := DropRules, panicking := true), s.held.(listener := None)))
  {
    var l := s.loops[g].(pc := DropListeners, panicking := true);
    hide Exec;
    Snoc(es, Panic(g), s, Look(s, g, l, s.held));
    var es1 := es + [Panic(g)];
    LookMoved(es1, s, g, l, s.held, true);
    fs := [Panic(g), Move(g, true)];
    assert es1 + [Move(g, true)] == es + fs;
  }

  // A panic in the loop runs the teardown, with the flag left set; one in the teardown skips the rest of it.
  lemma PanicsTearDown(es: seq<Event>, s: State, g: nat) returns (fs: seq<Event>)
    requires Exec(es) == Some(s) && g in s.loops && InLoop(s.loops[g].pc) && (s.held.rules ==> s.held.iptablesUp)
    ensures Follows(es, fs, Look(s, g, s.loops[g].(pc := Closing, panicking := true), Nothing))
  {
    var l, h := s.loops[g].(panicking := true), s.held.(listener := None);
    hide Exec, InLoop;
    var up := PanicDropsListeners(es, s, g);
    var down := DropsRules(es + up, s, g, l.(pc := DropRules), h);
    var es1 := (es + up) + down;
    LookMoved(es1, s, g, l.(pc := DropClient), h.(rules := false, iptablesUp := false), true);
    fs := up + down + [Move(g, true)];
    assert es1 + [Move(g, true)] == es + fs;
  }

  lemma PanicInTeardown(es: seq<Event>, s: State, g: nat)
    requires Exec(es) == Some(s) && g in s.loops && InTeardown(s.loops[g].pc)
    ensures Exec(es + [Panic(g)]) == Some(Look(s, g, s.loops[g].(pc := Closing, panicking := true), s.held))
  {
    hide Exec;
    Snoc(es, Panic(g), s, Look(s, g, s.loops[g].(pc := Closing, panicking := true), s.held));
  }

  // A run from the daemon's start to a tunnel that serves, with its rules in the kernel.
  lemma ServesInTheEnd() returns (es: seq<Event>, t: State)
    ensures Exec(es) == Some(t) && 0 in t.loops && t.loops[0] == Loop(Serving, false, 1, true)
    ensures t.running && t.held == Holding(Some(0), Some(0), true, true)
  {
    ExecEmpty();
    var start := Starts([], Init);
    var s := Asked(Init, 0, Finished).(running := true, explicitStop := false, tunnel := Some(0),
                                        loops := Init.loops[0 := Loop(Waiting, false, 0, false)], nextLoop := 1);
    hide Exec;
    LookSame(s, 0);
    var up := WaitingLeadsToDialing([] + start, s, 0, Loop(Waiting, false, 0, false), Nothing);
    var u := Look(s, 0, Loop(Dialing, false, 0, false), Nothing);
    var serve := DialLeadsToServing(([] + start) + up, u, 0, true, true);
    es := (([] + start) + up) + serve;
    t := Look(u, 0, Loop(Serving, false, 1, true), Served(Nothing, 0, true));
  }
}
