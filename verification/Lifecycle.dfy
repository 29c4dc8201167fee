// cmd/sshcustomd: startTunnel, stopTunnel, the tunnel goroutine and its loop, as a step system in
// which any number of start, stop and restart requests interleave with the goroutines they spawn.
module Lifecycle {
  import opened Basics

  // Where one tunnel goroutine stands. The first group runs inside tunnelLoop.
  datatype Pc =
    | Waiting          // the select at the top of the loop
    | Probing          // routeInfo
    | Dialing          // DialContext
    | Storing          // dialled; the client is not published yet
    | Listening        // the listenerCancel test
    | Applying         // listeners started; iptables.Apply running
    | Flagging         // Apply succeeded; iptablesUp not set yet
    | Serving          // the inner wait
    | Lost             // connection lost; the client is still published
    | Leaving          // context done in the inner wait
    | DropListeners    // teardown, step by step
    | DropRules
    | DropFlag
    | DropClient
    | Judging          // the loop returned; explicitStop and ctx.Err() are read
    | ClearStopped     // tunnelRunning.Store(false) on the stop branch
    | ClearRestart     // tunnelRunning.Store(false) on the auto-restart branch
    | Backoff
    | Deciding         // the auto-restart test
    | Closing          // deferred close(done)
    | Gone

  datatype Loop = Loop(pc: Pc, panicking: bool, listens: nat, dialed: bool)

  // Where one request stands. again: the stop is the first half of a restart. seen: done was closed
  // before the five-second timeout.
  datatype Request =
    | WantStart
    | StartCheck
    | StartMark        // tunnelRunning.Store(true)
    | StartReset       // explicitStop.Store(false)
    | StartSpawn       // new context, new done channel, go
    | WantStop(again: bool)
    | StopCheck(again: bool)
    | StopFlag(again: bool)     // explicitStop.Store(true)
    | StopCancel(again: bool)   // tunnelCancel()
    | StopClient(again: bool)   // sshClient.Store(nil)
    | StopWait(again: bool)
    | StopScript(again: bool, seen: bool)
    | StopUnlock(again: bool, seen: bool)
    | Finished

  // What a run of tunnelLoop acquires and teardown releases. rules: the rules in the kernel.
  datatype Holding = Holding(client: Option<nat>, listener: Option<nat>, iptablesUp: bool, rules: bool)

  const Nothing := Holding(None, None, false, false)

  // tunnel: the goroutine behind tunnelCancel and tunnelDone. cancelled, closed: the goroutines whose
  // context was cancelled, and whose done channel is closed.
  datatype State = State(
    lock: Option<nat>, running: bool, explicitStop: bool, ctxDone: bool, tunnel: Option<nat>,
    cancelled: set<nat>, closed: set<nat>, loops: map<nat, Loop>, requests: map<nat, Request>,
    held: Holding, nextLoop: nat, nextRequest: nat)

  datatype Event =
    | Ask(request: Request)
    | Serve(id: nat, choice: bool)
    | Move(g: nat, choice: bool)
    | Panic(g: nat)
    | Shutdown

  const Init := State(None, false, false, false, None, {}, {}, map[], map[], Nothing, 0, 0)

  predicate Cancelled(s: State, g: nat) {
    s.ctxDone || g in s.cancelled
  }

  predicate InLoop(pc: Pc) {
    || pc.Waiting? || pc.Probing? || pc.Dialing? || pc.Storing? || pc.Listening?
    || pc.Applying? || pc.Flagging? || pc.Serving? || pc.Lost? || pc.Leaving?
  }

  predicate InTeardown(pc: Pc) {
    pc.DropListeners? || pc.DropRules? || pc.DropFlag? || pc.DropClient?
  }

  // --- Steps of a goroutine -------------------------------------------------------------------------

  // choice settles what the environment decides: whether the timer rather than the context fires, the
  // network is up, a dial or Apply succeeds, rules are wanted, the connection drops.
  predicate CanMove(pc: Pc, cancelled: bool, choice: bool) {
    match pc
    case Waiting => choice || cancelled
    case Serving => choice || cancelled
    case Gone => false
    case _ => true
  }

  // stopped: explicitStop.Load() || ctx.Err() != nil
  function NextPc(l: Loop, h: Holding, stopped: bool, choice: bool): Pc {
    match l.pc
    case Waiting => if choice then Probing else DropListeners
    case Probing => if choice then Dialing else Waiting
    case Dialing => if choice then Storing else Waiting
    case Storing => Listening
    case Listening => if h.listener.None? && choice then Applying else Serving
    case Applying => if choice then Flagging else Serving
    case Flagging => Serving
    case Serving => if choice then Lost else Leaving
    case Lost => Waiting
    case Leaving => DropListeners
    case DropListeners => DropRules
    case DropRules => if h.iptablesUp then DropFlag else DropClient
    case DropFlag => DropClient
    case DropClient => if l.panicking then Closing else Judging
    case Judging => if stopped then ClearStopped else ClearRestart
    case ClearStopped => Closing
    case ClearRestart => Backoff
    case Backoff => Deciding
    case Deciding => Closing
    case Closing => Gone
    case Gone => Gone
  }

  function NextHolding(l: Loop, h: Holding, g: nat, choice: bool): Holding {
    match l.pc
    case Storing => h.(client := Some(g))
    case Listening => if h.listener.None? then h.(listener := Some(g)) else h
    case Applying => if choice then h.(rules := true) else h
    case Flagging => h.(iptablesUp := true)
    case Lost => h.(client := None)
    case Leaving => h.(client := None)
    case DropListeners => h.(listener := None)
    case DropRules => if h.iptablesUp then h.(rules := false) else h
    case DropFlag => h.(iptablesUp := false)
    case DropClient => h.(client := None)
    case _ => h
  }

  function NextLoop(l: Loop, h: Holding, stopped: bool, choice: bool): Loop {
    Loop(NextPc(l, h, stopped, choice), l.panicking,
         if l.pc.Listening? && h.listener.None? then l.listens + 1 else l.listens,
         l.dialed || (l.pc.Dialing? && choice))
  }

  function MoveStep(s: State, g: nat, choice: bool): State
    requires g in s.loops
  {
    var l, stopped := s.loops[g], s.explicitStop || s.ctxDone;
    var restarts := l.pc.Deciding? && !stopped;
    State(s.lock, s.running && !l.pc.ClearStopped? && !l.pc.ClearRestart?, s.explicitStop, s.ctxDone, s.tunnel,
          s.cancelled, if l.pc.Closing? then s.closed + {g} else s.closed,
          s.loops[g := NextLoop(l, s.held, stopped, choice)],
          if restarts then s.requests[s.nextRequest := WantStart] else s.requests,
          NextHolding(l, s.held, g, choice), s.nextLoop, if restarts then s.nextRequest + 1 else s.nextRequest)
  }

  // A panic inside the loop runs the deferred teardown; a panic inside the teardown skips its rest.
  // Either way recover leads to close(done) without passing tunnelRunning.Store(false).
  predicate CanPanic(pc: Pc) {
    InLoop(pc) || InTeardown(pc)
  }

  function Panicked(l: Loop): Loop {
    l.(pc := if InLoop(l.pc) then DropListeners else Closing, panicking := true)
  }

  // --- Steps of a request ---------------------------------------------------------------------------

  predicate Critical(r: Request) {
    !r.WantStart? && !r.WantStop? && !r.Finished?
  }

  // seen: the tunnel's done channel is closed. choice: a profile is selected, the stop sees done
  // rather than the timeout.
  predicate CanServe(r: Request, lock: Option<nat>, seen: bool, choice: bool) {
    match r
    case WantStart => lock.None?
    case WantStop(_) => lock.None?
    case StopWait(_) => choice ==> seen
    case Finished => false
    case _ => true
  }

  function After1(again: bool): Request {
    if again then WantStart else Finished
  }

  function NextRequest(r: Request, running: bool, choice: bool): Request {
    match r
    case WantStart => StartCheck
    case StartCheck => if running || !choice then Finished else StartMark
    case StartMark => StartReset
    case StartReset => StartSpawn
    case StartSpawn => Finished
    case WantStop(again) => StopCheck(again)
    case StopCheck(again) => if running then StopFlag(again) else After1(again)
    case StopFlag(again) => StopCancel(again)
    case StopCancel(again) => StopClient(again)
    case StopClient(again) => StopWait(again)
    case StopWait(again) => StopScript(again, choice)
    case StopScript(again, seen) => StopUnlock(again, seen)
    case StopUnlock(again, _) => After1(again)
    case Finished => Finished
  }

  // The script, when it exists (choice), removes the kernel rules.
  function ServedHolding(r: Request, h: Holding, choice: bool): Holding {
    if r.StopClient? then h.(client := None)
    else if r.StopScript? && choice then h.(rules := false)
    else h
  }

  predicate Seen(s: State) {
    s.tunnel.Some? && s.tunnel.value in s.closed
  }

  function ServeStep(s: State, id: nat, choice: bool): State
    requires id in s.requests
  {
    var q := s.requests[id];
    var r := NextRequest(q, s.running, choice);
    State(if Critical(r) then Some(id) else None,
          s.running || q.StartMark?,
          if q.StopFlag? then true else if q.StartReset? then false else s.explicitStop,
          s.ctxDone,
          if q.StartSpawn? then Some(s.nextLoop) else s.tunnel,
          if q.StopCancel? && s.tunnel.Some? then s.cancelled + {s.tunnel.value} else s.cancelled,
          s.closed,
          if q.StartSpawn? then s.loops[s.nextLoop := Loop(Waiting, false, 0, false)] else s.loops,
          s.requests[id := r],
          ServedHolding(q, s.held, choice),
          if q.StartSpawn? then s.nextLoop + 1 else s.nextLoop,
          s.nextRequest)
  }

  // --- Runs -------------------------------------------------------------------------------------------

  predicate Can(s: State, e: Event) {
    match e
    case Ask(r) => r.WantStart? || r.WantStop?
    case Serve(id, choice) => id in s.requests && CanServe(s.requests[id], s.lock, Seen(s), choice)
    case Move(g, choice) => g in s.loops && CanMove(s.loops[g].pc, Cancelled(s, g), choice)
    case Panic(g) => g in s.loops && CanPanic(s.loops[g].pc)
    case Shutdown => true
  }

  function After(s: State, e: Event): State
    requires Can(s, e)
  {
    match e
    case Ask(r) => s.(requests := s.requests[s.nextRequest := r], nextRequest := s.nextRequest + 1)
    case Serve(id, choice) => ServeStep(s, id, choice)
    case Move(g, choice) => MoveStep(s, g, choice)
    case Panic(g) => s.(loops := s.loops[g := Panicked(s.loops[g])])
    case Shutdown => s.(ctxDone := true)
  }

  // The state after a run of the daemon from its start; None when some event cannot happen.
  function Exec(es: seq<Event>): Option<State> {
    if es == [] then Some(Init)
    else
      var prev := Exec(es[..|es| - 1]);
      if prev.Some? && Can(prev.value, es[|es| - 1]) then Some(After(prev.value, es[|es| - 1])) else None
  }

  ghost predicate Reachable(s: State) {
    exists es :: Exec(es) == Some(s)
  }

  // --- The invariant ----------------------------------------------------------------------------------

  // The goroutine has neither cleared tunnelRunning nor died of a panic.
  predicate Active(l: Loop) {
    InLoop(l.pc) || InTeardown(l.pc) || l.pc.Judging? || l.pc.ClearStopped? || l.pc.ClearRestart?
  }

  predicate Wedged(l: Loop) {
    l.panicking && (l.pc.Closing? || l.pc.Gone?)
  }

  predicate Spawning(r: Request) {
    r.StartReset? || r.StartSpawn?
  }

  predicate Judged(r: Request) {
    (r.StopScript? || r.StopUnlock?) && r.seen
  }

  // The request that holds the lock.
  function Holder(s: State): Request {
    if s.lock.Some? && s.lock.value in s.requests then s.requests[s.lock.value] else Finished
  }

  ghost predicate Bookkeeping(s: State) {
    && (forall g | g in s.loops :: g < s.nextLoop)
    && (forall g | g in s.cancelled || g in s.closed :: g in s.loops)
    && (forall g | g in s.loops :: g in s.closed <==> s.loops[g].pc.Gone?)
    && (s.tunnel.Some? ==> s.tunnel.value in s.loops)
  }

  ghost predicate Locking(s: State) {
    && (forall id | id in s.requests :: id < s.nextRequest)
    && (forall id | id in s.requests && Critical(s.requests[id]) :: s.lock == Some(id))
    && (s.lock.Some? ==> s.lock.value in s.requests && Critical(s.requests[s.lock.value]))
  }

  // Who answers for tunnelRunning.
  ghost predicate Ownership(s: State) {
    var h := Holder(s);
    && (forall g | g in s.loops && (Active(s.loops[g]) || s.loops[g].panicking) ::
          s.tunnel == Some(g) && s.running && !h.StartMark? && !Spawning(h))
    && (h.StartMark? ==> !s.running)
    && (Spawning(h) ==> s.running)
    && (s.running && !Spawning(h) ==>
          s.tunnel.Some? && s.tunnel.value in s.loops
          && (Active(s.loops[s.tunnel.value]) || Wedged(s.loops[s.tunnel.value])))
    && (!s.running || Spawning(h) ==> s.held == Nothing)
    && (Judged(h) ==> Seen(s))
    && (h.StopCancel? ==> s.explicitStop)
  }

  // Why the loop may end, and that the auto-restart branch is never taken.
  ghost predicate Reasons(l: Loop, cancelled: bool, explicitStop: bool, ctxDone: bool) {
    && (Active(l) && cancelled ==> explicitStop)
    && ((l.pc.Leaving? || InTeardown(l.pc) || l.pc.Judging? || l.pc.ClearStopped?) && !l.panicking ==> ctxDone || cancelled)
    && !l.pc.ClearRestart? && !l.pc.Backoff? && !l.pc.Deciding?
    && (l.panicking ==> InTeardown(l.pc) || Wedged(l))
    && l.listens <= 1 && (l.listens == 1 ==> l.dialed)
  }

  // What the active goroutine holds at each point of its run.
  ghost predicate Holds(l: Loop, h: Holding) {
    && (l.pc.Storing? || l.pc.Listening? ==> l.dialed)
    && (l.listens == 0 ==> h.listener.None? && !h.iptablesUp && !h.rules)
    && (InLoop(l.pc) && l.listens == 1 ==> h.listener.Some?)
    && (l.pc.Applying? || l.pc.Flagging? ==> l.listens == 1 && !h.iptablesUp)
    && (h.rules ==> h.iptablesUp || l.pc.Flagging? || l.panicking)
    && (l.pc.DropRules? || l.pc.DropFlag? || l.pc.DropClient? ==> h.listener.None?)
    && (l.pc.DropFlag? ==> !h.rules)
    && (l.pc.DropClient? ==> !h.iptablesUp)
    && (l.pc.Judging? || l.pc.ClearStopped? ==> h == Nothing)
  }

  ghost predicate LoopsOk(s: State) {
    forall g | g in s.loops ::
      && Reasons(s.loops[g], g in s.cancelled, s.explicitStop, s.ctxDone)
      && (Active(s.loops[g]) ==> Holds(s.loops[g], s.held))
  }

  ghost predicate Inv(s: State) {
    Bookkeeping(s) && Locking(s) && Ownership(s) && LoopsOk(s)
  }

  // --- Steps keep the invariant -------------------------------------------------------------------

  lemma MoveHolds(l: Loop, h: Holding, g: nat, stopped: bool, choice: bool)
    requires Active(l) && Holds(l, h)
    requires l.listens <= 1 && (l.listens == 1 ==> l.dialed)
    requires l.panicking ==> InTeardown(l.pc)
    requires l.pc.Judging? ==> stopped
    requires !l.pc.ClearRestart?
    ensures var l' := NextLoop(l, h, stopped, choice);
            Active(l') ==> Holds(l', NextHolding(l, h, g, choice))
  {
  }

  lemma MoveReasons(l: Loop, h: Holding, cancelled: bool, explicitStop: bool, ctxDone: bool, choice: bool)
    requires Reasons(l, cancelled, explicitStop, ctxDone) && CanMove(l.pc, ctxDone || cancelled, choice)
    requires l.pc.Closing? || (Active(l) && Holds(l, h))
    ensures Reasons(NextLoop(l, h, explicitStop || ctxDone, choice), cancelled, explicitStop, ctxDone)
    ensures var l' := NextLoop(l, h, explicitStop || ctxDone, choice);
            && (if l.pc.ClearStopped? || l.pc.Closing? then !Active(l') else Active(l') || Wedged(l'))
            && (l.panicking && !Active(l') ==> Wedged(l'))
  {
  }

  lemma MoveLoopsOk(s: State, g: nat, choice: bool)
    requires Inv(s) && Can(s, Move(g, choice))
    ensures LoopsOk(MoveStep(s, g, choice))
  {
    hide Bookkeeping, Locking, Holds, Reasons, NextLoop, NextHolding;
    var l, s' := s.loops[g], MoveStep(s, g, choice);
    ReasonsOf(s, g);
    Known(l);
    MoveReasons(l, s.held, g in s.cancelled, s.explicitStop, s.ctxDone, choice);
    if Active(l) {
      MoveHolds(l, s.held, g, s.explicitStop || s.ctxDone, choice);
    }
    forall g' | g' in s'.loops && g' != g && Active(s'.loops[g']) ensures Holds(s'.loops[g'], s'.held) {
      assert s.tunnel == Some(g');
      assert l.pc.Closing?;
      assert NextHolding(l, s.held, g, choice) == s.held by { ClosingHolds(l, s.held, g, choice); }
    }
    if l.pc.Closing? {
      ClosingHolds(l, s.held, g, choice);
    }
  }

  lemma ClosingHolds(l: Loop, h: Holding, g: nat, choice: bool)
    requires l.pc.Closing? || l.pc.ClearStopped?
    ensures NextHolding(l, h, g, choice) == h
  {
  }

  lemma ReasonsOf(s: State, g: nat)
    requires LoopsOk(s) && g in s.loops
    ensures Reasons(s.loops[g], g in s.cancelled, s.explicitStop, s.ctxDone)
    ensures !s.loops[g].pc.ClearRestart? && !s.loops[g].pc.Backoff? && !s.loops[g].pc.Deciding?
    ensures s.loops[g].panicking ==> InTeardown(s.loops[g].pc) || Wedged(s.loops[g])
    ensures s.loops[g].pc.Judging? ==> s.explicitStop || s.ctxDone
    ensures Active(s.loops[g]) ==> Holds(s.loops[g], s.held)
    ensures s.loops[g].pc.ClearStopped? ==> s.held == Nothing
    ensures s.loops[g].listens <= 1 && (s.loops[g].listens == 1 ==> s.loops[g].dialed)
  {
  }

  lemma MoveRecord(s: State, g: nat, choice: bool)
    requires Inv(s) && Can(s, Move(g, choice))
    ensures var l, l' := s.loops[g], MoveStep(s, g, choice).loops[g];
            && l'.panicking == l.panicking && (l'.pc.Gone? <==> l.pc.Closing?)
            && (if l.pc.ClearStopped? || l.pc.Closing? then !Active(l') else Active(l') || Wedged(l'))
            && MoveStep(s, g, choice).requests == s.requests
            && (l.pc.ClearStopped? ==> s.held == Nothing)
            && (l.panicking && !Active(l') ==> Wedged(l'))
            && (l.pc.Closing? || l.pc.ClearStopped? ==> MoveStep(s, g, choice).held == s.held)
  {
    hide Bookkeeping, Locking, Ownership, LoopsOk, Reasons, Holds, NextPc, Active, Wedged, NextHolding;
    var l := s.loops[g];
    ReasonsOf(s, g);
    Known(l);
    MoveReasons(l, s.held, g in s.cancelled, s.explicitStop, s.ctxDone, choice);
    ClosesLast(l, s.held, s.explicitStop || s.ctxDone, choice);
    if l.pc.Closing? || l.pc.ClearStopped? {
      ClosingHolds(l, s.held, g, choice);
    }
  }

  lemma ClosesLast(l: Loop, h: Holding, stopped: bool, choice: bool)
    ensures !l.pc.Gone? ==> (NextPc(l, h, stopped, choice).Gone? <==> l.pc.Closing?)
  {
  }

  lemma MoveOwnership(s: State, g: nat, choice: bool)
    requires Inv(s) && Can(s, Move(g, choice))
    ensures Ownership(MoveStep(s, g, choice))
  {
    MoveRecord(s, g, choice);
    hide Bookkeeping, Locking, LoopsOk, Active, Wedged, CanMove, NextLoop, NextHolding;
    var l, s' := s.loops[g], MoveStep(s, g, choice);
    assert l.pc.Closing? || Active(l) by { ReasonsOf(s, g); Known(l); }
    assert !Active(l) ==> !l.pc.ClearStopped? by { Known(l); }
    assert l.pc.Closing? ==> !Active(l) by { Known(l); }
    assert Holder(s') == Holder(s);
  }

  lemma Known(l: Loop)
    ensures l.pc.ClearStopped? || l.pc.Judging? || InTeardown(l.pc) || InLoop(l.pc) ==> Active(l)
    ensures Active(l) || l.pc.Backoff? || l.pc.Deciding? || l.pc.Closing? || l.pc.Gone?
    ensures l.pc.Closing? || l.pc.Gone? ==> !Active(l)
    ensures l.pc.ClearStopped? ==> Active(l)
  {
  }

  lemma MoveBookkeeping(s: State, g: nat, choice: bool)
    requires Inv(s) && Can(s, Move(g, choice))
    ensures Locking(MoveStep(s, g, choice)) && Bookkeeping(MoveStep(s, g, choice))
  {
    MoveRecord(s, g, choice);
    hide Ownership, LoopsOk, NextLoop, NextHolding;
  }

  lemma PanicKeepsInv(s: State, g: nat)
    requires Inv(s) && Can(s, Panic(g))
    ensures Inv(After(s, Panic(g)))
  {
    var l, s' := s.loops[g], After(s, Panic(g));
    ReasonsOf(s, g);
    assert Active(l) && s.tunnel == Some(g);
    PanicRecord(l, s.held, g in s.cancelled, s.explicitStop, s.ctxDone);
    Known(l);
    hide Reasons, Holds, CanPanic, Panicked, Active, Wedged, Critical;
    assert Ownership(s') by { hide LoopsOk, Locking; }
    assert LoopsOk(s') by { hide Bookkeeping, Locking; }
    assert Bookkeeping(s') by { hide LoopsOk, Ownership, Locking; }
    assert Locking(s') by { hide LoopsOk, Ownership, Bookkeeping; }
  }

  lemma PanicRecord(l: Loop, h: Holding, cancelled: bool, explicitStop: bool, ctxDone: bool)
    requires Reasons(l, cancelled, explicitStop, ctxDone) && CanPanic(l.pc) && Holds(l, h)
    ensures var l' := Panicked(l);
            && l'.panicking && Reasons(l', cancelled, explicitStop, ctxDone)
            && (if Active(l') then Holds(l', h) else Wedged(l')) && !l'.pc.Gone?
  {
  }

  // --- Request steps --------------------------------------------------------------------------------

  lemma ServeLocking(s: State, id: nat, choice: bool)
    requires Inv(s) && Can(s, Serve(id, choice))
    ensures Locking(ServeStep(s, id, choice))
    ensures Holder(ServeStep(s, id, choice))
            == var r := NextRequest(s.requests[id], s.running, choice); if Critical(r) then r else Finished
    ensures if Critical(s.requests[id]) then s.lock == Some(id) && Holder(s) == s.requests[id] else s.lock == None && Holder(s) == Finished
  {
    hide Bookkeeping, Ownership, LoopsOk, NextRequest, ServedHolding;
    var q := s.requests[id];
    assert Critical(q) ==> s.lock == Some(id);
    assert !Critical(q) ==> s.lock.None?;
  }

  lemma ServeBookkeeping(s: State, id: nat, choice: bool)
    requires Inv(s) && Can(s, Serve(id, choice))
    ensures Bookkeeping(ServeStep(s, id, choice))
  {
    hide Locking, Ownership, LoopsOk, NextRequest, ServedHolding, CanServe;
    assert s.nextLoop !in s.loops && s.nextLoop !in s.closed;
  }

  lemma NextRequestFacts(q: Request, running: bool, choice: bool)
    ensures var r := NextRequest(q, running, choice);
            && (r.StartMark? ==> q.StartCheck? && !running)
            && (r.StartReset? ==> q.StartMark?) && (r.StartSpawn? ==> q.StartReset?)
            && (r.StopCancel? ==> q.StopFlag?)
            && (Judged(r) ==> Judged(q) || (q.StopWait? && choice))
            && (q.StartMark? ==> r.StartReset?) && (q.StartReset? ==> r.StartSpawn?) && (q.StartSpawn? ==> r.Finished?)
            && (q.StartSpawn? || q.StartMark? || q.StartReset? || q.StopFlag? || q.StopCancel? || Judged(q) ==> Critical(q))
            && (Spawning(r) || r.StartMark? ==> Critical(r))
  {
  }

  lemma ServeOwnership(s: State, id: nat, choice: bool)
    requires Inv(s) && Can(s, Serve(id, choice))
    ensures Ownership(ServeStep(s, id, choice))
  {
    var q, s' := s.requests[id], ServeStep(s, id, choice);
    ServeLocking(s, id, choice);
    NextRequestFacts(q, s.running, choice);
    assert q.StopWait? && choice ==> Seen(s);
    var newborn := Loop(Waiting, false, 0, false);
    assert Active(newborn);
    assert s.nextLoop !in s.loops;
    assert s.held == Nothing ==> s'.held == Nothing;
    hide Bookkeeping, Locking, LoopsOk, NextRequest, CanServe, ServedHolding, Active, Wedged, Critical;
    assert Seen(s) && s'.tunnel == s.tunnel ==> Seen(s');
  }

  lemma ServeReasons(s: State, id: nat, choice: bool)
    requires Inv(s) && Can(s, Serve(id, choice))
    ensures var s' := ServeStep(s, id, choice);
            forall g | g in s.loops :: Reasons(s.loops[g], g in s'.cancelled, s'.explicitStop, s'.ctxDone)
  {
    var q, s' := s.requests[id], ServeStep(s, id, choice);
    ServeLocking(s, id, choice);
    NextRequestFacts(q, s.running, choice);
    hide Bookkeeping, Locking, NextRequest, CanServe, ServedHolding, Critical, Holds, Active, Wedged;
    forall g | g in s.loops ensures Reasons(s.loops[g], g in s'.cancelled, s'.explicitStop, s'.ctxDone) {
      ReasonsOf(s, g);
      assert q.StartReset? ==> !Active(s.loops[g]);
      assert g in s'.cancelled && g !in s.cancelled ==> q.StopCancel?;
    }
  }

  lemma ServeHolds(r: Request, l: Loop, h: Holding, choice: bool)
    requires Holds(l, h)
    ensures Holds(l, ServedHolding(r, h, choice))
  {
  }

  lemma ServeLoopsOk(s: State, id: nat, choice: bool)
    requires Inv(s) && Can(s, Serve(id, choice))
    ensures LoopsOk(ServeStep(s, id, choice))
  {
    var q, s' := s.requests[id], ServeStep(s, id, choice);
    ServeReasons(s, id, choice);
    assert s.nextLoop !in s.loops && s.nextLoop !in s.cancelled;
    ServeLocking(s, id, choice);
    NextRequestFacts(q, s.running, choice);
    var newborn := Loop(Waiting, false, 0, false);
    assert q.StartSpawn? ==> s.held == Nothing && s'.held == Nothing;
    FreshLoop(s'.explicitStop, s'.ctxDone);
    forall g | g in s'.loops
      ensures Reasons(s'.loops[g], g in s'.cancelled, s'.explicitStop, s'.ctxDone)
      ensures Active(s'.loops[g]) ==> Holds(s'.loops[g], s'.held)
    {
      hide Bookkeeping, Locking, Ownership, NextRequest, CanServe, Critical, Holds, Active, Reasons, ServedHolding;
      if g in s.loops && Active(s.loops[g]) {
        ServeHolds(q, s.loops[g], s.held, choice);
      }
    }
  }

  lemma FreshLoop(explicitStop: bool, ctxDone: bool)
    ensures Reasons(Loop(Waiting, false, 0, false), false, explicitStop, ctxDone) && Holds(Loop(Waiting, false, 0, false), Nothing)
  {
  }

  lemma AskKeepsInv(s: State, r: Request)
    requires Inv(s) && Can(s, Ask(r))
    ensures Inv(After(s, Ask(r)))
  {
    var s' := After(s, Ask(r));
    assert s.nextRequest !in s.requests;
    assert Locking(s') && Holder(s') == Holder(s) by { hide Bookkeeping, LoopsOk, Ownership; }
    assert Bookkeeping(s') && Ownership(s') && LoopsOk(s') by { hide Locking, Holder, Reasons, Holds, Active, Wedged; }
  }

  lemma ShutdownKeepsInv(s: State)
    requires Inv(s)
    ensures Inv(After(s, Shutdown))
  {
    var s' := After(s, Shutdown);
    assert LoopsOk(s') by { hide Bookkeeping, Locking, Ownership, Holds; }
    assert Bookkeeping(s') && Locking(s') && Ownership(s') by { hide LoopsOk; }
  }

  lemma AfterKeepsInv(s: State, e: Event)
    requires Inv(s) && Can(s, e)
    ensures Inv(After(s, e))
  {
    hide Bookkeeping, Locking, Ownership, LoopsOk, MoveStep, ServeStep, Panicked;
    match e
    case Ask(r) => AskKeepsInv(s, r);
    case Serve(id, choice) =>
      ServeLocking(s, id, choice);
      ServeBookkeeping(s, id, choice);
      ServeOwnership(s, id, choice);
      ServeLoopsOk(s, id, choice);
    case Move(g, choice) =>
      MoveBookkeeping(s, g, choice);
      MoveOwnership(s, g, choice);
      MoveLoopsOk(s, g, choice);
    case Panic(g) => PanicKeepsInv(s, g);
    case Shutdown => ShutdownKeepsInv(s);
  }

  lemma {:induction false} ExecKeepsInv(es: seq<Event>)
    ensures Exec(es).Some? ==> Inv(Exec(es).value)
  {
    hide After, Can;
    if es != [] && Exec(es).Some? {
      ExecKeepsInv(es[..|es| - 1]);
      hide Inv;
      AfterKeepsInv(Exec(es[..|es| - 1]).value, es[|es| - 1]);
    }
  }

  // --- Main results -------------------------------------------------------------------------------------

  lemma ReachableInv(s: State)
    requires Reachable(s)
    ensures Inv(s)
  {
    var es :| Exec(es) == Some(s);
    ExecKeepsInv(es);
  }

  predicate Executing(l: Loop) {
    InLoop(l.pc) || InTeardown(l.pc)
  }

  // In every interleaving at most one tunnelLoop executes, and only while tunnelRunning is set.
  lemma OneLoop(s: State, g1: nat, g2: nat)
    requires Reachable(s) && g1 in s.loops && g2 in s.loops && Executing(s.loops[g1]) && Executing(s.loops[g2])
    ensures g1 == g2 && s.running
  {
    ReachableInv(s);
    InvOwner(s, g1);
    InvOwner(s, g2);
  }

  lemma InvOwner(s: State, g: nat)
    requires Inv(s) && g in s.loops && (Active(s.loops[g]) || s.loops[g].panicking)
    ensures s.tunnel == Some(g) && s.running && !Holder(s).StartMark? && !Spawning(Holder(s))
  {
    hide Bookkeeping, Locking, LoopsOk, Active;
  }

  // A loop that returned finds explicitStop set or the daemon stopping, so the auto-restart branch of
  // the goroutine is dead code.
  lemma AutoRestartIsDead(s: State, g: nat)
    requires Reachable(s) && g in s.loops
    ensures s.loops[g].pc.Judging? ==> s.explicitStop || s.ctxDone
    ensures !s.loops[g].pc.ClearRestart? && !s.loops[g].pc.Backoff? && !s.loops[g].pc.Deciding?
  {
    ReachableInv(s);
    ReasonsOf(s, g);
  }

  // explicitStop is not reset while a goroutine has yet to clear tunnelRunning.
  lemma StopSticks(s: State, e: Event, g: nat)
    requires Reachable(s) && Can(s, e) && g in s.loops && Active(s.loops[g]) && s.explicitStop
    ensures After(s, e).explicitStop
  {
    ReachableInv(s);
    InvOwner(s, g);
    if e.Serve? {
      ServeLocking(s, e.id, e.choice);
      NextRequestFacts(s.requests[e.id], s.running, e.choice);
    }
  }

  // When tunnelRunning is false the client is nil, the listeners are cancelled, and no rules are up.
  lemma StoppedIsReleased(s: State)
    requires Reachable(s) && !s.running
    ensures s.held == Nothing
  {
    ReachableInv(s);
    hide Bookkeeping, Locking, LoopsOk;
  }

  // Listeners start at most once per run and only after a successful dial; rules are up only in a run
  // whose listeners have started.
  lemma ListenersThenRules(s: State, g: nat)
    requires Reachable(s) && g in s.loops
    ensures s.loops[g].listens <= 1
    ensures s.loops[g].listens == 1 ==> s.loops[g].dialed
    ensures Active(s.loops[g]) && (s.held.iptablesUp || s.held.rules) ==> s.loops[g].listens == 1
  {
    ReachableInv(s);
    ReasonsOf(s, g);
  }

  // iptablesUp is set by a successful Apply and cleared by the teardown alone: it survives every
  // reconnect.
  lemma RulesStay(s: State, e: Event)
    requires Reachable(s) && Can(s, e) && After(s, e).held.iptablesUp != s.held.iptablesUp
    ensures e.Move? && if s.held.iptablesUp then s.loops[e.g].pc.DropFlag? else s.loops[e.g].pc.Flagging? && s.loops[e.g].dialed
  {
    ReachableInv(s);
    hide Bookkeeping, Locking, Ownership;
    if e.Move? {
      ReasonsOf(s, e.g);
      Known(s.loops[e.g]);
    }
  }

  // The rules in the kernel appear with a successful Apply after a dial. They go with the teardown of a run that
  // has set iptablesUp, or with the script of a stop.
  lemma KernelRulesStay(s: State, e: Event)
    requires Reachable(s) && Can(s, e) && After(s, e).held.rules != s.held.rules
    ensures if !s.held.rules then e.Move? && e.choice && s.loops[e.g].pc.Applying? && s.loops[e.g].dialed
            else if e.Move? then s.loops[e.g].pc.DropRules? && s.held.iptablesUp
            else e.Serve? && e.choice && s.requests[e.id].StopScript?
  {
    ReachableInv(s);
    hide Bookkeeping, Locking, Ownership;
    if e.Move? {
      ReasonsOf(s, e.g);
      Known(s.loops[e.g]);
    }
  }

  // A stop that saw done from a goroutine that did not panic ends with everything released and
  // tunnelRunning clear, so that the start after it is not refused.
  lemma StopThatSeesDone(s: State, id: nat, again: bool)
    requires Reachable(s) && id in s.requests && s.requests[id] == StopUnlock(again, true)
    ensures s.tunnel.Some? && s.tunnel.value in s.loops
    ensures !s.loops[s.tunnel.value].panicking ==> !s.running && s.held == Nothing && !After(s, Serve(id, true)).running
  {
    ReachableInv(s);
    assert Holder(s) == StopUnlock(again, true) by { hide Bookkeeping, Ownership, LoopsOk; }
    assert s.tunnel.Some? && s.tunnel.value in s.loops && s.loops[s.tunnel.value].pc.Gone? by { hide Locking, LoopsOk; }
    Known(s.loops[s.tunnel.value]);
    hide Bookkeeping, Locking, LoopsOk, Active;
  }

  // --- Panics -------------------------------------------------------------------------------------------

  lemma WedgeStep(s: State, e: Event, g: nat)
    requires Inv(s) && Can(s, e) && g in s.loops && s.loops[g].panicking
    ensures var s' := After(s, e);
            g in s'.loops && s'.loops[g].panicking && s'.loops.Keys == s.loops.Keys && s'.running
  {
    assert g < s.nextLoop by { hide Locking, Ownership, LoopsOk; }
    hide Bookkeeping, Locking, Ownership, LoopsOk, Holds, Reasons, NextPc, NextHolding, NextRequest, ServedHolding, CanServe,
         Critical, Active, CanMove, CanPanic, InTeardown;
    InvOwner(s, g);
    if e.Serve? {
      ServeLocking(s, e.id, e.choice);
      NextRequestFacts(s.requests[e.id], s.running, e.choice);
    }
    if e.Move? {
      ReasonsOf(s, e.g);
      Known(s.loops[e.g]);
      if Active(s.loops[e.g]) {
        InvOwner(s, e.g);
      }
    }
  }

  // When all goroutines have ended and no request is at work, tunnelRunning is still set if and only if one of
  // them has panicked.
  lemma StuckExactly(s: State)
    requires Reachable(s) && s.lock.None? && forall g | g in s.loops :: s.loops[g].pc.Gone?
    ensures s.running <==> exists g :: g in s.loops && s.loops[g].panicking
  {
    ReachableInv(s);
    hide Bookkeeping, Locking, LoopsOk;
    if s.running {
      assert s.loops[s.tunnel.value].panicking;
    }
  }

  // Once a goroutine has panicked, tunnelRunning stays set and no goroutine is ever spawned again:
  // every later start is refused until the daemon process ends.
  lemma {:induction false} PanicIsForever(es: seq<Event>, fs: seq<Event>, s: State, s': State, g: nat)
    requires Exec(es) == Some(s) && Exec(es + fs) == Some(s') && g in s.loops && s.loops[g].panicking
    ensures s'.running && s'.loops.Keys == s.loops.Keys && s'.loops[g].panicking
  {
    hide After, Can;
    if fs == [] {
      assert es + fs == es;
      ExecKeepsInv(es);
      InvOwner(s, g);
    } else {
      var n := |fs| - 1;
      assert (es + fs)[..|es + fs| - 1] == es + fs[..n];
      var prev := Exec(es + fs[..n]).value;
      PanicIsForever(es, fs[..n], s, prev, g);
      ExecKeepsInv(es + fs[..n]);
      hide Inv;
      WedgeStep(prev, fs[n], g);
    }
  }

  lemma Snoc(es: seq<Event>, e: Event, s: State, s': State)
    requires Exec(es) == Some(s) && Can(s, e) && s' == After(s, e)
    ensures Exec(es + [e]) == Some(s')
  {
    assert (es + [e])[..|es|] == es;
  }

  // The daemon with one request and at most one goroutine.
  function Single(lock: Option<nat>, running: bool, r: Request, loops: map<nat, Loop>, closed: set<nat>): State {
    State(lock, running, false, false, if loops == map[] then None else Some(0), {}, closed, loops, map[0 := r], Nothing,
          if loops == map[] then 0 else 1, 1)
  }

  lemma StartedOnce() returns (es: seq<Event>)
    ensures Exec(es) == Some(Single(None, true, Finished, map[0 := Loop(Waiting, false, 0, false)], {}))
  {
    hide Exec;
    var ask, serve := Ask(WantStart), Serve(0, true);
    assert Exec([]) == Some(Init) by { ExecEmpty(); }
    Snoc([], ask, Init, Single(None, false, WantStart, map[], {}));
    es := [] + [ask];
    Snoc(es, serve, Single(None, false, WantStart, map[], {}), Single(Some(0), false, StartCheck, map[], {}));
    es := es + [serve];
    Snoc(es, serve, Single(Some(0), false, StartCheck, map[], {}), Single(Some(0), false, StartMark, map[], {}));
    es := es + [serve];
    Snoc(es, serve, Single(Some(0), false, StartMark, map[], {}), Single(Some(0), true, StartReset, map[], {}));
    es := es + [serve];
    Snoc(es, serve, Single(Some(0), true, StartReset, map[], {}), Single(Some(0), true, StartSpawn, map[], {}));
    es := es + [serve];
    Snoc(es, serve, Single(Some(0), true, StartSpawn, map[], {}),
         Single(None, true, Finished, map[0 := Loop(Waiting, false, 0, false)], {}));
    es := es + [serve];
  }

  lemma ExecEmpty()
    ensures Exec([]) == Some(Init)
  {
  }

  lemma PanicStepOf(es: seq<Event>, e: Event, a: Pc, pa: bool, b: Pc)
    requires Exec(es) == Some(Single(None, true, Finished, map[0 := Loop(a, pa, 0, false)], {}))
    requires (e == Panic(0) && a.Waiting? && b.DropListeners?)
             || (e == Move(0, true) && pa && ((a.DropListeners? && b.DropRules?) || (a.DropRules? && b.DropClient?)
                                              || (a.DropClient? && b.Closing?)))
    ensures Exec(es + [e]) == Some(Single(None, true, Finished, map[0 := Loop(b, true, 0, false)], {}))
  {
    hide Exec;
    var s := Single(None, true, Finished, map[0 := Loop(a, pa, 0, false)], {});
    var s' := Single(None, true, Finished, map[0 := Loop(b, true, 0, false)], {});
    assert map[0 := Loop(a, pa, 0, false)][0 := Loop(b, true, 0, false)] == map[0 := Loop(b, true, 0, false)];
    Snoc(es, e, s, s');
  }

  // Such a run exists: one start, and a panic in the loop's first iteration.
  lemma PanicCanWedge() returns (es: seq<Event>, s: State)
    ensures Exec(es) == Some(s) && 0 in s.loops && s.loops[0].panicking && s.lock.None? && 0 in s.closed
  {
    es := StartedOnce();
    hide Exec;
    PanicStepOf(es, Panic(0), Waiting, false, DropListeners);
    es := es + [Panic(0)];
    PanicStepOf(es, Move(0, true), DropListeners, true, DropRules);
    es := es + [Move(0, true)];
    PanicStepOf(es, Move(0, true), DropRules, true, DropClient);
    es := es + [Move(0, true)];
    PanicStepOf(es, Move(0, true), DropClient, true, Closing);
    es := es + [Move(0, true)];
    var before := Single(None, true, Finished, map[0 := Loop(Closing, true, 0, false)], {});
    s := Single(None, true, Finished, map[0 := Loop(Gone, true, 0, false)], {0});
    assert map[0 := Loop(Closing, true, 0, false)][0 := Loop(Gone, true, 0, false)] == map[0 := Loop(Gone, true, 0, false)];
    Snoc(es, Move(0, true), before, s);
    es := es + [Move(0, true)];
  }

  // --- Lost restarts --------------------------------------------------------------------------------------

  // The flag is set, when a start looks at it, if and only if some goroutine has yet to clear it or has panicked.
  lemma RefusedExactly(s: State, id: nat)
    requires Reachable(s) && id in s.requests && s.requests[id].StartCheck?
    ensures s.running <==> exists g :: g in s.loops && (Active(s.loops[g]) || s.loops[g].panicking)
  {
    ReachableInv(s);
    assert Holder(s) == s.requests[id] by { hide Bookkeeping, Ownership, LoopsOk; }
    hide Bookkeeping, Locking, LoopsOk, Active;
    if s.running {
      assert Active(s.loops[s.tunnel.value]) || s.loops[s.tunnel.value].panicking;
    }
  }

  ghost predicate Finishing(s: State, id: nat) {
    id in s.requests && forall j | j in s.requests && j != id :: s.requests[j] == Finished
  }

  // How far a start has come that found the flag as it was in s: nothing happens if it was set, and otherwise
  // there is a new goroutine in the end.
  ghost predicate Progress(s: State, u: State, id: nat) {
    && Finishing(u, id)
    && (if s.running then u.requests[id] == Finished && u.loops.Keys == s.loops.Keys
        else
          || (u.requests[id] == Finished && s.nextLoop in u.loops)
          || ((u.requests[id].StartMark? || Spawning(u.requests[id])) && u.loops.Keys == s.loops.Keys && u.nextLoop == s.nextLoop))
  }

  lemma StartChecked(s: State, id: nat)
    requires Finishing(s, id) && s.requests[id].StartCheck? && Can(s, Serve(id, true))
    ensures Progress(s, After(s, Serve(id, true)), id)
  {
  }

  lemma StartGoesOn(s: State, u: State, id: nat, e: Event)
    requires Progress(s, u, id) && Inv(u) && Can(u, e) && !e.Ask?
    ensures Progress(s, After(u, e), id)
  {
    if e.Move? {
      ReasonsOf(u, e.g);
    }
    hide Inv, NextPc, NextHolding, ServedHolding, CanMove, CanPanic;
  }

  lemma {:induction false} StartEnds(es: seq<Event>, fs: seq<Event>, s: State, u: State, id: nat)
    requires Exec(es) == Some(s) && Finishing(s, id) && s.requests[id].StartCheck?
    requires Exec((es + [Serve(id, true)]) + fs) == Some(u) && forall e | e in fs :: !e.Ask?
    ensures Progress(s, u, id)
  {
    hide After, Can, Progress, Finishing;
    var checked := es + [Serve(id, true)];
    if fs == [] {
      assert checked + fs == checked && checked[..|checked| - 1] == es;
      StartChecked(s, id);
    } else {
      var n := |fs| - 1;
      assert (checked + fs)[..|checked + fs| - 1] == checked + fs[..n];
      var prev := Exec(checked + fs[..n]).value;
      StartEnds(es, fs[..n], s, prev, id);
      ExecKeepsInv(checked + fs[..n]);
      hide Inv;
      StartGoesOn(s, prev, id, fs[n]);
    }
  }

  // The second half of a restart whose stop timed out, or any other start with nothing else asked: when it has
  // ended there is no new goroutine if and only if, when it looked, an old one had yet to clear tunnelRunning or
  // had panicked.
  lemma {:induction false} RestartLostExactly(es: seq<Event>, fs: seq<Event>, s: State, u: State, id: nat)
    requires Exec(es) == Some(s) && Finishing(s, id) && s.requests[id].StartCheck?
    requires Exec((es + [Serve(id, true)]) + fs) == Some(u) && (forall e | e in fs :: !e.Ask?)
    requires id in u.requests && u.requests[id] == Finished
    ensures u.loops.Keys == s.loops.Keys <==> exists g :: g in s.loops && (Active(s.loops[g]) || s.loops[g].panicking)
  {
    StartEnds(es, fs, s, u, id);
    RefusedExactly(s, id);
    ExecKeepsInv(es);
    assert s.nextLoop !in s.loops by { hide Locking, Ownership, LoopsOk, Exec; }
    hide Inv, Active, Exec, Finishing;
  }

  // The daemon with a start that has ended, another request, and one goroutine that has nothing yet.
  function Duo(lock: Option<nat>, running: bool, stop: bool, r: Request, cancelled: set<nat>, pc: Pc, closed: set<nat>): State {
    State(lock, running, stop, false, Some(0), cancelled, closed, map[0 := Loop(pc, false, 0, false)],
          map[0 := Finished, 1 := r], Nothing, 1, 2)
  }

  lemma DuoServed(es: seq<Event>, lock: Option<nat>, running: bool, stop: bool, r: Request, cancelled: set<nat>, pc: Pc, choice: bool)
    requires Exec(es) == Some(Duo(lock, running, stop, r, cancelled, pc, {})) && CanServe(r, lock, false, choice)
    requires !r.StartMark? && !r.StartReset? && !r.StartSpawn?
    ensures var r' := NextRequest(r, running, choice);
            Exec(es + [Serve(1, choice)]) == Some(Duo(if Critical(r') then Some(1) else None, running, stop || r.StopFlag?, r',
                                                      if r.StopCancel? then cancelled + {0} else cancelled, pc, {}))
  {
    var s := Duo(lock, running, stop, r, cancelled, pc, {});
    var r' := NextRequest(r, running, choice);
    assert map[0 := Finished, 1 := r][1 := r'] == map[0 := Finished, 1 := r'];
    hide Exec, NextRequest, Critical;
    Snoc(es, Serve(1, choice), s, After(s, Serve(1, choice)));
  }

  // The steps of the goroutine that acquire nothing.
  predicate Idle(pc: Pc, choice: bool) {
    || pc.Waiting? || pc.Probing? || (pc.Dialing? && !choice) || InTeardown(pc)
    || pc.Judging? || pc.ClearStopped? || pc.Closing?
  }

  lemma IdleMove(pc: Pc, stop: bool, choice: bool)
    requires Idle(pc, choice)
    ensures var l := Loop(pc, false, 0, false);
            && NextHolding(l, Nothing, 0, choice) == Nothing
            && NextLoop(l, Nothing, stop, choice) == Loop(NextPc(l, Nothing, stop, choice), false, 0, false)
  {
  }

  lemma DuoMoved(es: seq<Event>, lock: Option<nat>, running: bool, stop: bool, r: Request, cancelled: set<nat>, pc: Pc, choice: bool)
    requires Exec(es) == Some(Duo(lock, running, stop, r, cancelled, pc, {})) && CanMove(pc, 0 in cancelled, choice) && Idle(pc, choice)
    ensures Exec(es + [Move(0, choice)])
         == Some(Duo(lock, running && !pc.ClearStopped?, stop, r, cancelled,
                     NextPc(Loop(pc, false, 0, false), Nothing, stop, choice), if pc.Closing? then {0} else {}))
  {
    var s := Duo(lock, running, stop, r, cancelled, pc, {});
    var l := Loop(NextPc(Loop(pc, false, 0, false), Nothing, stop, choice), false, 0, false);
    IdleMove(pc, stop, choice);
    assert !pc.ClearRestart? && !pc.Deciding?;
    hide Exec, NextPc, NextHolding, NextLoop, CanMove, Idle;
    assert map[0 := Loop(pc, false, 0, false)][0 := l] == map[0 := l];
    assert {} + {0} == {0};
    Snoc(es, Move(0, choice), s, After(s, Move(0, choice)));
  }

  // A start, and then a restart while the goroutine dials.
  lemma RestartAsked() returns (es: seq<Event>)
    ensures Exec(es) == Some(Duo(None, true, false, WantStop(true), {}, Dialing, {}))
    ensures |es| >= 3 && es[|es| - 3..] == [Ask(WantStop(true)), Move(0, true), Move(0, true)]
  {
    es := StartedOnce();
    hide Exec;
    var s := Single(None, true, Finished, map[0 := Loop(Waiting, false, 0, false)], {});
    var s' := Duo(None, true, false, WantStop(true), {}, Waiting, {});
    assert 0 in s.loops;
    assert map[0 := Finished][1 := WantStop(true)] == map[0 := Finished, 1 := WantStop(true)];
    Snoc(es, Ask(WantStop(true)), s, s');
    es := es + [Ask(WantStop(true))];
    DuoMoved(es, None, true, false, WantStop(true), {}, Waiting, true);
    es := es + [Move(0, true)];
    DuoMoved(es, None, true, false, WantStop(true), {}, Probing, true);
    es := es + [Move(0, true)];
  }

  lemma RestartStops(es: seq<Event>) returns (fs: seq<Event>)
    requires Exec(es) == Some(Duo(None, true, false, WantStop(true), {}, Dialing, {}))
    ensures Exec(es + fs) == Some(Duo(Some(1), true, true, StopWait(true), {0}, Dialing, {}))
    ensures forall e | e in fs :: !e.Ask?
  {
    hide Exec;
    var serve := Serve(1, true);
    DuoServed(es, None, true, false, WantStop(true), {}, Dialing, true);
    var es1 := es + [serve];
    DuoServed(es1, Some(1), true, false, StopCheck(true), {}, Dialing, true);
    var es2 := es1 + [serve];
    DuoServed(es2, Some(1), true, false, StopFlag(true), {}, Dialing, true);
    var es3 := es2 + [serve];
    DuoServed(es3, Some(1), true, true, StopCancel(true), {}, Dialing, true);
    var es4 := es3 + [serve];
    assert {} + {0} == {0};
    DuoServed(es4, Some(1), true, true, StopClient(true), {0}, Dialing, true);
    fs := [serve, serve, serve, serve, serve];
    assert es4 + [serve] == es + fs;
  }

  // The stop times out, and the start after it finds the flag set.
  lemma RestartTimesOut(es: seq<Event>) returns (fs: seq<Event>)
    requires Exec(es) == Some(Duo(Some(1), true, true, StopWait(true), {0}, Dialing, {}))
    ensures Exec(es + fs) == Some(Duo(None, true, true, Finished, {0}, Dialing, {}))
    ensures forall e | e in fs :: !e.Ask?
  {
    hide Exec;
    var timeout, serve := Serve(1, false), Serve(1, true);
    DuoServed(es, Some(1), true, true, StopWait(true), {0}, Dialing, false);
    var es1 := es + [timeout];
    DuoServed(es1, Some(1), true, true, StopScript(true, false), {0}, Dialing, true);
    var es2 := es1 + [serve];
    DuoServed(es2, Some(1), true, true, StopUnlock(true, false), {0}, Dialing, true);
    var es3 := es2 + [serve];
    DuoServed(es3, None, true, true, WantStart, {0}, Dialing, true);
    var es4 := es3 + [serve];
    DuoServed(es4, Some(1), true, true, StartCheck, {0}, Dialing, true);
    fs := [timeout, serve, serve, serve, serve];
    assert es4 + [serve] == es + fs;
  }

  lemma GoroutineLeaves(es: seq<Event>) returns (fs: seq<Event>)
    requires Exec(es) == Some(Duo(None, true, true, Finished, {0}, Dialing, {}))
    ensures Exec(es + fs) == Some(Duo(None, true, true, Finished, {0}, DropClient, {}))
    ensures forall e | e in fs :: !e.Ask?
  {
    hide Exec;
    var no := Move(0, false);
    DuoMoved(es, None, true, true, Finished, {0}, Dialing, false);
    var es1 := es + [no];
    DuoMoved(es1, None, true, true, Finished, {0}, Waiting, false);
    var es2 := es1 + [no];
    DuoMoved(es2, None, true, true, Finished, {0}, DropListeners, false);
    var es3 := es2 + [no];
    DuoMoved(es3, None, true, true, Finished, {0}, DropRules, false);
    fs := [no, no, no, no];
    assert es3 + [no] == es + fs;
  }

  lemma GoroutineEnds(es: seq<Event>) returns (fs: seq<Event>)
    requires Exec(es) == Some(Duo(None, true, true, Finished, {0}, DropClient, {}))
    ensures Exec(es + fs) == Some(Duo(None, false, true, Finished, {0}, Gone, {0}))
    ensures forall e | e in fs :: !e.Ask?
  {
    hide Exec;
    var no := Move(0, false);
    DuoMoved(es, None, true, true, Finished, {0}, DropClient, false);
    var es1 := es + [no];
    DuoMoved(es1, None, true, true, Finished, {0}, Judging, false);
    var es2 := es1 + [no];
    DuoMoved(es2, None, true, true, Finished, {0}, ClearStopped, false);
    var es3 := es2 + [no];
    DuoMoved(es3, None, false, true, Finished, {0}, Closing, false);
    fs := [no, no, no, no];
    assert es3 + [no] == es + fs;
  }

  // Such a run exists: a start, and a restart while the goroutine dials for longer than the stop waits. It ends
  // with no tunnel, although the restart was asked for last and everything it did has been done.
  lemma RestartCanBeLost() returns (es: seq<Event>, fs: seq<Event>, s: State)
    ensures es != [] && es[|es| - 1] == Ask(WantStop(true)) && forall e | e in fs :: !e.Ask?
    ensures Exec(es + fs) == Some(s) && !s.running && s.loops.Keys == {0} && s.loops[0].pc.Gone? && !s.loops[0].panicking
    ensures forall id | id in s.requests :: s.requests[id] == Finished
  {
    hide Exec;
    var all := RestartAsked();
    var n := |all| - 2;
    var a := RestartStops(all);
    var b := RestartTimesOut(all + a);
    var c := GoroutineLeaves((all + a) + b);
    var d := GoroutineEnds(((all + a) + b) + c);
    es, fs := all[..n], all[n..] + a + b + c + d;
    assert all == all[..n] + all[n..];
    assert es + fs == (((all + a) + b) + c) + d;
    s := Duo(None, false, true, Finished, {0}, Gone, {0});
  }
}
