// internal/api State: Set, Subscribe, broadcast and the subscribers, as a step system. Set is a
// mutation followed by a broadcast that sends to one capacity-1 channel at a time; a subscriber
// receives and then takes a snapshot.
module PubSub {
  import opened Basics

  // A Set call after its mutation: waiting for subsMu, or at position next of the subscriber list.
  datatype Setter = Mutated | Sending(next: nat)

  datatype Phase =
    | Opened     // a first snapshot was sent; not subscribed yet
    | Idle       // waiting on the channel
    | Received   // took the token; the snapshot is still to come
    | Left

  // seen: the version of the last snapshot. base: the version at Subscribe.
  datatype Reader = Reader(phase: Phase, seen: nat, base: nat)

  // version counts the mutations. tokens: the channels that hold a token.
  datatype State = State(
    version: nat, subs: seq<nat>, tokens: set<nat>, lock: Option<nat>,
    setters: map<nat, Setter>, readers: map<nat, Reader>, nextSetter: nat, nextReader: nat)

  datatype Event =
    | Mutate              // Set: fn() under mu
    | Lock(id: nat)       // broadcast: subsMu.Lock
    | Send(id: nat)       // one select of the loop
    | Unlock(id: nat)
    | Open                // a handler sends its first snapshot
    | Subscribe(ch: nat)
    | Unsubscribe(ch: nat)
    | Receive(ch: nat)
    | Snapshot(ch: nat)

  const Init := State(0, [], {}, None, map[], map[], 0, 0)

  predicate InPhase(s: State, ch: nat, phase: Phase) {
    ch in s.readers && s.readers[ch].phase == phase
  }

  function Without(subs: seq<nat>, ch: nat): seq<nat> {
    if subs == [] then [] else if subs[0] == ch then subs[1..] else [subs[0]] + Without(subs[1..], ch)
  }

  predicate Can(s: State, e: Event) {
    match e
    case Mutate => true
    case Lock(id) => s.lock.None? && id in s.setters && s.setters[id].Mutated?
    case Send(id) => id in s.setters && s.setters[id].Sending? && s.setters[id].next < |s.subs|
    case Unlock(id) => id in s.setters && s.setters[id].Sending? && s.setters[id].next >= |s.subs|
    case Open => true
    case Subscribe(ch) => s.lock.None? && InPhase(s, ch, Opened)
    case Unsubscribe(ch) => s.lock.None? && (InPhase(s, ch, Idle) || InPhase(s, ch, Received))
    case Receive(ch) => InPhase(s, ch, Idle) && ch in s.tokens
    case Snapshot(ch) => InPhase(s, ch, Received)
  }

  function After(s: State, e: Event): State
    requires Can(s, e)
  {
    match e
    case Mutate =>
      s.(version := s.version + 1, setters := s.setters[s.nextSetter := Mutated], nextSetter := s.nextSetter + 1)
    case Lock(id) => s.(lock := Some(id), setters := s.setters[id := Sending(0)])
    case Send(id) =>
      var i := s.setters[id].next;
      s.(tokens := s.tokens + {s.subs[i]}, setters := s.setters[id := Sending(i + 1)])
    case Unlock(id) => s.(lock := None, setters := s.setters - {id})
    case Open =>
      s.(readers := s.readers[s.nextReader := Reader(Opened, s.version, 0)], nextReader := s.nextReader + 1)
    case Subscribe(ch) =>
      s.(subs := s.subs + [ch], readers := s.readers[ch := s.readers[ch].(phase := Idle, base := s.version)])
    case Unsubscribe(ch) => s.(subs := Without(s.subs, ch), readers := s.readers[ch := s.readers[ch].(phase := Left)])
    case Receive(ch) => s.(tokens := s.tokens - {ch}, readers := s.readers[ch := s.readers[ch].(phase := Received)])
    case Snapshot(ch) => s.(readers := s.readers[ch := s.readers[ch].(phase := Idle, seen := s.version)])
  }

  function Exec(es: seq<Event>): Option<State> {
    if es == [] then Some(Init)
    else
      var prev := Exec(es[..|es| - 1]);
      if prev.Some? && Can(prev.value, es[|es| - 1]) then Some(After(prev.value, es[|es| - 1])) else None
  }

  ghost predicate Reachable(s: State) {
    exists es :: Exec(es) == Some(s)
  }

  // --- The invariant --------------------------------------------------------------------------------

  predicate Subscribed(s: State, ch: nat) {
    InPhase(s, ch, Idle) || InPhase(s, ch, Received)
  }

  // Some Set has mutated and has not yet come to ch in its broadcast.
  ghost predicate Coming(s: State, ch: nat) {
    exists id :: id in s.setters && match s.setters[id] case Mutated => true case Sending(i) => ch in From(s.subs, i)
  }

  function From(subs: seq<nat>, i: nat): seq<nat> {
    if i <= |subs| then subs[i..] else []
  }

  // The subscriber will learn of a change that is newer than its last look.
  ghost predicate Told(s: State, ch: nat) {
    ch in s.tokens || InPhase(s, ch, Received) || Coming(s, ch)
  }

  ghost predicate Shape(s: State) {
    && Distinct(s.subs)
    && (forall ch :: ch in s.subs <==> Subscribed(s, ch))
    && (forall ch | ch in s.readers :: ch < s.nextReader && s.readers[ch].seen <= s.version && s.readers[ch].base <= s.version)
    && (forall id | id in s.setters :: id < s.nextSetter)
    && (forall id | id in s.setters && s.setters[id].Sending? :: s.lock == Some(id))
    && (s.lock.Some? ==> s.lock.value in s.setters && s.setters[s.lock.value].Sending?)
  }

  predicate UpToDate(s: State, r: Reader) {
    s.version <= r.seen || s.version <= r.base
  }

  ghost predicate Inv(s: State) {
    Shape(s) && forall ch | Subscribed(s, ch) && !UpToDate(s, s.readers[ch]) :: Told(s, ch)
  }

  lemma {:induction false} WithoutMembers(subs: seq<nat>, ch: nat)
    requires Distinct(subs)
    ensures Distinct(Without(subs, ch)) && forall x :: x in Without(subs, ch) <==> x in subs && x != ch
  {
    if subs != [] {
      assert Distinct(subs[1..]);
      WithoutMembers(subs[1..], ch);
      assert subs == [subs[0]] + subs[1..];
      assert subs[0] !in subs[1..];
    }
  }

  lemma SnocDistinct(subs: seq<nat>, ch: nat)
    requires Distinct(subs) && ch !in subs
    ensures Distinct(subs + [ch])
  {
  }

  lemma AfterKeepsSubscribers(s: State, e: Event)
    requires Shape(s) && Can(s, e)
    ensures Distinct(After(s, e).subs)
    ensures forall ch :: ch in After(s, e).subs <==> Subscribed(After(s, e), ch)
  {
    if e.Unsubscribe? {
      WithoutMembers(s.subs, e.ch);
    } else if e.Subscribe? {
      SnocDistinct(s.subs, e.ch);
    }
    hide Distinct;
  }

  lemma AfterKeepsShape(s: State, e: Event)
    requires Shape(s) && Can(s, e)
    ensures Shape(After(s, e))
  {
    AfterKeepsSubscribers(s, e);
    hide Distinct, Without, Subscribed;
  }

  // A Set that was still to come to ch either is so after the step, or has just left its token.
  lemma StillComing(s: State, e: Event, ch: nat)
    requires Inv(s) && Can(s, e) && Coming(s, ch) && Subscribed(s, ch) && Subscribed(After(s, e), ch)
    ensures Told(After(s, e), ch)
  {
    var s' := After(s, e);
    var id :| id in s.setters && match s.setters[id] case Mutated => true case Sending(i) => ch in From(s.subs, i);
    if e.Send? && e.id == id {
      var i := s.setters[id].next;
      assert s.subs[i..] == [s.subs[i]] + s.subs[i + 1..];
      assert s'.setters[id] == Sending(i + 1);
    } else if e.Lock? && e.id == id {
      assert From(s.subs, 0) == s.subs;
      assert id in s'.setters;
    } else if e.Unlock? && e.id == id {
      assert false;
    } else if e.Subscribe? || e.Unsubscribe? {
      assert s.setters[id].Mutated?;
      assert id in s'.setters;
    } else {
      assert id in s'.setters && s'.setters[id] == s.setters[id];
    }
  }

  lemma AfterKeepsInv(s: State, e: Event)
    requires Inv(s) && Can(s, e)
    ensures Inv(After(s, e))
  {
    var s' := After(s, e);
    AfterKeepsShape(s, e);
    forall ch | Subscribed(s', ch) && !UpToDate(s', s'.readers[ch]) ensures Told(s', ch) {
      if e.Mutate? {
        assert s'.setters[s.nextSetter].Mutated?;
      } else if Coming(s, ch) && Subscribed(s, ch) {
        StillComing(s, e, ch);
      }
    }
  }

  lemma {:induction false} RunKeepsInv(es: seq<Event>, s: State)
    requires Exec(es) == Some(s)
    ensures Inv(s)
  {
    hide After, Can;
    if es != [] {
      var before := Exec(es[..|es| - 1]).value;
      RunKeepsInv(es[..|es| - 1], before);
      hide Inv;
      AfterKeepsInv(before, es[|es| - 1]);
    }
  }

  // --- Main results -----------------------------------------------------------------------------------

  // No lost wakeup. In every reachable state, a subscriber whose last look - its last snapshot, or its
  // Subscribe - is older than the current state has a token in its channel, or is about to take a
  // snapshot, or some Set has mutated and not yet come to it.
  lemma NoLostWakeup(s: State, ch: nat)
    requires Reachable(s) && Subscribed(s, ch)
    requires s.readers[ch].seen < s.version && s.readers[ch].base < s.version
    ensures ch in s.tokens || s.readers[ch].phase.Received? || Coming(s, ch)
  {
    var es :| Exec(es) == Some(s);
    RunKeepsInv(es, s);
    hide Exec, Shape;
  }

  ghost predicate Quiet(s: State) {
    s.setters == map[]
  }

  // Once every Set has finished, a waiting subscriber is out of date if and only if the state changed
  // between its first snapshot and its Subscribe, and not since.
  lemma StaleWhenQuiet(s: State, ch: nat)
    requires Reachable(s) && InPhase(s, ch, Idle) && Quiet(s) && ch !in s.tokens
    ensures s.readers[ch].seen < s.version <==> s.readers[ch].seen < s.readers[ch].base == s.version
  {
    var es :| Exec(es) == Some(s);
    RunKeepsInv(es, s);
    hide Exec;
  }

  lemma Snoc(es: seq<Event>, e: Event, s: State, s': State)
    requires Exec(es) == Some(s) && Can(s, e) && s' == After(s, e)
    ensures Exec(es + [e]) == Some(s')
  {
    assert (es + [e])[..|es|] == es;
  }

  // The event stream handler sends its first snapshot before it subscribes. A Set that falls wholly in
  // between leaves it waiting on an empty channel with an old snapshot.
  lemma WakeupLostBeforeSubscribe() returns (es: seq<Event>, s: State)
    ensures Exec(es) == Some(s) && InPhase(s, 0, Idle) && Quiet(s) && 0 !in s.tokens
    ensures s.readers[0].seen < s.version
  {
    hide Exec;
    assert Exec([]) == Some(Init) by { ExecEmpty(); }
    var s1 := After(Init, Open);
    Snoc([], Open, Init, s1);
    es := [] + [Open];
    var s2 := After(s1, Mutate);
    Snoc(es, Mutate, s1, s2);
    es := es + [Mutate];
    var s3 := After(s2, Lock(0));
    Snoc(es, Lock(0), s2, s3);
    es := es + [Lock(0)];
    var s4 := After(s3, Unlock(0));
    Snoc(es, Unlock(0), s3, s4);
    es := es + [Unlock(0)];
    s := After(s4, Subscribe(0));
    Snoc(es, Subscribe(0), s4, s);
    es := es + [Subscribe(0)];
  }

  lemma ExecEmpty()
    ensures Exec([]) == Some(Init)
  {
  }

  // --- What the state says about a run ---------------------------------------------------------------------

  function Mutations(es: seq<Event>): nat {
    if es == [] then 0 else Mutations(es[..|es| - 1]) + if es[|es| - 1].Mutate? then 1 else 0
  }

  function Opens(es: seq<Event>): nat {
    if es == [] then 0 else Opens(es[..|es| - 1]) + if es[|es| - 1].Open? then 1 else 0
  }

  // How many changes there had been when reader ch took its last snapshot; the first is that of its Open.
  function LookedAt(es: seq<Event>, ch: nat): nat {
    if es == [] then 0
    else
      var front, last := es[..|es| - 1], es[|es| - 1];
      if last == Event.Snapshot(ch) || (last.Open? && Opens(front) == ch) then Mutations(front) else LookedAt(front, ch)
  }

  // How many there had been when it subscribed.
  function SubscribedAt(es: seq<Event>, ch: nat): nat {
    if es == [] then 0
    else
      var front, last := es[..|es| - 1], es[|es| - 1];
      if last == Event.Subscribe(ch) then Mutations(front) else SubscribedAt(front, ch)
  }

  // Whether a broadcast has come to ch since it last received.
  function SentSince(es: seq<Event>, ch: nat): bool
    requires Exec(es).Some?
  {
    if es == [] then false
    else
      var front, last := es[..|es| - 1], es[|es| - 1];
      var before := Exec(front).value;
      if last == Receive(ch) then false
      else if last.Send? && before.subs[before.setters[last.id].next] == ch then true
      else SentSince(front, ch)
  }

  // The fields mean what their names say.
  lemma {:induction false} FieldsMean(es: seq<Event>, s: State)
    requires Exec(es) == Some(s)
    ensures s.version == Mutations(es) && s.nextReader == Opens(es)
    ensures forall ch | ch in s.readers ::
              && s.readers[ch].seen == LookedAt(es, ch)
              && (!s.readers[ch].phase.Opened? ==> s.readers[ch].base == SubscribedAt(es, ch))
  {
    if es != [] {
      var front, last := es[..|es| - 1], es[|es| - 1];
      var before := Exec(front).value;
      FieldsMean(front, before);
      RunKeepsInv(front, before);
      assert before.nextReader !in before.readers;
      hide Inv, Shape;
    }
  }

  // A channel holds a token if and only if a broadcast has come to it since it last received.
  lemma {:induction false} TokensMean(es: seq<Event>, s: State)
    requires Exec(es) == Some(s)
    ensures forall ch :: ch in s.tokens <==> SentSince(es, ch)
  {
    if es != [] {
      TokensMean(es[..|es| - 1], Exec(es[..|es| - 1]).value);
    }
  }

  // A subscriber that finds a token takes it and is up to date after its next snapshot; nobody else is touched.
  lemma CatchesUp(s: State, ch: nat)
    requires InPhase(s, ch, Idle) && ch in s.tokens
    ensures Can(s, Receive(ch)) && Can(After(s, Receive(ch)), Event.Snapshot(ch))
    ensures After(After(s, Receive(ch)), Event.Snapshot(ch))
         == s.(tokens := s.tokens - {ch}, readers := s.readers[ch := s.readers[ch].(seen := s.version)])
  {
    var r := s.readers[ch];
    assert s.readers[ch := r.(phase := Received)][ch := r.(phase := Idle, seen := s.version)]
        == s.readers[ch := r.(seen := s.version)];
  }

  function Members(chs: seq<nat>): set<nat> {
    set ch | ch in chs
  }

  lemma MembersFrom(chs: seq<nat>, i: nat)
    requires i < |chs|
    ensures Members(chs[i..]) == {chs[i]} + Members(chs[i + 1..])
  {
    assert chs[i..] == [chs[i]] + chs[i + 1..];
  }

  lemma SendsOn(es: seq<Event>, s: State, id: nat, i: nat) returns (fs: seq<Event>)
    requires Exec(es) == Some(s) && id in s.setters && s.setters[id] == Sending(i) && i <= |s.subs|
    ensures Exec(es + fs) == Some(s.(tokens := s.tokens + Members(s.subs[i..]), setters := s.setters[id := Sending(|s.subs|)]))
    decreases |s.subs| - i
  {
    hide Exec;
    if i == |s.subs| {
      fs := [];
      assert es + fs == es && s.setters[id := Sending(i)] == s.setters;
      assert s.tokens + Members(s.subs[i..]) == s.tokens;
    } else {
      var send := Send(id);
      var t := After(s, send);
      Snoc(es, send, s, t);
      var gs := SendsOn(es + [send], t, id, i + 1);
      fs := [send] + gs;
      assert (es + [send]) + gs == es + fs;
      MembersFrom(s.subs, i);
      assert s.tokens + {s.subs[i]} + Members(s.subs[i + 1..]) == s.tokens + Members(s.subs[i..]);
      assert t.setters[id := Sending(|s.subs|)] == s.setters[id := Sending(|s.subs|)];
    }
  }

  // A broadcast that gets the lock leaves a token with every subscriber, and ends.
  lemma Broadcasts(es: seq<Event>, s: State, id: nat) returns (fs: seq<Event>)
    requires Exec(es) == Some(s) && s.lock.None? && id in s.setters && s.setters[id].Mutated?
    ensures Exec(es + fs) == Some(s.(tokens := s.tokens + Members(s.subs), setters := s.setters - {id}))
  {
    hide Exec;
    var t := After(s, Lock(id));
    Snoc(es, Lock(id), s, t);
    var es1 := es + [Lock(id)];
    var gs := SendsOn(es1, t, id, 0);
    assert s.subs[0..] == s.subs;
    var u := t.(tokens := s.tokens + Members(s.subs), setters := t.setters[id := Sending(|s.subs|)]);
    Snoc(es1 + gs, Unlock(id), u, After(u, Unlock(id)));
    fs := [Lock(id)] + gs + [Unlock(id)];
    assert (es1 + gs) + [Unlock(id)] == es + fs;
    assert s.setters[id := Sending(0)][id := Sending(|s.subs|)] - {id} == s.setters - {id};
  }
}
