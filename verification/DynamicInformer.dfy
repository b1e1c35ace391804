/**
 The konnector's dynamic informer (pkg/konnector/controllers/dynamic/eventhandler.go): handlers
 come and go while the underlying informer keeps changing its store and distributing events.

 Distribution to all handlers runs under the read lock, one handler call at a time;
 registration and removal take the write lock, so they cannot fall between those calls. The
 replay of the store to a new handler runs under no lock at all. The only assumption on the
 underlying informer is that its store is updated before the event is distributed.
 */
module DynamicInformer {
  import opened Api
  import opened Runs
  import opened Text

  /** What a handler is told: an object at a version, or its deletion. */
  datatype Notice = Changed(obj: string, version: nat) | Deleted(obj: string)

  datatype Phase = Unlisted | Replaying(todo: set<Notice>)

  datatype Registration = Registration(name: string, log: seq<Notice>, phase: Phase)

  datatype Sending = Idle | Sending(notice: Notice, todo: set<string>)

  datatype State = State(
    store: map<string, nat>,        // object -> current version
    pending: seq<Notice>,           // events not yet distributed
    sending: Sending,               // the distribution under way, and the handler keys still to call
    counter: nat,
    handlers: map<string, nat>,     // key -> registration number
    regs: map<nat, Registration>)   // every registration ever made

  datatype Event =
    | Set(obj: string, version: nat)
    | Delete(obj: string)
    | Begin
    | Call(key: string)
    | End
    | Register(name: string)
    | ListStore(n: nat)
    | Replay(n: nat, notice: Notice)
    | Remove(n: nat)

  /** The name under which a handler is kept: the counter makes it unique. */
  function KeyFor(name: string, n: nat): string {
    name + "-" + Decimal(n)
  }

  function Contents(store: map<string, nat>): set<Notice> {
    set o | o in store :: Changed(o, store[o])
  }

  function Notify(s: State, n: nat, notice: Notice): State
    requires n in s.regs
  {
    s.(regs := s.regs[n := s.regs[n].(log := s.regs[n].log + [notice])])
  }

  ghost predicate Step(s: State, e: Event, t: State) {
    match e
    case Set(obj, version) =>
      t == s.(store := s.store[obj := version], pending := s.pending + [Changed(obj, version)])
    case Delete(obj) => t == s.(store := s.store - {obj}, pending := s.pending + [Deleted(obj)])
    case Begin =>
      && s.sending.Idle? && s.pending != []
      && t == s.(pending := s.pending[1..], sending := Sending(s.pending[0], s.handlers.Keys))
    case Call(key) =>
      && s.sending.Sending? && key in s.sending.todo && key in s.handlers && s.handlers[key] in s.regs
      && t == Notify(s, s.handlers[key], s.sending.notice).(sending := s.sending.(todo := s.sending.todo - {key}))
    case End => s.sending.Sending? && s.sending.todo == {} && t == s.(sending := Idle)
    case Register(name) =>
      && s.sending.Idle?
      && t == s.(counter := s.counter + 1,
                 handlers := s.handlers[KeyFor(name, s.counter) := s.counter],
                 regs := s.regs[s.counter := Registration(name, [], Unlisted)])
    case ListStore(n) =>
      && n in s.regs && s.regs[n].phase.Unlisted?
      && t == s.(regs := s.regs[n := s.regs[n].(phase := Replaying(Contents(s.store)))])
    case Replay(n, notice) =>
      && n in s.regs && s.regs[n].phase.Replaying? && notice in s.regs[n].phase.todo
      && var r := Notify(s, n, notice);
      t == r.(regs := r.regs[n := r.regs[n].(phase := Replaying(s.regs[n].phase.todo - {notice}))])
    case Remove(n) =>
      && s.sending.Idle? && n in s.regs
      && t == s.(handlers := s.handlers - {KeyFor(s.regs[n].name, n)})
  }

  ghost predicate Init(s: State) {
    s == State(map[], [], Idle, 0, map[], map[])
  }

  // ---------------------------------------------------------------- keys

  lemma KeysAreUnique(a: string, m: nat, b: string, n: nat)
    requires KeyFor(a, m) == KeyFor(b, n)
    ensures a == b && m == n
  {
    SplitLastIsUnique(a, Decimal(m), b, Decimal(n), '-');
    DecimalRoundTrip(m);
    DecimalRoundTrip(n);
  }

  ghost predicate Keyed(s: State) {
    && (forall n :: n in s.regs ==> n < s.counter)
    && (forall k :: k in s.handlers ==> s.handlers[k] in s.regs && k == KeyFor(s.regs[s.handlers[k]].name, s.handlers[k]))
    && (s.sending.Sending? ==> s.sending.todo <= s.handlers.Keys)
  }

  lemma StepIsKeyed(s: State, e: Event, t: State)
    requires Keyed(s) && Step(s, e, t)
    ensures Keyed(t)
  {}

  /** No registration overwrites another: its key is new and every other entry stays. */
  lemma RegisterIsFresh(s: State, name: string, t: State)
    requires Keyed(s) && Step(s, Register(name), t)
    ensures KeyFor(name, s.counter) !in s.handlers
    ensures t.handlers - {KeyFor(name, s.counter)} == s.handlers
  {
    var key := KeyFor(name, s.counter);
    if key in s.handlers {
      KeysAreUnique(name, s.counter, s.regs[s.handlers[key]].name, s.handlers[key]);
    }
    assert t.handlers - {key} == s.handlers;
  }

  /** No removal removes another registration, and the one removed is gone. */
  lemma RemoveIsOwn(s: State, n: nat, t: State)
    requires Keyed(s) && Step(s, Remove(n), t)
    ensures forall k :: k in t.handlers <==> k in s.handlers && s.handlers[k] != n
    ensures forall k :: k in t.handlers ==> t.handlers[k] == s.handlers[k]
  {
    forall k | k in s.handlers ensures k == KeyFor(s.regs[n].name, n) <==> s.handlers[k] == n {
      if k == KeyFor(s.regs[n].name, n) {
        KeysAreUnique(s.regs[n].name, n, s.regs[s.handlers[k]].name, s.handlers[k]);
      }
    }
  }

  // ---------------------------------------------------------------- delivery

  /** The handler under `key` has been, or is still going to be, given `notice`. */
  ghost predicate Covered(s: State, key: string, notice: Notice)
    requires key in s.handlers && s.handlers[key] in s.regs
  {
    var r := s.regs[s.handlers[key]];
    || notice in r.log
    || notice in s.pending
    || (s.sending.Sending? && s.sending.notice == notice && key in s.sending.todo)
    || r.phase.Unlisted?
    || notice in r.phase.todo
  }

  ghost predicate Inv(s: State) {
    && Keyed(s)
    && forall key, obj :: key in s.handlers && obj in s.store ==> Covered(s, key, Changed(obj, s.store[obj]))
  }

  lemma StepKeepsCovered(s: State, e: Event, t: State, key: string, obj: string)
    requires Inv(s) && Step(s, e, t) && Keyed(t)
    requires key in t.handlers && obj in t.store
    ensures Covered(t, key, Changed(obj, t.store[obj]))
  {
    var notice := Changed(obj, t.store[obj]);
    match e
    case Set(o, v) =>
      if o == obj {
        assert t.pending[|s.pending|] == notice;
      } else {
        assert Covered(s, key, notice);
      }
    case Begin =>
      assert Covered(s, key, notice);
      assert forall x :: x in s.pending ==> x == s.pending[0] || x in s.pending[1..];
    case Register(name) =>
      if t.handlers[key] != s.counter {
        assert Covered(s, key, notice);
      }
    case ListStore(n) =>
      assert Covered(s, key, notice);
      assert notice in Contents(s.store);
    case _ =>
      assert Covered(s, key, notice);
  }

  lemma StepKeeps(s: State, e: Event, t: State)
    requires Inv(s) && Step(s, e, t)
    ensures Inv(t)
  {
    StepIsKeyed(s, e, t);
    forall key, obj | key in t.handlers && obj in t.store ensures Covered(t, key, Changed(obj, t.store[obj])) {
      StepKeepsCovered(s, e, t, key, obj);
    }
  }

  lemma EveryRunCovers(states: seq<State>, events: seq<Event>)
    requires IsRun(states, events, Init, Step)
    ensures forall i :: 0 <= i < |states| ==> Inv(states[i])
  {
    forall s, e, t | Inv(s) && Step(s, e, t) ensures Inv(t) {
      StepKeeps(s, e, t);
    }
    Always(states, events, Init, Step, (s, e) => true, Inv);
  }

  ghost predicate Drained(s: State) {
    && s.pending == [] && s.sending.Idle?
    && forall n :: n in s.regs ==> s.regs[n].phase == Replaying({})
  }

  /** Events have drained, and so has the replay to the handler under `key`; others may be under way. */
  ghost predicate DrainedFor(s: State, key: string) {
    && s.pending == [] && s.sending.Idle?
    && key in s.handlers && s.handlers[key] in s.regs && s.regs[s.handlers[key]].phase == Replaying({})
  }

  /** At least once: in every run, once events and its own replay have drained, a live handler has been
      given the current version of every stored object. */
  lemma EveryLiveHandlerHasSeenTheStore(states: seq<State>, events: seq<Event>, i: nat, key: string)
    requires IsRun(states, events, Init, Step) && i < |states| && DrainedFor(states[i], key)
    ensures forall obj :: obj in states[i].store ==>
              Changed(obj, states[i].store[obj]) in states[i].regs[states[i].handlers[key]].log
  {
    EveryRunCovers(states, events);
    var s := states[i];
    forall obj | obj in s.store ensures Changed(obj, s.store[obj]) in s.regs[s.handlers[key]].log {
      assert Covered(s, key, Changed(obj, s.store[obj]));
    }
  }

  // ---------------------------------------------------------------- last seen

  // Having seen the current version is all that holds in every run. Whether it is also the last
  // thing a handler heard is decided by one kind of step, a stale replay.

  function LastAbout(log: seq<Notice>, obj: string): Option<Notice> {
    if log == [] then None
    else if log[|log| - 1].obj == obj then Some(log[|log| - 1])
    else LastAbout(log[..|log| - 1], obj)
  }

  function Now(s: State, obj: string): Notice {
    if obj in s.store then Changed(obj, s.store[obj]) else Deleted(obj)
  }

  /** Events that have left the store but not yet reached the handler under `key`. */
  function InFlight(s: State, key: string): seq<Notice> {
    (if s.sending.Sending? && key in s.sending.todo then [s.sending.notice] else []) + s.pending
  }

  lemma LastAfterAppend(log: seq<Notice>, notice: Notice, obj: string)
    ensures LastAbout(log + [notice], obj) == if notice.obj == obj then Some(notice) else LastAbout(log, obj)
  {
    assert (log + [notice])[..|log|] == log;
  }

  lemma {:induction false} LastAfterPrepend(log: seq<Notice>, notice: Notice, obj: string)
    ensures LastAbout([notice] + log, obj)
         == if LastAbout(log, obj).Some? then LastAbout(log, obj)
            else if notice.obj == obj then Some(notice) else None
  {
    if log == [] {
      assert [notice] + log == [] + [notice];
      LastAfterAppend([], notice, obj);
    } else {
      var init, last := log[..|log| - 1], log[|log| - 1];
      assert [notice] + log == ([notice] + init) + [last] && log == init + [last];
      LastAfterAppend([notice] + init, last, obj);
      LastAfterPrepend(init, notice, obj);
    }
  }

  ghost predicate Current(s: State, key: string, obj: string)
    requires key in s.handlers && s.handlers[key] in s.regs
  {
    var r := s.regs[s.handlers[key]];
    || LastAbout(InFlight(s, key), obj) == Some(Now(s, obj))
    || (LastAbout(InFlight(s, key), obj) == None
        && (|| LastAbout(r.log, obj) == Some(Now(s, obj))
            || (if obj in s.store then r.phase.Unlisted? || Now(s, obj) in r.phase.todo
                else LastAbout(r.log, obj) == None)))
  }

  ghost predicate QueueIsCurrent(s: State) {
    && (forall obj :: LastAbout(s.pending, obj) == None || LastAbout(s.pending, obj) == Some(Now(s, obj)))
    && (s.sending.Sending? ==>
          LastAbout(s.pending, s.sending.notice.obj) == None ==> s.sending.notice == Now(s, s.sending.notice.obj))
  }

  ghost predicate OneReplayPerObject(s: State) {
    forall n, x, y :: n in s.regs && s.regs[n].phase.Replaying? && x in s.regs[n].phase.todo
                      && y in s.regs[n].phase.todo && x.obj == y.obj ==>
                        x == y
  }

  ghost predicate AllCurrent(s: State) {
    && Keyed(s) && QueueIsCurrent(s) && OneReplayPerObject(s)
    && forall key, obj :: key in s.handlers ==> Current(s, key, obj)
  }

  /** A replayed notice that is no longer current, with nothing on the way to correct it. */
  ghost predicate StaleReplay(s: State, e: Event) {
    && e.Replay?
    && e.notice != Now(s, e.notice.obj)
    && exists key :: key in s.handlers && s.handlers[key] == e.n
                     && LastAbout(InFlight(s, key), e.notice.obj) == None
  }

  lemma AppendKeepsQueueCurrent(s: State, t: State, notice: Notice)
    requires QueueIsCurrent(s) && t.pending == s.pending + [notice] && t.sending == s.sending
    requires Now(t, notice.obj) == notice
    requires forall o :: o != notice.obj ==> Now(t, o) == Now(s, o)
    ensures QueueIsCurrent(t)
  {
    forall o ensures LastAbout(t.pending, o) == if o == notice.obj then Some(notice) else LastAbout(s.pending, o) {
      LastAfterAppend(s.pending, notice, o);
    }
  }

  lemma BeginKeepsQueueCurrent(s: State, t: State)
    requires QueueIsCurrent(s) && Step(s, Begin, t)
    ensures QueueIsCurrent(t)
  {
    assert s.pending == [s.pending[0]] + t.pending;
    forall o ensures LastAbout(s.pending, o)
                  == if LastAbout(t.pending, o).Some? then LastAbout(t.pending, o)
                     else if s.pending[0].obj == o then Some(s.pending[0]) else None
    {
      LastAfterPrepend(t.pending, s.pending[0], o);
    }
    assert forall o :: Now(s, o) == Now(t, o);
  }

  lemma StepKeepsQueueCurrent(s: State, e: Event, t: State)
    requires QueueIsCurrent(s) && Step(s, e, t)
    ensures QueueIsCurrent(t)
  {
    match e
    case Set(obj, version) => AppendKeepsQueueCurrent(s, t, Changed(obj, version));
    case Delete(obj) => AppendKeepsQueueCurrent(s, t, Deleted(obj));
    case Begin => BeginKeepsQueueCurrent(s, t);
    case _ => assert forall o :: Now(s, o) == Now(t, o);
  }

  lemma StepKeepsOneReplay(s: State, e: Event, t: State)
    requires OneReplayPerObject(s) && Step(s, e, t)
    ensures OneReplayPerObject(t)
  {}

  lemma StoreStepKeepsCurrent(s: State, e: Event, t: State, key: string, obj: string)
    requires AllCurrent(s) && Step(s, e, t) && (e.Set? || e.Delete?) && key in t.handlers
    ensures Current(t, key, obj)
  {
    assert Current(s, key, obj);
    var notice := if e.Set? then Changed(e.obj, e.version) else Deleted(e.obj);
    assert InFlight(t, key) == InFlight(s, key) + [notice];
    LastAfterAppend(InFlight(s, key), notice, obj);
  }

  lemma CallKeepsCurrent(s: State, t: State, called: string, key: string, obj: string)
    requires AllCurrent(s) && Step(s, Call(called), t) && key in t.handlers
    ensures Current(t, key, obj)
  {
    assert Current(s, key, obj);
    if called == key {
      LastAfterAppend(s.regs[s.handlers[key]].log, s.sending.notice, obj);
      LastAfterPrepend(s.pending, s.sending.notice, obj);
      assert InFlight(s, key) == [s.sending.notice] + s.pending;
      assert InFlight(t, key) == s.pending;
    } else {
      assert InFlight(t, key) == InFlight(s, key);
    }
  }

  lemma SendStepKeepsCurrent(s: State, e: Event, t: State, key: string, obj: string)
    requires AllCurrent(s) && Step(s, e, t) && (e.Begin? || e.End?) && key in t.handlers
    ensures Current(t, key, obj)
  {
    assert Current(s, key, obj);
    assert InFlight(t, key) == InFlight(s, key);
  }

  lemma ReplayKeepsCurrent(s: State, e: Event, t: State, key: string, obj: string)
    requires AllCurrent(s) && Step(s, e, t) && e.Replay? && key in t.handlers
    ensures Current(t, key, obj) <==>
            !(s.handlers[key] == e.n && e.notice.obj == obj && e.notice != Now(s, obj)
              && LastAbout(InFlight(s, key), obj) == None)
  {
    assert Current(s, key, obj);
    assert InFlight(t, key) == InFlight(s, key);
    LastAfterAppend(s.regs[e.n].log, e.notice, obj);
  }

  lemma OtherStepKeepsCurrent(s: State, e: Event, t: State, key: string, obj: string)
    requires AllCurrent(s) && Step(s, e, t) && (e.Register? || e.ListStore? || e.Remove?) && key in t.handlers
    ensures Current(t, key, obj)
  {
    assert InFlight(t, key) == InFlight(s, key);
    if e.Register? && t.handlers[key] == s.counter {
      assert InFlight(t, key) == s.pending;
    } else {
      assert Current(s, key, obj);
      assert obj in s.store ==> Now(s, obj) in Contents(s.store);
    }
  }

  lemma NonReplayKeepsCurrent(s: State, e: Event, t: State, key: string, obj: string)
    requires AllCurrent(s) && Step(s, e, t) && !e.Replay? && key in t.handlers && t.handlers[key] in t.regs
    ensures Current(t, key, obj)
  {
    if e.Set? || e.Delete? {
      StoreStepKeepsCurrent(s, e, t, key, obj);
    } else if e.Begin? || e.End? {
      SendStepKeepsCurrent(s, e, t, key, obj);
    } else if e.Call? {
      CallKeepsCurrent(s, t, e.key, key, obj);
    } else {
      OtherStepKeepsCurrent(s, e, t, key, obj);
    }
  }

  /** Every live handler's last word on every object stays current exactly as long as no stale
      replay happens. */
  lemma LastSeenUntilStaleReplay(s: State, e: Event, t: State)
    requires AllCurrent(s) && Step(s, e, t)
    ensures AllCurrent(t) <==> !StaleReplay(s, e)
  {
    StepIsKeyed(s, e, t);
    StepKeepsQueueCurrent(s, e, t);
    StepKeepsOneReplay(s, e, t);
    if !e.Replay? {
      forall key, obj | key in t.handlers ensures Current(t, key, obj) {
        NonReplayKeepsCurrent(s, e, t, key, obj);
      }
    } else {
      forall key, obj | key in t.handlers
        ensures Current(t, key, obj) <==>
                !(s.handlers[key] == e.n && e.notice.obj == obj && e.notice != Now(s, obj)
                  && LastAbout(InFlight(s, key), obj) == None)
      {
        ReplayKeepsCurrent(s, e, t, key, obj);
      }
    }
  }

  /** The last thing the log says about the object is what the store says: its current version, or
      that it is gone, of which a handler that never heard of the object need not be told. */
  ghost predicate LastWordIsCurrent(s: State, log: seq<Notice>, obj: string) {
    if obj in s.store then LastAbout(log, obj) == Some(Changed(obj, s.store[obj]))
    else LastAbout(log, obj) == None || LastAbout(log, obj) == Some(Deleted(obj))
  }

  /** Without stale replays, a drained handler's last notice about any object is current. */
  lemma DrainedMeansLastSeen(s: State, key: string, obj: string)
    requires AllCurrent(s) && DrainedFor(s, key)
    ensures LastWordIsCurrent(s, s.regs[s.handlers[key]].log, obj)
  {
    assert Current(s, key, obj);
  }

  ghost predicate NotStale(s: State, e: Event) {
    !StaleReplay(s, e)
  }

  /** So in every run without stale replays, a drained handler's last notice about each object, stored
      or deleted, is current. */
  lemma EveryRunIsLastSeen(states: seq<State>, events: seq<Event>, i: nat, key: string, obj: string)
    requires IsRun(states, events, Init, Step) && i < |states| && DrainedFor(states[i], key)
    requires forall k {:trigger events[k]} :: 0 <= k < |events| ==> NotStale(states[k], events[k])
    ensures LastWordIsCurrent(states[i], states[i].regs[states[i].handlers[key]].log, obj)
  {
    forall s, e, t | AllCurrent(s) && NotStale(s, e) && Step(s, e, t) ensures AllCurrent(t) {
      LastSeenUntilStaleReplay(s, e, t);
    }
    Always(states, events, Init, Step, NotStale, AllCurrent);
    assert AllCurrent(states[i]);
    DrainedMeansLastSeen(states[i], key, obj);
  }

  /** A handler has listed the store at version `v` and replayed nothing yet. */
  ghost predicate ListedAt(s: State, name: string, obj: string, v: nat) {
    s == State(map[obj := v], [], Idle, 1, map[KeyFor(name, 0) := 0],
               map[0 := Registration(name, [], Replaying({Changed(obj, v)}))])
  }

  lemma ReachListed(name: string, obj: string, v: nat) returns (states: seq<State>, events: seq<Event>, s: State)
    ensures IsRun(states, events, Init, Step) && s == states[|events|] && ListedAt(s, name, obj, v)
  {
    var s0 := State(map[], [], Idle, 0, map[], map[]);
    var s1 := s0.(store := s0.store[obj := v], pending := s0.pending + [Changed(obj, v)]);
    var s2 := s1.(pending := s1.pending[1..], sending := Sending(s1.pending[0], s1.handlers.Keys));
    var s3 := s2.(sending := Idle);
    var s4 := s3.(counter := 1, handlers := s3.handlers[KeyFor(name, 0) := 0],
                  regs := s3.regs[0 := Registration(name, [], Unlisted)]);
    s := s4.(regs := s4.regs[0 := s4.regs[0].(phase := Replaying(Contents(s4.store)))]);
    OnlyContent(s4.store, obj);
    states, events := [s0, s1, s2, s3, s4, s], [Set(obj, v), Begin, End, Register(name), ListStore(0)];
  }

  lemma ReplayLate(s: State, name: string, obj: string, v: nat, w: nat)
    returns (states: seq<State>, events: seq<Event>, t: State)
    requires ListedAt(s, name, obj, v)
    ensures Leads(states, events, Step, s, t)
    ensures t == s.(store := map[obj := w],
                    regs := map[0 := Registration(name, [Changed(obj, w), Changed(obj, v)], Replaying({}))])
  {
    var key, stale, latest := KeyFor(name, 0), Changed(obj, v), Changed(obj, w);
    var s1 := s.(store := s.store[obj := w], pending := s.pending + [latest]);
    var s2 := s1.(pending := s1.pending[1..], sending := Sending(s1.pending[0], s1.handlers.Keys));
    var s3 := Notify(s2, 0, latest).(sending := s2.sending.(todo := s2.sending.todo - {key}));
    var s4 := s3.(sending := Idle);
    var r := Notify(s4, 0, stale);
    t := r.(regs := r.regs[0 := r.regs[0].(phase := Replaying(s4.regs[0].phase.todo - {stale}))]);
    states, events := [s, s1, s2, s3, s4, t], [Set(obj, w), Begin, Call(key), End, Replay(0, stale)];
    assert t.regs[0].log == [latest, stale] && t.regs[0].phase.todo == {};
    assert t.regs == map[0 := Registration(name, [latest, stale], Replaying({}))];
    assert t.store == map[obj := w];
  }

  /** A stale replay does happen: the object changes between the listing and the replay, and the
      drained handler is left with the old version as its last word. */
  lemma StaleReplayHappens(name: string, obj: string, v: nat, w: nat)
    returns (states: seq<State>, events: seq<Event>)
    requires v != w
    ensures IsRun(states, events, Init, Step)
    ensures var s := states[|events|];
            && Drained(s) && KeyFor(name, 0) in s.handlers && s.handlers[KeyFor(name, 0)] == 0 && 0 in s.regs
            && obj in s.store && s.store[obj] == w
            && LastAbout(s.regs[0].log, obj) == Some(Changed(obj, v))
  {
    var ss, es, mid := ReachListed(name, obj, v);
    var ts, fs, to := ReplayLate(mid, name, obj, v, w);
    Concat(ss, es, ts, fs, Step, ss[0], mid, to);
    states, events := ss + ts[1..], es + fs;
    LastAfterAppend([Changed(obj, w)], Changed(obj, v), obj);
    assert [Changed(obj, w)] + [Changed(obj, v)] == [Changed(obj, w), Changed(obj, v)];
  }

  lemma OnlyContent(store: map<string, nat>, obj: string)
    requires store.Keys == {obj}
    ensures Contents(store) == {Changed(obj, store[obj])}
  {
    assert forall o :: o in store ==> o == obj;
    assert obj in store;
  }

  // ---------------------------------------------------------------- the imperative form

  type Log = map<nat, seq<Notice>>

  /** Between two logs, the handlers outside `todo` were given the notice, once, and nobody else was. */
  ghost predicate Given(handlers: map<string, nat>, was: Log, now: Log, notice: Notice, todo: set<string>) {
    && now.Keys == was.Keys
    && forall n :: n in now ==> now[n] == was[n] + if n in (handlers - todo).Values then [notice] else []
  }

  lemma GivenNext(s: State, was: Log, now: Log, notice: Notice, todo: set<string>, key: string)
    requires Keyed(s) && key in todo && key in s.handlers && s.handlers[key] in now
    requires Given(s.handlers, was, now, notice, todo)
    ensures var n := s.handlers[key]; Given(s.handlers, was, now[n := now[n] + [notice]], notice, todo - {key})
  {
    var before, after := s.handlers - todo, s.handlers - (todo - {key});
    assert after == before[key := s.handlers[key]];
    assert s.handlers[key] !in before.Values by {
      // the key of a registration is unique
      assert forall k :: k in before && before[k] == s.handlers[key] ==> k == key;
    }
    assert after.Values == before.Values + {s.handlers[key]} by {
      assert after[key] == s.handlers[key];
      assert forall k :: k in before ==> after[k] == before[k];
    }
  }

  class SharedInformer {
    var counter: nat
    var handlers: map<string, nat>
    var delivered: map<nat, seq<Notice>> // what each registration's handler was called with
    ghost var model: State

    ghost predicate Valid()
      reads this
    {
      && Keyed(model)
      && counter == model.counter && handlers == model.handlers
      && delivered.Keys == model.regs.Keys
      && forall n :: n in delivered ==> delivered[n] == model.regs[n].log
    }

    constructor ()
      ensures Valid() && Init(model)
    {
      counter, handlers, delivered := 0, map[], map[];
      model := State(map[], [], Idle, 0, map[], map[]);
    }

    /** The locked part of AddDynamicEventHandler. */
    method AddHandler(name: string)
      requires Valid() && model.sending.Idle?
      modifies this
      ensures Valid() && Step(old(model), Register(name), model)
    {
      handlers := handlers[KeyFor(name, counter) := counter];
      delivered := delivered[counter := []];
      model := model.(counter := counter + 1, handlers := handlers,
                      regs := model.regs[counter := Registration(name, [], Unlisted)]);
      counter := counter + 1;
    }

    /** The goroutine that waits for the handler's context to close. */
    method RemoveHandler(name: string, n: nat)
      requires Valid() && model.sending.Idle? && n in model.regs && model.regs[n].name == name
      modifies this
      ensures Valid() && Step(old(model), Remove(n), model)
    {
      handlers := handlers - {KeyFor(name, n)};
      model := model.(handlers := handlers);
    }

    method CallHandler(key: string, notice: Notice)
      requires Valid() && key in handlers && model.sending.Sending? && key in model.sending.todo
      requires model.sending.notice == notice
      modifies this`delivered, this`model
      ensures Valid() && Step(old(model), Call(key), model)
      ensures delivered == old(delivered)[handlers[key] := old(delivered)[handlers[key]] + [notice]]
    {
      var n := handlers[key];
      delivered := delivered[n := delivered[n] + [notice]];
      model := Notify(model, n, notice).(sending := model.sending.(todo := model.sending.todo - {key}));
    }

    /** The callback's loop over all handlers, in no particular order. */
    method CallEach(notice: Notice) returns (ghost states: seq<State>, ghost events: seq<Event>)
      requires Valid() && model.sending == Sending(notice, handlers.Keys)
      modifies this`delivered, this`model
      ensures Valid() && model.sending == Sending(notice, {}) && model.pending == old(model).pending
      ensures Leads(states, events, Step, old(model), model)
      ensures Given(handlers, old(delivered), delivered, notice, {})
    {
      var todo := handlers.Keys;
      states, events := [model], [];
      assert (handlers - todo).Values == {};
      while todo != {}
        invariant Valid() && todo <= handlers.Keys
        invariant model.sending == Sending(notice, todo) && model.pending == old(model).pending
        invariant Leads(states, events, Step, old(model), model)
        invariant Given(handlers, old(delivered), delivered, notice, todo)
        decreases todo
      {
        var key :| key in todo;
        ghost var before, given := model, delivered;
        CallHandler(key, notice);
        GivenNext(before, old(delivered), given, notice, todo, key);
        Extend(states, events, Step, old(model), before, Call(key), model);
        states, events := states + [model], events + [Call(key)];
        todo := todo - {key};
      }
    }

    /** The distribution callback: one pending event to every handler, once, under the read lock. */
    method Distribute(notice: Notice) returns (ghost states: seq<State>, ghost events: seq<Event>)
      requires Valid() && model.sending.Idle? && model.pending != [] && model.pending[0] == notice
      modifies this
      ensures Valid() && model.sending.Idle? && model.pending == old(model).pending[1..]
      ensures Leads(states, events, Step, old(model), model)
      ensures handlers == old(handlers) && delivered.Keys == old(delivered).Keys
      ensures forall n :: n in delivered ==>
                delivered[n] == old(delivered)[n] + if n in handlers.Values then [notice] else []
    {
      model := model.(pending := model.pending[1..], sending := Sending(notice, handlers.Keys));
      ghost var start := model;
      assert Leads([old(model), start], [Begin], Step, old(model), start);
      states, events := CallEach(notice);
      Concat([old(model), start], [Begin], states, events, Step, old(model), start, model);
      states, events := [old(model), start] + states[1..], [Begin] + events;
      ghost var before := model;
      model := model.(sending := Idle);
      Extend(states, events, Step, old(model), before, End, model);
      states, events := states + [model], events + [End];
      assert handlers - {} == handlers;
    }

    method ReplayOne(n: nat, obj: Notice)
      requires Valid() && n in delivered && model.regs[n].phase.Replaying? && obj in model.regs[n].phase.todo
      modifies this`delivered, this`model
      ensures Valid() && Step(old(model), Replay(n, obj), model)
      ensures delivered == old(delivered)[n := old(delivered)[n] + [obj]]
    {
      delivered := delivered[n := delivered[n] + [obj]];
      ghost var todo := model.regs[n].phase.todo - {obj};
      ghost var r := Notify(model, n, obj);
      model := r.(regs := r.regs[n := r.regs[n].(phase := Replaying(todo))]);
    }

    /** The loop that simulates initial adds for a handler registered on a running informer. */
    method ReplayStore(n: nat, objs: set<Notice>) returns (ghost states: seq<State>, ghost events: seq<Event>)
      requires Valid() && n in delivered && model.regs[n].phase == Replaying(objs)
      modifies this
      ensures Valid() && n in model.regs && model.regs[n].phase == Replaying({})
      ensures Leads(states, events, Step, old(model), model)
      ensures n in delivered && delivered == old(delivered)[n := delivered[n]]
      ensures old(delivered)[n] <= delivered[n] && forall o :: o in delivered[n] <==> o in old(delivered)[n] || o in objs
    {
      var todo := objs;
      states, events := [model], [];
      while todo != {}
        invariant Valid() && n in delivered && model.regs[n].phase == Replaying(todo) && todo <= objs
        invariant delivered == old(delivered)[n := delivered[n]] && old(delivered)[n] <= delivered[n]
        invariant forall o :: o in delivered[n] <==> o in old(delivered)[n] || o in objs - todo
        invariant Leads(states, events, Step, old(model), model)
        decreases todo
      {
        var obj :| obj in todo;
        ghost var before := model;
        todo := todo - {obj};
        ReplayOne(n, obj);
        Extend(states, events, Step, old(model), before, Replay(n, obj), model);
        states, events := states + [model], events + [Replay(n, obj)];
      }
    }
  }
}
