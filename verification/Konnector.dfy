/**
 The konnector's sharing of cluster controllers (pkg/konnector/konnector_reconcile.go).

 `Reconciler.controllers` maps binding names and synthetic heartbeat keys to controller
 contexts; many keys may point to one context. The state machine below is the
 specification: contexts live in a heap indexed by creation order, so aliasing is equality
 of indices. The classes at the end are the imperative form, proved to take exactly these
 steps.
 */
module Konnector {
  import opened Runs

  // How the controller decides whether a binding is its own: the controller started for a
  // binding looks its context up by that binding's name at call time; the heartbeat one
  // captures the context itself.
  datatype Filter = ByBinding(binding: string) | Captured

  datatype Context = Context(
    kubeconfig: string,
    bindings: set<string>,
    cancels: nat,    // how many times the cancel function has been called
    started: bool,   // whether newClusterController succeeded
    filter: Filter)

  datatype State = State(controllers: map<string, nat>, heap: seq<Context>)

  // The outcome of reading the kubeconfig secret of a binding.
  datatype SecretRead = Found(kubeconfig: string) | NotFound | ReadError

  // `parsable`: the kubeconfig loads and its current context names a namespace.
  // `startOK`: newClusterController returned no error.
  datatype Event =
    | Binding(name: string, secret: SecretRead, parsable: bool, startOK: bool)
    | Heartbeat(secretName: string, kubeconfig: string, parsable: bool, startOK: bool)

  function SyntheticKey(secretName: string): string {
    "__heartbeat__" + secretName
  }

  // ---------------------------------------------------------------- steps

  ghost predicate WellFormed(s: State) {
    forall k :: k in s.controllers ==> s.controllers[k] < |s.heap|
  }

  ghost function MappedTo(s: State, c: nat): set<string> {
    set k | k in s.controllers && s.controllers[k] == c
  }

  ghost function Kubeconfigs(s: State): set<string>
    requires WellFormed(s)
  {
    set k | k in s.controllers :: s.heap[s.controllers[k]].kubeconfig
  }

  /** Stops using a context whose kubeconfig is no longer the binding's. */
  ghost function Detach(s: State, name: string, kubeconfig: string): State
    requires WellFormed(s)
  {
    if name in s.controllers && s.heap[s.controllers[name]].kubeconfig != kubeconfig then
      var c := s.controllers[name];
      var left := s.heap[c].bindings - {name};
      var cancels := s.heap[c].cancels + if left == {} then 1 else 0;
      State(s.controllers - {name}, s.heap[c := s.heap[c].(bindings := left, cancels := cancels)])
    else
      s
  }

  ghost function Attach(s: State, name: string, c: nat): State
    requires c < |s.heap|
  {
    State(s.controllers[name := c], s.heap[c := s.heap[c].(bindings := s.heap[c].bindings + {name})])
  }

  ghost function Create(s: State, key: string, ctx: Context): State {
    State(s.controllers[key := |s.heap|], s.heap + [ctx])
  }

  /** The entry just created is removed again and its context cancelled. */
  ghost function RolledBack(s: State, key: string): State
    requires s.heap != []
  {
    var c := |s.heap| - 1;
    State(s.controllers - {key}, s.heap[c := s.heap[c].(cancels := s.heap[c].cancels + 1)])
  }

  /** Joins the context that serves the kubeconfig, or starts one. A failed start leaves its entry. */
  ghost predicate ServeStep(d: State, name: string, kubeconfig: string, parsable: bool, startOK: bool, t: State)
    requires WellFormed(d)
  {
    if kubeconfig == "" then t == d
    else if kubeconfig in Kubeconfigs(d) then
      exists k :: k in d.controllers && d.heap[d.controllers[k]].kubeconfig == kubeconfig
                  && t == Attach(d, name, d.controllers[k])
    else if !parsable then t == d
    else t == Create(d, name, Context(kubeconfig, {name}, 0, startOK, ByBinding(name)))
  }

  ghost predicate BindingStep(s: State, name: string, secret: SecretRead, parsable: bool, startOK: bool, t: State)
    requires WellFormed(s)
  {
    if secret.ReadError? then t == s else
      var kubeconfig := if secret.Found? then secret.kubeconfig else "";
      ServeStep(Detach(s, name, kubeconfig), name, kubeconfig, parsable, startOK, t)
  }

  ghost predicate HeartbeatStep(s: State, secretName: string, kubeconfig: string, parsable: bool, startOK: bool, t: State)
    requires WellFormed(s)
  {
    var key := SyntheticKey(secretName);
    if kubeconfig == "" || kubeconfig in Kubeconfigs(s) || !parsable then t == s
    else if startOK then t == Create(s, key, Context(kubeconfig, {key}, 0, true, Captured))
    else
      t == RolledBack(Create(s, key, Context(kubeconfig, {key}, 0, false, Captured)), key)
  }

  ghost predicate Step(s: State, e: Event, t: State) {
    && WellFormed(s)
    && match e
       case Binding(name, secret, parsable, startOK) => BindingStep(s, name, secret, parsable, startOK, t)
       case Heartbeat(secretName, kubeconfig, parsable, startOK) =>
         HeartbeatStep(s, secretName, kubeconfig, parsable, startOK, t)
  }

  ghost predicate Init(s: State) {
    s == State(map[], [])
  }

  /** A heartbeat step that starts a controller under a synthetic key that is already taken. */
  ghost predicate Overwrites(s: State, e: Event)
    requires WellFormed(s)
  {
    && e.Heartbeat?
    && e.kubeconfig != "" && e.kubeconfig !in Kubeconfigs(s) && e.parsable
    && SyntheticKey(e.secretName) in s.controllers
  }

  // ---------------------------------------------------------------- safety in every run

  ghost predicate Safe(s: State) {
    && WellFormed(s)
    && (forall k :: k in s.controllers ==>
          k in s.heap[s.controllers[k]].bindings && s.heap[s.controllers[k]].cancels == 0)
    && (forall k, l :: k in s.controllers && l in s.controllers
                       && s.heap[s.controllers[k]].kubeconfig == s.heap[s.controllers[l]].kubeconfig
                       ==> s.controllers[k] == s.controllers[l])
    && (forall c :: 0 <= c < |s.heap| ==> s.heap[c].cancels <= 1)
  }

  lemma DetachIsSafe(s: State, name: string, kubeconfig: string)
    requires Safe(s)
    ensures Safe(Detach(s, name, kubeconfig))
  {}

  lemma AttachIsSafe(s: State, name: string, k: string)
    requires Safe(s) && k in s.controllers
    requires name in s.controllers ==> s.controllers[name] == s.controllers[k]
    ensures Safe(Attach(s, name, s.controllers[k]))
  {}

  lemma CreateIsSafe(s: State, key: string, ctx: Context)
    requires Safe(s) && ctx.kubeconfig !in Kubeconfigs(s)
    requires ctx.bindings == {key} && ctx.cancels == 0
    ensures Safe(Create(s, key, ctx))
  {
    assert forall k :: k in s.controllers ==> s.heap[s.controllers[k]].kubeconfig in Kubeconfigs(s);
  }

  lemma StepIsSafe(s: State, e: Event, t: State)
    requires Safe(s) && Step(s, e, t)
    ensures Safe(t)
  {
    match e
    case Heartbeat(secretName, kubeconfig, parsable, startOK) =>
      var key := SyntheticKey(secretName);
      if kubeconfig != "" && kubeconfig !in Kubeconfigs(s) && parsable {
        if startOK {
          CreateIsSafe(s, key, Context(kubeconfig, {key}, 0, true, Captured));
        } else {
          RollbackIsSafe(s, key, Context(kubeconfig, {key}, 0, false, Captured));
        }
      }
    case Binding(name, secret, parsable, startOK) =>
      if !secret.ReadError? {
        var kubeconfig := if secret.Found? then secret.kubeconfig else "";
        var d := Detach(s, name, kubeconfig);
        DetachIsSafe(s, name, kubeconfig);
        if kubeconfig != "" && kubeconfig in Kubeconfigs(d) {
          var k :| k in d.controllers && d.heap[d.controllers[k]].kubeconfig == kubeconfig
                   && t == Attach(d, name, d.controllers[k]);
          AttachIsSafe(d, name, k);
        } else if t != d {
          CreateIsSafe(d, name, t.heap[|d.heap|]);
        }
      }
  }

  /** In every run: mapped keys are registered with their context, equal kubeconfigs share one
      context, and no cancelled context is reachable (so none is cancelled twice). */
  lemma EveryRunIsSafe(states: seq<State>, events: seq<Event>)
    requires IsRun(states, events, Init, Step)
    ensures forall i :: 0 <= i < |states| ==> Safe(states[i])
  {
    forall s, e, t | Safe(s) && Step(s, e, t) ensures Safe(t) {
      StepIsSafe(s, e, t);
    }
    Always(states, events, Init, Step, (s, e) => true, Safe);
  }

  // ---------------------------------------------------------------- exact bookkeeping

  /** The uncancelled contexts are registered for exactly the keys that point to them. */
  ghost predicate Exact(s: State) {
    && Safe(s)
    && forall c {:trigger s.heap[c]} :: 0 <= c < |s.heap| && s.heap[c].cancels == 0 ==>
         s.heap[c].bindings == MappedTo(s, c) && s.heap[c].bindings != {}
  }

  lemma DetachIsExact(s: State, name: string, kubeconfig: string)
    requires Exact(s)
    ensures Exact(Detach(s, name, kubeconfig))
  {
    DetachIsSafe(s, name, kubeconfig);
    var d := Detach(s, name, kubeconfig);
    forall c | 0 <= c < |s.heap| && d.heap[c].cancels == 0
      ensures d.heap[c].bindings == MappedTo(d, c)
    {
      assert s.heap[c].bindings == MappedTo(s, c);
    }
  }

  lemma AttachIsExact(s: State, name: string, k: string)
    requires Exact(s) && k in s.controllers
    requires name in s.controllers ==> s.controllers[name] == s.controllers[k]
    ensures Exact(Attach(s, name, s.controllers[k]))
  {
    AttachIsSafe(s, name, k);
    var t := Attach(s, name, s.controllers[k]);
    forall c | 0 <= c < |t.heap| && t.heap[c].cancels == 0
      ensures t.heap[c].bindings == MappedTo(t, c) && t.heap[c].bindings != {}
    {
      assert s.heap[c].bindings == MappedTo(s, c);
    }
  }

  lemma CreateIsExact(s: State, key: string, ctx: Context)
    requires Exact(s) && ctx.kubeconfig !in Kubeconfigs(s)
    requires ctx.bindings == {key} && ctx.cancels == 0
    ensures Exact(Create(s, key, ctx)) <==> key !in s.controllers
  {
    CreateIsSafe(s, key, ctx);
    var t := Create(s, key, ctx);
    assert key !in s.controllers ==> MappedTo(t, |s.heap|) == {key};
    forall c | 0 <= c < |s.heap| && s.heap[c].cancels == 0 && key !in s.controllers
      ensures t.heap[c].bindings == MappedTo(t, c)
    {
      assert s.heap[c].bindings == MappedTo(s, c);
    }
    if key in s.controllers {
      var c := s.controllers[key]; // still lists the key that no longer points to it
      assert key in t.heap[c].bindings && key !in MappedTo(t, c);
    }
  }

  lemma RollbackIsSafe(s: State, key: string, ctx: Context)
    requires Safe(s) && ctx.cancels == 0
    ensures var t := RolledBack(Create(s, key, ctx), key);
            && Safe(t) && t.controllers == s.controllers - {key} && t.heap == s.heap + [ctx.(cancels := 1)]
  {}

  lemma RollbackIsExact(s: State, key: string, ctx: Context)
    requires Exact(s) && ctx.cancels == 0
    ensures Exact(RolledBack(Create(s, key, ctx), key)) <==> key !in s.controllers
  {
    RollbackIsSafe(s, key, ctx);
    var t := RolledBack(Create(s, key, ctx), key);
    forall c | 0 <= c < |s.heap| && s.heap[c].cancels == 0 && key !in s.controllers
      ensures t.heap[c].bindings == MappedTo(t, c)
    {
      assert s.heap[c].bindings == MappedTo(s, c);
    }
    if key in s.controllers {
      var c := s.controllers[key];
      assert key in t.heap[c].bindings && key !in MappedTo(t, c);
    }
  }

  /** Bookkeeping stays exact precisely when the step does not overwrite an occupied synthetic key. */
  lemma StepIsExact(s: State, e: Event, t: State)
    requires Exact(s) && Step(s, e, t)
    ensures Exact(t) <==> !Overwrites(s, e)
  {
    match e
    case Heartbeat(secretName, kubeconfig, parsable, startOK) =>
      var key := SyntheticKey(secretName);
      if kubeconfig != "" && kubeconfig !in Kubeconfigs(s) && parsable {
        if startOK {
          CreateIsExact(s, key, Context(kubeconfig, {key}, 0, true, Captured));
        } else {
          RollbackIsExact(s, key, Context(kubeconfig, {key}, 0, false, Captured));
        }
      }
    case Binding(name, secret, parsable, startOK) =>
      if !secret.ReadError? {
        var kubeconfig := if secret.Found? then secret.kubeconfig else "";
        var d := Detach(s, name, kubeconfig);
        DetachIsExact(s, name, kubeconfig);
        if kubeconfig != "" && kubeconfig in Kubeconfigs(d) {
          var k :| k in d.controllers && d.heap[d.controllers[k]].kubeconfig == kubeconfig
                   && t == Attach(d, name, d.controllers[k]);
          AttachIsExact(d, name, k);
        } else if kubeconfig != "" && parsable {
          assert name !in d.controllers;
          CreateIsExact(d, name, Context(kubeconfig, {name}, 0, startOK, ByBinding(name)));
        }
      }
  }

  ghost predicate NoOverwrite(s: State, e: Event) {
    WellFormed(s) ==> !Overwrites(s, e)
  }

  lemma EveryRunIsExact(states: seq<State>, events: seq<Event>)
    requires IsRun(states, events, Init, Step)
    requires forall i {:trigger events[i]} :: 0 <= i < |events| ==> NoOverwrite(states[i], events[i])
    ensures forall i :: 0 <= i < |states| ==> Exact(states[i])
  {
    forall s, e, t | Exact(s) && NoOverwrite(s, e) && Step(s, e, t) ensures Exact(t) {
      StepIsExact(s, e, t);
    }
    Always(states, events, Init, Step, NoOverwrite, Exact);
  }

  /** No step ever lowers a cancel count, drops a context or changes its kubeconfig. */
  lemma HeapGrows(s: State, e: Event, t: State)
    requires Step(s, e, t)
    ensures |s.heap| <= |t.heap|
    ensures forall c :: 0 <= c < |s.heap| ==>
              s.heap[c].cancels <= t.heap[c].cancels && t.heap[c].kubeconfig == s.heap[c].kubeconfig
              && t.heap[c].started == s.heap[c].started && t.heap[c].filter == s.heap[c].filter
  {}

  lemma UncancelledIffMapped(s: State, c: nat)
    requires Exact(s) && c < |s.heap|
    ensures s.heap[c].cancels == 0 <==> MappedTo(s, c) != {}
  {
    if k :| k in MappedTo(s, c) {
      assert s.heap[s.controllers[k]].cancels == 0;
    }
  }

  /** A context is cancelled once, in the very step in which its last binding leaves. */
  lemma CancelledWhenLastBindingLeaves(s: State, e: Event, t: State, c: nat)
    requires Exact(s) && Step(s, e, t) && !Overwrites(s, e) && c < |s.heap|
    ensures c < |t.heap|
    ensures t.heap[c].cancels == s.heap[c].cancels + if MappedTo(s, c) != {} && MappedTo(t, c) == {} then 1 else 0
  {
    StepIsExact(s, e, t);
    HeapGrows(s, e, t);
    UncancelledIffMapped(s, c);
    UncancelledIffMapped(t, c);
  }

  ghost function Running(s: State): set<nat> {
    set c: nat | c < |s.heap| && s.heap[c].cancels == 0
  }

  lemma {:induction false} DistinctKubeconfigs(heap: seq<Context>, cs: set<nat>)
    requires forall c :: c in cs ==> c < |heap|
    requires forall b, c :: b in cs && c in cs && heap[b].kubeconfig == heap[c].kubeconfig ==> b == c
    ensures |set c | c in cs :: heap[c].kubeconfig| == |cs|
  {
    if cs != {} {
      var c :| c in cs;
      DistinctKubeconfigs(heap, cs - {c});
      assert (set b | b in cs :: heap[b].kubeconfig)
          == (set b | b in cs - {c} :: heap[b].kubeconfig) + {heap[c].kubeconfig};
    }
  }

  /** Uncancelled contexts number exactly the distinct kubeconfigs in use. */
  lemma OneControllerPerKubeconfig(s: State)
    requires Exact(s)
    ensures |Running(s)| == |Kubeconfigs(s)|
  {
    forall c | c in Running(s) ensures MappedTo(s, c) != {} {
      UncancelledIffMapped(s, c);
    }
    forall b, c | b in Running(s) && c in Running(s) && s.heap[b].kubeconfig == s.heap[c].kubeconfig
      ensures b == c
    {
      var k :| k in MappedTo(s, b);
      var l :| l in MappedTo(s, c);
      assert s.controllers[k] == s.controllers[l];
    }
    DistinctKubeconfigs(s.heap, Running(s));
    var image := set c | c in Running(s) :: s.heap[c].kubeconfig;
    forall kc | kc in image ensures kc in Kubeconfigs(s) {
      var c :| c in Running(s) && s.heap[c].kubeconfig == kc;
      var k :| k in MappedTo(s, c);
      assert s.heap[s.controllers[k]].kubeconfig == kc;
    }
    forall kc | kc in Kubeconfigs(s) ensures kc in image {
      var k :| k in s.controllers && s.heap[s.controllers[k]].kubeconfig == kc;
      assert s.controllers[k] in Running(s);
    }
    assert image == Kubeconfigs(s);
  }

  // ---------------------------------------------------------------- whose entries a step touches

  lemma SyntheticKeysDiffer(a: string, b: string)
    ensures SyntheticKey(a) == SyntheticKey(b) <==> a == b
    ensures |SyntheticKey(a)| >= 13 && SyntheticKey(a)[..13] == "__heartbeat__"
  {
    assert SyntheticKey(a)[13..] == a && SyntheticKey(b)[13..] == b;
  }

  /** The key under which an event may enter or leave the map. */
  function KeyOf(e: Event): string {
    if e.Binding? then e.name else SyntheticKey(e.secretName)
  }

  /** Every step leaves the entries of all other keys as they are. */
  lemma StepIsOwn(s: State, e: Event, t: State, key: string)
    requires Step(s, e, t) && key != KeyOf(e)
    ensures key in t.controllers <==> key in s.controllers
    ensures key in s.controllers ==> t.controllers[key] == s.controllers[key]
  {}

  /** A heartbeat leaves the entries of all bindings and of all other secrets as they are, and every
      context that was there. */
  lemma HeartbeatIsOwn(s: State, e: Event, t: State, other: string)
    requires Step(s, e, t) && e.Heartbeat?
    ensures other != e.secretName ==>
              && (SyntheticKey(other) in t.controllers <==> SyntheticKey(other) in s.controllers)
              && (SyntheticKey(other) in s.controllers ==>
                    t.controllers[SyntheticKey(other)] == s.controllers[SyntheticKey(other)])
    ensures s.heap <= t.heap
  {
    SyntheticKeysDiffer(other, e.secretName);
    if other != e.secretName {
      StepIsOwn(s, e, t, SyntheticKey(other));
    }
  }

  /** What a step that makes a context makes: it serves the kubeconfig of the event, is registered for
      its key alone, runs if the start succeeded, and its filter looks up the binding that started
      it, or for a heartbeat the context itself. */
  lemma CreatedForEvent(s: State, e: Event, t: State)
    requires Step(s, e, t) && |t.heap| > |s.heap|
    ensures |t.heap| == |s.heap| + 1
    ensures var ctx := t.heap[|s.heap|];
            && ctx.bindings == {KeyOf(e)} && (ctx.started <==> e.startOK)
            && (e.Binding? ==> e.secret == Found(ctx.kubeconfig) && ctx.filter == ByBinding(e.name) && ctx.cancels == 0)
            && (e.Heartbeat? ==> e.kubeconfig == ctx.kubeconfig && ctx.filter.Captured? && (ctx.cancels == 0 <==> e.startOK))
  {}

  lemma {:induction false} KeysComeFromEvents(states: seq<State>, events: seq<Event>, n: nat, key: string)
    requires IsRun(states, events, Init, Step) && n < |states| && key in states[n].controllers
    ensures exists m :: 0 <= m < n && KeyOf(events[m]) == key
  {
    if n > 0 {
      var e := events[n - 1];
      assert Step(states[n - 1], e, states[n]);
      if KeyOf(e) != key {
        StepIsOwn(states[n - 1], e, states[n], key);
        KeysComeFromEvents(states, events, n - 1, key);
      }
    }
  }

  /** In every run, a heartbeat overwrites only after an earlier heartbeat of the same secret name, or a
      binding that is named like its key. */
  lemma OverwriteNeedsSameSecret(states: seq<State>, events: seq<Event>, n: nat)
    requires IsRun(states, events, Init, Step) && n < |events| && WellFormed(states[n]) && Overwrites(states[n], events[n])
    ensures exists m :: 0 <= m < n
                        && if events[m].Heartbeat? then events[m].secretName == events[n].secretName
                           else events[m].name == SyntheticKey(events[n].secretName)
  {
    KeysComeFromEvents(states, events, n, SyntheticKey(events[n].secretName));
    var m :| 0 <= m < n && KeyOf(events[m]) == SyntheticKey(events[n].secretName);
    if events[m].Heartbeat? {
      SyntheticKeysDiffer(events[m].secretName, events[n].secretName);
    }
  }

  // ---------------------------------------------------------------- overwritten contexts

  /** An uncancelled context that still lists a key which no longer points to it. */
  ghost predicate Orphaned(s: State, c: nat, key: string) {
    && c < |s.heap| && s.heap[c].cancels == 0 && key in s.heap[c].bindings
    && (key in s.controllers ==> s.controllers[key] != c)
  }

  /** A binding with the name of the key joins the context again, through another key that uses it. */
  ghost predicate Rejoins(s: State, e: Event, c: nat, key: string)
    requires WellFormed(s) && c < |s.heap|
  {
    && e.Binding? && e.name == key && e.secret.Found? && e.secret.kubeconfig != ""
    && s.heap[c].kubeconfig == e.secret.kubeconfig
    && MappedTo(s, c) != {}
  }

  ghost predicate StaysAway(s: State, e: Event, c: nat, key: string) {
    WellFormed(s) && c < |s.heap| ==> !Rejoins(s, e, c, key)
  }

  /** Whether or not the new controller starts, an overwriting heartbeat orphans the old context. */
  lemma OverwritingOrphans(s: State, e: Event, t: State)
    requires Safe(s) && Step(s, e, t) && Overwrites(s, e)
    ensures Orphaned(t, s.controllers[SyntheticKey(e.secretName)], SyntheticKey(e.secretName))
  {}

  lemma ServeKeepsOrphan(d: State, name: string, kubeconfig: string, parsable: bool, startOK: bool, t: State, c: nat, key: string)
    requires Safe(d) && ServeStep(d, name, kubeconfig, parsable, startOK, t) && Orphaned(d, c, key)
    ensures Orphaned(t, c, key) <==>
            !(name == key && kubeconfig != "" && d.heap[c].kubeconfig == kubeconfig && MappedTo(d, c) != {})
  {
    if kubeconfig != "" && kubeconfig in Kubeconfigs(d) {
      var k :| k in d.controllers && d.heap[d.controllers[k]].kubeconfig == kubeconfig
               && t == Attach(d, name, d.controllers[k]);
      if l :| l in MappedTo(d, c) && d.heap[c].kubeconfig == kubeconfig {
        assert d.controllers[l] == d.controllers[k];
      }
      assert d.controllers[k] == c ==> k in MappedTo(d, c);
    } else if l :| l in MappedTo(d, c) && d.heap[c].kubeconfig == kubeconfig {
      assert d.heap[d.controllers[l]].kubeconfig in Kubeconfigs(d);
    }
  }

  /** Leaving another context does not touch the orphan, nor who else uses it. */
  lemma DetachKeepsOrphan(s: State, name: string, kubeconfig: string, c: nat, key: string)
    requires Safe(s) && Orphaned(s, c, key)
    ensures Orphaned(Detach(s, name, kubeconfig), c, key)
    ensures name == key ==> MappedTo(Detach(s, name, kubeconfig), c) == MappedTo(s, c)
    ensures Detach(s, name, kubeconfig).heap[c].kubeconfig == s.heap[c].kubeconfig
  {
    if name != key {
      assert key in s.heap[c].bindings - {name};
    }
  }

  /** An orphan stays one, uncancelled, until exactly a binding of the key's name joins it again. */
  lemma OrphanedUntilRejoined(s: State, e: Event, t: State, c: nat, key: string)
    requires Safe(s) && Step(s, e, t) && Orphaned(s, c, key)
    ensures Orphaned(t, c, key) <==> !Rejoins(s, e, c, key)
  {
    if e.Binding? && !e.secret.ReadError? {
      var kubeconfig := if e.secret.Found? then e.secret.kubeconfig else "";
      DetachIsSafe(s, e.name, kubeconfig);
      DetachKeepsOrphan(s, e.name, kubeconfig, c, key);
      ServeKeepsOrphan(Detach(s, e.name, kubeconfig), e.name, kubeconfig, e.parsable, e.startOK, t, c, key);
    }
  }

  lemma SafeStep(states: seq<State>, events: seq<Event>, n: nat)
    requires IsRun(states, events, Init, Step) && n < |events|
    ensures Safe(states[n]) && Step(states[n], events[n], states[n + 1])
  {
    EveryRunIsSafe(states, events);
    var e := events[n];
    assert Step(states[n], e, states[n + 1]);
  }

  lemma {:induction false} OrphanStays(states: seq<State>, events: seq<Event>, i: nat, j: nat, c: nat, key: string)
    requires IsRun(states, events, Init, Step) && i <= j < |states| && Orphaned(states[i], c, key)
    requires forall m {:trigger events[m]} :: i <= m < j ==> StaysAway(states[m], events[m], c, key)
    ensures Orphaned(states[j], c, key)
  {
    if i < j {
      OrphanStays(states, events, i, j - 1, c, key);
      var e := events[j - 1];
      assert StaysAway(states[j - 1], e, c, key);
      SafeStep(states, events, j - 1);
      OrphanedUntilRejoined(states[j - 1], e, states[j], c, key);
    }
  }

  /** In every run, the context under an overwritten synthetic key is never cancelled, as long as no
      binding with the key's name joins it. (An underscore is not allowed in the name of a binding.) */
  lemma OverwrittenIsNeverCancelled(states: seq<State>, events: seq<Event>, i: nat, j: nat, key: string, c: nat)
    requires IsRun(states, events, Init, Step) && i < |events| && i < j < |states|
    requires WellFormed(states[i]) && Overwrites(states[i], events[i])
    requires key == SyntheticKey(events[i].secretName) && c == states[i].controllers[key]
    requires forall m {:trigger events[m]} :: i < m < j ==> StaysAway(states[m], events[m], c, key)
    ensures Orphaned(states[j], c, key) && states[j].heap[c].cancels == 0
  {
    SafeStep(states, events, i);
    OverwritingOrphans(states[i], events[i], states[i + 1]);
    OrphanStays(states, events, i + 1, j, c, key);
  }

  /** Overwriting happens: the kubeconfig in a labelled secret changes. The old context then runs on
      although no key points to it. */
  lemma OverwriteHappens(secretName: string, k: string, l: string) returns (states: seq<State>, events: seq<Event>)
    requires k != l && k != "" && l != ""
    ensures IsRun(states, events, Init, Step) && |events| == 2
    ensures WellFormed(states[1]) && Overwrites(states[1], events[1])
    ensures Orphaned(states[2], 0, SyntheticKey(secretName)) && MappedTo(states[2], 0) == {}
  {
    var key := SyntheticKey(secretName);
    var s0 := State(map[], []);
    var s1 := Create(s0, key, Context(k, {key}, 0, true, Captured));
    var s2 := Create(s1, key, Context(l, {key}, 0, true, Captured));
    assert Kubeconfigs(s1) == {k} by {
      assert s1.heap[s1.controllers[key]].kubeconfig == k;
    }
    states, events := [s0, s1, s2], [Heartbeat(secretName, k, true, true), Heartbeat(secretName, l, true, true)];
  }

  // ---------------------------------------------------------------- refinement

  /** What the pointer map means: which kubeconfig serves which key. */
  ghost function Abs(s: State): map<string, string>
    requires WellFormed(s)
  {
    map k | k in s.controllers :: s.heap[s.controllers[k]].kubeconfig
  }

  /** The same step on a plain map, with no contexts, sets or cancellation. */
  function PlainStep(m: map<string, string>, e: Event): map<string, string> {
    match e
    case Binding(name, secret, parsable, startOK) =>
      if secret.ReadError? then m else
        var kubeconfig := if secret.Found? then secret.kubeconfig else "";
        var d := if name in m && m[name] != kubeconfig then m - {name} else m;
        if kubeconfig != "" && (kubeconfig in d.Values || parsable) then d[name := kubeconfig] else d
    case Heartbeat(secretName, kubeconfig, parsable, startOK) =>
      if kubeconfig == "" || kubeconfig in m.Values || !parsable then m
      else if startOK then m[SyntheticKey(secretName) := kubeconfig]
      else m - {SyntheticKey(secretName)}
  }

  lemma AbsValues(s: State)
    requires WellFormed(s)
    ensures Abs(s).Values == Kubeconfigs(s)
  {
    forall kc | kc in Kubeconfigs(s) ensures kc in Abs(s).Values {
      var k :| k in s.controllers && s.heap[s.controllers[k]].kubeconfig == kc;
      assert Abs(s)[k] == kc;
    }
  }

  lemma AbsDetach(s: State, name: string, kubeconfig: string)
    requires WellFormed(s)
    ensures WellFormed(Detach(s, name, kubeconfig))
    ensures Abs(Detach(s, name, kubeconfig))
         == if name in Abs(s) && Abs(s)[name] != kubeconfig then Abs(s) - {name} else Abs(s)
  {}

  lemma AbsAttach(s: State, name: string, c: nat)
    requires WellFormed(s) && c < |s.heap|
    ensures var t := Attach(s, name, c); WellFormed(t) && Abs(t) == Abs(s)[name := s.heap[c].kubeconfig]
  {}

  lemma AbsCreate(s: State, key: string, ctx: Context)
    requires WellFormed(s)
    ensures var t := Create(s, key, ctx); WellFormed(t) && Abs(t) == Abs(s)[key := ctx.kubeconfig]
  {}

  lemma AbsServe(d: State, name: string, kubeconfig: string, parsable: bool, startOK: bool, t: State)
    requires WellFormed(d) && ServeStep(d, name, kubeconfig, parsable, startOK, t)
    ensures WellFormed(t)
    ensures Abs(t) == if kubeconfig != "" && (kubeconfig in Abs(d).Values || parsable) then Abs(d)[name := kubeconfig] else Abs(d)
  {
    AbsValues(d);
    if kubeconfig != "" {
      if kubeconfig in Kubeconfigs(d) {
        var k :| k in d.controllers && d.heap[d.controllers[k]].kubeconfig == kubeconfig
                 && t == Attach(d, name, d.controllers[k]);
        AbsAttach(d, name, d.controllers[k]);
      } else if parsable {
        AbsCreate(d, name, Context(kubeconfig, {name}, 0, startOK, ByBinding(name)));
      }
    }
  }

  /** The pointer map refines the plain key-to-kubeconfig map, overwriting heartbeats included. */
  lemma StepRefinesPlainMap(s: State, e: Event, t: State)
    requires Step(s, e, t)
    ensures WellFormed(t) && Abs(t) == PlainStep(Abs(s), e)
  {
    AbsValues(s);
    match e
    case Heartbeat(secretName, kubeconfig, parsable, startOK) =>
      if t != s && startOK {
        AbsCreate(s, SyntheticKey(secretName), t.heap[|s.heap|]);
      }
    case Binding(name, secret, parsable, startOK) =>
      if !secret.ReadError? {
        var kubeconfig := if secret.Found? then secret.kubeconfig else "";
        AbsDetach(s, name, kubeconfig);
        AbsServe(Detach(s, name, kubeconfig), name, kubeconfig, parsable, startOK, t);
      }
  }

  function PlainRun(events: seq<Event>): map<string, string> {
    if events == [] then map[] else PlainStep(PlainRun(events[..|events| - 1]), events[|events| - 1])
  }

  /** Over a whole run, then, the kubeconfig of every key follows from the events alone. */
  lemma {:induction false} EveryRunRefinesPlainMap(states: seq<State>, events: seq<Event>, n: nat)
    requires IsRun(states, events, Init, Step) && n <= |events|
    ensures WellFormed(states[n]) && Abs(states[n]) == PlainRun(events[..n])
  {
    if n > 0 {
      EveryRunRefinesPlainMap(states, events, n - 1);
      var e := events[n - 1];
      StepRefinesPlainMap(states[n - 1], e, states[n]);
      assert events[..n][..n - 1] == events[..n - 1];
    }
  }

  /** In every run without overwrites: uncancelled contexts number the distinct kubeconfigs that the
      plain map holds, and the step taken next cancels exactly the contexts it leaves without keys. */
  lemma EveryRunCancelsExactly(states: seq<State>, events: seq<Event>, n: nat)
    requires IsRun(states, events, Init, Step) && n < |events|
    requires forall i {:trigger events[i]} :: 0 <= i < |events| ==> NoOverwrite(states[i], events[i])
    ensures |Running(states[n])| == |PlainRun(events[..n]).Values|
    ensures |states[n].heap| <= |states[n + 1].heap|
    ensures forall c: nat :: c < |states[n].heap| ==>
              states[n + 1].heap[c].cancels == states[n].heap[c].cancels
                + if MappedTo(states[n], c) != {} && MappedTo(states[n + 1], c) == {} then 1 else 0
  {
    EveryRunIsExact(states, events);
    EveryRunRefinesPlainMap(states, events, n);
    var e := events[n];
    assert Exact(states[n]) && NoOverwrite(states[n], e) && Step(states[n], e, states[n + 1]);
    OneControllerPerKubeconfig(states[n]);
    AbsValues(states[n]);
    HeapGrows(states[n], e, states[n + 1]);
    forall c: nat | c < |states[n].heap|
      ensures states[n + 1].heap[c].cancels == states[n].heap[c].cancels
                + if MappedTo(states[n], c) != {} && MappedTo(states[n + 1], c) == {} then 1 else 0
    {
      CancelledWhenLastBindingLeaves(states[n], e, states[n + 1], c);
    }
  }

  // ---------------------------------------------------------------- failed starts

  ghost predicate AllStarted(s: State)
    requires WellFormed(s)
  {
    forall k :: k in s.controllers ==> s.heap[s.controllers[k]].started
  }

  /** A binding step that creates a context whose controller then fails to start. */
  ghost predicate FailsToStart(s: State, e: Event)
    requires WellFormed(s)
  {
    && e.Binding? && e.secret.Found? && e.secret.kubeconfig != "" && e.parsable && !e.startOK
    && e.secret.kubeconfig !in Kubeconfigs(Detach(s, e.name, e.secret.kubeconfig))
  }

  lemma ServeStarts(d: State, name: string, kubeconfig: string, parsable: bool, startOK: bool, t: State)
    requires WellFormed(d) && AllStarted(d) && ServeStep(d, name, kubeconfig, parsable, startOK, t)
    ensures WellFormed(t)
    ensures AllStarted(t) <==> !(kubeconfig != "" && kubeconfig !in Kubeconfigs(d) && parsable && !startOK)
  {
    if kubeconfig != "" && kubeconfig !in Kubeconfigs(d) && parsable {
      assert name in t.controllers && t.heap[t.controllers[name]].started == startOK;
    }
  }

  lemma HeartbeatStarts(s: State, e: Event, t: State)
    requires e.Heartbeat? && Step(s, e, t) && AllStarted(s)
    ensures WellFormed(t) && AllStarted(t)
  {}

  /** Every mapped key is served by a started controller, until exactly such a step. */
  lemma ServedUntilFailedStart(s: State, e: Event, t: State)
    requires WellFormed(s) && AllStarted(s) && Step(s, e, t)
    ensures WellFormed(t)
    ensures AllStarted(t) <==> !FailsToStart(s, e)
  {
    match e
    case Heartbeat(_, _, _, _) => HeartbeatStarts(s, e, t);
    case Binding(name, secret, parsable, startOK) =>
      if !secret.ReadError? {
        var kubeconfig := if secret.Found? then secret.kubeconfig else "";
        ServeStarts(Detach(s, name, kubeconfig), name, kubeconfig, parsable, startOK, t);
      }
  }

  /** A failed start happens, and reconciling the binding again does not help. */
  lemma FailedStartHappens(name: string, k: string) returns (states: seq<State>, events: seq<Event>)
    requires k != ""
    ensures IsRun(states, events, Init, Step) && |events| == 2
    ensures WellFormed(states[0]) && FailsToStart(states[0], events[0])
    ensures events[1] == Binding(name, Found(k), true, true) && states[2] == states[1]
    ensures WellFormed(states[2]) && name in states[2].controllers && !states[2].heap[states[2].controllers[name]].started
  {
    var s0 := State(map[], []);
    var s1 := Create(s0, name, Context(k, {name}, 0, false, ByBinding(name)));
    assert s1.heap[s1.controllers[name]].kubeconfig == k;
    assert Attach(s1, name, 0) == s1 by {
      assert {name} + {name} == {name};
    }
    assert Step(s1, Binding(name, Found(k), true, true), s1);
    states, events := [s0, s1, s1], [Binding(name, Found(k), true, false), Binding(name, Found(k), true, true)];
  }

  /** Reconciling again with the same kubeconfig changes nothing, so a failed start is never retried. */
  lemma SameKubeconfigIsNoOp(s: State, e: Event, t: State)
    requires Safe(s) && Step(s, e, t)
    requires e.Binding? && e.name in s.controllers
    requires e.secret == Found(s.heap[s.controllers[e.name]].kubeconfig) && e.secret.kubeconfig != ""
    ensures t == s
  {
    var c := s.controllers[e.name];
    assert s.heap[c].kubeconfig in Kubeconfigs(s);
    assert s.heap[c].bindings + {e.name} == s.heap[c].bindings;
  }

  // ---------------------------------------------------------------- filters

  datatype Answer = Accept | Reject | NilDereference

  ghost function FilterAnswer(s: State, c: nat, binding: string): Answer
    requires WellFormed(s) && c < |s.heap|
  {
    var f := s.heap[c].filter;
    if f.ByBinding? && f.binding !in s.controllers then NilDereference
    else
      var consulted := if f.ByBinding? then s.controllers[f.binding] else c;
      if binding in s.heap[consulted].bindings then Accept else Reject
  }

  /** A running controller's filter selects exactly the bindings of its own context if and only
      if it captured the context or its starting binding still points to it. */
  lemma FilterSelectsOwnBindings(s: State, c: nat)
    requires Exact(s) && c < |s.heap| && s.heap[c].cancels == 0
    ensures (forall b :: FilterAnswer(s, c, b) == if b in MappedTo(s, c) then Accept else Reject)
       <==> (s.heap[c].filter.Captured?
             || s.heap[c].filter.binding in MappedTo(s, c))
  {
    var f := s.heap[c].filter;
    if f.ByBinding? && f.binding !in MappedTo(s, c) {
      var own :| own in s.heap[c].bindings;
      assert own in MappedTo(s, c);
      assert FilterAnswer(s, c, own) != Accept;
    }
  }

  /** What a running controller answers, exactly: it dereferences nil if its starting binding is gone
      from the map; else it speaks for the context that binding points to now, its own or another. */
  lemma FilterAnswersIff(s: State, c: nat, b: string)
    requires Exact(s) && c < |s.heap| && s.heap[c].cancels == 0
    ensures var f, answer := s.heap[c].filter, FilterAnswer(s, c, b);
            && (answer == NilDereference <==> f.ByBinding? && f.binding !in s.controllers)
            && (answer == Accept <==>
                if f.Captured? then b in MappedTo(s, c)
                else f.binding in s.controllers && b in MappedTo(s, s.controllers[f.binding]))
            && (b in MappedTo(s, c) ==>
                  (answer == Reject <==> f.ByBinding? && f.binding in s.controllers && s.controllers[f.binding] != c))
  {
    var f := s.heap[c].filter;
    var consulted := if f.ByBinding? && f.binding in s.controllers then s.controllers[f.binding] else c;
    assert s.heap[consulted].cancels == 0 && s.heap[consulted].bindings == MappedTo(s, consulted);
  }

  /** For any two bindings there is a run after which the filter of the running controller that serves
      `b` dereferences nil: the secret of the binding that started it has disappeared. */
  lemma FilterCanDereferenceNil(a: string, b: string, k: string, asked: string)
    returns (states: seq<State>, events: seq<Event>)
    requires a != b && k != ""
    ensures IsRun(states, events, Init, Step) && |events| == 3
    ensures forall i {:trigger events[i]} :: 0 <= i < |events| ==> NoOverwrite(states[i], events[i])
    ensures WellFormed(states[3]) && |states[3].heap| == 1 && states[3].heap[0].cancels == 0
    ensures MappedTo(states[3], 0) == {b} && FilterAnswer(states[3], 0, asked) == NilDereference
  {
    var s0 := State(map[], []);
    var s1 := Create(s0, a, Context(k, {a}, 0, true, ByBinding(a)));
    assert s1.heap[s1.controllers[a]].kubeconfig == k;
    var s2 := Attach(s1, b, 0);
    var s3 := Detach(s2, a, "");
    assert b in s2.heap[0].bindings - {a};
    assert s3.controllers == map[b := 0];
    states, events := [s0, s1, s2, s3], [Binding(a, Found(k), true, true), Binding(b, Found(k), true, true), Binding(a, NotFound, true, true)];
  }

  /** For any two bindings and two kubeconfigs there is a run in which `b` is rejected by the only
      controller that serves it: the binding that started the controller has moved on. */
  lemma FilterCanRejectOwnBinding(a: string, b: string, k: string, l: string)
    returns (states: seq<State>, events: seq<Event>)
    requires a != b && k != l && k != "" && l != ""
    ensures IsRun(states, events, Init, Step)
    ensures forall i {:trigger events[i]} :: 0 <= i < |events| ==> NoOverwrite(states[i], events[i])
    ensures WellFormed(states[|events|]) && |states[|events|].heap| > 0
    ensures b in MappedTo(states[|events|], 0) && FilterAnswer(states[|events|], 0, b) == Reject
  {
    var s0 := State(map[], []);
    var e0 := Binding(a, Found(k), true, true);
    var c0 := Context(k, {a}, 0, true, ByBinding(a));
    var s1 := Create(s0, a, c0);
    var e1 := Binding(b, Found(k), true, true);
    assert s1.heap[s1.controllers[a]].kubeconfig == k;
    var s2 := Attach(s1, b, 0);
    var e2 := Binding(a, Found(l), true, true);
    var d := Detach(s2, a, l);
    assert d.controllers == map[b := 0];
    var s3 := Create(d, a, Context(l, {a}, 0, true, ByBinding(a)));
    states, events := [s0, s1, s2, s3], [e0, e1, e2];
  }

  // ---------------------------------------------------------------- the imperative form

  class ControllerContext {
    const kubeconfig: string
    var serviceBindings: set<string>
    var cancels: nat
    var started: bool
    const filter: Filter
    ghost const id: nat // position in creation order

    constructor (kubeconfig: string, key: string, filter: Filter, ghost id: nat)
      ensures View() == Context(kubeconfig, {key}, 0, false, filter)
      ensures this.id == id
    {
      this.kubeconfig, this.filter, this.id := kubeconfig, filter, id;
      serviceBindings, cancels, started := {key}, 0, false;
    }

    function View(): Context
      reads this
    {
      Context(kubeconfig, serviceBindings, cancels, started, filter)
    }
  }

  class Reconciler {
    var controllers: map<string, ControllerContext>
    ghost var created: seq<ControllerContext> // every context ever made, in order
    ghost var model: State                    // what the objects amount to

    ghost predicate Valid()
      reads this, created
    {
      && WellFormed(model) && |created| == |model.heap|
      && (forall i :: 0 <= i < |created| ==> created[i].id == i && created[i].View() == model.heap[i])
      && controllers.Keys == model.controllers.Keys
      && (forall k :: k in controllers ==> controllers[k] == created[model.controllers[k]])
    }

    constructor ()
      ensures Valid() && fresh(created)
      ensures Init(model)
    {
      controllers, created, model := map[], [], State(map[], []);
    }

    /** The search loop over the map, in no particular order. */
    method FindByKubeconfig(kubeconfig: string) returns (found: bool, key: string)
      requires Valid()
      ensures found <==> kubeconfig in Kubeconfigs(model)
      ensures found ==> key in controllers && controllers[key].kubeconfig == kubeconfig
    {
      var todo := controllers.Keys;
      found, key := false, "";
      while todo != {}
        invariant todo <= controllers.Keys
        invariant forall k :: k in controllers && k !in todo ==> controllers[k].kubeconfig != kubeconfig
        decreases todo
      {
        key :| key in todo;
        if controllers[key].kubeconfig == kubeconfig {
          assert model.heap[model.controllers[key]] == controllers[key].View();
          return true, key;
        }
        todo := todo - {key};
      }
      forall k | k in controllers ensures model.heap[model.controllers[k]].kubeconfig != kubeconfig {
        assert model.heap[model.controllers[k]] == controllers[k].View();
      }
    }

    method StopOld(name: string, kubeconfig: string)
      requires Valid()
      modifies this`controllers, this`model, created
      ensures Valid()
      ensures model == Detach(old(model), name, kubeconfig)
    {
      if name in controllers && controllers[name].kubeconfig != kubeconfig {
        var ctx := controllers[name];
        assert ctx.View() == model.heap[model.controllers[name]];
        ctx.serviceBindings := ctx.serviceBindings - {name};
        if ctx.serviceBindings == {} {
          ctx.cancels := ctx.cancels + 1;
        }
        controllers := controllers - {name};
        model := Detach(model, name, kubeconfig);
        assert model.heap == old(model).heap[ctx.id := ctx.View()];
      }
    }

    method Join(name: string, key: string)
      requires Valid() && key in controllers
      modifies this`controllers, this`model, created
      ensures Valid()
      ensures model == Attach(old(model), name, old(model).controllers[key])
    {
      var ctx := controllers[key];
      controllers := controllers[name := ctx];
      ctx.serviceBindings := ctx.serviceBindings + {name};
      model := Attach(model, name, model.controllers[key]);
    }

    method Register(key: string, kubeconfig: string, filter: Filter, startOK: bool) returns (ctx: ControllerContext)
      requires Valid()
      modifies this
      ensures Valid() && fresh(ctx) && created == old(created) + [ctx]
      ensures model == Create(old(model), key, Context(kubeconfig, {key}, 0, startOK, filter))
    {
      ctx := new ControllerContext(kubeconfig, key, filter, |created|);
      controllers := controllers[key := ctx];
      created := created + [ctx];
      ctx.started := startOK;
      model := Create(model, key, ctx.View());
    }

    /** Undoes the latest registration, of a controller that failed to start. */
    method Rollback(key: string, ctx: ControllerContext)
      requires Valid() && created != [] && ctx == created[|created| - 1]
      modifies this`controllers, this`model, ctx
      ensures Valid()
      ensures model == RolledBack(old(model), key)
    {
      assert ctx.View() == model.heap[|created| - 1];
      ctx.cancels := ctx.cancels + 1;
      controllers := controllers - {key};
      model := RolledBack(model, key);
    }

    method Serve(name: string, kubeconfig: string, parsable: bool, startOK: bool)
      requires Valid()
      modifies this, created
      ensures Valid() && forall c :: c in created && c !in old(created) ==> fresh(c)
      ensures ServeStep(old(model), name, kubeconfig, parsable, startOK, model)
    {
      if kubeconfig == "" {
        return;
      }
      var found, key := FindByKubeconfig(kubeconfig);
      if found {
        assert model.heap[model.controllers[key]] == controllers[key].View();
        Join(name, key);
      } else if parsable {
        // when the start fails, the entry stays in the map
        var _ := Register(name, kubeconfig, ByBinding(name), startOK);
      }
    }

    /** One call of reconcile for a binding, taken under the lock. */
    method Reconcile(name: string, secret: SecretRead, parsable: bool, startOK: bool)
      requires Valid()
      modifies this, created
      ensures Valid() && forall c :: c in created && c !in old(created) ==> fresh(c)
      ensures Step(old(model), Binding(name, secret, parsable, startOK), model)
    {
      if secret.ReadError? {
        return;
      }
      var kubeconfig := if secret.Found? then secret.kubeconfig else "";
      StopOld(name, kubeconfig);
      Serve(name, kubeconfig, parsable, startOK);
    }

    /** One call of startClusterControllerForSecret, taken under the lock. */
    method StartForSecret(secretName: string, kubeconfig: string, parsable: bool, startOK: bool)
      requires Valid()
      modifies this
      ensures Valid() && forall c :: c in created && c !in old(created) ==> fresh(c)
      ensures Step(old(model), Heartbeat(secretName, kubeconfig, parsable, startOK), model)
    {
      if kubeconfig == "" {
        return;
      }
      var found, _ := FindByKubeconfig(kubeconfig);
      if found || !parsable {
        return;
      }
      var key := SyntheticKey(secretName);
      var ctx := Register(key, kubeconfig, Captured, startOK);
      if !startOK {
        Rollback(key, ctx);
      }
    }
  }
}
