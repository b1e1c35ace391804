/**
 From an identity to its cluster namespace (backend/kubernetes/manager.go,
 backend/kubernetes/resources/namespace.go).

 Any number of HandleResources calls run at once; each API request is one atomic step. Lists
 and reads may be stale: they may return anything that was ever stored. The hash is arbitrary
 and may collide.
 */
module Tenancy {
  import opened Api
  import opened Runs

  type Hash = string -> string

  /** The two identity annotations of a namespace. */
  datatype Namespace = Namespace(identity: Option<string>, legacy: Option<string>)

  datatype Progress =
    | Listing
    | Creating
    | Getting
    | Patching
    | Returned(namespace: string)
    | Failed

  datatype Call = Call(identity: string, progress: Progress)

  datatype State = State(
    namespaces: map<string, Namespace>,
    history: set<(string, Namespace)>, // everything that was ever stored under a name
    calls: map<nat, Call>)

  datatype Event =
    | Begin(c: nat, identity: string)
    | List(c: nat, found: set<string>, ok: bool)
    | Create(c: nat, ok: bool)
    | Get(c: nat, got: Namespace, ok: bool)
    | Patch(c: nat, ok: bool)

  /** An annotation that is absent reads as the empty string. */
  function Read(a: Option<string>): string {
    if a.Some? then a.value else ""
  }

  function Owner(v: Namespace): Option<string> {
    if v.identity.Some? then v.identity else v.legacy
  }

  /** The check on a namespace that already exists. */
  predicate Accepts(v: Namespace, identity: string) {
    Read(v.identity) == identity || Read(v.legacy) == identity
  }

  /** When handleLegacyAnnotations patches. */
  predicate NeedsPatch(v: Namespace, identity: string) {
    v.legacy.Some? && (v.identity.None? || v.identity.value != identity) && v.legacy.value == identity
  }

  function NameFor(prefix: string, hash: Hash, identity: string): string {
    prefix + hash(identity)
  }

  function Advance(s: State, c: nat, p: Progress): State
    requires c in s.calls
  {
    s.(calls := s.calls[c := s.calls[c].(progress := p)])
  }

  function Store(s: State, name: string, v: Namespace): State {
    s.(namespaces := s.namespaces[name := v], history := s.history + {(name, v)})
  }

  ghost predicate Step(prefix: string, hash: Hash, s: State, e: Event, t: State) {
    match e
    case Begin(c, identity) => c !in s.calls && t == s.(calls := s.calls[c := Call(identity, Listing)])
    case List(c, found, ok) =>
      && c in s.calls && s.calls[c].progress.Listing?
      // the index holds the identity annotation only; the listing may be stale
      && (forall n :: n in found ==>
            exists v :: (n, v) in s.history && v.identity == Some(s.calls[c].identity))
      && t == Advance(s, c,
                      if !ok || |found| > 1 then Failed
                      else if n :| n in found then Returned(n)
                      else Creating)
    case Create(c, ok) =>
      && c in s.calls && s.calls[c].progress.Creating?
      && var name := NameFor(prefix, hash, s.calls[c].identity);
      if !ok then t == Advance(s, c, Failed)
      else if name in s.namespaces then t == Advance(s, c, Getting)
      else t == Advance(Store(s, name, Namespace(Some(s.calls[c].identity), None)), c, Returned(name))
    case Get(c, got, ok) =>
      && c in s.calls && s.calls[c].progress.Getting?
      && var name := NameFor(prefix, hash, s.calls[c].identity);
      && (name, got) in s.history
      && t == Advance(s, c,
                      if !ok || !Accepts(got, s.calls[c].identity) then Failed
                      else if NeedsPatch(got, s.calls[c].identity) then Patching
                      else Returned(name))
    case Patch(c, ok) =>
      && c in s.calls && s.calls[c].progress.Patching?
      && var name := NameFor(prefix, hash, s.calls[c].identity);
      if !ok || name !in s.namespaces then t == Advance(s, c, Failed)
      else t == Advance(Store(s, name, Namespace(Some(s.calls[c].identity), None)), c, Returned(name))
  }

  /** No calls yet; namespaces are unrelated to any identity, or legacy ones named prefix+hash. */
  ghost predicate Init(prefix: string, hash: Hash, s: State) {
    && s.calls == map[]
    && s.history == (set n | n in s.namespaces :: (n, s.namespaces[n]))
    && forall n :: n in s.namespaces ==>
         var v := s.namespaces[n];
         v.identity.None? && (v.legacy.None? || (v.legacy.value != "" && n == NameFor(prefix, hash, v.legacy.value)))
  }

  // ---------------------------------------------------------------- the invariant

  ghost predicate Consistent(prefix: string, hash: Hash, s: State, n: string, v: Namespace) {
    && n in s.namespaces
    && Owner(s.namespaces[n]) == Owner(v)
    && (v.identity.Some? ==> s.namespaces[n].identity == v.identity)
    && (v.identity.None? || v.legacy.None?)
    && (Owner(v).Some? ==> Owner(v).value != "" && n == NameFor(prefix, hash, Owner(v).value))
  }

  ghost predicate CallOK(prefix: string, hash: Hash, s: State, call: Call) {
    var name := NameFor(prefix, hash, call.identity);
    match call.progress
    case Returned(ns) => ns == name && name in s.namespaces && s.namespaces[name].identity == Some(call.identity)
    case Patching => name in s.namespaces && Owner(s.namespaces[name]) == Some(call.identity)
    case _ => true
  }

  ghost predicate Inv(prefix: string, hash: Hash, s: State) {
    && (forall n :: n in s.namespaces ==> (n, s.namespaces[n]) in s.history)
    && (forall n, v :: (n, v) in s.history ==> Consistent(prefix, hash, s, n, v))
    && (forall c :: c in s.calls ==> s.calls[c].identity != "" && CallOK(prefix, hash, s, s.calls[c]))
  }

  /** Writing the caller's annotation keeps everything, if the name was free or already the caller's. */
  lemma StoreKeeps(prefix: string, hash: Hash, s: State, identity: string)
    requires Inv(prefix, hash, s) && identity != ""
    requires var name := NameFor(prefix, hash, identity);
             name in s.namespaces ==> Owner(s.namespaces[name]) == Some(identity)
    ensures Inv(prefix, hash, Store(s, NameFor(prefix, hash, identity), Namespace(Some(identity), None)))
  {
    var name := NameFor(prefix, hash, identity);
    var t := Store(s, name, Namespace(Some(identity), None));
    forall n, v | (n, v) in t.history ensures Consistent(prefix, hash, t, n, v) {
      assert (n, v) in s.history ==> Consistent(prefix, hash, s, n, v);
    }
    forall c | c in t.calls ensures CallOK(prefix, hash, t, t.calls[c]) {
      assert CallOK(prefix, hash, s, s.calls[c]);
    }
  }

  lemma AdvanceKeeps(prefix: string, hash: Hash, s: State, c: nat, p: Progress)
    requires Inv(prefix, hash, s) && c in s.calls && CallOK(prefix, hash, s, s.calls[c].(progress := p))
    ensures Inv(prefix, hash, Advance(s, c, p))
  {
    var t := Advance(s, c, p);
    forall d | d in t.calls ensures t.calls[d].identity != "" && CallOK(prefix, hash, t, t.calls[d]) {
      assert CallOK(prefix, hash, s, s.calls[d]);
    }
    forall n, v | (n, v) in t.history ensures Consistent(prefix, hash, t, n, v) {
      assert Consistent(prefix, hash, s, n, v);
    }
  }

  ghost predicate Named(s: State, e: Event) {
    e.Begin? ==> e.identity != ""
  }

  lemma StepKeeps(prefix: string, hash: Hash, s: State, e: Event, t: State)
    requires Inv(prefix, hash, s) && Step(prefix, hash, s, e, t) && Named(s, e)
    ensures Inv(prefix, hash, t)
  {
    match e
    case Begin(c, identity) =>
      forall d | d in t.calls ensures t.calls[d].identity != "" && CallOK(prefix, hash, t, t.calls[d]) {
        assert d != c ==> CallOK(prefix, hash, s, s.calls[d]);
      }
      forall n, v | (n, v) in t.history ensures Consistent(prefix, hash, t, n, v) {
        assert Consistent(prefix, hash, s, n, v);
      }
    case List(c, found, ok) =>
      forall n | n in found ensures CallOK(prefix, hash, s, Call(s.calls[c].identity, Returned(n))) {
        var v :| (n, v) in s.history && v.identity == Some(s.calls[c].identity);
        assert Consistent(prefix, hash, s, n, v);
      }
      AdvanceKeeps(prefix, hash, s, c, t.calls[c].progress);
    case Create(c, ok) =>
      var name := NameFor(prefix, hash, s.calls[c].identity);
      if ok && name !in s.namespaces {
        StoreKeeps(prefix, hash, s, s.calls[c].identity);
        AdvanceKeeps(prefix, hash, Store(s, name, Namespace(Some(s.calls[c].identity), None)), c, Returned(name));
      } else {
        AdvanceKeeps(prefix, hash, s, c, t.calls[c].progress);
      }
    case Get(c, got, ok) =>
      assert Consistent(prefix, hash, s, NameFor(prefix, hash, s.calls[c].identity), got);
      AdvanceKeeps(prefix, hash, s, c, t.calls[c].progress);
    case Patch(c, ok) =>
      var name := NameFor(prefix, hash, s.calls[c].identity);
      assert CallOK(prefix, hash, s, s.calls[c]);
      if ok {
        StoreKeeps(prefix, hash, s, s.calls[c].identity);
        AdvanceKeeps(prefix, hash, Store(s, name, Namespace(Some(s.calls[c].identity), None)), c, Returned(name));
      } else {
        AdvanceKeeps(prefix, hash, s, c, Failed);
      }
  }

  lemma EveryRunKeeps(prefix: string, hash: Hash, states: seq<State>, events: seq<Event>)
    requires IsRun(states, events, s => Init(prefix, hash, s), (s, e, t) => Step(prefix, hash, s, e, t))
    requires forall i {:trigger events[i]} :: 0 <= i < |events| ==> Named(states[i], events[i])
    ensures forall i :: 0 <= i < |states| ==> Inv(prefix, hash, states[i])
  {
    var init := s => Init(prefix, hash, s);
    var step := (s, e, t) => Step(prefix, hash, s, e, t);
    var inv := s => Inv(prefix, hash, s);
    forall s, e, t | inv(s) && Named(s, e) && step(s, e, t) ensures inv(t) {
      StepKeeps(prefix, hash, s, e, t);
    }
    forall s | init(s) ensures inv(s) {
      forall n, v | (n, v) in s.history ensures Consistent(prefix, hash, s, n, v) {}
    }
    Always(states, events, init, step, Named, inv);
    assert forall i :: 0 <= i < |states| ==> inv(states[i]);
  }

  // ---------------------------------------------------------------- what callers get

  lemma HistoryGrows(prefix: string, hash: Hash, s: State, e: Event, t: State)
    requires Step(prefix, hash, s, e, t)
    ensures s.history <= t.history
  {}

  lemma {:induction false} HistoryGrowsAlong(
    prefix: string, hash: Hash, states: seq<State>, events: seq<Event>, i: nat, j: nat)
    requires IsRun(states, events, s => Start(s), (s, e, t) => Step(prefix, hash, s, e, t))
    requires i <= j < |states|
    ensures states[i].history <= states[j].history
  {
    if i < j {
      HistoryGrowsAlong(prefix, hash, states, events, i, j - 1);
      var e := events[j - 1];
      HistoryGrows(prefix, hash, states[j - 1], e, states[j]);
    }
  }

  /** Any namespaces at all, and no calls yet. */
  ghost predicate Start(s: State) {
    s.calls == map[] && s.history == (set n | n in s.namespaces :: (n, s.namespaces[n]))
  }

  /** A namespace with both annotations, for different identities, and named after the legacy one. */
  predicate Contested(prefix: string, hash: Hash, n: string, v: Namespace) {
    v.identity.Some? && v.legacy.Some? && v.identity != v.legacy && n == NameFor(prefix, hash, v.legacy.value)
  }

  ghost predicate NoneContested(prefix: string, hash: Hash, s: State) {
    forall n :: n in s.namespaces ==> !Contested(prefix, hash, n, s.namespaces[n])
  }

  ghost predicate OwnersInv(prefix: string, hash: Hash, s: State) {
    && (forall n :: n in s.namespaces ==> (n, s.namespaces[n]) in s.history)
    && (forall n, v :: (n, v) in s.history ==>
          n in s.namespaces && Owner(s.namespaces[n]) == Owner(v) && !Contested(prefix, hash, n, v))
    && (forall c :: c in s.calls && s.calls[c].progress.Patching? ==>
          OwnedBy(s, NameFor(prefix, hash, s.calls[c].identity), s.calls[c].identity))
  }

  ghost predicate OwnedBy(s: State, n: string, identity: string) {
    n in s.namespaces && Owner(s.namespaces[n]) == Some(identity)
  }

  lemma StoreKeepsOwners(prefix: string, hash: Hash, s: State, identity: string)
    requires OwnersInv(prefix, hash, s)
    requires var name := NameFor(prefix, hash, identity); name in s.namespaces ==> OwnedBy(s, name, identity)
    ensures OwnersInv(prefix, hash, Store(s, NameFor(prefix, hash, identity), Namespace(Some(identity), None)))
  {}

  lemma AdvanceKeepsOwners(prefix: string, hash: Hash, s: State, c: nat, p: Progress)
    requires OwnersInv(prefix, hash, s) && c in s.calls
    requires p.Patching? ==> OwnedBy(s, NameFor(prefix, hash, s.calls[c].identity), s.calls[c].identity)
    ensures OwnersInv(prefix, hash, Advance(s, c, p))
  {}

  lemma StepKeepsOwners(prefix: string, hash: Hash, s: State, e: Event, t: State)
    requires OwnersInv(prefix, hash, s) && Step(prefix, hash, s, e, t)
    ensures OwnersInv(prefix, hash, t)
  {
    if !e.Begin? {
      var identity, p := s.calls[e.c].identity, t.calls[e.c].progress;
      var name := NameFor(prefix, hash, identity);
      if t.namespaces != s.namespaces || t.history != s.history {
        StoreKeepsOwners(prefix, hash, s, identity);
        AdvanceKeepsOwners(prefix, hash, Store(s, name, Namespace(Some(identity), None)), e.c, p);
      } else {
        AdvanceKeepsOwners(prefix, hash, s, e.c, p);
      }
    }
  }

  /** In every run, with any identities, stale reads and failures, and whatever namespaces there were
      before: an owner never changes, provided no namespace was contested at the start. */
  lemma OwnerNeverChanges(
    prefix: string, hash: Hash, states: seq<State>, events: seq<Event>, i: nat, j: nat, n: string)
    requires IsRun(states, events, s => Start(s), (s, e, t) => Step(prefix, hash, s, e, t))
    requires NoneContested(prefix, hash, states[0])
    requires i <= j < |states| && n in states[i].namespaces
    ensures n in states[j].namespaces && Owner(states[j].namespaces[n]) == Owner(states[i].namespaces[n])
  {
    var init := s => Start(s) && NoneContested(prefix, hash, s);
    var step := (s, e, t) => Step(prefix, hash, s, e, t);
    var inv := s => OwnersInv(prefix, hash, s);
    forall s, e, t | inv(s) && step(s, e, t) ensures inv(t) {
      StepKeepsOwners(prefix, hash, s, e, t);
    }
    Always(states, events, init, step, (s, e) => true, inv);
    HistoryGrowsAlong(prefix, hash, states, events, i, j);
    assert inv(states[i]) && inv(states[j]);
    assert (n, states[i].namespaces[n]) in states[j].history;
  }

  /** At any two moments of a run: a call that has succeeded got a namespace that carries its
      identity, then and ever after; and two calls that have succeeded got the same namespace if and
      only if they are for the same identity. */
  lemma NamespacesAreExclusive(
    prefix: string, hash: Hash, states: seq<State>, events: seq<Event>, i: nat, j: nat, c: nat, d: nat)
    requires IsRun(states, events, s => Init(prefix, hash, s), (s, e, t) => Step(prefix, hash, s, e, t))
    requires forall k {:trigger events[k]} :: 0 <= k < |events| ==> Named(states[k], events[k])
    requires i <= j < |states| && c in states[i].calls && d in states[j].calls
    requires states[i].calls[c].progress.Returned? && states[j].calls[d].progress.Returned?
    ensures var ns := states[i].calls[c].progress.namespace;
            && ns == prefix + hash(states[i].calls[c].identity)
            && ns in states[i].namespaces && states[i].namespaces[ns].identity == Some(states[i].calls[c].identity)
            && ns in states[j].namespaces && Owner(states[j].namespaces[ns]) == Some(states[i].calls[c].identity)
    ensures states[i].calls[c].progress.namespace == states[j].calls[d].progress.namespace
       <==> states[i].calls[c].identity == states[j].calls[d].identity
  {
    EveryRunKeeps(prefix, hash, states, events);
    assert Inv(prefix, hash, states[i]) && Inv(prefix, hash, states[j]);
    assert CallOK(prefix, hash, states[i], states[i].calls[c]) && CallOK(prefix, hash, states[j], states[j].calls[d]);
    assert Start(states[0]) && NoneContested(prefix, hash, states[0]);
    OwnerNeverChanges(prefix, hash, states, events, i, j, states[i].calls[c].progress.namespace);
  }

  // ---------------------------------------------------------------- what each request leads to

  /** A successful list with exactly one namespace returns it; with none, a namespace is created; the
      call fails exactly if the request fails or more than one is found. */
  lemma ListOutcome(prefix: string, hash: Hash, s: State, c: nat, found: set<string>, ok: bool, t: State)
    requires Step(prefix, hash, s, List(c, found, ok), t)
    ensures t.namespaces == s.namespaces && c in t.calls && t.calls[c].identity == s.calls[c].identity
    ensures t.calls[c].progress.Failed? <==> !ok || |found| > 1
    ensures t.calls[c].progress.Creating? <==> ok && found == {}
    ensures forall n :: ok && found == {n} ==> t.calls[c].progress == Returned(n)
  {}

  /** A namespace whose name is free is created with the caller's annotation and returned; one that
      exists is looked at. */
  lemma CreateOutcome(prefix: string, hash: Hash, s: State, c: nat, ok: bool, t: State)
    requires Step(prefix, hash, s, Create(c, ok), t)
    ensures var identity, name, p := s.calls[c].identity, prefix + hash(s.calls[c].identity), t.calls[c].progress;
            && (p.Failed? <==> !ok)
            && (p.Getting? <==> ok && name in s.namespaces)
            && (ok && name !in s.namespaces ==>
                  p == Returned(name) && t.namespaces == s.namespaces[name := Namespace(Some(identity), None)])
            && (!ok || name in s.namespaces ==> t.namespaces == s.namespaces)
  {}

  /** One that exists is refused unless an annotation names the caller, migrated if only the legacy one
      does, and returned as it is otherwise. */
  lemma GetOutcome(prefix: string, hash: Hash, s: State, c: nat, got: Namespace, ok: bool, t: State)
    requires Step(prefix, hash, s, Get(c, got, ok), t) && s.calls[c].identity != ""
    ensures var identity, p := s.calls[c].identity, t.calls[c].progress;
            && (p.Failed? <==> !ok || (got.identity != Some(identity) && got.legacy != Some(identity)))
            && (p.Patching? <==> ok && got.legacy == Some(identity) && got.identity != Some(identity))
            && (ok && got.identity == Some(identity) ==> p == Returned(prefix + hash(identity)))
            && t.namespaces == s.namespaces
  {}

  lemma PatchOutcome(prefix: string, hash: Hash, s: State, c: nat, ok: bool, t: State)
    requires Step(prefix, hash, s, Patch(c, ok), t) && prefix + hash(s.calls[c].identity) in s.namespaces
    ensures var identity, name, p := s.calls[c].identity, prefix + hash(s.calls[c].identity), t.calls[c].progress;
            && (p.Failed? <==> !ok)
            && (ok ==> p == Returned(name) && t.namespaces == s.namespaces[name := Namespace(Some(identity), None)])
            && (!ok ==> t.namespaces == s.namespaces)
  {}

  /** Every identity gets a namespace: a first call creates it, and a second one finds the same. */
  lemma SecondLoginFindsTheSame(prefix: string, hash: Hash, identity: string)
    returns (states: seq<State>, events: seq<Event>)
    ensures IsRun(states, events, s => Init(prefix, hash, s), (s, e, t) => Step(prefix, hash, s, e, t))
    ensures var s, name := states[|events|], prefix + hash(identity);
            && s.calls.Keys == {0, 1} && s.calls[0] == s.calls[1] == Call(identity, Returned(name))
            && s.namespaces == map[name := Namespace(Some(identity), None)]
  {
    var name := prefix + hash(identity);
    var s0 := State(map[], {}, map[]);
    var s1 := s0.(calls := s0.calls[0 := Call(identity, Listing)]);
    var s2 := Advance(s1, 0, Creating);
    var s3 := Advance(Store(s2, name, Namespace(Some(identity), None)), 0, Returned(name));
    var s4 := s3.(calls := s3.calls[1 := Call(identity, Listing)]);
    var s5 := Advance(s4, 1, Returned(name));
    assert (name, s4.namespaces[name]) in s4.history;
    states := [s0, s1, s2, s3, s4, s5];
    events := [Begin(0, identity), List(0, {}, true), Create(0, true), Begin(1, identity), List(1, {name}, true)];
  }

  /** The owner of a legacy namespace gets it back, with the annotation migrated. */
  lemma LegacyNamespaceIsMigrated(prefix: string, hash: Hash, identity: string)
    returns (states: seq<State>, events: seq<Event>)
    requires identity != ""
    ensures IsRun(states, events, s => Init(prefix, hash, s), (s, e, t) => Step(prefix, hash, s, e, t))
    ensures var s, t, name := states[0], states[|events|], prefix + hash(identity);
            && s.namespaces == map[name := Namespace(None, Some(identity))]
            && t.namespaces == map[name := Namespace(Some(identity), None)]
            && t.calls.Keys == {0} && t.calls[0] == Call(identity, Returned(name))
  {
    var name, v := prefix + hash(identity), Namespace(None, Some(identity));
    var namespaces := map[name := v];
    var s0 := State(namespaces, set n | n in namespaces :: (n, namespaces[n]), map[]);
    assert name in namespaces && (name, v) in s0.history;
    var s1 := s0.(calls := s0.calls[0 := Call(identity, Listing)]);
    var s2 := Advance(s1, 0, Creating);
    var s3 := Advance(s2, 0, Getting);
    var s4 := Advance(s3, 0, Patching);
    var s5 := Advance(Store(s4, name, Namespace(Some(identity), None)), 0, Returned(name));
    states := [s0, s1, s2, s3, s4, s5];
    events := [Begin(0, identity), List(0, {}, true), Create(0, true), Get(0, v, true), Patch(0, true)];
  }

  // ---------------------------------------------------------------- where it stops

  /** The check admits exactly the owner, for a namespace with at most one of the annotations and
      a caller with a non-empty identity. */
  lemma AcceptsOnlyOwner(v: Namespace, identity: string)
    requires v.identity.None? || v.legacy.None?
    ensures identity != "" ==> (Accepts(v, identity) <==> Owner(v) == Some(identity))
    ensures Accepts(v, "") // an absent annotation compares equal to the empty identity
  {}

  /** And provided only: from any start with a contested namespace, whatever else there is, some run
      takes it from its owner. */
  lemma OwnerCanBeTaken(prefix: string, hash: Hash, s: State, n: string) returns (states: seq<State>, events: seq<Event>)
    requires Start(s) && n in s.namespaces && Contested(prefix, hash, n, s.namespaces[n])
    ensures IsRun(states, events, s => Start(s), (s, e, t) => Step(prefix, hash, s, e, t)) && states[0] == s
    ensures n in states[|events|].namespaces && Owner(states[|events|].namespaces[n]) != Owner(s.namespaces[n])
  {
    var v := s.namespaces[n];
    var taker := v.legacy.value;
    var s1 := s.(calls := s.calls[0 := Call(taker, Listing)]);
    var s2 := Advance(s1, 0, Creating);
    var s3 := Advance(s2, 0, Getting);
    var s4 := Advance(s3, 0, Patching);
    var s5 := Advance(Store(s4, n, Namespace(Some(taker), None)), 0, Returned(n));
    states := [s, s1, s2, s3, s4, s5];
    events := [Begin(0, taker), List(0, {}, true), Create(0, true), Get(0, v, true), Patch(0, true)];
  }

  // ---------------------------------------------------------------- the imperative form

  /** The API server's namespaces as the two functions below see them, read and written directly. */
  class Cluster {
    var namespaces: map<string, Namespace>

    constructor (namespaces: map<string, Namespace>)
      ensures this.namespaces == namespaces
    {
      this.namespaces := namespaces;
    }

    /** HandleResources, up to the namespace: the one that is listed for the identity, or a new one.
        `listed` is what the list returns, if it succeeds. */
    method FindOrCreateNamespace(
      prefix: string, hash: Hash, identity: string, listed: Option<seq<string>>,
      createOK: bool, read: Option<Namespace>, patchOK: bool)
      returns (result: Option<string>)
      modifies this
      ensures listed.None? || |listed.value| > 1 ==> result.None? && namespaces == old(namespaces)
      ensures listed.Some? && |listed.value| == 1 ==> result == Some(listed.value[0]) && namespaces == old(namespaces)
      ensures listed == Some([]) ==>
                && (result.Some? ==> result.value == prefix + hash(identity))
                && (createOK && prefix + hash(identity) !in old(namespaces) ==>
                      result.Some? && namespaces == old(namespaces)[result.value := Namespace(Some(identity), None)])
                && (result.None? ==> namespaces == old(namespaces))
    {
      if listed.None? {
        return None;
      }
      if |listed.value| > 1 {
        return None;
      }
      if |listed.value| == 1 {
        return Some(listed.value[0]);
      }
      result := CreateNamespace(prefix, hash, identity, createOK, read, patchOK);
    }

    /** CreateNamespace. `createOK`, `patchOK`: whether these requests succeed; `read`: what the get
        returns, which may be outdated, or nothing if it fails. */
    method CreateNamespace(
      prefix: string, hash: Hash, identity: string, createOK: bool, read: Option<Namespace>, patchOK: bool)
      returns (result: Option<string>)
      modifies this
      ensures result.Some? ==> result.value == NameFor(prefix, hash, identity)
      ensures var name := NameFor(prefix, hash, identity);
              && (result.Some? <==>
                  && createOK
                  && (|| name !in old(namespaces)
                      || (read.Some? && Accepts(read.value, identity) && (NeedsPatch(read.value, identity) ==> patchOK))))
              && (namespaces == if result.Some? && (name !in old(namespaces) || NeedsPatch(read.value, identity))
                                then old(namespaces)[name := Namespace(Some(identity), None)]
                                else old(namespaces))
    {
      var name := prefix + hash(identity);
      if !createOK {
        return None;
      }
      if name !in namespaces {
        namespaces := namespaces[name := Namespace(Some(identity), None)];
        return Some(name);
      }
      if read.None? {
        return None;
      }
      var v := read.value;
      if Read(v.identity) != identity && Read(v.legacy) != identity {
        return None;
      }
      if v.legacy.Some? && (v.identity.None? || v.identity.value != identity) && v.legacy.value == identity {
        if !patchOK {
          return None;
        }
        v := v.(identity := Some(identity), legacy := None);
        namespaces := namespaces[name := v];
      }
      return Some(name);
    }
  }
}
