/**
 Syncing APIServiceBindings with a provider's exports, by any number of bundles at once
 (pkg/konnector/controllers/servicebindingbundle/servicebindingbundle_reconcile.go).

 A sync lists exports and bindings, creates what is missing and then deletes what it owns and no
 longer needs. Syncs of different bundles interleave request by request; those of one bundle do
 not overlap. Users may create bindings of their own.
 */
module BindingBundles {
  import opened Runs

  datatype OwnerRef = OwnerRef(apiVersion: string, kind: string, name: string, uid: string)

  datatype Bundle = Bundle(name: string, uid: string, secretRef: string)

  datatype Binding = Binding(owners: seq<OwnerRef>, secretRef: string)

  const API_VERSION := "kube-bind.io/v1alpha2"
  const KIND := "APIServiceBindingBundle"

  function RefTo(b: Bundle): OwnerRef {
    OwnerRef(API_VERSION, KIND, b.name, b.uid)
  }

  type Bindings = map<string, Binding>

  predicate Owns(ref: OwnerRef, bindings: Bindings, n: string) {
    n in bindings && ref in bindings[n].owners
  }

  function Owned(ref: OwnerRef, bindings: Bindings): set<string> {
    set n | n in bindings && Owns(ref, bindings, n)
  }

  function NewBinding(b: Bundle): Binding {
    Binding([RefTo(b)], b.secretRef)
  }

  // ---------------------------------------------------------------- interleaved syncs

  /** A sync under way: what is left to do, which names were found taken, whether a request failed. */
  datatype Sync = Sync(bundle: Bundle, exports: set<string>, creates: set<string>, deletes: set<string>,
                       taken: set<string>, failed: bool)

  datatype State = State(bindings: Bindings, syncs: map<OwnerRef, Sync>)

  datatype Event =
    | Begin(bundle: Bundle, exports: set<string>)
    | Create(ref: OwnerRef, n: string, ok: bool)
    | Delete(ref: OwnerRef, n: string, ok: bool)
    | Finish(ref: OwnerRef)
    | UserCreate(n: string, binding: Binding)
    | UserDelete(n: string)

  ghost predicate Step(s: State, e: Event, t: State) {
    match e
    case Begin(bundle, exports) =>
      && RefTo(bundle) !in s.syncs
      && var owned := Owned(RefTo(bundle), s.bindings);
      t == s.(syncs := s.syncs[RefTo(bundle) := Sync(bundle, exports, exports - owned, owned - exports, {}, false)])
    case Create(ref, n, ok) =>
      && ref in s.syncs && n in s.syncs[ref].creates
      && var sync := s.syncs[ref].(creates := s.syncs[ref].creates - {n});
      if !ok then t == s.(syncs := s.syncs[ref := sync.(failed := true)])
      else if n in s.bindings then t == s.(syncs := s.syncs[ref := sync.(taken := sync.taken + {n})])
      else t == State(s.bindings[n := NewBinding(sync.bundle)], s.syncs[ref := sync])
    case Delete(ref, n, ok) =>
      && ref in s.syncs && s.syncs[ref].creates == {} && n in s.syncs[ref].deletes
      && var sync := s.syncs[ref].(deletes := s.syncs[ref].deletes - {n});
      if !ok then t == s.(syncs := s.syncs[ref := sync.(failed := true)])
      else t == State(s.bindings - {n}, s.syncs[ref := sync])
    case Finish(ref) =>
      && ref in s.syncs && s.syncs[ref].creates == {} && s.syncs[ref].deletes == {}
      && t == s.(syncs := s.syncs - {ref})
    case UserCreate(n, binding) =>
      && n !in s.bindings && (forall r :: r in binding.owners ==> r.kind != KIND)
      && t == s.(bindings := s.bindings[n := binding])
    case UserDelete(n) => t == s.(bindings := s.bindings - {n})
  }

  ghost predicate Init(s: State) {
    && s.syncs == map[]
    && forall n, r :: n in s.bindings && r in s.bindings[n].owners ==> r.kind != KIND
  }

  ghost predicate SyncOK(s: State, ref: OwnerRef)
    requires ref in s.syncs
  {
    var sync := s.syncs[ref];
    && RefTo(sync.bundle) == ref && sync.creates !! sync.taken && sync.deletes !! sync.exports
    && (forall n :: n in sync.deletes ==> Owns(ref, s.bindings, n))
    && (forall n :: n in sync.creates || n in sync.taken ==> n in sync.exports && !Owns(ref, s.bindings, n))
    && (!sync.failed ==>
          forall n :: Owns(ref, s.bindings, n) <==>
                      n in sync.deletes || (n in sync.exports && n !in sync.creates && n !in sync.taken))
  }

  /** No binding is owned by two bundles. */
  ghost predicate OneOwner(bindings: Bindings) {
    forall n, r, q :: Owns(r, bindings, n) && Owns(q, bindings, n) && r.kind == KIND && q.kind == KIND ==> r == q
  }

  ghost predicate Inv(s: State) {
    && OneOwner(s.bindings)
    && (forall ref :: ref in s.syncs ==> ref.kind == KIND && SyncOK(s, ref))
  }

  /** A step that changes neither a sync nor what its bundle owns leaves the sync in order. */
  lemma UntouchedSync(s: State, t: State, ref: OwnerRef)
    requires ref in s.syncs && SyncOK(s, ref) && ref in t.syncs && t.syncs[ref] == s.syncs[ref]
    requires forall n :: Owns(ref, t.bindings, n) <==> Owns(ref, s.bindings, n)
    ensures SyncOK(t, ref)
  {}

  lemma CreateKeepsSync(s: State, t: State, r: OwnerRef, n: string, ok: bool, ref: OwnerRef)
    requires Inv(s) && Step(s, Create(r, n, ok), t) && ref in t.syncs
    ensures SyncOK(t, ref)
  {
    assert SyncOK(s, ref) && SyncOK(s, r);
    assert forall m :: m != n ==> (Owns(ref, t.bindings, m) <==> Owns(ref, s.bindings, m));
    if r != ref {
      assert Owns(ref, t.bindings, n) <==> Owns(ref, s.bindings, n);
      UntouchedSync(s, t, ref);
    } else if ok && n !in s.bindings {
      assert RefTo(s.syncs[ref].bundle) in t.bindings[n].owners;
      assert Owns(ref, t.bindings, n);
    }
  }

  lemma DeleteKeepsSync(s: State, t: State, r: OwnerRef, n: string, ok: bool, ref: OwnerRef)
    requires Inv(s) && Step(s, Delete(r, n, ok), t) && ref in t.syncs
    ensures SyncOK(t, ref)
  {
    assert SyncOK(s, ref) && SyncOK(s, r) && Owns(r, s.bindings, n);
    if r != ref {
      assert !Owns(ref, s.bindings, n);
      assert forall m :: Owns(ref, t.bindings, m) <==> Owns(ref, s.bindings, m);
      UntouchedSync(s, t, ref);
    }
  }

  lemma StepKeepsSync(s: State, e: Event, t: State, ref: OwnerRef)
    requires Inv(s) && Step(s, e, t) && !e.UserDelete? && ref in t.syncs
    ensures ref.kind == KIND && SyncOK(t, ref)
  {
    match e
    case Create(r, n, ok) => CreateKeepsSync(s, t, r, n, ok, ref);
    case Delete(r, n, ok) => DeleteKeepsSync(s, t, r, n, ok, ref);
    case Begin(b, _) =>
      if ref != RefTo(b) {
        UntouchedSync(s, t, ref);
      }
    case Finish(r) => UntouchedSync(s, t, ref);
    case UserCreate(n, binding) =>
      assert forall m :: Owns(ref, t.bindings, m) <==> Owns(ref, s.bindings, m);
      UntouchedSync(s, t, ref);
  }

  lemma StepKeepsOneOwner(s: State, e: Event, t: State)
    requires OneOwner(s.bindings) && Step(s, e, t)
    ensures OneOwner(t.bindings)
  {
    forall n, r, q | Owns(r, t.bindings, n) && Owns(q, t.bindings, n) && r.kind == KIND && q.kind == KIND ensures r == q {
      assert n in s.bindings && t.bindings[n] == s.bindings[n] ==> Owns(r, s.bindings, n) && Owns(q, s.bindings, n);
    }
  }

  /** A user deletes a binding from under a sync that still counts on it: one that is going to delete
      it itself, or one that has met no error and so promises what its bundle owns. */
  ghost predicate Disturbs(s: State, e: Event) {
    && e.UserDelete?
    && exists ref :: ref in s.syncs && Owns(ref, s.bindings, e.n) && (e.n in s.syncs[ref].deletes || !s.syncs[ref].failed)
  }

  lemma UserDeleteKeepsSync(s: State, t: State, n: string, ref: OwnerRef)
    requires Inv(s) && Step(s, UserDelete(n), t) && ref in s.syncs
    ensures SyncOK(t, ref) <==> !(Owns(ref, s.bindings, n) && (n in s.syncs[ref].deletes || !s.syncs[ref].failed))
  {
    assert SyncOK(s, ref);
    assert forall m :: Owns(ref, t.bindings, m) <==> Owns(ref, s.bindings, m) && m != n;
  }

  /** Every step keeps ownership and syncs in order, except exactly a disturbing deletion by a user. */
  lemma KeptUnlessDisturbed(s: State, e: Event, t: State)
    requires Inv(s) && Step(s, e, t)
    ensures Inv(t) <==> !Disturbs(s, e)
  {
    StepKeepsOneOwner(s, e, t);
    if e.UserDelete? {
      forall ref | ref in s.syncs
        ensures SyncOK(t, ref) <==>
                !(Owns(ref, s.bindings, e.n) && (e.n in s.syncs[ref].deletes || !s.syncs[ref].failed))
      {
        UserDeleteKeepsSync(s, t, e.n, ref);
      }
    } else {
      forall ref | ref in t.syncs ensures ref.kind == KIND && SyncOK(t, ref) {
        StepKeepsSync(s, e, t, ref);
      }
    }
  }

  ghost predicate Undisturbed(s: State, e: Event) {
    !Disturbs(s, e)
  }

  lemma EveryRunKeeps(states: seq<State>, events: seq<Event>)
    requires IsRun(states, events, Init, Step)
    requires forall i {:trigger events[i]} :: 0 <= i < |events| ==> Undisturbed(states[i], events[i])
    ensures forall i :: 0 <= i < |states| ==> Inv(states[i])
  {
    forall s, e, t | Inv(s) && Undisturbed(s, e) && Step(s, e, t) ensures Inv(t) {
      KeptUnlessDisturbed(s, e, t);
    }
    Always(states, events, Init, Step, Undisturbed, Inv);
  }

  /** A binding that appears was made by the user, or by a bundle: it then has that bundle as its one
      owner, and its secret. */
  lemma NewBindingIsTheBundles(s: State, e: Event, t: State, n: string)
    requires Step(s, e, t) && n !in s.bindings && n in t.bindings
    ensures || e == UserCreate(n, t.bindings[n])
            || (&& e.Create? && e.n == n && e.ok && e.ref in s.syncs
                && var b := s.syncs[e.ref].bundle;
                   && t.bindings[n].owners == [OwnerRef("kube-bind.io/v1alpha2", "APIServiceBindingBundle", b.name, b.uid)]
                   && t.bindings[n].secretRef == b.secretRef)
  {}

  /** A binding never changes its owners or its spec while it exists. */
  lemma BindingsAreImmutable(s: State, e: Event, t: State, n: string)
    requires Step(s, e, t) && n in s.bindings && n in t.bindings
    ensures t.bindings[n] == s.bindings[n]
  {}

  /** What it takes for deletions to be the owner's: a sync owns whatever it is going to delete. */
  ghost predicate DeletesOwned(s: State) {
    && OneOwner(s.bindings)
    && forall ref :: ref in s.syncs ==> ref.kind == KIND && DeletesOwn(s, ref)
  }

  ghost predicate DeletesOwn(s: State, ref: OwnerRef)
    requires ref in s.syncs
  {
    var sync := s.syncs[ref];
    RefTo(sync.bundle) == ref && sync.deletes !! sync.exports && forall n :: n in sync.deletes ==> Owns(ref, s.bindings, n)
  }

  /** A user deletes a binding that some sync under way is going to delete. */
  ghost predicate Anticipates(s: State, e: Event) {
    e.UserDelete? && exists ref :: ref in s.syncs && e.n in s.syncs[ref].deletes
  }

  lemma DeletesOwnAfter(s: State, e: Event, t: State, ref: OwnerRef)
    requires DeletesOwned(s) && Step(s, e, t) && ref in t.syncs
    requires e.UserDelete? ==> e.n !in s.syncs[ref].deletes
    ensures ref.kind == KIND && DeletesOwn(t, ref)
  {
    if ref in s.syncs && !(e.Begin? && RefTo(e.bundle) == ref) {
      assert DeletesOwn(s, ref);
      forall n | n in t.syncs[ref].deletes ensures Owns(ref, t.bindings, n) {
        assert Owns(ref, s.bindings, n);
        if e.Delete? && e.n == n {
          assert DeletesOwn(s, e.ref) && Owns(e.ref, s.bindings, n);
        }
      }
    }
  }

  /** That is kept by every step, except exactly such a deletion. */
  lemma DeletesOwnedUnlessAnticipated(s: State, e: Event, t: State)
    requires DeletesOwned(s) && Step(s, e, t)
    ensures DeletesOwned(t) <==> !Anticipates(s, e)
  {
    StepKeepsOneOwner(s, e, t);
    if Anticipates(s, e) {
      var ref :| ref in s.syncs && e.n in s.syncs[ref].deletes;
      assert !Owns(ref, t.bindings, e.n);
      assert !DeletesOwn(t, ref);
    } else {
      forall ref | ref in t.syncs ensures ref.kind == KIND && DeletesOwn(t, ref) {
        DeletesOwnAfter(s, e, t, ref);
      }
    }
  }

  /** In every run in which no user anticipates a sync, a binding only disappears by the hand of the
      user, or of the bundle that owns it and whose exports lack its name. */
  lemma OnlyOwnerDeletes(states: seq<State>, events: seq<Event>, i: nat, n: string)
    requires IsRun(states, events, Init, Step) && i < |events|
    requires forall k {:trigger events[k]} :: 0 <= k < |events| ==> !Anticipates(states[k], events[k])
    requires n in states[i].bindings && n !in states[i + 1].bindings
    ensures var e := events[i];
            || e == UserDelete(n)
            || (&& e.Delete? && e.n == n && Owns(e.ref, states[i].bindings, n)
                && e.ref in states[i].syncs && n !in states[i].syncs[e.ref].exports)
  {
    var allowed := (s, e) => !Anticipates(s, e);
    forall s, e, t | DeletesOwned(s) && allowed(s, e) && Step(s, e, t) ensures DeletesOwned(t) {
      DeletesOwnedUnlessAnticipated(s, e, t);
    }
    Always(states, events, Init, Step, allowed, DeletesOwned);
    var e := events[i];
    assert Step(states[i], e, states[i + 1]) && DeletesOwned(states[i]);
    assert e.Delete? ==> DeletesOwn(states[i], e.ref);
  }

  /** In every undisturbed run, when a sync ends without errors, its bundle owns exactly the exports
      that it did not find taken. */
  lemma CleanSyncIsExact(states: seq<State>, events: seq<Event>, i: nat, n: string)
    requires IsRun(states, events, Init, Step) && i < |events|
    requires forall k {:trigger events[k]} :: 0 <= k < |events| ==> Undisturbed(states[k], events[k])
    requires events[i].Finish?
    ensures events[i].ref in states[i].syncs
    ensures var sync := states[i].syncs[events[i].ref];
            !sync.failed ==>
              (Owns(events[i].ref, states[i + 1].bindings, n) <==> n in sync.exports && n !in sync.taken)
  {
    EveryRunKeeps(states, events);
    var e := events[i];
    assert Step(states[i], e, states[i + 1]) && Inv(states[i]) && SyncOK(states[i], e.ref);
  }

  /** In every undisturbed run, a sync that starts right after a clean one of the same bundle with the
      same exports has nothing to delete, and tries only the names that were taken. */
  lemma RepeatedSyncRetriesTaken(states: seq<State>, events: seq<Event>, i: nat)
    requires IsRun(states, events, Init, Step) && i + 1 < |events|
    requires forall k {:trigger events[k]} :: 0 <= k < |events| ==> Undisturbed(states[k], events[k])
    requires events[i].Finish? && events[i].ref in states[i].syncs && !states[i].syncs[events[i].ref].failed
    requires var sync := states[i].syncs[events[i].ref]; events[i + 1] == Begin(sync.bundle, sync.exports)
    ensures var ref := events[i].ref;
            && states[i + 2].bindings == states[i].bindings && ref in states[i + 2].syncs
            && states[i + 2].syncs[ref].deletes == {}
            && states[i + 2].syncs[ref].creates == states[i].syncs[ref].taken
  {
    EveryRunKeeps(states, events);
    var ref, sync := events[i].ref, states[i].syncs[events[i].ref];
    assert Step(states[i], events[i], states[i + 1]) && Inv(states[i]) && SyncOK(states[i], ref);
    var next := events[i + 1];
    assert Step(states[i + 1], next, states[i + 2]);
    forall n ensures n in Owned(ref, states[i + 1].bindings) <==> n in sync.exports && n !in sync.taken {
      CleanSyncIsExact(states, events, i, n);
    }
  }

  /** A name is found taken only while somebody else holds it. */
  lemma TakenMeansHeldByOthers(s: State, ref: OwnerRef, n: string, ok: bool, t: State)
    requires Inv(s) && Step(s, Create(ref, n, ok), t) && n in t.syncs[ref].taken && n !in s.syncs[ref].taken
    ensures n in s.bindings && !Owns(ref, s.bindings, n)
  {
    assert SyncOK(s, ref);
  }

  /** Bundle `a` has created `n` in a sync of its own, and its next sync is going to delete it. */
  ghost predicate AboutToDelete(s: State, a: Bundle, n: string) {
    s == State(map[n := NewBinding(a)], map[RefTo(a) := Sync(a, {}, {}, {n}, {}, false)])
  }

  lemma ReachAboutToDelete(a: Bundle, n: string) returns (states: seq<State>, events: seq<Event>)
    ensures IsRun(states, events, Init, Step)
    ensures |events| == 4 && AboutToDelete(states[4], a, n)
    ensures forall i {:trigger events[i]} :: 0 <= i < |events| ==> Undisturbed(states[i], events[i])
  {
    var ref := RefTo(a);
    var s0 := State(map[], map[]);
    var s1 := s0.(syncs := map[ref := Sync(a, {n}, {n}, {}, {}, false)]);
    var s2 := State(map[n := NewBinding(a)], map[ref := Sync(a, {n}, {}, {}, {}, false)]);
    var s3 := s2.(syncs := map[]);
    var s4 := s3.(syncs := map[ref := Sync(a, {}, {}, {n}, {}, false)]);
    var none, one := Owned(ref, s0.bindings), Owned(ref, s3.bindings);
    assert Step(s0, Begin(a, {n}), s1) by {
      assert none == {} && {n} - none == {n} && none - {n} == {};
    }
    assert Step(s3, Begin(a, {}), s4) by {
      assert Owns(ref, s3.bindings, n);
      assert one == {n} && {} - one == {} && one - {} == {n};
    }
    assert Step(s1, Create(ref, n, true), s2) by {
      assert s1.syncs[ref].creates - {n} == {} && s1.bindings[n := NewBinding(a)] == s2.bindings;
      assert s1.syncs[ref := s2.syncs[ref]] == s2.syncs;
    }
    assert Step(s2, Finish(ref), s3);
    states, events := [s0, s1, s2, s3, s4], [Begin(a, {n}), Create(ref, n, true), Finish(ref), Begin(a, {})];
  }

  /** What a disturbance can lead to: another bundle takes the name, and the first one then deletes a
      binding that it does not own. */
  lemma UserDeleteBreaksOwnership(a: Bundle, b: Bundle, n: string) returns (states: seq<State>, events: seq<Event>)
    requires RefTo(a) != RefTo(b)
    ensures IsRun(states, events, Init, Step)
    ensures |events| > 0 && var last := |events| - 1;
            events[last] == Delete(RefTo(a), n, true) && n in states[last].bindings && n !in states[last + 1].bindings
            && Owns(RefTo(b), states[last].bindings, n) && !Owns(RefTo(a), states[last].bindings, n)
  {
    states, events := ReachAboutToDelete(a, n);
    var s0 := states[4];
    var s1 := s0.(bindings := s0.bindings - {n});
    var s2 := s1.(syncs := s1.syncs[RefTo(b) := Sync(b, {n}, {n}, {}, {}, false)]);
    var s3 := State(s2.bindings[n := NewBinding(b)], s2.syncs[RefTo(b) := Sync(b, {n}, {}, {}, {}, false)]);
    var s4 := State(s3.bindings - {n}, s3.syncs[RefTo(a) := Sync(a, {}, {}, {}, {}, false)]);
    var none := Owned(RefTo(b), s1.bindings);
    assert Step(s1, Begin(b, {n}), s2) by {
      assert none == {} && {n} - none == {n} && none - {n} == {};
    }
    assert Step(s2, Create(RefTo(b), n, true), s3) by {
      assert {n} - {n} == {};
    }
    assert Step(s3, Delete(RefTo(a), n, true), s4) by {
      assert {n} - {n} == {};
    }
    var more := [UserDelete(n), Begin(b, {n}), Create(RefTo(b), n, true), Delete(RefTo(a), n, true)];
    states, events := states + [s1, s2, s3, s4], events + more;
    assert RefTo(b) in s3.bindings[n].owners;
  }

  // ---------------------------------------------------------------- one sync on its own

  /** The bindings after a sync that nobody interrupts; `fails` holds the names whose request fails. */
  ghost function Synced(bindings: Bindings, b: Bundle, exports: set<string>, fails: set<string>): Bindings {
    var kept := bindings - (Owned(RefTo(b), bindings) - exports - fails);
    var fresh' := exports - bindings.Keys - fails;
    kept + map n | n in fresh' :: NewBinding(b)
  }

  /** An error-free sync leaves the bundle owning exactly the exports that others do not hold. */
  lemma SyncedIsExact(bindings: Bindings, b: Bundle, exports: set<string>, n: string)
    ensures Owns(RefTo(b), Synced(bindings, b, exports, {}), n)
       <==> n in exports && (n in bindings ==> Owns(RefTo(b), bindings, n))
  {}

  /** What it creates is its own, with its secret. */
  lemma SyncedCreatesOwn(bindings: Bindings, b: Bundle, exports: set<string>, fails: set<string>, n: string)
    requires n !in bindings
    ensures n in Synced(bindings, b, exports, fails) <==> n in exports && n !in fails
    ensures n in exports && n !in fails ==>
              Synced(bindings, b, exports, fails)[n]
              == Binding([OwnerRef("kube-bind.io/v1alpha2", "APIServiceBindingBundle", b.name, b.uid)], b.secretRef)
  {}

  /** Bindings of others are not touched, whatever fails. */
  lemma SyncedKeepsOthers(bindings: Bindings, b: Bundle, exports: set<string>, fails: set<string>, n: string)
    requires n in bindings && !Owns(RefTo(b), bindings, n)
    ensures n in Synced(bindings, b, exports, fails) && Synced(bindings, b, exports, fails)[n] == bindings[n]
  {}

  lemma SyncingAgainIsNoOp(bindings: Bindings, b: Bundle, exports: set<string>)
    ensures var once := Synced(bindings, b, exports, {}); Synced(once, b, exports, {}) == once
  {
    var once := Synced(bindings, b, exports, {});
    forall n ensures Owns(RefTo(b), once, n) <==> n in exports && (n in bindings ==> Owns(RefTo(b), bindings, n)) {
      SyncedIsExact(bindings, b, exports, n);
    }
    assert Owned(RefTo(b), once) - exports - {} == {};
    assert exports - once.Keys - {} == {};
  }

  /** A sync on its own, of which some requests are still to come. */
  ghost predicate Under(base: Bindings, b: Bundle, exports: set<string>, fails: set<string>, s: State) {
    && RefTo(b) in s.syncs && var sync, owned := s.syncs[RefTo(b)], Owned(RefTo(b), base);
    && sync.bundle == b && sync.exports == exports
    && sync.creates <= exports - owned && sync.deletes <= owned - exports
    && s.bindings == (base - (owned - exports - fails - sync.deletes))
                     + map n | n in exports - base.Keys - fails - sync.creates :: NewBinding(b)
  }

  /** The event is a request of the bundle's sync, and fails exactly for the names in `fails`. */
  predicate OwnRequest(e: Event, b: Bundle, fails: set<string>) {
    (e.Create? || e.Delete?) && e.ref == RefTo(b) && (e.ok <==> e.n !in fails)
  }

  lemma CreateKeepsUnder(base: Bindings, b: Bundle, exports: set<string>, fails: set<string>, s: State, e: Event, t: State)
    requires Under(base, b, exports, fails, s) && Step(s, e, t) && OwnRequest(e, b, fails) && e.Create?
    ensures Under(base, b, exports, fails, t)
  {
    var sync, owned := t.syncs[RefTo(b)], Owned(RefTo(b), base);
    assert forall n :: n in owned ==> n in base;
    assert t.bindings == (base - (owned - exports - fails - sync.deletes))
                         + map n | n in exports - base.Keys - fails - sync.creates :: NewBinding(b);
  }

  lemma DeleteKeepsUnder(base: Bindings, b: Bundle, exports: set<string>, fails: set<string>, s: State, e: Event, t: State)
    requires Under(base, b, exports, fails, s) && Step(s, e, t) && OwnRequest(e, b, fails) && e.Delete?
    ensures Under(base, b, exports, fails, t)
  {
    var sync, owned := t.syncs[RefTo(b)], Owned(RefTo(b), base);
    assert forall n :: n in owned ==> n in base;
    assert t.bindings == (base - (owned - exports - fails - sync.deletes))
                         + map n | n in exports - base.Keys - fails - sync.creates :: NewBinding(b);
  }

  lemma {:induction false} RequestsKeepUnder(
    base: Bindings, b: Bundle, exports: set<string>, fails: set<string>, states: seq<State>, events: seq<Event>, n: nat)
    requires 0 < |events| && n < |events| && |states| == |events| + 1 && states[0].bindings == base
    requires forall i {:trigger events[i]} :: 0 <= i < |events| ==> Step(states[i], events[i], states[i + 1])
    requires events[0] == Begin(b, exports) && forall i {:trigger events[i]} :: 0 < i < n ==> OwnRequest(events[i], b, fails)
    ensures n > 0 ==> Under(base, b, exports, fails, states[n])
  {
    if n == 1 {
      var e := events[0];
      assert Step(states[0], e, states[1]);
      var owned := Owned(RefTo(b), base);
      assert owned - exports - fails - (owned - exports) == {} && exports - base.Keys - fails - (exports - owned) == {} by {
        assert forall x :: x in owned ==> x in base;
      }
    } else if n > 1 {
      RequestsKeepUnder(base, b, exports, fails, states, events, n - 1);
      var e := events[n - 1];
      if e.Create? {
        CreateKeepsUnder(base, b, exports, fails, states[n - 1], e, states[n]);
      } else {
        DeleteKeepsUnder(base, b, exports, fails, states[n - 1], e, states[n]);
      }
    }
  }

  /** The protocol and the loops agree: a sync whose requests come one after the other, undisturbed, with
      those for the names in `fails` failing, leaves exactly the declarative result. */
  lemma UninterruptedIsSynced(
    b: Bundle, exports: set<string>, fails: set<string>, states: seq<State>, events: seq<Event>, s: State, t: State)
    requires Leads(states, events, Step, s, t) && |events| >= 2
    requires events[0] == Begin(b, exports) && events[|events| - 1] == Finish(RefTo(b))
    requires forall i {:trigger events[i]} :: 0 < i < |events| - 1 ==> OwnRequest(events[i], b, fails)
    ensures t.bindings == Synced(s.bindings, b, exports, fails)
  {
    var last := |events| - 1;
    RequestsKeepUnder(s.bindings, b, exports, fails, states, events, last);
    var e := events[last];
    assert Step(states[last], e, t);
    var owned := Owned(RefTo(b), s.bindings);
    assert owned - exports - fails - {} == owned - exports - fails;
    assert exports - s.bindings.Keys - fails - {} == exports - s.bindings.Keys - fails;
  }

  class Consumer {
    var bindings: Bindings

    constructor (bindings: Bindings)
      ensures this.bindings == bindings
    {
      this.bindings := bindings;
    }

    /** The filter over all listed bindings, with the inner loop over owner references. */
    method OwnedBindings(b: Bundle) returns (owned: set<string>)
      ensures owned == Owned(RefTo(b), bindings)
    {
      owned := {};
      var todo := bindings.Keys;
      while todo != {}
        invariant todo <= bindings.Keys
        invariant owned == set n | n in bindings && n !in todo && Owns(RefTo(b), bindings, n)
        decreases todo
      {
        var n :| n in todo;
        var i, owners := 0, bindings[n].owners;
        while i < |owners| && !(owners[i].apiVersion == API_VERSION && owners[i].kind == KIND
                                && owners[i].name == b.name && owners[i].uid == b.uid)
          invariant i <= |owners| && forall j :: 0 <= j < i ==> owners[j] != RefTo(b)
        {
          i := i + 1;
        }
        if i < |owners| {
          assert owners[i] == RefTo(b);
          owned := owned + {n};
        }
        todo := todo - {n};
      }
    }

    method CreateMissing(b: Bundle, exports: set<string>, owned: set<string>, fails: set<string>) returns (errs: set<string>)
      requires owned <= bindings.Keys
      modifies this
      ensures bindings == old(bindings) + map n | n in exports - old(bindings).Keys - fails :: NewBinding(b)
      ensures errs == (exports - owned) * fails
    {
      errs := {};
      var todo := exports;
      while todo != {}
        invariant todo <= exports
        invariant bindings.Keys == old(bindings).Keys + (exports - todo - owned - fails)
        invariant forall n :: n in bindings ==>
                    bindings[n] == if n in old(bindings) then old(bindings)[n] else NewBinding(b)
        invariant errs == (exports - todo - owned) * fails
        decreases todo
      {
        var n :| n in todo;
        todo := todo - {n};
        if n in owned {
          continue;
        }
        if n in fails {
          errs := errs + {n};
        } else if n !in bindings {
          bindings := bindings[n := NewBinding(b)];
        }
      }
    }

    method DeleteOrphans(exports: set<string>, owned: set<string>, fails: set<string>) returns (errs: set<string>)
      modifies this
      ensures bindings == old(bindings) - (owned - exports - fails)
      ensures errs == (owned - exports) * fails
    {
      errs := {};
      var todo := owned;
      while todo != {}
        invariant todo <= owned
        invariant bindings == old(bindings) - (owned - todo - exports - fails)
        invariant errs == (owned - todo - exports) * fails
        decreases todo
      {
        var n :| n in todo;
        todo := todo - {n};
        if n !in exports {
          if n in fails {
            errs := errs + {n};
          } else {
            bindings := bindings - {n};
          }
        }
      }
    }

    method SyncAPIServiceBindings(b: Bundle, exports: set<string>, fails: set<string>) returns (ok: bool)
      modifies this
      ensures bindings == Synced(old(bindings), b, exports, fails)
      ensures ok <==> forall n :: n in fails ==> (n in exports <==> Owns(RefTo(b), old(bindings), n))
    {
      var owned := OwnedBindings(b);
      var createErrs := CreateMissing(b, exports, owned, fails);
      var deleteErrs := DeleteOrphans(exports, owned, fails);
      ok := createErrs == {} && deleteErrs == {};
      assert forall n :: n in createErrs || n in deleteErrs <==> n in fails && !(n in exports <==> n in owned);
    }
  }
}
