/**
 From a cluster namespace and a consumer namespace to the provider namespace
 (backend/controllers/servicenamespace).

 Cluster namespaces are named prefix + base36 hash. Since that hash holds no dash, the name
 <cluster namespace>-<consumer namespace> can be read back, however the hash collides and
 whatever dashes prefix and consumer namespace hold.
 */
module ProviderNamespaces {
  import opened Api
  import opened Runs
  import opened Text
  import Tenancy

  type Hash = string -> string

  predicate Base36(s: string) {
    forall c :: c in s ==> '0' <= c <= '9' || 'a' <= c <= 'z'
  }

  /** What a hash must be for its text to be usable as the namespace suffix. */
  ghost predicate IsBase36Hash(hash: Hash) {
    forall id :: Base36(hash(id))
  }

  /** Created by CreateNamespace for some identity. */
  ghost predicate IsClusterNamespace(prefix: string, hash: Hash, ns: string) {
    exists id :: ns == prefix + hash(id)
  }

  /** The name reconcile chooses for an object without a status. */
  function NameFor(isolation: Isolation, k: Key): string
    requires !isolation.Unknown?
  {
    if isolation.NoIsolation? then k.name else k.namespace + "-" + k.name
  }

  /** The name the deletion branch computes from the request alone. */
  function DeletionTarget(k: Key): string {
    k.namespace + "-" + k.name
  }

  function AnnotationFor(k: Key): string {
    k.namespace + "/" + k.name
  }

  // ---------------------------------------------------------------- names

  lemma ProviderNamesAreUnique(prefix: string, hash: Hash, k: Key, l: Key)
    requires IsBase36Hash(hash)
    requires IsClusterNamespace(prefix, hash, k.namespace) && IsClusterNamespace(prefix, hash, l.namespace)
    requires k.namespace + "-" + k.name == l.namespace + "-" + l.name
    ensures k == l
  {
    var a :| k.namespace == prefix + hash(a);
    var b :| l.namespace == prefix + hash(b);
    assert Base36(hash(a)) && Base36(hash(b));
    var s := k.namespace + "-" + k.name;
    assert s[|prefix|..] == hash(a) + ['-'] + k.name == hash(b) + ['-'] + l.name;
    SplitIsUnique(hash(a), k.name, hash(b), l.name, '-');
  }

  lemma ProviderNameIsNoClusterNamespace(prefix: string, hash: Hash, k: Key, ns: string)
    requires IsBase36Hash(hash)
    requires IsClusterNamespace(prefix, hash, k.namespace) && IsClusterNamespace(prefix, hash, ns)
    ensures k.namespace + "-" + k.name != ns
  {
    var a :| k.namespace == prefix + hash(a);
    var b :| ns == prefix + hash(b);
    assert Base36(hash(b));
    var s := k.namespace + "-" + k.name;
    assert s[|prefix|..] == hash(a) + "-" + k.name;
    assert ns[|prefix|..] == hash(b);
    assert s[|prefix|..][|hash(a)|] == '-';
    assert '-' in s[|prefix|..] && '-' !in ns[|prefix|..];
  }

  /** What HandleResources returns, in any run, is such a cluster namespace. */
  lemma ReturnedIsClusterNamespace(
    prefix: string, hash: Hash, states: seq<Tenancy.State>, events: seq<Tenancy.Event>, i: nat, c: nat)
    requires IsRun(states, events, s => Tenancy.Init(prefix, hash, s), (s, e, t) => Tenancy.Step(prefix, hash, s, e, t))
    requires forall k {:trigger events[k]} :: 0 <= k < |events| ==> Tenancy.Named(states[k], events[k])
    requires i < |states| && c in states[i].calls && states[i].calls[c].progress.Returned?
    ensures IsClusterNamespace(prefix, hash, states[i].calls[c].progress.namespace)
  {
    Tenancy.NamespacesAreExclusive(prefix, hash, states, events, i, i, c, c);
  }

  /** The annotation names the object, since there is no slash in the name of a namespace. */
  lemma AnnotationsAreUnique(k: Key, l: Key)
    requires '/' !in k.namespace && '/' !in l.namespace
    ensures AnnotationFor(k) == AnnotationFor(l) <==> k == l
    ensures AnnotationFor(k) == k.namespace + "/" + k.name
  {
    if AnnotationFor(k) == AnnotationFor(l) {
      SplitIsUnique(k.namespace, k.name, l.namespace, l.name, '/');
    }
  }

  // ---------------------------------------------------------------- the controller

  datatype State = State(
    objects: map<Key, string>,        // APIServiceNamespace -> status namespace, "" when not set
    namespaces: map<string, string>)  // namespace -> annotation

  /** `cached`: the cache shows the namespace. `createOK`, `writeOK`: the API request succeeds.
      `IgnoreAlreadyExists` is part of the create: a namespace that exists is taken as is. */
  datatype Event =
    | NewCluster(namespace: string) // CreateNamespace, for whatever identity
    | Add(key: Key)
    | Reconcile(key: Key, cached: bool, createOK: bool, writeOK: bool)
    | Drop(key: Key)
    | CleanUp(key: Key, deleteOK: bool)

  ghost predicate Step(isolation: Isolation, s: State, e: Event, t: State) {
    match e
    case NewCluster(namespace) =>
      t == if namespace in s.namespaces then s else s.(namespaces := s.namespaces[namespace := ""])
    case Add(key) => key !in s.objects && t == s.(objects := s.objects[key := ""])
    case Reconcile(key, cached, createOK, writeOK) =>
      && key in s.objects
      && if s.objects[key] == "" && isolation.Unknown? then t == s else
           var name := if s.objects[key] != "" then s.objects[key] else NameFor(isolation, key);
           if !cached && !createOK then t == s
           else t == State(if writeOK then s.objects[key := name] else s.objects,
                           if cached || name in s.namespaces then s.namespaces
                           else s.namespaces[name := AnnotationFor(key)])
    case Drop(key) => t == s.(objects := s.objects - {key})
    case CleanUp(key, deleteOK) =>
      && key !in s.objects
      && t == s.(namespaces := if deleteOK then s.namespaces - {DeletionTarget(key)} else s.namespaces)
  }

  /** Cluster namespaces exist; there are no APIServiceNamespaces and no provider namespaces yet. */
  ghost predicate Init(prefix: string, hash: Hash, s: State) {
    && s.objects == map[]
    && forall n :: n in s.namespaces ==> IsClusterNamespace(prefix, hash, n)
  }

  ghost predicate InClusterNamespace(prefix: string, hash: Hash, e: Event) {
    IsClusterNamespace(prefix, hash, if e.NewCluster? then e.namespace else e.key.namespace)
  }

  ghost predicate Inv(prefix: string, hash: Hash, s: State) {
    && (forall k :: k in s.objects ==>
          && IsClusterNamespace(prefix, hash, k.namespace)
          && (s.objects[k] == "" || s.objects[k] == DeletionTarget(k)))
    && (forall n :: n in s.namespaces ==>
          || IsClusterNamespace(prefix, hash, n)
          || exists k: Key :: n == DeletionTarget(k) && IsClusterNamespace(prefix, hash, k.namespace)
                              && s.namespaces[n] == AnnotationFor(k))
  }

  lemma StepKeeps(prefix: string, hash: Hash, isolation: Isolation, s: State, e: Event, t: State)
    requires isolation.Prefixed? || isolation.Namespaced?
    requires Inv(prefix, hash, s) && Step(isolation, s, e, t) && InClusterNamespace(prefix, hash, e)
    ensures Inv(prefix, hash, t)
  {}

  lemma EveryRunKeeps(prefix: string, hash: Hash, isolation: Isolation, states: seq<State>, events: seq<Event>)
    requires isolation.Prefixed? || isolation.Namespaced?
    requires IsRun(states, events, s => Init(prefix, hash, s), (s, e, t) => Step(isolation, s, e, t))
    requires forall i {:trigger events[i]} :: 0 <= i < |events| ==> InClusterNamespace(prefix, hash, events[i])
    ensures forall i :: 0 <= i < |states| ==> Inv(prefix, hash, states[i])
  {
    var init := s => Init(prefix, hash, s);
    var step := (s, e, t) => Step(isolation, s, e, t);
    var allowed := (s: State, e) => InClusterNamespace(prefix, hash, e);
    var inv := s => Inv(prefix, hash, s);
    forall s, e, t | inv(s) && allowed(s, e) && step(s, e, t) ensures inv(t) {
      StepKeeps(prefix, hash, isolation, s, e, t);
    }
    Always(states, events, init, step, allowed, inv);
    assert forall i :: 0 <= i < |states| ==> inv(states[i]);
  }

  /** The namespace an object is to have: the one in its status, or one named after it alone without
      isolation, and after it and its cluster namespace with. */
  ghost predicate Chooses(isolation: Isolation, k: Key, status: string, name: string) {
    if status != "" then name == status
    else if isolation.NoIsolation? then name == k.name
    else !isolation.Unknown? && name == k.namespace + "-" + k.name
  }

  /** What a reconcile does: with a name to choose, and unless the namespace has to be created and that
      fails, the namespace is there, created with the object's annotation if it was not, and the
      object's status names it if the write succeeds. Otherwise nothing changes. */
  lemma ReconcileOutcome(isolation: Isolation, s: State, k: Key, cached: bool, createOK: bool, writeOK: bool, t: State)
    requires Step(isolation, s, Reconcile(k, cached, createOK, writeOK), t)
    ensures forall name :: Chooses(isolation, k, s.objects[k], name) && (cached || createOK) ==>
              && t.objects == (if writeOK then s.objects[k := name] else s.objects)
              && t.namespaces == if cached || name in s.namespaces then s.namespaces
                                 else s.namespaces[name := k.namespace + "/" + k.name]
    ensures (s.objects[k] == "" && isolation.Unknown?) || (!cached && !createOK) ==> t == s
  {}

  /** Cleaning up removes one namespace and nothing else. */
  lemma CleanUpOutcome(isolation: Isolation, s: State, k: Key, deleteOK: bool, t: State)
    requires Step(isolation, s, CleanUp(k, deleteOK), t)
    ensures t == s.(namespaces := if deleteOK then s.namespaces - {k.namespace + "-" + k.name} else s.namespaces)
  {}

  /** Every object can be served, and cleaned up after: a run in which it gets its namespace, and one step
      later, with isolation, loses it after it is deleted. */
  lemma EveryObjectIsServed(prefix: string, hash: Hash, isolation: Isolation, k: Key)
    returns (states: seq<State>, events: seq<Event>)
    requires !isolation.Unknown?
    ensures IsRun(states, events, s => Init(prefix, hash, s), (s, e, t) => Step(isolation, s, e, t)) && |events| == 4
    ensures var name := if isolation.NoIsolation? then k.name else k.namespace + "-" + k.name;
            && states[2] == State(map[k := name], map[name := k.namespace + "/" + k.name])
            && states[4].objects == map[] && (!isolation.NoIsolation? ==> states[4].namespaces == map[])
  {
    var name := if isolation.NoIsolation? then k.name else k.namespace + "-" + k.name;
    var s0 := State(map[], map[]);
    var s1 := State(map[k := ""], map[]);
    var s2 := State(map[k := name], map[name := k.namespace + "/" + k.name]);
    var s3 := s2.(objects := map[]);
    var s4 := s3.(namespaces := s3.namespaces - {k.namespace + "-" + k.name});
    assert Step(isolation, s1, Reconcile(k, false, true, true), s2) by {
      assert name != "" || isolation.NoIsolation?;
    }
    assert Step(isolation, s2, Drop(k), s3) by {
      assert s2.objects - {k} == map[];
    }
    states, events := [s0, s1, s2, s3, s4], [Add(k), Reconcile(k, false, true, true), Drop(k), CleanUp(k, true)];
  }

  /** In every run and under any isolation, a status that is set never changes while its object lives. */
  lemma {:induction false} StatusNeverChanges(
    prefix: string, hash: Hash, isolation: Isolation, states: seq<State>, events: seq<Event>, i: nat, j: nat, k: Key)
    requires IsRun(states, events, s => Init(prefix, hash, s), (s, e, t) => Step(isolation, s, e, t))
    requires i <= j < |states| && forall n :: i <= n <= j ==> k in states[n].objects
    requires states[i].objects[k] != ""
    ensures states[j].objects[k] == states[i].objects[k]
  {
    if i < j {
      StatusNeverChanges(prefix, hash, isolation, states, events, i, j - 1, k);
      var e := events[j - 1];
      assert Step(isolation, states[j - 1], e, states[j]);
    }
  }

  /** No two objects ever have the same status namespace, not even at different moments of a run. */
  lemma StatusIsUnique(
    prefix: string, hash: Hash, isolation: Isolation, states: seq<State>, events: seq<Event>, i: nat, j: nat, k: Key, l: Key)
    requires IsBase36Hash(hash) && (isolation.Prefixed? || isolation.Namespaced?)
    requires IsRun(states, events, s => Init(prefix, hash, s), (s, e, t) => Step(isolation, s, e, t))
    requires forall n {:trigger events[n]} :: 0 <= n < |events| ==> InClusterNamespace(prefix, hash, events[n])
    requires i < |states| && j < |states| && k in states[i].objects && l in states[j].objects
    requires states[i].objects[k] != "" && states[i].objects[k] == states[j].objects[l]
    ensures k == l
  {
    EveryRunKeeps(prefix, hash, isolation, states, events);
    assert Inv(prefix, hash, states[i]) && Inv(prefix, hash, states[j]);
    ProviderNamesAreUnique(prefix, hash, k, l);
  }

  /** Cleaning up after a deleted object touches neither a cluster namespace nor the namespace of
      any other object; the annotation of what it deletes names the deleted object. */
  lemma CleanUpIsOwn(prefix: string, hash: Hash, isolation: Isolation, s: State, k: Key, deleteOK: bool, t: State)
    requires IsBase36Hash(hash) && Inv(prefix, hash, s) && IsClusterNamespace(prefix, hash, k.namespace)
    requires Step(isolation, s, CleanUp(k, deleteOK), t)
    ensures forall n :: n in s.namespaces && n !in t.namespaces ==>
              && !IsClusterNamespace(prefix, hash, n)
              && s.namespaces[n] == AnnotationFor(k)
              && forall l :: l in s.objects ==> s.objects[l] != n
  {
    forall n | n in s.namespaces && n !in t.namespaces
      ensures !IsClusterNamespace(prefix, hash, n) && s.namespaces[n] == AnnotationFor(k)
      ensures forall l :: l in s.objects ==> s.objects[l] != n
    {
      assert n == DeletionTarget(k);
      if IsClusterNamespace(prefix, hash, n) {
        ProviderNameIsNoClusterNamespace(prefix, hash, k, n);
      }
      var owner: Key :| n == DeletionTarget(owner) && IsClusterNamespace(prefix, hash, owner.namespace)
                        && s.namespaces[n] == AnnotationFor(owner);
      ProviderNamesAreUnique(prefix, hash, k, owner);
      forall l | l in s.objects ensures s.objects[l] != n {
        if s.objects[l] == n {
          assert n != "";
          ProviderNamesAreUnique(prefix, hash, k, l);
        }
      }
    }
  }

  /** Without isolation the deletion branch never targets the object's own namespace, and some
      other object's namespace is what it targets. */
  lemma DeletionTargetsOwnIff(isolation: Isolation, k: Key)
    requires !isolation.Unknown?
    ensures DeletionTarget(k) == NameFor(isolation, k) <==> !isolation.NoIsolation?
    ensures isolation.NoIsolation? ==> NameFor(isolation, Key(k.namespace, DeletionTarget(k))) == DeletionTarget(k)
  {
    assert |DeletionTarget(k)| > |k.name|;
  }

  /** Two objects with namespaces of their own. */
  ghost predicate BothServed(s: State, k: Key, l: Key) {
    s == State(map[l := l.name, k := k.name], map[l.name := AnnotationFor(l), k.name := AnnotationFor(k)])
  }

  lemma ReachBothServed(prefix: string, hash: Hash, k: Key, l: Key) returns (states: seq<State>, events: seq<Event>)
    requires k.name != l.name
    ensures IsRun(states, events, s => Init(prefix, hash, s), (s, e, t) => Step(NoIsolation, s, e, t))
    ensures |events| == 4 && BothServed(states[4], k, l)
    ensures forall i {:trigger events[i]} :: 0 <= i < 4 ==> !events[i].NewCluster? && events[i].key in {k, l}
  {
    var s0 := State(map[], map[]);
    var s1 := s0.(objects := s0.objects[l := ""]);
    var s2 := State(s1.objects[l := l.name], s1.namespaces[l.name := AnnotationFor(l)]);
    var s3 := s2.(objects := s2.objects[k := ""]);
    var s4 := State(s3.objects[k := k.name], s3.namespaces[k.name := AnnotationFor(k)]);
    states, events := [s0, s1, s2, s3, s4], [Add(l), Reconcile(l, false, true, true), Add(k), Reconcile(k, false, true, true)];
  }

  /** What that does: a run without isolation in which cleaning up after `k` deletes the namespace that
      another object, still alive, has in its status, and leaves the namespace of `k` behind. */
  lemma CleanUpCanHitAnother(prefix: string, hash: Hash, k: Key, l: Key) returns (states: seq<State>, events: seq<Event>)
    requires IsClusterNamespace(prefix, hash, k.namespace) && l == Key(k.namespace, DeletionTarget(k))
    ensures IsRun(states, events, s => Init(prefix, hash, s), (s, e, t) => Step(NoIsolation, s, e, t))
    ensures forall i {:trigger events[i]} :: 0 <= i < |events| ==> InClusterNamespace(prefix, hash, events[i])
    ensures |events| == 6 && events[5] == CleanUp(k, true)
    ensures var s, t := states[5], states[6];
            && l in s.objects && l.name in s.namespaces && s.objects[l] == l.name && s.namespaces[l.name] == AnnotationFor(l)
            && t.objects == s.objects && l.name !in t.namespaces
            && k !in t.objects && k.name in t.namespaces && t.namespaces[k.name] == AnnotationFor(k)
  {
    assert |l.name| > |k.name|;
    states, events := ReachBothServed(prefix, hash, k, l);
    var s5 := states[4].(objects := states[4].objects - {k});
    var s6 := s5.(namespaces := s5.namespaces - {l.name});
    states, events := states + [s5, s6], events + [Drop(k), CleanUp(k, true)];
  }

  // ---------------------------------------------------------------- the imperative form

  class Controller {
    const isolation: Isolation
    var objects: map<Key, string>
    var namespaces: map<string, string>

    constructor (isolation: Isolation, s: State)
      ensures View() == s && this.isolation == isolation
    {
      this.isolation, objects, namespaces := isolation, s.objects, s.namespaces;
    }

    function View(): State
      reads this
    {
      State(objects, namespaces)
    }

    /** Reconcile: the name from the status or the isolation, the namespace, then the status. */
    method ReconcileObject(key: Key, cached: bool, createOK: bool, writeOK: bool) returns (ok: bool)
      requires key in objects
      modifies this
      ensures Step(isolation, old(View()), Reconcile(key, cached, createOK, writeOK), View())
      ensures ok <==> exists name :: Chooses(isolation, key, old(objects)[key], name)
                                     && (cached || createOK) && (writeOK || name == old(objects)[key])
    {
      var name := objects[key];
      if name == "" {
        if isolation.Unknown? {
          return false;
        }
        name := if isolation.NoIsolation? then key.name else key.namespace + "-" + key.name;
      }
      if !cached {
        if !createOK {
          return false;
        }
        if name !in namespaces {
          namespaces := namespaces[name := key.namespace + "/" + key.name];
        }
      }
      assert Chooses(isolation, key, old(objects)[key], name);
      if objects[key] != name {
        if !writeOK {
          return false;
        }
        objects := objects[key := name];
      }
      assert objects == if writeOK then old(objects)[key := name] else old(objects);
      return true;
    }

    /** Reconcile, when the object is gone. */
    method Delete(key: Key, deleteOK: bool)
      requires key !in objects
      modifies this`namespaces
      ensures Step(isolation, old(View()), CleanUp(key, deleteOK), View())
    {
      var name := key.namespace + "-" + key.name;
      if deleteOK {
        namespaces := namespaces - {name};
      }
    }
  }
}
