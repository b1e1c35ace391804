/**
 Copying exported schemas into BoundSchemas, under a schema update policy
 (ensureBoundSchemas and createOrUpdateBoundSchema in
 backend/controllers/serviceexportrequest/serviceexportrequest_reconcile.go).
 */
module BoundSchemas {
  import opened Api
  import opened Runs
  import opened Text

  datatype Spec = Spec(group: string, plural: string, scope: string, informerScope: string, body: string)

  /** A stored BoundSchema: its spec, its hash annotation, and the export that controls it. */
  datatype Bound = Bound(spec: Spec, annotation: string, controller: Option<string>)

  datatype Policy = Never | Always

  /** The reconciler's own settings. */
  datatype Config = Config(informerScope: string, isolationNamespaced: bool)

  type Hash = Spec -> string

  /** The spec that is stored for a source: informer scope stamped, scope rewritten. */
  function Stamped(cfg: Config, source: Spec): Spec {
    source.(informerScope := cfg.informerScope,
            scope := if source.scope == NAMESPACE_SCOPED && cfg.isolationNamespaced then CLUSTER_SCOPED else source.scope)
  }

  datatype Outcome = Error | Stored(bound: Bound)

  /** What createOrUpdateBoundSchema makes of the stored object, if any. */
  function CreateOrUpdate(
    hash: Hash, cfg: Config, existing: Option<Bound>, controller: Option<string>, source: Spec, policy: Policy): Outcome
  {
    var desired := Stamped(cfg, source);
    var h := hash(desired);
    if existing.None? then Stored(Bound(desired, h, None))
    else
      var b := existing.value;
      // an owner reference cannot be set on an object that another export controls
      if controller.Some? && b.controller.Some? && b.controller != controller then Error
      else
        var owned := if controller.Some? then b.(controller := controller) else b;
        Stored(if policy.Always? && b.annotation != h then owned.(spec := desired, annotation := h) else owned)
  }

  /** What is stored for a source: its group, plural and body, the configured informer scope, and its
      scope unless namespaced isolation makes a Namespaced one Cluster. */
  ghost predicate StoredFrom(cfg: Config, spec: Spec, source: Spec) {
    && spec.group == source.group && spec.plural == source.plural && spec.body == source.body
    && spec.informerScope == cfg.informerScope
    && (spec.scope != source.scope <==> cfg.isolationNamespaced && source.scope == "Namespaced")
    && (spec.scope != source.scope ==> spec.scope == "Cluster")
  }

  lemma StampedIsStoredFrom(cfg: Config, source: Spec)
    ensures StoredFrom(cfg, Stamped(cfg, source), source)
  {
    assert CLUSTER_SCOPED[0] != NAMESPACE_SCOPED[0];
  }

  /** A BoundSchema that did not exist is always created, from its source, and controlled by nobody yet. */
  lemma CreatedFromSource(hash: Hash, cfg: Config, controller: Option<string>, source: Spec, policy: Policy)
    ensures var outcome := CreateOrUpdate(hash, cfg, None, controller, source, policy);
            && outcome.Stored? && StoredFrom(cfg, outcome.bound.spec, source)
            && outcome.bound.annotation == hash(outcome.bound.spec) && outcome.bound.controller.None?
  {
    StampedIsStoredFrom(cfg, source);
  }

  /** One that exists is refused exactly if another export controls it; otherwise it becomes the given
      export's, and only policy Always with a different hash touches spec and annotation. */
  lemma UpdateOutcome(hash: Hash, cfg: Config, b: Bound, controller: Option<string>, source: Spec, policy: Policy)
    ensures var outcome := CreateOrUpdate(hash, cfg, Some(b), controller, source, policy);
            && (outcome.Error? <==> controller.Some? && b.controller.Some? && b.controller != controller)
            && (outcome.Stored? ==>
                  && outcome.bound.controller == (if controller.Some? then controller else b.controller)
                  && (if policy.Always? && exists spec :: StoredFrom(cfg, spec, source) && hash(spec) != b.annotation
                      then StoredFrom(cfg, outcome.bound.spec, source) && outcome.bound.annotation == hash(outcome.bound.spec)
                      else outcome.bound.spec == b.spec && outcome.bound.annotation == b.annotation))
  {
    StampedIsStoredFrom(cfg, source);
    forall spec | StoredFrom(cfg, spec, source) ensures spec == Stamped(cfg, source) {}
  }

  // ---------------------------------------------------------------- every run

  type State = map<Key, Bound>

  /** One createOrUpdate call, with whatever source was listed when its pass began, or the removal
      of a BoundSchema by someone else. */
  datatype Event =
    | Apply(key: Key, controller: Option<string>, source: Spec, policy: Policy, requestOK: bool)
    | Remove(key: Key)

  function At(s: State, key: Key): Option<Bound> {
    if key in s then Some(s[key]) else None
  }

  ghost predicate Step(hash: Hash, cfg: Config, s: State, e: Event, t: State) {
    match e
    case Apply(key, controller, source, policy, requestOK) =>
      var outcome := CreateOrUpdate(hash, cfg, At(s, key), controller, source, policy);
      t == if outcome.Stored? && requestOK then s[key := outcome.bound] else s
    case Remove(key) => t == s - {key}
  }

  ghost predicate Init(s: State) {
    s == map[]
  }

  ghost predicate Inv(hash: Hash, cfg: Config, s: State) {
    forall k :: k in s ==> s[k].annotation == hash(s[k].spec) && Stamped(cfg, s[k].spec) == s[k].spec
  }

  /** In every run, whatever the sources and policies: the annotation is the hash of the stored spec. */
  lemma AnnotationIsHashInEveryRun(hash: Hash, cfg: Config, states: seq<State>, events: seq<Event>)
    requires IsRun(states, events, Init, (s, e, t) => Step(hash, cfg, s, e, t))
    ensures forall i :: 0 <= i < |states| ==> Inv(hash, cfg, states[i])
  {
    var step := (s, e, t) => Step(hash, cfg, s, e, t);
    var inv := s => Inv(hash, cfg, s);
    Runs.Always(states, events, Init, step, (s, e) => true, inv);
    assert forall i :: 0 <= i < |states| ==> inv(states[i]);
  }

  /** In every run, what is stored has the configured informer scope, and none of it is Namespaced under
      namespaced isolation. */
  lemma ScopesInEveryRun(hash: Hash, cfg: Config, states: seq<State>, events: seq<Event>, i: nat, key: Key)
    requires IsRun(states, events, Init, (s, e, t) => Step(hash, cfg, s, e, t)) && i < |states| && key in states[i]
    ensures states[i][key].spec.informerScope == cfg.informerScope
    ensures cfg.isolationNamespaced ==> states[i][key].spec.scope != "Namespaced"
  {
    AnnotationIsHashInEveryRun(hash, cfg, states, events);
    assert Inv(hash, cfg, states[i]);
    StampedIsStoredFrom(cfg, states[i][key].spec);
  }

  /** A BoundSchema that was removed is made anew from the source of the next request, under either policy. */
  lemma RemovedIsRecreated(hash: Hash, cfg: Config, s: State, t: State, u: State, e: Event)
    requires Step(hash, cfg, s, Remove(e.key), t) && e.Apply? && e.requestOK && Step(hash, cfg, t, e, u)
    ensures t == s - {e.key}
    ensures e.key in u && StoredFrom(cfg, u[e.key].spec, e.source) && u[e.key].controller.None?
  {
    CreatedFromSource(hash, cfg, e.controller, e.source, e.policy);
  }

  /** While only requests with policy Never touch a BoundSchema, its spec stays as it was created. */
  lemma {:induction false} NeverKeepsSpec(
    hash: Hash, cfg: Config, states: seq<State>, events: seq<Event>, i: nat, j: nat, key: Key)
    requires IsRun(states, events, Init, (s, e, t) => Step(hash, cfg, s, e, t))
    requires i <= j < |states| && key in states[i]
    requires forall n :: i <= n < j && events[n].key == key ==> events[n].Apply? && events[n].policy.Never?
    ensures key in states[j] && states[j][key].spec == states[i][key].spec
  {
    if i < j {
      NeverKeepsSpec(hash, cfg, states, events, i, j - 1, key);
      var e := events[j - 1];
      assert Step(hash, cfg, states[j - 1], e, states[j]);
    }
  }

  /** After a successful Always step the stored spec is the stamped source, unless the two differ
      and collide under the hash; for an injective hash, always. */
  lemma AlwaysStoresSource(hash: Hash, cfg: Config, s: State, e: Event)
    requires Inv(hash, cfg, s) && e.Apply? && e.policy.Always?
    ensures var outcome := CreateOrUpdate(hash, cfg, At(s, e.key), e.controller, e.source, Always);
            var desired := Stamped(cfg, e.source);
            outcome.Stored? ==>
              (outcome.bound.spec == desired <==>
               !(e.key in s && s[e.key].spec != desired && hash(s[e.key].spec) == hash(desired)))
  {}

  // ---------------------------------------------------------------- a pass

  function SourceOf(sources: map<string, Spec>, r: ExportResource): Option<Spec> {
    if r.gr.Text() in sources && sources[r.gr.Text()].group == r.gr.group && sources[r.gr.Text()].plural == r.gr.resource
    then Some(sources[r.gr.Text()]) else None
  }

  /** The source of a resource is the listed schema with its group and plural. */
  lemma SourceOfFinds(sources: map<string, Spec>, r: ExportResource, spec: Spec)
    requires WellKeyed(sources)
    ensures SourceOf(sources, r) == Some(spec) <==>
            exists k :: k in sources && sources[k] == spec && spec.group == r.gr.group && spec.plural == r.gr.resource
  {}

  /** Listed schemas are kept under "plural.group". */
  ghost predicate WellKeyed(sources: map<string, Spec>) {
    forall k :: k in sources ==> k == sources[k].plural + "." + sources[k].group
  }

  /** Different resources of a request are stored under different names. */
  ghost predicate DistinctNames(resources: seq<ExportResource>) {
    forall r, q :: r in resources && q in resources && r.gr.ResourceGroupName() == q.gr.ResourceGroupName() ==>
                     r.gr == q.gr
  }

  /** One resource is requested under both spellings of the core group. */
  predicate SpelledTwice(resources: seq<ExportResource>) {
    exists r, q :: r in resources && q in resources && r.gr.resource == q.gr.resource
                   && r.gr.group == "" && q.gr.group == "core"
  }

  lemma SameNameIff(a: GroupResource, b: GroupResource)
    requires '.' !in a.resource && '.' !in b.resource
    ensures a.ResourceGroupName() == b.ResourceGroupName() <==>
            a.resource == b.resource
            && (a.group == b.group || (a.group == "" && b.group == "core") || (a.group == "core" && b.group == ""))
  {
    var g, h := if a.group == "" then "core" else a.group, if b.group == "" then "core" else b.group;
    if a.ResourceGroupName() == b.ResourceGroupName() {
      SplitIsUnique(a.resource, g, b.resource, h, '.');
    }
  }

  /** Names are distinct exactly unless that happens. */
  lemma NamesAreDistinct(resources: seq<ExportResource>)
    requires forall r :: r in resources ==> '.' !in r.gr.resource
    ensures DistinctNames(resources) <==> !SpelledTwice(resources)
  {
    forall r, q | r in resources && q in resources
      ensures r.gr.ResourceGroupName() == q.gr.ResourceGroupName() <==>
              r.gr.resource == q.gr.resource
              && (|| r.gr.group == q.gr.group || (r.gr.group == "" && q.gr.group == "core")
                  || (r.gr.group == "core" && q.gr.group == ""))
    {
      SameNameIff(r.gr, q.gr);
    }
  }

  class Store {
    var bound: State

    constructor ()
      ensures bound == map[]
    {
      bound := map[];
    }

    method CreateOrUpdateBoundSchema(
      hash: Hash, cfg: Config, key: Key, controller: Option<string>, source: Spec, policy: Policy, requestOK: bool)
      returns (ok: bool)
      modifies this
      ensures Step(hash, cfg, old(bound), Apply(key, controller, source, policy, requestOK), bound)
      ensures var outcome := CreateOrUpdate(hash, cfg, At(old(bound), key), controller, source, policy);
              && (ok <==> requestOK && outcome.Stored?)
              && bound == if ok then old(bound)[key := outcome.bound] else old(bound)
    {
      var desired := source.(informerScope := cfg.informerScope);
      if desired.scope == NAMESPACE_SCOPED && cfg.isolationNamespaced {
        desired := desired.(scope := CLUSTER_SCOPED);
      }
      assert desired == Stamped(cfg, source);
      var h := hash(desired);
      if !requestOK {
        return false;
      }
      if key !in bound {
        bound := bound[key := Bound(desired, h, None)];
        return true;
      }
      var existing := bound[key];
      if controller.Some? && existing.controller != controller {
        if existing.controller.Some? {
          return false;
        }
        existing := existing.(controller := controller);
      }
      if policy.Always? && existing.annotation != h {
        existing := existing.(spec := desired, annotation := h);
      }
      bound := bound[key := existing];
      return true;
    }

    /** The search through the listed schemas for the one of a requested resource. */
    method FindSource(sources: map<string, Spec>, r: ExportResource) returns (found: Option<Spec>)
      requires WellKeyed(sources)
      ensures found == SourceOf(sources, r)
      ensures found.None? <==>
              forall k :: k in sources ==> !(sources[k].group == r.gr.group && sources[k].plural == r.gr.resource)
    {
      var todo := sources.Keys;
      while todo != {}
        invariant todo <= sources.Keys
        invariant forall k :: k in sources && k !in todo ==>
                    !(sources[k].group == r.gr.group && sources[k].plural == r.gr.resource)
        decreases todo
      {
        var k :| k in todo;
        if sources[k].group == r.gr.group && sources[k].plural == r.gr.resource {
          return Some(sources[k]);
        }
        todo := todo - {k};
      }
      return None;
    }

    /** A whole pass over the requested resources. `fails` holds the positions whose API request
        fails. An error-free Always pass leaves every requested resource that has versions and a
        source with exactly the stamped source, under a hash that is injective. */
    method EnsureBoundSchemas(
      hash: Hash, cfg: Config, ns: string, controller: Option<string>, resources: seq<ExportResource>,
      sources: map<string, Spec>, policy: Policy, fails: set<nat>)
      returns (ok: bool)
      requires WellKeyed(sources) && Inv(hash, cfg, bound)
      modifies this
      ensures Inv(hash, cfg, bound)
      ensures Kept(old(bound), bound, policy, KeysOf(ns, resources))
      ensures ok && DistinctNames(resources) ==>
                forall r :: r in resources ==> Synced(hash, cfg, ns, sources, policy, bound, r)
      ensures fails == {} && Free(old(bound), controller, KeysOf(ns, resources)) ==> ok
    {
      ghost var keys := KeysOf(ns, resources);
      ghost var free := Free(bound, controller, keys);
      for i := 0 to |resources|
        invariant Inv(hash, cfg, bound)
        invariant Kept(old(bound), bound, policy, keys)
        invariant free ==> Free(bound, controller, keys)
        invariant DistinctNames(resources) ==>
                    forall j :: 0 <= j < i ==> Synced(hash, cfg, ns, sources, policy, bound, resources[j])
      {
        var r := resources[i];
        if r.versions == [] {
          continue;
        }
        var source := FindSource(sources, r);
        if source.Some? {
          var key := Key(ns, r.gr.ResourceGroupName());
          assert key in keys;
          ghost var before := bound;
          if free {
            FreeIsStored(hash, cfg, policy, controller, key, source.value, bound, keys);
          }
          var stored := CreateOrUpdateBoundSchema(hash, cfg, key, controller, source.value, policy, i !in fails);
          if !stored {
            return false;
          }
          StoringKeeps(hash, cfg, policy, controller, key, source.value, old(bound), before, bound, keys);
          forall j | DistinctNames(resources) && 0 <= j <= i ensures Synced(hash, cfg, ns, sources, policy, bound, resources[j]) {
            StoringKeepsSynced(hash, cfg, ns, sources, policy, controller, before, bound, resources[j], r);
          }
        }
      }
      return true;
    }
  }

  /** Where the requested resources that have versions are stored. */
  ghost function KeysOf(ns: string, resources: seq<ExportResource>): set<Key> {
    set r | r in resources && r.versions != [] :: Key(ns, r.gr.ResourceGroupName())
  }

  /** Nothing is lost, nothing outside `keys` changes, and policy Never keeps every spec. */
  ghost predicate Kept(s: State, t: State, policy: Policy, keys: set<Key>) {
    && (forall k :: k in s ==> k in t && (policy.Never? ==> t[k].spec == s[k].spec))
    && (forall k :: k !in keys ==> (k in s <==> k in t) && (k in s ==> t[k] == s[k]))
  }

  /** No other export controls any of the keys. */
  ghost predicate Free(s: State, controller: Option<string>, keys: set<Key>) {
    forall k :: k in keys && k in s && controller.Some? && s[k].controller.Some? ==> s[k].controller == controller
  }

  ghost predicate Injective(hash: Hash) {
    forall x, y :: hash(x) == hash(y) ==> x == y
  }

  /** The resource, if it is to be bound at all, is bound; under Always, to its current source. */
  ghost predicate Synced(
    hash: Hash, cfg: Config, ns: string, sources: map<string, Spec>, policy: Policy, s: State, r: ExportResource)
  {
    r.versions != [] && SourceOf(sources, r).Some? ==>
      var key := Key(ns, r.gr.ResourceGroupName());
      && key in s
      && (policy.Always? && Injective(hash) ==> StoredFrom(cfg, s[key].spec, SourceOf(sources, r).value))
  }

  lemma StoringKeeps(
    hash: Hash, cfg: Config, policy: Policy, controller: Option<string>, key: Key, source: Spec,
    s0: State, s: State, t: State, keys: set<Key>)
    requires Inv(hash, cfg, s) && Kept(s0, s, policy, keys) && key in keys
    requires var outcome := CreateOrUpdate(hash, cfg, At(s, key), controller, source, policy);
             outcome.Stored? && t == s[key := outcome.bound]
    ensures Inv(hash, cfg, t) && Kept(s0, t, policy, keys)
    ensures Free(s, controller, keys) ==> Free(t, controller, keys)
  {}

  lemma FreeIsStored(
    hash: Hash, cfg: Config, policy: Policy, controller: Option<string>, key: Key, source: Spec, s: State, keys: set<Key>)
    requires Free(s, controller, keys) && key in keys
    ensures CreateOrUpdate(hash, cfg, At(s, key), controller, source, policy).Stored?
  {}

  lemma StoringKeepsSynced(
    hash: Hash, cfg: Config, ns: string, sources: map<string, Spec>, policy: Policy, controller: Option<string>,
    s: State, t: State, r: ExportResource, q: ExportResource)
    requires Inv(hash, cfg, s) && SourceOf(sources, q).Some?
    requires r.gr.ResourceGroupName() == q.gr.ResourceGroupName() ==> r.gr == q.gr
    requires r.gr == q.gr || Synced(hash, cfg, ns, sources, policy, s, r)
    requires var key := Key(ns, q.gr.ResourceGroupName());
             var outcome := CreateOrUpdate(hash, cfg, At(s, key), controller, SourceOf(sources, q).value, policy);
             outcome.Stored? && t == s[key := outcome.bound]
    ensures Synced(hash, cfg, ns, sources, policy, t, r)
  {
    AlwaysStoresSource(hash, cfg, s, Apply(Key(ns, q.gr.ResourceGroupName()), controller, SourceOf(sources, q).value, Always, true));
    StampedIsStoredFrom(cfg, SourceOf(sources, q).value);
  }
}
