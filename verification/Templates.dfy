/**
 Export templates derived from kcp APIBindings
 (backend/provider/kcp/controllers/apibindingtemplate/reconcile.go).
 */
module Templates {
  import opened Api
  import opened Runs

  datatype InformerScope = ClusterScope | NamespacedScope

  datatype Version = Version(name: string, served: bool)

  /** An APIResourceSchema. */
  datatype SourceSchema = SourceSchema(scope: string, versions: seq<Version>)

  datatype BoundResource = BoundResource(gr: GroupResource, schema: string)

  datatype ApiBinding = ApiBinding(name: string, isBound: bool, resources: seq<BoundResource>)

  /** `owner` is the owner-binding annotation, `refs` the bindings with an owner reference. */
  datatype Template = Template(owner: Option<string>, scope: InformerScope, resources: seq<ExportResource>, refs: set<string>)

  type Lookup = string -> Option<SourceSchema>

  // ---------------------------------------------------------------- names

  function TemplateName(binding: string, scope: InformerScope): string {
    match scope
    case ClusterScope => binding + "-cluster"
    case NamespacedScope => binding + "-namespaced"
  }

  /** Names never collide, even for bindings whose own name ends in "-cluster" or "-namespaced". */
  lemma TemplateNamesAreUnique(a: string, s: InformerScope, b: string, t: InformerScope)
    requires TemplateName(a, s) == TemplateName(b, t)
    ensures a == b && s == t
  {
    var n := TemplateName(a, s);
    assert n[|n| - 1] == if s.ClusterScope? then 'r' else 'd';
    assert n[|n| - 1] == if t.ClusterScope? then 'r' else 'd';
    assert a == n[..|n| - if s.ClusterScope? then 8 else 11];
    assert b == n[..|n| - if t.ClusterScope? then 8 else 11];
  }

  // ---------------------------------------------------------------- building

  datatype Scoped = Scoped(scope: InformerScope, resource: ExportResource)

  function ServedVersions(vs: seq<Version>): seq<string> {
    if vs == [] then []
    else ServedVersions(vs[..|vs| - 1]) + if vs[|vs| - 1].served then [vs[|vs| - 1].name] else []
  }

  lemma {:induction false} ServedPrefix(vs: seq<Version>, i: nat)
    requires i <= |vs|
    ensures ServedVersions(vs[..i]) <= ServedVersions(vs)
  {
    if i < |vs| {
      assert vs[..|vs| - 1][..i] == vs[..i];
      ServedPrefix(vs[..|vs| - 1], i);
    } else {
      assert vs[..i] == vs;
    }
  }

  /** A served version is listed, right after the served ones before it. */
  lemma ServedIsListed(vs: seq<Version>, i: nat)
    requires i < |vs| && vs[i].served
    ensures var rank := |ServedVersions(vs[..i])|;
            rank < |ServedVersions(vs)| && ServedVersions(vs)[rank] == vs[i].name
  {
    assert vs[..i + 1][..i] == vs[..i];
    ServedPrefix(vs, i + 1);
  }

  /** And nothing else is. */
  lemma {:induction false} ListedIsServed(vs: seq<Version>, rank: nat)
    requires rank < |ServedVersions(vs)|
    ensures exists i :: 0 <= i < |vs| && vs[i].served && |ServedVersions(vs[..i])| == rank
                        && vs[i].name == ServedVersions(vs)[rank]
  {
    var n := |vs| - 1;
    if rank < |ServedVersions(vs[..n])| {
      ListedIsServed(vs[..n], rank);
      var i :| 0 <= i < n && vs[..n][i].served && |ServedVersions(vs[..n][..i])| == rank
               && vs[..n][i].name == ServedVersions(vs[..n])[rank];
      assert vs[..n][..i] == vs[..i];
      assert vs[i].served;
    } else {
      assert vs[n].served && |ServedVersions(vs[..n])| == rank;
    }
  }

  function Resolve(schema: SourceSchema, r: BoundResource): Scoped {
    Scoped(if schema.scope == CLUSTER_SCOPED then ClusterScope else NamespacedScope,
           ExportResource(r.gr, ServedVersions(schema.versions)))
  }

  predicate Resolvable(get: Lookup, rs: seq<BoundResource>) {
    forall i :: 0 <= i < |rs| ==> get(rs[i].schema).Some?
  }

  function Grouped(get: Lookup, rs: seq<BoundResource>): seq<Scoped>
    requires Resolvable(get, rs)
  {
    seq(|rs|, i requires 0 <= i < |rs| => Resolve(get(rs[i].schema).value, rs[i]))
  }

  /** The resources of one scope, in order. */
  function OfScope(g: seq<Scoped>, scope: InformerScope): seq<ExportResource> {
    if g == [] then []
    else OfScope(g[..|g| - 1], scope) + if g[|g| - 1].scope == scope then [g[|g| - 1].resource] else []
  }

  lemma {:induction false} OfScopePrefix(g: seq<Scoped>, scope: InformerScope, i: nat)
    requires i <= |g|
    ensures OfScope(g[..i], scope) <= OfScope(g, scope)
  {
    if i < |g| {
      assert g[..|g| - 1][..i] == g[..i];
      OfScopePrefix(g[..|g| - 1], scope, i);
    } else {
      assert g[..i] == g;
    }
  }

  /** Stable: the resource at position `i` stands in its scope's list right after those of its scope
      that precede it. */
  lemma PartitionIsStable(g: seq<Scoped>, i: nat)
    requires i < |g|
    ensures var list, rank := OfScope(g, g[i].scope), |OfScope(g[..i], g[i].scope)|;
            rank < |list| && list[rank] == g[i].resource
  {
    assert g[..i + 1][..i] == g[..i];
    OfScopePrefix(g, g[i].scope, i + 1);
  }

  function Resources(g: seq<Scoped>): (r: seq<ExportResource>)
    ensures |r| == |g| && forall i :: 0 <= i < |g| ==> r[i] == g[i].resource
  {
    if g == [] then [] else Resources(g[..|g| - 1]) + [g[|g| - 1].resource]
  }

  lemma AppendToEither(a: seq<ExportResource>, b: seq<ExportResource>, all: seq<ExportResource>, x: ExportResource)
    requires multiset(a) + multiset(b) == multiset(all)
    ensures multiset(a + [x]) + multiset(b) == multiset(all + [x])
    ensures multiset(a) + multiset(b + [x]) == multiset(all + [x])
  {
    assert multiset(all + [x]) == multiset(all) + multiset{x};
  }

  /** A partition: every bound resource is in exactly one of the two lists, and nothing else is. */
  lemma {:induction false} PartitionIsComplete(g: seq<Scoped>)
    ensures |OfScope(g, ClusterScope)| + |OfScope(g, NamespacedScope)| == |g|
    ensures multiset(OfScope(g, ClusterScope)) + multiset(OfScope(g, NamespacedScope)) == multiset(Resources(g))
  {
    if g != [] {
      var init, last := g[..|g| - 1], g[|g| - 1];
      PartitionIsComplete(init);
      AppendToEither(OfScope(init, ClusterScope), OfScope(init, NamespacedScope), Resources(init), last.resource);
    }
  }

  /** The templates a binding should have, by name. */
  ghost function Desired(binding: string, g: seq<Scoped>): map<string, Template> {
    map n | n in {TemplateName(binding, ClusterScope), TemplateName(binding, NamespacedScope)}
            && OfScope(g, ScopeNamed(binding, n)) != []
      :: Template(Some(binding), ScopeNamed(binding, n), OfScope(g, ScopeNamed(binding, n)), {binding})
  }

  ghost function ScopeNamed(binding: string, n: string): InformerScope {
    if n == TemplateName(binding, ClusterScope) then ClusterScope else NamespacedScope
  }

  lemma DesiredOfScope(binding: string, g: seq<Scoped>, scope: InformerScope)
    ensures TemplateName(binding, scope) in Desired(binding, g) <==> OfScope(g, scope) != []
    ensures OfScope(g, scope) != [] ==>
              Desired(binding, g)[TemplateName(binding, scope)] == Template(Some(binding), scope, OfScope(g, scope), {binding})
  {
    assert |TemplateName(binding, ClusterScope)| != |TemplateName(binding, NamespacedScope)|;
    assert ScopeNamed(binding, TemplateName(binding, scope)) == scope;
  }

  /** Where a bound resource ends up: in the template named after the binding and the scope of its schema,
      owned by the binding, under its own group and resource and with the served versions. */
  lemma BoundResourceIsListed(binding: string, get: Lookup, rs: seq<BoundResource>, i: nat)
    requires Resolvable(get, rs) && i < |rs|
    ensures var schema := get(rs[i].schema).value;
            var n := if schema.scope == "Cluster" then binding + "-cluster" else binding + "-namespaced";
            var desired := Desired(binding, Grouped(get, rs));
            && n in desired && desired[n].owner == Some(binding) && desired[n].refs == {binding}
            && (desired[n].scope.ClusterScope? <==> schema.scope == "Cluster")
            && ExportResource(rs[i].gr, ServedVersions(schema.versions)) in desired[n].resources
  {
    var g := Grouped(get, rs);
    PartitionIsStable(g, i);
    DesiredOfScope(binding, g, g[i].scope);
  }

  // ---------------------------------------------------------------- every run

  type Store = map<string, Template>

  /** No hand-made templates: each is named after the binding in its annotation and its scope. */
  ghost predicate Inv(s: Store) {
    forall n :: n in s ==> s[n].owner.Some? && n == TemplateName(s[n].owner.value, s[n].scope)
                           && s[n].refs == {s[n].owner.value}
  }

  /** ensureTemplate and the deletion of one orphan, each a single write, of any binding at any time. */
  datatype Event =
    | Ensure(binding: string, scope: InformerScope, resources: seq<ExportResource>, ok: bool)
    | Prune(binding: string, n: string, ok: bool)

  function Ensured(s: Store, binding: string, scope: InformerScope, resources: seq<ExportResource>): Store {
    var n := TemplateName(binding, scope);
    if n !in s then s[n := Template(Some(binding), scope, resources, {binding})]
    // the annotation of an existing template is left as it is
    else s[n := s[n].(scope := scope, resources := resources, refs := s[n].refs + {binding})]
  }

  ghost predicate Step(s: Store, e: Event, t: Store) {
    match e
    case Ensure(binding, scope, resources, ok) => t == if ok then Ensured(s, binding, scope, resources) else s
    case Prune(binding, n, ok) => n in s && s[n].owner == Some(binding) && t == if ok then s - {n} else s
  }

  ghost function Of(s: Store, binding: string): Store {
    map n | n in s && s[n].owner == Some(binding) :: s[n]
  }

  /** What ensuring leaves, whatever was there, hand-made templates included: the template with the
      given scope and resources and a reference to the binding; one that existed keeps its annotation
      and references, a new one is the binding's. */
  lemma EnsureOutcome(s: Store, binding: string, scope: InformerScope, resources: seq<ExportResource>, ok: bool, t: Store)
    requires Step(s, Ensure(binding, scope, resources, ok), t)
    ensures !ok ==> t == s
    ensures var n := TemplateName(binding, scope);
            ok ==>
              && t - {n} == s - {n} && n in t && t[n].scope == scope && t[n].resources == resources
              && t[n].refs == (if n in s then s[n].refs else {}) + {binding}
              && t[n].owner == if n in s then s[n].owner else Some(binding)
  {
    var n := TemplateName(binding, scope);
    assert t - {n} == s - {n};
  }

  /** Reconciling one binding never touches another binding's templates. */
  lemma StepIsOwn(s: Store, e: Event, t: Store)
    requires Inv(s) && Step(s, e, t)
    ensures Inv(t)
    ensures forall b :: b != e.binding ==> Of(t, b) == Of(s, b)
  {
    if e.Ensure? {
      var n := TemplateName(e.binding, e.scope);
      if n in s {
        TemplateNamesAreUnique(s[n].owner.value, s[n].scope, e.binding, e.scope);
      }
    }
    forall b | b != e.binding ensures Of(t, b) == Of(s, b) {
      assert forall n :: n in Of(t, b) <==> n in Of(s, b);
    }
  }

  lemma EveryRunIsSeparate(states: seq<Store>, events: seq<Event>, i: nat, b: string)
    requires IsRun(states, events, s => s == map[], Step) && i < |events|
    ensures Inv(states[i])
    ensures b != events[i].binding ==> Of(states[i + 1], b) == Of(states[i], b)
  {
    forall s, e, t | Inv(s) && Step(s, e, t) ensures Inv(t) {
      StepIsOwn(s, e, t);
    }
    Always(states, events, s => s == map[], Step, (s, e) => true, Inv);
    StepIsOwn(states[i], events[i], states[i + 1]);
  }

  // ---------------------------------------------------------------- a pass

  class Reconciler {
    var templates: Store

    constructor ()
      ensures templates == map[]
    {
      templates := map[];
    }

    method EnsureTemplate(binding: string, scope: InformerScope, resources: seq<ExportResource>, ok: bool)
      modifies this
      ensures Step(old(templates), Ensure(binding, scope, resources, ok), templates)
    {
      var n := TemplateName(binding, scope);
      if !ok {
        return;
      }
      if n !in templates {
        templates := templates[n := Template(Some(binding), scope, resources, {binding})];
        return;
      }
      var existing := templates[n];
      if existing.scope != scope || existing.resources != resources {
        existing := existing.(scope := scope, resources := resources);
      }
      // the reference that is set is not a controller reference, so this is done every time
      existing := existing.(refs := existing.refs + {binding});
      templates := templates[n := existing];
    }

    method DeleteTemplate(binding: string, n: string, ok: bool)
      requires n in templates && templates[n].owner == Some(binding)
      modifies this
      ensures Step(old(templates), Prune(binding, n, ok), templates)
    {
      if ok {
        templates := templates - {n};
      }
    }

    /** Deletes the binding's templates outside `desired`; stops at the first failing request. */
    method PruneOrphans(binding: string, desired: set<string>, fails: set<string>) returns (ok: bool)
      requires Inv(templates)
      modifies this
      ensures Inv(templates)
      ensures forall b :: b != binding ==> Of(templates, b) == Of(old(templates), b)
      ensures templates.Keys <= old(templates).Keys && forall n :: n in templates ==> templates[n] == old(templates)[n]
      ensures forall n :: n in old(templates) && n in desired ==> n in templates
      ensures ok ==> forall n :: n in templates && templates[n].owner == Some(binding) ==> n in desired
      ensures ok <==> forall n :: n in old(templates) && old(templates)[n].owner == Some(binding) && n !in desired ==> n !in fails
    {
      var todo := templates.Keys;
      while todo != {}
        invariant Inv(templates) && todo <= templates.Keys <= old(templates).Keys
        invariant forall n :: n in templates ==> templates[n] == old(templates)[n]
        invariant forall n :: n in old(templates) && (n in desired || old(templates)[n].owner != Some(binding)) ==> n in templates
        invariant forall n :: n in templates && n !in todo && templates[n].owner == Some(binding) ==> n in desired
        invariant forall n :: n in old(templates) && n !in todo && old(templates)[n].owner == Some(binding) && n !in desired ==>
                    n !in fails
        decreases todo
      {
        var n :| n in todo;
        todo := todo - {n};
        if templates[n].owner == Some(binding) && n !in desired {
          DeleteTemplate(binding, n, n !in fails);
          if n in fails {
            return false;
          }
        }
      }
      return true;
    }

    method EnsureAll(
      b: string, ghost g: seq<Scoped>, byScope: map<InformerScope, seq<ExportResource>>, fails: set<InformerScope>)
      returns (ok: bool, names: set<string>)
      requires Inv(templates)
      requires forall scope :: scope in byScope <==> OfScope(g, scope) != []
      requires forall scope :: scope in byScope ==> byScope[scope] == OfScope(g, scope)
      modifies this
      ensures Inv(templates)
      ensures forall c :: c != b ==> Of(templates, c) == Of(old(templates), c)
      ensures ok <==> byScope.Keys !! fails
      ensures ok ==> names == set scope | scope in byScope :: TemplateName(b, scope)
      ensures ok ==> forall scope :: scope in byScope ==> InPlace(templates, b, g, scope)
    {
      names := {};
      var todo := byScope.Keys;
      while todo != {}
        invariant todo <= byScope.Keys && byScope.Keys - todo !! fails && Inv(templates)
        invariant forall c :: c != b ==> Of(templates, c) == Of(old(templates), c)
        invariant names == set scope | scope in byScope && scope !in todo :: TemplateName(b, scope)
        invariant forall scope :: scope in byScope && scope !in todo ==> InPlace(templates, b, g, scope)
        decreases todo
      {
        var scope :| scope in todo;
        ghost var before := templates;
        EnsureTemplate(b, scope, byScope[scope], scope !in fails);
        if scope in fails {
          return false, names;
        }
        EnsuringNext(before, b, g, byScope.Keys - todo, scope);
        names := names + {TemplateName(b, scope)};
        todo := todo - {scope};
      }
      return true, names;
    }

    /** A whole pass. Others' templates are untouched whatever happens; a successful pass on a Bound
        binding with resources leaves exactly the desired ones. */
    method Reconcile(binding: ApiBinding, get: Lookup, fails: set<InformerScope>, pruneFails: set<string>) returns (ok: bool)
      requires Inv(templates)
      modifies this
      ensures Inv(templates)
      ensures forall c :: c != binding.name ==> Of(templates, c) == Of(old(templates), c)
      ensures !binding.isBound || binding.resources == [] ==> ok && templates == old(templates)
      ensures ok && binding.isBound && binding.resources != [] ==>
                Resolvable(get, binding.resources)
                && Of(templates, binding.name) == Desired(binding.name, Grouped(get, binding.resources))
      ensures Resolvable(get, binding.resources) && fails == {} && pruneFails == {} ==> ok
    {
      if !binding.isBound || binding.resources == [] {
        return true;
      }
      var grouped := Group(get, binding.resources);
      if grouped.None? {
        return false;
      }
      var g := grouped.value;
      var byScope := ByScope(g);
      var names;
      ok, names := EnsureAll(binding.name, g, byScope, fails);
      if !ok {
        return;
      }
      ghost var desired := Desired(binding.name, g);
      forall scope ensures scope in byScope <==> TemplateName(binding.name, scope) in desired {
        DesiredOfScope(binding.name, g, scope);
      }
      assert forall n :: n in desired <==> n in names;
      assert forall scope :: scope in byScope ==> InPlace(templates, binding.name, g, scope);
      ok := PruneOrphans(binding.name, names, pruneFails);
      if ok {
        ExactlyDesired(templates, binding.name, g);
      }
    }
  }

  ghost predicate InPlace(s: Store, b: string, g: seq<Scoped>, scope: InformerScope) {
    var n := TemplateName(b, scope);
    n in Desired(b, g) && n in s && s[n] == Desired(b, g)[n]
  }

  /** Ensuring the desired template of a scope leaves those already ensured as they are. */
  lemma EnsuringKeeps(s: Store, b: string, g: seq<Scoped>, scope: InformerScope, other: InformerScope)
    requires Inv(s)
    requires OfScope(g, scope) != [] && OfScope(g, other) != []
    requires other == scope || InPlace(s, b, g, other)
    ensures InPlace(Ensured(s, b, scope, OfScope(g, scope)), b, g, other)
  {
    DesiredOfScope(b, g, scope);
    DesiredOfScope(b, g, other);
    var n := TemplateName(b, scope);
    if n in s {
      TemplateNamesAreUnique(s[n].owner.value, s[n].scope, b, scope);
    }
    if n == TemplateName(b, other) {
      TemplateNamesAreUnique(b, scope, b, other);
    }
  }

  lemma EnsuringNext(s: Store, b: string, g: seq<Scoped>, done: set<InformerScope>, scope: InformerScope)
    requires Inv(s) && OfScope(g, scope) != []
    requires forall other :: other in done ==> OfScope(g, other) != [] && InPlace(s, b, g, other)
    ensures var t := Ensured(s, b, scope, OfScope(g, scope));
            && Inv(t) && (forall c :: c != b ==> Of(t, c) == Of(s, c))
            && forall other :: other in done + {scope} ==> InPlace(t, b, g, other)
  {
    StepIsOwn(s, Ensure(b, scope, OfScope(g, scope), true), Ensured(s, b, scope, OfScope(g, scope)));
    forall other | other in done + {scope} ensures InPlace(Ensured(s, b, scope, OfScope(g, scope)), b, g, other) {
      EnsuringKeeps(s, b, g, scope, other);
    }
  }

  /** What is left when all desired templates are in place and no other of the binding is. */
  lemma ExactlyDesired(s: Store, b: string, g: seq<Scoped>)
    requires Inv(s)
    requires forall n :: n in Desired(b, g) ==> n in s && s[n] == Desired(b, g)[n]
    requires forall n :: n in s && s[n].owner == Some(b) ==> n in Desired(b, g)
    ensures Of(s, b) == Desired(b, g)
  {
    assert forall n :: n in Desired(b, g) ==> Desired(b, g)[n].owner == Some(b);
  }

  /** buildTemplates, up to the grouping: fails at the first schema that cannot be read. */
  method Group(get: Lookup, rs: seq<BoundResource>) returns (grouped: Option<seq<Scoped>>)
    ensures grouped.Some? <==> Resolvable(get, rs)
    ensures grouped.Some? ==> grouped.value == Grouped(get, rs)
  {
    var g: seq<Scoped> := [];
    for i := 0 to |rs|
      invariant Resolvable(get, rs[..i]) && g == Grouped(get, rs[..i])
    {
      var schema := get(rs[i].schema);
      if schema.None? {
        return None;
      }
      var versions := Served(schema.value.versions);
      var scope := NamespacedScope;
      if schema.value.scope == CLUSTER_SCOPED {
        scope := ClusterScope;
      }
      g := g + [Scoped(scope, ExportResource(rs[i].gr, versions))];
    }
    assert rs[..|rs|] == rs;
    return Some(g);
  }

  method Served(vs: seq<Version>) returns (names: seq<string>)
    ensures names == ServedVersions(vs)
  {
    names := [];
    for i := 0 to |vs|
      invariant names == ServedVersions(vs[..i])
    {
      assert vs[..i + 1][..i] == vs[..i];
      if vs[i].served {
        names := names + [vs[i].name];
      }
    }
    assert vs[..|vs|] == vs;
  }

  /** The accumulation into byScope. */
  method ByScope(g: seq<Scoped>) returns (byScope: map<InformerScope, seq<ExportResource>>)
    ensures forall scope :: scope in byScope <==> OfScope(g, scope) != []
    ensures forall scope :: scope in byScope ==> byScope[scope] == OfScope(g, scope)
  {
    byScope := map[];
    for i := 0 to |g|
      invariant forall scope :: scope in byScope <==> OfScope(g[..i], scope) != []
      invariant forall scope :: scope in byScope ==> byScope[scope] == OfScope(g[..i], scope)
    {
      assert g[..i + 1][..i] == g[..i];
      var r := g[i];
      byScope := byScope[r.scope := (if r.scope in byScope then byScope[r.scope] else []) + [r.resource]];
    }
    assert g[..|g|] == g;
  }
}
