/**
 Which objects a permission claim selects, on the consumer and on the provider side
 (pkg/resources/resources.go).

 Label matching and JSON lookup are parameters: `Oracles` says which labels a selector matches
 and which values a path yields in an object (none, one, or the elements of an array).
 */
module Claims {
  import opened Api

  type Labels = map<string, string>

  datatype Object = Object(name: string, namespace: string, labels: Labels)

  /** An object that may hold references; `json` is absent when it cannot be marshalled. */
  datatype Referrer = Referrer(namespace: string, json: Option<string>)

  datatype NamedResource = NamedResource(name: string, namespace: string)

  datatype JsonPath = JsonPath(name: string, namespace: string)

  datatype Reference = Reference(gr: GroupResource, versions: seq<string>, path: JsonPath)

  datatype Selector = Selector(labelSelector: Option<string>, named: seq<NamedResource>, references: seq<Reference>)

  datatype Oracles = Oracles(matchLabels: (string, Labels) -> bool, extract: (string, string) -> Option<seq<string>>)

  // ---------------------------------------------------------------- what a selector means

  predicate LabelsMatch(o: Oracles, selector: Option<string>, obj: Object) {
    selector.Some? && o.matchLabels(selector.value, obj.labels)
  }

  predicate NamedMatches(nr: NamedResource, obj: Object) {
    (nr.namespace == "" || nr.namespace == obj.namespace) && nr.name == obj.name
  }

  predicate NamespaceMatches(o: Oracles, path: JsonPath, from: Referrer, obj: Object, isolation: Isolation)
    requires from.json.Some?
  {
    if path.namespace != "" then
      var values := o.extract(from.json.value, path.namespace);
      values.None? || obj.namespace in values.value
    else isolation.Namespaced? ==> from.namespace == obj.namespace
  }

  predicate ReferenceMatches(o: Oracles, ref: Reference, from: Referrer, obj: Object, isolation: Isolation) {
    && from.json.Some?
    && var names := o.extract(from.json.value, ref.path.name);
    names.Some? && obj.name in names.value && NamespaceMatches(o, ref.path, from, obj, isolation)
  }

  predicate AnyReferenceMatches(o: Oracles, refs: seq<Reference>, referrers: seq<Referrer>, obj: Object, isolation: Isolation) {
    exists from, ref :: from in referrers && ref in refs && ReferenceMatches(o, ref, from, obj, isolation)
  }

  /** An object is claimed if any of the three kinds of selector picks it. */
  predicate Claimed(o: Oracles, sel: Selector, obj: Object, referrers: seq<Referrer>, isolation: Isolation) {
    || LabelsMatch(o, sel.labelSelector, obj)
    || (exists nr :: nr in sel.named && NamedMatches(nr, obj))
    || AnyReferenceMatches(o, sel.references, referrers, obj, isolation)
  }

  /** The kinds are alternatives, although the field's documentation calls them ANDed. */
  lemma SelectorsAreAlternatives(o: Oracles, sel: Selector, obj: Object, referrers: seq<Referrer>, isolation: Isolation)
    ensures Claimed(o, sel, obj, referrers, isolation) <==>
            || Claimed(o, sel.(named := [], references := []), obj, referrers, isolation)
            || Claimed(o, sel.(labelSelector := None, references := []), obj, referrers, isolation)
            || Claimed(o, sel.(labelSelector := None, named := []), obj, referrers, isolation)
  {}

  /** The documented reading: every kind of selector that is set picks the object, and some kind is set. */
  predicate Anded(o: Oracles, sel: Selector, obj: Object, referrers: seq<Referrer>, isolation: Isolation) {
    && (sel.labelSelector.Some? || sel.named != [] || sel.references != [])
    && (sel.labelSelector.Some? ==> LabelsMatch(o, sel.labelSelector, obj))
    && (sel.named != [] ==> exists nr :: nr in sel.named && NamedMatches(nr, obj))
    && (sel.references != [] ==> AnyReferenceMatches(o, sel.references, referrers, obj, isolation))
  }

  /** At most one kind of selector is set. */
  predicate OneKind(sel: Selector) {
    && !(sel.labelSelector.Some? && sel.named != [])
    && !(sel.labelSelector.Some? && sel.references != [])
    && !(sel.named != [] && sel.references != [])
  }

  /** The code meets the documentation for selectors of one kind, on every object. */
  lemma OneKindIsAnded(o: Oracles, sel: Selector, obj: Object, referrers: seq<Referrer>, isolation: Isolation)
    requires OneKind(sel)
    ensures Claimed(o, sel, obj, referrers, isolation) <==> Anded(o, sel, obj, referrers, isolation)
  {}

  /** And for no other: each of them claims some object that the documented reading does not. */
  lemma SeveralKindsAreNotAnded(sel: Selector) returns (o: Oracles, obj: Object)
    requires !OneKind(sel)
    ensures forall isolation :: Claimed(o, sel, obj, [], isolation) && !Anded(o, sel, obj, [], isolation)
  {
    var byName := sel.named != [];
    o := Oracles((selector, labels) => !byName, (json, path) => None);
    obj := if byName then Object(sel.named[0].name, sel.named[0].namespace, map[]) else Object("", "", map[]);
    if byName {
      assert sel.named[0] in sel.named && NamedMatches(sel.named[0], obj);
    }
  }

  /** What one selector of each kind picks. By label: what the selector matches. By name: the objects of
      that name, in the given namespace or, if none is given, in all. */
  lemma SingleSelects(o: Oracles, text: string, nr: NamedResource, obj: Object, referrers: seq<Referrer>, isolation: Isolation)
    ensures Claimed(o, Selector(Some(text), [], []), obj, referrers, isolation) <==> o.matchLabels(text, obj.labels)
    ensures Claimed(o, Selector(None, [nr], []), obj, referrers, isolation) <==>
            obj.name == nr.name && (nr.namespace == "" || obj.namespace == nr.namespace)
    ensures !Claimed(o, Selector(None, [], []), obj, referrers, isolation)
  {
    assert nr in [nr];
  }

  /** By reference: the objects whose name the referrer holds at the path of names, in a namespace that
      it holds at the path of namespaces. If nothing is there, any namespace will do; if there is no
      such path, the referrer's own is asked for under namespaced isolation, and any otherwise. */
  lemma SingleReferenceSelects(o: Oracles, ref: Reference, from: Referrer, obj: Object, isolation: Isolation)
    ensures Claimed(o, Selector(None, [], [ref]), obj, [from], isolation) <==>
            from.json.Some?
            && var names, namespaces := o.extract(from.json.value, ref.path.name), o.extract(from.json.value, ref.path.namespace);
            && names.Some? && obj.name in names.value
            && (ref.path.namespace == "" && isolation.Namespaced? ==> obj.namespace == from.namespace)
            && (ref.path.namespace != "" && namespaces.Some? ==> obj.namespace in namespaces.value)
  {
    assert from in [from] && ref in [ref];
  }

  /** Order and repetition of named resources, references and referrers do not matter. */
  lemma ClaimedDependsOnSets(
    o: Oracles, a: Selector, b: Selector, obj: Object, x: seq<Referrer>, y: seq<Referrer>, isolation: Isolation)
    requires a.labelSelector == b.labelSelector
    requires forall nr :: nr in a.named <==> nr in b.named
    requires forall ref :: ref in a.references <==> ref in b.references
    requires forall from :: from in x <==> from in y
    ensures Claimed(o, a, obj, x, isolation) <==> Claimed(o, b, obj, y, isolation)
  {}

  /** More referrers can only claim more. */
  lemma ClaimedIsMonotone(o: Oracles, sel: Selector, obj: Object, x: seq<Referrer>, y: seq<Referrer>, isolation: Isolation)
    requires forall from :: from in x ==> from in y
    ensures Claimed(o, sel, obj, x, isolation) ==> Claimed(o, sel, obj, y, isolation)
  {}

  // ---------------------------------------------------------------- the loops

  method MatchesNamedResources(named: seq<NamedResource>, obj: Object) returns (r: bool)
    ensures r <==> exists nr :: nr in named && NamedMatches(nr, obj)
  {
    for i := 0 to |named|
      invariant forall j :: 0 <= j < i ==> !NamedMatches(named[j], obj)
    {
      var nr := named[i];
      if nr.namespace != "" && nr.namespace != obj.namespace {
        continue;
      }
      if nr.name == obj.name {
        assert nr in named && NamedMatches(nr, obj);
        return true;
      }
    }
    return false;
  }

  /** The innermost loop: one reference against one referrer. */
  method MatchesReference(o: Oracles, ref: Reference, from: Referrer, json: string, obj: Object, isolation: Isolation)
    returns (r: bool)
    requires from.json == Some(json)
    ensures r <==> ReferenceMatches(o, ref, from, obj, isolation)
  {
    var names := o.extract(json, ref.path.name);
    var namespaces := None;
    if ref.path.namespace != "" {
      namespaces := o.extract(json, ref.path.namespace);
    }
    if names.Some? {
      for i := 0 to |names.value|
        invariant forall j :: 0 <= j < i ==>
                    !(names.value[j] == obj.name && NamespaceMatches(o, ref.path, from, obj, isolation))
      {
        var namespaceMatches := true;
        if ref.path.namespace != "" && namespaces.Some? {
          namespaceMatches := obj.namespace in namespaces.value;
        }
        if ref.path.namespace == "" && isolation.Namespaced? {
          namespaceMatches := from.namespace == obj.namespace;
        }
        if names.value[i] == obj.name && namespaceMatches {
          return true;
        }
      }
    }
    return false;
  }

  method MatchesReferences(
    o: Oracles, refs: seq<Reference>, obj: Object, referrers: Option<seq<Referrer>>, isolation: Isolation) returns (r: bool)
    ensures r <==> referrers.Some? && AnyReferenceMatches(o, refs, referrers.value, obj, isolation)
  {
    if refs == [] || referrers.None? {
      return false;
    }
    var items := referrers.value;
    for i := 0 to |items|
      invariant forall k, ref :: 0 <= k < i && ref in refs ==> !ReferenceMatches(o, ref, items[k], obj, isolation)
    {
      if items[i].json.None? {
        continue;
      }
      for j := 0 to |refs|
        invariant forall l :: 0 <= l < j ==> !ReferenceMatches(o, refs[l], items[i], obj, isolation)
      {
        var found := MatchesReference(o, refs[j], items[i], items[i].json.value, obj, isolation);
        if found {
          assert items[i] in items && refs[j] in refs;
          return true;
        }
      }
    }
    return false;
  }

  method IsClaimed(o: Oracles, sel: Selector, obj: Option<Object>, referrers: Option<seq<Referrer>>, isolation: Isolation)
    returns (r: bool)
    ensures r <==> obj.Some? && Claimed(o, sel, obj.value, if referrers.Some? then referrers.value else [], isolation)
  {
    if obj.None? {
      return false;
    }
    if sel.labelSelector.None? && |sel.named| == 0 && |sel.references| == 0 {
      return false;
    }
    var byLabel := sel.labelSelector.Some? && o.matchLabels(sel.labelSelector.value, obj.value.labels);
    var byName := MatchesNamedResources(sel.named, obj.value);
    var byReference := MatchesReferences(o, sel.references, obj.value, referrers, isolation);
    return byLabel || byName || byReference;
  }

  // ---------------------------------------------------------------- both sides

  datatype Export = Export(isolation: Isolation, resources: seq<ExportResource>)

  /** An APIServiceNamespace: the consumer's namespace, and the provider's once it is ready. */
  datatype ServiceNamespace = ServiceNamespace(name: string, status: string)

  /** Lists the objects of a group-resource at a version on the consumer; absent on an error. */
  type Lister = (GroupResource, string) -> Option<seq<Referrer>>

  predicate Exported(gr: GroupResource, svc: Export) {
    exists r :: r in svc.resources && r.gr == gr
  }

  predicate Allowed(ref: Reference, svc: Export) {
    svc.isolation.NoIsolation? || Exported(ref.gr, svc)
  }

  function ExportedVersions(gr: GroupResource, rs: seq<ExportResource>): Option<seq<string>> {
    if rs == [] then None
    else if rs[0].gr == gr then Some(rs[0].versions)
    else ExportedVersions(gr, rs[1..])
  }

  /** The versions to list a reference at; with nothing to go by, those of the reference before. */
  function VersionsFor(ref: Reference, svc: Export, carried: seq<string>): seq<string> {
    if ref.versions != [] then ref.versions
    else var found := ExportedVersions(ref.gr, svc.resources);
         if found.Some? then found.value else carried
  }

  function ListAll(list: Lister, gr: GroupResource, versions: seq<string>): Option<seq<Referrer>> {
    if versions == [] then Some([])
    else
      var init := ListAll(list, gr, versions[..|versions| - 1]);
      var last := list(gr, versions[|versions| - 1]);
      if init.None? || last.None? then None else Some(init.value + last.value)
  }

  /** Everything the references may point from; absent when any list fails. */
  function Gather(list: Lister, refs: seq<Reference>, svc: Export, carried: seq<string>): Option<seq<Referrer>> {
    if refs == [] then Some([])
    else if !Allowed(refs[0], svc) then Gather(list, refs[1..], svc, carried)
    else
      var versions := VersionsFor(refs[0], svc, carried);
      var here := ListAll(list, refs[0].gr, versions);
      var rest := Gather(list, refs[1..], svc, versions);
      if here.None? || rest.None? then None else Some(here.value + rest.value)
  }

  /** The namespace of a provider-side object, as the consumer knows it. */
  function Remap(sns: seq<ServiceNamespace>, ns: string): string {
    if sns == [] then ns
    else if sns[0].status != "" && sns[0].status == ns then sns[0].name
    else Remap(sns[1..], ns)
  }

  ghost predicate Decision(
    o: Oracles, list: Lister, obj: Object, consumerSide: bool, sel: Selector, svc: Export,
    sns: Option<seq<ServiceNamespace>>)
  {
    var referrers := Gather(list, sel.references, svc, []);
    && referrers.Some?
    && (consumerSide || sns.Some?)
    && var seen := if consumerSide then obj else obj.(namespace := Remap(sns.value, obj.namespace));
    Claimed(o, sel, seen, referrers.value, svc.isolation)
  }

  /** What a single reference lists: nothing unless its group-resource is exported or there is no
      isolation; its own versions, else those of the first export of that group-resource. */
  lemma SingleReferenceLists(list: Lister, ref: Reference, svc: Export, i: nat)
    requires i <= |svc.resources| && forall j :: 0 <= j < i ==> svc.resources[j].gr != ref.gr
    requires i < |svc.resources| ==> svc.resources[i].gr == ref.gr
    ensures var got := Gather(list, [ref], svc, []);
            if !svc.isolation.NoIsolation? && i == |svc.resources| then got == Some([])
            else if ref.versions != [] then got == ListAll(list, ref.gr, ref.versions)
            else if i < |svc.resources| then got == ListAll(list, ref.gr, svc.resources[i].versions)
            else got == Some([])
  {
    ExportedVersionsFound(ref.gr, svc.resources);
    if i < |svc.resources| {
      ExportedVersionsAt(ref.gr, svc.resources, i);
      assert svc.resources[i] in svc.resources;
    }
    var versions := VersionsFor(ref, svc, []);
    var here := ListAll(list, ref.gr, versions);
    assert here.Some? ==> here.value + [] == here.value;
    assert [ref][1..] == [];
  }

  /** Nothing is claimed when a list fails, be it of referrers or, on the provider, of namespaces. */
  lemma FailedListsClaimNothing(
    o: Oracles, list: Lister, obj: Object, consumerSide: bool, sel: Selector, svc: Export, sns: Option<seq<ServiceNamespace>>)
    requires Gather(list, sel.references, svc, []).None? || (!consumerSide && sns.None?)
    ensures !Decision(o, list, obj, consumerSide, sel, svc, sns)
  {}

  ghost predicate DistinctStatuses(sns: seq<ServiceNamespace>) {
    forall i, j :: 0 <= i < j < |sns| && sns[i].status != "" ==> sns[i].status != sns[j].status
  }

  lemma {:induction false} RemapFinds(sns: seq<ServiceNamespace>, sn: ServiceNamespace)
    requires DistinctStatuses(sns) && sn in sns && sn.status != ""
    ensures Remap(sns, sn.status) == sn.name
  {
    if sns[0] != sn {
      var i :| 0 <= i < |sns| && sns[i] == sn;
      assert sns[0].status == "" || sns[0].status != sns[i].status;
      assert sns[1..][i - 1] == sn;
      RemapFinds(sns[1..], sn);
    }
  }

  lemma {:induction false} RemapKeeps(sns: seq<ServiceNamespace>, ns: string)
    requires forall sn :: sn in sns && sn.status != "" ==> sn.status != ns
    ensures Remap(sns, ns) == ns
  {
    if sns != [] {
      assert sns[0] in sns;
      RemapKeeps(sns[1..], ns);
    }
  }

  /** For every selector, the provider decides on an object in a mapped namespace as the consumer
      decides on its counterpart, and on any other object as the consumer would on that same object. */
  lemma SidesAgree(
    o: Oracles, list: Lister, obj: Object, sel: Selector, svc: Export, sns: seq<ServiceNamespace>)
    requires DistinctStatuses(sns)
    ensures forall sn :: sn in sns && sn.status != "" && sn.status == obj.namespace ==>
              (Decision(o, list, obj, false, sel, svc, Some(sns))
               <==> Decision(o, list, obj.(namespace := sn.name), true, sel, svc, None))
    ensures (forall sn :: sn in sns && sn.status != "" ==> sn.status != obj.namespace) ==>
              (Decision(o, list, obj, false, sel, svc, Some(sns))
               <==> Decision(o, list, obj, true, sel, svc, None))
  {
    forall sn | sn in sns && sn.status != "" && sn.status == obj.namespace ensures Remap(sns, obj.namespace) == sn.name {
      RemapFinds(sns, sn);
    }
    if forall sn :: sn in sns && sn.status != "" ==> sn.status != obj.namespace {
      RemapKeeps(sns, obj.namespace);
    }
  }

  // ---------------------------------------------------------------- order of references

  /** The reference brings its own versions, or finds those of its export. */
  predicate Sourced(ref: Reference, svc: Export) {
    Allowed(ref, svc) && (ref.versions != [] || Exported(ref.gr, svc))
  }

  /** The reference takes its versions from the one before it. */
  predicate Borrows(ref: Reference, svc: Export) {
    Allowed(ref, svc) && !Sourced(ref, svc)
  }

  /** The version of the group-resource is listed by some reference of its own accord. */
  predicate Listed(gr: GroupResource, v: string, refs: seq<Reference>, svc: Export) {
    exists r :: r in refs && Sourced(r, svc) && r.gr == gr && v in VersionsFor(r, svc, [])
  }

  /** Whatever a borrowing reference could borrow is listed anyway. */
  predicate Closed(refs: seq<Reference>, svc: Export) {
    forall p, q, v :: p in refs && Borrows(p, svc) && q in refs && Sourced(q, svc) && v in VersionsFor(q, svc, []) ==>
                        Listed(p.gr, v, refs, svc)
  }

  lemma {:induction false} ExportedVersionsFound(gr: GroupResource, rs: seq<ExportResource>)
    ensures ExportedVersions(gr, rs).Some? <==> exists r :: r in rs && r.gr == gr
  {
    if rs != [] {
      ExportedVersionsFound(gr, rs[1..]);
      assert rs == [rs[0]] + rs[1..];
    }
  }

  /** The referrers that one reference asks for of its own accord. */
  ghost predicate From(list: Lister, ref: Reference, svc: Export, from: Referrer) {
    && Sourced(ref, svc)
    && exists v :: v in VersionsFor(ref, svc, []) && list(ref.gr, v).Some? && from in list(ref.gr, v).value
  }

  ghost predicate Lists(list: Lister, ref: Reference, svc: Export) {
    Sourced(ref, svc) ==> forall v :: v in VersionsFor(ref, svc, []) ==> list(ref.gr, v).Some?
  }

  lemma {:induction false} ListAllIsUnion(list: Lister, gr: GroupResource, versions: seq<string>)
    ensures ListAll(list, gr, versions).Some? <==> forall v :: v in versions ==> list(gr, v).Some?
    ensures ListAll(list, gr, versions).Some? ==>
              forall from :: from in ListAll(list, gr, versions).value <==>
                exists v :: v in versions && list(gr, v).Some? && from in list(gr, v).value
  {
    if versions != [] {
      var init, last := versions[..|versions| - 1], versions[|versions| - 1];
      ListAllIsUnion(list, gr, init);
      assert versions == init + [last];
    }
  }

  /** What is carried along may be borrowed by any reference of `all` without listing anything new. */
  ghost predicate CarriedIsListed(all: seq<Reference>, svc: Export, carried: seq<string>) {
    forall p, v :: p in all && Borrows(p, svc) && v in carried ==> Listed(p.gr, v, all, svc)
  }

  /** One reference lists what it asks for itself, or, if it borrows, nothing that is not listed anyway. */
  lemma ListsOwnOrListed(list: Lister, all: seq<Reference>, ref: Reference, svc: Export, carried: seq<string>)
    requires Closed(all, svc) && CarriedIsListed(all, svc, carried) && ref in all && Allowed(ref, svc)
    ensures var versions := VersionsFor(ref, svc, carried);
            && CarriedIsListed(all, svc, versions)
            && (Sourced(ref, svc) ==> versions == VersionsFor(ref, svc, []))
            && forall v :: v in versions ==> Listed(ref.gr, v, all, svc)
  {
    ExportedVersionsFound(ref.gr, svc.resources);
    if Sourced(ref, svc) {
      assert forall v :: v in VersionsFor(ref, svc, []) ==> Listed(ref.gr, v, all, svc);
    }
  }

  /** The references from some position on, among all of them. */
  lemma {:induction false} GatherSuffix(list: Lister, all: seq<Reference>, refs: seq<Reference>, svc: Export, carried: seq<string>)
    requires Closed(all, svc) && CarriedIsListed(all, svc, carried) && forall ref :: ref in refs ==> ref in all
    ensures var got := Gather(list, refs, svc, carried);
            && (got.None? ==> exists ref :: ref in all && !Lists(list, ref, svc))
            && (got.Some? ==> forall ref :: ref in refs ==> Lists(list, ref, svc))
            && (got.Some? ==> forall from :: from in got.value ==> exists ref :: ref in all && From(list, ref, svc, from))
            && (got.Some? ==> forall ref, from :: ref in refs && From(list, ref, svc, from) ==> from in got.value)
  {
    if refs != [] {
      var ref := refs[0];
      assert ref in refs && refs == [ref] + refs[1..];
      if !Allowed(ref, svc) {
        GatherSuffix(list, all, refs[1..], svc, carried);
      } else {
        var versions := VersionsFor(ref, svc, carried);
        ListsOwnOrListed(list, all, ref, svc, carried);
        GatherSuffix(list, all, refs[1..], svc, versions);
        GatherOne(list, all, ref, svc, versions);
      }
    }
  }

  lemma GatherOne(list: Lister, all: seq<Reference>, ref: Reference, svc: Export, versions: seq<string>)
    requires Sourced(ref, svc) ==> versions == VersionsFor(ref, svc, [])
    requires forall v :: v in versions ==> Listed(ref.gr, v, all, svc)
    ensures var here := ListAll(list, ref.gr, versions);
            && (here.None? ==> exists r :: r in all && !Lists(list, r, svc))
            && (here.Some? ==> Lists(list, ref, svc))
            && (here.Some? ==> forall from :: from in here.value ==> exists r :: r in all && From(list, r, svc, from))
            && (here.Some? ==> forall from :: From(list, ref, svc, from) ==> from in here.value)
  {
    var here := ListAll(list, ref.gr, versions);
    ListAllIsUnion(list, ref.gr, versions);
    if here.None? {
      var v :| v in versions && list(ref.gr, v).None?;
      var r :| r in all && Sourced(r, svc) && r.gr == ref.gr && v in VersionsFor(r, svc, []);
      assert !Lists(list, r, svc);
    } else {
      forall from | from in here.value ensures exists r :: r in all && From(list, r, svc, from) {
        var v :| v in versions && list(ref.gr, v).Some? && from in list(ref.gr, v).value;
        var r :| r in all && Sourced(r, svc) && r.gr == ref.gr && v in VersionsFor(r, svc, []);
        assert From(list, r, svc, from);
      }
    }
  }

  /** With nothing new to borrow, what is gathered is the union of what each reference asks for. */
  lemma GatherIsUnion(list: Lister, refs: seq<Reference>, svc: Export)
    requires Closed(refs, svc)
    ensures Gather(list, refs, svc, []).Some? <==> forall ref :: ref in refs ==> Lists(list, ref, svc)
    ensures Gather(list, refs, svc, []).Some? ==>
              forall from :: from in Gather(list, refs, svc, []).value <==>
                exists ref :: ref in refs && From(list, ref, svc, from)
  {
    GatherSuffix(list, refs, refs, svc, []);
  }

  /** With any isolation but None there is nothing to borrow at all. */
  lemma IsolatedIsClosed(refs: seq<Reference>, svc: Export)
    requires !svc.isolation.NoIsolation?
    ensures Closed(refs, svc)
  {}

  /** When there is nothing new to borrow, the decision does not depend on the order or repetition of
      references. */
  lemma DecisionDependsOnSets(
    o: Oracles, list: Lister, obj: Object, consumerSide: bool, a: Selector, b: Selector, svc: Export,
    sns: Option<seq<ServiceNamespace>>)
    requires a.labelSelector == b.labelSelector
    requires forall nr :: nr in a.named <==> nr in b.named
    requires forall ref :: ref in a.references <==> ref in b.references
    requires Closed(a.references, svc)
    ensures Decision(o, list, obj, consumerSide, a, svc, sns) <==> Decision(o, list, obj, consumerSide, b, svc, sns)
  {
    ClosedDependsOnSet(a.references, b.references, svc);
    GatherIsUnion(list, a.references, svc);
    GatherIsUnion(list, b.references, svc);
    var x, y := Gather(list, a.references, svc, []), Gather(list, b.references, svc, []);
    if x.Some? && y.Some? && (consumerSide || sns.Some?) {
      var seen := if consumerSide then obj else obj.(namespace := Remap(sns.value, obj.namespace));
      ClaimedDependsOnSets(o, a, b, seen, x.value, y.value, svc.isolation);
    }
  }

  lemma ClosedDependsOnSet(a: seq<Reference>, b: seq<Reference>, svc: Export)
    requires Closed(a, svc) && forall ref :: ref in a <==> ref in b
    ensures Closed(b, svc)
  {
    forall p, q, v | p in b && Borrows(p, svc) && q in b && Sourced(q, svc) && v in VersionsFor(q, svc, [])
      ensures Listed(p.gr, v, b, svc)
    {
      assert Listed(p.gr, v, a, svc);
      var r :| r in a && Sourced(r, svc) && r.gr == p.gr && v in VersionsFor(r, svc, []);
      assert r in b;
    }
  }

  /** The references that do or do not borrow, in order. */
  function Part(refs: seq<Reference>, svc: Export, borrow: bool): seq<Reference> {
    if refs == [] then []
    else (if Borrows(refs[0], svc) == borrow then [refs[0]] else []) + Part(refs[1..], svc, borrow)
  }

  lemma {:induction false} PartMembers(refs: seq<Reference>, svc: Export, borrow: bool, ref: Reference)
    ensures ref in Part(refs, svc, borrow) <==> ref in refs && Borrows(ref, svc) == borrow
  {
    if refs != [] {
      assert refs == [refs[0]] + refs[1..];
      PartMembers(refs[1..], svc, borrow, ref);
    }
  }

  /** Borrowing references that come first have nothing to borrow. */
  lemma {:induction false} BorrowersFirst(list: Lister, borrowers: seq<Reference>, rest: seq<Reference>, svc: Export)
    requires forall ref :: ref in borrowers ==> Borrows(ref, svc)
    ensures Gather(list, borrowers + rest, svc, []) == Gather(list, rest, svc, [])
  {
    if borrowers == [] {
      assert borrowers + rest == rest;
    } else {
      var ref, refs := borrowers[0], borrowers + rest;
      assert ref in borrowers && refs[0] == ref && refs[1..] == borrowers[1..] + rest;
      ExportedVersionsFound(ref.gr, svc.resources);
      BorrowersFirst(list, borrowers[1..], rest, svc);
      var tail := Gather(list, refs[1..], svc, []);
      assert tail.Some? ==> [] + tail.value == tail.value;
    }
  }

  /** Fails for one version of one group-resource, and finds nothing elsewhere. */
  function FailsAt(gr: GroupResource, v: string): Lister {
    (g, w) => if g == gr && w == v then None else Some([])
  }

  lemma NotClosedFails(refs: seq<Reference>, svc: Export, p: Reference, q: Reference, v: string)
    requires Borrows(p, svc) && q in refs && Sourced(q, svc) && v in VersionsFor(q, svc, []) && !Listed(p.gr, v, refs, svc)
    ensures Gather(FailsAt(p.gr, v), [q, p] + refs, svc, []).None?
    ensures Gather(FailsAt(p.gr, v), Part(refs, svc, true) + Part(refs, svc, false), svc, []).Some?
  {
    var list := FailsAt(p.gr, v);
    ExportedVersionsFound(p.gr, svc.resources);
    ExportedVersionsFound(q.gr, svc.resources);
    var versions := VersionsFor(q, svc, []);
    ListAllIsUnion(list, p.gr, versions);
    assert ([q, p] + refs)[1..] == [p] + refs && ([p] + refs)[1..] == refs;
    assert Gather(list, [p] + refs, svc, versions).None?;
    var borrowers, rest := Part(refs, svc, true), Part(refs, svc, false);
    forall ref ensures (ref in borrowers <==> ref in refs && Borrows(ref, svc)) && (ref in rest <==> ref in refs && !Borrows(ref, svc)) {
      PartMembers(refs, svc, true, ref);
      PartMembers(refs, svc, false, ref);
    }
    BorrowersFirst(list, borrowers, rest, svc);
    assert Closed(rest, svc);
    GatherIsUnion(list, rest, svc);
    forall ref | ref in rest ensures Lists(list, ref, svc) {}
  }

  /** And otherwise it does: references that have something new to borrow decide differently in some two
      orders, for some objects on the consumer. */
  lemma NotClosedDependsOnOrder(refs: seq<Reference>, svc: Export)
    returns (a: seq<Reference>, b: seq<Reference>, o: Oracles, list: Lister)
    requires !Closed(refs, svc)
    ensures forall ref :: (ref in a <==> ref in refs) && (ref in b <==> ref in refs)
    ensures forall obj :: Decision(o, list, obj, true, Selector(Some(""), [], a), svc, None)
                          && !Decision(o, list, obj, true, Selector(Some(""), [], b), svc, None)
  {
    var p, q, v :| p in refs && Borrows(p, svc) && q in refs && Sourced(q, svc) && v in VersionsFor(q, svc, [])
                   && !Listed(p.gr, v, refs, svc);
    a, b := Part(refs, svc, true) + Part(refs, svc, false), [q, p] + refs;
    o, list := Oracles((selector, labels) => true, (json, path) => None), FailsAt(p.gr, v);
    forall ref ensures (ref in a <==> ref in refs) && (ref in b <==> ref in refs) {
      PartMembers(refs, svc, true, ref);
      PartMembers(refs, svc, false, ref);
    }
    NotClosedFails(refs, svc, p, q, v);
  }

  /** Without isolation, a reference with no versions and no export does take its neighbour's: the
      same two references list different objects in the two orders, and so decide differently. */
  lemma CarriedVersionsDependOnOrder(o: Oracles, list: Lister, p: Reference, q: Reference, v: string, from: Referrer, obj: Object)
    requires p.versions == [] && q.versions == [v] && p.gr != q.gr
    requires list(p.gr, v) == Some([from]) && list(q.gr, v) == Some([])
    ensures Gather(list, [p, q], Export(NoIsolation, []), []) == Some([])
    ensures Gather(list, [q, p], Export(NoIsolation, []), []) == Some([from])
    ensures !Decision(o, list, obj, true, Selector(None, [], [p, q]), Export(NoIsolation, []), None)
    ensures ReferenceMatches(o, p, from, obj, NoIsolation) ==>
              Decision(o, list, obj, true, Selector(None, [], [q, p]), Export(NoIsolation, []), None)
  {
    var e := Export(NoIsolation, []);
    var none: seq<Referrer> := [];
    assert ListAll(list, q.gr, [v]) == Some(none) by {
      assert [v][..0] == [] && none + none == none;
    }
    assert ListAll(list, p.gr, [v]) == Some([from]) by {
      assert [v][..0] == [] && [] + [from] == [from];
    }
    assert [p, q][1..] == [q] && [q, p][1..] == [p] && [q][1..] == [] && [p][1..] == [];
    assert Gather(list, [q], e, []) == Some([]);
    assert Gather(list, [p], e, [v]) == Some([from]) by {
      assert [from] + [] == [from];
    }
    assert from in [from] && p in [q, p];
  }

  // ---------------------------------------------------------------- IsClaimedWithReference

  method IsReferenceAllowed(ref: Reference, svc: Export) returns (r: bool)
    ensures r <==> Allowed(ref, svc)
  {
    if svc.isolation.NoIsolation? {
      return true;
    }
    for i := 0 to |svc.resources|
      invariant forall j :: 0 <= j < i ==> svc.resources[j].gr != ref.gr
    {
      if ref.gr == svc.resources[i].gr {
        return true;
      }
    }
    return false;
  }

  lemma {:induction false} ExportedVersionsAt(gr: GroupResource, rs: seq<ExportResource>, i: nat)
    requires i < |rs| && rs[i].gr == gr && forall j :: 0 <= j < i ==> rs[j].gr != gr
    ensures ExportedVersions(gr, rs) == Some(rs[i].versions)
  {
    if i > 0 {
      assert rs[0].gr != gr;
      ExportedVersionsAt(gr, rs[1..], i - 1);
    }
  }

  method FindVersions(ref: Reference, svc: Export, carried: seq<string>) returns (versions: seq<string>)
    ensures versions == VersionsFor(ref, svc, carried)
  {
    if |ref.versions| > 0 {
      return ref.versions;
    }
    for i := 0 to |svc.resources|
      invariant forall j :: 0 <= j < i ==> svc.resources[j].gr != ref.gr
    {
      if ref.gr == svc.resources[i].gr {
        ExportedVersionsAt(ref.gr, svc.resources, i);
        return svc.resources[i].versions;
      }
    }
    ExportedVersionsFound(ref.gr, svc.resources);
    return carried;
  }

  /** What is still to come when the references before position `i` have been gathered. */
  ghost predicate Remaining(
    list: Lister, refs: seq<Reference>, svc: Export, i: nat, versions: seq<string>, items: seq<Referrer>)
    requires i <= |refs|
  {
    var rest := Gather(list, refs[i..], svc, versions);
    Gather(list, refs, svc, []) == if rest.Some? then Some(items + rest.value) else None
  }

  lemma GatherNext(
    list: Lister, refs: seq<Reference>, svc: Export, i: nat, carried: seq<string>, items: seq<Referrer>)
    requires i < |refs| && Allowed(refs[i], svc) && Remaining(list, refs, svc, i, carried, items)
    ensures var versions := VersionsFor(refs[i], svc, carried);
            var here := ListAll(list, refs[i].gr, versions);
            if here.None? then Gather(list, refs, svc, []).None?
            else Remaining(list, refs, svc, i + 1, versions, items + here.value)
  {
    var versions := VersionsFor(refs[i], svc, carried);
    assert refs[i..][0] == refs[i] && refs[i..][1..] == refs[i + 1..];
    var here, rest := ListAll(list, refs[i].gr, versions), Gather(list, refs[i + 1..], svc, versions);
    if here.Some? && rest.Some? {
      assert items + (here.value + rest.value) == (items + here.value) + rest.value;
    }
  }

  method GatherReferrers(list: Lister, refs: seq<Reference>, svc: Export) returns (result: Option<seq<Referrer>>)
    ensures result == Gather(list, refs, svc, [])
  {
    var items: seq<Referrer> := [];
    var versions: seq<string> := [];
    ghost var all := Gather(list, refs, svc, []);
    assert refs[0..] == refs && (all.Some? ==> items + all.value == all.value);
    for i := 0 to |refs|
      invariant Remaining(list, refs, svc, i, versions, items)
    {
      var allowed := IsReferenceAllowed(refs[i], svc);
      if !allowed {
        assert refs[i..][0] == refs[i] && refs[i..][1..] == refs[i + 1..];
        continue;
      }
      GatherNext(list, refs, svc, i, versions, items);
      versions := FindVersions(refs[i], svc, versions);
      var objs := ListVersions(list, refs[i].gr, versions);
      if objs.None? {
        return None;
      }
      items := items + objs.value;
    }
    assert refs[|refs|..] == [] && items + [] == items;
    return Some(items);
  }

  method ListVersions(list: Lister, gr: GroupResource, versions: seq<string>) returns (result: Option<seq<Referrer>>)
    ensures result == ListAll(list, gr, versions)
  {
    var items: seq<Referrer> := [];
    for j := 0 to |versions|
      invariant ListAll(list, gr, versions[..j]) == Some(items)
    {
      assert versions[..j + 1][..j] == versions[..j];
      var objs := list(gr, versions[j]);
      if objs.None? {
        FailedListFails(list, gr, versions, j);
        return None;
      }
      items := items + objs.value;
    }
    assert versions[..|versions|] == versions;
    return Some(items);
  }

  lemma FailedListFails(list: Lister, gr: GroupResource, versions: seq<string>, j: nat)
    requires j < |versions| && list(gr, versions[j]).None?
    ensures ListAll(list, gr, versions).None?
  {
    ListAllIsUnion(list, gr, versions);
  }

  method RemapNamespace(sns: seq<ServiceNamespace>, ns: string) returns (r: string)
    ensures r == Remap(sns, ns)
  {
    for i := 0 to |sns|
      invariant Remap(sns, ns) == Remap(sns[i..], ns)
    {
      assert sns[i..][1..] == sns[i + 1..];
      if sns[i].status == "" {
        continue;
      }
      if ns == sns[i].status {
        return sns[i].name;
      }
    }
    return ns;
  }

  method IsClaimedWithReference(
    o: Oracles, list: Lister, obj: Object, consumerSide: bool, sel: Selector, svc: Export,
    sns: Option<seq<ServiceNamespace>>)
    returns (r: bool)
    ensures r <==> Decision(o, list, obj, consumerSide, sel, svc, sns)
  {
    var referrers := GatherReferrers(list, sel.references, svc);
    if referrers.None? {
      return false;
    }
    if consumerSide {
      r := IsClaimed(o, sel, Some(obj), referrers, svc.isolation);
      return;
    }
    if sns.None? {
      return false;
    }
    var ns := RemapNamespace(sns.value, obj.namespace);
    r := IsClaimed(o, sel, Some(obj.(namespace := ns)), referrers, svc.isolation);
  }
}
