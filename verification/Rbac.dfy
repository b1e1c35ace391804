/**
 RBAC objects for an export (backend/controllers/serviceexportrbac/rbac_reconciler.go): the
 policy rules as a canonical list, the scope of claims, and convergence of a reconcile.
 */
module Rbac {
  import opened Api
  import opened Text
  import ExportRequests

  // ---------------------------------------------------------------- sorted keys

  predicate Less(a: string, b: string) {
    b != "" && (a == "" || a[0] < b[0] || (a[0] == b[0] && Less(a[1..], b[1..])))
  }

  lemma {:induction false} LessIsAsymmetric(a: string, b: string)
    requires Less(a, b)
    ensures !Less(b, a) && a != b
  {
    if a != "" && a[0] == b[0] {
      LessIsAsymmetric(a[1..], b[1..]);
    }
  }

  lemma {:induction false} LessIsTransitive(a: string, b: string, c: string)
    requires Less(a, b) && Less(b, c)
    ensures Less(a, c)
  {
    if a != "" && a[0] == b[0] && b[0] == c[0] {
      LessIsTransitive(a[1..], b[1..], c[1..]);
    }
  }

  lemma {:induction false} LessIsTotal(a: string, b: string)
    ensures a == b || Less(a, b) || Less(b, a)
  {
    if a != "" && b != "" && a[0] == b[0] {
      LessIsTotal(a[1..], b[1..]);
      assert a == [a[0]] + a[1..] && b == [b[0]] + b[1..];
    }
  }

  predicate Ascending(s: seq<string>) {
    forall i, j :: 0 <= i < j < |s| ==> Less(s[i], s[j])
  }

  lemma TailMembers(s: seq<string>)
    requires Ascending(s) && s != []
    ensures forall x :: x in s[1..] <==> x in s && x != s[0]
  {
    forall k | 1 <= k < |s| ensures s[k] != s[0] {
      LessIsAsymmetric(s[0], s[k]);
    }
    forall x | x in s && x != s[0] ensures x in s[1..] {
      var k :| 0 <= k < |s| && s[k] == x;
      assert s[1..][k - 1] == x;
    }
  }

  /** Ascending lists of the same strings are the same list. */
  lemma {:induction false} AscendingIsUnique(s: seq<string>, t: seq<string>)
    requires Ascending(s) && Ascending(t) && forall x :: x in s <==> x in t
    ensures s == t
  {
    assert |t| > 0 ==> t[0] in s;
    if s != [] {
      assert s[0] in t && t[0] in s;
      var i :| 0 <= i < |s| && s[i] == t[0];
      var j :| 0 <= j < |t| && t[j] == s[0];
      if i > 0 && j > 0 {
        LessIsAsymmetric(s[0], s[i]);
      }
      assert s[0] == t[0];
      TailMembers(s);
      TailMembers(t);
      AscendingIsUnique(s[1..], t[1..]);
      assert s == [s[0]] + s[1..] && t == [t[0]] + t[1..];
    }
  }

  method InsertSorted(s: seq<string>, x: string) returns (t: seq<string>)
    requires Ascending(s) && x !in s
    ensures Ascending(t) && forall y :: y in t <==> y in s || y == x
  {
    var i := 0;
    while i < |s| && Less(s[i], x)
      invariant i <= |s| && forall j :: 0 <= j < i ==> Less(s[j], x)
    {
      i := i + 1;
    }
    forall j | i <= j < |s| ensures Less(x, s[j]) {
      LessIsTotal(x, s[i]);
      if i < j {
        LessIsTransitive(x, s[i], s[j]);
      }
    }
    t := s[..i] + [x] + s[i..];
    assert s == s[..i] + s[i..];
  }

  method SortedKeys(keys: set<string>) returns (s: seq<string>)
    ensures Ascending(s) && forall x :: x in s <==> x in keys
  {
    s := [];
    var todo := keys;
    while todo != {}
      invariant todo <= keys && Ascending(s)
      invariant forall x :: x in s <==> x in keys && x !in todo
      decreases todo
    {
      var x :| x in todo;
      s := InsertSorted(s, x);
      todo := todo - {x};
    }
  }

  // ---------------------------------------------------------------- rules

  /** One rule per group-resource; the verbs are the same for all. */
  type Rules = seq<GroupResource>

  function Keys(rules: Rules): seq<string> {
    seq(|rules|, i requires 0 <= i < |rules| => rules[i].Text())
  }

  /** The rules are the given group-resources, one for each text, ascending by text. */
  ghost predicate Canonical(rules: Rules, grs: seq<GroupResource>) {
    && Ascending(Keys(rules))
    && (forall gr :: gr in rules ==> gr in grs)
    && (forall gr :: gr in grs ==> gr.Text() in Keys(rules))
  }

  method BuildPolicyRules(grs: seq<GroupResource>) returns (rules: Rules)
    ensures Canonical(rules, grs)
  {
    var byText: map<string, GroupResource> := map[];
    for i := 0 to |grs|
      invariant forall k :: k in byText ==> byText[k] in grs && byText[k].Text() == k
      invariant forall j :: 0 <= j < i ==> grs[j].Text() in byText
    {
      byText := byText[grs[i].Text() := grs[i]];
    }
    var keys := SortedKeys(byText.Keys);
    rules := [];
    for i := 0 to |keys|
      invariant |rules| == i && forall j :: 0 <= j < i ==> rules[j] == byText[keys[j]]
    {
      rules := rules + [byText[keys[i]]];
    }
    assert Keys(rules) == keys;
  }

  predicate DotFree(grs: seq<GroupResource>) {
    forall gr :: gr in grs ==> '.' !in gr.resource
  }

  lemma TextIsUnique(a: GroupResource, b: GroupResource)
    requires '.' !in a.resource && '.' !in b.resource && a.Text() == b.Text()
    ensures a == b
  {
    SplitIsUnique(a.resource, a.group, b.resource, b.group, '.');
  }

  /** With dot-free resource names every group-resource is listed, and exactly once. */
  lemma RulesListEachOnce(rules: Rules, grs: seq<GroupResource>)
    requires Canonical(rules, grs) && DotFree(grs)
    ensures forall gr :: gr in rules <==> gr in grs
    ensures forall i, j :: 0 <= i < j < |rules| ==> rules[i] != rules[j]
  {
    forall gr | gr in grs ensures gr in rules {
      var i :| 0 <= i < |Keys(rules)| && Keys(rules)[i] == gr.Text();
      assert rules[i] in rules;
      TextIsUnique(rules[i], gr);
    }
    forall i, j | 0 <= i < j < |rules| ensures rules[i] != rules[j] {
      LessIsAsymmetric(Keys(rules)[i], Keys(rules)[j]);
    }
  }

  /** In general, no group-resource goes without a rule exactly if their texts differ. */
  lemma RulesCompleteIff(rules: Rules, grs: seq<GroupResource>)
    requires Canonical(rules, grs)
    ensures (forall gr :: gr in grs ==> gr in rules)
       <==> (forall a, b :: a in grs && b in grs && a.Text() == b.Text() ==> a == b)
  {
    if forall gr :: gr in grs ==> gr in rules {
      forall a, b | a in grs && b in grs && a.Text() == b.Text() ensures a == b {
        var i :| 0 <= i < |rules| && rules[i] == a;
        var j :| 0 <= j < |rules| && rules[j] == b;
        assert Keys(rules)[i] == Keys(rules)[j];
        if i != j {
          LessIsAsymmetric(Keys(rules)[if i < j then i else j], Keys(rules)[if i < j then j else i]);
        }
      }
    } else {
      var gr :| gr in grs && gr !in rules;
      var i :| 0 <= i < |Keys(rules)| && Keys(rules)[i] == gr.Text();
      assert rules[i] in rules && rules[i].Text() == gr.Text();
    }
  }

  lemma KeysOfSubset(x: Rules, y: Rules)
    requires forall gr :: gr in x ==> gr in y
    ensures forall k :: k in Keys(x) ==> k in Keys(y)
  {
    forall k | k in Keys(x) ensures k in Keys(y) {
      var i :| 0 <= i < |Keys(x)| && Keys(x)[i] == k;
      assert x[i] in x;
      var j :| 0 <= j < |y| && y[j] == x[i];
      assert Keys(y)[j] == k;
    }
  }

  lemma KeysDetermineRules(x: Rules, y: Rules)
    requires Keys(x) == Keys(y) && DotFree(x) && DotFree(y)
    ensures x == y
  {
    assert |Keys(x)| == |Keys(y)|;
    forall i | 0 <= i < |x| ensures x[i] == y[i] {
      assert Keys(x)[i] == Keys(y)[i] && x[i] in x && y[i] in y;
      TextIsUnique(x[i], y[i]);
    }
  }

  /** And the list depends on nothing but which group-resources there are. */
  lemma RulesDependOnSet(x: Rules, a: seq<GroupResource>, y: Rules, b: seq<GroupResource>)
    requires Canonical(x, a) && Canonical(y, b) && DotFree(a) && forall gr :: gr in a <==> gr in b
    ensures x == y
  {
    RulesListEachOnce(x, a);
    RulesListEachOnce(y, b);
    KeysOfSubset(x, y);
    KeysOfSubset(y, x);
    AscendingIsUnique(Keys(x), Keys(y));
    KeysDetermineRules(x, y);
  }

  /** A dot in a resource name can make two group-resources share a text; one rule is then lost. */
  lemma DottedNamesCollide(a: string, b: string, c: string, rules: Rules)
    requires b != "" && c != ""
    requires var p := GroupResource(b + "." + c, a); var q := GroupResource(c, a + "." + b); Canonical(rules, [p, q])
    ensures GroupResource(b + "." + c, a) !in rules || GroupResource(c, a + "." + b) !in rules
  {
    var p, q := GroupResource(b + "." + c, a), GroupResource(c, a + "." + b);
    assert p.Text() == q.Text() by {
      assert a + "." + (b + "." + c) == (a + "." + b) + "." + c;
    }
    assert |q.resource| > |p.resource|;
    if p in rules && q in rules {
      var i :| 0 <= i < |rules| && rules[i] == p;
      var j :| 0 <= j < |rules| && rules[j] == q;
      assert Keys(rules)[i] == Keys(rules)[j];
      LessIsAsymmetric(Keys(rules)[if i < j then i else j], Keys(rules)[if i < j then j else i]);
    }
  }

  // ---------------------------------------------------------------- claims

  /** The scope of the first claimable API with the claim's group and resource; empty if none. */
  function ClaimScope(gr: GroupResource, apis: seq<ClaimableAPI>): string {
    if apis == [] then ""
    else if gr.group == apis[0].group && gr.resource == apis[0].resource then apis[0].scope
    else ClaimScope(gr, apis[1..])
  }

  /** The claims of one scope, in order. */
  function ClaimsOfScope(claims: seq<GroupResource>, scope: string): seq<GroupResource> {
    if claims == [] then []
    else ClaimsOfScope(claims[..|claims| - 1], scope)
         + if ClaimScope(claims[|claims| - 1], CLAIMABLE_APIS) == scope then [claims[|claims| - 1]] else []
  }

  method SplitClaims(claims: seq<GroupResource>) returns (cluster: seq<GroupResource>, namespaced: seq<GroupResource>)
    ensures cluster == ClaimsOfScope(claims, CLUSTER_SCOPED)
    ensures namespaced == ClaimsOfScope(claims, NAMESPACE_SCOPED)
  {
    cluster, namespaced := [], [];
    for i := 0 to |claims|
      invariant cluster == ClaimsOfScope(claims[..i], CLUSTER_SCOPED)
      invariant namespaced == ClaimsOfScope(claims[..i], NAMESPACE_SCOPED)
    {
      assert claims[..i + 1][..i] == claims[..i];
      var scope := "";
      var j := 0;
      while j < |CLAIMABLE_APIS|
        invariant j <= |CLAIMABLE_APIS|
        invariant ClaimScope(claims[i], CLAIMABLE_APIS) == ClaimScope(claims[i], CLAIMABLE_APIS[j..])
        invariant scope == ""
      {
        if claims[i].group == CLAIMABLE_APIS[j].group && claims[i].resource == CLAIMABLE_APIS[j].resource {
          scope := CLAIMABLE_APIS[j].scope;
          break;
        }
        assert CLAIMABLE_APIS[j..][1..] == CLAIMABLE_APIS[j + 1..];
        j := j + 1;
      }
      assert scope == ClaimScope(claims[i], CLAIMABLE_APIS);
      if scope == CLUSTER_SCOPED {
        cluster := cluster + [claims[i]];
      } else if scope == NAMESPACE_SCOPED {
        namespaced := namespaced + [claims[i]];
      }
    }
    assert claims[..|claims|] == claims;
  }

  lemma ClaimableHasScope(gr: GroupResource)
    requires ExportRequests.Claimable(gr)
    ensures ClaimScope(gr, CLAIMABLE_APIS) == NAMESPACE_SCOPED
  {
    var apis := CLAIMABLE_APIS;
    assert apis[1..] == [apis[1], apis[2]] && apis[1..][1..] == [apis[2]];
    assert ClaimScope(gr, [apis[2]]) == if gr == GroupResource(apis[2].group, apis[2].resource) then apis[2].scope else "" by {
      assert [apis[2]][1..] == [];
    }
  }

  lemma ClaimableIsDotFree(gr: GroupResource)
    requires ExportRequests.Claimable(gr)
    ensures '.' !in gr.resource
  {}

  lemma {:induction false} ClaimsAreNamespaced(claims: seq<GroupResource>)
    requires forall c :: c in claims ==> ExportRequests.Claimable(c)
    ensures ClaimsOfScope(claims, CLUSTER_SCOPED) == []
    ensures ClaimsOfScope(claims, NAMESPACE_SCOPED) == claims
  {
    assert CLUSTER_SCOPED[0] != NAMESPACE_SCOPED[0];
    if claims != [] {
      var init, last := claims[..|claims| - 1], claims[|claims| - 1];
      assert claims == init + [last] && last in claims;
      ClaimableHasScope(last);
      ClaimsAreNamespaced(init);
    }
  }

  /** Every claim that validation lets through is in the rules of exactly one scope; with the present
      table of claimable APIs, always the namespaced one. */
  lemma AllowedClaimsHaveOneScope(claims: seq<GroupResource>, cluster: Rules, namespaced: Rules)
    requires forall c :: c in claims ==> ExportRequests.Claimable(c)
    requires Canonical(cluster, ClaimsOfScope(claims, CLUSTER_SCOPED))
    requires Canonical(namespaced, ClaimsOfScope(claims, NAMESPACE_SCOPED))
    ensures forall gr :: gr in claims <==> gr in namespaced
    ensures cluster == []
  {
    ClaimsAreNamespaced(claims);
    forall c | c in claims ensures '.' !in c.resource {
      ClaimableIsDotFree(c);
    }
    RulesListEachOnce(namespaced, claims);
    FirstIsMember(cluster);
  }

  lemma FirstIsMember(rules: Rules)
    ensures rules != [] ==> exists gr :: gr in rules
  {
    if rules != [] {
      assert rules[0] in rules;
    }
  }

  // ---------------------------------------------------------------- convergence

  datatype ObjectKey =
    | ExportsRole                              // the aggregating ClusterRole
    | ExportsRoleBinding                       // and its ClusterRoleBinding
    | ClusterRole(name: string)
    | Role(key: Key)
    | RoleBinding(key: Key)

  /** A slice as Go compares it: nil and empty are different. */
  datatype Slice = Nil | Items(rules: Rules)

  /** The fields the reconciler compares and writes. The aggregation rule and the label are written
      with a fixed value, so it only matters whether they are there. */
  datatype Fields =
    | Aggregation(present: bool)
    | Aggregated(labelled: bool, owner: string, rules: Slice)
    | Plain(rules: Slice)
    | Subjects(namespaces: seq<string>)

  /** What the API holds: those fields, and everything else, which a write leaves alone. */
  datatype Object = Object(fields: Fields, rest: string)

  type Cluster = map<ObjectKey, Object>

  datatype Put = Put(key: ObjectKey, fields: Fields)

  /** How an object reads back: the API may or may not turn empty rules into absent ones. */
  function ReadBack(dropsEmpty: bool, f: Fields): Fields {
    match f
    case Aggregated(labelled, owner, rules) =>
      if dropsEmpty && rules == Items([]) then Aggregated(labelled, owner, Nil) else f
    case Plain(rules) => if dropsEmpty && rules == Items([]) then Plain(Nil) else f
    case _ => f
  }

  /** getOrCreate followed by the comparison and the update: one write, or none. */
  function Ensure(dropsEmpty: bool, c: Cluster, put: Put): Cluster {
    if put.key !in c then c[put.key := Object(ReadBack(dropsEmpty, put.fields), "")]
    else if c[put.key].fields != put.fields then c[put.key := c[put.key].(fields := ReadBack(dropsEmpty, put.fields))]
    else c
  }

  predicate Writes(c: Cluster, put: Put) {
    put.key !in c || c[put.key].fields != put.fields
  }

  function EnsureAll(dropsEmpty: bool, c: Cluster, plan: seq<Put>): Cluster {
    if plan == [] then c else Ensure(dropsEmpty, EnsureAll(dropsEmpty, c, plan[..|plan| - 1]), plan[|plan| - 1])
  }

  function CountWrites(dropsEmpty: bool, c: Cluster, plan: seq<Put>): nat {
    if plan == [] then 0
    else CountWrites(dropsEmpty, c, plan[..|plan| - 1])
         + if Writes(EnsureAll(dropsEmpty, c, plan[..|plan| - 1]), plan[|plan| - 1]) then 1 else 0
  }

  /** No object is planned in two ways. */
  ghost predicate Coherent(plan: seq<Put>) {
    forall p, q :: p in plan && q in plan && p.key == q.key ==> p == q
  }

  ghost predicate Settled(dropsEmpty: bool, c: Cluster, put: Put) {
    put.key in c && c[put.key].fields == ReadBack(dropsEmpty, put.fields)
  }

  /** The cluster holds objects as they read back. */
  ghost predicate IsReadBack(dropsEmpty: bool, c: Cluster) {
    forall k :: k in c ==> ReadBack(dropsEmpty, c[k].fields) == c[k].fields
  }

  lemma {:induction false} PlanSettles(dropsEmpty: bool, c: Cluster, plan: seq<Put>)
    requires Coherent(plan) && IsReadBack(dropsEmpty, c)
    ensures IsReadBack(dropsEmpty, EnsureAll(dropsEmpty, c, plan))
    ensures forall p :: p in plan ==> Settled(dropsEmpty, EnsureAll(dropsEmpty, c, plan), p)
  {
    if plan != [] {
      var init, last := plan[..|plan| - 1], plan[|plan| - 1];
      assert plan == init + [last];
      PlanSettles(dropsEmpty, c, init);
      var d := EnsureAll(dropsEmpty, c, init);
      forall p | p in plan ensures Settled(dropsEmpty, Ensure(dropsEmpty, d, last), p) {
        assert p.key == last.key ==> p == last;
        assert p in init || p == last;
      }
    }
  }

  /** An object outside the plan stays as it is, there or not. */
  lemma {:induction false} OnlyPlanned(dropsEmpty: bool, c: Cluster, plan: seq<Put>, k: ObjectKey)
    requires forall p :: p in plan ==> p.key != k
    ensures k in EnsureAll(dropsEmpty, c, plan) <==> k in c
    ensures k in c ==> EnsureAll(dropsEmpty, c, plan)[k] == c[k]
  {
    if plan != [] {
      assert plan[|plan| - 1] in plan;
      OnlyPlanned(dropsEmpty, c, plan[..|plan| - 1], k);
    }
  }

  predicate KeptAsWritten(dropsEmpty: bool, put: Put) {
    ReadBack(dropsEmpty, put.fields) == put.fields
  }

  lemma {:induction false} SecondPassWrites(dropsEmpty: bool, c: Cluster, plan: seq<Put>)
    requires forall p :: p in plan ==> Settled(dropsEmpty, c, p)
    ensures forall p :: p in plan ==> Settled(dropsEmpty, EnsureAll(dropsEmpty, c, plan), p)
    ensures EnsureAll(dropsEmpty, c, plan) == c
    ensures CountWrites(dropsEmpty, c, plan) == 0 <==> forall p :: p in plan ==> KeptAsWritten(dropsEmpty, p)
  {
    if plan != [] {
      var init, last := plan[..|plan| - 1], plan[|plan| - 1];
      assert plan == init + [last];
      SecondPassWrites(dropsEmpty, c, init);
      assert Settled(dropsEmpty, c, last);
      assert Ensure(dropsEmpty, c, last) == c;
      assert Writes(c, last) <==> !KeptAsWritten(dropsEmpty, last);
      assert forall p :: p in plan <==> p in init || p == last;
    }
  }

  datatype Scope = ClusterWide | PerNamespace

  /** What a reconcile works from: the export, its namespace's uid, and the three rule lists. */
  datatype Inputs = Inputs(
    svc: Key, uid: string, scope: Scope, resources: Rules, clusterClaims: Rules, namespacedClaims: Rules,
    serviceNamespaces: seq<string>) // status namespaces, "" when not ready

  function ResourcesRole(k: Key): string {
    "kube-binder-resources-" + k.namespace + "-" + k.name
  }

  function ClaimsClusterRole(k: Key): string {
    "kube-binder-claims-" + k.namespace + "-" + k.name
  }

  function ClaimsRole(k: Key): string {
    "kube-binder-claims-" + k.name
  }

  function RolePlan(x: Inputs, statuses: seq<string>): seq<Put> {
    if statuses == [] then []
    else
      var last := statuses[|statuses| - 1];
      RolePlan(x, statuses[..|statuses| - 1])
      + if last == "" then []
        else [Put(Role(Key(last, ClaimsRole(x.svc))), Plain(Items(x.namespacedClaims))),
              Put(RoleBinding(Key(last, ClaimsRole(x.svc))), Subjects([x.svc.namespace]))]
  }

  function ClusterPlan(x: Inputs): seq<Put> {
    [Put(ExportsRole, Aggregation(true)),
     Put(ExportsRoleBinding, Subjects([x.svc.namespace])),
     Put(ClusterRole(ResourcesRole(x.svc)), Aggregated(true, x.uid, Items(x.resources))),
     Put(ClusterRole(ClaimsClusterRole(x.svc)),
         Aggregated(true, x.uid, Items(x.clusterClaims + if x.scope.ClusterWide? then x.namespacedClaims else [])))]
  }

  /** The objects of an export, in the order in which they are ensured. */
  function Plan(x: Inputs): seq<Put> {
    ClusterPlan(x) + if x.scope.PerNamespace? then RolePlan(x, x.serviceNamespaces) else []
  }

  lemma {:induction false} RolePlanMembers(x: Inputs, statuses: seq<string>, p: Put)
    ensures p in RolePlan(x, statuses) <==>
            exists n :: n in statuses && n != ""
                        && (|| p == Put(Role(Key(n, ClaimsRole(x.svc))), Plain(Items(x.namespacedClaims)))
                            || p == Put(RoleBinding(Key(n, ClaimsRole(x.svc))), Subjects([x.svc.namespace])))
  {
    if statuses != [] {
      RolePlanMembers(x, statuses[..|statuses| - 1], p);
      assert statuses == statuses[..|statuses| - 1] + [statuses[|statuses| - 1]];
    }
  }

  lemma RolePlanNext(x: Inputs, plan: seq<Put>, i: nat)
    requires i < |x.serviceNamespaces|
    ensures var n := x.serviceNamespaces[i];
            var sofar := plan + RolePlan(x, x.serviceNamespaces[..i]);
            plan + RolePlan(x, x.serviceNamespaces[..i + 1])
            == if n == "" then sofar
               else sofar + [Put(Role(Key(n, ClaimsRole(x.svc))), Plain(Items(x.namespacedClaims)))]
                    + [Put(RoleBinding(Key(n, ClaimsRole(x.svc))), Subjects([x.svc.namespace]))]
  {
    assert x.serviceNamespaces[..i + 1][..i] == x.serviceNamespaces[..i];
  }

  lemma PlanIsCoherent(x: Inputs)
    ensures Coherent(Plan(x))
  {
    assert ResourcesRole(x.svc)[12] == 'r' && ClaimsClusterRole(x.svc)[12] == 'c';
    forall p, q | p in Plan(x) && q in Plan(x) && p.key == q.key ensures p == q {
      RolePlanMembers(x, x.serviceNamespaces, p);
      RolePlanMembers(x, x.serviceNamespaces, q);
    }
  }

  /** One error-free reconcile with a fresh cache brings every object to the desired fields and
      leaves all other objects alone. */
  lemma OneReconcileConverges(dropsEmpty: bool, c: Cluster, x: Inputs)
    requires IsReadBack(dropsEmpty, c)
    ensures forall p :: p in Plan(x) ==> Settled(dropsEmpty, EnsureAll(dropsEmpty, c, Plan(x)), p)
    ensures forall k :: k in c && (forall p :: p in Plan(x) ==> p.key != k) ==>
              k in EnsureAll(dropsEmpty, c, Plan(x)) && EnsureAll(dropsEmpty, c, Plan(x))[k] == c[k]
  {
    PlanIsCoherent(x);
    PlanSettles(dropsEmpty, c, Plan(x));
    forall k | k in c && (forall p :: p in Plan(x) ==> p.key != k)
      ensures k in EnsureAll(dropsEmpty, c, Plan(x)) && EnsureAll(dropsEmpty, c, Plan(x))[k] == c[k]
    {
      OnlyPlanned(dropsEmpty, c, Plan(x), k);
    }
  }

  ghost predicate Holds(dropsEmpty: bool, c: Cluster, key: ObjectKey, fields: Fields) {
    key in c && c[key].fields == ReadBack(dropsEmpty, fields)
  }

  /** What is there after a reconcile, object by object: the exported resources' role and the claims'
      role, labelled for aggregation and owned by the export's namespace, the aggregating role bound to the
      service account of that namespace, and, with namespaced scope, a role for the namespaced claims
      in every ready namespace, bound likewise. */
  lemma ReconciledObjects(dropsEmpty: bool, c: Cluster, x: Inputs, n: string)
    requires IsReadBack(dropsEmpty, c)
    ensures var d := EnsureAll(dropsEmpty, c, Plan(x)); var suffix := x.svc.namespace + "-" + x.svc.name;
            && Holds(dropsEmpty, d, ExportsRole, Aggregation(true))
            && Holds(dropsEmpty, d, ExportsRoleBinding, Subjects([x.svc.namespace]))
            && Holds(dropsEmpty, d, ClusterRole("kube-binder-resources-" + suffix), Aggregated(true, x.uid, Items(x.resources)))
            && Holds(dropsEmpty, d, ClusterRole("kube-binder-claims-" + suffix),
                     Aggregated(true, x.uid, Items(if x.scope.ClusterWide? then x.clusterClaims + x.namespacedClaims
                                                   else x.clusterClaims)))
            && (x.scope.PerNamespace? && n in x.serviceNamespaces && n != "" ==>
                  && Holds(dropsEmpty, d, Role(Key(n, "kube-binder-claims-" + x.svc.name)), Plain(Items(x.namespacedClaims)))
                  && Holds(dropsEmpty, d, RoleBinding(Key(n, "kube-binder-claims-" + x.svc.name)), Subjects([x.svc.namespace])))
  {
    OneReconcileConverges(dropsEmpty, c, x);
    var plan := Plan(x);
    assert ResourcesRole(x.svc) == "kube-binder-resources-" + (x.svc.namespace + "-" + x.svc.name);
    assert ClaimsClusterRole(x.svc) == "kube-binder-claims-" + (x.svc.namespace + "-" + x.svc.name);
    assert plan[0] in plan && plan[1] in plan && plan[2] in plan && plan[3] in plan;
    assert x.scope.PerNamespace? ==> x.clusterClaims + [] == x.clusterClaims;
    if x.scope.PerNamespace? && n in x.serviceNamespaces && n != "" {
      var role := Put(Role(Key(n, ClaimsRole(x.svc))), Plain(Items(x.namespacedClaims)));
      var binding := Put(RoleBinding(Key(n, ClaimsRole(x.svc))), Subjects([x.svc.namespace]));
      RolePlanMembers(x, x.serviceNamespaces, role);
      RolePlanMembers(x, x.serviceNamespaces, binding);
      assert role in plan && binding in plan;
    }
  }

  /** And nothing but those objects is touched: in a namespace that is not ready, or with cluster scope,
      no role is. */
  lemma OtherNamespacesAreLeft(dropsEmpty: bool, c: Cluster, x: Inputs, key: Key)
    requires IsReadBack(dropsEmpty, c)
    requires !x.scope.PerNamespace? || key.namespace !in x.serviceNamespaces || key.namespace == ""
    ensures var d := EnsureAll(dropsEmpty, c, Plan(x));
            && (Role(key) in d <==> Role(key) in c) && (RoleBinding(key) in d <==> RoleBinding(key) in c)
            && (Role(key) in c ==> d[Role(key)] == c[Role(key)])
            && (RoleBinding(key) in c ==> d[RoleBinding(key)] == c[RoleBinding(key)])
  {
    forall p | p in Plan(x) ensures p.key != Role(key) && p.key != RoleBinding(key) {
      RolePlanMembers(x, x.serviceNamespaces, p);
    }
    OnlyPlanned(dropsEmpty, c, Plan(x), Role(key));
    OnlyPlanned(dropsEmpty, c, Plan(x), RoleBinding(key));
  }

  /** Some rule list that the reconcile writes is empty. */
  ghost predicate WritesEmptyRules(x: Inputs) {
    || x.resources == []
    || (x.clusterClaims == [] && (x.scope.ClusterWide? ==> x.namespacedClaims == []))
    || (x.scope.PerNamespace? && x.namespacedClaims == [] && exists n :: n in x.serviceNamespaces && n != "")
  }

  lemma KeptUnlessEmpty(dropsEmpty: bool, x: Inputs)
    ensures (forall p :: p in Plan(x) ==> KeptAsWritten(dropsEmpty, p)) <==> !(dropsEmpty && WritesEmptyRules(x))
  {
    if dropsEmpty {
      forall p
        ensures p in RolePlan(x, x.serviceNamespaces) <==>
                exists n :: n in x.serviceNamespaces && n != ""
                            && (|| p == Put(Role(Key(n, ClaimsRole(x.svc))), Plain(Items(x.namespacedClaims)))
                                || p == Put(RoleBinding(Key(n, ClaimsRole(x.svc))), Subjects([x.svc.namespace])))
      {
        RolePlanMembers(x, x.serviceNamespaces, p);
      }
      assert Plan(x)[2] in Plan(x) && Plan(x)[3] in Plan(x);
      if x.scope.PerNamespace? && x.namespacedClaims == [] && exists n :: n in x.serviceNamespaces && n != "" {
        var n :| n in x.serviceNamespaces && n != "";
        var p := Put(Role(Key(n, ClaimsRole(x.svc))), Plain(Items([])));
        assert p in RolePlan(x, x.serviceNamespaces);
        assert p in Plan(x) && !KeptAsWritten(true, p);
      }
    }
  }

  /** The next reconcile writes nothing, unless empty rules do not read back as they were written. */
  lemma NextReconcileWritesNothingIff(dropsEmpty: bool, c: Cluster, x: Inputs)
    requires IsReadBack(dropsEmpty, c)
    ensures CountWrites(dropsEmpty, EnsureAll(dropsEmpty, c, Plan(x)), Plan(x)) == 0
       <==> !(dropsEmpty && WritesEmptyRules(x))
  {
    OneReconcileConverges(dropsEmpty, c, x);
    SecondPassWrites(dropsEmpty, EnsureAll(dropsEmpty, c, Plan(x)), Plan(x));
    KeptUnlessEmpty(dropsEmpty, x);
  }

  /** With the present table of claimable APIs no validated export has cluster-scoped claim rules. So
      with namespaced scope, and an API that reads empty rules back as absent, no reconcile is ever the
      last one that writes. */
  lemma NamespacedScopeNeverSettles(c: Cluster, x: Inputs, claims: seq<GroupResource>)
    requires IsReadBack(true, c) && x.scope.PerNamespace?
    requires forall gr :: gr in claims ==> ExportRequests.Claimable(gr)
    requires Canonical(x.clusterClaims, ClaimsOfScope(claims, CLUSTER_SCOPED))
    requires Canonical(x.namespacedClaims, ClaimsOfScope(claims, NAMESPACE_SCOPED))
    ensures CountWrites(true, EnsureAll(true, c, Plan(x)), Plan(x)) > 0
  {
    AllowedClaimsHaveOneScope(claims, x.clusterClaims, x.namespacedClaims);
    NextReconcileWritesNothingIff(true, c, x);
  }

  class Reconciler {
    const dropsEmpty: bool
    var objects: Cluster
    var writes: nat

    constructor (dropsEmpty: bool, objects: Cluster)
      ensures this.dropsEmpty == dropsEmpty && this.objects == objects && writes == 0
    {
      this.dropsEmpty, this.objects, writes := dropsEmpty, objects, 0;
    }

    method EnsureObject(put: Put)
      modifies this
      ensures objects == Ensure(dropsEmpty, old(objects), put)
      ensures writes == old(writes) + if Writes(old(objects), put) then 1 else 0
    {
      if put.key !in objects {
        objects := objects[put.key := Object(ReadBack(dropsEmpty, put.fields), "")];
        writes := writes + 1;
        return;
      }
      var existing := objects[put.key];
      if existing.fields != put.fields {
        existing := existing.(fields := ReadBack(dropsEmpty, put.fields));
        objects := objects[put.key := existing];
        writes := writes + 1;
      }
    }

    /** `plan` has been carried out since the objects were `c`. */
    ghost predicate Done(c: Cluster, plan: seq<Put>, before: nat)
      reads this
    {
      objects == EnsureAll(dropsEmpty, c, plan) && writes == before + CountWrites(dropsEmpty, c, plan)
    }

    method EnsureNext(ghost c: Cluster, ghost plan: seq<Put>, ghost before: nat, put: Put)
      requires Done(c, plan, before)
      modifies this
      ensures Done(c, plan + [put], before)
    {
      assert (plan + [put])[..|plan|] == plan;
      EnsureObject(put);
    }

    method EnsureInOrder(puts: seq<Put>)
      modifies this
      ensures Done(old(objects), puts, old(writes))
    {
      for i := 0 to |puts|
        invariant Done(old(objects), puts[..i], old(writes))
      {
        assert puts[..i + 1] == puts[..i] + [puts[i]];
        EnsureNext(old(objects), puts[..i], old(writes), puts[i]);
      }
      assert puts[..|puts|] == puts;
    }

    method EnsurePerNamespace(ghost c: Cluster, ghost plan: seq<Put>, ghost before: nat, x: Inputs)
      requires Done(c, plan, before)
      modifies this
      ensures Done(c, plan + RolePlan(x, x.serviceNamespaces), before)
    {
      assert plan + RolePlan(x, x.serviceNamespaces[..0]) == plan;
      for i := 0 to |x.serviceNamespaces|
        invariant Done(c, plan + RolePlan(x, x.serviceNamespaces[..i]), before)
      {
        var n := x.serviceNamespaces[i];
        ghost var sofar := plan + RolePlan(x, x.serviceNamespaces[..i]);
        RolePlanNext(x, plan, i);
        if n == "" {
          continue;
        }
        var role := Put(Role(Key(n, ClaimsRole(x.svc))), Plain(Items(x.namespacedClaims)));
        var roleBinding := Put(RoleBinding(Key(n, ClaimsRole(x.svc))), Subjects([x.svc.namespace]));
        EnsureNext(c, sofar, before, role);
        EnsureNext(c, sofar + [role], before, roleBinding);
      }
      assert x.serviceNamespaces[..|x.serviceNamespaces|] == x.serviceNamespaces;
    }

    /** An error-free reconcile: cluster-wide objects first, then those of each ready namespace. */
    method ReconcileExport(x: Inputs)
      modifies this
      ensures Done(old(objects), Plan(x), old(writes))
    {
      ghost var c, before := objects, writes;
      EnsureInOrder(ClusterPlan(x));
      if x.scope.PerNamespace? {
        EnsurePerNamespace(c, ClusterPlan(x), before, x);
      } else {
        assert ClusterPlan(x) + [] == ClusterPlan(x);
      }
    }
  }
}
