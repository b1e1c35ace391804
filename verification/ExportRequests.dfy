/**
 The phase of an APIServiceExportRequest, and its validation
 (backend/controllers/serviceexportrequest).

 One request is reconciled any number of times while everything around it changes. A reconcile
 may work on a stale copy of the request; its status write is then refused.
 */
module ExportRequests {
  import opened Api
  import opened Runs

  datatype Phase = Pending | Succeeded | Failed

  /** The immutable spec; of a claim only its group-resource matters here, and `selector` stands for
      the rest of it. */
  datatype Claim = Claim(gr: GroupResource, selector: string)

  datatype Request = Request(name: string, resources: seq<ExportResource>, claims: seq<Claim>, phase: Phase)

  datatype Export = Export(name: string, resources: seq<ExportResource>, claims: seq<Claim>)

  function ExportFor(r: Request): Export {
    Export(r.name, r.resources, r.claims)
  }

  // ---------------------------------------------------------------- validation

  /** A listed schema, of which only the scope matters here. */
  type Scopes = map<string, string>

  predicate Claimable(gr: GroupResource) {
    exists i :: 0 <= i < |CLAIMABLE_APIS| && gr.group == CLAIMABLE_APIS[i].group && gr.resource == CLAIMABLE_APIS[i].plural
  }

  predicate ClaimsAllowed(claims: seq<Claim>) {
    && (forall i :: 0 <= i < |claims| ==> Claimable(claims[i].gr))
    && (forall i, j :: 0 <= i < j < |claims| ==> claims[i].gr != claims[j].gr)
  }

  predicate SchemasExist(scopes: Scopes, resources: seq<ExportResource>) {
    forall i :: 0 <= i < |resources| ==> resources[i].gr.ResourceGroupName() in scopes
  }

  function ScopeOf(scopes: Scopes, r: ExportResource): string
    requires r.gr.ResourceGroupName() in scopes
  {
    scopes[r.gr.ResourceGroupName()]
  }

  /** Whatever follows a resource with a scope has that same scope. */
  predicate ScopesAgree(scopes: Scopes, resources: seq<ExportResource>)
    requires SchemasExist(scopes, resources)
  {
    forall i, j :: 0 <= i < j < |resources| && ScopeOf(scopes, resources[i]) != "" ==>
                     ScopeOf(scopes, resources[j]) == ScopeOf(scopes, resources[i])
  }

  predicate AllHaveScope(scopes: Scopes, resources: seq<ExportResource>, scope: string)
    requires SchemasExist(scopes, resources)
  {
    forall i :: 0 <= i < |resources| ==> ScopeOf(scopes, resources[i]) == scope
  }

  /** With no empty scopes among the schemas: all requested resources have one scope. */
  lemma AgreeMeansOneScope(scopes: Scopes, resources: seq<ExportResource>)
    requires SchemasExist(scopes, resources)
    requires forall k :: k in scopes ==> scopes[k] != ""
    ensures ScopesAgree(scopes, resources) <==> exists scope :: AllHaveScope(scopes, resources, scope)
  {
    if ScopesAgree(scopes, resources) {
      var scope := if resources == [] then "" else ScopeOf(scopes, resources[0]);
      assert AllHaveScope(scopes, resources, scope);
    }
  }

  datatype Verdict = Accepted | NoSchemas | SchemaNotFound | DifferentScopes | NotClaimable | DuplicateClaim

  /** These verdicts also set the phase to Failed. */
  predicate Terminal(v: Verdict) {
    v.NotClaimable? || v.DuplicateClaim?
  }

  predicate SchemasFit(scopes: Scopes, resources: seq<ExportResource>) {
    scopes != map[] && SchemasExist(scopes, resources) && ScopesAgree(scopes, resources)
  }

  /** What validate decides, stated without its loops. */
  predicate Decides(scopes: Scopes, resources: seq<ExportResource>, claims: seq<Claim>, v: Verdict) {
    && (v.Accepted? <==> SchemasFit(scopes, resources) && ClaimsAllowed(claims))
    && (Terminal(v) <==> SchemasFit(scopes, resources) && !ClaimsAllowed(claims))
  }

  method IsClaimableAPI(gr: GroupResource) returns (claimable: bool)
    ensures claimable <==> Claimable(gr)
  {
    for i := 0 to |CLAIMABLE_APIS|
      invariant forall j :: 0 <= j < i ==>
                  !(gr.group == CLAIMABLE_APIS[j].group && gr.resource == CLAIMABLE_APIS[j].plural)
    {
      if gr.group == CLAIMABLE_APIS[i].group && gr.resource == CLAIMABLE_APIS[i].plural {
        return true;
      }
    }
    return false;
  }

  /** What can be claimed. */
  lemma ClaimableIff(gr: GroupResource)
    ensures Claimable(gr) <==> gr.group == "" && gr.resource in {"configmaps", "secrets", "serviceaccounts"}
  {
    var apis := CLAIMABLE_APIS;
    assert apis[0].plural == "configmaps" && apis[1].plural == "secrets" && apis[2].plural == "serviceaccounts";
  }

  /** The key under which a claim is remembered; it tells claimable APIs apart. */
  function ClaimKey(gr: GroupResource): string {
    gr.group + "/" + gr.resource
  }

  lemma ClaimKeysDiffer(a: GroupResource, b: GroupResource)
    requires Claimable(a) && Claimable(b)
    ensures ClaimKey(a) == ClaimKey(b) <==> a == b
  {
    assert a.group == "" && b.group == "";
    assert ClaimKey(a)[1..] == a.resource && ClaimKey(b)[1..] == b.resource;
  }

  method ValidateSchemas(scopes: Scopes, resources: seq<ExportResource>) returns (v: Verdict)
    ensures v.Accepted? || v.NoSchemas? || v.SchemaNotFound? || v.DifferentScopes?
    ensures v.Accepted? <==> SchemasFit(scopes, resources)
  {
    if scopes == map[] {
      return NoSchemas;
    }
    var first := "";
    for i := 0 to |resources|
      invariant SchemasExist(scopes, resources[..i]) && ScopesAgree(scopes, resources[..i])
      invariant first == "" ==> forall j :: 0 <= j < i ==> ScopeOf(scopes, resources[j]) == ""
      invariant first != "" ==> exists j :: 0 <= j < i && ScopeOf(scopes, resources[j]) == first
      invariant forall j :: 0 <= j < i && ScopeOf(scopes, resources[j]) != "" ==> ScopeOf(scopes, resources[j]) == first
    {
      var name := resources[i].gr.ResourceGroupName();
      if name !in scopes {
        return SchemaNotFound;
      }
      if first == "" {
        first := scopes[name];
        continue;
      }
      if scopes[name] != first {
        return DifferentScopes;
      }
    }
    assert resources[..|resources|] == resources;
    return Accepted;
  }

  method ValidateClaims(claims: seq<Claim>) returns (v: Verdict)
    ensures v.Accepted? || v.NotClaimable? || v.DuplicateClaim?
    ensures v.Accepted? <==> ClaimsAllowed(claims)
  {
    for i := 0 to |claims|
      invariant forall j :: 0 <= j < i ==> Claimable(claims[j].gr)
    {
      var claimable := IsClaimableAPI(claims[i].gr);
      if !claimable {
        return NotClaimable;
      }
    }
    var seen: set<string> := {};
    for i := 0 to |claims|
      invariant forall k :: k in seen <==> exists j :: 0 <= j < i && ClaimKey(claims[j].gr) == k
      invariant forall j, l :: 0 <= j < l < i ==> claims[j].gr != claims[l].gr
    {
      forall j | 0 <= j < i ensures ClaimKey(claims[j].gr) == ClaimKey(claims[i].gr) <==> claims[j].gr == claims[i].gr {
        ClaimKeysDiffer(claims[j].gr, claims[i].gr);
      }
      var key := ClaimKey(claims[i].gr);
      if key in seen {
        return DuplicateClaim;
      }
      seen := seen + {key};
    }
    return Accepted;
  }

  /** validate accepts exactly when schemas exist and agree on the scope, and the claims are
      claimable and free of duplicates; it fails the request for good exactly when only the claims
      are at fault. */
  method Validate(scopes: Scopes, resources: seq<ExportResource>, claims: seq<Claim>) returns (v: Verdict)
    ensures Decides(scopes, resources, claims, v)
  {
    v := ValidateSchemas(scopes, resources);
    if v.Accepted? {
      v := ValidateClaims(claims);
    }
  }

  // ---------------------------------------------------------------- one reconcile

  datatype CreateResult = Created | AlreadyExists | CreateError

  /** Everything a reconcile meets: the results of its API calls and the age of the request. */
  datatype Env = Env(
    boundSchemasOK: bool,        // ensureBoundSchemas
    listed: Option<Scopes>,      // the exported schemas, unless the list fails
    exportCached: bool,          // the cache already shows an export of this name
    schemasRead: bool,           // every BoundSchema of the request could be read
    create: CreateResult,
    namespacesOK: bool,          // ensureAPIServiceNamespaces
    minuteOld: bool,
    tenMinutesOld: bool,
    deleteOK: bool,              // the deletion of a request that old
    writeOK: bool)

  /** `phase`: the phase in the copy at the end. `created`: the export was created. */
  datatype Result = Result(phase: Phase, failed: bool, created: bool, deleted: bool)

  /** ensureExports. */
  function EnsureExports(r: Request, env: Env): Result {
    if r.phase.Pending? then
      if !env.schemasRead then Result(Pending, true, false, false)
      else if env.exportCached || env.create.AlreadyExists? then Result(Pending, false, false, false)
      else if env.create.CreateError? then Result(Pending, true, false, false)
      else Result(if env.minuteOld then Failed else Succeeded, env.tenMinutesOld && !env.deleteOK, true,
                  env.tenMinutesOld && env.deleteOK)
    else Result(r.phase, env.tenMinutesOld && !env.deleteOK, false, env.tenMinutesOld && env.deleteOK)
  }

  ghost predicate Reconciles(r: Request, env: Env, result: Result) {
    if !env.boundSchemasOK || env.listed.None? then result == Result(r.phase, true, false, false)
    else
      exists v :: && Decides(env.listed.value, r.resources, r.claims, v)
                  && if !v.Accepted? then result == Result(if Terminal(v) then Failed else r.phase, true, false, false)
                     else var e := EnsureExports(r, env);
                          result == e.(failed := e.failed || !env.namespacesOK)
  }

  /** What a reconcile comes to, field by field. The export is created exactly for an accepted Pending
      request whose schemas are all bound and which has no export yet; the request then succeeds if
      it is not a minute old, and fails otherwise; claims that are at fault fail it in any case. */
  lemma ReconcileOutcome(r: Request, env: Env, result: Result)
    requires Reconciles(r, env, result)
    ensures var fit := env.boundSchemasOK && env.listed.Some? && SchemasFit(env.listed.value, r.resources);
            var accepted := fit && ClaimsAllowed(r.claims);
            && (result.created <==>
                accepted && r.phase.Pending? && env.schemasRead && !env.exportCached && env.create.Created?)
            && (r.phase.Pending? ==>
                  && (result.phase.Succeeded? <==> result.created && !env.minuteOld)
                  && (result.phase.Failed? <==> (result.created && env.minuteOld) || (fit && !accepted)))
            && (!r.phase.Pending? ==> result.phase == if fit && !accepted then Failed else r.phase)
            && (result.deleted <==>
                accepted && env.tenMinutesOld && env.deleteOK && (result.created || !r.phase.Pending?))
            && (result.failed <==>
                || !accepted || !env.namespacesOK
                || (r.phase.Pending? && (!env.schemasRead || (!env.exportCached && env.create.CreateError?)))
                || (env.tenMinutesOld && !env.deleteOK && (result.created || !r.phase.Pending?)))
  {}

  // ---------------------------------------------------------------- every run

  datatype State = State(
    request: Option<Request>,  // as stored
    created: set<Export>,      // exports created for the stored request
    validated: bool)           // whether a validation of the stored request has succeeded

  datatype Event =
    | Submit(request: Request)
    | Reconcile(copy: Request, env: Env, result: Result)
    | Delete

  ghost predicate Step(s: State, e: Event, t: State) {
    match e
    case Submit(r) => s.request.None? && r.phase.Pending? && t == State(Some(r), {}, false)
    case Delete => t == s.(request := None)
    case Reconcile(copy, env, result) =>
      // the copy may be out of date in its phase, but the spec is immutable
      && s.request.Some? && copy == s.request.value.(phase := copy.phase)
      && Reconciles(copy, env, result)
      && var created := if result.created then s.created + {ExportFor(copy)} else s.created;
      var validated := s.validated || (env.boundSchemasOK && env.listed.Some?
                                       && Decides(env.listed.value, copy.resources, copy.claims, Accepted));
      if result.deleted then t == State(None, created, validated)
      // a status update of an outdated copy is refused; on an error only a new phase is written
      else if copy == s.request.value && env.writeOK then t == State(Some(copy.(phase := result.phase)), created, validated)
      else t == State(s.request, created, validated)
  }

  ghost predicate Init(s: State) {
    s == State(None, {}, false)
  }

  ghost predicate Inv(s: State) {
    s.request.Some? && s.request.value.phase.Succeeded? ==>
      ClaimsAllowed(s.request.value.claims) && s.validated && ExportFor(s.request.value) in s.created
  }

  lemma StepKeeps(s: State, e: Event, t: State)
    requires Inv(s) && Step(s, e, t)
    ensures Inv(t)
  {
    if e.Reconcile? && e.env.boundSchemasOK && e.env.listed.Some? {
      var v :| Decides(e.env.listed.value, e.copy.resources, e.copy.claims, v)
               && if !v.Accepted? then e.result == Result(if Terminal(v) then Failed else e.copy.phase, true, false, false)
                  else var x := EnsureExports(e.copy, e.env);
                       e.result == x.(failed := x.failed || !e.env.namespacesOK);
    }
  }

  lemma EveryRunKeeps(states: seq<State>, events: seq<Event>)
    requires IsRun(states, events, Init, Step)
    ensures forall i :: 0 <= i < |states| ==> Inv(states[i])
  {
    forall s, e, t | Inv(s) && Step(s, e, t) ensures Inv(t) {
      StepKeeps(s, e, t);
    }
    Always(states, events, Init, Step, (s, e) => true, Inv);
  }

  /** In every run, Succeeded is stored only for a request that passed validation and whose export,
      with the same name, resources and claims, was created. */
  lemma SucceededMeansCreated(states: seq<State>, events: seq<Event>, i: nat, r: Request)
    requires IsRun(states, events, Init, Step) && i < |states|
    requires states[i].request == Some(r) && r.phase.Succeeded?
    ensures states[i].validated && ClaimsAllowed(r.claims)
    ensures Export(r.name, r.resources, r.claims) in states[i].created
  {
    EveryRunKeeps(states, events);
    assert Inv(states[i]);
  }

  /** What is stored after a reconcile: nothing if it deleted the request; its phase, whether or not it
      returned an error, if the copy was current and the write succeeds; and otherwise what was there. */
  lemma StoreOutcome(s: State, copy: Request, env: Env, result: Result, t: State)
    requires Step(s, Reconcile(copy, env, result), t)
    ensures result.deleted ==> t.request.None?
    ensures !result.deleted ==>
              t.request == if s.request == Some(copy) && env.writeOK then Some(copy.(phase := result.phase)) else s.request
    ensures t.created == s.created + if result.created then {Export(copy.name, copy.resources, copy.claims)} else {}
  {}

  /** A stored phase of Succeeded or Failed does not change in a step that keeps the request. */
  lemma TerminalPhaseStays(s: State, e: Event, t: State)
    requires Inv(s) && Step(s, e, t)
    requires s.request.Some? && !s.request.value.phase.Pending? && t.request.Some?
    ensures t.request == s.request
  {
    if e.Reconcile? && e.copy == s.request.value && e.env.boundSchemasOK && e.env.listed.Some? {
      var v :| Decides(e.env.listed.value, e.copy.resources, e.copy.claims, v)
               && if !v.Accepted? then e.result == Result(if Terminal(v) then Failed else e.copy.phase, true, false, false)
                  else var x := EnsureExports(e.copy, e.env);
                       e.result == x.(failed := x.failed || !e.env.namespacesOK);
    }
  }

  lemma {:induction false} TerminalPhaseStaysInEveryRun(states: seq<State>, events: seq<Event>, i: nat, j: nat)
    requires IsRun(states, events, Init, Step) && i <= j < |states|
    requires states[i].request.Some? && !states[i].request.value.phase.Pending?
    requires forall k :: i <= k <= j ==> states[k].request.Some?
    ensures states[j].request == states[i].request
  {
    if i < j {
      EveryRunKeeps(states, events);
      TerminalPhaseStaysInEveryRun(states, events, i, j - 1);
      var e := events[j - 1];
      TerminalPhaseStays(states[j - 1], e, states[j]);
    }
  }

  /** How a stored request came to its terminal phase: by a reconcile of the Pending one, which created
      the export in the first minute if it succeeded, and later if it failed with allowed claims. */
  ghost predicate Decided(s: State, e: Event, t: State, r: Request) {
    && e.Reconcile? && s.request == Some(r.(phase := Pending)) && e.copy == r.(phase := Pending) && t.request == Some(r)
    && (r.phase.Succeeded? ==> e.result.created && !e.env.minuteOld)
    && (r.phase.Failed? && ClaimsAllowed(r.claims) ==> e.result.created && e.env.minuteOld)
  }

  lemma {:induction false} TerminalPhaseWasDecided(states: seq<State>, events: seq<Event>, n: nat, r: Request)
    requires IsRun(states, events, Init, Step) && n < |states|
    requires states[n].request == Some(r) && !r.phase.Pending?
    ensures exists m :: 0 <= m < n && Decided(states[m], events[m], states[m + 1], r)
  {
    if n > 0 {
      var s, e, t := states[n - 1], events[n - 1], states[n];
      assert Step(s, e, t);
      EveryRunKeeps(states, events);
      if s.request.Some? && !s.request.value.phase.Pending? {
        TerminalPhaseStays(s, e, t);
        TerminalPhaseWasDecided(states, events, n - 1, r);
      } else {
        ReconcileOutcome(e.copy, e.env, e.result);
        assert Decided(states[n - 1], events[n - 1], states[n - 1 + 1], r);
      }
    }
  }

  /** Every valid request can be served: reconciled without failures, it is stored as Succeeded in its
      first minute and as Failed after it, and its export is created. */
  lemma ValidRequestIsServed(r: Request, scopes: Scopes, minuteOld: bool) returns (states: seq<State>, events: seq<Event>)
    requires r.phase.Pending? && SchemasFit(scopes, r.resources) && ClaimsAllowed(r.claims)
    ensures IsRun(states, events, Init, Step)
    ensures var s := states[|events|];
            && s.request == Some(r.(phase := if minuteOld then Failed else Succeeded))
            && s.created == {Export(r.name, r.resources, r.claims)}
  {
    var env := Env(true, Some(scopes), false, true, Created, true, minuteOld, false, true, true);
    var phase := if minuteOld then Failed else Succeeded;
    var s0 := State(None, {}, false);
    var s1 := State(Some(r), {}, false);
    var s2 := State(Some(r.(phase := phase)), {ExportFor(r)}, true);
    assert Decides(scopes, r.resources, r.claims, Accepted);
    assert Reconciles(r, env, Result(phase, false, true, false));
    assert {} + {ExportFor(r)} == {ExportFor(r)};
    states, events := [s0, s1, s2], [Submit(r), Reconcile(r, env, Result(phase, false, true, false))];
  }

  // ---------------------------------------------------------------- the imperative form

  class Reconciler {
    var stored: Request
    var exports: set<Export>

    constructor (request: Request)
      ensures stored == request && exports == {}
    {
      stored, exports := request, {};
    }

    /** Reconcile with the working copy fetched fresh. */
    method ReconcileRequest(env: Env) returns (result: Result)
      modifies this
      ensures Reconciles(old(stored), env, result)
      ensures exports == if result.created then old(exports) + {ExportFor(old(stored))} else old(exports)
      ensures stored == if env.writeOK then old(stored).(phase := result.phase) else old(stored)
    {
      if !env.boundSchemasOK || env.listed.None? {
        return Result(stored.phase, true, false, false);
      }
      var phase := stored.phase;
      var v := Validate(env.listed.value, stored.resources, stored.claims);
      if !v.Accepted? {
        if Terminal(v) {
          phase := Failed;
        }
        result := Result(phase, true, false, false);
        if phase != stored.phase && env.writeOK {
          stored := stored.(phase := phase);
        }
        return;
      }
      var failed, created, deleted := false, false, false;
      if phase.Pending? {
        if !env.schemasRead {
          failed := true;
        } else if !env.exportCached {
          match env.create {
            case AlreadyExists =>
            case CreateError => failed := true;
            case Created =>
              created := true;
              exports := exports + {Export(stored.name, stored.resources, stored.claims)};
              phase := Succeeded;
              if env.minuteOld {
                phase := Failed;
              }
          }
        }
      }
      if env.tenMinutesOld && (created || !stored.phase.Pending?) {
        deleted, failed := env.deleteOK, failed || !env.deleteOK;
      }
      result := Result(phase, failed || !env.namespacesOK, created, deleted);
      if phase != stored.phase && env.writeOK {
        stored := stored.(phase := phase);
      }
    }
  }
}
