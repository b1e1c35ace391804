/**
 Keeping an APIServiceExport's schema hash and ProviderInSync condition up to date
 (backend/controllers/serviceexport, pkg/indexers/serviceexport.go).

 The state machine interleaves, in any order: BoundSchema changes and their watch events, the
 mapper that turns such an event into queue entries, and workers that take an export from the
 queue, read its schemas one at a time, and write back either the hash annotation (then
 requeue) or the condition.
 */
module ExportSync {
  import opened Api
  import opened Runs
  import opened Text

  /** The spec of a BoundSchema; `body` stands for everything the reconcilers only hash. */
  datatype Schema = Schema(group: string, plural: string, body: string)

  datatype Condition = Unset | InSync | OutOfSync(missing: string)

  /** `annotation` is the hash annotation; an absent one reads as the empty string. */
  datatype Export = Export(resources: seq<GroupResource>, annotation: string, condition: Condition)

  datatype Lookup = Present(schema: Schema) | Missing | Error

  type Hash = seq<Schema> -> string

  /** The name under which the request reconciler stores a BoundSchema. */
  function SchemaName(schema: Schema): string {
    GroupResource(schema.group, schema.plural).ResourceGroupName()
  }

  /** The key by which the mapper looks up the exports to wake. */
  function MapperKey(schema: Schema): string {
    schema.plural + "." + schema.group
  }

  function Index(resources: seq<GroupResource>): seq<string> {
    seq(|resources|, i requires 0 <= i < |resources| => resources[i].ResourceGroupName())
  }

  // ---------------------------------------------------------------- one reconcile

  datatype Outcome = Failed | Done(result: Export, requeue: bool)

  predicate Complete(resources: seq<GroupResource>, lookups: seq<Lookup>) {
    |lookups| <= |resources| && (|lookups| == |resources| || (lookups != [] && !lookups[|lookups| - 1].Present?))
  }

  predicate AllPresent(lookups: seq<Lookup>) {
    forall i :: 0 <= i < |lookups| ==> lookups[i].Present?
  }

  function Schemas(lookups: seq<Lookup>): seq<Schema>
    requires AllPresent(lookups)
  {
    seq(|lookups|, i requires 0 <= i < |lookups| => lookups[i].schema)
  }

  /** What ensureSchema makes of an export, given the schema lookups it performed. */
  function Decide(hash: Hash, e: Export, lookups: seq<Lookup>): Outcome
    requires Complete(e.resources, lookups)
  {
    if AllPresent(lookups) then
      var h := hash(Schemas(lookups));
      if e.annotation != h then Done(e.(annotation := h), true) else Done(e.(condition := InSync), false)
    else if lookups[|lookups| - 1].Missing? then
      Done(e.(condition := OutOfSync(e.resources[|lookups| - 1].ResourceGroupName())), false)
    else Failed
  }

  // ---------------------------------------------------------------- the protocol

  datatype Work = Work(snapshot: Export, lookups: seq<Lookup>)

  datatype State = State(
    schemas: map<Key, Schema>,
    exports: map<Key, Export>,
    queue: set<Key>,
    working: map<Key, Work>,
    events: multiset<string>) // mapper keys of undelivered BoundSchema events

  datatype Event =
    | SetSchema(key: Key, schema: Schema)
    | DropSchema(key: Key)
    | Deliver(mapperKey: string, listOK: bool)
    | CreateExport(key: Key, value: Export)
    | DropExport(key: Key)
    | Enqueue(key: Key)
    | Start(key: Key)
    | Read(key: Key, readOK: bool)
    | Finish(key: Key, writeOK: bool)

  function LookupIn(schemas: map<Key, Schema>, ns: string, r: GroupResource): Lookup {
    var key := Key(ns, r.ResourceGroupName());
    if key in schemas then Present(schemas[key]) else Missing
  }

  function LookupAll(schemas: map<Key, Schema>, ns: string, rs: seq<GroupResource>): seq<Lookup> {
    seq(|rs|, i requires 0 <= i < |rs| => LookupIn(schemas, ns, rs[i]))
  }

  function Woken(s: State, mapperKey: string): set<Key> {
    set k | k in s.exports && mapperKey in Index(s.exports[k].resources)
  }

  ghost predicate Step(hash: Hash, s: State, e: Event, t: State) {
    match e
    case SetSchema(key, schema) =>
      && key.name == SchemaName(schema) && '.' !in schema.plural
      && t == s.(schemas := s.schemas[key := schema],
                 events := s.events + multiset{MapperKey(schema)}
                           + if key in s.schemas then multiset{MapperKey(s.schemas[key])} else multiset{})
    case DropSchema(key) =>
      && key in s.schemas
      && t == s.(schemas := s.schemas - {key}, events := s.events + multiset{MapperKey(s.schemas[key])})
    case Deliver(mapperKey, listOK) =>
      && mapperKey in s.events
      && t == s.(events := s.events - multiset{mapperKey},
                 queue := s.queue + if listOK then Woken(s, mapperKey) else {})
    case CreateExport(key, value) =>
      key !in s.exports && t == s.(exports := s.exports[key := value], queue := s.queue + {key})
    case DropExport(key) => t == s.(exports := s.exports - {key}, queue := s.queue + {key})
    case Enqueue(key) => t == s.(queue := s.queue + {key})
    case Start(key) =>
      && key in s.queue && key !in s.working // the queue hands a key to one worker at a time
      && t == s.(queue := s.queue - {key},
                 working := if key in s.exports then s.working[key := Work(s.exports[key], [])] else s.working)
    case Read(key, readOK) =>
      && key in s.working && var w := s.working[key];
      && !Complete(w.snapshot.resources, w.lookups) && |w.lookups| < |w.snapshot.resources|
      && var found := if readOK then LookupIn(s.schemas, key.namespace, w.snapshot.resources[|w.lookups|]) else Error;
      t == s.(working := s.working[key := w.(lookups := w.lookups + [found])])
    case Finish(key, writeOK) =>
      && key in s.working && var w := s.working[key];
      && Complete(w.snapshot.resources, w.lookups)
      && var idle := s.(working := s.working - {key});
      var outcome := Decide(hash, w.snapshot, w.lookups);
      if outcome.Failed? then t == idle.(queue := s.queue + {key})
      else if outcome.result == w.snapshot then t == idle // no change, no write
      // an update is refused unless the stored export is the one that was read
      else if !writeOK || key !in s.exports || s.exports[key] != w.snapshot then t == idle.(queue := s.queue + {key})
      else
        t == idle.(exports := s.exports[key := outcome.result],
                   queue := s.queue + if outcome.requeue then {key} else {})
  }

  ghost predicate Init(s: State) {
    s == State(map[], map[], {}, map[], multiset{})
  }

  // ---------------------------------------------------------------- queued or consistent

  ghost predicate Consistent(hash: Hash, s: State, k: Key)
    requires k in s.exports
  {
    var e := s.exports[k];
    var now := LookupAll(s.schemas, k.namespace, e.resources);
    if AllPresent(now) then e.annotation == hash(Schemas(now)) && e.condition.InSync?
    else e.condition.OutOfSync?
  }

  ghost predicate Pending(events: multiset<string>, resources: seq<GroupResource>) {
    exists mk :: mk in events && mk in Index(resources)
  }

  ghost predicate WakePending(s: State, k: Key)
    requires k in s.exports
  {
    Pending(s.events, s.exports[k].resources)
  }

  /** The worker holds the stored export and everything it has read is still current. */
  ghost predicate UpToDate(s: State, k: Key)
    requires k in s.exports && k in s.working
  {
    var w := s.working[k];
    && w.snapshot == s.exports[k]
    && forall i :: 0 <= i < |w.lookups| && i < |w.snapshot.resources| && !w.lookups[i].Error? ==>
         w.lookups[i] == LookupIn(s.schemas, k.namespace, w.snapshot.resources[i])
  }

  ghost predicate Settled(hash: Hash, s: State, k: Key)
    requires k in s.exports
  {
    if k in s.working then UpToDate(s, k) else Consistent(hash, s, k)
  }

  ghost predicate QueuedOrConsistent(hash: Hash, s: State, k: Key)
    requires k in s.exports
  {
    k in s.queue || WakePending(s, k) || Settled(hash, s, k)
  }

  ghost predicate WellFormed(s: State) {
    && (forall key :: key in s.schemas ==> key.name == SchemaName(s.schemas[key]) && '.' !in s.schemas[key].plural)
    && (forall k :: k in s.working ==>
          var w := s.working[k];
          |w.lookups| <= |w.snapshot.resources| && forall i :: 0 <= i < |w.lookups| - 1 ==> w.lookups[i].Present?)
  }

  ghost predicate Inv(hash: Hash, s: State, k: Key) {
    WellFormed(s) && (k in s.exports ==> QueuedOrConsistent(hash, s, k))
  }

  /** The step takes away what would have woken the export, or does not wake it: the mapper's list
      fails on the last event that the export waits for, or a schema changes whose keys are not in
      the export's index; and the export, not queued, is out of date with the schemas after the step. */
  ghost predicate Loses(hash: Hash, s: State, e: Event, k: Key) {
    && k in s.exports && k !in s.queue
    && var index := Index(s.exports[k].resources);
    match e
    case Deliver(mapperKey, listOK) =>
      && !listOK && mapperKey in index && !Pending(s.events - multiset{mapperKey}, s.exports[k].resources)
      && !Settled(hash, s, k)
    case SetSchema(key, schema) =>
      && !WakePending(s, k)
      && MapperKey(schema) !in index && (key in s.schemas ==> MapperKey(s.schemas[key]) !in index)
      && !Settled(hash, s.(schemas := s.schemas[key := schema]), k)
    case DropSchema(key) =>
      && !WakePending(s, k)
      && (key in s.schemas ==> MapperKey(s.schemas[key]) !in index)
      && !Settled(hash, s.(schemas := s.schemas - {key}), k)
    case _ => false
  }

  // ---- steps

  /** What the steps around the workers do to exports and queue. */
  lemma QueueOutcome(hash: Hash, s: State, e: Event, t: State)
    requires Step(hash, s, e, t)
    ensures e.CreateExport? ==> t.exports == s.exports[e.key := e.value] && t.queue == s.queue + {e.key}
    ensures e.DropExport? ==> t.exports == s.exports - {e.key} && t.queue == s.queue + {e.key}
    ensures e.Enqueue? ==> t.exports == s.exports && t.queue == s.queue + {e.key}
    ensures e.Start? ==> t.queue == s.queue - {e.key} && (e.key in t.working <==> e.key in s.exports)
    ensures e.Deliver? ==> forall k :: k in t.queue <==>
              k in s.queue || (e.listOK && k in s.exports && exists r :: r in s.exports[k].resources && e.mapperKey == r.ResourceGroupName())
  {
    if e.Deliver? {
      forall k | k in s.exports
        ensures e.mapperKey in Index(s.exports[k].resources) <==>
                exists r :: r in s.exports[k].resources && e.mapperKey == r.ResourceGroupName()
      {
        IndexMembers(s.exports[k].resources, e.mapperKey);
      }
    }
  }

  lemma IndexMembers(resources: seq<GroupResource>, name: string)
    ensures name in Index(resources) <==> exists r :: r in resources && name == r.ResourceGroupName()
  {
    if name in Index(resources) {
      var i :| 0 <= i < |resources| && Index(resources)[i] == name;
      assert resources[i] in resources;
    }
    if r :| r in resources && name == r.ResourceGroupName() {
      var i :| 0 <= i < |resources| && resources[i] == r;
      assert Index(resources)[i] == name;
    }
  }

  lemma SettledDependsOn(hash: Hash, s: State, t: State, k: Key)
    requires k in s.exports && k in t.exports && s.exports[k] == t.exports[k] && s.schemas == t.schemas
    requires k in s.working <==> k in t.working
    requires k in s.working ==> s.working[k] == t.working[k]
    ensures Settled(hash, s, k) <==> Settled(hash, t, k)
  {}

  /** Steps that leave an export, its worker and the schemas alone keep it queued or consistent. */
  lemma FrameKeeps(hash: Hash, s: State, t: State, k: Key)
    requires k in s.exports && QueuedOrConsistent(hash, s, k)
    requires k in t.exports && t.exports[k] == s.exports[k] && t.schemas == s.schemas
    requires k in s.queue ==> k in t.queue
    requires WakePending(s, k) ==> k in t.queue || WakePending(t, k)
    requires k in s.working <==> k in t.working
    requires k in s.working ==> s.working[k] == t.working[k]
    ensures QueuedOrConsistent(hash, t, k)
  {
    SettledDependsOn(hash, s, t, k);
  }

  /** Finishing on up-to-date lookups makes the export consistent, or queues it again. */
  lemma FinishKeeps(hash: Hash, s: State, t: State, key: Key, writeOK: bool)
    requires WellFormed(s) && Step(hash, s, Finish(key, writeOK), t)
    requires key in s.exports && UpToDate(s, key)
    ensures key in t.queue || Consistent(hash, t, key)
  {
    var w := s.working[key];
    var now := LookupAll(s.schemas, key.namespace, w.snapshot.resources);
    if key !in t.queue {
      if AllPresent(w.lookups) {
        assert w.lookups == now;
      } else {
        assert w.lookups[|w.lookups| - 1] == now[|w.lookups| - 1];
      }
    }
  }

  /** When a worker finishes on current, error-free reads and its write succeeds, the export is queued
      again exactly if its hash annotation had to be brought up to date; and if it was consistent,
      nothing is written at all. */
  lemma FinishQueuesIff(hash: Hash, s: State, t: State, k: Key, writeOK: bool)
    requires WellFormed(s) && Step(hash, s, Finish(k, writeOK), t) && k in s.exports && k !in s.queue
    requires UpToDate(s, k) && forall l :: l in s.working[k].lookups ==> !l.Error?
    ensures var now := LookupAll(s.schemas, k.namespace, s.exports[k].resources);
            writeOK ==> (k in t.queue <==> AllPresent(now) && s.exports[k].annotation != hash(Schemas(now)))
    ensures Consistent(hash, s, k) && ReportsFirstMissing(s, k) ==> k !in t.queue && t.exports == s.exports
  {
    var w := s.working[k];
    var now := LookupAll(s.schemas, k.namespace, w.snapshot.resources);
    if AllPresent(w.lookups) {
      assert w.lookups == now;
    } else {
      var last := |w.lookups| - 1;
      assert w.lookups[last] in w.lookups && w.lookups[last] == now[last];
      assert !AllPresent(now);
    }
  }

  /** A condition that reports a missing schema names the first one. */
  ghost predicate ReportsFirstMissing(s: State, k: Key)
    requires k in s.exports
  {
    var e := s.exports[k];
    forall i :: 0 <= i < |e.resources| && FirstMissing(LookupAll(s.schemas, k.namespace, e.resources), i) ==>
                  e.condition == OutOfSync(e.resources[i].ResourceGroupName())
  }

  ghost predicate FirstMissing(lookups: seq<Lookup>, i: nat) {
    i < |lookups| && !lookups[i].Present? && forall j :: 0 <= j < i ==> lookups[j].Present?
  }

  lemma WorkerStepKeeps(hash: Hash, s: State, e: Event, t: State, k: Key)
    requires WellFormed(s) && Step(hash, s, e, t) && (e.Start? || e.Read? || e.Finish?)
    requires k in t.exports && k in s.exports && QueuedOrConsistent(hash, s, k)
    ensures QueuedOrConsistent(hash, t, k)
  {
    ResourcesStay(hash, s, e, t, k);
    assert WakePending(s, k) ==> WakePending(t, k);
    if k != e.key {
      FrameKeeps(hash, s, t, k);
    } else if e.Finish? && k !in s.queue && !WakePending(s, k) {
      FinishKeeps(hash, s, t, k, e.writeOK);
    }
  }

  lemma ExportStepKeeps(hash: Hash, s: State, e: Event, t: State, k: Key)
    requires Step(hash, s, e, t) && (e.CreateExport? || e.DropExport? || e.Enqueue?)
    requires k in t.exports && (k in s.exports ==> QueuedOrConsistent(hash, s, k))
    ensures QueuedOrConsistent(hash, t, k)
  {
    if k in s.exports {
      assert WakePending(s, k) ==> WakePending(t, k);
      FrameKeeps(hash, s, t, k);
    }
  }

  /** A delivered event wakes its readers; if the list fails, exactly those lose it that were neither
      queued nor waiting for another event and are not up to date anyway. */
  lemma DeliverKeepsUnlessLost(hash: Hash, s: State, t: State, mapperKey: string, listOK: bool, k: Key)
    requires k in s.exports && QueuedOrConsistent(hash, s, k)
    requires Step(hash, s, Deliver(mapperKey, listOK), t)
    ensures QueuedOrConsistent(hash, t, k) <==> !Loses(hash, s, Deliver(mapperKey, listOK), k)
  {
    SettledDependsOn(hash, s, t, k);
    if WakePending(s, k) {
      var mk :| mk in s.events && mk in Index(s.exports[k].resources);
      assert mk != mapperKey ==> mk in t.events;
    }
  }

  lemma SchemaStepKeepsUnlessLost(hash: Hash, s: State, e: Event, t: State, k: Key)
    requires k in s.exports && QueuedOrConsistent(hash, s, k)
    requires Step(hash, s, e, t) && (e.SetSchema? || e.DropSchema?)
    ensures QueuedOrConsistent(hash, t, k) <==> !Loses(hash, s, e, k)
  {
    SettledDependsOn(hash, s.(schemas := t.schemas), t, k);
    if mk :| mk in s.events && mk in Index(s.exports[k].resources) {
      assert mk in t.events;
    }
    if e.SetSchema? {
      assert MapperKey(e.schema) in t.events;
    }
    if e.key in s.schemas {
      assert MapperKey(s.schemas[e.key]) in t.events;
    }
  }

  lemma StepIsWellFormed(hash: Hash, s: State, e: Event, t: State)
    requires WellFormed(s) && Step(hash, s, e, t)
    ensures WellFormed(t)
  {}

  /** For every export and every step: it stays queued or consistent exactly if the step does not
      lose its wake-up. */
  lemma StepKeepsUnlessLost(hash: Hash, s: State, e: Event, t: State, k: Key)
    requires Inv(hash, s, k) && Step(hash, s, e, t)
    ensures WellFormed(t)
    ensures k in t.exports ==> (QueuedOrConsistent(hash, t, k) <==> !Loses(hash, s, e, k))
  {
    StepIsWellFormed(hash, s, e, t);
    if k in t.exports {
      if e.SetSchema? || e.DropSchema? {
        SchemaStepKeepsUnlessLost(hash, s, e, t, k);
      } else if e.Deliver? {
        DeliverKeepsUnlessLost(hash, s, t, e.mapperKey, e.listOK, k);
      } else if e.CreateExport? || e.DropExport? || e.Enqueue? {
        ExportStepKeeps(hash, s, e, t, k);
      } else {
        WorkerStepKeeps(hash, s, e, t, k);
      }
    }
  }

  // ---- runs

  /** In every run that does not lose the export's wake-up, the export is always queued, about to be
      woken, being worked on from current data, or consistent with its schemas. */
  lemma EveryRunIsQueuedOrConsistent(hash: Hash, states: seq<State>, events: seq<Event>, k: Key)
    requires IsRun(states, events, Init, (s, e, t) => Step(hash, s, e, t))
    requires forall i {:trigger events[i]} :: 0 <= i < |events| ==> !Loses(hash, states[i], events[i], k)
    ensures forall i :: 0 <= i < |states| ==> Inv(hash, states[i], k)
  {
    var step := (s, e, t) => Step(hash, s, e, t);
    var allowed := (s, e) => !Loses(hash, s, e, k);
    var inv := s => Inv(hash, s, k);
    forall s, e, t | inv(s) && allowed(s, e) && step(s, e, t) ensures inv(t) {
      StepKeepsUnlessLost(hash, s, e, t, k);
    }
    Always(states, events, Init, step, allowed, inv);
    assert forall i :: 0 <= i < |states| ==> inv(states[i]);
  }

  ghost predicate Drained(s: State) {
    s.queue == {} && s.working == map[] && s.events == multiset{}
  }

  /** So once queue, workers and watch events have drained, the export is consistent. */
  lemma DrainedMeansConsistent(hash: Hash, states: seq<State>, events: seq<Event>, i: nat, k: Key)
    requires IsRun(states, events, Init, (s, e, t) => Step(hash, s, e, t)) && i < |states|
    requires forall j {:trigger events[j]} :: 0 <= j < |events| ==> !Loses(hash, states[j], events[j], k)
    requires Drained(states[i]) && k in states[i].exports
    ensures Consistent(hash, states[i], k)
  {
    EveryRunIsQueuedOrConsistent(hash, states, events, k);
    assert Inv(hash, states[i], k);
  }

  // ---- who can lose a wake-up

  /** The mapper wakes a reader of the stored schema exactly when the schema's group is not empty. */
  lemma WakesReader(schema: Schema, r: GroupResource)
    requires '.' !in schema.plural && '.' !in r.resource
    requires r.ResourceGroupName() == SchemaName(schema)
    ensures MapperKey(schema) == r.ResourceGroupName() <==> schema.group != ""
    ensures r.group != "" && r.group != "core" ==> schema.group != ""
  {
    SplitIsUnique(r.resource, if r.group == "" then "core" else r.group,
                  schema.plural, if schema.group == "" then "core" else schema.group, '.');
    assert schema.group == "" ==> |MapperKey(schema)| < |SchemaName(schema)|;
  }

  predicate DotFree(resources: seq<GroupResource>) {
    forall r :: r in resources ==> '.' !in r.resource
  }

  /** The export reads the schema at `key` for its resource `r`. */
  predicate Reads(k: Key, resources: seq<GroupResource>, key: Key, r: GroupResource) {
    r in resources && key == Key(k.namespace, r.ResourceGroupName())
  }

  /** A change of a schema that an export does not read leaves it settled or not, as it was. */
  lemma UnreadChangeKeepsSettled(hash: Hash, s: State, t: State, key: Key, k: Key)
    requires k in s.exports && t == s.(schemas := t.schemas) && Settled(hash, s, k)
    requires forall x :: x != key ==> (x in s.schemas <==> x in t.schemas)
    requires forall x :: x != key && x in s.schemas ==> s.schemas[x] == t.schemas[x]
    requires forall r :: r in s.exports[k].resources ==> !Reads(k, s.exports[k].resources, key, r)
    ensures Settled(hash, t, k)
  {
    var rs := s.exports[k].resources;
    forall i | 0 <= i < |rs|
      ensures LookupIn(s.schemas, k.namespace, rs[i]) == LookupIn(t.schemas, k.namespace, rs[i])
    {
      assert rs[i] in rs && !Reads(k, rs, key, rs[i]);
    }
    assert LookupAll(s.schemas, k.namespace, rs) == LookupAll(t.schemas, k.namespace, rs);
  }

  /** A schema step loses a wake-up only with a schema in the empty group, for an export that reads it
      under the empty group or one spelled "core". */
  lemma OnlyCoreSchemasAreLost(hash: Hash, s: State, e: Event, t: State, k: Key)
    requires Inv(hash, s, k) && Step(hash, s, e, t) && (e.SetSchema? || e.DropSchema?) && Loses(hash, s, e, k)
    requires DotFree(s.exports[k].resources)
    ensures exists r :: Reads(k, s.exports[k].resources, e.key, r) && (r.group == "" || r.group == "core")
    ensures (if e.SetSchema? then e.schema else s.schemas[e.key]).group == ""
  {
    var rs := s.exports[k].resources;
    var schema := if e.SetSchema? then e.schema else s.schemas[e.key];
    if forall r :: r in rs ==> !Reads(k, rs, e.key, r) {
      UnreadChangeKeepsSettled(hash, s, s.(schemas := t.schemas), e.key, k);
    }
    var r :| r in rs && Reads(k, rs, e.key, r);
    WakesReader(schema, r);
    var i :| 0 <= i < |rs| && rs[i] == r;
    assert Index(rs)[i] == r.ResourceGroupName();
  }

  /** Neither in the core group, nor in a group that is spelled "core". */
  predicate Indexable(resources: seq<GroupResource>) {
    DotFree(resources) && forall r :: r in resources ==> r.group != "" && r.group != "core"
  }

  /** So an export without core resources never loses a wake-up while the mapper's lists succeed. */
  lemma IndexableIsNotLost(hash: Hash, s: State, e: Event, t: State, k: Key)
    requires Inv(hash, s, k) && Step(hash, s, e, t) && k in s.exports && Indexable(s.exports[k].resources)
    requires e.Deliver? ==> e.listOK
    ensures !Loses(hash, s, e, k)
  {
    if Loses(hash, s, e, k) {
      OnlyCoreSchemasAreLost(hash, s, e, t, k);
    }
  }

  ghost predicate AllIndexable(hash: Hash, s: State) {
    WellFormed(s) && forall k :: k in s.exports && Indexable(s.exports[k].resources) ==> QueuedOrConsistent(hash, s, k)
  }

  /** No failing list loses the wake-up of an export without core resources. */
  ghost predicate ListsKeep(hash: Hash, s: State, e: Event) {
    e.Deliver? ==> forall k :: k in s.exports && Indexable(s.exports[k].resources) ==> !Loses(hash, s, e, k)
  }

  lemma StepKeepsIndexable(hash: Hash, s: State, e: Event, t: State)
    requires AllIndexable(hash, s) && Step(hash, s, e, t) && ListsKeep(hash, s, e)
    ensures AllIndexable(hash, t)
  {
    StepIsWellFormed(hash, s, e, t);
    forall k | k in t.exports && Indexable(t.exports[k].resources) ensures QueuedOrConsistent(hash, t, k) {
      if k in s.exports {
        ResourcesStay(hash, s, e, t, k);
      }
      if k in s.exports && !e.Deliver? {
        IndexableIsNotLost(hash, s, e, t, k);
      }
      StepKeepsUnlessLost(hash, s, e, t, k);
    }
  }

  lemma ResourcesStay(hash: Hash, s: State, e: Event, t: State, k: Key)
    requires Step(hash, s, e, t) && k in s.exports && k in t.exports
    ensures s.exports[k].resources == t.exports[k].resources
  {}

  /** In every run without such losses, all exports without core resources are queued or consistent. */
  lemma EveryIndexableIsQueuedOrConsistent(hash: Hash, states: seq<State>, events: seq<Event>)
    requires IsRun(states, events, Init, (s, e, t) => Step(hash, s, e, t))
    requires forall i {:trigger events[i]} :: 0 <= i < |events| ==> ListsKeep(hash, states[i], events[i])
    ensures forall i :: 0 <= i < |states| ==> AllIndexable(hash, states[i])
  {
    var step := (s, e, t) => Step(hash, s, e, t);
    var allowed := (s, e) => ListsKeep(hash, s, e);
    var inv := s => AllIndexable(hash, s);
    forall s, e, t | inv(s) && allowed(s, e) && step(s, e, t) ensures inv(t) {
      StepKeepsIndexable(hash, s, e, t);
    }
    Always(states, events, Init, step, allowed, inv);
    assert forall i :: 0 <= i < |states| ==> inv(states[i]);
  }

  // ---- lost wake-ups happen

  /** One export that has reported its one schema missing, and nothing left to do. */
  ghost predicate ReportsMissing(s: State, k: Key, r: GroupResource) {
    s == State(map[], map[k := Export([r], "", OutOfSync(r.ResourceGroupName()))], {}, map[], multiset{})
  }

  lemma ReachReportsMissing(hash: Hash, k: Key, r: GroupResource) returns (states: seq<State>, events: seq<Event>)
    ensures IsRun(states, events, Init, (s, e, t) => Step(hash, s, e, t))
    ensures |events| == 4 && ReportsMissing(states[4], k, r)
    ensures forall i {:trigger events[i]} :: 0 <= i < 4 ==> !events[i].Deliver?
  {
    var e := Export([r], "", Unset);
    var s0 := State(map[], map[], {}, map[], multiset{});
    var s1 := s0.(exports := map[k := e], queue := {k});
    var s2 := s1.(queue := {}, working := map[k := Work(e, [])]);
    var s3 := s2.(working := map[k := Work(e, [Missing])]);
    var s4 := s3.(working := map[], exports := map[k := e.(condition := OutOfSync(r.ResourceGroupName()))]);
    assert Step(hash, s1, Start(k), s2) by {
      assert {k} - {k} == {};
    }
    FindsMissing(hash, s2, k, r, s3, s4);
    states, events := [s0, s1, s2, s3, s4], [CreateExport(k, e), Start(k), Read(k, true), Finish(k, true)];
  }

  lemma FindsMissing(hash: Hash, s: State, k: Key, r: GroupResource, t: State, u: State)
    requires var e := Export([r], "", Unset);
             && s == State(map[], map[k := e], {}, map[k := Work(e, [])], multiset{})
             && t == s.(working := map[k := Work(e, [Missing])])
             && u == t.(working := map[], exports := map[k := e.(condition := OutOfSync(r.ResourceGroupName()))])
    ensures Step(hash, s, Read(k, true), t) && Step(hash, t, Finish(k, true), u)
  {
    var lookups := t.working[k].lookups;
    assert [] + [Missing] == lookups && lookups[0] == Missing;
    assert t.working - {k} == map[] && {} + {} == t.queue;
    assert Decide(hash, t.exports[k], lookups) == Done(u.exports[k], false);
  }

  /** The schema appears, but its event does not wake the export: everything drains, and the export
      goes on reporting a schema missing that is there. */
  lemma LostWakeUpHappens(hash: Hash, k: Key, r: GroupResource, schema: Schema, listOK: bool)
    returns (states: seq<State>, events: seq<Event>)
    requires SchemaName(schema) == r.ResourceGroupName() && '.' !in schema.plural
    requires listOK ==> MapperKey(schema) != r.ResourceGroupName()
    ensures IsRun(states, events, Init, (s, e, t) => Step(hash, s, e, t))
    ensures |events| == 6 && events[5] == Deliver(MapperKey(schema), listOK)
    ensures forall i {:trigger events[i]} :: 0 <= i < 5 ==> !events[i].Deliver?
    ensures Drained(states[6]) && k in states[6].exports && states[6].exports[k].resources == [r]
    ensures !Consistent(hash, states[6], k)
  {
    states, events := ReachReportsMissing(hash, k, r);
    var s4, key, mk := states[4], Key(k.namespace, SchemaName(schema)), MapperKey(schema);
    var s5 := s4.(schemas := map[key := schema], events := multiset{mk});
    var s6 := s5.(events := multiset{});
    assert Step(hash, s4, SetSchema(key, schema), s5) by {
      assert multiset{} + multiset{mk} + multiset{} == multiset{mk};
    }
    assert Step(hash, s5, Deliver(mk, listOK), s6) by {
      assert Index([r]) == [r.ResourceGroupName()];
      assert listOK ==> Woken(s5, mk) == {};
      assert multiset{mk} - multiset{mk} == multiset{};
    }
    states, events := states + [s5, s6], events + [SetSchema(key, schema), Deliver(mk, listOK)];
    var now := LookupAll(s6.schemas, k.namespace, [r]);
    assert now == [Present(schema)];
  }

  /** That happens to any export whose mapper's list fails. */
  lemma FailedListLosesWakeUp(hash: Hash, k: Key, r: GroupResource, body: string)
    returns (states: seq<State>, events: seq<Event>)
    requires '.' !in r.resource
    ensures IsRun(states, events, Init, (s, e, t) => Step(hash, s, e, t)) && |events| == 6
    ensures events[5].Deliver? && !events[5].listOK
    ensures Drained(states[6]) && k in states[6].exports && states[6].exports[k].resources == [r]
    ensures !Consistent(hash, states[6], k)
  {
    states, events := LostWakeUpHappens(hash, k, r, Schema(r.group, r.resource, body), false);
  }

  /** And it happens with no failure at all to an export of a core resource, whether its group is left
      empty or spelled "core": the mapper's key for the schema is not in the index. */
  lemma CoreGroupIsNotWoken(hash: Hash, k: Key, r: GroupResource, body: string)
    returns (states: seq<State>, events: seq<Event>)
    requires '.' !in r.resource && (r.group == "" || r.group == "core")
    ensures IsRun(states, events, Init, (s, e, t) => Step(hash, s, e, t)) && |events| == 6
    ensures forall i {:trigger events[i]} :: 0 <= i < |events| && events[i].Deliver? ==> events[i].listOK
    ensures Drained(states[6]) && k in states[6].exports && states[6].exports[k].resources == [r]
    ensures !Consistent(hash, states[6], k)
  {
    var schema := Schema("", r.resource, body);
    WakesReader(schema, r);
    states, events := LostWakeUpHappens(hash, k, r, schema, true);
  }

  // ---------------------------------------------------------------- convergence

  /** Reads schemas in order, stopping at the first that is missing or fails. */
  function ReadFrom(get: GroupResource -> Lookup, rs: seq<GroupResource>): (r: seq<Lookup>)
    ensures Complete(rs, r)
    ensures forall i :: 0 <= i < |r| ==> r[i] == get(rs[i])
    ensures forall i :: 0 <= i < |r| - 1 ==> r[i].Present?
  {
    if rs == [] then []
    else if get(rs[0]).Present? then [get(rs[0])] + ReadFrom(get, rs[1..])
    else [get(rs[0])]
  }

  function Observed(schemas: map<Key, Schema>, ns: string, rs: seq<GroupResource>): (r: seq<Lookup>)
    ensures Complete(rs, r)
    ensures forall i :: 0 <= i < |r| ==> r[i] == LookupIn(schemas, ns, rs[i])
  {
    ReadFrom(r => LookupIn(schemas, ns, r), rs)
  }

  function Reconciled(hash: Hash, schemas: map<Key, Schema>, ns: string, e: Export): Export {
    var outcome := Decide(hash, e, Observed(schemas, ns, e.resources));
    if outcome.Done? then outcome.result else e
  }

  lemma ObservedIsCurrent(schemas: map<Key, Schema>, ns: string, rs: seq<GroupResource>)
    ensures var lookups := Observed(schemas, ns, rs);
            if AllPresent(LookupAll(schemas, ns, rs)) then lookups == LookupAll(schemas, ns, rs)
            else !AllPresent(lookups) && lookups[|lookups| - 1].Missing?
  {
    var lookups := Observed(schemas, ns, rs);
    if !AllPresent(lookups) {
      var i :| 0 <= i < |lookups| && !lookups[i].Present?;
      assert LookupAll(schemas, ns, rs)[i] == lookups[i];
    } else {
      assert lookups == LookupAll(schemas, ns, rs);
    }
  }

  /** One reconcile, in terms of what is currently stored. */
  lemma OneReconcile(hash: Hash, schemas: map<Key, Schema>, ns: string, e: Export)
    ensures var now := LookupAll(schemas, ns, e.resources);
            var r := Reconciled(hash, schemas, ns, e);
            if !AllPresent(now) then
              var last := |Observed(schemas, ns, e.resources)| - 1;
              0 <= last < |e.resources| && r == e.(condition := OutOfSync(e.resources[last].ResourceGroupName()))
            else if e.annotation != hash(Schemas(now)) then r == e.(annotation := hash(Schemas(now)))
            else r == e.(condition := InSync)
  {
    ObservedIsCurrent(schemas, ns, e.resources);
  }

  /** With unchanged schemas two reconciles reach a fixpoint, and it is consistent. */
  lemma TwoReconcilesReachFixpoint(hash: Hash, schemas: map<Key, Schema>, k: Key, e: Export, e1: Export, e2: Export)
    requires e1 == Reconciled(hash, schemas, k.namespace, e)
    requires e2 == Reconciled(hash, schemas, k.namespace, e1)
    ensures Reconciled(hash, schemas, k.namespace, e2) == e2
    ensures Consistent(hash, State(schemas, map[k := e2], {}, map[], multiset{}), k)
  {
    OneReconcile(hash, schemas, k.namespace, e);
    OneReconcile(hash, schemas, k.namespace, e1);
    OneReconcile(hash, schemas, k.namespace, e2);
  }

  // ---- every export can settle

  ghost function StepOf(hash: Hash): (State, Event, State) -> bool {
    (s, e, t) => Step(hash, s, e, t)
  }

  /** A worker reads the first `n` schemas. */
  lemma {:induction false} ReadAll(hash: Hash, s: State, k: Key, n: nat) returns (states: seq<State>, events: seq<Event>, t: State)
    requires k in s.working && s.working[k].lookups == [] && n <= |s.working[k].snapshot.resources|
    requires AllPresent(LookupAll(s.schemas, k.namespace, s.working[k].snapshot.resources))
    ensures Leads(states, events, StepOf(hash), s, t)
    ensures var w := s.working[k]; var now := LookupAll(s.schemas, k.namespace, w.snapshot.resources);
            t == s.(working := s.working[k := w.(lookups := now[..n])])
  {
    var w := s.working[k];
    var now := LookupAll(s.schemas, k.namespace, w.snapshot.resources);
    if n == 0 {
      assert s.working[k := w.(lookups := now[..0])] == s.working;
      states, events, t := [s], [], s;
    } else {
      var mid;
      states, events, mid := ReadAll(hash, s, k, n - 1);
      t := s.(working := s.working[k := w.(lookups := now[..n])]);
      assert now[..n] == now[..n - 1] + [now[n - 1]];
      assert Step(hash, mid, Read(k, true), t) by {
        var lookups := now[..n - 1];
        assert lookups != [] ==> lookups[|lookups| - 1] == now[n - 2];
        assert t.working == mid.working[k := w.(lookups := now[..n])];
      }
      Extend(states, events, StepOf(hash), s, mid, Read(k, true), t);
      states, events := states + [t], events + [Read(k, true)];
    }
  }

  /** One undisturbed reconcile of a queued export whose schemas are all there. */
  lemma OnePass(hash: Hash, s: State, k: Key) returns (states: seq<State>, events: seq<Event>, t: State)
    requires k in s.queue && k !in s.working && k in s.exports
    requires AllPresent(LookupAll(s.schemas, k.namespace, s.exports[k].resources))
    ensures Leads(states, events, StepOf(hash), s, t)
    ensures var e := s.exports[k]; var h := hash(Schemas(LookupAll(s.schemas, k.namespace, e.resources)));
            if e.annotation == h then t == s.(exports := s.exports[k := e.(condition := InSync)], queue := s.queue - {k})
            else t == s.(exports := s.exports[k := e.(annotation := h)])
  {
    var e := s.exports[k];
    var now := LookupAll(s.schemas, k.namespace, e.resources);
    var h := hash(Schemas(now));
    var s1 := s.(queue := s.queue - {k}, working := s.working[k := Work(e, [])]);
    assert Leads([s, s1], [Start(k)], StepOf(hash), s, s1);
    var mid;
    states, events, mid := ReadAll(hash, s1, k, |e.resources|);
    Concat([s, s1], [Start(k)], states, events, StepOf(hash), s, s1, mid);
    states, events := [s, s1] + states[1..], [Start(k)] + events;
    assert now[..|e.resources|] == now;
    assert mid.working[k] == Work(e, now) && mid.working - {k} == s.working;
    t := if e.annotation == h then s.(exports := s.exports[k := e.(condition := InSync)], queue := s.queue - {k})
    else s.(exports := s.exports[k := e.(annotation := h)]);
    assert s.queue - {k} + {k} == s.queue;
    assert e.condition == InSync ==> s.exports[k := e.(condition := InSync)] == s.exports;
    assert Step(hash, mid, Finish(k, true), t);
    Extend(states, events, StepOf(hash), s, mid, Finish(k, true), t);
    states, events := states + [t], events + [Finish(k, true)];
  }

  /** Two such reconciles at most, and the export is settled. */
  lemma Settles(hash: Hash, s: State, k: Key) returns (states: seq<State>, events: seq<Event>, t: State)
    requires k in s.queue && k !in s.working && k in s.exports
    requires AllPresent(LookupAll(s.schemas, k.namespace, s.exports[k].resources))
    ensures Leads(states, events, StepOf(hash), s, t)
    ensures var e := s.exports[k]; var h := hash(Schemas(LookupAll(s.schemas, k.namespace, e.resources)));
            t == s.(exports := s.exports[k := e.(annotation := h, condition := InSync)], queue := s.queue - {k})
  {
    var e := s.exports[k];
    var h := hash(Schemas(LookupAll(s.schemas, k.namespace, e.resources)));
    states, events, t := OnePass(hash, s, k);
    if e.annotation != h {
      var mid := t;
      var ts, fs;
      ts, fs, t := OnePass(hash, mid, k);
      Concat(states, events, ts, fs, StepOf(hash), s, mid, t);
      states, events := states + ts[1..], events + fs;
      assert mid.exports[k := e.(annotation := h, condition := InSync)] == s.exports[k := e.(annotation := h, condition := InSync)];
    }
  }

  /** The schemas are created one after the other, before there is any export. */
  lemma {:induction false} ReachSchemas(hash: Hash, schemas: map<Key, Schema>)
    returns (states: seq<State>, events: seq<Event>)
    requires forall key :: key in schemas ==> key.name == SchemaName(schemas[key]) && '.' !in schemas[key].plural
    ensures Leads(states, events, StepOf(hash), State(map[], map[], {}, map[], multiset{}), State(schemas, map[], {}, map[], multiset{}))
    decreases |schemas|
  {
    var s0 := State(map[], map[], {}, map[], multiset{});
    if schemas == map[] {
      states, events := [s0], [];
    } else {
      var key :| key in schemas;
      var fewer, mk := schemas - {key}, MapperKey(schemas[key]);
      states, events := ReachSchemas(hash, fewer);
      var s := State(fewer, map[], {}, map[], multiset{});
      var t := State(schemas, map[], {}, map[], multiset{mk});
      var u := t.(events := multiset{});
      assert fewer[key := schemas[key]] == schemas;
      assert Step(hash, s, SetSchema(key, schemas[key]), t) by {
        assert multiset{} + multiset{mk} + multiset{} == multiset{mk};
      }
      assert Step(hash, t, Deliver(mk, true), u) by {
        assert Woken(t, mk) == {} && multiset{mk} - multiset{mk} == multiset{};
      }
      Extend(states, events, StepOf(hash), s0, s, SetSchema(key, schemas[key]), t);
      states, events := states + [t], events + [SetSchema(key, schemas[key])];
      Extend(states, events, StepOf(hash), s0, t, Deliver(mk, true), u);
      states, events := states + [u], events + [Deliver(mk, true)];
    }
  }

  /** For any schemas and any export whose schemas are all among them, some run drains with the export in
      sync: nothing keeps a worker busy for ever. */
  lemma EveryExportCanSettle(hash: Hash, schemas: map<Key, Schema>, k: Key, e: Export)
    returns (states: seq<State>, events: seq<Event>)
    requires forall key :: key in schemas ==> key.name == SchemaName(schemas[key]) && '.' !in schemas[key].plural
    requires AllPresent(LookupAll(schemas, k.namespace, e.resources))
    ensures IsRun(states, events, Init, (s, e, t) => Step(hash, s, e, t))
    ensures var s := states[|events|];
            && Drained(s) && s.schemas == schemas && s.exports.Keys == {k} && s.exports[k].resources == e.resources
            && s.exports[k].condition.InSync?
            && s.exports[k].annotation == hash(Schemas(LookupAll(schemas, k.namespace, e.resources)))
  {
    states, events := ReachSchemas(hash, schemas);
    var s0, s := State(map[], map[], {}, map[], multiset{}), State(schemas, map[], {}, map[], multiset{});
    var t := s.(exports := map[k := e], queue := {k});
    assert Step(hash, s, CreateExport(k, e), t) by {
      assert {} + {k} == {k};
    }
    Extend(states, events, StepOf(hash), s0, s, CreateExport(k, e), t);
    states, events := states + [t], events + [CreateExport(k, e)];
    var ts, fs, u := Settles(hash, t, k);
    Concat(states, events, ts, fs, StepOf(hash), s0, t, u);
    states, events := states + ts[1..], events + fs;
  }

  // ---------------------------------------------------------------- the imperative form

  class ServiceExport {
    const resources: seq<GroupResource>
    var annotation: string
    var condition: Condition

    constructor (value: Export)
      ensures View() == value
    {
      resources, annotation, condition := value.resources, value.annotation, value.condition;
    }

    function View(): Export
      reads this
    {
      Export(resources, annotation, condition)
    }

    method EnsureSchema(hash: Hash, get: GroupResource -> Lookup) returns (failed: bool)
      modifies this
      ensures var outcome := Decide(hash, old(View()), ReadFrom(get, resources));
              && (failed <==> outcome.Failed?)
              && View() == if failed then old(View()) else outcome.result
    {
      var schemas: seq<Schema> := [];
      for i := 0 to |resources|
        invariant |schemas| == i && View() == old(View())
        invariant forall j :: 0 <= j < i ==> get(resources[j]) == Present(schemas[j])
      {
        var found := get(resources[i]);
        if !found.Present? {
          ghost var lookups := ReadFrom(get, resources);
          assert |lookups| == i + 1 by {
            ReadStopsAt(get, resources, i);
          }
          if found.Missing? {
            condition := OutOfSync(resources[i].ResourceGroupName());
          }
          return found.Error?;
        }
        schemas := schemas + [found.schema];
      }
      ghost var lookups := ReadFrom(get, resources);
      assert AllPresent(lookups) && Schemas(lookups) == schemas;
      var h := hash(schemas);
      if annotation != h {
        annotation := h;
        return false;
      }
      condition := InSync;
      return false;
    }

    /** Reconcile: at most one of the two writes, annotations first. A failed write leaves the stored
        export, which this object stands for, as it was. */
    method Reconcile(hash: Hash, get: GroupResource -> Lookup, writeOK: bool) returns (failed: bool, requeue: bool)
      modifies this
      ensures var outcome := Decide(hash, old(View()), ReadFrom(get, resources));
              && (failed <==> outcome.Failed? || (outcome.result != old(View()) && !writeOK))
              && View() == if failed then old(View()) else outcome.result
      ensures requeue <==> !failed && annotation != old(annotation)
    {
      var original, originalCondition := annotation, condition;
      failed := EnsureSchema(hash, get);
      if failed {
        return true, false;
      }
      if annotation != original {
        if !writeOK {
          annotation, condition := original, originalCondition;
          return true, false;
        }
        return false, true;
      }
      if condition != originalCondition && !writeOK {
        condition := originalCondition;
        return true, false;
      }
      return false, false;
    }
  }

  lemma {:induction false} ReadStopsAt(get: GroupResource -> Lookup, rs: seq<GroupResource>, i: nat)
    requires i < |rs| && !get(rs[i]).Present? && forall j :: 0 <= j < i ==> get(rs[j]).Present?
    ensures |ReadFrom(get, rs)| == i + 1
  {
    if i > 0 {
      assert get(rs[0]).Present?;
      ReadStopsAt(get, rs[1..], i - 1);
    }
  }

  /** The index function: one name per resource, in order. */
  method IndexByBoundSchema(resources: seq<GroupResource>) returns (names: seq<string>)
    ensures names == Index(resources)
  {
    names := [];
    for i := 0 to |resources|
      invariant names == Index(resources[..i])
    {
      names := names + [resources[i].ResourceGroupName()];
    }
    assert resources[..|resources|] == resources;
  }

  /** The mapper: the exports whose index holds the schema's key. */
  method MapBoundSchema(exports: map<Key, Export>, schema: Schema) returns (requests: set<Key>)
    ensures forall k :: k in requests <==> k in exports && MapperKey(schema) in Index(exports[k].resources)
  {
    requests := {};
    var todo := exports.Keys;
    while todo != {}
      invariant todo <= exports.Keys
      invariant forall k :: k in requests <==>
                  k in exports && k !in todo && MapperKey(schema) in Index(exports[k].resources)
      decreases todo
    {
      var k :| k in todo;
      var names := IndexByBoundSchema(exports[k].resources);
      if MapperKey(schema) in names {
        requests := requests + {k};
      }
      todo := todo - {k};
    }
  }
}
