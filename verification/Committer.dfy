/**
 Committing changes with merge patches under optimistic concurrency (pkg/committer/committer.go).
 The patch format is that of section 2 of RFC 7396.
 */
module Committer {
  import opened Api
  import opened Runs

  /** Arrays, numbers and booleans are replaced as a whole, like texts. */
  datatype Json = Null | Leaf(text: string) | Obj(fields: map<string, Json>)

  type Fields = map<string, Json>

  predicate NullFree(j: Json) {
    match j
    case Null => false
    case Leaf(_) => true
    case Obj(fields) => forall k :: k in fields ==> NullFree(fields[k])
  }

  // ---------------------------------------------------------------- merge patches

  /** MergePatch of RFC 7396; an absent target is given as None. */
  function Merge(target: Option<Json>, patch: Json): Json
    decreases patch
  {
    if !patch.Obj? then patch
    else
      var base := if target.Some? && target.value.Obj? then target.value.fields else map[];
      Obj(map k | k in base.Keys + patch.fields.Keys && !(k in patch.fields && patch.fields[k].Null?)
            :: if k in patch.fields then Merge(At(base, k), patch.fields[k]) else base[k])
  }

  function At(fields: Fields, k: string): Option<Json> {
    if k in fields then Some(fields[k]) else None
  }

  /** CreateMergePatch: what to send so that `a` becomes `b`. */
  function Diff(a: Fields, b: Fields): Fields
    decreases Obj(b)
  {
    map k | k in a.Keys + b.Keys
            && (k !in a || k !in b
                || if a[k].Obj? && b[k].Obj? then Diff(a[k].fields, b[k].fields) != map[] else a[k] != b[k])
      :: if k !in b then Null
         else if k in a && a[k].Obj? && b[k].Obj? then Obj(Diff(a[k].fields, b[k].fields))
         else b[k]
  }

  /** Patching nothing, or something that is no object, with null-free content yields the content. */
  lemma {:induction false} MergeIntoNothing(target: Option<Json>, patch: Json)
    requires NullFree(patch) && (target.Some? ==> !target.value.Obj?)
    ensures Merge(target, patch) == patch
    decreases patch
  {
    if patch.Obj? {
      forall k | k in patch.fields ensures Merge(None, patch.fields[k]) == patch.fields[k] {
        MergeIntoNothing(None, patch.fields[k]);
      }
      assert Merge(target, patch).fields == patch.fields;
    }
  }

  /** The round trip: the patch from `a` to `b` turns `a` into `b`, also when applied to an `a` that has
      further members, provided `b` gives each of them a plain value. */
  lemma {:induction false} PatchRoundTrip(a: Fields, extra: Fields, b: Fields)
    requires NullFree(Obj(b)) && a.Keys !! extra.Keys
    requires forall k :: k in extra ==> k in b && b[k].Leaf?
    ensures Merge(Some(Obj(a + extra)), Obj(Diff(a, b))) == Obj(b)
    decreases Obj(b)
  {
    var patch, base := Diff(a, b), a + extra;
    var merged := Merge(Some(Obj(base)), Obj(patch)).fields;
    forall k ensures (k in merged <==> k in b) && (k in b ==> merged[k] == b[k]) {
      MergedMember(a, extra, b, k);
    }
    assert merged == b;
  }

  lemma {:induction false} MergedMember(a: Fields, extra: Fields, b: Fields, k: string)
    requires NullFree(Obj(b)) && a.Keys !! extra.Keys
    requires forall x :: x in extra ==> x in b && b[x].Leaf?
    ensures var merged := Merge(Some(Obj(a + extra)), Obj(Diff(a, b))).fields;
            (k in merged <==> k in b) && (k in b ==> merged[k] == b[k])
    decreases Obj(b), 0
  {
    var patch, base := Diff(a, b), a + extra;
    if k in b {
      assert NullFree(b[k]);
      if k in a && a[k].Obj? && b[k].Obj? {
        PatchRoundTrip(a[k].fields, map[], b[k].fields);
        assert a[k].fields + map[] == a[k].fields;
        assert Diff(a[k].fields, b[k].fields) == map[] ==> Merge(Some(a[k]), Obj(map[])) == a[k] by {
          assert a[k].fields.Keys + {} == a[k].fields.Keys;
        }
      } else if k in patch {
        assert patch[k] == b[k];
        if b[k].Obj? {
          MergeIntoNothing(At(base, k), b[k]);
        }
      }
    }
  }

  /** The patch is empty exactly if there is nothing to change. */
  lemma {:induction false} DiffEmptyIff(a: Fields, b: Fields)
    ensures Diff(a, b) == map[] <==> a == b
    decreases Obj(b), 1
  {
    forall k ensures k in Diff(a, b) <==> At(a, k) != At(b, k) {
      DiffMemberIff(a, b, k);
    }
    if Diff(a, b) == map[] {
      forall k ensures (k in a <==> k in b) && (k in a ==> a[k] == b[k]) {
        assert At(a, k) == At(b, k);
      }
      assert a == b;
    }
  }

  /** And it mentions exactly the members that change. */
  lemma {:induction false} DiffMemberIff(a: Fields, b: Fields, k: string)
    ensures k in Diff(a, b) <==> At(a, k) != At(b, k)
    decreases Obj(b), 0
  {
    if k in a && k in b && a[k].Obj? && b[k].Obj? {
      DiffEmptyIff(a[k].fields, b[k].fields);
    }
  }

  // ---------------------------------------------------------------- one commit

  /** A resource; `meta` is its metadata without uid and resource version. */
  datatype Resource = Resource(uid: string, version: string, meta: Fields, spec: Json, status: Json)

  const METADATA := "metadata"
  const SPEC := "spec"
  const STATUS := "status"
  const UID := "uid"
  const VERSION := "resourceVersion"

  ghost predicate WellFormed(r: Resource) {
    && r.uid != "" && r.version != "" && UID !in r.meta && VERSION !in r.meta
    && NullFree(Obj(r.meta)) && NullFree(r.spec) && NullFree(r.status)
  }

  /** Empty identifiers are left out of the encoding. */
  function Identity(uid: string, version: string): Fields {
    (if uid != "" then map[UID := Leaf(uid)] else map[]) + (if version != "" then map[VERSION := Leaf(version)] else map[])
  }

  /** The half of the resource that goes into the patch, with the given identifiers. */
  function ForPatch(r: Resource, statusChanged: bool, uid: string, version: string): Fields {
    if statusChanged then map[METADATA := Obj(Identity(uid, version)), STATUS := r.status]
    else map[METADATA := Obj(r.meta + Identity(uid, version)), SPEC := r.spec]
  }

  datatype Commit = NoChange | Panic | Patch(body: Json, toStatus: bool)

  function CommitOf(was: Resource, obj: Resource): Commit {
    var specOrMetaChanged := was.(status := obj.status) != obj;
    var statusChanged := was.status != obj.status;
    if specOrMetaChanged && statusChanged then Panic
    else if !specOrMetaChanged && !statusChanged then NoChange
    else
      // the identifiers appear on the new side only, so that they end up in the patch
      Patch(Obj(Diff(ForPatch(was, statusChanged, "", ""), ForPatch(obj, statusChanged, was.uid, was.version))), statusChanged)
  }

  function Body(r: Resource): Fields {
    map[METADATA := Obj(r.meta + Identity(r.uid, r.version)), SPEC := r.spec, STATUS := r.status]
  }

  /** The API server: merges, refuses a changed identity, and takes over only the half that the
      endpoint serves. */
  function Serve(stored: Resource, patch: Json, toStatus: bool, version: string): Option<Resource> {
    Take(stored, Merge(Some(Obj(Body(stored))), patch), toStatus, version)
  }

  function Take(stored: Resource, merged: Json, toStatus: bool, version: string): Option<Resource> {
    if !merged.Obj? || !(METADATA in merged.fields && SPEC in merged.fields && STATUS in merged.fields) then None
    else
      var meta := merged.fields[METADATA];
      if !meta.Obj? || At(meta.fields, UID) != Some(Leaf(stored.uid)) || At(meta.fields, VERSION) != Some(Leaf(stored.version))
      then None
      else if toStatus then Some(stored.(status := merged.fields[STATUS], version := version))
      else Some(stored.(meta := meta.fields - {UID, VERSION}, spec := merged.fields[SPEC], version := version))
  }

  /** What an accepted commit leaves: the object as asked for, under its old uid and the new version. */
  function Committed(was: Resource, obj: Resource, version: string): Resource {
    obj.(uid := was.uid, version := version)
  }

  /** A member of the patched object, in terms of the three objects involved. */
  lemma PatchedMember(c: Fields, a: Fields, b: Fields, k: string)
    requires k in a && k in b && k in c && NullFree(b[k])
    ensures var merged := Merge(Some(Obj(c)), Obj(Diff(a, b))).fields;
            && k in merged
            && (a[k].Obj? && b[k].Obj? && Diff(a[k].fields, b[k].fields) != map[] ==>
                  merged[k] == Merge(Some(c[k]), Obj(Diff(a[k].fields, b[k].fields))))
            && (c[k] == a[k] ==> merged[k] == b[k])
  {
    if c[k] == a[k] && a[k].Obj? && b[k].Obj? {
      PatchRoundTrip(a[k].fields, map[], b[k].fields);
      assert a[k].fields + map[] == a[k].fields;
      if Diff(a[k].fields, b[k].fields) == map[] {
        assert Merge(Some(a[k]), Obj(map[])) == a[k];
      }
    } else if k in Diff(a, b) && !a[k].Obj? && b[k].Obj? && !c[k].Obj? {
      MergeIntoNothing(Some(c[k]), b[k]);
    }
  }

  lemma CurrentMember(c: Fields, a: Fields, b: Fields, k: string)
    requires k in a && k in b && k in c && NullFree(b[k])
    ensures var merged := Merge(Some(Obj(c)), Obj(Diff(a, b))).fields;
            k in merged && (c[k] == a[k] ==> merged[k] == b[k])
  {
    PatchedMember(c, a, b, k);
  }

  lemma UntouchedMember(c: Fields, a: Fields, b: Fields, k: string)
    requires k !in a && k !in b && k in c
    ensures var merged := Merge(Some(Obj(c)), Obj(Diff(a, b))).fields;
            k in merged && merged[k] == c[k]
  {}

  lemma LeafArrives(c: Fields, a: Fields, b: Fields, k: string)
    requires k !in a && k in b && b[k].Leaf?
    ensures k in Diff(a, b)
    ensures var merged := Merge(Some(Obj(c)), Obj(Diff(a, b))).fields;
            k in merged && merged[k] == b[k]
  {}

  lemma IdentityFacts(uid: string, version: string)
    requires uid != "" && version != ""
    ensures var id := Identity(uid, version);
            && id.Keys == {UID, VERSION} && id[UID] == Leaf(uid) && id[VERSION] == Leaf(version) && NullFree(Obj(id))
    ensures Identity("", "") == map[]
  {
    assert UID[0] != VERSION[0];
  }

  /** The metadata part of a patch, applied to any metadata: the identifiers of the object it was
      computed from arrive; applied to that object's own metadata, the new metadata does. */
  lemma PatchedMetadata(c: Fields, meta: Fields, obj: Fields, id: Fields)
    requires id.Keys == {UID, VERSION} && id[UID].Leaf? && id[VERSION].Leaf?
    requires UID !in meta && VERSION !in meta && UID !in obj && VERSION !in obj && NullFree(Obj(obj))
    ensures Diff(meta, obj + id) != map[]
    ensures var merged := Merge(Some(Obj(c)), Obj(Diff(meta, obj + id)));
            && merged.Obj? && At(merged.fields, UID) == Some(id[UID]) && At(merged.fields, VERSION) == Some(id[VERSION])
            && (c == meta + id ==> merged == Obj(obj + id))
  {
    LeafArrives(c, meta, obj + id, UID);
    LeafArrives(c, meta, obj + id, VERSION);
    if c == meta + id {
      PatchRoundTrip(meta, id, obj + id);
    }
  }

  lemma KeysDiffer()
    ensures METADATA != SPEC && METADATA != STATUS && SPEC != STATUS && UID != VERSION
  {
    assert |SPEC| != |STATUS| && |METADATA| != |SPEC| && |METADATA| != |STATUS| && |UID| != |VERSION|;
  }

  /** A patch of the metadata among other members, applied to a body: the identifiers of the object
      it was computed from arrive, and metadata that is still as it was becomes the new metadata. */
  lemma PatchedHead(c: Fields, a: Fields, b: Fields, md: string, meta: Fields, newMeta: Fields, id: Fields)
    requires md in c && c[md].Obj? && md in a && a[md] == Obj(meta) && md in b && b[md] == Obj(newMeta + id)
    requires id.Keys == {UID, VERSION} && id[UID].Leaf? && id[VERSION].Leaf?
    requires UID !in meta && VERSION !in meta && UID !in newMeta && VERSION !in newMeta && NullFree(Obj(newMeta))
    ensures var m := Merge(Some(Obj(c)), Obj(Diff(a, b))).fields;
            && md in m && m[md].Obj?
            && At(m[md].fields, UID) == Some(id[UID]) && At(m[md].fields, VERSION) == Some(id[VERSION])
            && (c[md] == Obj(meta + id) ==> m[md] == Obj(newMeta + id))
  {
    PatchedMetadata(c[md].fields, meta, newMeta, id);
    PatchedMember(c, a, b, md);
  }

  ghost predicate Carries(merged: Json, uid: string, version: string) {
    && merged.Obj? && METADATA in merged.fields && SPEC in merged.fields && STATUS in merged.fields
    && var meta := merged.fields[METADATA];
       meta.Obj? && At(meta.fields, UID) == Some(Leaf(uid)) && At(meta.fields, VERSION) == Some(Leaf(version))
  }

  /** What a patch of spec and metadata makes of the stored body. */
  lemma MergedSpecPatch(stored: Resource, was: Resource, obj: Resource)
    requires WellFormed(stored) && WellFormed(was) && WellFormed(obj)
    ensures var m := Merge(Some(Obj(Body(stored))), Obj(Diff(ForPatch(was, false, "", ""), ForPatch(obj, false, was.uid, was.version))));
            && Carries(m, was.uid, was.version)
            && (stored == was ==> m.fields[METADATA] == Obj(obj.meta + Identity(was.uid, was.version)) && m.fields[SPEC] == obj.spec)
  {
    KeysDiffer();
    var id := Identity(was.uid, was.version);
    IdentityFacts(was.uid, was.version);
    assert was.meta + map[] == was.meta;
    var a, b, c := ForPatch(was, false, "", ""), ForPatch(obj, false, was.uid, was.version), Body(stored);
    PatchedHead(c, a, b, METADATA, was.meta, obj.meta, id);
    CurrentMember(c, a, b, SPEC);
    UntouchedMember(c, a, b, STATUS);
  }

  /** What a patch of the status makes of the stored body. */
  lemma MergedStatusPatch(stored: Resource, was: Resource, obj: Resource)
    requires WellFormed(stored) && WellFormed(was) && WellFormed(obj)
    ensures var m := Merge(Some(Obj(Body(stored))), Obj(Diff(ForPatch(was, true, "", ""), ForPatch(obj, true, was.uid, was.version))));
            && Carries(m, was.uid, was.version)
            && (stored == was ==> m.fields[STATUS] == obj.status)
  {
    KeysDiffer();
    var id := Identity(was.uid, was.version);
    IdentityFacts(was.uid, was.version);
    assert map[] + id == id;
    var a, b, c := ForPatch(was, true, "", ""), ForPatch(obj, true, was.uid, was.version), Body(stored);
    PatchedHead(c, a, b, METADATA, map[], map[], id);
    CurrentMember(c, a, b, STATUS);
    UntouchedMember(c, a, b, SPEC);
  }

  /** The server takes a merged body exactly when it carries the stored identity. */
  lemma TakenIffSameIdentity(stored: Resource, merged: Json, toStatus: bool, version: string, uid: string, from: string)
    requires Carries(merged, uid, from)
    ensures Take(stored, merged, toStatus, version).Some? <==> stored.uid == uid && stored.version == from
  {}

  lemma MetadataIsRestored(meta: Fields, uid: string, version: string)
    requires uid != "" && version != "" && UID !in meta && VERSION !in meta
    ensures (meta + Identity(uid, version)) - {UID, VERSION} == meta
  {
    IdentityFacts(uid, version);
  }

  /** The server accepts a patch exactly when it was computed from the stored version, and then
      stores exactly the object that was asked for. */
  lemma AcceptedIffCurrent(stored: Resource, was: Resource, obj: Resource, version: string)
    requires WellFormed(stored) && WellFormed(was) && WellFormed(obj)
    requires CommitOf(was, obj).Patch?
    ensures var p := CommitOf(was, obj);
            && (Serve(stored, p.body, p.toStatus, version).Some? <==> stored.uid == was.uid && stored.version == was.version)
            && (stored == was ==> Serve(stored, p.body, p.toStatus, version) == Some(Committed(was, obj, version)))
  {
    var p := CommitOf(was, obj);
    if p.toStatus {
      MergedStatusPatch(stored, was, obj);
    } else {
      MergedSpecPatch(stored, was, obj);
      MetadataIsRestored(obj.meta, was.uid, was.version);
    }
    TakenIffSameIdentity(stored, Merge(Some(Obj(Body(stored))), p.body), p.toStatus, version, was.uid, was.version);
  }

  // ---------------------------------------------------------------- many committers on one object

  datatype Write =
    | Commit(was: Resource, obj: Resource, version: string)
    | Other(result: Resource) // a write by anybody else, also a deletion followed by a new creation

  /** All versions the object ever had, oldest first, and the write that led to each but the first. */
  datatype State = State(history: seq<Resource>, log: seq<Write>)

  ghost function Stored(s: State): Resource requires s.history != [] { s.history[|s.history| - 1] }

  ghost predicate Init(s: State) {
    |s.history| == 1 && WellFormed(s.history[0]) && s.log == []
  }

  /** The API server gives every write a version of its own. */
  ghost predicate FreshVersion(s: State, version: string) {
    version != "" && forall i :: 0 <= i < |s.history| ==> s.history[i].version != version
  }

  ghost predicate Extends(s: State, w: Write, result: Resource, t: State) {
    t == State(s.history + [result], s.log + [w])
  }

  /** A committer reads some version of the object, possibly a stale one, edits a copy and commits. */
  ghost predicate Step(s: State, w: Write, t: State) {
    && s.history != []
    && match w
       case Other(result) =>
         WellFormed(result) && FreshVersion(s, result.version) && Extends(s, w, result, t)
       case Commit(was, obj, version) =>
         && was in s.history && WellFormed(obj) && FreshVersion(s, version)
         && match CommitOf(was, obj) {
              case NoChange => t == s
              case Panic => t == s
              case Patch(body, toStatus) =>
                match Serve(Stored(s), body, toStatus, version)
                case None => t == s
                case Some(result) => Extends(s, w, result, t)
            }
  }

  /** The object's history is a serial one: each commit in the log was computed from exactly the
      version it replaced, and left exactly what its committer asked for. */
  ghost predicate Serial(s: State) {
    && |s.history| == |s.log| + 1
    && (forall i :: 0 <= i < |s.history| ==> WellFormed(s.history[i]))
    && (forall i, j :: 0 <= i < j < |s.history| ==> s.history[i].version != s.history[j].version)
    && (forall i :: 0 <= i < |s.log| ==> SerialAt(s.history[i], s.log[i], s.history[i + 1]))
  }

  ghost predicate SerialAt(before: Resource, w: Write, after: Resource) {
    match w
    case Other(result) => after == result
    case Commit(was, obj, version) => was == before && after == Committed(was, obj, version) && OneHalf(was, obj)
  }

  ghost predicate OneHalf(was: Resource, obj: Resource) {
    (was.status != obj.status) != (was.meta != obj.meta || was.spec != obj.spec || was.uid != obj.uid || was.version != obj.version)
  }

  /** A commit with something to send is accepted if and only if its committer had read the version
      that is now stored; in every other case nothing is written. */
  lemma AcceptedIffReadCurrent(s: State, w: Write, t: State)
    requires Serial(s) && Step(s, w, t) && w.Commit?
    ensures w.was == Stored(s) && OneHalf(w.was, w.obj) ==> Extends(s, w, Committed(w.was, w.obj, w.version), t)
    ensures !(w.was == Stored(s) && OneHalf(w.was, w.obj)) ==> t == s
  {
    var k :| 0 <= k < |s.history| && s.history[k] == w.was;
    if CommitOf(w.was, w.obj).Patch? {
      AcceptedIffCurrent(Stored(s), w.was, w.obj, w.version);
    }
  }

  lemma StepIsSerial(s: State, w: Write, t: State)
    requires Serial(s) && Step(s, w, t)
    ensures Serial(t)
  {
    if t != s {
      var result := Stored(t);
      if w.Commit? {
        AcceptedIffReadCurrent(s, w, t);
      }
      assert Extends(s, w, result, t) && SerialAt(Stored(s), w, result);
      forall i | 0 <= i < |t.log| ensures SerialAt(t.history[i], t.log[i], t.history[i + 1]) {
        if i < |s.log| {
          assert SerialAt(s.history[i], s.log[i], s.history[i + 1]);
        }
      }
    }
  }

  lemma EveryRunIsSerial(states: seq<State>, writes: seq<Write>)
    requires IsRun(states, writes, s => Init(s), (s, w, t) => Step(s, w, t))
    ensures forall i :: 0 <= i < |states| ==> Serial(states[i])
  {
    forall s, w, t | Serial(s) && Step(s, w, t) ensures Serial(t) {
      StepIsSerial(s, w, t);
    }
    Always(states, writes, s => Init(s), (s, w, t) => Step(s, w, t), (s, w) => true, s => Serial(s));
  }

  /** Applying the writes of a log one after the other. A committer's edit touches the half it
      changed, and leaves the other as it finds it. */
  function Replay(initial: Resource, log: seq<Write>): Resource {
    if log == [] then initial
    else
      var last := log[|log| - 1];
      var before := Replay(initial, log[..|log| - 1]);
      match last
      case Other(result) => result
      case Commit(was, obj, version) =>
        if was.status != obj.status then before.(status := obj.status, version := version)
        else before.(meta := obj.meta, spec := obj.spec, version := version)
  }

  /** The stored object is the serial application of the accepted writes. */
  lemma {:induction false} StoredIsReplay(s: State, n: nat)
    requires Serial(s) && n <= |s.log|
    ensures s.history[n] == Replay(s.history[0], s.log[..n])
  {
    if n > 0 {
      StoredIsReplay(s, n - 1);
      assert s.log[..n][..n - 1] == s.log[..n - 1];
      assert SerialAt(s.history[n - 1], s.log[n - 1], s.history[n]);
    }
  }

  ghost predicate ChangesOneHalf(before: Resource, after: Resource) {
    before.uid == after.uid && (before.status == after.status || (before.meta == after.meta && before.spec == after.spec))
  }

  /** In every run: the stored object is the serial application of the accepted writes, and no commit
      changes both halves. */
  lemma FinalObjectIsSerial(states: seq<State>, writes: seq<Write>, n: nat)
    requires IsRun(states, writes, s => Init(s), (s, w, t) => Step(s, w, t)) && n < |states|
    ensures var s := states[n];
            && |s.history| == |s.log| + 1
            && Stored(s) == Replay(s.history[0], s.log)
            && forall i :: 0 <= i < |s.log| && s.log[i].Commit? ==>
                 s.log[i].was == s.history[i] && ChangesOneHalf(s.history[i], s.history[i + 1])
  {
    EveryRunIsSerial(states, writes);
    var s := states[n];
    StoredIsReplay(s, |s.log|);
    assert s.log[..|s.log|] == s.log;
    forall i | 0 <= i < |s.log| && s.log[i].Commit?
      ensures s.log[i].was == s.history[i] && ChangesOneHalf(s.history[i], s.history[i + 1])
    {
      assert SerialAt(s.history[i], s.log[i], s.history[i + 1]);
    }
  }

  // ---------------------------------------------------------------- the committer against a server

  class Server {
    var stored: Resource

    method Patch(body: Json, toStatus: bool, version: string) returns (ok: bool)
      modifies this
      ensures ok == Serve(old(stored), body, toStatus, version).Some?
      ensures stored == if ok then Serve(old(stored), body, toStatus, version).value else old(stored)
    {
      var served := Serve(stored, body, toStatus, version);
      ok := served.Some?;
      if ok {
        stored := served.value;
      }
    }

    /** The function that NewCommitter returns. `version` is what the server would assign. */
    method Commit(was: Resource, obj: Resource, version: string) returns (outcome: Outcome)
      requires WellFormed(stored) && WellFormed(was) && WellFormed(obj)
      modifies this
      ensures outcome == Panicked <==> was.status != obj.status && was.(status := obj.status) != obj
      ensures outcome == Unchanged <==> was == obj
      ensures outcome == Accepted <==>
                OneHalf(was, obj) && old(stored).uid == was.uid && old(stored).version == was.version
      ensures outcome != Accepted ==> stored == old(stored)
      ensures outcome == Accepted && was == old(stored) ==> stored == Committed(was, obj, version)
    {
      var specOrMetaChanged := was.uid != obj.uid || was.version != obj.version || was.meta != obj.meta || was.spec != obj.spec;
      var statusChanged := was.status != obj.status;
      if specOrMetaChanged && statusChanged {
        return Panicked;
      }
      if !specOrMetaChanged && !statusChanged {
        return Unchanged;
      }
      var oldForPatch := ForPatch(was, statusChanged, "", "");
      var newForPatch := ForPatch(obj, statusChanged, was.uid, was.version);
      AcceptedIffCurrent(stored, was, obj, version);
      var ok := Patch(Obj(Diff(oldForPatch, newForPatch)), statusChanged, version);
      outcome := if ok then Accepted else Refused;
    }
  }

  datatype Outcome = Panicked | Unchanged | Accepted | Refused
}
