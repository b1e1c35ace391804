/**
 The store of running sync controllers (pkg/konnector/controllers/contextstore/contextstore.go). Each
 stored context stands for a started controller, which runs until its cancel function is called.
 */
module ContextStore {
  import opened Runs
  import opened Text

  /** Join with dots, each text preceded by one. */
  function Dotted(suffix: seq<string>): string {
    if suffix == [] then "" else "." + suffix[0] + Dotted(suffix[1..])
  }

  function NewKey(namespace: string, name: string, suffix: seq<string>): string {
    namespace + "." + name + Dotted(suffix)
  }

  /** `id` stands for the cancel function: each started controller has its own. */
  datatype SyncContext = SyncContext(key: string, generation: int, id: nat)

  /** `cancelled` records the calls of cancel functions, `overwritten` the contexts that left the
      store without one, `made` the number of contexts ever stored. */
  datatype State = State(store: map<string, SyncContext>, cancelled: seq<nat>, overwritten: set<nat>, made: nat)

  datatype Event = Set(key: string, generation: int) | Delete(key: string) | BulkDelete(prefix: string, deleted: seq<SyncContext>)

  ghost predicate Init(s: State) {
    s == State(map[], [], {}, 0)
  }

  /** The list holds the stored contexts whose key starts with the prefix, each once, in any order. */
  ghost predicate Lists(store: map<string, SyncContext>, prefix: string, list: seq<SyncContext>) {
    && (forall c :: c in list ==> c.key in store && store[c.key] == c && prefix <= c.key)
    && (forall i, j :: 0 <= i < j < |list| ==> list[i].key != list[j].key)
    && (forall k :: k in store && prefix <= k ==> store[k] in list)
  }

  ghost function Ids(list: seq<SyncContext>): seq<nat> {
    seq(|list|, i requires 0 <= i < |list| => list[i].id)
  }

  ghost function Outside(store: map<string, SyncContext>, prefix: string): map<string, SyncContext> {
    map k | k in store && !(prefix <= k) :: store[k]
  }

  ghost predicate Step(s: State, e: Event, t: State) {
    match e
    case Set(key, generation) =>
      t == State(s.store[key := SyncContext(key, generation, s.made)], s.cancelled,
                 s.overwritten + (if key in s.store then {s.store[key].id} else {}), s.made + 1)
    case Delete(key) =>
      t == if key in s.store then s.(store := s.store - {key}, cancelled := s.cancelled + [s.store[key].id]) else s
    case BulkDelete(prefix, deleted) =>
      && Lists(s.store, prefix, deleted)
      && t == s.(store := Outside(s.store, prefix), cancelled := s.cancelled + Ids(deleted))
  }

  // ---------------------------------------------------------------- conservation

  ghost predicate Kept(s: State, id: nat) {
    exists k :: k in s.store && s.store[k].id == id
  }

  function Calls(cancelled: seq<nat>, id: nat): nat {
    multiset(cancelled)[id]
  }

  /** Every context ever stored is still stored, or was cancelled exactly once, or was overwritten:
      exactly one of the three. */
  ghost predicate Conserved(s: State) {
    && (forall k :: k in s.store ==> s.store[k].key == k && s.store[k].id < s.made)
    && (forall k, l :: k in s.store && l in s.store && s.store[k].id == s.store[l].id ==> k == l)
    && (forall id :: id in s.overwritten ==> id < s.made && !Kept(s, id))
    && (forall id: nat ::
          Calls(s.cancelled, id) == if id < s.made && !Kept(s, id) && id !in s.overwritten then 1 else 0)
  }

  lemma SetConserves(s: State, key: string, generation: int, t: State)
    requires Conserved(s) && Step(s, Set(key, generation), t)
    ensures Conserved(t)
  {
    forall id: nat ensures Kept(t, id) <==> id == s.made || (Kept(s, id) && (key in s.store ==> id != s.store[key].id)) {
      if id == s.made {
        assert t.store[key].id == id;
      } else if Kept(s, id) {
        var k :| k in s.store && s.store[k].id == id;
        assert k != key ==> k in t.store && t.store[k].id == id;
      }
    }
  }

  lemma DeleteConserves(s: State, key: string, t: State)
    requires Conserved(s) && Step(s, Delete(key), t)
    ensures Conserved(t)
  {
    if key in s.store {
      var gone := s.store[key].id;
      assert Kept(s, gone);
      forall id: nat ensures Kept(t, id) <==> Kept(s, id) && id != gone {
        if Kept(s, id) {
          var k :| k in s.store && s.store[k].id == id;
          assert k != key ==> k in t.store && t.store[k].id == id;
        }
      }
      forall id: nat ensures Calls(t.cancelled, id) == Calls(s.cancelled, id) + if id == gone then 1 else 0 {}
    }
  }

  /** A list without repeated ids calls each of its contexts once and no other. */
  lemma {:induction false} ListedOnce(list: seq<SyncContext>, id: nat)
    requires forall i, j :: 0 <= i < j < |list| ==> list[i].id != list[j].id
    ensures Calls(Ids(list), id) == if exists c :: c in list && c.id == id then 1 else 0
  {
    if list != [] {
      var n := |list| - 1;
      var init := list[..n];
      ListedOnce(init, id);
      assert Ids(list) == Ids(init) + [list[n].id];
      assert list == init + [list[n]];
      if c :| c in list && c.id == id {
        assert c == list[n] || c in init;
      }
    }
  }

  lemma BulkDeleteConserves(s: State, prefix: string, deleted: seq<SyncContext>, t: State)
    requires Conserved(s) && Step(s, BulkDelete(prefix, deleted), t)
    ensures Conserved(t)
  {
    forall i, j | 0 <= i < j < |deleted| ensures deleted[i].id != deleted[j].id {
      assert deleted[i] in deleted && deleted[j] in deleted;
    }
    forall id: nat
      ensures var gone := exists c :: c in deleted && c.id == id;
              && (Kept(t, id) <==> Kept(s, id) && !gone) && (gone ==> Kept(s, id))
              && Calls(t.cancelled, id) == Calls(s.cancelled, id) + if gone then 1 else 0
    {
      ListedOnce(deleted, id);
      if Kept(s, id) {
        var k :| k in s.store && s.store[k].id == id;
        if prefix <= k {
          assert s.store[k] in deleted;
        } else {
          assert k in t.store && t.store[k].id == id;
        }
      }
    }
  }

  lemma EveryRunConserves(states: seq<State>, events: seq<Event>)
    requires IsRun(states, events, s => Init(s), (s, e, t) => Step(s, e, t))
    ensures forall i :: 0 <= i < |states| ==> Conserved(states[i])
  {
    forall s, e, t | Conserved(s) && Step(s, e, t) ensures Conserved(t) {
      match e
      case Set(key, generation) => SetConserves(s, key, generation, t);
      case Delete(key) => DeleteConserves(s, key, t);
      case BulkDelete(prefix, deleted) => BulkDeleteConserves(s, prefix, deleted, t);
    }
    Always(states, events, s => Init(s), (s, e, t) => Step(s, e, t), (s, e) => true, s => Conserved(s));
  }

  /** In every run, what is stored under a key is what the last set for it brought, generation included. */
  lemma {:induction false} StoredIsLastSet(states: seq<State>, events: seq<Event>, n: nat, key: string)
    requires IsRun(states, events, s => Init(s), (s, e, t) => Step(s, e, t)) && n < |states| && key in states[n].store
    ensures exists m :: 0 <= m < n && IsLastSet(events, m, n, key, states[n].store[key].generation)
  {
    if n > 0 {
      var s, e := states[n - 1], events[n - 1];
      assert Step(s, e, states[n]);
      if e.Set? && e.key == key {
        assert IsLastSet(events, n - 1, n, key, states[n].store[key].generation);
      } else {
        StoredIsLastSet(states, events, n - 1, key);
        var m :| 0 <= m < n - 1 && IsLastSet(events, m, n - 1, key, s.store[key].generation);
        assert IsLastSet(events, m, n, key, s.store[key].generation);
      }
    }
  }

  ghost predicate IsLastSet(events: seq<Event>, m: nat, n: nat, key: string, generation: int)
    requires m < n <= |events|
  {
    events[m] == Set(key, generation) && forall l :: m < l < n ==> !(events[l].Set? && events[l].key == key)
  }

  // ---------------------------------------------------------------- what a prefix covers

  /** The keys that a bulk delete for an export covers: those of its namespace whose remainder starts
      with its name. */
  lemma PrefixCoversIff(namespace: string, name: string, otherNamespace: string, other: string, suffix: seq<string>)
    requires '.' !in namespace && '.' !in otherNamespace
    ensures NewKey(namespace, name, []) <= NewKey(otherNamespace, other, suffix) <==>
            namespace == otherNamespace && name <= other + Dotted(suffix)
  {
    var rest := other + Dotted(suffix);
    var prefix, key := NewKey(namespace, name, []), NewKey(otherNamespace, other, suffix);
    assert prefix == namespace + ['.'] + name;
    assert key == otherNamespace + ['.'] + rest;
    if prefix <= key {
      var tail := key[|prefix|..];
      assert namespace + ['.'] + (name + tail) == key;
      SplitIsUnique(namespace, name + tail, otherNamespace, rest, '.');
      assert name <= name + tail;
    }
  }

  predicate AllDotFree(parts: seq<string>) {
    forall p :: p in parts ==> '.' !in p
  }

  lemma SuffixHasDot(a: string, s: seq<string>)
    requires s != []
    ensures '.' in a + Dotted(s)
  {
    assert (a + Dotted(s))[|a|] == '.';
  }

  lemma {:induction false} DottedIsUnique(a: string, s: seq<string>, b: string, t: seq<string>)
    requires '.' !in a && '.' !in b && AllDotFree(s) && AllDotFree(t) && a + Dotted(s) == b + Dotted(t)
    ensures a == b && s == t
    decreases |s|
  {
    assert a + "" == a && b + "" == b;
    if s != [] {
      SuffixHasDot(a, s);
    }
    if t != [] {
      SuffixHasDot(b, t);
    }
    if s != [] {
      assert a + Dotted(s) == a + ['.'] + (s[0] + Dotted(s[1..]));
      assert b + Dotted(t) == b + ['.'] + (t[0] + Dotted(t[1..]));
      SplitIsUnique(a, s[0] + Dotted(s[1..]), b, t[0] + Dotted(t[1..]), '.');
      DottedIsUnique(s[0], s[1..], t[0], t[1..]);
      assert s == [s[0]] + s[1..] && t == [t[0]] + t[1..];
    }
  }

  /** Keys made of parts without dots can be read back. */
  lemma KeysDifferWithoutDots(n: string, a: string, s: seq<string>, m: string, b: string, t: seq<string>)
    requires '.' !in n && '.' !in m && '.' !in a && '.' !in b && AllDotFree(s) && AllDotFree(t)
    ensures NewKey(n, a, s) == NewKey(m, b, t) <==> n == m && a == b && s == t
  {
    if NewKey(n, a, s) == NewKey(m, b, t) {
      assert NewKey(n, a, s) == n + ['.'] + (a + Dotted(s)) && NewKey(m, b, t) == m + ['.'] + (b + Dotted(t));
      SplitIsUnique(n, a + Dotted(s), m, b + Dotted(t), '.');
      DottedIsUnique(a, s, b, t);
    }
  }

  /** So an export's bulk delete also covers contexts of an export with a longer name. */
  lemma PrefixCoversLongerNames(namespace: string, name: string, more: string, suffix: seq<string>)
    requires '.' !in namespace
    ensures NewKey(namespace, name, []) <= NewKey(namespace, name + more, suffix)
  {
    PrefixCoversIff(namespace, name, namespace, name + more, suffix);
    assert name + more + Dotted(suffix) == name + (more + Dotted(suffix));
  }

  /** What that does: a run in which deleting the contexts of one export cancels that of another. */
  lemma BulkDeleteCanHitAnother(namespace: string, name: string, more: string, suffix: seq<string>, generation: int)
    returns (states: seq<State>, events: seq<Event>)
    requires '.' !in namespace
    ensures IsRun(states, events, s => Init(s), (s, e, t) => Step(s, e, t)) && |events| == 2
    ensures events[0] == Set(NewKey(namespace, name + more, suffix), generation)
    ensures events[1].BulkDelete? && events[1].prefix == NewKey(namespace, name, [])
    ensures states[2].cancelled == [0] && states[2].store == map[]
  {
    var key, prefix := NewKey(namespace, name + more, suffix), NewKey(namespace, name, []);
    PrefixCoversLongerNames(namespace, name, more, suffix);
    var ctx := SyncContext(key, generation, 0);
    var s0 := State(map[], [], {}, 0);
    var s1 := State(map[key := ctx], [], {}, 1);
    var s2 := State(map[], [0], {}, 1);
    assert Step(s0, Set(key, generation), s1);
    assert Step(s1, BulkDelete(prefix, [ctx]), s2) by {
      assert Outside(s1.store, prefix) == map[] && Ids([ctx]) == [0];
      assert ctx in [ctx];
    }
    states, events := [s0, s1, s2], [Set(key, generation), BulkDelete(prefix, [ctx])];
  }

  // ---------------------------------------------------------------- the store

  class Store {
    var store: map<string, SyncContext>
    var cancelled: seq<nat>
    ghost var overwritten: set<nat>
    var made: nat

    ghost function Model(): State
      reads this
    {
      State(store, cancelled, overwritten, made)
    }

    constructor ()
      ensures Init(Model())
    {
      store, cancelled, overwritten, made := map[], [], {}, 0;
    }

    /** The context of a controller started with its own cancel function. */
    method Set(key: string, generation: int)
      modifies this
      ensures Step(old(Model()), Event.Set(key, generation), Model())
    {
      overwritten := overwritten + if key in store then {store[key].id} else {};
      store := store[key := SyncContext(key, generation, made)];
      made := made + 1;
    }

    method Delete(key: string)
      modifies this
      ensures Step(old(Model()), Event.Delete(key), Model())
    {
      if key in store {
        cancelled := cancelled + [store[key].id];
        store := store - {key};
      }
    }

    method Get(key: string) returns (context: SyncContext, found: bool)
      requires Conserved(Model())
      ensures found <==> key in store
      ensures found ==> context == store[key] && context.key == key
    {
      if key in store {
        return store[key], true;
      }
      return SyncContext("", 0, 0), false;
    }

    method ListPrefixed(prefix: string) returns (results: seq<SyncContext>)
      requires Conserved(Model())
      ensures Lists(store, prefix, results)
    {
      results := [];
      var left := store.Keys;
      while left != {}
        invariant left <= store.Keys
        invariant forall c :: c in results ==> c.key in store && c.key !in left && store[c.key] == c && prefix <= c.key
        invariant forall i, j :: 0 <= i < j < |results| ==> results[i].key != results[j].key
        invariant forall k :: k in store && k !in left && prefix <= k ==> store[k] in results
      {
        var k :| k in left;
        left := left - {k};
        if prefix <= k {
          results := results + [store[k]];
        }
      }
    }

    method BulkDeletePrefixed(prefix: string) returns (deleted: seq<SyncContext>)
      requires Conserved(Model())
      modifies this
      ensures Step(old(Model()), Event.BulkDelete(prefix, deleted), Model())
    {
      deleted := ListPrefixed(prefix);
      var i := 0;
      while i < |deleted|
        invariant 0 <= i <= |deleted|
        invariant store == map k | k in old(store) && !(exists j :: 0 <= j < i && deleted[j].key == k) :: old(store)[k]
        invariant cancelled == old(cancelled) + Ids(deleted[..i])
        invariant overwritten == old(overwritten) && made == old(made)
      {
        assert deleted[i] in deleted;
        var k := deleted[i].key;
        assert Ids(deleted[..i + 1]) == Ids(deleted[..i]) + [deleted[i].id];
        cancelled := cancelled + [store[k].id];
        store := store - {k};
        i := i + 1;
      }
      assert deleted[..i] == deleted;
      forall k | k in old(store)
        ensures prefix <= k <==> exists j :: 0 <= j < i && deleted[j].key == k
      {
        if prefix <= k {
          assert old(store)[k] in deleted;
        }
      }
    }
  }
}
