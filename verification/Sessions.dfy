/**
 The two session stores (backend/session/memory/memory.go, backend/session/redis/redis.go) and the
 check that reads them (isValidSession in backend/auth/middleware.go). Times are in seconds; the
 zero time is 0.
 */
module Sessions {
  import opened Api
  import opened Runs

  const PKCE_VERIFIER_TTL: nat := 600

  datatype Session = Session(id: string, expiresAt: nat)

  datatype Verifier = Verifier(text: string, expiresAt: nat)

  // ---------------------------------------------------------------- the memory store

  datatype Op = SaveOf(session: Session) | DeleteOf(id: string)

  /** The session last saved for the id, unless it was deleted since. */
  function LastKept(history: seq<Op>, id: string): Option<Session> {
    if history == [] then None
    else match history[|history| - 1]
         case SaveOf(s) => if s.id == id then Some(s) else LastKept(history[..|history| - 1], id)
         case DeleteOf(i) => if i == id then None else LastKept(history[..|history| - 1], id)
  }

  class MemoryStore {
    var sessions: map<string, Session>
    var verifiers: map<string, Verifier>
    ghost var history: seq<Op> // all saves and deletions so far

    ghost predicate Valid()
      reads this
    {
      forall id :: LastKept(history, id) == if id in sessions then Some(sessions[id]) else None
    }

    constructor ()
      ensures Valid() && sessions == map[] && verifiers == map[] && history == []
    {
      sessions, verifiers, history := map[], map[], [];
    }

    method Save(s: Session)
      requires Valid()
      modifies this`sessions, this`history
      ensures Valid() && history == old(history) + [SaveOf(s)]
      ensures sessions == MemorySave(old(sessions), s)
    {
      sessions := sessions[s.id := s];
      history := history + [SaveOf(s)];
      assert history[..|history| - 1] == old(history);
    }

    /** What was last saved for the id, and not deleted since, however long ago. */
    method Load(id: string) returns (r: Option<Session>)
      requires Valid()
      ensures r == LastKept(history, id)
    {
      if id !in sessions {
        return None;
      }
      return Some(sessions[id]);
    }

    /** From now on, until the next save, nothing is loaded for the id; other ids are as before. */
    method Delete(id: string)
      requires Valid()
      modifies this`sessions, this`history
      ensures Valid() && history == old(history) + [DeleteOf(id)]
      ensures forall x :: LastKept(history, x) == if x == id then None else LastKept(old(history), x)
    {
      sessions := sessions - {id};
      history := history + [DeleteOf(id)];
      assert history[..|history| - 1] == old(history);
    }

    method SavePKCEVerifier(id: string, text: string, now: nat) returns (ok: bool)
      modifies this`verifiers
      ensures ok <==> id != "" && text != ""
      ensures verifiers == if ok then old(verifiers)[id := Verifier(text, now + PKCE_VERIFIER_TTL)] else old(verifiers)
    {
      if id == "" || text == "" {
        return false;
      }
      verifiers := verifiers[id := Verifier(text, now + PKCE_VERIFIER_TTL)];
      return true;
    }

    /** Takes the verifier out of the store whether or not it is still good. */
    method LoadAndDeletePKCEVerifier(id: string, now: nat) returns (r: Option<string>)
      modifies this`verifiers
      ensures r == HandOut(old(verifiers), id, now)
      ensures verifiers == if id == "" then old(verifiers) else old(verifiers) - {id}
    {
      if id == "" {
        return None;
      }
      if id !in verifiers {
        assert verifiers - {id} == verifiers;
        return None;
      }
      var entry := verifiers[id];
      verifiers := verifiers - {id};
      if now > entry.expiresAt {
        return None;
      }
      return Some(entry.text);
    }

    method IsValidSession(id: string, now: nat) returns (valid: bool)
      requires Valid()
      ensures valid <==> MemoryValid(sessions, id, now)
      ensures valid <==> LastKept(history, id).Some? && now < LastKept(history, id).value.expiresAt
    {
      var s := Load(id);
      if s.None? {
        return false;
      }
      return now < s.value.expiresAt;
    }
  }

  function MemorySave(m: map<string, Session>, s: Session): map<string, Session> {
    m[s.id := s]
  }

  predicate MemoryValid(m: map<string, Session>, id: string, now: nat) {
    id in m && now < m[id].expiresAt
  }

  function HandOut(vs: map<string, Verifier>, id: string, now: nat): Option<string> {
    if id != "" && id in vs && now <= vs[id].expiresAt then Some(vs[id].text) else None
  }

  // ---------------------------------------------------------------- the Redis store

  /** A stored value and when the server evicts it, if ever. */
  datatype Slot = Slot(session: Session, deadline: Option<nat>)

  function RedisSave(r: map<string, Slot>, s: Session, now: nat): map<string, Slot> {
    if s.expiresAt == 0 then r[s.id := Slot(s, None)]
    else if s.expiresAt <= now then r // already expired: not written at all
    else r[s.id := Slot(s, Some(s.expiresAt))]
  }

  function RedisLoad(r: map<string, Slot>, id: string, now: nat): Option<Session> {
    if id in r && (r[id].deadline.None? || now < r[id].deadline.value) then Some(r[id].session) else None
  }

  predicate RedisValid(r: map<string, Slot>, id: string, now: nat) {
    var s := RedisLoad(r, id, now);
    s.Some? && now < s.value.expiresAt
  }

  function SessionKey(id: string): string {
    "session:" + id
  }

  function VerifierKey(id: string): string {
    "pkce:" + id
  }

  /** Sessions and verifiers share one keyspace without getting in each other's way. */
  lemma KeysAreSeparate(a: string, b: string)
    ensures SessionKey(a) == SessionKey(b) <==> a == b
    ensures VerifierKey(a) == VerifierKey(b) <==> a == b
    ensures SessionKey(a) != VerifierKey(b)
  {
    assert SessionKey(a)[8..] == a && SessionKey(b)[8..] == b;
    assert VerifierKey(a)[5..] == a && VerifierKey(b)[5..] == b;
    assert SessionKey(a)[0] == 's' && VerifierKey(b)[0] == 'p';
  }

  datatype Value = SessionValue(session: Session) | VerifierValue(text: string)

  datatype Cell = Cell(value: Value, deadline: Option<nat>)

  function SessionCell(s: Slot): Cell {
    Cell(SessionValue(s.session), s.deadline)
  }

  function VerifierCell(v: Verifier): Cell {
    Cell(VerifierValue(v.text), Some(v.expiresAt))
  }

  /** What the keyspace holds under a key is what `m` holds for the id. */
  ghost predicate HoldsAt<T>(cells: map<string, Cell>, key: string, m: map<string, T>, cell: T -> Cell, id: string) {
    (key in cells <==> id in m) && (id in m ==> cells[key] == cell(m[id]))
  }

  ghost predicate Holds(cells: map<string, Cell>, slots: map<string, Slot>, verifiers: map<string, Verifier>, id: string) {
    && HoldsAt(cells, SessionKey(id), slots, SessionCell, id)
    && HoldsAt(cells, VerifierKey(id), verifiers, VerifierCell, id)
  }

  /** Writing or removing a session changes nothing else in the keyspace. */
  lemma SessionIsOwn(cells: map<string, Cell>, slots: map<string, Slot>, verifiers: map<string, Verifier>, id: string, s: Slot, x: string)
    requires Holds(cells, slots, verifiers, x)
    ensures Holds(cells[SessionKey(id) := SessionCell(s)], slots[id := s], verifiers, x)
    ensures Holds(cells - {SessionKey(id)}, slots - {id}, verifiers, x)
  {
    KeysAreSeparate(id, x);
  }

  /** Nor does writing or removing a verifier. */
  lemma VerifierIsOwn(cells: map<string, Cell>, slots: map<string, Slot>, verifiers: map<string, Verifier>, id: string, v: Verifier, x: string)
    requires Holds(cells, slots, verifiers, x)
    ensures Holds(cells[VerifierKey(id) := VerifierCell(v)], slots, verifiers[id := v], x)
    ensures Holds(cells - {VerifierKey(id)}, slots, verifiers - {id}, x)
  {
    KeysAreSeparate(id, x);
    KeysAreSeparate(x, id);
  }

  class RedisStore {
    var cells: map<string, Cell>
    ghost var slots: map<string, Slot>         // the sessions among them
    ghost var verifiers: map<string, Verifier> // and the verifiers

    ghost predicate Valid()
      reads this
    {
      forall id :: Holds(cells, slots, verifiers, id)
    }

    constructor ()
      ensures Valid() && slots == map[] && verifiers == map[]
    {
      cells, slots, verifiers := map[], map[], map[];
    }

    method Save(s: Session, now: nat)
      requires Valid()
      modifies this
      ensures Valid() && slots == RedisSave(old(slots), s, now) && verifiers == old(verifiers)
    {
      var deadline := None;
      if s.expiresAt != 0 {
        if s.expiresAt <= now {
          return;
        }
        deadline := Some(s.expiresAt);
      }
      ghost var slot := Slot(s, deadline);
      cells := cells[SessionKey(s.id) := Cell(SessionValue(s), deadline)];
      slots := slots[s.id := slot];
      forall id ensures Holds(cells, slots, verifiers, id) {
        assert Holds(old(cells), old(slots), verifiers, id);
        SessionIsOwn(old(cells), old(slots), verifiers, s.id, slot, id);
      }
    }

    method Load(id: string, now: nat) returns (r: Option<Session>)
      requires Valid()
      ensures r == RedisLoad(slots, id, now)
    {
      assert Holds(cells, slots, verifiers, id);
      var key := SessionKey(id);
      if key in cells && (cells[key].deadline.None? || now < cells[key].deadline.value) {
        return Some(cells[key].value.session);
      }
      return None;
    }

    method Delete(id: string)
      requires Valid()
      modifies this
      ensures Valid() && slots == old(slots) - {id} && verifiers == old(verifiers)
    {
      cells := cells - {SessionKey(id)};
      slots := slots - {id};
      forall x ensures Holds(cells, slots, verifiers, x) {
        assert Holds(old(cells), old(slots), verifiers, x);
        SessionIsOwn(old(cells), old(slots), verifiers, id, Slot(Session(id, 0), None), x);
      }
    }

    method SavePKCEVerifier(id: string, text: string, now: nat) returns (ok: bool)
      requires Valid()
      modifies this
      ensures Valid() && slots == old(slots) && (ok <==> id != "" && text != "")
      ensures verifiers == if ok then old(verifiers)[id := Verifier(text, now + PKCE_VERIFIER_TTL)] else old(verifiers)
    {
      if id == "" || text == "" {
        return false;
      }
      ghost var v := Verifier(text, now + PKCE_VERIFIER_TTL);
      cells := cells[VerifierKey(id) := Cell(VerifierValue(text), Some(now + PKCE_VERIFIER_TTL))];
      verifiers := verifiers[id := v];
      forall x ensures Holds(cells, slots, verifiers, x) {
        assert Holds(old(cells), slots, old(verifiers), x);
        VerifierIsOwn(old(cells), slots, old(verifiers), id, v, x);
      }
      return true;
    }

    /** Both requests, with nothing in between. */
    method LoadAndDeletePKCEVerifier(id: string, now: nat) returns (r: Option<string>)
      requires Valid()
      modifies this
      ensures Valid() && slots == old(slots)
      ensures r.Some? <==> id != "" && id in old(verifiers) && now < old(verifiers)[id].expiresAt
      ensures r.Some? ==> r.value == old(verifiers)[id].text
      ensures verifiers == if r.Some? then old(verifiers) - {id} else old(verifiers)
    {
      assert Holds(cells, slots, verifiers, id);
      var key := VerifierKey(id);
      if id == "" || key !in cells || (cells[key].deadline.Some? && now >= cells[key].deadline.value) {
        return None;
      }
      r := Some(cells[key].value.text);
      cells := cells - {key};
      verifiers := verifiers - {id};
      forall x ensures Holds(cells, slots, verifiers, x) {
        assert Holds(old(cells), slots, old(verifiers), x);
        VerifierIsOwn(old(cells), slots, old(verifiers), id, Verifier("", 0), x);
      }
    }
  }

  // ---------------------------------------------------------------- same answers

  datatype State = State(memory: map<string, Session>, redis: map<string, Slot>, now: nat)

  datatype Event = Tick(to: nat) | Save(session: Session) | Delete(id: string)

  ghost predicate Step(s: State, e: Event, t: State) {
    match e
    case Tick(to) => s.now <= to && t == s.(now := to)
    case Save(session) => t == s.(memory := MemorySave(s.memory, session), redis := RedisSave(s.redis, session, s.now))
    case Delete(id) => t == s.(memory := s.memory - {id}, redis := s.redis - {id})
  }

  ghost predicate Init(s: State) {
    s.memory == map[] && s.redis == map[]
  }

  /** From now on both stores answer alike, for every session id. */
  ghost predicate Agree(s: State) {
    forall id: string, t: nat :: t >= s.now ==> (MemoryValid(s.memory, id, t) <==> RedisValid(s.redis, id, t))
  }

  /** A session that has already expired is saved over one that is still good. */
  predicate SavesExpiredOverValid(s: State, e: Event) {
    e.Save? && 0 < e.session.expiresAt <= s.now && MemoryValid(s.memory, e.session.id, s.now)
  }

  /** The stores keep agreeing exactly until such a save. */
  lemma AgreeUntilExpiredSave(s: State, e: Event, t: State)
    requires Agree(s) && Step(s, e, t)
    ensures Agree(t) <==> !SavesExpiredOverValid(s, e)
  {
    if SavesExpiredOverValid(s, e) {
      assert RedisValid(s.redis, e.session.id, s.now);
      assert RedisValid(t.redis, e.session.id, t.now) && !MemoryValid(t.memory, e.session.id, t.now);
    } else {
      forall id: string, u: nat | u >= t.now ensures MemoryValid(t.memory, id, u) <==> RedisValid(t.redis, id, u) {
        assert MemoryValid(s.memory, id, u) <==> RedisValid(s.redis, id, u);
        assert MemoryValid(s.memory, id, u) ==> MemoryValid(s.memory, id, s.now);
      }
    }
  }

  /** A session that is saved unexpired is valid in both stores until it expires, one that is
      deleted in neither, and the others as before. */
  lemma SaveAndDeleteOutcome(s: State, e: Event, t: State, id: string, later: nat)
    requires Step(s, e, t) && later >= s.now
    ensures e.Save? && e.session.id == id && s.now < e.session.expiresAt ==>
              && (MemoryValid(t.memory, id, later) <==> later < e.session.expiresAt)
              && (RedisValid(t.redis, id, later) <==> later < e.session.expiresAt)
    ensures e == Delete(id) ==> !MemoryValid(t.memory, id, later) && !RedisValid(t.redis, id, later)
    ensures !(e.Save? && e.session.id == id) && e != Delete(id) ==>
              && (MemoryValid(t.memory, id, later) <==> MemoryValid(s.memory, id, later))
              && (RedisValid(t.redis, id, later) <==> RedisValid(s.redis, id, later))
  {}

  /** In every run without such a save, isValidSession gives the same answer over either store. */
  lemma SameAnswersInEveryRun(states: seq<State>, events: seq<Event>, i: nat, id: string)
    requires IsRun(states, events, Init, Step) && i < |states|
    requires forall k {:trigger events[k]} :: 0 <= k < |events| ==> !SavesExpiredOverValid(states[k], events[k])
    ensures MemoryValid(states[i].memory, id, states[i].now) <==> RedisValid(states[i].redis, id, states[i].now)
  {
    var allowed := (s, e) => !SavesExpiredOverValid(s, e);
    forall s, e, t | Agree(s) && allowed(s, e) && Step(s, e, t) ensures Agree(t) {
      AgreeUntilExpiredSave(s, e, t);
    }
    Always(states, events, Init, Step, allowed, Agree);
    assert Agree(states[i]);
  }

  ghost predicate SavedUnexpired(s: State, e: Event) {
    e.Save? ==> s.now < e.session.expiresAt
  }

  /** In particular, in every run that saves only unexpired sessions. */
  lemma SameAnswersWhenSavedUnexpired(states: seq<State>, events: seq<Event>, i: nat, id: string)
    requires IsRun(states, events, Init, Step) && i < |states|
    requires forall k {:trigger events[k]} :: 0 <= k < |events| ==> SavedUnexpired(states[k], events[k])
    ensures MemoryValid(states[i].memory, id, states[i].now) <==> RedisValid(states[i].redis, id, states[i].now)
  {
    forall k | 0 <= k < |events| ensures !SavesExpiredOverValid(states[k], events[k]) {
      assert SavedUnexpired(states[k], events[k]);
    }
    SameAnswersInEveryRun(states, events, i, id);
  }

  /** The answers can differ: for any id, a session that expires later is replaced by one that already
      has. Memory then knows better than Redis. */
  lemma AnswersCanDiffer(id: string, expired: nat, now: nat, later: nat) returns (states: seq<State>, events: seq<Event>)
    requires 0 < expired <= now < later
    ensures IsRun(states, events, Init, Step)
    ensures var s := states[|events|]; s.now == now && RedisValid(s.redis, id, now) && !MemoryValid(s.memory, id, now)
  {
    var good, bad := Session(id, later), Session(id, expired);
    var s0 := State(map[], map[], 0);
    var s1 := s0.(memory := MemorySave(s0.memory, good), redis := RedisSave(s0.redis, good, 0));
    var s2 := s1.(now := now);
    var s3 := s2.(memory := MemorySave(s2.memory, bad), redis := RedisSave(s2.redis, bad, now));
    states, events := [s0, s1, s2, s3], [Save(good), Tick(now), Save(bad)];
  }
}
