/**
 The login protocol over the memory store: sections 4.1 to 4.6 of RFC 7636 as HandleAuthorize and
 HandleCallback carry them out (backend/auth/handler.go), and the check in front of protected
 handlers (backend/auth/middleware.go).

 Requests interleave between any two accesses to the store, and time passes in between. Every
 event of interest is appended to a log; a verifier is traced by the position of the authorize
 call that made it.
 */
module Login {
  import opened Api
  import opened Runs
  import opened Sessions

  datatype Record =
    | Authorized(id: string, text: string, at: nat)
    | Handed(id: string, text: string, origin: nat, at: nat) // `origin`: the position of the authorize call
    | Saved(id: string, expiresAt: nat)
    | Ran(check: Check, at: nat) // `at`: when the handler ran

  /** A passed check: the expiry of the stored session that it read, the one that the request carries,
      when it was, and the length of the log at that time. */
  datatype Check = Check(id: string, expiry: nat, carried: nat, at: nat, seen: nat)

  datatype Entry = Entry(text: string, expiresAt: nat, origin: nat)

  /** A callback that holds a verifier: exchanging the code, or about to save the session. */
  datatype Callback = Exchanging(id: string) | Saving(id: string, expiresAt: nat)

  datatype State = State(
    now: nat,
    sessions: map<string, Session>,
    verifiers: map<string, Entry>,
    callbacks: map<nat, Callback>,
    requests: map<nat, Check>,
    log: seq<Record>)

  /** `named`: the cookie or token of a protected request has a subject and an issuer; `carried`: the
      expiry in it. */
  datatype Event =
    | Tick(to: nat)
    | Authorize(id: string, text: string)
    | Callback(c: nat, id: string)
    | Exchange(c: nat, ok: bool, lifetime: nat)
    | Save(c: nat)
    | Verify(r: nat, id: string, named: bool, carried: nat)
    | Run(r: nat, authorized: bool)
    | Delete(id: string)

  ghost predicate Step(s: State, e: Event, t: State) {
    match e
    case Tick(to) => s.now <= to && t == s.(now := to)
    case Authorize(id, text) =>
      if id == "" || text == "" then t == s
      else t == s.(verifiers := s.verifiers[id := Entry(text, s.now + PKCE_VERIFIER_TTL, |s.log|)],
                   log := s.log + [Authorized(id, text, s.now)])
    case Callback(c, id) =>
      && c !in s.callbacks
      && if id == "" || id !in s.verifiers then t == s
         else
           var entry := s.verifiers[id];
           var taken := s.(verifiers := s.verifiers - {id});
           if s.now > entry.expiresAt || entry.text == "" then t == taken
           else t == taken.(callbacks := s.callbacks[c := Exchanging(id)],
                            log := s.log + [Handed(id, entry.text, entry.origin, s.now)])
    case Exchange(c, ok, lifetime) =>
      && c in s.callbacks && s.callbacks[c].Exchanging?
      && t == s.(callbacks := if ok then s.callbacks[c := Saving(s.callbacks[c].id, s.now + lifetime)]
                              else s.callbacks - {c})
    case Save(c) =>
      && c in s.callbacks && s.callbacks[c].Saving?
      && var cb := s.callbacks[c];
      t == s.(callbacks := s.callbacks - {c},
              sessions := MemorySave(s.sessions, Session(cb.id, cb.expiresAt)),
              log := s.log + [Saved(cb.id, cb.expiresAt)])
    case Verify(r, id, named, carried) =>
      && r !in s.requests
      && if id == "" || !named || carried == 0 || s.now > carried || !MemoryValid(s.sessions, id, s.now) then t == s
         else t == s.(requests := s.requests[r := Check(id, s.sessions[id].expiresAt, carried, s.now, |s.log|)])
    case Run(r, authorized) =>
      && r in s.requests
      && t == s.(requests := s.requests - {r},
                 log := if authorized then s.log + [Ran(s.requests[r], s.now)] else s.log)
    case Delete(id) => t == s.(sessions := s.sessions - {id})
  }

  ghost predicate Init(s: State) {
    && s.sessions == map[] && s.verifiers == map[] && s.callbacks == map[] && s.requests == map[]
    && s.log == []
  }

  /** The verifiers as the store holds them. */
  function Stored(vs: map<string, Entry>): map<string, Verifier> {
    map id | id in vs :: Verifier(vs[id].text, vs[id].expiresAt)
  }

  /** The two steps that touch verifiers do what the store's methods do. */
  lemma VerifierStepsUseTheStore(s: State, e: Event, t: State)
    requires Step(s, e, t)
    ensures e.Authorize? && e.id != "" && e.text != "" ==>
              Stored(t.verifiers) == Stored(s.verifiers)[e.id := Verifier(e.text, s.now + PKCE_VERIFIER_TTL)]
    ensures e.Callback? && e.id != "" ==> Stored(t.verifiers) == Stored(s.verifiers) - {e.id}
    ensures e.Callback? ==>
              var given := HandOut(Stored(s.verifiers), e.id, s.now);
              if given.Some? && given.value != "" then
                exists origin :: t.log == s.log + [Handed(e.id, given.value, origin, s.now)]
              else t.log == s.log
  {
    if e.Callback? && t.log != s.log {
      assert t.log == s.log + [Handed(e.id, s.verifiers[e.id].text, s.verifiers[e.id].origin, s.now)];
    }
  }

  // ---------------------------------------------------------------- verifiers

  /** The record at the entry's origin is the authorize call of `id` that saved it. */
  ghost predicate From(log: seq<Record>, id: string, e: Entry) {
    && e.origin < |log| && log[e.origin].Authorized?
    && log[e.origin].id == id && log[e.origin].text == e.text && log[e.origin].at + PKCE_VERIFIER_TTL == e.expiresAt
  }

  /** A hand-out went to the id that had authorized before, at most ten minutes earlier. */
  ghost predicate HandedInTime(log: seq<Record>, j: nat)
    requires j < |log| && log[j].Handed?
  {
    && log[j].origin < j && log[log[j].origin].Authorized? && log[log[j].origin].id == log[j].id
    && log[log[j].origin].text == log[j].text && log[j].at <= log[log[j].origin].at + PKCE_VERIFIER_TTL
  }

  ghost predicate HandedOnce(log: seq<Record>) {
    && (forall j :: 0 <= j < |log| && log[j].Handed? ==> HandedInTime(log, j))
    && (forall j, k :: 0 <= j < k < |log| && log[j].Handed? && log[k].Handed? ==> log[j].origin != log[k].origin)
  }

  ghost predicate VerifiersInv(s: State) {
    && HandedOnce(s.log)
    && (forall id :: id in s.verifiers ==>
          From(s.log, id, s.verifiers[id]))
    // a stored verifier has not been handed out
    && (forall id, j :: id in s.verifiers && 0 <= j < |s.log| && s.log[j].Handed? ==>
                          s.log[j].origin != s.verifiers[id].origin)
  }

  lemma AppendKeepsHandedOnce(log: seq<Record>, r: Record)
    requires HandedOnce(log)
    requires r.Handed? ==>
               && r.origin < |log| && log[r.origin].Authorized? && log[r.origin].id == r.id
               && log[r.origin].text == r.text && r.at <= log[r.origin].at + PKCE_VERIFIER_TTL
               && forall j :: 0 <= j < |log| && log[j].Handed? ==> log[j].origin != r.origin
    ensures HandedOnce(log + [r])
  {
    var log' := log + [r];
    forall j | 0 <= j < |log'| && log'[j].Handed? ensures HandedInTime(log', j) {
      if j < |log| {
        assert HandedInTime(log, j);
      }
    }
  }

  /** Verifiers that stay stay as they were, when no hand-out is logged. */
  lemma StoredVerifiersKeep(s: State, t: State)
    requires VerifiersInv(s)
    requires t.log == s.log || (|t.log| == |s.log| + 1 && t.log == s.log + [t.log[|s.log|]] && !t.log[|s.log|].Handed?)
    requires forall id :: id in t.verifiers ==> id in s.verifiers && t.verifiers[id] == s.verifiers[id]
    ensures VerifiersInv(t)
  {
    if t.log != s.log {
      AppendKeepsHandedOnce(s.log, t.log[|s.log|]);
    }
    forall id | id in t.verifiers
      ensures From(t.log, id, t.verifiers[id])
    {
      assert From(s.log, id, s.verifiers[id]);
    }
  }

  lemma AuthorizeKeepsVerifiers(s: State, t: State, id: string, text: string)
    requires VerifiersInv(s) && Step(s, Authorize(id, text), t)
    ensures VerifiersInv(t)
  {
    if t != s {
      AppendKeepsHandedOnce(s.log, Authorized(id, text, s.now));
      forall i | i in t.verifiers
        ensures From(t.log, i, t.verifiers[i])
      {
        if i != id {
          assert From(s.log, i, s.verifiers[i]);
        }
      }
      forall j | 0 <= j < |s.log| && s.log[j].Handed? ensures s.log[j].origin < |s.log| {
        assert HandedInTime(s.log, j);
      }
    }
  }

  lemma CallbackKeepsVerifiers(s: State, t: State, c: nat, id: string)
    requires VerifiersInv(s) && Step(s, Callback(c, id), t)
    ensures VerifiersInv(t)
  {
    if t.log == s.log {
      StoredVerifiersKeep(s, t);
    } else {
      var origin := s.verifiers[id].origin;
      assert From(s.log, id, s.verifiers[id]);
      AppendKeepsHandedOnce(s.log, Handed(id, s.verifiers[id].text, origin, s.now));
      forall i | i in t.verifiers
        ensures From(t.log, i, t.verifiers[i])
        ensures t.verifiers[i].origin != origin
      {
        assert From(s.log, i, s.verifiers[i]);
      }
    }
  }

  lemma StepKeepsVerifiers(s: State, e: Event, t: State)
    requires VerifiersInv(s) && Step(s, e, t)
    ensures VerifiersInv(t)
  {
    match e
    case Authorize(id, text) => AuthorizeKeepsVerifiers(s, t, id, text);
    case Callback(c, id) => CallbackKeepsVerifiers(s, t, c, id);
    case _ => StoredVerifiersKeep(s, t);
  }

  /** In every run a verifier is handed out at most once, to the id it was saved for, and never later
      than ten minutes after it was saved. */
  lemma VerifiersAreHandedOnce(states: seq<State>, events: seq<Event>, i: nat)
    requires IsRun(states, events, Init, Step) && i < |states|
    ensures HandedOnce(states[i].log)
  {
    forall s, e, t | VerifiersInv(s) && Step(s, e, t) ensures VerifiersInv(t) {
      StepKeepsVerifiers(s, e, t);
    }
    Always(states, events, Init, Step, (s, e) => true, VerifiersInv);
    assert VerifiersInv(states[i]);
  }

  /** The event neither saves nor takes a verifier of the id. */
  predicate LeavesVerifier(e: Event, id: string) {
    !(e.Authorize? && e.id == id) && !(e.Callback? && e.id == id)
  }

  lemma {:induction false} VerifierWaits(states: seq<State>, events: seq<Event>, i: nat, j: nat, id: string, text: string)
    requires IsRun(states, events, Init, Step) && i < j < |states|
    requires events[i] == Authorize(id, text) && id != "" && text != ""
    requires forall m {:trigger events[m]} :: i < m < j ==> LeavesVerifier(events[m], id)
    ensures id in states[j].verifiers && states[j].verifiers[id] == Entry(text, states[i].now + 600, |states[i].log|)
  {
    var e := events[j - 1];
    assert Step(states[j - 1], e, states[j]);
    if j > i + 1 {
      VerifierWaits(states, events, i, j - 1, id, text);
      assert LeavesVerifier(e, id);
    }
  }

  /** In every run, what the first callback after an authorize call of its id is handed: that call's
      verifier, exactly if no more than ten minutes have passed, and otherwise nothing. */
  lemma CallbackIsHandedIff(states: seq<State>, events: seq<Event>, i: nat, j: nat, c: nat, id: string, text: string)
    requires IsRun(states, events, Init, Step) && i < j < |events|
    requires events[i] == Authorize(id, text) && events[j] == Event.Callback(c, id) && id != "" && text != ""
    requires forall m {:trigger events[m]} :: i < m < j ==> LeavesVerifier(events[m], id)
    ensures states[j + 1].log == states[j].log
                                 + if states[j].now <= states[i].now + 600
                                   then [Handed(id, text, |states[i].log|, states[j].now)] else []
    ensures c in states[j + 1].callbacks <==> states[j].now <= states[i].now + 600
    ensures id !in states[j + 1].verifiers
  {
    VerifierWaits(states, events, i, j, id, text);
    var e := events[j];
    assert Step(states[j], e, states[j + 1]);
  }

  // ---------------------------------------------------------------- sessions

  /** The session that a callback is about to save expires a lifetime after its exchange. */
  ghost predicate Exchanged(states: seq<State>, events: seq<Event>, m: nat, id: string, expiresAt: nat)
    requires m < |events| < |states|
  {
    && events[m].Exchange? && events[m].ok && expiresAt == states[m].now + events[m].lifetime
    && events[m].c in states[m].callbacks && states[m].callbacks[events[m].c] == Exchanging(id)
  }

  lemma {:induction false} SavingWasExchanged(states: seq<State>, events: seq<Event>, n: nat, c: nat)
    requires IsRun(states, events, Init, Step) && n < |states| && c in states[n].callbacks && states[n].callbacks[c].Saving?
    ensures exists m :: 0 <= m < n && Exchanged(states, events, m, states[n].callbacks[c].id, states[n].callbacks[c].expiresAt)
  {
    if n > 0 {
      var s, e := states[n - 1], events[n - 1];
      assert Step(s, e, states[n]);
      if c in s.callbacks && s.callbacks[c] == states[n].callbacks[c] {
        SavingWasExchanged(states, events, n - 1, c);
      } else {
        assert Exchanged(states, events, n - 1, states[n].callbacks[c].id, states[n].callbacks[c].expiresAt);
      }
    }
  }

  /** In every run, a stored session was obtained in an exchange for its id, and expires the given lifetime
      after it. */
  lemma {:induction false} SessionsComeFromExchanges(states: seq<State>, events: seq<Event>, n: nat, id: string)
    requires IsRun(states, events, Init, Step) && n < |states| && id in states[n].sessions
    ensures states[n].sessions[id].id == id
    ensures exists m :: 0 <= m < n && Exchanged(states, events, m, id, states[n].sessions[id].expiresAt)
  {
    if n > 0 {
      var s, e := states[n - 1], events[n - 1];
      assert Step(s, e, states[n]);
      if e.Save? && s.callbacks[e.c].id == id {
        SavingWasExchanged(states, events, n - 1, e.c);
      } else {
        SessionsComeFromExchanges(states, events, n - 1, id);
      }
    }
  }

  /** An exchange that succeeds leads to a session, one that fails to none. */
  lemma ExchangeOutcome(s: State, c: nat, ok: bool, lifetime: nat, t: State)
    requires Step(s, Exchange(c, ok, lifetime), t)
    ensures c in t.callbacks <==> ok
    ensures ok ==> t.callbacks[c] == Saving(s.callbacks[c].id, s.now + lifetime)
    ensures t.sessions == s.sessions && t.verifiers == s.verifiers
  {}

  /** In every run, once the session of an id is deleted, no request for it passes until one is saved. */
  lemma {:induction false} DeletedNeverPasses(states: seq<State>, events: seq<Event>, i: nat, j: nat, id: string)
    requires IsRun(states, events, Init, Step) && i < j < |states| && events[i] == Event.Delete(id)
    requires forall m {:trigger events[m]} :: i < m < j && events[m].Save? ==>
               events[m].c in states[m].callbacks && states[m].callbacks[events[m].c].id != id
    ensures id !in states[j].sessions
  {
    var e := events[j - 1];
    assert Step(states[j - 1], e, states[j]);
    if j > i + 1 {
      DeletedNeverPasses(states, events, i, j - 1, id);
    }
  }

  /** A request passes the check exactly if it names a session, a subject and an issuer, its own expiry has
      not passed, and the stored session of that id expires later. */
  lemma VerifyPassesIff(s: State, r: nat, id: string, named: bool, carried: nat, t: State)
    requires Step(s, Verify(r, id, named, carried), t)
    ensures r in t.requests <==>
            && id != "" && named && carried != 0 && s.now <= carried
            && id in s.sessions && s.now < s.sessions[id].expiresAt
    ensures t.sessions == s.sessions && t.log == s.log && r !in s.requests
  {}

  /** A request that has passed runs exactly if it is also authorized, and once. */
  lemma RunsIffAuthorized(s: State, r: nat, authorized: bool, t: State)
    requires Step(s, Run(r, authorized), t)
    ensures r in s.requests && r !in t.requests
    ensures t.log == s.log + if authorized then [Ran(s.requests[r], s.now)] else []
  {}

  // ---------------------------------------------------------------- counting

  datatype Kind = Authorizes | HandOuts | Saves

  predicate Is(r: Record, kind: Kind, id: string) {
    match kind
    case Authorizes => r.Authorized? && r.id == id
    case HandOuts => r.Handed? && r.id == id
    case Saves => r.Saved? && r.id == id
  }

  function Tally(log: seq<Record>, kind: Kind, id: string): nat {
    if log == [] then 0
    else Tally(log[..|log| - 1], kind, id) + if Is(log[|log| - 1], kind, id) then 1 else 0
  }

  lemma TallyAppend(log: seq<Record>, r: Record, kind: Kind, id: string)
    ensures Tally(log + [r], kind, id) == Tally(log, kind, id) + if Is(r, kind, id) then 1 else 0
  {
    assert (log + [r])[..|log|] == log;
  }

  /** The callbacks of an id that hold a verifier. */
  ghost function Active(callbacks: map<nat, Callback>, id: string): set<nat> {
    set c | c in callbacks && callbacks[c].id == id
  }

  /** Every hand-out uses up an authorize call, every session a hand-out. */
  ghost predicate Balanced(s: State, id: string) {
    && Tally(s.log, HandOuts, id) + (if id in s.verifiers then 1 else 0) <= Tally(s.log, Authorizes, id)
    && Tally(s.log, Saves, id) + |Active(s.callbacks, id)| <= Tally(s.log, HandOuts, id)
  }

  lemma StartedCallback(m: map<nat, Callback>, c: nat, cb: Callback, id: string)
    requires c !in m
    ensures |Active(m[c := cb], id)| == |Active(m, id)| + if cb.id == id then 1 else 0
  {
    assert Active(m[c := cb], id) == Active(m, id) + if cb.id == id then {c} else {};
  }

  lemma ContinuedCallback(m: map<nat, Callback>, c: nat, cb: Callback, id: string)
    requires c in m && m[c].id == cb.id
    ensures Active(m[c := cb], id) == Active(m, id)
  {}

  lemma EndedCallback(m: map<nat, Callback>, c: nat, id: string)
    requires c in m
    ensures |Active(m - {c}, id)| == |Active(m, id)| - if m[c].id == id then 1 else 0
  {
    assert Active(m - {c}, id) == Active(m, id) - {c};
  }

  lemma ActiveAfter(s: State, e: Event, t: State, id: string)
    requires Step(s, e, t)
    ensures |Active(t.callbacks, id)|
         <= |Active(s.callbacks, id)| + if e.Callback? && e.id == id && t.log != s.log then 1 else 0
    ensures e.Save? && s.callbacks[e.c].id == id ==> |Active(t.callbacks, id)| < |Active(s.callbacks, id)|
  {
    match e
    case Callback(c, i) =>
      if t.callbacks != s.callbacks {
        StartedCallback(s.callbacks, c, Exchanging(i), id);
      }
    case Exchange(c, ok, lifetime) =>
      if ok {
        ContinuedCallback(s.callbacks, c, t.callbacks[c], id);
      } else {
        EndedCallback(s.callbacks, c, id);
      }
    case Save(c) => EndedCallback(s.callbacks, c, id);
    case _ =>
  }

  lemma TalliesAfter(s: State, e: Event, t: State, id: string)
    requires Step(s, e, t)
    ensures Tally(t.log, Authorizes, id)
         == Tally(s.log, Authorizes, id) + if e.Authorize? && e.id == id && t.log != s.log then 1 else 0
    ensures Tally(t.log, HandOuts, id)
         == Tally(s.log, HandOuts, id) + if e.Callback? && e.id == id && t.log != s.log then 1 else 0
    ensures Tally(t.log, Saves, id)
         == Tally(s.log, Saves, id) + if e.Save? && s.callbacks[e.c].id == id then 1 else 0
  {
    if t.log != s.log {
      var r := t.log[|s.log|];
      assert t.log == s.log + [r];
      TallyAppend(s.log, r, HandOuts, id);
      TallyAppend(s.log, r, Authorizes, id);
      TallyAppend(s.log, r, Saves, id);
    }
  }

  lemma StepKeepsBalanced(s: State, e: Event, t: State, id: string)
    requires Balanced(s, id) && Step(s, e, t)
    ensures Balanced(t, id)
  {
    TalliesAfter(s, e, t, id);
    ActiveAfter(s, e, t, id);
  }

  /** In every run, the sessions saved for an id never outnumber its authorize calls. */
  lemma SessionsNeverOutnumberAuthorizes(states: seq<State>, events: seq<Event>, i: nat, id: string)
    requires IsRun(states, events, Init, Step) && i < |states|
    ensures Tally(states[i].log, Saves, id) <= Tally(states[i].log, Authorizes, id)
  {
    var inv := s => Balanced(s, id);
    forall s, e, t | inv(s) && Step(s, e, t) ensures inv(t) {
      StepKeepsBalanced(s, e, t, id);
    }
    forall s | Init(s) ensures inv(s) {
      assert Active(s.callbacks, id) == {};
    }
    Always(states, events, Init, Step, (s, e) => true, inv);
    assert inv(states[i]);
  }

  // ---------------------------------------------------------------- protected handlers

  /** The expiry of the session last saved for the id. */
  function LastSaved(log: seq<Record>, id: string): Option<nat> {
    if log == [] then None
    else if Is(log[|log| - 1], Saves, id) then Some(log[|log| - 1].expiresAt)
    else LastSaved(log[..|log| - 1], id)
  }

  /** The check read the expiry of the session that was then the last saved for its id, in time. */
  ghost predicate ReadLatest(log: seq<Record>, check: Check) {
    && check.seen <= |log| && LastSaved(log[..check.seen], check.id) == Some(check.expiry)
    && check.at < check.expiry && check.at <= check.carried
  }

  ghost predicate SessionsAreLast(s: State) {
    forall id :: id in s.sessions ==> LastSaved(s.log, id) == Some(s.sessions[id].expiresAt)
  }

  ghost predicate RunsInv(s: State) {
    && SessionsAreLast(s)
    && (forall r :: r in s.requests ==> ReadLatest(s.log, s.requests[r]) && s.requests[r].at <= s.now)
    && (forall j :: 0 <= j < |s.log| && s.log[j].Ran? ==> RanOK(s.log, j))
  }

  ghost predicate RanOK(log: seq<Record>, j: nat)
    requires j < |log| && log[j].Ran?
  {
    log[j].check.seen <= j && ReadLatest(log, log[j].check) && log[j].check.at <= log[j].at
  }

  lemma ReadLatestGrows(log: seq<Record>, log': seq<Record>, check: Check)
    requires ReadLatest(log, check) && log <= log'
    ensures ReadLatest(log', check)
  {
    assert log'[..check.seen] == log[..check.seen];
  }

  lemma StepKeepsLastSaved(s: State, e: Event, t: State)
    requires SessionsAreLast(s) && Step(s, e, t)
    ensures SessionsAreLast(t)
  {
    assert t.log != s.log ==> t.log[..|t.log| - 1] == s.log;
  }

  /** What a step adds: at most one record, a run only of a checked request and at the current time,
      and a checked request only with what the store holds. */
  lemma LogGrows(s: State, e: Event, t: State)
    requires Step(s, e, t)
    ensures s.log <= t.log && |t.log| <= |s.log| + 1 && s.now <= t.now
    ensures forall r :: r in t.requests && r !in s.requests ==>
              var check := t.requests[r];
              && t.log == s.log && check.seen == |s.log| && check.at == s.now
              && check.id in s.sessions && s.sessions[check.id].expiresAt == check.expiry && s.now < check.expiry
              && s.now <= check.carried
    ensures forall r :: r in t.requests && r in s.requests ==> t.requests[r] == s.requests[r]
    ensures |t.log| == |s.log| + 1 && t.log[|s.log|].Ran? ==>
              exists r :: r in s.requests && t.log[|s.log|] == Ran(s.requests[r], s.now)
  {
    if |t.log| == |s.log| + 1 && t.log[|s.log|].Ran? {
      assert e.r in s.requests;
    }
  }

  lemma StepKeepsRan(s: State, e: Event, t: State, j: nat)
    requires RunsInv(s) && Step(s, e, t) && j < |t.log| && t.log[j].Ran?
    ensures RanOK(t.log, j)
  {
    LogGrows(s, e, t);
    if j < |s.log| {
      assert RanOK(s.log, j);
      ReadLatestGrows(s.log, t.log, s.log[j].check);
    } else {
      var r :| r in s.requests && t.log[|s.log|] == Ran(s.requests[r], s.now);
      ReadLatestGrows(s.log, t.log, s.requests[r]);
    }
  }

  lemma StepKeepsRuns(s: State, e: Event, t: State)
    requires RunsInv(s) && Step(s, e, t)
    ensures RunsInv(t)
  {
    StepKeepsLastSaved(s, e, t);
    LogGrows(s, e, t);
    forall r | r in t.requests ensures ReadLatest(t.log, t.requests[r]) && t.requests[r].at <= t.now {
      if r in s.requests {
        ReadLatestGrows(s.log, t.log, s.requests[r]);
      } else {
        assert t.log[..|s.log|] == s.log;
      }
    }
    forall j | 0 <= j < |t.log| && t.log[j].Ran? ensures RanOK(t.log, j) {
      StepKeepsRan(s, e, t, j);
    }
  }

  lemma EveryRunKeeps(states: seq<State>, events: seq<Event>, i: nat)
    requires IsRun(states, events, Init, Step) && i < |states|
    ensures RunsInv(states[i])
  {
    forall s, e, t | RunsInv(s) && Step(s, e, t) ensures RunsInv(t) {
      StepKeepsRuns(s, e, t);
    }
    Always(states, events, Init, Step, (s, e) => true, RunsInv);
  }

  /** The last session saved in a log that continues another. */
  lemma {:induction false} LastSavedOfConcat(log: seq<Record>, more: seq<Record>, id: string)
    ensures LastSaved(log + more, id) == if LastSaved(more, id).Some? then LastSaved(more, id) else LastSaved(log, id)
  {
    if more == [] {
      assert log + more == log;
    } else {
      var init, last := more[..|more| - 1], more[|more| - 1];
      assert (log + more)[..|log + more| - 1] == log + init;
      LastSavedOfConcat(log, init, id);
    }
  }

  /** When the handler at position `j` ran, the session last saved for its id had not expired. */
  ghost predicate RanInTime(log: seq<Record>, j: nat)
    requires j < |log| && log[j].Ran?
  {
    var latest := LastSaved(log[..j], log[j].check.id);
    latest.Some? && log[j].at < latest.value
  }

  /** The sessions saved for the id of a run between its check and the handler. */
  ghost function SavedSince(log: seq<Record>, j: nat): Option<nat>
    requires j < |log| && log[j].Ran? && log[j].check.seen <= j
  {
    LastSaved(log[log[j].check.seen..j], log[j].check.id)
  }

  /** In every run, a protected handler runs only for a request whose check read, before its expiry,
      the session then last saved for the id. Whether the handler itself still runs within the life
      of the last saved session is decided by time alone: it does exactly if it runs before the
      expiry that the check read, or, if a session was saved in between, before the last one's. */
  lemma HandlersRunOnlyOnValidSessions(states: seq<State>, events: seq<Event>, i: nat, j: nat)
    requires IsRun(states, events, Init, Step) && i < |states| && j < |states[i].log| && states[i].log[j].Ran?
    ensures var log := states[i].log; var check := log[j].check;
            && check.seen <= j && ReadLatest(log, check) && check.at <= log[j].at
            && (RanInTime(log, j) <==>
                log[j].at < if SavedSince(log, j).Some? then SavedSince(log, j).value else check.expiry)
  {
    EveryRunKeeps(states, events, i);
    var log := states[i].log;
    assert RanOK(log, j);
    var seen := log[j].check.seen;
    assert log[..j] == log[..seen] + log[seen..j];
    LastSavedOfConcat(log[..seen], log[seen..j], log[j].check.id);
  }

  /** In particular a handler that runs at the time of its check, with no session saved in between,
      runs in time. */
  lemma ImmediateHandlersRunInTime(states: seq<State>, events: seq<Event>, i: nat, j: nat)
    requires IsRun(states, events, Init, Step) && i < |states| && j < |states[i].log| && states[i].log[j].Ran?
    requires states[i].log[j].at == states[i].log[j].check.at
    requires forall k :: states[i].log[j].check.seen <= k < j ==> !Is(states[i].log[k], Saves, states[i].log[j].check.id)
    ensures RanInTime(states[i].log, j)
  {
    HandlersRunOnlyOnValidSessions(states, events, i, j);
    NothingSaved(states[i].log[states[i].log[j].check.seen..j], states[i].log[j].check.id);
  }

  lemma {:induction false} NothingSaved(log: seq<Record>, id: string)
    requires forall k :: 0 <= k < |log| ==> !Is(log[k], Saves, id)
    ensures LastSaved(log, id) == None
  {
    if log != [] {
      NothingSaved(log[..|log| - 1], id);
    }
  }

  /** Just logged in, at time 0. */
  ghost predicate LoggedIn(s: State, id: string, text: string, lifetime: nat) {
    s == State.State(0, map[id := Session(id, lifetime)], map[], map[], map[],
                     [Authorized(id, text, 0), Handed(id, text, 0, 0), Saved(id, lifetime)])
  }

  lemma ReachLoggedIn(id: string, text: string, lifetime: nat) returns (states: seq<State>, events: seq<Event>)
    requires id != "" && text != ""
    ensures IsRun(states, events, Init, Step) && |events| == 4 && LoggedIn(states[4], id, text, lifetime)
  {
    var s0 := State.State(0, map[], map[], map[], map[], []);
    var s1 := s0.(verifiers := map[id := Entry(text, PKCE_VERIFIER_TTL, 0)], log := [Authorized(id, text, 0)]);
    var s2 := s1.(verifiers := map[], callbacks := map[0 := Exchanging(id)], log := s1.log + [Handed(id, text, 0, 0)]);
    var s3 := s2.(callbacks := map[0 := Saving(id, lifetime)]);
    var s4 := s3.(callbacks := map[], sessions := map[id := Session(id, lifetime)], log := s3.log + [Saved(id, lifetime)]);
    assert Step(s1, Event.Callback(0, id), s2) by {
      assert s1.verifiers - {id} == map[];
    }
    assert Step(s3, Event.Save(0), s4) by {
      assert s3.callbacks - {0} == map[];
    }
    states := [s0, s1, s2, s3, s4];
    events := [Authorize(id, text), Event.Callback(0, id), Exchange(0, true, lifetime), Event.Save(0)];
  }

  /** A handler can run late: nothing looks at the clock between the check and the handler. For any
      lifetime of the session and any later moment there is such a run. */
  lemma HandlerCanRunLate(id: string, text: string, lifetime: nat, late: nat)
    returns (states: seq<State>, events: seq<Event>)
    requires id != "" && text != "" && 0 < lifetime <= late
    ensures IsRun(states, events, Init, Step)
    ensures var log := states[|events|].log; var j := |log| - 1;
            j >= 0 && log[j].Ran? && log[j].at == late && LastSaved(log[..j], id) == Some(lifetime) && !RanInTime(log, j)
  {
    states, events := ReachLoggedIn(id, text, lifetime);
    var s4 := states[4];
    var check := Check(id, lifetime, lifetime, 0, 3);
    var s5 := s4.(requests := map[0 := check]);
    var s6 := s5.(now := late);
    var s7 := s6.(requests := map[], log := s6.log + [Ran(check, late)]);
    assert Step(s6, Run(0, true), s7) by {
      assert s6.requests - {0} == map[];
    }
    states, events := states + [s5, s6, s7], events + [Verify(0, id, true, lifetime), Event.Tick(late), Run(0, true)];
    assert s7.log[..3] == s4.log;
  }
}
