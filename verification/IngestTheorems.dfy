/** Invariants of every run of the assurance routes, and the theorems about whole runs. */
module IngestTheorems {
  import opened Sequences
  import opened Unicode
  import opened Digests
  import opened Json
  import opened Receipts
  import opened MetadataKeys
  import opened Ingest
  import opened IngestSafety

  /** The events of one request, in order. */
  function EventsOf(log: seq<LogEntry>, i: nat): seq<Event> {
    if log == [] then []
    else
      var last := log[|log| - 1];
      EventsOf(log[..|log| - 1], i) + (if last.source == i then [last.event] else [])
  }

  lemma {:induction false} EventsOfConcat(a: seq<LogEntry>, b: seq<LogEntry>, i: nat)
    ensures EventsOf(a + b, i) == EventsOf(a, i) + EventsOf(b, i)
  {
    if b == [] {
      assert a + b == a;
    } else {
      assert (a + b)[..|a + b| - 1] == a + b[..|b| - 1];
      EventsOfConcat(a, b[..|b| - 1], i);
    }
  }

  lemma EventsOfEntry(e: LogEntry, i: nat)
    ensures EventsOf([e], i) == if e.source == i then [e.event] else []
  {
    assert [e][..0] == [];
  }

  lemma {:induction false} EventsOfStamp(i: nat, events: seq<Event>, j: nat)
    ensures EventsOf(Stamp(i, events), j) == if i == j then events else []
    ensures forall k :: 0 <= k < |Stamp(i, events)| ==> Stamp(i, events)[k].source == i
  {
    if events != [] {
      hide EventsOf;
      var first, rest := LogEntry(i, events[0]), Stamp(i, events[1..]);
      EventsOfStamp(i, events[1..], j);
      EventsOfEntry(first, j);
      EventsOfConcat([first], rest, j);
      assert Stamp(i, events) == [first] + rest && events == [events[0]] + events[1..];
    } else {
      assert Stamp(i, events) == [];
    }
  }

  ghost predicate InsertedBySome(w: World, h: Digest) {
    exists i :: 0 <= i < |w.requests| && w.requests[i].inserted && ByRunToken(w.requests[i]) && w.requests[i].given.hash == h
  }

  /** Every request keeps its invariant, its route, and the record of what it did. */
  ghost predicate RequestsInv(s: Setting, w0: World, w: World) {
    && |w.requests| == |w0.requests|
    && (forall i :: 0 <= i < |w.requests| ==>
      && w.requests[i].route == w0.requests[i].route
      && RequestInv(s, w.store, w.requests[i])
      && EventsOf(w.log, i) == Performed(s, w.requests[i]))
    && (forall k :: 0 <= k < |w.log| ==> w.log[k].source < |w.requests|)
  }

  /** Every claim was there from the start or is the work of exactly one request. */
  ghost predicate ClaimsInv(w0: World, w: World) {
    && ClaimsKept(w0.store, w.store)
    && (forall h: Digest :: ClaimKey(h) in w.store ==> ClaimKey(h) in w0.store || InsertedBySome(w, h))
    && (forall i :: 0 <= i < |w.requests| && w.requests[i].inserted ==> ClaimKey(w.requests[i].given.hash) !in w0.store)
    && (forall i, j :: 0 <= i < |w.requests| && 0 <= j < |w.requests| && SameClaim(w.requests[i], w.requests[j]) ==> i == j)
  }

  predicate SameClaim(q: Request, r: Request) {
    q.inserted && r.inserted && q.given.hash == r.given.hash
  }

  ghost predicate Inv(s: Setting, w0: World, w: World) {
    RequestsInv(s, w0, w) && ClaimsInv(w0, w)
  }

  lemma InitialInv(s: Setting, w: World)
    requires Initial(s, w)
    ensures Inv(s, w, w)
  {
    hide RequestInv, Performed;
    forall i | 0 <= i < |w.requests| ensures RequestInv(s, w.store, w.requests[i]) && Performed(s, w.requests[i]) == [] {
      ArrivingInv(s, w.store, w.requests[i].route);
    }
  }

  lemma AdvanceKeepsRequests(s: Setting, w0: World, w: World, i: nat, o: Oracle)
    requires ClaimsApart(s) && RequestsInv(s, w0, w) && Allowed(s, w, Advance(i, o))
    ensures RequestsInv(s, w0, Apply(s, w, Advance(i, o)))
  {
    hide RequestInv, Performed, Step;
    var r := w.requests[i];
    var out := Step(s, w.store, r, o);
    var w' := Apply(s, w, Advance(i, o));
    StepKeeps(s, w.store, r, o);
    forall j | 0 <= j < |w'.requests|
      ensures RequestInv(s, w'.store, w'.requests[j])
      ensures EventsOf(w'.log, j) == Performed(s, w'.requests[j])
    {
      EventsOfConcat(w.log, Stamp(i, out.events), j);
      EventsOfStamp(i, out.events, j);
      if j != i {
        OthersUndisturbed(s, w.store, out.store, w.requests[j]);
      }
    }
    EventsOfStamp(i, out.events, i);
  }

  lemma ClaimOfInserted(s: Setting, store: Store, r: Request)
    requires RequestInv(s, store, r) && r.inserted
    ensures ByRunToken(r) && ClaimKey(r.given.hash) in store && store[ClaimKey(r.given.hash)] == OwnClaim(r)
  {
    assert OwnClaimStored(store, r);
  }

  /** What one step means for the claims. */
  lemma StepClaims(s: Setting, w: World, i: nat, o: Oracle)
    requires ClaimsApart(s) && Allowed(s, w, Advance(i, o)) && RequestInv(s, w.store, w.requests[i])
    ensures var r, w' := w.requests[i], Apply(s, w, Advance(i, o)); var r' := w'.requests[i];
      && w'.requests == w.requests[i := r'] && r'.route == r.route && r'.given == r.given
      && ClaimsKept(w.store, w'.store) && NewClaimsOwned(s, w.store, w'.store, r, r')
      && (r.inserted ==> r'.inserted)
      && (r'.inserted && !r.inserted ==> ByRunToken(r) && ClaimKey(r.given.hash) !in w.store)
  {
    hide Performed, Step, RequestInv;
    StepKeeps(s, w.store, w.requests[i], o);
  }

  /** A step that keeps the claims and owns its new one keeps it true that every claim has one owner. */
  lemma OwnersKept(s: Setting, w0: World, w: World, w': World, i: nat)
    requires ClaimsInv(w0, w) && i < |w.requests| && |w'.requests| == |w.requests|
    requires forall j :: 0 <= j < |w.requests| && j != i ==> w'.requests[j] == w.requests[j]
    requires forall j :: 0 <= j < |w.requests| && w.requests[j].inserted ==> ClaimKey(w.requests[j].given.hash) in w.store
    requires w'.requests[i].route == w.requests[i].route && w'.requests[i].given == w.requests[i].given
    requires ClaimsKept(w.store, w'.store) && NewClaimsOwned(s, w.store, w'.store, w.requests[i], w'.requests[i])
    requires w.requests[i].inserted ==> w'.requests[i].inserted
    requires w'.requests[i].inserted && !w.requests[i].inserted ==> ClaimKey(w.requests[i].given.hash) !in w.store
    ensures ClaimsInv(w0, w')
  {
    hide ClaimKey;
    forall h: Digest | ClaimKey(h) in w'.store && ClaimKey(h) !in w0.store ensures InsertedBySome(w', h) {
      if ClaimKey(h) in w.store {
        var k :| 0 <= k < |w.requests| && w.requests[k].inserted && ByRunToken(w.requests[k]) && w.requests[k].given.hash == h;
        assert w'.requests[k].inserted && ByRunToken(w'.requests[k]) && w'.requests[k].given.hash == h;
      } else {
        assert w'.requests[i].inserted && ByRunToken(w'.requests[i]) && w'.requests[i].given.hash == h;
      }
    }
  }

  lemma AdvanceKeepsClaims(s: Setting, w0: World, w: World, i: nat, o: Oracle)
    requires ClaimsApart(s) && Inv(s, w0, w) && Allowed(s, w, Advance(i, o))
    ensures ClaimsInv(w0, Apply(s, w, Advance(i, o)))
  {
    hide Performed, RequestInv, EventsOf, ClaimsInv, ClaimsKept, NewClaimsOwned, Apply, Fits, Honest, ClaimKey;
    StepClaims(s, w, i, o);
    forall j | 0 <= j < |w.requests| && w.requests[j].inserted ensures ClaimKey(w.requests[j].given.hash) in w.store {
      ClaimOfInserted(s, w.store, w.requests[j]);
    }
    OwnersKept(s, w0, w, Apply(s, w, Advance(i, o)), i);
  }

  lemma CrashKeepsRequests(s: Setting, w0: World, w: World, i: nat)
    requires RequestsInv(s, w0, w) && Allowed(s, w, Crash(i))
    ensures RequestsInv(s, w0, Apply(s, w, Crash(i)))
  {
    hide RequestInv, Performed, EventsOf;
    StoppingUndisturbed(s, w.store, w.requests[i]);
    StoppingUndoesNothing(s, w.requests[i]);
  }

  lemma CrashKeepsClaims(s: Setting, w0: World, w: World, i: nat)
    requires ClaimsInv(w0, w) && Allowed(s, w, Crash(i))
    ensures ClaimsInv(w0, Apply(s, w, Crash(i)))
  {
    var w' := Apply(s, w, Crash(i));
    forall h: Digest | InsertedBySome(w, h) ensures InsertedBySome(w', h) {
      var k :| 0 <= k < |w.requests| && w.requests[k].inserted && ByRunToken(w.requests[k]) && w.requests[k].given.hash == h;
      assert w'.requests[k].inserted && ByRunToken(w'.requests[k]) && w'.requests[k].given.hash == h;
    }
  }

  lemma ElsewhereKeeps(s: Setting, w0: World, w: World, key: Text, value: Option<Record>)
    requires Inv(s, w0, w) && Foreign(key)
    ensures Inv(s, w0, Apply(s, w, Elsewhere(key, value)))
  {
    hide RequestInv, Performed;
    var w' := Apply(s, w, Elsewhere(key, value));
    forall h: Digest ensures ClaimKey(h) != key {
      ClaimKeyOwn(h);
    }
    forall j | 0 <= j < |w.requests| ensures RequestInv(s, w'.store, w'.requests[j]) {
      OthersUndisturbed(s, w.store, w'.store, w.requests[j]);
    }
    forall h: Digest | InsertedBySome(w, h) ensures InsertedBySome(w', h) {
      var k :| 0 <= k < |w.requests| && w.requests[k].inserted && ByRunToken(w.requests[k]) && w.requests[k].given.hash == h;
      assert w'.requests[k].inserted;
    }
  }

  lemma ActionKeeps(s: Setting, w0: World, w: World, a: Action)
    requires ClaimsApart(s) && Inv(s, w0, w) && Allowed(s, w, a)
    ensures Inv(s, w0, Apply(s, w, a))
  {
    match a
    case Advance(i, o) =>
      AdvanceKeepsRequests(s, w0, w, i, o);
      AdvanceKeepsClaims(s, w0, w, i, o);
    case Crash(i) =>
      CrashKeepsRequests(s, w0, w, i);
      CrashKeepsClaims(s, w0, w, i);
    case Elsewhere(key, value) => ElsewhereKeeps(s, w0, w, key, value);
  }

  lemma ActionKeepsClaims(s: Setting, w0: World, w: World, a: Action)
    requires ClaimsApart(s) && Inv(s, w0, w) && Allowed(s, w, a)
    ensures ClaimsKept(w.store, Apply(s, w, a).store)
  {
    hide RequestInv, Performed, Step;
    match a
    case Advance(i, o) => StepKeeps(s, w.store, w.requests[i], o);
    case Crash(i) =>
    case Elsewhere(key, value) =>
      forall h: Digest ensures ClaimKey(h) != key {
        ClaimKeyOwn(h);
      }
  }

  /** From any state with the invariant, every run keeps it, and keeps every claim it started with. */
  lemma {:induction false} RunsKeep(s: Setting, w0: World, v: World, actions: seq<Action>, w: World)
    requires ClaimsApart(s) && Inv(s, w0, v) && Runs(s, v, actions, w)
    ensures Inv(s, w0, w)
    ensures ClaimsKept(v.store, w.store)
    decreases |actions|
  {
    hide Inv, Apply, Allowed;
    if actions != [] {
      var n := |actions| - 1;
      var u :| Runs(s, v, actions[..n], u) && Allowed(s, u, actions[n]) && w == Apply(s, u, actions[n]);
      RunsKeep(s, w0, v, actions[..n], u);
      ActionKeeps(s, w0, u, actions[n]);
      ActionKeepsClaims(s, w0, u, actions[n]);
    }
  }

  /** Some run leads from an initial world to this one. */
  ghost predicate Reachable(s: Setting, w0: World, w: World) {
    Initial(s, w0) && exists actions :: Runs(s, w0, actions, w)
  }

  /** The invariant holds at every reachable state. */
  lemma ReachableInv(s: Setting, w0: World, w: World)
    requires ClaimsApart(s) && Reachable(s, w0, w)
    ensures Inv(s, w0, w)
  {
    var actions :| Runs(s, w0, actions, w);
    InitialInv(s, w0);
    RunsKeep(s, w0, w0, actions, w);
  }

  predicate Bears(r: Request, bearer: Text) {
    ByRunToken(r) && r.route.caller.bearer == bearer
  }

  lemma SameHash(s: Setting, store: Store, q: Request, r: Request, bearer: Text)
    requires RequestInv(s, store, q) && RequestInv(s, store, r) && Bears(q, bearer) && Bears(r, bearer)
    ensures q.given.hash == r.given.hash
  {
    assert q.given == Read(s.js, q.route) && r.given == Read(s.js, r.route);
  }

  /** The request presents a run token with this hash. */
  predicate Uses(r: Request, hash: Digest) {
    ByRunToken(r) && r.given.hash == hash
  }

  /** At most one of the requests whose tokens have one hash is at, in or through the effects. */
  lemma AtMostOneOfHash(s: Setting, w0: World, w: World, hash: Digest, i: nat, j: nat)
    requires ClaimsApart(s) && Reachable(s, w0, w)
    requires i < |w.requests| && j < |w.requests| && Uses(w.requests[i], hash) && Uses(w.requests[j], hash)
    requires InEffects(Reached(w.requests[i].pc)) && InEffects(Reached(w.requests[j].pc))
    ensures i == j
  {
    ReachableInv(s, w0, w);
    hide AdmissionInv, Performed, EventsOf;
    assert SameClaim(w.requests[i], w.requests[j]);
  }

  /** However many requests carry one run token, however they interleave and stop, at most one enters the effects. */
  lemma AtMostOneEnters(s: Setting, w0: World, w: World, bearer: Text, i: nat, j: nat)
    requires ClaimsApart(s) && Reachable(s, w0, w)
    requires i < |w.requests| && j < |w.requests| && Bears(w.requests[i], bearer) && Bears(w.requests[j], bearer)
    requires InEffects(Reached(w.requests[i].pc)) && InEffects(Reached(w.requests[j].pc))
    ensures i == j
  {
    ReachableInv(s, w0, w);
    hide RequestInv, Performed, EventsOf;
    SameHash(s, w.store, w.requests[i], w.requests[j], bearer);
    AtMostOneOfHash(s, w0, w, w.requests[i].given.hash, i, j);
  }

  /** The events of every request that carries the token, in order. */
  function TokenEvents(requests: seq<Request>, log: seq<LogEntry>, bearer: Text): seq<Event> {
    if log == [] then []
    else
      var last := log[|log| - 1];
      TokenEvents(requests, log[..|log| - 1], bearer)
      + (if last.source < |requests| && Bears(requests[last.source], bearer) then [last.event] else [])
  }

  lemma {:induction false} NoEventsOf(log: seq<LogEntry>, i: nat)
    requires EventsOf(log, i) == []
    ensures forall k :: 0 <= k < |log| ==> log[k].source != i
  {
    if log != [] {
      NoEventsOf(log[..|log| - 1], i);
    }
  }

  /** When one bearer of the token has logged anything, the token's events are that request's events. */
  lemma {:induction false} TokenEventsOfOne(requests: seq<Request>, log: seq<LogEntry>, bearer: Text, i: nat)
    requires i < |requests| && Bears(requests[i], bearer)
    requires forall k :: 0 <= k < |log| && log[k].source < |requests| && Bears(requests[log[k].source], bearer) ==> log[k].source == i
    ensures TokenEvents(requests, log, bearer) == EventsOf(log, i)
  {
    if log != [] {
      TokenEventsOfOne(requests, log[..|log| - 1], bearer, i);
    }
  }

  lemma {:induction false} TokenEventsOfNone(requests: seq<Request>, log: seq<LogEntry>, bearer: Text)
    requires forall k :: 0 <= k < |log| ==> !(log[k].source < |requests| && Bears(requests[log[k].source], bearer))
    ensures TokenEvents(requests, log, bearer) == []
  {
    if log != [] {
      TokenEventsOfNone(requests, log[..|log| - 1], bearer);
    }
  }

  /** A run-token request that inserted no claim has done nothing. */
  lemma IdleUnlessInserted(s: Setting, store: Store, r: Request)
    requires RequestInv(s, store, r) && ByRunToken(r) && !r.inserted
    ensures Performed(s, r) == []
  {}

  /** Whoever inserted the claim, the other bearers of the token have logged nothing. */
  lemma OthersIdle(s: Setting, w0: World, w: World, bearer: Text, i: nat)
    requires Inv(s, w0, w) && i < |w.requests| && Bears(w.requests[i], bearer) && w.requests[i].inserted
    ensures forall j :: 0 <= j < |w.requests| && Bears(w.requests[j], bearer) && j != i ==> EventsOf(w.log, j) == []
  {
    hide Performed, RequestInv, EventsOf;
    forall j | 0 <= j < |w.requests| && Bears(w.requests[j], bearer) && j != i ensures EventsOf(w.log, j) == [] {
      SameHash(s, w.store, w.requests[i], w.requests[j], bearer);
      assert !SameClaim(w.requests[i], w.requests[j]);
      IdleUnlessInserted(s, w.store, w.requests[j]);
    }
  }

  lemma TokenEventsOfInserter(s: Setting, w0: World, w: World, bearer: Text, i: nat)
    requires Inv(s, w0, w) && i < |w.requests| && Bears(w.requests[i], bearer) && w.requests[i].inserted
    ensures TokenEvents(w.requests, w.log, bearer) == Performed(s, w.requests[i])
  {
    hide Performed, RequestInv, EventsOf, TokenEvents;
    OthersIdle(s, w0, w, bearer, i);
    QuietBearers(w.requests, w.log, bearer, i);
    TokenEventsOfOne(w.requests, w.log, bearer, i);
  }

  lemma TokenEventsWithoutInserter(s: Setting, w0: World, w: World, bearer: Text)
    requires Inv(s, w0, w)
    requires forall i :: 0 <= i < |w.requests| && Bears(w.requests[i], bearer) ==> !w.requests[i].inserted
    ensures TokenEvents(w.requests, w.log, bearer) == []
  {
    hide Performed, RequestInv, EventsOf, TokenEvents;
    forall j | 0 <= j < |w.requests| && Bears(w.requests[j], bearer) ensures EventsOf(w.log, j) == [] {
      IdleUnlessInserted(s, w.store, w.requests[j]);
    }
    QuietBearers(w.requests, w.log, bearer, |w.requests|);
    TokenEventsOfNone(w.requests, w.log, bearer);
  }

  /** This request bears the token, inserted its claim, and the events are a prefix of its plan. */
  predicate PrefixOfPlan(s: Setting, r: Request, bearer: Text, events: seq<Event>) {
    Bears(r, bearer) && r.inserted && events <= ClaimEvents(s, r) + Plan(s, r)
  }

  /**
   At every reachable state the events of a token are a prefix of one request's ordered plan:
   claim, bundle, audit entry, evidence, publication, routing, queue, claim again.
   */
  lemma TokenEventsArePrefix(s: Setting, w0: World, w: World, bearer: Text)
    requires ClaimsApart(s) && Reachable(s, w0, w)
    ensures TokenEvents(w.requests, w.log, bearer) == []
      || exists i :: 0 <= i < |w.requests| && PrefixOfPlan(s, w.requests[i], bearer, TokenEvents(w.requests, w.log, bearer))
  {
    ReachableInv(s, w0, w);
    hide Performed, RequestInv, Plan, ClaimEvents, EventsOf, TokenEvents;
    if i :| 0 <= i < |w.requests| && Bears(w.requests[i], bearer) && w.requests[i].inserted {
      TokenEventsOfInserter(s, w0, w, bearer, i);
      InvFits(s, w.store, w.requests[i]);
      PerformedIsPrefix(s, w.requests[i]);
      assert PrefixOfPlan(s, w.requests[i], bearer, TokenEvents(w.requests, w.log, bearer));
    } else {
      TokenEventsWithoutInserter(s, w0, w, bearer);
    }
  }

  lemma InvFits(s: Setting, store: Store, r: Request)
    requires RequestInv(s, store, r)
    ensures Fits(r)
  {}

  lemma QuietBearers(requests: seq<Request>, log: seq<LogEntry>, bearer: Text, i: nat)
    requires forall j :: 0 <= j < |requests| && Bears(requests[j], bearer) && j != i ==> EventsOf(log, j) == []
    ensures forall k :: 0 <= k < |log| && log[k].source < |requests| && Bears(requests[log[k].source], bearer) ==> log[k].source == i
  {
    forall k | 0 <= k < |log| && log[k].source < |requests| && Bears(requests[log[k].source], bearer) ensures log[k].source == i {
      if log[k].source != i {
        NoEventsOf(log, log[k].source);
      }
    }
  }

  /** A replay, a conflict, a rejection and an unavailable claim leave nothing but, at most, the claim. */
  lemma RefusalsAddNothing(s: Setting, w0: World, w: World, i: nat)
    requires ClaimsApart(s) && Reachable(s, w0, w) && i < |w.requests| && w.requests[i].pc.Answered?
    requires var a := w.requests[i].pc.answer; a.Replayed? || a.Conflict? || a.Rejected? || a.Unavailable?
    ensures EventsOf(w.log, i) == ClaimEvents(s, w.requests[i])
    ensures s.capability.Reports? ==> EventsOf(w.log, i) == []
  {
    ReachableInv(s, w0, w);
    hide AdmissionInv, TokenInv, Performed, ClaimEvents, EventsOf;
    RefusedUnclaimed(s, w.store, w.requests[i]);
    QuietPerformed(s, w.requests[i]);
  }

  lemma RefusedUnclaimed(s: Setting, store: Store, r: Request)
    requires RequestInv(s, store, r) && r.pc.Answered?
    requires r.pc.answer.Replayed? || r.pc.answer.Conflict? || r.pc.answer.Rejected? || r.pc.answer.Unavailable?
    ensures s.capability.Reports? ==> ClaimEvents(s, r) == []
  {
    hide AdmissionInv, OrganizationInv, OwnClaimStored, ClaimHeld, Fits;
  }

  /** Once claimed, always claimed, with the very same record: not even the final rewrite changes it. */
  lemma ClaimNeverChanges(s: Setting, w0: World, before: World, actions: seq<Action>, after: World, hash: Digest)
    requires ClaimsApart(s) && Reachable(s, w0, before) && Runs(s, before, actions, after)
    requires ClaimKey(hash) in before.store
    ensures ClaimKey(hash) in after.store && after.store[ClaimKey(hash)] == before.store[ClaimKey(hash)]
  {
    ReachableInv(s, w0, before);
    RunsKeep(s, w0, before, actions, after);
  }

  /** A request that was answered or stopped stays as it is. */
  lemma {:induction false} FinishedStays(s: Setting, before: World, actions: seq<Action>, after: World, i: nat)
    requires Runs(s, before, actions, after) && i < |before.requests| && Finished(before.requests[i])
    ensures i < |after.requests| && after.requests[i] == before.requests[i]
    decreases |actions|
  {
    hide Step, Fits, Honest;
    if actions != [] {
      var n := |actions| - 1;
      var v :| Runs(s, before, actions[..n], v) && Allowed(s, v, actions[n]) && after == Apply(s, v, actions[n]);
      FinishedStays(s, before, actions[..n], v, i);
    }
  }

  /**
   Once the request that claimed a token has stopped, half-way or not, the token's effects are
   over: whatever else runs, and however often the submission is tried again, nothing is added.
   */
  lemma StoppedClaimantIsFinal(
    s: Setting, w0: World, before: World, actions: seq<Action>, after: World, bearer: Text, i: nat)
    requires ClaimsApart(s) && Reachable(s, w0, before) && Runs(s, before, actions, after)
    requires i < |before.requests| && Bears(before.requests[i], bearer) && before.requests[i].inserted && Finished(before.requests[i])
    ensures TokenEvents(after.requests, after.log, bearer) == TokenEvents(before.requests, before.log, bearer)
  {
    ReachableInv(s, w0, before);
    RunsKeep(s, w0, before, actions, after);
    FinishedStays(s, before, actions, after, i);
    hide Inv, Performed, TokenEvents, Bears, Finished;
    TokenEventsOfInserter(s, w0, before, bearer, i);
    TokenEventsOfInserter(s, w0, after, bearer, i);
  }

  predicate IsIngested(r: Request) { r.pc.Answered? && r.pc.answer.Ingested? }

  predicate IsReplayed(r: Request) { r.pc.Answered? && r.pc.answer.Replayed? }

  predicate PastTheChecks(r: Request) { r.pc.Answered? && !r.pc.answer.Rejected? }

  /** Every accepted answer for a token is about the payload the token is claimed for. */
  lemma AcceptedAnswersAgree(s: Setting, w0: World, w: World, i: nat)
    requires ClaimsApart(s) && Reachable(s, w0, w) && i < |w.requests| && ByRunToken(w.requests[i])
    requires IsIngested(w.requests[i]) || IsReplayed(w.requests[i])
    ensures ClaimHeld(w.store, w.requests[i])
  {
    ReachableInv(s, w0, w);
    assert TokenInv(s, w.store, w.requests[i]);
  }

  /** The claim is unavailable only for a store that cannot insert-if-absent, and then no token has any effect. */
  lemma UnavailableNeedsAbsence(s: Setting, w0: World, w: World, i: nat)
    requires ClaimsApart(s) && Reachable(s, w0, w) && i < |w.requests| && ByRunToken(w.requests[i])
    ensures w.requests[i].pc == Answered(Unavailable) ==> s.capability.Absent?
    ensures s.capability.Absent? ==> EventsOf(w.log, i) == [] && !InEffects(Reached(w.requests[i].pc))
  {
    ReachableInv(s, w0, w);
    assert TokenInv(s, w.store, w.requests[i]);
    if s.capability.Absent? {
      IdleUnlessInserted(s, w.store, w.requests[i]);
    }
  }

  /** A token claimed before the run began stays with its first payload: nobody enters the effects. */
  lemma OldClaimsShutTheDoor(s: Setting, w0: World, w: World, i: nat)
    requires ClaimsApart(s) && Reachable(s, w0, w) && i < |w.requests| && ByRunToken(w.requests[i])
    requires ClaimKey(w.requests[i].given.hash) in w0.store
    ensures EventsOf(w.log, i) == [] && !InEffects(Reached(w.requests[i].pc))
  {
    ReachableInv(s, w0, w);
    assert TokenInv(s, w.store, w.requests[i]);
    IdleUnlessInserted(s, w.store, w.requests[i]);
  }

  lemma InsertedIngests(s: Setting, store: Store, r: Request)
    requires s.capability.Reports? && RequestInv(s, store, r) && r.inserted && r.pc.Answered?
    ensures r.pc.answer.Ingested?
  {
    hide AdmissionInv, OwnClaimStored, ClaimHeld;
  }

  /** Whoever uses the token and is answered past the checks has seen a claim. */
  lemma AnsweredIsClaimed(s: Setting, store: Store, r: Request)
    requires s.capability.Reports? && RequestInv(s, store, r) && ByRunToken(r) && PastTheChecks(r)
    ensures ClaimKey(r.given.hash) in store
    ensures IsIngested(r) || r.pc == Answered(Conflict) || IsReplayed(r)
    ensures IsReplayed(r) ==> ClaimHeld(store, r)
    ensures r.pc == Answered(Conflict) ==> !ClaimHeld(store, r)
  {
    hide AdmissionInv, OrganizationInv, PayloadDigestOf;
  }

  /** A claim stands for the payload of a request exactly if its owner submitted the same one. */
  lemma HeldExactly(s: Setting, store: Store, owner: Request, r: Request)
    requires RequestInv(s, store, owner) && owner.inserted && ByRunToken(r) && r.given.hash == owner.given.hash
    ensures ClaimHeld(store, r) <==> r.given.payload == owner.given.payload
  {
    ClaimOfInserted(s, store, owner);
    hide RequestInv;
  }

  lemma HeldIsThere(store: Store, r: Request)
    requires ByRunToken(r) && ClaimHeld(store, r)
    ensures ClaimKey(r.given.hash) in store
  {}

  /** Every other user of the token is told of a replay if its payload is the one ingested, and of a conflict if it is not. */
  predicate OthersSettled(w: World, hash: Digest, i: nat)
    requires i < |w.requests|
  {
    forall j :: 0 <= j < |w.requests| && j != i && Uses(w.requests[j], hash) ==>
      if w.requests[j].given.payload == w.requests[i].given.payload then IsReplayed(w.requests[j])
      else w.requests[j].pc == Answered(Conflict)
  }

  predicate OneIngestedOthersSettled(w: World, hash: Digest) {
    exists i :: 0 <= i < |w.requests| && Uses(w.requests[i], hash) && IsIngested(w.requests[i]) && OthersSettled(w, hash, i)
  }

  /** The claim of an answered user is the work of a user, who is then the one ingested. */
  lemma OwnerIngested(s: Setting, w0: World, w: World, hash: Digest, user: nat) returns (i: nat)
    requires s.capability.Reports? && Inv(s, w0, w) && ClaimKey(hash) !in w0.store
    requires user < |w.requests| && Uses(w.requests[user], hash)
    requires forall k :: 0 <= k < |w.requests| && Uses(w.requests[k], hash) ==> PastTheChecks(w.requests[k])
    ensures i < |w.requests| && Uses(w.requests[i], hash) && w.requests[i].inserted && IsIngested(w.requests[i])
  {
    hide RequestInv, Performed, EventsOf;
    AnsweredIsClaimed(s, w.store, w.requests[user]);
    i :| 0 <= i < |w.requests| && w.requests[i].inserted && ByRunToken(w.requests[i]) && w.requests[i].given.hash == hash;
    assert Uses(w.requests[i], hash);
    InsertedIngests(s, w.store, w.requests[i]);
  }

  /**
   Among whatever else runs - sessions, deletions, summaries, other tokens - let the users of one
   unclaimed token submit what they like and all be answered past the checks. Then exactly one
   of them is ingested; the others with its payload are replays, and those with another conflict.
   */
  lemma ExactlyOneIngests(s: Setting, w0: World, w: World, hash: Digest, user: nat)
    requires ClaimsApart(s) && Reachable(s, w0, w) && s.capability.Reports? && ClaimKey(hash) !in w0.store
    requires user < |w.requests| && Uses(w.requests[user], hash)
    requires forall i :: 0 <= i < |w.requests| && Uses(w.requests[i], hash) ==> PastTheChecks(w.requests[i])
    ensures OneIngestedOthersSettled(w, hash)
  {
    hide Reachable, RequestInv, Performed, EventsOf, ClaimHeld, PastTheChecks;
    ReachableInv(s, w0, w);
    var i := OwnerIngested(s, w0, w, hash, user);
    forall j | 0 <= j < |w.requests| && j != i && Uses(w.requests[j], hash)
      ensures if w.requests[j].given.payload == w.requests[i].given.payload then IsReplayed(w.requests[j])
        else w.requests[j].pc == Answered(Conflict)
    {
      if IsIngested(w.requests[j]) {
        AtMostOneOfHash(s, w0, w, hash, i, j);
      }
      AnsweredIsClaimed(s, w.store, w.requests[j]);
      HeldExactly(s, w.store, w.requests[i], w.requests[j]);
    }
    assert OthersSettled(w, hash, i);
  }

  /** The record is this request's claim of the token, and the request passed every check. */
  ghost predicate StandsFor(s: Setting, r: Request, hash: Digest, record: Record) {
    ByRunToken(r) && r.given.hash == hash && record == OwnClaim(r) && InScope(s, r) && Passed(s, r)
  }

  /** A claim that a run adds stands for a submission that passed every check before it was added. */
  lemma ClaimsArePassed(s: Setting, w0: World, w: World, hash: Digest)
    requires ClaimsApart(s) && Reachable(s, w0, w) && ClaimKey(hash) in w.store && ClaimKey(hash) !in w0.store
    ensures exists i :: 0 <= i < |w.requests| && StandsFor(s, w.requests[i], hash, w.store[ClaimKey(hash)])
  {
    ReachableInv(s, w0, w);
    hide Performed, EventsOf, TokenInv, InScope, Passed;
    var k :| 0 <= k < |w.requests| && w.requests[k].inserted && ByRunToken(w.requests[k]) && w.requests[k].given.hash == hash;
    ClaimOfInserted(s, w.store, w.requests[k]);
    assert AdmissionInv(s, w.requests[k]);
    assert StandsFor(s, w.requests[k], hash, w.store[ClaimKey(hash)]);
  }

  lemma {:induction false} EventAmong(log: seq<LogEntry>, k: nat)
    requires k < |log|
    ensures log[k].event in EventsOf(log, log[k].source)
  {
    if k < |log| - 1 {
      EventAmong(log[..|log| - 1], k);
    }
  }

  /** A verdict that one of the submitted receipts states, and that receipt is genuine. */
  predicate ProvenBy(s: Setting, r: Request, n: nat, verdict: Verdict)
    requires ByRunToken(r)
  {
    && n < |r.given.receipts|
    && GenuineReceipt(s.js, r.given.receipts[n], r.given.repository, r.route.caller.token.sha)
    && Field(r.given.receipts[n], "verdict").Some? && Field(r.given.receipts[n], "verdict").value.Str?
    && TranslateLegacyVerdict(Field(r.given.receipts[n], "verdict").value.s) == verdict
  }

  lemma VerdictProven(s: Setting, r: Request)
    requires ByRunToken(r) && AllGenuine(s, r)
    ensures RoutedVerdict(r) == UNKNOWN || exists n :: 0 <= n < |r.given.receipts| && ProvenBy(s, r, n, RoutedVerdict(r))
  {
    var receipts := r.given.receipts;
    if receipts != [] {
      var n := |receipts| - 1;
      match Field(receipts[n], "verdict")
      case Some(Str(_)) => assert ProvenBy(s, r, n, RoutedVerdict(r));
      case _ =>
        match Field(receipts[0], "verdict")
        case Some(Str(_)) => assert ProvenBy(s, r, 0, RoutedVerdict(r));
        case _ =>
    }
  }

  /** Only a routed order puts verdicts in a plan, and they are the request's own. */
  lemma PlannedVerdict(s: Setting, r: Request, e: Event)
    requires e in Plan(s, r) && (e.Routed? || e.Enqueued?)
    ensures r.route.Ingest? && r.routed.Some? && e.verdict == RoutedVerdict(r)
  {}

  /** The verdicts a request logs are the one it routes, and it logs them only past validation. */
  lemma LoggedVerdict(s: Setting, store: Store, r: Request, e: Event)
    requires RequestInv(s, store, r) && e in Performed(s, r) && (e.Routed? || e.Enqueued?)
    ensures ByRunToken(r) && e.verdict == RoutedVerdict(r) && AllGenuine(s, r)
  {
    hide TokenInv, InScope, AllGenuine, AcceptableBundle, RoutedVerdict, Plan, Performed, OrganizationInv;
    if Quiet(Reached(r.pc)) {
      QuietPerformed(s, r);
    }
    PerformedIsPrefix(s, r);
    assert e in ClaimEvents(s, r) + Plan(s, r) && e !in ClaimEvents(s, r);
    PlannedVerdict(s, r, e);
  }

  predicate Proven(s: Setting, r: Request, verdict: Verdict) {
    ByRunToken(r) && (verdict == UNKNOWN || exists n :: 0 <= n < |r.given.receipts| && ProvenBy(s, r, n, verdict))
  }

  /** The verdict the last receipt states, else the one the first states, else none is known. */
  function LastStated(receipts: seq<Json>): Verdict {
    if receipts == [] then UNKNOWN
    else
      match Field(receipts[|receipts| - 1], "verdict")
      case Some(Str(v)) => TranslateLegacyVerdict(v)
      case _ => (match Field(receipts[0], "verdict") case Some(Str(v)) => TranslateLegacyVerdict(v) case _ => UNKNOWN)
  }

  lemma RoutedIsLastStated(s: Setting, r: Request)
    requires ByRunToken(r) && AllGenuine(s, r)
    ensures RoutedVerdict(r) == LastStated(r.given.receipts)
  {}

  /** Whatever verdict reaches the factory is stated by a genuine receipt of the submission, or is UNKNOWN. */
  lemma RoutedVerdictsAreProven(s: Setting, w0: World, w: World, k: nat)
    requires ClaimsApart(s) && Reachable(s, w0, w) && k < |w.log|
    requires w.log[k].event.Routed? || w.log[k].event.Enqueued?
    ensures w.log[k].source < |w.requests| && Proven(s, w.requests[w.log[k].source], w.log[k].event.verdict)
    ensures w.log[k].event.verdict == LastStated(w.requests[w.log[k].source].given.receipts)
  {
    ReachableInv(s, w0, w);
    hide RequestInv, Performed, EventsOf, ProvenBy, AllGenuine, LastStated;
    EventAmong(w.log, k);
    var r := w.requests[w.log[k].source];
    LoggedVerdict(s, w.store, r, w.log[k].event);
    VerdictProven(s, r);
    RoutedIsLastStated(s, r);
  }

  /** What a request stores, copies and publishes is the very bundle it submitted, which passed every check of its route. */
  ghost predicate Submits(s: Setting, r: Request, repository: Text, content: Json) {
    && r.route.Ingest? && SubmittedBundle(r.route.body) == Some(content) && AcceptableBundle(s.js, content)
    && repository == Repository(r.route)
    && (ByRunToken(r) ==> r.route.caller.token.repository == repository && InScope(s, r) && AllGenuine(s, r))
  }

  /** The repository and the bundle of an event that carries one. */
  function Carried(e: Event): Option<(Text, Json)> {
    match e
    case BundlePut(_, repository, Bundle(content, _, _, _)) => Some((repository, content))
    case EvidencePut(_, repository, content) => Some((repository, content))
    case Published(repository, content) => Some((repository, content))
    case _ => None
  }

  lemma PlannedBundle(s: Setting, r: Request, e: Event)
    requires e in Plan(s, r) && Carried(e).Some?
    ensures r.route.Ingest? && Carried(e) == Some((r.given.repository, BundleRecord(r).content))
  {
    hide BundleRecord, AuditRecord, OwnClaim, Organization, RoutedVerdict;
  }

  lemma LoggedBundle(s: Setting, store: Store, r: Request, e: Event)
    requires RequestInv(s, store, r) && e in Performed(s, r) && Carried(e).Some?
    ensures Submits(s, r, Carried(e).value.0, Carried(e).value.1)
  {
    hide TokenInv, ScopeMatches, AllGenuine, AcceptableBundle, Plan, Performed, OrganizationInv;
    if Quiet(Reached(r.pc)) {
      QuietPerformed(s, r);
    }
    PerformedIsPrefix(s, r);
    assert e in ClaimEvents(s, r) + Plan(s, r) && e !in ClaimEvents(s, r);
    PlannedBundle(s, r, e);
  }

  /** Nothing is stored, copied or published as a bundle that did not pass, under a run token or in a session. */
  lemma BundlesArePassed(s: Setting, w0: World, w: World, k: nat)
    requires ClaimsApart(s) && Reachable(s, w0, w) && k < |w.log| && Carried(w.log[k].event).Some?
    ensures w.log[k].source < |w.requests|
    ensures var carried := Carried(w.log[k].event).value;
      Submits(s, w.requests[w.log[k].source], carried.0, carried.1)
  {
    ReachableInv(s, w0, w);
    hide RequestInv, Performed, EventsOf, Carried, Submits;
    EventAmong(w.log, k);
    LoggedBundle(s, w.store, w.requests[w.log[k].source], w.log[k].event);
  }
}
