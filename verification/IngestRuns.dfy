/** Runs that do happen: who wins a token, what a retry is told, and why the theorems need what they ask for. */
module IngestRuns {
  import opened Sequences
  import opened Unicode
  import opened Digests
  import opened MetadataKeys
  import opened Ingest
  import opened IngestSafety
  import opened IngestTheorems

  lemma RunsExtend(s: Setting, w0: World, actions: seq<Action>, w: World, a: Action)
    requires Runs(s, w0, actions, w) && Allowed(s, w, a)
    ensures Runs(s, w0, actions + [a], Apply(s, w, a))
  {
    hide Apply, Allowed;
    var all, n := actions + [a], |actions|;
    assert all[..n] == actions && all[n] == a;
    assert Runs(s, w0, all[..n], w) && Allowed(s, w, all[n]) && Apply(s, w, a) == Apply(s, w, all[n]);
  }

  /** A request stepped to its end with nothing in between; `later` answers the second read of the work order. */
  function RunAlone(s: Setting, store: Store, r: Request, first: Oracle, later: Oracle): Outcome
    requires Fits(r)
    decreases Rank(r.pc)
  {
    if Finished(r) then Outcome(store, r, [])
    else
      var o := if r.pc.ReadOrder? then later else first;
      StepAdvances(s, store, r, o);
      var out := Step(s, store, r, o);
      var rest := RunAlone(s, out.store, out.request, first, later);
      rest.(events := out.events + rest.events)
  }

  lemma {:induction false} StampConcat(i: nat, a: seq<Event>, b: seq<Event>)
    ensures Stamp(i, a + b) == Stamp(i, a) + Stamp(i, b)
  {
    if a == [] {
      assert a + b == b;
    } else {
      StampConcat(i, a[1..], b);
      assert (a + b)[1..] == a[1..] + b && (a + b)[0] == a[0];
    }
  }

  /** The audit entry of this request is still to be written. */
  predicate AuditAhead(r: Request) {
    match r.route case Ingest(_, _) => Rank(r.pc) >= Rank(PutAudit) case Delete(_, _, _) => !Finished(r) case Summary(_, _) => false
  }

  lemma AuditOnce(s: Setting, store: Store, r: Request, o: Oracle)
    requires Fits(r) && !Finished(r)
    ensures WritesAudit(r) ==> AuditAhead(r) && !AuditAhead(Step(s, store, r, o).request)
    ensures AuditAhead(Step(s, store, r, o).request) ==> AuditAhead(r)
  {
    hide Step;
    StepAdvances(s, store, r, o);
  }

  /** What a request does on its own is one of the runs that the theorems are about, whatever happened before. */
  lemma {:induction false} AloneIsARun(
    s: Setting, w0: World, actions: seq<Action>, w: World, i: nat, first: Oracle, later: Oracle)
    returns (actions': seq<Action>, w': World)
    requires Runs(s, w0, actions, w) && i < |w.requests| && Fits(w.requests[i])
    requires HonestOracle(s, first) && HonestOracle(s, later) && IsUuid(first.uuid)
    requires AuditAhead(w.requests[i]) ==> first.uuid !in w.uuids
    ensures Runs(s, w0, actions', w')
    ensures var end := RunAlone(s, w.store, w.requests[i], first, later);
      w'.store == end.store && w'.requests == w.requests[i := end.request] && w'.log == w.log + Stamp(i, end.events)
    decreases Rank(w.requests[i].pc)
  {
    hide Step, Fits, Runs, AuditAhead;
    var r := w.requests[i];
    if Finished(r) {
      actions', w' := actions, w;
    } else {
      var o := if r.pc.ReadOrder? then later else first;
      StepAdvances(s, w.store, r, o);
      AuditOnce(s, w.store, r, o);
      var out := Step(s, w.store, r, o);
      RunsExtend(s, w0, actions, w, Advance(i, o));
      var v := Apply(s, w, Advance(i, o));
      actions', w' := AloneIsARun(s, w0, actions + [Advance(i, o)], v, i, first, later);
      StampConcat(i, out.events, RunAlone(s, v.store, out.request, first, later).events);
    }
  }

  /** A request that has logged `events` and is now `r` will end as `whole`. */
  ghost predicate Along(s: Setting, whole: Outcome, store: Store, r: Request, events: seq<Event>, first: Oracle, later: Oracle) {
    Fits(r) &&
    var rest := RunAlone(s, store, r, first, later);
    whole == rest.(events := events + rest.events)
  }

  lemma SetOut(s: Setting, store: Store, r: Request, first: Oracle, later: Oracle)
    requires Fits(r)
    ensures Along(s, RunAlone(s, store, r, first, later), store, r, [], first, later)
  {}

  /** One more step along the way. */
  lemma Onward(
    s: Setting, whole: Outcome, store: Store, r: Request, events: seq<Event>, first: Oracle, later: Oracle,
    store': Store, r': Request, logged: seq<Event>)
    requires Along(s, whole, store, r, events, first, later) && !Finished(r)
    requires Step(s, store, r, if r.pc.ReadOrder? then later else first) == Outcome(store', r', logged)
    ensures Along(s, whole, store', r', events + logged, first, later)
  {
    hide Step, Fits;
    var o := if r.pc.ReadOrder? then later else first;
    StepAdvances(s, store, r, o);
    var rest := RunAlone(s, store', r', first, later);
    assert events + (logged + rest.events) == (events + logged) + rest.events;
  }

  /** The same for a step that logs nothing. */
  lemma OnwardQuietly(
    s: Setting, whole: Outcome, store: Store, r: Request, events: seq<Event>, first: Oracle, later: Oracle, r': Request)
    requires Along(s, whole, store, r, events, first, later) && !Finished(r)
    requires Step(s, store, r, if r.pc.ReadOrder? then later else first) == Outcome(store, r', [])
    ensures Along(s, whole, store, r', events, first, later)
  {
    hide Step, Along;
    Onward(s, whole, store, r, events, first, later, store, r', []);
    assert events + [] == events;
  }

  lemma Arrived(s: Setting, whole: Outcome, store: Store, r: Request, events: seq<Event>, first: Oracle, later: Oracle)
    requires Along(s, whole, store, r, events, first, later) && Finished(r)
    ensures whole == Outcome(store, r, events)
  {}

  /** A submission that would pass every check under its run token. */
  predicate Admissible(r: Request) {
    && ByRunToken(r) && r.given.repository != [] && r.route.caller.token.repository == r.given.repository
    && r.given.checked.Ok? && r.given.verified.Ok?
  }

  const QUIET_ORACLE := Oracle(true, None, None, false, "")

  /** The `n`th stop on the way of an admissible request to its claim. */
  predicate OnTheWay(r: Request, n: nat) {
    && Admissible(r) && !r.priorUse && n <= 5 && r.pc == [Start, ReadClaim, ReadScope, Validate, ClaimToken, Decide][n]
    && (n >= 3 ==> r.organizationId == None)
  }

  lemma StepOnTheWay(s: Setting, store: Store, r: Request, n: nat)
    requires n < 5 && OnTheWay(r, n) && ClaimKey(r.given.hash) !in store
    requires n == 4 ==> s.capability.Reports?
    ensures Fits(r) && !Finished(r) && !WritesAudit(r)
    ensures var out := Step(s, store, r, QUIET_ORACLE);
      && OnTheWay(out.request, n + 1) && out.request.route == r.route && out.request.given == r.given
      && (n < 4 ==> out.store == store)
      && (n == 4 ==> out.request.claimed)
  {
    hide Repository, RoutedVerdict, BundleRecord, AuditRecord;
    if n == 0 {
      assert r.pc == Start;
    } else if n == 1 {
      assert r.pc == ReadClaim;
    } else if n == 2 {
      assert r.pc == ReadScope;
    } else if n == 3 {
      assert r.pc == Validate;
    } else {
      assert r.pc == ClaimToken;
    }
  }

  /** A request that runs undisturbed from its arrival reaches the claim with the table as it was. */
  lemma ReachesClaim(s: Setting, w0: World, actions: seq<Action>, w: World, i: nat) returns (actions': seq<Action>, w': World)
    requires Runs(s, w0, actions, w) && i < |w.requests|
    requires OnTheWay(w.requests[i], 0) && ClaimKey(w.requests[i].given.hash) !in w.store
    ensures Runs(s, w0, actions', w') && |w'.requests| == |w.requests| && w'.store == w.store && w'.uuids == w.uuids
    ensures OnTheWay(w'.requests[i], 4) && w'.requests[i].given == w.requests[i].given && w'.requests[i].route == w.requests[i].route
    ensures forall j :: 0 <= j < |w.requests| && j != i ==> w'.requests[j] == w.requests[j]
  {
    hide Step, OnTheWay, Fits, Runs;
    actions', w' := actions, w;
    for n := 0 to 4
      invariant Runs(s, w0, actions', w') && |w'.requests| == |w.requests| && w'.store == w.store && w'.uuids == w.uuids
      invariant forall j :: 0 <= j < |w.requests| && j != i ==> w'.requests[j] == w.requests[j]
      invariant OnTheWay(w'.requests[i], n) && w'.requests[i].given == w.requests[i].given && w'.requests[i].route == w.requests[i].route
    {
      StepOnTheWay(s, w'.store, w'.requests[i], n);
      var a := Advance(i, QUIET_ORACLE);
      RunsExtend(s, w0, actions', w', a);
      actions', w' := actions' + [a], Apply(s, w', a);
    }
  }

  /** A request that runs undisturbed from its arrival wins its token if nobody holds it. */
  lemma WinsUndisturbed(s: Setting, w0: World, actions: seq<Action>, w: World, i: nat) returns (actions': seq<Action>, w': World)
    requires s.capability.Reports? && Runs(s, w0, actions, w) && i < |w.requests|
    requires OnTheWay(w.requests[i], 0) && ClaimKey(w.requests[i].given.hash) !in w.store
    ensures Runs(s, w0, actions', w')
    ensures |w'.requests| == |w.requests| && w'.requests[i].claimed && w'.uuids == w.uuids
    ensures OnTheWay(w'.requests[i], 5) && w'.requests[i].given == w.requests[i].given && w'.requests[i].route == w.requests[i].route
    ensures forall j :: 0 <= j < |w.requests| && j != i ==> w'.requests[j] == w.requests[j]
  {
    hide Step, OnTheWay, Fits, Runs;
    actions', w' := ReachesClaim(s, w0, actions, w, i);
    StepOnTheWay(s, w'.store, w'.requests[i], 4);
    var a := Advance(i, QUIET_ORACLE);
    RunsExtend(s, w0, actions', w', a);
    actions', w' := actions' + [a], Apply(s, w', a);
  }

  /** Over a store that inserts without reporting it, no run-token request has an effect beyond the claim itself. */
  lemma UnreportedClaimsStoreNothing(s: Setting, w0: World, w: World, i: nat)
    requires ClaimsApart(s) && Reachable(s, w0, w) && i < |w.requests| && ByRunToken(w.requests[i])
    requires !s.capability.Reports?
    ensures EventsOf(w.log, i) == ClaimEvents(s, w.requests[i]) && !InEffects(Reached(w.requests[i].pc))
  {
    ReachableInv(s, w0, w);
    assert TokenInv(s, w.store, w.requests[i]);
    QuietPerformed(s, w.requests[i]);
  }

  /** What an unreported insertion of the claim leads to: the claim is read back, and taken for somebody else's. */
  lemma StepUnreported(s: Setting, store: Store, r: Request)
    requires s.capability.Silent? && OnTheWay(r, 4) && ClaimKey(r.given.hash) !in store
    ensures Fits(r) && !Finished(r) && !WritesAudit(r)
    ensures var out := Step(s, store, r, QUIET_ORACLE);
      && Fits(out.request) && !Finished(out.request) && !WritesAudit(out.request)
      && Step(s, out.store, out.request, QUIET_ORACLE).request.pc == Answered(Replayed(Organization(r)))
  {
    hide Repository, RoutedVerdict, BundleRecord, AuditRecord;
    assert r.pc == ClaimToken;
  }

  /** So the very first submission is answered as a replay, although nothing of it is ever stored. */
  lemma FirstAnsweredAsReplay(s: Setting, w0: World, actions: seq<Action>, w: World, i: nat) returns (actions': seq<Action>, w': World)
    requires s.capability.Silent? && Runs(s, w0, actions, w) && i < |w.requests|
    requires OnTheWay(w.requests[i], 0) && ClaimKey(w.requests[i].given.hash) !in w.store
    ensures Runs(s, w0, actions', w') && |w'.requests| == |w.requests|
    ensures w'.requests[i].pc.Answered? && w'.requests[i].pc.answer.Replayed?
  {
    hide Step, OnTheWay, Fits, Runs;
    actions', w' := ReachesClaim(s, w0, actions, w, i);
    StepUnreported(s, w'.store, w'.requests[i]);
    var a := Advance(i, QUIET_ORACLE);
    RunsExtend(s, w0, actions', w', a);
    actions', w' := actions' + [a], Apply(s, w', a);
    RunsExtend(s, w0, actions', w', a);
    actions', w' := actions' + [a], Apply(s, w', a);
  }

  /** The `n`th stop of a deletion by an organisation called `run-token` of the repository named after `hash`. */
  predicate Deleting(r: Request, hash: Digest, n: nat) {
    && r.route.Delete? && r.route.organizationId == RUN_TOKEN && r.given.repository == HexDigest(hash) && !r.priorUse
    && n <= 2 && r.pc == [Start, DeleteBundle, AuditDelete][n]
  }

  lemma StepDeleting(s: Setting, store: Store, r: Request, hash: Digest, n: nat)
    requires n < 2 && Deleting(r, hash, n)
    ensures Fits(r) && !Finished(r) && !WritesAudit(r)
    ensures var out := Step(s, store, r, QUIET_ORACLE);
      Deleting(out.request, hash, n + 1) && (n == 1 ==> out.store == store - {ClaimKey(hash)})
  {
    hide Repository, BundleKey, HexDigest;
    BundleMeetsClaim(RUN_TOKEN, r.given.repository, hash);
    assert |HexDigest(hash)| > 0;
  }

  lemma DeletesUndisturbed(s: Setting, w0: World, actions: seq<Action>, w: World, i: nat, hash: Digest)
    returns (actions': seq<Action>, w': World)
    requires Runs(s, w0, actions, w) && i < |w.requests| && Deleting(w.requests[i], hash, 0)
    ensures Runs(s, w0, actions', w') && ClaimKey(hash) !in w'.store
    ensures |w'.requests| == |w.requests|
    ensures forall j :: 0 <= j < |w.requests| && j != i ==> w'.requests[j] == w.requests[j]
  {
    hide Step, Deleting, Fits, Runs, ClaimKey;
    actions', w' := actions, w;
    for n := 0 to 2
      invariant Runs(s, w0, actions', w') && |w'.requests| == |w.requests|
      invariant forall j :: 0 <= j < |w.requests| && j != i ==> w'.requests[j] == w.requests[j]
      invariant Deleting(w'.requests[i], hash, n)
      invariant n == 2 ==> ClaimKey(hash) !in w'.store
    {
      StepDeleting(s, w'.store, w'.requests[i], hash, n);
      var a := Advance(i, QUIET_ORACLE);
      RunsExtend(s, w0, actions', w', a);
      actions', w' := actions' + [a], Apply(s, w', a);
    }
  }

  /** A request that has won its token enters the effects, if its bundle has a key. */
  lemma StepEnters(s: Setting, store: Store, r: Request)
    requires OnTheWay(r, 5) && BundleKey("oidc", r.given.repository).Some?
    ensures Fits(r) && !Finished(r) && !WritesAudit(r)
    ensures Step(s, store, r, QUIET_ORACLE) == Outcome(store, r.(pc := PutBundle), [])
  {
    hide BundleKey, RoutedVerdict, BundleRecord, AuditRecord;
  }

  lemma EntersUndisturbed(s: Setting, w0: World, actions: seq<Action>, w: World, i: nat) returns (actions': seq<Action>, w': World)
    requires s.capability.Reports? && Runs(s, w0, actions, w) && i < |w.requests|
    requires OnTheWay(w.requests[i], 0) && ClaimKey(w.requests[i].given.hash) !in w.store
    requires BundleKey("oidc", w.requests[i].given.repository).Some?
    ensures Runs(s, w0, actions', w') && |w'.requests| == |w.requests|
    ensures w'.requests[i].pc == PutBundle && w'.requests[i].route == w.requests[i].route
    ensures forall j :: 0 <= j < |w.requests| && j != i ==> w'.requests[j] == w.requests[j]
  {
    hide Step, OnTheWay, Fits, Runs, BundleKey, ClaimKey;
    actions', w' := WinsUndisturbed(s, w0, actions, w, i);
    StepEnters(s, w'.store, w'.requests[i]);
    var a := Advance(i, QUIET_ORACLE);
    RunsExtend(s, w0, actions', w', a);
    actions', w' := actions' + [a], Apply(s, w', a);
  }

  /** Two admissible bearers of one unclaimed token, and the deletion that addresses its claim. */
  predicate Reopening(w: World, hash: Digest) {
    && |w.requests| == 3
    && OnTheWay(w.requests[0], 0) && w.requests[0].given.hash == hash && BundleKey("oidc", w.requests[0].given.repository).Some?
    && OnTheWay(w.requests[1], 0) && w.requests[1].given.hash == hash && BundleKey("oidc", w.requests[1].given.repository).Some?
    && Deleting(w.requests[2], hash, 0)
    && ClaimKey(hash) !in w.store
  }

  /**
   The condition is needed: an organisation called `run-token` that deletes the repository named
   after a token's hash deletes the claim, and two requests with the same token are in the effects.
   */
  lemma RunTokenOrganizationReopensClaims(s: Setting, w0: World, hash: Digest) returns (actions: seq<Action>, w: World)
    requires s.capability.Reports? && Reopening(w0, hash)
    ensures Runs(s, w0, actions, w) && |w.requests| == 3
    ensures InEffects(w.requests[0].pc) && w.requests[0].route == w0.requests[0].route
    ensures InEffects(w.requests[1].pc) && w.requests[1].route == w0.requests[1].route
  {
    hide OnTheWay, Deleting, ClaimKey, BundleKey, Runs;
    assert Runs(s, w0, [], w0) by { NoActions(s, w0); }
    actions, w := EntersUndisturbed(s, w0, [], w0, 0);
    actions, w := DeletesUndisturbed(s, w0, actions, w, 2, hash);
    actions, w := EntersUndisturbed(s, w0, actions, w, 1);
  }

  lemma NoActions(s: Setting, w: World)
    ensures Runs(s, w, [], w)
  {}

  /** The organisation that the scope of a run token comes out at. */
  function ScopedOrganization(o: Oracle): Option<Text> {
    if o.order.Some? then Some(o.order.value.organizationId) else o.installation
  }

  /** The outside lets the submission through: its sender, its scope, and its organisation's entitlement. */
  predicate InScopeOf(s: Setting, r: Request, o: Oracle) {
    && (o.order.Some? ==>
      && s.js.lower(o.order.value.repositoryId) == s.js.lower(r.given.repository)
      && (o.installation == None || o.installation == Some("") || o.order.value.organizationId == o.installation.value))
    && (o.denied ==> ScopedOrganization(o) == None || ScopedOrganization(o) == Some(""))
  }

  /** Which is what the route asks of the scope and the entitlement. */
  lemma InScopeExactly(s: Setting, r: Request, o: Oracle)
    ensures InScopeOf(s, r, o) <==>
      && ScopeMatches(s.js, r.given.repository, o.installation, o.order)
      && !(ScopedOrganization(o).Some? && ScopedOrganization(o).value != [] && o.denied)
  {}

  /** What a retry works for: the organisation in scope, or `oidc`. */
  function RetryOrganization(o: Oracle): Text {
    if ScopedOrganization(o).Some? then ScopedOrganization(o).value else "oidc"
  }

  /** An admissible request has just arrived, and what the outside says lets it through. */
  predicate Welcome(s: Setting, r: Request, o: Oracle) {
    r.pc == Start && !r.priorUse && Admissible(r) && o.admitted && InScopeOf(s, r, o)
  }

  /** The request once it is past validation. */
  function Checked(r: Request, o: Oracle, priorUse: bool): Request
    requires r.given.verified.Ok?
  {
    r.(priorUse := priorUse, installation := o.installation, order := o.order, organizationId := ScopedOrganization(o),
       bound := r.given.verified.value, pc := if priorUse then Decide else ClaimToken)
  }

  /** A welcome request gets past validation without a trace, knowing whether its token was used for its payload. */
  lemma GetsChecked(s: Setting, whole: Outcome, store: Store, r: Request, first: Oracle, later: Oracle)
    requires Along(s, whole, store, r, [], first, later) && Welcome(s, r, first)
    requires ClaimKey(r.given.hash) in store ==> ClaimHeld(store, r)
    ensures Along(s, whole, store, Checked(r, first, ClaimKey(r.given.hash) in store), [], first, later)
  {
    InScopeExactly(s, r, first);
    hide Along, ScopeMatches, ClaimKey, InScopeOf;
    var priorUse := ClaimKey(r.given.hash) in store;
    var reading := r.(pc := ReadClaim);
    var scoping := reading.(priorUse := priorUse, pc := ReadScope);
    var validating := scoping.(installation := first.installation, order := first.order, organizationId := ScopedOrganization(first), pc := Validate);
    OnwardQuietly(s, whole, store, r, [], first, later, reading);
    OnwardQuietly(s, whole, store, reading, [], first, later, scoping);
    OnwardQuietly(s, whole, store, scoping, [], first, later, validating);
    OnwardQuietly(s, whole, store, validating, [], first, later, Checked(r, first, priorUse));
  }

  /**
   A retry: when the token is claimed for its payload, a welcome request that nothing interrupts
   is told that it is a replay, and leaves neither a row nor an effect behind.
   */
  lemma RetryIsReplayed(s: Setting, store: Store, r: Request, first: Oracle, later: Oracle)
    requires Fits(r) && Welcome(s, r, first) && ClaimHeld(store, r)
    requires BundleKey(RetryOrganization(first), r.given.repository).Some?
    ensures var end := RunAlone(s, store, r, first, later);
      && end.store == store && end.events == [] && end.request.pc == Answered(Replayed(RetryOrganization(first)))
      && end.request.route == r.route && end.request.given == r.given
  {
    var whole := RunAlone(s, store, r, first, later);
    SetOut(s, store, r, first, later);
    HeldIsThere(store, r);
    hide RunAlone, Along, ScopeMatches, ClaimHeld, BundleKey;
    GetsChecked(s, whole, store, r, first, later);
    var deciding := Checked(r, first, true);
    var replayed := deciding.(pc := Answered(Replayed(RetryOrganization(first))));
    OnwardQuietly(s, whole, store, deciding, [], first, later, replayed);
    Arrived(s, whole, store, replayed, [], first, later);
  }

  /** Where nothing can be inserted, nothing is read back. */
  lemma ClaimUnavailable(s: Setting, whole: Outcome, store: Store, r: Request, first: Oracle, later: Oracle)
    requires Along(s, whole, store, r, [], first, later) && r.pc == ClaimToken && s.capability.Absent?
    requires ClaimKey(r.given.hash) !in store
    ensures Along(s, whole, store, r.(pc := Answered(Unavailable)), [], first, later)
  {
    hide Along, ClaimKey, Organization, OwnClaim, PayloadDigestOf;
    var reading := r.(pc := ReadBack);
    OnwardQuietly(s, whole, store, r, [], first, later, reading);
    OnwardQuietly(s, whole, store, reading, [], first, later, r.(pc := Answered(Unavailable)));
  }

  /** Over a store without insert-if-absent, a welcome request with an unclaimed token is told that the claim is unavailable. */
  lemma AbsenceIsUnavailable(s: Setting, store: Store, r: Request, first: Oracle, later: Oracle)
    requires Fits(r) && Welcome(s, r, first) && ClaimKey(r.given.hash) !in store && s.capability.Absent?
    ensures var end := RunAlone(s, store, r, first, later);
      end.store == store && end.events == [] && end.request.pc == Answered(Unavailable)
  {
    var whole := RunAlone(s, store, r, first, later);
    SetOut(s, store, r, first, later);
    hide RunAlone, Along, ScopeMatches, ClaimKey;
    GetsChecked(s, whole, store, r, first, later);
    hide Welcome, Admissible, InScopeOf;
    var claiming := Checked(r, first, false);
    ClaimUnavailable(s, whole, store, claiming, first, later);
    Arrived(s, whole, store, claiming.(pc := Answered(Unavailable)), [], first, later);
  }

  /** The action lets the users of the token through where the outside is asked about them. */
  predicate Grants(s: Setting, w: World, hash: Digest, a: Action) {
    a.Advance? && a.i < |w.requests| && Uses(w.requests[a.i], hash) ==>
      var r := w.requests[a.i];
      && (r.pc.Start? ==> a.oracle.admitted)
      && (r.pc.ReadScope? ==> InScopeOf(s, r, a.oracle))
  }

  /** A run in which the outside never stands in the way of the users of the token. */
  ghost predicate GrantedRuns(s: Setting, hash: Digest, w0: World, actions: seq<Action>, w: World)
    decreases |actions|
  {
    if actions == [] then w == w0
    else
      var n := |actions| - 1;
      exists v :: GrantedRuns(s, hash, w0, actions[..n], v) && Allowed(s, v, actions[n]) && Grants(s, v, hash, actions[n])
        && w == Apply(s, v, actions[n])
  }

  /** All users of the token submit what would pass, and none is rejected. */
  predicate NoneRejected(w: World, hash: Digest) {
    forall i :: 0 <= i < |w.requests| && Uses(w.requests[i], hash) ==>
      Admissible(w.requests[i]) && w.requests[i].pc != Answered(Rejected)
  }

  /** Only the admission, the scope and the validation reject. */
  lemma RejectsEarly(s: Setting, store: Store, r: Request, o: Oracle)
    requires Fits(r) && !Finished(r) && r.pc != Start && r.pc != ReadScope && r.pc != Validate
    ensures Step(s, store, r, o).request.pc != Answered(Rejected)
  {
    hide Organization, OwnClaim, BundleKey, ClaimKey, AuditKey, RoutedVerdict, BundleRecord, AuditRecord, PayloadDigestOf;
  }

  lemma StepNotRejected(s: Setting, store: Store, r: Request, o: Oracle)
    requires Fits(r) && !Finished(r) && Admissible(r)
    requires r.pc.Start? ==> o.admitted
    requires r.pc.ReadScope? ==> InScopeOf(s, r, o)
    ensures Step(s, store, r, o).request.pc != Answered(Rejected)
  {
    if r.pc == Start || r.pc == ReadScope || r.pc == Validate {
      InScopeExactly(s, r, o);
      hide ScopeMatches, Fits, InScopeOf;
    } else {
      hide Step, Fits, InScopeOf;
      RejectsEarly(s, store, r, o);
    }
  }

  lemma SameSubmission(r: Request, r': Request)
    requires r'.route == r.route && r'.given == r.given
    ensures Admissible(r') <==> Admissible(r)
  {}

  lemma {:induction false} GrantedNotRejected(s: Setting, hash: Digest, w0: World, actions: seq<Action>, w: World)
    requires GrantedRuns(s, hash, w0, actions, w) && NoneRejected(w0, hash)
    ensures Runs(s, w0, actions, w) && NoneRejected(w, hash)
    decreases |actions|
  {
    hide Step, Fits, Honest, InScopeOf, Admissible, Carries;
    if actions != [] {
      var n := |actions| - 1;
      var a := actions[n];
      var v :| GrantedRuns(s, hash, w0, actions[..n], v) && Allowed(s, v, a) && Grants(s, v, hash, a) && w == Apply(s, v, a);
      GrantedNotRejected(s, hash, w0, actions[..n], v);
      if a.Advance? {
        StepAdvances(s, v.store, v.requests[a.i], a.oracle);
        if Uses(v.requests[a.i], hash) {
          StepNotRejected(s, v.store, v.requests[a.i], a.oracle);
          SameSubmission(v.requests[a.i], w.requests[a.i]);
        }
      } else if a.Crash? {
        SameSubmission(v.requests[a.i], w.requests[a.i]);
      }
    }
  }

  /** The payload a request submits is settled when it arrives. */
  lemma GivenStays(s: Setting, w0: World, w: World, i: nat)
    requires Initial(s, w0) && Inv(s, w0, w) && i < |w.requests|
    ensures w.requests[i].route == w0.requests[i].route && w.requests[i].given == w0.requests[i].given
  {
    hide ControlInv, AdmissionInv, Performed, Read;
    assert w0.requests[i] == Arriving(s, w0.requests[i].route);
    assert RequestInv(s, w.store, w.requests[i]);
  }

  /**
   From the inputs alone: among whatever else arrives, let the users of one unclaimed token
   submit what would pass, and let the outside let them through. Whatever the interleaving, once
   all of them are answered exactly one is ingested and the others are replays or conflicts.
   */
  lemma AdmissibleExactlyOneIngests(s: Setting, w0: World, actions: seq<Action>, w: World, hash: Digest, user: nat)
    requires ClaimsApart(s) && s.capability.Reports? && Initial(s, w0) && GrantedRuns(s, hash, w0, actions, w)
    requires ClaimKey(hash) !in w0.store && user < |w0.requests| && Uses(w0.requests[user], hash)
    requires forall i :: 0 <= i < |w0.requests| && Uses(w0.requests[i], hash) ==> Admissible(w0.requests[i])
    requires forall i :: 0 <= i < |w.requests| && Uses(w.requests[i], hash) ==> w.requests[i].pc.Answered?
    ensures OneIngestedOthersSettled(w, hash)
  {
    hide Inv, Runs, GrantedRuns, Admissible, OneIngestedOthersSettled;
    assert NoneRejected(w0, hash);
    GrantedNotRejected(s, hash, w0, actions, w);
    assert Reachable(s, w0, w);
    ReachableInv(s, w0, w);
    assert |w.requests| == |w0.requests| by { SameRequests(s, w0, w); }
    GivenStays(s, w0, w, user);
    ExactlyOneIngests(s, w0, w, hash, user);
  }

  lemma SameRequests(s: Setting, w0: World, w: World)
    requires Inv(s, w0, w)
    ensures |w.requests| == |w0.requests|
  {}
}
