/** What a retry of a submission achieves: an answer, and nothing besides. */
module IngestRetries {
  import opened Unicode
  import opened MetadataKeys
  import opened Ingest
  import opened IngestSafety
  import opened IngestTheorems
  import opened IngestRuns

  /** Each effect comes after those before it. */
  lemma EffectsGrow(s: Setting, r: Request)
    ensures |AfterBundle(r)| < |AfterAudit(r)| <= |AfterEvidence(s, r)| <= |AfterPublished(s, r)| <= |AfterRouted(s, r)| <= |AfterQueued(s, r)|
    ensures ByRunToken(r) ==> |AfterQueued(s, r)| < |Plan(s, r)|
  {}

  /** A run-token request has performed its claim and its whole plan exactly when it was answered as ingested. */
  lemma PlanDoneExactly(s: Setting, r: Request)
    requires Fits(r) && ByRunToken(r)
    ensures Performed(s, r) == ClaimEvents(s, r) + Plan(s, r) <==> IsIngested(r)
  {
    EffectsGrow(s, r);
    hide AfterBundle, AfterAudit, AfterEvidence, AfterPublished, AfterRouted, AfterQueued, Plan, ClaimEvents;
    if IsIngested(r) {
      assert Performed(s, r) == ClaimEvents(s, r) + Plan(s, r);
    } else {
      assert |Performed(s, r)| < |ClaimEvents(s, r) + Plan(s, r)|;
    }
  }

  /** A retry that has just arrived: the same token, the same payload, and nothing in its way. */
  predicate Retries(s: Setting, claimant: Request, r: Request, bearer: Text, o: Oracle) {
    && Bears(r, bearer) && r == Arriving(s, r.route) && Welcome(s, r, o)
    && r.given.payload == claimant.given.payload && BundleKey(RetryOrganization(o), r.given.repository).Some?
  }

  lemma ClaimedForRetry(s: Setting, store: Store, claimant: Request, r: Request, bearer: Text)
    requires RequestInv(s, store, claimant) && RequestInv(s, store, r) && Bears(claimant, bearer) && Bears(r, bearer)
    requires claimant.inserted && r.given.payload == claimant.given.payload
    ensures ClaimHeld(store, r)
  {
    SameHash(s, store, claimant, r, bearer);
    ClaimOfInserted(s, store, claimant);
    hide RequestInv;
  }

  lemma InvOf(s: Setting, w0: World, w: World, i: nat)
    requires Inv(s, w0, w) && i < |w.requests|
    ensures RequestInv(s, w.store, w.requests[i]) && Fits(w.requests[i])
  {
    hide AdmissionInv, TokenInv;
  }

  /**
   An exact retry after the claimant has finished, with an answer or without one. The retry is
   told that it is a replay and changes nothing, so what has then been done for the token is the
   claimant's whole plan exactly when the claimant itself had been answered as ingested.
   */
  lemma RetryCompletesExactly(
    s: Setting, w0: World, actions: seq<Action>, w: World, bearer: Text, i: nat, j: nat, first: Oracle, later: Oracle)
    returns (actions': seq<Action>, w': World)
    requires ClaimsApart(s) && Initial(s, w0) && Runs(s, w0, actions, w) && i < |w.requests| && j < |w.requests|
    requires Bears(w.requests[i], bearer) && w.requests[i].inserted && Finished(w.requests[i])
    requires Retries(s, w.requests[i], w.requests[j], bearer, first)
    requires HonestOracle(s, first) && HonestOracle(s, later) && IsUuid(first.uuid) && first.uuid !in w.uuids
    ensures Runs(s, w0, actions', w') && w'.store == w.store && w'.log == w.log && |w'.requests| == |w.requests|
    ensures w'.requests[j].pc == Answered(Replayed(RetryOrganization(first)))
    ensures var claimant := w.requests[i];
      w'.requests[i] == claimant
      && (TokenEvents(w'.requests, w'.log, bearer) == ClaimEvents(s, claimant) + Plan(s, claimant) <==> IsIngested(claimant))
  {
    hide Runs, Inv, RunAlone, Fits, TokenEvents, Performed, Plan, ClaimEvents, RequestInv, Welcome, ClaimHeld, Initial;
    assert Reachable(s, w0, w);
    ReachableInv(s, w0, w);
    InvOf(s, w0, w, i);
    InvOf(s, w0, w, j);
    ClaimedForRetry(s, w.store, w.requests[i], w.requests[j], bearer);
    RetryIsReplayed(s, w.store, w.requests[j], first, later);
    actions', w' := AloneIsARun(s, w0, actions, w, j, first, later);
    assert w'.log == w.log;
    assert i != j;
    assert Reachable(s, w0, w');
    ReachableInv(s, w0, w');
    TokenEventsOfInserter(s, w0, w', bearer, i);
    PlanDoneExactly(s, w.requests[i]);
  }

  /**
   A submission that is lost: its first request stops between the claim and the bundle, the
   exact retry is told that it is a replay, and the token's only event is the claim.
   */
  lemma LostBetweenClaimAndBundle(s: Setting, w0: World, bearer: Text, first: Oracle, later: Oracle)
    returns (actions: seq<Action>, w: World)
    requires ClaimsApart(s) && s.capability.Reports? && Initial(s, w0) && |w0.requests| == 2
    requires Bears(w0.requests[0], bearer) && OnTheWay(w0.requests[0], 0) && ClaimKey(w0.requests[0].given.hash) !in w0.store
    requires Retries(s, w0.requests[0], w0.requests[1], bearer, first)
    requires HonestOracle(s, first) && HonestOracle(s, later) && IsUuid(first.uuid) && first.uuid !in w0.uuids
    ensures Runs(s, w0, actions, w) && |w.requests| == 2
    ensures w.requests[0].pc == Stopped(Decide) && w.requests[1].pc == Answered(Replayed(RetryOrganization(first)))
    ensures Bears(w.requests[0], bearer) && TokenEvents(w.requests, w.log, bearer) == [Claimed(w.requests[0].given.hash, OwnClaim(w.requests[0]))]
  {
    hide Runs, Inv, Fits, TokenEvents, Performed, RequestInv, Welcome, Initial, ClaimKey, OwnClaim;
    assert Runs(s, w0, [], w0) by { NoActions(s, w0); }
    actions, w := WinsUndisturbed(s, w0, [], w0, 0);
    assert Reachable(s, w0, w);
    ReachableInv(s, w0, w);
    InvOf(s, w0, w, 0);
    ClaimedIsInserted(s, w.store, w.requests[0]);
    RunsExtend(s, w0, actions, w, Crash(0));
    actions, w := actions + [Crash(0)], Apply(s, w, Crash(0));
    assert Reachable(s, w0, w);
    ReachableInv(s, w0, w);
    GivenStays(s, w0, w, 0);
    actions, w := RetryCompletesExactly(s, w0, actions, w, bearer, 0, 1, first, later);
    assert Reachable(s, w0, w);
    ReachableInv(s, w0, w);
    TokenEventsOfInserter(s, w0, w, bearer, 0);
    QuietPerformed(s, w.requests[0]);
  }

  lemma ClaimedIsInserted(s: Setting, store: Store, r: Request)
    requires RequestInv(s, store, r) && r.claimed
    ensures r.inserted && ByRunToken(r)
  {
    hide AdmissionInv, OwnClaimStored, ClaimHeld;
  }
}
