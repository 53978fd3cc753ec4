/** What a request that nothing interrupts does from its arrival to its answer, told from what it sends. */
module IngestOutcomes {
  import opened Sequences
  import opened Unicode
  import opened Digests
  import opened Json
  import opened Receipts
  import opened MetadataKeys
  import opened Ingest
  import opened IngestSafety
  import opened IngestTheorems
  import opened IngestRuns
  import opened IngestRetries
  import opened IngestAnswers

  /** The body holds an acceptable bundle. */
  ghost predicate HoldsBundle(js: Runtime, body: Json) {
    BundleIn(body).Some? && AcceptableBundle(js, BundleIn(body).value)
  }

  /** Every receipt in the bundle is genuine, for the repository the request names and the token's commit. */
  predicate HoldsReceipts(js: Runtime, route: Route)
    requires route.Ingest? && route.caller.ByToken?
  {
    var items := ReceiptsIn(route.body);
    forall i :: 0 <= i < |items| ==> GenuineReceipt(js, items[i], Repository(route), route.caller.token.sha)
  }

  /** A submission that a run token covers: the token's repository, an acceptable bundle, and genuine receipts. */
  ghost predicate Covered(js: Runtime, route: Route)
    requires route.Ingest? && route.caller.ByToken?
  {
    && Repository(route) != [] && route.caller.token.repository == Repository(route)
    && HoldsBundle(js, route.body) && HoldsReceipts(js, route)
  }

  lemma BundleRead(js: Runtime, route: Route)
    requires route.Ingest?
    ensures Read(js, route).bundle == BundleIn(route.body)
    ensures Read(js, route).checked == ValidateHostedAssuranceBundle(js, BundleIn(route.body))
    ensures Read(js, route).checked.Ok? <==> HoldsBundle(js, route.body)
  {
    BundleAcceptedExactly(js, BundleIn(route.body));
    hide ValidateHostedAssuranceBundle, BoundReceipt, Repository, PayloadDigest, AcceptableBundle;
  }

  lemma VerifiedRead(js: Runtime, route: Route)
    requires route.Ingest? && route.caller.ByToken?
    ensures Read(js, route).verified == BoundReceipt(js, ReceiptsIn(route.body), Repository(route), route.caller.token.sha)
    ensures HoldsReceipts(js, route) <==> Read(js, route).verified.Ok?
  {
    BoundExactly(js, ReceiptsIn(route.body), Repository(route), route.caller.token.sha);
    ReceiptsRead(js, route);
    hide ValidateHostedAssuranceBundle, BoundReceipt, Repository, PayloadDigest, ReceiptsIn, GenuineReceipt, ReceiptsOf;
  }

  /** A submission passes the checks of its token exactly when the token covers it. */
  lemma CoveredExactly(s: Setting, route: Route)
    requires route.Ingest? && route.caller.ByToken?
    ensures Covered(s.js, route) <==> Admissible(Arriving(s, route))
  {
    RepositoryRead(s.js, route);
    BundleRead(s.js, route);
    VerifiedRead(s.js, route);
    hide Read, HoldsBundle, HoldsReceipts, Repository;
  }

  /** In every run, a request that claimed its token, or came as far as to be answered by its claim, is covered by it. */
  lemma ClaimantsCovered(s: Setting, w0: World, w: World, i: nat)
    requires ClaimsApart(s) && Reachable(s, w0, w) && i < |w.requests| && ByRunToken(w.requests[i])
    requires w.requests[i].inserted || PastValidation(Reached(w.requests[i].pc))
    ensures HoldsBundle(s.js, w.requests[i].route.body) && HoldsReceipts(s.js, w.requests[i].route)
    ensures w.requests[i].route.caller.token.repository == Repository(w.requests[i].route)
  {
    ReachableInv(s, w0, w);
    hide Inv, TokenInv, OrganizationInv, Read, PastValidation, AllGenuine, Repository, GenuineReceipt, ScopeMatches, AcceptableBundle;
    InvOf(s, w0, w, i);
    var r := w.requests[i];
    assert r.given == Read(s.js, r.route);
    RepositoryRead(s.js, r.route);
    BundleRead(s.js, r.route);
    assert AdmissionInv(s, r);
    PassedCovered(s, r);
  }

  lemma PassedCovered(s: Setting, r: Request)
    requires ByRunToken(r) && r.given == Read(s.js, r.route) && Passed(s, r)
    ensures HoldsBundle(s.js, r.route.body) && HoldsReceipts(s.js, r.route)
  {
    BundleRead(s.js, r.route);
    RepositoryRead(s.js, r.route);
    ReceiptsRead(s.js, r.route);
    hide Read, Repository, GenuineReceipt, AcceptableBundle, ValidateHostedAssuranceBundle, ReceiptsIn;
  }

  /** What is stored and said for every ingest of a bundle. */
  function Effects(s: Setting, organizationId: Text, repository: Text, stored: Record, uuid: Text, actor: Text): seq<Event>
    requires stored.Bundle?
  {
    [BundlePut(organizationId, repository, stored), AuditPut(organizationId, uuid, Audit(AssuranceIngest, repository, actor))]
    + (if s.bucket then [EvidencePut(organizationId, repository, stored.content)] else [])
    + [Published(repository, stored.content)]
  }

  lemma EffectsExactly(s: Setting, r: Request)
    requires r.route.Ingest?
    ensures AfterPublished(s, r) == Effects(s, Organization(r), r.given.repository, BundleRecord(r), r.uuid, AuditRecord(r).actorId)
  {
    hide BundleRecord, Organization;
  }

  /** From the decision to the publication. */
  lemma Publishes(
    s: Setting, whole: Outcome, store: Store, r: Request, before: seq<Event>, first: Oracle, later: Oracle, key: Text)
    requires Along(s, whole, store, r, before, first, later) && r.pc == Decide && !r.priorUse && r.route.Ingest?
    requires BundleKey(Organization(r), r.given.repository) == Some(key)
    ensures
      var audited := r.(uuid := first.uuid);
      Along(
        s, whole, store[key := BundleRecord(r)][AuditKey(Organization(r), first.uuid) := AuditRecord(r)],
        audited.(pc := AfterPublish(r)), before + AfterPublished(s, audited), first, later)
  {
    hide Along, BundleKey, AuditKey, BundleRecord, AuditRecord, Organization, AfterPublish;
    var putting := r.(pc := PutBundle);
    OnwardQuietly(s, whole, store, r, before, first, later, putting);
    RecordsStay(r, putting);
    Stores(s, whole, store, putting, before, first, later, key);
    var audited := r.(uuid := first.uuid);
    RecordsStay(r, audited);
    RecordsStay(r, audited.(pc := if s.bucket then PutEvidence else Publish));
    var kept := store[key := BundleRecord(r)][AuditKey(Organization(r), first.uuid) := AuditRecord(r)];
    PublishesAudited(s, whole, kept, audited, before + AfterAudit(audited), first, later);
    assert (before + AfterAudit(audited)) + Shown(s, audited) == before + AfterPublished(s, audited);
  }

  lemma Stores(
    s: Setting, whole: Outcome, store: Store, r: Request, before: seq<Event>, first: Oracle, later: Oracle, key: Text)
    requires Along(s, whole, store, r, before, first, later) && r.pc == PutBundle && r.route.Ingest?
    requires BundleKey(Organization(r), r.given.repository) == Some(key)
    ensures
      var audited := r.(uuid := first.uuid, pc := if s.bucket then PutEvidence else Publish);
      Along(
        s, whole, store[key := BundleRecord(r)][AuditKey(Organization(r), first.uuid) := AuditRecord(r)],
        audited, before + AfterAudit(audited), first, later)
  {
    hide Along, BundleKey, AuditKey, BundleRecord, AuditRecord, Organization;
    var auditing := r.(pc := PutAudit);
    var audited := r.(uuid := first.uuid, pc := if s.bucket then PutEvidence else Publish);
    RecordsStay(r, auditing);
    RecordsStay(r, audited);
    var put := BundlePut(Organization(r), r.given.repository, BundleRecord(r));
    var audit := AuditPut(Organization(r), first.uuid, AuditRecord(r));
    var stored := store[key := BundleRecord(r)];
    Onward(s, whole, store, r, before, first, later, stored, auditing, [put]);
    var kept := stored[AuditKey(Organization(r), first.uuid) := AuditRecord(r)];
    Onward(s, whole, stored, auditing, before + [put], first, later, kept, audited, [audit]);
    assert before + [put] + [audit] == before + AfterAudit(audited);
  }

  /** The copy and the publication of an ingested bundle. */
  function Shown(s: Setting, r: Request): seq<Event>
    requires r.route.Ingest?
  {
    (if s.bucket then [EvidencePut(Organization(r), r.given.repository, BundleRecord(r).content)] else [])
    + [Published(r.given.repository, BundleRecord(r).content)]
  }

  lemma PublishesAudited(s: Setting, whole: Outcome, store: Store, r: Request, before: seq<Event>, first: Oracle, later: Oracle)
    requires r.route.Ingest? && Along(s, whole, store, r.(pc := if s.bucket then PutEvidence else Publish), before, first, later)
    ensures Along(s, whole, store, r.(pc := AfterPublish(r)), before + Shown(s, r), first, later)
  {
    hide Along, BundleRecord, Organization, AfterPublish;
    var copying, publishing := r.(pc := PutEvidence), r.(pc := Publish);
    RecordsStay(r, copying);
    RecordsStay(r, publishing);
    var published := Published(r.given.repository, BundleRecord(r).content);
    var log := before;
    if s.bucket {
      var evidence := EvidencePut(Organization(r), r.given.repository, BundleRecord(r).content);
      Onward(s, whole, store, copying, before, first, later, store, publishing, [evidence]);
      log := before + [evidence];
    }
    Onward(s, whole, store, publishing, log, first, later, store, r.(pc := AfterPublish(r)), [published]);
    assert log + [published] == before + Shown(s, r);
  }

  /** What a request stores does not depend on how far it has come. */
  lemma RecordsStay(r: Request, r': Request)
    requires r'.route == r.route && r'.given == r.given && r'.organizationId == r.organizationId
    ensures Organization(r') == Organization(r) && AuditRecord(r') == AuditRecord(r) && AfterPublish(r') == AfterPublish(r)
    ensures r.route.Ingest? ==> BundleRecord(r') == BundleRecord(r)
  {}

  /** What the factory is told of a run: nothing without a run or an order, else the verdict twice. */
  function Told(runId: Text, order: Option<WorkOrder>, verdict: Verdict): seq<Event> {
    if runId == [] || order.None? then []
    else [Routed(order.value.workOrderId, verdict), Enqueued(order.value.workOrderId, verdict)]
  }

  /** From the publication to the answer. */
  lemma Tells(s: Setting, whole: Outcome, store: Store, r: Request, before: seq<Event>, first: Oracle, later: Oracle)
    requires Along(s, whole, store, r.(pc := AfterPublish(r)), before, first, later) && ByRunToken(r)
    ensures whole.store == store[ClaimKey(r.given.hash) := OwnClaim(r)]
    ensures whole.request.pc == Answered(Ingested(Organization(r)))
    ensures whole.events ==
      before + Told(r.route.caller.token.runId, later.order, RoutedVerdict(r)) + [ClaimRewritten(r.given.hash, OwnClaim(r))]
  {
    hide Along, ClaimKey, OwnClaim, RoutedVerdict, Organization;
    var log, at := before, r.(pc := AfterPublish(r));
    if at.pc.ReadOrder? && later.order.Some? {
      at := r.(routed := later.order, pc := RouteVerdict);
      OnwardQuietly(s, whole, store, r.(pc := ReadOrder), log, first, later, at);
      TellsOrder(s, whole, store, at, before, first, later);
      log, at := before + [Routed(later.order.value.workOrderId, RoutedVerdict(at))] + [Enqueued(later.order.value.workOrderId, RoutedVerdict(at))],
        at.(pc := RewriteClaim);
      assert log == before + [Routed(later.order.value.workOrderId, RoutedVerdict(r)), Enqueued(later.order.value.workOrderId, RoutedVerdict(r))] by {
        VerdictStays(r, at);
        VerdictStays(r, r.(routed := later.order, pc := RouteVerdict));
      }
    } else if at.pc.ReadOrder? {
      at := r.(routed := later.order, pc := RewriteClaim);
      OnwardQuietly(s, whole, store, r.(pc := ReadOrder), log, first, later, at);
    }
    VerdictStays(r, at);
    assert before + [] == before;
    assert log == before + Told(r.route.caller.token.runId, later.order, RoutedVerdict(r));
    hide Told;
    Rewrites(s, whole, store, at, log, first, later);
  }

  lemma TellsOrder(s: Setting, whole: Outcome, store: Store, r: Request, before: seq<Event>, first: Oracle, later: Oracle)
    requires Along(s, whole, store, r, before, first, later) && ByRunToken(r) && r.pc == RouteVerdict && r.routed.Some?
    ensures
      var id, verdict := r.routed.value.workOrderId, RoutedVerdict(r);
      Along(s, whole, store, r.(pc := RewriteClaim), before + [Routed(id, verdict)] + [Enqueued(id, verdict)], first, later)
  {
    hide Along, RoutedVerdict;
    var queueing := r.(pc := Enqueue);
    VerdictStays(r, queueing);
    var routed, enqueued := Routed(r.routed.value.workOrderId, RoutedVerdict(r)), Enqueued(r.routed.value.workOrderId, RoutedVerdict(r));
    Onward(s, whole, store, r, before, first, later, store, queueing, [routed]);
    Onward(s, whole, store, queueing, before + [routed], first, later, store, r.(pc := RewriteClaim), [enqueued]);
  }

  lemma VerdictStays(r: Request, r': Request)
    requires r.route.Ingest? && r'.route == r.route && r'.given == r.given && r'.bound == r.bound && r'.organizationId == r.organizationId
    ensures RoutedVerdict(r') == RoutedVerdict(r) && Organization(r') == Organization(r)
    ensures ByRunToken(r) ==> OwnClaim(r') == OwnClaim(r)
  {}

  lemma Rewrites(s: Setting, whole: Outcome, store: Store, r: Request, before: seq<Event>, first: Oracle, later: Oracle)
    requires Along(s, whole, store, r, before, first, later) && ByRunToken(r) && r.pc == RewriteClaim
    ensures whole.store == store[ClaimKey(r.given.hash) := OwnClaim(r)]
    ensures whole.request.pc == Answered(Ingested(Organization(r)))
    ensures whole.events == before + [ClaimRewritten(r.given.hash, OwnClaim(r))]
  {
    hide Along, ClaimKey, OwnClaim, Organization;
    var rewritten := ClaimRewritten(r.given.hash, OwnClaim(r));
    var done := r.(pc := Answered(Ingested(Organization(r))));
    var store' := store[ClaimKey(r.given.hash) := OwnClaim(r)];
    Onward(s, whole, store, r, before, first, later, store', done, [rewritten]);
    Arrived(s, whole, store', done, before + [rewritten], first, later);
  }

  /** A first use that is not let through, not covered by its token, or out of scope is rejected and leaves nothing behind. */
  lemma FirstUseRefused(s: Setting, store: Store, r: Request, first: Oracle, later: Oracle)
    requires r == Arriving(s, r.route) && ByRunToken(r) && ClaimKey(r.given.hash) !in store
    requires !(first.admitted && Admissible(r) && InScopeOf(s, r, first))
    ensures RunAlone(s, store, r, first, later).request.pc == Answered(Rejected)
    ensures RunAlone(s, store, r, first, later).store == store && RunAlone(s, store, r, first, later).events == []
  {
    RepositoryRead(s.js, r.route);
    hide Read, RunAlone, InScopeOf, ClaimKey, ClaimHeld, Repository;
    if !first.admitted || r.given.repository == [] {
      TurnedAway(s, store, r.route, first, later);
    } else if r.route.caller.token.repository != r.given.repository {
      WrongRepositoryRejected(s, store, r, first, later);
    } else if !InScopeOf(s, r, first) {
      OutOfScopeRejected(s, store, r, first, later);
    } else {
      FailsValidation(s, store, r, first, later);
    }
  }

  lemma FailsValidation(s: Setting, store: Store, r: Request, first: Oracle, later: Oracle)
    requires Fits(r) && Presents(r, first) && ClaimKey(r.given.hash) !in store && InScopeOf(s, r, first)
    requires r.given.checked.Err? || r.given.verified.Err?
    ensures RunAlone(s, store, r, first, later).request.pc == Answered(Rejected)
    ensures RunAlone(s, store, r, first, later).store == store && RunAlone(s, store, r, first, later).events == []
  {
    var whole := RunAlone(s, store, r, first, later);
    SetOut(s, store, r, first, later);
    InScopeExactly(s, r, first);
    hide RunAlone, Along, ClaimKey, ScopeMatches, InScopeOf;
    var reading := r.(pc := ReadClaim);
    var scoping := reading.(pc := ReadScope);
    var validating := scoping.(installation := first.installation, order := first.order, organizationId := ScopedOrganization(first), pc := Validate);
    OnwardQuietly(s, whole, store, r, [], first, later, reading);
    OnwardQuietly(s, whole, store, reading, [], first, later, scoping);
    hide Presents;
    OnwardQuietly(s, whole, store, scoping, [], first, later, validating);
    RejectsInvalid(s, whole, store, validating, first, later);
  }

  lemma RejectsInvalid(s: Setting, whole: Outcome, store: Store, r: Request, first: Oracle, later: Oracle)
    requires Along(s, whole, store, r, [], first, later) && r.pc == Validate
    requires r.given.checked.Err? || (ByRunToken(r) && r.given.verified.Err?)
    ensures whole == Outcome(store, r.(pc := Answered(Rejected)), [])
  {
    hide Along;
    OnwardQuietly(s, whole, store, r, [], first, later, r.(pc := Answered(Rejected)));
    Arrived(s, whole, store, r.(pc := Answered(Rejected)), [], first, later);
  }

  /** The row a first use claims its token with. */
  function ClaimOf(js: Runtime, route: Route): Record
    requires route.Ingest? && route.caller.ByToken?
  {
    Claim(HexDigest(js.Fingerprint(UseOf(route))), route.caller.token.runId, Repository(route), route.caller.token.expiresAt)
  }

  /** A first use that gets through claims its token, and is next decided upon. */
  lemma FirstUseClaims(s: Setting, whole: Outcome, store: Store, r: Request, first: Oracle, later: Oracle)
    requires Along(s, whole, store, r, [], first, later) && Welcome(s, r, first) && s.capability.Reports?
    requires ClaimKey(r.given.hash) !in store
    ensures
      var deciding := Checked(r, first, false).(inserted := true, claimed := true, pc := Decide);
      Along(s, whole, store[ClaimKey(r.given.hash) := OwnClaim(r)], deciding, [Claimed(r.given.hash, OwnClaim(r))], first, later)
  {
    hide Along, ClaimKey, OwnClaim;
    GetsChecked(s, whole, store, r, first, later);
    hide Welcome, Admissible, InScopeOf;
    var claiming := Checked(r, first, false);
    assert OwnClaim(claiming) == OwnClaim(r) by { VerdictlessClaim(r, claiming); }
    var deciding := claiming.(inserted := true, claimed := true, pc := Decide);
    var claimed := Claimed(r.given.hash, OwnClaim(r));
    Onward(s, whole, store, claiming, [], first, later, store[ClaimKey(r.given.hash) := OwnClaim(r)], deciding, [claimed]);
    assert [] + [claimed] == [claimed];
  }

  lemma VerdictlessClaim(r: Request, r': Request)
    requires ByRunToken(r) && r'.route == r.route && r'.given == r.given
    ensures OwnClaim(r') == OwnClaim(r)
  {}

  /** A request for this route, run from its arrival to its end with nothing in between. */
  function Alone(s: Setting, store: Store, route: Route, first: Oracle, later: Oracle): Outcome {
    RunAlone(s, store, Arriving(s, route), first, later)
  }

  predicate RejectsQuietly(store: Store, end: Outcome) {
    end.request.pc == Answered(Rejected) && end.store == store && end.events == []
  }

  /** The claim is left behind on its own. */
  predicate LeavesClaim(store: Store, end: Outcome, hash: Digest, claim: Record) {
    && end.request.pc == Stopped(Decide)
    && end.store == store["assurance:run-token:" + HexDigest(hash) := claim]
    && end.events == [Claimed(hash, claim)]
  }

  /** The claim, the bundle, the audit entry, the copy and the publication, what the factory is told, and the claim again. */
  predicate Ingests(
    s: Setting, store: Store, end: Outcome, hash: Digest, claim: Record, key: Text, stored: Record, uuid: Text, told: seq<Event>)
    requires stored.Bundle?
  {
    var claimKey := "assurance:run-token:" + HexDigest(hash);
    var auditKey := AuditKey(stored.organizationId, uuid);
    && end.request.pc == Answered(Ingested(stored.organizationId))
    && end.store ==
      store[claimKey := claim][key := stored][auditKey := Audit(AssuranceIngest, stored.repository, "action")][claimKey := claim]
    && end.events ==
      [Claimed(hash, claim)] + Effects(s, stored.organizationId, stored.repository, stored, uuid, "action") + told
        + [ClaimRewritten(hash, claim)]
  }

  predicate LetThrough(s: Setting, route: Route, o: Oracle) {
    o.admitted && InScopeOf(s, Arriving(s, route), o)
  }

  /**
   The first use of a run token over a store that reports its insertions. A request that is let
   through, covered by its token and in scope claims it, stores and shows its bundle, tells the
   factory of the run, and is ingested; any other is rejected without a trace. Only an
   organisation or repository that no key can hold leaves the claim behind on its own.
   */
  lemma FirstUseExactly(s: Setting, store: Store, route: Route, first: Oracle, later: Oracle)
    requires route.Ingest? && route.caller.ByToken? && s.capability.Reports?
    requires ("assurance:run-token:" + HexDigest(s.js.sha256(Utf8(route.caller.bearer)))) !in store
    ensures
      var end, hash, claim := Alone(s, store, route, first, later), s.js.sha256(Utf8(route.caller.bearer)), ClaimOf(s.js, route);
      if !LetThrough(s, route, first) || !Covered(s.js, route) then RejectsQuietly(store, end)
      else
        match BundleKey(RetryOrganization(first), Repository(route))
        case None => LeavesClaim(store, end, hash, claim)
        case Some(key) =>
          && BundleIn(route.body).Some?
          && var runId := route.caller.token.runId;
          var stored := Bundle(BundleIn(route.body).value, Repository(route), RetryOrganization(first), Some(runId));
          Ingests(s, store, end, hash, claim, key, stored, first.uuid, Told(runId, later.order, LastStated(ReceiptsIn(route.body))))
  {
    var r := Arriving(s, route);
    CoveredExactly(s, route);
    RepositoryRead(s.js, route);
    TokenRead(s.js, route);
    ClaimKeySpelled(r.given.hash);
    OwnClaimSpelled(s, r);
    BundleRead(s.js, route);
    ReceiptsRead(s.js, route);
    hide Covered, Read, Repository, Admissible, BundleKey, RetryOrganization, Ingests, LeavesClaim, ClaimKey, ClaimOf, OwnClaim;
    if LetThrough(s, route, first) && Covered(s.js, route) {
      assert Welcome(s, r, first);
      FirstUseIngested(s, store, r, first, later);
    } else {
      FirstUseRefused(s, store, r, first, later);
    }
  }

  lemma OwnClaimSpelled(s: Setting, r: Request)
    requires ByRunToken(r) && r.given == Read(s.js, r.route)
    ensures OwnClaim(r) == ClaimOf(s.js, r.route)
  {
    PayloadMeans(s.js, r.route);
    RepositoryRead(s.js, r.route);
    hide Read, UseOf;
  }

  lemma FirstUseIngested(s: Setting, store: Store, r: Request, first: Oracle, later: Oracle)
    requires r == Arriving(s, r.route) && Welcome(s, r, first) && s.capability.Reports? && ClaimKey(r.given.hash) !in store
    ensures r.given.bundle.Some?
    ensures
      var end := RunAlone(s, store, r, first, later);
      match BundleKey(RetryOrganization(first), r.given.repository)
      case None => LeavesClaim(store, end, r.given.hash, OwnClaim(r))
      case Some(key) =>
        var runId := r.route.caller.token.runId;
        var stored := Bundle(r.given.bundle.value, r.given.repository, RetryOrganization(first), Some(runId));
        Ingests(s, store, end, r.given.hash, OwnClaim(r), key, stored, first.uuid, Told(runId, later.order, LastStated(r.given.receipts)))
  {
    var whole := RunAlone(s, store, r, first, later);
    SetOut(s, store, r, first, later);
    FirstUseClaims(s, whole, store, r, first, later);
    var deciding := Checked(r, first, false).(inserted := true, claimed := true, pc := Decide);
    DecidedFacts(s, r, first, deciding);
    hide RunAlone, Along, Read, Welcome, ClaimKey, OwnClaim, BundleKey, RoutedVerdict, BundleRecord, Told, LastStated;
    hide Ingests, LeavesClaim;
    match BundleKey(RetryOrganization(first), r.given.repository)
    case None => StopsAfterClaim(s, whole, store, deciding, first, later);
    case Some(key) => IngestsAfterClaim(s, whole, store, deciding, first, later, key);
  }

  /** What a welcome request has at hand when its bundle is decided upon. */
  lemma DecidedFacts(s: Setting, r: Request, first: Oracle, deciding: Request)
    requires r == Arriving(s, r.route) && Welcome(s, r, first)
    requires deciding == Checked(r, first, false).(inserted := true, claimed := true, pc := Decide)
    ensures r.given.bundle.Some? && Organization(deciding) == RetryOrganization(first) && OwnClaim(deciding) == OwnClaim(r)
    ensures BundleRecord(deciding) ==
      Bundle(r.given.bundle.value, r.given.repository, RetryOrganization(first), Some(r.route.caller.token.runId))
    ensures RoutedVerdict(deciding) == LastStated(r.given.receipts)
  {
    BundleRead(s.js, r.route);
    ValidatedPassed(s, deciding);
    RoutedIsLastStated(s, deciding);
    hide Read, RoutedVerdict, LastStated, AllGenuine, InScopeOf, AcceptableBundle;
  }

  lemma StopsAfterClaim(s: Setting, whole: Outcome, store: Store, r: Request, first: Oracle, later: Oracle)
    requires ByRunToken(r) && r.pc == Decide && BundleKey(Organization(r), r.given.repository).None?
    requires Along(s, whole, store[ClaimKey(r.given.hash) := OwnClaim(r)], r, [Claimed(r.given.hash, OwnClaim(r))], first, later)
    ensures LeavesClaim(store, whole, r.given.hash, OwnClaim(r))
  {
    ClaimKeySpelled(r.given.hash);
    hide Along, ClaimKey, OwnClaim, BundleKey, Organization;
    var claiming, stopped := store[ClaimKey(r.given.hash) := OwnClaim(r)], r.(pc := Stopped(Decide));
    OnwardQuietly(s, whole, claiming, r, [Claimed(r.given.hash, OwnClaim(r))], first, later, stopped);
    Arrived(s, whole, claiming, stopped, [Claimed(r.given.hash, OwnClaim(r))], first, later);
  }

  lemma IngestsAfterClaim(s: Setting, whole: Outcome, store: Store, r: Request, first: Oracle, later: Oracle, key: Text)
    requires ByRunToken(r) && r.pc == Decide && !r.priorUse && BundleKey(Organization(r), r.given.repository) == Some(key)
    requires Along(s, whole, store[ClaimKey(r.given.hash) := OwnClaim(r)], r, [Claimed(r.given.hash, OwnClaim(r))], first, later)
    ensures Ingests(
      s, store, whole, r.given.hash, OwnClaim(r), key, BundleRecord(r), first.uuid,
      Told(r.route.caller.token.runId, later.order, RoutedVerdict(r)))
  {
    ClaimKeySpelled(r.given.hash);
    var claiming := store[ClaimKey(r.given.hash) := OwnClaim(r)];
    var claimed := [Claimed(r.given.hash, OwnClaim(r))];
    var audited := r.(uuid := first.uuid);
    VerdictStays(r, audited);
    RecordsStay(r, audited);
    EffectsExactly(s, audited);
    BundleLabels(r);
    hide Along, ClaimKey, OwnClaim, BundleKey, AuditKey, RoutedVerdict, Told, Effects, AfterPublished;
    Publishes(s, whole, claiming, r, claimed, first, later, key);
    hide BundleRecord, Organization;
    var kept := claiming[key := BundleRecord(r)][AuditKey(Organization(r), first.uuid) := AuditRecord(r)];
    Tells(s, whole, kept, audited, claimed + AfterPublished(s, audited), first, later);
  }

  lemma BundleLabels(r: Request)
    requires r.route.Ingest?
    ensures BundleRecord(r).organizationId == Organization(r) && BundleRecord(r).repository == r.given.repository
  {}

  /** Nothing but the point it stopped at remains of a request. */
  predicate StopsQuietly(store: Store, end: Outcome, at: Pc) {
    end.request.pc == Stopped(at) && end.store == store && end.events == []
  }

  predicate Named(route: Route, o: Oracle) {
    o.admitted && Repository(route) != []
  }

  /** An ingest in a session: without a claim and without a run, and in the name of its user. */
  lemma SessionExactly(s: Setting, store: Store, route: Route, first: Oracle, later: Oracle)
    requires route.Ingest? && route.caller.BySession?
    ensures
      var end, organizationId, repository := Alone(s, store, route, first, later), route.caller.organizationId, Repository(route);
      if !Named(route, first) || !HoldsBundle(s.js, route.body) then RejectsQuietly(store, end)
      else
        match BundleKey(organizationId, repository)
        case None => StopsQuietly(store, end, Decide)
        case Some(key) =>
          && BundleIn(route.body).Some?
          && var stored := Bundle(BundleIn(route.body).value, repository, organizationId, None);
          var auditKey, audit := AuditKey(organizationId, first.uuid), Audit(AssuranceIngest, repository, route.caller.userId);
          && end.request.pc == Answered(Ingested(organizationId))
          && end.store == store[key := stored][auditKey := audit]
          && end.events == Effects(s, organizationId, repository, stored, first.uuid, route.caller.userId)
  {
    var r := Arriving(s, route);
    RepositoryRead(s.js, route);
    BundleRead(s.js, route);
    hide Read, Repository, BundleKey, HoldsBundle, Effects, AuditKey;
    if !Named(route, first) {
      TurnedAway(s, store, route, first, later);
    } else {
      SessionAdmitted(s, store, r, first, later);
    }
  }

  lemma SessionAdmitted(s: Setting, store: Store, r: Request, first: Oracle, later: Oracle)
    requires Fits(r) && r.pc == Start && !r.priorUse && first.admitted && r.given.repository != []
    requires r.route.Ingest? && r.route.caller.BySession?
    ensures
      var end, decided := RunAlone(s, store, r, first, later), r.(organizationId := Some(r.route.caller.organizationId));
      if r.given.checked.Err? then RejectsQuietly(store, end)
      else
        match BundleKey(Organization(decided), r.given.repository)
        case None => StopsQuietly(store, end, Decide)
        case Some(key) => IngestsForSession(s, store, end, decided, key, first.uuid)
  {
    var whole := RunAlone(s, store, r, first, later);
    SetOut(s, store, r, first, later);
    hide RunAlone, Along, Effects, IngestsForSession, BundleKey;
    var validating := r.(organizationId := Some(r.route.caller.organizationId), pc := Validate);
    OnwardQuietly(s, whole, store, r, [], first, later, validating);
    if r.given.checked.Err? {
      RejectsInvalid(s, whole, store, validating, first, later);
    } else {
      var deciding := validating.(pc := Decide);
      OnwardQuietly(s, whole, store, validating, [], first, later, deciding);
      SessionDecided(s, whole, store, deciding, first, later);
      SessionStays(s, store, whole, deciding, r.(organizationId := Some(r.route.caller.organizationId)), first.uuid);
    }
  }

  predicate IngestsForSession(s: Setting, store: Store, end: Outcome, r: Request, key: Text, uuid: Text)
    requires r.route.Ingest?
  {
    && end.request.pc == Answered(Ingested(Organization(r)))
    && end.store == store[key := BundleRecord(r)][AuditKey(Organization(r), uuid) := AuditRecord(r)]
    && end.events == Effects(s, Organization(r), r.given.repository, BundleRecord(r), uuid, AuditRecord(r).actorId)
  }

  lemma SessionStays(s: Setting, store: Store, end: Outcome, r: Request, r': Request, uuid: Text)
    requires r.route.Ingest? && r'.route == r.route && r'.given == r.given && r'.organizationId == r.organizationId
    ensures Organization(r') == Organization(r)
    ensures forall key :: IngestsForSession(s, store, end, r', key, uuid) <==> IngestsForSession(s, store, end, r, key, uuid)
  {
    RecordsStay(r, r');
    hide Organization, BundleRecord, AuditRecord, Effects;
  }

  lemma SessionDecided(s: Setting, whole: Outcome, store: Store, r: Request, first: Oracle, later: Oracle)
    requires Along(s, whole, store, r, [], first, later) && r.pc == Decide && r.route.Ingest? && !ByRunToken(r) && !r.priorUse
    ensures
      match BundleKey(Organization(r), r.given.repository)
      case None => StopsQuietly(store, whole, Decide)
      case Some(key) => IngestsForSession(s, store, whole, r, key, first.uuid)
  {
    hide Along, BundleKey, BundleRecord, AuditRecord, Organization, Effects, AuditKey, AfterPublished;
    match BundleKey(Organization(r), r.given.repository)
    case None =>
      OnwardQuietly(s, whole, store, r, [], first, later, r.(pc := Stopped(Decide)));
      Arrived(s, whole, store, r.(pc := Stopped(Decide)), [], first, later);
    case Some(key) =>
      var audited := r.(uuid := first.uuid);
      Publishes(s, whole, store, r, [], first, later, key);
      RecordsStay(r, audited);
      EffectsExactly(s, audited);
      var kept := store[key := BundleRecord(r)][AuditKey(Organization(r), first.uuid) := AuditRecord(r)];
      Arrived(s, whole, kept, audited.(pc := AfterPublish(r)), [] + AfterPublished(s, audited), first, later);
  }

  /** A deletion takes the bundle's own row away and leaves an entry that says who did. */
  lemma DeletionExactly(s: Setting, store: Store, route: Route, first: Oracle, later: Oracle)
    requires route.Delete?
    ensures
      var end, organizationId, repository := Alone(s, store, route, first, later), route.organizationId, Repository(route);
      if !Named(route, first) then RejectsQuietly(store, end)
      else
        match BundleKey(organizationId, repository)
        case None => StopsQuietly(store, end, DeleteBundle)
        case Some(key) =>
          var auditKey, audit := AuditKey(organizationId, first.uuid), Audit(AssuranceDelete, repository, route.userId);
          && end.request.pc == Answered(Deleted)
          && end.store == (store - {key})[auditKey := audit]
          && end.events == [BundleDeleted(organizationId, repository), AuditPut(organizationId, first.uuid, audit)]
  {
    var r := Arriving(s, route);
    RepositoryRead(s.js, route);
    hide Read, Repository, BundleKey, AuditKey;
    if !Named(route, first) {
      TurnedAway(s, store, route, first, later);
    } else {
      var whole := RunAlone(s, store, r, first, later);
      SetOut(s, store, r, first, later);
      hide RunAlone, Along;
      var deleting := r.(pc := DeleteBundle);
      OnwardQuietly(s, whole, store, r, [], first, later, deleting);
      match BundleKey(route.organizationId, r.given.repository)
      case None =>
        OnwardQuietly(s, whole, store, deleting, [], first, later, r.(pc := Stopped(DeleteBundle)));
        Arrived(s, whole, store, r.(pc := Stopped(DeleteBundle)), [], first, later);
      case Some(key) => DeletesAlone(s, whole, store, deleting, first, later, key);
    }
  }

  lemma DeletesAlone(s: Setting, whole: Outcome, store: Store, r: Request, first: Oracle, later: Oracle, key: Text)
    requires Along(s, whole, store, r, [], first, later) && r.pc == DeleteBundle
    requires BundleKey(Organization(r), r.given.repository) == Some(key)
    ensures whole.request.pc == Answered(Deleted)
    ensures whole.store == (store - {key})[AuditKey(Organization(r), first.uuid) := AuditRecord(r)]
    ensures whole.events ==
      [BundleDeleted(Organization(r), r.given.repository), AuditPut(Organization(r), first.uuid, AuditRecord(r))]
  {
    hide Along, BundleKey, AuditKey, AuditRecord, Organization;
    var auditing, done := r.(pc := AuditDelete), r.(uuid := first.uuid, pc := Answered(Deleted));
    RecordsStay(r, auditing);
    var deleted := BundleDeleted(Organization(r), r.given.repository);
    var audit := AuditPut(Organization(r), first.uuid, AuditRecord(r));
    var kept := (store - {key})[AuditKey(Organization(r), first.uuid) := AuditRecord(r)];
    Onward(s, whole, store, r, [], first, later, store - {key}, auditing, [deleted]);
    Onward(s, whole, store - {key}, auditing, [] + [deleted], first, later, kept, done, [audit]);
    Arrived(s, whole, kept, done, [] + [deleted] + [audit], first, later);
  }

  /** A summary answers with the row of the bundle, if there is one, and changes nothing. */
  lemma SummaryExactly(s: Setting, store: Store, route: Route, first: Oracle, later: Oracle)
    requires route.Summary?
    ensures
      var end := Alone(s, store, route, first, later);
      if !Named(route, first) then RejectsQuietly(store, end)
      else
        match BundleKey(route.organizationId, Repository(route))
        case None => StopsQuietly(store, end, ReadBundle)
        case Some(key) =>
          && end.request.pc == Answered(Found(if key in store then Some(store[key]) else None))
          && end.store == store && end.events == []
  {
    var r := Arriving(s, route);
    RepositoryRead(s.js, route);
    hide Read, Repository, BundleKey;
    if !Named(route, first) {
      TurnedAway(s, store, route, first, later);
    } else {
      var whole := RunAlone(s, store, r, first, later);
      SetOut(s, store, r, first, later);
      hide RunAlone, Along;
      var reading := r.(pc := ReadBundle);
      OnwardQuietly(s, whole, store, r, [], first, later, reading);
      var end := match BundleKey(route.organizationId, r.given.repository)
        case None => r.(pc := Stopped(ReadBundle))
        case Some(key) => r.(pc := Answered(Found(if key in store then Some(store[key]) else None)));
      OnwardQuietly(s, whole, store, reading, [], first, later, end);
      Arrived(s, whole, store, end, [], first, later);
    }
  }

  /** What a route names its repository with: the body's field, or the query of a summary. */
  lemma RepositoryNamed(route: Route, name: Text)
    requires name != []
    ensures
      var value := match route
        case Ingest(_, body) => Field(body, "repository")
        case Delete(_, _, body) => Field(body, "repository")
        case Summary(_, query) => Some(query);
      Repository(route) == name <==> value.Some? && value.value.Str? && Nameable(value.value.s) && Bare(value.value.s, name)
  {
    RepositoryExactly(if route.Summary? then Some(route.query) else Field(route.body, "repository"), name);
    hide Nameable, Bare, AssuranceRepository;
  }
}
