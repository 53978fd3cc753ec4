/** What every reachable state of the assurance routes satisfies, and the safety theorems that follow. */
module IngestSafety {
  import opened Sequences
  import opened Digests
  import opened Receipts
  import opened MetadataKeys
  import opened Ingest

  /** The table holds a claim for the request's token, and it names the request's payload. */
  predicate ClaimHeld(store: Store, r: Request)
    requires ByRunToken(r)
  {
    var key := ClaimKey(r.given.hash);
    key in store && PayloadDigestOf(store[key]) == Some(r.given.payload)
  }

  /** The table holds exactly the record this request would claim the token with. */
  predicate OwnClaimStored(store: Store, r: Request)
    requires ByRunToken(r)
  {
    var key := ClaimKey(r.given.hash);
    key in store && store[key] == OwnClaim(r)
  }

  /** The submission is an acceptable bundle, and under a run token every receipt in it is genuine. */
  ghost predicate Passed(s: Setting, r: Request)
    requires r.route.Ingest?
  {
    && r.given.bundle.Some? && AcceptableBundle(s.js, r.given.bundle.value)
    && (ByRunToken(r) ==> AllGenuine(s, r))
  }

  /** The request names the token's repository, and its order belongs to that repository and installation. */
  predicate InScope(s: Setting, r: Request)
    requires ByRunToken(r)
  {
    r.route.caller.token.repository == r.given.repository && ScopeMatches(s.js, r.given.repository, r.installation, r.order)
  }

  /** Every submitted receipt is genuine, and the last of them is the bound one. */
  predicate AllGenuine(s: Setting, r: Request)
    requires ByRunToken(r)
  {
    var receipts := r.given.receipts;
    && (forall i :: 0 <= i < |receipts| ==> GenuineReceipt(s.js, receipts[i], r.given.repository, r.route.caller.token.sha))
    && r.bound == if receipts == [] then None else Some(receipts[|receipts| - 1])
  }

  /** How a run-token request and its token's claim stand to each other. */
  predicate TokenInv(s: Setting, store: Store, r: Request)
    requires ByRunToken(r)
  {
    var at := Reached(r.pc);
    && (r.priorUse ==> ClaimHeld(store, r) && !r.inserted)
    && (r.inserted ==> OwnClaimStored(store, r) && !s.capability.Absent?)
    && (r.claimed <==> r.inserted && s.capability.Reports?)
    && (BeforeClaim(at) ==> !r.inserted)
    && (at == ReadBack ==> !r.claimed && (s.capability.Absent? || ClaimKey(r.given.hash) in store))
    && (at == Decide ==> r.claimed || r.priorUse)
    && (InEffects(at) ==> r.claimed)
    && (r.claimed ==> at == Decide || InEffects(at))
    && (at.Answered? && at.answer.Replayed? ==> ClaimHeld(store, r))
    && (at.Answered? && at.answer.Unavailable? ==> s.capability.Absent?)
    && (at.Answered? && at.answer.Conflict? ==> ClaimKey(r.given.hash) in store && !ClaimHeld(store, r))
  }

  /** The organisation a request works for is a known one. */
  predicate OrganizationInv(s: Setting, r: Request) {
    KnownOrganization(s, r.route) && (r.organizationId.Some? ==> r.organizationId.value in s.organizations)
  }

  /** Control and claims: what the safety of the effects rests on. */
  predicate ControlInv(s: Setting, store: Store, r: Request) {
    && Fits(r)
    && OrganizationInv(s, r)
    && (r.pc.PutEvidence? ==> s.bucket)
    && (if ByRunToken(r) then TokenInv(s, store, r) else !r.inserted && !r.claimed)
    && (r.routed.Some? ==> ByRunToken(r) && (r.pc.Stopped? || r.pc.RouteVerdict? || r.pc.Enqueue? || r.pc.RewriteClaim? || r.pc.Answered?))
  }

  /** Admission: what a request has shown about itself by the time it gets somewhere. */
  ghost predicate AdmissionInv(s: Setting, r: Request) {
    var at := Reached(r.pc);
    && (ByRunToken(r) && (at.ReadClaim? || at.ReadScope?) ==> r.route.caller.token.repository == r.given.repository)
    && (ByRunToken(r) && PastScope(at) ==> InScope(s, r))
    && (r.route.Ingest? && PastValidation(at) ==> Passed(s, r))
    && (r.inserted ==> ByRunToken(r) && InScope(s, r) && Passed(s, r))
  }

  /** No known organisation is called `run-token`, so no bundle lands on a claim. */
  predicate ClaimsApart(s: Setting) {
    RUN_TOKEN !in s.organizations
  }

  /** Claims are never changed or removed, and a new one is the work of the request that inserts it. */
  ghost predicate ClaimsKept(store: Store, store': Store) {
    forall h: Digest :: ClaimKey(h) in store ==> ClaimKey(h) in store' && store'[ClaimKey(h)] == store[ClaimKey(h)]
  }

  ghost predicate NewClaimsOwned(s: Setting, store: Store, store': Store, r: Request, r': Request) {
    forall h: Digest :: ClaimKey(h) in store' && ClaimKey(h) !in store ==>
      !r.inserted && r'.inserted && ByRunToken(r') && r'.given.hash == h
  }

  /** The events a request has logged by the time it is at `pc`. */
  function Performed(s: Setting, r: Request): seq<Event> {
    ClaimEvents(s, r) +
    match Reached(r.pc)
    case PutAudit => AfterBundle(r)
    case PutEvidence => AfterAudit(r)
    case Publish => AfterEvidence(s, r)
    case ReadOrder => AfterPublished(s, r)
    case RouteVerdict => AfterPublished(s, r)
    case Enqueue => AfterRouted(s, r)
    case RewriteClaim => AfterQueued(s, r)
    case AuditDelete => [BundleDeleted(Organization(r), r.given.repository)]
    case Answered(Ingested(_)) => Plan(s, r)
    case Answered(Deleted) => Plan(s, r)
    case _ => []
  }

  function ClaimEvents(s: Setting, r: Request): seq<Event> {
    if ByRunToken(r) && r.inserted then [Claimed(r.given.hash, OwnClaim(r))] else []
  }

  function AfterBundle(r: Request): seq<Event> {
    if r.route.Ingest? then [BundlePut(Organization(r), r.given.repository, BundleRecord(r))] else []
  }

  function AfterAudit(r: Request): seq<Event> {
    AfterBundle(r) + [AuditPut(Organization(r), r.uuid, AuditRecord(r))]
  }

  function AfterEvidence(s: Setting, r: Request): seq<Event> {
    AfterAudit(r) +
    if s.bucket && r.route.Ingest? then [EvidencePut(Organization(r), r.given.repository, BundleRecord(r).content)] else []
  }

  function AfterPublished(s: Setting, r: Request): seq<Event> {
    AfterEvidence(s, r) + if r.route.Ingest? then [Published(r.given.repository, BundleRecord(r).content)] else []
  }

  function AfterRouted(s: Setting, r: Request): seq<Event> {
    AfterPublished(s, r) +
    if r.routed.Some? && r.route.Ingest? then [Routed(r.routed.value.workOrderId, RoutedVerdict(r))] else []
  }

  function AfterQueued(s: Setting, r: Request): seq<Event> {
    AfterRouted(s, r) +
    if r.routed.Some? && r.route.Ingest? then [Enqueued(r.routed.value.workOrderId, RoutedVerdict(r))] else []
  }

  /** The whole ordered list of effects of a request that runs to its end. */
  function Plan(s: Setting, r: Request): seq<Event> {
    match r.route
    case Ingest(_, _) => AfterQueued(s, r) + if ByRunToken(r) then [ClaimRewritten(r.given.hash, OwnClaim(r))] else []
    case Delete(_, _, _) =>
      [BundleDeleted(Organization(r), r.given.repository), AuditPut(Organization(r), r.uuid, AuditRecord(r))]
    case Summary(_, _) => []
  }

  /** At every point a request has performed a prefix of its plan, after its claim if it inserted one. */
  lemma PerformedIsPrefix(s: Setting, r: Request)
    requires Fits(r)
    ensures Performed(s, r) <= ClaimEvents(s, r) + Plan(s, r)
  {}

  /** A step keeps every claim, and owns any new one. */
  ghost predicate GoodStep(s: Setting, store: Store, r: Request, out: Outcome) {
    && ControlInv(s, out.store, out.request)
    && ClaimsKept(store, out.store)
    && NewClaimsOwned(s, store, out.store, r, out.request)
    && (r.inserted ==> out.request.inserted)
    && (out.request.inserted && !r.inserted ==> ByRunToken(r) && ClaimKey(r.given.hash) !in store)
  }

  /** What a step logs is what takes its request further along its plan. */
  predicate Logs(s: Setting, r: Request, out: Outcome) {
    Performed(s, out.request) == Performed(s, r) + out.events
  }

  predicate HonestOracle(s: Setting, o: Oracle) {
    && (o.installation.Some? ==> o.installation.value in s.organizations)
    && (o.order.Some? ==> o.order.value.organizationId in s.organizations)
  }

  lemma GoodStart(s: Setting, store: Store, r: Request, o: Oracle)
    requires ControlInv(s, store, r) && r.pc == Start
    ensures GoodStep(s, store, r, StepStart(store, r, o))
  {}

  lemma GoodReadClaim(s: Setting, store: Store, r: Request)
    requires ControlInv(s, store, r) && r.pc == ReadClaim
    ensures GoodStep(s, store, r, StepReadClaim(store, r))
  {}

  lemma GoodReadScope(s: Setting, store: Store, r: Request, o: Oracle)
    requires ControlInv(s, store, r) && r.pc == ReadScope && HonestOracle(s, o)
    ensures GoodStep(s, store, r, StepReadScope(s, store, r, o))
  {
    hide ScopeMatches, PayloadDigestOf;
  }

  lemma GoodValidate(s: Setting, store: Store, r: Request)
    requires ControlInv(s, store, r) && r.pc == Validate
    ensures GoodStep(s, store, r, StepValidate(store, r))
  {}

  lemma GoodClaimToken(s: Setting, store: Store, r: Request)
    requires ControlInv(s, store, r) && r.pc == ClaimToken
    ensures GoodStep(s, store, r, StepClaimToken(s, store, r))
  {
    forall h: Digest ensures ClaimKey(h) == ClaimKey(r.given.hash) <==> h == r.given.hash {
      ClaimKeyInjective(h, r.given.hash);
    }
  }

  lemma GoodReadBack(s: Setting, store: Store, r: Request)
    requires ControlInv(s, store, r) && r.pc == ReadBack
    ensures GoodStep(s, store, r, StepReadBack(store, r))
  {}

  lemma GoodDecide(s: Setting, store: Store, r: Request)
    requires ControlInv(s, store, r) && r.pc == Decide
    ensures GoodStep(s, store, r, StepDecide(store, r))
  {}

  /** No bundle key of a known organisation, nor of the fallback `oidc`, is a claim key. */
  lemma BundlesMissClaims(s: Setting, r: Request)
    requires ClaimsApart(s) && OrganizationInv(s, r)
    ensures forall h: Digest :: BundleKey(Organization(r), r.given.repository) != Some(ClaimKey(h))
  {
    forall h: Digest ensures BundleKey(Organization(r), r.given.repository) != Some(ClaimKey(h)) {
      BundleMeetsClaim(Organization(r), r.given.repository, h);
    }
  }

  lemma GoodPutBundle(s: Setting, store: Store, r: Request)
    requires ClaimsApart(s) && ControlInv(s, store, r) && r.pc == PutBundle
    ensures GoodStep(s, store, r, StepPutBundle(store, r))
  {
    BundlesMissClaims(s, r);
  }

  lemma GoodAudit(s: Setting, store: Store, r: Request, o: Oracle, next: Pc)
    requires ControlInv(s, store, r) && HonestOracle(s, o)
    requires if r.pc == PutAudit then next == (if s.bucket then PutEvidence else Publish)
             else r.pc == AuditDelete && next == Answered(Deleted)
    ensures GoodStep(s, store, r, StepAudit(store, r, o, next))
  {
    forall h: Digest ensures ClaimKey(h) != AuditKey(Organization(r), o.uuid) {
      ClaimMissesAudit(h, Organization(r), o.uuid);
    }
  }

  lemma GoodNotify(s: Setting, store: Store, r: Request, o: Oracle)
    requires ControlInv(s, store, r) && Notifying(r.pc)
    ensures GoodStep(s, store, r, StepNotify(store, r, o))
  {
    hide Organization, BundleRecord, RoutedVerdict, PayloadDigestOf;
  }

  lemma GoodRewriteClaim(s: Setting, store: Store, r: Request)
    requires ControlInv(s, store, r) && r.pc == RewriteClaim
    ensures GoodStep(s, store, r, StepRewriteClaim(store, r))
  {}

  lemma GoodDelete(s: Setting, store: Store, r: Request)
    requires ClaimsApart(s) && ControlInv(s, store, r) && r.pc == DeleteBundle
    ensures GoodStep(s, store, r, StepDelete(store, r))
  {
    BundlesMissClaims(s, r);
  }

  lemma GoodSummary(s: Setting, store: Store, r: Request)
    requires ControlInv(s, store, r) && r.pc == ReadBundle
    ensures GoodStep(s, store, r, StepSummary(store, r))
  {}

  /** While no order is routed, the routing events are empty. */
  lemma Unrouted(s: Setting, r: Request)
    requires r.routed.None?
    ensures AfterQueued(s, r) == AfterPublished(s, r)
    ensures r.route.Ingest? && !ByRunToken(r) ==> Plan(s, r) == AfterPublished(s, r)
  {}

  lemma QuietPerformed(s: Setting, r: Request)
    requires Quiet(Reached(r.pc))
    ensures Performed(s, r) == ClaimEvents(s, r)
  {}

  /** The steps before the effects log nothing but the claim. */
  lemma LogsQuiet(s: Setting, store: Store, r: Request, o: Oracle)
    requires ControlInv(s, store, r)
    requires BeforeClaim(r.pc) || r.pc.ReadBack? || r.pc.Decide? || r.pc.ReadBundle?
    ensures Logs(s, r, Step(s, store, r, o))
  {
    QuietPerformed(s, r);
    QuietPerformed(s, Step(s, store, r, o).request);
  }

  /** What the effects contain depends on the submission, the organisation and the bound receipt alone. */
  lemma SameContents(r: Request, r': Request)
    requires r'.route == r.route && r'.given == r.given && r'.organizationId == r.organizationId && r'.bound == r.bound
    ensures Organization(r') == Organization(r) && AuditRecord(r') == AuditRecord(r)
    ensures ByRunToken(r) ==> OwnClaim(r') == OwnClaim(r)
    ensures r.route.Ingest? ==> BundleRecord(r') == BundleRecord(r) && RoutedVerdict(r') == RoutedVerdict(r)
  {}

  lemma LogsPutBundle(s: Setting, store: Store, r: Request)
    requires ControlInv(s, store, r) && r.pc.PutBundle?
    ensures Logs(s, r, StepPutBundle(store, r))
  {}

  lemma LogsAudit(s: Setting, store: Store, r: Request, o: Oracle, next: Pc)
    requires ControlInv(s, store, r)
    requires if r.pc == PutAudit then next == (if s.bucket then PutEvidence else Publish)
             else r.pc == AuditDelete && next == Answered(Deleted)
    ensures Logs(s, r, StepAudit(store, r, o, next))
  {}

  lemma LogsRewriteClaim(s: Setting, store: Store, r: Request)
    requires ControlInv(s, store, r) && r.pc.RewriteClaim?
    ensures Logs(s, r, StepRewriteClaim(store, r))
  {
    hide Organization, AuditRecord, OwnClaim, BundleRecord, RoutedVerdict, TokenInv;
    var r' := StepRewriteClaim(store, r).request;
    SameContents(r, r');
    assert AfterQueued(s, r') == AfterQueued(s, r);
  }

  lemma LogsDelete(s: Setting, store: Store, r: Request)
    requires ControlInv(s, store, r) && r.pc.DeleteBundle?
    ensures Logs(s, r, StepDelete(store, r))
  {}

  lemma LogsPublish(s: Setting, store: Store, r: Request, o: Oracle)
    requires ControlInv(s, store, r) && r.pc.Publish?
    ensures Logs(s, r, StepNotify(store, r, o))
  {
    hide Organization, AuditRecord, OwnClaim, BundleRecord, RoutedVerdict, TokenInv;
    var r' := StepNotify(store, r, o).request;
    SameContents(r, r');
    Unrouted(s, r');
  }

  lemma LogsReadOrder(s: Setting, store: Store, r: Request, o: Oracle)
    requires ControlInv(s, store, r) && r.pc.ReadOrder?
    ensures Logs(s, r, StepNotify(store, r, o))
  {}

  lemma LogsEvidence(s: Setting, store: Store, r: Request, o: Oracle)
    requires ControlInv(s, store, r) && r.pc.PutEvidence?
    ensures Logs(s, r, StepNotify(store, r, o))
  {
    hide Organization, AuditRecord, OwnClaim, BundleRecord, RoutedVerdict, TokenInv, OrganizationInv, Plan;
    SameContents(r, StepNotify(store, r, o).request);
  }

  lemma LogsRouting(s: Setting, store: Store, r: Request, o: Oracle)
    requires ControlInv(s, store, r) && (r.pc.RouteVerdict? || r.pc.Enqueue?)
    ensures Logs(s, r, StepNotify(store, r, o))
  {
    hide Organization, AuditRecord, OwnClaim, BundleRecord, RoutedVerdict, TokenInv, OrganizationInv, Plan;
    SameContents(r, StepNotify(store, r, o).request);
  }

  lemma AdmittedStart(s: Setting, store: Store, r: Request, o: Oracle)
    requires ControlInv(s, store, r) && r.pc == Start
    ensures AdmissionInv(s, StepStart(store, r, o).request)
  {}

  lemma AdmittedScope(s: Setting, store: Store, r: Request, o: Oracle)
    requires ControlInv(s, store, r) && AdmissionInv(s, r) && r.pc == ReadScope
    ensures AdmissionInv(s, StepReadScope(s, store, r, o).request)
  {}

  /** Past validation, the submission has passed. */
  lemma ValidatedPassed(s: Setting, r: Request)
    requires r.route.Ingest? && r.given == Read(s.js, r.route) && r.given.checked.Ok?
    requires ByRunToken(r) ==> r.given.verified.Ok? && r.given.verified.value == r.bound
    ensures Passed(s, r)
  {
    hide GenuineReceipt, AcceptableBundle, ValidateHostedAssuranceBundle, BoundReceipt;
    BundleAcceptedExactly(s.js, r.given.bundle);
    if ByRunToken(r) {
      BoundExactly(s.js, r.given.receipts, r.given.repository, r.route.caller.token.sha);
    }
  }

  lemma AdmittedValidate(s: Setting, store: Store, r: Request)
    requires ControlInv(s, store, r) && AdmissionInv(s, r) && r.pc == Validate
    requires r.given == Read(s.js, r.route)
    ensures AdmissionInv(s, StepValidate(store, r).request)
  {
    hide ClaimHeld, OwnClaimStored, OrganizationInv, ScopeMatches, Passed, Read, BundleKey;
    var r' := StepValidate(store, r).request;
    if r.given.checked.Ok? && (ByRunToken(r) ==> r.given.verified.Ok?) {
      ValidatedPassed(s, r');
    }
  }

  /** Same request and same findings: admission carries over. */
  lemma AdmissionFrame(s: Setting, r: Request, r': Request)
    requires AdmissionInv(s, r)
    requires r'.route == r.route && r'.given == r.given
    requires Carries(r, r') && !Finished(r) && !r.pc.Start? && !r.pc.ReadScope? && !r.pc.Validate?
    ensures AdmissionInv(s, r')
  {}

  /** The other steps change nothing that admission rests on. */
  lemma AdmittedOther(s: Setting, store: Store, r: Request, o: Oracle)
    requires ControlInv(s, store, r) && AdmissionInv(s, r)
    requires !Finished(r) && !r.pc.Start? && !r.pc.ReadScope? && !r.pc.Validate?
    ensures AdmissionInv(s, Step(s, store, r, o).request)
  {
    hide Step, Carries, TokenInv, OrganizationInv, AdmissionInv;
    StepAdvances(s, store, r, o);
    AdmissionFrame(s, r, Step(s, store, r, o).request);
  }

  /** Everything known about one request. */
  ghost predicate RequestInv(s: Setting, store: Store, r: Request) {
    r.given == Read(s.js, r.route) && ControlInv(s, store, r) && AdmissionInv(s, r)
  }

  lemma StepGood(s: Setting, store: Store, r: Request, o: Oracle)
    requires ClaimsApart(s) && ControlInv(s, store, r) && !Finished(r) && HonestOracle(s, o)
    ensures GoodStep(s, store, r, Step(s, store, r, o))
  {
    if Notifying(r.pc) {
      GoodNotify(s, store, r, o);
    } else {
      match r.pc
      case Start => GoodStart(s, store, r, o);
      case ReadClaim => GoodReadClaim(s, store, r);
      case ReadScope => GoodReadScope(s, store, r, o);
      case Validate => GoodValidate(s, store, r);
      case ClaimToken => GoodClaimToken(s, store, r);
      case ReadBack => GoodReadBack(s, store, r);
      case Decide => GoodDecide(s, store, r);
      case PutBundle => GoodPutBundle(s, store, r);
      case PutAudit => GoodAudit(s, store, r, o, if s.bucket then PutEvidence else Publish);
      case RewriteClaim => GoodRewriteClaim(s, store, r);
      case DeleteBundle => GoodDelete(s, store, r);
      case AuditDelete => GoodAudit(s, store, r, o, Answered(Deleted));
      case ReadBundle => GoodSummary(s, store, r);
    }
  }

  lemma StepLogs(s: Setting, store: Store, r: Request, o: Oracle)
    requires ControlInv(s, store, r) && !Finished(r)
    ensures Logs(s, r, Step(s, store, r, o))
  {
    hide ControlInv, Logs, StepStart, StepReadClaim, StepReadScope, StepValidate, StepClaimToken, StepReadBack, StepDecide, StepSummary;
    match r.pc
    case Publish => LogsPublish(s, store, r, o);
    case ReadOrder => LogsReadOrder(s, store, r, o);
    case PutEvidence => LogsEvidence(s, store, r, o);
    case RouteVerdict => LogsRouting(s, store, r, o);
    case Enqueue => LogsRouting(s, store, r, o);
    case PutBundle => LogsPutBundle(s, store, r);
    case PutAudit => LogsAudit(s, store, r, o, if s.bucket then PutEvidence else Publish);
    case RewriteClaim => LogsRewriteClaim(s, store, r);
    case DeleteBundle => LogsDelete(s, store, r);
    case AuditDelete => LogsAudit(s, store, r, o, Answered(Deleted));
    case _ => LogsQuiet(s, store, r, o);
  }

  lemma StepAdmitted(s: Setting, store: Store, r: Request, o: Oracle)
    requires RequestInv(s, store, r) && !Finished(r)
    ensures AdmissionInv(s, Step(s, store, r, o).request)
  {
    match r.pc
    case Start => AdmittedStart(s, store, r, o);
    case ReadScope => AdmittedScope(s, store, r, o);
    case Validate => AdmittedValidate(s, store, r);
    case _ => AdmittedOther(s, store, r, o);
  }

  /** A step of a request: its invariant, the claims, and the log, all at once. */
  lemma StepKeeps(s: Setting, store: Store, r: Request, o: Oracle)
    requires ClaimsApart(s) && RequestInv(s, store, r) && !Finished(r) && HonestOracle(s, o)
    ensures var out := Step(s, store, r, o);
      && Advances(r, out.request)
      && RequestInv(s, out.store, out.request)
      && ClaimsKept(store, out.store)
      && NewClaimsOwned(s, store, out.store, r, out.request)
      && (r.inserted ==> out.request.inserted)
      && (out.request.inserted && !r.inserted ==> ByRunToken(r) && ClaimKey(r.given.hash) !in store)
      && Performed(s, out.request) == Performed(s, r) + out.events
  {
    hide TokenInv, Performed, Passed, InScope, Step;
    StepAdvances(s, store, r, o);
    StepGood(s, store, r, o);
    StepLogs(s, store, r, o);
    StepAdmitted(s, store, r, o);
  }

  /** What one request knows of the table survives any change that keeps the claims. */
  lemma OthersUndisturbed(s: Setting, store: Store, store': Store, q: Request)
    requires RequestInv(s, store, q) && ClaimsKept(store, store')
    ensures RequestInv(s, store', q)
  {}

  lemma AdmissionAtStop(s: Setting, r: Request)
    requires AdmissionInv(s, r) && !Finished(r)
    ensures AdmissionInv(s, r.(pc := Stopped(r.pc)))
  {
    hide ScopeMatches, AcceptableBundle, GenuineReceipt, Fits;
  }

  /** Stopping loses nothing that was known, and undoes nothing that was done. */
  lemma StoppingUndisturbed(s: Setting, store: Store, r: Request)
    requires RequestInv(s, store, r) && !Finished(r)
    ensures RequestInv(s, store, r.(pc := Stopped(r.pc)))
  {
    AdmissionAtStop(s, r);
  }

  lemma StoppingUndoesNothing(s: Setting, r: Request)
    requires !Finished(r)
    ensures Performed(s, r.(pc := Stopped(r.pc))) == Performed(s, r)
  {
    hide Organization, AuditRecord, OwnClaim, BundleRecord, RoutedVerdict;
    SameContents(r, r.(pc := Stopped(r.pc)));
  }

  lemma ArrivingInv(s: Setting, store: Store, route: Route)
    requires KnownOrganization(s, route)
    ensures RequestInv(s, store, Arriving(s, route))
    ensures Performed(s, Arriving(s, route)) == []
  {}
}
