/**
 The assurance routes as a step system. Any number of requests share one metadata table and
 interleave at every `await`; each step makes at most one call on the table. A request may
 stop between any two steps, and other subsystems may write their own keys at any time.
 */
module Ingest {
  import opened Sequences
  import opened Unicode
  import opened Digests
  import opened Json
  import opened Receipts
  import opened MetadataKeys

  datatype RunToken = RunToken(runId: Text, repository: Text, sha: Option<Text>, expiresAt: Text)

  datatype WorkOrder = WorkOrder(workOrderId: Text, organizationId: Text, repositoryId: Text)

  datatype Caller =
    | ByToken(bearer: Text, token: RunToken)
    | BySession(organizationId: Text, userId: Text)

  datatype Route =
    | Ingest(caller: Caller, body: Json)
    | Delete(organizationId: Text, userId: Text, body: Json)
    | Summary(organizationId: Text, query: Json)

  datatype AuditAction = AssuranceIngest | AssuranceDelete

  /** A row of the metadata table, its write time left out. */
  datatype Record =
    | Bundle(content: Json, repository: Text, organizationId: Text, runId: Option<Text>)
    | Audit(action: AuditAction, repository: Text, actorId: Text)
    | Claim(payloadDigest: Text, tokenRunId: Text, repository: Text, expiresAt: Text)
    | Other(content: Json)

  type Store = map<Text, Record>

  /** `priorTokenUse.payloadDigest`, whatever row the key turns out to hold. */
  function PayloadDigestOf(record: Record): Option<Text> {
    match record
    case Claim(digest, _, _, _) => Some(digest)
    case Audit(_, _, _) => None
    case _ => (match Field(record.content, "payloadDigest") case Some(Str(d)) => Some(d) case _ => None)
  }

  /**
   What `putIfAbsent` can do: report the row it inserted, insert without being able to report it,
   or not exist at all.
   */
  datatype Capability = Reports | Silent | Absent

  datatype Setting = Setting(js: Runtime, organizations: set<Text>, capability: Capability, bucket: bool)

  datatype Answer =
    | Rejected
    | Conflict
    | Unavailable
    | Replayed(organizationId: Text)
    | Ingested(organizationId: Text)
    | Deleted
    | Found(bundle: Option<Record>)

  /** The await a request is at, named after what it does next. */
  datatype Pc =
    | Start | ReadClaim | ReadScope | Validate | ClaimToken | ReadBack | Decide
    | PutBundle | PutAudit | PutEvidence | Publish | ReadOrder | RouteVerdict | Enqueue | RewriteClaim
    | DeleteBundle | AuditDelete | ReadBundle
    | Answered(answer: Answer)
    | Stopped(at: Pc)

  /**
   What the steps use of a request, all of it a function of the request alone: the source's
   `repository`, `tokenUseKey` and `tokenPayloadDigest`, the bundle, and the outcomes of the two
   validations, which are consulted where the source runs them.
   */
  datatype Given = Given(
    repository: Text,
    bundle: Option<Json>,
    receipts: seq<Json>,
    hash: Digest,
    payload: Text,
    checked: Result<Json, BundleError>,
    verified: Result<Option<Json>, ReceiptError>)

  datatype Request = Request(
    route: Route,
    given: Given,
    pc: Pc,
    priorUse: bool,
    inserted: bool,
    claimed: bool,
    installation: Option<Text>,
    order: Option<WorkOrder>,
    organizationId: Option<Text>,
    bound: Option<Json>,
    uuid: Text,
    routed: Option<WorkOrder>)

  function Arriving(s: Setting, route: Route): Request {
    Request(route, Read(s.js, route), Start, false, false, false, None, None, None, None, "", None)
  }

  /** Whatever a step learns from outside the table: sessions, entitlements, other tables, fresh identifiers. */
  datatype Oracle = Oracle(admitted: bool, installation: Option<Text>, order: Option<WorkOrder>, denied: bool, uuid: Text)

  datatype Verdict = PASS | FAIL | UNKNOWN

  /** What a request does to the outside, in the order it does it. */
  datatype Event =
    | Claimed(hash: Digest, record: Record)
    | BundlePut(organizationId: Text, repository: Text, record: Record)
    | AuditPut(organizationId: Text, uuid: Text, record: Record)
    | EvidencePut(organizationId: Text, repository: Text, bundle: Json)
    | Published(repository: Text, bundle: Json)
    | Routed(workOrderId: Text, verdict: Verdict)
    | Enqueued(workOrderId: Text, verdict: Verdict)
    | ClaimRewritten(hash: Digest, record: Record)
    | BundleDeleted(organizationId: Text, repository: Text)

  /** A repository reference: 1 to 300 units, no control characters, trimmed. */
  function AssuranceRepository(value: Option<Json>): Option<Text> {
    match value
    case Some(Str(s)) =>
      if s == [] || |s| > 300 || (exists i :: 0 <= i < |s| && (Code(s[i]) < 0x20 || Code(s[i]) == 0x7F)) then None
      else Some(Trimmed(s))
    case _ => None
  }

  /** The repository a request names; empty when it names none, which every route rejects. */
  function Repository(route: Route): Text {
    var named := AssuranceRepository(if route.Summary? then Some(route.query) else Field(route.body, "repository"));
    if named.None? then [] else named.value
  }

  predicate ByRunToken(r: Request) {
    r.route.Ingest? && r.route.caller.ByToken?
  }

  /** `body?.assurance ?? body?.bundle`. */
  function SubmittedBundle(body: Json): Option<Json> {
    Coalesce(Field(body, "assurance"), Field(body, "bundle"))
  }

  function ReceiptsOf(bundle: Option<Json>): seq<Json> {
    match bundle
    case None => []
    case Some(b) => (match Field(b, "receipts") case Some(Arr(items)) => items case _ => [])
  }

  /** The digest text of a payload; `undefined` has no place in the canonical form. */
  function PayloadDigest(js: Runtime, repository: Text, bundle: Option<Json>): Text {
    var assurance := match bundle case None => [] case Some(b) => [Entry("assurance", b)];
    HexDigest(js.Fingerprint(Obj([Entry("repository", Str(repository))] + assurance)))
  }

  /** What a route reads off its request before its first call on the table. */
  function Read(js: Runtime, route: Route): Given {
    var repository := Repository(route);
    var bundle := if route.Ingest? then SubmittedBundle(route.body) else None;
    var receipts := ReceiptsOf(bundle);
    var byToken := route.Ingest? && route.caller.ByToken?;
    Given(
      repository, bundle, receipts,
      js.sha256(Utf8(if byToken then route.caller.bearer else [])),
      PayloadDigest(js, repository, bundle),
      ValidateHostedAssuranceBundle(js, bundle),
      if byToken then BoundReceipt(js, receipts, repository, route.caller.token.sha) else Ok(None))
  }

  /** The record a request claims its token with. */
  function OwnClaim(r: Request): Record
    requires ByRunToken(r)
  {
    Claim(r.given.payload, r.route.caller.token.runId, r.given.repository, r.route.caller.token.expiresAt)
  }

  /** `organizationId ?? "oidc"`. */
  function Organization(r: Request): Text {
    match r.route
    case Ingest(_, _) => (match r.organizationId case None => "oidc" case Some(org) => org)
    case Delete(org, _, _) => org
    case Summary(org, _) => org
  }

  function TranslateLegacyVerdict(verdict: Text): Verdict {
    if verdict == "PASS" then PASS else if verdict == "FAIL" then FAIL else UNKNOWN
  }

  /** The bound receipt's verdict if it is a string, else the first receipt's if that is, else UNKNOWN. */
  function RoutedVerdict(r: Request): Verdict
    requires r.route.Ingest?
  {
    var receipts := r.given.receipts;
    TranslateLegacyVerdict(
      match r.bound
      case Some(bound) =>
        (match Field(bound, "verdict") case Some(Str(v)) => v case _ => FirstVerdict(receipts))
      case None => FirstVerdict(receipts))
  }

  function FirstVerdict(receipts: seq<Json>): Text {
    if receipts == [] then "UNKNOWN"
    else match Field(receipts[0], "verdict") case Some(Str(v)) => v case _ => "UNKNOWN"
  }

  function BundleRecord(r: Request): (record: Record)
    requires r.route.Ingest?
    ensures record.Bundle?
  {
    Bundle(
      match r.given.bundle case None => Null case Some(b) => b,
      r.given.repository, Organization(r),
      if ByRunToken(r) then Some(r.route.caller.token.runId) else None)
  }

  function AuditRecord(r: Request): Record {
    match r.route
    case Ingest(ByToken(_, _), _) => Audit(AssuranceIngest, r.given.repository, "action")
    case Ingest(BySession(_, user), _) => Audit(AssuranceIngest, r.given.repository, user)
    case Delete(_, user, _) => Audit(AssuranceDelete, r.given.repository, user)
    case Summary(_, _) => Audit(AssuranceIngest, r.given.repository, "")
  }

  /** The order belongs to the repository and, when that is known, to the installation's organisation. */
  predicate ScopeMatches(js: Runtime, repository: Text, installation: Option<Text>, order: Option<WorkOrder>) {
    order.Some? ==>
      && js.lower(order.value.repositoryId) == js.lower(repository)
      && (installation.Some? && installation.value != [] ==> order.value.organizationId == installation.value)
  }

  /** The pc fits the route: only run-token ingests touch claims, and so on; only what is under way can stop. */
  predicate Fits(r: Request) {
    (r.priorUse ==> ByRunToken(r)) && (r.pc.Stopped? ==> !r.pc.at.Answered? && !r.pc.at.Stopped?) &&
    match Reached(r.pc)
    case ReadClaim | ReadScope | ClaimToken | ReadBack | ReadOrder | RewriteClaim => ByRunToken(r)
    case RouteVerdict | Enqueue => ByRunToken(r) && r.routed.Some?
    case Validate | Decide | PutBundle | PutAudit | PutEvidence | Publish => r.route.Ingest?
    case DeleteBundle | AuditDelete => r.route.Delete?
    case ReadBundle => r.route.Summary?
    case Answered(answer) =>
      (match answer
       case Ingested(_) => r.route.Ingest?
       case Conflict | Unavailable | Replayed(_) => ByRunToken(r)
       case Deleted => r.route.Delete?
       case Found(_) => r.route.Summary?
       case Rejected => true)
    case _ => true
  }

  /** The pc itself, or where a stopped request stopped. */
  function Reached(pc: Pc): Pc {
    if pc.Stopped? then pc.at else pc
  }

  predicate Finished(r: Request) {
    r.pc.Answered? || r.pc.Stopped?
  }

  /** How many steps a request can still take. */
  function Rank(pc: Pc): nat {
    match pc
    case Start => 14 case ReadClaim => 13 case ReadScope => 12 case Validate => 11 case ClaimToken => 10 case ReadBack => 1
    case Decide => 9 case PutBundle => 8 case PutAudit => 7 case PutEvidence => 6 case Publish => 5 case ReadOrder => 4
    case RouteVerdict => 3 case Enqueue => 2 case RewriteClaim => 1
    case DeleteBundle => 2 case AuditDelete => 1 case ReadBundle => 1
    case Answered(_) => 0 case Stopped(_) => 0
  }

  predicate BeforeClaim(pc: Pc) {
    pc.Start? || pc.ReadClaim? || pc.ReadScope? || pc.Validate? || pc.ClaimToken?
  }

  predicate Effecting(pc: Pc) {
    pc.PutBundle? || pc.PutAudit? || pc.RewriteClaim? || Notifying(pc)
  }

  predicate Notifying(pc: Pc) {
    pc.PutEvidence? || pc.Publish? || pc.ReadOrder? || pc.RouteVerdict? || pc.Enqueue?
  }

  /** At the start of, inside, or through the effects of an ingest. */
  predicate InEffects(pc: Pc) {
    Effecting(pc) || (pc.Answered? && pc.answer.Ingested?)
  }

  predicate PastValidation(pc: Pc) {
    pc.ClaimToken? || pc.ReadBack? || pc.Decide? || InEffects(pc) || (pc.Answered? && (pc.answer.Replayed? || pc.answer.Unavailable?))
  }

  predicate PastScope(pc: Pc) {
    pc.Validate? || PastValidation(pc)
  }

  /** What a step leaves alone, and the order of the phases. */
  predicate Carries(r: Request, r': Request) {
    && (r.pc != ReadScope ==> r'.installation == r.installation && r'.order == r.order)
    && (r.pc != Validate ==> r'.bound == r.bound)
    && (r'.inserted ==> r.inserted || (ByRunToken(r) && r.pc == ClaimToken))
    && (PastValidation(Reached(r'.pc)) ==> PastValidation(r.pc) || r.pc == Validate)
    && (PastScope(Reached(r'.pc)) ==> PastScope(r.pc) || r.pc == ReadScope || !ByRunToken(r))
    && (Reached(r'.pc).ReadClaim? || Reached(r'.pc).ReadScope? ==> r.pc == Start || r.pc == ReadClaim)
  }

  /** A step keeps the route, leads to a pc that fits it, and is one of finitely many. */
  predicate Advances(r: Request, r': Request) {
    r'.route == r.route && r'.given == r.given && Fits(r') && Rank(r'.pc) < Rank(r.pc) && Carries(r, r')
  }

  /** What one step leaves behind. */
  datatype Outcome = Outcome(store: Store, request: Request, events: seq<Event>)

  function Goto(store: Store, r: Request, pc: Pc): Outcome {
    Outcome(store, r.(pc := pc), [])
  }

  function Finish(store: Store, r: Request, answer: Answer): Outcome {
    Goto(store, r, Answered(answer))
  }

  /** No effect of the plan lies behind a request here. */
  predicate Quiet(pc: Pc) {
    BeforeClaim(pc) || pc.ReadBack? || pc.Decide? || pc.PutBundle? || pc.DeleteBundle? || pc.ReadBundle?
    || (pc.Answered? && !pc.answer.Ingested? && !pc.answer.Deleted?) || pc.Stopped?
  }

  /** A step that only looks: it changes no row, logs nothing, and starts no effect. */
  predicate OnlyLooks(store: Store, r: Request, out: Outcome) {
    out.store == store && out.events == [] && out.request.inserted == r.inserted && Quiet(Reached(out.request.pc))
  }

  /** Authentication and the checks on the request itself (lines 104-113, 120-143, 222-230). */
  function StepStart(store: Store, r: Request, o: Oracle): (out: Outcome)
    requires r.pc == Start && Fits(r)
    ensures OnlyLooks(store, r, out)
  {
    if !o.admitted || r.given.repository == [] then Finish(store, r, Rejected)
    else
      match r.route
      case Summary(_, _) => Goto(store, r, ReadBundle)
      case Delete(_, _, _) => Goto(store, r, DeleteBundle)
      case Ingest(BySession(org, _), _) => Goto(store, r.(organizationId := Some(org)), Validate)
      case Ingest(ByToken(_, token), _) =>
        if token.repository != r.given.repository then Finish(store, r, Rejected) else Goto(store, r, ReadClaim)
  }

  function StepReadClaim(store: Store, r: Request): (out: Outcome)
    requires r.pc == ReadClaim && Fits(r)
    ensures Advances(r, out.request)
    ensures OnlyLooks(store, r, out)
  {
    var key := ClaimKey(r.given.hash);
    if key in store && PayloadDigestOf(store[key]) != Some(r.given.payload) then Finish(store, r, Conflict)
    else Goto(store, r.(priorUse := key in store), ReadScope)
  }

  function StepReadScope(s: Setting, store: Store, r: Request, o: Oracle): Outcome
    requires r.pc == ReadScope && Fits(r)
  {
    var org := if o.order.Some? then Some(o.order.value.organizationId) else o.installation;
    if !ScopeMatches(s.js, r.given.repository, o.installation, o.order) then Finish(store, r, Rejected)
    else if org.Some? && org.value != [] && o.denied then Finish(store, r, Rejected)
    else Goto(store, r.(installation := o.installation, order := o.order, organizationId := org), Validate)
  }

  function StepValidate(store: Store, r: Request): (out: Outcome)
    requires r.pc == Validate && Fits(r)
    ensures Advances(r, out.request)
    ensures OnlyLooks(store, r, out)
  {
    if r.given.checked.Err? then Finish(store, r, Rejected)
    else if !ByRunToken(r) then Goto(store, r, Decide)
    else
      match r.given.verified
      case Err(_) => Finish(store, r, Rejected)
      case Ok(bound) => Goto(store, r.(bound := bound), if r.priorUse then Decide else ClaimToken)
  }

  function StepClaimToken(s: Setting, store: Store, r: Request): (out: Outcome)
    requires r.pc == ClaimToken && Fits(r)
    ensures Advances(r, out.request)
  {
    var key := ClaimKey(r.given.hash);
    if s.capability.Absent? || key in store then Goto(store, r, ReadBack)
    else
      var r' := r.(inserted := true, claimed := s.capability.Reports?, pc := if s.capability.Reports? then Decide else ReadBack);
      Outcome(store[key := OwnClaim(r)], r', [Claimed(r.given.hash, OwnClaim(r))])
  }

  function StepReadBack(store: Store, r: Request): (out: Outcome)
    requires r.pc == ReadBack && Fits(r)
    ensures Advances(r, out.request)
    ensures OnlyLooks(store, r, out)
  {
    var key := ClaimKey(r.given.hash);
    if key !in store then Finish(store, r, Unavailable)
    else if PayloadDigestOf(store[key]) != Some(r.given.payload) then Finish(store, r, Conflict)
    else Finish(store, r, Replayed(Organization(r)))
  }

  /** The bundle key is computed before the replay answer; encoding it throws on a lone surrogate. */
  function StepDecide(store: Store, r: Request): (out: Outcome)
    requires r.pc == Decide && Fits(r)
    ensures Advances(r, out.request)
    ensures OnlyLooks(store, r, out)
  {
    if BundleKey(Organization(r), r.given.repository).None? then Goto(store, r, Stopped(Decide))
    else if r.priorUse then Finish(store, r, Replayed(Organization(r)))
    else Goto(store, r, PutBundle)
  }

  function StepPutBundle(store: Store, r: Request): (out: Outcome)
    requires r.pc == PutBundle && Fits(r)
    ensures Advances(r, out.request)
  {
    match BundleKey(Organization(r), r.given.repository)
    case None => Goto(store, r, Stopped(PutBundle))
    case Some(key) =>
      Outcome(store[key := BundleRecord(r)], r.(pc := PutAudit), [BundlePut(Organization(r), r.given.repository, BundleRecord(r))])
  }

  function StepAudit(store: Store, r: Request, o: Oracle, next: Pc): (out: Outcome)
    requires Fits(r)
    requires if r.pc == PutAudit then next == PutEvidence || next == Publish else r.pc == AuditDelete && next == Answered(Deleted)
    ensures Advances(r, out.request)
  {
    Outcome(
      store[AuditKey(Organization(r), o.uuid) := AuditRecord(r)],
      r.(uuid := o.uuid, pc := next),
      [AuditPut(Organization(r), o.uuid, AuditRecord(r))])
  }

  /** Where a request goes once its verification is published: runs are routed, sessions are done. */
  function AfterPublish(r: Request): Pc {
    if !ByRunToken(r) then Answered(Ingested(Organization(r)))
    else if r.route.caller.token.runId == [] then RewriteClaim
    else ReadOrder
  }

  function StepDelete(store: Store, r: Request): (out: Outcome)
    requires r.pc == DeleteBundle && Fits(r)
    ensures Advances(r, out.request)
  {
    match BundleKey(Organization(r), r.given.repository)
    case None => Goto(store, r, Stopped(DeleteBundle))
    case Some(key) => Outcome(store - {key}, r.(pc := AuditDelete), [BundleDeleted(Organization(r), r.given.repository)])
  }

  function StepSummary(store: Store, r: Request): (out: Outcome)
    requires r.pc == ReadBundle && Fits(r)
    ensures Advances(r, out.request)
    ensures OnlyLooks(store, r, out)
  {
    match BundleKey(Organization(r), r.given.repository)
    case None => Goto(store, r, Stopped(ReadBundle))
    case Some(key) => Finish(store, r, Found(if key in store then Some(store[key]) else None))
  }

  function StepRewriteClaim(store: Store, r: Request): (out: Outcome)
    requires r.pc == RewriteClaim && Fits(r)
    ensures Advances(r, out.request)
  {
    Outcome(
      store[ClaimKey(r.given.hash) := OwnClaim(r)],
      r.(pc := Answered(Ingested(Organization(r)))),
      [ClaimRewritten(r.given.hash, OwnClaim(r))])
  }

  /** The effects outside the metadata table (lines 190-216). */
  function StepNotify(store: Store, r: Request, o: Oracle): Outcome
    requires Notifying(r.pc) && Fits(r)
  {
    match r.pc
    case PutEvidence =>
      Outcome(store, r.(pc := Publish), [EvidencePut(Organization(r), r.given.repository, BundleRecord(r).content)])
    case Publish =>
      Outcome(store, r.(pc := AfterPublish(r)), [Published(r.given.repository, BundleRecord(r).content)])
    case ReadOrder => Goto(store, r.(routed := o.order), if o.order.Some? then RouteVerdict else RewriteClaim)
    case RouteVerdict => Outcome(store, r.(pc := Enqueue), [Routed(r.routed.value.workOrderId, RoutedVerdict(r))])
    case Enqueue => Outcome(store, r.(pc := RewriteClaim), [Enqueued(r.routed.value.workOrderId, RoutedVerdict(r))])
  }

  /** Everything else: the admission checks, the claim, and every call on the metadata table. */
  function StepTable(s: Setting, store: Store, r: Request, o: Oracle): Outcome
    requires !Notifying(r.pc) && Fits(r) && !Finished(r)
  {
    match r.pc
    case Start => StepStart(store, r, o)
    case ReadClaim => StepReadClaim(store, r)
    case ReadScope => StepReadScope(s, store, r, o)
    case Validate => StepValidate(store, r)
    case ClaimToken => StepClaimToken(s, store, r)
    case ReadBack => StepReadBack(store, r)
    case Decide => StepDecide(store, r)
    case PutBundle => StepPutBundle(store, r)
    case PutAudit => StepAudit(store, r, o, if s.bucket then PutEvidence else Publish)
    case RewriteClaim => StepRewriteClaim(store, r)
    case DeleteBundle => StepDelete(store, r)
    case AuditDelete => StepAudit(store, r, o, Answered(Deleted))
    case ReadBundle => StepSummary(store, r)
  }

  /** One step of one request, between two awaits. */
  function Step(s: Setting, store: Store, r: Request, o: Oracle): Outcome
    requires Fits(r) && !Finished(r)
  {
    if Notifying(r.pc) then StepNotify(store, r, o) else StepTable(s, store, r, o)
  }

  lemma StartCarries(store: Store, r: Request, o: Oracle)
    requires r.pc == Start && Fits(r)
    ensures Carries(r, StepStart(store, r, o).request)
  {}

  lemma StartAdvances(store: Store, r: Request, o: Oracle)
    requires r.pc == Start && Fits(r)
    ensures Advances(r, StepStart(store, r, o).request)
  {
    hide Carries;
    StartCarries(store, r, o);
  }

  lemma ReadScopeCarries(s: Setting, store: Store, r: Request, o: Oracle)
    requires r.pc == ReadScope && Fits(r)
    ensures Carries(r, StepReadScope(s, store, r, o).request)
  {
    hide ScopeMatches, Fits;
  }

  lemma ReadScopeLooks(s: Setting, store: Store, r: Request, o: Oracle)
    requires r.pc == ReadScope && Fits(r)
    ensures OnlyLooks(store, r, StepReadScope(s, store, r, o))
  {}

  lemma ReadScopeAdvances(s: Setting, store: Store, r: Request, o: Oracle)
    requires r.pc == ReadScope && Fits(r)
    ensures Advances(r, StepReadScope(s, store, r, o).request)
    ensures OnlyLooks(store, r, StepReadScope(s, store, r, o))
  {
    hide ScopeMatches, Carries, OnlyLooks;
    ReadScopeCarries(s, store, r, o);
    ReadScopeLooks(s, store, r, o);
  }

  lemma NotifyAdvances(store: Store, r: Request, o: Oracle)
    requires Notifying(r.pc) && Fits(r)
    ensures Advances(r, StepNotify(store, r, o).request)
    ensures StepNotify(store, r, o).store == store
  {
    hide Organization, BundleRecord, RoutedVerdict;
  }

  /** Every step of every request brings it nearer to an answer, so no schedule runs for ever. */
  lemma StepAdvances(s: Setting, store: Store, r: Request, o: Oracle)
    requires Fits(r) && !Finished(r)
    ensures Advances(r, Step(s, store, r, o).request)
  {
    if Notifying(r.pc) {
      NotifyAdvances(store, r, o);
    } else if r.pc == Start {
      StartAdvances(store, r, o);
    } else if r.pc == ReadScope {
      ReadScopeAdvances(s, store, r, o);
    } else {
      hide Advances, Fits;
      match r.pc
      case ReadClaim => case Validate => case ClaimToken => case ReadBack => case Decide =>
      case PutBundle => case PutAudit => case RewriteClaim => case DeleteBundle => case AuditDelete => case ReadBundle =>
    }
  }

  datatype LogEntry = LogEntry(source: nat, event: Event)

  datatype World = World(store: Store, requests: seq<Request>, log: seq<LogEntry>, uuids: set<Text>)

  datatype Action =
    | Advance(i: nat, oracle: Oracle)
    | Crash(i: nat)
    | Elsewhere(key: Text, value: Option<Record>)

  predicate WritesAudit(r: Request) {
    r.pc.PutAudit? || r.pc.AuditDelete?
  }

  /** Organisations come from the organisation table, and an audit entry gets a fresh identifier. */
  predicate Honest(s: Setting, w: World, r: Request, o: Oracle) {
    && (o.installation.Some? ==> o.installation.value in s.organizations)
    && (o.order.Some? ==> o.order.value.organizationId in s.organizations)
    && (WritesAudit(r) ==> IsUuid(o.uuid) && o.uuid !in w.uuids)
  }

  predicate Allowed(s: Setting, w: World, a: Action) {
    match a
    case Advance(i, o) => i < |w.requests| && Fits(w.requests[i]) && !Finished(w.requests[i]) && Honest(s, w, w.requests[i], o)
    case Crash(i) => i < |w.requests| && !Finished(w.requests[i])
    case Elsewhere(key, _) => Foreign(key)
  }

  function Stamp(i: nat, events: seq<Event>): seq<LogEntry> {
    if events == [] then [] else [LogEntry(i, events[0])] + Stamp(i, events[1..])
  }

  function Apply(s: Setting, w: World, a: Action): World
    requires Allowed(s, w, a)
  {
    match a
    case Advance(i, o) =>
      var out := Step(s, w.store, w.requests[i], o);
      World(out.store, w.requests[i := out.request], w.log + Stamp(i, out.events), if WritesAudit(w.requests[i]) then w.uuids + {o.uuid} else w.uuids)
    case Crash(i) => w.(requests := w.requests[i := w.requests[i].(pc := Stopped(w.requests[i].pc))])
    case Elsewhere(key, Some(value)) => w.(store := w.store[key := value])
    case Elsewhere(key, None) => w.(store := w.store - {key})
  }

  /** `w` is where the actions lead from `w0`. */
  ghost predicate Runs(s: Setting, w0: World, actions: seq<Action>, w: World)
    decreases |actions|
  {
    if actions == [] then w == w0
    else
      var n := |actions| - 1;
      exists v :: Runs(s, w0, actions[..n], v) && Allowed(s, v, actions[n]) && w == Apply(s, v, actions[n])
  }

  /** Every request has just arrived, and every session belongs to a known organisation. */
  predicate Initial(s: Setting, w: World) {
    && w.log == []
    && forall i :: 0 <= i < |w.requests| ==>
      w.requests[i] == Arriving(s, w.requests[i].route) && KnownOrganization(s, w.requests[i].route)
  }

  predicate KnownOrganization(s: Setting, route: Route) {
    match route
    case Ingest(BySession(org, _), _) => org in s.organizations
    case Ingest(ByToken(_, _), _) => true
    case Delete(org, _, _) => org in s.organizations
    case Summary(org, _) => org in s.organizations
  }
}
