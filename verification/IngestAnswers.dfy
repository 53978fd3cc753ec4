/** What the routes answer, told from what was submitted and from what the outside says. */
module IngestAnswers {
  import opened Sequences
  import opened Unicode
  import opened Digests
  import opened Json
  import opened Receipts
  import opened MetadataKeys
  import opened Ingest
  import opened IngestSafety
  import opened IngestTheorems
  import opened IngestRuns
  import opened IngestRetries

  /** The bundle in a body: what stands under `assurance`, or what stands under `bundle` if that is absent or null. */
  function BundleIn(body: Json): Option<Json> {
    match Field(body, "assurance")
    case Some(value) => if value.Null? then Field(body, "bundle") else Some(value)
    case None => Field(body, "bundle")
  }

  /** The receipts in that bundle. */
  function ReceiptsIn(body: Json): seq<Json> {
    if BundleIn(body).Some? && HoldsArray(BundleIn(body).value, "receipts") then Field(BundleIn(body).value, "receipts").value.items else []
  }

  /** What a use of a token is about: the repository, and the bundle if there is one. */
  function Use(repository: Text, bundle: Option<Json>): Json {
    match bundle
    case None => Obj([Entry("repository", Str(repository))])
    case Some(b) => Obj([Entry("repository", Str(repository)), Entry("assurance", b)])
  }

  function UseOf(route: Route): Json
    requires route.Ingest?
  {
    Use(Repository(route), BundleIn(route.body))
  }

  /** The payload digest is the hexadecimal text of the fingerprint of that use. */
  lemma PayloadMeans(js: Runtime, route: Route)
    requires route.Ingest?
    ensures Read(js, route).payload == HexDigest(js.Fingerprint(UseOf(route)))
  {
    hide ValidateHostedAssuranceBundle, BoundReceipt, Repository;
    var repository: Entry := Entry("repository", Str(Repository(route)));
    match BundleIn(route.body)
    case None => assert [repository] + [] == [repository];
    case Some(b) => assert [repository] + [Entry("assurance", b)] == [repository, Entry("assurance", b)];
  }

  /** Two submissions have one payload digest exactly when their uses have one fingerprint. */
  lemma SamePayloadExactly(js: Runtime, a: Route, b: Route)
    requires a.Ingest? && b.Ingest?
    ensures Read(js, a).payload == Read(js, b).payload <==> js.Fingerprint(UseOf(a)) == js.Fingerprint(UseOf(b))
  {
    PayloadMeans(js, a);
    PayloadMeans(js, b);
    hide Read, UseOf, HexDigest;
    DenotedHexDigest(js.Fingerprint(UseOf(a)));
    DenotedHexDigest(js.Fingerprint(UseOf(b)));
  }

  /** A request that has just arrived with a run token for the repository it names. */
  predicate Presents(r: Request, o: Oracle) {
    && r.pc == Start && !r.priorUse && ByRunToken(r) && o.admitted
    && r.given.repository != [] && r.route.caller.token.repository == r.given.repository
  }

  /** A submission for another payload than the claimed one is told of the conflict at once. */
  lemma OtherPayloadConflicts(s: Setting, store: Store, r: Request, first: Oracle, later: Oracle)
    requires Fits(r) && Presents(r, first) && ClaimKey(r.given.hash) in store && !ClaimHeld(store, r)
    ensures RunAlone(s, store, r, first, later) == Outcome(store, r.(pc := Answered(Conflict)), [])
  {
    var whole := RunAlone(s, store, r, first, later);
    SetOut(s, store, r, first, later);
    hide RunAlone, Along, ClaimKey;
    var reading, answered := r.(pc := ReadClaim), r.(pc := Answered(Conflict));
    OnwardQuietly(s, whole, store, r, [], first, later, reading);
    OnwardQuietly(s, whole, store, reading, [], first, later, answered);
    Arrived(s, whole, store, answered, [], first, later);
  }

  /** The answers that a request with a used token can end with. */
  predicate AfterUse(pc: Pc) {
    pc == Answered(Rejected) || pc == Stopped(Decide) || (pc.Answered? && pc.answer.Replayed?)
  }

  lemma PriorUseDecides(s: Setting, whole: Outcome, store: Store, r: Request, first: Oracle, later: Oracle)
    requires Along(s, whole, store, r, [], first, later) && r.pc == Decide && ByRunToken(r) && r.priorUse
    ensures AfterUse(whole.request.pc) && whole.store == store && whole.events == []
  {
    hide Along, Organization, BundleKey;
    var key := BundleKey(Organization(r), r.given.repository);
    var end := r.(pc := if key.None? then Stopped(Decide) else Answered(Replayed(Organization(r))));
    OnwardQuietly(s, whole, store, r, [], first, later, end);
    Arrived(s, whole, store, end, [], first, later);
  }

  lemma PriorUseValidates(s: Setting, whole: Outcome, store: Store, r: Request, first: Oracle, later: Oracle)
    requires Along(s, whole, store, r, [], first, later) && r.pc == Validate && ByRunToken(r) && r.priorUse
    ensures AfterUse(whole.request.pc) && whole.store == store && whole.events == []
  {
    hide Along;
    if r.given.checked.Ok? && r.given.verified.Ok? {
      var deciding := r.(bound := r.given.verified.value, pc := Decide);
      OnwardQuietly(s, whole, store, r, [], first, later, deciding);
      PriorUseDecides(s, whole, store, deciding, first, later);
    } else {
      OnwardQuietly(s, whole, store, r, [], first, later, r.(pc := Answered(Rejected)));
      Arrived(s, whole, store, r.(pc := Answered(Rejected)), [], first, later);
    }
  }

  /** Nor does a request conflict whose payload is the claimed one, whatever else is wrong with it. */
  lemma SamePayloadNeverConflicts(s: Setting, store: Store, r: Request, first: Oracle, later: Oracle)
    requires Fits(r) && Presents(r, first) && ClaimHeld(store, r)
    ensures var end := RunAlone(s, store, r, first, later);
      AfterUse(end.request.pc) && end.store == store && end.events == []
  {
    var whole := RunAlone(s, store, r, first, later);
    SetOut(s, store, r, first, later);
    hide RunAlone, Along, ClaimKey, AfterUse;
    var reading := r.(pc := ReadClaim);
    var scoping := reading.(priorUse := true, pc := ReadScope);
    OnwardQuietly(s, whole, store, r, [], first, later, reading);
    OnwardQuietly(s, whole, store, reading, [], first, later, scoping);
    hide Presents;
    PriorUseScoped(s, whole, store, scoping, first, later);
  }

  lemma PriorUseScoped(s: Setting, whole: Outcome, store: Store, r: Request, first: Oracle, later: Oracle)
    requires Along(s, whole, store, r, [], first, later) && r.pc == ReadScope && ByRunToken(r) && r.priorUse
    ensures AfterUse(whole.request.pc) && whole.store == store && whole.events == []
  {
    InScopeExactly(s, r, first);
    RejectedAfterUse();
    hide Along, ScopeMatches, AfterUse, InScopeOf;
    if InScopeOf(s, r, first) {
      var validating := r.(installation := first.installation, order := first.order, organizationId := ScopedOrganization(first), pc := Validate);
      OnwardQuietly(s, whole, store, r, [], first, later, validating);
      PriorUseValidates(s, whole, store, validating, first, later);
    } else {
      var rejected := r.(pc := Answered(Rejected));
      OnwardQuietly(s, whole, store, r, [], first, later, rejected);
      Arrived(s, whole, store, rejected, [], first, later);
    }
  }

  lemma RejectedAfterUse()
    ensures AfterUse(Answered(Rejected))
  {}

  /**
   A token that another request has claimed in this run, presented again and run on its own: the
   answer is a conflict exactly when the two uses - repository and bundle, if any - have
   different fingerprints. Otherwise, if nothing is wrong with the submission, it is a replay.
   Neither leaves a row or an event.
   */
  lemma ReusedTokenExactly(
    s: Setting, w0: World, actions: seq<Action>, w: World, bearer: Text, i: nat, j: nat, first: Oracle, later: Oracle)
    returns (actions': seq<Action>, w': World)
    requires ClaimsApart(s) && Initial(s, w0) && Runs(s, w0, actions, w) && i < |w.requests| && j < |w.requests|
    requires Bears(w.requests[i], bearer) && w.requests[i].inserted
    requires Bears(w.requests[j], bearer) && Presents(w.requests[j], first)
    requires HonestOracle(s, first) && HonestOracle(s, later) && IsUuid(first.uuid) && first.uuid !in w.uuids
    ensures Runs(s, w0, actions', w') && w'.store == w.store && w'.log == w.log && |w'.requests| == |w.requests|
    ensures var same := s.js.Fingerprint(UseOf(w.requests[i].route)) == s.js.Fingerprint(UseOf(w.requests[j].route));
      && (w'.requests[j].pc == Answered(Conflict) <==> !same)
      && (same && Welcome(s, w.requests[j], first) && BundleKey(RetryOrganization(first), w.requests[j].given.repository).Some? ==>
        w'.requests[j].pc == Answered(Replayed(RetryOrganization(first))))
  {
    hide Runs, Inv, RunAlone, Fits, RequestInv, Welcome, ClaimHeld, Initial, UseOf, Presents, AfterUse, BundleKey;
    assert Reachable(s, w0, w);
    ReachableInv(s, w0, w);
    InvOf(s, w0, w, i);
    InvOf(s, w0, w, j);
    var owner, r := w.requests[i], w.requests[j];
    SameHash(s, w.store, owner, r, bearer);
    HeldExactly(s, w.store, owner, r);
    ClaimOfInserted(s, w.store, owner);
    ReadAs(s, w.store, owner);
    ReadAs(s, w.store, r);
    SamePayloadExactly(s.js, owner.route, r.route);
    if ClaimHeld(w.store, r) {
      SamePayloadNeverConflicts(s, w.store, r, first, later);
      NoConflict(RunAlone(s, w.store, r, first, later).request.pc);
      if Welcome(s, r, first) && BundleKey(RetryOrganization(first), r.given.repository).Some? {
        RetryIsReplayed(s, w.store, r, first, later);
      }
    } else {
      OtherPayloadConflicts(s, w.store, r, first, later);
    }
    actions', w' := AloneIsARun(s, w0, actions, w, j, first, later);
  }

  lemma NoConflict(pc: Pc)
    requires AfterUse(pc)
    ensures pc != Answered(Conflict)
  {}

  lemma ReadAs(s: Setting, store: Store, r: Request)
    requires RequestInv(s, store, r)
    ensures r.given == Read(s.js, r.route)
  {}

  /** What a claimed token's row says, and where it stands. */
  lemma ClaimSays(s: Setting, w0: World, w: World, i: nat)
    requires ClaimsApart(s) && Reachable(s, w0, w) && i < |w.requests| && w.requests[i].inserted
    ensures ByRunToken(w.requests[i])
    ensures var route := w.requests[i].route; var token := route.caller.token;
      var key := "assurance:run-token:" + HexDigest(s.js.sha256(Utf8(route.caller.bearer)));
      key in w.store && w.store[key] == Claim(HexDigest(s.js.Fingerprint(UseOf(route))), token.runId, Repository(route), token.expiresAt)
  {
    hide Inv, RequestInv, Fits, UseOf, Read;
    ReachableInv(s, w0, w);
    InvOf(s, w0, w, i);
    var r := w.requests[i];
    ReadAs(s, w.store, r);
    ClaimOfInserted(s, w.store, r);
    PayloadMeans(s.js, r.route);
    TokenRead(s.js, r.route);
    ClaimKeySpelled(r.given.hash);
  }

  lemma TokenRead(js: Runtime, route: Route)
    requires route.Ingest? && route.caller.ByToken?
    ensures Read(js, route).hash == js.sha256(Utf8(route.caller.bearer)) && Read(js, route).repository == Repository(route)
  {
    hide ValidateHostedAssuranceBundle, BoundReceipt, Repository, PayloadDigest;
  }

  /** Every accepted answer is about the use that the token's row names. */
  lemma AcceptedAnswersSay(s: Setting, w0: World, w: World, i: nat)
    requires ClaimsApart(s) && Reachable(s, w0, w) && i < |w.requests| && ByRunToken(w.requests[i])
    requires IsIngested(w.requests[i]) || IsReplayed(w.requests[i])
    ensures var route := w.requests[i].route;
      var key := "assurance:run-token:" + HexDigest(s.js.sha256(Utf8(route.caller.bearer)));
      key in w.store && PayloadDigestOf(w.store[key]) == Some(HexDigest(s.js.Fingerprint(UseOf(route))))
  {
    AcceptedAnswersAgree(s, w0, w, i);
    hide Inv, RequestInv, Fits, UseOf, Read, IsIngested, IsReplayed;
    ReachableInv(s, w0, w);
    InvOf(s, w0, w, i);
    var r := w.requests[i];
    ReadAs(s, w.store, r);
    PayloadMeans(s.js, r.route);
    TokenRead(s.js, r.route);
    ClaimKeySpelled(r.given.hash);
  }

  /** One user of the token is ingested; each other one is a replay if its use has the same fingerprint, and else a conflict. */
  predicate SettledByUse(s: Setting, w: World, hash: Digest) {
    exists i :: 0 <= i < |w.requests| && Uses(w.requests[i], hash) && IsIngested(w.requests[i]) && SettledAgainst(s, w, hash, i)
  }

  predicate SettledAgainst(s: Setting, w: World, hash: Digest, i: nat)
    requires i < |w.requests| && Uses(w.requests[i], hash)
  {
    forall j :: 0 <= j < |w.requests| && j != i && Uses(w.requests[j], hash) ==>
      if s.js.Fingerprint(UseOf(w.requests[j].route)) == s.js.Fingerprint(UseOf(w.requests[i].route)) then IsReplayed(w.requests[j])
      else w.requests[j].pc == Answered(Conflict)
  }

  lemma SettledSo(s: Setting, w0: World, w: World, hash: Digest)
    requires Inv(s, w0, w) && OneIngestedOthersSettled(w, hash)
    ensures SettledByUse(s, w, hash)
  {
    hide Inv, IsIngested, IsReplayed, UseOf;
    var i :| 0 <= i < |w.requests| && Uses(w.requests[i], hash) && IsIngested(w.requests[i]) && OthersSettled(w, hash, i);
    forall j | 0 <= j < |w.requests| && j != i && Uses(w.requests[j], hash)
      ensures if s.js.Fingerprint(UseOf(w.requests[j].route)) == s.js.Fingerprint(UseOf(w.requests[i].route)) then IsReplayed(w.requests[j])
        else w.requests[j].pc == Answered(Conflict)
    {
      InvOf(s, w0, w, i);
      InvOf(s, w0, w, j);
      ReadAs(s, w.store, w.requests[i]);
      ReadAs(s, w.store, w.requests[j]);
      SamePayloadExactly(s.js, w.requests[i].route, w.requests[j].route);
    }
    assert SettledAgainst(s, w, hash, i);
  }

  /** The race for a token, told from what was submitted: among whatever else runs, its answered users are settled by their uses. */
  lemma ExactlyOneUseIngests(s: Setting, w0: World, w: World, hash: Digest, user: nat)
    requires ClaimsApart(s) && Reachable(s, w0, w) && s.capability.Reports? && ClaimKey(hash) !in w0.store
    requires user < |w.requests| && Uses(w.requests[user], hash)
    requires forall i :: 0 <= i < |w.requests| && Uses(w.requests[i], hash) ==> PastTheChecks(w.requests[i])
    ensures SettledByUse(s, w, hash)
  {
    hide Inv, OneIngestedOthersSettled, SettledByUse, Reachable;
    ExactlyOneIngests(s, w0, w, hash, user);
    ReachableInv(s, w0, w);
    SettledSo(s, w0, w, hash);
  }

  /** The same from the inputs alone. */
  lemma AdmissibleExactlyOneUseIngests(s: Setting, w0: World, actions: seq<Action>, w: World, hash: Digest, user: nat)
    requires ClaimsApart(s) && s.capability.Reports? && Initial(s, w0) && GrantedRuns(s, hash, w0, actions, w)
    requires ClaimKey(hash) !in w0.store && user < |w0.requests| && Uses(w0.requests[user], hash)
    requires forall i :: 0 <= i < |w0.requests| && Uses(w0.requests[i], hash) ==> Admissible(w0.requests[i])
    requires forall i :: 0 <= i < |w.requests| && Uses(w.requests[i], hash) ==> w.requests[i].pc.Answered?
    ensures SettledByUse(s, w, hash)
  {
    AdmissibleExactlyOneIngests(s, w0, actions, w, hash, user);
    hide Inv, OneIngestedOthersSettled, SettledByUse, Runs, GrantedRuns, Admissible;
    assert NoneRejected(w0, hash) by { NotRejectedYet(s, w0, hash); }
    GrantedNotRejected(s, hash, w0, actions, w);
    assert Reachable(s, w0, w);
    ReachableInv(s, w0, w);
    SettledSo(s, w0, w, hash);
  }

  lemma NotRejectedYet(s: Setting, w0: World, hash: Digest)
    requires Initial(s, w0) && forall i :: 0 <= i < |w0.requests| && Uses(w0.requests[i], hash) ==> Admissible(w0.requests[i])
    ensures NoneRejected(w0, hash)
  {
    hide Admissible;
  }

  /** A request that is not admitted, or names no repository, is rejected and leaves nothing behind, whatever its route. */
  lemma TurnedAway(s: Setting, store: Store, route: Route, first: Oracle, later: Oracle)
    requires !first.admitted || Repository(route) == []
    ensures var r := Arriving(s, route);
      RunAlone(s, store, r, first, later) == Outcome(store, r.(pc := Answered(Rejected)), [])
  {
    var r := Arriving(s, route);
    RepositoryRead(s.js, route);
    hide Read;
    var whole := RunAlone(s, store, r, first, later);
    SetOut(s, store, r, first, later);
    hide RunAlone, Along;
    OnwardQuietly(s, whole, store, r, [], first, later, r.(pc := Answered(Rejected)));
    Arrived(s, whole, store, r.(pc := Answered(Rejected)), [], first, later);
  }

  lemma RepositoryRead(js: Runtime, route: Route)
    ensures Read(js, route).repository == Repository(route)
  {
    hide ValidateHostedAssuranceBundle, BoundReceipt, Repository, PayloadDigest;
  }

  /** So is a run token presented for another repository than its own. */
  lemma WrongRepositoryRejected(s: Setting, store: Store, r: Request, first: Oracle, later: Oracle)
    requires Fits(r) && r.pc == Start && ByRunToken(r) && r.route.caller.token.repository != r.given.repository
    ensures RunAlone(s, store, r, first, later) == Outcome(store, r.(pc := Answered(Rejected)), [])
  {
    var whole := RunAlone(s, store, r, first, later);
    SetOut(s, store, r, first, later);
    hide RunAlone, Along;
    OnwardQuietly(s, whole, store, r, [], first, later, r.(pc := Answered(Rejected)));
    Arrived(s, whole, store, r.(pc := Answered(Rejected)), [], first, later);
  }

  /**
   And so is a run token whose work order belongs to another repository or installation, or whose
   organisation lacks the entitlement - unless the token is used for another payload, which is
   found out first.
   */
  lemma OutOfScopeRejected(s: Setting, store: Store, r: Request, first: Oracle, later: Oracle)
    requires Fits(r) && Presents(r, first) && (ClaimKey(r.given.hash) in store ==> ClaimHeld(store, r)) && !InScopeOf(s, r, first)
    ensures var end := RunAlone(s, store, r, first, later);
      end.store == store && end.events == [] && end.request.pc == Answered(Rejected)
  {
    var whole := RunAlone(s, store, r, first, later);
    SetOut(s, store, r, first, later);
    InScopeExactly(s, r, first);
    hide RunAlone, Along, ClaimKey, ScopeMatches, InScopeOf;
    var reading := r.(pc := ReadClaim);
    var scoping := reading.(priorUse := ClaimKey(r.given.hash) in store, pc := ReadScope);
    OnwardQuietly(s, whole, store, r, [], first, later, reading);
    OnwardQuietly(s, whole, store, reading, [], first, later, scoping);
    OnwardQuietly(s, whole, store, scoping, [], first, later, scoping.(pc := Answered(Rejected)));
    Arrived(s, whole, store, scoping.(pc := Answered(Rejected)), [], first, later);
  }

  /** Who did what: the action, the repository and the actor of an audit entry, read off the request that writes it. */
  predicate Attests(route: Route, record: Record) {
    match route
    case Delete(_, userId, _) => record == Audit(AssuranceDelete, Repository(route), userId)
    case Ingest(BySession(_, userId), _) => record == Audit(AssuranceIngest, Repository(route), userId)
    case Ingest(ByToken(_, _), _) => record == Audit(AssuranceIngest, Repository(route), "action")
    case Summary(_, _) => false
  }

  /** Whose a stored bundle is. */
  predicate Labelled(r: Request, organizationId: Text, record: Record) {
    && r.route.Ingest? && record.Bundle? && record.organizationId == organizationId && record.repository == Repository(r.route)
    && (match r.route.caller
        case BySession(org, _) => organizationId == org && record.runId == None
        case ByToken(_, token) =>
          && record.runId == Some(token.runId)
          && organizationId == (if r.order.Some? then r.order.value.organizationId else if r.installation.Some? then r.installation.value else "oidc"))
  }

  /** Once the scope is settled, a request works for the organisation of its session, its order or its installation. */
  predicate Placed(r: Request) {
    r.route.Ingest? && PastScope(Reached(r.pc)) ==>
      match r.route.caller
      case BySession(org, _) => r.organizationId == Some(org)
      case ByToken(_, _) => r.organizationId == if r.order.Some? then Some(r.order.value.organizationId) else r.installation
  }

  lemma StartPlaced(store: Store, r: Request, o: Oracle)
    requires r.pc == Start && Fits(r)
    ensures Placed(StepStart(store, r, o).request)
  {
    hide Fits;
  }

  lemma ScopePlaced(s: Setting, store: Store, r: Request, o: Oracle)
    requires r.pc == ReadScope && Fits(r)
    ensures Placed(StepReadScope(s, store, r, o).request)
  {
    hide ScopeMatches;
  }

  /** Nothing but the admission and the scope settles it. */
  lemma OrganizationStays(s: Setting, store: Store, r: Request, o: Oracle)
    requires Fits(r) && !Finished(r) && r.pc != Start && r.pc != ReadScope
    ensures Step(s, store, r, o).request.organizationId == r.organizationId
  {
    hide Fits, Organization, OwnClaim, BundleKey, ClaimKey, AuditKey, RoutedVerdict, BundleRecord, AuditRecord, PayloadDigestOf, Advances, OnlyLooks;
    if Notifying(r.pc) {
      hide StepTable;
    } else {
      hide StepNotify, StepStart, StepReadScope;
    }
  }

  lemma StepPlaced(s: Setting, store: Store, r: Request, o: Oracle)
    requires Fits(r) && !Finished(r) && Placed(r)
    ensures Placed(Step(s, store, r, o).request)
  {
    if r.pc == Start {
      hide Placed, Fits;
      StartPlaced(store, r, o);
    } else if r.pc == ReadScope {
      hide Placed, Fits;
      ScopePlaced(s, store, r, o);
    } else {
      StepAdvances(s, store, r, o);
      OrganizationStays(s, store, r, o);
      hide Step, Fits, PastValidation;
    }
  }

  ghost predicate AllPlaced(w: World) {
    forall i :: 0 <= i < |w.requests| ==> Placed(w.requests[i])
  }

  lemma {:induction false} RunsPlaced(s: Setting, w0: World, actions: seq<Action>, w: World)
    requires AllPlaced(w0) && Runs(s, w0, actions, w)
    ensures AllPlaced(w)
    decreases |actions|
  {
    hide Step, Fits, Honest, Placed;
    if actions != [] {
      var n := |actions| - 1;
      var a := actions[n];
      var v :| Runs(s, w0, actions[..n], v) && Allowed(s, v, a) && w == Apply(s, v, a);
      RunsPlaced(s, w0, actions[..n], v);
      match a
      case Advance(i, o) => StepPlaced(s, v.store, v.requests[i], o);
      case Crash(i) => StopPlaced(v.requests[i]);
      case Elsewhere(_, _) =>
    }
  }

  lemma StopPlaced(r: Request)
    requires Placed(r) && !Finished(r)
    ensures Placed(r.(pc := Stopped(r.pc)))
  {}

  lemma InitialPlaced(s: Setting, w0: World)
    requires Initial(s, w0)
    ensures AllPlaced(w0)
  {
    hide Read, KnownOrganization;
  }

  lemma PlannedAudit(s: Setting, r: Request, e: Event)
    requires e in Plan(s, r) && e.AuditPut?
    ensures e.record == AuditRecord(r) && !r.route.Summary?
  {
    hide AuditRecord, BundleRecord, OwnClaim, RoutedVerdict, Organization;
  }

  lemma PlannedLabel(s: Setting, r: Request, e: Event)
    requires e in Plan(s, r) && e.BundlePut?
    ensures r.route.Ingest? && e.record == BundleRecord(r) && e.organizationId == Organization(r)
  {
    hide AuditRecord, BundleRecord, OwnClaim, RoutedVerdict, Organization;
  }

  /** What a request has logged is planned, but for its claim. */
  lemma LoggedIsPlanned(s: Setting, r: Request, e: Event)
    requires Fits(r) && e in Performed(s, r) && !e.Claimed?
    ensures e in Plan(s, r)
  {
    PerformedIsPrefix(s, r);
    hide Performed, Plan;
    assert e in ClaimEvents(s, r) + Plan(s, r);
  }

  /** What has been logged beyond its claim lies past the scope. */
  lemma LoggedPastScope(s: Setting, store: Store, r: Request, e: Event)
    requires RequestInv(s, store, r) && r.route.Ingest? && e in Performed(s, r) && !e.Claimed?
    ensures PastScope(Reached(r.pc))
  {
    hide TokenInv, AdmissionInv, OrganizationInv, AfterBundle, AfterAudit, AfterEvidence, AfterPublished, AfterRouted, AfterQueued, Plan, Read;
    if Quiet(Reached(r.pc)) {
      QuietPerformed(s, r);
    }
    hide Performed;
  }

  /** Every audit entry tells its own request's action, repository and actor. */
  lemma AuditsAttest(s: Setting, w0: World, w: World, k: nat)
    requires ClaimsApart(s) && Reachable(s, w0, w) && k < |w.log| && w.log[k].event.AuditPut?
    ensures w.log[k].source < |w.requests| && Attests(w.requests[w.log[k].source].route, w.log[k].event.record)
  {
    ReachableInv(s, w0, w);
    EventAmong(w.log, k);
    var i := w.log[k].source;
    LogOf(s, w0, w, k);
    hide Performed, EventsOf, Inv, RequestInv, Fits, Plan, Read;
    var r := w.requests[i];
    InvOf(s, w0, w, i);
    ReadAs(s, w.store, r);
    RepositoryRead(s.js, r.route);
    LoggedIsPlanned(s, r, w.log[k].event);
    PlannedAudit(s, r, w.log[k].event);
  }

  lemma LogOf(s: Setting, w0: World, w: World, k: nat)
    requires Inv(s, w0, w) && k < |w.log|
    ensures w.log[k].source < |w.requests|
    ensures EventsOf(w.log, w.log[k].source) == Performed(s, w.requests[w.log[k].source])
  {
    hide RequestInv, Performed, EventsOf;
  }

  /** Every stored bundle is labelled with its own request's organisation, repository and run. */
  lemma BundlesLabelled(s: Setting, w0: World, w: World, k: nat)
    requires ClaimsApart(s) && Reachable(s, w0, w) && k < |w.log| && w.log[k].event.BundlePut?
    ensures w.log[k].source < |w.requests|
    ensures Labelled(w.requests[w.log[k].source], w.log[k].event.organizationId, w.log[k].event.record)
  {
    ReachableInv(s, w0, w);
    var actions :| Runs(s, w0, actions, w);
    InitialPlaced(s, w0);
    RunsPlaced(s, w0, actions, w);
    EventAmong(w.log, k);
    var i := w.log[k].source;
    LogOf(s, w0, w, k);
    hide Performed, EventsOf, Inv, RequestInv, Fits, Plan, Read, Runs, PastScope, Placed, Labelled, BundleRecord, Organization, Initial;
    var r := w.requests[i];
    InvOf(s, w0, w, i);
    ReadAs(s, w.store, r);
    RepositoryRead(s.js, r.route);
    LoggedIsPlanned(s, r, w.log[k].event);
    PlannedLabel(s, r, w.log[k].event);
    LoggedPastScope(s, w.store, r, w.log[k].event);
    LabelledSo(r);
  }

  lemma LabelledSo(r: Request)
    requires r.route.Ingest? && Placed(r) && PastScope(Reached(r.pc)) && r.given.repository == Repository(r.route)
    ensures Labelled(r, Organization(r), BundleRecord(r))
  {
    hide PastScope, Repository;
  }

  /** What the receipts say: the last one's verdict if that is a text, else the first one's, if that is. */
  function StatedText(receipts: seq<Json>): Option<Text> {
    if receipts == [] then None
    else
      match Field(receipts[|receipts| - 1], "verdict")
      case Some(Str(last)) => Some(last)
      case _ => (match Field(receipts[0], "verdict") case Some(Str(first)) => Some(first) case _ => None)
  }

  /** The factory is told of a pass exactly when the receipts say PASS, of a failure exactly when they say FAIL, and else of nothing known. */
  lemma VerdictsSpelled(s: Setting, w0: World, w: World, k: nat)
    requires ClaimsApart(s) && Reachable(s, w0, w) && k < |w.log|
    requires w.log[k].event.Routed? || w.log[k].event.Enqueued?
    ensures w.log[k].source < |w.requests| && w.requests[w.log[k].source].route.Ingest?
    ensures var stated := StatedText(ReceiptsIn(w.requests[w.log[k].source].route.body));
      && (w.log[k].event.verdict == PASS <==> stated == Some("PASS"))
      && (w.log[k].event.verdict == FAIL <==> stated == Some("FAIL"))
  {
    RoutedVerdictsAreProven(s, w0, w, k);
    ReachableInv(s, w0, w);
    var i := w.log[k].source;
    hide Inv, RequestInv, Fits, Read;
    InvOf(s, w0, w, i);
    ReadAs(s, w.store, w.requests[i]);
    ReceiptsRead(s.js, w.requests[i].route);
    LastStatedSpelled(w.requests[i].given.receipts);
  }

  lemma ReceiptsRead(js: Runtime, route: Route)
    requires route.Ingest?
    ensures Read(js, route).receipts == ReceiptsIn(route.body)
  {
    hide ValidateHostedAssuranceBundle, BoundReceipt, Repository, PayloadDigest;
  }

  lemma LastStatedSpelled(receipts: seq<Json>)
    ensures LastStated(receipts) == PASS <==> StatedText(receipts) == Some("PASS")
    ensures LastStated(receipts) == FAIL <==> StatedText(receipts) == Some("FAIL")
  {}

  /** A text without control characters, of 1 to 300 units. */
  predicate Nameable(s: Text) {
    1 <= |s| <= 300 && forall i :: 0 <= i < |s| ==> 0x20 <= Code(s[i]) && Code(s[i]) != 0x7F
  }

  /** The name is the text without the white space at its ends. */
  ghost predicate Bare(s: Text, name: Text) {
    KeptEnds(name, WhitespaceUnit)
    && exists front: Text, back: Text :: AllDropped(front, WhitespaceUnit) && AllDropped(back, WhitespaceUnit) && s == front + name + back
  }

  lemma BareExactly(s: Text, name: Text)
    ensures Trimmed(s) == name <==> Bare(s, name)
  {
    var front, back := TrimParts(s, WhitespaceUnit);
    assert Bare(s, Trimmed(s));
    if Bare(s, name) {
      var a: Text, b: Text :| AllDropped(a, WhitespaceUnit) && AllDropped(b, WhitespaceUnit) && s == a + name + b;
      TrimUnique(a, name, b, WhitespaceUnit);
    }
  }

  /** A repository is named by a text of 1 to 300 units without control characters, whose outer white space is taken off. */
  lemma RepositoryExactly(value: Option<Json>, name: Text)
    ensures AssuranceRepository(value) == Some(name) <==>
      value.Some? && value.value.Str? && Nameable(value.value.s) && Bare(value.value.s, name)
  {
    if value.Some? && value.value.Str? {
      BareExactly(value.value.s, name);
    }
  }
}
