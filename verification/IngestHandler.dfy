/** The ingest route as the code runs it when nothing interrupts it, against the table it updates in place. */
module IngestHandler {
  import opened Sequences
  import opened Unicode
  import opened Receipts
  import opened MetadataKeys
  import opened Ingest
  import opened IngestSafety
  import opened IngestRuns

  /** The metadata table behind `D1JsonMetadataStore`. */
  class MetadataStore {
    var rows: Store
    const capability: Capability

    constructor (capability: Capability)
      ensures rows == map[] && this.capability == capability
    {
      this.capability := capability;
      rows := map[];
    }

    method Get(key: Text) returns (row: Option<Record>)
      ensures row == if key in rows then Some(rows[key]) else None
    {
      row := if key in rows then Some(rows[key]) else None;
    }

    method Put(key: Text, value: Record)
      modifies this
      ensures rows == old(rows)[key := value]
    {
      rows := rows[key := value];
    }

    /** Insert-or-ignore; true only when the insertion happened and is reported. */
    method PutIfAbsent(key: Text, value: Record) returns (claimed: bool)
      requires !capability.Absent?
      modifies this
      ensures rows == if key in old(rows) then old(rows) else old(rows)[key := value]
      ensures claimed <==> key !in old(rows) && capability.Reports?
    {
      claimed := key !in rows && capability.Reports?;
      if key !in rows {
        rows := rows[key := value];
      }
    }

    method Delete(key: Text)
      modifies this
      ensures rows == old(rows) - {key}
    {
      rows := rows - {key};
    }
  }

  /** The admission of an ingest: who asks, for what, and whether the token is already used (lines 125-148). */
  method Admit(s: Setting, metadata: MetadataStore, r: Request, first: Oracle, ghost later: Oracle, ghost whole: Outcome)
    returns (r': Request)
    requires r.pc == Start && r.route.Ingest? && Along(s, whole, metadata.rows, r, [], first, later)
    ensures Along(s, whole, metadata.rows, r', [], first, later)
    ensures Finished(r') || (r'.pc == Validate && !ByRunToken(r')) || (r'.pc == ReadScope && ByRunToken(r'))
    ensures r'.route == r.route && r'.given == r.given
  {
    hide Along, PayloadDigestOf, ClaimKey;
    if !first.admitted || r.given.repository == [] {
      r' := r.(pc := Answered(Rejected));
    } else if r.route.caller.BySession? {
      r' := r.(organizationId := Some(r.route.caller.organizationId), pc := Validate);
    } else if r.route.caller.token.repository != r.given.repository {
      r' := r.(pc := Answered(Rejected));
    } else {
      r' := r.(pc := ReadClaim);
    }
    OnwardQuietly(s, whole, metadata.rows, r, [], first, later, r');
    if r'.pc == ReadClaim {
      ghost var reading := r';
      var priorTokenUse := metadata.Get(ClaimKey(r.given.hash));
      if priorTokenUse.Some? && PayloadDigestOf(priorTokenUse.value) != Some(r.given.payload) {
        r' := r'.(pc := Answered(Conflict));
      } else {
        r' := r'.(priorUse := priorTokenUse.Some?, pc := ReadScope);
      }
      OnwardQuietly(s, whole, metadata.rows, reading, [], first, later, r');
    }
  }

  /** The scope of a run token (lines 149-160). */
  method CheckScope(s: Setting, metadata: MetadataStore, r: Request, first: Oracle, ghost later: Oracle, ghost whole: Outcome)
    returns (r': Request)
    requires r.pc == ReadScope && ByRunToken(r) && Along(s, whole, metadata.rows, r, [], first, later)
    ensures Along(s, whole, metadata.rows, r', [], first, later)
    ensures Finished(r') || r'.pc == Validate
    ensures r'.route == r.route && r'.given == r.given
  {
    hide Along, ScopeMatches;
    var organizationId := if first.order.Some? then Some(first.order.value.organizationId) else first.installation;
    if !ScopeMatches(s.js, r.given.repository, first.installation, first.order) {
      r' := r.(pc := Answered(Rejected));
    } else if organizationId.Some? && organizationId.value != [] && first.denied {
      r' := r.(pc := Answered(Rejected));
    } else {
      r' := r.(installation := first.installation, order := first.order, organizationId := organizationId, pc := Validate);
    }
    OnwardQuietly(s, whole, metadata.rows, r, [], first, later, r');
  }

  /** The validation of the submission and of its receipts (lines 161-172). */
  method CheckSubmission(s: Setting, metadata: MetadataStore, r: Request, ghost first: Oracle, ghost later: Oracle, ghost whole: Outcome)
    returns (r': Request)
    requires r.pc == Validate && r.route.Ingest? && r.given == Read(s.js, r.route)
    requires Along(s, whole, metadata.rows, r, [], first, later)
    ensures Along(s, whole, metadata.rows, r', [], first, later)
    ensures Finished(r') || r'.pc == Decide || (r'.pc == ClaimToken && ByRunToken(r'))
    ensures r'.route == r.route && r'.given == r.given
  {
    hide Along, ValidateHostedAssuranceBundle, BoundReceipt;
    var checked := ValidateHostedAssuranceBundle(s.js, r.given.bundle);
    if checked.Err? {
      r' := r.(pc := Answered(Rejected));
    } else if !ByRunToken(r) {
      r' := r.(pc := Decide);
    } else {
      var boundReceipt := BindReceipts(s.js, r.given.receipts, r.given.repository, r.route.caller.token.sha);
      if boundReceipt.Err? {
        r' := r.(pc := Answered(Rejected));
      } else {
        r' := r.(bound := boundReceipt.value, pc := if r.priorUse then Decide else ClaimToken);
      }
    }
    OnwardQuietly(s, whole, metadata.rows, r, [], first, later, r');
  }

  /** The claim of the token (lines 176-178). */
  method Claim(s: Setting, metadata: MetadataStore, r: Request, ghost first: Oracle, ghost later: Oracle, ghost whole: Outcome)
    returns (r': Request, events: seq<Event>)
    requires metadata.capability == s.capability
    requires r.pc == ClaimToken && ByRunToken(r) && Along(s, whole, metadata.rows, r, [], first, later)
    modifies metadata
    ensures Along(s, whole, metadata.rows, r', events, first, later)
    ensures (r'.pc == ReadBack || r'.pc == Decide) && r'.route == r.route
  {
    hide Along, ClaimKey, OwnClaim;
    ghost var before := metadata.rows;
    var tokenUseKey, claimed := ClaimKey(r.given.hash), false;
    var inserted := tokenUseKey !in metadata.rows && !s.capability.Absent?;
    if !s.capability.Absent? {
      claimed := metadata.PutIfAbsent(tokenUseKey, OwnClaim(r));
    }
    events := if inserted then [Claimed(r.given.hash, OwnClaim(r))] else [];
    r' := if inserted then r.(inserted := true, claimed := claimed, pc := if claimed then Decide else ReadBack) else r.(pc := ReadBack);
    Onward(s, whole, before, r, [], first, later, metadata.rows, r', events);
    assert [] + events == events;
  }

  /** The answers of those who do not get the claim (lines 179-182). */
  method ReadClaimBack(
    s: Setting, metadata: MetadataStore, r: Request, ghost events: seq<Event>, ghost first: Oracle, ghost later: Oracle, ghost whole: Outcome)
    returns (r': Request)
    requires r.pc == ReadBack && ByRunToken(r) && Along(s, whole, metadata.rows, r, events, first, later)
    ensures Along(s, whole, metadata.rows, r', events, first, later) && Finished(r')
  {
    hide Along, ClaimKey, PayloadDigestOf, Organization;
    var racedTokenUse := metadata.Get(ClaimKey(r.given.hash));
    if racedTokenUse.None? {
      r' := r.(pc := Answered(Unavailable));
    } else if PayloadDigestOf(racedTokenUse.value) != Some(r.given.payload) {
      r' := r.(pc := Answered(Conflict));
    } else {
      r' := r.(pc := Answered(Replayed(Organization(r))));
    }
    OnwardQuietly(s, whole, metadata.rows, r, events, first, later, r');
  }

  /** The replay answer, or the bundle and its audit entry (lines 185-189). */
  method PutBundleAndAudit(
    s: Setting, metadata: MetadataStore, r: Request, events: seq<Event>, first: Oracle, ghost later: Oracle, ghost whole: Outcome)
    returns (r': Request, events': seq<Event>)
    requires r.pc == Decide && r.route.Ingest? && Along(s, whole, metadata.rows, r, events, first, later)
    modifies metadata
    ensures Along(s, whole, metadata.rows, r', events', first, later)
    ensures Finished(r') || ((r'.pc == if s.bucket then PutEvidence else Publish) && r'.route.Ingest?)
    ensures r'.route == r.route
  {
    hide Along, Organization, BundleRecord, AuditRecord, OwnClaim, RoutedVerdict, BundleKey, AuditKey, ClaimKey;
    var organizationId, repository := Organization(r), r.given.repository;
    var key := BundleKey(organizationId, repository);
    events' := events;
    if key.None? || r.priorUse {
      r' := r.(pc := if key.None? then Stopped(Decide) else Answered(Replayed(organizationId)));
      OnwardQuietly(s, whole, metadata.rows, r, events, first, later, r');
      return;
    }
    r' := r.(pc := PutBundle);
    OnwardQuietly(s, whole, metadata.rows, r, events, first, later, r');
    SameContents(r, r');
    ghost var before, putting := metadata.rows, r';
    metadata.Put(key.value, BundleRecord(r));
    r' := r.(pc := PutAudit);
    Onward(s, whole, before, putting, events, first, later, metadata.rows, r', [BundlePut(organizationId, repository, BundleRecord(r))]);
    events' := events + [BundlePut(organizationId, repository, BundleRecord(r))];
    SameContents(r, r');
    before, putting := metadata.rows, r';
    metadata.Put(AuditKey(organizationId, first.uuid), AuditRecord(r));
    r' := r.(uuid := first.uuid, pc := if s.bucket then PutEvidence else Publish);
    Onward(s, whole, before, putting, events', first, later, metadata.rows, r', [AuditPut(organizationId, first.uuid, AuditRecord(r))]);
    events' := events' + [AuditPut(organizationId, first.uuid, AuditRecord(r))];
  }

  /** The evidence copy and the publication (lines 190-199). */
  method PublishVerification(
    s: Setting, metadata: MetadataStore, r: Request, events: seq<Event>, ghost first: Oracle, ghost later: Oracle, ghost whole: Outcome)
    returns (r': Request, events': seq<Event>)
    requires (r.pc == if s.bucket then PutEvidence else Publish) && r.route.Ingest?
    requires Along(s, whole, metadata.rows, r, events, first, later)
    ensures Along(s, whole, metadata.rows, r', events', first, later)
    ensures Finished(r') || ((r'.pc == ReadOrder || r'.pc == RewriteClaim) && ByRunToken(r'))
  {
    hide Along, Organization, BundleRecord, RoutedVerdict;
    var repository, content := r.given.repository, BundleRecord(r).content;
    r', events' := r.(pc := Publish), events;
    SameContents(r, r');
    if s.bucket {
      Onward(s, whole, metadata.rows, r, events, first, later, metadata.rows, r', [EvidencePut(Organization(r), repository, content)]);
      events' := events + [EvidencePut(Organization(r), repository, content)];
    }
    ghost var publishing := r';
    r' := r.(pc := AfterPublish(r));
    SameContents(r, r');
    Onward(s, whole, metadata.rows, publishing, events', first, later, metadata.rows, r', [Published(repository, content)]);
    events' := events' + [Published(repository, content)];
  }

  /** The routing of the verdict (lines 200-216). */
  method RouteRun(
    s: Setting, metadata: MetadataStore, r: Request, events: seq<Event>, ghost first: Oracle, later: Oracle, ghost whole: Outcome)
    returns (r': Request, events': seq<Event>)
    requires r.pc == ReadOrder && ByRunToken(r) && Along(s, whole, metadata.rows, r, events, first, later)
    ensures Along(s, whole, metadata.rows, r', events', first, later)
    ensures r'.pc == RewriteClaim && r'.route == r.route
  {
    hide Along, Organization, RoutedVerdict;
    r', events' := r.(routed := later.order, pc := if later.order.Some? then RouteVerdict else RewriteClaim), events;
    OnwardQuietly(s, whole, metadata.rows, r, events, first, later, r');
    if later.order.Some? {
      var workOrderId, verdict := later.order.value.workOrderId, RoutedVerdict(r);
      ghost var routing := r';
      r' := r'.(pc := Enqueue);
      SameContents(r, routing);
      SameContents(r, r');
      Onward(s, whole, metadata.rows, routing, events, first, later, metadata.rows, r', [Routed(workOrderId, verdict)]);
      events' := events + [Routed(workOrderId, verdict)];
      ghost var queueing := r';
      r' := r'.(pc := RewriteClaim);
      Onward(s, whole, metadata.rows, queueing, events', first, later, metadata.rows, r', [Enqueued(workOrderId, verdict)]);
      events' := events' + [Enqueued(workOrderId, verdict)];
    }
  }

  /** The final rewrite of the claim (line 217). */
  method RewriteOwnClaim(
    s: Setting, metadata: MetadataStore, r: Request, events: seq<Event>, ghost first: Oracle, ghost later: Oracle, ghost whole: Outcome)
    returns (r': Request, events': seq<Event>)
    requires r.pc == RewriteClaim && ByRunToken(r) && Along(s, whole, metadata.rows, r, events, first, later)
    modifies metadata
    ensures Along(s, whole, metadata.rows, r', events', first, later) && Finished(r')
  {
    hide Along, Organization, OwnClaim, ClaimKey;
    ghost var before := metadata.rows;
    metadata.Put(ClaimKey(r.given.hash), OwnClaim(r));
    r' := r.(pc := Answered(Ingested(Organization(r))));
    Onward(s, whole, before, r, events, first, later, metadata.rows, r', [ClaimRewritten(r.given.hash, OwnClaim(r))]);
    events' := events + [ClaimRewritten(r.given.hash, OwnClaim(r))];
  }

  /** From the arrival of an ingest to its decision between effects and an early answer (lines 120-183). */
  method ReachDecision(
    s: Setting, metadata: MetadataStore, route: Route, first: Oracle, ghost later: Oracle, ghost whole: Outcome)
    returns (r: Request, events: seq<Event>)
    requires route.Ingest? && metadata.capability == s.capability
    requires Along(s, whole, metadata.rows, Arriving(s, route), [], first, later)
    modifies metadata
    ensures Along(s, whole, metadata.rows, r, events, first, later)
    ensures Finished(r) || (r.pc == Decide && r.route.Ingest?)
  {
    hide Along, Step, Read, AfterPublish, Organization;
    r, events := Arriving(s, route), [];
    r := Admit(s, metadata, r, first, later, whole);
    if r.pc == ReadScope {
      r := CheckScope(s, metadata, r, first, later, whole);
    }
    if r.pc == Validate {
      r := CheckSubmission(s, metadata, r, first, later, whole);
    }
    if r.pc == ClaimToken {
      r, events := Claim(s, metadata, r, first, later, whole);
    }
    if r.pc == ReadBack {
      r := ReadClaimBack(s, metadata, r, events, first, later, whole);
    }
  }

  /** An ingest that nothing interrupts does to the table, and answers, exactly what its steps in a row do. */
  method HandleIngest(s: Setting, metadata: MetadataStore, route: Route, first: Oracle, later: Oracle)
    returns (pc: Pc, events: seq<Event>)
    requires route.Ingest? && metadata.capability == s.capability
    modifies metadata
    ensures var end := RunAlone(s, old(metadata.rows), Arriving(s, route), first, later);
      metadata.rows == end.store && pc == end.request.pc && events == end.events
  {
    hide Along, Step, Read, AfterPublish, Organization, KnownOrganization;
    var r := Arriving(s, route);
    ghost var whole := RunAlone(s, metadata.rows, r, first, later);
    SetOut(s, metadata.rows, r, first, later);
    hide RunAlone;
    r, events := ReachDecision(s, metadata, route, first, later, whole);
    if r.pc == Decide {
      r, events := PutBundleAndAudit(s, metadata, r, events, first, later, whole);
    }
    if !Finished(r) {
      r, events := PublishVerification(s, metadata, r, events, first, later, whole);
    }
    if r.pc == ReadOrder {
      r, events := RouteRun(s, metadata, r, events, first, later, whole);
    }
    if r.pc == RewriteClaim {
      r, events := RewriteOwnClaim(s, metadata, r, events, first, later, whole);
    }
    Arrived(s, whole, metadata.rows, r, events, first, later);
    return r.pc, events;
  }

  /** A deletion: the bundle's row, then the audit entry (lines 221-235). */
  method HandleDelete(s: Setting, metadata: MetadataStore, route: Route, first: Oracle, ghost later: Oracle)
    returns (pc: Pc, ghost events: seq<Event>)
    requires route.Delete?
    modifies metadata
    ensures var end := RunAlone(s, old(metadata.rows), Arriving(s, route), first, later);
      metadata.rows == end.store && pc == end.request.pc && events == end.events
  {
    hide Along, Read, BundleKey, AuditKey, AuditRecord;
    var r := Arriving(s, route);
    ghost var whole := RunAlone(s, metadata.rows, r, first, later);
    SetOut(s, metadata.rows, r, first, later);
    hide RunAlone;
    events := [];
    var key := BundleKey(route.organizationId, r.given.repository);
    var admitted := first.admitted && r.given.repository != [];
    var r' := r.(pc := if admitted then DeleteBundle else Answered(Rejected));
    OnwardQuietly(s, whole, metadata.rows, r, events, first, later, r');
    if admitted && key.None? {
      OnwardQuietly(s, whole, metadata.rows, r', events, first, later, r.(pc := Stopped(DeleteBundle)));
      r' := r.(pc := Stopped(DeleteBundle));
    } else if admitted {
      ghost var before := metadata.rows;
      metadata.Delete(key.value);
      ghost var deleted := [BundleDeleted(route.organizationId, r.given.repository)];
      Onward(s, whole, before, r', events, first, later, metadata.rows, r.(pc := AuditDelete), deleted);
      r', before := r.(pc := AuditDelete), metadata.rows;
      SameContents(r, r');
      metadata.Put(AuditKey(route.organizationId, first.uuid), AuditRecord(r));
      ghost var audited := [AuditPut(route.organizationId, first.uuid, AuditRecord(r))];
      Onward(s, whole, before, r', events + deleted, first, later, metadata.rows, r.(uuid := first.uuid, pc := Answered(Deleted)), audited);
      r', events := r.(uuid := first.uuid, pc := Answered(Deleted)), events + deleted + audited;
    }
    Arrived(s, whole, metadata.rows, r', events, first, later);
    return r'.pc, events;
  }

  /** A summary: one read of the bundle's row (lines 103-117). */
  method HandleSummary(s: Setting, metadata: MetadataStore, route: Route, first: Oracle, ghost later: Oracle)
    returns (pc: Pc)
    requires route.Summary?
    ensures pc == RunAlone(s, metadata.rows, Arriving(s, route), first, later).request.pc
  {
    hide Along, Read, BundleKey;
    var r := Arriving(s, route);
    ghost var whole := RunAlone(s, metadata.rows, r, first, later);
    SetOut(s, metadata.rows, r, first, later);
    hide RunAlone;
    var admitted := first.admitted && r.given.repository != [];
    var r' := r.(pc := if admitted then ReadBundle else Answered(Rejected));
    OnwardQuietly(s, whole, metadata.rows, r, [], first, later, r');
    if admitted {
      ghost var reading := r';
      var key := BundleKey(route.organizationId, r.given.repository);
      if key.None? {
        r' := r.(pc := Stopped(ReadBundle));
      } else {
        var stored := metadata.Get(key.value);
        r' := r.(pc := Answered(Found(stored)));
      }
      OnwardQuietly(s, whole, metadata.rows, reading, [], first, later, r');
    }
    Arrived(s, whole, metadata.rows, r', [], first, later);
    return r'.pc;
  }
}
