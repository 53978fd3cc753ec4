/** The flat metadata table refines three independent structures: bundles, an audit log and token claims. */
module IngestStore {
  import opened Sequences
  import opened Unicode
  import opened Digests
  import opened MetadataKeys
  import opened Ingest
  import opened IngestSafety
  import opened IngestTheorems

  /** Bundles by organisation and repository, an audit log, and token claims: what the table stands for. */
  datatype Abstract = Abstract(
    bundles: map<(Text, Text), Record>,
    audits: map<(Text, Text), Record>,
    claims: map<Digest, Record>)

  /** The row under `key`, if any, is the abstract entry under `x`, if any. */
  predicate Agrees<X>(store: Store, key: Text, entries: map<X, Record>, x: X) {
    (key in store <==> x in entries) && (key in store ==> store[key] == entries[x])
  }

  ghost predicate BundlesAgree(store: Store, a: Abstract) {
    forall org: Text, repository: Text :: org != RUN_TOKEN && BundleKey(org, repository).Some? ==>
      Agrees(store, BundleKey(org, repository).value, a.bundles, (org, repository))
  }

  ghost predicate AuditsAgree(store: Store, a: Abstract) {
    forall org: Text, uuid: Text :: IsUuid(uuid) ==> Agrees(store, AuditKey(org, uuid), a.audits, (org, uuid))
  }

  ghost predicate ClaimsAgree(store: Store, a: Abstract) {
    forall hash: Digest :: Agrees(store, ClaimKey(hash), a.claims, hash)
  }

  ghost predicate Represents(store: Store, a: Abstract) {
    BundlesAgree(store, a) && AuditsAgree(store, a) && ClaimsAgree(store, a)
  }

  /** What an event does to the table. */
  function Written(store: Store, e: Event): Store {
    match e
    case Claimed(hash, record) => store[ClaimKey(hash) := record]
    case ClaimRewritten(hash, record) => store[ClaimKey(hash) := record]
    case AuditPut(org, uuid, record) => store[AuditKey(org, uuid) := record]
    case BundlePut(org, repository, record) =>
      (match BundleKey(org, repository) case None => store case Some(key) => store[key := record])
    case BundleDeleted(org, repository) =>
      (match BundleKey(org, repository) case None => store case Some(key) => store - {key})
    case _ => store
  }

  /** What the same event does to the one structure it is about. */
  function Effected(a: Abstract, e: Event): Abstract {
    match e
    case Claimed(hash, record) => a.(claims := a.claims[hash := record])
    case ClaimRewritten(hash, record) => a.(claims := a.claims[hash := record])
    case AuditPut(org, uuid, record) => a.(audits := a.audits[(org, uuid) := record])
    case BundlePut(org, repository, record) => a.(bundles := a.bundles[(org, repository) := record])
    case BundleDeleted(org, repository) => a.(bundles := a.bundles - {(org, repository)})
    case _ => a
  }

  /** Addresses of the three kinds; an event of a known organisation is addressed properly. */
  predicate Proper(e: Event) {
    match e
    case AuditPut(_, uuid, _) => IsUuid(uuid)
    case BundlePut(org, repository, _) => org != RUN_TOKEN && BundleKey(org, repository).Some?
    case BundleDeleted(org, repository) => org != RUN_TOKEN && BundleKey(org, repository).Some?
    case _ => true
  }

  lemma BundleEventRefines(store: Store, a: Abstract, e: Event)
    requires Represents(store, a) && Proper(e) && (e.BundlePut? || e.BundleDeleted?)
    ensures Represents(Written(store, e), Effected(a, e))
  {
    hide BundleKey, ClaimKey, AuditKey;
    var key := BundleKey(e.organizationId, e.repository).value;
    forall org: Text, repository: Text | BundleKey(org, repository) == Some(key) ensures (org, repository) == (e.organizationId, e.repository) {
      BundleKeyInjective(org, repository, e.organizationId, e.repository);
    }
    forall org: Text, uuid: Text ensures AuditKey(org, uuid) != key {
      BundleMissesAudit(e.organizationId, e.repository, org, uuid);
    }
    forall hash: Digest ensures ClaimKey(hash) != key {
      BundleMeetsClaim(e.organizationId, e.repository, hash);
    }
  }

  lemma AuditEventRefines(store: Store, a: Abstract, e: Event)
    requires Represents(store, a) && Proper(e) && e.AuditPut?
    ensures Represents(Written(store, e), Effected(a, e))
  {
    hide BundleKey, ClaimKey, AuditKey;
    var key := AuditKey(e.organizationId, e.uuid);
    forall org: Text, repository: Text ensures BundleKey(org, repository) != Some(key) {
      BundleMissesAudit(org, repository, e.organizationId, e.uuid);
    }
    forall org: Text, uuid: Text | IsUuid(uuid) && AuditKey(org, uuid) == key ensures (org, uuid) == (e.organizationId, e.uuid) {
      AuditKeyInjective(org, uuid, e.organizationId, e.uuid);
    }
    forall hash: Digest ensures ClaimKey(hash) != key {
      ClaimMissesAudit(hash, e.organizationId, e.uuid);
    }
  }

  lemma ClaimEventRefines(store: Store, a: Abstract, e: Event)
    requires Represents(store, a) && (e.Claimed? || e.ClaimRewritten?)
    ensures Represents(Written(store, e), Effected(a, e))
  {
    hide BundleKey, ClaimKey, AuditKey;
    var key := ClaimKey(e.hash);
    forall org: Text, repository: Text | org != RUN_TOKEN ensures BundleKey(org, repository) != Some(key) {
      BundleMeetsClaim(org, repository, e.hash);
    }
    forall org: Text, uuid: Text ensures AuditKey(org, uuid) != key {
      ClaimMissesAudit(e.hash, org, uuid);
    }
    forall hash: Digest | ClaimKey(hash) == key ensures hash == e.hash {
      ClaimKeyInjective(hash, e.hash);
    }
  }

  /** Every event does to the table exactly what it does to the structure it is about, and nothing else. */
  lemma EventRefines(store: Store, a: Abstract, e: Event)
    requires Represents(store, a) && Proper(e)
    ensures Represents(Written(store, e), Effected(a, e))
  {
    hide Represents;
    match e
    case Claimed(_, _) => ClaimEventRefines(store, a, e);
    case ClaimRewritten(_, _) => ClaimEventRefines(store, a, e);
    case AuditPut(_, _, _) => AuditEventRefines(store, a, e);
    case BundlePut(_, _, _) => BundleEventRefines(store, a, e);
    case BundleDeleted(_, _) => BundleEventRefines(store, a, e);
    case _ =>
  }

  /** No row of the three structures stands under this key. */
  ghost predicate Unaddressed(key: Text) {
    && (forall org: Text, repository: Text :: org != RUN_TOKEN ==> BundleKey(org, repository) != Some(key))
    && (forall org: Text, uuid: Text :: IsUuid(uuid) ==> AuditKey(org, uuid) != key)
    && (forall hash: Digest :: ClaimKey(hash) != key)
  }

  lemma UnaddressedRefines(store: Store, store': Store, a: Abstract, key: Text)
    requires Represents(store, a) && Unaddressed(key) && store' - {key} == store - {key}
    ensures Represents(store', a)
  {
    hide BundleKey, ClaimKey, AuditKey, IsUuid;
    forall k: Text | k != key ensures (k in store <==> k in store') && (k in store ==> store[k] == store'[k]) {
      assert k in store <==> k in store - {key};
      assert k in store' <==> k in store' - {key};
      assert k in store ==> (store - {key})[k] == store[k];
      assert k in store' ==> (store' - {key})[k] == store'[k];
    }
  }

  /** A foreign write touches none of the three structures. */
  lemma ForeignRefines(store: Store, store': Store, a: Abstract, key: Text)
    requires Represents(store, a) && Foreign(key) && store' - {key} == store - {key}
    ensures Represents(store', a)
  {
    hide BundleKey, ClaimKey, AuditKey, Foreign, Represents;
    forall org: Text, repository: Text ensures BundleKey(org, repository) != Some(key) {
      BundleKeyOwn(org, repository);
    }
    forall org: Text, uuid: Text ensures AuditKey(org, uuid) != key {
      AuditKeyOwn(org, uuid);
    }
    forall hash: Digest ensures ClaimKey(hash) != key {
      ClaimKeyOwn(hash);
    }
    UnaddressedRefines(store, store', a, key);
  }

  /** Whatever a table holds to begin with, it stands for some three structures. */
  lemma {:induction false} EveryTableRepresents(store: Store)
    ensures exists a :: Represents(store, a)
    decreases |store|
  {
    hide BundleKey, ClaimKey, AuditKey, IsUuid;
    if store == map[] {
      assert Represents(store, Abstract(map[], map[], map[]));
    } else {
      hide Represents, Effected;
      var key :| key in store;
      var rest, record := store - {key}, store[key];
      EveryTableRepresents(rest);
      var a :| Represents(rest, a);
      assert store == rest[key := record];
      if org: Text, repository: Text :| org != RUN_TOKEN && BundleKey(org, repository) == Some(key) {
        EventRefines(rest, a, BundlePut(org, repository, record));
      } else if org: Text, uuid: Text :| IsUuid(uuid) && AuditKey(org, uuid) == key {
        EventRefines(rest, a, AuditPut(org, uuid, record));
      } else if hash: Digest :| ClaimKey(hash) == key {
        EventRefines(rest, a, Claimed(hash, record));
      } else {
        UnaddressedRefines(rest, store, a, key);
      }
    }
  }

  function WrittenAll(store: Store, events: seq<Event>): Store
    decreases |events|
  {
    if events == [] then store else WrittenAll(Written(store, events[0]), events[1..])
  }

  lemma WrittenOne(store: Store, e: Event)
    ensures WrittenAll(store, [e]) == Written(store, e)
  {}

  /** A step logs at most one event, and that event is all it does to the table. */
  predicate WritesWhatItLogs(store: Store, out: Outcome) {
    |out.events| <= 1 && out.store == WrittenAll(store, out.events) && forall e :: e in out.events ==> Proper(e)
  }

  lemma TableWrites(s: Setting, store: Store, r: Request, o: Oracle)
    requires ClaimsApart(s) && Fits(r) && OrganizationInv(s, r) && (WritesAudit(r) ==> IsUuid(o.uuid))
    requires r.pc.PutBundle? || r.pc.PutAudit? || r.pc.RewriteClaim? || r.pc.DeleteBundle? || r.pc.AuditDelete? || r.pc.ClaimToken?
    ensures WritesWhatItLogs(store, Step(s, store, r, o))
  {
    hide BundleKey, AuditKey, ClaimKey, BundleRecord, AuditRecord, OwnClaim, TokenInv, IsUuid;
    var out := Step(s, store, r, o);
    if out.events != [] {
      WrittenOne(store, out.events[0]);
    }
  }

  lemma NotifyWrites(s: Setting, store: Store, r: Request, o: Oracle)
    requires Fits(r) && Notifying(r.pc)
    ensures WritesWhatItLogs(store, Step(s, store, r, o))
  {}

  lemma LookWrites(s: Setting, store: Store, r: Request, o: Oracle)
    requires Fits(r) && (r.pc.Start? || r.pc.ReadClaim? || r.pc.ReadScope? || r.pc.Validate? || r.pc.ReadBack? || r.pc.Decide? || r.pc.ReadBundle?)
    ensures WritesWhatItLogs(store, Step(s, store, r, o))
  {}

  lemma StepWrites(s: Setting, store: Store, r: Request, o: Oracle)
    requires ClaimsApart(s) && ControlInv(s, store, r) && !Finished(r) && (WritesAudit(r) ==> IsUuid(o.uuid))
    ensures WritesWhatItLogs(store, Step(s, store, r, o))
  {
    hide Step, TokenInv, OrganizationInv, WritesWhatItLogs, IsUuid;
    if Notifying(r.pc) {
      NotifyWrites(s, store, r, o);
    } else if (BeforeClaim(r.pc) && !r.pc.ClaimToken?) || r.pc.ReadBack? || r.pc.Decide? || r.pc.ReadBundle? {
      LookWrites(s, store, r, o);
    } else {
      TableWrites(s, store, r, o);
    }
  }

  /** What a whole log does to the three structures. */
  function Replay(a: Abstract, log: seq<LogEntry>): Abstract {
    if log == [] then a else Effected(Replay(a, log[..|log| - 1]), log[|log| - 1].event)
  }

  lemma ActionRefines(s: Setting, w0: World, w: World, action: Action, a: Abstract)
    requires ClaimsApart(s) && Inv(s, w0, w) && Allowed(s, w, action) && Represents(w.store, Replay(a, w.log))
    ensures Represents(Apply(s, w, action).store, Replay(a, Apply(s, w, action).log))
  {
    hide Step, RequestInv, Represents, Performed, EventsOf, IsUuid, Written, Effected, Foreign;
    match action
    case Advance(i, o) =>
      var out := Step(s, w.store, w.requests[i], o);
      ControlOf(s, w.store, w.requests[i]);
      StepWrites(s, w.store, w.requests[i], o);
      if out.events != [] {
        var e := out.events[0];
        assert out.events == [e] && Stamp(i, out.events) == [LogEntry(i, e)] by {
          assert out.events[1..] == [];
        }
        WrittenOne(w.store, e);
        EventRefines(w.store, Replay(a, w.log), e);
        assert (w.log + [LogEntry(i, e)])[..|w.log|] == w.log;
      } else {
        assert w.log + [] == w.log;
      }
    case Crash(i) =>
    case Elsewhere(key, Some(value)) => ForeignRefines(w.store, w.store[key := value], Replay(a, w.log), key);
    case Elsewhere(key, None) => ForeignRefines(w.store, w.store - {key}, Replay(a, w.log), key);
  }

  lemma ControlOf(s: Setting, store: Store, r: Request)
    requires RequestInv(s, store, r)
    ensures ControlInv(s, store, r)
  {}

  lemma {:induction false} RunsRefine(s: Setting, w0: World, actions: seq<Action>, w: World, a: Abstract)
    requires ClaimsApart(s) && Inv(s, w0, w0) && w0.log == [] && Represents(w0.store, a) && Runs(s, w0, actions, w)
    ensures Represents(w.store, Replay(a, w.log))
    decreases |actions|
  {
    hide Represents, Inv, Apply, Allowed;
    if actions != [] {
      var n := |actions| - 1;
      var v :| Runs(s, w0, actions[..n], v) && Allowed(s, v, actions[n]) && w == Apply(s, v, actions[n]);
      RunsRefine(s, w0, actions[..n], v, a);
      RunsKeep(s, w0, w0, actions[..n], v);
      ActionRefines(s, w0, v, actions[n], a);
    }
  }

  /** At every reachable state the one flat table stands for the three structures the log makes. */
  lemma TableRefinesStructures(s: Setting, w0: World, w: World, a: Abstract)
    requires ClaimsApart(s) && Reachable(s, w0, w) && Represents(w0.store, a)
    ensures Represents(w.store, Replay(a, w.log))
  {
    hide Represents;
    InitialInv(s, w0);
    var actions :| Runs(s, w0, actions, w);
    RunsRefine(s, w0, actions, w, a);
  }

  /** The event is about the bundle of this organisation and repository. */
  predicate Touches(e: Event, org: Text, repository: Text) {
    (e.BundlePut? || e.BundleDeleted?) && e.organizationId == org && e.repository == repository
  }

  predicate UntouchedAfter(log: seq<LogEntry>, n: int, org: Text, repository: Text) {
    forall k :: 0 <= k < |log| && n < k ==> !Touches(log[k].event, org, repository)
  }

  /** The last event about the bundle put this record there, or there was none and it was there from the start. */
  predicate LastIngested(a: Abstract, log: seq<LogEntry>, org: Text, repository: Text, record: Record) {
    (exists n :: 0 <= n < |log| && log[n].event == BundlePut(org, repository, record) && UntouchedAfter(log, n, org, repository))
    || (UntouchedAfter(log, -1, org, repository) && (org, repository) in a.bundles && a.bundles[(org, repository)] == record)
  }

  /** An event about the bundle decides; any other leaves what the earlier ones decided. */
  lemma LastOf(a: Abstract, log: seq<LogEntry>, e: LogEntry, org: Text, repository: Text, record: Record)
    ensures LastIngested(a, log + [e], org, repository, record) <==>
      if Touches(e.event, org, repository) then e.event == BundlePut(org, repository, record)
      else LastIngested(a, log, org, repository, record)
  {
    var all, m := log + [e], |log|;
    if Touches(e.event, org, repository) {
      assert UntouchedAfter(all, m, org, repository);
      assert all[m] == e;
      assert forall n :: -1 <= n < m ==> !UntouchedAfter(all, n, org, repository);
    } else {
      forall n: int | n < m ensures UntouchedAfter(all, n, org, repository) <==> UntouchedAfter(log, n, org, repository) {
        assert forall k :: 0 <= k < m ==> all[k] == log[k];
      }
      assert forall n :: 0 <= n < m ==> all[n] == log[n];
    }
  }

  lemma {:induction false} ReplayedBundle(a: Abstract, log: seq<LogEntry>, org: Text, repository: Text, record: Record)
    ensures var b := Replay(a, log).bundles;
      ((org, repository) in b && b[(org, repository)] == record) <==> LastIngested(a, log, org, repository, record)
  {
    if log != [] {
      var m := |log| - 1;
      ReplayedBundle(a, log[..m], org, repository, record);
      assert log == log[..m] + [log[m]];
      LastOf(a, log[..m], log[m], org, repository, record);
      hide LastIngested;
    }
  }

  /** A summary answers with exactly the last bundle ingested for its pair and not deleted since. */
  lemma SummaryIsLastIngested(s: Setting, w0: World, w: World, a: Abstract, i: nat, o: Oracle, record: Record)
    requires ClaimsApart(s) && Reachable(s, w0, w) && Represents(w0.store, a)
    requires i < |w.requests| && w.requests[i].pc == ReadBundle && Allowed(s, w, Advance(i, o))
    ensures var r := w.requests[i]; var r' := Apply(s, w, Advance(i, o)).requests[i];
      if BundleKey(Organization(r), r.given.repository).None? then r'.pc == Stopped(ReadBundle)
      else r'.pc == Answered(Found(Some(record))) <==> LastIngested(a, w.log, Organization(r), r.given.repository, record)
  {
    hide BundleKey, LastIngested, Replay, AuditsAgree, ClaimsAgree, RequestInv, Performed, EventsOf;
    ReachableInv(s, w0, w);
    TableRefinesStructures(s, w0, w, a);
    var r := w.requests[i];
    ReplayedBundle(a, w.log, Organization(r), r.given.repository, record);
    KnownSummary(s, w.store, r);
  }

  lemma KnownSummary(s: Setting, store: Store, r: Request)
    requires ClaimsApart(s) && RequestInv(s, store, r) && r.pc == ReadBundle
    ensures Organization(r) != RUN_TOKEN
  {}
}
