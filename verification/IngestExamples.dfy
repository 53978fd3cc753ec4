/** Concrete settings and requests: the runs that the theorems speak of begin somewhere. */
module IngestExamples {
  import opened Sequences
  import opened Unicode
  import opened Percent
  import opened Digests
  import opened Json
  import opened UntrustedSource
  import opened Receipts
  import opened MetadataKeys
  import opened Ingest
  import opened IngestSafety
  import opened IngestTheorems
  import opened IngestRuns
  import opened IngestRetries

  const HASH: Digest := seq(32, i => 0)

  const JS := Runtime((octets: seq<Byte>) => HASH, (v: Json) => "", (v: Json) => v, (t: Text) => t)

  /** The empty arrays of a bundle without any records. */
  const ARRAYS: seq<Entry> := seq(|ARRAY_FIELDS|, i requires 0 <= i < |ARRAY_FIELDS| => Entry(ARRAY_FIELDS[i], Arr([])))

  const SCHEMA: seq<Entry> := [Entry("schemaVersion", Num(1.0)), Entry("schemaId", Str(SCHEMA_ID))]

  const BUNDLE := Obj(SCHEMA + ARRAYS)

  /** What the route takes for a run token: `/^Bearer ([A-Za-z0-9_-]{20,200})$/` (line 125). */
  predicate IsBearer(t: Text) {
    20 <= |t| <= 200 && forall i :: 0 <= i < |t| ==> Digit(t[i]) || Letter(t[i]) || t[i] == '_' || t[i] == '-'
  }

  const BEARER: Text := "abcdefghijklmnopqrstuvwxyz"

  const SUBMISSION := Ingest(
    ByToken(BEARER, RunToken("run", "r", None, "2099-01-01T00:00:00.000Z")),
    Obj([Entry("repository", Str("r")), Entry("assurance", BUNDLE)]))

  const DELETION := Delete(RUN_TOKEN, "user", Obj([Entry("repository", Str(HexDigest(HASH)))]))

  /** Every entry of a bundle has a key that is on the list, and a harmless value. */
  lemma BundleEntries(i: nat)
    requires i < |SCHEMA + ARRAYS|
    ensures var e := (SCHEMA + ARRAYS)[i];
      if i == 0 then e == Entry("schemaVersion", Num(1.0))
      else if i == 1 then e == Entry("schemaId", Str(SCHEMA_ID))
      else i - 2 < |ARRAY_FIELDS| && e == Entry(ARRAY_FIELDS[i - 2], Arr([]))
  {}

  /** What is found under a key is the value of some entry with that key. */
  lemma {:induction false} LookupFinds(fields: seq<Entry>, key: Text)
    ensures (exists i :: 0 <= i < |fields| && fields[i].key == key) ==> Lookup(fields, key).Some?
    ensures Lookup(fields, key).Some? ==> exists i :: 0 <= i < |fields| && fields[i] == Entry(key, Lookup(fields, key).value)
  {
    if fields != [] {
      LookupFinds(fields[1..], key);
      if Lookup(fields, key).Some? {
        if fields[0].key == key {
          assert fields[0] == Entry(key, Lookup(fields, key).value);
        } else {
          var i :| 0 <= i < |fields[1..]| && fields[1..][i] == Entry(key, Lookup(fields, key).value);
          assert fields[i + 1] == Entry(key, Lookup(fields, key).value);
        }
      }
      if i :| 0 <= i < |fields| && fields[i].key == key {
        assert i > 0 ==> fields[1..][i - 1].key == key;
      }
    }
  }

  lemma SchemaKeysApart(i: nat)
    requires i < |ARRAY_FIELDS|
    ensures ARRAY_FIELDS[i] != "schemaVersion" && ARRAY_FIELDS[i] != "schemaId"
  {}

  lemma ArraysThere(i: nat)
    requires i < |ARRAY_FIELDS|
    ensures Field(BUNDLE, ARRAY_FIELDS[i]) == Some(Arr([]))
  {
    hide ARRAY_FIELDS;
    var fields, key := SCHEMA + ARRAYS, ARRAY_FIELDS[i];
    LookupFinds(fields, key);
    BundleEntries(i + 2);
    assert fields[i + 2].key == key;
    var k :| 0 <= k < |fields| && fields[k] == Entry(key, Lookup(fields, key).value);
    BundleEntries(k);
    SchemaKeysApart(i);
  }

  /** A key that begins with two small letters with which no forbidden word begins. */
  predicate Harmless(key: Text) {
    |key| >= 2 && 'a' <= key[0] <= 'z' && 'a' <= key[1] <= 'z' 
    && forall i :: 0 <= i < |FORBIDDEN| ==> |FORBIDDEN[i]| >= 2 && !(FORBIDDEN[i][0] == key[0] && FORBIDDEN[i][1] == key[1])
  }

  lemma HarmlessKey(key: Text)
    requires Harmless(key)
    ensures !SpellsForbidden(key)
  {
    ForbiddenExactly(key);
    var rest := NormalizedKey(key[2..]);
    assert NormalizedKey(key[1..]) == [key[1]] + NormalizedKey(key[1..][1..]) && key[1..][1..] == key[2..];
    assert NormalizedKey(key) == [key[0], key[1]] + rest;
  }

  lemma FieldsHarmless(i: nat)
    requires i < |ARRAY_FIELDS|
    ensures Harmless(ARRAY_FIELDS[i]) && Harmless("schemaVersion") && Harmless("schemaId")
  {}

  lemma BundleSchema()
    ensures SupportedSchema(BUNDLE)
  {
    hide ARRAYS;
    var fields := SCHEMA + ARRAYS;
    assert fields[0] == SCHEMA[0] && fields[1..][0] == SCHEMA[1];
    assert Lookup(fields, "schemaVersion") == Some(Num(1.0));
    assert fields[0].key[6] != "schemaId"[6];
    assert Lookup(fields, "schemaId") == Lookup(fields[1..], "schemaId") == Some(Str(SCHEMA_ID));
  }

  lemma KeyHarmless(i: nat)
    requires i < |SCHEMA + ARRAYS|
    ensures Harmless((SCHEMA + ARRAYS)[i].key)
  {
    BundleEntries(i);
    FieldsHarmless(if i < 2 then 0 else i - 2);
    hide Harmless, ARRAY_FIELDS, ARRAYS;
  }

  lemma ValueHarmless(i: nat)
    requires i < |SCHEMA + ARRAYS|
    ensures var v := (SCHEMA + ARRAYS)[i].value;
      Height(v) <= 1 && !HasForbiddenKey(v)
  {
    BundleEntries(i);
    hide ARRAY_FIELDS, ARRAYS;
  }

  lemma BundleScanned()
    ensures Height(BUNDLE) <= MAX_DEPTH && !HasForbiddenKey(BUNDLE)
  {
    var fields := SCHEMA + ARRAYS;
    hide ARRAYS, SCHEMA, SpellsForbidden, Harmless;
    forall i | 0 <= i < |fields| ensures Height(fields[i].value) <= 1 && !SpellsForbidden(fields[i].key) && !HasForbiddenKey(fields[i].value) {
      KeyHarmless(i);
      ValueHarmless(i);
      HarmlessKey(fields[i].key);
    }
    FieldsHeightIsMax(fields);
  }

  lemma BundleAcceptable()
    ensures AcceptableBundle(JS, BUNDLE)
  {
    BundleSchema();
    BundleScanned();
    forall k | k in ARRAY_FIELDS ensures ArrayField(BUNDLE, k) {
      var i :| 0 <= i < |ARRAY_FIELDS| && ARRAY_FIELDS[i] == k;
      ArraysThere(i);
    }
    ArraysListed(BUNDLE);
    hide HoldsArray, ARRAY_FIELDS, ArrayField, Height, HasForbiddenKey;
    assert BUNDLE.Obj? && JS.stringify(BUNDLE) == "";
  }

  /** A text without white space or control characters names itself as a repository. */
  lemma NamesItself(t: Text)
    requires 1 <= |t| <= 300 && forall i :: 0 <= i < |t| ==> 0x21 <= Code(t[i]) <= 0x7E
    ensures AssuranceRepository(Some(Str(t))) == Some(t)
  {
    assert forall i :: 0 <= i < |t| ==> !Whitespace(t[i]);
  }

  lemma SubmissionRead(s: Setting)
    requires s.js == JS
    ensures Repository(SUBMISSION) == "r" && SubmittedBundle(SUBMISSION.body) == Some(BUNDLE)
  {
    assert BUNDLE.Obj?;
    hide BUNDLE, AssuranceRepository;
    NamesItself("r");
    var fields := SUBMISSION.body.fields;
    assert fields[1..][0] == Entry("assurance", BUNDLE);
    assert Lookup(fields, "repository") == Some(Str("r"));
    assert Lookup(fields, "assurance") == Some(BUNDLE);
  }

  lemma NoReceipts()
    ensures ReceiptsOf(Some(BUNDLE)) == []
  {
    ArraysThere(0);
    assert ARRAY_FIELDS[0] == "receipts";
  }

  /** The submission would pass every check. */
  lemma SubmissionAdmissible(s: Setting)
    requires s.js == JS
    ensures var r := Arriving(s, SUBMISSION);
      Admissible(r) && r.given.hash == HASH && r.given.repository == "r"
  {
    SubmissionRead(s);
    NoReceipts();
    BundleAcceptable();
    BundleAcceptedExactly(JS, Some(BUNDLE));
    hide BUNDLE, AcceptableBundle, ValidateHostedAssuranceBundle, Repository, ReceiptsOf, PayloadDigest, SubmittedBundle;
    BoundExactly(JS, [], "r", None);
  }

  /** Its bundle has a key. */
  lemma SubmissionKeyed()
    ensures BundleKey("oidc", "r").Some?
  {
    hide Encode;
    UnreservedUnchanged("oidc");
    UnreservedUnchanged("r");
  }

  lemma DeletionRead()
    ensures Repository(DELETION) == HexDigest(HASH)
  {
    HexUnits(HASH);
    hide HexDigest, AssuranceRepository;
    NamesItself(HexDigest(HASH));
    assert Lookup(DELETION.body.fields, "repository") == Some(Str(HexDigest(HASH)));
  }

  lemma {:induction false} HexUnits(octets: seq<Byte>)
    ensures forall i :: 0 <= i < |HexDigest(octets)| ==> 0x21 <= Code(HexDigest(octets)[i]) <= 0x7E
  {
    if octets != [] {
      HexUnits(octets[1..]);
    }
  }

  function Arrivals(s: Setting, routes: seq<Route>): World {
    World(map[], seq(|routes|, i requires 0 <= i < |routes| => Arriving(s, routes[i])), [], {})
  }

  lemma ArrivalsInitial(s: Setting, routes: seq<Route>)
    requires forall i :: 0 <= i < |routes| ==> KnownOrganization(s, routes[i])
    ensures var w := Arrivals(s, routes);
      && Initial(s, w) && w.store == map[] && w.uuids == {} && |w.requests| == |routes|
      && forall i :: 0 <= i < |routes| ==> w.requests[i] == Arriving(s, routes[i])
  {
    hide KnownOrganization, Read;
  }

  const WITH_RUN_TOKEN := Setting(JS, {RUN_TOKEN}, Reports, false)

  const REOPENED := Arrivals(WITH_RUN_TOKEN, [SUBMISSION, SUBMISSION, DELETION])

  lemma BearerAccepted()
    ensures IsBearer(BEARER)
  {}

  /** It carries a run token in the shape the route asks for. */
  lemma SubmissionBears(s: Setting)
    ensures IsBearer(BEARER) && Bears(Arriving(s, SUBMISSION), BEARER)
  {
    hide Read, BEARER, IsBearer;
    BearerAccepted();
  }

  /** An admissible request is on its way to a claim as soon as it arrives. */
  lemma ReadyOnArrival(s: Setting, route: Route)
    requires Admissible(Arriving(s, route))
    ensures OnTheWay(Arriving(s, route), 0)
  {
    hide Admissible, Read;
  }

  lemma SubmissionReady(s: Setting)
    requires s.js == JS
    ensures var r := Arriving(s, SUBMISSION);
      OnTheWay(r, 0) && r.given.hash == HASH && r.given.repository == "r" && Bears(r, BEARER)
  {
    hide OnTheWay, Bears, IsBearer, BEARER, Admissible, Arriving, SUBMISSION, HASH, JS;
    SubmissionAdmissible(s);
    SubmissionBears(s);
    ReadyOnArrival(s, SUBMISSION);
  }

  lemma DeletionReady(s: Setting)
    ensures Deleting(Arriving(s, DELETION), HASH, 0)
  {
    DeletionRead();
    hide Repository, HexDigest, HASH;
  }

  lemma RoutesKnown()
    ensures KnownOrganization(WITH_RUN_TOKEN, SUBMISSION) && KnownOrganization(WITH_RUN_TOKEN, DELETION)
    ensures WITH_RUN_TOKEN.js == JS && WITH_RUN_TOKEN.capability.Reports?
    ensures KnownOrganization(ORDINARY, SUBMISSION) && ORDINARY.js == JS && ORDINARY.capability.Reports? && ClaimsApart(ORDINARY)
  {}

  lemma TwoAndDeletion(w: World, r: Request, d: Request, hash: Digest)
    requires w.requests == [r, r, d] && w.store == map[]
    requires OnTheWay(r, 0) && r.given.hash == hash && BundleKey("oidc", r.given.repository).Some? && Deleting(d, hash, 0)
    ensures Reopening(w, hash)
  {
    hide OnTheWay, Deleting, BundleKey, ClaimKey;
  }

  /** Where an organisation is called `run-token`, arrivals that reopen a claim are an initial state like any other. */
  lemma ReopeningArises()
    ensures Initial(WITH_RUN_TOKEN, REOPENED) && Reopening(REOPENED, HASH) && |REOPENED.requests| == 3
    ensures Bears(REOPENED.requests[0], BEARER) && Bears(REOPENED.requests[1], BEARER)
  {
    hide BundleKey, ClaimKey, OnTheWay, Deleting, Arriving, Bears, KnownOrganization, Initial, Arrivals, Reopening;
    hide HASH, JS, BEARER, IsBearer, SUBMISSION, DELETION, WITH_RUN_TOKEN, ORDINARY;
    RoutesKnown();
    SubmissionReady(WITH_RUN_TOKEN);
    SubmissionKeyed();
    DeletionReady(WITH_RUN_TOKEN);
    var routes := [SUBMISSION, SUBMISSION, DELETION];
    ArrivalsInitial(WITH_RUN_TOKEN, routes);
    var r, d := Arriving(WITH_RUN_TOKEN, SUBMISSION), Arriving(WITH_RUN_TOKEN, DELETION);
    assert REOPENED.requests == [r, r, d];
    TwoAndDeletion(REOPENED, r, d, HASH);
  }

  lemma BearsByRoute(q: Request, r: Request, bearer: Text)
    requires q.route == r.route && Bears(r, bearer)
    ensures Bears(q, bearer)
  {}

  /** So there, at a reachable state, two requests with one token are in the effects. */
  lemma TwoEnterWhereReopened() returns (w: World)
    ensures Reachable(WITH_RUN_TOKEN, REOPENED, w) && |w.requests| == 3 && IsBearer(BEARER)
    ensures Bears(w.requests[0], BEARER) && InEffects(w.requests[0].pc)
    ensures Bears(w.requests[1], BEARER) && InEffects(w.requests[1].pc)
  {
    ReopeningArises();
    SubmissionBears(WITH_RUN_TOKEN);
    hide BEARER, IsBearer, SUBMISSION, Reopening, Initial, Runs, InEffects, REOPENED, Bears;
    var actions;
    actions, w := RunTokenOrganizationReopensClaims(WITH_RUN_TOKEN, REOPENED, HASH);
    BearsByRoute(w.requests[0], REOPENED.requests[0], BEARER);
    BearsByRoute(w.requests[1], REOPENED.requests[1], BEARER);
  }

  const ORDINARY := Setting(JS, {}, Reports, false)

  const RETRIED := Arrivals(ORDINARY, [SUBMISSION, SUBMISSION])

  const UUID: Text := "00000000-0000-0000-0000-000000000000"

  const ORACLE := Oracle(true, None, None, false, UUID)

  lemma WelcomeOnArrival(s: Setting, route: Route, o: Oracle)
    requires Admissible(Arriving(s, route)) && o.admitted && o.order == None && o.installation == None
    ensures Welcome(s, Arriving(s, route), o) && RetryOrganization(o) == "oidc"
  {
    hide Admissible, Read;
  }

  lemma SubmissionWelcome()
    ensures Welcome(ORDINARY, Arriving(ORDINARY, SUBMISSION), ORACLE) && RetryOrganization(ORACLE) == "oidc"
    ensures Arriving(ORDINARY, SUBMISSION).route == SUBMISSION
  {
    hide Welcome, RetryOrganization, Admissible, Read, SUBMISSION, HASH, UUID;
    SubmissionAdmissible(ORDINARY);
    WelcomeOnArrival(ORDINARY, SUBMISSION, ORACLE);
  }

  lemma RetryArises()
    ensures ClaimsApart(ORDINARY) && Initial(ORDINARY, RETRIED) && |RETRIED.requests| == 2 && RETRIED.store == map[] && RETRIED.uuids == {}
    ensures Bears(RETRIED.requests[0], BEARER) && OnTheWay(RETRIED.requests[0], 0)
    ensures Retries(ORDINARY, RETRIED.requests[0], RETRIED.requests[1], BEARER, ORACLE)
    ensures RetryOrganization(ORACLE) == "oidc"
  {
    hide BundleKey, OnTheWay, Arriving, Bears, KnownOrganization, Welcome, RetryOrganization, Initial, Arrivals;
    hide HASH, JS, BEARER, IsBearer, SUBMISSION, WITH_RUN_TOKEN, ORDINARY, ORACLE;
    RoutesKnown();
    SubmissionReady(ORDINARY);
    SubmissionKeyed();
    SubmissionWelcome();
    var routes := [SUBMISSION, SUBMISSION];
    ArrivalsInitial(ORDINARY, routes);
    var r := Arriving(ORDINARY, SUBMISSION);
    assert RETRIED.requests == [r, r];
  }

  /** A submission is lost: claimed, stopped, retried exactly, answered as a replay, and never stored. */
  lemma SubmissionLost() returns (w: World)
    ensures Reachable(ORDINARY, RETRIED, w) && |w.requests| == 2 && IsBearer(BEARER)
    ensures w.requests[0].pc == Stopped(Decide) && w.requests[1].pc == Answered(Replayed("oidc"))
    ensures |TokenEvents(w.requests, w.log, BEARER)| == 1 && TokenEvents(w.requests, w.log, BEARER)[0].Claimed?
  {
    RetryArises();
    SubmissionBears(ORDINARY);
    hide BEARER, IsBearer, SUBMISSION, Initial, Runs, RETRIED, Retries, OnTheWay, Bears, TokenEvents, ClaimKey, RetryOrganization;
    var actions;
    actions, w := LostBetweenClaimAndBundle(ORDINARY, RETRIED, BEARER, ORACLE, ORACLE);
  }
}
