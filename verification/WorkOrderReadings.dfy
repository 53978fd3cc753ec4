/** What a raw order is normalised to, told field by field from the fields it comes with. */
module WorkOrderReadings {
  import opened Sequences
  import opened Unicode
  import opened WorkOrders

  /** The first value that is truthy, the last if none is. */
  function FirstTruthy(values: seq<Value>): Value
    requires values != []
  {
    if |values| == 1 || Truthy(values[0]) then values[0] else FirstTruthy(values[1..])
  }

  predicate Missing(v: Value) { v.Undefined? || v.Null? }

  /** The first value that is neither undefined nor null, the last if none is. */
  function FirstGiven(values: seq<Value>): Value
    requires values != []
  {
    if |values| == 1 || !Missing(values[0]) then values[0] else FirstGiven(values[1..])
  }

  function Field(raw: Fields, key: Key): Value { if key in raw then raw[key] else Undefined }

  /** The graph an order comes with: its own, its projection, or an empty one. */
  function Graph(raw: Fields): Value {
    FirstTruthy([Field(raw, Key.Graph), Field(raw, Projection), Obj(map[])])
  }

  /** A field of the graph, or of the order if the graph has none. */
  function Supplied(raw: Fields, key: Key): Value {
    FirstGiven([Get(Graph(raw), key), Field(raw, key)])
  }

  /** The status in lower case, empty if there is none. */
  function StatusText(js: Runtime, raw: Fields): string {
    js.lower(js.text(FirstGiven([Field(raw, Status), Str("")])))
  }

  /** What each review assessment stands for. */
  const ASSESSED := map["REVISE" := "changes_requested", "NEEDS_HUMAN_REVIEW" := "awaiting_human", "CLEAR" := "not_required"]

  predicate Assesses(v: Value) { v.Str? && v.s in ASSESSED }

  /** The review decision: the graph's assessment, else a decision of the graph or of the order, else the order's assessment. */
  function ReviewMeant(js: Runtime, raw: Fields): string {
    var first, last := Get(Graph(raw), ReviewAssessment), Field(raw, ReviewAssessment);
    if Assesses(first) then ASSESSED[first.s]
    else if !Missing(Supplied(raw, ReviewDecision)) then NormalizeDecision(js, Supplied(raw, ReviewDecision), "awaiting_human")
    else if Assesses(last) then ASSESSED[last.s]
    else "awaiting_human"
  }

  function VerificationMeant(js: Runtime, raw: Fields): string {
    NormalizeDecision(js, Supplied(raw, VerificationVerdict), if Truthy(Field(raw, CurrentStage)) then "not_run" else "unknown")
  }

  function OutcomeMeant(js: Runtime, raw: Fields): string {
    NormalizeDecision(js, Supplied(raw, OutcomeStatus), if StatusText(js, raw) == "released" then "accepted" else "pending")
  }

  /** The release decision: a recognised one that is supplied; else released, awaiting authorisation after a pass and an approval, or not eligible. */
  function ReleaseMeant(js: Runtime, raw: Fields): string {
    if DecisionKey(js, Supplied(raw, ReleaseDecision)) in RECOGNISED then DecisionKey(js, Supplied(raw, ReleaseDecision))
    else if StatusText(js, raw) == "released" then "released"
    else if VerificationMeant(js, raw) == "pass" && ReviewMeant(js, raw) == "approved" then "awaiting_authorization"
    else "not_eligible"
  }

  lemma Shapes(a: Value, b: Value, c: Value)
    ensures FirstTruthy([a, b]) == Or(a, b) && FirstTruthy([a, b, c]) == Or(a, Or(b, c))
    ensures FirstGiven([a, b]) == Else(a, b) && FirstGiven([a, b, c]) == Else(a, Else(b, c))
  {
    assert [a, b][1..] == [b] && [a, b, c][1..] == [b, c] && [b, c][1..] == [c];
    assert FirstTruthy([b, c]) == Or(b, c) && FirstGiven([b, c]) == Else(b, c);
  }

  lemma FieldIs(raw: Fields, key: Key)
    ensures Field(raw, key) == Get(Obj(raw), key)
  {}

  lemma GraphIs(raw: Fields)
    ensures Graph(raw) == GraphOf(raw)
  {
    Shapes(Field(raw, Key.Graph), Field(raw, Projection), Obj(map[]));
    hide FirstTruthy, Or;
  }

  lemma StatusIs(js: Runtime, raw: Fields)
    ensures StatusText(js, raw) == StatusOf(js, raw)
  {
    Shapes(Field(raw, Status), Str(""), Undefined);
    hide FirstGiven, Else;
  }

  lemma SuppliedIs(raw: Fields, key: Key)
    ensures Supplied(raw, key) == Else(Get(GraphOf(raw), key), Get(Obj(raw), key))
  {
    GraphIs(raw);
    Shapes(Get(Graph(raw), key), Field(raw, key), Undefined);
    hide FirstGiven, Else, Graph, GraphOf;
  }

  lemma AssessmentMeans(js: Runtime, v: Value, fallback: string)
    requires Lawful(js)
    ensures Assesses(v) <==> !Missing(ReviewSource(v))
    ensures Assesses(v) ==> ReviewSource(v) == Str(ASSESSED[v.s]) && NormalizeDecision(js, ReviewSource(v), fallback) == ASSESSED[v.s]
  {
    if Assesses(v) {
      assert ReviewSource(v) == Str(ASSESSED[v.s]);
      assert ASSESSED[v.s] in {"changes_requested", "awaiting_human", "not_required"};
      RecognisedAllLower(ASSESSED[v.s]);
      hide Lawful;
      LowerStays(js, ASSESSED[v.s]);
    }
  }

  lemma NothingMeans(js: Runtime, v: Value, fallback: string)
    requires Lawful(js) && Missing(v)
    ensures NormalizeDecision(js, v, fallback) == fallback
  {
    EmptyAllLower();
    hide Lawful;
    LowerStays(js, "");
    EmptyUnrecognised();
    assert DecisionKey(js, v) == DecisionKey(js, Str(""));
  }

  lemma EmptyAllLower()
    ensures AllLower("")
  {}

  lemma EmptyUnrecognised()
    ensures "" !in RECOGNISED
  {}

  /** The review of a normalised order. */
  lemma ReviewIs(js: Runtime, raw: Fields)
    requires Lawful(js)
    ensures Decide(js, raw).review == ReviewMeant(js, raw)
  {
    var first, last := Get(Graph(raw), ReviewAssessment), Field(raw, ReviewAssessment);
    GraphIs(raw);
    FieldIs(raw, ReviewAssessment);
    SuppliedIs(raw, ReviewDecision);
    AssessmentMeans(js, first, "awaiting_human");
    AssessmentMeans(js, last, "awaiting_human");
    if !Assesses(last) {
      NothingMeans(js, ReviewSource(last), "awaiting_human");
    }
    hide Lawful, NormalizeDecision, ReviewSource, Assesses, Get, Graph, GraphOf, Field, Supplied, StatusOf, ASSESSED, DecideOne, ReleaseFallback;
  }

  /** The four decisions of a normalised order, from the fields of the raw one. */
  lemma DecisionsExactly(js: Runtime, raw: Fields, fb: Value)
    requires Lawful(js)
    ensures var order := NormalizeOrder(js, raw, fb);
      && Get(Obj(order), VerificationVerdict) == Str(VerificationMeant(js, raw))
      && Get(Obj(order), ReviewDecision) == Str(ReviewMeant(js, raw))
      && Get(Obj(order), ReleaseDecision) == Str(ReleaseMeant(js, raw))
      && Get(Obj(order), OutcomeStatus) == Str(OutcomeMeant(js, raw))
  {
    DecidedMeant(js, raw);
    DecisionsHeld(js, raw, fb);
    hide NormalizeOrder, Get, Decide, VerificationMeant, ReviewMeant, ReleaseMeant, OutcomeMeant, Lawful;
  }

  lemma DecisionsHeld(js: Runtime, raw: Fields, fb: Value)
    ensures var order, decided := NormalizeOrder(js, raw, fb), Decide(js, raw);
      && Get(Obj(order), VerificationVerdict) == Str(decided.verification) && Get(Obj(order), ReviewDecision) == Str(decided.review)
      && Get(Obj(order), ReleaseDecision) == Str(decided.release) && Get(Obj(order), OutcomeStatus) == Str(decided.outcome)
  {
    DerivedWritten(js, raw, fb);
    hide NormalizeOrder, Get, Decide, IdOf, TitleOf, UpdatedOf, FactoryOf, RepositoryOf, ActorFrom, UnknownsOf, RiskOf, StageKey;
  }

  lemma DecidedMeant(js: Runtime, raw: Fields)
    requires Lawful(js)
    ensures Decide(js, raw) == Decided(VerificationMeant(js, raw), ReviewMeant(js, raw), ReleaseMeant(js, raw), OutcomeMeant(js, raw))
  {
    ReviewIs(js, raw);
    SuppliedIs(raw, VerificationVerdict);
    SuppliedIs(raw, ReleaseDecision);
    SuppliedIs(raw, OutcomeStatus);
    StatusIs(js, raw);
    FieldIs(raw, CurrentStage);
    hide Lawful, Get, GraphOf, Field, Supplied, StatusOf, StatusText, ReviewMeant, DecideReview, DecisionKey, RECOGNISED, Truthy;
  }

  /**
   With default actions a release can be authorised exactly when a recognised decision is
   supplied that waits for authorisation or holds, or none is and the order is not released, its
   verification passed and its review approved - all read off the raw order.
   */
  lemma AuthorizeFromRaw(js: Runtime, raw: Fields, fb: Value)
    requires Lawful(js) && !Truthy(Field(raw, AvailableActions)) && !Truthy(Field(raw, Capabilities))
    ensures var key := DecisionKey(js, Supplied(raw, ReleaseDecision));
      Offers(NormalizeOrder(js, raw, fb), "authorize_release") <==>
        if key in RECOGNISED then key == "awaiting_authorization" || key == "hold"
        else StatusText(js, raw) != "released" && VerificationMeant(js, raw) == "pass" && ReviewMeant(js, raw) == "approved"
  {
    FieldIs(raw, AvailableActions);
    FieldIs(raw, Capabilities);
    AuthorizeExactly(js, raw, fb);
    DecidedMeant(js, raw);
    StatusIs(js, raw);
    SuppliedIs(raw, ReleaseDecision);
    assert SuppliedRelease(raw) == Supplied(raw, ReleaseDecision);
    hide NormalizeOrder, Lawful, Truthy, Field, Offers, DecisionKey, RECOGNISED, StatusOf, StatusText, Decide, VerificationMeant, ReviewMeant, Supplied, SuppliedRelease;
  }

  lemma RevisionMeans(js: Runtime, raw: Fields)
    requires Get(Graph(raw), ReviewAssessment) == Str("REVISE")
    ensures ReviewMeant(js, raw) == "changes_requested"
  {
    hide Graph;
  }

  /** Work that is sent back for revision cannot be released: the assessment in the graph outweighs whatever else the order says. */
  lemma RevisedIsNotAuthorized(js: Runtime, raw: Fields, fb: Value)
    requires Lawful(js) && !Truthy(Field(raw, AvailableActions)) && !Truthy(Field(raw, Capabilities))
    requires Get(Graph(raw), ReviewAssessment) == Str("REVISE") && DecisionKey(js, Supplied(raw, ReleaseDecision)) !in RECOGNISED
    ensures Get(Obj(NormalizeOrder(js, raw, fb)), ReviewDecision) == Str("changes_requested")
    ensures !Offers(NormalizeOrder(js, raw, fb), "authorize_release")
  {
    assert ReviewMeant(js, raw) == "changes_requested" by { RevisionMeans(js, raw); }
    hide NormalizeOrder, Lawful, Offers, ReviewMeant, DecisionKey, RECOGNISED, Graph, Supplied, Truthy, Field, VerificationMeant, ReleaseMeant, OutcomeMeant, StatusText;
    AuthorizeFromRaw(js, raw, fb);
    DecisionsExactly(js, raw, fb);
  }

  /** The words that name each stage. */
  const STAGE_NAMES := map[
    "intake" := "intake", "triage" := "intake",
    "spec" := "spec", "specification" := "spec", "planning" := "spec", "plan" := "spec",
    "build" := "build", "implementation" := "build", "building" := "build",
    "test" := "verify", "testing" := "verify", "verify" := "verify", "verification" := "verify", "review" := "verify",
    "reviewing" := "verify", "foreman" := "verify",
    "release" := "release", "approval" := "release", "ready" := "release", "merged" := "release", "released" := "release",
    "complete" := "release"]

  lemma StageNamed(js: Runtime, raw: Fields)
    ensures var named := js.lower(js.text(FirstGiven([Field(raw, Stage), Field(raw, CurrentStage), Str("intake")])));
      StageKey(js, raw) == if named in STAGE_NAMES then STAGE_NAMES[named] else "intake"
  {
    Shapes(Field(raw, Stage), Field(raw, CurrentStage), Str("intake"));
    FieldIs(raw, Stage);
    FieldIs(raw, CurrentStage);
    hide FirstGiven, FirstTruthy, Else, Get, Field;
  }

  /** The stage of a normalised order. */
  lemma StageExactly(js: Runtime, raw: Fields, fb: Value)
    ensures var named := js.lower(js.text(FirstGiven([Field(raw, Stage), Field(raw, CurrentStage), Str("intake")])));
      Get(Obj(NormalizeOrder(js, raw, fb)), Stage) == Str(if named in STAGE_NAMES then STAGE_NAMES[named] else "intake")
  {
    StageNamed(js, raw);
    DerivedWritten(js, raw, fb);
    HoldsKept(js, raw, NormalizeOrder(js, raw, fb), fb);
    hide NormalizeOrder, Get, StageKey, STAGE_NAMES, Holds, Derive, FirstGiven, Field;
  }

  /** What an actor is normalised to: an object keeps its own names, a text is a user or a system, anything else is the system. */
  lemma ActorExactly(raw: Value, fallback: string)
    ensures NormalizedActor(raw, fallback) ==
      if raw.Obj? || raw.Arr? then
        Obj(map[
          Id := FirstTruthy([Get(raw, Id), Get(raw, ActorId), Str("")]),
          Name := FirstTruthy([Get(raw, Name), Get(raw, Email), Str(fallback)]),
          Kind := FirstTruthy([Get(raw, Kind), Get(raw, ActorType), Str("system")])])
      else if raw.Str? && raw.s != "" then
        Obj(map[
          Id := raw, Name := if raw.s == "user_1" then Str("Alex Morgan") else raw,
          Kind := Str(if |raw.s| >= 4 && raw.s[..4] == "user" then "human" else "system")])
      else Obj(map[Id := Str("system"), Name := Str(fallback), Kind := Str("system")])
  {
    Shapes(Get(raw, Id), Get(raw, ActorId), Str(""));
    Shapes(Get(raw, Name), Get(raw, Email), Str(fallback));
    Shapes(Get(raw, Kind), Get(raw, ActorType), Str("system"));
    hide FirstTruthy, FirstGiven, Or, Get;
  }

  /** Where each other field of a normalised order comes from. */
  lemma FieldsExactly(js: Runtime, raw: Fields, fb: Value)
    ensures var order := Obj(NormalizeOrder(js, raw, fb));
      && Get(order, WorkOrderId) == IdMeant(raw)
      && Get(order, FactoryId) == FirstTruthy([Field(raw, FactoryId), Field(raw, FactoryIdSnake), fb])
      && Get(order, Title) == FirstTruthy([Field(raw, Title), Field(raw, IssueOrPullRequest), FirstTruthy([Field(raw, Intent), IdMeant(raw)])])
      && Get(order, Repository) == FirstTruthy([Field(raw, Repository), RepositoryNamed(Field(raw, RepositoryId))])
      && Get(order, Actor) == NormalizedActor(
        FirstTruthy([Field(raw, Actor), Field(raw, Owner), Field(raw, HeldBy)]), if Truthy(Field(raw, Owner)) then "Assigned operator" else "System")
      && Get(order, UpdatedAt) == FirstTruthy([Field(raw, UpdatedAt), Field(raw, UpdatedAtSnake), FirstTruthy([Field(raw, Updated), Str("Recently")])])
  {
    NamesMeant(raw, fb);
    DerivedWritten(js, raw, fb);
    HoldsKept(js, raw, NormalizeOrder(js, raw, fb), fb);
    hide NormalizeOrder, Get, Holds, Derive, FirstTruthy, Field, NormalizedActor, IdMeant, RepositoryNamed, Truthy, IdOf, TitleOf, UpdatedOf, FactoryOf, RepositoryOf, ActorFrom;
  }

  function IdMeant(raw: Fields): Value {
    FirstTruthy([Field(raw, WorkOrderId), Field(raw, Id), FirstTruthy([Field(raw, WorkOrderIdSnake), Str("unknown-work-order")])])
  }

  /** A repository of which only the identifier is known is named after it. */
  function RepositoryNamed(id: Value): Value {
    if Truthy(id) then Obj(map[Id := id, Name := id]) else Undefined
  }

  lemma NamesMeant(raw: Fields, fb: Value)
    ensures IdOf(raw) == IdMeant(raw)
    ensures FactoryOf(raw, fb) == FirstTruthy([Field(raw, FactoryId), Field(raw, FactoryIdSnake), fb])
    ensures TitleOf(raw) == FirstTruthy([Field(raw, Title), Field(raw, IssueOrPullRequest), FirstTruthy([Field(raw, Intent), IdMeant(raw)])])
    ensures RepositoryOf(raw) == FirstTruthy([Field(raw, Repository), RepositoryNamed(Field(raw, RepositoryId))])
    ensures ActorFrom(raw) == NormalizedActor(
      FirstTruthy([Field(raw, Actor), Field(raw, Owner), Field(raw, HeldBy)]), if Truthy(Field(raw, Owner)) then "Assigned operator" else "System")
    ensures UpdatedOf(raw) == FirstTruthy([Field(raw, UpdatedAt), Field(raw, UpdatedAtSnake), FirstTruthy([Field(raw, Updated), Str("Recently")])])
  {
    hide NormalizedActor, Truthy, Or, FirstTruthy, FirstGiven, Else;
    forall key ensures Field(raw, key) == Get(Obj(raw), key) {
      FieldIs(raw, key);
    }
    hide Get, Field;
    Shapes(Field(raw, WorkOrderIdSnake), Str("unknown-work-order"), Undefined);
    Shapes(Field(raw, WorkOrderId), Field(raw, Id), FirstTruthy([Field(raw, WorkOrderIdSnake), Str("unknown-work-order")]));
    Shapes(Field(raw, FactoryId), Field(raw, FactoryIdSnake), fb);
    Shapes(Field(raw, Intent), IdMeant(raw), Undefined);
    Shapes(Field(raw, Title), Field(raw, IssueOrPullRequest), FirstTruthy([Field(raw, Intent), IdMeant(raw)]));
    Shapes(Field(raw, Repository), RepositoryNamed(Field(raw, RepositoryId)), Undefined);
    Shapes(Field(raw, Actor), Field(raw, Owner), Field(raw, HeldBy));
    Shapes(Field(raw, Updated), Str("Recently"), Undefined);
    Shapes(Field(raw, UpdatedAt), Field(raw, UpdatedAtSnake), FirstTruthy([Field(raw, Updated), Str("Recently")]));
  }

  /** The risk, and the number of open unknowns. */
  lemma MeasuresExactly(js: Runtime, raw: Fields, fb: Value)
    ensures var order := Obj(NormalizeOrder(js, raw, fb));
      && Get(order, Risk) == Str(js.lower(js.text(
        FirstTruthy([Field(raw, Risk), Str(if StatusText(js, raw) in {"failed", "blocked"} then "high" else "unknown")]))))
      && Get(order, UnresolvedUnknownCount) == js.number(FirstGiven([
        Field(raw, UnresolvedUnknownCount), Field(raw, UnresolvedUnknownCountSnake),
        Num(if VerificationMeant(js, raw) == "unknown" then 1.0 else 0.0)]))
  {
    var unset := Str(if StatusText(js, raw) in {"failed", "blocked"} then "high" else "unknown");
    var counted := Num(if VerificationMeant(js, raw) == "unknown" then 1.0 else 0.0);
    VerificationIs(js, raw);
    StatusIs(js, raw);
    FieldIs(raw, Risk);
    FieldIs(raw, UnresolvedUnknownCount);
    FieldIs(raw, UnresolvedUnknownCountSnake);
    Shapes(Field(raw, Risk), unset, Undefined);
    Shapes(Field(raw, UnresolvedUnknownCount), Field(raw, UnresolvedUnknownCountSnake), counted);
    DerivedWritten(js, raw, fb);
    HoldsKept(js, raw, NormalizeOrder(js, raw, fb), fb);
    hide NormalizeOrder, Get, Holds, Derive, FirstTruthy, FirstGiven, Or, Else, Field, StatusText, StatusOf, VerificationMeant, Decide;
  }

  lemma VerificationIs(js: Runtime, raw: Fields)
    ensures Decide(js, raw).verification == VerificationMeant(js, raw)
  {
    SuppliedIs(raw, VerificationVerdict);
    FieldIs(raw, CurrentStage);
    hide Get, GraphOf, Field, Supplied, StatusOf, DecideReview, NormalizeDecision, Truthy;
  }

  /** What speaks for each of the groups that decisions can put an order in. */
  predicate Suggests(group: string, named: string, d: Decided) {
    match group
    case "blocked" => named in {"blocked", "needs_attention", "failed"} || d.verification in {"blocked", "fail"}
    case "released" => named in {"released", "completed", "done"} || d.release == "released"
    case "unknown" => named == "unknown" || d.verification == "unknown"
    case "ready" => named == "ready" || d.release in {"approved", "hold"}
    case "awaiting_review" => named in {"awaiting_review", "waiting_for_approval", "approval"} || d.review == "awaiting_human"
    case _ => false
  }

  /** In the order in which they count. */
  const PRECEDENCE := ["blocked", "released", "unknown", "ready", "awaiting_review"]

  /** A group is chosen because it is the first that anything speaks for; else the order is in progress, or blocked by its status. */
  lemma GroupExactly(named: string, d: Decided, status: string, k: nat)
    requires k <= |PRECEDENCE| && forall j :: 0 <= j < k ==> !Suggests(PRECEDENCE[j], named, d)
    requires k < |PRECEDENCE| ==> Suggests(PRECEDENCE[k], named, d)
    ensures ChooseGroup(named, d, status) ==
      if k < |PRECEDENCE| then PRECEDENCE[k]
      else if status in {"failed", "blocked"} && named !in {"in_progress", "implementation", "building"} then "blocked"
      else "in_progress"
  {
    assert k > 0 ==> !Suggests(PRECEDENCE[0], named, d);
    assert k > 1 ==> !Suggests(PRECEDENCE[1], named, d);
    assert k > 2 ==> !Suggests(PRECEDENCE[2], named, d);
    assert k > 3 ==> !Suggests(PRECEDENCE[3], named, d);
    assert k > 4 ==> !Suggests(PRECEDENCE[4], named, d);
    hide Suggests;
    SuggestsSpelled(named, d);
  }

  lemma SuggestsSpelled(named: string, d: Decided)
    ensures Suggests("blocked", named, d) <==> named in {"blocked", "needs_attention", "failed"} || d.verification in {"blocked", "fail"}
    ensures Suggests("released", named, d) <==> named in {"released", "completed", "done"} || d.release == "released"
    ensures Suggests("unknown", named, d) <==> named == "unknown" || d.verification == "unknown"
    ensures Suggests("ready", named, d) <==> named == "ready" || d.release == "approved" || d.release == "hold"
    ensures Suggests("awaiting_review", named, d) <==>
      named in {"awaiting_review", "waiting_for_approval", "approval"} || d.review == "awaiting_human"
  {}

  /** What the group of a raw order is named. */
  function GroupNamed(js: Runtime, raw: Fields): string {
    Collapse(js.lower(js.text(FirstGiven([Field(raw, Key.Group), Str("")]))), Dash, 1, '_')
  }

  /** The group and the actions of a normalised order. */
  lemma OrderGroup(js: Runtime, raw: Fields, fb: Value)
    requires Lawful(js)
    ensures var order := Obj(NormalizeOrder(js, raw, fb));
      var decided := Decided(VerificationMeant(js, raw), ReviewMeant(js, raw), ReleaseMeant(js, raw), OutcomeMeant(js, raw));
      var group := ChooseGroup(GroupNamed(js, raw), decided, StatusText(js, raw));
      && Get(order, Key.Group) == Str(group)
      && Get(order, AvailableActions) == FirstTruthy([
        Field(raw, AvailableActions), Field(raw, Capabilities), DefaultActions(Field(raw, HeldBy), group, decided.review, decided.release)])
  {
    GroupReads(js, raw, fb);
    DecidedMeant(js, raw);
    StatusIs(js, raw);
    FieldIs(raw, Key.Group);
    FieldIs(raw, AvailableActions);
    FieldIs(raw, Capabilities);
    FieldIs(raw, HeldBy);
    Shapes(Field(raw, Key.Group), Str(""), Undefined);
    var decided := Decide(js, raw);
    var group := ChooseGroup(GroupNamed(js, raw), decided, StatusText(js, raw));
    Shapes(Field(raw, AvailableActions), Field(raw, Capabilities), DefaultActions(Field(raw, HeldBy), group, decided.review, decided.release));
    assert js.lower(StatusText(js, raw)) == StatusText(js, raw);
    hide NormalizeOrder, Get, Field, FirstTruthy, FirstGiven, Or, Else, ChooseGroup, DefaultActions, Lawful, Decide, StatusOf, StatusText,
      VerificationMeant, ReviewMeant, ReleaseMeant, OutcomeMeant, Collapse;
  }

  /** The letter, in small. */
  predicate SmallForm(c: char, d: char) {
    if 'A' <= c <= 'Z' then d as int == c as int + 32 else d == c
  }

  /** The text is the key in other letters' case, with a dash or white space, or several, for an underscore. */
  predicate Variant(s: string, key: string) {
    if s == "" then key == ""
    else if Dash(s[0]) then
      key != "" && key[0] == '_' && (if |s| > 1 && Dash(s[1]) then Variant(s[1..], key) else Variant(s[1..], key[1..]))
    else key != "" && SmallForm(s[0], key[0]) && Variant(s[1..], key[1..])
  }

  /** Collapsing a run of two or more is collapsing it without its first. */
  lemma CollapseRun(s: string)
    requires |s| > 1 && Dash(s[0]) && Dash(s[1])
    ensures Collapse(s, Dash, 1, '_') == Collapse(s[1..], Dash, 1, '_')
  {
    var n := RunLength(s[1..], Dash);
    assert RunLength(s, Dash) == n + 1 && n >= 1;
    assert s[n + 1..] == s[1..][n..];
  }

  lemma LowerDash(c: char)
    ensures Dash(LowerAsciiChar(c)) <==> Dash(c)
  {}

  lemma {:induction false} VariantCollapses(s: string, key: string)
    requires Ascii(s)
    ensures Collapse(LowerAscii(s), Dash, 1, '_') == key <==> Variant(s, key)
  {
    if s != "" {
      var t := LowerAscii(s);
      assert t[1..] == LowerAscii(s[1..]);
      LowerDash(s[0]);
      if |s| > 1 {
        LowerDash(s[1]);
      }
      if Dash(s[0]) && |s| > 1 && Dash(s[1]) {
        CollapseRun(t);
        VariantCollapses(s[1..], key);
        StartsWithMark(s[1..]);
      } else {
        if key != "" {
          VariantCollapses(s[1..], key[1..]);
          assert key == [key[0]] + key[1..];
        }
        CollapseOne(t);
      }
    }
  }

  lemma StartsWithMark(s: string)
    requires s != "" && Dash(s[0])
    ensures Collapse(LowerAscii(s), Dash, 1, '_') != "" && Collapse(LowerAscii(s), Dash, 1, '_')[0] == '_'
  {
    LowerDash(s[0]);
  }

  lemma CollapseOne(t: string)
    requires t != "" && !(Dash(t[0]) && |t| > 1 && Dash(t[1]))
    ensures var rest := Collapse(t[1..], Dash, 1, '_');
      var all := Collapse(t, Dash, 1, '_');
      all == [if Dash(t[0]) then '_' else t[0]] + rest && all[1..] == rest
  {
    if Dash(t[0]) {
      assert RunLength(t[1..], Dash) == 0;
      assert RunLength(t, Dash) == 1;
    }
  }

  /** A decision is read off a text exactly as its label's key: whatever the case, the dashes and the white space. */
  lemma DecisionKeyExactly(js: Runtime, s: string, key: string)
    requires Lawful(js) && Ascii(s)
    ensures DecisionKey(js, Str(s)) == key <==> Variant(Trim(s, Whitespace), key)
  {
    var front, back := TrimParts(s, Whitespace);
    var bare := Trim(s, Whitespace);
    assert Ascii(bare) by {
      forall i | 0 <= i < |bare| ensures bare[i] as int < 0x80 {
        assert bare[i] == s[|front| + i];
      }
    }
    VariantCollapses(bare, key);
    assert js.text(Str(s)) == s && js.lower(bare) == LowerAscii(bare);
    hide Lawful, Trim, Variant, Collapse, LowerAscii, Ascii;
  }
}
