/**
 The work-order normaliser of the control-plane UI, over values as JavaScript has them. A field
 is named by a `Key`; the names the code mentions have constructors of their own.
 */
module WorkOrders {
  import opened Sequences
  import opened Unicode

  datatype Key =
    | Id | WorkOrderId | WorkOrderIdSnake | FactoryId | FactoryIdSnake | Title | IssueOrPullRequest | Intent
    | Repository | RepositoryId | Stage | CurrentStage | Actor | Owner | HeldBy | Risk | Decisions
    | Verification | Review | Release | Outcome
    | VerificationVerdict | ReviewDecision | ReviewAssessment | ReleaseDecision | OutcomeStatus
    | UnresolvedUnknownCount | UnresolvedUnknownCountSnake | UpdatedAt | UpdatedAtSnake | Updated
    | Group | AvailableActions | Capabilities | Status | Graph | Projection
    | ActorId | ActorType | Name | Email | Kind | Label | Allowed | Reason
    | Named(name: string)

  datatype Value =
    | Undefined | Null | Bool(b: bool) | Num(n: real) | NaN | Str(s: string) | Arr(items: seq<Value>) | Obj(fields: Fields)

  type Fields = map<Key, Value>

  /** `String(v)`, `Number(v)` and `toLowerCase`. */
  datatype Runtime = Runtime(text: Value -> string, number: Value -> Value, lower: string -> string)

  /** A character that lower-casing leaves alone wherever it stands. */
  predicate Lower(c: char) { 'a' <= c <= 'z' || c == '_' }

  predicate AllLower(s: string) { forall i :: 0 <= i < |s| ==> Lower(s[i]) }

  predicate Ascii(s: string) { forall i :: 0 <= i < |s| ==> s[i] as int < 0x80 }

  function LowerAsciiChar(c: char): char { if 'A' <= c <= 'Z' then (c as int + 32) as char else c }

  function LowerAscii(s: string): (t: string)
    ensures |t| == |s| && forall i :: 0 <= i < |s| ==> t[i] == LowerAsciiChar(s[i])
  {
    seq(|s|, i requires 0 <= i < |s| => LowerAsciiChar(s[i]))
  }

  /** What is taken for granted of the conversions. */
  ghost predicate Lawful(js: Runtime) {
    && (forall s :: js.text(Str(s)) == s)
    && (forall v :: js.number(v).Num? || js.number(v).NaN?)
    && (forall v: Value :: v.Num? || v.NaN? ==> js.number(v) == v)
    && (forall s :: js.lower(js.lower(s)) == js.lower(s))
    && (forall s :: js.lower(s) == "" <==> s == "")
    && (forall s :: AllLower(s) ==> js.lower(s) == s)
    && (forall s :: Ascii(s) ==> js.lower(s) == LowerAscii(s))
  }

  /** The laws hold of some conversions, among them one that turns an empty list into the empty string. */
  lemma LawfulRuntime()
    ensures exists js :: Lawful(js) && js.text(Arr([])) == ""
  {
    var js := Runtime(
      (v: Value) => if v.Str? then v.s else "",
      (v: Value) => if v.Num? then v else NaN,
      (s: string) => LowerAscii(s));
    forall s: string ensures LowerAscii(LowerAscii(s)) == LowerAscii(s) && (AllLower(s) ==> LowerAscii(s) == s) {}
    assert Lawful(js) && js.text(Arr([])) == "";
  }

  function Get(v: Value, key: Key): Value {
    if v.Obj? && key in v.fields then v.fields[key] else Undefined
  }

  predicate Truthy(v: Value) {
    match v
    case Undefined => false case Null => false case NaN => false
    case Bool(b) => b
    case Num(n) => n != 0.0
    case Str(s) => s != ""
    case _ => true
  }

  /** `a || b`. */
  function Or(a: Value, b: Value): Value { if Truthy(a) then a else b }

  /** `a ?? b`. */
  function Else(a: Value, b: Value): Value { if a.Undefined? || a.Null? then b else a }

  predicate Dash(c: char) { c == '-' || Whitespace(c) }

  /** The own keys of `DECISION_LABELS`. */
  const LABELLED := {
    "pass", "blocked", "fail", "unknown", "not_run", "not_required", "awaiting_human", "approved", "rejected",
    "changes_requested", "not_eligible", "awaiting_authorization", "hold", "released", "rolled_back", "cancelled",
    "pending", "accepted", "reworked", "failed"}

  /** What `DECISION_LABELS[key]` finds: its own keys, and what every object inherits. */
  const RECOGNISED := LABELLED + INHERITED

  /** The lower-case names under which every object inherits something. */
  const INHERITED := {"constructor", "__proto__"}

  function DecisionKey(js: Runtime, value: Value): string {
    Collapse(js.lower(Trim(js.text(Else(value, Str(""))), Whitespace)), Dash, 1, '_')
  }

  function NormalizeDecision(js: Runtime, value: Value, fallback: string): string {
    if DecisionKey(js, value) in RECOGNISED then DecisionKey(js, value) else fallback
  }

  function StageKey(js: Runtime, order: Fields): (stage: string)
    ensures stage in STAGES
  {
    var raw := js.lower(js.text(Else(Get(Obj(order), Stage), Else(Get(Obj(order), CurrentStage), Str("intake")))));
    if raw in {"intake", "triage"} then "intake"
    else if raw in {"spec", "specification", "planning", "plan"} then "spec"
    else if raw in {"build", "implementation", "building"} then "build"
    else if raw in {"test", "testing", "verify", "verification", "review", "reviewing", "foreman"} then "verify"
    else if raw in {"release", "approval", "ready", "merged", "released", "complete"} then "release"
    else "intake"
  }

  const STAGES := ["intake", "spec", "build", "verify", "release"]
  const GROUPS := ["blocked", "awaiting_review", "in_progress", "ready", "released", "unknown"]

  function ActorOf(id: Value, name: Value, kind: Value): Value {
    Obj(map[Id := id, Name := name, Kind := kind])
  }

  predicate StartsWithUser(s: string) { |s| >= 4 && s[..4] == "user" }

  /** `normalizedActor`. */
  function NormalizedActor(raw: Value, fallback: string): Value {
    if raw.Obj? || raw.Arr? then
      ActorOf(
        Or(Get(raw, Id), Or(Get(raw, ActorId), Str(""))),
        Or(Get(raw, Name), Or(Get(raw, Email), Str(fallback))),
        Or(Get(raw, Kind), Or(Get(raw, ActorType), Str("system"))))
    else if raw.Str? && raw.s != "" then
      ActorOf(raw, if raw.s == "user_1" then Str("Alex Morgan") else raw, Str(if StartsWithUser(raw.s) then "human" else "system"))
    else ActorOf(Str("system"), Str(fallback), Str("system"))
  }

  datatype Decided = Decided(verification: string, review: string, release: string, outcome: string)

  /** What `normalizeGroup` makes of a group's key, the decisions and a lower-case status. */
  function ChooseGroup(group: string, d: Decided, status: string): (chosen: string)
    ensures chosen in GROUPS
  {
    if group in {"blocked", "needs_attention", "failed"} || d.verification in {"blocked", "fail"} then "blocked"
    else if group in {"released", "completed", "done"} || d.release == "released" then "released"
    else if group == "unknown" || d.verification == "unknown" then "unknown"
    else if group == "ready" || d.release == "approved" || d.release == "hold" then "ready"
    else if group in {"awaiting_review", "waiting_for_approval", "approval"} || d.review == "awaiting_human" then "awaiting_review"
    else if group in {"in_progress", "implementation", "building"} then "in_progress"
    else if status in {"failed", "blocked"} then "blocked"
    else "in_progress"
  }

  /** `normalizeGroup`. */
  function NormalizeGroup(js: Runtime, raw: Value, d: Decided, status: string): (group: string)
    ensures group in GROUPS
  {
    ChooseGroup(Collapse(js.lower(js.text(Else(raw, Str("")))), Dash, 1, '_'), d, js.lower(status))
  }

  function Action(id: string, caption: string, allowed: bool, reason: string): Value {
    Obj(map[Id := Str(id), Label := Str(caption), Allowed := Bool(allowed), Reason := if allowed then Undefined else Str(reason)])
  }

  predicate Authorizable(release: string) { release == "awaiting_authorization" || release == "hold" }

  /** `defaultActions`; the first two have no reason. */
  function DefaultActions(heldBy: Value, group: string, review: string, release: string): Value {
    var held := Truthy(heldBy);
    Arr([
      Obj(map[Id := Str(if held then "return" else "take"), Label := Str(if held then "Return cell" else "Take cell"), Allowed := Bool(true)]),
      Obj(map[Id := Str("steer"), Label := Str("Add operator note"), Allowed := Bool(true)]),
      Action("retry", "Retry run", group == "blocked", "Retry is available after a failed or blocked run."),
      Action("review", "Record review", review == "awaiting_human", "Review is not currently required."),
      Action("authorize_release", "Authorize release", Authorizable(release), "Deterministic verification and review must be resolved first.")
    ])
  }

  function ReviewSource(assessment: Value): Value {
    if assessment == Str("REVISE") then Str("changes_requested")
    else if assessment == Str("NEEDS_HUMAN_REVIEW") then Str("awaiting_human")
    else if assessment == Str("CLEAR") then Str("not_required")
    else Undefined
  }

  /** The fields an order gets, before its group and its actions. */
  datatype Derived = Derived(
    id: Value, factoryId: Value, title: Value, repository: Value, stage: string, actor: Value, risk: string,
    decided: Decided, unknowns: Value, updatedAt: Value)

  function StatusOf(js: Runtime, raw: Fields): string {
    js.lower(js.text(Else(Get(Obj(raw), Status), Str(""))))
  }

  function GraphOf(raw: Fields): Value {
    Or(Get(Obj(raw), Graph), Or(Get(Obj(raw), Projection), Obj(map[])))
  }

  /** A decision from the graph, else from the order itself. */
  function DecideOne(js: Runtime, graph: Value, raw: Fields, key: Key, fallback: string): string {
    NormalizeDecision(js, Else(Get(graph, key), Get(Obj(raw), key)), fallback)
  }

  function DecideReview(js: Runtime, graph: Value, raw: Fields): string {
    var source := Else(ReviewSource(Get(graph, ReviewAssessment)),
      Else(Get(graph, ReviewDecision), Else(Get(Obj(raw), ReviewDecision), ReviewSource(Get(Obj(raw), ReviewAssessment)))));
    NormalizeDecision(js, source, "awaiting_human")
  }

  /** The release decision when none is supplied. */
  function ReleaseFallback(status: string, verification: string, review: string): string {
    if status == "released" then "released"
    else if verification == "pass" && review == "approved" then "awaiting_authorization" else "not_eligible"
  }

  function Decide(js: Runtime, raw: Fields): Decided {
    var graph, status := GraphOf(raw), StatusOf(js, raw);
    var verification := DecideOne(js, graph, raw, VerificationVerdict, if Truthy(Get(Obj(raw), CurrentStage)) then "not_run" else "unknown");
    var review := DecideReview(js, graph, raw);
    Decided(
      verification, review,
      DecideOne(js, graph, raw, ReleaseDecision, ReleaseFallback(status, verification, review)),
      DecideOne(js, graph, raw, OutcomeStatus, if status == "released" then "accepted" else "pending"))
  }

  /** What the risk is read from. */
  function RiskSource(js: Runtime, raw: Fields): Value {
    Or(Get(Obj(raw), Risk), Str(if StatusOf(js, raw) in {"failed", "blocked"} then "high" else "unknown"))
  }

  function IdOf(raw: Fields): Value {
    var r := Obj(raw);
    Or(Get(r, WorkOrderId), Or(Get(r, Id), Or(Get(r, WorkOrderIdSnake), Str("unknown-work-order"))))
  }

  function FactoryOf(raw: Fields, fallbackFactoryId: Value): Value {
    Or(Get(Obj(raw), FactoryId), Or(Get(Obj(raw), FactoryIdSnake), fallbackFactoryId))
  }

  function TitleOf(raw: Fields): Value {
    var r := Obj(raw);
    Or(Get(r, Title), Or(Get(r, IssueOrPullRequest), Or(Get(r, Intent), IdOf(raw))))
  }

  function RepositoryOf(raw: Fields): Value {
    var repositoryId := Get(Obj(raw), RepositoryId);
    Or(Get(Obj(raw), Repository), if Truthy(repositoryId) then Obj(map[Id := repositoryId, Name := repositoryId]) else Undefined)
  }

  function ActorFrom(raw: Fields): Value {
    var r := Obj(raw);
    NormalizedActor(Or(Get(r, Actor), Or(Get(r, Owner), Get(r, HeldBy))), if Truthy(Get(r, Owner)) then "Assigned operator" else "System")
  }

  function RiskOf(js: Runtime, raw: Fields): string {
    js.lower(js.text(RiskSource(js, raw)))
  }

  function UnknownsOf(js: Runtime, raw: Fields, verification: string): Value {
    js.number(Else(Get(Obj(raw), UnresolvedUnknownCount),
      Else(Get(Obj(raw), UnresolvedUnknownCountSnake), Num(if verification == "unknown" then 1.0 else 0.0))))
  }

  function UpdatedOf(raw: Fields): Value {
    var r := Obj(raw);
    Or(Get(r, UpdatedAt), Or(Get(r, UpdatedAtSnake), Or(Get(r, Updated), Str("Recently"))))
  }

  function Derive(js: Runtime, raw: Fields, fallbackFactoryId: Value): Derived {
    var decided := Decide(js, raw);
    Derived(
      IdOf(raw), FactoryOf(raw, fallbackFactoryId), TitleOf(raw), RepositoryOf(raw), StageKey(js, raw), ActorFrom(raw),
      RiskOf(js, raw), decided, UnknownsOf(js, raw, decided.verification), UpdatedOf(raw))
  }

  /** The fields `normalizeOrder` sets in its object literal. */
  const WRITTEN := {
    Id, WorkOrderId, FactoryId, Title, Repository, Stage, Actor, Risk, Decisions, VerificationVerdict, ReviewDecision,
    ReleaseDecision, OutcomeStatus, UnresolvedUnknownCount, UpdatedAt}

  function WrittenField(d: Derived, key: Key): Value
    requires key in WRITTEN
  {
    match key
    case Id => d.id
    case WorkOrderId => d.id
    case FactoryId => d.factoryId
    case Title => d.title
    case Repository => d.repository
    case Stage => Str(d.stage)
    case Actor => d.actor
    case Risk => Str(d.risk)
    case Decisions =>
      Obj(map[
        Verification := Str(d.decided.verification), Review := Str(d.decided.review),
        Release := Str(d.decided.release), Outcome := Str(d.decided.outcome)])
    case VerificationVerdict => Str(d.decided.verification)
    case ReviewDecision => Str(d.decided.review)
    case ReleaseDecision => Str(d.decided.release)
    case OutcomeStatus => Str(d.decided.outcome)
    case UnresolvedUnknownCount => d.unknowns
    case UpdatedAt => d.updatedAt
  }

  /** `{ ...raw, id, workOrderId: id, ... }`. */
  function Written(raw: Fields, d: Derived): Fields {
    raw + map key | key in WRITTEN :: WrittenField(d, key)
  }

  /** The group and the actions `normalizeOrder` assigns last. */
  function GroupFor(js: Runtime, raw: Fields): string {
    NormalizeGroup(js, Get(Obj(raw), Group), Decide(js, raw), StatusOf(js, raw))
  }

  function ActionsFor(js: Runtime, raw: Fields): Value {
    var decided := Decide(js, raw);
    Or(Get(Obj(raw), AvailableActions), Or(Get(Obj(raw), Capabilities),
      DefaultActions(Get(Obj(raw), HeldBy), GroupFor(js, raw), decided.review, decided.release)))
  }

  /** `normalizeOrder`. */
  function NormalizeOrder(js: Runtime, raw: Fields, fallbackFactoryId: Value): Fields {
    Written(raw, Derive(js, raw, fallbackFactoryId))[Group := Str(GroupFor(js, raw))][AvailableActions := ActionsFor(js, raw)]
  }

  /** The recognised decisions are written as lower-casing and collapsing leave them. */
  lemma RecognisedAllLower(key: string)
    requires key in RECOGNISED
    ensures AllLower(key)
  {}

  lemma GroupsAllLower(group: string)
    requires group in GROUPS || group in STAGES
    ensures AllLower(group)
  {}

  lemma AllLowerPlain(key: string)
    requires AllLower(key)
    ensures Trim(key, Whitespace) == key && Collapse(key, Dash, 1, '_') == key
  {}

  lemma LowerStays(js: Runtime, key: string)
    requires Lawful(js) && AllLower(key)
    ensures js.lower(key) == key && Collapse(key, Dash, 1, '_') == key && DecisionKey(js, Str(key)) == key
  {
    AllLowerPlain(key);
    hide AllLower, Collapse, Trim;
    assert js.text(Str(key)) == key;
  }

  /** A normalised decision is normalised to itself, whatever the fallback. */
  lemma DecisionStays(js: Runtime, value: Value, fallback: string, other: string)
    requires Lawful(js) && fallback in RECOGNISED
    ensures NormalizeDecision(js, Str(NormalizeDecision(js, value, fallback)), other) == NormalizeDecision(js, value, fallback)
  {
    var key := NormalizeDecision(js, value, fallback);
    RecognisedAllLower(key);
    LowerStays(js, key);
  }

  /** A normalised stage is normalised to itself. */
  lemma StageStays(js: Runtime, raw: Fields, order: Fields)
    requires Lawful(js) && Get(Obj(order), Stage) == Str(StageKey(js, raw))
    ensures StageKey(js, order) == StageKey(js, raw)
  {
    var stage := StageKey(js, raw);
    GroupsAllLower(stage);
    assert js.text(Str(stage)) == stage && js.lower(stage) == stage;
    hide Lawful, Get;
  }

  /** So is a normalised actor. */
  lemma ActorStays(raw: Value, fallback: string, other: string)
    requires fallback != ""
    ensures NormalizedActor(NormalizedActor(raw, fallback), other) == NormalizedActor(raw, fallback)
    ensures Truthy(NormalizedActor(raw, fallback))
  {}

  lemma ChosenAgain(group: string, d: Decided, status: string)
    ensures var chosen := ChooseGroup(group, d, status);
      ChooseGroup(chosen, d, status) == chosen
  {}

  /** So is a normalised group, given the same decisions. */
  lemma GroupStays(js: Runtime, raw: Value, d: Decided, status: string)
    requires Lawful(js)
    ensures NormalizeGroup(js, Str(NormalizeGroup(js, raw, d, status)), d, status) == NormalizeGroup(js, raw, d, status)
  {
    var group := NormalizeGroup(js, raw, d, status);
    ChosenAgain(Collapse(js.lower(js.text(Else(raw, Str("")))), Dash, 1, '_'), d, js.lower(status));
    GroupsAllLower(group);
    hide ChooseGroup, GROUPS;
    LowerStays(js, group);
  }

  /** Every field but the normalised ones is kept. */
  lemma OthersKept(js: Runtime, raw: Fields, fb: Value, key: Key)
    requires key !in WRITTEN && key != Group && key != AvailableActions
    ensures Get(Obj(NormalizeOrder(js, raw, fb)), key) == Get(Obj(raw), key)
  {
    hide GroupFor, ActionsFor, Derive, WRITTEN;
  }

  lemma SourcesKept(js: Runtime, raw: Fields, fb: Value)
    ensures var order := NormalizeOrder(js, raw, fb);
      && StatusOf(js, order) == StatusOf(js, raw) && GraphOf(order) == GraphOf(raw)
      && Get(Obj(order), CurrentStage) == Get(Obj(raw), CurrentStage)
      && Get(Obj(order), HeldBy) == Get(Obj(raw), HeldBy)
  {
    hide NormalizeOrder;
    OthersKept(js, raw, fb, Status);
    OthersKept(js, raw, fb, Graph);
    OthersKept(js, raw, fb, Projection);
    OthersKept(js, raw, fb, CurrentStage);
    OthersKept(js, raw, fb, HeldBy);
  }

  /** The normalised fields hold what was derived. */
  predicate Holds(order: Value, d: Derived) {
    forall key :: key in WRITTEN ==> Get(order, key) == WrittenField(d, key)
  }

  lemma WrittenHolds(raw: Fields, d: Derived, group: Value, actions: Value)
    ensures Holds(Obj(Written(raw, d)[Group := group][AvailableActions := actions]), d)
  {
    hide WrittenField;
    var order := Written(raw, d)[Group := group][AvailableActions := actions];
    assert Group !in WRITTEN && AvailableActions !in WRITTEN;
    hide WRITTEN;
    assert forall key :: key in WRITTEN ==> key in order && order[key] == WrittenField(d, key);
  }

  lemma DerivedWritten(js: Runtime, raw: Fields, fb: Value)
    ensures Holds(Obj(NormalizeOrder(js, raw, fb)), Derive(js, raw, fb))
    ensures Derive(js, raw, fb).decided == Decide(js, raw)
  {
    hide GroupFor, ActionsFor, Written, Holds, Decide, IdOf, TitleOf, UpdatedOf, FactoryOf, RepositoryOf, ActorFrom, UnknownsOf, RiskOf, StageKey;
    WrittenHolds(raw, Derive(js, raw, fb), Str(GroupFor(js, raw)), ActionsFor(js, raw));
  }

  /** A decision written back is decided again as it was. */
  lemma DecidedAgain(js: Runtime, front: Value, back: Value, fallback: string)
    requires Lawful(js) && fallback in RECOGNISED
    ensures var decision := NormalizeDecision(js, Else(front, back), fallback);
      NormalizeDecision(js, Else(front, Str(decision)), fallback) == decision
  {
    DecisionStays(js, Else(front, back), fallback, fallback);
  }

  lemma ReviewStays(js: Runtime, graph: Value, raw: Fields, order: Fields)
    requires Lawful(js) && Get(Obj(order), ReviewDecision) == Str(DecideReview(js, graph, raw))
    ensures DecideReview(js, graph, order) == DecideReview(js, graph, raw)
  {
    var front := Else(ReviewSource(Get(graph, ReviewAssessment)), Get(graph, ReviewDecision));
    DecidedAgain(js, front, Else(Get(Obj(raw), ReviewDecision), ReviewSource(Get(Obj(raw), ReviewAssessment))), "awaiting_human");
    hide NormalizeDecision, ReviewSource, Get;
  }

  lemma OneStays(js: Runtime, graph: Value, raw: Fields, order: Fields, key: Key, fallback: string)
    requires Lawful(js) && fallback in RECOGNISED
    requires Get(Obj(order), key) == Str(DecideOne(js, graph, raw, key, fallback))
    ensures DecideOne(js, graph, order, key, fallback) == DecideOne(js, graph, raw, key, fallback)
  {
    DecidedAgain(js, Get(graph, key), Get(Obj(raw), key), fallback);
  }

  /** The decisions of a normalised order are decided again as they were. */
  lemma DecisionsStay(js: Runtime, raw: Fields, fb: Value)
    requires Lawful(js)
    ensures Decide(js, NormalizeOrder(js, raw, fb)) == Decide(js, raw)
  {
    var order, decided, graph, status := NormalizeOrder(js, raw, fb), Decide(js, raw), GraphOf(raw), StatusOf(js, raw);
    SourcesKept(js, raw, fb);
    DerivedWritten(js, raw, fb);
    hide NormalizeOrder, NormalizeDecision, Derive, StatusOf, GraphOf, Lawful, Truthy, DecideOne, DecideReview, Get, ReleaseFallback,
      RECOGNISED, LABELLED;
    var none := if Truthy(Get(Obj(raw), CurrentStage)) then "not_run" else "unknown";
    var fallback := ReleaseFallback(status, decided.verification, decided.review);
    FallbacksRecognised(status, decided.verification, decided.review);
    OneStays(js, graph, raw, order, VerificationVerdict, none);
    ReviewStays(js, graph, raw, order);
    OneStays(js, graph, raw, order, ReleaseDecision, fallback);
    OneStays(js, graph, raw, order, OutcomeStatus, if status == "released" then "accepted" else "pending");
  }

  lemma FallbacksRecognised(status: string, verification: string, review: string)
    ensures ReleaseFallback(status, verification, review) in RECOGNISED
    ensures "not_run" in RECOGNISED && "unknown" in RECOGNISED && "accepted" in RECOGNISED && "pending" in RECOGNISED
  {}

  /** The names, the factory and the times of a normalised order are derived again as they were. */
  lemma NamesStay(raw: Fields, order: Fields, fb: Value)
    requires Get(Obj(order), WorkOrderId) == IdOf(raw) && Get(Obj(order), Title) == TitleOf(raw)
    requires Get(Obj(order), UpdatedAt) == UpdatedOf(raw) && Get(Obj(order), FactoryId) == FactoryOf(raw, fb)
    requires Get(Obj(order), FactoryIdSnake) == Get(Obj(raw), FactoryIdSnake)
    ensures IdOf(order) == IdOf(raw) && TitleOf(order) == TitleOf(raw)
    ensures UpdatedOf(order) == UpdatedOf(raw) && FactoryOf(order, fb) == FactoryOf(raw, fb)
  {}

  lemma RepositoryStays(raw: Fields, order: Fields)
    requires Get(Obj(order), Repository) == RepositoryOf(raw)
    requires Get(Obj(order), RepositoryId) == Get(Obj(raw), RepositoryId)
    ensures RepositoryOf(order) == RepositoryOf(raw)
  {}

  lemma ActorFromStays(raw: Fields, order: Fields)
    requires Get(Obj(order), Actor) == ActorFrom(raw)
    ensures ActorFrom(order) == ActorFrom(raw)
  {
    ActorStays(Or(Get(Obj(raw), Actor), Or(Get(Obj(raw), Owner), Get(Obj(raw), HeldBy))),
      if Truthy(Get(Obj(raw), Owner)) then "Assigned operator" else "System",
      if Truthy(Get(Obj(order), Owner)) then "Assigned operator" else "System");
    hide NormalizedActor, Get;
  }

  lemma UnknownsStay(js: Runtime, raw: Fields, order: Fields, verification: string)
    requires Lawful(js) && Get(Obj(order), UnresolvedUnknownCount) == UnknownsOf(js, raw, verification)
    ensures UnknownsOf(js, order, verification) == UnknownsOf(js, raw, verification)
  {}

  /** What the source reads off a normalised order. */
  predicate Kept(js: Runtime, raw: Fields, order: Fields, fb: Value) {
    && Get(Obj(order), WorkOrderId) == IdOf(raw) && Get(Obj(order), Title) == TitleOf(raw)
    && Get(Obj(order), UpdatedAt) == UpdatedOf(raw) && Get(Obj(order), FactoryId) == FactoryOf(raw, fb)
    && Get(Obj(order), Repository) == RepositoryOf(raw) && Get(Obj(order), Stage) == Str(StageKey(js, raw))
    && Get(Obj(order), Actor) == ActorFrom(raw) && Get(Obj(order), Risk) == Str(RiskOf(js, raw))
    && Get(Obj(order), UnresolvedUnknownCount) == UnknownsOf(js, raw, Decide(js, raw).verification)
  }

  lemma HoldsKept(js: Runtime, raw: Fields, order: Fields, fb: Value)
    requires Holds(Obj(order), Derive(js, raw, fb))
    ensures Kept(js, raw, order, fb)
  {
    hide Get, Decide, IdOf, TitleOf, UpdatedOf, FactoryOf, RepositoryOf, ActorFrom, UnknownsOf, RiskOf, StageKey;
  }

  /** Everything derived from a normalised order but its risk is derived again as it was. */
  lemma DerivedStays(js: Runtime, raw: Fields, fb: Value)
    requires Lawful(js)
    ensures var d, order := Derive(js, raw, fb), NormalizeOrder(js, raw, fb);
      Derive(js, order, fb) == d.(risk := RiskOf(js, order))
  {
    hide NormalizeOrder, IdOf, TitleOf, UpdatedOf, FactoryOf, RepositoryOf, ActorFrom, UnknownsOf, RiskOf, StageKey, Decide, Get,
      Lawful, Holds;
    var order, verification := NormalizeOrder(js, raw, fb), Decide(js, raw).verification;
    OthersKept(js, raw, fb, FactoryIdSnake);
    OthersKept(js, raw, fb, RepositoryId);
    hide WRITTEN;
    DerivedWritten(js, raw, fb);
    DecisionsStay(js, raw, fb);
    HoldsKept(js, raw, order, fb);
    StageStays(js, raw, order);
    NamesStay(raw, order, fb);
    RepositoryStays(raw, order);
    ActorFromStays(raw, order);
    UnknownsStay(js, raw, order, verification);
  }

  /** The risk of a normalised order is read again as it was, unless it is empty, which no second reading gives. */
  lemma RiskStays(js: Runtime, raw: Fields, order: Fields)
    requires Lawful(js) && Get(Obj(order), Risk) == Str(RiskOf(js, raw)) && StatusOf(js, order) == StatusOf(js, raw)
    ensures RiskOf(js, order) == RiskOf(js, raw) <==> RiskOf(js, raw) != ""
  {}

  /** The risk of an order reads as no text at all: it counts as given, and converts to the empty string. */
  predicate Unreadable(js: Runtime, risk: Value) {
    Truthy(risk) && js.text(risk) == ""
  }

  lemma RiskEmptyExactly(js: Runtime, raw: Fields)
    requires Lawful(js)
    ensures RiskOf(js, raw) == "" <==> Unreadable(js, Get(Obj(raw), Risk))
  {}

  /** Writing the same derived fields, group and actions again changes nothing. */
  lemma WrittenAgain(raw: Fields, d: Derived, group: Value, actions: Value)
    ensures var order := Written(raw, d)[Group := group][AvailableActions := actions];
      Written(order, d)[Group := group][AvailableActions := actions] == order
  {}

  lemma GroupReads(js: Runtime, raw: Fields, fb: Value)
    ensures var order := NormalizeOrder(js, raw, fb);
      Get(Obj(order), Group) == Str(GroupFor(js, raw)) && Get(Obj(order), AvailableActions) == ActionsFor(js, raw)
  {
    hide GroupFor, ActionsFor, Derive, WRITTEN, Written;
  }

  lemma ActionsTruthy(js: Runtime, raw: Fields)
    ensures Truthy(ActionsFor(js, raw))
  {}

  /** The group and the actions of a normalised order are chosen again as they were. */
  lemma GroupAndActionsStay(js: Runtime, raw: Fields, fb: Value)
    requires Lawful(js)
    ensures var order := NormalizeOrder(js, raw, fb);
      GroupFor(js, order) == GroupFor(js, raw) && ActionsFor(js, order) == ActionsFor(js, raw)
  {
    var order, decided := NormalizeOrder(js, raw, fb), Decide(js, raw);
    GroupReads(js, raw, fb);
    SourcesKept(js, raw, fb);
    DecisionsStay(js, raw, fb);
    ActionsTruthy(js, raw);
    GroupStays(js, Get(Obj(raw), Group), decided, StatusOf(js, raw));
    hide NormalizeOrder, Decide, NormalizeGroup, Get, StatusOf, Lawful, Truthy;
  }

  /** Normalising a normalised order changes nothing, exactly when its risk could be read. */
  lemma NormalizeIdempotentExactly(js: Runtime, raw: Fields, fb: Value)
    requires Lawful(js)
    ensures NormalizeOrder(js, NormalizeOrder(js, raw, fb), fb) == NormalizeOrder(js, raw, fb)
      <==> !Unreadable(js, Get(Obj(raw), Risk))
  {
    var order, d := NormalizeOrder(js, raw, fb), Derive(js, raw, fb);
    var group, actions := Str(GroupFor(js, raw)), ActionsFor(js, raw);
    DerivedWritten(js, raw, fb);
    HoldsKept(js, raw, order, fb);
    DerivedWritten(js, order, fb);
    HoldsKept(js, order, NormalizeOrder(js, order, fb), fb);
    SourcesKept(js, raw, fb);
    RiskStays(js, raw, order);
    RiskEmptyExactly(js, raw);
    DerivedStays(js, raw, fb);
    GroupAndActionsStay(js, raw, fb);
    WrittenAgain(raw, d, group, actions);
    assert d.risk == RiskOf(js, raw);
    assert order == Written(raw, d)[Group := group][AvailableActions := actions];
    hide Written, Derive, Lawful, RiskOf, GroupFor, ActionsFor, Get, Holds, StatusOf, GraphOf, IdOf, TitleOf, UpdatedOf, FactoryOf,
      RepositoryOf, ActorFrom, UnknownsOf, Decide, StageKey, Unreadable;
  }

  /** Normalising is not idempotent outright: a risk given as an empty list reads as empty, and then as unknown. */
  lemma EmptyListRisk(js: Runtime, fb: Value)
    requires Lawful(js) && js.text(Arr([])) == ""
    ensures var raw: Fields := map[Risk := Arr([])];
      NormalizeOrder(js, NormalizeOrder(js, raw, fb), fb) != NormalizeOrder(js, raw, fb)
  {
    hide NormalizeOrder, Lawful;
    var raw: Fields := map[Risk := Arr([])];
    assert Get(Obj(raw), Risk) == Arr([]);
    hide Get;
    NormalizeIdempotentExactly(js, raw, fb);
  }

  /** A decision has a label exactly when its key is not a name that every object inherits. */
  lemma LabelledExactly(js: Runtime, value: Value, fallback: string)
    requires fallback in LABELLED
    ensures NormalizeDecision(js, value, fallback) in LABELLED <==> DecisionKey(js, value) !in INHERITED
  {}

  /** Some action among these has this name and is allowed. */
  predicate Offered(actions: Value, id: string) {
    actions.Arr? && exists i :: 0 <= i < |actions.items| && Get(actions.items[i], Id) == Str(id) && Get(actions.items[i], Allowed) == Bool(true)
  }

  predicate Offers(order: Fields, id: string) {
    Offered(Get(Obj(order), AvailableActions), id)
  }

  /** What the state of an order must be for an action to be among its default ones. */
  predicate Warranted(id: string, heldBy: Value, group: string, review: string, release: string) {
    (id == "steer") || (id == "take" && !Truthy(heldBy)) || (id == "return" && Truthy(heldBy))
    || (id == "retry" && group == "blocked") || (id == "review" && review == "awaiting_human")
    || (id == "authorize_release" && Authorizable(release))
  }

  function ActionName(i: nat, held: bool): string {
    match i case 0 => if held then "return" else "take" case 1 => "steer" case 2 => "retry" case 3 => "review" case _ => "authorize_release"
  }

  function ActionAllowed(i: nat, group: string, review: string, release: string): bool {
    match i case 0 => true case 1 => true case 2 => group == "blocked" case 3 => review == "awaiting_human" case _ => Authorizable(release)
  }

  lemma ActionsListed(heldBy: Value, group: string, review: string, release: string, i: nat)
    requires i < 5
    ensures var actions := DefaultActions(heldBy, group, review, release);
      && actions.Arr? && |actions.items| == 5
      && Get(actions.items[i], Id) == Str(ActionName(i, Truthy(heldBy)))
      && Get(actions.items[i], Allowed) == Bool(ActionAllowed(i, group, review, release))
      && (Get(actions.items[i], Reason) == Undefined <==> ActionAllowed(i, group, review, release))
  {}

  lemma WarrantedListed(heldBy: Value, group: string, review: string, release: string, id: string)
    ensures Warranted(id, heldBy, group, review, release) <==>
      exists i :: 0 <= i < 5 && ActionName(i, Truthy(heldBy)) == id && ActionAllowed(i, group, review, release)
  {
    hide Truthy, Authorizable;
    var i := if id == "steer" then 1 else if id == "retry" then 2 else if id == "review" then 3 else if id == "authorize_release" then 4 else 0;
    assert Warranted(id, heldBy, group, review, release) ==>
      ActionName(i, Truthy(heldBy)) == id && ActionAllowed(i, group, review, release);
  }

  /** The default actions offer exactly what the state of the order warrants. */
  lemma DefaultOffers(heldBy: Value, group: string, review: string, release: string, id: string)
    ensures Offered(DefaultActions(heldBy, group, review, release), id) <==> Warranted(id, heldBy, group, review, release)
  {
    WarrantedListed(heldBy, group, review, release, id);
    forall i: nat | i < 5 {
      ActionsListed(heldBy, group, review, release, i);
    }
    ActionsListed(heldBy, group, review, release, 0);
    var actions := DefaultActions(heldBy, group, review, release);
    hide Warranted, ActionName, ActionAllowed, DefaultActions, Get, Truthy, Authorizable;
    if i :| 0 <= i < 5 && ActionName(i, Truthy(heldBy)) == id && ActionAllowed(i, group, review, release) {
      assert Get(actions.items[i], Id) == Str(id);
    }
  }

  /** The release decision an order comes with, in the graph or outside it. */
  function SuppliedRelease(raw: Fields): Value {
    Else(Get(GraphOf(raw), ReleaseDecision), Get(Obj(raw), ReleaseDecision))
  }

  /**
   With default actions a release can be authorised exactly when a supplied decision waits for
   authorisation or is on hold, or when none that is recognised was supplied, the order is not
   yet released, verification passed and review approved.
   */
  lemma AuthorizeExactly(js: Runtime, raw: Fields, fb: Value)
    requires !Truthy(Get(Obj(raw), AvailableActions)) && !Truthy(Get(Obj(raw), Capabilities))
    ensures var key, decided := DecisionKey(js, SuppliedRelease(raw)), Decide(js, raw);
      Offers(NormalizeOrder(js, raw, fb), "authorize_release") <==>
        if key in RECOGNISED then Authorizable(key)
        else StatusOf(js, raw) != "released" && decided.verification == "pass" && decided.review == "approved"
  {
    var decided := Decide(js, raw);
    GroupReads(js, raw, fb);
    ReleaseDecided(js, raw);
    DefaultOffers(Get(Obj(raw), HeldBy), GroupFor(js, raw), decided.review, decided.release, "authorize_release");
    assert ActionsFor(js, raw) == DefaultActions(Get(Obj(raw), HeldBy), GroupFor(js, raw), decided.review, decided.release);
    hide NormalizeOrder, ActionsFor, Decide, DefaultActions, Get, GroupFor, StatusOf, DecisionKey, Truthy, SuppliedRelease, RECOGNISED, Offered;
  }

  lemma ReleaseDecided(js: Runtime, raw: Fields)
    ensures var key, decided := DecisionKey(js, SuppliedRelease(raw)), Decide(js, raw);
      decided.release == if key in RECOGNISED then key else ReleaseFallback(StatusOf(js, raw), decided.verification, decided.review)
  {}

  lemma VerdictHeld(js: Runtime, raw: Fields, fb: Value)
    ensures Get(Obj(NormalizeOrder(js, raw, fb)), VerificationVerdict) == Str(Decide(js, raw).verification)
  {
    DerivedWritten(js, raw, fb);
    hide NormalizeOrder, Get, Decide, IdOf, TitleOf, UpdatedOf, FactoryOf, RepositoryOf, ActorFrom, UnknownsOf, RiskOf, StageKey;
  }

  /** A verification that failed or is blocked puts the order among the blocked, whatever else it says. */
  lemma FailedIsBlocked(js: Runtime, raw: Fields, fb: Value)
    requires var verdict := Get(Obj(NormalizeOrder(js, raw, fb)), VerificationVerdict);
      verdict == Str("fail") || verdict == Str("blocked")
    ensures Get(Obj(NormalizeOrder(js, raw, fb)), Group) == Str("blocked")
  {
    VerdictHeld(js, raw, fb);
    GroupReads(js, raw, fb);
    hide NormalizeOrder, Get, Decide, StatusOf;
  }

  /** The group and the stage of a normalised order are among those the UI knows. */
  lemma NormalizedIsKnown(js: Runtime, raw: Fields, fb: Value)
    ensures Known(NormalizeOrder(js, raw, fb))
  {
    DerivedWritten(js, raw, fb);
    HoldsKept(js, raw, NormalizeOrder(js, raw, fb), fb);
    GroupReads(js, raw, fb);
    hide NormalizeOrder, Get, GroupFor, GROUPS, STAGES, Holds, Derive, StageKey;
  }

  predicate Known(order: Fields) {
    var group, stage := Get(Obj(order), Group), Get(Obj(order), Stage);
    group.Str? && group.s in GROUPS && stage.Str? && stage.s in STAGES
  }
}
