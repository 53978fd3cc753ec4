/** The board of the control-plane UI: its columns and the progress bar above them. */
module WorkOrderBoard {
  import opened Sequences
  import opened WorkOrders

  /** `normalizeOrder` as it builds its result: an object literal, and then two assignments to its properties. */
  method BuildOrder(js: Runtime, raw: Fields, fallbackFactoryId: Value) returns (order: Fields)
    ensures order == NormalizeOrder(js, raw, fallbackFactoryId)
  {
    hide Derive, Decide, StatusOf, NormalizeGroup, DefaultActions, Written, WRITTEN;
    var d := Derive(js, raw, fallbackFactoryId);
    order := Written(raw, d);
    order := order[Group := Str(NormalizeGroup(js, Get(Obj(raw), Group), d.decided, StatusOf(js, raw)))];
    WrittenBeforeActions(raw, d, order[Group]);
    var heldBy, review, release := Get(Obj(order), HeldBy), Get(Obj(order), ReviewDecision), Get(Obj(order), ReleaseDecision);
    var actions := Or(Get(Obj(raw), AvailableActions), Or(Get(Obj(raw), Capabilities),
      DefaultActions(heldBy, order[Group].s, review.s, release.s)));
    order := order[AvailableActions := actions];
    assert d.decided == Decide(js, raw) by { DerivedWritten(js, raw, fallbackFactoryId); }
  }

  /** What `defaultActions` reads of the object under construction. */
  lemma WrittenBeforeActions(raw: Fields, d: Derived, group: Value)
    ensures var order := Written(raw, d)[Group := group];
      && Get(Obj(order), HeldBy) == Get(Obj(raw), HeldBy)
      && Get(Obj(order), ReviewDecision) == Str(d.decided.review)
      && Get(Obj(order), ReleaseDecision) == Str(d.decided.release)
  {}

  /** `order.group || "unknown"`, as a property name. */
  function GroupName(js: Runtime, order: Fields): string {
    js.text(Or(Get(Obj(order), Group), Str("unknown")))
  }

  /** Where in the list the orders of a group stand, first to last. */
  function Positions(js: Runtime, orders: seq<Fields>, group: string): seq<nat> {
    if orders == [] then []
    else
      var n := |orders| - 1;
      Positions(js, orders[..n], group) + if GroupName(js, orders[n]) == group then [n] else []
  }

  /** The orders of a group, as they stand in the list. */
  function InGroup(js: Runtime, orders: seq<Fields>, group: string): seq<Fields> {
    if orders == [] then []
    else
      var n := |orders| - 1;
      InGroup(js, orders[..n], group) + if GroupName(js, orders[n]) == group then [orders[n]] else []
  }

  /** `groupOrders`; an order whose group has no column is left out. */
  method GroupOrders(js: Runtime, orders: seq<Fields>) returns (groups: map<string, seq<Fields>>)
    ensures groups.Keys == set group | group in GROUPS
    ensures forall group :: group in GROUPS ==> groups[group] == InGroup(js, orders, group)
  {
    groups := map group | group in GROUPS :: [];
    for i := 0 to |orders|
      invariant groups.Keys == set group | group in GROUPS
      invariant forall group :: group in GROUPS ==> groups[group] == InGroup(js, orders[..i], group)
    {
      assert orders[..i + 1][..i] == orders[..i];
      var name := GroupName(js, orders[i]);
      if name in groups {
        groups := groups[name := groups[name] + [orders[i]]];
      }
    }
    assert orders[..|orders|] == orders;
  }

  /** The positions of a group are exactly the indices of its orders, in increasing order. */
  lemma {:induction false} PositionsExact(js: Runtime, orders: seq<Fields>, group: string)
    ensures var p := Positions(js, orders, group);
      && (forall k :: 0 <= k < |p| ==> p[k] < |orders|)
      && (forall k, l :: 0 <= k < l < |p| ==> p[k] < p[l])
      && (forall i :: i in p <==> 0 <= i < |orders| && GroupName(js, orders[i]) == group)
    decreases |orders|
  {
    if orders != [] {
      hide GroupName;
      var n := |orders| - 1;
      PositionsExact(js, orders[..n], group);
    }
  }

  /** A column shows the orders at the positions of its group. */
  lemma {:induction false} ColumnShows(js: Runtime, orders: seq<Fields>, group: string)
    ensures var p, column := Positions(js, orders, group), InGroup(js, orders, group);
      |column| == |p| && forall k :: 0 <= k < |p| ==> p[k] < |orders| && column[k] == orders[p[k]]
    decreases |orders|
  {
    if orders != [] {
      hide GroupName;
      ColumnShows(js, orders[..|orders| - 1], group);
    }
  }

  /** A column holds exactly the orders of its group, each where it stands in the list, in the list's order. */
  lemma ColumnExact(js: Runtime, orders: seq<Fields>, group: string)
    ensures var p := Positions(js, orders, group);
      && |InGroup(js, orders, group)| == |p|
      && (forall k :: 0 <= k < |p| ==> p[k] < |orders| && InGroup(js, orders, group)[k] == orders[p[k]])
      && (forall k, l :: 0 <= k < l < |p| ==> p[k] < p[l])
      && (forall i :: 0 <= i < |orders| ==> (i in p <==> GroupName(js, orders[i]) == group))
  {
    PositionsExact(js, orders, group);
    ColumnShows(js, orders, group);
    hide Positions, InGroup, GroupName;
  }

  /** An order without a group stands among the unknown. */
  lemma UngroupedIsUnknown(js: Runtime, order: Fields)
    requires Lawful(js) && !Truthy(Get(Obj(order), Group))
    ensures GroupName(js, order) == "unknown"
  {
    hide Get;
    assert js.text(Str("unknown")) == "unknown";
  }

  /** Every known order stands in exactly one column. */
  lemma ColumnsPartition(js: Runtime, orders: seq<Fields>, i: nat)
    requires Lawful(js) && i < |orders| && Known(orders[i])
    ensures exists group :: group in GROUPS && i in Positions(js, orders, group)
    ensures forall g, h :: i in Positions(js, orders, g) && i in Positions(js, orders, h) ==> g == h
  {
    var group := Get(Obj(orders[i]), Group);
    GroupsNonEmpty(group.s);
    GroupNameOf(js, orders[i], group.s);
    hide GroupName, Positions, Lawful, GROUPS;
    ColumnExact(js, orders, group.s);
    forall g, h | i in Positions(js, orders, g) && i in Positions(js, orders, h) ensures g == h {
      ColumnExact(js, orders, g);
      ColumnExact(js, orders, h);
    }
  }

  lemma GroupNameOf(js: Runtime, order: Fields, group: string)
    requires Lawful(js) && Get(Obj(order), Group) == Str(group) && group != ""
    ensures GroupName(js, order) == group
  {}

  lemma GroupsNonEmpty(group: string)
    requires group in GROUPS
    ensures group != ""
  {}

  /** No column of orders that are ready or released holds one whose verification failed or is blocked. */
  lemma ReadyIsVerified(js: Runtime, raws: seq<Fields>, orders: seq<Fields>, fb: Value, group: string, k: nat)
    requires Lawful(js) && |raws| == |orders| && forall i :: 0 <= i < |raws| ==> orders[i] == NormalizeOrder(js, raws[i], fb)
    requires group == "ready" || group == "released"
    requires k < |InGroup(js, orders, group)|
    ensures Get(Obj(InGroup(js, orders, group)[k]), VerificationVerdict) !in {Str("fail"), Str("blocked")}
  {
    ColumnExact(js, orders, group);
    var i := Positions(js, orders, group)[k];
    assert i in Positions(js, orders, group);
    var verdict := Get(Obj(orders[i]), VerificationVerdict);
    if verdict == Str("fail") || verdict == Str("blocked") {
      FailedStandsBlocked(js, raws[i], fb);
    }
  }

  lemma FailedStandsBlocked(js: Runtime, raw: Fields, fb: Value)
    requires Lawful(js)
    requires Get(Obj(NormalizeOrder(js, raw, fb)), VerificationVerdict) in {Str("fail"), Str("blocked")}
    ensures GroupName(js, NormalizeOrder(js, raw, fb)) == "blocked"
  {
    FailedIsBlocked(js, raw, fb);
    hide NormalizeOrder;
    GroupNameOf(js, NormalizeOrder(js, raw, fb), "blocked");
  }

  datatype Progress = Complete | Current | Incomplete

  /** `STAGES.indexOf(order.stage)`. */
  function StageIndex(order: Fields): (i: int)
    ensures -1 <= i < |STAGES|
    ensures Known(order) ==> 0 <= i && Get(Obj(order), Stage) == Str(STAGES[i])
  {
    var stage := Get(Obj(order), Stage);
    if stage.Str? && stage.s in STAGES then FirstIndex(STAGES, stage.s) else -1
  }

  /** `Math.max(-1, ...orders.map(...))`. */
  function MaxIndex(orders: seq<Fields>): (m: int)
    ensures -1 <= m < |STAGES|
    ensures forall order :: order in orders ==> StageIndex(order) <= m
    ensures m == -1 || exists order :: order in orders && StageIndex(order) == m
  {
    if orders == [] then -1
    else
      var rest := MaxIndex(orders[1..]);
      if StageIndex(orders[0]) > rest then StageIndex(orders[0]) else rest
  }

  predicate AllReleased(orders: seq<Fields>) {
    orders != [] && forall order :: order in orders ==> Get(Obj(order), Group) == Str("released")
  }

  /** `stageProgress`. */
  function StageProgress(orders: seq<Fields>): (states: seq<Progress>)
    ensures |states| == |STAGES|
  {
    var m, released := MaxIndex(orders), AllReleased(orders);
    seq(|STAGES|, i => if released || i < m then Complete else if i == m then Current else Incomplete)
  }

  /** Complete stages come first, then at most one that is current, then the incomplete ones. */
  predicate InSequence(states: seq<Progress>) {
    forall i, j :: 0 <= i < j < |states| ==>
      && (states[j] == Complete ==> states[i] == Complete)
      && (states[i] == Incomplete ==> states[j] == Incomplete)
      && !(states[i] == Current && states[j] == Current)
  }

  /** One stage is current exactly when there are orders that are not all released: the furthest that any order is at. */
  lemma ProgressExact(orders: seq<Fields>)
    requires forall order :: order in orders ==> Known(order)
    ensures var states := StageProgress(orders);
      var released := orders != [] && forall order :: order in orders ==> Get(Obj(order), Group) == Str("released");
      && InSequence(states)
      && (Current in states <==> orders != [] && !released)
      && (released <==> Incomplete !in states && Current !in states)
      && (forall i :: 0 <= i < |STAGES| && states[i] == Current ==>
        && (exists order :: order in orders && Get(Obj(order), Stage) == Str(STAGES[i]))
        && (forall order, j :: order in orders && i < j < |STAGES| ==> Get(Obj(order), Stage) != Str(STAGES[j])))
  {
    var states, m := StageProgress(orders), MaxIndex(orders);
    if orders != [] {
      assert orders[0] in orders;
      assert m >= 0;
      assert states[m] == if AllReleased(orders) then Complete else Current;
    } else {
      assert states[0] == Incomplete;
    }
    forall order, j | order in orders && 0 <= j < |STAGES| && Get(Obj(order), Stage) == Str(STAGES[j]) ensures j <= m {
      StagesDiffer(StageIndex(order), j);
    }
  }

  lemma StagesDiffer(i: nat, j: nat)
    requires i < |STAGES| && j < |STAGES| && STAGES[i] == STAGES[j]
    ensures i == j
  {}
}
