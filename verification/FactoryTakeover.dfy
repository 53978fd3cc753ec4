/** When a call for one organisation can end on the factory of another: exactly when two calls contest a factory that is not there yet. */
module FactoryTakeover {
  import opened Sequences
  import opened Unicode
  import opened Json
  import opened FactoryDefinitions
  import opened FactoryStore

  /** Calls that have just arrived, at whatever tables. */
  predicate Arrives(w: World) {
    forall i :: 0 <= i < |w.calls| ==> w.calls[i] == Arriving(w.calls[i].input)
  }

  /** The call passes every check as long as there is no such factory. */
  predicate Founds(c: Compiler, call: Call) {
    Validate(c, call.input, None).Ok?
  }

  /** Two calls that pass every check name one factory, which is not there yet, for different organisations. */
  predicate Contested(c: Compiler, w: World, i: nat, j: nat) {
    && i < |w.calls| && j < |w.calls| && Founds(c, w.calls[i]) && Founds(c, w.calls[j])
    && w.calls[i].input.factoryId == w.calls[j].input.factoryId && w.calls[i].input.factoryId !in w.db.factories
    && w.calls[i].input.organizationId != w.calls[j].input.organizationId
  }

  /** The call has returned, and the factory it wrote belongs to another organisation. */
  predicate Taken(w: World, j: nat) {
    && j < |w.calls| && w.calls[j].pc.Returned? && w.calls[j].input.factoryId in w.db.factories
    && w.db.factories[w.calls[j].input.factoryId].organizationId != w.calls[j].input.organizationId
  }

  /** Some call for this organisation could have made the factory. */
  predicate Founded(c: Compiler, w0: World, id: Text, organizationId: Text) {
    exists i :: 0 <= i < |w0.calls|
      && w0.calls[i].input.factoryId == id && w0.calls[i].input.organizationId == organizationId && Founds(c, w0.calls[i])
  }

  /** Every factory is as old as the run, or made by one of its calls. */
  ghost predicate RowsKnown(c: Compiler, w0: World, db: Database) {
    && (forall id :: id in w0.db.factories ==>
      id in db.factories && db.factories[id].organizationId == w0.db.factories[id].organizationId)
    && (forall id :: id in db.factories && id !in w0.db.factories ==> Founded(c, w0, id, db.factories[id].organizationId))
  }

  predicate Writing(call: Call) {
    call.pc.InsertDefinition? || call.pc.InsertVersion? || call.pc.ReplaceAutomations? || call.pc.UpsertFactory?
  }

  /** What a call past its read passed, and found. */
  predicate Looked(c: Compiler, w0: World, db: Database, call: Call) {
    Writing(call) || call.pc.Returned? ==>
      && Validate(c, call.input, call.owner).Ok?
      && (if call.owner.Some? then Owner(db, call.input.factoryId) == call.owner else call.input.factoryId !in w0.db.factories)
  }

  ghost predicate TakeoverInv(c: Compiler, w0: World, w: World) {
    && RowsKnown(c, w0, w.db) && |w.calls| == |w0.calls|
    && forall i :: 0 <= i < |w.calls| ==> w.calls[i].input == w0.calls[i].input && Looked(c, w0, w.db, w.calls[i])
  }

  /** A check that is passed with an owner is passed by the owner itself, and would be passed without one. */
  lemma PassedByOwner(c: Compiler, input: Input, owner: Option<Text>)
    requires Validate(c, input, owner).Ok?
    ensures Validate(c, input, None).Ok? && (owner.Some? ==> owner.value == input.organizationId)
  {
    hide CheckContents, Compile, GoodId, GoodName;
  }

  lemma StepKnown(c: Compiler, w0: World, w: World, i: nat, o: Oracle)
    requires TakeoverInv(c, w0, w) && Allowed(w, Advance(i, o))
    ensures var out := Step(c, w.db, w.calls[i], o);
      && RowsKnown(c, w0, out.0) && Looked(c, w0, out.0, out.1)
      && forall id :: Owner(w.db, id).Some? ==> Owner(out.0, id) == Owner(w.db, id)
  {
    hide Validate;
    var call := w.calls[i];
    var id := call.input.factoryId;
    if call.pc.UpsertFactory? {
      PassedByOwner(c, call.input, call.owner);
      assert id !in w0.db.factories && id !in w.db.factories ==> Founded(c, w0, id, call.input.organizationId) by {
        assert Founds(c, w0.calls[i]);
      }
    }
  }

  lemma ApplyKnown(c: Compiler, w0: World, w: World, a: Action)
    requires TakeoverInv(c, w0, w) && Allowed(w, a)
    ensures TakeoverInv(c, w0, Apply(c, w, a))
  {
    hide RowsKnown, Validate;
    if a.Advance? {
      StepKnown(c, w0, w, a.i, a.oracle);
    }
    hide Step;
  }

  lemma {:induction false} RunsKnown(c: Compiler, w0: World, actions: seq<Action>, w: World)
    requires Arrives(w0) && Runs(c, w0, actions, w)
    ensures TakeoverInv(c, w0, w)
    decreases |actions|
  {
    if actions != [] {
      hide TakeoverInv;
      var n := |actions| - 1;
      var v :| Runs(c, w0, actions[..n], v) && Allowed(v, actions[n]) && w == Apply(c, v, actions[n]);
      RunsKnown(c, w0, actions[..n], v);
      ApplyKnown(c, w0, v, actions[n]);
    }
  }

  /** Whoever ends on a factory of another organisation contested it with a call of that organisation. */
  lemma TakenIsContested(c: Compiler, w0: World, actions: seq<Action>, w: World, j: nat)
    requires Arrives(w0) && Runs(c, w0, actions, w) && Taken(w, j)
    ensures exists i :: Contested(c, w0, i, j)
  {
    hide Validate;
    RunsKnown(c, w0, actions, w);
    var call := w.calls[j];
    var id := call.input.factoryId;
    PassedByOwner(c, call.input, call.owner);
    assert call.owner == None;
    assert Founded(c, w0, id, w.db.factories[id].organizationId);
    var i :| 0 <= i < |w0.calls|
      && w0.calls[i].input.factoryId == id && w0.calls[i].input.organizationId == w.db.factories[id].organizationId
      && Founds(c, w0.calls[i]);
    assert Contested(c, w0, i, j);
  }

  /** An identifier longer than any in the table. */
  function LongerId(definitions: seq<DefinitionRow>): (id: Text)
    ensures forall i :: 0 <= i < |definitions| ==> |definitions[i].definitionId| < |id|
  {
    if definitions == [] then "a"
    else
      var n := |definitions| - 1;
      LongerId(definitions[..n]) + definitions[n].definitionId
  }

  /** A version number above any in the table. */
  function NextVersion(versions: seq<VersionRow>): (version: int)
    ensures forall i :: 0 <= i < |versions| ==> versions[i].version < version
  {
    if versions == [] then 0
    else
      var n := |versions| - 1;
      var rest := NextVersion(versions[..n]);
      if versions[n].version < rest then rest else versions[n].version + 1
  }

  function Fresh(db: Database): Oracle { Oracle(LongerId(db.definitions), NextVersion(db.versions)) }

  lemma RunsOn(c: Compiler, w0: World, actions: seq<Action>, v: World, a: Action)
    requires Runs(c, w0, actions, v) && Allowed(v, a)
    ensures Runs(c, w0, actions + [a], Apply(c, v, a))
  {
    hide Apply, Allowed;
    var all, n := actions + [a], |actions|;
    assert all[..n] == actions && all[n] == a;
    assert Runs(c, w0, all[..n], v) && Allowed(v, all[n]) && Apply(c, v, a) == Apply(c, v, all[n]);
  }

  /** One write of a call that draws a fresh identifier and version, and what is left to do. */
  lemma StepWrites(c: Compiler, db: Database, call: Call)
    requires Fits(call) && Writing(call)
    ensures FreshId(db, Fresh(db).uuid)
    ensures var out := Step(c, db, call, Fresh(db));
      && out.1.compiled == call.compiled && out.1.input == call.input
      && (if call.pc.UpsertFactory? then
            out.1.pc == Returned(DigestOf(call)) && out.0 == db.(factories := db.factories[call.input.factoryId := Upserted(db, call)])
          else Writing(out.1) && out.0.factories == db.factories)
      && (call.pc.ReplaceAutomations? ==>
            out.0.automations == db.automations[call.input.factoryId := call.compiled.value.automations] && out.1.pc.UpsertFactory?)
      && (call.pc.UpsertFactory? ==> out.0.automations == db.automations)
      && (call.pc.InsertDefinition? || call.pc.InsertVersion? ==> !out.1.pc.UpsertFactory?)
  {}

  /** Left to itself, a call that is writing makes all its writes. */
  lemma {:induction false} WritesAll(c: Compiler, w0: World, actions: seq<Action>, w: World, k: nat)
    returns (actions': seq<Action>, w': World)
    requires Runs(c, w0, actions, w) && k < |w.calls| && Fits(w.calls[k]) && Writing(w.calls[k])
    ensures Runs(c, w0, actions', w') && |w'.calls| == |w.calls| && w'.calls == w.calls[k := w'.calls[k]]
    ensures var call := w.calls[k];
      && w'.calls[k].pc == Returned(DigestOf(call)) && w'.calls[k].input == call.input
      && w'.db.factories == w.db.factories[call.input.factoryId := Upserted(w.db, call)]
      && (!call.pc.UpsertFactory? ==>
            call.input.factoryId in w'.db.automations && w'.db.automations[call.input.factoryId] == call.compiled.value.automations)
      && (call.pc.UpsertFactory? ==> w'.db.automations == w.db.automations)
    decreases Rank(w.calls[k].pc)
  {
    var call, a := w.calls[k], Advance(k, Fresh(w.db));
    StepWrites(c, w.db, call);
    hide Runs, Step, FreshId, Fresh;
    RunsOn(c, w0, actions, w, a);
    actions', w' := actions + [a], Apply(c, w, a);
    if !call.pc.UpsertFactory? {
      actions', w' := WritesAll(c, w0, actions', w', k);
    }
  }

  /** What a call stores, if it founds its factory. */
  function CompiledOf(c: Compiler, call: Call): Option<Compiled>
    requires Founds(c, call)
  {
    Validate(c, call.input, None).value
  }

  /** A call for a factory that is not there reads, and goes on to write. */
  lemma LooksFirst(c: Compiler, w0: World, actions: seq<Action>, w: World, k: nat) returns (actions': seq<Action>, w': World)
    requires Runs(c, w0, actions, w) && k < |w.calls| && w.calls[k] == Arriving(w.calls[k].input)
    requires Founds(c, w.calls[k]) && w.calls[k].input.factoryId !in w.db.factories
    ensures Runs(c, w0, actions', w') && w'.db == w.db && |w'.calls| == |w.calls| && w'.calls == w.calls[k := w'.calls[k]]
    ensures var call, compiled := w'.calls[k], CompiledOf(c, w.calls[k]);
      && call.input == w.calls[k].input && Fits(call) && call.compiled == compiled
      && call.pc == if compiled.Some? then InsertDefinition else UpsertFactory
  {
    hide Runs, Validate;
    var a := Advance(k, Fresh(w.db));
    RunsOn(c, w0, actions, w, a);
    actions', w' := actions + [a], Apply(c, w, a);
  }

  /** What the taken factory's row and automations come out as: the first call's organisation, and everything else the second's. */
  predicate Overwritten(c: Compiler, w0: World, i: nat, j: nat, db: Database)
    requires Contested(c, w0, i, j)
  {
    var first, second := CompiledOf(c, w0.calls[i]), CompiledOf(c, w0.calls[j]);
    var id, stored := w0.calls[j].input.factoryId, if second.Some? then second else first;
    && id in db.factories
    && db.factories[id] == FactoryRow(
      w0.calls[i].input.organizationId, w0.calls[j].input.name, if stored.Some? then Some(stored.value.digest) else None)
    && (stored.Some? ==> id in db.automations && db.automations[id] == stored.value.automations)
  }

  /** Two calls that contest a factory: if both look before either writes, the second overwrites what the first has made. */
  lemma ContestedIsTaken(c: Compiler, w0: World, i: nat, j: nat) returns (actions: seq<Action>, w: World)
    requires Arrives(w0) && Contested(c, w0, i, j)
    ensures Runs(c, w0, actions, w) && Taken(w, j) && Overwritten(c, w0, i, j, w.db)
  {
    assert Runs(c, w0, [], w0);
    hide Runs, Validate, Founds, CompiledOf;
    var id := w0.calls[i].input.factoryId;
    actions, w := LooksFirst(c, w0, [], w0, i);
    actions, w := LooksFirst(c, w0, actions, w, j);
    var empty := w.db;
    actions, w := WritesAll(c, w0, actions, w, i);
    assert w.db.factories[id].organizationId == w0.calls[i].input.organizationId;
    actions, w := WritesAll(c, w0, actions, w, j);
  }

  /**
   Whatever the tables hold and whatever calls arrive: one of them can end on the factory of
   another organisation exactly when some other call contests its factory.
   */
  lemma TakeoverExactly(c: Compiler, w0: World, j: nat)
    requires Arrives(w0)
    ensures (exists actions, w :: Runs(c, w0, actions, w) && Taken(w, j)) <==> (exists i :: Contested(c, w0, i, j))
  {
    if actions, w :| Runs(c, w0, actions, w) && Taken(w, j) {
      TakenIsContested(c, w0, actions, w, j);
    }
    if i :| Contested(c, w0, i, j) {
      var actions, w := ContestedIsTaken(c, w0, i, j);
    }
  }

  const OURS := Input("f", "ours", "ours", None, None, 0)
  const THEIRS := Input("f", "theirs", "theirs", None, None, 0)
  const CONTEST := World(EMPTY, [Arriving(OURS), Arriving(THEIRS)])

  /** A contest: two calls with nothing but a name, over empty tables. */
  lemma ContestArises(c: Compiler)
    ensures Initial(CONTEST) && Contested(c, CONTEST, 0, 1)
    ensures Validate(c, OURS, None) == Ok(None) && Validate(c, THEIRS, None) == Ok(None)
  {
    assert Trimmed("ours") == "ours" && Trimmed("theirs") == "theirs";
  }

  /** So one organisation does rename the factory of another. */
  lemma TakeoverHappens(c: Compiler)
    ensures exists actions, w ::
      && Runs(c, CONTEST, actions, w) && Taken(w, 1)
      && "f" in w.db.factories && w.db.factories["f"] == FactoryRow("ours", "theirs", None)
  {
    ContestArises(c);
    hide Runs, Validate, Taken, Contested;
    var actions, w := ContestedIsTaken(c, CONTEST, 0, 1);
  }
}
