/** What every interleaving of `putFactory` calls keeps, however many of them stop half-way. */
module FactorySafety {
  import opened Sequences
  import opened Unicode
  import opened FactoryDefinitions
  import opened FactoryStore

  lemma ExtendsTransitive(a: Database, b: Database, c: Database)
    requires Extends(a, b) && Extends(b, c)
    ensures Extends(a, c)
  {}

  lemma StillNamed(db: Database, db': Database, v: VersionRow)
    requires Extends(db, db') && NamesDefinition(db, v)
    ensures NamesDefinition(db', v)
  {}

  lemma StillDefined(db: Database, db': Database, factoryId: Text, digest: Text)
    requires Extends(db, db') && Defined(db, factoryId, digest)
    ensures Defined(db', factoryId, digest)
  {}

  /** What a call knows stays true while others write. */
  lemma CallInvStable(c: Compiler, db: Database, db': Database, call: Call)
    requires Extends(db, db') && CallInv(c, db, call)
    ensures CallInv(c, db', call)
  {}

  lemma InsertDefinitionKeeps(c: Compiler, db: Database, call: Call, o: Oracle)
    requires TablesInv(db) && CallInv(c, db, call) && call.pc == InsertDefinition && FreshId(db, o.uuid)
    ensures var out := Step(c, db, call, o);
      TablesInv(out.0) && CallInv(c, out.0, out.1) && Extends(db, out.0)
  {
    var out := Step(c, db, call, o);
    var db' := out.0;
    CompiledIsCoherent(c, call, o.uuid);
    hide Validate, Coherent;
    forall i | 0 <= i < |db.versions| ensures NamesDefinition(db', db.versions[i]) {
      StillNamed(db, db', db.versions[i]);
    }
    forall id | id in db.factories && db.factories[id].digest.Some? ensures Defined(db', id, db.factories[id].digest.value) {
      StillDefined(db, db', id, db.factories[id].digest.value);
    }
    assert db'.definitions[|db.definitions|] == DefinitionOf(call, o.uuid);
  }

  lemma InsertVersionKeeps(c: Compiler, db: Database, call: Call, o: Oracle)
    requires TablesInv(db) && CallInv(c, db, call) && call.pc == InsertVersion
    ensures var out := Step(c, db, call, o);
      TablesInv(out.0) && CallInv(c, out.0, out.1) && Extends(db, out.0)
  {
    hide Validate, Coherent;
    var out := Step(c, db, call, o);
    var v := VersionOf(call, o.clock);
    var i :| 0 <= i < |db.definitions|
      && db.definitions[i].definitionId == v.definitionId
      && db.definitions[i].factoryId == v.factoryId && db.definitions[i].digest == v.digest
      && db.definitions[i].createdAt == v.createdAt;
    assert out.0.definitions == db.definitions;
    forall k | 0 <= k < |out.0.versions| ensures NamesDefinition(out.0, out.0.versions[k]) {
      if k < |db.versions| {
        StillNamed(db, out.0, db.versions[k]);
      }
    }
  }

  lemma UpsertKeeps(c: Compiler, db: Database, call: Call, o: Oracle)
    requires TablesInv(db) && CallInv(c, db, call) && call.pc == UpsertFactory
    ensures var out := Step(c, db, call, o);
      TablesInv(out.0) && CallInv(c, out.0, out.1) && Extends(db, out.0)
  {
    hide Coherent, GoodId, GoodName, CheckContents, Compile;
    var out := Step(c, db, call, o);
    forall k | 0 <= k < |db.versions| ensures NamesDefinition(out.0, db.versions[k]) {
      StillNamed(db, out.0, db.versions[k]);
    }
    forall id | id in out.0.factories && out.0.factories[id].digest.Some?
      ensures Defined(out.0, id, out.0.factories[id].digest.value)
    {
      if id == call.input.factoryId && call.compiled.Some? {
        StillDefined(db, out.0, id, call.compiled.value.digest);
      } else {
        StillDefined(db, out.0, id, db.factories[id].digest.value);
      }
    }
  }

  lemma ReplaceAutomationsKeeps(c: Compiler, db: Database, call: Call, o: Oracle)
    requires TablesInv(db) && CallInv(c, db, call) && call.pc == ReplaceAutomations
    ensures var out := Step(c, db, call, o);
      TablesInv(out.0) && CallInv(c, out.0, out.1) && Extends(db, out.0)
  {}

  lemma ReadKeeps(c: Compiler, db: Database, call: Call, o: Oracle)
    requires TablesInv(db) && CallInv(c, db, call) && call.pc == ReadFactory
    ensures var out := Step(c, db, call, o);
      TablesInv(out.0) && CallInv(c, out.0, out.1) && Extends(db, out.0)
      && (out.1.pc == UpsertFactory ==> out.1.compiled.None?)
  {}

  lemma StepKeeps(c: Compiler, db: Database, call: Call, o: Oracle)
    requires TablesInv(db) && CallInv(c, db, call) && !Finished(call)
    requires call.pc == InsertDefinition ==> FreshId(db, o.uuid)
    ensures var out := Step(c, db, call, o);
      TablesInv(out.0) && CallInv(c, out.0, out.1) && Extends(db, out.0)
  {
    hide TablesInv, CallInv, Extends, Step;
    match call.pc
    case ReadFactory => ReadKeeps(c, db, call, o);
    case InsertDefinition => InsertDefinitionKeeps(c, db, call, o);
    case InsertVersion => InsertVersionKeeps(c, db, call, o);
    case ReplaceAutomations => ReplaceAutomationsKeeps(c, db, call, o);
    case UpsertFactory => UpsertKeeps(c, db, call, o);
  }

  lemma ApplyKeeps(c: Compiler, w: World, a: Action)
    requires Inv(c, w) && Allowed(w, a)
    ensures Inv(c, Apply(c, w, a)) && Extends(w.db, Apply(c, w, a).db)
  {
    hide TablesInv, CallInv, Extends, Step;
    var w' := Apply(c, w, a);
    if a.Advance? {
      StepKeeps(c, w.db, w.calls[a.i], a.oracle);
    } else {
      StopKeeps(c, w.db, w.calls[a.i]);
    }
    forall i | 0 <= i < |w'.calls| && i != a.i ensures CallInv(c, w'.db, w'.calls[i]) {
      CallInvStable(c, w.db, w'.db, w.calls[i]);
    }
  }

  lemma StopKeeps(c: Compiler, db: Database, call: Call)
    requires CallInv(c, db, call)
    ensures CallInv(c, db, call.(pc := Stopped)) && Extends(db, db)
  {}

  /** Whatever the calls do, nothing is taken back and the tables stay in agreement. */
  lemma {:induction false} RunsKeep(c: Compiler, w0: World, actions: seq<Action>, w: World)
    requires Inv(c, w0) && Runs(c, w0, actions, w)
    ensures Inv(c, w) && Extends(w0.db, w.db)
    decreases |actions|
  {
    hide Inv, Extends;
    if actions == [] {
      ExtendsItself(w0.db);
    } else {
      var n := |actions| - 1;
      var v :| Runs(c, w0, actions[..n], v) && Allowed(v, actions[n]) && w == Apply(c, v, actions[n]);
      RunsKeep(c, w0, actions[..n], v);
      ApplyKeeps(c, v, actions[n]);
      ExtendsTransitive(w0.db, v.db, w.db);
    }
  }

  lemma ExtendsItself(db: Database)
    ensures Extends(db, db)
  {}

  lemma InitialInv(c: Compiler, w: World)
    requires Initial(w)
    ensures Inv(c, w)
  {}

  /** From empty tables, every reachable state is in agreement. */
  lemma Reachable(c: Compiler, w0: World, actions: seq<Action>, w: World)
    requires Initial(w0) && Runs(c, w0, actions, w)
    ensures TablesInv(w.db)
    ensures Inv(c, w)
  {
    InitialInv(c, w0);
    RunsKeep(c, w0, actions, w);
  }

  /** A call that ends on a factory of another organisation is one that found no factory when it looked. */
  lemma TakeoverOnlyByRace(c: Compiler, w0: World, actions: seq<Action>, w: World, i: nat)
    requires Initial(w0) && Runs(c, w0, actions, w) && i < |w.calls|
    requires w.calls[i].pc.Returned?
    ensures var call := w.calls[i];
      && call.input.factoryId in w.db.factories
      && (w.db.factories[call.input.factoryId].organizationId != call.input.organizationId ==> call.owner == None)
  {
    Reachable(c, w0, actions, w);
  }
}
