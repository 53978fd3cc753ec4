/** The definition store as a class over its tables, for calls that run one after the other. */
module FactoryService {
  import opened Sequences
  import opened Unicode
  import opened Json
  import opened FactoryDefinitions
  import opened FactoryStore
  import opened FactorySafety

  /** A call stepped to its end with nothing in between. */
  function RunCall(c: Compiler, db: Database, call: Call, o: Oracle): (Database, Call)
    requires Fits(call)
    decreases Rank(call.pc)
  {
    if Finished(call) then (db, call)
    else
      var out := Step(c, db, call, o);
      RunCall(c, out.0, out.1, o)
  }

  /** What a call that nothing interrupts does, and how it ends. */
  function Serve(c: Compiler, db: Database, input: Input, o: Oracle): (Database, Pc) {
    var out := RunCall(c, db, Arriving(input), o);
    (out.0, out.1.pc)
  }

  /** The tables' agreement survives an uninterrupted call like any interleaving, and nothing is taken back. */
  lemma {:induction false} RunCallKeeps(c: Compiler, db: Database, call: Call, o: Oracle)
    requires TablesInv(db) && Fits(call) && CallInv(c, db, call)
    requires call.pc == ReadFactory || call.pc == InsertDefinition ==> FreshId(db, o.uuid)
    ensures var out := RunCall(c, db, call, o);
      TablesInv(out.0) && CallInv(c, out.0, out.1) && Extends(db, out.0)
    decreases Rank(call.pc)
  {
    hide TablesInv, CallInv, Extends, Step, FreshId;
    if Finished(call) {
      ExtendsItself(db);
    } else {
      StepKeeps(c, db, call, o);
      var out := Step(c, db, call, o);
      NextPc(c, db, call, o);
      RunCallKeeps(c, out.0, out.1, o);
      ExtendsTransitive(db, out.0, RunCall(c, db, call, o).0);
    }
  }

  /** A definition is inserted right after the read, which changes no table. */
  lemma NextPc(c: Compiler, db: Database, call: Call, o: Oracle)
    requires Fits(call) && !Finished(call)
    ensures var out := Step(c, db, call, o);
      out.1.pc != ReadFactory && (out.1.pc == InsertDefinition ==> call.pc == ReadFactory && out.0 == db)
  {
    hide Validate;
  }

  /** The call once it has read its factory and passed every check. */
  function Checked(db: Database, input: Input, compiled: Option<Compiled>): Call {
    Call(input, if compiled.Some? then InsertDefinition else UpsertFactory, Owner(db, input.factoryId), compiled, "")
  }

  /** The tables after the first write of a call that stores a definition. */
  function Half(db: Database, input: Input, compiled: Compiled, o: Oracle): Database {
    db.(definitions := db.definitions + [DefinitionOf(Checked(db, input, Some(compiled)), o.uuid)])
  }

  /** The tables after all its writes. */
  function Whole(db: Database, input: Input, compiled: Compiled, o: Oracle): Database {
    var call := Checked(db, input, Some(compiled)).(definitionId := o.uuid);
    db.(definitions := db.definitions + [DefinitionOf(call, o.uuid)],
        versions := db.versions + [VersionOf(call, o.clock)],
        automations := db.automations[input.factoryId := compiled.automations],
        factories := db.factories[input.factoryId := Upserted(db, call)])
  }

  /** One step of a call that is not finished. */
  lemma RunStep(c: Compiler, db: Database, call: Call, o: Oracle, db': Database, call': Call)
    requires Fits(call) && !Finished(call) && Step(c, db, call, o) == (db', call')
    ensures RunCall(c, db, call, o) == RunCall(c, db', call', o)
  {}

  /** The writes of a call that stores a definition. */
  lemma StoreExactly(c: Compiler, db: Database, input: Input, compiled: Compiled, o: Oracle)
    ensures var checked := Checked(db, input, Some(compiled));
      var out := RunCall(c, db, checked, o);
      (out.0, out.1.pc) ==
        if VersionTakenBy(db.versions, input.factoryId, o.clock) then (Half(db, input, compiled, o), Failed(VersionTaken))
        else (Whole(db, input, compiled, o), Returned(Some(compiled.digest)))
  {
    hide VersionTakenBy;
    var db1, call := Half(db, input, compiled, o), Checked(db, input, Some(compiled)).(definitionId := o.uuid, pc := InsertVersion);
    RunStep(c, db, Checked(db, input, Some(compiled)), o, db1, call);
    if VersionTakenBy(db.versions, input.factoryId, o.clock) {
      RunStep(c, db1, call, o, db1, call.(pc := Failed(VersionTaken)));
    } else {
      var db2 := db1.(versions := db.versions + [VersionOf(call, o.clock)]);
      var db3 := db2.(automations := db.automations[input.factoryId := compiled.automations]);
      RunStep(c, db1, call, o, db2, call.(pc := ReplaceAutomations));
      RunStep(c, db2, call.(pc := ReplaceAutomations), o, db3, call.(pc := UpsertFactory));
      RunStep(c, db3, call.(pc := UpsertFactory), o, Whole(db, input, compiled, o), call.(pc := Returned(Some(compiled.digest))));
    }
  }

  /** A rejected call changes nothing; a taken version number leaves the definition behind; otherwise every write happens. */
  lemma ServeExactly(c: Compiler, db: Database, input: Input, o: Oracle)
    ensures Serve(c, db, input, o) ==
      match Validate(c, input, Owner(db, input.factoryId))
      case Err(error) => (db, Failed(error))
      case Ok(None) => (db.(factories := db.factories[input.factoryId := Upserted(db, Checked(db, input, None))]), Returned(None))
      case Ok(Some(compiled)) =>
        if VersionTakenBy(db.versions, input.factoryId, o.clock) then (Half(db, input, compiled, o), Failed(VersionTaken))
        else (Whole(db, input, compiled, o), Returned(Some(compiled.digest)))
  {
    hide Validate, VersionTakenBy;
    var call, owner := Arriving(input), Owner(db, input.factoryId);
    match Validate(c, input, owner)
    case Err(error) => RunStep(c, db, call, o, db, call.(owner := owner, pc := Failed(error)));
    case Ok(None) =>
      var checked := Checked(db, input, None);
      RunStep(c, db, call, o, db, checked);
      RunStep(c, db, checked, o, db.(factories := db.factories[input.factoryId := Upserted(db, checked)]), checked.(pc := Returned(None)));
    case Ok(Some(compiled)) =>
      RunStep(c, db, call, o, db, Checked(db, input, Some(compiled)));
      StoreExactly(c, db, input, compiled, o);
  }

  /** The row of a factory after an accepted call: a new one, or the old one with its name and, if there is one, its digest replaced. */
  function RowAfter(db: Database, input: Input, digest: Option<Text>): FactoryRow {
    if input.factoryId in db.factories then
      var row := db.factories[input.factoryId];
      FactoryRow(row.organizationId, input.name, if digest.Some? then digest else row.digest)
    else FactoryRow(input.organizationId, input.name, digest)
  }

  /** What an uninterrupted call does, told from what it is given. */
  lemma ServeSays(c: Compiler, db: Database, input: Input, o: Oracle)
    ensures var (db', pc) := Serve(c, db, input, o); var id := input.factoryId;
      if !Acceptable(c, input, Owner(db, id)) then db' == db && pc.Failed?
      else if input.yaml.None? then db' == db.(factories := db.factories[id := RowAfter(db, input, None)]) && pc == Returned(None)
      else
        var files, definition := FilesOf(input), Described(c, input.yaml.value, FilesOf(input)).value;
        var digest := c.digest(definition);
        var row := DefinitionRow(o.uuid, id, digest, input.yaml.value, if files == [] then None else Some(files), input.now);
        var taken := exists i :: 0 <= i < |db.versions| && db.versions[i].factoryId == id && db.versions[i].version == o.clock;
        && db'.definitions == db.definitions + [row]
        && (if taken then db' == db.(definitions := db'.definitions) && pc == Failed(VersionTaken)
            else
              && pc == Returned(Some(digest))
              && db'.versions == db.versions + [VersionRow(id, o.uuid, o.clock, digest, input.now)]
              && db'.automations == db.automations[id := c.automations(definition)]
              && db'.factories == db.factories[id := RowAfter(db, input, Some(digest))])
  {
    ServeExactly(c, db, input, o);
    ValidateExact(c, input, Owner(db, input.factoryId));
    hide Serve, Validate, Utf8, Normalized, TotalBytes, Repeats, SafePath, DistinctPaths, Trimmed;
  }

  /** What `getLatestDefinition` answers from a row. */
  datatype Latest = Latest(yaml: Text, files: seq<File>, digest: Text)

  function LatestOf(d: DefinitionRow): Latest {
    Latest(d.yaml, if d.files.Some? then d.files.value else [], d.digest)
  }

  /** A definition of the factory than which none is newer: what ordering by `created_at` may put first. */
  predicate Newest(definitions: seq<DefinitionRow>, factoryId: Text, d: DefinitionRow) {
    d in definitions && d.factoryId == factoryId
    && forall e :: e in definitions && e.factoryId == factoryId ==> e.createdAt <= d.createdAt
  }

  lemma {:induction false} NewestExists(definitions: seq<DefinitionRow>, factoryId: Text)
    ensures (exists d :: d in definitions && d.factoryId == factoryId) <==> (exists d :: Newest(definitions, factoryId, d))
  {
    if definitions != [] {
      var n := |definitions| - 1;
      var before, last := definitions[..n], definitions[n];
      assert definitions == before + [last];
      NewestExists(before, factoryId);
      if d :| Newest(before, factoryId, d) && !(last.factoryId == factoryId && last.createdAt > d.createdAt) {
        assert Newest(definitions, factoryId, d);
      } else if last.factoryId == factoryId {
        assert Newest(definitions, factoryId, last);
      }
    }
  }

  class D1FactoryDefinitionStore {
    const compiler: Compiler
    var factories: map<Text, FactoryRow>
    var definitions: seq<DefinitionRow>
    var versions: seq<VersionRow>
    var automations: map<Text, Json>

    constructor (compiler: Compiler)
      ensures this.compiler == compiler && Tables() == EMPTY
    {
      this.compiler := compiler;
      factories, definitions, versions, automations := map[], [], [], map[];
    }

    function Tables(): Database
      reads this
    {
      Database(factories, definitions, versions, automations)
    }

    method GetFactory(factoryId: Text) returns (row: Option<FactoryRow>)
      ensures row.Some? <==> factoryId in factories
      ensures row.Some? ==> row.value == factories[factoryId]
    {
      row := if factoryId in factories then Some(factories[factoryId]) else None;
    }

    /** `putFactory`, given the identifier it draws and the time its version is numbered with. */
    method PutFactory(input: Input, o: Oracle) returns (result: Result<Option<Text>, Error>)
      modifies this
      ensures var out := Serve(compiler, old(Tables()), input, o);
        Tables() == out.0 && out.1 == match result case Ok(digest) => Returned(digest) case Err(error) => Failed(error)
    {
      hide Serve, Compile, GoodId, GoodName, CheckContents;
      ServeExactly(compiler, Tables(), input, o);
      if !GoodId(input.factoryId) {
        return Err(InvalidId);
      }
      if !GoodName(input.name) {
        return Err(InvalidName);
      }
      var existing := GetFactory(input.factoryId);
      if existing.Some? && existing.value.organizationId != input.organizationId {
        return Err(ForeignFactory);
      }
      var normalizedFiles := if input.files.None? then None else Some(Normalized(input.files.value));
      var refused := CheckContents(compiler, input, normalizedFiles);
      if refused.Some? {
        return Err(refused.value);
      }
      var digest := None;
      if input.yaml.Some? {
        var definition := Compile(compiler, input.yaml.value, normalizedFiles);
        if definition.Err? {
          return Err(definition.error);
        }
        var compiled := definition.value;
        digest := Some(compiled.digest);
        definitions := definitions + [DefinitionRow(o.uuid, input.factoryId, compiled.digest, compiled.yaml, compiled.files, input.now)];
        if VersionTakenBy(versions, input.factoryId, o.clock) {
          return Err(VersionTaken);
        }
        versions := versions + [VersionRow(input.factoryId, o.uuid, o.clock, compiled.digest, input.now)];
        automations := automations[input.factoryId := compiled.automations];
      }
      var row := if existing.None? then FactoryRow(input.organizationId, input.name, digest)
        else existing.value.(name := input.name, digest := if digest.Some? then digest else existing.value.digest);
      factories := factories[input.factoryId := row];
      return Ok(digest);
    }

    /** `getLatestDefinition`: any of the newest definitions of the factory, if it has one. */
    method GetLatestDefinition(factoryId: Text) returns (latest: Option<Latest>)
      ensures latest.None? <==> forall d :: d in definitions ==> d.factoryId != factoryId
      ensures latest.Some? ==> exists d :: Newest(definitions, factoryId, d) && latest.value == LatestOf(d)
    {
      NewestExists(definitions, factoryId);
      if exists d :: d in definitions && Newest(definitions, factoryId, d) {
        var d :| d in definitions && Newest(definitions, factoryId, d);
        latest := Some(LatestOf(d));
      } else {
        latest := None;
      }
    }
  }

  /** The factory's digest is that of its newest definition, whichever of equally new ones is picked. */
  predicate Agrees(db: Database, factoryId: Text) {
    forall d :: d in db.definitions && Newest(db.definitions, factoryId, d) ==>
      factoryId in db.factories && db.factories[factoryId].digest == Some(d.digest)
  }

  /** Adding a row: it is newest if none is newer, and the others stay newest if it is not newer. */
  lemma NewestAfter(definitions: seq<DefinitionRow>, row: DefinitionRow, factoryId: Text, d: DefinitionRow)
    requires d in definitions + [row]
    ensures Newest(definitions + [row], factoryId, d) <==>
      if row.factoryId != factoryId then Newest(definitions, factoryId, d)
      else if d == row then forall e :: Newest(definitions, factoryId, e) ==> e.createdAt <= row.createdAt
      else Newest(definitions, factoryId, d) && row.createdAt <= d.createdAt
  {
    var all := definitions + [row];
    assert forall e :: e in all <==> e in definitions || e == row;
    NewestExists(definitions, factoryId);
    if row.factoryId == factoryId && d == row {
      if forall e :: Newest(definitions, factoryId, e) ==> e.createdAt <= row.createdAt {
        forall e | e in definitions && e.factoryId == factoryId ensures e.createdAt <= row.createdAt {
          var top :| Newest(definitions, factoryId, top);
          assert e.createdAt <= top.createdAt;
        }
      }
    }
  }

  /** The newest definitions after a call has stored its own. */
  lemma NewestAfterAll(definitions: seq<DefinitionRow>, row: DefinitionRow, factoryId: Text)
    ensures forall d :: d in definitions + [row] ==> (Newest(definitions + [row], factoryId, d) <==>
      if row.factoryId != factoryId then Newest(definitions, factoryId, d)
      else if d == row then forall e :: Newest(definitions, factoryId, e) ==> e.createdAt <= row.createdAt
      else Newest(definitions, factoryId, d) && row.createdAt <= d.createdAt)
  {
    forall d | d in definitions + [row] {
      NewestAfter(definitions, row, factoryId, d);
    }
  }

  /** One call that stores a definition leaves its factory in agreement exactly when no row that is still newest has another digest. */
  lemma AgreesExactly(c: Compiler, db: Database, input: Input, o: Oracle, digest: Text)
    requires Serve(c, db, input, o).1 == Returned(Some(digest))
    ensures Agrees(Serve(c, db, input, o).0, input.factoryId) <==>
      forall d :: Newest(db.definitions, input.factoryId, d) && input.now <= d.createdAt ==> d.digest == digest
    ensures forall other :: other != input.factoryId ==> (Agrees(Serve(c, db, input, o).0, other) <==> Agrees(db, other))
  {
    hide Serve, Validate;
    ServeExactly(c, db, input, o);
    var db' := Serve(c, db, input, o).0;
    var row := db'.definitions[|db.definitions|];
    NewestAfterAll(db.definitions, row, input.factoryId);
    assert row in db'.definitions && row.digest == digest;
    assert db'.factories[input.factoryId].digest == Some(digest);
    hide Newest;
    assert forall d :: d in db'.definitions && Newest(db'.definitions, input.factoryId, d) && d != row ==>
      Newest(db.definitions, input.factoryId, d) && input.now <= d.createdAt;
    assert forall d :: d in db.definitions && Newest(db.definitions, input.factoryId, d) && input.now <= d.createdAt && d != row ==>
      d in db'.definitions && Newest(db'.definitions, input.factoryId, d);
    forall other | other != input.factoryId ensures Agrees(db', other) <==> Agrees(db, other) {
      NewestAfterAll(db.definitions, row, other);
    }
  }

  /** A call that stores no definition leaves every factory as much in agreement as it was. */
  lemma WithoutYamlPreserves(c: Compiler, db: Database, input: Input, o: Oracle, factoryId: Text)
    requires Serve(c, db, input, o).1 == Returned(None)
    ensures Serve(c, db, input, o).0.definitions == db.definitions
    ensures Agrees(Serve(c, db, input, o).0, factoryId) <==> Agrees(db, factoryId)
  {
    hide Serve, Validate, Newest;
    ServeExactly(c, db, input, o);
  }

  /**
   A definition row whose call never reaches the upsert - it stopped, or its version number was
   taken - is the one `getLatestDefinition` finds, and disagrees with the factory unless the
   factory had its digest already.
   */
  lemma OrphanDisagrees(db: Database, input: Input, compiled: Compiled, o: Oracle)
    requires forall d :: d in db.definitions && d.factoryId == input.factoryId ==> d.createdAt < input.now
    ensures var db' := Half(db, input, compiled, o);
      Agrees(db', input.factoryId) <==>
        input.factoryId in db.factories && db.factories[input.factoryId].digest == Some(compiled.digest)
  {}

  datatype Request = Request(input: Input, oracle: Oracle)

  /** Calls served one after the other, from empty tables. */
  function ServeAll(c: Compiler, calls: seq<Request>): Database
    decreases |calls|
  {
    if calls == [] then EMPTY
    else
      var n := |calls| - 1;
      Serve(c, ServeAll(c, calls[..n]), calls[n].input, calls[n].oracle).0
  }

  /** Time stamps and the clock move on from call to call. */
  predicate Increasing(calls: seq<Request>) {
    forall i, j :: 0 <= i < j < |calls| ==>
      calls[i].input.now < calls[j].input.now && calls[i].oracle.clock < calls[j].oracle.clock
  }

  /** No row is dated at or after `now`, and no version numbered at or after `clock`. */
  predicate Before(db: Database, now: int, clock: int) {
    && (forall d :: d in db.definitions ==> d.createdAt < now)
    && (forall v :: v in db.versions ==> v.version < clock)
  }

  lemma {:induction false} AllBefore(c: Compiler, calls: seq<Request>, now: int, clock: int)
    requires forall i :: 0 <= i < |calls| ==> calls[i].input.now < now && calls[i].oracle.clock < clock
    ensures Before(ServeAll(c, calls), now, clock)
    decreases |calls|
  {
    if calls != [] {
      var n := |calls| - 1;
      AllBefore(c, calls[..n], now, clock);
      hide Serve, Validate, VersionTakenBy;
      ServeExactly(c, ServeAll(c, calls[..n]), calls[n].input, calls[n].oracle);
    }
  }

  /** Each call draws an identifier of its own. */
  predicate DistinctIds(calls: seq<Request>) {
    forall i, j :: 0 <= i < j < |calls| ==> calls[i].oracle.uuid != calls[j].oracle.uuid
  }

  lemma {:induction false} IdsDrawn(c: Compiler, calls: seq<Request>, id: Text)
    requires forall i :: 0 <= i < |calls| ==> calls[i].oracle.uuid != id
    ensures FreshId(ServeAll(c, calls), id)
    decreases |calls|
  {
    if calls != [] {
      var n := |calls| - 1;
      IdsDrawn(c, calls[..n], id);
      hide Serve, Validate, VersionTakenBy;
      ServeExactly(c, ServeAll(c, calls[..n]), calls[n].input, calls[n].oracle);
    }
  }

  /** Calls one after the other leave tables that agree. */
  lemma {:induction false} ServeAllKeeps(c: Compiler, calls: seq<Request>)
    requires DistinctIds(calls)
    ensures TablesInv(ServeAll(c, calls))
    decreases |calls|
  {
    if calls != [] {
      var n := |calls| - 1;
      var before := ServeAll(c, calls[..n]);
      ServeAllKeeps(c, calls[..n]);
      IdsDrawn(c, calls[..n], calls[n].oracle.uuid);
      hide TablesInv, FreshId, RunCall;
      RunCallKeeps(c, before, Arriving(calls[n].input), calls[n].oracle);
    }
  }

  /** What the last call that stored a definition for the factory was given. */
  function LastStored(c: Compiler, calls: seq<Request>, factoryId: Text): Option<Latest>
    decreases |calls|
  {
    if calls == [] then None
    else
      var n := |calls| - 1;
      var input := calls[n].input;
      if input.factoryId == factoryId && input.yaml.Some? && Acceptable(c, input, Owner(ServeAll(c, calls[..n]), factoryId)) then
        Some(Given(c, input))
      else LastStored(c, calls[..n], factoryId)
  }

  /** What a reader is to find of a call with YAML: that, its slash-normalised files, and the digest of what they describe. */
  function Given(c: Compiler, input: Input): Latest
    requires input.yaml.Some? && Described(c, input.yaml.value, FilesOf(input)).Some?
  {
    Latest(input.yaml.value, FilesOf(input), c.digest(Described(c, input.yaml.value, FilesOf(input)).value))
  }

  /** It is what an accepted call with YAML compiles to. */
  lemma GivenCompiled(c: Compiler, input: Input, owner: Option<Text>)
    requires input.yaml.Some? && Acceptable(c, input, owner)
    ensures Validate(c, input, owner).Ok? && Validate(c, input, owner).value.Some?
    ensures var compiled := Validate(c, input, owner).value.value;
      Given(c, input) == Latest(input.yaml.value, if input.files.None? then [] else Normalized(input.files.value), compiled.digest)
  {
    ValidateExact(c, input, owner);
    hide Validate, Utf8, Normalized, TotalBytes, Repeats, SafePath, DistinctPaths, Trimmed;
  }

  /** What a reader finds for a factory. */
  ghost predicate Finds(db: Database, factoryId: Text, latest: Option<Latest>) {
    && (latest.None? ==> forall d :: d in db.definitions ==> d.factoryId != factoryId)
    && (latest.Some? ==> exists d :: Newest(db.definitions, factoryId, d))
    && (forall d :: d in db.definitions && Newest(db.definitions, factoryId, d) ==> latest == Some(LatestOf(d)))
  }

  /** Compiling keeps the YAML and the slash-normalised files, an empty list as none. */
  lemma CompiledKeeps(c: Compiler, input: Input, owner: Option<Text>, compiled: Compiled)
    requires Validate(c, input, owner) == Ok(Some(compiled))
    ensures input.yaml == Some(compiled.yaml)
    ensures (if compiled.files.Some? then compiled.files.value else [])
      == if input.files.None? then [] else Normalized(input.files.value)
  {}

  /** A row newer than every other of its factory is the only newest one. */
  lemma StoredIsFound(c: Compiler, db: Database, input: Input, compiled: Compiled, o: Oracle)
    requires forall d :: d in db.definitions ==> d.createdAt < input.now
    requires Validate(c, input, Owner(db, input.factoryId)) == Ok(Some(compiled))
    ensures var db' := Whole(db, input, compiled, o);
      && Finds(db', input.factoryId,
        Some(Latest(input.yaml.value, if input.files.None? then [] else Normalized(input.files.value), compiled.digest)))
      && Agrees(db', input.factoryId)
  {
    CompiledKeeps(c, input, Owner(db, input.factoryId), compiled);
    hide Validate, Normalized;
    var db' := Whole(db, input, compiled, o);
    var row := db'.definitions[|db.definitions|];
    NewestAfterAll(db.definitions, row, input.factoryId);
    assert Newest(db'.definitions, input.factoryId, row);
  }

  /** A new row of one factory changes nothing that is found for another. */
  lemma OthersFound(db: Database, input: Input, compiled: Compiled, o: Oracle, other: Text, latest: Option<Latest>)
    requires other != input.factoryId && Finds(db, other, latest) && Agrees(db, other)
    ensures Finds(Whole(db, input, compiled, o), other, latest) && Agrees(Whole(db, input, compiled, o), other)
  {
    var db' := Whole(db, input, compiled, o);
    var row := db'.definitions[|db.definitions|];
    NewestAfterAll(db.definitions, row, other);
    if latest.Some? {
      var d :| Newest(db.definitions, other, d);
      assert d in db'.definitions && Newest(db'.definitions, other, d);
    }
  }

  /** One call served between calls that are all earlier. */
  lemma ServeFinds(c: Compiler, db: Database, input: Input, o: Oracle, factoryId: Text, latest: Option<Latest>)
    requires Before(db, input.now, o.clock) && Finds(db, factoryId, latest) && Agrees(db, factoryId)
    ensures var db' := Serve(c, db, input, o).0;
      && Agrees(db', factoryId)
      && Finds(db', factoryId,
        match Validate(c, input, Owner(db, input.factoryId))
        case Ok(Some(compiled)) =>
          if input.factoryId != factoryId then latest
          else Some(Latest(input.yaml.value, if input.files.None? then [] else Normalized(input.files.value), compiled.digest))
        case _ => latest)
  {
    ServeExactly(c, db, input, o);
    hide Serve, Validate, Newest, Normalized, Whole;
    match Validate(c, input, Owner(db, input.factoryId))
    case Ok(Some(compiled)) =>
      assert !VersionTakenBy(db.versions, input.factoryId, o.clock);
      if input.factoryId == factoryId {
        StoredIsFound(c, db, input, compiled, o);
      } else {
        OthersFound(db, input, compiled, o, factoryId, latest);
      }
    case _ =>
  }

  /**
   Calls one after the other, some rejected, some without YAML: after each of them every
   factory's digest is that of its newest definition, and a reader finds exactly the YAML and
   the slash-normalised files that were stored last.
   */
  lemma {:induction false} SequentialCallsAgree(c: Compiler, calls: seq<Request>, factoryId: Text)
    requires Increasing(calls)
    ensures Agrees(ServeAll(c, calls), factoryId)
    ensures Finds(ServeAll(c, calls), factoryId, LastStored(c, calls, factoryId))
    decreases |calls|
  {
    hide Agrees, Finds, Serve, Validate, Normalized, Described, Utf8, TotalBytes, Repeats, SafePath, DistinctPaths, Trimmed;
    if calls == [] {
      NothingFound(factoryId);
    } else {
      var n := |calls| - 1;
      SequentialCallsAgree(c, calls[..n], factoryId);
      AllBefore(c, calls[..n], calls[n].input.now, calls[n].oracle.clock);
      var input, owner := calls[n].input, Owner(ServeAll(c, calls[..n]), calls[n].input.factoryId);
      ValidateExact(c, input, owner);
      if input.yaml.Some? && Acceptable(c, input, owner) {
        GivenCompiled(c, input, owner);
      }
      hide Acceptable, Given;
      ServeFinds(c, ServeAll(c, calls[..n]), calls[n].input, calls[n].oracle, factoryId, LastStored(c, calls[..n], factoryId));
    }
  }

  lemma NothingFound(factoryId: Text)
    ensures Agrees(EMPTY, factoryId) && Finds(EMPTY, factoryId, None)
  {}

  /** A call with this name, for a factory that does not exist, returns and leaves the name as it came. */
  predicate KeepsName(c: Compiler, name: Text, o: Oracle) {
    var out := Serve(c, EMPTY, Input("f", "org", name, None, None, 0), o);
    out.1 == Returned(None) && "f" in out.0.factories && out.0.factories["f"].name == name
  }

  /** The length limit holds for the trimmed name only: the store takes and keeps names of any length. */
  lemma StoredNameUnbounded(c: Compiler, n: nat, o: Oracle)
    ensures exists name: Text :: |name| > n && KeepsName(c, name, o)
  {
    TrimFront(n);
    var name := Spaces(n) + "a";
    assert GoodName(name) && GoodId("f");
    hide GoodName, GoodId, Serve;
    ServeExactly(c, EMPTY, Input("f", "org", name, None, None, 0), o);
    assert KeepsName(c, name, o);
  }
}
