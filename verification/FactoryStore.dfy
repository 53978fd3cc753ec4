/**
 `putFactory` as a step system over the tables it writes, without a transaction: any number of
 calls interleave between their reads and writes, and any of them may stop after any write.
 */
module FactoryStore {
  import opened Sequences
  import opened Unicode
  import opened Json
  import opened FactoryDefinitions

  datatype FactoryRow = FactoryRow(organizationId: Text, name: Text, digest: Option<Text>)

  datatype DefinitionRow = DefinitionRow(
    definitionId: Text, factoryId: Text, digest: Text, yaml: Text, files: Option<seq<File>>, createdAt: int)

  datatype VersionRow = VersionRow(factoryId: Text, definitionId: Text, version: int, digest: Text, createdAt: int)

  /** The tables. `factory_id` is the key of factories; the other two are listed in insertion order. */
  datatype Database = Database(
    factories: map<Text, FactoryRow>, definitions: seq<DefinitionRow>, versions: seq<VersionRow>, automations: map<Text, Json>)

  /** The await a call is at, named after what it does next. */
  datatype Pc =
    | ReadFactory | InsertDefinition | InsertVersion | ReplaceAutomations | UpsertFactory
    | Returned(digest: Option<Text>)
    | Failed(error: Error)
    | Stopped

  datatype Call = Call(input: Input, pc: Pc, owner: Option<Text>, compiled: Option<Compiled>, definitionId: Text)

  /** What a step is given: a fresh identifier, and the wall clock in milliseconds. */
  datatype Oracle = Oracle(uuid: Text, clock: int)

  function Arriving(input: Input): Call {
    Call(input, ReadFactory, None, None, "")
  }

  predicate Finished(call: Call) {
    call.pc.Returned? || call.pc.Failed? || call.pc.Stopped?
  }

  /** A call that stores a definition has one compiled, for as long as it writes. */
  predicate Fits(call: Call) {
    call.pc.InsertDefinition? || call.pc.InsertVersion? || call.pc.ReplaceAutomations? ==> call.compiled.Some?
  }

  function Rank(pc: Pc): nat {
    match pc
    case ReadFactory => 5 case InsertDefinition => 4 case InsertVersion => 3 case ReplaceAutomations => 2 case UpsertFactory => 1
    case _ => 0
  }

  function DigestOf(call: Call): Option<Text> {
    if call.compiled.Some? then Some(call.compiled.value.digest) else None
  }

  function DefinitionOf(call: Call, uuid: Text): DefinitionRow
    requires call.compiled.Some?
  {
    var compiled := call.compiled.value;
    DefinitionRow(uuid, call.input.factoryId, compiled.digest, compiled.yaml, compiled.files, call.input.now)
  }

  function VersionOf(call: Call, clock: int): VersionRow
    requires call.compiled.Some?
  {
    VersionRow(call.input.factoryId, call.definitionId, clock, call.compiled.value.digest, call.input.now)
  }

  /** `UNIQUE (factory_id, version)`. */
  predicate VersionTakenBy(versions: seq<VersionRow>, factoryId: Text, version: int) {
    exists i :: 0 <= i < |versions| && versions[i].factoryId == factoryId && versions[i].version == version
  }

  function Owner(db: Database, factoryId: Text): Option<Text> {
    if factoryId in db.factories then Some(db.factories[factoryId].organizationId) else None
  }

  /** The upsert: a row that exists keeps its organisation, and its digest unless a new one is given. */
  function Upserted(db: Database, call: Call): FactoryRow {
    var id := call.input.factoryId;
    if id !in db.factories then FactoryRow(call.input.organizationId, call.input.name, DigestOf(call))
    else db.factories[id].(name := call.input.name, digest := if DigestOf(call).Some? then DigestOf(call) else db.factories[id].digest)
  }

  function StepRead(c: Compiler, db: Database, call: Call): Call
    requires call.pc == ReadFactory
  {
    var owner := Owner(db, call.input.factoryId);
    match Validate(c, call.input, owner)
    case Err(error) => call.(owner := owner, pc := Failed(error))
    case Ok(compiled) => call.(owner := owner, compiled := compiled, pc := if compiled.Some? then InsertDefinition else UpsertFactory)
  }

  /** One step of one call: its read with all its checks, or one write. */
  function Step(c: Compiler, db: Database, call: Call, o: Oracle): (out: (Database, Call))
    requires Fits(call) && !Finished(call)
    ensures Fits(out.1) && Rank(out.1.pc) < Rank(call.pc) && out.1.input == call.input
  {
    match call.pc
    case ReadFactory => (db, StepRead(c, db, call))
    case InsertDefinition =>
      (db.(definitions := db.definitions + [DefinitionOf(call, o.uuid)]), call.(definitionId := o.uuid, pc := InsertVersion))
    case InsertVersion =>
      if VersionTakenBy(db.versions, call.input.factoryId, o.clock) then (db, call.(pc := Failed(VersionTaken)))
      else (db.(versions := db.versions + [VersionOf(call, o.clock)]), call.(pc := ReplaceAutomations))
    case ReplaceAutomations =>
      (db.(automations := db.automations[call.input.factoryId := call.compiled.value.automations]), call.(pc := UpsertFactory))
    case UpsertFactory =>
      (db.(factories := db.factories[call.input.factoryId := Upserted(db, call)]), call.(pc := Returned(DigestOf(call))))
  }

  datatype World = World(db: Database, calls: seq<Call>)

  datatype Action = Advance(i: nat, oracle: Oracle) | Stop(i: nat)

  predicate FreshId(db: Database, id: Text) {
    forall i :: 0 <= i < |db.definitions| ==> db.definitions[i].definitionId != id
  }

  /** A definition gets an identifier no other row has. */
  predicate Allowed(w: World, a: Action) {
    a.i < |w.calls| && Fits(w.calls[a.i]) && !Finished(w.calls[a.i])
    && (a.Advance? && w.calls[a.i].pc == InsertDefinition ==> FreshId(w.db, a.oracle.uuid))
  }

  function Apply(c: Compiler, w: World, a: Action): World
    requires Allowed(w, a)
  {
    match a
    case Advance(i, o) =>
      var out := Step(c, w.db, w.calls[i], o);
      World(out.0, w.calls[i := out.1])
    case Stop(i) => w.(calls := w.calls[i := w.calls[i].(pc := Stopped)])
  }

  /** `w` is where the actions lead from `w0`. */
  ghost predicate Runs(c: Compiler, w0: World, actions: seq<Action>, w: World)
    decreases |actions|
  {
    if actions == [] then w == w0
    else
      var n := |actions| - 1;
      exists v :: Runs(c, w0, actions[..n], v) && Allowed(v, actions[n]) && w == Apply(c, v, actions[n])
  }

  const EMPTY := Database(map[], [], [], map[])

  /** Calls that have just arrived at empty tables. */
  predicate Initial(w: World) {
    w.db == EMPTY && forall i :: 0 <= i < |w.calls| ==> w.calls[i] == Arriving(w.calls[i].input)
  }

  /** Some definition row has this factory and digest. */
  predicate Defined(db: Database, factoryId: Text, digest: Text) {
    exists i :: 0 <= i < |db.definitions| && db.definitions[i].factoryId == factoryId && db.definitions[i].digest == digest
  }

  /** The version names a definition row of its own factory, digest and time. */
  predicate NamesDefinition(db: Database, v: VersionRow) {
    exists i :: 0 <= i < |db.definitions|
      && db.definitions[i].definitionId == v.definitionId
      && db.definitions[i].factoryId == v.factoryId && db.definitions[i].digest == v.digest
      && db.definitions[i].createdAt == v.createdAt
  }

  /** What a definition row holds: YAML within the limit, and with it the file that repeats it, if there is one. */
  predicate Coherent(d: DefinitionRow) {
    && 1 <= |Utf8(d.yaml)| <= MAX_CONTENT && GoodId(d.factoryId)
    && (d.files.Some? ==>
      && d.files.value != [] && WithinLimits(d.files.value) && DistinctPaths(d.files.value)
      && TotalBytes(d.files.value) <= MAX_TOTAL
      && forall f :: f in d.files.value && f.path == YAML_PATH ==> f.contents == d.yaml)
  }

  /** The tables agree with each other. */
  predicate TablesInv(db: Database) {
    && (forall i, j :: 0 <= i < j < |db.definitions| ==> db.definitions[i].definitionId != db.definitions[j].definitionId)
    && (forall i :: 0 <= i < |db.definitions| ==> Coherent(db.definitions[i]))
    && (forall i :: 0 <= i < |db.versions| ==> NamesDefinition(db, db.versions[i]))
    && (forall i, j :: 0 <= i < j < |db.versions| ==>
      !(db.versions[i].factoryId == db.versions[j].factoryId && db.versions[i].version == db.versions[j].version))
    && (forall id :: id in db.factories && db.factories[id].digest.Some? ==> Defined(db, id, db.factories[id].digest.value))
  }

  /** What a call between its first and its last step knows of the tables. */
  predicate CallInv(c: Compiler, db: Database, call: Call) {
    && Fits(call)
    && (call.pc != ReadFactory && !Finished(call) ==>
      Validate(c, call.input, call.owner) == Ok(call.compiled)
      && (call.owner.Some? ==> Owner(db, call.input.factoryId) == call.owner))
    && (call.pc == InsertVersion ==> NamesDefinition(db, VersionOf(call, 0)))
    && ((call.pc == ReplaceAutomations || call.pc == UpsertFactory) && call.compiled.Some? ==>
      Defined(db, call.input.factoryId, call.compiled.value.digest))
    && (call.pc.Returned? ==>
      && call.input.factoryId in db.factories
      && (call.owner.Some? ==> db.factories[call.input.factoryId].organizationId == call.input.organizationId)
      && (call.pc.digest.Some? ==> db.factories[call.input.factoryId].digest.Some?))
  }

  predicate Inv(c: Compiler, w: World) {
    TablesInv(w.db) && forall i :: 0 <= i < |w.calls| ==> CallInv(c, w.db, w.calls[i])
  }

  /** What no later step takes back. */
  predicate Extends(db: Database, db': Database) {
    && db.definitions <= db'.definitions && db.versions <= db'.versions
    && (forall id :: id in db.factories ==>
      && id in db'.factories && db'.factories[id].organizationId == db.factories[id].organizationId
      && (db.factories[id].digest.Some? ==> db'.factories[id].digest.Some?))
  }

  /** What is compiled is coherent once it is stored. */
  lemma CompiledIsCoherent(c: Compiler, call: Call, uuid: Text)
    requires Validate(c, call.input, call.owner) == Ok(call.compiled) && call.compiled.Some?
    ensures Coherent(DefinitionOf(call, uuid))
  {
    hide WithinLimits, DistinctPaths, Identifier, TotalBytes;
    var input := call.input;
    var yaml := input.yaml.value;
    var files := if input.files.None? then None else Some(Normalized(input.files.value));
    assert Compile(c, yaml, files) == Ok(call.compiled.value);
    Utf8Length(yaml);
    var stored := call.compiled.value.files;
    if stored.Some? {
      assert stored == files;
      forall f | f in stored.value && f.path == YAML_PATH ensures f.contents == yaml {
        PathUnique(stored.value, f);
      }
    }
  }
}
