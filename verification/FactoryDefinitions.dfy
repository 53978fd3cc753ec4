/**
 What `putFactory` accepts and compiles. The order of the checks is the source's: the first
 one that fails names the error.
 */
module FactoryDefinitions {
  import opened Sequences
  import opened Unicode
  import opened Json

  datatype File = File(path: Text, contents: Text)

  /** One call of `putFactory`; `now` is its time stamp, which the table orders definitions by. */
  datatype Input = Input(
    factoryId: Text, organizationId: Text, name: Text, yaml: Option<Text>, files: Option<seq<File>>, now: int)

  datatype Error =
    | InvalidId | InvalidName | ForeignFactory | InvalidYaml | FileLimits | DuplicatePaths | UnsoundTree | TotalLimit
    | Credentials | Unparsable | YamlMismatch | TreeRejected | InvalidDefinition | VersionTaken

  /** The services of `packages/factory`, of which nothing is assumed beyond being functions. */
  datatype Compiler = Compiler(
    sound: seq<File> -> bool,
    credentials: (Option<Text>, Option<seq<File>>) -> bool,
    parse: Text -> Option<Json>,
    applyTree: (Json, seq<File>) -> Option<Json>,
    valid: Json -> bool,
    digest: Json -> Text,
    automations: Json -> Json)

  const YAML_PATH: Text := ".tinkerbot/factory.yaml"
  const MAX_CONTENT := 512_000
  const MAX_FILES := 128
  const MAX_TOTAL := 4_000_000

  predicate Alphanumeric(c: char) { '0' <= c <= '9' || 'a' <= c <= 'z' || 'A' <= c <= 'Z' }

  /** `/^[A-Za-z0-9][<also>A-Za-z0-9]{0,most - 1}$/` */
  predicate Identifier(s: Text, also: string, most: nat) {
    1 <= |s| <= most && Alphanumeric(s[0]) && forall i :: 0 < i < |s| ==> Alphanumeric(s[i]) || s[i] in also
  }

  predicate GoodId(id: Text) { Identifier(id, "._:-", 192) }

  predicate GoodName(name: Text) { Identifier(Trimmed(name), " ._:-", 200) }

  function Slash(u: Unit): Unit { if u == '\\' then '/' else u }

  /** `path.replaceAll("\\", "/")`. */
  function Slashed(path: Text): (p: Text)
    ensures |p| == |path|
  {
    seq(|path|, i requires 0 <= i < |path| => Slash(path[i]))
  }

  function Normalized(files: seq<File>): (fs: seq<File>)
    ensures |fs| == |files|
    ensures forall i :: 0 <= i < |fs| ==> fs[i] == files[i].(path := Slashed(files[i].path))
  {
    seq(|files|, i requires 0 <= i < |files| => files[i].(path := Slashed(files[i].path)))
  }

  predicate GoodPath(path: Text) {
    && 1 <= |path| <= 512 && |Utf8(path)| <= 2_048
    && '\0' !in path && path[0] != '/' && ".." !in SplitOn(path, '/')
  }

  predicate WithinLimits(files: seq<File>) {
    |files| <= MAX_FILES && forall f :: f in files ==> GoodPath(f.path) && |Utf8(f.contents)| <= MAX_CONTENT
  }

  predicate DistinctPaths(files: seq<File>) {
    forall i, j :: 0 <= i < j < |files| ==> files[i].path != files[j].path
  }

  function TotalBytes(files: seq<File>): nat {
    if files == [] then 0 else |Utf8(files[0].contents)| + TotalBytes(files[1..])
  }

  /** `files.find((file) => file.path === path)`. */
  function FindFile(files: seq<File>, path: Text): (f: Option<File>)
    ensures f.Some? ==> f.value in files && f.value.path == path
    ensures f.None? <==> forall g :: g in files ==> g.path != path
  {
    if files == [] then None
    else if files[0].path == path then Some(files[0])
    else FindFile(files[1..], path)
  }

  /** What a call stores once its YAML is compiled. */
  datatype Compiled = Compiled(yaml: Text, files: Option<seq<File>>, digest: Text, automations: Json)

  /** Lines 50-56: the limits on the YAML and on the files. */
  function CheckContents(c: Compiler, input: Input, files: Option<seq<File>>): Option<Error> {
    if input.yaml.Some? && (input.yaml.value == [] || |Utf8(input.yaml.value)| > MAX_CONTENT) then Some(InvalidYaml)
    else if files.Some? && !WithinLimits(files.value) then Some(FileLimits)
    else if files.Some? && !DistinctPaths(files.value) then Some(DuplicatePaths)
    else if files.Some? && !c.sound(files.value) then Some(UnsoundTree)
    else if files.Some? && TotalBytes(files.value) > MAX_TOTAL then Some(TotalLimit)
    else if (input.yaml.Some? || files.Some?) && c.credentials(input.yaml, files) then Some(Credentials)
    else None
  }

  /** Lines 58-64: the definition the YAML and the files describe. */
  function Compile(c: Compiler, yaml: Text, files: Option<seq<File>>): Result<Compiled, Error> {
    match c.parse(yaml)
    case None => Err(Unparsable)
    case Some(parsed) =>
      var stated := if files.None? then None else FindFile(files.value, YAML_PATH);
      var kept := if files.Some? && files.value != [] then files else None;
      if stated.Some? && stated.value.contents != yaml then Err(YamlMismatch)
      else
        match if kept.Some? then c.applyTree(parsed, kept.value) else Some(parsed)
        case None => Err(TreeRejected)
        case Some(definition) =>
          if !c.valid(definition) then Err(InvalidDefinition)
          else Ok(Compiled(yaml, kept, c.digest(definition), c.automations(definition)))
  }

  /** Everything before the first write; `owner` is the organisation of the factory row the call read, if any. */
  function Validate(c: Compiler, input: Input, owner: Option<Text>): Result<Option<Compiled>, Error> {
    var files := if input.files.None? then None else Some(Normalized(input.files.value));
    if !GoodId(input.factoryId) then Err(InvalidId)
    else if !GoodName(input.name) then Err(InvalidName)
    else if owner.Some? && owner.value != input.organizationId then Err(ForeignFactory)
    else
      match CheckContents(c, input, files)
      case Some(error) => Err(error)
      case None =>
        if input.yaml.None? then Ok(None)
        else
          match Compile(c, input.yaml.value, files)
          case Err(error) => Err(error)
          case Ok(compiled) => Ok(Some(compiled))
  }

  /** The octet limit on paths rejects nothing that the unit limit accepts. */
  lemma OctetLimitIdle(path: Text)
    requires |path| <= 512
    ensures |Utf8(path)| <= 1_536
  {
    Utf8Length(path);
  }

  /** Following the segments of a path one by one, `depth` levels below the root, never climbs above it. */
  predicate StaysInside(segments: seq<Text>, depth: nat) {
    segments == []
    || (if segments[0] == ".." then depth > 0 && StaysInside(segments[1..], depth - 1)
        else StaysInside(segments[1..], if segments[0] == "." || segments[0] == "" then depth else depth + 1))
  }

  lemma {:induction false} NoParentStaysInside(segments: seq<Text>, depth: nat)
    requires ".." !in segments
    ensures StaysInside(segments, depth)
  {
    if segments != [] {
      NoParentStaysInside(segments[1..], if segments[0] == "." || segments[0] == "" then depth else depth + 1);
    }
  }

  /** The segments of a path whose reader takes both kinds of slash for separators. */
  function SegmentsAnySlash(path: Text): (pieces: seq<Text>)
    ensures |pieces| >= 1
  {
    if path == [] then [[]]
    else
      var rest := SegmentsAnySlash(path[1..]);
      if path[0] == '/' || path[0] == '\\' then [[]] + rest else [[path[0]] + rest[0]] + rest[1..]
  }

  lemma {:induction false} SlashedSegments(path: Text)
    ensures SplitOn(Slashed(path), '/') == SegmentsAnySlash(path)
  {
    if path != [] {
      SlashedSegments(path[1..]);
      assert Slashed(path)[1..] == Slashed(path[1..]);
      assert Slashed(path)[0] == Slash(path[0]);
    }
  }

  /** Accepted files lie below the root whichever slash their paths use, have distinct paths, and fit the limits. */
  lemma AcceptedFilesAreSafe(c: Compiler, input: Input, owner: Option<Text>)
    requires Validate(c, input, owner).Ok? && input.files.Some?
    ensures var files := input.files.value;
      && |files| <= MAX_FILES && TotalBytes(Normalized(files)) <= MAX_TOTAL && DistinctPaths(Normalized(files))
      && forall f :: f in files ==>
        && StaysInside(SegmentsAnySlash(f.path), 0) && f.path[..1] != "/" && f.path[..1] != "\\"
        && 1 <= |f.path| <= 512 && |Utf8(f.contents)| <= MAX_CONTENT
  {
    hide SplitOn, Utf8, Identifier, TotalBytes, StaysInside, SegmentsAnySlash, Compile;
    var files := input.files.value;
    forall i | 0 <= i < |files|
      ensures StaysInside(SegmentsAnySlash(files[i].path), 0) && files[i].path[..1] != "/" && files[i].path[..1] != "\\"
      ensures 1 <= |files[i].path| <= 512 && |Utf8(files[i].contents)| <= MAX_CONTENT
    {
      var normalized := Normalized(files)[i];
      assert normalized in Normalized(files);
      SlashedSegments(files[i].path);
      NoParentStaysInside(SplitOn(normalized.path, '/'), 0);
      assert normalized.path[0] == Slash(files[i].path[0]);
    }
  }

  /** The source's file limits without the octet limit on paths. */
  predicate WithinUnitLimits(files: seq<File>) {
    && |files| <= MAX_FILES
    && forall f :: f in files ==>
      && 1 <= |f.path| <= 512 && '\0' !in f.path && f.path[0] != '/' && ".." !in SplitOn(f.path, '/')
      && |Utf8(f.contents)| <= MAX_CONTENT
  }

  lemma OctetLimitRedundant(files: seq<File>)
    ensures WithinLimits(files) <==> WithinUnitLimits(files)
  {
    hide SplitOn, Utf8;
    forall f | f in files && |f.path| <= 512 ensures |Utf8(f.path)| <= 2_048 {
      OctetLimitIdle(f.path);
    }
  }

  /** The definition that the YAML describes, with the files applied to it if there are any. */
  function Described(c: Compiler, yaml: Text, files: seq<File>): Option<Json> {
    match c.parse(yaml)
    case None => None
    case Some(parsed) => if files == [] then Some(parsed) else c.applyTree(parsed, files)
  }

  /** The slash-normalised files of a call, none if it has none. */
  function FilesOf(input: Input): seq<File> {
    if input.files.None? then [] else Normalized(input.files.value)
  }

  /** The files either lack `.tinkerbot/factory.yaml` or repeat the YAML in it. */
  predicate Repeats(files: seq<File>, yaml: Text) {
    forall f :: f in files && f.path == ".tinkerbot/factory.yaml" ==> f.contents == yaml
  }

  /** What a call must be for its first write to happen, said of what it is given. */
  predicate Acceptable(c: Compiler, input: Input, owner: Option<Text>) {
    var id, name, files := input.factoryId, Trimmed(input.name), FilesOf(input);
    && 1 <= |id| <= 192 && Alphanumeric(id[0]) && (forall i :: 0 <= i < |id| ==> Alphanumeric(id[i]) || id[i] in "._:-")
    && 1 <= |name| <= 200 && Alphanumeric(name[0]) && (forall i :: 0 <= i < |name| ==> Alphanumeric(name[i]) || name[i] in " ._:-")
    && (owner == None || owner == Some(input.organizationId))
    && |files| <= 128 && (forall f :: f in files ==> SafePath(f.path) && |Utf8(f.contents)| <= 512_000)
    && DistinctPaths(files) && TotalBytes(files) <= 4_000_000 && (input.files.Some? ==> c.sound(files))
    && (input.yaml.Some? || input.files.Some? ==> !c.credentials(input.yaml, if input.files.None? then None else Some(files)))
    && (input.yaml.Some? ==>
      && 1 <= |Utf8(input.yaml.value)| <= 512_000 && Repeats(files, input.yaml.value)
      && Described(c, input.yaml.value, files).Some? && c.valid(Described(c, input.yaml.value, files).value))
  }

  /** A path of 1 to 512 units, relative, without NUL and without a parent segment. */
  predicate SafePath(path: Text) {
    1 <= |path| <= 512 && '\0' !in path && path[0] != '/' && ".." !in SplitOn(path, '/')
  }

  /** Compiling succeeds exactly for a definition that is described, repeated and valid, and keeps its digest and its automations. */
  lemma CompileExactly(c: Compiler, yaml: Text, files: Option<seq<File>>)
    requires files.Some? ==> DistinctPaths(files.value)
    ensures var fs := if files.None? then [] else files.value; var described := Described(c, yaml, fs);
      && (Compile(c, yaml, files).Ok? <==> Repeats(fs, yaml) && described.Some? && c.valid(described.value))
      && (Compile(c, yaml, files).Ok? ==>
        Compile(c, yaml, files).value
        == Compiled(yaml, if fs == [] then None else files, c.digest(described.value), c.automations(described.value)))
  {
    if files.Some? {
      StatedRepeats(files.value, yaml);
    }
    hide DistinctPaths, Repeats, FindFile;
    if files.None? {
      assert Repeats([], yaml) by { NothingRepeats(yaml); }
    }
  }

  lemma NothingRepeats(yaml: Text)
    ensures Repeats([], yaml)
  {}

  lemma StatedRepeats(files: seq<File>, yaml: Text)
    requires DistinctPaths(files)
    ensures Repeats(files, yaml) <==> (FindFile(files, YAML_PATH).Some? ==> FindFile(files, YAML_PATH).value.contents == yaml)
  {
    forall f | f in files && f.path == YAML_PATH ensures FindFile(files, YAML_PATH) == Some(f) {
      PathUnique(files, f);
    }
  }

  /** Where paths are distinct, a file is the one found under its path. */
  lemma {:induction false} PathUnique(files: seq<File>, f: File)
    requires DistinctPaths(files) && f in files
    ensures FindFile(files, f.path) == Some(f)
  {
    if files[0] != f {
      var i :| 0 <= i < |files| && files[i] == f;
      assert files[0].path != files[i].path;
      assert DistinctPaths(files[1..]);
      PathUnique(files[1..], f);
    }
  }

  lemma GoodIdExactly(id: Text)
    ensures GoodId(id) <==> 1 <= |id| <= 192 && Alphanumeric(id[0]) && forall i :: 0 <= i < |id| ==> Alphanumeric(id[i]) || id[i] in "._:-"
  {}

  lemma GoodNameExactly(name: Text)
    ensures var bare := Trimmed(name);
      GoodName(name) <==>
        1 <= |bare| <= 200 && Alphanumeric(bare[0]) && forall i :: 0 <= i < |bare| ==> Alphanumeric(bare[i]) || bare[i] in " ._:-"
  {
    hide Trimmed;
  }

  lemma LimitsExactly(files: seq<File>)
    ensures WithinLimits(files) <==> |files| <= 128 && forall f :: f in files ==> SafePath(f.path) && |Utf8(f.contents)| <= 512_000
  {
    OctetLimitRedundant(files);
    hide SplitOn, Utf8;
  }

  /** The contents of one file after the others: nothing is counted twice or left out. */
  lemma {:induction false} TotalBytesConcat(a: seq<File>, b: seq<File>)
    ensures TotalBytes(a + b) == TotalBytes(a) + TotalBytes(b)
    ensures forall f :: TotalBytes([f]) == |Utf8(f.contents)|
  {
    if a == [] {
      assert a + b == b;
    } else {
      TotalBytesConcat(a[1..], b);
      assert (a + b)[1..] == a[1..] + b;
    }
  }

  /** The limits on the contents alone. */
  lemma ContentsExactly(c: Compiler, input: Input)
    ensures var files := FilesOf(input); var given := if input.files.None? then None else Some(files);
      CheckContents(c, input, given).None? <==>
        && (input.yaml.Some? ==> 1 <= |Utf8(input.yaml.value)| <= 512_000)
        && (input.files.Some? ==> WithinLimits(files) && DistinctPaths(files) && c.sound(files) && TotalBytes(files) <= 4_000_000)
        && (input.yaml.Some? || input.files.Some? ==> !c.credentials(input.yaml, given))
  {
    if input.yaml.Some? {
      Utf8Length(input.yaml.value);
    }
    hide WithinLimits, DistinctPaths, TotalBytes, Utf8, Normalized;
  }

  /** Being acceptable is passing the checks one by one. */
  lemma AcceptableSplit(c: Compiler, input: Input, owner: Option<Text>)
    ensures var files := FilesOf(input); var given := if input.files.None? then None else Some(files);
      Acceptable(c, input, owner) <==>
        && GoodId(input.factoryId) && GoodName(input.name) && (owner == None || owner == Some(input.organizationId))
        && CheckContents(c, input, given) == None
        && (input.yaml.Some? ==>
          && Repeats(files, input.yaml.value)
          && Described(c, input.yaml.value, files).Some? && c.valid(Described(c, input.yaml.value, files).value))
  {
    GoodIdExactly(input.factoryId);
    GoodNameExactly(input.name);
    ContentsExactly(c, input);
    LimitsExactly(FilesOf(input));
    NoFiles();
    hide GoodId, GoodName, CheckContents, WithinLimits, DistinctPaths, TotalBytes, Utf8, Normalized, Trimmed, Described, Repeats, SafePath, Alphanumeric;
  }

  /** The cascade of checks accepts exactly the acceptable calls, and what it compiles of them is what they describe. */
  lemma ValidateExact(c: Compiler, input: Input, owner: Option<Text>)
    ensures Validate(c, input, owner).Ok? <==> Acceptable(c, input, owner)
    ensures Validate(c, input, owner).Ok? ==>
      Validate(c, input, owner).value == if input.yaml.None? then None else Some(CompiledAs(c, input))
  {
    var files := FilesOf(input);
    var given := if input.files.None? then None else Some(files);
    hide Acceptable, GoodId, GoodName, CheckContents, Compile, WithinLimits, DistinctPaths, TotalBytes, Utf8, Normalized, Described, Repeats;
    AcceptableSplit(c, input, owner);
    ContentsExactly(c, input);
    NoFiles();
    if input.yaml.Some? && DistinctPaths(files) {
      CompileExactly(c, input.yaml.value, given);
    }
  }

  lemma NoFiles()
    ensures DistinctPaths([]) && TotalBytes([]) == 0 && WithinLimits([])
  {}

  /** What a call that is accepted with YAML stores. */
  function CompiledAs(c: Compiler, input: Input): Compiled
    requires input.yaml.Some?
  {
    var files := FilesOf(input);
    var definition := Described(c, input.yaml.value, files);
    Compiled(
      input.yaml.value, if files == [] then None else Some(files),
      if definition.Some? then c.digest(definition.value) else "",
      if definition.Some? then c.automations(definition.value) else Null)
  }

  /** The order in which the checks complain. */
  function Place(error: Error): nat {
    match error
    case InvalidId => 0 case InvalidName => 1 case ForeignFactory => 2 case InvalidYaml => 3 case FileLimits => 4
    case DuplicatePaths => 5 case UnsoundTree => 6 case TotalLimit => 7 case Credentials => 8 case Unparsable => 9
    case YamlMismatch => 10 case TreeRejected => 11 case InvalidDefinition => 12 case VersionTaken => 13
  }

  /** What each complaint is about, taken by itself. */
  predicate Complains(c: Compiler, input: Input, owner: Option<Text>, error: Error) {
    var files, yaml := FilesOf(input), input.yaml;
    match error
    case InvalidId => !GoodId(input.factoryId)
    case InvalidName => !GoodName(input.name)
    case ForeignFactory => owner != None && owner != Some(input.organizationId)
    case InvalidYaml => yaml.Some? && !(1 <= |Utf8(yaml.value)| <= 512_000)
    case FileLimits => !WithinLimits(files)
    case DuplicatePaths => !DistinctPaths(files)
    case UnsoundTree => input.files.Some? && !c.sound(files)
    case TotalLimit => TotalBytes(files) > 4_000_000
    case Credentials => (yaml.Some? || input.files.Some?) && c.credentials(yaml, if input.files.None? then None else Some(files))
    case Unparsable => yaml.Some? && c.parse(yaml.value).None?
    case YamlMismatch => yaml.Some? && !Repeats(files, yaml.value)
    case TreeRejected => yaml.Some? && c.parse(yaml.value).Some? && Described(c, yaml.value, files).None?
    case InvalidDefinition => yaml.Some? && Described(c, yaml.value, files).Some? && !c.valid(Described(c, yaml.value, files).value)
    case VersionTaken => false
  }

  /** No complaint of a lower place applies. */
  ghost predicate Clear(c: Compiler, input: Input, owner: Option<Text>, place: nat) {
    forall e: Error :: Place(e) < place ==> !Complains(c, input, owner, e)
  }

  /** The complaint applies, and none that comes before it does. */
  ghost predicate FirstComplaint(c: Compiler, input: Input, owner: Option<Text>, error: Error) {
    Complains(c, input, owner, error) && Clear(c, input, owner, Place(error))
  }

  lemma ClearNext(c: Compiler, input: Input, owner: Option<Text>, error: Error)
    requires Clear(c, input, owner, Place(error)) && !Complains(c, input, owner, error)
    ensures Clear(c, input, owner, Place(error) + 1)
  {
    hide Complains;
    forall e: Error | Place(e) < Place(error) + 1 ensures !Complains(c, input, owner, e) {
      if Place(e) == Place(error) {
        PlaceInjective(e, error);
      }
    }
  }

  lemma PlaceInjective(a: Error, b: Error)
    requires Place(a) == Place(b)
    ensures a == b
  {}

  /** Going through the complaints in order, one finds the first that applies, if any does. */
  lemma SomeFirst(c: Compiler, input: Input, owner: Option<Text>, errors: seq<Error>, k: nat) returns (n: nat)
    requires k <= |errors| && Clear(c, input, owner, k) && forall i :: 0 <= i < |errors| ==> Place(errors[i]) == i
    ensures k <= n <= |errors| && Clear(c, input, owner, n)
    ensures n < |errors| ==> Complains(c, input, owner, errors[n])
    decreases |errors| - k
  {
    hide Complains, Clear;
    if k == |errors| || Complains(c, input, owner, errors[k]) {
      n := k;
    } else {
      ClearNext(c, input, owner, errors[k]);
      n := SomeFirst(c, input, owner, errors, k + 1);
    }
  }

  /** The complaints one by one; only the third looks at the owner. */
  lemma ComplaintsSpelled(c: Compiler, input: Input, owner: Option<Text>)
    ensures Complains(c, input, owner, InvalidId) <==> !GoodId(input.factoryId)
    ensures Complains(c, input, owner, InvalidName) <==> !GoodName(input.name)
    ensures Complains(c, input, owner, ForeignFactory) <==> owner.Some? && owner.value != input.organizationId
    ensures forall e: Error :: e != ForeignFactory ==> (Complains(c, input, owner, e) <==> Complains(c, input, None, e))
  {
    hide GoodId, GoodName, WithinLimits, DistinctPaths, TotalBytes, Utf8, Described, Repeats;
  }

  lemma ContentsSpelled(c: Compiler, input: Input)
    ensures var files := FilesOf(input);
      && (Complains(c, input, None, InvalidYaml) <==>
            input.yaml.Some? && (input.yaml.value == [] || |Utf8(input.yaml.value)| > MAX_CONTENT))
      && (Complains(c, input, None, FileLimits) <==> input.files.Some? && !WithinLimits(files))
      && (Complains(c, input, None, DuplicatePaths) <==> input.files.Some? && !DistinctPaths(files))
      && (Complains(c, input, None, UnsoundTree) <==> input.files.Some? && !c.sound(files))
      && (Complains(c, input, None, TotalLimit) <==> input.files.Some? && TotalBytes(files) > MAX_TOTAL)
  {
    if input.yaml.Some? {
      Utf8Length(input.yaml.value);
    }
    NoFiles();
    hide WithinLimits, DistinctPaths, TotalBytes, Utf8, Normalized;
  }

  /** Which complaint the contents of a call draw. */
  lemma ContentsComplaint(c: Compiler, input: Input)
    ensures var files := if input.files.None? then None else Some(FilesOf(input));
      CheckContents(c, input, files) ==
        if Complains(c, input, None, InvalidYaml) then Some(InvalidYaml)
        else if Complains(c, input, None, FileLimits) then Some(FileLimits)
        else if Complains(c, input, None, DuplicatePaths) then Some(DuplicatePaths)
        else if Complains(c, input, None, UnsoundTree) then Some(UnsoundTree)
        else if Complains(c, input, None, TotalLimit) then Some(TotalLimit)
        else if Complains(c, input, None, Credentials) then Some(Credentials)
        else None
  {
    ContentsSpelled(c, input);
    var files := if input.files.None? then None else Some(FilesOf(input));
    assert Complains(c, input, None, Credentials) <==> (input.yaml.Some? || input.files.Some?) && c.credentials(input.yaml, files);
    hide Complains, WithinLimits, DistinctPaths, TotalBytes, Utf8, FilesOf;
  }

  /** Which complaint the definition draws. */
  lemma CompileComplaint(c: Compiler, input: Input)
    requires input.yaml.Some? && DistinctPaths(FilesOf(input))
    ensures var files := if input.files.None? then None else Some(FilesOf(input)); var outcome := Compile(c, input.yaml.value, files);
      if Complains(c, input, None, Unparsable) then outcome == Err(Unparsable)
      else if Complains(c, input, None, YamlMismatch) then outcome == Err(YamlMismatch)
      else if Complains(c, input, None, TreeRejected) then outcome == Err(TreeRejected)
      else if Complains(c, input, None, InvalidDefinition) then outcome == Err(InvalidDefinition)
      else outcome.Ok?
  {
    StatedRepeats(FilesOf(input), input.yaml.value);
    NothingRepeats(input.yaml.value);
    hide Repeats, FindFile, DistinctPaths, Normalized, GoodId, GoodName, WithinLimits, TotalBytes, Utf8;
  }

  lemma ClearSpelled(c: Compiler, input: Input, owner: Option<Text>, place: nat)
    requires Clear(c, input, owner, place)
    ensures place > 0 ==> !Complains(c, input, owner, InvalidId)
    ensures place > 1 ==> !Complains(c, input, owner, InvalidName)
    ensures place > 2 ==> !Complains(c, input, owner, ForeignFactory)
    ensures place > 3 ==> !Complains(c, input, owner, InvalidYaml)
    ensures place > 4 ==> !Complains(c, input, owner, FileLimits)
    ensures place > 5 ==> !Complains(c, input, owner, DuplicatePaths)
    ensures place > 6 ==> !Complains(c, input, owner, UnsoundTree)
    ensures place > 7 ==> !Complains(c, input, owner, TotalLimit)
    ensures place > 8 ==> !Complains(c, input, owner, Credentials)
    ensures place > 9 ==> !Complains(c, input, owner, Unparsable)
    ensures place > 10 ==> !Complains(c, input, owner, YamlMismatch)
    ensures place > 11 ==> !Complains(c, input, owner, TreeRejected)
    ensures place > 12 ==> !Complains(c, input, owner, InvalidDefinition)
  {
    hide Complains;
    assert Place(InvalidId) == 0;
    assert Place(InvalidName) == 1;
    assert Place(ForeignFactory) == 2;
    assert Place(InvalidYaml) == 3;
    assert Place(FileLimits) == 4;
    assert Place(DuplicatePaths) == 5;
    assert Place(UnsoundTree) == 6;
    assert Place(TotalLimit) == 7;
    assert Place(Credentials) == 8;
    assert Place(Unparsable) == 9;
    assert Place(YamlMismatch) == 10;
    assert Place(TreeRejected) == 11;
    assert Place(InvalidDefinition) == 12;
  }

  /** The checks of a call, told by the complaints. */
  lemma ValidateSpelled(c: Compiler, input: Input, owner: Option<Text>)
    ensures
      var outcome := Validate(c, input, owner);
      if Complains(c, input, owner, InvalidId) then outcome == Err(InvalidId)
      else if Complains(c, input, owner, InvalidName) then outcome == Err(InvalidName)
      else if Complains(c, input, owner, ForeignFactory) then outcome == Err(ForeignFactory)
      else if Complains(c, input, owner, InvalidYaml) then outcome == Err(InvalidYaml)
      else if Complains(c, input, owner, FileLimits) then outcome == Err(FileLimits)
      else if Complains(c, input, owner, DuplicatePaths) then outcome == Err(DuplicatePaths)
      else if Complains(c, input, owner, UnsoundTree) then outcome == Err(UnsoundTree)
      else if Complains(c, input, owner, TotalLimit) then outcome == Err(TotalLimit)
      else if Complains(c, input, owner, Credentials) then outcome == Err(Credentials)
      else if Complains(c, input, owner, Unparsable) then outcome == Err(Unparsable)
      else if Complains(c, input, owner, YamlMismatch) then outcome == Err(YamlMismatch)
      else if Complains(c, input, owner, TreeRejected) then outcome == Err(TreeRejected)
      else if Complains(c, input, owner, InvalidDefinition) then outcome == Err(InvalidDefinition)
      else outcome.Ok?
  {
    ComplaintsSpelled(c, input, owner);
    ContentsComplaint(c, input);
    DuplicatesComplain(c, input);
    if input.yaml.Some? && DistinctPaths(FilesOf(input)) {
      CompileComplaint(c, input);
    }
    NoYamlNoComplaint(c, input);
    hide Complains, CheckContents, Compile, GoodId, GoodName, DistinctPaths;
  }

  /** The complaint that the checks make first is the first that applies. */
  lemma FirstIsMade(c: Compiler, input: Input, owner: Option<Text>, error: Error)
    requires FirstComplaint(c, input, owner, error)
    ensures Validate(c, input, owner) == Err(error)
  {
    ValidateSpelled(c, input, owner);
    NoYamlNoComplaint(c, input);
    ComplaintsSpelled(c, input, owner);
    ClearSpelled(c, input, owner, Place(error));
    hide Clear, Complains, Validate;
  }

  const COMPLAINTS := [
    InvalidId, InvalidName, ForeignFactory, InvalidYaml, FileLimits, DuplicatePaths, UnsoundTree, TotalLimit, Credentials,
    Unparsable, YamlMismatch, TreeRejected, InvalidDefinition]

  lemma UncomplainedAccepted(c: Compiler, input: Input, owner: Option<Text>)
    requires forall e: Error :: !Complains(c, input, owner, e)
    ensures Validate(c, input, owner).Ok?
  {
    ValidateSpelled(c, input, owner);
    hide Complains, Validate;
  }

  /** A call is rejected with a complaint exactly when that is the first that applies to it. */
  lemma ValidateNamesFirst(c: Compiler, input: Input, owner: Option<Text>, error: Error)
    ensures Validate(c, input, owner) == Err(error) <==> FirstComplaint(c, input, owner, error)
  {
    hide Validate, Complains;
    if FirstComplaint(c, input, owner, error) {
      FirstIsMade(c, input, owner, error);
    }
    if Validate(c, input, owner) == Err(error) {
      var n := SomeFirst(c, input, owner, COMPLAINTS, 0);
      if n < |COMPLAINTS| {
        FirstIsMade(c, input, owner, COMPLAINTS[n]);
      } else {
        forall e: Error ensures !Complains(c, input, owner, e) {
          NoYamlNoComplaint(c, input);
          ComplaintsSpelled(c, input, owner);
        }
        UncomplainedAccepted(c, input, owner);
      }
    }
  }

  lemma DuplicatesComplain(c: Compiler, input: Input)
    ensures Complains(c, input, None, DuplicatePaths) <==> !DistinctPaths(FilesOf(input))
  {
    hide DistinctPaths, FilesOf;
  }

  lemma NoYamlNoComplaint(c: Compiler, input: Input)
    ensures input.yaml.None? ==> forall e: Error :: Complains(c, input, None, e) ==> Place(e) < 9
    ensures !Complains(c, input, None, VersionTaken)
  {
    hide GoodId, GoodName, WithinLimits, DistinctPaths, TotalBytes, Utf8, Described, Repeats;
  }

  function Spaces(n: nat): (s: Text)
    ensures |s| == n
  {
    if n == 0 then "" else " " + Spaces(n - 1)
  }

  lemma {:induction false} TrimFront(n: nat)
    ensures Trimmed(Spaces(n) + "a") == "a"
  {
    if n > 0 {
      TrimFront(n - 1);
      assert (Spaces(n) + "a")[1..] == Spaces(n - 1) + "a";
    }
  }
}
