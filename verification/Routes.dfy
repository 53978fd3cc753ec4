/** The routes of the control-plane UI: printing a location, moving an old `/app` location, and reading one. */
module Routes {
  import opened Sequences
  import opened Unicode
  import opened Percent

  datatype Route =
    | Root(alias: bool)
    | Factory(factoryId: Text, area: Text, entityId: Text, alias: bool, parentPath: Text)
    | Workspace(resource: Text, entityId: Text, alias: bool, parentPath: Text)
    | Settings(area: Text, alias: bool, parentPath: Text)
    | Login
    | Marketing(page: Text)

  function NonEmpty(pieces: seq<Text>): (kept: seq<Text>)
    ensures [] !in kept
  {
    if pieces == [] then []
    else (if pieces[0] == [] then [] else [pieces[0]]) + NonEmpty(pieces[1..])
  }

  /** `map(decodeURIComponent)`, which throws if it throws on one of them. */
  function DecodeAll(pieces: seq<Text>): (parts: Option<seq<Text>>)
    ensures parts.Some? ==> |parts.value| == |pieces|
  {
    if pieces == [] then Some([])
    else if Decode(pieces[0]).None? || DecodeAll(pieces[1..]).None? then None
    else Some([Decode(pieces[0]).value] + DecodeAll(pieces[1..]).value)
  }

  function EncodeAll(parts: seq<Text>): (pieces: Option<seq<Text>>)
    ensures pieces.Some? ==> |pieces.value| == |parts|
  {
    if parts == [] then Some([])
    else if Encode(parts[0]).None? || EncodeAll(parts[1..]).None? then None
    else Some([Encode(parts[0]).value] + EncodeAll(parts[1..]).value)
  }

  /** `segments`. */
  function Segments(path: Text): Option<seq<Text>> {
    DecodeAll(NonEmpty(SplitOn<Unit>(path, '/')))
  }

  /** A slash before each piece. */
  function Path(pieces: seq<Text>): Text {
    Join<Unit>([[]] + pieces, "/")
  }

  /** `search ? "?" + search : ""`. */
  function Query(search: Text): Text {
    if search == [] then [] else "?" + search
  }

  const FACTORIES: Text := "factories"
  const RESOURCES: set<Text> := {"runs", "environments", "integrations", "secrets"}

  /** `factoryHref`; nothing when encoding throws. */
  function FactoryHref(id: Text, area: Text, entityId: Text): Option<Text> {
    match Encode(id)
    case None => None
    case Some(pieceOfId) =>
      if area == [] then Some("/factories/" + pieceOfId)
      else if entityId == [] then Some("/factories/" + pieceOfId + "/" + area)
      else
        match Encode(entityId)
        case None => None
        case Some(pieceOfEntity) => Some("/factories/" + pieceOfId + "/" + area + "/" + pieceOfEntity)
  }

  /** `workspaceHref`. */
  function WorkspaceHref(resource: Text, entityId: Text): Option<Text> {
    if entityId == [] then Some("/" + resource)
    else match Encode(entityId) case None => None case Some(piece) => Some("/" + resource + "/" + piece)
  }

  /** The part of a location before its query, and the query up to a second question mark. */
  function PathOf(location: Text): Text { SplitOn<Unit>(location, '?')[0] }

  function SearchOf(location: Text): Text {
    var pieces := SplitOn<Unit>(location, '?');
    if |pieces| > 1 then pieces[1] else []
  }

  predicate IsAlias(parts: seq<Text>) { parts != [] && parts[0] == "app" }

  predicate IsRootAlias(parts: seq<Text>) { IsAlias(parts) && (|parts| == 1 || parts[1] == "overview") }

  /** Where `canonicalPath` moves a path that has these segments, `current` being the selected factory. */
  function MovedTo(current: Text, pathname: Text, parts: seq<Text>): Option<Text> {
    if !IsAlias(parts) then Some(pathname)
    else if IsRootAlias(parts) then Some("/")
    else if parts[1] == "work" || parts[1] == "work-orders" then
      FactoryHref(current, "work-orders", if |parts| == 2 then [] else parts[2])
    else if parts[1] == FACTORIES then
      if |parts| == 2 then Some("/factories")
      else match EncodeAll(parts[2..]) case None => None case Some(pieces) => Some("/factories" + Path(pieces))
    else if parts[1] == "usage" then Some("/settings/usage")
    else if parts[1] in RESOURCES || parts[1] == "settings" then
      match EncodeAll(parts[1..]) case None => None case Some(pieces) => Some(Path(pieces))
    else Some(pathname)
  }

  /** `canonicalPath`; nothing when decoding or encoding throws. */
  function CanonicalPath(current: Text, location: Text): Option<Text> {
    match Segments(PathOf(location))
    case None => None
    case Some(parts) =>
      match MovedTo(current, PathOf(location), parts)
      case None => None
      case Some(pathname) => Some(pathname + Query(SearchOf(location)))
  }

  /** What a canonical location stands for. */
  function Classify(canonical: Text, parts: seq<Text>, rootAlias: bool, alias: bool): Option<Route> {
    if canonical == "/" || rootAlias then Some(Root(alias))
    else if parts == [] then Some(Marketing("home"))
    else if parts[0] == FACTORIES && |parts| > 1 then
      var area := if |parts| > 2 then parts[2] else "dashboard";
      match FactoryHref(parts[1], area, [])
      case None => None
      case Some(parent) => Some(Factory(parts[1], area, if |parts| > 3 then parts[3] else [], alias, parent))
    else if parts[0] == FACTORIES then Some(Workspace(FACTORIES, [], alias, "/factories"))
    else if parts[0] in RESOURCES then
      Some(Workspace(parts[0], if |parts| > 1 then parts[1] else [], alias, "/" + parts[0]))
    else if parts[0] == "settings" then Some(Settings(if |parts| > 1 then parts[1] else "profile", alias, "/settings/profile"))
    else if parts[0] == "login" then Some(Login)
    else Some(Marketing(parts[0]))
  }

  /** `routeInfo` at a location of the browser. */
  function RouteInfo(current: Text, pathname: Text, search: Text): Option<Route> {
    var rawPath := if pathname == [] then "/" else pathname;
    match (Segments(rawPath), CanonicalPath(current, rawPath + search))
    case (Some(rawParts), Some(canonical)) =>
      (match Segments(PathOf(canonical))
       case None => None
       case Some(parts) => Classify(canonical, parts, IsRootAlias(rawParts), IsAlias(rawParts)))
    case _ => None
  }

  /** Nothing in a piece separates. */
  predicate Plain(pieces: seq<Text>) {
    forall piece :: piece in pieces ==> '/' !in piece && '?' !in piece
  }

  /** The pieces of a path are read back from it, the empty ones left out. */
  lemma PathPieces(pieces: seq<Text>)
    requires Plain(pieces)
    ensures NonEmpty(SplitOn<Unit>(Path(pieces), '/')) == NonEmpty(pieces)
    ensures '?' !in Path(pieces)
  {
    var all: seq<Text> := [[]] + pieces;
    SplitOnJoin<Unit>(all, '/');
    assert all[1..] == pieces;
    assert NonEmpty(all) == NonEmpty(pieces);
    JoinWithout(all, "/", '?');
  }

  lemma {:induction false} JoinWithout(pieces: seq<Text>, glue: Text, u: Unit)
    requires u !in glue && forall piece :: piece in pieces ==> u !in piece
    ensures u !in Join(pieces, glue)
  {
    if |pieces| > 1 {
      JoinWithout(pieces[1..], glue, u);
    }
  }

  lemma {:induction false} DecodeEncodeAll(parts: seq<Text>)
    requires EncodeAll(parts).Some?
    ensures Plain(EncodeAll(parts).value)
    ensures DecodeAll(NonEmpty(EncodeAll(parts).value)) == Some(NonEmpty(parts))
  {
    if parts != [] {
      DecodeEncodeAll(parts[1..]);
      var piece, rest := Encode(parts[0]).value, EncodeAll(parts[1..]).value;
      EncodeClean(parts[0]);
      CleanHasNoSeparator(piece);
      DecodeEncoded(parts[0]);
      hide Encode, Decode, Clean, Unreserved;
      assert ([piece] + rest)[1..] == rest;
      if piece != [] {
        assert ([piece] + NonEmpty(rest))[1..] == NonEmpty(rest);
      } else {
        assert NonEmpty([piece] + rest) == NonEmpty(rest) && NonEmpty(parts) == NonEmpty(parts[1..]);
      }
    }
  }

  /** `path` is what printing these parts gives. */
  predicate Prints(path: Text, parts: seq<Text>) {
    EncodeAll(parts).Some? && path == Path(EncodeAll(parts).value)
  }

  /** Reading the segments of a printed path gives its parts back. */
  lemma SegmentsOfPrinted(path: Text, parts: seq<Text>)
    requires Prints(path, parts)
    ensures Segments(path) == Some(NonEmpty(parts)) && '?' !in path
  {
    DecodeEncodeAll(parts);
    PathPieces(EncodeAll(parts).value);
  }

  /** Printing one more part in front. */
  lemma PrintsCons(part: Text, path: Text, parts: seq<Text>)
    requires Encode(part).Some? && Prints(path, parts)
    ensures Prints("/" + Encode(part).value + path, [part] + parts)
  {
    var piece, pieces := Encode(part).value, EncodeAll(parts).value;
    assert ([part] + parts)[1..] == parts;
    assert EncodeAll([part] + parts) == Some([piece] + pieces);
    PathCons(piece, pieces);
  }

  lemma PathCons(piece: Text, pieces: seq<Text>)
    ensures Path([piece] + pieces) == "/" + piece + Path(pieces)
  {
    var all: seq<Text> := [[]] + ([piece] + pieces);
    assert all[1..] == [piece] + pieces;
    var whole, rest: seq<Text> := [piece] + pieces, [[]] + pieces;
    assert Path([piece] + pieces) == "/" + Join<Unit>(whole, "/");
    if pieces != [] {
      assert whole[1..] == pieces && rest[1..] == pieces;
      assert Join<Unit>(whole, "/") == piece + "/" + Join<Unit>(pieces, "/");
      assert Path(pieces) == "/" + Join<Unit>(pieces, "/");
    } else {
      assert Path(pieces) == [];
    }
  }

  lemma PrintsNothing()
    ensures Prints([], [])
  {}

  predicate Word(s: Text) {
    forall i :: 0 <= i < |s| ==> Unreserved(s[i])
  }

  /** Printing one more part in front that needs no encoding. */
  lemma PrintsWord(word: Text, path: Text, parts: seq<Text>)
    requires Word(word) && Prints(path, parts)
    ensures Prints("/" + word + path, [word] + parts)
  {
    UnreservedUnchanged(word);
    PrintsCons(word, path, parts);
  }

  /** The parts of a factory's location. */
  function FactoryParts(id: Text, area: Text, entityId: Text): seq<Text> {
    if area == [] then [FACTORIES, id] else if entityId == [] then [FACTORIES, id, area] else [FACTORIES, id, area, entityId]
  }

  /** What follows the identifier in a factory's location. */
  function Tail(area: Text, entityId: Text): Text
    requires area != [] && entityId != [] ==> Encode(entityId).Some?
  {
    if area == [] then [] else if entityId == [] then "/" + area else "/" + area + "/" + Encode(entityId).value
  }

  lemma PrintsTail(area: Text, entityId: Text)
    requires area != [] && entityId != [] ==> Encode(entityId).Some?
    requires Word(area)
    ensures Prints(Tail(area, entityId), FactoryParts([], area, entityId)[2..])
  {
    hide Prints, Encode, Word;
    PrintsNothing();
    if area != [] {
      if entityId == [] {
        PrintsWord(area, [], []);
        assert [area] + [] == FactoryParts([], area, entityId)[2..];
        assert "/" + area + [] == Tail(area, entityId);
      } else {
        var last := "/" + Encode(entityId).value;
        PrintsCons(entityId, [], []);
        assert last + [] == last && [entityId] + [] == [entityId];
        PrintsWord(area, last, [entityId]);
        assert [area] + [entityId] == FactoryParts([], area, entityId)[2..];
        assert "/" + area + last == Tail(area, entityId);
      }
    } else {
      assert FactoryParts([], area, entityId)[2..] == [];
    }
  }

  lemma FactoriesIsWord()
    ensures Word(FACTORIES)
  {}

  lemma PrintsFactoryHref(id: Text, area: Text, entityId: Text)
    requires FactoryHref(id, area, entityId).Some? && Word(area)
    ensures Prints(FactoryHref(id, area, entityId).value, FactoryParts(id, area, entityId))
  {
    var piece, tail, rest := Encode(id).value, Tail(area, entityId), FactoryParts([], area, entityId)[2..];
    HrefTail(id, area, entityId);
    FactoriesIsWord();
    PrintsTail(area, entityId);
    hide Prints, Encode, Word, FactoryHref, FactoryParts, Tail;
    PrintsCons(id, tail, rest);
    PrintsWord(FACTORIES, "/" + piece + tail, [id] + rest);
  }

  lemma HrefTail(id: Text, area: Text, entityId: Text)
    requires FactoryHref(id, area, entityId).Some?
    ensures FactoryHref(id, area, entityId).value == "/" + FACTORIES + ("/" + Encode(id).value + Tail(area, entityId))
    ensures [FACTORIES] + ([id] + FactoryParts([], area, entityId)[2..]) == FactoryParts(id, area, entityId)
  {
    hide Encode;
    var piece, tail := Encode(id).value, Tail(area, entityId);
    var front: Text := "/" + FACTORIES + "/";
    assert front == "/factories/";
    assert FactoryHref(id, area, entityId).value == front + piece + tail;
    assert "/" + FACTORIES + ("/" + piece + tail) == front + piece + tail;
  }

  lemma HrefDefined(id: Text, area: Text, entityId: Text)
    requires FactoryHref(id, area, entityId).Some?
    ensures FactoryHref(id, "dashboard", []).Some? && FactoryHref(id, area, []).Some?
    ensures FactoryHref(id, area, entityId).value != "/" && FactoryHref(id, area, entityId).value != []
  {}

  lemma FactoryPartsNonEmpty(id: Text, area: Text, entityId: Text)
    requires id != []
    ensures NonEmpty(FactoryParts(id, area, entityId)) == FactoryParts(id, area, entityId)
  {
    NonEmptyIdle(FactoryParts(id, area, entityId));
  }

  lemma {:induction false} NonEmptyIdle(pieces: seq<Text>)
    requires [] !in pieces
    ensures NonEmpty(pieces) == pieces
  {
    if pieces != [] {
      NonEmptyIdle(pieces[1..]);
      assert pieces == [pieces[0]] + pieces[1..];
    }
  }

  /** A path without a question mark is its own path, with nothing to search. */
  lemma WithoutQuery(path: Text)
    requires '?' !in path
    ensures PathOf(path) == path && SearchOf(path) == []
  {
    SplitOnNone<Unit>(path, '?');
  }

  /** The path and the query of a location are read back from it. */
  lemma WithQuery(path: Text, search: Text)
    requires '?' !in path && '?' !in search
    ensures PathOf(path + Query(search)) == path && SearchOf(path + Query(search)) == search
  {
    if search == [] {
      WithoutQuery(path);
      assert path + Query(search) == path;
    } else {
      SplitOnAfter<Unit>(path, search, '?');
      SplitOnNone<Unit>(search, '?');
      assert path + Query(search) == path + "?" + search;
    }
  }

  lemma PartsOfLocation(location: Text)
    ensures '?' !in PathOf(location) && '?' !in SearchOf(location)
  {
    SplitOnApart<Unit>(location, '?');
    var pieces := SplitOn<Unit>(location, '?');
    assert pieces[0] in pieces;
    assert |pieces| > 1 ==> pieces[1] in pieces;
  }

  /** `location.search`: nothing, or a question mark and more. */
  predicate Searches(search: Text) {
    search != [] ==> search[0] == '?'
  }

  lemma PathOfBrowser(pathname: Text, search: Text)
    requires '?' !in pathname && Searches(search)
    ensures PathOf(pathname + search) == pathname
  {
    if search == [] {
      WithoutQuery(pathname);
      assert pathname + search == pathname;
    } else {
      SplitOnAfter<Unit>(pathname, search[1..], '?');
      assert pathname + search == pathname + "?" + search[1..];
    }
  }

  /** Reading a location: its path is moved, and what it stands for is read off there. */
  lemma RouteInfoAt(current: Text, pathname: Text, search: Text, parts: seq<Text>, moved: Text, movedParts: seq<Text>)
    requires pathname != [] && '?' !in pathname && Searches(search)
    requires Segments(pathname) == Some(parts) && MovedTo(current, pathname, parts) == Some(moved)
    requires '?' !in moved && Segments(moved) == Some(movedParts)
    ensures RouteInfo(current, pathname, search)
      == Classify(moved + Query(SearchOf(pathname + search)), movedParts, IsRootAlias(parts), IsAlias(parts))
  {
    PathOfBrowser(pathname, search);
    var query := SearchOf(pathname + search);
    PartsOfLocation(pathname + search);
    WithQuery(moved, query);
    hide Segments, MovedTo, PathOf, SearchOf, Classify, Query, IsAlias, IsRootAlias;
  }

  /** Printing a factory's location and reading it recovers all three of its parts, an entity without an area excepted. */
  lemma FactoryHrefRead(current: Text, id: Text, area: Text, entityId: Text)
    requires FactoryHref(id, area, entityId).Some? && Word(area) && id != []
    ensures var read := if area == [] then "dashboard" else area;
      RouteInfo(current, FactoryHref(id, area, entityId).value, []) ==
      Some(Factory(id, read, if area == [] then [] else entityId, false, FactoryHref(id, read, []).value))
  {
    var path, parts := FactoryHref(id, area, entityId).value, FactoryParts(id, area, entityId);
    HrefDefined(id, area, entityId);
    PrintsFactoryHref(id, area, entityId);
    SegmentsOfPrinted(path, parts);
    FactoryPartsNonEmpty(id, area, entityId);
    hide FactoryHref, Segments, PathOf, SearchOf, Encode, Prints, NonEmpty;
    assert parts[0] == FACTORIES && !IsAlias(parts);
    RouteInfoAt(current, path, [], parts, path, parts);
    assert path + [] == path;
    WithoutQuery(path);
    hide RouteInfo, Query;
    assert path + Query([]) == path by { assert Query([]) == []; }
  }

  /** The parts of a workspace page's location. */
  function WorkspaceParts(resource: Text, entityId: Text): seq<Text> {
    if entityId == [] then [resource] else [resource, entityId]
  }

  lemma PrintsWorkspaceHref(resource: Text, entityId: Text)
    requires WorkspaceHref(resource, entityId).Some? && Word(resource)
    ensures Prints(WorkspaceHref(resource, entityId).value, WorkspaceParts(resource, entityId))
  {
    PrintsNothing();
    hide Prints, Encode, Word;
    if entityId == [] {
      PrintsWord(resource, [], []);
      assert "/" + resource + [] == "/" + resource && [resource] + [] == [resource];
    } else {
      var piece := Encode(entityId).value;
      PrintsCons(entityId, [], []);
      PrintsWord(resource, "/" + piece + [], [entityId] + []);
      assert "/" + resource + ("/" + piece + []) == "/" + resource + "/" + piece;
      assert [resource] + ([entityId] + []) == [resource, entityId];
    }
  }

  lemma ResourcesAreWords(resource: Text)
    requires resource in RESOURCES || resource == FACTORIES
    ensures Word(resource) && resource != [] && resource != "app" && resource != "overview"
  {}

  /** The route a workspace page is read as. */
  function WorkspaceRoute(resource: Text, entityId: Text): Option<Route> {
    if resource == FACTORIES && entityId != [] then
      (match FactoryHref(entityId, "dashboard", [])
       case None => None
       case Some(parent) => Some(Factory(entityId, "dashboard", [], false, parent)))
    else Some(Workspace(resource, entityId, false, "/" + resource))
  }

  lemma ClassifyWorkspace(path: Text, resource: Text, entityId: Text)
    requires resource in RESOURCES || resource == FACTORIES
    requires path != "/"
    ensures Classify(path, WorkspaceParts(resource, entityId), false, false) == WorkspaceRoute(resource, entityId)
  {
    hide FactoryHref;
    assert "/" + FACTORIES == "/factories";
  }

  /** A workspace page's location is read as that page, but a page of `factories` as that factory's dashboard. */
  lemma WorkspaceHrefRead(current: Text, resource: Text, entityId: Text)
    requires resource in RESOURCES || resource == FACTORIES
    requires WorkspaceHref(resource, entityId).Some?
    ensures RouteInfo(current, WorkspaceHref(resource, entityId).value, []) == WorkspaceRoute(resource, entityId)
    ensures WorkspaceRoute(resource, entityId).Some?
  {
    var path, parts := WorkspaceHref(resource, entityId).value, WorkspaceParts(resource, entityId);
    ResourcesAreWords(resource);
    PrintsWorkspaceHref(resource, entityId);
    SegmentsOfPrinted(path, parts);
    NonEmptyIdle(parts);
    WithoutQuery(path);
    hide Segments, PathOf, SearchOf, Encode, Prints, NonEmpty, Word, Classify, RouteInfo;
    assert parts[0] == resource && !IsAlias(parts);
    assert path[1] == resource[0];
    RouteInfoAt(current, path, [], parts, path, parts);
    ClassifyWorkspace(path, resource, entityId);
    assert path + [] == path;
    assert path + Query([]) == path;
  }

  /** `MovedTo` leaves the location where it is: it is no alias, or none it knows. */
  predicate Unmoved(parts: seq<Text>) {
    !IsAlias(parts) ||
    (!IsRootAlias(parts) && parts[1] !in {"work", "work-orders", FACTORIES, "usage", "settings"} && parts[1] !in RESOURCES)
  }

  /** The parts of the location an alias is moved to. */
  function MovedParts(current: Text, parts: seq<Text>): seq<Text>
    requires !Unmoved(parts) && !IsRootAlias(parts)
  {
    if parts[1] == "work" || parts[1] == "work-orders" then FactoryParts(current, "work-orders", if |parts| == 2 then [] else parts[2])
    else if parts[1] == FACTORIES then [FACTORIES] + parts[2..]
    else if parts[1] == "usage" then ["settings", "usage"]
    else parts[1..]
  }

  lemma MovedPrints(current: Text, pathname: Text, parts: seq<Text>)
    requires !Unmoved(parts) && !IsRootAlias(parts) && [] !in parts
    requires MovedTo(current, pathname, parts).Some?
    ensures Prints(MovedTo(current, pathname, parts).value, MovedParts(current, parts))
  {
    var moved := MovedTo(current, pathname, parts).value;
    if parts[1] == "work" || parts[1] == "work-orders" {
      WorkMoves(current, pathname, parts);
    } else if parts[1] == FACTORIES {
      FactoriesIsWord();
      assert "/" + FACTORIES == "/factories";
      if |parts| == 2 {
        PrintsNothing();
        PrintsWord(FACTORIES, [], []);
        assert parts[2..] == [] && "/factories" + [] == "/factories";
      } else {
        PrintsWord(FACTORIES, Path(EncodeAll(parts[2..]).value), parts[2..]);
      }
    } else if parts[1] == "usage" {
      UsagePrints();
    }
  }

  lemma UsagePrints()
    ensures Prints("/settings/usage", ["settings", "usage"])
  {
    hide Prints;
    PrintsNothing();
    PrintsWord("usage", [], []);
    var usage: Text := "/usage";
    assert "/" + "usage" + [] == usage && ["usage"] + [] == ["usage"];
    PrintsWord("settings", usage, ["usage"]);
    assert "/" + "settings" + usage == "/settings/usage" && ["settings"] + ["usage"] == ["settings", "usage"];
  }

  lemma WorkMoves(current: Text, pathname: Text, parts: seq<Text>)
    requires |parts| > 1 && parts[0] == "app" && (parts[1] == "work" || parts[1] == "work-orders") && [] !in parts
    requires MovedTo(current, pathname, parts).Some?
    ensures Prints(MovedTo(current, pathname, parts).value, MovedParts(current, parts))
  {
    assert Word("work-orders");
    hide Word, Prints, FactoryHref, FactoryParts, EncodeAll, Path;
    PrintsFactoryHref(current, "work-orders", if |parts| == 2 then [] else parts[2]);
  }

  /** The location an alias is moved to is none itself, nor is it the root. */
  lemma MovedIsCanonical(current: Text, pathname: Text, parts: seq<Text>)
    requires !Unmoved(parts) && !IsRootAlias(parts) && [] !in parts
    requires MovedTo(current, pathname, parts).Some?
    ensures var moved := MovedTo(current, pathname, parts).value;
      && '?' !in moved && Segments(moved).Some? && !IsAlias(Segments(moved).value)
      && moved != "/" && moved != []
  {
    MovedPrints(current, pathname, parts);
    MovedPartsLead(current, parts);
    EmptySegments();
    RootSegments();
    hide MovedTo, Prints, Unmoved, MovedParts, Segments, NonEmpty;
    SegmentsOfPrinted(MovedTo(current, pathname, parts).value, MovedParts(current, parts));
  }

  lemma MovedPartsLead(current: Text, parts: seq<Text>)
    requires !Unmoved(parts) && !IsRootAlias(parts) && [] !in parts
    ensures var kept := NonEmpty(MovedParts(current, parts));
      kept != [] && kept[0] != "app"
  {}

  lemma EmptySegments()
    ensures Segments([]) == Some([])
  {}

  lemma RootSegments()
    ensures Segments("/") == Some([])
  {}

  lemma MovedStays(current: Text, pathname: Text, parts: seq<Text>)
    requires '?' !in pathname && Segments(pathname) == Some(parts) && MovedTo(current, pathname, parts).Some?
    ensures var moved := MovedTo(current, pathname, parts).value;
      && '?' !in moved && Segments(moved).Some? && MovedTo(current, moved, Segments(moved).value) == Some(moved)
  {
    SegmentsNonEmpty(pathname);
    RootSegments();
    if !Unmoved(parts) && !IsRootAlias(parts) {
      MovedIsCanonical(current, pathname, parts);
    }
    hide Segments, EncodeAll, Encode, Path;
  }

  lemma SegmentsNonEmpty(path: Text)
    requires Segments(path).Some?
    ensures [] !in Segments(path).value
  {
    DecodeAllNonEmpty(NonEmpty(SplitOn<Unit>(path, '/')));
  }

  lemma {:induction false} DecodeAllNonEmpty(pieces: seq<Text>)
    requires DecodeAll(pieces).Some? && [] !in pieces
    ensures [] !in DecodeAll(pieces).value
  {
    if pieces != [] {
      DecodeAllNonEmpty(pieces[1..]);
      DecodeNonEmpty(pieces[0]);
    }
  }

  /** Canonical locations are their own canonical locations. */
  lemma CanonicalIdempotent(current: Text, location: Text)
    requires CanonicalPath(current, location).Some?
    ensures CanonicalPath(current, CanonicalPath(current, location).value) == CanonicalPath(current, location)
  {
    PartsOfLocation(location);
    var parts := Segments(PathOf(location)).value;
    var moved := MovedTo(current, PathOf(location), parts).value;
    MovedStays(current, PathOf(location), parts);
    WithQuery(moved, SearchOf(location));
    hide Segments, MovedTo, PathOf, SearchOf, Query;
  }

  /** A route with its alias flag forgotten. */
  function Unaliased(route: Route): Route {
    if route.Root? || route.Factory? || route.Workspace? || route.Settings? then route.(alias := false) else route
  }

  predicate SameRoute(a: Option<Route>, b: Option<Route>) {
    a.Some? == b.Some? && (a.Some? ==> Unaliased(a.value) == Unaliased(b.value))
  }

  lemma ClassifyUnaliased(canonical: Text, parts: seq<Text>, rootAlias: bool, alias: bool, alias': bool)
    ensures SameRoute(Classify(canonical, parts, rootAlias, alias), Classify(canonical, parts, rootAlias, alias'))
  {}

  /** The root with a query is not read as the root but as the marketing page, while the root alias is. */
  lemma ClassifyRoot(search: Text, alias: bool)
    ensures Classify("/" + Query(search), [], true, alias) == Some(Root(alias))
    ensures Classify("/" + Query(search), [], false, false) == if search == [] then Some(Root(false)) else Some(Marketing("home"))
  {}

  /**
   An `/app` location and the location it is moved to are read as the same route, alias flag
   aside, exactly when the location is not the root alias with something to search for.
   */
  lemma AliasAgreesExactly(current: Text, pathname: Text, search: Text, parts: seq<Text>, moved: Text)
    requires '?' !in pathname && Searches(search)
    requires Segments(pathname) == Some(parts) && IsAlias(parts) && MovedTo(current, pathname, parts) == Some(moved)
    ensures var query := SearchOf(pathname + search);
      SameRoute(RouteInfo(current, pathname, search), RouteInfo(current, moved, Query(query)))
      <==> !(IsRootAlias(parts) && query != [])
  {
    AliasMoved(current, pathname, parts);
    var query, movedParts := SearchOf(pathname + search), Segments(moved).value;
    PartsOfLocation(pathname + search);
    WithQuery(moved, query);
    QuerySearches(query);
    hide Segments, MovedTo, PathOf, SearchOf, RouteInfo, Query, Classify, IsRootAlias, IsAlias;
    RouteInfoAt(current, pathname, search, parts, moved, movedParts);
    RouteInfoAt(current, moved, Query(query), movedParts, moved, movedParts);
    if IsRootAlias(parts) {
      ClassifyRoot(query, true);
    } else {
      ClassifyUnaliased(moved + Query(query), movedParts, false, true, IsAlias(movedParts));
    }
  }

  /** The root alias is moved to the root, and an alias that is not known stays. */
  lemma MovesRoot(current: Text, pathname: Text, parts: seq<Text>)
    requires IsAlias(parts)
    ensures IsRootAlias(parts) ==> MovedTo(current, pathname, parts) == Some("/")
    ensures !IsRootAlias(parts) && Unmoved(parts) ==> MovedTo(current, pathname, parts) == Some(pathname)
  {
    hide FactoryHref, EncodeAll, Path;
  }

  /** Where an alias is moved to. */
  lemma AliasMoved(current: Text, pathname: Text, parts: seq<Text>)
    requires '?' !in pathname && Segments(pathname) == Some(parts) && IsAlias(parts) && MovedTo(current, pathname, parts).Some?
    ensures var moved := MovedTo(current, pathname, parts).value;
      && pathname != [] && moved != [] && '?' !in moved
      && Segments(moved).Some? && MovedTo(current, moved, Segments(moved).value) == Some(moved)
      && (if IsRootAlias(parts) then moved == "/" && Segments(moved).value == [] && !IsAlias([]) && !IsRootAlias([])
          else !IsRootAlias(Segments(moved).value))
  {
    SegmentsNonEmpty(pathname);
    MovedStays(current, pathname, parts);
    EmptySegments();
    RootSegments();
    if !IsRootAlias(parts) && !Unmoved(parts) {
      MovedIsCanonical(current, pathname, parts);
    }
    MovesRoot(current, pathname, parts);
    hide Segments, MovedTo, Unmoved;
  }

  lemma QuerySearches(query: Text)
    ensures Searches(Query(query))
  {}
}
