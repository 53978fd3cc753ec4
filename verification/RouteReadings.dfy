/** What the UI reads in a location, and where it moves an old one, told location by location. */
module RouteReadings {
  import opened Sequences
  import opened Unicode
  import opened Percent
  import opened Routes

  /** A location as it is printed: its parts are not empty. */
  predicate Located(path: Text, parts: seq<Text>) {
    Prints(path, parts) && parts != [] && [] !in parts
  }

  /** Reading a printed location that is no alias: it is classified by its parts. */
  lemma ReadPrinted(current: Text, path: Text, parts: seq<Text>)
    requires Located(path, parts) && parts[0] != "app"
    ensures RouteInfo(current, path, []) == Classify(path, parts, false, false)
    ensures path != "/"
  {
    SegmentsOfPrinted(path, parts);
    NonEmptyIdle(parts);
    EmptySegments();
    RootSegments();
    WithoutQuery(path);
    hide Segments, PathOf, SearchOf, Prints, NonEmpty, Classify, RouteInfo;
    assert path != [] && path != "/";
    RouteInfoAt(current, path, [], parts, path, parts);
    assert path + [] == path && path + Query([]) == path;
  }

  /** `/settings` and everything below it: the area is the part after it, the profile if there is none. */
  lemma SettingsRead(current: Text, path: Text, parts: seq<Text>)
    requires Located(path, parts) && parts[0] == "settings"
    ensures RouteInfo(current, path, []) == Some(Settings(if |parts| == 1 then "profile" else parts[1], false, "/settings/profile"))
  {
    hide Prints, RouteInfo;
    ReadPrinted(current, path, parts);
  }

  lemma LoginRead(current: Text, path: Text, parts: seq<Text>)
    requires Located(path, parts) && parts[0] == "login"
    ensures RouteInfo(current, path, []) == Some(Login)
  {
    hide Prints, RouteInfo;
    ReadPrinted(current, path, parts);
  }

  /** `/factories` is the list of factories. */
  lemma FactoriesRead(current: Text, path: Text, parts: seq<Text>)
    requires Located(path, parts) && parts[0] == FACTORIES && |parts| == 1
    ensures RouteInfo(current, path, []) == Some(Workspace(FACTORIES, [], false, "/" + FACTORIES))
  {
    hide Prints, RouteInfo;
    assert "/" + FACTORIES == "/factories";
    ReadPrinted(current, path, parts);
  }

  /** The area named in a factory's location, the dashboard if there is none. */
  function AreaIn(parts: seq<Text>): Text { if |parts| > 2 then parts[2] else "dashboard" }

  /** Below it stand the factories, each with its area and its entity, whatever follows. */
  lemma FactoryRead(current: Text, path: Text, parts: seq<Text>)
    requires Located(path, parts) && parts[0] == FACTORIES && |parts| > 1 && FactoryHref(parts[1], AreaIn(parts), []).Some?
    ensures var parent := FactoryHref(parts[1], AreaIn(parts), []).value;
      RouteInfo(current, path, []) == Some(Factory(parts[1], AreaIn(parts), if |parts| > 3 then parts[3] else [], false, parent))
  {
    hide Prints, RouteInfo, FactoryHref;
    ReadPrinted(current, path, parts);
  }

  /** The pages of the workspace, each with its entity. */
  lemma ResourceRead(current: Text, path: Text, parts: seq<Text>)
    requires Located(path, parts) && parts[0] in {"runs", "environments", "integrations", "secrets"}
    ensures RouteInfo(current, path, []) == Some(Workspace(parts[0], if |parts| == 1 then [] else parts[1], false, "/" + parts[0]))
  {
    hide Prints, RouteInfo;
    ReadPrinted(current, path, parts);
  }

  /** Any other location is a page of the marketing site, named by its first part. */
  lemma MarketingRead(current: Text, path: Text, parts: seq<Text>)
    requires Located(path, parts)
    requires parts[0] !in {"app", "factories", "runs", "environments", "integrations", "secrets", "settings", "login"}
    ensures RouteInfo(current, path, []) == Some(Marketing(parts[0]))
  {
    hide Prints, RouteInfo;
    ReadPrinted(current, path, parts);
  }

  /** The root is the root, also when the browser gives no path at all; with a query it is the marketing home. */
  lemma RootRead(current: Text, search: Text)
    requires Searches(search)
    ensures RouteInfo(current, "/", search) == if SearchOf("/" + search) == [] then Some(Root(false)) else Some(Marketing("home"))
    ensures RouteInfo(current, [], search) == RouteInfo(current, "/", search)
  {
    EmptySegments();
    RootSegments();
    ClassifyRoot(SearchOf("/" + search), false);
    hide Segments, PathOf, SearchOf, Classify, Query;
    RouteInfoAt(current, "/", search, [], "/", []);
  }

  /** A printed alias, and a query. */
  predicate AliasAt(path: Text, parts: seq<Text>, search: Text) {
    Located(path, parts) && parts[0] == "app" && '?' !in search
  }

  /** The location is moved to this one, and keeps its query. */
  predicate Goes(current: Text, path: Text, search: Text, target: Text) {
    CanonicalPath(current, path + Query(search)) == Some(target + Query(search))
  }

  /** Canonicalising a printed location moves its path by its parts. */
  lemma GoesWhereMoved(current: Text, path: Text, parts: seq<Text>, search: Text, target: Text)
    requires Located(path, parts) && '?' !in search && MovedTo(current, path, parts) == Some(target)
    ensures Goes(current, path, search, target)
  {
    SegmentsOfPrinted(path, parts);
    NonEmptyIdle(parts);
    hide Segments, MovedTo, Prints, PathOf, SearchOf, Query, NonEmpty;
    WithQuery(path, search);
  }

  /** `/app` and `/app/overview` are the root. */
  lemma RootAliasGoes(current: Text, path: Text, parts: seq<Text>, search: Text)
    requires AliasAt(path, parts, search) && (|parts| == 1 || parts[1] == "overview")
    ensures Goes(current, path, search, "/")
  {
    hide Prints, Goes;
    GoesWhereMoved(current, path, parts, search, "/");
  }

  const WORK_ORDERS: Text := "work-orders"

  /** The order that an alias of the work orders names, if it names one. */
  function OrderIn(parts: seq<Text>): Text { if |parts| > 2 then parts[2] else [] }

  /** `/app/work` and `/app/work-orders` are the work orders of the selected factory, and the order if one is named. */
  lemma WorkAliasGoes(current: Text, path: Text, parts: seq<Text>, search: Text, target: Text)
    requires AliasAt(path, parts, search) && |parts| > 1 && (parts[1] == "work" || parts[1] == "work-orders")
    requires Prints(target, if OrderIn(parts) == [] then [FACTORIES, current, WORK_ORDERS] else [FACTORIES, current, WORK_ORDERS, OrderIn(parts)])
    ensures Goes(current, path, search, target)
  {
    hide Prints, Goes;
    WorkMoved(current, path, parts);
    hide MovedTo;
    WorkTarget(current, OrderIn(parts), target);
    GoesWhereMoved(current, path, parts, search, target);
  }

  lemma WorkMoved(current: Text, path: Text, parts: seq<Text>)
    requires |parts| > 1 && parts[0] == "app" && (parts[1] == "work" || parts[1] == "work-orders")
    ensures MovedTo(current, path, parts) == FactoryHref(current, WORK_ORDERS, OrderIn(parts))
  {
    hide FactoryHref;
  }

  lemma WorkTarget(current: Text, order: Text, target: Text)
    requires Prints(target, if order == [] then [FACTORIES, current, WORK_ORDERS] else [FACTORIES, current, WORK_ORDERS, order])
    ensures FactoryHref(current, WORK_ORDERS, order) == Some(target)
  {
    hide Encode, Word, FactoryHref, Path;
    assert FactoryParts(current, WORK_ORDERS, order)
      == if order == [] then [FACTORIES, current, WORK_ORDERS] else [FACTORIES, current, WORK_ORDERS, order];
    HrefWhenEncodable(current, WORK_ORDERS, order);
    WorkOrdersIsWord();
    hide Prints, EncodeAll, FactoryParts;
    PrintsFactoryHref(current, WORK_ORDERS, order);
    PrintsOnce(target, FactoryHref(current, WORK_ORDERS, order).value, FactoryParts(current, WORK_ORDERS, order));
  }

  lemma WorkOrdersIsWord()
    ensures Word(WORK_ORDERS)
  {}

  /** Parts are printed in one way only. */
  lemma PrintsOnce(a: Text, b: Text, parts: seq<Text>)
    requires Prints(a, parts) && Prints(b, parts)
    ensures a == b
  {}

  lemma HrefWhenEncodable(id: Text, area: Text, entityId: Text)
    requires EncodeAll(FactoryParts(id, area, entityId)).Some?
    ensures FactoryHref(id, area, entityId).Some?
  {
    hide Encode;
    var parts := FactoryParts(id, area, entityId);
    EncodeAllEach(parts, 1);
    if |parts| > 3 {
      EncodeAllEach(parts, 3);
    }
  }

  lemma {:induction false} EncodeAllEach(parts: seq<Text>, i: nat)
    requires EncodeAll(parts).Some? && i < |parts|
    ensures Encode(parts[i]).Some?
  {
    if i > 0 {
      EncodeAllEach(parts[1..], i - 1);
    }
  }

  /** `/app/factories/...` and `/app/runs/...` and their like lose the `/app`, and keep everything after it. */
  lemma KeptAliasGoes(current: Text, path: Text, parts: seq<Text>, search: Text, target: Text)
    requires AliasAt(path, parts, search) && |parts| > 1 && Prints(target, parts[1..])
    requires parts[1] in {"factories", "runs", "environments", "integrations", "secrets", "settings"}
    ensures Goes(current, path, search, target)
  {
    hide Prints, Goes;
    assert MovedTo(current, path, parts) == Some(target) by {
      if parts[1] == "factories" {
        FactoriesTarget(current, path, parts, target);
      } else {
        ResourceTarget(current, path, parts, target);
      }
    }
    hide MovedTo;
    GoesWhereMoved(current, path, parts, search, target);
  }

  lemma ResourceTarget(current: Text, path: Text, parts: seq<Text>, target: Text)
    requires |parts| > 1 && parts[0] == "app" && Prints(target, parts[1..])
    requires parts[1] in {"runs", "environments", "integrations", "secrets", "settings"}
    ensures MovedTo(current, path, parts) == Some(target)
  {
    hide Encode, EncodeAll, Path, FactoryHref;
  }

  lemma MovedFactories(current: Text, path: Text, parts: seq<Text>)
    requires |parts| > 1 && parts[0] == "app" && parts[1] == FACTORIES
    ensures MovedTo(current, path, parts) ==
      if |parts| == 2 then Some("/factories")
      else match EncodeAll(parts[2..]) case None => None case Some(pieces) => Some("/factories" + Path(pieces))
  {
    hide Encode, EncodeAll, Path, FactoryHref;
  }

  lemma FactoriesTarget(current: Text, path: Text, parts: seq<Text>, target: Text)
    requires |parts| > 1 && parts[0] == "app" && parts[1] == FACTORIES && Prints(target, parts[1..])
    ensures MovedTo(current, path, parts) == Some(target)
  {
    MovedFactories(current, path, parts);
    FactoriesPrinted(parts[1..], target);
    FactoriesSlash();
    assert parts[1..][1..] == parts[2..];
    NoPath();
    hide MovedTo, Prints, Encode, EncodeAll, Path, FactoryHref, FACTORIES;
    var front: Text := "/" + FACTORIES;
    if |parts| == 2 {
      assert parts[2..] == [];
      assert front + [] == front;
      assert Path(EncodeAll(parts[2..]).value) == [];
    }
  }

  lemma FactoriesSlash()
    ensures "/" + FACTORIES == "/factories"
  {}

  /** A location that begins with `factories`, taken apart. */
  lemma FactoriesPrinted(parts: seq<Text>, path: Text)
    requires Prints(path, parts) && parts != [] && parts[0] == FACTORIES
    ensures EncodeAll(parts[1..]).Some? && path == "/" + FACTORIES + Path(EncodeAll(parts[1..]).value)
  {
    FactoriesIsWord();
    UnreservedUnchanged(FACTORIES);
    hide Word, Encode, Path, FACTORIES;
    PathCons(FACTORIES, EncodeAll(parts[1..]).value);
  }

  lemma NoPath()
    ensures Path([]) == [] && EncodeAll([]) == Some([])
  {}

  /** `/app/usage` is the usage page of the settings, whatever follows. */
  lemma UsageAliasGoes(current: Text, path: Text, parts: seq<Text>, search: Text)
    requires AliasAt(path, parts, search) && |parts| > 1 && parts[1] == "usage"
    ensures Goes(current, path, search, "/settings/usage")
  {
    hide Prints, Goes;
    assert MovedTo(current, path, parts) == Some("/settings/usage");
    hide MovedTo;
    GoesWhereMoved(current, path, parts, search, "/settings/usage");
  }

  /** Which is read as that. */
  lemma UsageRead(current: Text)
    ensures RouteInfo(current, "/settings/usage", []) == Some(Settings("usage", false, "/settings/profile"))
  {
    UsagePrints();
    hide Prints, RouteInfo;
    SettingsRead(current, "/settings/usage", ["settings", "usage"]);
  }

  /** Any other alias stays where it is. */
  lemma UnknownAliasStays(current: Text, path: Text, parts: seq<Text>, search: Text)
    requires AliasAt(path, parts, search) && |parts| > 1
    requires parts[1] !in {"overview", "work", "work-orders", "factories", "usage"}
    requires parts[1] !in {"runs", "environments", "integrations", "secrets", "settings"}
    ensures Goes(current, path, search, path)
  {
    hide Prints, Goes;
    assert MovedTo(current, path, parts) == Some(path);
    hide MovedTo;
    GoesWhereMoved(current, path, parts, search, path);
  }
}
