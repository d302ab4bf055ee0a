/** The console's routes: printing one as a path and reading it back. */
module Routes {
  import opened Uri
  import opened Wrappers

  datatype Page = Dashboard | Topics | Messages | Consumers | Settings | Audit

  datatype TopicTab = Overview | TopicMessages | Partitions | TopicConfig

  datatype AppRoute = AppRoute(page: Page, clusterId: Option<string>, topicName: Option<string>, topicTab: Option<TopicTab>)

  function PageName(page: Page): string {
    match page
    case Dashboard => "dashboard"
    case Topics => "topics"
    case Messages => "messages"
    case Consumers => "consumers"
    case Settings => "settings"
    case Audit => "audit"
  }

  function TabName(tab: TopicTab): string {
    match tab
    case Overview => "overview"
    case TopicMessages => "messages"
    case Partitions => "partitions"
    case TopicConfig => "config"
  }

  function PageOf(name: string): Option<Page> {
    if name == "dashboard" then Some(Dashboard)
    else if name == "topics" then Some(Topics)
    else if name == "messages" then Some(Messages)
    else if name == "consumers" then Some(Consumers)
    else if name == "settings" then Some(Settings)
    else if name == "audit" then Some(Audit)
    else None
  }

  function TabOf(name: string): Option<TopicTab> {
    if name == "overview" then Some(Overview)
    else if name == "messages" then Some(TopicMessages)
    else if name == "partitions" then Some(Partitions)
    else if name == "config" then Some(TopicConfig)
    else None
  }

  // ----- Paths

  /** What lies between slashes, front to back. */
  function Split(path: string): (parts: seq<string>)
    ensures parts != []
  {
    if path == "" then [""]
    else
      var n := |path| - 1;
      var rest := Split(path[..n]);
      if path[n] == '/' then rest + [""] else rest[..|rest| - 1] + [rest[|rest| - 1] + [path[n]]]
  }

  function NonEmpty(parts: seq<string>): seq<string> {
    if parts == [] then []
    else NonEmpty(parts[..|parts| - 1]) + if parts[|parts| - 1] == "" then [] else [parts[|parts| - 1]]
  }

  function Segments(path: string): seq<string> {
    NonEmpty(Split(path))
  }

  /** A default for anything missing or empty. */
  function OrElse<T>(value: Option<T>, default: T): T {
    if value.Some? then value.value else default
  }

  function ParseRoutePath(path: string): AppRoute {
    var segments := Segments(path);
    if |segments| < 2 || segments[0] != "clusters" then AppRoute(Dashboard, None, None, None)
    else
      var clusterId := SafeDecode(segments[1]);
      var page := if |segments| > 2 then OrElse(PageOf(segments[2]), Dashboard) else Dashboard;
      if page != Topics || |segments| < 4 then AppRoute(page, Some(clusterId), None, None)
      else
        var tab := if |segments| > 4 then OrElse(TabOf(segments[4]), Overview) else Overview;
        AppRoute(page, Some(clusterId), Some(SafeDecode(segments[3])), Some(tab))
  }

  /** JavaScript's truth of an optional string. */
  predicate Truthy(value: Option<string>) {
    value.Some? && value.value != ""
  }

  function BuildRoutePath(route: AppRoute): string {
    if !Truthy(route.clusterId) then "/"
    else
      var base := "/clusters/" + Encode(route.clusterId.value) + "/" + PageName(route.page);
      if route.page != Topics || !Truthy(route.topicName) then base
      else base + "/" + Encode(route.topicName.value) + "/" + TabName(OrElse(route.topicTab, Overview))
  }

  // ----- Splitting what was joined

  function JoinPath(segments: seq<string>): string {
    if segments == [] then "" else JoinPath(segments[..|segments| - 1]) + "/" + segments[|segments| - 1]
  }

  lemma {:induction false} SplitSegment(front: string, s: string)
    requires '/' !in s
    ensures Split(front + "/" + s) == Split(front) + [s]
  {
    var path := front + "/" + s;
    var n := |path| - 1;
    if s == "" {
      assert path[..n] == front;
    } else {
      var k := |s| - 1;
      assert path[..n] == front + "/" + s[..k];
      SplitSegment(front, s[..k]);
      assert path[n] == s[k] && s[k] in s;
      assert s == s[..k] + [s[k]];
    }
  }

  /** Splitting a path made of segments gives the segments. */
  lemma {:induction false} SegmentsOfJoined(segments: seq<string>)
    requires forall i :: 0 <= i < |segments| ==> IsSegment(segments[i])
    ensures Segments(JoinPath(segments)) == segments
  {
    if segments != [] {
      var n := |segments| - 1;
      SegmentsOfJoined(segments[..n]);
      var front := JoinPath(segments[..n]);
      SplitSegment(front, segments[n]);
      assert (Split(front) + [segments[n]])[..|Split(front)|] == Split(front);
      assert segments == segments[..n] + [segments[n]];
    }
  }

  lemma {:induction false} NonEmptyIsNonEmpty(parts: seq<string>)
    ensures forall i :: 0 <= i < |NonEmpty(parts)| ==> NonEmpty(parts)[i] != ""
  {
    if parts != [] {
      NonEmptyIsNonEmpty(parts[..|parts| - 1]);
    }
  }

  /** The parts when one more character is read. */
  function Longer(parts: seq<string>, c: char): seq<string>
    requires parts != []
  {
    if c == '/' then parts + [""] else parts[..|parts| - 1] + [parts[|parts| - 1] + [c]]
  }

  lemma SplitLonger(path: string, c: char)
    ensures Split(path + [c]) == Longer(Split(path), c)
  {
    assert (path + [c])[..|path|] == path;
  }

  lemma LongerAtEnd(front: seq<string>, parts: seq<string>, c: char)
    requires parts != []
    ensures Longer(front + parts, c) == front + Longer(parts, c)
  {
    assert (front + parts)[..|front + parts| - 1] == front + parts[..|parts| - 1];
  }

  lemma {:induction false} SplitAtSlash(a: string, b: string)
    ensures Split(a + "/" + b) == Split(a) + Split(b)
  {
    if b == "" {
      assert a + "/" + b == a + ['/'];
      SplitLonger(a, '/');
    } else {
      var front, c := b[..|b| - 1], b[|b| - 1];
      assert b == front + [c] && a + "/" + b == (a + "/" + front) + [c];
      SplitAtSlash(a, front);
      SplitLonger(a + "/" + front, c);
      SplitLonger(front, c);
      LongerAtEnd(Split(a), Split(front), c);
    }
  }

  lemma {:induction false} NonEmptyOfConcat(a: seq<string>, b: seq<string>)
    ensures NonEmpty(a + b) == NonEmpty(a) + NonEmpty(b)
  {
    if b == [] {
      assert a + b == a;
    } else {
      assert (a + b)[..|a + b| - 1] == a + b[..|b| - 1];
      NonEmptyOfConcat(a, b[..|b| - 1]);
    }
  }

  /** The segments of a path are its non-empty parts between slashes. */
  lemma SegmentsBetweenSlashes(a: string, b: string)
    ensures Segments(a + "/" + b) == Segments(a) + Segments(b)
    ensures '/' !in a ==> Segments(a) == if |a| > 0 then [a] else []
  {
    SplitAtSlash(a, b);
    NonEmptyOfConcat(Split(a), Split(b));
    if '/' !in a {
      SplitOfSegment(a);
      assert [a][..0] == [];
    }
  }

  lemma {:induction false} SplitOfSegment(s: string)
    requires '/' !in s
    ensures Split(s) == [s]
  {
    if s != "" {
      var n := |s| - 1;
      assert s[n] in s;
      SplitOfSegment(s[..n]);
      assert s == s[..n] + [s[n]];
    }
  }

  /** The page a segment names; everything else, and no segment at all, stands for the dashboard. */
  ghost predicate Names(segments: seq<string>, page: Page) {
    match page
    case Topics => |segments| > 2 && segments[2] == "topics"
    case Messages => |segments| > 2 && segments[2] == "messages"
    case Consumers => |segments| > 2 && segments[2] == "consumers"
    case Settings => |segments| > 2 && segments[2] == "settings"
    case Audit => |segments| > 2 && segments[2] == "audit"
    case Dashboard => |segments| <= 2 || segments[2] !in {"topics", "messages", "consumers", "settings", "audit"}
  }

  ghost predicate NamesTab(segments: seq<string>, tab: TopicTab) {
    match tab
    case TopicMessages => |segments| > 4 && segments[4] == "messages"
    case Partitions => |segments| > 4 && segments[4] == "partitions"
    case TopicConfig => |segments| > 4 && segments[4] == "config"
    case Overview => |segments| <= 4 || segments[4] !in {"messages", "partitions", "config"}
  }

  /**
   * What a path stands for, whatever it is: a path that does not begin with "clusters" and a cluster is the dashboard;
   * the third segment names the page, the fourth a topic if the page is that of the topics, the fifth its tab; further
   * segments do not matter.
   */
  lemma ParsedFromSegments(path: string)
    ensures var segments, route := Segments(path), ParseRoutePath(path);
            if |segments| >= 2 && segments[0] == "clusters" then
              && route.clusterId == Some(SafeDecode(segments[1]))
              && Names(segments, route.page)
              && (if route.page == Topics && |segments| >= 4
                  then route.topicName == Some(SafeDecode(segments[3])) && route.topicTab.Some?
                       && NamesTab(segments, route.topicTab.value)
                  else route.topicName == None && route.topicTab == None)
            else route == AppRoute(Dashboard, None, None, None)
  {
  }

  // ----- Round trips

  /** The segments a route with a cluster prints as. */
  function RouteSegments(route: AppRoute): seq<string>
    requires Truthy(route.clusterId)
  {
    ["clusters", Encode(route.clusterId.value), PageName(route.page)] +
    if route.page != Topics || !Truthy(route.topicName) then []
    else [Encode(route.topicName.value), TabName(OrElse(route.topicTab, Overview))]
  }

  lemma NamesRoundTrip(page: Page, tab: TopicTab)
    ensures PageOf(PageName(page)) == Some(page) && IsSegment(PageName(page))
    ensures TabOf(TabName(tab)) == Some(tab) && IsSegment(TabName(tab))
  {
  }

  lemma JoinMore(segments: seq<string>, last: string)
    ensures JoinPath(segments + [last]) == JoinPath(segments) + "/" + last
  {
    assert (segments + [last])[..|segments|] == segments;
  }

  lemma JoinBase(id: string, page: string)
    ensures JoinPath(["clusters", id, page]) == "/clusters/" + id + "/" + page
  {
    JoinMore([], "clusters");
    assert [] + ["clusters"] == ["clusters"];
    assert JoinPath(["clusters"]) + "/" == "/clusters/";
    JoinMore(["clusters"], id);
    assert ["clusters"] + [id] == ["clusters", id];
    JoinMore(["clusters", id], page);
    assert ["clusters", id] + [page] == ["clusters", id, page];
  }

  lemma JoinTopic(id: string, page: string, topic: string, tab: string)
    ensures JoinPath(["clusters", id, page, topic, tab]) == "/clusters/" + id + "/" + page + "/" + topic + "/" + tab
  {
    JoinBase(id, page);
    JoinMore(["clusters", id, page], topic);
    assert ["clusters", id, page] + [topic] == ["clusters", id, page, topic];
    JoinMore(["clusters", id, page, topic], tab);
    assert ["clusters", id, page, topic] + [tab] == ["clusters", id, page, topic, tab];
  }

  lemma BuiltPathIsJoined(route: AppRoute)
    requires Truthy(route.clusterId)
    ensures BuildRoutePath(route) == JoinPath(RouteSegments(route))
  {
    var id, page := Encode(route.clusterId.value), PageName(route.page);
    if route.page != Topics || !Truthy(route.topicName) {
      JoinBase(id, page);
      assert RouteSegments(route) == ["clusters", id, page];
    } else {
      var topic, tab := Encode(route.topicName.value), TabName(OrElse(route.topicTab, Overview));
      JoinTopic(id, page, topic, tab);
      assert RouteSegments(route) == ["clusters", id, page, topic, tab];
    }
  }

  /**
   * A route with a cluster prints as its segments, each after a slash: three of them, or five with a topic, the names
   * of the page and of the tab among them.
   */
  lemma BuiltPathHasSegments(route: AppRoute)
    requires Truthy(route.clusterId)
    ensures var segments := Segments(BuildRoutePath(route));
            && BuildRoutePath(route) == JoinPath(segments)
            && |segments| == (if route.page == Topics && route.topicName.Some? && |route.topicName.value| > 0 then 5 else 3)
            && segments[0] == "clusters" && segments[1] == Encode(route.clusterId.value)
            && Names(segments, route.page) && (route.page == Dashboard ==> segments[2] == "dashboard")
            && (|segments| == 5 ==>
                  && segments[3] == Encode(route.topicName.value)
                  && NamesTab(segments, OrElse(route.topicTab, Overview))
                  && (OrElse(route.topicTab, Overview) == Overview ==> segments[4] == "overview"))
  {
    BuiltPathSplits(route);
    BuiltPathIsJoined(route);
  }

  lemma BuiltPathSplits(route: AppRoute)
    requires Truthy(route.clusterId)
    ensures Segments(BuildRoutePath(route)) == RouteSegments(route)
  {
    BuiltPathIsJoined(route);
    EncodedIsSegment(route.clusterId.value);
    NamesRoundTrip(route.page, OrElse(route.topicTab, Overview));
    if Truthy(route.topicName) {
      EncodedIsSegment(route.topicName.value);
    }
    SegmentsOfJoined(RouteSegments(route));
  }

  /** The routes a path can stand for: what is not set has no meaning on the page, and nothing set is empty. */
  predicate Canonical(route: AppRoute) {
    if route.clusterId.None? then route == AppRoute(Dashboard, None, None, None)
    else
      && route.clusterId.value != ""
      && if route.page == Topics && route.topicName.Some? then route.topicName.value != "" && route.topicTab.Some?
         else route.topicName.None? && route.topicTab.None?
  }

  /** Printing a route and reading it back gives the route, exactly for the canonical ones; without a cluster it is "/". */
  lemma ParseBuild(route: AppRoute)
    ensures route.clusterId == None || |route.clusterId.value| == 0 ==> BuildRoutePath(route) == "/"
    ensures ParseRoutePath(BuildRoutePath(route)) == route <==> Canonical(route)
  {
    if Truthy(route.clusterId) {
      BuiltPathSplits(route);
      DecodeEncode(route.clusterId.value);
      NamesRoundTrip(route.page, OrElse(route.topicTab, Overview));
      if Truthy(route.topicName) {
        DecodeEncode(route.topicName.value);
      }
    } else {
      RootHasNoSegments();
    }
  }

  lemma RootHasNoSegments()
    ensures Segments("/") == []
  {
    assert "/"[..0] == "";
    assert Split("/") == ["", ""];
    assert ["", ""][..1] == [""];
    assert [""][..0] == [];
  }

  /** Whatever the path, malformed escapes and all, it stands for a canonical route. */
  lemma ParsedIsCanonical(path: string)
    ensures Canonical(ParseRoutePath(path))
  {
    var segments := Segments(path);
    NonEmptyIsNonEmpty(Split(path));
    if |segments| > 1 {
      DecodedIsNotEmpty(segments[1]);
    }
    if |segments| > 3 {
      DecodedIsNotEmpty(segments[3]);
    }
  }

  /** So printing what was read and reading it again changes nothing, for every path. */
  lemma ParseBuildParse(path: string)
    ensures ParseRoutePath(BuildRoutePath(ParseRoutePath(path))) == ParseRoutePath(path)
  {
    ParsedIsCanonical(path);
    ParseBuild(ParseRoutePath(path));
  }
}
