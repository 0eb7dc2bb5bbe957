/**
 The command encoder of `src/roku.rs`: the `RokuCommand` enum, the wire path
 its `Display` implementation produces, the app-name parser and the launch
 path built from a content link.

 Two foreign libraries are not modelled and enter as parameters (`Libraries`):
 `serde_qs::to_string`, whose query string is taken as an uninterpreted value,
 and `Url::parse` followed by `query_pairs`, taken as the list of decoded
 query pairs of a link, or `None` when the link is not a URL.
 */
module Roku {
  import opened Wrappers
  import Keys
  import Ascii
  import Strings

  /** `SearchParams`: the keyword and the optional search filters. */
  datatype SearchParams = SearchParams(
    keyword: string,
    kind: Option<string>,
    title: Option<string>,
    season: Option<string>,
    launch: Option<bool>,
    provider: Option<string>,
    providerId: Option<string>)

  /** `RokuApp`: the apps a launch can target. */
  datatype RokuApp = YouTube

  /** `LaunchParams`: the app and the link naming the content to play. */
  datatype LaunchParams = LaunchParams(app: RokuApp, contentId: string)

  /**
   `RokuCommand`. The thirteen button variants are grouped under `Keypress`;
   `Discover` is not a device command (its path is empty).
   */
  datatype Command =
    | Discover
    | Keypress(key: Keys.Key)
    | Search(searchParams: SearchParams)
    | Launch(launchParams: LaunchParams)
    | DeviceInfo

  /** The two error messages of this file: "Unknown Roku app" and "Invalid content identifier". */
  datatype Error = UnknownApp(name: string) | InvalidContentIdentifier

  /** Decoded `(key, value)` query pairs of a URL, in order of appearance. */
  type QueryPairs = seq<(string, string)>

  /** The results the encoder takes from libraries outside the model. */
  datatype Libraries = Libraries(
    serializeQuery: SearchParams -> string,
    parseQueryPairs: string -> Option<QueryPairs>)

  const DeviceInfoRoute: string := "query/device-info"
  const SearchRoute: string := "search/browse"
  const LaunchRoute: string := "launch"
  const ContentIdKey: string := "contentId"
  /** The query key that carries a YouTube video id. */
  const VideoKey: string := "v"

  /** `RokuApp::from_str`: the lower-cased name must be "youtube". */
  function ParseApp(s: string): (r: Result<RokuApp, Error>)
    ensures r.Failure? ==> r.error == UnknownApp(s)
  {
    if Ascii.ToLower(s) == "youtube" then Success(YouTube) else Failure(UnknownApp(s))
  }

  /** `RokuApp::id`: the channel id the device knows the app by, a non-empty decimal number. */
  function AppId(app: RokuApp): (r: string)
    ensures |r| > 0 && forall i :: 0 <= i < |r| ==> '0' <= r[i] <= '9'
  {
    match app
    case YouTube => "837"
  }

  /**
   Collecting query pairs into a `HashMap`: each pair inserts its key, so a
   repeated key keeps the value of its last occurrence.
   */
  function CollectQuery(pairs: QueryPairs): (m: map<string, string>)
    decreases |pairs|
    ensures m.Keys == set i | 0 <= i < |pairs| :: pairs[i].0
  {
    if |pairs| == 0 then map[]
    else
      var last := pairs[|pairs| - 1];
      CollectQuery(pairs[..|pairs| - 1])[last.0 := last.1]
  }

  /**
   The content id of a launch: the `v` query value of the link, for YouTube.
   There is one exactly when the link parses and has a `v` pair.
   */
  function ContentId(lp: LaunchParams, libs: Libraries): (r: Option<string>)
    ensures r.Some? <==> HasQueryKey(libs.parseQueryPairs(lp.contentId), VideoKey)
  {
    match lp.app
    case YouTube =>
      match libs.parseQueryPairs(lp.contentId)
      case None => None
      case Some(pairs) =>
        var query := CollectQuery(pairs);
        if VideoKey in query then Some(query[VideoKey]) else None
  }

  /** `LaunchParams::path`: `<app id>?contentId=<id>`, or an error when no id is found. */
  function LaunchPath(lp: LaunchParams, libs: Libraries): (r: Result<string, Error>)
    ensures r.Failure? ==> r.error == InvalidContentIdentifier
  {
    match ContentId(lp, libs)
    case None => Failure(InvalidContentIdentifier)
    case Some(id) => Success(AppId(lp.app) + "?" + ContentIdKey + "=" + id)
  }

  /**
   `Display for RokuCommand`. The source panics when the launch path cannot
   be built; here that is the `Failure` result, and it is the only failure.
   */
  function Encode(c: Command, libs: Libraries): (r: Result<string, Error>)
    ensures r.Failure? <==> c.Launch? && LaunchPath(c.launchParams, libs).Failure?
    ensures r.Failure? ==> r.error == InvalidContentIdentifier
  {
    match c
    case Keypress(k) => Success(Keys.KeypressPath(k))
    case Search(params) =>
      var qs := CollectChars(libs.serializeQuery(params));
      Success(SearchRoute + "?" + qs)
    case DeviceInfo => Success(DeviceInfoRoute)
    case Launch(params) =>
      (match LaunchPath(params, libs)
       case Success(path) => Success(LaunchRoute + "/" + path)
       case Failure(e) => Failure(e))
    case Discover => Success("")
  }

  /** `.chars().collect::<String>()`: rebuilds a string one character at a time. */
  function CollectChars(s: string): (r: string)
    ensures r == s
  {
    if |s| == 0 then [] else [s[0]] + CollectChars(s[1..])
  }

  /** What a wire path says about the command that produced it. */
  datatype PathKind =
    | Blank
    | KeyPress(key: Keys.Key)
    | SearchQuery(query: string)
    | LaunchTarget(target: string)
    | InfoQuery
    | Unrecognised

  /** Reads a wire path back into the command shape it encodes. */
  function Classify(path: string): PathKind
  {
    var keyPrefix := Keys.KeypressRoute + "/";
    var searchPrefix := SearchRoute + "?";
    var launchPrefix := LaunchRoute + "/";
    if path == "" then Blank
    else if path == DeviceInfoRoute then InfoQuery
    else if Strings.StartsWith(path, keyPrefix) then
      match Keys.KeyOfPath(path)
      case Some(k) => KeyPress(k)
      case None => Unrecognised
    else if Strings.StartsWith(path, searchPrefix) then SearchQuery(path[|searchPrefix|..])
    else if Strings.StartsWith(path, launchPrefix) then LaunchTarget(path[|launchPrefix|..])
    else Unrecognised
  }

  /** The shape each command is expected to be read back as. */
  function ExpectedKind(c: Command, libs: Libraries): PathKind
  {
    match c
    case Discover => Blank
    case Keypress(k) => KeyPress(k)
    case Search(params) => SearchQuery(libs.serializeQuery(params))
    case Launch(params) =>
      (match LaunchPath(params, libs)
       case Success(p) => LaunchTarget(p)
       case Failure(_) => Unrecognised)
    case DeviceInfo => InfoQuery
  }

  /** The link parsed as a URL and its query has a pair with key `key`. */
  predicate HasQueryKey(parsed: Option<QueryPairs>, key: string)
  {
    parsed.Some? && exists i :: 0 <= i < |parsed.value| && parsed.value[i].0 == key
  }

  /** The app parser accepts exactly the case variants of "youtube". */
  lemma ParseAppAcceptsCaseVariants(s: string)
    ensures ParseApp(s) == Success(YouTube) <==> Ascii.IsCaseVariantOf(s, "youtube")
    ensures !Ascii.IsCaseVariantOf(s, "youtube") ==> ParseApp(s) == Failure(UnknownApp(s))
  {
    Ascii.ToLowerMatches(s, "youtube");
  }

  /** In the collected query a repeated key holds the value of its last pair. */
  lemma {:induction false} CollectQueryLastWins(pairs: QueryPairs, i: int)
    requires 0 <= i < |pairs|
    requires forall j :: i < j < |pairs| ==> pairs[j].0 != pairs[i].0
    ensures pairs[i].0 in CollectQuery(pairs)
    ensures CollectQuery(pairs)[pairs[i].0] == pairs[i].1
    decreases |pairs|
  {
    if i < |pairs| - 1 {
      CollectQueryLastWins(pairs[..|pairs| - 1], i);
    }
  }

  /** A launch path is refused exactly when the link is not a URL or has no `v` pair. */
  lemma LaunchPathFailsWithoutVideoKey(lp: LaunchParams, libs: Libraries)
    ensures LaunchPath(lp, libs).Failure? <==> !HasQueryKey(libs.parseQueryPairs(lp.contentId), VideoKey)
    ensures LaunchPath(lp, libs).Failure? ==> Encode(Launch(lp), libs) == Failure(InvalidContentIdentifier)
  {
    var parsed := libs.parseQueryPairs(lp.contentId);
    if parsed.Some? {
      var query := CollectQuery(parsed.value);
      assert VideoKey in query <==> VideoKey in (set i | 0 <= i < |parsed.value| :: parsed.value[i].0);
    }
  }

  /** The YouTube launch path and route, spelled out for a content id `v`. */
  lemma YouTubeLaunchLiteral(v: string)
    ensures AppId(YouTube) + "?" + ContentIdKey + "=" + v == "837?contentId=" + v
    ensures LaunchRoute + "/" + ("837?contentId=" + v) == "launch/837?contentId=" + v
  {
    assert AppId(YouTube) + "?" + ContentIdKey + "=" == "837?contentId=";
    assert LaunchRoute + "/" + "837?contentId=" == "launch/837?contentId=";
  }

  /**
   A YouTube link whose last `v` pair is at index `i` launches
   `launch/837?contentId=<that value>`.
   */
  lemma LaunchYouTubeUsesLastVideoKey(lp: LaunchParams, libs: Libraries, pairs: QueryPairs, i: int)
    requires lp.app == YouTube
    requires libs.parseQueryPairs(lp.contentId) == Some(pairs)
    requires 0 <= i < |pairs| && pairs[i].0 == VideoKey
    requires forall j :: i < j < |pairs| ==> pairs[j].0 != VideoKey
    ensures LaunchPath(lp, libs) == Success("837?contentId=" + pairs[i].1)
    ensures Encode(Launch(lp), libs) == Success("launch/837?contentId=" + pairs[i].1)
  {
    var v := pairs[i].1;
    assert ContentId(lp, libs) == Some(v) by { CollectQueryLastWins(pairs, i); }
    YouTubeLaunchLiteral(v);
  }

  /** The search path is the route followed by the serialized query, unchanged. */
  lemma SearchEncoding(params: SearchParams, libs: Libraries)
    ensures Encode(Search(params), libs) == Success("search/browse?" + libs.serializeQuery(params))
  {
    assert SearchRoute + "?" == "search/browse?";
  }

  /** The fixed paths: device info, and the empty path of `Discover`. */
  lemma FixedPaths(libs: Libraries)
    ensures Encode(DeviceInfo, libs) == Success("query/device-info")
    ensures Encode(Discover, libs) == Success("")
    ensures Encode(Keypress(Keys.Pause), libs) == Success("keypress/Pause")
  {
    Keys.KeypressLiterals();
  }

  /** Two key presses encode to the same path only when they are the same key. */
  lemma KeypressEncodingInjective(k1: Keys.Key, k2: Keys.Key, libs: Libraries)
    ensures Encode(Keypress(k1), libs) == Encode(Keypress(k2), libs) <==> k1 == k2
  {
    Keys.KeypressPathInjective(k1, k2);
  }

  /** Every successfully encoded command is read back as its own shape. */
  lemma ClassifyInvertsEncode(c: Command, libs: Libraries)
    requires Encode(c, libs).Success?
    ensures Classify(Encode(c, libs).value) == ExpectedKind(c, libs)
  {
    var path := Encode(c, libs).value;
    var keyPrefix := Keys.KeypressRoute + "/";
    var searchPrefix := SearchRoute + "?";
    var launchPrefix := LaunchRoute + "/";
    match c
    case Discover =>
    case DeviceInfo =>
    case Keypress(k) =>
      Keys.KeypressPathReadBack(k);
      assert path[0] == 'k';
      assert Strings.StartsWith(path, keyPrefix);
    case Search(params) =>
      assert path[0] == 's';
      assert !Strings.StartsWith(path, keyPrefix) by { assert keyPrefix[0] == 'k'; }
      assert Strings.StartsWith(path, searchPrefix);
      assert path[|searchPrefix|..] == libs.serializeQuery(params);
    case Launch(params) =>
      assert path[0] == 'l';
      assert !Strings.StartsWith(path, keyPrefix) by { assert keyPrefix[0] == 'k'; }
      assert !Strings.StartsWith(path, searchPrefix) by { assert searchPrefix[0] == 's'; }
      assert Strings.StartsWith(path, launchPrefix);
      assert path[|launchPrefix|..] == LaunchPath(params, libs).value;
  }
}
