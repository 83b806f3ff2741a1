/** Which requests belong to the API, and which of them are the refresh call: tests on parsed URLs. */
module UrlPaths {
  import opened Options
  import opened Text

  const SLASH := '/'

  /** A URL as parsed: the path always starts with a slash. */
  datatype Url = Url(origin: string, pathname: string) {
    ghost predicate WellFormed() { "/" <= pathname }
  }

  function StripTrailing(s: string): string {
    if s != "" && s[|s| - 1] == SLASH then StripTrailing(s[..|s| - 1]) else s
  }

  /** Whether a request is for the API: its origin, at the base path or below it. An unparseable URL never is. */
  predicate IsSameApiTarget(target: Option<Url>, base: Option<Url>) {
    && target.Some? && base.Some?
    && target.value.origin == base.value.origin
    && var basePath := StripTrailing(base.value.pathname);
      basePath == "" || target.value.pathname == basePath || basePath + "/" <= target.value.pathname
  }

  function EndpointPath(endpoint: string): string {
    StripTrailing(if "/" <= endpoint then endpoint else "/" + endpoint)
  }

  /** Whether a request's path ends at an endpoint. */
  predicate IsEndpointPath(target: Option<Url>, endpoint: string) {
    && target.Some?
    && var path := EndpointPath(endpoint);
      path != "" && (target.value.pathname == path || EndsWith(target.value.pathname, path))
  }

  function Segments(path: string): (parts: seq<string>)
    ensures parts != []
  {
    Split(path, SLASH)
  }

  /** A string test on a segment boundary is a test on segment lists. */
  lemma PrefixSegments(b: string, s: string)
    ensures s == b || b + "/" <= s <==> Segments(b) <= Segments(s)
  {
    if b + "/" <= s {
      var rest := s[|b| + 1..];
      assert s == b + [SLASH] + rest;
      SplitConcat(b, rest, SLASH);
    }
    if Segments(b) <= Segments(s) {
      var rest := Segments(s)[|Segments(b)|..];
      assert Segments(s) == Segments(b) + rest;
      if rest == [] {
        SplitInjective(s, b, SLASH);
      } else {
        JoinSplit(s, SLASH);
        JoinSplit(b, SLASH);
        JoinConcat(Segments(b), rest, SLASH);
      }
    }
  }

  lemma SuffixSegments(e: string, s: string)
    ensures EndsWith(s, "/" + e) <==> |Segments(e)| < |Segments(s)| && EndsWith(Segments(s), Segments(e))
  {
    hide Segments;
    if EndsWith(s, "/" + e) {
      SuffixToSegments(e, s);
    }
    if |Segments(e)| < |Segments(s)| && EndsWith(Segments(s), Segments(e)) {
      SegmentsToSuffix(e, s);
    }
  }

  lemma SuffixToSegments(e: string, s: string)
    requires EndsWith(s, "/" + e)
    ensures |Segments(e)| < |Segments(s)| && EndsWith(Segments(s), Segments(e))
  {
    hide Split;
    var front := s[..|s| - |e| - 1];
    assert s == front + ("/" + e) == front + [SLASH] + e;
    SplitConcat(front, e, SLASH);
  }

  lemma SegmentsToSuffix(e: string, s: string)
    requires |Segments(e)| < |Segments(s)| && EndsWith(Segments(s), Segments(e))
    ensures EndsWith(s, "/" + e)
  {
    hide Split, Join;
    var front := Segments(s)[..|Segments(s)| - |Segments(e)|];
    assert Segments(s) == front + Segments(e);
    JoinSplit(s, SLASH);
    JoinSplit(e, SLASH);
    JoinConcat(front, Segments(e), SLASH);
    assert s == Join(front, SLASH) + ("/" + e);
  }

  lemma RootSegment(s: string)
    requires "/" <= s
    ensures Segments("") <= Segments(s)
  {
    SplitStep(SLASH, s[1..], SLASH);
    assert s == [SLASH] + s[1..];
  }

  /** A request is for the API exactly when the origins agree and the base's segments begin its own. */
  lemma ApiTargetBySegments(target: Url, base: Url)
    requires target.WellFormed()
    ensures IsSameApiTarget(Some(target), Some(base)) <==>
      target.origin == base.origin && Segments(StripTrailing(base.pathname)) <= Segments(target.pathname)
  {
    PrefixSegments(StripTrailing(base.pathname), target.pathname);
    if StripTrailing(base.pathname) == "" {
      RootSegment(target.pathname);
    }
  }

  lemma {:induction false} StripTrailingShape(s: string)
    ensures StripTrailing(s) <= s
    ensures !EndsWith(StripTrailing(s), "/")
    ensures !EndsWith(s, "/") ==> StripTrailing(s) == s
  {
    if s != "" && s[|s| - 1] == SLASH {
      StripTrailingShape(s[..|s| - 1]);
    }
  }

  lemma WholeSuffix(s: string)
    ensures EndsWith(s, s)
  {
  }

  lemma EndpointShape(endpoint: string)
    requires EndpointPath(endpoint) != ""
    ensures EndpointPath(endpoint) == "/" + EndpointPath(endpoint)[1..]
  {
    hide StripTrailing, EndsWith;
    StripTrailingShape(if "/" <= endpoint then endpoint else "/" + endpoint);
    var path := EndpointPath(endpoint);
    assert path[0] == SLASH;
    assert path == [path[0]] + path[1..];
  }

  lemma SuffixOfRest<T>(x: seq<T>, y: seq<T>)
    requires y != []
    ensures |x| < |y| && EndsWith(y, x) <==> EndsWith(y[1..], x)
  {
    if |x| < |y| {
      assert y[|y| - |x|..] == y[1..][|y| - 1 - |x|..];
    }
  }

  /** A request is at an endpoint exactly when the endpoint's segments end its own: no partial segment ever matches. */
  lemma EndpointBySegments(target: Url, endpoint: string)
    requires target.WellFormed()
    ensures IsEndpointPath(Some(target), endpoint) <==>
      EndpointPath(endpoint) != "" && EndsWith(Segments(target.pathname)[1..], Segments(EndpointPath(endpoint)[1..]))
  {
    hide Segments, StripTrailing, EndpointPath, EndsWith;
    var path := EndpointPath(endpoint);
    if path != "" {
      EndpointShape(endpoint);
      WholeSuffix(path);
      var e := path[1..];
      SuffixSegments(e, target.pathname);
      var all := Segments(target.pathname);
      SuffixOfRest(Segments(e), all);
    }
  }

  predicate Mark(c: char) {
    c == '?' || c == '#'
  }

  /** No query and no fragment begins in it. */
  predicate Bare(s: string) {
    forall i :: 0 <= i < |s| ==> !Mark(s[i])
  }

  /** The part of an address before its query or fragment. */
  function Cut(s: string): string {
    if s == "" || Mark(s[0]) then "" else [s[0]] + Cut(s[1..])
  }

  /** It ends before the first `?` or `#`. */
  lemma {:induction false} CutMeans(s: string)
    ensures '?' !in Cut(s) && '#' !in Cut(s)
    ensures Cut(s) == s || Cut(s) + "?" <= s || Cut(s) + "#" <= s
  {
    if s != "" && s[0] !in "?#" {
      CutMeans(s[1..]);
      assert s == [s[0]] + s[1..];
    }
  }

  lemma {:induction false} CutBare(s: string)
    ensures Bare(Cut(s)) && Cut(s) <= s
    ensures Bare(s) ==> Cut(s) == s
  {
    if s != "" {
      CutBare(s[1..]);
      assert s == [s[0]] + s[1..];
    }
  }

  lemma {:induction false} CutConcat(a: string, b: string)
    requires Bare(a)
    ensures Cut(a + b) == a + Cut(b)
  {
    if a == "" {
      assert a + b == b;
    } else {
      CutConcat(a[1..], b);
      CutAppend(a[0], a[1..], b);
      assert a == [a[0]] + a[1..];
    }
  }

  lemma CutAppend(c: char, a: string, b: string)
    requires !Mark(c) && Cut(a + b) == a + Cut(b)
    ensures Cut([c] + a + b) == [c] + a + Cut(b)
  {
    CutStep(c, a + b);
    hide Cut;
    assert [c] + a + b == [c] + (a + b);
    assert [c] + a + Cut(b) == [c] + (a + Cut(b));
  }

  lemma CutStep(c: char, s: string)
    ensures Cut([c] + s) == if Mark(c) then "" else [c] + Cut(s)
  {
    assert ([c] + s)[1..] == s;
  }

  lemma {:induction false} StripKeepsMarks(s: string)
    ensures Bare(StripTrailing(s)) <==> Bare(s)
  {
    if s != "" && s[|s| - 1] == SLASH {
      StripKeepsMarks(s[..|s| - 1]);
      assert s == s[..|s| - 1] + "/";
    }
  }

  /** The client's addresses: base URL (origin and path as configured), path prefix and refresh endpoint. */
  datatype Config = Config(
    origin: string,
    basePath: string,
    prefix: string,
    refresh: string,
    publicPaths: seq<string>)
  {
    /**
      The base path is empty or absolute; after a bare origin so is the prefix, which would otherwise become part of
      the host. Neither holds a query or a fragment.
     */
    ghost predicate WellFormed() {
      && (basePath == "" || "/" <= basePath)
      && (basePath == "" ==> prefix == "" || "/" <= prefix)
      && Bare(basePath) && Bare(prefix)
    }

    function Base(): Url {
      Url(origin, if basePath == "" then "/" else basePath)
    }

    function NormalizedRefresh(): string {
      if "/" <= refresh then refresh else "/" + refresh
    }

    /** The path the client's own URL builder puts after the base URL. */
    function ClientPath(): string {
      if prefix != "" && !(prefix <= NormalizedRefresh()) then prefix + NormalizedRefresh() else NormalizedRefresh()
    }

    function RefreshUrl(): Url {
      Url(origin, Cut(basePath + ClientPath()))
    }

    /** The refresh endpoint is a path and nothing more, without a slash at its end. */
    predicate PlainRefresh() {
      Bare(NormalizedRefresh()) && !EndsWith(NormalizedRefresh(), "/")
    }

    /** The client's path starts a segment of its own: there is a slash where it meets the base URL. */
    predicate UnderBase() {
      "/" <= ClientPath() || EndsWith(basePath, "/")
    }

    /** The path the interceptor compares with: unlike the client it adds no prefix to a base URL that ends with it. */
    function EffectivePath(): string {
      if prefix != "" && !EndsWith(origin + basePath, prefix) && !(prefix <= NormalizedRefresh())
      then prefix + NormalizedRefresh() else NormalizedRefresh()
    }

    predicate IsApi(url: Option<Url>) {
      IsSameApiTarget(url, Some(Base()))
    }

    predicate IsPublic(url: Option<Url>) {
      exists i :: 0 <= i < |publicPaths| && IsEndpointPath(url, publicPaths[i])
    }

    /** Whether the interceptor gates a request during a refresh and refreshes on its 401. */
    predicate ShouldIntercept(url: Option<Url>) {
      IsApi(url) && !IsEndpointPath(url, EffectivePath()) && !IsPublic(url)
    }
  }

  /** Whether the segments of an endpoint end those of a request. */
  ghost predicate EndsAt(url: Url, endpoint: string) {
    var path := EndpointPath(endpoint);
    path != "" && EndsWith(Segments(url.pathname)[1..], Segments(path[1..]))
  }

  /**
    A request is intercepted exactly when its origin is the base URL's, the base path's segments begin its own, and it
    is neither at the refresh endpoint nor at a public one.
   */
  lemma InterceptedExactly(cfg: Config, url: Url)
    requires url.WellFormed()
    ensures cfg.ShouldIntercept(Some(url)) <==>
      && url.origin == cfg.origin && Segments(StripTrailing(cfg.basePath)) <= Segments(url.pathname)
      && !EndsAt(url, cfg.EffectivePath())
      && forall path :: path in cfg.publicPaths ==> !EndsAt(url, path)
    ensures !cfg.ShouldIntercept(None)
  {
    hide Segments, IsSameApiTarget, IsEndpointPath, Config.EffectivePath;
    ApiTargetBySegments(url, cfg.Base());
    assert StripTrailing("/") == StripTrailing("");
    EndpointBySegments(url, cfg.EffectivePath());
    forall i | 0 <= i < |cfg.publicPaths|
      ensures IsEndpointPath(Some(url), cfg.publicPaths[i]) <==> EndsAt(url, cfg.publicPaths[i])
    {
      EndpointBySegments(url, cfg.publicPaths[i]);
    }
    NowhereTarget(cfg);
  }

  lemma NowhereTarget(cfg: Config)
    ensures !cfg.IsApi(None)
  {
  }

  lemma EndsWithConcat(a: string, b: string, c: string)
    ensures EndsWith(a + b, b)
    ensures EndsWith(b, c) ==> EndsWith(a + b, c)
  {
    assert (a + b)[|a + b| - |b|..] == b;
    if EndsWith(b, c) {
      assert (a + b)[|a + b| - |c|..] == b[|b| - |c|..];
    }
  }

  /** A path ending with an absolute endpoint matches it exactly when the endpoint has no trailing slash. */
  lemma EndpointOfSuffix(url: Url, endpoint: string)
    requires "/" <= endpoint && EndsWith(url.pathname, endpoint)
    ensures IsEndpointPath(Some(url), endpoint) <==> !EndsWith(endpoint, "/")
  {
    StripTrailingShape(endpoint);
    SuffixLast(url.pathname, endpoint);
    if EndpointPath(endpoint) != "" && EndsWith(url.pathname, EndpointPath(endpoint)) {
      SuffixLast(url.pathname, EndpointPath(endpoint));
    }
  }

  lemma SuffixLast(s: string, suffix: string)
    requires suffix != "" && EndsWith(s, suffix)
    ensures EndsWith(s, "/") <==> EndsWith(suffix, "/")
  {
    assert s[|s| - 1] == suffix[|suffix| - 1];
  }

  /** The refresh request's path, with what the client puts in front of the endpoint. */
  lemma RefreshPathname(cfg: Config)
    requires cfg.WellFormed()
    ensures Bare(cfg.RefreshUrl().pathname)
    ensures Bare(cfg.NormalizedRefresh()) ==> cfg.RefreshUrl().pathname == cfg.basePath + cfg.ClientPath()
    ensures cfg.basePath <= cfg.RefreshUrl().pathname
    ensures "/" <= cfg.ClientPath() ==> cfg.basePath + "/" <= cfg.RefreshUrl().pathname
    ensures cfg.ClientPath() != "" && cfg.RefreshUrl().pathname != cfg.basePath
    ensures !("/" <= cfg.ClientPath()) ==>
      cfg.prefix != "" && cfg.basePath + cfg.prefix <= cfg.RefreshUrl().pathname && cfg.prefix[0] != SLASH
  {
    var norm, client := cfg.NormalizedRefresh(), cfg.ClientPath();
    CutBare(cfg.basePath + client);
    CutBare(norm);
    CutConcat(cfg.basePath, client);
    CutConcat(cfg.prefix, norm);
    assert Cut(norm)[0] == SLASH;
    assert client == norm || client == cfg.prefix + norm;
  }

  /** What the interceptor compares with is how the client's refresh path ends. */
  lemma EffectiveEndsClient(cfg: Config)
    requires cfg.WellFormed() && Bare(cfg.NormalizedRefresh())
    ensures EndsWith(cfg.RefreshUrl().pathname, cfg.EffectivePath())
    ensures EndsWith(cfg.EffectivePath(), "/") <==> EndsWith(cfg.NormalizedRefresh(), "/")
    ensures !("/" <= cfg.EffectivePath()) ==> cfg.EffectivePath() == cfg.ClientPath()
    ensures cfg.EffectivePath() != ""
  {
    hide EndsWith, Cut;
    var norm, client, effective := cfg.NormalizedRefresh(), cfg.ClientPath(), cfg.EffectivePath();
    RefreshPathname(cfg);
    if effective == client {
      WholeSuffix(client);
    } else {
      EndsWithConcat(cfg.prefix, norm, norm);
    }
    EndsWithConcat(cfg.basePath, client, effective);
    LastOf(cfg.prefix, norm);
  }

  lemma LastOf(a: string, b: string)
    requires b != ""
    ensures EndsWith(a + b, "/") <==> EndsWith(b, "/")
  {
    assert (a + b)[|a + b| - 1] == b[|b| - 1];
  }

  /** The interceptor's path is the client's exactly when neither adds the prefix or both do. */
  lemma PathsAgree(cfg: Config)
    ensures cfg.EffectivePath() == cfg.ClientPath() <==>
      cfg.prefix == "" || cfg.prefix <= cfg.NormalizedRefresh() || !EndsWith(cfg.origin + cfg.basePath, cfg.prefix)
  {
    assert |cfg.prefix + cfg.NormalizedRefresh()| == |cfg.prefix| + |cfg.NormalizedRefresh()|;
  }

  /** A path with a query or fragment in it is never the end of a parsed one. */
  lemma MarkedNeverMatches(url: Url, endpoint: string)
    requires Bare(url.pathname) && !Bare(endpoint)
    ensures !IsEndpointPath(Some(url), endpoint)
  {
    hide StripTrailing;
    var absolute := if "/" <= endpoint then endpoint else "/" + endpoint;
    assert !Bare(absolute) by {
      var i :| 0 <= i < |endpoint| && Mark(endpoint[i]);
      assert Mark(absolute[i + |absolute| - |endpoint|]);
    }
    StripKeepsMarks(absolute);
    var path := EndpointPath(endpoint);
    if EndsWith(url.pathname, path) {
      SuffixBare(url.pathname, path);
    }
  }

  lemma SuffixBare(s: string, suffix: string)
    requires Bare(s) && EndsWith(s, suffix)
    ensures Bare(suffix)
  {
    assert forall i :: 0 <= i < |suffix| ==> suffix[i] == s[|s| - |suffix| + i];
  }

  lemma SuffixFirst(s: string, suffix: string)
    requires suffix != "" && EndsWith(s, suffix)
    ensures s[|s| - |suffix|] == suffix[0]
  {
  }

  /** A relative endpoint matches where a slash stands in front of it. */
  lemma RelativeEndpoint(url: Url, base: string, endpoint: string)
    requires endpoint != "" && !("/" <= endpoint) && "/" <= base && url.pathname == base + endpoint
    ensures IsEndpointPath(Some(url), endpoint) <==> !EndsWith(endpoint, "/") && EndsWith(base, "/")
  {
    LastOf(base, endpoint);
    if EndsWith(endpoint, "/") {
      RelativeSlash(url, endpoint);
    } else if EndsWith(base, "/") {
      RelativeAtSlash(url, base, endpoint);
    } else {
      RelativeInside(url, base, endpoint);
    }
  }

  lemma RelativeAtSlash(url: Url, base: string, endpoint: string)
    requires endpoint != "" && !("/" <= endpoint) && !EndsWith(endpoint, "/")
    requires EndsWith(base, "/") && url.pathname == base + endpoint
    ensures IsEndpointPath(Some(url), endpoint)
  {
    var absolute := "/" + endpoint;
    LastOf("/", endpoint);
    StripTrailingShape(absolute);
    assert base == base[..|base| - 1] + "/";
    assert url.pathname == base[..|base| - 1] + absolute;
    EndsWithConcat(base[..|base| - 1], absolute, absolute);
    EndpointOfSuffix(url, absolute);
  }

  lemma RelativeInside(url: Url, base: string, endpoint: string)
    requires endpoint != "" && !("/" <= endpoint) && !EndsWith(endpoint, "/")
    requires base != "" && !EndsWith(base, "/") && url.pathname == base + endpoint
    ensures !IsEndpointPath(Some(url), endpoint)
  {
    var absolute := "/" + endpoint;
    LastOf("/", endpoint);
    StripTrailingShape(absolute);
    assert url.pathname[|base| - 1] == base[|base| - 1] != SLASH;
    hide StripTrailing;
    if EndsWith(url.pathname, absolute) {
      SuffixFirst(url.pathname, absolute);
    }
  }

  /** A path that ends in a slash is at no endpoint. */
  lemma RelativeSlash(url: Url, endpoint: string)
    requires EndsWith(url.pathname, "/")
    ensures !IsEndpointPath(Some(url), endpoint)
  {
    StripTrailingShape(if "/" <= endpoint then endpoint else "/" + endpoint);
    var path := EndpointPath(endpoint);
    if path != "" && EndsWith(url.pathname, path) {
      SuffixLast(url.pathname, path);
    }
  }

  /**
    The interceptor knows the client's refresh request exactly when the configured refresh path is plain and what it
    compares with meets the base URL at a slash, even where the two disagree about adding the prefix.
   */
  lemma RefreshRecognized(cfg: Config)
    requires cfg.WellFormed()
    ensures IsEndpointPath(Some(cfg.RefreshUrl()), cfg.EffectivePath()) <==>
      cfg.PlainRefresh() && ("/" <= cfg.EffectivePath() || EndsWith(cfg.basePath, "/"))
  {
    hide EndsWith, Cut, EndpointPath;
    var url, effective := cfg.RefreshUrl(), cfg.EffectivePath();
    RefreshPathname(cfg);
    if !Bare(cfg.NormalizedRefresh()) {
      EffectiveMarked(cfg);
      MarkedNeverMatches(url, effective);
    } else {
      EffectiveEndsClient(cfg);
      if "/" <= effective {
        EndpointOfSuffix(url, effective);
      } else {
        RelativeEndpoint(url, cfg.basePath, effective);
      }
    }
  }

  lemma EffectiveMarked(cfg: Config)
    requires !Bare(cfg.NormalizedRefresh())
    ensures !Bare(cfg.EffectivePath())
  {
    var norm := cfg.NormalizedRefresh();
    var i :| 0 <= i < |norm| && Mark(norm[i]);
    assert Mark(cfg.EffectivePath()[i + |cfg.EffectivePath()| - |norm|]);
  }

  lemma {:induction false} StripTrailingSlashes(s: string)
    ensures s == StripTrailing(s) || StripTrailing(s) + "/" <= s
  {
    if s != "" && s[|s| - 1] == SLASH {
      StripTrailingSlashes(s[..|s| - 1]);
      assert s == s[..|s| - 1] + "/";
    }
  }

  /** The client's refresh request is for the API exactly when its path starts a segment under the base URL. */
  lemma RefreshIsApi(cfg: Config)
    requires cfg.WellFormed()
    ensures cfg.IsApi(Some(cfg.RefreshUrl())) <==> cfg.UnderBase()
  {
    hide Cut, StripTrailing;
    var base, path := StripTrailing(cfg.Base().pathname), cfg.RefreshUrl().pathname;
    StripTrailingSlashes(cfg.Base().pathname);
    StripTrailingShape(cfg.Base().pathname);
    RefreshPathname(cfg);
    if cfg.basePath == "" || base != cfg.basePath {
      BaseBefore(cfg.basePath, path);
    } else if !("/" <= cfg.ClientPath()) {
      assert path[|base|] == cfg.prefix[0];
    }
  }

  lemma BaseBefore(basePath: string, path: string)
    requires basePath == "" || StripTrailing(basePath) != basePath
    requires basePath <= path
    ensures var base := StripTrailing(if basePath == "" then "/" else basePath);
      base == "" || base + "/" <= path
    ensures basePath != "" ==> EndsWith(basePath, "/")
  {
    if basePath == "" {
      assert StripTrailing("/") == "";
    } else {
      StripTrailingSlashes(basePath);
    }
  }

  /**
    When the refresh request would be intercepted like any other: it is under the base URL, its endpoint is not plain,
    and it is not also a public endpoint.
   */
  lemma {:induction false} RefreshIntercepted(cfg: Config)
    requires cfg.WellFormed()
    ensures cfg.ShouldIntercept(Some(cfg.RefreshUrl())) <==>
      cfg.UnderBase() && !cfg.PlainRefresh() && !cfg.IsPublic(Some(cfg.RefreshUrl()))
  {
    hide Cut, EndpointPath, StripTrailing, EndsWith, Bare;
    RefreshRecognized(cfg);
    RefreshIsApi(cfg);
    UnderBaseMeets(cfg);
  }

  lemma UnderBaseMeets(cfg: Config)
    ensures cfg.UnderBase() ==> "/" <= cfg.EffectivePath() || EndsWith(cfg.basePath, "/")
  {
  }
}
