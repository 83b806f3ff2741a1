/** The fixed-window rate limiter in front of the provider, and how much it can let through. */
module RateLimit {
  import opened Options
  import opened Text
  import opened Keys
  import opened Storage
  import opened OidcSpec

  datatype Limit = Limit(max: int, windowSeconds: int)

  datatype Guarded = Guarded(path: string, name: string, limit: Limit)

  datatype Config = Config(authorize: Option<Limit>, token: Option<Limit>, introspection: Option<Limit>)

  datatype Request = Request(url: string, forwardedFor: Option<string>, ip: Option<string>,
    remoteAddress: Option<string>)

  datatype Outcome = Forwarded | Rejected(status: int, retryAfter: int)

  /** What `String.trim` takes off: white space and line terminators. */
  predicate Blank(c: char) {
    || '\t' <= c <= '\r' || c == ' ' || '\U{2000}' <= c <= '\U{200A}'
    || c in {'\U{A0}', '\U{1680}', '\U{2028}', '\U{2029}', '\U{202F}', '\U{205F}', '\U{3000}', '\U{FEFF}'}
  }

  function Trim(s: string): string {
    if s == "" then ""
    else if Blank(s[0]) then Trim(s[1..])
    else if Blank(s[|s| - 1]) then Trim(s[..|s| - 1])
    else s
  }

  ghost predicate AllBlank(s: string) {
    forall c :: c in s ==> Blank(c)
  }

  /** A text that neither begins nor ends with a blank. */
  ghost predicate Tight(s: string) {
    s != "" ==> !Blank(s[0]) && !Blank(s[|s| - 1])
  }

  lemma {:induction false} TrimPadded(before: string, a: string, after: string)
    requires AllBlank(before) && AllBlank(after) && Tight(a)
    ensures Trim(before + a + after) == a
    decreases |before| + |after|
  {
    hide Blank;
    var s := before + a + after;
    if before != "" {
      assert s[0] == before[0] && s[1..] == before[1..] + a + after;
      TrimPadded(before[1..], a, after);
    } else if after != "" && a != "" {
      var last := |after| - 1;
      assert s[0] == a[0] && s[|s| - 1] == after[last] && s[..|s| - 1] == before + a + after[..last];
      TrimPadded(before, a, after[..last]);
    } else if after != "" {
      assert s[0] == after[0] && s[1..] == before + a + after[1..];
      TrimPadded(before, a, after[1..]);
    } else {
      assert s == a;
    }
  }

  /** The header's first value is this address, between blanks. */
  ghost predicate FirstValue(header: string, before: string, a: string, after: string) {
    && AllBlank(before) && AllBlank(after) && Tight(a) && ',' !in a
    && (header == before + a + after || before + a + after + "," <= header)
  }

  lemma SplitFirst(s: string, first: string, sep: char)
    ensures Split(s, sep)[0] == first <==> Free(first, sep) && (s == first || first + [sep] <= s)
  {
    FirstFree(s, sep);
    if Free(first, sep) && s == first {
      SplitFree(s, sep);
    } else if Free(first, sep) && first + [sep] <= s {
      var rest := s[|first| + 1..];
      assert s == first + [sep] + rest;
      SplitHead(first, rest, sep);
    }
  }

  /** The first part holds no separator, and ends at one or at the end. */
  lemma {:induction false} FirstFree(s: string, sep: char)
    ensures var first := Split(s, sep)[0]; Free(first, sep) && (s == first || first + [sep] <= s)
  {
    if s != "" {
      FirstFree(s[1..], sep);
      assert s == [s[0]] + s[1..];
    }
  }

  lemma ForwardedIp(req: Request, before: string, a: string, after: string)
    requires Truthy(req.forwardedFor) && FirstValue(req.forwardedFor.value, before, a, after)
    ensures ClientIp(req) == a
  {
    hide Blank, Tight;
    var first := before + a + after;
    assert Free(first, ',') by {
      assert !Blank(',') by { CommaInk(); }
    }
    SplitFirst(req.forwardedFor.value, first, ',');
    TrimPadded(before, a, after);
  }

  lemma CommaInk()
    ensures !Blank(',')
  {
  }

  /** The source address, preferring the first forwarded value. */
  function ClientIp(req: Request): string {
    if Truthy(req.forwardedFor) then Trim(Split(req.forwardedFor.value, ',')[0])
    else if req.ip.Some? then req.ip.value
    else if req.remoteAddress.Some? then req.remoteAddress.value
    else "unknown"
  }

  /** The limit whose path this is. */
  function Match(limits: seq<Guarded>, path: string): Option<Guarded> {
    if limits == [] then None
    else if limits[0].path == path then Some(limits[0])
    else Match(limits[1..], path)
  }

  lemma {:induction false} MatchExactly(limits: seq<Guarded>, path: string, g: Guarded)
    requires PathsDistinct(limits)
    ensures Match(limits, path) == Some(g) <==> g in limits && g.path == path
  {
    if limits != [] {
      assert limits == [limits[0]] + limits[1..];
      MatchExactly(limits[1..], path, g);
    }
  }

  /** The request is for this path, whatever its query. */
  ghost predicate OfPath(url: string, path: string) {
    '?' !in path && (url == path || path + "?" <= url)
  }

  lemma PathExactly(url: string, path: string)
    ensures Split(url, '?')[0] == path <==> OfPath(url, path)
  {
    SplitFirst(url, path, '?');
  }

  /** The request was counted under this limit and address, and let through while the count is within the limit. */
  ghost predicate CountedAs(before: map<string, Entry>, after: map<string, Entry>, now: int, g: Guarded, ip: string,
      outcome: Outcome)
  {
    var key := Print(LimitKey(g.name, ip));
    && (key in before ==> before[key].value.Count?)
    && after == before[key := Bumped(before, now, key, g.limit.windowSeconds)]
    && outcome == if after[key].value.n <= g.limit.max then Forwarded else Rejected(429, g.limit.windowSeconds)
  }

  function InsertByLength(g: Guarded, sorted: seq<Guarded>): seq<Guarded> {
    if sorted == [] || |g.path| >= |sorted[0].path| then [g] + sorted
    else [sorted[0]] + InsertByLength(g, sorted[1..])
  }

  /** Longest path first, earlier ones first among equals. */
  function LongestFirst(limits: seq<Guarded>): seq<Guarded> {
    if limits == [] then [] else InsertByLength(limits[0], LongestFirst(limits[1..]))
  }

  lemma {:induction false} MatchInsert(g: Guarded, sorted: seq<Guarded>, path: string)
    requires forall h :: h in sorted ==> h.path != g.path
    ensures Match(InsertByLength(g, sorted), path) == if g.path == path then Some(g) else Match(sorted, path)
    ensures forall h :: h in InsertByLength(g, sorted) <==> h == g || h in sorted
  {
    if sorted == [] || |g.path| >= |sorted[0].path| {
      assert ([g] + sorted)[1..] == sorted;
    } else {
      MatchInsert(g, sorted[1..], path);
      assert sorted == [sorted[0]] + sorted[1..];
    }
  }

  ghost predicate PathsDistinct(limits: seq<Guarded>) {
    forall i, j :: 0 <= i < j < |limits| ==> limits[i].path != limits[j].path
  }

  /** Counters are kept under colon-free names, one for each limit. */
  ghost predicate NamesDistinct(limits: seq<Guarded>) {
    && (forall i :: 0 <= i < |limits| ==> COLON !in limits[i].name)
    && forall i, j :: 0 <= i < j < |limits| ==> limits[i].name != limits[j].name
  }

  /** Paths are compared whole, so trying the longest first never changes which limit applies. */
  lemma {:induction false} OrderIrrelevant(limits: seq<Guarded>, path: string)
    requires PathsDistinct(limits)
    ensures Match(LongestFirst(limits), path) == Match(limits, path)
    ensures forall h :: h in LongestFirst(limits) <==> h in limits
  {
    if limits != [] {
      OrderIrrelevant(limits[1..], path);
      assert limits == [limits[0]] + limits[1..];
      MatchInsert(limits[0], LongestFirst(limits[1..]), path);
    }
  }

  /** Counters are what is stored under the limiter's keys. */
  ghost predicate Counters(entries: map<string, Entry>) {
    forall endpoint, ip :: Print(LimitKey(endpoint, ip)) in entries ==>
      entries[Print(LimitKey(endpoint, ip))].value.Count?
  }

  lemma EndpointNames()
    ensures COLON !in "authorize" && COLON !in "token" && COLON !in "introspection"
    ensures "authorize" != "token" && "authorize" != "introspection" && "token" != "introspection"
  {
  }

  lemma EndpointPaths(prefix: string)
    ensures prefix + "/auth" != prefix + "/token"
    ensures prefix + "/auth" != prefix + "/token/introspection" && prefix + "/token" != prefix + "/token/introspection"
  {
    assert (prefix + "/auth")[|prefix| + 1] != (prefix + "/token")[|prefix| + 1];
  }

  class RateLimiter {
    const storage: MemoryStorage
    const limits: seq<Guarded>

    constructor (storage: MemoryStorage, config: Config, prefix: string)
      ensures this.storage == storage && PathsDistinct(limits) && NamesDistinct(limits)
      ensures forall g :: g in limits <==>
        || (config.authorize.Some? && g == Guarded(prefix + "/auth", "authorize", config.authorize.value))
        || (config.token.Some? && g == Guarded(prefix + "/token", "token", config.token.value))
        || (config.introspection.Some? &&
          g == Guarded(prefix + "/token/introspection", "introspection", config.introspection.value))
    {
      hide Counters, Trim, Split, Print;
      EndpointNames();
      EndpointPaths(prefix);
      var pushed: seq<Guarded> := [];
      if config.authorize.Some? {
        pushed := pushed + [Guarded(prefix + "/auth", "authorize", config.authorize.value)];
      }
      if config.token.Some? {
        pushed := pushed + [Guarded(prefix + "/token", "token", config.token.value)];
      }
      if config.introspection.Some? {
        pushed := pushed + [Guarded(prefix + "/token/introspection", "introspection", config.introspection.value)];
      }
      this.storage := storage;
      this.limits := pushed;
    }

    /** Which limit and address a request is counted under. */
    lemma WhichLimit(req: Request)
      requires PathsDistinct(limits)
      ensures forall g :: Match(limits, Split(req.url, '?')[0]) == Some(g) <==> g in limits && OfPath(req.url, g.path)
      ensures forall before, a, after ::
        Truthy(req.forwardedFor) && FirstValue(req.forwardedFor.value, before, a, after) ==> ClientIp(req) == a
    {
      hide Split, Match, OfPath, FirstValue, ClientIp, PathsDistinct;
      var path := Split(req.url, '?')[0];
      forall g ensures Match(limits, path) == Some(g) <==> g in limits && OfPath(req.url, g.path) {
        MatchExactly(limits, path, g);
        PathExactly(req.url, g.path);
      }
      forall before, a, after | Truthy(req.forwardedFor) && FirstValue(req.forwardedFor.value, before, a, after)
        ensures ClientIp(req) == a
      {
        ForwardedIp(req, before, a, after);
      }
    }

    /** Forward, or count and then forward or reject. Unavailable storage forwards. */
    method Handle(req: Request, available: bool) returns (outcome: Outcome)
      requires PathsDistinct(limits) && Counters(storage.entries)
      modifies storage`entries
      ensures var guarded := Match(limits, Split(req.url, '?')[0]);
        if guarded.None? || !available then outcome == Forwarded && storage.entries == old(storage.entries)
        else
          var key, limit := Print(LimitKey(guarded.value.name, ClientIp(req))), guarded.value.limit;
          && storage.entries == old(storage.entries)[key :=
            Bumped(old(storage.entries), storage.clock, key, limit.windowSeconds)]
          && outcome == if storage.entries[key].value.n <= limit.max then Forwarded
            else Rejected(429, limit.windowSeconds)
      ensures forall g, before, a, after ::
        available && g in limits && OfPath(req.url, g.path) && Truthy(req.forwardedFor)
        && FirstValue(req.forwardedFor.value, before, a, after)
        ==> CountedAs(old(storage.entries), storage.entries, storage.clock, g, a, outcome)
      ensures !Truthy(req.forwardedFor) ==>
        var ip := if req.ip.Some? then req.ip.value
          else if req.remoteAddress.Some? then req.remoteAddress.value else "unknown";
        forall g :: available && g in limits && OfPath(req.url, g.path)
          ==> CountedAs(old(storage.entries), storage.entries, storage.clock, g, ip, outcome)
      ensures !available || (forall g :: g in limits ==> !OfPath(req.url, g.path)) ==>
        outcome == Forwarded && storage.entries == old(storage.entries)
      ensures Counters(storage.entries)
    {
      hide Blank, FirstValue, OfPath, Split, Print;
      WhichLimit(req);
      if |limits| == 0 {
        return Forwarded;
      }
      var path := Split(req.url, '?')[0];
      var guarded := Match(LongestFirst(limits), path);
      OrderIrrelevant(limits, path);
      if guarded.None? {
        return Forwarded;
      }
      if !available {
        return Forwarded;
      }
      var limit := guarded.value.limit;
      var count := storage.Incr(Print(LimitKey(guarded.value.name, ClientIp(req))), limit.windowSeconds);
      if count <= limit.max {
        return Forwarded;
      }
      return Rejected(429, limit.windowSeconds);
    }
  }
}
