/** How many requests of one endpoint and address the limiter lets through in any span of time. */
module Admission {
  import opened Options
  import opened Keys
  import opened Storage
  import opened OidcSpec
  import opened RateLimit

  /** Requests, the clock moving, and expired keys disappearing, in any order. */
  datatype Event = Ask(endpoint: string, ip: string, available: bool) | Pass(ms: nat) | Purge(keys: set<Key>)

  datatype World = World(t: Typed, now: int)

  type Limits = map<string, Limit>

  /** The request is counted: it is for a limited endpoint and the storage answers. */
  predicate Counts(limits: Limits, e: Event) {
    e.Ask? && e.available && e.endpoint in limits
  }

  function CounterAfter(w: World, k: Key, limit: Limit): Entry {
    if k in w.t && Live(w.t[k], w.now) && w.t[k].value.Count?
    then Entry(Count(w.t[k].value.n + 1), w.t[k].expiresAt)
    else Entry(Count(1), Some(w.now + limit.windowSeconds * 1000))
  }

  function Step(w: World, limits: Limits, e: Event): World {
    match e
    case Ask(endpoint, ip, _) =>
      if Counts(limits, e)
      then w.(t := w.t[LimitKey(endpoint, ip) := CounterAfter(w, LimitKey(endpoint, ip), limits[endpoint])])
      else w
    case Pass(ms) => w.(now := w.now + ms)
    case Purge(keys) => w.(t := map k | k in w.t && (k !in keys || Live(w.t[k], w.now)) :: w.t[k])
  }

  /**
    A counted request as the middleware stores it, on string keys, is a step here, and is let through exactly when
    admitted here.
   */
  lemma CountedStep(entries: map<string, Entry>, now: int, limits: Limits, endpoint: string, ip: string)
    requires Clean(entries) && endpoint in limits && COLON !in endpoint
    ensures var k, w := LimitKey(endpoint, ip), World(View(entries), now);
      && (Print(k) in entries ==> entries[Print(k)].value.Count?)
      && var after := Bumped(entries, now, Print(k), limits[endpoint].windowSeconds);
        && View(entries[Print(k) := after]) == Step(w, limits, Ask(endpoint, ip, true)).t
        && (after.value.n <= limits[endpoint].max <==> Admits(w, limits, Ask(endpoint, ip, true)))
  {
    hide Clean, View, Print;
    var k := LimitKey(endpoint, ip);
    CleanTyped(entries);
    ViewAt(entries, k);
    ViewSet(entries, k, Bumped(entries, now, Print(k), limits[endpoint].windowSeconds));
  }

  /** The request is counted and let through. */
  predicate Admits(w: World, limits: Limits, e: Event) {
    && Counts(limits, e)
    && var after := CounterAfter(w, LimitKey(e.endpoint, e.ip), limits[e.endpoint]);
      after.value.n <= limits[e.endpoint].max
  }

  /** Requests of this endpoint and address admitted from `lo` to `hi` inclusive. */
  function Admitted(w: World, limits: Limits, events: seq<Event>, endpoint: string, ip: string, lo: int, hi: int): nat
    decreases |events|
  {
    if events == [] then 0
    else
      var e := events[0];
      (if Admits(w, limits, e) && e.endpoint == endpoint && e.ip == ip && lo <= w.now <= hi then 1 else 0)
      + Admitted(Step(w, limits, e), limits, events[1..], endpoint, ip, lo, hi)
  }

  function Max0(n: int): nat {
    if n > 0 then n else 0
  }

  /** Windows of this length that can open after `from`, up to `hi`, each after the one before has closed. */
  function NewWindows(from: int, hi: int, window: nat): nat
    decreases hi - from
  {
    if hi <= from then 0 else 1 + NewWindows(from + 1 + window, hi, window)
  }

  lemma {:induction false} NewWindowsMono(from: int, later: int, hi: int, window: nat)
    requires from <= later
    ensures NewWindows(later, hi, window) <= NewWindows(from, hi, window)
    decreases hi - from
  {
    if later < hi {
      NewWindowsMono(from + 1 + window, later + 1 + window, hi, window);
    }
  }

  lemma NewWindowsNext(from: int, at: int, hi: int, window: nat)
    requires from < at <= hi
    ensures 1 + NewWindows(at + window, hi, window) <= NewWindows(from, hi, window)
  {
    NewWindowsMono(from + 1 + window, at + window, hi, window);
  }

  lemma MulStep(m: nat, n: nat)
    ensures m * (n + 1) == m * n + m
  {
  }

  lemma {:induction false} MulMono(m: nat, a: nat, b: nat)
    requires a <= b
    ensures m * a <= m * b
  {
    if a < b {
      MulMono(m, a, b - 1);
      MulStep(m, b - 1);
    }
  }

  /** As many windows open in a span as it takes to cover it. */
  lemma {:induction false} NewWindowsCover(from: int, hi: int, window: nat, c: nat)
    requires hi - from <= c * window
    ensures NewWindows(from, hi, window) <= c
    decreases hi - from
  {
    if from < hi {
      MulStep(window, c - 1);
      assert (c - 1) * window == c * window - window;
      NewWindowsCover(from + 1 + window, hi, window, c - 1);
    }
  }

  /** The counters in the store count, from zero up, and expire. */
  ghost predicate CountersGood(t: Typed) {
    forall k :: k in t && k.LimitKey? ==> t[k].value.Count? && t[k].value.n >= 0 && t[k].expiresAt.Some?
  }

  /** What the running window still admits, and each window after it. */
  function Room(w: World, k: Key, limit: Limit, hi: int): nat
    requires k in w.t ==> w.t[k].value.Count? && w.t[k].expiresAt.Some?
    requires limit.windowSeconds >= 0
  {
    var window: nat := limit.windowSeconds * 1000;
    if k in w.t && Live(w.t[k], w.now)
    then Max0(limit.max - w.t[k].value.n) + Max0(limit.max) * NewWindows(w.t[k].expiresAt.value, hi, window)
    else Max0(limit.max) * NewWindows(w.now - 1, hi, window)
  }

  lemma StepGood(w: World, limits: Limits, e: Event)
    requires CountersGood(w.t)
    ensures CountersGood(Step(w, limits, e).t)
  {
  }

  /** One event uses up at least as much room as it admits. */
  lemma RoomStep(w: World, limits: Limits, e: Event, endpoint: string, ip: string, hi: int)
    requires CountersGood(w.t) && endpoint in limits && limits[endpoint].windowSeconds >= 0 && w.now <= hi
    ensures var k, limit, w2 := LimitKey(endpoint, ip), limits[endpoint], Step(w, limits, e);
      && CountersGood(w2.t)
      && Room(w2, k, limit, hi) + (if Admits(w, limits, e) && e.endpoint == endpoint && e.ip == ip then 1 else 0)
           <= Room(w, k, limit, hi)
  {
    StepGood(w, limits, e);
    var k, limit, w2 := LimitKey(endpoint, ip), limits[endpoint], Step(w, limits, e);
    var m, window: nat := Max0(limit.max), limit.windowSeconds * 1000;
    if e.Ask? && Counts(limits, e) && e.endpoint == endpoint && e.ip == ip {
      if !(k in w.t && Live(w.t[k], w.now)) {
        NewWindowsNext(w.now - 1, w.now, hi, window);
        var after := NewWindows(w.now + window, hi, window);
        MulMono(m, after + 1, NewWindows(w.now - 1, hi, window));
        MulStep(m, after);
      }
    } else if e.Pass? {
      if k in w.t && Live(w.t[k], w.now) && !Live(w.t[k], w2.now) {
        NewWindowsMono(w.t[k].expiresAt.value, w2.now - 1, hi, window);
        MulMono(m, NewWindows(w2.now - 1, hi, window), NewWindows(w.t[k].expiresAt.value, hi, window));
      } else {
        NewWindowsMono(w.now - 1, w2.now - 1, hi, window);
        MulMono(m, NewWindows(w2.now - 1, hi, window), NewWindows(w.now - 1, hi, window));
      }
    }
  }

  lemma {:induction false} NoneAfter(w: World, limits: Limits, events: seq<Event>, endpoint: string, ip: string,
      lo: int, hi: int)
    requires hi < w.now
    ensures Admitted(w, limits, events, endpoint, ip, lo, hi) == 0
    decreases |events|
  {
    if events != [] {
      NoneAfter(Step(w, limits, events[0]), limits, events[1..], endpoint, ip, lo, hi);
    }
  }

  lemma {:induction false} AdmittedWithinRoom(w: World, limits: Limits, events: seq<Event>, endpoint: string,
      ip: string, lo: int, hi: int)
    requires CountersGood(w.t) && endpoint in limits && limits[endpoint].windowSeconds >= 0 && w.now <= hi
    ensures Admitted(w, limits, events, endpoint, ip, lo, hi) <= Room(w, LimitKey(endpoint, ip), limits[endpoint], hi)
    decreases |events|
  {
    if events != [] {
      var w2 := Step(w, limits, events[0]);
      RoomStep(w, limits, events[0], endpoint, ip, hi);
      if w2.now <= hi {
        AdmittedWithinRoom(w2, limits, events[1..], endpoint, ip, lo, hi);
      } else {
        NoneAfter(w2, limits, events[1..], endpoint, ip, lo, hi);
      }
    }
  }

  /** No state has more room from `lo` on than one full window and the windows opening after `lo`. */
  lemma RoomBound(w: World, k: Key, limit: Limit, lo: int, hi: int)
    requires CountersGood(w.t) && k.LimitKey? && limit.windowSeconds >= 0 && lo <= w.now <= hi
    ensures Room(w, k, limit, hi) <= Max0(limit.max) * (NewWindows(lo, hi, limit.windowSeconds * 1000) + 1)
  {
    var m, window: nat := Max0(limit.max), limit.windowSeconds * 1000;
    var all := NewWindows(lo, hi, window);
    MulStep(m, all);
    if k in w.t && Live(w.t[k], w.now) {
      NewWindowsMono(lo, w.t[k].expiresAt.value, hi, window);
      MulMono(m, NewWindows(w.t[k].expiresAt.value, hi, window), all);
    } else {
      assert NewWindows(w.now - 1, hi, window) == 1 + NewWindows(w.now + window, hi, window);
      NewWindowsMono(lo, w.now + window, hi, window);
      MulMono(m, NewWindows(w.now - 1, hi, window), all + 1);
    }
  }

  lemma {:induction false} AdmittedInSpan(w: World, limits: Limits, events: seq<Event>, endpoint: string, ip: string,
      lo: int, hi: int)
    requires CountersGood(w.t) && endpoint in limits && limits[endpoint].windowSeconds >= 0 && lo <= hi
    ensures Admitted(w, limits, events, endpoint, ip, lo, hi)
      <= Max0(limits[endpoint].max) * (NewWindows(lo, hi, limits[endpoint].windowSeconds * 1000) + 1)
    decreases |events|
  {
    if w.now > hi {
      NoneAfter(w, limits, events, endpoint, ip, lo, hi);
    } else if w.now >= lo {
      AdmittedWithinRoom(w, limits, events, endpoint, ip, lo, hi);
      RoomBound(w, LimitKey(endpoint, ip), limits[endpoint], lo, hi);
    } else if events != [] {
      StepGood(w, limits, events[0]);
      AdmittedInSpan(Step(w, limits, events[0]), limits, events[1..], endpoint, ip, lo, hi);
    }
  }

  /**
    The admission bound. In any run and any span of time, the requests of one endpoint and address let
    through by a successful count are at most the limit times one more than the windows needed to cover the span.
   */
  lemma AdmissionBound(w: World, limits: Limits, events: seq<Event>, endpoint: string, ip: string, lo: int, span: nat,
      windows: nat)
    requires CountersGood(w.t) && endpoint in limits && limits[endpoint].windowSeconds >= 0
    requires span <= windows * (limits[endpoint].windowSeconds * 1000)
    ensures Admitted(w, limits, events, endpoint, ip, lo, lo + span) <= Max0(limits[endpoint].max) * (windows + 1)
  {
    var m, window: nat := Max0(limits[endpoint].max), limits[endpoint].windowSeconds * 1000;
    AdmittedInSpan(w, limits, events, endpoint, ip, lo, lo + span);
    NewWindowsCover(lo, lo + span, window, windows);
    MulMono(m, NewWindows(lo, lo + span, window) + 1, windows + 1);
  }

  /** In particular no span of one window length admits more than twice the limit. */
  lemma TwiceTheLimit(w: World, limits: Limits, events: seq<Event>, endpoint: string, ip: string, lo: int)
    requires CountersGood(w.t) && endpoint in limits && limits[endpoint].windowSeconds >= 0
    ensures Admitted(w, limits, events, endpoint, ip, lo, lo + limits[endpoint].windowSeconds * 1000)
      <= 2 * Max0(limits[endpoint].max)
  {
    AdmissionBound(w, limits, events, endpoint, ip, lo, limits[endpoint].windowSeconds * 1000, 1);
  }

  function Run(w: World, limits: Limits, events: seq<Event>): World {
    if events == [] then w else Step(Run(w, limits, events[..|events| - 1]), limits, events[|events| - 1])
  }

  /** Counted requests of this endpoint and address. */
  function Asked(limits: Limits, events: seq<Event>, endpoint: string, ip: string): nat {
    if events == [] then 0
    else
      var e := events[|events| - 1];
      Asked(limits, events[..|events| - 1], endpoint, ip)
        + (if Counts(limits, e) && e.endpoint == endpoint && e.ip == ip then 1 else 0)
  }

  /** Until its window closes a counter counts every request and keeps its expiry. */
  lemma {:induction false} CounterInWindow(w: World, limits: Limits, events: seq<Event>, endpoint: string, ip: string,
      e: Entry)
    requires LimitKey(endpoint, ip) in w.t && w.t[LimitKey(endpoint, ip)] == e
    requires e.value.Count? && e.expiresAt.Some?
    requires Run(w, limits, events).now <= e.expiresAt.value
    ensures var k, w2 := LimitKey(endpoint, ip), Run(w, limits, events);
      k in w2.t && w2.t[k] == Entry(Count(e.value.n + Asked(limits, events, endpoint, ip)), e.expiresAt)
  {
    if events != [] {
      CounterInWindow(w, limits, events[..|events| - 1], endpoint, ip, e);
    }
  }

  /**
    Within one window the first requests up to the limit pass and no others: the one that opens it if the
    limit allows any, and each later one exactly when it and those before it are within the limit.
   */
  lemma FirstOfWindow(w: World, limits: Limits, open: Event, events: seq<Event>, next: Event)
    requires Counts(limits, open) && Counts(limits, next) && next.endpoint == open.endpoint && next.ip == open.ip
    requires var k := LimitKey(open.endpoint, open.ip); k in w.t ==> !Live(w.t[k], w.now)
    requires Run(Step(w, limits, open), limits, events).now <= w.now + limits[open.endpoint].windowSeconds * 1000
    ensures Admits(w, limits, open) <==> 1 <= limits[open.endpoint].max
    ensures Admits(Run(Step(w, limits, open), limits, events), limits, next)
      <==> 1 + Asked(limits, events, open.endpoint, open.ip) + 1 <= limits[open.endpoint].max
  {
    var k, w1 := LimitKey(open.endpoint, open.ip), Step(w, limits, open);
    CounterInWindow(w1, limits, events, open.endpoint, open.ip, w1.t[k]);
  }
}
