/** The rate limiter object driven by requests over its own store: the admission bound on the answers it gives. */
module AdmissionDriver {
  import opened Options
  import opened Text
  import opened Keys
  import opened Storage
  import opened OidcSpec
  import opened RateLimit
  import opened Admission

  /** A request with the storage up or down, time passing, or the store's own clean-up. */
  datatype Input = Arrive(req: Request, available: bool) | Wait(ms: nat) | CleanUp

  /** The limits by the name their counters are kept under. */
  function ByName(limits: seq<Guarded>): Limits {
    if limits == [] then map[] else ByName(limits[1..])[limits[0].name := limits[0].limit]
  }

  lemma {:induction false} MatchIn(limits: seq<Guarded>, path: string)
    ensures Match(limits, path).Some? ==> Match(limits, path).value in limits
  {
    if limits != [] {
      MatchIn(limits[1..], path);
    }
  }

  lemma {:induction false} ByNameAt(limits: seq<Guarded>, g: Guarded)
    requires NamesDistinct(limits) && g in limits
    ensures g.name in ByName(limits) && ByName(limits)[g.name] == g.limit
    ensures COLON !in g.name
  {
    if limits[0] != g {
      assert limits == [limits[0]] + limits[1..];
      ByNameAt(limits[1..], g);
      var i :| 0 <= i < |limits| && limits[i] == g;
    }
  }

  /** The limit a request falls under. */
  function GuardOf(limits: seq<Guarded>, req: Request): Option<Guarded> {
    Match(limits, Split(req.url, '?')[0])
  }

  ghost function WorldOf(storage: MemoryStorage): World
    reads storage
  {
    World(View(storage.entries), storage.clock)
  }

  /** Every stored counter is one, counts up from zero and expires. */
  ghost predicate Ready(storage: MemoryStorage)
    reads storage
  {
    Clean(storage.entries) && CountersGood(View(storage.entries))
  }

  /** The limiter's keys are counters, whatever endpoint and address they are read as. */
  lemma CleanCounters(entries: map<string, Entry>)
    requires Clean(entries)
    ensures Counters(entries)
  {
    hide View;
    CleanTyped(entries);
    forall endpoint, ip | Print(LimitKey(endpoint, ip)) in entries
      ensures entries[Print(LimitKey(endpoint, ip))].value.Count?
    {
      var s := Print(LimitKey(endpoint, ip));
      InNamespace(LimitKey(endpoint, ip));
      var k := Parse(s).value;
      ViewAt(entries, k);
      LimitParses(endpoint, ip, k);
    }
  }

  lemma LimitParses(endpoint: string, ip: string, k: Key)
    requires ValidKey(k) && Print(k) == Print(LimitKey(endpoint, ip))
    ensures k.LimitKey?
  {
    SplitPrint(k);
    assert Print(k) == NS + ":" + "rl" + ":" + (endpoint + ":" + ip);
    SplitTwo(NS, "rl", endpoint + ":" + ip);
    hide Print, Split, GoodModel;
    LimitPart(k);
  }

  lemma LimitPart(k: Key)
    requires ValidKey(k) && |Parts(k)| >= 2 && Parts(k)[1] == "rl"
    ensures k.LimitKey?
  {
  }

  ghost function LiveOnes(t: Typed, now: int): Typed {
    map k | k in t && Live(t[k], now) :: t[k]
  }

  lemma CleanedTyped(entries: map<string, Entry>, now: int)
    ensures View(Cleaned(entries, now)) == LiveOnes(View(entries), now)
  {
    hide Print, ValidKey, Live, View;
    ViewIs(entries);
    ViewUnique(Cleaned(entries, now), LiveOnes(View(entries), now));
  }

  lemma CleanedClean(entries: map<string, Entry>, now: int)
    requires Clean(entries)
    ensures Clean(Cleaned(entries, now))
  {
    hide Parse, ValidKey, View, Live, GoodValue;
    CleanedTyped(entries, now);
  }

  /** Cleaning up is a purge of every key. */
  lemma CleanedView(entries: map<string, Entry>, now: int)
    requires Clean(entries)
    ensures Clean(Cleaned(entries, now))
    ensures forall limits ::
      View(Cleaned(entries, now)) == Step(World(View(entries), now), limits, Purge(View(entries).Keys)).t
  {
    hide Clean, View, Live;
    CleanedClean(entries, now);
    CleanedTyped(entries, now);
    assert forall limits ::
      Step(World(View(entries), now), limits, Purge(View(entries).Keys)).t == LiveOnes(View(entries), now);
  }

  /** One request answered: the step it is, and whether it was counted and let through. */
  method Answer(limiter: RateLimiter, req: Request, available: bool) returns (passed: bool, ghost event: Event)
    requires Ready(limiter.storage) && PathsDistinct(limiter.limits) && NamesDistinct(limiter.limits)
    modifies limiter.storage`entries
    ensures Ready(limiter.storage)
    ensures var w, limits, g := old(WorldOf(limiter.storage)), ByName(limiter.limits), GuardOf(limiter.limits, req);
      && event == (if g.Some? then Ask(g.value.name, ClientIp(req), available) else Pass(0))
      && WorldOf(limiter.storage) == Step(w, limits, event)
      && (passed <==> event.Ask? && Admits(w, limits, event))
  {
    hide View, Clean, Print, Split, ClientIp, NamesDistinct, PathsDistinct, Counters;
    ghost var before := limiter.storage.entries;
    var g := GuardOf(limiter.limits, req);
    CleanCounters(before);
    MatchIn(limiter.limits, Split(req.url, '?')[0]);
    var outcome := limiter.Handle(req, available);
    event := if g.Some? then Ask(g.value.name, ClientIp(req), available) else Pass(0);
    passed := g.Some? && available && outcome == Forwarded;
    if g.Some? {
      ByNameAt(limiter.limits, g.value);
      if available {
        ghost var k := LimitKey(g.value.name, ClientIp(req));
        CountedStep(before, limiter.storage.clock, ByName(limiter.limits), g.value.name, ClientIp(req));
        ghost var after := Bumped(before, limiter.storage.clock, Print(k), g.value.limit.windowSeconds);
        CleanSet(before, k, after);
      }
    }
    StepGood(World(View(before), limiter.storage.clock), ByName(limiter.limits), event);
  }

  /**
    Plays the inputs and counts, from the object's own answers, the requests of one endpoint and address it let
    through by a successful count between two moments.
   */
  method Play(limiter: RateLimiter, inputs: seq<Input>, endpoint: string, ip: string, lo: int, hi: int)
    returns (passed: nat, ghost events: seq<Event>)
    requires Ready(limiter.storage) && PathsDistinct(limiter.limits) && NamesDistinct(limiter.limits)
    modifies limiter.storage
    ensures Ready(limiter.storage)
    ensures passed == Admitted(old(WorldOf(limiter.storage)), ByName(limiter.limits), events, endpoint, ip, lo, hi)
    decreases |inputs|
  {
    hide View, Clean, Match, ByName, Admits, Counts, NamesDistinct, PathsDistinct, ClientIp;
    if inputs == [] {
      return 0, [];
    }
    var storage := limiter.storage;
    ghost var w, limits := WorldOf(storage), ByName(limiter.limits);
    ghost var event: Event;
    var mine := false;
    var now := storage.clock;
    match inputs[0] {
      case Arrive(req, available) =>
        var through;
        through, event := Answer(limiter, req, available);
        var g := GuardOf(limiter.limits, req);
        mine := through && g.Some? && g.value.name == endpoint && ClientIp(req) == ip && lo <= now <= hi;
        EventAsked(w, limits, event);
      case Wait(ms) =>
        storage.Advance(ms);
        event := Pass(ms);
        EventAsked(w, limits, event);
      case CleanUp =>
        CleanedView(storage.entries, storage.clock);
        storage.CleanupExpired();
        event := Purge(w.t.Keys);
        StepGood(w, limits, event);
        EventAsked(w, limits, event);
    }
    assert WorldOf(storage) == Step(w, limits, event);
    ghost var rest: seq<Event>;
    passed, rest := Play(limiter, inputs[1..], endpoint, ip, lo, hi);
    events := [event] + rest;
    assert events[1..] == rest;
    passed := passed + if mine then 1 else 0;
  }

  lemma EventAsked(w: World, limits: Limits, e: Event)
    ensures Admits(w, limits, e) ==> e.Ask?
  {
  }

  /** However requests, waits and clean-ups follow each other, the object lets through at most what the bound allows. */
  method Bounded(limiter: RateLimiter, inputs: seq<Input>, endpoint: string, ip: string, lo: int, span: nat,
      windows: nat)
    returns (passed: nat)
    requires Ready(limiter.storage) && PathsDistinct(limiter.limits) && NamesDistinct(limiter.limits)
    requires endpoint in ByName(limiter.limits) && ByName(limiter.limits)[endpoint].windowSeconds >= 0
    requires span <= windows * (ByName(limiter.limits)[endpoint].windowSeconds * 1000)
    modifies limiter.storage
    ensures passed <= Max0(ByName(limiter.limits)[endpoint].max) * (windows + 1)
  {
    hide View, Clean, ByName, NamesDistinct, PathsDistinct, Admitted;
    ghost var w := WorldOf(limiter.storage);
    ghost var events;
    passed, events := Play(limiter, inputs, endpoint, ip, lo, lo + span);
    AdmissionBound(w, ByName(limiter.limits), events, endpoint, ip, lo, span, windows);
  }
}
