/** Loading the reCAPTCHA script: callers share one injection at a time, and a failed one may be tried again. */
module ScriptLoader {
  import opened Options

  /** `skip` is set under server rendering and on native platforms; no configuration is `enabled` false. */
  datatype Config = Config(skip: bool, enabled: bool, siteKey: string) {
    predicate Active() {
      !skip && enabled
    }
  }

  /** A script element: waiting for its events, or loaded or failed. */
  datatype Injection = Pending | Settled(ok: bool)

  /** A caller started an injection, joined another's, or was answered: fulfilled or rejected. */
  datatype Caller = Owner(injection: nat) | Joined(injection: nat) | Done(fulfilled: bool)

  datatype State = State(loaded: bool, loading: Option<nat>, injections: seq<Injection>, callers: seq<Caller>)

  const INITIAL: State := State(false, None, [], [])

  datatype Event = Load | Settle(injection: nat, ok: bool) | Resume(caller: nat)

  predicate Enabled(s: State, e: Event) {
    match e
    case Load => true
    case Settle(i, _) => i < |s.injections| && s.injections[i].Pending?
    case Resume(c) =>
      && c < |s.callers| && !s.callers[c].Done?
      && s.callers[c].injection < |s.injections| && s.injections[s.callers[c].injection].Settled?
  }

  function Loading(cfg: Config, s: State): State {
    if !cfg.Active() || s.loaded then s.(callers := s.callers + [Done(true)])
    else if s.loading.Some? then s.(callers := s.callers + [Joined(s.loading.value)])
    else if cfg.siteKey == "" then s.(callers := s.callers + [Done(false)])
    else s.(loading := Some(|s.injections|),
            injections := s.injections + [Pending],
            callers := s.callers + [Owner(|s.injections|)])
  }

  /** After its await the owner records a success and forgets the promise; whoever joined only passes the answer on. */
  function Resumed(s: State, c: nat): State
    requires Enabled(s, Resume(c))
  {
    var ok := s.injections[s.callers[c].injection].ok;
    var s1 := s.(callers := s.callers[c := Done(ok)]);
    if s.callers[c].Owner? then s1.(loaded := s.loaded || ok, loading := None) else s1
  }

  function Next(cfg: Config, s: State, e: Event): State
    requires Enabled(s, e)
  {
    match e
    case Load => Loading(cfg, s)
    case Settle(i, ok) => s.(injections := s.injections[i := Settled(ok)])
    case Resume(c) => Resumed(s, c)
  }

  ghost predicate IsRun(cfg: Config, states: seq<State>, events: seq<Event>) {
    && |states| == |events| + 1 && states[0] == INITIAL
    && forall i :: 0 <= i < |events| ==>
      Enabled(states[i], events[i]) && states[i + 1] == Next(cfg, states[i], events[i])
  }

  predicate Succeeded(s: State) {
    s.injections != [] && s.injections[|s.injections| - 1] == Settled(true)
  }

  /** The promise is set from the start of the last injection until its one owner has heard of its end. */
  ghost predicate PromiseHeld(s: State) {
    && (s.loading.Some? ==>
      && s.loading.value == |s.injections| - 1
      && exists c :: 0 <= c < |s.callers| && s.callers[c] == Owner(s.loading.value))
    && (forall c :: 0 <= c < |s.callers| && s.callers[c].Owner? ==> s.loading == Some(s.callers[c].injection))
    && (forall c, d :: 0 <= c < d < |s.callers| && s.callers[c].Owner? ==> !s.callers[d].Owner?)
    && (forall c :: 0 <= c < |s.callers| && s.callers[c].Joined? ==> s.callers[c].injection < |s.injections|)
  }

  /** Every injection but the last has failed, and the last is out only while the promise is set. */
  ghost predicate Sequential(s: State) {
    && (forall i :: 0 <= i < |s.injections| - 1 ==> s.injections[i] == Settled(false))
    && (s.injections != [] && s.injections[|s.injections| - 1].Pending? ==> s.loading.Some?)
    && (s.loaded <==> Succeeded(s) && s.loading.None?)
  }

  /** A caller is answered well only when the script is there, or was never wanted. */
  ghost predicate Truthful(cfg: Config, s: State) {
    && (!cfg.Active() ==> s.injections == [])
    && forall c :: 0 <= c < |s.callers| && s.callers[c] == Done(true) ==> !cfg.Active() || Succeeded(s)
  }

  ghost predicate Inv(cfg: Config, s: State) {
    PromiseHeld(s) && Sequential(s) && Truthful(cfg, s)
  }

  lemma LoadPromise(cfg: Config, s: State)
    requires PromiseHeld(s)
    ensures PromiseHeld(Loading(cfg, s))
  {
    var s2 := Loading(cfg, s);
    assert s2.callers == s.callers + [s2.callers[|s.callers|]];
    if s2.loading.Some? && s.loading.Some? {
      var c :| 0 <= c < |s.callers| && s.callers[c] == Owner(s.loading.value);
      assert s2.callers[c] == Owner(s2.loading.value);
    } else if s2.loading.Some? {
      assert s2.callers[|s.callers|] == Owner(s2.loading.value);
    }
  }

  lemma LoadInv(cfg: Config, s: State)
    requires Inv(cfg, s)
    ensures Inv(cfg, Loading(cfg, s))
  {
    LoadPromise(cfg, s);
    hide PromiseHeld;
    assert Sequential(Loading(cfg, s)) by {
      hide Truthful;
    }
    assert Truthful(cfg, Loading(cfg, s));
  }

  lemma SettleInv(cfg: Config, s: State, i: nat, ok: bool)
    requires Inv(cfg, s) && Enabled(s, Settle(i, ok))
    ensures Inv(cfg, Next(cfg, s, Settle(i, ok)))
  {
    assert i == |s.injections| - 1;
  }

  lemma ResumeInv(cfg: Config, s: State, c: nat)
    requires Inv(cfg, s) && Enabled(s, Resume(c))
    ensures Inv(cfg, Resumed(s, c))
  {
    var s2 := Resumed(s, c);
    if s2.loading.Some? {
      var d :| 0 <= d < |s.callers| && s.callers[d] == Owner(s.loading.value);
      assert s2.callers[d] == Owner(s2.loading.value);
    }
  }

  lemma InvStep(cfg: Config, s: State, e: Event)
    requires Inv(cfg, s) && Enabled(s, e)
    ensures Inv(cfg, Next(cfg, s, e))
  {
    hide PromiseHeld, Sequential, Truthful;
    match e
    case Load => LoadInv(cfg, s);
    case Settle(i, ok) => SettleInv(cfg, s, i, ok);
    case Resume(c) => ResumeInv(cfg, s, c);
  }

  /** Every reachable state keeps the invariant. */
  lemma {:induction false} InvRun(cfg: Config, states: seq<State>, events: seq<Event>)
    requires IsRun(cfg, states, events)
    ensures Inv(cfg, states[|events|])
  {
    if events == [] {
    } else {
      hide Next, Inv;
      var n := |events| - 1;
      InvRun(cfg, states[..n + 1], events[..n]);
      InvStep(cfg, states[n], events[n]);
    }
  }

  lemma RunPrefix(cfg: Config, states: seq<State>, events: seq<Event>, n: nat)
    requires IsRun(cfg, states, events) && n <= |events|
    ensures IsRun(cfg, states[..n + 1], events[..n])
  {
    hide Next;
  }

  /** Never two injections out at once, and at most one of the whole run succeeds. */
  lemma OneInjection(cfg: Config, states: seq<State>, events: seq<Event>, i: nat, j: nat)
    requires IsRun(cfg, states, events)
    requires i < |states[|events|].injections| && j < |states[|events|].injections|
    requires states[|events|].injections[i] != Settled(false) && states[|events|].injections[j] != Settled(false)
    ensures i == j && (states[|events|].injections[i].Pending? ==> states[|events|].loading == Some(i))
  {
    InvRun(cfg, states, events);
  }

  /** Once an injection has succeeded no other is ever started. */
  lemma {:induction false} SuccessIsLast(cfg: Config, states: seq<State>, events: seq<Event>, n: nat)
    requires IsRun(cfg, states, events) && n <= |events| && Succeeded(states[n])
    ensures states[|events|].injections == states[n].injections
  {
    if n < |events| {
      var m := |events| - 1;
      RunPrefix(cfg, states, events, m);
      SuccessIsLast(cfg, states[..m + 1], events[..m], n);
      InvRun(cfg, states[..m + 1], events[..m]);
      assert Succeeded(states[m]) && Inv(cfg, states[m]);
    }
  }

  /**
    A call starts an injection exactly when a script is wanted, none has loaded, and no earlier attempt is still open.
   */
  lemma StartsExactlyWhenNeeded(cfg: Config, states: seq<State>, events: seq<Event>)
    requires IsRun(cfg, states, events)
    ensures
      var s := states[|events|];
      Loading(cfg, s).injections != s.injections <==>
        && cfg.Active() && cfg.siteKey != ""
        && (forall i :: 0 <= i < |s.injections| ==> s.injections[i] == Settled(false))
        && (forall c :: 0 <= c < |s.callers| ==> !s.callers[c].Owner?)
  {
    var s := states[|events|];
    InvRun(cfg, states, events);
    assert |Loading(cfg, s).injections| == |s.injections| + 1 ==> Loading(cfg, s).injections != s.injections;
    if s.loading.None? && !s.loaded && s.injections != [] {
      assert s.injections[|s.injections| - 1] == Settled(false);
    }
  }

  /** The injection a caller waits for. */
  predicate WaitsFor(caller: Caller, i: nat) {
    caller == Owner(i) || caller == Joined(i)
  }

  /** An answered caller stays answered; one that waits goes on waiting, or is answered as its injection ended. */
  lemma CallerStep(cfg: Config, s: State, e: Event, c: nat, i: nat)
    requires Inv(cfg, s) && Enabled(s, e) && c < |s.callers|
    ensures var s2 := Next(cfg, s, e);
      && c < |s2.callers|
      && (s.callers[c].Done? ==> s2.callers[c] == s.callers[c])
      && (WaitsFor(s.callers[c], i) ==>
        s2.callers[c] == s.callers[c] || (i < |s.injections| && s.injections[i].Settled? &&
          s2.callers[c] == Done(s.injections[i].ok)))
      && (i < |s.injections| && s.injections[i].Settled? ==> i < |s2.injections| && s2.injections[i] == s.injections[i])
  {
  }

  /** Whoever waited for an injection is answered as it ended: fulfilled if the script loaded, rejected if not. */
  lemma {:induction false} AnsweredAsItEnded(cfg: Config, states: seq<State>, events: seq<Event>, n: nat, c: nat,
      i: nat)
    requires IsRun(cfg, states, events) && n <= |events|
    requires c < |states[n].callers| && WaitsFor(states[n].callers[c], i)
    ensures var s := states[|events|];
      && c < |s.callers|
      && (s.callers[c] == states[n].callers[c]
        || (i < |s.injections| && s.injections[i].Settled? && s.callers[c] == Done(s.injections[i].ok)))
  {
    if n < |events| {
      var m := |events| - 1;
      RunPrefix(cfg, states, events, m);
      AnsweredAsItEnded(cfg, states[..m + 1], events[..m], n, c, i);
      InvRun(cfg, states[..m + 1], events[..m]);
      hide Next, Inv, IsRun;
      CallerStep(cfg, states[m], events[m], c, i);
    }
  }

  /**
    What a call gets: fulfilled at once when no script is wanted or one is there; its place with the owner of the
    injection that is out; a rejection without a site key; else an injection of its own.
   */
  lemma CallMeans(cfg: Config, states: seq<State>, events: seq<Event>)
    requires IsRun(cfg, states, events)
    ensures var s := states[|events|];
      var s2 := Loading(cfg, s);
      && |s2.callers| == |s.callers| + 1 && s2.callers[..|s.callers|] == s.callers
      && var mine := s2.callers[|s.callers|];
        if cfg.skip || !cfg.enabled then mine == Done(true) && s2.injections == s.injections
        else if exists i: nat :: Owner(i) in s.callers then
          s2.injections == s.injections && mine.Joined? && Owner(mine.injection) in s.callers
        else if Settled(true) in s.injections then mine == Done(true) && s2.injections == s.injections
        else if cfg.siteKey == "" then mine == Done(false) && s2.injections == s.injections
        else mine == Owner(|s.injections|) && s2.injections == s.injections + [Pending]
  {
    var s := states[|events|];
    InvRun(cfg, states, events);
    hide Truthful;
    if i: nat :| Owner(i) in s.callers {
      assert s.loading == Some(i);
    }
    if s.loading.Some? {
      assert Owner(s.loading.value) in s.callers;
    }
    assert Settled(true) in s.injections <==> Succeeded(s);
  }

  predicate Quiet(s: State) {
    forall c :: 0 <= c < |s.callers| ==> s.callers[c].Done?
  }

  /** Nobody waits for ever: while a caller is not answered, an element can settle or a caller go on. */
  lemma NeverStuck(cfg: Config, states: seq<State>, events: seq<Event>)
    requires IsRun(cfg, states, events)
    ensures Quiet(states[|events|]) || exists e: Event :: !e.Load? && Enabled(states[|events|], e)
  {
    var s := states[|events|];
    InvRun(cfg, states, events);
    if c :| 0 <= c < |s.callers| && !s.callers[c].Done? {
      var i := s.callers[c].injection;
      if s.injections[i].Pending? {
        assert Enabled(s, Settle(i, true));
      } else {
        assert Enabled(s, Resume(c));
      }
    }
  }

  class RecaptchaService {
    const config: Config
    var scriptLoaded: bool
    var scriptLoading: Option<nat>
    var injections: seq<Injection>
    var callers: seq<Caller>

    ghost function Abstract(): State
      reads this
    {
      State(scriptLoaded, scriptLoading, injections, callers)
    }

    constructor (config: Config)
      ensures this.config == config && Abstract() == INITIAL
    {
      this.config := config;
      scriptLoaded, scriptLoading, injections, callers := false, None, [], [];
    }

    /** The call up to its first await. */
    method LoadScript()
      modifies this
      ensures Abstract() == Next(config, old(Abstract()), Load)
    {
      if config.skip {
        callers := callers + [Done(true)];
        return;
      }
      if !config.enabled {
        callers := callers + [Done(true)];
        return;
      }
      if scriptLoaded {
        callers := callers + [Done(true)];
        return;
      }
      if scriptLoading.Some? {
        callers := callers + [Joined(scriptLoading.value)];
        return;
      }
      if config.siteKey == "" {
        callers := callers + [Done(false)];
        return;
      }
      scriptLoading := Some(|injections|);
      callers := callers + [Owner(|injections|)];
      injections := injections + [Pending];
    }

    /** An event of the script element. */
    method ScriptEvent(i: nat, ok: bool)
      requires Enabled(Abstract(), Settle(i, ok))
      modifies this`injections
      ensures Abstract() == Next(config, old(Abstract()), Settle(i, ok))
    {
      injections := injections[i := Settled(ok)];
    }

    /** A caller after its await; the owner's `finally` runs whichever way the element went. */
    method Continue(c: nat)
      requires Enabled(Abstract(), Resume(c))
      modifies this`scriptLoaded, this`scriptLoading, this`callers
      ensures Abstract() == Next(config, old(Abstract()), Resume(c))
    {
      var ok := injections[callers[c].injection].ok;
      if callers[c].Owner? {
        if ok {
          scriptLoaded := true;
        }
        scriptLoading := None;
      }
      callers := callers[c := Done(ok)];
    }
  }
}
