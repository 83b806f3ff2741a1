/**
  The pattern the interceptor, the fetch adapter and the script loader have in common: an action that many
  callers may ask for, with one attempt at a time. Each of the three is shown to follow it, step by step.
 */
module SingleFlight {
  import opened Options
  import RefreshSpec
  import RefreshSafety
  import RefreshOutcomes
  import UrlPaths
  import FetchAdapter
  import ScriptLoader

  datatype Flight = Open | Closed(ok: bool)

  /** A new attempt may start only when every earlier one has ended. */
  predicate Starts(f: seq<Flight>, g: seq<Flight>) {
    (forall i :: 0 <= i < |f| ==> f[i].Closed?) && g == f + [Open]
  }

  ghost predicate Ends(f: seq<Flight>, g: seq<Flight>) {
    exists i, ok :: 0 <= i < |f| && f[i].Open? && g == f[i := Closed(ok)]
  }

  ghost predicate Step(f: seq<Flight>, g: seq<Flight>) {
    g == f || Starts(f, g) || Ends(f, g)
  }

  /** Callers that come while an attempt is open are given this one. */
  predicate Current(f: seq<Flight>, handle: Option<nat>) {
    && (handle.Some? ==> handle.value < |f|)
    && forall i :: 0 <= i < |f| ==> (f[i].Open? <==> handle == Some(i))
  }

  ghost predicate IsRun(run: seq<seq<Flight>>) {
    && run != [] && run[0] == []
    && forall i :: 0 <= i < |run| - 1 ==> Step(run[i], run[i + 1])
  }

  /** In every run of the pattern at most one attempt is open, and what has ended stays as it ended. */
  lemma {:induction false} OneOpen(run: seq<seq<Flight>>, m: nat)
    requires IsRun(run) && m < |run|
    ensures var last := run[|run| - 1];
      && (forall i, j :: 0 <= i < j < |last| ==> last[i].Closed? || last[j].Closed?)
      && |run[m]| <= |last|
      && forall i :: 0 <= i < |run[m]| && run[m][i].Closed? ==> last[i] == run[m][i]
  {
    var n := |run| - 1;
    if n > 0 {
      OneOpen(run[..n], if m < n then m else n - 1);
      assert Step(run[n - 1], run[n]) && run[..n][n - 1] == run[n - 1];
    }
  }

  function RefreshFlight(r: RefreshSpec.Refresh): Flight {
    if r.Settled? then Closed(r.outcome.Token?) else Open
  }

  function InterceptorFlights(s: RefreshSpec.State): seq<Flight> {
    seq(|s.refreshes|, i requires 0 <= i < |s.refreshes| => RefreshFlight(s.refreshes[i]))
  }

  /**
    Each step of the interceptor is a step of the pattern or none, and its shared variables say which refresh is open.
   */
  lemma InterceptorFollows(cfg: UrlPaths.Config, mode: RefreshSpec.Mode, s: RefreshSpec.State, e: RefreshSpec.Event)
    requires RefreshSafety.Inv(cfg, s) && RefreshSpec.Enabled(s, e)
    ensures Step(InterceptorFlights(s), InterceptorFlights(RefreshSpec.Next(cfg, mode, s, e)))
    ensures Current(InterceptorFlights(s), s.inFlight) && s.isRefreshing == s.inFlight.Some?
  {
    var s2 := RefreshSpec.Next(cfg, mode, s, e);
    assert RefreshSafety.OneRefresh(s);
    RefreshOutcomes.RefreshesStep(cfg, mode, s, e);
    StartsWhenFree(cfg, mode, s, e);
    hide RefreshSafety.Inv, RefreshSpec.Next, Step;
    if e.Deliver? || e.Cleared? || e.Abort? || e.Issue? {
      FlightSet(s, s2, e.refresh, s2.refreshes[e.refresh]);
    } else if s2.refreshes != s.refreshes {
      FlightAdded(s, s2);
    } else {
      NoFlight(s, s2);
    }
  }

  lemma FlightSet(s: RefreshSpec.State, s2: RefreshSpec.State, r: nat, next: RefreshSpec.Refresh)
    requires r < |s.refreshes| && !s.refreshes[r].Settled? && s2.refreshes == s.refreshes[r := next]
    ensures Step(InterceptorFlights(s), InterceptorFlights(s2))
  {
    var f, g := InterceptorFlights(s), InterceptorFlights(s2);
    assert g == f[r := RefreshFlight(next)];
    if !next.Settled? {
      assert g == f;
    }
  }

  lemma FlightAdded(s: RefreshSpec.State, s2: RefreshSpec.State)
    requires (forall i :: 0 <= i < |s.refreshes| ==> s.refreshes[i].Settled?)
    requires s2.refreshes == s.refreshes + [RefreshSpec.Starting]
    ensures Step(InterceptorFlights(s), InterceptorFlights(s2))
  {
    assert InterceptorFlights(s2) == InterceptorFlights(s) + [Open];
  }

  lemma NoFlight(s: RefreshSpec.State, s2: RefreshSpec.State)
    requires s2.refreshes == s.refreshes
    ensures Step(InterceptorFlights(s), InterceptorFlights(s2))
  {
    assert InterceptorFlights(s2) == InterceptorFlights(s);
  }

  lemma StartsWhenFree(cfg: UrlPaths.Config, mode: RefreshSpec.Mode, s: RefreshSpec.State, e: RefreshSpec.Event)
    requires RefreshSpec.Enabled(s, e)
    ensures |RefreshSpec.Next(cfg, mode, s, e).refreshes| > |s.refreshes| ==> s.inFlight.None?
  {
    hide UrlPaths.Config.ShouldIntercept, UrlPaths.Config.IsApi, RefreshSpec.Entering, RefreshSpec.AfterSettle;
  }

  function AdapterFlight(r: FetchAdapter.Refresh): Flight {
    if r.Settled? then Closed(r.ok) else Open
  }

  function AdapterFlights(s: FetchAdapter.State): seq<Flight> {
    seq(|s.refreshes|, i requires 0 <= i < |s.refreshes| => AdapterFlight(s.refreshes[i]))
  }

  /** The same for the fetch adapter and its promise. */
  lemma AdapterFollows(refreshUrl: string, s: FetchAdapter.State, e: FetchAdapter.Event)
    requires FetchAdapter.Inv(refreshUrl, s) && FetchAdapter.Enabled(s, e)
    ensures Step(AdapterFlights(s), AdapterFlights(FetchAdapter.Next(refreshUrl, s, e)))
    ensures Current(AdapterFlights(s), s.promise)
  {
    hide FetchAdapter.Exempt, FetchAdapter.CallGood, FetchAdapter.AfterRefresh;
    var s2 := FetchAdapter.Next(refreshUrl, s, e);
    var f, g := AdapterFlights(s), AdapterFlights(s2);
    if e.Deliver? || e.Abort? || e.Issue? {
      assert s2.refreshes == s.refreshes[e.refresh := s2.refreshes[e.refresh]];
      assert g == f[e.refresh := g[e.refresh]];
    } else if s2.refreshes != s.refreshes {
      assert g == f + [Open];
    }
  }

  /** An injection counts as open until its owner has heard of its end. */
  function LoaderFlights(s: ScriptLoader.State): seq<Flight> {
    seq(|s.injections|, i requires 0 <= i < |s.injections| =>
      if s.loading == Some(i) || s.injections[i].Pending? then Open else Closed(s.injections[i].ok))
  }

  /** The same for the script loader and its promise. */
  lemma LoaderFollows(cfg: ScriptLoader.Config, s: ScriptLoader.State, e: ScriptLoader.Event)
    requires ScriptLoader.Inv(cfg, s) && ScriptLoader.Enabled(s, e)
    ensures Step(LoaderFlights(s), LoaderFlights(ScriptLoader.Next(cfg, s, e)))
    ensures Current(LoaderFlights(s), s.loading)
  {
    var s2 := ScriptLoader.Next(cfg, s, e);
    var f, g := LoaderFlights(s), LoaderFlights(s2);
    match e
    case Load =>
      if s2.injections != s.injections { assert g == f + [Open]; } else { assert g == f; }
    case Settle(i, ok) => assert g == f;
    case Resume(c) =>
      var i := s.callers[c].injection;
      if s.callers[c].Owner? {
        assert g == f[i := Closed(s.injections[i].ok)];
      } else {
        assert g == f;
      }
  }

  /** So every run of the interceptor is a run of the pattern. */
  lemma InterceptorRuns(cfg: UrlPaths.Config, mode: RefreshSpec.Mode, states: seq<RefreshSpec.State>,
      events: seq<RefreshSpec.Event>)
    requires RefreshSpec.IsRun(cfg, mode, states, events)
    ensures IsRun(seq(|states|, i requires 0 <= i < |states| => InterceptorFlights(states[i])))
  {
    RefreshSafety.InvRun(cfg, mode, states, events);
    forall i | 0 <= i < |events| ensures Step(InterceptorFlights(states[i]), InterceptorFlights(states[i + 1])) {
      InterceptorFollows(cfg, mode, states[i], events[i]);
    }
  }

  lemma AdapterRuns(refreshUrl: string, states: seq<FetchAdapter.State>, events: seq<FetchAdapter.Event>)
    requires FetchAdapter.IsRun(refreshUrl, states, events)
    ensures IsRun(seq(|states|, i requires 0 <= i < |states| => AdapterFlights(states[i])))
  {
    hide Step, FetchAdapter.Next, FetchAdapter.Inv;
    forall i | 0 <= i < |events| ensures Step(AdapterFlights(states[i]), AdapterFlights(states[i + 1])) {
      FetchAdapter.InvRun(refreshUrl, states[..i + 1], events[..i]);
      AdapterFollows(refreshUrl, states[i], events[i]);
    }
  }

  lemma LoaderRuns(cfg: ScriptLoader.Config, states: seq<ScriptLoader.State>, events: seq<ScriptLoader.Event>)
    requires ScriptLoader.IsRun(cfg, states, events)
    ensures IsRun(seq(|states|, i requires 0 <= i < |states| => LoaderFlights(states[i])))
  {
    hide Step, ScriptLoader.Next, ScriptLoader.Inv;
    forall i | 0 <= i < |events| ensures Step(LoaderFlights(states[i]), LoaderFlights(states[i + 1])) {
      ScriptLoader.RunPrefix(cfg, states, events, i);
      ScriptLoader.InvRun(cfg, states[..i + 1], events[..i]);
      LoaderFollows(cfg, states[i], events[i]);
    }
  }
}
