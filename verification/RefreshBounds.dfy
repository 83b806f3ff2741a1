/**
  How long the refresh protocol can run, what each refresh does to its waiters, and how often local state is cleared.
 */
module RefreshBounds {
  import opened Options
  import opened Text
  import opened UrlPaths
  import opened RefreshSpec
  import opened RefreshSafety

  /**
    Deadlock freedom, exactly: every reachable state is finished or can go on, if and only if the configured refresh
    path is plain (no query, no fragment, no trailing slash), is also a public endpoint, or is not under the base URL.
   */
  lemma DeadlockFree(cfg: Config, mode: Mode)
    requires cfg.WellFormed()
    ensures (forall states, events | IsRun(cfg, mode, states, events) ::
              Quiet(states[|events|]) || CanProgress(states[|events|]))
      <==> cfg.PlainRefresh() || cfg.IsPublic(Some(cfg.RefreshUrl())) || !cfg.UnderBase()
  {
    RefreshIntercepted(cfg);
    if cfg.ShouldIntercept(Some(cfg.RefreshUrl())) {
      var states, events := StuckRun(cfg, mode);
    } else {
      forall states, events | IsRun(cfg, mode, states, events)
        ensures Quiet(states[|events|]) || CanProgress(states[|events|])
      {
        InvRun(cfg, mode, states, events);
        InvProgress(cfg, states[|events|]);
      }
    }
  }

  /** The steps a call may still cause. */
  function CallWeight(cfg: Config, c: Call): nat {
    match c.phase
    case Fetching => 12
    case InFlight => if cfg.ShouldIntercept(c.url) then 11 else 1
    case Gated(_) => 2
    case Waiting(_) => 2
    case Final => 1
    case Done(_) => 0
  }

  function RefreshWeight(r: Refresh): nat {
    match r
    case Starting => 6
    case Calling(_) => 3
    case Clearing => 2
    case Settled(_) => 0
  }

  function CallsWeight(cfg: Config, calls: seq<Call>): nat {
    if calls == [] then 0 else CallsWeight(cfg, calls[..|calls| - 1]) + CallWeight(cfg, calls[|calls| - 1])
  }

  function RefreshesWeight(rs: seq<Refresh>): nat {
    if rs == [] then 0 else RefreshesWeight(rs[..|rs| - 1]) + RefreshWeight(rs[|rs| - 1])
  }

  /** The decreasing measure. */
  function Measure(cfg: Config, s: State): nat {
    CallsWeight(cfg, s.calls) + RefreshesWeight(s.refreshes)
  }

  lemma {:induction false} CallsWeightSet(cfg: Config, calls: seq<Call>, i: nat, c: Call)
    requires i < |calls|
    ensures CallsWeight(cfg, calls[i := c]) == CallsWeight(cfg, calls) - CallWeight(cfg, calls[i]) + CallWeight(cfg, c)
  {
    var n := |calls| - 1;
    if i < n {
      assert calls[i := c][..n] == calls[..n][i := c];
      CallsWeightSet(cfg, calls[..n], i, c);
    } else {
      assert calls[i := c][..n] == calls[..n];
    }
  }

  lemma {:induction false} RefreshesWeightSet(rs: seq<Refresh>, i: nat, r: Refresh)
    requires i < |rs|
    ensures RefreshesWeight(rs[i := r]) == RefreshesWeight(rs) - RefreshWeight(rs[i]) + RefreshWeight(r)
  {
    var n := |rs| - 1;
    if i < n {
      assert rs[i := r][..n] == rs[..n][i := r];
      RefreshesWeightSet(rs[..n], i, r);
    } else {
      assert rs[i := r][..n] == rs[..n];
    }
  }

  lemma {:induction false} CallsWeightLess(cfg: Config, before: seq<Call>, after: seq<Call>)
    requires |before| == |after|
    requires forall i :: 0 <= i < |before| ==> CallWeight(cfg, after[i]) <= CallWeight(cfg, before[i])
    ensures CallsWeight(cfg, after) <= CallsWeight(cfg, before)
  {
    if before != [] {
      CallsWeightLess(cfg, before[..|before| - 1], after[..|after| - 1]);
    }
  }

  lemma SettleWeight(cfg: Config, mode: Mode, s: State, r: nat, outcome: Outcome)
    requires r < |s.refreshes|
    ensures Measure(cfg, Settle(cfg, mode, s, r, outcome)) <= Measure(cfg, s) - RefreshWeight(s.refreshes[r])
  {
    var s2 := Settle(cfg, mode, s, r, outcome);
    forall i | 0 <= i < |s.calls| ensures CallWeight(cfg, s2.calls[i]) <= CallWeight(cfg, s.calls[i]) {
      assert s2.calls[i] == AfterSettle(cfg, mode, s.calls[i], r, outcome);
    }
    CallsWeightLess(cfg, s.calls, s2.calls);
    RefreshesWeightSet(s.refreshes, r, Settled(outcome));
  }

  lemma AppendWeights(cfg: Config, s: State, c: Call, r: Refresh)
    ensures CallsWeight(cfg, s.calls + [c]) == CallsWeight(cfg, s.calls) + CallWeight(cfg, c)
    ensures RefreshesWeight(s.refreshes + [r]) == RefreshesWeight(s.refreshes) + RefreshWeight(r)
  {
    assert (s.calls + [c])[..|s.calls|] == s.calls;
    assert (s.refreshes + [r])[..|s.refreshes|] == s.refreshes;
  }

  /** Every step but an arrival uses up some of the measure, and an arrival adds at most twelve. */
  lemma MeasureStep(cfg: Config, mode: Mode, s: State, e: Event)
    requires Inv(cfg, s) && Enabled(s, e)
    ensures e.Arrive? ==> Measure(cfg, Next(cfg, mode, s, e)) <= Measure(cfg, s) + 12
    ensures !e.Arrive? ==> Measure(cfg, Next(cfg, mode, s, e)) < Measure(cfg, s)
  {
    hide Inv, Measure, Next;
    match e
    case Arrive(url, request, auth) => ArriveWeight(cfg, mode, s, e);
    case Respond(c, status) => RespondWeight(cfg, mode, s, c, status);
    case Issue(r) => IssueWeight(cfg, mode, s, r);
    case Abort(r) => EndWeight(cfg, mode, s, e);
    case Deliver(r, accessToken) => EndWeight(cfg, mode, s, e);
    case Cleared(r) => EndWeight(cfg, mode, s, e);
    case Fetched(c, _) => CallStepWeight(cfg, mode, s, e, c);
    case FetchFailed(c) => CallStepWeight(cfg, mode, s, e, c);
    case Cancel(c) => CallStepWeight(cfg, mode, s, e, c);
  }

  lemma ArriveWeight(cfg: Config, mode: Mode, s: State, e: Event)
    requires Enabled(s, e) && e.Arrive?
    ensures Measure(cfg, Next(cfg, mode, s, e)) <= Measure(cfg, s) + 12
  {
    hide CallsWeight, RefreshesWeight, Entering;
    AppendWeights(cfg, s, Entering(cfg, mode, s, e.url, e.request, e.auth), Starting);
  }

  /** A refresh that ends, or goes on to clearing. */
  lemma EndWeight(cfg: Config, mode: Mode, s: State, e: Event)
    requires Enabled(s, e) && (e.Abort? || e.Deliver? || e.Cleared?)
    ensures Measure(cfg, Next(cfg, mode, s, e)) < Measure(cfg, s)
  {
    hide Settle, CallsWeight, RefreshesWeight;
    match e
    case Abort(r) => SettleWeight(cfg, mode, s, r, Failed(None));
    case Deliver(r, accessToken) =>
      SettleWeight(cfg, mode, s, r, OutcomeOf(mode, s.calls[s.refreshes[r].call].phase.result, accessToken));
      RefreshesWeightSet(s.refreshes, r, Clearing);
    case Cleared(r) => SettleWeight(cfg, mode, s, r, Failed(Some(401)));
  }

  lemma CallStepWeight(cfg: Config, mode: Mode, s: State, e: Event, c: nat)
    requires Inv(cfg, s) && Enabled(s, e) && (e.Fetched? || e.FetchFailed? || e.Cancel?) && e.call == c
    ensures Measure(cfg, Next(cfg, mode, s, e)) < Measure(cfg, s)
  {
    hide Config.ShouldIntercept, Config.IsApi, CallsWeight, RefreshesWeight;
    CallsWeightSet(cfg, s.calls, c, Next(cfg, mode, s, e).calls[c]);
  }

  lemma RespondWeight(cfg: Config, mode: Mode, s: State, c: nat, status: int)
    requires Enabled(s, Respond(c, status))
    ensures Measure(cfg, Next(cfg, mode, s, Respond(c, status))) < Measure(cfg, s)
  {
    hide Config.ShouldIntercept, Config.IsApi, CallsWeight, RefreshesWeight;
    CallsWeightSet(cfg, s.calls, c, Next(cfg, mode, s, Respond(c, status)).calls[c]);
    AppendWeights(cfg, s, s.calls[c], Starting);
  }

  /** A refresh's own request is at most gated behind it, so it cannot start another. */
  lemma IssueWeight(cfg: Config, mode: Mode, s: State, r: nat)
    requires Inv(cfg, s) && Enabled(s, Issue(r))
    ensures Measure(cfg, Next(cfg, mode, s, Issue(r))) < Measure(cfg, s)
  {
    var c, s2 := Entering(cfg, mode, s, Some(cfg.RefreshUrl()), -1 - |s.calls|, None), Next(cfg, mode, s, Issue(r));
    IssuedWeight(cfg, mode, s, r);
    assert s2.calls == s.calls + [c] && s2.refreshes == s.refreshes[r := Calling(|s.calls|)];
    assert RefreshWeight(s.refreshes[r]) == 6 && RefreshWeight(Calling(|s.calls|)) == 3;
    hide Inv, Next, Enabled, Entering, CallsWeight, RefreshesWeight, CallWeight, RefreshWeight;
    AppendWeights(cfg, s, c, Starting);
    RefreshesWeightSet(s.refreshes, r, Calling(|s.calls|));
  }

  lemma IssuedWeight(cfg: Config, mode: Mode, s: State, r: nat)
    requires Inv(cfg, s) && Enabled(s, Issue(r))
    ensures CallWeight(cfg, Entering(cfg, mode, s, Some(cfg.RefreshUrl()), -1 - |s.calls|, None)) <= 2
  {
    assert s.isRefreshing && s.inFlight.Some?;
    hide Config.ShouldIntercept, CallGood;
  }

  lemma EmptyMeasure(cfg: Config)
    ensures Measure(cfg, INITIAL) == 0
  {
  }

  function Arrivals(events: seq<Event>): nat {
    if events == [] then 0 else Arrivals(events[..|events| - 1]) + (if events[|events| - 1].Arrive? then 1 else 0)
  }

  /** Any run is at most thirteen times as long as the number of calls that arrived, so it quiesces once they stop. */
  lemma {:induction false} RunsAreShort(cfg: Config, mode: Mode, states: seq<State>, events: seq<Event>)
    requires IsRun(cfg, mode, states, events)
    ensures |events| + Measure(cfg, states[|events|]) <= 13 * Arrivals(events)
  {
    hide Next, Inv, Measure, Enabled;
    if events == [] {
      EmptyMeasure(cfg);
    } else {
      var n := |events| - 1;
      RunsAreShort(cfg, mode, states[..n + 1], events[..n]);
      InvRun(cfg, mode, states[..n + 1], events[..n]);
      assert states[..n + 1][n] == states[n];
      MeasureStep(cfg, mode, states[n], events[n]);
    }
  }
}
