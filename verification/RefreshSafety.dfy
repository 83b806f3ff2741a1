/** What holds in every reachable state of the refresh protocol, and that it never gets stuck. */
module RefreshSafety {
  import opened Options
  import opened Text
  import opened UrlPaths
  import opened RefreshSpec

  /**
    How often a call has been sent, by where it is. Only an intercepted call ever waits, and a call to
    anywhere but the API is sent once, as it came and without cookies.
   */
  ghost predicate CallGood(cfg: Config, c: Call) {
    && |c.sent| <= 2
    && (c.phase.Fetching? || c.phase.Gated? ==> c.sent == [] && !c.unauthorized)
    && (c.phase.InFlight? ==> |c.sent| == 1 && !c.unauthorized)
    && (c.phase.Waiting? ==> |c.sent| == 1 && c.unauthorized)
    && (c.phase.Final? ==> 1 <= |c.sent| && (c.unauthorized <==> |c.sent| == 2))
    && (|c.sent| == 2 ==> c.unauthorized)
    && (c.phase.Fetching? || c.phase.Gated? || c.phase.Waiting? || c.phase.Final? || c.unauthorized ==>
      cfg.ShouldIntercept(c.url))
    && (!cfg.IsApi(c.url) ==> c.sent == [Sent(c.auth, false)])
  }

  /** The coordinator's flag and observable agree, and the refresh they hold is the only one not settled. */
  ghost predicate OneRefresh(s: State) {
    && s.isRefreshing == s.inFlight.Some?
    && (s.inFlight.Some? ==> s.inFlight.value < |s.refreshes|)
    && forall r :: 0 <= r < |s.refreshes| ==> (s.refreshes[r].Settled? <==> s.inFlight != Some(r))
  }

  /** Whoever waits, waits for the refresh in flight. */
  ghost predicate WaitersCurrent(s: State) {
    forall c :: 0 <= c < |s.calls| && (s.calls[c].phase.Gated? || s.calls[c].phase.Waiting?) ==>
      s.inFlight == Some(s.calls[c].phase.refresh)
  }

  /** A refresh's own request is for the refresh URL. */
  ghost predicate RefreshCalls(cfg: Config, s: State) {
    forall r :: 0 <= r < |s.refreshes| && s.refreshes[r].Calling? ==>
      s.refreshes[r].call < |s.calls| && s.calls[s.refreshes[r].call].url == Some(cfg.RefreshUrl())
  }

  ghost predicate Inv(cfg: Config, s: State) {
    && (forall c :: 0 <= c < |s.calls| ==> CallGood(cfg, s.calls[c]))
    && OneRefresh(s)
    && WaitersCurrent(s)
    && RefreshCalls(cfg, s)
  }

  lemma SettleInv(cfg: Config, mode: Mode, s: State, r: nat, outcome: Outcome)
    requires Inv(cfg, s) && s.inFlight == Some(r)
    ensures Inv(cfg, Settle(cfg, mode, s, r, outcome))
  {
    var s2 := Settle(cfg, mode, s, r, outcome);
    forall c | 0 <= c < |s2.calls| ensures CallGood(cfg, s2.calls[c]) {
      assert s2.calls[c] == AfterSettle(cfg, mode, s.calls[c], r, outcome);
    }
    forall q | 0 <= q < |s2.refreshes| ensures s2.refreshes[q].Settled? {
      if q != r { assert s2.refreshes[q] == s.refreshes[q]; }
    }
  }

  ghost predicate WaitGood(s: State, c: Call) {
    c.phase.Gated? || c.phase.Waiting? ==> s.inFlight == Some(c.phase.refresh)
  }

  /** A new call that is in order leaves the rest in order. */
  lemma AddCall(cfg: Config, s: State, c: Call)
    requires Inv(cfg, s) && CallGood(cfg, c) && WaitGood(s, c)
    ensures Inv(cfg, s.(calls := s.calls + [c]))
  {
    hide CallGood;
  }

  /** So does a call that moves on without changing its address. */
  lemma MoveCall(cfg: Config, s: State, i: nat, c: Call)
    requires Inv(cfg, s) && i < |s.calls| && CallGood(cfg, c) && WaitGood(s, c) && c.url == s.calls[i].url
    ensures Inv(cfg, s.(calls := s.calls[i := c]))
  {
    hide CallGood;
  }

  lemma EnteringGood(cfg: Config, mode: Mode, s: State, url: Option<Url>, request: int, auth: Option<string>)
    ensures CallGood(cfg, Entering(cfg, mode, s, url, request, auth))
    ensures WaitGood(s, Entering(cfg, mode, s, url, request, auth))
  {
  }

  lemma JoinInv(cfg: Config, s: State)
    requires Inv(cfg, s)
    ensures Inv(cfg, JoinRefresh(s).0) && JoinRefresh(s).0.inFlight == Some(JoinRefresh(s).1) &&
      JoinRefresh(s).0.calls == s.calls
  {
    hide CallGood;
  }

  lemma RespondInv(cfg: Config, mode: Mode, s: State, e: Event)
    requires Inv(cfg, s) && Enabled(s, e) && e.Respond?
    ensures Inv(cfg, Next(cfg, mode, s, e))
  {
    var call := s.calls[e.call];
    if Handles(cfg, s, call, e.status) {
      var s0 := s.(retried := s.retried + {call.request});
      assert Inv(cfg, s0);
      JoinInv(cfg, s0);
      var (s1, r) := JoinRefresh(s0);
      MoveCall(cfg, s1, e.call, call.(phase := Waiting(r), unauthorized := true));
    } else {
      MoveCall(cfg, s, e.call, call.(phase := Done(Answered(e.status))));
    }
  }

  /** A refresh in flight that moves on, to a request of its own or to clearing, stays in flight. */
  lemma MoveRefresh(cfg: Config, s: State, r: nat, next: Refresh)
    requires Inv(cfg, s) && r < |s.refreshes| && !s.refreshes[r].Settled? && !next.Settled?
    requires next.Calling? ==> next.call < |s.calls| && s.calls[next.call].url == Some(cfg.RefreshUrl())
    ensures Inv(cfg, s.(refreshes := s.refreshes[r := next]))
  {
    hide CallGood;
  }

  lemma CounterInv(cfg: Config, s: State, clears: nat, expired: nat, clientExpired: nat)
    requires Inv(cfg, s)
    ensures Inv(cfg, s.(clears := clears, expired := expired, clientExpired := clientExpired))
  {
    hide CallGood;
  }

  lemma EnteringUrl(cfg: Config, mode: Mode, s: State, url: Option<Url>, request: int, auth: Option<string>)
    ensures Entering(cfg, mode, s, url, request, auth).url == url
  {
  }

  lemma IssueInv(cfg: Config, mode: Mode, s: State, r: nat)
    requires Inv(cfg, s) && Enabled(s, Issue(r))
    ensures Inv(cfg, Next(cfg, mode, s, Issue(r)))
  {
    hide Inv, CallGood, WaitGood, Entering;
    var c := Entering(cfg, mode, s, Some(cfg.RefreshUrl()), -1 - |s.calls|, None);
    EnteringGood(cfg, mode, s, Some(cfg.RefreshUrl()), -1 - |s.calls|, None);
    EnteringUrl(cfg, mode, s, Some(cfg.RefreshUrl()), -1 - |s.calls|, None);
    AddCall(cfg, s, c);
    var s1 := s.(calls := s.calls + [c]);
    MoveRefresh(cfg, s1, r, Calling(|s.calls|));
    assert Next(cfg, mode, s, Issue(r)) == s1.(refreshes := s1.refreshes[r := Calling(|s.calls|)]);
  }

  lemma DeliverInv(cfg: Config, mode: Mode, s: State, e: Event)
    requires Inv(cfg, s) && Enabled(s, e) && e.Deliver?
    ensures Inv(cfg, Next(cfg, mode, s, e))
  {
    var outcome := OutcomeOf(mode, s.calls[s.refreshes[e.refresh].call].phase.result, e.accessToken);
    if outcome == Failed(Some(401)) {
      MoveRefresh(cfg, s, e.refresh, Clearing);
      CounterInv(cfg, s.(refreshes := s.refreshes[e.refresh := Clearing]), s.clears, s.expired, s.clientExpired + 1);
    } else {
      SettleInv(cfg, mode, s, e.refresh, outcome);
    }
  }

  lemma CallInv(cfg: Config, mode: Mode, s: State, e: Event)
    requires Inv(cfg, s) && Enabled(s, e) && (e.Fetched? || e.FetchFailed? || e.Cancel?)
    ensures Inv(cfg, Next(cfg, mode, s, e))
  {
    hide Config.ShouldIntercept, Config.IsApi, Entering;
    var c := Next(cfg, mode, s, e).calls[e.call];
    assert CallGood(cfg, s.calls[e.call]);
    MoveCall(cfg, s, e.call, c);
  }

  lemma InvStep(cfg: Config, mode: Mode, s: State, e: Event)
    requires Inv(cfg, s) && Enabled(s, e)
    ensures Inv(cfg, Next(cfg, mode, s, e))
  {
    hide CallGood, Entering;
    match e
    case Arrive(url, request, auth) =>
      EnteringGood(cfg, mode, s, url, request, auth);
      AddCall(cfg, s, Entering(cfg, mode, s, url, request, auth));
    case Respond(_, _) => RespondInv(cfg, mode, s, e);
    case Issue(r) => IssueInv(cfg, mode, s, r);
    case Deliver(_, _) => DeliverInv(cfg, mode, s, e);
    case Abort(r) => SettleInv(cfg, mode, s, r, Failed(None));
    case Cleared(r) =>
      SettleInv(cfg, mode, s, r, Failed(Some(401)));
      CounterInv(cfg, Settle(cfg, mode, s, r, Failed(Some(401))), s.clears + 1, s.expired + 1, s.clientExpired);
    case _ => CallInv(cfg, mode, s, e);
  }

  lemma {:induction false} InvRun(cfg: Config, mode: Mode, states: seq<State>, events: seq<Event>)
    requires IsRun(cfg, mode, states, events)
    ensures forall i :: 0 <= i < |states| ==> Inv(cfg, states[i])
  {
    if events != [] {
      var n := |events| - 1;
      InvRun(cfg, mode, states[..n + 1], events[..n]);
      assert states[..n + 1][n] == states[n];
      InvStep(cfg, mode, states[n], events[n]);
      forall i | 0 <= i < |states| ensures Inv(cfg, states[i]) {
        if i <= n { assert states[..n + 1][i] == states[i]; }
      }
    }
  }

  /** In a state where something is unfinished, something can go on, if the refresh's own request is never gated. */
  lemma InvProgress(cfg: Config, s: State)
    requires Inv(cfg, s) && !cfg.ShouldIntercept(Some(cfg.RefreshUrl()))
    ensures Quiet(s) || CanProgress(s)
  {
    if r :| 0 <= r < |s.refreshes| && !s.refreshes[r].Settled? {
      RefreshProgress(cfg, s, r);
    } else if c :| 0 <= c < |s.calls| && !s.calls[c].phase.Done? {
      CallProgress(s, c);
    }
  }

  /** A call that waits for nobody can go on. */
  lemma CallProgress(s: State, c: nat)
    requires c < |s.calls| && !s.calls[c].phase.Done? && !s.calls[c].phase.Gated? && !s.calls[c].phase.Waiting?
    ensures CanProgress(s)
  {
    if s.calls[c].phase.Fetching? {
      assert Progress(FetchFailed(c)) && Enabled(s, FetchFailed(c));
    } else {
      assert Progress(Respond(c, 200)) && Enabled(s, Respond(c, 200));
    }
  }

  lemma RefreshProgress(cfg: Config, s: State, r: nat)
    requires Inv(cfg, s) && !cfg.ShouldIntercept(Some(cfg.RefreshUrl()))
    requires r < |s.refreshes| && !s.refreshes[r].Settled?
    ensures CanProgress(s)
  {
    match s.refreshes[r]
    case Starting => assert Progress(Issue(r)) && Enabled(s, Issue(r));
    case Clearing => assert Progress(Cleared(r)) && Enabled(s, Cleared(r));
    case Calling(c) =>
      if s.calls[c].phase.Done? {
        assert Progress(Deliver(r, None)) && Enabled(s, Deliver(r, None));
      } else {
        assert CallGood(cfg, s.calls[c]);
        CallProgress(s, c);
      }
  }

  /** The run that gets stuck when the refresh's own request is intercepted: it waits for itself. */
  lemma StuckRun(cfg: Config, mode: Mode) returns (states: seq<State>, events: seq<Event>)
    requires cfg.ShouldIntercept(Some(cfg.RefreshUrl()))
    ensures IsRun(cfg, mode, states, events)
    ensures !Quiet(states[|events|]) && !CanProgress(states[|events|])
  {
    hide Config.ShouldIntercept, Config.IsApi;
    var url := Some(cfg.RefreshUrl());
    var e0, e1, e2 := Arrive(url, 0, Some("t")), Respond(0, 401), Issue(0);
    var s1 := Next(cfg, mode, INITIAL, e0);
    StuckFirst(cfg, mode, url);
    var s2 := Next(cfg, mode, s1, e1);
    StuckSecond(cfg, mode, s1);
    var s3 := Next(cfg, mode, s2, e2);
    StuckThird(cfg, mode, s2);
    hide Next;
    states, events := [INITIAL, s1, s2, s3], [e0, e1, e2];
  }

  lemma StuckFirst(cfg: Config, mode: Mode, url: Option<Url>)
    ensures var s1 := Next(cfg, mode, INITIAL, Arrive(url, 0, Some("t")));
      && s1.calls == [Call(url, 0, Some("t"), InFlight, [Outgoing(cfg, mode, url, Some("t"))], false)]
      && s1 == INITIAL.(calls := s1.calls)
  {
  }

  lemma StuckSecond(cfg: Config, mode: Mode, s1: State)
    requires s1 == INITIAL.(calls := s1.calls) && |s1.calls| == 1
    requires s1.calls[0].phase.InFlight? && cfg.ShouldIntercept(s1.calls[0].url)
    ensures var s2 := Next(cfg, mode, s1, Respond(0, 401));
      && |s2.calls| == 1 && s2.calls[0].phase == Waiting(0)
      && s2.isRefreshing && s2.inFlight == Some(0) && s2.refreshes == [Starting]
  {
  }

  lemma StuckThird(cfg: Config, mode: Mode, s2: State)
    requires cfg.ShouldIntercept(Some(cfg.RefreshUrl()))
    requires |s2.calls| == 1 && s2.calls[0].phase == Waiting(0)
    requires s2.isRefreshing && s2.inFlight == Some(0) && s2.refreshes == [Starting]
    ensures var s3 := Next(cfg, mode, s2, Issue(0));
      && |s3.calls| == 2 && s3.calls[0].phase == Waiting(0) && s3.calls[1].phase == Gated(0)
      && s3.refreshes == [Calling(1)]
  {
  }
}
