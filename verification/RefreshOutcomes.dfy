/** What each refresh does to its waiters, who starts one, and how often local state is cleared. */
module RefreshOutcomes {
  import opened Options
  import opened UrlPaths
  import opened RefreshSpec
  import opened RefreshSafety

  /** The calls whose first answer was a 401 that asked for a refresh. */
  ghost function Unauthorized(s: State): set<nat> {
    set c: nat | c < |s.calls| && s.calls[c].unauthorized
  }

  lemma SettleCalls(cfg: Config, mode: Mode, s: State, r: nat, outcome: Outcome)
    requires r < |s.refreshes|
    ensures var s2 := Settle(cfg, mode, s, r, outcome);
      && |s2.calls| == |s.calls|
      && forall c :: 0 <= c < |s.calls| ==> s2.calls[c] == AfterSettle(cfg, mode, s.calls[c], r, outcome)
  {
  }

  /** Every other step leaves the 401s and the number of refreshes as they were. */
  lemma OtherStep(cfg: Config, mode: Mode, s: State, e: Event)
    requires Enabled(s, e) && !(e.Respond? && Handles(cfg, s, s.calls[e.call], e.status))
    ensures var s2 := Next(cfg, mode, s, e);
      && |s2.refreshes| == |s.refreshes| && |s2.calls| >= |s.calls|
      && (forall c :: 0 <= c < |s.calls| ==> s2.calls[c].unauthorized == s.calls[c].unauthorized)
      && (forall c :: |s.calls| <= c < |s2.calls| ==> !s2.calls[c].unauthorized)
  {
    if e.Abort? { SettleCalls(cfg, mode, s, e.refresh, Failed(None)); }
    if e.Cleared? { SettleCalls(cfg, mode, s, e.refresh, Failed(Some(401))); }
    if e.Deliver? {
      SettleCalls(cfg, mode, s, e.refresh,
        OutcomeOf(mode, s.calls[s.refreshes[e.refresh].call].phase.result, e.accessToken));
    }
    hide Config.IsApi;
  }

  /** A 401 that asks for a refresh is its call's first, and starts at most one. */
  lemma HandledStep(cfg: Config, mode: Mode, s: State, e: Event)
    requires Inv(cfg, s) && Enabled(s, e) && e.Respond? && Handles(cfg, s, s.calls[e.call], e.status)
    ensures var s2 := Next(cfg, mode, s, e);
      |s2.refreshes| <= |s.refreshes| + 1 && |Unauthorized(s2)| == |Unauthorized(s)| + 1
  {
    hide Config.ShouldIntercept, Config.IsApi;
    assert CallGood(cfg, s.calls[e.call]);
    hide Inv, CallGood;
    var s2 := Next(cfg, mode, s, e);
    assert s2.calls == s.calls[e.call := s2.calls[e.call]] && s2.calls[e.call].unauthorized;
    assert Unauthorized(s2) == Unauthorized(s) + {e.call};
  }

  /** A refresh is started only by a 401 to a call that had none before. */
  lemma StartsStep(cfg: Config, mode: Mode, s: State, e: Event)
    requires Inv(cfg, s) && Enabled(s, e)
    ensures var s2 := Next(cfg, mode, s, e);
      |s2.refreshes| - |s.refreshes| <= |Unauthorized(s2)| - |Unauthorized(s)|
  {
    var s2 := Next(cfg, mode, s, e);
    if e.Respond? && Handles(cfg, s, s.calls[e.call], e.status) {
      HandledStep(cfg, mode, s, e);
    } else {
      OtherStep(cfg, mode, s, e);
      hide Next, Inv, Handles;
      assert Unauthorized(s2) == Unauthorized(s);
    }
  }

  /** In any run at most as many refreshes start as calls had a 401, and at most one is unfinished at a time. */
  lemma {:induction false} RefreshesStarted(cfg: Config, mode: Mode, states: seq<State>, events: seq<Event>)
    requires IsRun(cfg, mode, states, events)
    ensures |states[|events|].refreshes| <= |Unauthorized(states[|events|])|
    ensures forall q, r :: 0 <= q < r < |states[|events|].refreshes| ==>
      states[|events|].refreshes[q].Settled? || states[|events|].refreshes[r].Settled?
  {
    InvRun(cfg, mode, states, events);
    hide Next, CallGood;
    if events != [] {
      var n := |events| - 1;
      RefreshesStarted(cfg, mode, states[..n + 1], events[..n]);
      assert states[..n + 1][n] == states[n];
      StartsStep(cfg, mode, states[n], events[n]);
    }
    assert OneRefresh(states[|events|]);
  }

  /** The refresh this step ends, if it ends one. */
  ghost function Ends(cfg: Config, mode: Mode, s: State, e: Event): Option<nat>
    requires Enabled(s, e)
  {
    if (e.Abort? || e.Cleared? || e.Deliver?) && Next(cfg, mode, s, e).refreshes[e.refresh].Settled?
      then Some(e.refresh) else None
  }

  /**
    One refresh, one outcome. The step that ends a refresh frees the coordinator and releases every waiting call:
    all of them are sent with the new token, or all fail with the refresh's error.
   */
  lemma OneOutcome(cfg: Config, mode: Mode, s: State, e: Event)
    requires Inv(cfg, s) && Enabled(s, e) && Ends(cfg, mode, s, e).Some?
    ensures var r, s2 := e.refresh, Next(cfg, mode, s, e);
      && !s.refreshes[r].Settled? && !s2.isRefreshing && s2.inFlight == None
      && (forall c :: 0 <= c < |s2.calls| ==> !s2.calls[c].phase.Gated? && !s2.calls[c].phase.Waiting?)
      && |s2.calls| == |s.calls|
      && match s2.refreshes[r].outcome
         case Token(token) =>
           && (mode.Json? ==> token != "" && token != "success")
           && forall c :: 0 <= c < |s.calls| && (s.calls[c].phase.Gated? || s.calls[c].phase.Waiting?) ==>
                && s2.calls[c].phase == Final
                && |s2.calls[c].sent| == |s.calls[c].sent| + 1
                && LastAuth(s2.calls[c]) == if mode.Json? then Some(token) else LastAuth(s.calls[c])
         case Failed(status) =>
           forall c :: 0 <= c < |s.calls| && (s.calls[c].phase.Gated? || s.calls[c].phase.Waiting?) ==>
             s2.calls[c].phase == Done(RefreshFailed(status))
  {
    var outcome := Next(cfg, mode, s, e).refreshes[e.refresh].outcome;
    SettleCalls(cfg, mode, s, e.refresh, outcome);
    hide Inv, CallGood, Config.IsApi, Config.ShouldIntercept;
    assert s.inFlight == Some(e.refresh) by { assert OneRefresh(s); }
    forall c | 0 <= c < |s.calls| && (s.calls[c].phase.Gated? || s.calls[c].phase.Waiting?)
      ensures WaitsOn(s.calls[c], e.refresh)
    {
      assert WaitersCurrent(s);
    }
  }

  /** A call held back by a refresh: not sent yet, or sent once at last, and never the start of another refresh. */
  predicate HeldBack(c: Call) {
    && !c.unauthorized
    && ((c.phase.Gated? && c.sent == []) || (c.phase.Final? && |c.sent| == 1) || (c.phase.Done? && |c.sent| <= 1))
  }

  lemma HeldBackStep(cfg: Config, mode: Mode, s: State, e: Event, c: nat)
    requires Enabled(s, e) && c < |s.calls| && HeldBack(s.calls[c])
    ensures var s2 := Next(cfg, mode, s, e); c < |s2.calls| && HeldBack(s2.calls[c])
  {
    if e.Abort? { SettleCalls(cfg, mode, s, e.refresh, Failed(None)); }
    if e.Cleared? { SettleCalls(cfg, mode, s, e.refresh, Failed(Some(401))); }
    if e.Deliver? {
      SettleCalls(cfg, mode, s, e.refresh,
        OutcomeOf(mode, s.calls[s.refreshes[e.refresh].call].phase.result, e.accessToken));
    }
    hide Settle;
  }

  /** A call that is ever gated is sent at most once; any call is sent at most twice. */
  lemma {:induction false} SentAtMost(cfg: Config, mode: Mode, states: seq<State>, events: seq<Event>, i: nat, c: nat)
    requires IsRun(cfg, mode, states, events)
    requires i < |states| && c < |states[i].calls|
    ensures c < |states[|events|].calls| && |states[|events|].calls[c].sent| <= 2
    ensures states[i].calls[c].phase.Gated? ==>
      HeldBack(states[|events|].calls[c]) && |states[|events|].calls[c].sent| <= 1
  {
    hide Next, HeldBack, CallGood;
    InvRun(cfg, mode, states, events);
    var n := |events|;
    if i < n {
      SentAtMost(cfg, mode, states[..n], events[..n - 1], i, c);
      assert states[..n][n - 1] == states[n - 1] && states[..n][i] == states[i];
      CallsKept(cfg, mode, states[n - 1], events[n - 1]);
      if states[i].calls[c].phase.Gated? {
        HeldBackStep(cfg, mode, states[n - 1], events[n - 1], c);
      }
    }
    assert Inv(cfg, states[n]);
    SentOnce(cfg, states[n].calls[c]);
  }

  lemma SentOnce(cfg: Config, c: Call)
    requires CallGood(cfg, c)
    ensures |c.sent| <= 2
    ensures c.phase.Gated? ==> HeldBack(c)
    ensures HeldBack(c) ==> |c.sent| <= 1
  {
  }

  lemma CallsKept(cfg: Config, mode: Mode, s: State, e: Event)
    requires Enabled(s, e)
    ensures |Next(cfg, mode, s, e).calls| >= |s.calls|
  {
  }

  /** The refreshes that failed with 401, and those of them whose clearing is done. */
  ghost function Unauthenticated(s: State): set<nat> {
    set r: nat | r < |s.refreshes| && (s.refreshes[r].Clearing? || s.refreshes[r] == Settled(Failed(Some(401))))
  }

  ghost function ClearedOnes(s: State): set<nat> {
    set r: nat | r < |s.refreshes| && s.refreshes[r] == Settled(Failed(Some(401)))
  }

  ghost predicate ClearsCounted(s: State) {
    && s.clears == s.expired == |ClearedOnes(s)|
    && s.clientExpired == |Unauthenticated(s)|
  }

  /** How one step changes the refreshes and the counts of clearings. */
  ghost predicate RefreshesAfter(s: State, s2: State, e: Event) {
    var counted := s2.clears == s.clears && s2.expired == s.expired;
    match e
    case Cleared(r) =>
      && r < |s.refreshes| && s2.refreshes == s.refreshes[r := Settled(Failed(Some(401)))]
      && s2.clears == s.clears + 1 && s2.expired == s.expired + 1 && s2.clientExpired == s.clientExpired
    case Deliver(r, _) =>
      && counted && r < |s.refreshes| && r < |s2.refreshes|
      && var next := s2.refreshes[r];
        && s2.refreshes == s.refreshes[r := next]
        && ((next.Clearing? && s2.clientExpired == s.clientExpired + 1)
            || (next.Settled? && next.outcome != Failed(Some(401)) && s2.clientExpired == s.clientExpired))
    case Abort(r) =>
      counted && r < |s.refreshes| && s2.refreshes == s.refreshes[r := Settled(Failed(None))] &&
        s2.clientExpired == s.clientExpired
    case Issue(r) =>
      counted && r < |s.refreshes| && s2.refreshes == s.refreshes[r := Calling(|s.calls|)] &&
        s2.clientExpired == s.clientExpired
    case _ =>
      counted && (s2.refreshes == s.refreshes || s2.refreshes == s.refreshes + [Starting]) &&
        s2.clientExpired == s.clientExpired
  }

  lemma RefreshesStep(cfg: Config, mode: Mode, s: State, e: Event)
    requires Enabled(s, e)
    ensures RefreshesAfter(s, Next(cfg, mode, s, e), e)
  {
    var s2 := Next(cfg, mode, s, e);
    hide Config.ShouldIntercept, Config.IsApi, AfterSettle, Entering;
    if e.Deliver? {
      assert s2.refreshes == s.refreshes[e.refresh := s2.refreshes[e.refresh]];
    }
  }

  predicate IsCleared(r: Refresh) {
    r == Settled(Failed(Some(401)))
  }

  /** The sets of failed and cleared refreshes when one refresh changes. */
  lemma RefreshSet(s: State, s2: State, r: nat, next: Refresh)
    requires r < |s.refreshes| && s2.refreshes == s.refreshes[r := next]
    ensures ClearedOnes(s2) == (if IsCleared(next) then ClearedOnes(s) + {r} else ClearedOnes(s) - {r})
    ensures Unauthenticated(s2) == (if IsCleared(next) || next.Clearing? then Unauthenticated(s) + {r}
      else Unauthenticated(s) - {r})
  {
  }

  lemma RefreshCount(s: State, s2: State, r: nat, next: Refresh)
    requires r < |s.refreshes| && !s.refreshes[r].Settled? && s2.refreshes == s.refreshes[r := next]
    ensures |ClearedOnes(s2)| == |ClearedOnes(s)| + (if IsCleared(next) then 1 else 0)
    ensures |Unauthenticated(s2)| == |Unauthenticated(s)| - (if s.refreshes[r].Clearing? then 1 else 0)
      + (if IsCleared(next) || next.Clearing? then 1 else 0)
  {
    RefreshSet(s, s2, r, next);
    assert r !in ClearedOnes(s) && (r in Unauthenticated(s) <==> s.refreshes[r].Clearing?);
    hide ClearedOnes, Unauthenticated, IsCleared;
    Resized(ClearedOnes(s), r, IsCleared(next));
    Resized(Unauthenticated(s), r, IsCleared(next) || next.Clearing?);
  }

  lemma Resized(a: set<nat>, r: nat, inside: bool)
    ensures |if inside then a + {r} else a - {r}| == |a| - (if r in a then 1 else 0) + if inside then 1 else 0
  {
    if r in a {
      assert a + {r} == a;
    } else {
      assert a - {r} == a;
    }
  }

  lemma SameRefreshes(s: State, s2: State)
    requires s2.refreshes == s.refreshes
    ensures ClearedOnes(s2) == ClearedOnes(s) && Unauthenticated(s2) == Unauthenticated(s)
  {
  }

  lemma RefreshAdded(s: State, s2: State)
    requires s2.refreshes == s.refreshes + [Starting]
    ensures ClearedOnes(s2) == ClearedOnes(s) && Unauthenticated(s2) == Unauthenticated(s)
  {
  }

  lemma ClearsStep(cfg: Config, mode: Mode, s: State, e: Event)
    requires Enabled(s, e) && ClearsCounted(s)
    ensures ClearsCounted(Next(cfg, mode, s, e))
  {
    hide Next, Enabled, ClearsCounted, RefreshesAfter;
    RefreshesStep(cfg, mode, s, e);
    CountsFollow(s, Next(cfg, mode, s, e), e);
  }

  lemma CountsFollow(s: State, s2: State, e: Event)
    requires Enabled(s, e) && ClearsCounted(s) && RefreshesAfter(s, s2, e)
    ensures ClearsCounted(s2)
  {
    hide ClearedOnes, Unauthenticated;
    if e.Cleared? || e.Deliver? || e.Abort? || e.Issue? {
      RefreshCount(s, s2, e.refresh, s2.refreshes[e.refresh]);
    } else if s2.refreshes != s.refreshes {
      RefreshAdded(s, s2);
    } else {
      SameRefreshes(s, s2);
    }
  }

  /**
    However many calls wait, the interceptor clears local state and reports the session expired exactly once for
    each refresh that failed with 401. The client does so itself too, before the interceptor hears of it.
   */
  lemma {:induction false} ClearedOncePerRefresh(cfg: Config, mode: Mode, states: seq<State>, events: seq<Event>)
    requires IsRun(cfg, mode, states, events)
    ensures ClearsCounted(states[|events|])
    ensures Quiet(states[|events|]) ==> states[|events|].clientExpired == states[|events|].expired
  {
    hide Next;
    if events == [] {
      assert ClearedOnes(INITIAL) == {} && Unauthenticated(INITIAL) == {};
    } else {
      var n := |events| - 1;
      ClearedOncePerRefresh(cfg, mode, states[..n + 1], events[..n]);
      assert states[..n + 1][n] == states[n];
      ClearsStep(cfg, mode, states[n], events[n]);
    }
    if Quiet(states[|events|]) {
      assert Unauthenticated(states[|events|]) == ClearedOnes(states[|events|]);
    }
  }
}
