/**
  What the callers of the interceptor see, on the requests themselves: what each is sent with, who is held back, and
  how the answer to a refresh decides what becomes of everyone who waits for it.
 */
module RefreshAnswers {
  import opened Options
  import opened UrlPaths
  import opened RefreshSpec
  import opened RefreshSafety
  import opened RefreshOutcomes

  /** Held back by a refresh, or waiting for one after a 401. */
  predicate Waits(c: Call) {
    c.phase.Gated? || c.phase.Waiting?
  }

  /** Cookies go to the API alone, in cookies mode alone, where a request is always sent with what it came with. */
  ghost predicate SendsGood(cfg: Config, mode: Mode, c: Call) {
    && (forall k :: 0 <= k < |c.sent| ==>
          && (c.sent[k].credentials <==> mode.Cookies? && cfg.IsApi(c.url))
          && (mode.Cookies? ==> c.sent[k].auth == c.auth))
    && (c.phase.Fetching? ==> mode.Json? && c.auth.None?)
  }

  /** The requests refreshed for are those of the calls that had a 401. */
  ghost predicate RetriedExactly(s: State) {
    forall request :: request in s.retried <==>
      exists c :: 0 <= c < |s.calls| && s.calls[c].unauthorized && s.calls[c].request == request
  }

  ghost predicate Sends(cfg: Config, mode: Mode, s: State) {
    forall c :: 0 <= c < |s.calls| ==> SendsGood(cfg, mode, s.calls[c])
  }

  lemma SettleSends(cfg: Config, mode: Mode, s: State, r: nat, outcome: Outcome)
    requires r < |s.refreshes| && Sends(cfg, mode, s)
    ensures Sends(cfg, mode, Settle(cfg, mode, s, r, outcome))
  {
    hide Config.IsApi, Settle;
    SettleCalls(cfg, mode, s, r, outcome);
    var s2 := Settle(cfg, mode, s, r, outcome);
    forall c | 0 <= c < |s2.calls| ensures SendsGood(cfg, mode, s2.calls[c]) {
      assert SendsGood(cfg, mode, s.calls[c]);
    }
  }

  /** A new request, entering or sent with its token. */
  lemma NewSends(cfg: Config, mode: Mode, s: State, e: Event)
    requires Enabled(s, e) && Sends(cfg, mode, s) && (e.Arrive? || e.Issue? || e.Fetched?)
    ensures Sends(cfg, mode, Next(cfg, mode, s, e))
  {
    hide Config.IsApi, Config.ShouldIntercept, Settle;
    if e.Fetched? {
      assert SendsGood(cfg, mode, s.calls[e.call]);
    }
  }

  lemma OldSends(cfg: Config, mode: Mode, s: State, e: Event)
    requires Enabled(s, e) && Sends(cfg, mode, s) && (e.Respond? || e.Cancel? || e.FetchFailed?)
    ensures Sends(cfg, mode, Next(cfg, mode, s, e))
  {
    hide Config.IsApi, Config.ShouldIntercept, Settle, Entering;
    assert SendsGood(cfg, mode, s.calls[e.call]);
  }

  lemma SendsStep(cfg: Config, mode: Mode, s: State, e: Event)
    requires Enabled(s, e) && Sends(cfg, mode, s)
    ensures Sends(cfg, mode, Next(cfg, mode, s, e))
  {
    if e.Arrive? || e.Issue? || e.Fetched? {
      NewSends(cfg, mode, s, e);
    } else if e.Respond? || e.Cancel? || e.FetchFailed? {
      OldSends(cfg, mode, s, e);
    } else {
      EndSends(cfg, mode, s, e);
    }
  }

  /** Nor does the end of a refresh send anything otherwise. */
  lemma EndSends(cfg: Config, mode: Mode, s: State, e: Event)
    requires Enabled(s, e) && Sends(cfg, mode, s) && (e.Abort? || e.Cleared? || e.Deliver?)
    ensures Sends(cfg, mode, Next(cfg, mode, s, e))
  {
    hide Config.IsApi, Config.ShouldIntercept, Settle, SendsGood;
    match e
    case Abort(r) => SettleSends(cfg, mode, s, r, Failed(None));
    case Cleared(r) => SettleSends(cfg, mode, s, r, Failed(Some(401)));
    case Deliver(r, accessToken) =>
      SettleSends(cfg, mode, s, r, OutcomeOf(mode, s.calls[s.refreshes[r].call].phase.result, accessToken));
  }

  lemma SendsStart(cfg: Config, mode: Mode)
    ensures Sends(cfg, mode, INITIAL)
  {
  }

  /** In every reachable state every request has been sent as its mode asks for. */
  lemma {:induction false} SendsRun(cfg: Config, mode: Mode, states: seq<State>, events: seq<Event>)
    requires IsRun(cfg, mode, states, events)
    ensures Sends(cfg, mode, states[|events|])
  {
    hide Next, Sends, Enabled;
    if events == [] {
      SendsStart(cfg, mode);
    } else {
      var n := |events| - 1;
      SendsRun(cfg, mode, states[..n + 1], events[..n]);
      SendsStep(cfg, mode, states[n], events[n]);
    }
  }

  lemma RequestsKept(cfg: Config, mode: Mode, s: State, e: Event)
    requires Enabled(s, e)
    ensures var s2 := Next(cfg, mode, s, e);
      |s.calls| <= |s2.calls| && forall c :: 0 <= c < |s.calls| ==> s2.calls[c].request == s.calls[c].request
    ensures !e.Respond? ==> Next(cfg, mode, s, e).retried == s.retried
  {
    hide Config.IsApi, Config.ShouldIntercept, Entering;
  }

  lemma HandledRetried(cfg: Config, mode: Mode, s: State, e: Event)
    requires Enabled(s, e) && e.Respond?
    ensures var s2, c := Next(cfg, mode, s, e), s.calls[e.call];
      if Handles(cfg, s, c, e.status)
      then s2.retried == s.retried + {c.request} && s2.calls == s.calls[e.call := s2.calls[e.call]] &&
        s2.calls[e.call].unauthorized
      else s2.retried == s.retried
  {
    hide Config.IsApi, Config.ShouldIntercept;
  }

  lemma RetriedStep(cfg: Config, mode: Mode, s: State, e: Event)
    requires Enabled(s, e) && RetriedExactly(s)
    ensures RetriedExactly(Next(cfg, mode, s, e))
  {
    var s2 := Next(cfg, mode, s, e);
    RequestsKept(cfg, mode, s, e);
    if e.Respond? {
      HandledRetried(cfg, mode, s, e);
    }
    if !(e.Respond? && Handles(cfg, s, s.calls[e.call], e.status)) {
      OtherStep(cfg, mode, s, e);
      hide Next, Handles;
      forall request
        ensures request in s2.retried <==>
          exists c :: 0 <= c < |s2.calls| && s2.calls[c].unauthorized && s2.calls[c].request == request
      {
        if request in s.retried {
          var c :| 0 <= c < |s.calls| && s.calls[c].unauthorized && s.calls[c].request == request;
          assert s2.calls[c].unauthorized;
        }
      }
    } else {
      hide Next, Handles;
      forall request
        ensures request in s2.retried <==>
          exists c :: 0 <= c < |s2.calls| && s2.calls[c].unauthorized && s2.calls[c].request == request
      {
        if request in s.retried {
          var c :| 0 <= c < |s.calls| && s.calls[c].unauthorized && s.calls[c].request == request;
          assert s2.calls[c].unauthorized;
        } else if request == s.calls[e.call].request {
          assert s2.calls[e.call].unauthorized;
        }
      }
    }
  }

  lemma {:induction false} RetriedRun(cfg: Config, mode: Mode, states: seq<State>, events: seq<Event>)
    requires IsRun(cfg, mode, states, events)
    ensures RetriedExactly(states[|events|])
  {
    hide Next, RetriedExactly, Enabled;
    if events == [] {
      assert RetriedExactly(INITIAL) by { NothingRetried(); }
    } else {
      var n := |events| - 1;
      RetriedRun(cfg, mode, states[..n + 1], events[..n]);
      RetriedStep(cfg, mode, states[n], events[n]);
    }
  }

  lemma NothingRetried()
    ensures RetriedExactly(INITIAL)
  {
  }

  lemma RunTo(cfg: Config, mode: Mode, states: seq<State>, events: seq<Event>, n: nat)
    requires IsRun(cfg, mode, states, events) && n <= |events|
    ensures IsRun(cfg, mode, states[..n + 1], events[..n])
    ensures Inv(cfg, states[n]) && Sends(cfg, mode, states[n]) && RetriedExactly(states[n])
  {
    hide Next, Enabled, Inv, Sends, RetriedExactly;
    InvRun(cfg, mode, states, events);
    SendsRun(cfg, mode, states[..n + 1], events[..n]);
    RetriedRun(cfg, mode, states[..n + 1], events[..n]);
  }

  /** A refresh is in flight. */
  ghost predicate InFlightRefresh(s: State, r: nat) {
    r < |s.refreshes| && !s.refreshes[r].Settled?
  }

  /**
    An arriving request: held back unsent while a refresh is in flight, if it is intercepted; sent for its token first,
    in JSON mode, if it has none; otherwise sent at once as it came, to the API with cookies in cookies mode.
   */
  lemma Arrives(cfg: Config, mode: Mode, states: seq<State>, events: seq<Event>, n: nat, url: Option<Url>, request: int,
      auth: Option<string>)
    requires IsRun(cfg, mode, states, events) && n < |events| && events[n] == Arrive(url, request, auth)
    ensures var s, s2 := states[n], states[n + 1];
      && |s2.calls| == |s.calls| + 1 && s2.calls[..|s.calls|] == s.calls
      && var c := s2.calls[|s.calls|];
        && (forall r :: InFlightRefresh(s, r) && cfg.ShouldIntercept(url) ==>
              c == Call(url, request, auth, Gated(r), [], false))
        && ((forall r :: !InFlightRefresh(s, r)) || !cfg.ShouldIntercept(url) ==>
              c == if mode.Json? && cfg.ShouldIntercept(url) && auth.None?
                then Call(url, request, auth, Fetching, [], false)
                else Call(url, request, auth, InFlight, [Sent(auth, mode.Cookies? && cfg.IsApi(url))], false))
  {
    RunTo(cfg, mode, states, events, n);
    hide Config.IsApi, Config.ShouldIntercept, CallGood;
    var s := states[n];
    assert OneRefresh(s);
    if s.inFlight.Some? {
      assert InFlightRefresh(s, s.inFlight.value);
    }
  }

  /** The stored token is attached to the request it was fetched for, which is sent; without one it goes as it is. */
  lemma TokenAttached(cfg: Config, mode: Mode, states: seq<State>, events: seq<Event>, n: nat, c: nat,
      token: Option<string>)
    requires IsRun(cfg, mode, states, events) && n < |events| && events[n] == Fetched(c, token)
    ensures c < |states[n].calls| && mode.Json?
    ensures states[n + 1].calls == states[n].calls[c := states[n].calls[c].(phase := InFlight,
      sent := [Sent(if token.Some? && token.value != "" then token else None, false)])]
  {
    RunTo(cfg, mode, states, events, n);
    assert SendsGood(cfg, mode, states[n].calls[c]);
    hide Config.IsApi;
  }

  /** The call's first 401, of a request that had none before. */
  ghost predicate FirstUnauthorized(cfg: Config, s: State, c: nat, status: int) {
    && c < |s.calls| && s.calls[c].phase.InFlight? && status == 401 && cfg.ShouldIntercept(s.calls[c].url)
    && forall d :: 0 <= d < |s.calls| && s.calls[d].unauthorized ==> s.calls[d].request != s.calls[c].request
  }

  /**
    An intercepted request's first 401 makes its call wait: for the refresh in flight, or, when there is none, for one
    it starts. Every other answer is what the caller gets.
   */
  lemma AnswerMeans(cfg: Config, mode: Mode, states: seq<State>, events: seq<Event>, n: nat, c: nat, status: int)
    requires IsRun(cfg, mode, states, events) && n < |events| && events[n] == Respond(c, status)
    ensures var s, s2 := states[n], states[n + 1];
      && c < |s.calls| && |s2.calls| == |s.calls|
      && if FirstUnauthorized(cfg, s, c, status) then
           && s2.calls[c].phase.Waiting? && InFlightRefresh(s2, s2.calls[c].phase.refresh)
           && (if exists r :: InFlightRefresh(s, r) then s2.refreshes == s.refreshes
             else s2.refreshes == s.refreshes + [Starting])
         else s2.calls[c].phase == Done(Answered(status)) && s2.refreshes == s.refreshes
  {
    RunTo(cfg, mode, states, events, n);
    hide Config.IsApi, Config.ShouldIntercept, CallGood;
    var s := states[n];
    assert FirstUnauthorized(cfg, s, c, status) <==> Handles(cfg, s, s.calls[c], status);
    assert OneRefresh(s);
    if s.inFlight.Some? {
      assert InFlightRefresh(s, s.inFlight.value);
    }
  }

  /** A refresh asks for the refresh address, without authorization of its own, and at once unless intercepted. */
  lemma RefreshAsks(cfg: Config, mode: Mode, states: seq<State>, events: seq<Event>, n: nat, r: nat)
    requires IsRun(cfg, mode, states, events) && n < |events| && events[n] == Issue(r)
    ensures var s, s2, url := states[n], states[n + 1], Some(cfg.RefreshUrl());
      && |s2.calls| == |s.calls| + 1 && s2.calls[..|s.calls|] == s.calls
      && InFlightRefresh(s, r) && s2.refreshes == s.refreshes[r := Calling(|s.calls|)]
      && var c := s2.calls[|s.calls|];
        && c.url == url && c.auth.None? && c.request < 0
        && if cfg.ShouldIntercept(url) then c.phase == Gated(r) && c.sent == []
           else c.phase == InFlight && c.sent == [Sent(None, mode.Cookies? && cfg.IsApi(url))]
  {
    RunTo(cfg, mode, states, events, n);
    hide Config.IsApi, Config.ShouldIntercept, CallGood;
    assert OneRefresh(states[n]);
  }

  /**
    An event of one call, or of a refresh that does not end, changes no other call; a failed token fetch and a
    cancellation are what that one caller gets.
   */
  lemma OthersUntouched(cfg: Config, mode: Mode, states: seq<State>, events: seq<Event>, n: nat)
    requires IsRun(cfg, mode, states, events) && n < |events|
    ensures var s, s2, e := states[n], states[n + 1], events[n];
      && (e.Fetched? || e.FetchFailed? || e.Respond? || e.Cancel? ==>
            && e.call < |s.calls| && |s2.calls| == |s.calls|
            && (forall c :: 0 <= c < |s.calls| && c != e.call ==> s2.calls[c] == s.calls[c])
            && (e.FetchFailed? ==> s2.calls[e.call] == s.calls[e.call].(phase := Done(FetchError)))
            && (e.Cancel? ==> s2.calls[e.call] == s.calls[e.call].(phase := Done(Cancelled))))
      && (e.Arrive? || e.Issue? ==> |s2.calls| == |s.calls| + 1 && s2.calls[..|s.calls|] == s.calls)
  {
    hide Config.IsApi, Config.ShouldIntercept, Entering, Settle;
  }

  /** What became of the refresh's own request. */
  ghost predicate RefreshGot(s: State, r: nat, result: Result) {
    && r < |s.refreshes| && s.refreshes[r].Calling?
    && s.refreshes[r].call < |s.calls| && s.calls[s.refreshes[r].call].phase == Done(result)
  }

  /** Everyone who waited is sent on with this; nobody else's call is touched. */
  ghost predicate AllSent(s: State, s2: State, sends: Call -> Sent) {
    && |s2.calls| == |s.calls|
    && forall c :: 0 <= c < |s.calls| ==>
      s2.calls[c] == if Waits(s.calls[c])
        then s.calls[c].(phase := Final, sent := s.calls[c].sent + [sends(s.calls[c])]) else s.calls[c]
  }

  /** Everyone who waited fails with this; nobody else's call is touched. */
  ghost predicate AllFailed(s: State, s2: State, status: Option<int>) {
    && |s2.calls| == |s.calls|
    && forall c :: 0 <= c < |s.calls| ==>
      s2.calls[c] == if Waits(s.calls[c]) then s.calls[c].(phase := Done(RefreshFailed(status))) else s.calls[c]
  }

  /** Settling reaches exactly those who wait. */
  lemma SettledWaiters(cfg: Config, mode: Mode, s: State, r: nat, outcome: Outcome)
    requires Inv(cfg, s) && InFlightRefresh(s, r)
    ensures var s2 := Settle(cfg, mode, s, r, outcome);
      && |s2.calls| == |s.calls|
      && forall c :: 0 <= c < |s.calls| ==>
        && (WaitsOn(s.calls[c], r) <==> Waits(s.calls[c]))
        && s2.calls[c] == AfterSettle(cfg, mode, s.calls[c], r, outcome)
  {
    SettleCalls(cfg, mode, s, r, outcome);
    hide Settle, AfterSettle, CallGood;
    assert OneRefresh(s) && WaitersCurrent(s);
  }

  /** JSON mode: a refresh answered with a token sends everyone who waits again, with that token. */
  lemma TokenSendsAll(cfg: Config, mode: Mode, states: seq<State>, events: seq<Event>, n: nat, r: nat, code: int,
      token: string)
    requires IsRun(cfg, mode, states, events) && n < |events| && events[n] == Deliver(r, Some(token))
    requires mode.Json? && RefreshGot(states[n], r, Answered(code)) && 200 <= code < 300
    requires token != "" && token != "success"
    ensures AllSent(states[n], states[n + 1], _ => Sent(Some(token), false))
  {
    RunTo(cfg, mode, states, events, n);
    SettledWaiters(cfg, mode, states[n], r, Token(token));
    hide Settle, Inv, Sends, Config.IsApi;
  }

  /** Cookies mode: an accepted refresh sends everyone who waits as it came, with cookies. */
  lemma CookiesSendAll(cfg: Config, mode: Mode, states: seq<State>, events: seq<Event>, n: nat, r: nat, code: int,
      accessToken: Option<string>)
    requires IsRun(cfg, mode, states, events) && n < |events| && events[n] == Deliver(r, accessToken)
    requires mode.Cookies? && RefreshGot(states[n], r, Answered(code)) && 200 <= code < 300
    ensures AllSent(states[n], states[n + 1], (c: Call) => Sent(c.auth, true))
    ensures var s := states[n];
      forall c, k | 0 <= c < |s.calls| && 0 <= k < |s.calls[c].sent| && Waits(s.calls[c]) ::
        s.calls[c].sent[k] == Sent(s.calls[c].auth, true)
  {
    RunTo(cfg, mode, states, events, n);
    var s := states[n];
    SettledWaiters(cfg, mode, s, r, Token("success"));
    forall c | 0 <= c < |s.calls| && Waits(s.calls[c])
      ensures LastAuth(s.calls[c]) == s.calls[c].auth && cfg.IsApi(s.calls[c].url) && SendsGood(cfg, mode, s.calls[c])
    {
      assert CallGood(cfg, s.calls[c]) && SendsGood(cfg, mode, s.calls[c]);
    }
    hide Settle, Inv, Sends, Config.IsApi, Config.ShouldIntercept;
  }

  /** JSON mode: an accepted refresh without a token to go on with fails everyone who waits. */
  lemma NoTokenFailsAll(cfg: Config, mode: Mode, states: seq<State>, events: seq<Event>, n: nat, r: nat, code: int,
      accessToken: Option<string>)
    requires IsRun(cfg, mode, states, events) && n < |events| && events[n] == Deliver(r, accessToken)
    requires mode.Json? && RefreshGot(states[n], r, Answered(code)) && 200 <= code < 300
    requires accessToken in {None, Some(""), Some("success")}
    ensures AllFailed(states[n], states[n + 1], None)
  {
    RunTo(cfg, mode, states, events, n);
    SettledWaiters(cfg, mode, states[n], r, Failed(None));
    hide Settle, Inv, Sends, Config.IsApi;
  }

  /** A refresh refused, but not with 401, fails everyone who waits with that status code. */
  lemma RefusalFailsAll(cfg: Config, mode: Mode, states: seq<State>, events: seq<Event>, n: nat, r: nat, code: int,
      accessToken: Option<string>)
    requires IsRun(cfg, mode, states, events) && n < |events| && events[n] == Deliver(r, accessToken)
    requires RefreshGot(states[n], r, Answered(code)) && !(200 <= code < 300) && code != 401
    ensures AllFailed(states[n], states[n + 1], Some(code))
  {
    RunTo(cfg, mode, states, events, n);
    SettledWaiters(cfg, mode, states[n], r, Failed(Some(code)));
    hide Settle, Inv, Sends, Config.IsApi;
  }

  /** A refresh that never got as far as an answer fails everyone who waits, without a status code. */
  lemma NoAnswerFailsAll(cfg: Config, mode: Mode, states: seq<State>, events: seq<Event>, n: nat, r: nat)
    requires IsRun(cfg, mode, states, events) && n < |events|
    requires events[n] == Abort(r) || (events[n].Deliver? && events[n].refresh == r &&
      (RefreshGot(states[n], r, FetchError) || RefreshGot(states[n], r, Cancelled)))
    ensures AllFailed(states[n], states[n + 1], None)
  {
    RunTo(cfg, mode, states, events, n);
    SettledWaiters(cfg, mode, states[n], r, Failed(None));
    hide Settle, Inv, Sends, Config.IsApi;
  }

  /** Until the clearing of a refresh is done nobody who waits hears anything; a call may only be cancelled. */
  lemma ClearingStep(cfg: Config, mode: Mode, s: State, e: Event, r: nat)
    requires Inv(cfg, s) && Enabled(s, e) && e != Cleared(r) && r < |s.refreshes| && s.refreshes[r].Clearing?
    ensures var s2 := Next(cfg, mode, s, e);
      && r < |s2.refreshes| && s2.refreshes[r].Clearing? && |s.calls| <= |s2.calls|
      && s2.clears == s.clears && s2.expired == s.expired
      && forall c :: 0 <= c < |s.calls| && Waits(s.calls[c]) ==>
        s2.calls[c] in {s.calls[c], s.calls[c].(phase := Done(Cancelled))}
  {
    assert OneRefresh(s);
    hide Config.IsApi, Config.ShouldIntercept, CallGood, Settle;
  }

  lemma {:induction false} ClearingUntil(cfg: Config, mode: Mode, states: seq<State>, events: seq<Event>, n: nat,
      m: nat, r: nat)
    requires IsRun(cfg, mode, states, events) && n <= m <= |events|
    requires r < |states[n].refreshes| && states[n].refreshes[r].Clearing?
    requires forall i :: n <= i < m ==> events[i] != Cleared(r)
    ensures r < |states[m].refreshes| && states[m].refreshes[r].Clearing? && |states[n].calls| <= |states[m].calls|
    ensures states[m].clears == states[n].clears && states[m].expired == states[n].expired
    ensures forall c :: 0 <= c < |states[n].calls| && Waits(states[n].calls[c]) ==>
      states[m].calls[c] in {states[n].calls[c], states[n].calls[c].(phase := Done(Cancelled))}
    decreases m - n
  {
    hide Next, Enabled, Inv;
    if n < m {
      RunTo(cfg, mode, states, events, m - 1);
      ClearingUntil(cfg, mode, states, events, n, m - 1, r);
      ClearingStep(cfg, mode, states[m - 1], events[m - 1], r);
      CancelledStays(cfg, mode, states[m - 1], events[m - 1]);
    }
  }

  lemma CancelledStays(cfg: Config, mode: Mode, s: State, e: Event)
    requires Enabled(s, e)
    ensures |s.calls| <= |Next(cfg, mode, s, e).calls|
    ensures forall c :: 0 <= c < |s.calls| && s.calls[c].phase.Done? ==> Next(cfg, mode, s, e).calls[c] == s.calls[c]
  {
    hide Config.IsApi, Config.ShouldIntercept, Entering;
  }

  /**
    A refresh refused with 401 releases nobody when its answer comes. Local state is cleared and the session reported
    expired first; then everyone who waited by the time of the answer, and was not cancelled since, fails with 401.
   */
  lemma UnauthorizedFailsAll(cfg: Config, mode: Mode, states: seq<State>, events: seq<Event>, n: nat, m: nat, r: nat,
      accessToken: Option<string>)
    requires IsRun(cfg, mode, states, events) && n < m < |events|
    requires events[n] == Deliver(r, accessToken) && RefreshGot(states[n], r, Answered(401))
    requires events[m] == Cleared(r) && forall i :: n < i < m ==> events[i] != Cleared(r)
    ensures states[n + 1].calls == states[n].calls && states[n + 1].clientExpired == states[n].clientExpired + 1
    ensures |states[n].calls| <= |states[m].calls| && |states[m + 1].calls| == |states[m].calls|
    ensures states[m].clears == states[n].clears && states[m + 1].clears == states[n].clears + 1
    ensures states[m].expired == states[n].expired && states[m + 1].expired == states[n].expired + 1
    ensures forall c :: 0 <= c < |states[n].calls| && Waits(states[n].calls[c]) ==>
      && states[m].calls[c] in {states[n].calls[c], states[n].calls[c].(phase := Done(Cancelled))}
      && states[m + 1].calls[c].phase in {Done(RefreshFailed(Some(401))), Done(Cancelled)}
    ensures AllFailed(states[m], states[m + 1], Some(401))
  {
    assert states[n + 1].refreshes == states[n].refreshes[r := Clearing];
    ClearingUntil(cfg, mode, states, events, n + 1, m, r);
    RunTo(cfg, mode, states, events, m);
    SettledWaiters(cfg, mode, states[m], r, Failed(Some(401)));
    hide Settle, Inv, Sends, Config.IsApi;
  }
}
