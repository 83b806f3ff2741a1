/**
  Token refresh in the HTTP interceptor as a state machine: the module-level coordinator, each intercepted
  call as a small process, and each refresh with its own HTTP request, which passes the same interceptor.
 */
module RefreshSpec {
  import opened Options
  import opened UrlPaths

  /** What one request carries when it is sent on. */
  datatype Sent = Sent(auth: Option<string>, credentials: bool)

  datatype Result = Answered(code: int) | RefreshFailed(status: Option<int>) | FetchError | Cancelled

  /** Where an intercepted call is. */
  datatype Phase =
    | Fetching                // waiting for the stored access token
    | InFlight                // sent for the first time, no answer yet
    | Gated(refresh: nat)     // not sent: waiting for a refresh
    | Waiting(refresh: nat)   // answered 401: waiting for a refresh
    | Final                   // sent for the last time, no answer yet
    | Done(result: Result)

  /** An intercepted call. `request` tells apart request objects, which a
      caller may submit again; those of the refreshes themselves are negative. */
  datatype Call = Call(url: Option<Url>, request: int, auth: Option<string>, phase: Phase, sent: seq<Sent>,
    unauthorized: bool)

  datatype Outcome = Token(token: string) | Failed(status: Option<int>)

  /** Where a refresh is. */
  datatype Refresh =
    | Starting                // the client has not issued its request yet
    | Calling(call: nat)      // the client's request is the call of this index
    | Clearing                // failed with 401: local state is being cleared
    | Settled(outcome: Outcome)

  datatype Mode = Json | Cookies

  datatype State = State(
    isRefreshing: bool,
    inFlight: Option<nat>,
    retried: set<int>,
    calls: seq<Call>,
    refreshes: seq<Refresh>,
    clears: nat,
    expired: nat,
    clientExpired: nat)

  const INITIAL: State := State(false, None, {}, [], [], 0, 0, 0)

  datatype Event =
    | Arrive(url: Option<Url>, request: int, auth: Option<string>)
    | Fetched(call: nat, token: Option<string>)
    | FetchFailed(call: nat)
    | Respond(call: nat, status: int)
    | Cancel(call: nat)
    | Issue(refresh: nat)
    | Abort(refresh: nat)
    | Deliver(refresh: nat, accessToken: Option<string>)
    | Cleared(refresh: nat)

  /** A request on its way out: cookies go only to the API. */
  function Outgoing(cfg: Config, mode: Mode, url: Option<Url>, auth: Option<string>): Sent {
    Sent(auth, mode.Cookies? && cfg.IsApi(url))
  }

  /** How a call enters: gated behind a refresh, waiting for its token, or sent at once. */
  function Entering(cfg: Config, mode: Mode, s: State, url: Option<Url>, request: int, auth: Option<string>): Call {
    if cfg.ShouldIntercept(url) && s.isRefreshing && s.inFlight.Some?
    then Call(url, request, auth, Gated(s.inFlight.value), [], false)
    else if mode.Json? && cfg.ShouldIntercept(url) && auth.None?
    then Call(url, request, auth, Fetching, [], false)
    else Call(url, request, auth, InFlight, [Outgoing(cfg, mode, url, auth)], false)
  }

  /** The authorization a request is sent again with after a refresh. */
  function RetryAuth(mode: Mode, auth: Option<string>, token: string): Option<string> {
    if mode.Json? && token != "" && token != "success" then Some(token) else auth
  }

  /** The authorization a call last carried: what it was sent with, or arrived with. */
  function LastAuth(c: Call): Option<string> {
    if c.sent != [] then c.sent[|c.sent| - 1].auth else c.auth
  }

  predicate WaitsOn(c: Call, r: nat) {
    c.phase == Gated(r) || c.phase == Waiting(r)
  }

  /** What the end of a refresh does to a call: waiters are sent, or fail with its error. */
  function AfterSettle(cfg: Config, mode: Mode, c: Call, r: nat, outcome: Outcome): Call {
    if !WaitsOn(c, r) then c
    else
      match outcome
      case Token(token) =>
        c.(phase := Final, sent := c.sent + [Outgoing(cfg, mode, c.url, RetryAuth(mode, LastAuth(c), token))])
      case Failed(status) => c.(phase := Done(RefreshFailed(status)))
  }

  /** A refresh ends: every waiter hears of it, and the coordinator is free again. */
  function Settle(cfg: Config, mode: Mode, s: State, r: nat, outcome: Outcome): State
    requires r < |s.refreshes|
  {
    s.(refreshes := s.refreshes[r := Settled(outcome)],
       calls := seq(|s.calls|, i requires 0 <= i < |s.calls| => AfterSettle(cfg, mode, s.calls[i], r, outcome)),
       isRefreshing := false,
       inFlight := None)
  }

  /** What the client's answer means for the refresh. */
  function OutcomeOf(mode: Mode, result: Result, accessToken: Option<string>): Outcome {
    match result
    case Answered(code) =>
      if !(200 <= code < 300) then Failed(Some(code))
      else if mode.Cookies? then Token("success")
      else if Truthy(accessToken) && accessToken.value != "success" then Token(accessToken.value)
      else Failed(None)
    case RefreshFailed(status) => Failed(status)
    case FetchError => Failed(None)
    case Cancelled => Failed(None)
  }

  predicate IsRefreshCall(s: State, c: nat) {
    exists r :: 0 <= r < |s.refreshes| && s.refreshes[r] == Calling(c)
  }

  predicate Enabled(s: State, e: Event) {
    match e
    case Arrive(_, request, _) => request >= 0
    case Fetched(c, _) => c < |s.calls| && s.calls[c].phase.Fetching?
    case FetchFailed(c) => c < |s.calls| && s.calls[c].phase.Fetching?
    case Respond(c, _) => c < |s.calls| && (s.calls[c].phase.InFlight? || s.calls[c].phase.Final?)
    case Cancel(c) => c < |s.calls| && !s.calls[c].phase.Done? && !IsRefreshCall(s, c)
    case Issue(r) => r < |s.refreshes| && s.refreshes[r].Starting?
    case Abort(r) => r < |s.refreshes| && s.refreshes[r].Starting?
    case Deliver(r, _) =>
      && r < |s.refreshes| && s.refreshes[r].Calling?
      && s.refreshes[r].call < |s.calls| && s.calls[s.refreshes[r].call].phase.Done?
    case Cleared(r) => r < |s.refreshes| && s.refreshes[r].Clearing?
  }

  /** Joining the refresh in flight, or starting one. */
  function JoinRefresh(s: State): (State, nat) {
    if s.inFlight.Some? then (s, s.inFlight.value)
    else (s.(isRefreshing := true, inFlight := Some(|s.refreshes|), refreshes := s.refreshes + [Starting]),
      |s.refreshes|)
  }

  predicate Handles(cfg: Config, s: State, c: Call, status: int) {
    c.phase.InFlight? && status == 401 && cfg.ShouldIntercept(c.url) && c.request !in s.retried
  }

  function Next(cfg: Config, mode: Mode, s: State, e: Event): State
    requires Enabled(s, e)
  {
    match e
    case Arrive(url, request, auth) => s.(calls := s.calls + [Entering(cfg, mode, s, url, request, auth)])
    case Fetched(c, token) =>
      var call := s.calls[c];
      var auth := if Truthy(token) then token else call.auth;
      s.(calls := s.calls[c := call.(phase := InFlight, sent := [Outgoing(cfg, mode, call.url, auth)])])
    case FetchFailed(c) => s.(calls := s.calls[c := s.calls[c].(phase := Done(FetchError))])
    case Respond(c, status) =>
      var call := s.calls[c];
      if Handles(cfg, s, call, status) then
        var (s1, r) := JoinRefresh(s.(retried := s.retried + {call.request}));
        s1.(calls := s1.calls[c := call.(phase := Waiting(r), unauthorized := true)])
      else s.(calls := s.calls[c := call.(phase := Done(Answered(status)))])
    case Cancel(c) => s.(calls := s.calls[c := s.calls[c].(phase := Done(Cancelled))])
    case Issue(r) =>
      s.(calls := s.calls + [Entering(cfg, mode, s, Some(cfg.RefreshUrl()), -1 - |s.calls|, None)],
         refreshes := s.refreshes[r := Calling(|s.calls|)])
    case Abort(r) => Settle(cfg, mode, s, r, Failed(None))
    case Deliver(r, accessToken) =>
      var outcome := OutcomeOf(mode, s.calls[s.refreshes[r].call].phase.result, accessToken);
      if outcome == Failed(Some(401))
        then s.(refreshes := s.refreshes[r := Clearing], clientExpired := s.clientExpired + 1)
      else Settle(cfg, mode, s, r, outcome)
    case Cleared(r) =>
      var s1 := Settle(cfg, mode, s, r, Failed(Some(401)));
      s1.(clears := s.clears + 1, expired := s.expired + 1)
  }

  /** A run from the initial state. */
  ghost predicate IsRun(cfg: Config, mode: Mode, states: seq<State>, events: seq<Event>) {
    && |states| == |events| + 1 && states[0] == INITIAL
    && forall i :: 0 <= i < |events| ==>
      Enabled(states[i], events[i]) && states[i + 1] == Next(cfg, mode, states[i], events[i])
  }

  /** Nothing is left to do. */
  predicate Quiet(s: State) {
    && (forall c :: 0 <= c < |s.calls| ==> s.calls[c].phase.Done?)
    && (forall r :: 0 <= r < |s.refreshes| ==> s.refreshes[r].Settled?)
  }

  /** A step that servers, storage or the client take by themselves: no new call and no cancellation. */
  predicate Progress(e: Event) {
    !e.Arrive? && !e.Cancel?
  }

  ghost predicate CanProgress(s: State) {
    exists e :: Progress(e) && Enabled(s, e)
  }
}
