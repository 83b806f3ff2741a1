/** The interceptor as it runs: shared variables, and one handler for each thing that can happen. */
module RefreshInterceptor {
  import opened Options
  import opened UrlPaths
  import opened RefreshSpec

  class Interceptor {
    const cfg: Config
    const mode: Mode

    var isRefreshing: bool
    var refreshInFlight: Option<nat>
    var retriedRequests: set<int>
    var calls: seq<Call>
    var refreshes: seq<Refresh>
    var clears: nat
    var expired: nat
    var clientExpired: nat

    ghost function Abstract(): State
      reads this
    {
      State(isRefreshing, refreshInFlight, retriedRequests, calls, refreshes, clears, expired, clientExpired)
    }

    constructor (cfg: Config, mode: Mode)
      ensures this.cfg == cfg && this.mode == mode && Abstract() == INITIAL
    {
      this.cfg, this.mode := cfg, mode;
      isRefreshing, refreshInFlight, retriedRequests := false, None, {};
      calls, refreshes := [], [];
      clears, expired, clientExpired := 0, 0, 0;
    }

    /** A request arrives: hold it behind a refresh, fetch its token, or send it. */
    method Intercept(url: Option<Url>, request: int, auth: Option<string>)
      requires request >= 0
      modifies this
      ensures Abstract() == Next(cfg, mode, old(Abstract()), Arrive(url, request, auth))
    {
      Admit(url, request, auth);
    }

    method Admit(url: Option<Url>, request: int, auth: Option<string>)
      modifies this`calls
      ensures calls == old(calls) + [Entering(cfg, mode, old(Abstract()), url, request, auth)]
    {
      var intercepted := cfg.ShouldIntercept(url);
      if intercepted && isRefreshing && refreshInFlight.Some? {
        calls := calls + [Call(url, request, auth, Gated(refreshInFlight.value), [], false)];
      } else if mode.Json? && intercepted && auth.None? {
        calls := calls + [Call(url, request, auth, Fetching, [], false)];
      } else {
        calls := calls + [Call(url, request, auth, InFlight, [Outgoing(cfg, mode, url, auth)], false)];
      }
    }

    /** The stored access token is read: attach it if there is one, and send. */
    method TokenFetched(c: nat, token: Option<string>)
      requires Enabled(Abstract(), Fetched(c, token))
      modifies this
      ensures Abstract() == Next(cfg, mode, old(Abstract()), Fetched(c, token))
    {
      var call := calls[c];
      var auth := call.auth;
      if Truthy(token) {
        auth := token;
      }
      calls := calls[c := call.(phase := InFlight, sent := [Outgoing(cfg, mode, call.url, auth)])];
    }

    method TokenFailed(c: nat)
      requires Enabled(Abstract(), FetchFailed(c))
      modifies this
      ensures Abstract() == Next(cfg, mode, old(Abstract()), FetchFailed(c))
    {
      calls := calls[c := calls[c].(phase := Done(FetchError))];
    }

    /** The server answers: finish, or wait for a refresh if this is a first 401 the interceptor handles. */
    method Answer(c: nat, status: int)
      requires Enabled(Abstract(), Respond(c, status))
      modifies this
      ensures Abstract() == Next(cfg, mode, old(Abstract()), Respond(c, status))
    {
      var call := calls[c];
      if call.phase.InFlight? && status == 401 && cfg.ShouldIntercept(call.url) && call.request !in retriedRequests {
        retriedRequests := retriedRequests + {call.request};
        var r := GetOrStartRefresh();
        calls := calls[c := call.(phase := Waiting(r), unauthorized := true)];
      } else {
        calls := calls[c := call.(phase := Done(Answered(status)))];
      }
    }

    method GetOrStartRefresh() returns (r: nat)
      modifies this`isRefreshing, this`refreshInFlight, this`refreshes
      ensures (Abstract(), r) == JoinRefresh(old(Abstract()))
    {
      if refreshInFlight.Some? {
        return refreshInFlight.value;
      }
      isRefreshing := true;
      r := |refreshes|;
      refreshes := refreshes + [Starting];
      refreshInFlight := Some(r);
    }

    method CancelCall(c: nat)
      requires Enabled(Abstract(), Cancel(c))
      modifies this
      ensures Abstract() == Next(cfg, mode, old(Abstract()), Cancel(c))
    {
      calls := calls[c := calls[c].(phase := Done(Cancelled))];
    }

    /** The client sends the refresh request, which arrives here like any other. */
    method IssueRefresh(r: nat)
      requires Enabled(Abstract(), Issue(r))
      modifies this
      ensures Abstract() == Next(cfg, mode, old(Abstract()), Issue(r))
    {
      var c := |calls|;
      Admit(Some(cfg.RefreshUrl()), -1 - c, None);
      refreshes := refreshes[r := Calling(c)];
    }

    method AbortRefresh(r: nat)
      requires Enabled(Abstract(), Abort(r))
      modifies this
      ensures Abstract() == Next(cfg, mode, old(Abstract()), Abort(r))
    {
      Finish(r, Failed(None));
    }

    /** The client's refresh call returns or throws. */
    method DeliverRefresh(r: nat, accessToken: Option<string>)
      requires Enabled(Abstract(), Deliver(r, accessToken))
      modifies this
      ensures Abstract() == Next(cfg, mode, old(Abstract()), Deliver(r, accessToken))
    {
      var outcome := OutcomeOf(mode, calls[refreshes[r].call].phase.result, accessToken);
      if outcome == Failed(Some(401)) {
        clientExpired := clientExpired + 1;
        refreshes := refreshes[r := Clearing];
      } else {
        Finish(r, outcome);
      }
    }

    /** Local state is cleared and the session reported expired; only then do the waiters fail. */
    method FinishClearing(r: nat)
      requires Enabled(Abstract(), Cleared(r))
      modifies this
      ensures Abstract() == Next(cfg, mode, old(Abstract()), Cleared(r))
    {
      clears := clears + 1;
      expired := expired + 1;
      Finish(r, Failed(Some(401)));
    }

    /** Tell every waiter of the refresh its outcome, then forget the refresh. */
    method Finish(r: nat, outcome: Outcome)
      requires r < |refreshes|
      modifies this`calls, this`refreshes, this`isRefreshing, this`refreshInFlight
      ensures Abstract() == Settle(cfg, mode, old(Abstract()), r, outcome)
    {
      ghost var before := calls;
      for i := 0 to |calls|
        modifies this`calls
        invariant |calls| == |before|
        invariant forall j :: 0 <= j < i ==> calls[j] == AfterSettle(cfg, mode, before[j], r, outcome)
        invariant forall j :: i <= j < |calls| ==> calls[j] == before[j]
      {
        var call := calls[i];
        if WaitsOn(call, r) {
          match outcome
          case Token(token) =>
            var retry := Outgoing(cfg, mode, call.url, RetryAuth(mode, LastAuth(call), token));
            calls := calls[i := call.(phase := Final, sent := call.sent + [retry])];
          case Failed(status) =>
            calls := calls[i := call.(phase := Done(RefreshFailed(status)))];
        }
      }
      refreshes := refreshes[r := Settled(outcome)];
      isRefreshing := false;
      refreshInFlight := None;
    }
  }
}
