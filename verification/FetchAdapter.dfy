/**
  The fetch adapter with automatic refresh: concurrent 401s share one refresh promise, and each call is
  sent again once after it. Unlike the interceptor it never holds a request back.
 */
module FetchAdapter {
  import opened Options
  import opened Text

  /** The adapter leaves alone every address that contains the refresh path. */
  predicate Exempt(url: string) {
    Contains(url, "/refresh")
  }

  datatype Phase = First | Awaiting(refresh: nat) | Second | Done(ok: bool)

  datatype Call = Call(url: string, phase: Phase, sends: nat)

  /** A refresh: the client's work before its request, the request itself, or over. */
  datatype Refresh = Starting | Calling(call: nat) | Settled(ok: bool)

  datatype State = State(client: bool, promise: Option<nat>, calls: seq<Call>, refreshes: seq<Refresh>)

  const INITIAL: State := State(false, None, [], [])

  datatype Event =
    | SetClient
    | Request(url: string)
    | Respond(call: nat, status: int)
    | Issue(refresh: nat)
    | Abort(refresh: nat)
    | Deliver(refresh: nat)

  predicate Enabled(s: State, e: Event) {
    match e
    case SetClient => true
    case Request(_) => true
    case Respond(c, _) => c < |s.calls| && (s.calls[c].phase.First? || s.calls[c].phase.Second?)
    case Issue(r) => r < |s.refreshes| && s.refreshes[r].Starting?
    case Abort(r) => r < |s.refreshes| && s.refreshes[r].Starting?
    case Deliver(r) =>
      && r < |s.refreshes| && s.refreshes[r].Calling?
      && s.refreshes[r].call < |s.calls| && s.calls[s.refreshes[r].call].phase.Done?
  }

  predicate Ok(status: int) {
    200 <= status < 300
  }

  /** The call waits for the refresh its 401 joins or starts. */
  function DoRefresh(s: State): (State, nat) {
    if s.promise.Some? then (s, s.promise.value)
    else (s.(promise := Some(|s.refreshes|), refreshes := s.refreshes + [Starting]), |s.refreshes|)
  }

  function AfterRefresh(c: Call, r: nat, ok: bool): Call {
    if c.phase != Awaiting(r) then c
    else if ok then c.(phase := Second, sends := c.sends + 1)
    else c.(phase := Done(false))
  }

  function Settle(s: State, r: nat, ok: bool): State
    requires r < |s.refreshes|
  {
    s.(promise := None,
       refreshes := s.refreshes[r := Settled(ok)],
       calls := seq(|s.calls|, i requires 0 <= i < |s.calls| => AfterRefresh(s.calls[i], r, ok)))
  }

  function Next(refreshUrl: string, s: State, e: Event): State
    requires Enabled(s, e)
  {
    match e
    case SetClient => s.(client := true)
    case Request(url) => s.(calls := s.calls + [Call(url, First, 1)])
    case Respond(c, status) =>
      var call := s.calls[c];
      if call.phase.First? && status == 401 && !Exempt(call.url) && s.client then
        var (s1, r) := DoRefresh(s);
        s1.(calls := s1.calls[c := call.(phase := Awaiting(r))])
      else s.(calls := s.calls[c := call.(phase := Done(Ok(status)))])
    case Issue(r) =>
      s.(calls := s.calls + [Call(refreshUrl, First, 1)], refreshes := s.refreshes[r := Calling(|s.calls|)])
    case Abort(r) => Settle(s, r, false)
    case Deliver(r) => Settle(s, r, s.calls[s.refreshes[r].call].phase.ok)
  }

  ghost predicate IsRun(refreshUrl: string, states: seq<State>, events: seq<Event>) {
    && |states| == |events| + 1 && states[0] == INITIAL
    && forall i :: 0 <= i < |events| ==>
      Enabled(states[i], events[i]) && states[i + 1] == Next(refreshUrl, states[i], events[i])
  }

  predicate Quiet(s: State) {
    && (forall c :: 0 <= c < |s.calls| ==> s.calls[c].phase.Done?)
    && (forall r :: 0 <= r < |s.refreshes| ==> s.refreshes[r].Settled?)
  }

  ghost predicate CanProgress(s: State) {
    exists e: Event :: !e.Request? && !e.SetClient? && Enabled(s, e)
  }

  /** A call is sent once before its 401 and at most once after, and waits only if it is not exempt. */
  ghost predicate CallGood(s: State, c: Call) {
    && (c.phase.First? ==> c.sends == 1)
    && (c.phase.Awaiting? ==> c.sends == 1 && !Exempt(c.url) && s.promise == Some(c.phase.refresh))
    && (c.phase.Second? ==> c.sends == 2 && !Exempt(c.url))
    && c.sends <= 2
    && (c.sends == 2 ==> !Exempt(c.url))
  }

  /** The promise is there exactly while a refresh is in flight, and that refresh is the only one. */
  ghost predicate Inv(refreshUrl: string, s: State) {
    && (forall c :: 0 <= c < |s.calls| ==> CallGood(s, s.calls[c]))
    && (s.promise.Some? ==> s.promise.value < |s.refreshes|)
    && (forall r :: 0 <= r < |s.refreshes| ==> (s.refreshes[r].Settled? <==> s.promise != Some(r)))
    && (forall r :: 0 <= r < |s.refreshes| && s.refreshes[r].Calling? ==>
          s.refreshes[r].call < |s.calls| && s.calls[s.refreshes[r].call].url == refreshUrl)
  }

  lemma SettleInv(refreshUrl: string, s: State, r: nat, ok: bool)
    requires Inv(refreshUrl, s) && s.promise == Some(r)
    ensures Inv(refreshUrl, Settle(s, r, ok))
  {
    hide Contains, Exempt;
    var s2 := Settle(s, r, ok);
    forall c | 0 <= c < |s2.calls| ensures CallGood(s2, s2.calls[c]) {
      assert CallGood(s, s.calls[c]);
    }
  }

  lemma RespondInv(refreshUrl: string, s: State, c: nat, status: int)
    requires Inv(refreshUrl, s) && Enabled(s, Respond(c, status))
    ensures Inv(refreshUrl, Next(refreshUrl, s, Respond(c, status)))
  {
    hide Contains, Exempt;
    assert CallGood(s, s.calls[c]);
  }

  lemma InvStep(refreshUrl: string, s: State, e: Event)
    requires Inv(refreshUrl, s) && Enabled(s, e)
    ensures Inv(refreshUrl, Next(refreshUrl, s, e))
  {
    hide Contains, Exempt;
    match e
    case Respond(c, status) => RespondInv(refreshUrl, s, c, status);
    case Abort(r) => SettleInv(refreshUrl, s, r, false);
    case Deliver(r) => SettleInv(refreshUrl, s, r, s.calls[s.refreshes[r].call].phase.ok);
    case _ =>
  }

  /**
    In every interleaving at most one refresh is in flight, the promise is set exactly then, and no call is sent three
    times.
   */
  lemma {:induction false} InvRun(refreshUrl: string, states: seq<State>, events: seq<Event>)
    requires IsRun(refreshUrl, states, events)
    ensures Inv(refreshUrl, states[|events|])
  {
    hide Next, Contains;
    if events == [] {
    } else {
      var n := |events| - 1;
      InvRun(refreshUrl, states[..n + 1], events[..n]);
      hide Inv;
      InvStep(refreshUrl, states[n], events[n]);
    }
  }

  /** A refresh is under way. */
  ghost predicate UnderWay(s: State, r: nat) {
    r < |s.refreshes| && !s.refreshes[r].Settled?
  }

  lemma RunTo(refreshUrl: string, states: seq<State>, events: seq<Event>, n: nat)
    requires IsRun(refreshUrl, states, events) && n <= |events|
    ensures Inv(refreshUrl, states[n])
  {
    hide Next, Inv, Enabled;
    InvRun(refreshUrl, states[..n + 1], events[..n]);
  }

  /** There is a client from the moment one is set. */
  lemma {:induction false} ClientSet(refreshUrl: string, states: seq<State>, events: seq<Event>)
    requires IsRun(refreshUrl, states, events)
    ensures states[|events|].client <==> SetClient in events
  {
    hide Contains;
    if events != [] {
      var n := |events| - 1;
      ClientSet(refreshUrl, states[..n + 1], events[..n]);
      assert events == events[..n] + [events[n]];
    }
  }

  /** Everyone who awaits a refresh goes on: sent once more if it went well, failed if not. Nobody else moves. */
  ghost predicate AllGoOn(s: State, s2: State, ok: bool) {
    && |s2.calls| == |s.calls|
    && forall c :: 0 <= c < |s.calls| ==>
      s2.calls[c] ==
        if !s.calls[c].phase.Awaiting? then s.calls[c]
        else if ok then s.calls[c].(phase := Second, sends := 2)
        else s.calls[c].(phase := Done(false))
  }

  /** How the refresh's own request ended decides for all who await it; one that never left fails them. */
  lemma RefreshDecides(refreshUrl: string, states: seq<State>, events: seq<Event>, n: nat, r: nat)
    requires IsRun(refreshUrl, states, events) && n < |events| && events[n] in {Deliver(r), Abort(r)}
    ensures UnderWay(states[n], r)
    ensures events[n].Deliver? ==>
      var s := states[n];
      && s.refreshes[r].Calling? && s.refreshes[r].call < |s.calls| && s.calls[s.refreshes[r].call].phase.Done?
      && AllGoOn(s, states[n + 1], s.calls[s.refreshes[r].call].phase.ok)
    ensures events[n].Abort? ==> AllGoOn(states[n], states[n + 1], false)
  {
    hide Contains, Exempt;
    RunTo(refreshUrl, states, events, n);
    var s := states[n];
    forall c | 0 <= c < |s.calls| && s.calls[c].phase.Awaiting?
      ensures s.calls[c].phase == Awaiting(r) && s.calls[c].sends == 1
    {
      assert CallGood(s, s.calls[c]);
    }
  }

  /**
    With a client, a call's first 401 makes it await the refresh under way, or, when there is none, one it starts,
    unless `/refresh` stands somewhere in its address. Any other answer is the call's own: a success from 200 to 299.
   */
  lemma AnswerMeans(refreshUrl: string, states: seq<State>, events: seq<Event>, n: nat, c: nat, status: int)
    requires IsRun(refreshUrl, states, events) && n < |events| && events[n] == Respond(c, status)
    ensures var s, s2 := states[n], states[n + 1];
      && c < |s.calls| && |s2.calls| == |s.calls|
      && if s.calls[c].phase.First? && status == 401 && s.client && forall i: nat :: !At(s.calls[c].url, "/refresh", i)
         then
           && s2.calls[c].phase.Awaiting? && UnderWay(s2, s2.calls[c].phase.refresh)
           && (if exists r :: UnderWay(s, r) then s2.refreshes == s.refreshes
             else s2.refreshes == s.refreshes + [Starting])
         else s2.calls[c].phase == Done(200 <= status < 300) && s2.refreshes == s.refreshes
  {
    RunTo(refreshUrl, states, events, n);
    var s := states[n];
    ContainsAt(s.calls[c].url, "/refresh");
    hide Contains, At, CallGood;
    if s.promise.Some? {
      assert UnderWay(s, s.promise.value);
    }
  }

  lemma CallProgress(s: State, c: nat)
    requires c < |s.calls| && (s.calls[c].phase.First? || s.calls[c].phase.Second?)
    ensures CanProgress(s)
  {
    assert Enabled(s, Respond(c, 200));
  }

  lemma InvProgress(refreshUrl: string, s: State)
    requires Inv(refreshUrl, s) && Exempt(refreshUrl)
    ensures Quiet(s) || CanProgress(s)
  {
    hide Contains, Exempt;
    if r :| 0 <= r < |s.refreshes| && !s.refreshes[r].Settled? {
      match s.refreshes[r]
      case Starting => assert Enabled(s, Issue(r));
      case Calling(c) =>
        assert CallGood(s, s.calls[c]);
        if s.calls[c].phase.Done? {
          assert Enabled(s, Deliver(r));
        } else {
          CallProgress(s, c);
        }
    } else if c :| 0 <= c < |s.calls| && !s.calls[c].phase.Done? {
      assert CallGood(s, s.calls[c]);
      CallProgress(s, c);
    }
  }

  /** With a refresh address the adapter does not recognise, a refresh answered 401 waits for itself. */
  lemma StuckRun(refreshUrl: string) returns (states: seq<State>, events: seq<Event>)
    requires !Exempt(refreshUrl)
    ensures IsRun(refreshUrl, states, events) && !Quiet(states[|events|]) && !CanProgress(states[|events|])
  {
    hide Contains, Exempt;
    var e0, e1, e2, e3, e4 := SetClient, Request(refreshUrl), Respond(0, 401), Issue(0), Respond(1, 401);
    var s1 := Next(refreshUrl, INITIAL, e0);
    var s2 := Next(refreshUrl, s1, e1);
    var s3 := Next(refreshUrl, s2, e2);
    assert s3.calls[0].phase == Awaiting(0) && |s3.calls| == 1 && s3.refreshes == [Starting];
    var s4 := Next(refreshUrl, s3, e3);
    var s5 := Next(refreshUrl, s4, e4);
    assert s5.calls[0].phase == Awaiting(0) && s5.calls[1].phase == Awaiting(0) && |s5.calls| == 2;
    assert s5.refreshes == [Calling(1)];
    states, events := [INITIAL, s1, s2, s3, s4, s5], [e0, e1, e2, e3, e4];
    forall i | 0 <= i < |events|
      ensures Enabled(states[i], events[i]) && states[i + 1] == Next(refreshUrl, states[i], events[i])
    {
    }
  }

  /** The adapter never gets stuck exactly when the refresh address contains the refresh path. */
  lemma DeadlockFree(refreshUrl: string)
    ensures (forall states, events | IsRun(refreshUrl, states, events) ::
              Quiet(states[|events|]) || CanProgress(states[|events|]))
      <==> Exempt(refreshUrl)
  {
    hide Contains;
    if !Exempt(refreshUrl) {
      var states, events := StuckRun(refreshUrl);
    } else {
      forall states, events | IsRun(refreshUrl, states, events)
        ensures Quiet(states[|events|]) || CanProgress(states[|events|])
      {
        InvRun(refreshUrl, states, events);
        InvProgress(refreshUrl, states[|events|]);
      }
    }
  }

  class RefreshingFetchAdapter {
    var client: bool
    var refreshPromise: Option<nat>
    var calls: seq<Call>
    var refreshes: seq<Refresh>

    ghost function Abstract(): State
      reads this
    {
      State(client, refreshPromise, calls, refreshes)
    }

    constructor ()
      ensures Abstract() == INITIAL
    {
      client, refreshPromise, calls, refreshes := false, None, [], [];
    }

    method Connect()
      modifies this
      ensures forall url :: Abstract() == Next(url, old(Abstract()), SetClient)
    {
      client := true;
    }

    method Send(url: string)
      modifies this
      ensures forall refreshUrl :: Abstract() == Next(refreshUrl, old(Abstract()), Request(url))
    {
      calls := calls + [Call(url, First, 1)];
    }

    /** The first send fails with 401: refresh and try again; any other answer is the call's own. */
    method Answer(c: nat, status: int)
      requires Enabled(Abstract(), Respond(c, status))
      modifies this
      ensures forall refreshUrl :: Abstract() == Next(refreshUrl, old(Abstract()), Respond(c, status))
    {
      var call := calls[c];
      if call.phase.First? && status == 401 && !Exempt(call.url) && client {
        if refreshPromise.None? {
          refreshPromise := Some(|refreshes|);
          refreshes := refreshes + [Starting];
        }
        calls := calls[c := call.(phase := Awaiting(refreshPromise.value))];
      } else {
        calls := calls[c := call.(phase := Done(Ok(status)))];
      }
    }

    method IssueRefresh(refreshUrl: string, r: nat)
      requires Enabled(Abstract(), Issue(r))
      modifies this
      ensures Abstract() == Next(refreshUrl, old(Abstract()), Issue(r))
    {
      refreshes := refreshes[r := Calling(|calls|)];
      calls := calls + [Call(refreshUrl, First, 1)];
    }

    method AbortRefresh(r: nat)
      requires Enabled(Abstract(), Abort(r))
      modifies this
      ensures forall refreshUrl :: Abstract() == Next(refreshUrl, old(Abstract()), Abort(r))
    {
      Finish(r, false);
    }

    method DeliverRefresh(r: nat)
      requires Enabled(Abstract(), Deliver(r))
      modifies this
      ensures forall refreshUrl :: Abstract() == Next(refreshUrl, old(Abstract()), Deliver(r))
    {
      Finish(r, calls[refreshes[r].call].phase.ok);
    }

    /** The promise settles: it is forgotten, and everyone who awaited it goes on. */
    method Finish(r: nat, ok: bool)
      requires r < |refreshes|
      modifies this`refreshPromise, this`calls, this`refreshes
      ensures Abstract() == Settle(old(Abstract()), r, ok)
    {
      ghost var before := calls;
      for i := 0 to |calls|
        modifies this`calls
        invariant |calls| == |before|
        invariant forall j :: 0 <= j < i ==> calls[j] == AfterRefresh(before[j], r, ok)
        invariant forall j :: i <= j < |calls| ==> calls[j] == before[j]
      {
        if calls[i].phase == Awaiting(r) {
          if ok {
            calls := calls[i := calls[i].(phase := Second, sends := calls[i].sends + 1)];
          } else {
            calls := calls[i := calls[i].(phase := Done(false))];
          }
        }
      }
      refreshes := refreshes[r := Settled(ok)];
      refreshPromise := None;
    }
  }
}
