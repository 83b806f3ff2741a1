/** Ending a user's provider sessions and grants, and in the stronger form their tokens too. */
module SessionTermination {
  import opened Options
  import opened Keys
  import opened Storage
  import opened OidcSpec
  import opened OidcAdapter

  datatype Ended = Ended(sessions: nat, grants: nat)

  datatype EndedAll = EndedAll(sessions: nat, grants: nat, accessTokens: nat, refreshTokens: nat,
    authorizationCodes: nat)

  /** Sweeping an account's markers model by model. */
  ghost function SweptModels(t: Typed, models: seq<string>, sub: string): Typed {
    if models == [] then t else AccountRevoked(SweptModels(t, models[..|models| - 1], sub), models[|models| - 1], sub)
  }

  const ENDED: seq<string> := ["Session", "Grant"]
  const REVOKED: seq<string> := ["Session", "Grant", "AccessToken", "RefreshToken", "AuthorizationCode"]

  ghost function MarkerCount(t: Typed, model: string, sub: string): nat {
    |AccountMarkers(t, model, sub)|
  }

  class OIDCSessionTerminator {
    const storage: MemoryStorage

    constructor (storage: MemoryStorage)
      ensures this.storage == storage
    {
      this.storage := storage;
    }

    method TerminateFor(sub: string) returns (ended: Ended)
      modifies storage`entries
      ensures SweepArg(sub) && old(Clean(storage.entries)) ==>
        var t := old(View(storage.entries));
        && Clean(storage.entries)
        && Foreign(storage.entries) == old(Foreign(storage.entries))
        && View(storage.entries) == SweptModels(t, ENDED, sub)
        && ended == Ended(MarkerCount(t, "Session", sub), MarkerCount(t, "Grant", sub))
    {
      hide Clean, View, Foreign, AccountRevoked, AccountMarkers, SweptModels;
      var sessionAdapter := new NAuthOIDCAdapter("Session", storage);
      var sessions := sessionAdapter.RevokeByAccountId(sub);
      var grantAdapter := new NAuthOIDCAdapter("Grant", storage);
      var grants := grantAdapter.RevokeByAccountId(sub);
      ended := Ended(sessions, grants);
      ghost var t := old(View(storage.entries));
      SweptTwo(t, "Session", "Grant", sub);
      OtherMarkers(t, "Session", sub, "Grant", sub);
    }

    method TerminateAndRevokeFor(sub: string) returns (ended: EndedAll)
      modifies storage`entries
      ensures SweepArg(sub) && old(Clean(storage.entries)) ==>
        var t := old(View(storage.entries));
        && Clean(storage.entries)
        && Foreign(storage.entries) == old(Foreign(storage.entries))
        && View(storage.entries) == SweptModels(t, REVOKED, sub)
        && ended == EndedAll(MarkerCount(t, "Session", sub), MarkerCount(t, "Grant", sub),
          MarkerCount(t, "AccessToken", sub),
                             MarkerCount(t, "RefreshToken", sub), MarkerCount(t, "AuthorizationCode", sub))
    {
      assert SweepArg("AccessToken") && SweepArg("RefreshToken") && SweepArg("AuthorizationCode");
      hide SweepArg, Clean, View, Foreign, AccountRevoked, AccountMarkers, SweptModels;
      var first := TerminateFor(sub);
      var accessAdapter := new NAuthOIDCAdapter("AccessToken", storage);
      var accessTokens := accessAdapter.RevokeByAccountId(sub);
      var refreshAdapter := new NAuthOIDCAdapter("RefreshToken", storage);
      var refreshTokens := refreshAdapter.RevokeByAccountId(sub);
      var codeAdapter := new NAuthOIDCAdapter("AuthorizationCode", storage);
      var codes := codeAdapter.RevokeByAccountId(sub);
      ended := EndedAll(first.sessions, first.grants, accessTokens, refreshTokens, codes);
      ghost var t := old(View(storage.entries));
      RevokedSteps(t, sub);
    }
  }

  /** The stronger form is the weaker one and three more sweeps, none of which disturbs another's markers. */
  lemma RevokedSteps(t: Typed, sub: string)
    ensures var t0 := SweptModels(t, ENDED, sub);
      var t1 := AccountRevoked(t0, "AccessToken", sub);
      var t2 := AccountRevoked(t1, "RefreshToken", sub);
      && SweptModels(t, REVOKED, sub) == AccountRevoked(t2, "AuthorizationCode", sub)
      && |AccountMarkers(t0, "AccessToken", sub)| == MarkerCount(t, "AccessToken", sub)
      && |AccountMarkers(t1, "RefreshToken", sub)| == MarkerCount(t, "RefreshToken", sub)
      && |AccountMarkers(t2, "AuthorizationCode", sub)| == MarkerCount(t, "AuthorizationCode", sub)
  {
    var three, four := ENDED + ["AccessToken"], ENDED + ["AccessToken", "RefreshToken"];
    assert three + ["RefreshToken"] == four && four + ["AuthorizationCode"] == REVOKED;
    hide AccountRevoked, AccountMarkers, SweptModels;
    SweptMore(t, ENDED, "AccessToken", sub);
    SweptMore(t, three, "RefreshToken", sub);
    SweptMore(t, four, "AuthorizationCode", sub);
    assert SweptModels(t, three, sub) == AccountRevoked(SweptModels(t, ENDED, sub), "AccessToken", sub);
    assert SweptModels(t, four, sub) == AccountRevoked(SweptModels(t, three, sub), "RefreshToken", sub);
    assert SweptModels(t, REVOKED, sub) == AccountRevoked(SweptModels(t, four, sub), "AuthorizationCode", sub);
  }

  lemma SweptTwo(t: Typed, m: string, n: string, sub: string)
    ensures SweptModels(t, [m, n], sub) == AccountRevoked(AccountRevoked(t, m, sub), n, sub)
  {
    assert [m][..0] == [];
    assert SweptModels(t, [], sub) == t;
    assert SweptModels(t, [m], sub) == AccountRevoked(t, m, sub);
    assert [m, n][..1] == [m];
  }

  /** Sweeping one more model, whose markers the earlier sweeps left alone. */
  lemma SweptMore(t: Typed, models: seq<string>, model: string, sub: string)
    requires model !in models
    ensures SweptModels(t, models + [model], sub) == AccountRevoked(SweptModels(t, models, sub), model, sub)
    ensures AccountMarkers(SweptModels(t, models, sub), model, sub) == AccountMarkers(t, model, sub)
  {
    assert (models + [model])[..|models|] == models;
    UnsweptMarkers(t, models, model, sub);
  }

  lemma {:induction false} UnsweptMarkers(t: Typed, models: seq<string>, model: string, sub: string)
    requires model !in models
    ensures AccountMarkers(SweptModels(t, models, sub), model, sub) == AccountMarkers(t, model, sub)
  {
    if models != [] {
      var last := |models| - 1;
      UnsweptMarkers(t, models[..last], model, sub);
      OtherMarkers(SweptModels(t, models[..last], sub), models[last], sub, model, sub);
    }
  }

  /** A sweep leaves every other account's and every other model's markers in place. */
  lemma OtherMarkers(t: Typed, m: string, a: string, n: string, b: string)
    requires (m, a) != (n, b)
    ensures AccountMarkers(AccountRevoked(t, m, a), n, b) == AccountMarkers(t, n, b)
  {
  }

  /** A sweep leaves none of its own. */
  lemma OwnMarkers(t: Typed, m: string, a: string)
    ensures AccountMarkers(AccountRevoked(t, m, a), m, a) == {}
    ensures forall u: Typed :: AccountMarkers(u, m, a) == {} ==> AccountRevoked(u, m, a) == u
  {
    assert Named({}) == {};
  }

  /** Two sweeps in either order come to the same store. */
  lemma SweepsCommute(t: Typed, m: string, a: string, n: string, b: string)
    ensures AccountRevoked(AccountRevoked(t, m, a), n, b) == AccountRevoked(AccountRevoked(t, n, b), m, a)
  {
    if (m, a) != (n, b) {
      OtherMarkers(t, m, a, n, b);
      OtherMarkers(t, n, b, m, a);
      MinusTwice(t, AccountMarkers(t, m, a), AccountMarkers(t, n, b));
    }
  }

  lemma MinusTwice(t: Typed, x: set<Key>, y: set<Key>)
    ensures Revoked(Revoked(t, x), y) == Revoked(Revoked(t, y), x)
  {
  }

  /** Whatever one account's termination swept has no markers left. */
  lemma {:induction false} SweptClean(t: Typed, models: seq<string>, model: string, sub: string)
    requires model in models
    ensures AccountMarkers(SweptModels(t, models, sub), model, sub) == {}
  {
    hide AccountRevoked, AccountMarkers;
    var last := |models| - 1;
    if models[last] == model {
      OwnMarkers(SweptModels(t, models[..last], sub), model, sub);
    } else {
      SweptClean(t, models[..last], model, sub);
      OtherMarkers(SweptModels(t, models[..last], sub), models[last], sub, model, sub);
    }
  }

  lemma {:induction false} SweepNothing(t: Typed, models: seq<string>, sub: string)
    requires forall m :: m in models ==> AccountMarkers(t, m, sub) == {}
    ensures SweptModels(t, models, sub) == t
  {
    hide AccountRevoked, AccountMarkers;
    if models != [] {
      var last := |models| - 1;
      SweepNothing(t, models[..last], sub);
      OwnMarkers(t, models[last], sub);
    }
  }

  /** Terminating twice: the second run counts zero of everything and changes nothing. */
  lemma TerminateTwice(t: Typed, models: seq<string>, sub: string)
    ensures SweptModels(SweptModels(t, models, sub), models, sub) == SweptModels(t, models, sub)
    ensures forall m :: m in models ==> MarkerCount(SweptModels(t, models, sub), m, sub) == 0
  {
    forall m | m in models ensures AccountMarkers(SweptModels(t, models, sub), m, sub) == {} {
      SweptClean(t, models, m, sub);
    }
    SweepNothing(SweptModels(t, models, sub), models, sub);
  }

  lemma {:induction false} SweepPast(t: Typed, m: string, a: string, models: seq<string>, b: string)
    ensures SweptModels(AccountRevoked(t, m, a), models, b) == AccountRevoked(SweptModels(t, models, b), m, a)
  {
    hide AccountRevoked;
    if models != [] {
      var last := |models| - 1;
      SweepPast(t, m, a, models[..last], b);
      SweepsCommute(SweptModels(t, models[..last], b), m, a, models[last], b);
    }
  }

  /** Terminations of different accounts commute, and neither changes what the other counts. */
  lemma {:induction false} TerminationsCommute(t: Typed, models: seq<string>, sub: string, others: seq<string>,
      other: string)
    requires sub != other
    ensures SweptModels(SweptModels(t, models, sub), others, other)
      == SweptModels(SweptModels(t, others, other), models, sub)
    ensures forall m :: MarkerCount(SweptModels(t, models, sub), m, other) == MarkerCount(t, m, other)
  {
    hide AccountRevoked, AccountMarkers;
    if models != [] {
      var last := |models| - 1;
      TerminationsCommute(t, models[..last], sub, others, other);
      SweepPast(SweptModels(t, models[..last], sub), models[last], sub, others, other);
      forall m ensures MarkerCount(SweptModels(t, models, sub), m, other) == MarkerCount(t, m, other) {
        OtherMarkers(SweptModels(t, models[..last], sub), models[last], sub, m, other);
      }
    }
  }
}
