/** What terminating an account does to the table, in every reachable state, and what its counts mean. */
module TerminationEffect {
  import opened Options
  import opened Keys
  import opened Storage
  import opened OidcSpec
  import opened OidcTable
  import opened OidcSimulation
  import opened OidcLookups
  import opened SessionTermination

  /** The rows left when an account's artifacts of these models are gone. */
  ghost function Without(table: Table, models: seq<string>, sub: string): Table {
    map r | r in table && !(r.0 in models && AttrOf(r.0, table[r].payload).account == Some(sub)) :: table[r]
  }

  /** Terminating an account removes its rows of the named models and no others, and keeps the simulation. */
  lemma {:induction false} TerminatedTable(w: World, s: Spec, models: seq<string>, sub: string)
    requires Inv(w, s)
    ensures exists s2 :: Inv(w.(t := SweptModels(w.t, models, sub)), s2) && s2.table == Without(s.table, models, sub)
  {
    hide Inv, AccountRevoked, AttrOf, SpecStep;
    if models == [] {
      assert s.table == Without(s.table, models, sub);
      assert w.(t := SweptModels(w.t, models, sub)) == w;
    } else {
      var last := |models| - 1;
      TerminatedTable(w, s, models[..last], sub);
      var w1 := w.(t := SweptModels(w.t, models[..last], sub));
      var s1 :| Inv(w1, s1) && s1.table == Without(s.table, models[..last], sub);
      var op := RevokeAccount(models[last], sub);
      InvRevokeAccount(w1, s1, op);
      assert Step(w1, op) == w.(t := SweptModels(w.t, models, sub));
      WithoutStep(s, s1, models, sub);
    }
  }

  lemma WithoutStep(s: Spec, s1: Spec, models: seq<string>, sub: string)
    requires models != [] && s1.table == Without(s.table, models[..|models| - 1], sub)
    ensures SpecStep(s1, RevokeAccount(models[|models| - 1], sub)).table == Without(s.table, models, sub)
  {
    hide AttrOf;
    var last := |models| - 1;
    assert models == models[..last] + [models[last]];
  }

  /**
    In every reachable state, terminating an account leaves none of its artifacts of the named
    models, and finds every other artifact as before.
   */
  lemma {:induction false} TerminationEffect(now: int, ops: seq<Op>, models: seq<string>, sub: string, model: string,
      id: string)
    requires RunOk(START.(now := now), ops)
    ensures var w := Run(World(map[], now), ops);
      var before, after := Found(w.t, w.now, model, id), Found(SweptModels(w.t, models, sub), w.now, model, id);
      after == if before.Some? && model in models && sub != "" && before.value.accountId == Some(sub) then None
        else before
  {
    var w, s := Run(World(map[], now), ops), SpecRun(START.(now := now), ops);
    Simulation(now, ops);
    TerminatedTable(w, s, models, sub);
    hide Run, SpecRun, Inv, AttrOf, Found;
    var w2 := w.(t := SweptModels(w.t, models, sub));
    var s2 :| Inv(w2, s2) && s2.table == Without(s.table, models, sub);
    FindIsLookup(w, s, model, id);
    FindIsLookup(w2, s2, model, id);
    if Lookup(s, model, id).Some? {
      AttrExactly(model, Lookup(s, model, id).value, sub);
    }
  }

  /** `terminateFor` ends exactly the account's sessions and grants. */
  lemma {:induction false} EndsSessions(now: int, ops: seq<Op>, sub: string, model: string, id: string)
    requires RunOk(START.(now := now), ops)
    ensures var w := Run(World(map[], now), ops);
      var before, after := Found(w.t, w.now, model, id), Found(SweptModels(w.t, ENDED, sub), w.now, model, id);
      after == if before.Some? && model in {"Session", "Grant"} && sub != "" && before.value.accountId == Some(sub)
        then None else before
  {
    TerminationEffect(now, ops, ENDED, sub, model, id);
  }

  /** `terminateAndRevokeFor` ends its access tokens, refresh tokens and authorization codes besides, and no others. */
  lemma {:induction false} EndsTokens(now: int, ops: seq<Op>, sub: string, model: string, id: string)
    requires RunOk(START.(now := now), ops)
    ensures var w := Run(World(map[], now), ops);
      var before, after := Found(w.t, w.now, model, id), Found(SweptModels(w.t, REVOKED, sub), w.now, model, id);
      after == if before.Some? && sub != "" && before.value.accountId == Some(sub) &&
        model in {"Session", "Grant", "AccessToken", "RefreshToken", "AuthorizationCode"} then None else before
  {
    TerminationEffect(now, ops, REVOKED, sub, model, id);
  }

  /** The rows an account sweep of one model deletes. */
  ghost function DeletedRows(s: Spec, model: string, account: string): set<Ref> {
    set r | r in s.table && r.0 == model && account != "" && s.table[r].payload.accountId == Some(account)
  }

  ghost function MarkerRefs(markers: set<Key>): set<Ref> {
    set k | k in markers && k.AccountKey? :: (k.model, k.id)
  }

  lemma {:induction false} MarkerRefsSize(markers: set<Key>, model: string, account: string)
    requires forall k :: k in markers ==> k.AccountKey? && k.model == model && k.account == account
    ensures |MarkerRefs(markers)| == |markers|
  {
    if markers != {} {
      var k :| k in markers;
      MarkerRefsSize(markers - {k}, model, account);
      assert MarkerRefs(markers) == MarkerRefs(markers - {k}) + {(k.model, k.id)};
      assert (k.model, k.id) !in MarkerRefs(markers - {k});
    }
  }

  lemma {:induction false} SubsetSize<T>(a: set<T>, b: set<T>)
    requires a <= b
    ensures |a| <= |b|
    ensures |a| == |b| <==> a == b
  {
    if a != {} {
      var x :| x in a;
      SubsetSize(a - {x}, b - {x});
      assert a == (a - {x}) + {x} && b == (b - {x}) + {x};
    } else if b != {} {
      var x :| x in b;
      assert |b - {x}| == |b| - 1;
    }
  }

  /** A live row of the account has its marker, and a marker's row, when live, is the account's. */
  lemma RowsOfMarkers(w: World, s: Spec, model: string, account: string, r: Ref)
    requires Inv(w, s)
    ensures r in DeletedRows(s, model, account) <==>
      r in s.table && r in MarkerRefs(AccountMarkers(w.t, model, account))
  {
    hide TableOf, HoldersGood, AttrOf;
    if r in s.table {
      var k := AccountKey(account, r.0, r.1);
      assert s.attrs[r] == AttrOf(r.0, s.table[r].payload);
      AttrExactly(r.0, s.table[r].payload, account);
      if r in DeletedRows(s, model, account) {
        assert Owner(s, k) == Some(r);
        assert k in AccountMarkers(w.t, model, account);
      }
      if r in MarkerRefs(AccountMarkers(w.t, model, account)) {
        assert k in w.t && r.0 == model;
      }
    }
  }

  /**
    The count an account sweep returns is the number of markers it listed. It is never below the number
    of live artifacts it deletes, and equals it exactly when no marker dangles.
   */
  lemma CountOfSweep(w: World, s: Spec, model: string, account: string)
    requires Inv(w, s)
    ensures |DeletedRows(s, model, account)| <= MarkerCount(w.t, model, account)
    ensures |DeletedRows(s, model, account)| == MarkerCount(w.t, model, account) <==>
      forall k :: k in AccountMarkers(w.t, model, account) ==> (k.model, k.id) in s.table
  {
    var markers, rows := AccountMarkers(w.t, model, account), DeletedRows(s, model, account);
    MarkerRefsSize(markers, model, account);
    forall r: Ref ensures r in rows <==> r in s.table && r in MarkerRefs(markers) {
      RowsOfMarkers(w, s, model, account, r);
    }
    SubsetSize(rows, MarkerRefs(markers));
    hide Inv, DeletedRows;
    assert rows == MarkerRefs(markers) <==> forall k :: k in markers ==> (k.model, k.id) in s.table by {
      if rows == MarkerRefs(markers) {
        forall k | k in markers ensures (k.model, k.id) in s.table {
          assert (k.model, k.id) in MarkerRefs(markers);
        }
      }
    }
  }
}
