/**
  Why overlapping upserts need one lifetime: with any two that differ, the marker can be left with the shorter one, and
  a sweep after that misses the live artifact. With the other half this makes the condition exact.
 */
module LifetimesExact {
  import opened Options
  import opened Keys
  import opened Storage
  import opened OidcSpec
  import opened ConcurrentSweep
  import opened OverlappingUpserts

  const EMPTY: State := State(map[], 0, [], Idle)

  /** A run from an empty store with at most two upserts, both of this artifact, complete before any listing. */
  ghost predicate TwoUpserts(grant: string, model: string, id: string, p: Payload, lifetimes: set<int>,
      states: seq<State>, actions: seq<Action>)
  {
    && IsRun(grant, states, actions) && states[0] == EMPTY
    && (forall j :: 0 <= j < |states| ==> |states[j].writers| <= 2)
    && (forall j :: 0 <= j < |actions| ==> Follows(model, id, p, lifetimes, states[j], actions[j]))
  }

  ghost predicate Follows(model: string, id: string, p: Payload, lifetimes: set<int>, s: State, a: Action) {
    && (a.Start? ==> a == Start(model, id, p, a.expiresIn) && a.expiresIn in lifetimes)
    && (a.List? ==> forall w :: w in s.writers ==> w.todo == [])
    && (a.Write? ==> s.sweep.Idle?)
  }

  lemma TwoOverlap(grant: string, model: string, id: string, p: Payload, lifetimes: set<int>, states: seq<State>,
      actions: seq<Action>)
    requires AttrOf(model, p).grant == Some(grant) && TwoUpserts(grant, model, id, p, lifetimes, states, actions)
    ensures Overlapping(grant, model, id, lifetimes, {0, 1}, states, actions)
    ensures Begun(PayloadKey(model, id), GrantKey(grant, model, id), states, actions)
  {
    hide AttrOf, Next, Enabled, Follows, Allowed;
    forall j | 0 <= j < |actions| ensures Allowed(grant, model, id, lifetimes, {0, 1}, states[j], actions[j]) {
      AllowedOne(grant, model, id, p, lifetimes, states[j], actions[j]);
    }
  }

  lemma AllowedOne(grant: string, model: string, id: string, p: Payload, lifetimes: set<int>, s: State, a: Action)
    requires AttrOf(model, p).grant == Some(grant) && |s.writers| <= 2
    requires Enabled(s, grant, a) && Follows(model, id, p, lifetimes, s, a)
    ensures Allowed(grant, model, id, lifetimes, {0, 1}, s, a)
  {
    hide AttrOf;
  }

  /** A run goes on with any enabled action that follows. */
  lemma Extend(grant: string, model: string, id: string, p: Payload, lifetimes: set<int>,
      states: seq<State>, actions: seq<Action>, a: Action)
    returns (states': seq<State>, actions': seq<Action>)
    requires TwoUpserts(grant, model, id, p, lifetimes, states, actions)
    requires Enabled(states[|actions|], grant, a) && Follows(model, id, p, lifetimes, states[|actions|], a)
    requires |Next(states[|actions|], a).writers| <= 2
    ensures TwoUpserts(grant, model, id, p, lifetimes, states', actions')
    ensures |states'| == |actions'| + 1 == |states| + 1
    ensures states'[|actions'|] == Next(states[|actions|], a)
  {
    states', actions' := states + [Next(states[|actions|], a)], actions + [a];
    hide Next, Enabled, Follows;
  }

  /** One writer makes all the writes it still owes. */
  lemma {:induction false} Drain(grant: string, model: string, id: string, p: Payload, lifetimes: set<int>,
      states: seq<State>, actions: seq<Action>, i: nat)
    returns (states': seq<State>, actions': seq<Action>)
    requires TwoUpserts(grant, model, id, p, lifetimes, states, actions)
    requires states[|actions|].sweep.Idle? && i < |states[|actions|].writers|
    ensures TwoUpserts(grant, model, id, p, lifetimes, states', actions')
    ensures var s, s2 := states[|actions|], states'[|actions'|];
      Drained(s, s2, i, s.writers[i].todo)
    decreases |states[|actions|].writers[i].todo|
  {
    var s := states[|actions|];
    var todo := s.writers[i].todo;
    if todo == [] {
      states', actions' := states, actions;
      assert s.writers[i := Writer([], s.writers[i].expiresIn)] == s.writers;
    } else {
      hide TwoUpserts;
      states', actions' := Extend(grant, model, id, p, lifetimes, states, actions, Write(i));
      ghost var s1 := states'[|actions'|];
      states', actions' := Drain(grant, model, id, p, lifetimes, states', actions', i);
      DrainedMore(s, s1, states'[|actions'|], i);
    }
  }

  /** Writer `i` has made these writes, and nothing else has happened. */
  ghost predicate Drained(s: State, s2: State, i: nat, todo: seq<Put>)
    requires i < |s.writers|
  {
    && s2.now == s.now && s2.sweep == s.sweep && s2.writers == s.writers[i := Writer([], s.writers[i].expiresIn)]
    && KeptOthers(todo, s.t, s2.t)
    && Written(todo, s2.t, ExpiryOf(s.now, s.writers[i].expiresIn))
  }

  lemma DrainedMore(s: State, s1: State, s2: State, i: nat)
    requires i < |s.writers| && s.writers[i].todo != [] && s1 == Next(s, Write(i))
    requires i < |s1.writers| && Drained(s1, s2, i, s.writers[i].todo[1..])
    ensures Drained(s, s2, i, s.writers[i].todo)
  {
    var todo, e := s.writers[i].todo, s.writers[i].expiresIn;
    assert s1.t == s.t[todo[0].key := Entry(todo[0].value, ExpiryOf(s.now, e))];
    assert s1.writers == s.writers[i := Writer(todo[1..], e)] && s1.now == s.now && s1.sweep == s.sweep;
    DrainedFirst(s1, s2, i, todo[1..], todo[0].key);
    hide Next;
    hide KeptOthers, Written, ExpiryOf;
    WrittenBoth(todo, s2.t, ExpiryOf(s.now, e));
    KeptBoth(todo, s.t, s1.t, s2.t);
  }

  /** These writes have been made with this expiry. */
  ghost predicate Written(todo: seq<Put>, t: Typed, expiresAt: Option<int>) {
    forall put :: put in todo ==> put.key in t && t[put.key].expiresAt == expiresAt
  }

  /** No other key has changed. */
  ghost predicate KeptOthers(todo: seq<Put>, t: Typed, t2: Typed) {
    forall q :: (forall put :: put in todo ==> put.key != q) ==> (q in t2 <==> q in t) && (q in t ==> t2[q] == t[q])
  }

  lemma WrittenBoth(todo: seq<Put>, t: Typed, expiresAt: Option<int>)
    requires todo != [] && Written(todo[1..], t, expiresAt)
    requires todo[0].key in t && t[todo[0].key].expiresAt == expiresAt
    ensures Written(todo, t, expiresAt)
  {
    assert todo == [todo[0]] + todo[1..];
  }

  lemma KeptBoth(todo: seq<Put>, t: Typed, t1: Typed, t2: Typed)
    requires todo != [] && KeptOthers(todo[1..], t1, t2) && todo[0].key in t1 && t1 == t[todo[0].key := t1[todo[0].key]]
    ensures KeptOthers(todo, t, t2)
  {
    assert forall put :: put in todo[1..] ==> put in todo;
  }

  /** A key written before the others has their expiry whether or not it is written again. */
  lemma DrainedFirst(s1: State, s2: State, i: nat, rest: seq<Put>, q: Key)
    requires i < |s1.writers| && Drained(s1, s2, i, rest)
    requires q in s1.t && s1.t[q].expiresAt == ExpiryOf(s1.now, s1.writers[i].expiresIn)
    ensures q in s2.t && s2.t[q].expiresAt == ExpiryOf(s1.now, s1.writers[i].expiresIn)
  {
    if put :| put in rest && put.key == q {
      assert put.key in s2.t;
    }
  }

  /** Two upserts start, and each writes the payload, the longer-lived one last. */
  lemma PayloadWrites(grant: string, model: string, id: string, p: Payload, lifetimes: set<int>, short: int, long: int)
    returns (states: seq<State>, actions: seq<Action>)
    requires AttrOf(model, p).grant == Some(grant) && short in lifetimes && long in lifetimes
    ensures TwoUpserts(grant, model, id, p, lifetimes, states, actions)
    ensures var s, puts := states[|actions|], Puts(model, id, p);
      && s.sweep.Idle? && s.now == 0 && s.writers == [Writer(puts[1..], short), Writer(puts[1..], long)]
      && s.t == map[PayloadKey(model, id) := Entry(puts[0].value, ExpiryOf(0, long))]
  {
    var puts := Puts(model, id, p);
    PutsShape(model, id, p);
    hide AttrOf, Puts, TwoUpserts, Enabled;
    states, actions := [EMPTY], [];
    EmptyRun(grant, model, id, p, lifetimes);
    states, actions := Begin(grant, model, id, p, lifetimes, states, actions, short);
    states, actions := Begin(grant, model, id, p, lifetimes, states, actions, long);
    assert states[|actions|] == State(map[], 0, [Writer(puts, short), Writer(puts, long)], Idle);
    states, actions := WriteOnce(grant, model, id, p, lifetimes, states, actions, 0);
    states, actions := WriteOnce(grant, model, id, p, lifetimes, states, actions, 1);
  }

  /** Then the longer-lived upsert to its end, then the shorter-lived one. */
  lemma OverlapWrites(grant: string, model: string, id: string, p: Payload, lifetimes: set<int>, short: int, long: int)
    returns (states: seq<State>, actions: seq<Action>)
    requires AttrOf(model, p).grant == Some(grant) && short in lifetimes && long in lifetimes
    ensures TwoUpserts(grant, model, id, p, lifetimes, states, actions)
    ensures var s, k, marker := states[|actions|], PayloadKey(model, id), GrantKey(grant, model, id);
      && s.sweep.Idle? && s.now == 0 && s.writers == [Writer([], short), Writer([], long)]
      && k in s.t && s.t[k].expiresAt == ExpiryOf(0, long)
      && marker in s.t && s.t[marker].expiresAt == ExpiryOf(0, short)
      && forall q :: q in s.t && q.GrantKey? ==> q == marker
  {
    PutsShape(model, id, p);
    GrantPuts(model, id, p);
    hide AttrOf, Puts, TwoUpserts, Drained;
    states, actions := PayloadWrites(grant, model, id, p, lifetimes, short, long);
    ghost var s := states[|actions|];
    states, actions := Drain(grant, model, id, p, lifetimes, states, actions, 1);
    ghost var s1 := states[|actions|];
    assert Drained(s, s1, 1, s.writers[1].todo);
    DrainedWriters(s, s1, 1);
    states, actions := Drain(grant, model, id, p, lifetimes, states, actions, 0);
    BothDrained(s, s1, states[|actions|], PayloadKey(model, id), GrantKey(grant, model, id), Puts(model, id, p)[1..]);
  }

  lemma DrainedWriters(s: State, s1: State, i: nat)
    requires i < |s.writers| && Drained(s, s1, i, s.writers[i].todo)
    ensures s1.sweep == s.sweep && s1.writers == s.writers[i := Writer([], s.writers[i].expiresIn)]
  {
  }

  lemma EmptyRun(grant: string, model: string, id: string, p: Payload, lifetimes: set<int>)
    ensures TwoUpserts(grant, model, id, p, lifetimes, [EMPTY], [])
  {
  }

  lemma Begin(grant: string, model: string, id: string, p: Payload, lifetimes: set<int>,
      states: seq<State>, actions: seq<Action>, expiresIn: int)
    returns (states': seq<State>, actions': seq<Action>)
    requires TwoUpserts(grant, model, id, p, lifetimes, states, actions)
    requires expiresIn in lifetimes && |states[|actions|].writers| < 2
    ensures TwoUpserts(grant, model, id, p, lifetimes, states', actions')
    ensures states'[|actions'|] == states[|actions|].(writers :=
      states[|actions|].writers + [Writer(Puts(model, id, p), expiresIn)])
  {
    hide Puts, TwoUpserts;
    states', actions' := Extend(grant, model, id, p, lifetimes, states, actions, Start(model, id, p, expiresIn));
  }

  lemma WriteOnce(grant: string, model: string, id: string, p: Payload, lifetimes: set<int>,
      states: seq<State>, actions: seq<Action>, i: nat)
    returns (states': seq<State>, actions': seq<Action>)
    requires TwoUpserts(grant, model, id, p, lifetimes, states, actions)
    requires |states[|actions|].writers| == 2 && i < 2 && states[|actions|].writers[i].todo != [] &&
      states[|actions|].sweep.Idle?
    ensures TwoUpserts(grant, model, id, p, lifetimes, states', actions')
    ensures states'[|actions'|] == Next(states[|actions|], Write(i))
  {
    hide TwoUpserts;
    states', actions' := Extend(grant, model, id, p, lifetimes, states, actions, Write(i));
  }

  /** The only grant marker an upsert writes is its own grant's. */
  lemma GrantPuts(model: string, id: string, p: Payload)
    requires AttrOf(model, p).grant.Some?
    ensures forall put :: put in Puts(model, id, p) && put.key.GrantKey? ==>
      put.key == GrantKey(AttrOf(model, p).grant.value, model, id)
  {
    hide AttrOf;
  }

  lemma BothDrained(s: State, s1: State, s2: State, k: Key, marker: Key, rest: seq<Put>)
    requires |s.writers| == 2 && s.writers[0].todo == rest && s.writers[1].todo == rest
    requires Drained(s, s1, 1, rest) && Drained(s1, s2, 0, rest)
    requires forall put :: put in rest ==> put.key != k && (put.key.GrantKey? ==> put.key == marker)
    requires exists put :: put in rest && put.key == marker
    requires s.t.Keys == {k} && k.PayloadKey? && marker.GrantKey?
    ensures s2.now == s.now && s2.sweep == s.sweep
    ensures s2.writers == [Writer([], s.writers[0].expiresIn), Writer([], s.writers[1].expiresIn)]
    ensures k in s2.t && s2.t[k] == s.t[k]
    ensures marker in s2.t && s2.t[marker].expiresAt == ExpiryOf(s.now, s.writers[0].expiresIn)
    ensures forall q :: q in s2.t && q.GrantKey? ==> q == marker
  {
    forall q | q in s2.t && q.GrantKey? ensures q == marker {
      assert (forall put :: put in rest ==> put.key != q) ==> (q in s2.t <==> q in s.t);
    }
  }

  /** The lifetimes differ and the first is the one that ends. */
  predicate Shorter(short: int, long: int) {
    short > 0 && (long <= 0 || short < long)
  }

  /**
    Two upserts of one artifact whose lifetimes differ, of any grantable model: the shorter-lived one can write its
    marker last. Both complete, the marker expires first, and the sweep then misses the live artifact.
   */
  lemma OverlapEscapes(grant: string, model: string, id: string, p: Payload, lifetimes: set<int>, short: int, long: int)
    returns (states: seq<State>, actions: seq<Action>)
    requires AttrOf(model, p).grant == Some(grant) && short in lifetimes && long in lifetimes && Shorter(short, long)
    ensures TwoUpserts(grant, model, id, p, lifetimes, states, actions)
    ensures states[|actions|].sweep.Finished? && Lives(states[|actions|], PayloadKey(model, id))
  {
    var marker := GrantKey(grant, model, id);
    states, actions := OverlapWrites(grant, model, id, p, lifetimes, short, long);
    hide AttrOf, Puts, TwoUpserts;
    states, actions := Extend(grant, model, id, p, lifetimes, states, actions, Pass(short * 1000 + 1));
    states, actions := Extend(grant, model, id, p, lifetimes, states, actions, Expire({marker}));
    states, actions := Extend(grant, model, id, p, lifetimes, states, actions, List([]));
    states, actions := Extend(grant, model, id, p, lifetimes, states, actions, Delete);
  }

  /**
    Every run of overlapping upserts with these lifetimes, complete before the sweep lists, leaves the artifact absent.
   */
  ghost predicate AlwaysReached(grant: string, model: string, id: string, lifetimes: set<int>) {
    forall upserts: set<nat>, states: seq<State>, actions: seq<Action> ::
      && |states| == |actions| + 1
      && Overlapping(grant, model, id, lifetimes, upserts, states, actions)
      && Begun(PayloadKey(model, id), GrantKey(grant, model, id), states, actions)
      && states[|actions|].sweep.Finished?
      ==> !Lives(states[|actions|], PayloadKey(model, id))
  }

  /** The exact condition on lifetimes: all equal, or all without an expiry. */
  lemma ReachedExactly(grant: string, model: string, id: string, p: Payload, lifetimes: set<int>)
    requires AttrOf(model, p).grant == Some(grant)
    ensures AlwaysReached(grant, model, id, lifetimes) <==> OneLifetime(lifetimes)
  {
    hide AttrOf, Overlapping, Begun, Follows, Lives;
    if OneLifetime(lifetimes) {
      forall upserts: set<nat>, states: seq<State>, actions: seq<Action> |
        && |states| == |actions| + 1
        && Overlapping(grant, model, id, lifetimes, upserts, states, actions)
        && Begun(PayloadKey(model, id), GrantKey(grant, model, id), states, actions)
        && states[|actions|].sweep.Finished?
        ensures !Lives(states[|actions|], PayloadKey(model, id))
      {
        SweepReaches(grant, model, id, lifetimes, upserts, states, actions);
      }
    } else {
      var a, b :| a in lifetimes && b in lifetimes && a != b && !(a <= 0 && b <= 0);
      var short, long := if Shorter(a, b) then a else b, if Shorter(a, b) then b else a;
      var states, actions := OverlapEscapes(grant, model, id, p, lifetimes, short, long);
      TwoOverlap(grant, model, id, p, lifetimes, states, actions);
    }
  }
}
