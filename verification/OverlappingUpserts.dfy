/**
  A grant sweep after upserts of one artifact that overlap in any way: the artifact is always gone at the end if and
  only if the upserts' lifetimes are all the same.
 */
module OverlappingUpserts {
  import opened Options
  import opened Keys
  import opened Storage
  import opened OidcSpec
  import opened ConcurrentSweep

  predicate Owes(w: Writer, k: Key) {
    exists put :: put in w.todo && put.key == k
  }

  /** An upsert of the artifact that has not begun: its payload first, and a marker to follow. */
  predicate Whole(w: Writer, k: Key, marker: Key) {
    && w.todo != [] && w.todo[0].key == k
    && (forall put :: put in w.todo[1..] ==> put.key != k)
    && exists put :: put in w.todo[1..] && put.key == marker
  }

  /** It has written the payload and still owes the marker. */
  predicate HalfDone(w: Writer, k: Key, marker: Key) {
    !Owes(w, k) && Owes(w, marker)
  }

  predicate Clear(w: Writer, k: Key, marker: Key) {
    !Owes(w, k) && !Owes(w, marker)
  }

  /** Lifetimes that always give the same expiry: one number of seconds, or none at all. */
  predicate OneLifetime(lifetimes: set<int>) {
    forall a, b :: a in lifetimes && b in lifetimes ==> a == b || (a <= 0 && b <= 0)
  }

  ghost predicate Fits(w: Writer, k: Key, marker: Key, lifetimes: set<int>) {
    ((Whole(w, k, marker) || HalfDone(w, k, marker)) && w.expiresIn in lifetimes) || Clear(w, k, marker)
  }

  /**
    The writers in `upserts` may write the artifact under the grant, with these lifetimes, overlapping in any way;
    nobody else writes its payload or marker. All are complete when the sweep lists, and none writes from then on.
   */
  ghost predicate Overlapping(grant: string, model: string, id: string, lifetimes: set<int>, upserts: set<nat>,
      states: seq<State>, actions: seq<Action>)
  {
    var k, marker := PayloadKey(model, id), GrantKey(grant, model, id);
    && IsRun(grant, states, actions)
    && states[0].sweep.Idle?
    && (forall i :: i in upserts && i < |states[0].writers| ==>
          var w := states[0].writers[i];
          (Whole(w, k, marker) && w.expiresIn in lifetimes) || Clear(w, k, marker))
    && (forall j :: 0 <= j < |actions| ==> Allowed(grant, model, id, lifetimes, upserts, states[j], actions[j]))
  }

  ghost predicate Allowed(grant: string, model: string, id: string, lifetimes: set<int>, upserts: set<nat>, s: State,
      a: Action) {
    var k, marker := PayloadKey(model, id), GrantKey(grant, model, id);
    && (a.Start? && |s.writers| in upserts && a.model == model && a.id == id ==>
          AttrOf(model, a.payload).grant == Some(grant) && a.expiresIn in lifetimes)
    && (PutsKey(s, a, k) || PutsKey(s, a, marker) ==> a.writer in upserts)
    && (PutsKey(s, a, k) ==> s.sweep.Idle?)
    && (a.List? ==> forall i :: i in upserts && i < |s.writers| ==> Clear(s.writers[i], k, marker))
  }

  /** The index was in order for the artifact at the start, or some upsert has written it since. */
  ghost predicate Begun(k: Key, marker: Key, states: seq<State>, actions: seq<Action>)
    requires |states| == |actions| + 1
  {
    Protected(states[0], k, marker) || exists j :: 0 <= j < |actions| && PutsKey(states[j], actions[j], k)
  }

  /** Some upsert still owes the marker of the payload it has written, or the payload is protected. */
  ghost predicate InOrder(s: State, k: Key, marker: Key, upserts: set<nat>, begun: bool) {
    && (forall i :: i in upserts && i < |s.writers| && HalfDone(s.writers[i], k, marker) && k in s.t ==>
          Within(s.t[k].expiresAt, s.now, s.writers[i].expiresIn))
    && (begun ==> Protected(s, k, marker) || exists i ::
      i in upserts && i < |s.writers| && HalfDone(s.writers[i], k, marker))
  }

  ghost predicate Reaching(s: State, k: Key, marker: Key, lifetimes: set<int>, upserts: set<nat>, begun: bool) {
    && (s.sweep.Idle? ==>
          && (forall i :: i in upserts && i < |s.writers| ==> Fits(s.writers[i], k, marker, lifetimes))
          && InOrder(s, k, marker, upserts, begun))
    && (!s.sweep.Idle? && begun ==> Doomed(s, k) || Gone(s, k))
  }

  lemma PutsFit(model: string, id: string, p: Payload, k: Key, marker: Key, w: Writer)
    requires w.todo == Puts(model, id, p) && k.PayloadKey? && marker.GrantKey? && marker.model == k.model &&
      marker.id == k.id
    requires model == k.model && id == k.id ==> AttrOf(model, p).grant == Some(marker.grant)
    ensures if model == k.model && id == k.id then Whole(w, k, marker) else Clear(w, k, marker)
  {
    if model == k.model && id == k.id {
      PutsShape(model, id, p);
    } else {
      hide AttrOf;
      PutsOfOwn(model, id, p);
    }
  }

  /** An upsert writes no payload or grant marker but its own. */
  lemma PutsOfOwn(model: string, id: string, p: Payload)
    ensures forall put :: put in Puts(model, id, p) && (put.key.PayloadKey? || put.key.GrantKey?) ==>
      put.key.model == model && put.key.id == id
  {
    hide AttrOf;
  }

  lemma OwesFirst(w: Writer, k: Key)
    requires w.todo != []
    ensures Owes(w, k) <==> w.todo[0].key == k || Owes(w.(todo := w.todo[1..]), k)
  {
    assert w.todo == [w.todo[0]] + w.todo[1..];
    if put :| put in w.todo && put.key == k {
      assert put == w.todo[0] || put in w.todo[1..];
    }
    if put :| put in w.todo[1..] && put.key == k {
      assert put in w.todo;
    }
  }

  lemma WholeOwes(w: Writer, k: Key, marker: Key)
    requires w.todo != []
    ensures Whole(w, k, marker) <==> w.todo[0].key == k && HalfDone(w.(todo := w.todo[1..]), k, marker)
    ensures w.todo[0].key != k ==> !Whole(w, k, marker)
  {
  }

  /** One write of an upsert: the payload, the marker, or something else. */
  lemma FirstPut(s: State, i: nat, k: Key, marker: Key, lifetimes: set<int>)
    requires i < |s.writers| && s.writers[i].todo != [] && k != marker && Fits(s.writers[i], k, marker, lifetimes)
    ensures var w, w2 := s.writers[i], Next(s, Write(i)).writers[i];
      && Fits(w2, k, marker, lifetimes) && w2.expiresIn == w.expiresIn
      && (w.todo[0].key == k ==> HalfDone(w2, k, marker) && w.expiresIn in lifetimes)
      && (w.todo[0].key == marker ==> HalfDone(w, k, marker))
      && (w.todo[0].key != marker && HalfDone(w, k, marker) ==> HalfDone(w2, k, marker))
      && (HalfDone(w2, k, marker) ==> w.todo[0].key == k || HalfDone(w, k, marker))
  {
    var w := s.writers[i];
    var w2 := w.(todo := w.todo[1..]);
    assert Next(s, Write(i)).writers[i] == w2;
    hide Owes, Whole, Next;
    OwesFirst(w, k);
    OwesFirst(w, marker);
    WholeOwes(w, k, marker);
  }

  lemma SameWithin(now: int, a: int, b: int, lifetimes: set<int>)
    requires OneLifetime(lifetimes) && a in lifetimes && b in lifetimes
    ensures Within(ExpiryOf(now, a), now, b)
  {
  }

  /** What the write of one of the upserts changes. */
  ghost predicate Wrote(s: State, s2: State, i: nat) {
    && i < |s.writers| && s.writers[i].todo != [] && s2.now == s.now && |s2.writers| == |s.writers|
    && (forall n :: 0 <= n < |s.writers| && n != i ==> s2.writers[n] == s.writers[n])
    && s2.t == s.t[s.writers[i].todo[0].key :=
      Entry(s.writers[i].todo[0].value, ExpiryOf(s.now, s.writers[i].expiresIn))]
  }

  lemma WriteWithin(s: State, s2: State, i: nat, k: Key, marker: Key, lifetimes: set<int>, upserts: set<nat>, n: nat)
    requires Wrote(s, s2, i) && OneLifetime(lifetimes) && InOrder(s, k, marker, upserts, false)
    requires n in upserts && n < |s2.writers| && HalfDone(s2.writers[n], k, marker) &&
      s2.writers[n].expiresIn in lifetimes
    requires s.writers[i].todo[0].key == k ==> s.writers[i].expiresIn in lifetimes
    requires n == i ==> s2.writers[i].expiresIn == s.writers[i].expiresIn
    requires n == i ==> s.writers[i].todo[0].key == k || HalfDone(s.writers[i], k, marker)
    ensures k in s2.t ==> Within(s2.t[k].expiresAt, s2.now, s2.writers[n].expiresIn)
  {
    hide HalfDone, OneLifetime, Within;
    if s.writers[i].todo[0].key == k {
      SameWithin(s.now, s.writers[i].expiresIn, s2.writers[n].expiresIn, lifetimes);
    }
  }

  lemma WriteProtects(s: State, s2: State, i: nat, k: Key, marker: Key, upserts: set<nat>, begun: bool)
    requires Wrote(s, s2, i) && k != marker && i in upserts && InOrder(s, k, marker, upserts, begun)
    requires var key, half, half2 :=
      s.writers[i].todo[0].key, HalfDone(s.writers[i], k, marker), HalfDone(s2.writers[i], k, marker);
      (key == k ==> half2) && (key == marker ==> half) && (key != marker && half ==> half2)
    ensures begun || s.writers[i].todo[0].key == k ==>
      Protected(s2, k, marker) || exists n :: n in upserts && n < |s2.writers| && HalfDone(s2.writers[n], k, marker)
  {
    hide HalfDone, Within;
    var key := s.writers[i].todo[0].key;
    if key == marker {
      WithinProtects(s, s2, k, marker, s.writers[i].expiresIn);
    } else if key != k && begun {
      if n :| n in upserts && n < |s.writers| && HalfDone(s.writers[n], k, marker) {
        assert HalfDone(s2.writers[n], k, marker);
      } else {
        assert Protected(s2, k, marker);
      }
    }
  }

  lemma UpsertInOrder(s: State, s2: State, i: nat, k: Key, marker: Key, lifetimes: set<int>, upserts: set<nat>,
      begun: bool)
    requires Wrote(s, s2, i) && OneLifetime(lifetimes) && k != marker && i in upserts &&
      InOrder(s, k, marker, upserts, begun)
    requires forall n :: n in upserts && n < |s2.writers| ==> Fits(s2.writers[n], k, marker, lifetimes)
    requires s2.writers[i].expiresIn == s.writers[i].expiresIn
    requires var key, half, half2 :=
      s.writers[i].todo[0].key, HalfDone(s.writers[i], k, marker), HalfDone(s2.writers[i], k, marker);
      && (key == k ==> half2) && (key == marker ==> half) && (key != marker && half ==> half2) &&
        (half2 ==> key == k || half)
      && (key == k ==> s.writers[i].expiresIn in lifetimes)
    ensures InOrder(s2, k, marker, upserts, begun || s.writers[i].todo[0].key == k)
  {
    hide Wrote, HalfDone, Fits, OneLifetime, Within, Protected;
    forall n | n in upserts && n < |s2.writers| && HalfDone(s2.writers[n], k, marker) && k in s2.t
      ensures Within(s2.t[k].expiresAt, s2.now, s2.writers[n].expiresIn)
    {
      FitsLifetime(s2.writers[n], k, marker, lifetimes);
      WriteWithin(s, s2, i, k, marker, lifetimes, upserts, n);
    }
    WriteProtects(s, s2, i, k, marker, upserts, begun);
  }

  lemma WroteNext(s: State, i: nat)
    requires i < |s.writers| && s.writers[i].todo != []
    ensures Wrote(s, Next(s, Write(i)), i) && Next(s, Write(i)).sweep == s.sweep
    ensures |Next(s, Write(i)).writers| == |s.writers|
    ensures forall n :: 0 <= n < |s.writers| && n != i ==> Next(s, Write(i)).writers[n] == s.writers[n]
  {
  }

  /** A write by one of the upserts keeps the artifact in order. */
  lemma UpsertWrite(s: State, i: nat, k: Key, marker: Key, lifetimes: set<int>, upserts: set<nat>, begun: bool)
    requires OneLifetime(lifetimes) && k != marker && s.sweep.Idle? && Reaching(s, k, marker, lifetimes, upserts, begun)
    requires i in upserts && i < |s.writers| && s.writers[i].todo != []
    ensures Reaching(Next(s, Write(i)), k, marker, lifetimes, upserts, begun || s.writers[i].todo[0].key == k)
  {
    hide Next, Wrote, InOrder, Whole, HalfDone, Clear, Fits, OneLifetime;
    FirstPut(s, i, k, marker, lifetimes);
    WroteNext(s, i);
    UpsertInOrder(s, Next(s, Write(i)), i, k, marker, lifetimes, upserts, begun);
  }

  lemma FitsLifetime(w: Writer, k: Key, marker: Key, lifetimes: set<int>)
    requires Fits(w, k, marker, lifetimes) && HalfDone(w, k, marker)
    ensures w.expiresIn in lifetimes
  {
  }

  lemma WithinProtects(s: State, s2: State, k: Key, marker: Key, expiresIn: int)
    requires k in s.t ==> Within(s.t[k].expiresAt, s.now, expiresIn)
    requires k != marker && marker in s2.t && s2.t[marker].expiresAt == ExpiryOf(s.now, expiresIn)
    requires s2.now == s.now && (k in s2.t ==> k in s.t && s2.t[k] == s.t[k])
    ensures Protected(s2, k, marker)
  {
  }

  /** The upserts are where they were, or new and not half done, and the payload is as it was, or gone. */
  ghost predicate Steady(s: State, s2: State, k: Key, marker: Key, upserts: set<nat>) {
    && s.now <= s2.now && |s.writers| <= |s2.writers|
    && (forall i :: i in upserts && i < |s.writers| ==> s2.writers[i] == s.writers[i])
    && (forall i :: i in upserts && |s.writers| <= i < |s2.writers| ==> !HalfDone(s2.writers[i], k, marker))
    && (k in s2.t ==> k in s.t && s2.t[k] == s.t[k])
  }

  lemma SteadyInOrder(s: State, s2: State, k: Key, marker: Key, upserts: set<nat>, begun: bool)
    requires InOrder(s, k, marker, upserts, begun) && Steady(s, s2, k, marker, upserts)
    requires Protected(s, k, marker) ==> Protected(s2, k, marker)
    ensures InOrder(s2, k, marker, upserts, begun)
  {
    hide HalfDone, Protected;
    if i :| i in upserts && i < |s.writers| && HalfDone(s.writers[i], k, marker) {
      assert HalfDone(s2.writers[i], k, marker);
    }
  }

  lemma OtherSteady(grant: string, s: State, a: Action, k: Key, marker: Key, upserts: set<nat>)
    requires Enabled(s, grant, a) && (a.Write? || a.Pass? || a.Expire?)
    requires a.Write? ==> a.writer !in upserts && !PutsKey(s, a, k)
    ensures Steady(s, Next(s, a), k, marker, upserts) && Next(s, a).sweep == s.sweep &&
      |Next(s, a).writers| == |s.writers|
  {
    hide HalfDone;
  }

  /** A step that writes neither payload nor marker keeps the artifact in order too. */
  lemma OtherStep(grant: string, s: State, a: Action, k: Key, marker: Key, lifetimes: set<int>, upserts: set<nat>,
      begun: bool)
    requires Enabled(s, grant, a) && s.sweep.Idle? && (a.Write? || a.Pass? || a.Expire?)
    requires Reaching(s, k, marker, lifetimes, upserts, begun)
    requires a.Write? ==> a.writer !in upserts && !PutsKey(s, a, k) && !PutsKey(s, a, marker)
    ensures Reaching(Next(s, a), k, marker, lifetimes, upserts, begun)
  {
    OtherSteady(grant, s, a, k, marker, upserts);
    if Protected(s, k, marker) {
      KeptProtected(grant, s, a, k, marker);
    }
    hide Fits, HalfDone, InOrder, Next, Enabled, Protected;
    SteadyInOrder(s, Next(s, a), k, marker, upserts, begun);
  }

  lemma KeptProtected(grant: string, s: State, a: Action, k: Key, marker: Key)
    requires Enabled(s, grant, a) && (a.Write? || a.Pass? || a.Expire?) && Protected(s, k, marker)
    requires !PutsKey(s, a, k) && !PutsKey(s, a, marker)
    ensures Protected(Next(s, a), k, marker)
  {
    if Lives(Next(s, a), k) {
      assert Lives(s, k) && Lives(s, marker);
    }
  }

  lemma StartStep(s: State, a: Action, k: Key, marker: Key, lifetimes: set<int>, upserts: set<nat>, begun: bool)
    requires a.Start? && s.sweep.Idle? && Reaching(s, k, marker, lifetimes, upserts, begun)
    requires k.PayloadKey? && marker.GrantKey? && marker.model == k.model && marker.id == k.id
    requires |s.writers| in upserts && a.model == k.model && a.id == k.id ==>
      AttrOf(a.model, a.payload).grant == Some(marker.grant) && a.expiresIn in lifetimes
    ensures Reaching(Next(s, a), k, marker, lifetimes, upserts, begun)
  {
    var n, s2 := |s.writers|, Next(s, a);
    hide AttrOf, Puts, Whole, HalfDone, Clear;
    if n in upserts {
      PutsFit(a.model, a.id, a.payload, k, marker, s2.writers[n]);
      WholeNotHalf(s2.writers[n], k, marker);
    }
    var w := s2.writers[n];
    assert s2 == s.(writers := s.writers + [w]);
    hide Next, InOrder, Protected;
    SameProtected(s, s2, k, marker);
    AddedSteady(s, w, k, marker, upserts);
    hide Steady;
    SteadyInOrder(s, s2, k, marker, upserts, begun);
  }

  lemma AddedSteady(s: State, w: Writer, k: Key, marker: Key, upserts: set<nat>)
    requires |s.writers| in upserts ==> !HalfDone(w, k, marker)
    ensures Steady(s, s.(writers := s.writers + [w]), k, marker, upserts)
  {
    hide HalfDone;
  }

  lemma SameProtected(s: State, s2: State, k: Key, marker: Key)
    requires s2.t == s.t && s2.now == s.now
    ensures Protected(s2, k, marker) == Protected(s, k, marker)
  {
  }

  lemma WholeNotHalf(w: Writer, k: Key, marker: Key)
    ensures Whole(w, k, marker) || Clear(w, k, marker) ==> !HalfDone(w, k, marker)
  {
    if Whole(w, k, marker) {
      assert w.todo[0] in w.todo;
    }
  }

  lemma ListStep(grant: string, s: State, a: Action, k: Key, marker: Key, lifetimes: set<int>, upserts: set<nat>,
      begun: bool)
    requires Enabled(s, grant, a) && a.List? && Reaching(s, k, marker, lifetimes, upserts, begun)
    requires k.PayloadKey? && marker == GrantKey(grant, k.model, k.id)
    requires forall i :: i in upserts && i < |s.writers| ==> Clear(s.writers[i], k, marker)
    ensures Reaching(Next(s, a), k, marker, lifetimes, upserts, begun)
  {
    DeletionsNames(a.markers);
    if begun && Lives(s, k) {
      assert Protected(s, k, marker);
      assert Lives(s, marker);
      assert marker in a.markers;
    }
  }

  lemma ReachingStep(grant: string, model: string, id: string, lifetimes: set<int>, upserts: set<nat>, s: State,
      a: Action, begun: bool)
    requires OneLifetime(lifetimes) && Enabled(s, grant, a) && Allowed(grant, model, id, lifetimes, upserts, s, a)
    requires Reaching(s, PayloadKey(model, id), GrantKey(grant, model, id), lifetimes, upserts, begun)
    ensures Reaching(Next(s, a), PayloadKey(model, id), GrantKey(grant, model, id), lifetimes, upserts,
      begun || PutsKey(s, a, PayloadKey(model, id)))
  {
    var k, marker := PayloadKey(model, id), GrantKey(grant, model, id);
    hide Fits, InOrder, Whole, HalfDone, Clear, OneLifetime, AttrOf, Lists;
    if !s.sweep.Idle? {
      assert !PutsKey(s, a, k);
      if begun { DoomedStep(grant, s, a, k); }
      assert !Next(s, a).sweep.Idle?;
    } else if a.List? {
      ListStep(grant, s, a, k, marker, lifetimes, upserts, begun);
    } else if a.Start? {
      StartStep(s, a, k, marker, lifetimes, upserts, begun);
    } else if a.Write? && a.writer in upserts {
      UpsertWrite(s, a.writer, k, marker, lifetimes, upserts, begun);
      assert a == Write(a.writer);
    } else {
      OtherStep(grant, s, a, k, marker, lifetimes, upserts, begun);
    }
  }

  lemma ReachingStart(grant: string, model: string, id: string, lifetimes: set<int>, upserts: set<nat>,
      states: seq<State>, actions: seq<Action>)
    requires Overlapping(grant, model, id, lifetimes, upserts, states, actions)
    ensures var k, marker := PayloadKey(model, id), GrantKey(grant, model, id);
      Reaching(states[0], k, marker, lifetimes, upserts, Protected(states[0], k, marker))
  {
    var k, marker := PayloadKey(model, id), GrantKey(grant, model, id);
    forall i | i in upserts && i < |states[0].writers| ensures !HalfDone(states[0].writers[i], k, marker) {
      WholeNotHalf(states[0].writers[i], k, marker);
    }
  }

  lemma {:induction false} ReachingRun(grant: string, model: string, id: string, lifetimes: set<int>, upserts: set<nat>,
      states: seq<State>, actions: seq<Action>)
    requires OneLifetime(lifetimes) && Overlapping(grant, model, id, lifetimes, upserts, states, actions)
    ensures var k, marker := PayloadKey(model, id), GrantKey(grant, model, id);
      Reaching(states[|actions|], k, marker, lifetimes, upserts, Begun(k, marker, states, actions))
  {
    var k, marker := PayloadKey(model, id), GrantKey(grant, model, id);
    if actions == [] {
      ReachingStart(grant, model, id, lifetimes, upserts, states, actions);
    } else {
      var n := |actions| - 1;
      hide Reaching, Allowed, Enabled, Next, OneLifetime, Protected, PutsKey, Whole, Clear;
      ReachingRun(grant, model, id, lifetimes, upserts, states[..n + 1], actions[..n]);
      ReachingStep(grant, model, id, lifetimes, upserts, states[n], actions[n],
        Begun(k, marker, states[..n + 1], actions[..n]));
      assert Begun(k, marker, states, actions) <==>
        Begun(k, marker, states[..n + 1], actions[..n]) || PutsKey(states[n], actions[n], k);
    }
  }

  /**
    The artifact is absent when the sweep ends, after any number of upserts of it under the grant with one lifetime,
    however they overlap, when all are complete before the sweep lists and none writes again.
   */
  lemma SweepReaches(grant: string, model: string, id: string, lifetimes: set<int>, upserts: set<nat>,
      states: seq<State>, actions: seq<Action>)
    requires OneLifetime(lifetimes) && Overlapping(grant, model, id, lifetimes, upserts, states, actions)
    requires Begun(PayloadKey(model, id), GrantKey(grant, model, id), states, actions)
    requires states[|actions|].sweep.Finished?
    ensures !Lives(states[|actions|], PayloadKey(model, id))
  {
    ReachingRun(grant, model, id, lifetimes, upserts, states, actions);
  }
}
