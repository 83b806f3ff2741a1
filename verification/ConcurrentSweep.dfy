/**
  A grant sweep running beside upserts, with each storage call one atomic step and steps of
  different callers interleaved in any order, the clock moving and expired keys disappearing in between.
 */
module ConcurrentSweep {
  import opened Options
  import opened Keys
  import opened Storage
  import opened OidcSpec

  /** One storage write an upsert still has to make. */
  datatype Put = Put(key: Key, value: Value)

  /** An upsert in progress: its remaining writes and the lifetime they all use. */
  datatype Writer = Writer(todo: seq<Put>, expiresIn: int)

  datatype Sweep = Idle | Deleting(doomed: seq<Key>) | Finished

  datatype State = State(t: Typed, now: int, writers: seq<Writer>, sweep: Sweep)

  datatype Action =
    | Start(model: string, id: string, payload: Payload, expiresIn: int)
    | Write(writer: nat)
    | List(markers: seq<Key>)
    | Delete
    | Pass(ms: nat)
    | Expire(keys: set<Key>)

  function PutWhen(cond: bool, key: Key, value: Value): seq<Put> {
    if cond then [Put(key, value)] else []
  }

  /** The writes of one upsert, in order. */
  function Puts(model: string, id: string, p: Payload): seq<Put> {
    var a := AttrOf(model, p);
    [Put(PayloadKey(model, id), Json(p))]
    + PutWhen(a.uid.Some?, UidKey(model, OrEmpty(a.uid)), Text(id))
    + PutWhen(a.userCode.Some?, UserCodeKey(OrEmpty(a.userCode)), Text(id))
    + PutWhen(a.grant.Some?, GrantKey(OrEmpty(a.grant), model, id), Text("1"))
    + PutWhen(a.account.Some?, AccountKey(OrEmpty(a.account), model, id), Text("1"))
  }

  function WriteAll(t: Typed, puts: seq<Put>, expiresAt: Option<int>): Typed {
    if puts == [] then t
    else
      var last := |puts| - 1;
      WriteAll(t, puts[..last], expiresAt)[puts[last].key := Entry(puts[last].value, expiresAt)]
  }

  lemma WriteWhen(t: Typed, puts: seq<Put>, cond: bool, key: Key, value: Value, expiresAt: Option<int>)
    ensures WriteAll(t, puts + PutWhen(cond, key, value), expiresAt)
      == PutIf(WriteAll(t, puts, expiresAt), cond, key, Entry(value, expiresAt))
  {
    var all := puts + PutWhen(cond, key, value);
    if cond {
      assert all[..|all| - 1] == puts;
    } else {
      assert all == puts;
    }
  }

  /** Made without a break, the writes come to the upsert. */
  lemma PutsUpsert(t: Typed, now: int, model: string, id: string, p: Payload, expiresIn: int)
    ensures WriteAll(t, Puts(model, id, p), ExpiryOf(now, expiresIn)) == Upserted(t, now, model, id, p, expiresIn)
  {
    hide AttrOf, PutWhen;
    var a, exp := AttrOf(model, p), ExpiryOf(now, expiresIn);
    var puts := [Put(PayloadKey(model, id), Json(p))];
    assert puts[..0] == [];
    WriteWhen(t, puts, a.uid.Some?, UidKey(model, OrEmpty(a.uid)), Text(id), exp);
    puts := puts + PutWhen(a.uid.Some?, UidKey(model, OrEmpty(a.uid)), Text(id));
    WriteWhen(t, puts, a.userCode.Some?, UserCodeKey(OrEmpty(a.userCode)), Text(id), exp);
    puts := puts + PutWhen(a.userCode.Some?, UserCodeKey(OrEmpty(a.userCode)), Text(id));
    WriteWhen(t, puts, a.grant.Some?, GrantKey(OrEmpty(a.grant), model, id), Text("1"), exp);
    puts := puts + PutWhen(a.grant.Some?, GrantKey(OrEmpty(a.grant), model, id), Text("1"));
    WriteWhen(t, puts, a.account.Some?, AccountKey(OrEmpty(a.account), model, id), Text("1"), exp);
  }

  /** The deletions of a sweep, in order: for each marker the payload it names, then the marker. */
  function Deletions(markers: seq<Key>): seq<Key> {
    if markers == [] then []
    else if Marker(markers[0]) then [PayloadKey(markers[0].model, markers[0].id), markers[0]] + Deletions(markers[1..])
    else Deletions(markers[1..])
  }

  /** A listing of the grant's markers: every live one, and no key that is not stored. */
  ghost predicate Lists(s: State, grant: string, markers: seq<Key>) {
    && (forall k :: k in markers ==> k in s.t && k.GrantKey? && k.grant == grant)
    && (forall k :: k in s.t && k.GrantKey? && k.grant == grant && Live(s.t[k], s.now) ==> k in markers)
  }

  ghost predicate Enabled(s: State, grant: string, a: Action) {
    match a
    case Start(_, _, _, _) => true
    case Write(i) => i < |s.writers| && s.writers[i].todo != []
    case List(markers) => s.sweep.Idle? && Lists(s, grant, markers)
    case Delete => s.sweep.Deleting?
    case Pass(_) => true
    case Expire(keys) => forall k :: k in keys && k in s.t ==> !Live(s.t[k], s.now)
  }

  function Next(s: State, a: Action): State
    requires a.Write? ==> a.writer < |s.writers| && s.writers[a.writer].todo != []
    requires a.Delete? ==> s.sweep.Deleting?
  {
    match a
    case Start(model, id, p, expiresIn) => s.(writers := s.writers + [Writer(Puts(model, id, p), expiresIn)])
    case Write(i) =>
      var w := s.writers[i];
      s.(t := s.t[w.todo[0].key := Entry(w.todo[0].value, ExpiryOf(s.now, w.expiresIn))],
         writers := s.writers[i := w.(todo := w.todo[1..])])
    case List(markers) => s.(sweep := Deleting(Deletions(markers)))
    case Delete =>
      if s.sweep.doomed == [] then s.(sweep := Finished)
      else s.(t := s.t - {s.sweep.doomed[0]}, sweep := Deleting(s.sweep.doomed[1..]))
    case Pass(ms) => s.(now := s.now + ms)
    case Expire(keys) => s.(t := s.t - keys)
  }

  /** The rest of a sweep, without a break. */
  function SweptOn(s: State): State
    requires s.sweep.Deleting?
    decreases |s.sweep.doomed|
  {
    if s.sweep.doomed == [] then Next(s, Delete) else SweptOn(Next(s, Delete))
  }

  function AllOf(keys: seq<Key>): set<Key> {
    set k | k in keys
  }

  lemma {:induction false} SweptOnTakes(s: State)
    requires s.sweep.Deleting?
    ensures SweptOn(s) == s.(t := s.t - AllOf(s.sweep.doomed), sweep := Finished)
    decreases |s.sweep.doomed|
  {
    var doomed := s.sweep.doomed;
    if doomed != [] {
      SweptOnTakes(Next(s, Delete));
      assert doomed == [doomed[0]] + doomed[1..];
    }
  }

  lemma {:induction false} DeletionsSet(markers: seq<Key>)
    requires forall k :: k in markers ==> Marker(k)
    ensures AllOf(Deletions(markers)) == AllOf(markers) + Named(AllOf(markers))
  {
    if markers == [] {
    } else {
      DeletionsSet(markers[1..]);
      var first, rest := markers[0], AllOf(markers[1..]);
      assert markers == [first] + markers[1..];
      assert AllOf(markers) == {first} + rest;
      assert Named({first} + rest) == {PayloadKey(first.model, first.id)} + Named(rest);
      assert AllOf(Deletions(markers)) == {PayloadKey(first.model, first.id), first} + AllOf(Deletions(markers[1..]));
    }
  }

  /** Made without a break, a sweep that lists all the grant's markers comes to the revocation. */
  lemma SweepAlone(s: State, grant: string, markers: seq<Key>)
    requires forall k :: k in markers <==> k in GrantMarkers(s.t, grant)
    ensures SweptOn(Next(s, List(markers))) == s.(t := GrantRevoked(s.t, grant), sweep := Finished)
  {
    SweptOnTakes(Next(s, List(markers)));
    DeletionsSet(markers);
    hide SweptOn, Named, Deletions;
    assert AllOf(markers) == GrantMarkers(s.t, grant);
  }

  /** A run: each state follows from the one before by an enabled action. */
  ghost predicate IsRun(grant: string, states: seq<State>, actions: seq<Action>) {
    && |states| == |actions| + 1
    && forall i :: 0 <= i < |actions| ==>
      Enabled(states[i], grant, actions[i]) && states[i + 1] == Next(states[i], actions[i])
  }

  /** The action writes this key. */
  predicate PutsKey(s: State, a: Action, k: Key) {
    a.Write? && a.writer < |s.writers| && s.writers[a.writer].todo != [] && s.writers[a.writer].todo[0].key == k
  }

  /** Nobody writes this key during the run. */
  ghost predicate Unwritten(states: seq<State>, actions: seq<Action>, k: Key)
    requires |states| == |actions| + 1
  {
    forall i :: 0 <= i < |actions| ==> !PutsKey(states[i], actions[i], k)
  }

  predicate Lives(s: State, k: Key) {
    k in s.t && Live(s.t[k], s.now)
  }

  /** A live payload the sweep has yet to delete, or none. */
  ghost predicate Doomed(s: State, k: Key) {
    s.sweep.Deleting? && (Lives(s, k) ==> k in s.sweep.doomed)
  }

  ghost predicate Gone(s: State, k: Key) {
    s.sweep.Finished? && !Lives(s, k)
  }

  lemma {:induction false} DeletionsNames(markers: seq<Key>)
    ensures forall k :: k in markers && Marker(k) ==> PayloadKey(k.model, k.id) in Deletions(markers)
    ensures forall k: Key :: k.PayloadKey? && k in Deletions(markers) ==>
      exists m :: m in markers && Marker(m) && m.model == k.model && m.id == k.id
    ensures forall k: Key :: !k.PayloadKey? && k in Deletions(markers) ==> k in markers
  {
    if markers != [] {
      DeletionsNames(markers[1..]);
      assert markers == [markers[0]] + markers[1..];
    }
  }

  lemma DoomedStep(grant: string, s: State, a: Action, k: Key)
    requires Enabled(s, grant, a) && !PutsKey(s, a, k)
    requires Doomed(s, k) || Gone(s, k)
    ensures Doomed(Next(s, a), k) || Gone(Next(s, a), k)
  {
  }

  /** Once doomed, a payload nobody writes again stays doomed until it is gone. */
  lemma {:induction false} DoomedUntilGone(grant: string, states: seq<State>, actions: seq<Action>, k: Key)
    requires IsRun(grant, states, actions) && Unwritten(states, actions, k)
    requires Doomed(states[0], k) || Gone(states[0], k)
    ensures Doomed(states[|actions|], k) || Gone(states[|actions|], k)
  {
    if actions != [] {
      var n := |actions| - 1;
      DoomedUntilGone(grant, states[..n + 1], actions[..n], k);
      DoomedStep(grant, states[n], actions[n], k);
    }
  }

  /** Spared: the sweep will not touch this payload. */
  ghost predicate Spared(s: State, k: Key) {
    s.sweep.Finished? || (s.sweep.Deleting? && k !in s.sweep.doomed)
  }

  /** A spared payload nobody writes again changes only by expiring. */
  lemma {:induction false} SparedUntilEnd(grant: string, states: seq<State>, actions: seq<Action>, k: Key)
    requires IsRun(grant, states, actions) && Unwritten(states, actions, k)
    requires Spared(states[0], k)
    ensures var n := |actions|;
      && Spared(states[n], k) && states[0].now <= states[n].now
      && (k in states[n].t ==> k in states[0].t && states[n].t[k] == states[0].t[k])
      && (k in states[0].t && Live(states[0].t[k], states[n].now) ==> k in states[n].t)
  {
    if actions != [] {
      var n := |actions| - 1;
      SparedUntilEnd(grant, states[..n + 1], actions[..n], k);
      assert Enabled(states[n], grant, actions[n]) && !PutsKey(states[n], actions[n], k);
    }
  }

  /**
    What a sweep does to an artifact nobody writes while it runs, exactly: it is gone at the end if its
    marker was listed, and otherwise lives on until it expires.
   */
  lemma SweepExact(grant: string, states: seq<State>, actions: seq<Action>, model: string, id: string)
    requires IsRun(grant, states, actions) && actions != [] && actions[0].List?
    requires Unwritten(states, actions, PayloadKey(model, id))
    requires states[|actions|].sweep.Finished?
    ensures var k, end := PayloadKey(model, id), states[|actions|];
      Lives(end, k) <==>
        && GrantKey(grant, model, id) !in actions[0].markers
        && k in states[0].t && Live(states[0].t[k], end.now)
  {
    var k, markers := PayloadKey(model, id), actions[0].markers;
    assert Enabled(states[0], grant, actions[0]) && states[1] == Next(states[0], actions[0]);
    DeletionsNames(markers);
    if GrantKey(grant, model, id) in markers {
      DoomedUntilGone(grant, states[1..], actions[1..], k);
    } else {
      assert forall m :: m in markers && Marker(m) && m.model == model && m.id == id ==>
        m == GrantKey(grant, model, id);
      SparedUntilEnd(grant, states[1..], actions[1..], k);
    }
  }

  /** The expiry of a write no later than now with this lifetime. */
  predicate Within(expiresAt: Option<int>, now: int, expiresIn: int) {
    if expiresIn > 0 then expiresAt.Some? && expiresAt.value <= now + expiresIn * 1000 else expiresAt.None?
  }

  /** The payload, if live, has a live marker that outlasts it. */
  ghost predicate Protected(s: State, k: Key, marker: Key) {
    Lives(s, k) ==>
      && marker in s.t
      && (s.t[marker].expiresAt.Some? ==>
        s.t[k].expiresAt.Some? && s.t[k].expiresAt.value <= s.t[marker].expiresAt.value)
  }

  lemma PutsShape(model: string, id: string, p: Payload)
    requires AttrOf(model, p).grant.Some?
    ensures var puts, marker := Puts(model, id, p), GrantKey(AttrOf(model, p).grant.value, model, id);
      && puts != [] && puts[0].key == PayloadKey(model, id)
      && (forall put :: put in puts[1..] ==> put.key != PayloadKey(model, id))
      && (exists put :: put in puts[1..] && put.key == marker)
  {
    var a := AttrOf(model, p);
    var puts, marker := Puts(model, id, p), Put(GrantKey(a.grant.value, model, id), Text("1"));
    hide AttrOf;
    assert marker in puts && marker != puts[0];
    assert puts == [puts[0]] + puts[1..];
    assert marker in puts[1..];
  }

  /** A sweep that is not about to delete an artifact without a marker does not, and does not come to be. */
  lemma SparedStep(grant: string, s: State, a: Action, model: string, id: string)
    requires Enabled(s, grant, a) && !PutsKey(s, a, GrantKey(grant, model, id)) && GrantKey(grant, model, id) !in s.t
    requires s.sweep.Deleting? ==> PayloadKey(model, id) !in s.sweep.doomed
    ensures var s2, k := Next(s, a), PayloadKey(model, id);
      && GrantKey(grant, model, id) !in s2.t && (s2.sweep.Deleting? ==> k !in s2.sweep.doomed)
      && (a.Delete? ==> (k in s2.t <==> k in s.t) && (k in s.t ==> s2.t[k] == s.t[k]))
  {
    hide Deletions;
    if a.List? {
      DeletionsNames(a.markers);
      assert forall m :: m in a.markers && Marker(m) && m.model == model && m.id == id ==>
        m == GrantKey(grant, model, id);
    }
  }

  /** No deletion of the sweep touches an artifact that was never written under the grant. */
  lemma {:induction false} SweepSpares(grant: string, states: seq<State>, actions: seq<Action>, model: string,
      id: string)
    requires IsRun(grant, states, actions) && states[0].sweep.Idle?
    requires GrantKey(grant, model, id) !in states[0].t && Unwritten(states, actions, GrantKey(grant, model, id))
    ensures var s, k := states[|actions|], PayloadKey(model, id);
      && GrantKey(grant, model, id) !in s.t && (s.sweep.Deleting? ==> k !in s.sweep.doomed)
    ensures forall j :: 0 <= j < |actions| && actions[j].Delete? ==>
      var k := PayloadKey(model, id);
      && (k in states[j + 1].t <==> k in states[j].t)
      && (k in states[j].t ==> states[j + 1].t[k] == states[j].t[k])
  {
    if actions != [] {
      var n, k, marker := |actions| - 1, PayloadKey(model, id), GrantKey(grant, model, id);
      SweepSpares(grant, states[..n + 1], actions[..n], model, id);
      assert Enabled(states[n], grant, actions[n]) && states[n + 1] == Next(states[n], actions[n]);
      assert !PutsKey(states[n], actions[n], marker);
      hide Next, Enabled, PutsKey, IsRun, Unwritten;
      SparedStep(grant, states[n], actions[n], model, id);
      forall j | 0 <= j < n && actions[j].Delete?
        ensures (k in states[j + 1].t <==> k in states[j].t) &&
          (k in states[j].t ==> states[j + 1].t[k] == states[j].t[k])
      {
        assert actions[..n][j].Delete?;
      }
    }
  }
}
