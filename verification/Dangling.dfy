/**
  Index markers that outlive what they point at: which calls leave one behind, exactly. A marker dangles when it is
  live and the row it stands for is not.
 */
module Dangling {
  import opened Options
  import opened Keys
  import opened Storage
  import opened OidcSpec
  import opened OidcTable
  import opened OidcSimulation

  ghost predicate Dangles(w: World, s: Spec, k: Key) {
    k in w.t && Live(w.t[k], w.now) && Owner(s, k).Some? && Owner(s, k).value !in s.table
  }

  ghost predicate NoDangling(w: World, s: Spec) {
    forall k :: !Dangles(w, s, k)
  }

  /** The expiry each id was last written with by an upsert, whatever a consume has made of it since. */
  type Written = map<Ref, Option<int>>

  function WrittenStep(written: Written, s: Spec, op: Op): Written {
    if op.Upsert? then written[(op.model, op.id) := ExpiryOf(s.now, op.expiresIn)] else written
  }

  /** The markers of a live row expire when its last upsert said. */
  ghost predicate OnTime(w: World, s: Spec, written: Written) {
    forall k :: Owner(s, k).Some? && Owner(s, k).value in s.table ==>
      k in w.t && Owner(s, k).value in written && w.t[k].expiresAt == written[Owner(s, k).value]
  }

  /** The row is the last one written with its uid. */
  predicate HoldsUid(s: Spec, r: Ref)
    requires r in s.attrs
  {
    s.attrs[r].uid.Some? && (r.0, s.attrs[r].uid.value) in s.uidHolder &&
      s.uidHolder[(r.0, s.attrs[r].uid.value)] == r.1
  }

  predicate HoldsCode(s: Spec, r: Ref)
    requires r in s.attrs
  {
    && r.0 == "DeviceCode" && s.attrs[r].userCode.Some?
    && s.attrs[r].userCode.value in s.codeHolder && s.codeHolder[s.attrs[r].userCode.value] == r.1
  }

  predicate Lasts(expiresAt: Option<int>, until: int) {
    expiresAt.Some? ==> until <= expiresAt.value
  }

  /** Some marker stands for the row. */
  predicate Marked(s: Spec, r: Ref)
    requires r in s.attrs
  {
    s.attrs[r].grant.Some? || s.attrs[r].account.Some? || HoldsUid(s, r) || HoldsCode(s, r)
  }

  /** Some marker other than its grant's stands for the row. */
  predicate MarkedBesidesGrant(s: Spec, r: Ref)
    requires r in s.attrs
  {
    s.attrs[r].account.Some? || HoldsCode(s, r)
  }

  /** Some marker other than its account's stands for the row. */
  predicate MarkedBesidesAccount(s: Spec, r: Ref)
    requires r in s.attrs
  {
    s.attrs[r].grant.Some? || HoldsUid(s, r) || HoldsCode(s, r)
  }

  /** The rows a call takes away while a marker of theirs stays. */
  predicate Strands(s: Spec, written: Written, op: Op, r: Ref) {
    && r in s.table && r in s.attrs
    && match op
       case Destroy(model, id) => r == (model, id) && Marked(s, r)
       case RevokeGrant(grant) =>
         s.attrs[r].grant == Some(grant) && MarkedBesidesGrant(s, r)
       case RevokeAccount(model, account) =>
         r.0 == model && s.attrs[r].account == Some(account) && MarkedBesidesAccount(s, r)
       case Tick(ms) =>
         && Marked(s, r) && r in written
         && !Lasts(s.table[r].expiresAt, s.now + ms) && Lasts(written[r], s.now + ms)
       case _ => false
  }

  /** The markers that stand for a row, by the fields it was last written with. */
  lemma OwnerExactly(s: Spec, r: Ref, k: Key)
    requires HoldersGood(s) && r in s.attrs
    ensures Owner(s, k) == Some(r) <==>
      || (s.attrs[r].grant.Some? && k == GrantKey(s.attrs[r].grant.value, r.0, r.1))
      || (s.attrs[r].account.Some? && k == AccountKey(s.attrs[r].account.value, r.0, r.1))
      || (HoldsUid(s, r) && k == UidKey(r.0, s.attrs[r].uid.value))
      || (HoldsCode(s, r) && k == UserCodeKey(s.attrs[r].userCode.value))
  {
  }

  lemma MarkedExactly(s: Spec, r: Ref)
    requires HoldersGood(s) && r in s.attrs
    ensures Marked(s, r) <==> exists k :: Owner(s, k) == Some(r)
  {
    hide Owner, HoldersGood, HoldsUid, HoldsCode;
    if s.attrs[r].grant.Some? {
      OwnerExactly(s, r, GrantKey(s.attrs[r].grant.value, r.0, r.1));
    } else if s.attrs[r].account.Some? {
      OwnerExactly(s, r, AccountKey(s.attrs[r].account.value, r.0, r.1));
    } else if HoldsUid(s, r) {
      UidAttr(s, r);
      OwnerExactly(s, r, UidKey(r.0, s.attrs[r].uid.value));
    } else if HoldsCode(s, r) {
      CodeAttr(s, r);
      OwnerExactly(s, r, UserCodeKey(s.attrs[r].userCode.value));
    } else if k :| Owner(s, k) == Some(r) {
      OwnerExactly(s, r, k);
    }
  }

  lemma UidAttr(s: Spec, r: Ref)
    requires r in s.attrs && HoldsUid(s, r)
    ensures s.attrs[r].uid.Some?
  {
  }

  lemma CodeAttr(s: Spec, r: Ref)
    requires r in s.attrs && HoldsCode(s, r)
    ensures s.attrs[r].userCode.Some?
  {
  }

  /** A live row's markers are live with it. */
  lemma MarkerLive(w: World, s: Spec, k: Key)
    requires Inv(w, s) && Owner(s, k).Some? && Owner(s, k).value in s.table
    ensures k in w.t && Live(w.t[k], w.now) && !k.PayloadKey?
  {
    hide TableOf, HoldersGood, Current;
    RowStored(w.t, w.now, Owner(s, k).value);
  }

  /** A call that changes no row's markers strands nothing. */
  lemma UpsertStrands(w: World, s: Spec, written: Written, op: Op)
    requires op.Upsert? && Inv(w, s) && OpOk(s, op) && OnTime(w, s, written) && NoDangling(w, s)
    ensures var w2, s2 := Step(w, op), SpecStep(s, op);
      OnTime(w2, s2, WrittenStep(written, s, op)) && NoDangling(w2, s2)
  {
    hide TableOf, IndexSound, IndexComplete, HoldersGood, Current, Owner, Writes, AttrOf, Upserted, GoodWrite, Steady;
    var w2, s2 := Step(w, op), SpecStep(s, op);
    UpsertShape(w.t, w.now, op.model, op.id, op.payload, op.expiresIn);
    forall k: Key
      ensures Owner(s2, k).Some? && Owner(s2, k).value in s2.table ==>
        var written2 := WrittenStep(written, s, op);
        k in w2.t && Owner(s2, k).value in written2 && w2.t[k].expiresAt == written2[Owner(s2, k).value]
      ensures !Dangles(w2, s2, k)
    {
      UpsertOwner(s, op, k);
      PayloadOwner(s2);
      assert !Dangles(w, s, k);
    }
  }

  /** What is common to the calls that only take away. */
  lemma ShrinkOnTime(w: World, s: Spec, written: Written, op: Op)
    requires !op.Upsert? && Inv(w, s) && OpOk(s, op) && OnTime(w, s, written)
    ensures var w2, s2 := Step(w, op), SpecStep(s, op);
      && OnTime(w2, s2, written)
      && (forall k :: Owner(s2, k) == Owner(s, k))
      && s2.table.Keys <= s.table.Keys
  {
    hide TableOf, Current, HoldersGood, IndexSound, IndexComplete, Owner, OpOk, Step, SpecStep, Live;
    InvStep(w, s, op);
    TakesAway(w, op);
    SpecShrinks(s, op);
    PayloadOwner(s);
    StillThere(Step(w, op), SpecStep(s, op));
  }

  /** A live row's markers are in the store. */
  lemma StillThere(w: World, s: Spec)
    requires Inv(w, s)
    ensures forall k :: Owner(s, k).Some? && Owner(s, k).value in s.table ==> k in w.t
  {
    hide Owner, TableOf, Current, HoldersGood, IndexSound;
    forall k | Owner(s, k).Some? && Owner(s, k).value in s.table ensures k in w.t {
      assert Covered(w.t, k, s.table[Owner(s, k).value]);
    }
  }

  lemma SpecShrinks(s: Spec, op: Op)
    requires !op.Upsert?
    ensures var s2 := SpecStep(s, op); s2.table.Keys <= s.table.Keys && forall k :: Owner(s2, k) == Owner(s, k)
  {
    hide AttrOf;
    SameOwners(s, SpecStep(s, op));
  }

  /** Calls other than an upsert write nothing but, for a consume, the payload it had found. */
  lemma TakesAway(w: World, op: Op)
    requires !op.Upsert?
    ensures forall k :: k in Step(w, op).t ==> k in w.t && (k.PayloadKey? || Step(w, op).t[k] == w.t[k])
    ensures op.Consume? ==> forall k :: k in w.t && !k.PayloadKey? ==> k in Step(w, op).t
  {
  }

  lemma DanglesThen(w: World, s: Spec, k: Key)
    requires NoDangling(w, s) && k in w.t && Live(w.t[k], w.now) && Owner(s, k).Some?
    ensures Owner(s, k).value in s.table
  {
    assert !Dangles(w, s, k);
  }

  lemma DestroyStrands(w: World, s: Spec, written: Written, op: Op)
    requires op.Destroy? && Inv(w, s) && OpOk(s, op) && OnTime(w, s, written) && NoDangling(w, s)
    ensures NoDangling(Step(w, op), SpecStep(s, op)) <==> !Strands(s, written, op, (op.model, op.id))
  {
    ShrinkOnTime(w, s, written, op);
    var r, w2, s2 := (op.model, op.id), Step(w, op), SpecStep(s, op);
    StrandsDestroy(s, written, op);
    assert s2.table == s.table - {r} && w2.t == w.t - {PayloadKey(op.model, op.id)} && w2.now == w.now;
    assert HoldersGood(s) && (r in s.table ==> r in s.attrs);
    hide Inv, Step, SpecStep, Owner, HoldersGood, Marked, Strands, OnTime, OpOk;
    if r in s.table {
      MarkedExactly(s, r);
    }
    if k :| Owner(s, k) == Some(r) && r in s.table {
      MarkerLive(w, s, k);
      assert Dangles(w2, s2, k);
    } else {
      forall k ensures !Dangles(w2, s2, k) {
        assert !Dangles(w, s, k);
      }
    }
  }

  lemma StrandsDestroy(s: Spec, written: Written, op: Op)
    requires op.Destroy?
    ensures var r := (op.model, op.id);
      Strands(s, written, op, r) <==> r in s.table && r in s.attrs && Marked(s, r)
  {
  }

  /** After a sweep, what dangles is a marker it left of a row it took. */
  lemma SweepDangles(w: World, s: Spec, written: Written, op: Op, markers: set<Key>)
    requires (op.RevokeGrant? || op.RevokeAccount?) && Inv(w, s) && OpOk(s, op) && OnTime(w, s, written) &&
      NoDangling(w, s)
    requires Step(w, op).t == Revoked(w.t, markers)
    ensures forall k :: Dangles(Step(w, op), SpecStep(s, op), k) <==>
      k !in markers && Owner(s, k).Some? && Owner(s, k).value in s.table && Owner(s, k).value !in SpecStep(s, op).table
  {
    ShrinkOnTime(w, s, written, op);
    var w2, s2 := Step(w, op), SpecStep(s, op);
    NamedAt(markers);
    assert w2.now == w.now;
    hide Step, SpecStep, Named;
    forall k
      ensures Dangles(w2, s2, k) <==>
        k !in markers && Owner(s, k).Some? && Owner(s, k).value in s.table && Owner(s, k).value !in s2.table
    {
      if Owner(s, k).Some? && Owner(s, k).value in s.table {
        MarkerLive(w, s, k);
      }
      assert !Dangles(w, s, k);
      PayloadOwner(s);
    }
  }

  /** The rows a sweep takes, by the fields they were last written with. */
  lemma SweptRows(s: Spec, op: Op)
    requires Current(s)
    ensures forall r :: r in s.table ==> r in s.attrs
    ensures op.RevokeGrant? ==>
      forall r :: r in s.table ==> (r !in SpecStep(s, op).table <==> s.attrs[r].grant == Some(op.grant))
    ensures op.RevokeAccount? ==>
      forall r :: r in s.table ==>
        (r !in SpecStep(s, op).table <==> r.0 == op.model && s.attrs[r].account == Some(op.account))
  {
    hide AttrOf;
  }

  lemma BesidesGrant(s: Spec, r: Ref)
    requires HoldersGood(s) && r in s.attrs && s.attrs[r].uid.None?
    ensures MarkedBesidesGrant(s, r) <==> exists k :: Owner(s, k) == Some(r) && !k.GrantKey?
  {
    hide Owner, HoldersGood, HoldsCode;
    if s.attrs[r].account.Some? {
      OwnerExactly(s, r, AccountKey(s.attrs[r].account.value, r.0, r.1));
    } else if HoldsCode(s, r) {
      CodeAttr(s, r);
      OwnerExactly(s, r, UserCodeKey(s.attrs[r].userCode.value));
    } else if k :| Owner(s, k) == Some(r) && !k.GrantKey? {
      OwnerExactly(s, r, k);
    }
  }

  lemma BesidesAccount(s: Spec, r: Ref)
    requires HoldersGood(s) && r in s.attrs
    ensures MarkedBesidesAccount(s, r) <==> exists k :: Owner(s, k) == Some(r) && !k.AccountKey?
  {
    hide Owner, HoldersGood, HoldsUid, HoldsCode;
    if s.attrs[r].grant.Some? {
      OwnerExactly(s, r, GrantKey(s.attrs[r].grant.value, r.0, r.1));
    } else if HoldsUid(s, r) {
      UidAttr(s, r);
      OwnerExactly(s, r, UidKey(r.0, s.attrs[r].uid.value));
    } else if HoldsCode(s, r) {
      CodeAttr(s, r);
      OwnerExactly(s, r, UserCodeKey(s.attrs[r].userCode.value));
    } else if k :| Owner(s, k) == Some(r) && !k.AccountKey? {
      OwnerExactly(s, r, k);
    }
  }

  /** A grant or account marker of a row is the one the row was written with. */
  lemma OwnMarker(s: Spec, k: Key)
    requires Owner(s, k).Some?
    ensures k.GrantKey? ==> Owner(s, k).value in s.attrs && s.attrs[Owner(s, k).value].grant == Some(k.grant)
    ensures k.AccountKey? ==>
      Owner(s, k).value == (k.model, k.id) && (k.model, k.id) in s.attrs &&
        s.attrs[Owner(s, k).value].account == Some(k.account)
  {
  }

  lemma GrantStrands(w: World, s: Spec, written: Written, op: Op)
    requires op.RevokeGrant? && Inv(w, s) && OpOk(s, op) && OnTime(w, s, written) && NoDangling(w, s)
    ensures NoDangling(Step(w, op), SpecStep(s, op)) <==> forall r :: !Strands(s, written, op, r)
  {
    var w2, s2 := Step(w, op), SpecStep(s, op);
    SweepDangles(w, s, written, op, GrantMarkers(w.t, op.grant));
    NoUidUnderGrant(s);
    SweptRows(s, op);
    hide Inv, Step, SpecStep, Dangles, Owner, HoldsCode, Strands, MarkedBesidesGrant;
    if r :| Strands(s, written, op, r) {
      StrandsIn(s, written, op, r);
      StrandsGrant(s, written, op, r);
      BesidesGrant(s, r);
      var k :| Owner(s, k) == Some(r) && !k.GrantKey?;
      assert Dangles(w2, s2, k);
    } else if k :| Dangles(w2, s2, k) {
      var r := Owner(s, k).value;
      DanglesIn(w2, s2, k);
      GrantKept(w, op, k);
      OwnMarker(s, k);
      BesidesGrant(s, r);
      StrandsGrant(s, written, op, r);
    }
  }

  lemma StrandsGrant(s: Spec, written: Written, op: Op, r: Ref)
    requires op.RevokeGrant? && r in s.attrs
    ensures Strands(s, written, op, r) <==>
      r in s.table && s.attrs[r].grant == Some(op.grant) && MarkedBesidesGrant(s, r)
  {
  }

  lemma StrandsAccount(s: Spec, written: Written, op: Op, r: Ref)
    requires op.RevokeAccount? && r in s.attrs
    ensures Strands(s, written, op, r) <==>
      r in s.table && r.0 == op.model && s.attrs[r].account == Some(op.account) && MarkedBesidesAccount(s, r)
  {
  }

  lemma StrandsIn(s: Spec, written: Written, op: Op, r: Ref)
    requires Strands(s, written, op, r)
    ensures r in s.attrs
  {
  }

  lemma DanglesIn(w: World, s: Spec, k: Key)
    requires Dangles(w, s, k)
    ensures k in w.t && Owner(s, k).Some?
  {
  }

  lemma GrantKept(w: World, op: Op, k: Key)
    requires op.RevokeGrant? && k in Step(w, op).t
    ensures k in w.t && !(k.GrantKey? && k.grant == op.grant)
  {
  }

  /** A model whose payloads carry grants is not looked up by uid. */
  lemma NoUidUnderGrant(s: Spec)
    requires Current(s)
    ensures forall r :: r in s.table ==> r in s.attrs && (s.attrs[r].grant.Some? ==> s.attrs[r].uid.None?)
  {
  }

  lemma AccountStrands(w: World, s: Spec, written: Written, op: Op)
    requires op.RevokeAccount? && Inv(w, s) && OpOk(s, op) && OnTime(w, s, written) && NoDangling(w, s)
    ensures NoDangling(Step(w, op), SpecStep(s, op)) <==> forall r :: !Strands(s, written, op, r)
  {
    var w2, s2 := Step(w, op), SpecStep(s, op);
    SweepDangles(w, s, written, op, AccountMarkers(w.t, op.model, op.account));
    SweptRows(s, op);
    hide Inv, Step, SpecStep, Dangles, Owner, HoldsUid, HoldsCode, Strands, MarkedBesidesAccount;
    if r :| Strands(s, written, op, r) {
      StrandsIn(s, written, op, r);
      StrandsAccount(s, written, op, r);
      BesidesAccount(s, r);
      var k :| Owner(s, k) == Some(r) && !k.AccountKey?;
      assert Dangles(w2, s2, k);
    } else if k :| Dangles(w2, s2, k) {
      var r := Owner(s, k).value;
      DanglesIn(w2, s2, k);
      AccountKept(w, op, k);
      OwnMarker(s, k);
      BesidesAccount(s, r);
      StrandsAccount(s, written, op, r);
    }
  }

  lemma AccountKept(w: World, op: Op, k: Key)
    requires op.RevokeAccount? && k in Step(w, op).t
    ensures k in w.t && !(k.AccountKey? && k.model == op.model && k.account == op.account)
  {
  }

  lemma TickStrands(w: World, s: Spec, written: Written, op: Op)
    requires op.Tick? && Inv(w, s) && OpOk(s, op) && OnTime(w, s, written) && NoDangling(w, s)
    ensures NoDangling(Step(w, op), SpecStep(s, op)) <==> forall r :: !Strands(s, written, op, r)
  {
    ShrinkOnTime(w, s, written, op);
    var w2, s2, until := Step(w, op), SpecStep(s, op), s.now + op.ms;
    assert w2.t == w.t && w2.now == until && w.now == s.now;
    assert forall r :: r in s2.table <==> r in s.table && Lasts(s.table[r].expiresAt, until);
    assert HoldersGood(s) && forall r :: r in s.table ==> r in s.attrs;
    hide Inv, Step, SpecStep, Owner, HoldersGood, Marked, OpOk;
    if r :| Strands(s, written, op, r) {
      MarkedExactly(s, r);
      var k :| Owner(s, k) == Some(r);
      assert w.t[k].expiresAt == written[r];
      assert Dangles(w2, s2, k);
    } else if k :| Dangles(w2, s2, k) {
      var r := Owner(s, k).value;
      DanglesThen(w, s, k);
      MarkedExactly(s, r);
      assert Strands(s, written, op, r);
    }
  }

  lemma SameRows(s: Spec, op: Op)
    requires op.Consume? || ReadOnly(op)
    ensures SpecStep(s, op).table.Keys == s.table.Keys
  {
  }

  /** Consuming, looking up, and removing what has expired strand nothing. */
  lemma QuietStrands(w: World, s: Spec, written: Written, op: Op)
    requires (op.Consume? || ReadOnly(op)) && Inv(w, s) && OpOk(s, op) && OnTime(w, s, written) && NoDangling(w, s)
    ensures NoDangling(Step(w, op), SpecStep(s, op))
  {
    ShrinkOnTime(w, s, written, op);
    TakesAway(w, op);
    PayloadOwner(s);
    var w2, s2 := Step(w, op), SpecStep(s, op);
    SameRows(s, op);
    assert w2.now == w.now;
    hide Inv, Owner, Step, SpecStep, OpOk, OnTime;
    forall k ensures !Dangles(w2, s2, k) {
      assert !Dangles(w, s, k);
    }
  }

  /**
    When the index outlives what it points at, exactly. A step from a state without a dangling marker leaves one if
    and only if it destroys a live row that has a marker, sweeps a grant's or an account's row that also has a marker
    of another kind, or moves the clock past a row's expiry that a consume had rounded down below its marker's.
   */
  lemma DanglingStep(w: World, s: Spec, written: Written, op: Op)
    requires Inv(w, s) && OpOk(s, op) && OnTime(w, s, written) && NoDangling(w, s)
    ensures OnTime(Step(w, op), SpecStep(s, op), WrittenStep(written, s, op))
    ensures NoDangling(Step(w, op), SpecStep(s, op)) <==> forall r :: !Strands(s, written, op, r)
  {
    hide Inv, OpOk, OnTime, NoDangling, Step, SpecStep;
    if !op.Upsert? {
      ShrinkOnTime(w, s, written, op);
    }
    match op
    case Upsert(_, _, _, _) => UpsertStrands(w, s, written, op);
    case Destroy(model, id) =>
      DestroyStrands(w, s, written, op);
      assert forall r :: Strands(s, written, op, r) ==> r == (model, id);
    case RevokeGrant(_) => GrantStrands(w, s, written, op);
    case RevokeAccount(_, _) => AccountStrands(w, s, written, op);
    case Tick(_) => TickStrands(w, s, written, op);
    case _ => QuietStrands(w, s, written, op);
  }

  ghost function WrittenRun(s: Spec, ops: seq<Op>): Written {
    if ops == [] then map[]
    else WrittenStep(WrittenRun(s, ops[..|ops| - 1]), SpecRun(s, ops[..|ops| - 1]), ops[|ops| - 1])
  }

  /** No step of the run strands a marker. */
  ghost predicate NeverStrands(s: Spec, ops: seq<Op>) {
    forall i, r :: 0 <= i < |ops| ==> !Strands(SpecRun(s, ops[..i]), WrittenRun(s, ops[..i]), ops[i], r)
  }

  lemma {:induction false} OnTimeRun(now: int, ops: seq<Op>)
    requires RunOk(START.(now := now), ops) && NeverStrands(START.(now := now), ops)
    ensures var w, s := Run(World(map[], now), ops), SpecRun(START.(now := now), ops);
      OnTime(w, s, WrittenRun(START.(now := now), ops)) && NoDangling(w, s)
  {
    hide Strands, OpOk, Step, SpecStep, WrittenStep;
    var start := START.(now := now);
    if ops == [] {
    } else {
      var n := |ops| - 1;
      forall i | 0 <= i < n ensures OpOk(SpecRun(start, ops[..n][..i]), ops[..n][i]) {
        assert ops[..n][..i] == ops[..i];
      }
      forall i, r | 0 <= i < n
        ensures !Strands(SpecRun(start, ops[..n][..i]), WrittenRun(start, ops[..n][..i]), ops[..n][i], r)
      {
        assert ops[..n][..i] == ops[..i];
      }
      OnTimeRun(now, ops[..n]);
      Simulation(now, ops[..n]);
      hide Inv, OnTime, NoDangling;
      DanglingStep(Run(World(map[], now), ops[..n]), SpecRun(start, ops[..n]), WrittenRun(start, ops[..n]), ops[n]);
    }
  }

  ghost predicate DanglesNowhere(now: int, ops: seq<Op>) {
    var start := START.(now := now);
    forall n :: 0 <= n <= |ops| ==> NoDangling(Run(World(map[], now), ops[..n]), SpecRun(start, ops[..n]))
  }

  /** Over runs, exactly: no marker dangles at any time if and only if no step strands one. */
  lemma DanglesExactly(now: int, ops: seq<Op>)
    requires RunOk(START.(now := now), ops)
    ensures DanglesNowhere(now, ops) <==> NeverStrands(START.(now := now), ops)
  {
    hide Strands, OpOk, Step, SpecStep, WrittenStep, NoDangling, OnTime, Inv;
    var start := START.(now := now);
    if NeverStrands(start, ops) {
      forall n | 0 <= n <= |ops| ensures NoDangling(Run(World(map[], now), ops[..n]), SpecRun(start, ops[..n])) {
        RunPrefix(start, ops, n);
        OnTimeRun(now, ops[..n]);
      }
    } else {
      var i := FirstStrand(start, ops, |ops|);
      RunPrefix(start, ops, i);
      OnTimeRun(now, ops[..i]);
      Simulation(now, ops[..i]);
      assert OpOk(SpecRun(start, ops[..i]), ops[i]);
      DanglingStep(Run(World(map[], now), ops[..i]), SpecRun(start, ops[..i]), WrittenRun(start, ops[..i]), ops[i]);
      assert ops[..i + 1][..i] == ops[..i];
      assert !NoDangling(Run(World(map[], now), ops[..i + 1]), SpecRun(start, ops[..i + 1]));
    }
  }

  lemma RunPrefix(start: Spec, ops: seq<Op>, n: nat)
    requires RunOk(start, ops) && n <= |ops|
    ensures RunOk(start, ops[..n])
    ensures NeverStrands(start, ops) ==> NeverStrands(start, ops[..n])
    ensures (forall i, r :: 0 <= i < n ==>
      !Strands(SpecRun(start, ops[..i]), WrittenRun(start, ops[..i]), ops[i], r)) ==>
      NeverStrands(start, ops[..n])
  {
    hide Strands, OpOk, SpecRun, WrittenRun;
    assert forall i :: 0 <= i <= n ==> ops[..n][..i] == ops[..i];
  }

  /** The first step that strands a marker. */
  lemma FirstStrand(start: Spec, ops: seq<Op>, n: nat) returns (i: nat)
    requires n <= |ops|
    requires exists j, r :: 0 <= j < n && Strands(SpecRun(start, ops[..j]), WrittenRun(start, ops[..j]), ops[j], r)
    ensures i < n && exists r :: Strands(SpecRun(start, ops[..i]), WrittenRun(start, ops[..i]), ops[i], r)
    ensures forall j, r :: 0 <= j < i ==> !Strands(SpecRun(start, ops[..j]), WrittenRun(start, ops[..j]), ops[j], r)
  {
    hide Strands, SpecRun, WrittenRun;
    if j, r :| 0 <= j < n - 1 && Strands(SpecRun(start, ops[..j]), WrittenRun(start, ops[..j]), ops[j], r) {
      i := FirstStrand(start, ops, n - 1);
    } else {
      i := n - 1;
    }
  }

  /**
    And such a state is reached: destroying any artifact written with a grant leaves its marker, live, without a row.
   */
  lemma DestroyedLeavesMarker(model: string, id: string, p: Payload, now: int, expiresIn: int)
    requires GoodWrite(model, id, p) && Grantable(model) && Truthy(p.grantId)
    ensures var ops := [Upsert(model, id, p, expiresIn), Destroy(model, id)];
      && RunOk(START.(now := now), ops)
      && Dangles(Run(World(map[], now), ops), SpecRun(START.(now := now), ops), GrantKey(p.grantId.value, model, id))
  {
    var start, first, second := START.(now := now), Upsert(model, id, p, expiresIn), Destroy(model, id);
    var ops := [first, second];
    var k, a := GrantKey(p.grantId.value, model, id), AttrOf(model, p);
    assert a.grant == p.grantId;
    assert ops[..0] == [] && ops[..1] == [first] && [first][..0] == [];
    assert GoodModel(model) && GoodId(model, id);
    hide GoodWrite, GoodModel, GoodId, AttrOf;
    var w1, s1 := Step(World(map[], now), first), SpecStep(start, first);
    UpsertedAt(map[], now, model, id, p, expiresIn, k);
    assert SpecRun(start, [first]) == s1 && SpecRun(start, ops) == SpecStep(s1, second);
    assert Run(World(map[], now), [first]) == w1 && Run(World(map[], now), ops) == Step(w1, second);
    assert OpOk(start, first) && OpOk(s1, second);
    hide Upserted;
    assert Owner(s1, k) == Some((model, id));
  }
}
