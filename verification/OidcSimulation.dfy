/** Every adapter call keeps the simulation, so every run does. */
module OidcSimulation {
  import opened Options
  import opened Keys
  import opened Storage
  import opened OidcSpec
  import opened OidcTable

  predicate IsRow(t: Typed, now: int, r: Ref) {
    var k := PayloadKey(r.0, r.1);
    k in t && t[k].value.Json? && Live(t[k], now)
  }

  lemma TableAt(t: Typed, now: int)
    ensures forall r :: r in TableOf(t, now) <==> IsRow(t, now, r)
    ensures forall r :: r in TableOf(t, now) ==>
      TableOf(t, now)[r] == Row(t[PayloadKey(r.0, r.1)].value.payload, t[PayloadKey(r.0, r.1)].expiresAt)
  {
    forall r | IsRow(t, now, r) ensures r in TableOf(t, now) {
      var k := PayloadKey(r.0, r.1);
      assert (k.model, k.id) == r;
    }
  }

  /** The table is fixed by its rows. */
  lemma TableIs(t: Typed, now: int, table: Table)
    requires forall r :: r in table <==> IsRow(t, now, r)
    requires forall r :: r in table && IsRow(t, now, r) ==>
      table[r] == Row(t[PayloadKey(r.0, r.1)].value.payload, t[PayloadKey(r.0, r.1)].expiresAt)
    ensures TableOf(t, now) == table
  {
    TableAt(t, now);
  }

  /** The keys an upsert writes. */
  predicate Writes(model: string, id: string, a: Attr, k: Key) {
    match k
    case PayloadKey(m, i) => m == model && i == id
    case UidKey(m, uid) => m == model && a.uid == Some(uid)
    case UserCodeKey(code) => a.userCode == Some(code)
    case GrantKey(g, m, i) => m == model && i == id && a.grant == Some(g)
    case AccountKey(c, m, i) => m == model && i == id && a.account == Some(c)
    case LimitKey(_, _) => false
  }

  lemma UpsertedAt(t: Typed, now: int, model: string, id: string, p: Payload, expiresIn: int, k: Key)
    ensures var t2, a := Upserted(t, now, model, id, p, expiresIn), AttrOf(model, p);
      && (k in t2 <==> k in t || Writes(model, id, a, k))
      && (Writes(model, id, a, k) ==>
            && t2[k].expiresAt == ExpiryOf(now, expiresIn)
            && (k.PayloadKey? ==> t2[k].value == Json(p))
            && (k.UidKey? || k.UserCodeKey? ==> t2[k].value == Text(id)))
      && (k in t && !Writes(model, id, a, k) ==> t2[k] == t[k])
  {
    hide AttrOf;
  }

  ghost predicate IsUpserted(t: Typed, t2: Typed, now: int, model: string, id: string, p: Payload, expiresIn: int) {
    var a := AttrOf(model, p);
    && (forall k :: k in t2 <==> k in t || Writes(model, id, a, k))
    && (forall k :: k in t2 && Writes(model, id, a, k) ==>
            && t2[k].expiresAt == ExpiryOf(now, expiresIn)
            && (k.PayloadKey? ==> t2[k].value == Json(p))
            && (k.UidKey? || k.UserCodeKey? ==> t2[k].value == Text(id)))
    && (forall k :: k in t2 && !Writes(model, id, a, k) ==> t2[k] == t[k])
  }

  lemma UpsertShape(t: Typed, now: int, model: string, id: string, p: Payload, expiresIn: int)
    ensures IsUpserted(t, Upserted(t, now, model, id, p, expiresIn), now, model, id, p, expiresIn)
  {
    hide AttrOf, Upserted, Writes;
    forall k: Key {
      UpsertedAt(t, now, model, id, p, expiresIn, k);
    }
  }

  lemma UpsertTable(t: Typed, t2: Typed, now: int, model: string, id: string, p: Payload, expiresIn: int)
    requires IsUpserted(t, t2, now, model, id, p, expiresIn)
    ensures TableOf(t2, now) == TableOf(t, now)[(model, id) := Row(p, ExpiryOf(now, expiresIn))]
  {
    hide AttrOf;
    TableAt(t, now);
    var table := TableOf(t, now)[(model, id) := Row(p, ExpiryOf(now, expiresIn))];
    forall r: Ref ensures r in table <==> IsRow(t2, now, r) {
      assert PayloadKey(r.0, r.1) in t2 <==> PayloadKey(r.0, r.1) in t || r == (model, id);
    }
    TableIs(t2, now, table);
  }

  /** After an upsert the markers it wrote stand for its row, and every other marker stands for what it did. */
  lemma UpsertOwner(s: Spec, op: Op, k: Key)
    requires op.Upsert? && OpOk(s, op) && HoldersGood(s)
    ensures var w := Writes(op.model, op.id, AttrOf(op.model, op.payload), k);
      && (w && !k.PayloadKey? ==> Owner(SpecStep(s, op), k) == Some((op.model, op.id)))
      && (!w ==> Owner(SpecStep(s, op), k) == Owner(s, k) != Some((op.model, op.id)))
  {
    assert AttrOf(op.model, op.payload).userCode.Some? ==> op.model == "DeviceCode";
    hide AttrOf;
  }

  lemma UpsertIndex(t: Typed, t2: Typed, s: Spec, op: Op)
    requires op.Upsert? && OpOk(s, op) && HoldersGood(s)
    requires IsUpserted(t, t2, s.now, op.model, op.id, op.payload, op.expiresIn)
    requires IndexSound(t, s) && IndexComplete(t, s)
    ensures IndexSound(t2, SpecStep(s, op)) && IndexComplete(t2, SpecStep(s, op))
  {
    hide AttrOf, Owner, Writes;
    forall k: Key {
      UpsertOwner(s, op, k);
    }
    PayloadOwner(s);
    PayloadOwner(SpecStep(s, op));
  }

  lemma PayloadOwner(s: Spec)
    ensures forall k: Key :: k.PayloadKey? || k.LimitKey? ==> Owner(s, k) == None
  {
  }

  lemma UpsertHolders(s: Spec, op: Op)
    requires op.Upsert? && OpOk(s, op) && HoldersGood(s)
    ensures HoldersGood(SpecStep(s, op))
  {
    var a, s2 := AttrOf(op.model, op.payload), SpecStep(s, op);
    assert op.id != "" && (a.userCode.Some? ==> op.model == "DeviceCode");
    hide AttrOf, GoodWrite;
    forall h | h in s2.uidHolder
      ensures var r := (h.0, s2.uidHolder[h]); r.1 != "" && r in s2.attrs && s2.attrs[r].uid == Some(h.1)
    {
    }
    forall c | c in s2.codeHolder
      ensures var r := ("DeviceCode", s2.codeHolder[c]);
        r.1 != "" && r in s2.attrs && s2.attrs[r].userCode == Some(c)
    {
    }
  }

  lemma InvUpsert(w: World, s: Spec, op: Op)
    requires op.Upsert? && Inv(w, s) && OpOk(s, op)
    ensures Inv(Step(w, op), SpecStep(s, op))
  {
    hide AttrOf, GoodWrite, Upserted, TableOf, IsUpserted, IndexSound, IndexComplete, HoldersGood;
    var t2 := Upserted(w.t, w.now, op.model, op.id, op.payload, op.expiresIn);
    UpsertShape(w.t, w.now, op.model, op.id, op.payload, op.expiresIn);
    UpsertTable(w.t, t2, w.now, op.model, op.id, op.payload, op.expiresIn);
    UpsertIndex(w.t, t2, s, op);
    UpsertHolders(s, op);
  }

  /**
    A step that only takes away: entries, rows, or both. It keeps the index when every
    marker it takes stands for a row that is gone.
   */
  lemma ShrinkIndex(t: Typed, t2: Typed, s: Spec, s2: Spec)
    requires s2.attrs == s.attrs && s2.uidHolder == s.uidHolder && s2.codeHolder == s.codeHolder
    requires forall k :: k in t2 ==> k in t && t2[k] == t[k]
    requires forall r :: r in s2.table ==> r in s.table && s2.table[r] == s.table[r]
    requires forall k :: k in t && k !in t2 && Owner(s, k).Some? ==> Owner(s, k).value !in s2.table
    requires Current(s) && HoldersGood(s) && IndexSound(t, s) && IndexComplete(t, s)
    ensures Current(s2) && HoldersGood(s2) && IndexSound(t2, s2) && IndexComplete(t2, s2)
  {
    assert forall k :: Owner(s2, k) == Owner(s, k);
    hide Owner;
  }

  /** Rows of a store that lost entries but changed none. */
  lemma ShrinkTable(t: Typed, t2: Typed, now: int, now2: int, table: Table)
    requires now <= now2
    requires forall k :: k in t2 ==> k in t && t2[k] == t[k]
    requires forall r :: r in table ==> r in TableOf(t, now) && table[r] == TableOf(t, now)[r]
    requires forall r :: r in TableOf(t, now) ==>
      (r in table <==> PayloadKey(r.0, r.1) in t2 && Live(t2[PayloadKey(r.0, r.1)], now2))
    ensures TableOf(t2, now2) == table
  {
    TableAt(t, now);
    TableIs(t2, now2, table);
  }

  /** Where a live row is stored. */
  lemma RowStored(t: Typed, now: int, r: Ref)
    requires r in TableOf(t, now)
    ensures var k := PayloadKey(r.0, r.1);
      k in t && Live(t[k], now) && t[k] == Entry(Json(TableOf(t, now)[r].payload), TableOf(t, now)[r].expiresAt)
  {
    TableAt(t, now);
  }

  lemma InvDestroy(w: World, s: Spec, op: Op)
    requires op.Destroy? && Inv(w, s)
    ensures Inv(Step(w, op), SpecStep(s, op))
  {
    hide TableOf, Current, HoldersGood, IndexSound, IndexComplete, AttrOf;
    var w2, s2 := Step(w, op), SpecStep(s, op);
    forall r | r in s.table
      ensures r in s2.table <==> PayloadKey(r.0, r.1) in w2.t && Live(w2.t[PayloadKey(r.0, r.1)], w2.now)
    {
      RowStored(w.t, w.now, r);
    }
    ShrinkTable(w.t, w2.t, w.now, w2.now, s2.table);
    ShrinkIndex(w.t, w2.t, s, s2);
  }

  lemma InvTick(w: World, s: Spec, op: Op)
    requires op.Tick? && Inv(w, s)
    ensures Inv(Step(w, op), SpecStep(s, op))
  {
    hide TableOf, Current, HoldersGood, IndexSound, IndexComplete, AttrOf;
    var w2, s2 := Step(w, op), SpecStep(s, op);
    forall r | r in s.table
      ensures r in s2.table <==> PayloadKey(r.0, r.1) in w2.t && Live(w2.t[PayloadKey(r.0, r.1)], w2.now)
    {
      RowStored(w.t, w.now, r);
    }
    ShrinkTable(w.t, w2.t, w.now, w2.now, s2.table);
    ShrinkIndex(w.t, w2.t, s, s2);
  }

  lemma ReadOnlyStep(w: World, op: Op)
    requires ReadOnly(op)
    ensures OnlyExpiredGone(w.t, Step(w, op).t, w.now) && Step(w, op).now == w.now
    ensures forall s: Spec :: SpecStep(s, op) == s
  {
    hide AsId, ReadKey;
  }

  /** Losing expired entries is not seen in the table, and takes no marker of a live row. */
  lemma InvExpired(w: World, t2: Typed, s: Spec)
    requires Inv(w, s) && OnlyExpiredGone(w.t, t2, w.now)
    ensures Inv(w.(t := t2), s)
  {
    hide TableOf, Current, HoldersGood, IndexSound, AttrOf, Owner;
    forall r | r in s.table ensures PayloadKey(r.0, r.1) in t2 && Live(t2[PayloadKey(r.0, r.1)], w.now) {
      RowStored(w.t, w.now, r);
    }
    ShrinkTable(w.t, t2, w.now, w.now, s.table);
    forall k | k in w.t && k !in t2 && Owner(s, k).Some? ensures Owner(s, k).value !in s.table {
      assert !Live(w.t[k], w.now);
      if Owner(s, k).value in s.table {
        RowStored(w.t, w.now, Owner(s, k).value);
      }
    }
    ShrinkIndex(w.t, t2, s, s);
  }

  /** Lookups and clean-ups leave the table as it was. */
  lemma InvReadOnly(w: World, s: Spec, op: Op)
    requires ReadOnly(op) && Inv(w, s)
    ensures Inv(Step(w, op), SpecStep(s, op)) && SpecStep(s, op) == s
  {
    hide Inv, Step, SpecStep, OnlyExpiredGone;
    ReadOnlyStep(w, op);
    InvExpired(w, Step(w, op).t, s);
    assert w.(t := Step(w, op).t) == Step(w, op);
  }

  /** The payloads a set of markers names. */
  lemma NamedAt(markers: set<Key>)
    ensures forall k: Key :: k in Named(markers) ==> k.PayloadKey?
    ensures forall k :: k in markers && Marker(k) ==> PayloadKey(k.model, k.id) in Named(markers)
    ensures forall r: Ref :: PayloadKey(r.0, r.1) in Named(markers) ==>
      exists k :: k in markers && Marker(k) && k.model == r.0 && k.id == r.1
  {
  }

  /** Under the index, a grant's markers name exactly the live rows written under that grant. */
  lemma GrantMarkersName(w: World, s: Spec, grant: string, r: Ref)
    requires Inv(w, s) && r in s.table
    ensures PayloadKey(r.0, r.1) in Named(GrantMarkers(w.t, grant)) <==>
      AttrOf(r.0, s.table[r].payload).grant == Some(grant)
  {
    hide TableOf, AttrOf, HoldersGood;
    NamedAt(GrantMarkers(w.t, grant));
    assert s.attrs[r] == AttrOf(r.0, s.table[r].payload);
    var k := GrantKey(grant, r.0, r.1);
    if s.attrs[r].grant == Some(grant) {
      assert Owner(s, k) == Some(r);
      assert k in GrantMarkers(w.t, grant);
    }
  }

  lemma AccountMarkersName(w: World, s: Spec, model: string, account: string, r: Ref)
    requires Inv(w, s) && r in s.table
    ensures PayloadKey(r.0, r.1) in Named(AccountMarkers(w.t, model, account))
      <==> r.0 == model && AttrOf(r.0, s.table[r].payload).account == Some(account)
  {
    hide TableOf, AttrOf, HoldersGood;
    NamedAt(AccountMarkers(w.t, model, account));
    assert s.attrs[r] == AttrOf(r.0, s.table[r].payload);
    var k := AccountKey(account, r.0, r.1);
    if r.0 == model && s.attrs[r].account == Some(account) {
      assert Owner(s, k) == Some(r);
      assert k in AccountMarkers(w.t, model, account);
    }
  }

  lemma InvRevokeGrant(w: World, s: Spec, op: Op)
    requires op.RevokeGrant? && Inv(w, s)
    ensures Inv(Step(w, op), SpecStep(s, op))
  {
    hide TableOf, HoldersGood, IndexSound, IndexComplete, AttrOf, Named;
    var w2, s2 := Step(w, op), SpecStep(s, op);
    NamedAt(GrantMarkers(w.t, op.grant));
    forall r | r in s.table
      ensures r in s2.table <==> PayloadKey(r.0, r.1) in w2.t && Live(w2.t[PayloadKey(r.0, r.1)], w2.now)
    {
      RowStored(w.t, w.now, r);
      GrantMarkersName(w, s, op.grant, r);
    }
    ShrinkTable(w.t, w2.t, w.now, w2.now, s2.table);
    ShrinkIndex(w.t, w2.t, s, s2);
  }

  lemma InvRevokeAccount(w: World, s: Spec, op: Op)
    requires op.RevokeAccount? && Inv(w, s)
    ensures Inv(Step(w, op), SpecStep(s, op))
  {
    hide TableOf, HoldersGood, IndexSound, IndexComplete, AttrOf, Named;
    var w2, s2 := Step(w, op), SpecStep(s, op);
    NamedAt(AccountMarkers(w.t, op.model, op.account));
    forall r | r in s.table
      ensures r in s2.table <==> PayloadKey(r.0, r.1) in w2.t && Live(w2.t[PayloadKey(r.0, r.1)], w2.now)
    {
      RowStored(w.t, w.now, r);
      AccountMarkersName(w, s, op.model, op.account, r);
    }
    ShrinkTable(w.t, w2.t, w.now, w2.now, s2.table);
    ShrinkIndex(w.t, w2.t, s, s2);
  }

  /** Consuming an id with no live artifact changes nothing that can be seen. */
  lemma ConsumeAbsent(w: World, s: Spec, op: Op)
    requires op.Consume? && Inv(w, s) && (op.model, op.id) !in s.table
    ensures Inv(Step(w, op), SpecStep(s, op))
  {
    hide TableOf, HoldersGood, IndexSound, IndexComplete, AttrOf;
    var w2, k := Step(w, op), PayloadKey(op.model, op.id);
    assert Found(w.t, w.now, op.model, op.id).None? by {
      TableAt(w.t, w.now);
      assert !IsRow(w.t, w.now, (op.model, op.id));
    }
    assert w2.t == Touched(w.t, w.now, k);
    forall r | r in s.table ensures PayloadKey(r.0, r.1) in w2.t && Live(w2.t[PayloadKey(r.0, r.1)], w2.now) {
      RowStored(w.t, w.now, r);
    }
    ShrinkTable(w.t, w2.t, w.now, w2.now, s.table);
    ShrinkIndex(w.t, w2.t, s, s);
  }

  /** Rewriting one live payload rewrites its row. */
  lemma PutRow(t: Typed, now: int, r: Ref, row: Row)
    requires row.expiresAt.Some? ==> now <= row.expiresAt.value
    ensures TableOf(t[PayloadKey(r.0, r.1) := Entry(Json(row.payload), row.expiresAt)], now)
      == TableOf(t, now)[r := row]
  {
    TableAt(t, now);
    hide TableOf;
    var t2 := t[PayloadKey(r.0, r.1) := Entry(Json(row.payload), row.expiresAt)];
    forall q: Ref ensures q in TableOf(t, now)[r := row] <==> IsRow(t2, now, q) {
      assert PayloadKey(q.0, q.1) == PayloadKey(r.0, r.1) <==> q == r;
    }
    TableIs(t2, now, TableOf(t, now)[r := row]);
  }

  lemma ConsumeTable(w: World, s: Spec, op: Op)
    requires op.Consume? && Inv(w, s) && (op.model, op.id) in s.table
    ensures TableOf(Step(w, op).t, w.now) == SpecStep(s, op).table
    ensures Step(w, op).t.Keys == w.t.Keys
    ensures forall k :: k in w.t && k != PayloadKey(op.model, op.id) ==> Step(w, op).t[k] == w.t[k]
  {
    hide HoldersGood, IndexSound, IndexComplete, AttrOf, TableOf;
    var r, k := (op.model, op.id), PayloadKey(op.model, op.id);
    RowStored(w.t, w.now, r);
    PutRow(w.t, w.now, r, SpecStep(s, op).table[r]);
    assert Spent(w.t[k], w.now) == Entry(Json(SpecStep(s, op).table[r].payload), SpecStep(s, op).table[r].expiresAt);
  }

  lemma ConsumeKeepsAttr(model: string, p: Payload, c: Option<int>)
    ensures AttrOf(model, p.(consumed := c)) == AttrOf(model, p)
  {
  }

  /** Every marker still covers a spent row, unless the row turned permanent while a marker stands for it. */
  lemma ConsumeIndex(t: Typed, t2: Typed, s: Spec, op: Op)
    requires op.Consume? && (op.model, op.id) in s.table
    requires t2.Keys == t.Keys && forall k :: k in t && k != PayloadKey(op.model, op.id) ==> t2[k] == t[k]
    requires IndexComplete(t, s)
    ensures IndexComplete(t2, SpecStep(s, op)) <==> ConsumeOk(s, (op.model, op.id))
  {
    var r, s2 := (op.model, op.id), SpecStep(s, op);
    PayloadOwner(s);
    assert forall k :: Owner(s2, k) == Owner(s, k);
    hide Owner;
    if ConsumeOk(s, r) {
      forall k | Owner(s2, k).Some? && Owner(s2, k).value in s2.table
        ensures Covered(t2, k, s2.table[Owner(s2, k).value])
      {
        assert Covered(t, k, s.table[Owner(s, k).value]);
      }
    } else {
      var k :| Owner(s, k) == Some(r);
      assert Covered(t, k, s.table[r]);
      assert !Covered(t2, k, s2.table[r]);
    }
  }

  /**
    When consuming keeps the index, exactly. An artifact consumed with less than a second left is
    written back without an expiry; if some marker stands for it, that marker now expires first.
   */
  lemma ConsumeExact(w: World, s: Spec, op: Op)
    requires op.Consume? && Inv(w, s)
    ensures Inv(Step(w, op), SpecStep(s, op)) <==> ConsumeOk(s, (op.model, op.id))
  {
    hide TableOf, AttrOf, HoldersGood, IndexComplete, Owner;
    var r, w2, s2 := (op.model, op.id), Step(w, op), SpecStep(s, op);
    if r !in s.table {
      ConsumeAbsent(w, s, op);
    } else {
      ConsumeTable(w, s, op);
      ConsumeKeepsAttr(op.model, s.table[r].payload, Some(s.now / 1000));
      ConsumeIndex(w.t, w2.t, s, op);
      SameOwners(s, s2);
    }
  }

  lemma SameOwners(s: Spec, s2: Spec)
    requires s2.attrs == s.attrs && s2.uidHolder == s.uidHolder && s2.codeHolder == s.codeHolder
    ensures HoldersGood(s2) == HoldersGood(s)
    ensures forall k :: Owner(s2, k) == Owner(s, k)
  {
  }

  lemma InvStep(w: World, s: Spec, op: Op)
    requires Inv(w, s) && OpOk(s, op)
    ensures Inv(Step(w, op), SpecStep(s, op))
  {
    match op
    case Upsert(_, _, _, _) => InvUpsert(w, s, op);
    case Consume(_, _) => ConsumeExact(w, s, op);
    case Destroy(_, _) => InvDestroy(w, s, op);
    case RevokeGrant(_) => InvRevokeGrant(w, s, op);
    case RevokeAccount(_, _) => InvRevokeAccount(w, s, op);
    case Tick(_) => InvTick(w, s, op);
    case _ => InvReadOnly(w, s, op);
  }

  ghost const START: Spec := Spec(map[], 0, map[], map[], map[])

  lemma InvStart(now: int)
    ensures Inv(World(map[], now), START.(now := now))
  {
  }

  /**
    The simulation. Over any run of adapter calls, lookups among them, ticks and clean-ups from an empty store, the
    live payloads in the store are exactly the rows of the table, and the index stays sound and complete.
   */
  lemma {:induction false} Simulation(now: int, ops: seq<Op>)
    requires RunOk(START.(now := now), ops)
    ensures Inv(Run(World(map[], now), ops), SpecRun(START.(now := now), ops))
  {
    if ops == [] {
      InvStart(now);
    } else {
      var before := ops[..|ops| - 1];
      assert RunOk(START.(now := now), before) by {
        forall i | 0 <= i < |before| ensures OpOk(SpecRun(START.(now := now), before[..i]), before[i]) {
          assert before[..i] == ops[..i];
        }
      }
      Simulation(now, before);
      assert ops[..|ops| - 1] == before;
      InvStep(Run(World(map[], now), before), SpecRun(START.(now := now), before), ops[|ops| - 1]);
    }
  }
}
