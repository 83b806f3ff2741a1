/** What the simulation means for callers: the lookups, the sweeps, and the token that escapes one. */
module OidcLookups {
  import opened Options
  import opened Keys
  import opened Storage
  import opened OidcSpec
  import opened OidcTable
  import opened OidcSimulation

  ghost function Lookup(s: Spec, model: string, id: string): Option<Payload> {
    if (model, id) in s.table then Some(s.table[(model, id)].payload) else None
  }

  /** `find` answers with the table's row. */
  lemma FindIsLookup(w: World, s: Spec, model: string, id: string)
    requires Inv(w, s)
    ensures Found(w.t, w.now, model, id) == Lookup(s, model, id)
  {
    TableAt(w.t, w.now);
    hide TableOf, IndexComplete, IndexSound, HoldersGood, Current, AttrOf;
    assert (model, id) in s.table <==> IsRow(w.t, w.now, (model, id));
  }

  /** A lookup marker names its owner, and is live while the owner is. */
  lemma MarkerState(w: World, s: Spec, k: Key)
    requires Inv(w, s) && (k.UidKey? || k.UserCodeKey?)
    ensures k in w.t ==> Owner(s, k).Some? && w.t[k].value == Text(Owner(s, k).value.1)
    ensures Owner(s, k).Some? && Owner(s, k).value in s.table ==> k in w.t && Live(w.t[k], w.now)
  {
    hide TableOf, Owner, Current, HoldersGood;
    if Owner(s, k).Some? && Owner(s, k).value in s.table {
      RowStored(w.t, w.now, Owner(s, k).value);
    }
  }

  /** A lookup through a marker finds what the row it stands for holds, even after that row is gone. */
  lemma ViaMarker(w: World, s: Spec, k: Key)
    requires Inv(w, s) && (k.UidKey? || k.UserCodeKey?)
    ensures FoundVia(w.t, w.now, k, if k.UidKey? then k.model else "DeviceCode")
      == if Owner(s, k).Some? then Lookup(s, Owner(s, k).value.0, Owner(s, k).value.1) else None
  {
    MarkerState(w, s, k);
    OwnerGood(s, k);
    if Owner(s, k).Some? {
      FindIsLookup(w, s, Owner(s, k).value.0, Owner(s, k).value.1);
    }
    hide Inv, Owner, Found;
  }

  lemma OwnerGood(s: Spec, k: Key)
    requires HoldersGood(s) && (k.UidKey? || k.UserCodeKey?)
    ensures Owner(s, k).Some? ==>
      var r := Owner(s, k).value;
      && r.0 == (if k.UidKey? then k.model else "DeviceCode")
      && r.1 != "" && r in s.attrs
      && (k.UidKey? ==> s.attrs[r].uid == Some(k.uid))
      && (k.UserCodeKey? ==> s.attrs[r].userCode == Some(k.userCode))
  {
  }

  /** A found payload's indexed fields are the ones its id was last written with. */
  lemma LookupAttr(s: Spec, model: string, id: string)
    requires Current(s) && (model, id) in s.attrs
    ensures Lookup(s, model, id).Some? ==> AttrOf(model, Lookup(s, model, id).value) == s.attrs[(model, id)]
  {
  }

  /** What a marker lookup returns carries the value it was looked up by. */
  lemma ViaMarkerCarries(w: World, s: Spec, k: Key)
    requires Inv(w, s) && (k.UidKey? || k.UserCodeKey?)
    ensures var found := FoundVia(w.t, w.now, k, if k.UidKey? then k.model else "DeviceCode");
      found.Some? ==>
        && (k.UidKey? ==> found.value.uid == Some(k.uid))
        && (k.UserCodeKey? ==> found.value.userCode == Some(k.userCode))
  {
    ViaMarker(w, s, k);
    OwnerGood(s, k);
    hide TableOf, AttrOf, IndexComplete, IndexSound, FoundVia, Owner;
    if Owner(s, k).Some? {
      var r := Owner(s, k).value;
      LookupAttr(s, r.0, r.1);
      if Lookup(s, r.0, r.1).Some? {
        AttrExactly(r.0, Lookup(s, r.0, r.1).value, if k.UidKey? then k.uid else k.userCode);
      }
    }
  }

  /** The last id a run wrote with this uid. */
  ghost function LastWithUid(ops: seq<Op>, model: string, uid: string): Option<string> {
    if ops == [] then None
    else
      var op := ops[|ops| - 1];
      if op.Upsert? && op.model == model && model in {"Session", "Interaction"} && uid != "" &&
        op.payload.uid == Some(uid) then Some(op.id)
      else LastWithUid(ops[..|ops| - 1], model, uid)
  }

  lemma {:induction false} HolderIsLast(s: Spec, ops: seq<Op>, model: string, uid: string)
    requires s.uidHolder == map[]
    ensures var holders := SpecRun(s, ops).uidHolder;
      LastWithUid(ops, model, uid) == if (model, uid) in holders then Some(holders[(model, uid)]) else None
  {
    hide AttrOf;
    if ops != [] {
      var op := ops[|ops| - 1];
      if op.Upsert? {
        AttrExactly(op.model, op.payload, uid);
      }
      HolderIsLast(s, ops[..|ops| - 1], model, uid);
    }
  }

  /**
    In every reachable state `findByUid` answers as `find` would for the last id written with that
    uid, and whatever it returns carries the uid.
   */
  lemma {:induction false} FindByUidIsLast(now: int, ops: seq<Op>, model: string, uid: string)
    requires RunOk(START.(now := now), ops)
    ensures var w := Run(World(map[], now), ops);
      var found, last := FoundVia(w.t, w.now, UidKey(model, uid), model), LastWithUid(ops, model, uid);
      && found == (if last.Some? then Found(w.t, w.now, model, last.value) else None)
      && (found.Some? ==> found.value.uid == Some(uid))
  {
    var w, s := Run(World(map[], now), ops), SpecRun(START.(now := now), ops);
    hide Run, SpecRun, LastWithUid;
    Simulation(now, ops);
    HolderIsLast(START.(now := now), ops, model, uid);
    var k := UidKey(model, uid);
    ViaMarker(w, s, k);
    ViaMarkerCarries(w, s, k);
    hide Inv, FoundVia, Found;
    if (model, uid) in s.uidHolder {
      FindIsLookup(w, s, model, Owner(s, k).value.1);
    }
  }

  /** The last id a run wrote with this user code. */
  ghost function LastWithCode(ops: seq<Op>, userCode: string): Option<string> {
    if ops == [] then None
    else
      var op := ops[|ops| - 1];
      if op.Upsert? && op.model == "DeviceCode" && userCode != "" && op.payload.userCode == Some(userCode)
      then Some(op.id)
      else LastWithCode(ops[..|ops| - 1], userCode)
  }

  lemma {:induction false} CodeHolderIsLast(s: Spec, ops: seq<Op>, userCode: string)
    requires s.codeHolder == map[]
    ensures var holders := SpecRun(s, ops).codeHolder;
      LastWithCode(ops, userCode) == if userCode in holders then Some(holders[userCode]) else None
  {
    hide AttrOf;
    if ops != [] {
      var op := ops[|ops| - 1];
      if op.Upsert? {
        AttrExactly(op.model, op.payload, userCode);
      }
      CodeHolderIsLast(s, ops[..|ops| - 1], userCode);
    }
  }

  /** The same for device codes and the codes their users type. */
  lemma {:induction false} FindByUserCodeIsLast(now: int, ops: seq<Op>, userCode: string)
    requires RunOk(START.(now := now), ops)
    ensures var w := Run(World(map[], now), ops);
      var found, last := FoundVia(w.t, w.now, UserCodeKey(userCode), "DeviceCode"), LastWithCode(ops, userCode);
      && found == (if last.Some? then Found(w.t, w.now, "DeviceCode", last.value) else None)
      && (found.Some? ==> found.value.userCode == Some(userCode))
  {
    var w, s := Run(World(map[], now), ops), SpecRun(START.(now := now), ops);
    hide Run, SpecRun, LastWithCode;
    Simulation(now, ops);
    CodeHolderIsLast(START.(now := now), ops, userCode);
    var k := UserCodeKey(userCode);
    ViaMarker(w, s, k);
    ViaMarkerCarries(w, s, k);
    hide Inv, FoundVia, Found;
    if userCode in s.codeHolder {
      FindIsLookup(w, s, "DeviceCode", Owner(s, k).value.1);
    }
  }

  /**
    After a grant is revoked, in any run, no artifact found with its id in one of the five models that carry grants can
    be found, and all others can as before.
   */
  lemma {:induction false} RevokedGrantIsGone(now: int, ops: seq<Op>, grant: string, model: string, id: string)
    requires RunOk(START.(now := now), ops)
    ensures var w := Run(World(map[], now), ops);
      var before, after := Found(w.t, w.now, model, id), Found(Step(w, RevokeGrant(grant)).t, w.now, model, id);
      after == if before.Some? && grant != "" && before.value.grantId == Some(grant) && model in
        {"AccessToken", "AuthorizationCode", "RefreshToken", "DeviceCode", "BackchannelAuthenticationRequest"}
        then None else before
  {
    var w := Run(World(map[], now), ops);
    Simulation(now, ops);
    GoneOnce(w, SpecRun(START.(now := now), ops), grant, model, id);
    hide Run, SpecRun, RunOk, Found, Inv, Step;
    if Found(w.t, w.now, model, id).Some? {
      AttrExactly(model, Found(w.t, w.now, model, id).value, grant);
    }
  }

  lemma GoneOnce(w: World, s: Spec, grant: string, model: string, id: string)
    requires Inv(w, s)
    ensures var before, after := Found(w.t, w.now, model, id), Found(Step(w, RevokeGrant(grant)).t, w.now, model, id);
      after == if before.Some? && AttrOf(model, before.value).grant == Some(grant) then None else before
  {
    var w2, s2 := Step(w, RevokeGrant(grant)), SpecStep(s, RevokeGrant(grant));
    assert w2.now == w.now;
    hide *;
    InvRevokeGrant(w, s, RevokeGrant(grant));
    FindIsLookup(w, s, model, id);
    FindIsLookup(w2, s2, model, id);
    LookupRevoked(s, grant, model, id);
  }

  lemma LookupRevoked(s: Spec, grant: string, model: string, id: string)
    ensures var before, after := Lookup(s, model, id), Lookup(SpecStep(s, RevokeGrant(grant)), model, id);
      after == if before.Some? && AttrOf(model, before.value).grant == Some(grant) then None else before
  {
    hide AttrOf;
  }

  /**
    The run that `ConsumeExact` warns of, for every grant-bearing artifact with a lifetime: consumed in
    its last second it loses its expiry, its marker expires without it, and revoking the grant no longer
    reaches it.
   */
  lemma EscapesRevocation(model: string, id: string, p: Payload, now: int, expiresIn: int, wait: nat)
    requires Grantable(model) && Truthy(p.grantId) && expiresIn > 0 && 0 <= expiresIn * 1000 - wait < 1000
    ensures var marker := GrantKey(p.grantId.value, model, id);
      var w1 := Step(World(map[], now), Upsert(model, id, p, expiresIn));
      var w2 := Step(Step(w1, Tick(wait)), Consume(model, id));
      var w3 := Step(Step(w2, Tick(1000)), Purge({marker}));
      var w4 := Step(w3, RevokeGrant(p.grantId.value));
      forall later: nat :: var w5 := Step(w4, Tick(later));
        Found(w5.t, w5.now, model, id) == Some(p.(consumed := Some((now + wait) / 1000)))
  {
    var marker := GrantKey(p.grantId.value, model, id);
    var w1 := Step(World(map[], now), Upsert(model, id, p, expiresIn));
    FirstUpsert(model, id, p, now, expiresIn);
    hide AttrOf, Upserted;
    LastSecond(w1, model, id, p, marker, expiresIn, wait);
    var w2 := Step(Step(w1, Tick(wait)), Consume(model, id));
    assert w2.t[marker].expiresAt == Some(now + expiresIn * 1000);
    hide Step;
    MarkerGone(w2, model, id, p.(consumed := Some((now + wait) / 1000)), marker);
  }

  /** A permanent artifact whose only marker expires within a second: no sweep of its grant finds it from then on. */
  lemma MarkerGone(w2: World, model: string, id: string, p: Payload, marker: Key)
    requires marker.GrantKey? && marker in w2.t && w2.t[marker].expiresAt.Some? &&
      w2.t[marker].expiresAt.value < w2.now + 1000
    requires PayloadKey(model, id) in w2.t && w2.t[PayloadKey(model, id)] == Entry(Json(p), None)
    requires forall l :: l in w2.t && l.GrantKey? ==> l == marker
    ensures var w4 := Step(Step(Step(w2, Tick(1000)), Purge({marker})), RevokeGrant(marker.grant));
      forall later: nat :: var w5 := Step(w4, Tick(later)); Found(w5.t, w5.now, model, id) == Some(p)
  {
    hide GrantRevoked;
    var w3 := Step(Step(w2, Tick(1000)), Purge({marker}));
    assert w3.t == w2.t - {marker};
    SweepOfNothing(w3.t, marker.grant);
  }

  /** A consume in the last second of an artifact with one marker. */
  lemma LastSecond(w: World, model: string, id: string, p: Payload, marker: Key, expiresIn: int, wait: nat)
    requires 0 <= expiresIn * 1000 - wait < 1000
    requires var exp := Some(w.now + expiresIn * 1000);
      && PayloadKey(model, id) in w.t && w.t[PayloadKey(model, id)] == Entry(Json(p), exp)
      && marker.GrantKey? && marker in w.t && w.t[marker].expiresAt == exp
      && forall l :: l in w.t && l.GrantKey? ==> l == marker
    ensures var w2 := Step(Step(w, Tick(wait)), Consume(model, id));
      && w2.now == w.now + wait
      && PayloadKey(model, id) in w2.t
      && w2.t[PayloadKey(model, id)] == Entry(Json(p.(consumed := Some((w.now + wait) / 1000))), None)
      && marker in w2.t && w2.t[marker] == w.t[marker]
      && forall l :: l in w2.t && l.GrantKey? ==> l == marker
  {
  }

  /**
    What an upsert writes, key by key: the payload, and with its expiry a marker for each of the fields its model is
    indexed by, whenever that field is not empty. Every other entry stays as it was.
   */
  lemma UpsertWrites(t: Typed, now: int, model: string, id: string, p: Payload, expiresIn: int, k: Key)
    ensures var t2, exp := Upserted(t, now, model, id, p, expiresIn),
        if expiresIn > 0 then Some(now + expiresIn * 1000) else None;
      match k
      case PayloadKey(m, i) =>
        if m == model && i == id then k in t2 && t2[k] == Entry(Json(p), exp) else SameAt(t, t2, k)
      case UidKey(m, uid) =>
        if m == model && model in {"Session", "Interaction"} && uid != "" && p.uid == Some(uid)
        then k in t2 && t2[k] == Entry(Text(id), exp) else SameAt(t, t2, k)
      case UserCodeKey(code) =>
        if model == "DeviceCode" && code != "" && p.userCode == Some(code)
        then k in t2 && t2[k] == Entry(Text(id), exp) else SameAt(t, t2, k)
      case GrantKey(grant, m, i) =>
        if m == model && i == id && grant != "" && p.grantId == Some(grant) && model in
          {"AccessToken", "AuthorizationCode", "RefreshToken", "DeviceCode", "BackchannelAuthenticationRequest"}
        then k in t2 && t2[k] == Entry(Text("1"), exp) else SameAt(t, t2, k)
      case AccountKey(account, m, i) =>
        if m == model && i == id && account != "" && p.accountId == Some(account)
        then k in t2 && t2[k] == Entry(Text("1"), exp) else SameAt(t, t2, k)
      case LimitKey(_, _) => SameAt(t, t2, k)
  {
    var v := match k
      case UidKey(_, uid) => uid
      case UserCodeKey(code) => code
      case GrantKey(grant, _, _) => grant
      case AccountKey(account, _, _) => account
      case _ => "";
    AttrExactly(model, p, v);
    hide AttrOf;
  }

  ghost predicate SameAt(t: Typed, t2: Typed, k: Key) {
    (k in t2 <==> k in t) && (k in t ==> t2[k] == t[k])
  }

  lemma FirstUpsert(model: string, id: string, p: Payload, now: int, expiresIn: int)
    requires Grantable(model) && Truthy(p.grantId) && expiresIn > 0
    ensures var t := Upserted(map[], now, model, id, p, expiresIn);
      var marker, exp := GrantKey(p.grantId.value, model, id), Some(now + expiresIn * 1000);
      && PayloadKey(model, id) in t && t[PayloadKey(model, id)] == Entry(Json(p), exp)
      && marker in t && t[marker].expiresAt == exp
      && forall l :: l in t && l.GrantKey? ==> l == marker
  {
    UpsertShape(map[], now, model, id, p, expiresIn);
    var a := AttrOf(model, p);
    assert a.grant == p.grantId;
    hide AttrOf, Upserted;
    assert Writes(model, id, a, PayloadKey(model, id)) && Writes(model, id, a, GrantKey(p.grantId.value, model, id));
  }

  lemma SweepOfNothing(t: Typed, grant: string)
    requires forall k :: k in t && k.GrantKey? ==> k.grant != grant
    ensures GrantRevoked(t, grant) == t
  {
    assert GrantMarkers(t, grant) == {};
    assert Named({}) == {};
  }
}
