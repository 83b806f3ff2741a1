/** The storage adapter itself: one object per model over a shared store. */
module OidcAdapter {
  import opened Options
  import opened Text
  import opened Keys
  import opened Storage
  import opened OidcSpec
  import opened Sweeps
  import Glob

  /** A grant or account id that can be put in a sweep pattern: no separator and no wildcard. */
  ghost predicate SweepArg(s: string) {
    COLON !in s && Glob.Literal(s)
  }

  lemma SweepArgs(a: string, b: string)
    requires SweepArg(a) && SweepArg(b)
    ensures COLON !in a && Glob.Literal(a) && COLON !in b && Glob.Literal(b)
  {
  }

  /** The lookup markers of a model. */
  predicate LookupKey(model: string, k: Key) {
    (k.UidKey? && k.model == model && UidIndexed(model)) || (k.UserCodeKey? && model == "DeviceCode")
  }

  lemma LookupModel(model: string)
    requires UidIndexed(model) || model == "DeviceCode"
    ensures GoodModel(model)
  {
    if model == "Session" {
    } else if model == "Interaction" {
    } else {
      assert model == "DeviceCode";
    }
  }

  /** A lookup marker is a valid key, and the id it holds can be looked up. */
  lemma LookupValid(t: Typed, now: int, model: string, k: Key)
    requires LookupKey(model, k) && WellTyped(t)
    ensures ValidKey(k)
    ensures var id := AsId(ReadKey(t, now, k)); id.Some? ==>
      ValidKey(PayloadKey(model, id.value)) && Touched(t, now, k) == t
  {
    hide GoodModel, GoodId;
    LookupModel(model);
  }

  class NAuthOIDCAdapter {
    const name: string
    const storage: MemoryStorage

    constructor (name: string, storage: MemoryStorage)
      ensures this.name == name && this.storage == storage
    {
      this.name := name;
      this.storage := storage;
    }

    /** Create or replace an artifact, then write each marker its model calls for. */
    method Upsert(id: string, payload: Payload, expiresIn: int)
      modifies storage`entries
      ensures Foreign(storage.entries) == old(Foreign(storage.entries))
      ensures GoodWrite(name, id, payload) ==>
        View(storage.entries) == Upserted(old(View(storage.entries)), storage.clock, name, id, payload, expiresIn)
      ensures GoodWrite(name, id, payload) && old(Clean(storage.entries)) ==> Clean(storage.entries)
    {
      hide View, Foreign, Clean, Print, Split, Join;
      var ttl := if expiresIn > 0 then Some(expiresIn) else None;
      Put(PayloadKey(name, id), Json(payload), ttl);
      if UidIndexed(name) && Truthy(payload.uid) {
        Put(UidKey(name, payload.uid.value), Value.Text(id), ttl);
      }
      if name == "DeviceCode" && Truthy(payload.userCode) {
        Put(UserCodeKey(payload.userCode.value), Value.Text(id), ttl);
      }
      if Grantable(name) && Truthy(payload.grantId) {
        Put(GrantKey(payload.grantId.value, name, id), Value.Text("1"), ttl);
      }
      if Truthy(payload.accountId) {
        Put(AccountKey(payload.accountId.value, name, id), Value.Text("1"), ttl);
      }
    }

    /** One storage write under a key of the scheme. */
    method Put(k: Key, value: Value, ttl: Option<int>)
      modifies storage`entries
      ensures Foreign(storage.entries) == old(Foreign(storage.entries))
      ensures ValidKey(k) ==>
        View(storage.entries) == old(View(storage.entries))[k := Entry(value, Expiry(storage.clock, ttl))]
      ensures ValidKey(k) && GoodValue(k, value) && old(Clean(storage.entries)) ==> Clean(storage.entries)
    {
      hide View, Foreign, Clean, Print, Split, Join;
      ghost var before := storage.entries;
      storage.Set(Print(k), value, ttl);
      ForeignKept(before, k, Entry(value, Expiry(storage.clock, ttl)));
      if ValidKey(k) {
        ViewSet(before, k, Entry(value, Expiry(storage.clock, ttl)));
        if Clean(before) && GoodValue(k, value) {
          CleanSet(before, k, Entry(value, Expiry(storage.clock, ttl)));
        }
      }
    }

    /** One storage read under a key of the scheme. */
    method Fetch(k: Key) returns (value: Option<Value>)
      modifies storage`entries
      ensures Foreign(storage.entries) == old(Foreign(storage.entries))
      ensures ValidKey(k) ==>
        && value == ReadKey(old(View(storage.entries)), storage.clock, k)
        && View(storage.entries) == Touched(old(View(storage.entries)), storage.clock, k)
      ensures ValidKey(k) && old(Clean(storage.entries)) ==> Clean(storage.entries)
    {
      hide View, Foreign, Clean, Print, Split, Join;
      ghost var before := storage.entries;
      value := storage.Get(Print(k));
      ForeignKept(before, k, Entry(Count(0), None));
      if ValidKey(k) {
        ViewAt(before, k);
        ViewDel(before, k);
        if Clean(before) { CleanDel(before, k); }
      }
    }

    method Find(id: string) returns (payload: Option<Payload>)
      modifies storage`entries
      ensures Foreign(storage.entries) == old(Foreign(storage.entries))
      ensures GoodModel(name) && GoodId(name, id) ==>
        && payload == Found(old(View(storage.entries)), storage.clock, name, id)
        && View(storage.entries) == Touched(old(View(storage.entries)), storage.clock, PayloadKey(name, id))
        && (old(Clean(storage.entries)) ==> Clean(storage.entries))
    {
      hide View, Foreign, Clean, Print, Split, Join;
      var raw := Fetch(PayloadKey(name, id));
      payload := AsPayload(raw);
    }

    /** Read the id a lookup marker of this model holds, then the payload it names. */
    method Follow(marker: Key) returns (payload: Option<Payload>)
      modifies storage`entries
      ensures Foreign(storage.entries) == old(Foreign(storage.entries))
      ensures LookupKey(name, marker) && old(Clean(storage.entries)) ==>
        && payload == FoundVia(old(View(storage.entries)), storage.clock, marker, name)
        && View(storage.entries) == TouchedVia(old(View(storage.entries)), storage.clock, marker, name)
        && Clean(storage.entries)
    {
      hide View, Foreign, Clean, Print, Split, Join, LookupKey, ValidKey;
      if LookupKey(name, marker) && Clean(storage.entries) {
        CleanTyped(storage.entries);
        LookupValid(View(storage.entries), storage.clock, name, marker);
      }
      var raw := Fetch(marker);
      var id := AsId(raw);
      if id.Some? {
        var target := Fetch(PayloadKey(name, id.value));
        payload := AsPayload(target);
      } else {
        payload := None;
      }
    }

    method FindByUid(uid: string) returns (payload: Option<Payload>)
      modifies storage`entries
      ensures Foreign(storage.entries) == old(Foreign(storage.entries))
      ensures UidIndexed(name) && old(Clean(storage.entries)) ==>
        && payload == FoundVia(old(View(storage.entries)), storage.clock, UidKey(name, uid), name)
        && View(storage.entries) == TouchedVia(old(View(storage.entries)), storage.clock, UidKey(name, uid), name)
        && OnlyExpiredGone(old(View(storage.entries)), View(storage.entries), storage.clock)
        && Clean(storage.entries)
    {
      hide View, Foreign, Clean, Print, FoundVia, TouchedVia, OnlyExpiredGone;
      LookupKeeps(View(storage.entries), storage.clock, UidKey(name, uid), name);
      payload := Follow(UidKey(name, uid));
    }

    method FindByUserCode(userCode: string) returns (payload: Option<Payload>)
      modifies storage`entries
      ensures Foreign(storage.entries) == old(Foreign(storage.entries))
      ensures name == "DeviceCode" && old(Clean(storage.entries)) ==>
        && payload == FoundVia(old(View(storage.entries)), storage.clock, UserCodeKey(userCode), name)
        && View(storage.entries) == TouchedVia(old(View(storage.entries)), storage.clock, UserCodeKey(userCode), name)
        && OnlyExpiredGone(old(View(storage.entries)), View(storage.entries), storage.clock)
        && Clean(storage.entries)
    {
      hide View, Foreign, Clean, Print, FoundVia, TouchedVia, OnlyExpiredGone;
      LookupKeeps(View(storage.entries), storage.clock, UserCodeKey(userCode), name);
      payload := Follow(UserCodeKey(userCode));
    }

    /** Mark an artifact spent, writing it back with the whole seconds it has left. */
    method Consume(id: string)
      modifies storage`entries
      ensures Foreign(storage.entries) == old(Foreign(storage.entries))
      ensures GoodModel(name) && GoodId(name, id) ==>
        && View(storage.entries) == Consumed(old(View(storage.entries)), storage.clock, name, id)
        && (old(Clean(storage.entries)) ==> Clean(storage.entries))
    {
      hide View, Foreign, Clean, Print, Split, Join;
      var k := PayloadKey(name, id);
      var raw := Fetch(k);
      var payload := AsPayload(raw);
      if payload.None? {
        return;
      }
      ghost var during := storage.entries;
      if ValidKey(k) { ViewAt(during, k); }
      var remaining := storage.Ttl(Print(k));
      Put(k, Json(payload.value.(consumed := Some(storage.clock / 1000))), if remaining > 0 then Some(remaining)
        else None);
    }

    method Destroy(id: string)
      modifies storage`entries
      ensures Foreign(storage.entries) == old(Foreign(storage.entries))
      ensures GoodModel(name) && GoodId(name, id) ==>
        && View(storage.entries) == old(View(storage.entries)) - {PayloadKey(name, id)}
        && (old(Clean(storage.entries)) ==> Clean(storage.entries))
    {
      hide View, Foreign, Clean, Print, Split, Join;
      ghost var before := storage.entries;
      var k := PayloadKey(name, id);
      storage.Del(Print(k));
      ForeignKept(before, k, Entry(Count(0), None));
      if ValidKey(k) {
        ViewDel(before, k);
        if Clean(before) { CleanDel(before, k); }
      }
    }

    /** Delete every artifact some marker of this grant names, and the markers. */
    method RevokeByGrantId(grantId: string)
      modifies storage`entries
      ensures SweepArg(grantId) && old(Clean(storage.entries)) ==>
        && View(storage.entries) == GrantRevoked(old(View(storage.entries)), grantId)
        && Foreign(storage.entries) == old(Foreign(storage.entries))
        && Clean(storage.entries)
    {
      hide View, Foreign, Clean, Print, Split, Join, Swept, GrantMarkers, AccountMarkers, GrantTarget, AccountTarget,
        Glob.Matches;
      ghost var before := storage.entries;
      var markers := storage.Keys(GrantPrefix(grantId) + "*");
      SweptNone(GrantTarget);
      for i := 0 to |markers|
        invariant storage.entries == before - Swept(markers[..i], GrantTarget)
      {
        var marker := markers[i];
        SweptNext(markers, i, GrantTarget);
        var payloadKey := GrantTarget(marker);
        if payloadKey.Some? {
          storage.Del(payloadKey.value);
        }
        storage.Del(marker);
      }
      assert markers[..|markers|] == markers;
      if SweepArg(grantId) && Clean(before) {
        GrantSweep(before, grantId, markers);
      }
    }

    /** Delete every artifact of this model some marker of the account names, counting the markers. */
    method RevokeByAccountId(accountId: string) returns (removed: nat)
      modifies storage`entries
      ensures SweepArg(accountId) && SweepArg(name) && old(Clean(storage.entries)) ==>
        && View(storage.entries) == AccountRevoked(old(View(storage.entries)), name, accountId)
        && removed == |AccountMarkers(old(View(storage.entries)), name, accountId)|
        && Foreign(storage.entries) == old(Foreign(storage.entries))
        && Clean(storage.entries)
    {
      hide View, Foreign, Clean, Print, Split, Join, Swept, GrantMarkers, AccountMarkers, GrantTarget, AccountTarget,
        Glob.Matches;
      ghost var before := storage.entries;
      ghost var target := AccountTargetOf(name);
      var markers := storage.Keys(AccountPrefix(accountId, name) + "*");
      ghost var all := forall m :: m in markers ==> target(m).Some?;
      removed := 0;
      SweptNone(target);
      hide AccountPrefix, AccountRevoked, SweepArg, Distinct;
      for i := 0 to |markers|
        invariant storage.entries == before - Swept(markers[..i], target)
        invariant all ==> removed == i
      {
        var marker := markers[i];
        SweptNext(markers, i, target);
        var payloadKey := AccountTarget(name, marker);
        assert payloadKey == target(marker);
        assert all ==> payloadKey.Some?;
        if payloadKey.Some? {
          storage.Del(payloadKey.value);
          removed := removed + 1;
        }
        storage.Del(marker);
      }
      assert markers[..|markers|] == markers;
      if SweepArg(accountId) && SweepArg(name) && Clean(before) {
        SweepArgs(accountId, name);
        AccountSweep(before, name, accountId, markers);
      }
    }
  }
}
