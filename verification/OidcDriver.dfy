/** The adapter objects driven by a list of calls over one string store, which ends as the run over typed keys does. */
module OidcDriver {
  import opened Options
  import opened Keys
  import opened Storage
  import opened OidcSpec
  import opened OidcAdapter
  import opened OidcTable
  import opened OidcSimulation
  import opened OidcLookups

  /** Ids, models and sweep arguments that can be told apart in a key. */
  ghost predicate Playable(op: Op) {
    match op
    case Upsert(model, id, payload, _) => GoodWrite(model, id, payload)
    case Find(model, id) => GoodModel(model) && GoodId(model, id)
    case FindByUid(model, _) => UidIndexed(model)
    case Consume(model, id) => GoodModel(model) && GoodId(model, id)
    case Destroy(model, id) => GoodModel(model) && GoodId(model, id)
    case RevokeGrant(grant) => SweepArg(grant)
    case RevokeAccount(model, account) => SweepArg(model) && SweepArg(account)
    case _ => true
  }

  ghost function WorldOf(storage: MemoryStorage): World
    reads storage
  {
    World(View(storage.entries), storage.clock)
  }

  ghost predicate CleanWorld(storage: MemoryStorage)
    reads storage
  {
    Clean(storage.entries)
  }

  /** Reads of these keys: each drops the entry it finds expired. */
  method ReadAll(storage: MemoryStorage, keys: set<Key>)
    requires CleanWorld(storage)
    modifies storage`entries
    ensures CleanWorld(storage) && WorldOf(storage) == Step(old(WorldOf(storage)), Purge(keys))
  {
    hide View, Clean, ValidKey, Live;
    ghost var t, now := View(storage.entries), storage.clock;
    CleanTyped(storage.entries);
    var adapter := new NAuthOIDCAdapter("", storage);
    var rest := keys;
    while rest != {}
      invariant rest <= keys && Clean(storage.entries)
      invariant View(storage.entries) == t - (set k | k in keys && k !in rest && k in t && !Live(t[k], now))
      decreases rest
    {
      var k :| k in rest;
      rest := rest - {k};
      if ValidKey(k) {
        var _ := adapter.Fetch(k);
      }
    }
  }

  /** What a lookup finds in the store. */
  function Answer(w: World, op: Op): Option<Payload> {
    match op
    case Find(model, id) => Found(w.t, w.now, model, id)
    case FindByUid(model, uid) => FoundVia(w.t, w.now, UidKey(model, uid), model)
    case FindByUserCode(userCode) => FoundVia(w.t, w.now, UserCodeKey(userCode), "DeviceCode")
    case _ => None
  }

  /** What the table answers: its row, for the other lookups that of the last id written with the uid or user code. */
  ghost function TableAnswer(s: Spec, op: Op): Option<Payload> {
    match op
    case Find(model, id) => Lookup(s, model, id)
    case FindByUid(model, uid) =>
      if (model, uid) in s.uidHolder then Lookup(s, model, s.uidHolder[(model, uid)]) else None
    case FindByUserCode(userCode) =>
      if userCode in s.codeHolder then Lookup(s, "DeviceCode", s.codeHolder[userCode]) else None
    case _ => None
  }

  lemma AnswersAgree(w: World, s: Spec, op: Op)
    requires Inv(w, s)
    ensures Answer(w, op) == TableAnswer(s, op)
  {
    hide Inv, Found, FoundVia, Lookup;
    match op
    case Find(model, id) => FindIsLookup(w, s, model, id);
    case FindByUid(model, uid) => ViaMarker(w, s, UidKey(model, uid));
    case FindByUserCode(userCode) => ViaMarker(w, s, UserCodeKey(userCode));
    case _ =>
  }

  lemma AnswersInRun(now: int, ops: seq<Op>, i: nat)
    requires RunOk(START.(now := now), ops) && i < |ops|
    ensures Answer(Run(World(map[], now), ops[..i]), ops[i])
      == TableAnswer(SpecRun(START.(now := now), ops[..i]), ops[i])
  {
    hide OpOk, Inv, Run, SpecRun, Answer, TableAnswer;
    assert RunOk(START.(now := now), ops[..i]) by {
      assert forall j :: 0 <= j < i ==> ops[..i][..j] == ops[..j];
    }
    Simulation(now, ops[..i]);
    AnswersAgree(Run(World(map[], now), ops[..i]), SpecRun(START.(now := now), ops[..i]), ops[i]);
  }

  /** One call of the adapter of its model with what it answers, or the clock moving. */
  method Play(storage: MemoryStorage, op: Op) returns (found: Option<Payload>)
    requires Playable(op) && CleanWorld(storage)
    modifies storage
    ensures CleanWorld(storage) && WorldOf(storage) == Step(old(WorldOf(storage)), op)
    ensures found == Answer(old(WorldOf(storage)), op)
  {
    hide View, Clean, Found, FoundVia, GoodWrite, GoodModel, GoodId, UidIndexed, SweepArg, Upserted, Consumed, Touched,
      TouchedVia, GrantRevoked, AccountRevoked;
    found := None;
    match op
    case Upsert(model, id, payload, expiresIn) =>
      var adapter := new NAuthOIDCAdapter(model, storage);
      adapter.Upsert(id, payload, expiresIn);
    case Find(model, id) =>
      var adapter := new NAuthOIDCAdapter(model, storage);
      found := adapter.Find(id);
    case FindByUid(model, uid) =>
      var adapter := new NAuthOIDCAdapter(model, storage);
      found := adapter.FindByUid(uid);
    case FindByUserCode(userCode) =>
      var adapter := new NAuthOIDCAdapter("DeviceCode", storage);
      found := adapter.FindByUserCode(userCode);
    case Consume(model, id) =>
      var adapter := new NAuthOIDCAdapter(model, storage);
      adapter.Consume(id);
    case Destroy(model, id) =>
      var adapter := new NAuthOIDCAdapter(model, storage);
      adapter.Destroy(id);
    case RevokeGrant(grant) =>
      var adapter := new NAuthOIDCAdapter("AccessToken", storage);
      adapter.RevokeByGrantId(grant);
    case RevokeAccount(model, account) =>
      var adapter := new NAuthOIDCAdapter(model, storage);
      var _ := adapter.RevokeByAccountId(account);
    case Tick(ms) =>
      storage.Advance(ms);
    case Purge(keys) =>
      ReadAll(storage, keys);
  }

  /** Any list of calls, made on the string store, comes to the run over typed keys, and is answered as there. */
  method PlayAll(storage: MemoryStorage, ops: seq<Op>) returns (answers: seq<Option<Payload>>)
    requires CleanWorld(storage) && forall op :: op in ops ==> Playable(op)
    modifies storage
    ensures CleanWorld(storage) && WorldOf(storage) == Run(old(WorldOf(storage)), ops)
    ensures |answers| == |ops|
    ensures forall i :: 0 <= i < |ops| ==> answers[i] == Answer(Run(old(WorldOf(storage)), ops[..i]), ops[i])
  {
    hide Playable, Step, Answer, WorldOf, CleanWorld;
    ghost var start := WorldOf(storage);
    answers := [];
    for i := 0 to |ops|
      invariant CleanWorld(storage) && WorldOf(storage) == Run(start, ops[..i])
      invariant |answers| == i && forall j :: 0 <= j < i ==> answers[j] == Answer(Run(start, ops[..j]), ops[j])
    {
      var found := Play(storage, ops[i]);
      answers := answers + [found];
      assert ops[..i + 1][..i] == ops[..i];
    }
    assert ops[..|ops|] == ops;
  }

  lemma EmptyStore()
    ensures View(map[]) == map[] && Clean(map[])
  {
  }

  /**
    So the strings in a store that started empty simulate the table after any admissible list of calls, and every
    lookup among them is answered by the table as it then stood.
   */
  method PlayFromEmpty(start: int, ops: seq<Op>) returns (storage: MemoryStorage, answers: seq<Option<Payload>>)
    requires RunOk(START.(now := start), ops) && forall op :: op in ops ==> Playable(op)
    ensures fresh(storage) && CleanWorld(storage)
    ensures Inv(WorldOf(storage), SpecRun(START.(now := start), ops))
    ensures |answers| == |ops|
    ensures forall i :: 0 <= i < |ops| ==> answers[i] == TableAnswer(SpecRun(START.(now := start), ops[..i]), ops[i])
  {
    hide Playable, RunOk, Inv, Run, SpecRun, View, Clean, Answer, TableAnswer;
    storage := new MemoryStorage(start);
    EmptyStore();
    answers := PlayAll(storage, ops);
    Simulation(start, ops);
    forall i | 0 <= i < |ops|
      ensures answers[i] == TableAnswer(SpecRun(START.(now := start), ops[..i]), ops[i])
    {
      AnswersInRun(start, ops, i);
    }
  }
}
