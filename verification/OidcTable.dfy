/**
  The plain table the adapter stands for, and the simulation: a store of payloads and expiring
  marker keys, driven by any sequence of adapter calls, clock ticks and clean-ups, behaves like a
  table from (model, id) to a payload and its expiry.
 */
module OidcTable {
  import opened Options
  import opened Keys
  import opened Storage
  import opened OidcSpec

  type Ref = (string, string)

  datatype Row = Row(payload: Payload, expiresAt: Option<int>)

  type Table = map<Ref, Row>

  /** The live artifacts of a store. */
  ghost function TableOf(t: Typed, now: int): Table {
    map k | k in t && k.PayloadKey? && t[k].value.Json? && Live(t[k], now)
      :: (k.model, k.id) := Row(t[k].value.payload, t[k].expiresAt)
  }

  datatype Op =
    | Upsert(model: string, id: string, payload: Payload, expiresIn: int)
    | Find(model: string, id: string)
    | FindByUid(model: string, uid: string)
    | FindByUserCode(userCode: string)
    | Consume(model: string, id: string)
    | Destroy(model: string, id: string)
    | RevokeGrant(grant: string)
    | RevokeAccount(model: string, account: string)
    | Tick(ms: nat)
    | Purge(keys: set<Key>)

  datatype World = World(t: Typed, now: int)

  /** One call against the store. A purge drops whichever of its keys have expired. */
  ghost function Step(w: World, op: Op): World {
    match op
    case Upsert(model, id, payload, expiresIn) => w.(t := Upserted(w.t, w.now, model, id, payload, expiresIn))
    case Find(model, id) => w.(t := Touched(w.t, w.now, PayloadKey(model, id)))
    case FindByUid(model, uid) => w.(t := TouchedVia(w.t, w.now, UidKey(model, uid), model))
    case FindByUserCode(userCode) => w.(t := TouchedVia(w.t, w.now, UserCodeKey(userCode), "DeviceCode"))
    case Consume(model, id) => w.(t := Consumed(w.t, w.now, model, id))
    case Destroy(model, id) => w.(t := w.t - {PayloadKey(model, id)})
    case RevokeGrant(grant) => w.(t := GrantRevoked(w.t, grant))
    case RevokeAccount(model, account) => w.(t := AccountRevoked(w.t, model, account))
    case Tick(ms) => w.(now := w.now + ms)
    case Purge(keys) => w.(t := w.t - (set k | k in keys && k in w.t && !Live(w.t[k], w.now)))
  }

  /** The calls that write nothing: the lookups, and the store's clean-up. */
  predicate ReadOnly(op: Op) {
    op.Find? || op.FindByUid? || op.FindByUserCode? || op.Purge?
  }

  ghost function Run(w: World, ops: seq<Op>): World {
    if ops == [] then w else Step(Run(w, ops[..|ops| - 1]), ops[|ops| - 1])
  }

  /**
    The specification state: the table and the clock, and what was ever written: the indexed
    fields each id was last written with, and the last id written with each uid and user code.
   */
  datatype Spec = Spec(
    table: Table,
    now: int,
    attrs: map<Ref, Attr>,
    uidHolder: map<Ref, string>,
    codeHolder: map<string, string>)

  function SpentExpiry(expiresAt: Option<int>, now: int): Option<int> {
    if expiresAt.Some? && expiresAt.value - now >= 1000
    then Some(now + (expiresAt.value - now) / 1000 * 1000)
    else None
  }

  ghost function SpecStep(s: Spec, op: Op): Spec {
    match op
    case Upsert(model, id, payload, expiresIn) =>
      var a := AttrOf(model, payload);
      s.(table := s.table[(model, id) := Row(payload, ExpiryOf(s.now, expiresIn))],
         attrs := s.attrs[(model, id) := a],
         uidHolder := if a.uid.Some? then s.uidHolder[(model, a.uid.value) := id] else s.uidHolder,
         codeHolder := if a.userCode.Some? then s.codeHolder[a.userCode.value := id] else s.codeHolder)
    case Consume(model, id) =>
      if (model, id) !in s.table then s
      else
        var row := s.table[(model, id)];
        s.(table := s.table[(model, id) :=
          Row(row.payload.(consumed := Some(s.now / 1000)), SpentExpiry(row.expiresAt, s.now))])
    case Destroy(model, id) => s.(table := s.table - {(model, id)})
    case RevokeGrant(grant) =>
      s.(table := map r | r in s.table && AttrOf(r.0, s.table[r].payload).grant != Some(grant) :: s.table[r])
    case RevokeAccount(model, account) =>
      s.(table := map r |
           r in s.table && !(r.0 == model && AttrOf(r.0, s.table[r].payload).account == Some(account)) :: s.table[r])
    case Tick(ms) =>
      s.(now := s.now + ms,
         table := map r |
           r in s.table && (s.table[r].expiresAt.Some? ==> s.now + ms <= s.table[r].expiresAt.value) :: s.table[r])
    case _ => s
  }

  ghost function SpecRun(s: Spec, ops: seq<Op>): Spec {
    if ops == [] then s else SpecStep(SpecRun(s, ops[..|ops| - 1]), ops[|ops| - 1])
  }

  ghost predicate Keeps(before: Option<string>, after: Option<string>) {
    before.Some? ==> after == before
  }

  /** An id keeps the grant, account, uid and user code it was first written with. */
  ghost predicate Steady(s: Spec, model: string, id: string, p: Payload) {
    (model, id) in s.attrs ==>
      var old_, new_ := s.attrs[(model, id)], AttrOf(model, p);
      && Keeps(old_.grant, new_.grant)
      && Keeps(old_.account, new_.account)
      && Keeps(old_.uid, new_.uid)
      && Keeps(old_.userCode, new_.userCode)
  }

  /**
    The row a marker key stands for: for a grant or account marker the id it names, if it was written
    with that field; for a uid or user code marker the last id written with it.
   */
  function Owner(s: Spec, k: Key): Option<Ref> {
    match k
    case GrantKey(g, m, i) => if (m, i) in s.attrs && s.attrs[(m, i)].grant == Some(g) then Some((m, i)) else None
    case AccountKey(a, m, i) => if (m, i) in s.attrs && s.attrs[(m, i)].account == Some(a) then Some((m, i)) else None
    case UidKey(m, uid) => if (m, uid) in s.uidHolder then Some((m, s.uidHolder[(m, uid)])) else None
    case UserCodeKey(code) => if code in s.codeHolder then Some(("DeviceCode", s.codeHolder[code])) else None
    case _ => None
  }

  /** Some marker stands for this row. */
  ghost predicate Indexed(s: Spec, r: Ref) {
    exists k :: Owner(s, k) == Some(r)
  }

  /** Consuming leaves the index sound: the row is gone, permanent, unindexed, or has a whole second left. */
  ghost predicate ConsumeOk(s: Spec, r: Ref) {
    r in s.table && s.table[r].expiresAt.Some? && Indexed(s, r) ==> s.table[r].expiresAt.value - s.now >= 1000
  }

  ghost predicate OpOk(s: Spec, op: Op) {
    match op
    case Upsert(model, id, payload, _) => GoodWrite(model, id, payload) && Steady(s, model, id, payload)
    case Consume(model, id) => GoodModel(model) && GoodId(model, id) && ConsumeOk(s, (model, id))
    case Destroy(model, id) => GoodModel(model) && GoodId(model, id)
    case _ => true
  }

  ghost predicate RunOk(s: Spec, ops: seq<Op>) {
    forall i :: 0 <= i < |ops| ==> OpOk(SpecRun(s, ops[..i]), ops[i])
  }

  /** A marker lasts at least as long as the payload: both permanent, or the payload no later. */
  ghost predicate Covers(marker: Option<int>, payload: Option<int>) {
    (marker.None? && payload.None?) || (marker.Some? && payload.Some? && payload.value <= marker.value)
  }

  ghost predicate Covered(t: Typed, k: Key, row: Row) {
    k in t && Covers(t[k].expiresAt, row.expiresAt)
  }

  ghost predicate Current(s: Spec) {
    forall r :: r in s.table ==> r in s.attrs && s.attrs[r] == AttrOf(r.0, s.table[r].payload)
  }

  /** Holders of a uid or user code are non-empty ids last written with it. */
  ghost predicate HoldersGood(s: Spec) {
    && (forall h :: h in s.uidHolder ==>
          var r := (h.0, s.uidHolder[h]);
          r.1 != "" && r in s.attrs && s.attrs[r].uid == Some(h.1))
    && (forall c :: c in s.codeHolder ==>
          var r := ("DeviceCode", s.codeHolder[c]);
          r.1 != "" && r in s.attrs && s.attrs[r].userCode == Some(c))
  }

  /** No stored marker is foreign: each stands for the row it names. */
  ghost predicate IndexSound(t: Typed, s: Spec) {
    forall k :: k in t && !k.PayloadKey? && !k.LimitKey? ==>
      && Owner(s, k).Some?
      && (k.UidKey? || k.UserCodeKey? ==> t[k].value == Text(Owner(s, k).value.1))
  }

  /** No live row lacks a marker that stands for it, and none of them expires before it. */
  ghost predicate IndexComplete(t: Typed, s: Spec) {
    forall k :: Owner(s, k).Some? && Owner(s, k).value in s.table ==> Covered(t, k, s.table[Owner(s, k).value])
  }

  /** The store simulates the table, and every index entry that matters is in place. */
  ghost predicate Inv(w: World, s: Spec) {
    && w.now == s.now
    && TableOf(w.t, w.now) == s.table
    && Current(s)
    && HoldersGood(s)
    && IndexSound(w.t, s)
    && IndexComplete(w.t, s)
  }
}
