/**
  What each adapter call does to the store, stated on typed keys instead of strings,
  and the view that relates the two.
 */
module OidcSpec {
  import opened Options
  import opened Keys
  import opened Storage

  type Typed = map<Key, Entry>

  /** The adapter's part of the store, by typed key. */
  ghost function View(entries: map<string, Entry>): Typed {
    map s | s in entries && Parse(s).Some? :: Parse(s).value := entries[s]
  }

  /** The rest of the store: other users' keys. */
  ghost function Foreign(entries: map<string, Entry>): map<string, Entry> {
    map s | s in entries && !(NS + ":" <= s) :: entries[s]
  }

  /** A valid key is in the view exactly when its string is stored. */
  lemma ViewAt(entries: map<string, Entry>, k: Key)
    requires ValidKey(k)
    ensures k in View(entries) <==> Print(k) in entries
    ensures k in View(entries) ==> View(entries)[k] == entries[Print(k)]
  {
    ParsePrint(k);
  }

  ghost predicate IsView(entries: map<string, Entry>, t: Typed) {
    && (forall k :: k in t <==> ValidKey(k) && Print(k) in entries)
    && (forall k :: k in t ==> t[k] == entries[Print(k)])
  }

  lemma ViewIs(entries: map<string, Entry>)
    ensures IsView(entries, View(entries))
  {
    forall k | ValidKey(k) ensures k in View(entries) <==> Print(k) in entries {
      ViewAt(entries, k);
    }
  }

  lemma ViewUnique(entries: map<string, Entry>, t: Typed)
    requires IsView(entries, t)
    ensures View(entries) == t
  {
    ViewIs(entries);
  }

  /** No other valid key prints to this key's string. */
  lemma PrintOnly(k: Key)
    requires ValidKey(k)
    ensures forall l :: ValidKey(l) && Print(l) == Print(k) ==> l == k
    ensures NS + ":" <= Print(k)
  {
    forall l | ValidKey(l) && Print(l) == Print(k) ensures l == k {
      PrintInjective(l, k);
    }
  }

  lemma InNamespace(k: Key)
    ensures NS + ":" <= Print(k)
  {
  }

  /** Writing or deleting under the scheme leaves other users' keys alone. */
  lemma ForeignKept(entries: map<string, Entry>, k: Key, e: Entry)
    ensures Foreign(entries[Print(k) := e]) == Foreign(entries)
    ensures Foreign(entries - {Print(k)}) == Foreign(entries)
  {
    InNamespace(k);
  }

  lemma ViewSet(entries: map<string, Entry>, k: Key, e: Entry)
    requires ValidKey(k)
    ensures View(entries[Print(k) := e]) == View(entries)[k := e]
  {
    PrintOnly(k);
    ViewIs(entries);
    ViewUnique(entries[Print(k) := e], View(entries)[k := e]);
  }

  lemma ViewDel(entries: map<string, Entry>, k: Key)
    requires ValidKey(k)
    ensures View(entries - {Print(k)}) == View(entries) - {k}
  {
    PrintOnly(k);
    ViewIs(entries);
    ViewUnique(entries - {Print(k)}, View(entries) - {k});
  }

  /** The fields of a payload that its model is indexed by. */
  datatype Attr = Attr(grant: Option<string>, account: Option<string>, uid: Option<string>, userCode: Option<string>)

  function AttrOf(model: string, p: Payload): Attr {
    Attr(
      if Grantable(model) && Truthy(p.grantId) then p.grantId else None,
      if Truthy(p.accountId) then p.accountId else None,
      if UidIndexed(model) && Truthy(p.uid) then p.uid else None,
      if model == "DeviceCode" && Truthy(p.userCode) then p.userCode else None)
  }

  /** Which values a payload is indexed by, on its own fields. */
  lemma AttrExactly(model: string, p: Payload, v: string)
    ensures AttrOf(model, p).grant == Some(v) <==>
      && v != "" && p.grantId == Some(v)
      && model in {"AccessToken", "AuthorizationCode", "RefreshToken", "DeviceCode", "BackchannelAuthenticationRequest"}
    ensures AttrOf(model, p).account == Some(v) <==> v != "" && p.accountId == Some(v)
    ensures AttrOf(model, p).uid == Some(v) <==> v != "" && p.uid == Some(v) && model in {"Session", "Interaction"}
    ensures AttrOf(model, p).userCode == Some(v) <==> v != "" && p.userCode == Some(v) && model == "DeviceCode"
  {
  }

  /** A write whose keys can be told apart later. */
  predicate GoodWrite(model: string, id: string, p: Payload) {
    && GoodModel(model)
    && GoodId(model, id)
    && (Truthy(p.grantId) ==> COLON !in p.grantId.value)
    && (Truthy(p.accountId) ==> COLON !in p.accountId.value)
  }

  function ExpiryOf(now: int, expiresIn: int): Option<int> {
    if expiresIn > 0 then Some(now + expiresIn * 1000) else None
  }

  function PutIf(t: Typed, cond: bool, k: Key, e: Entry): Typed {
    if cond then t[k := e] else t
  }

  function OrEmpty(o: Option<string>): string {
    if o.Some? then o.value else ""
  }

  /** An upsert writes the payload, then a marker for each field its model is indexed by. */
  function Upserted(t: Typed, now: int, model: string, id: string, p: Payload, expiresIn: int): Typed {
    var exp := ExpiryOf(now, expiresIn);
    var a := AttrOf(model, p);
    var t1 := t[PayloadKey(model, id) := Entry(Json(p), exp)];
    var t2 := PutIf(t1, a.uid.Some?, UidKey(model, OrEmpty(a.uid)), Entry(Text(id), exp));
    var t3 := PutIf(t2, a.userCode.Some?, UserCodeKey(OrEmpty(a.userCode)), Entry(Text(id), exp));
    var t4 := PutIf(t3, a.grant.Some?, GrantKey(OrEmpty(a.grant), model, id), Entry(Text("1"), exp));
    PutIf(t4, a.account.Some?, AccountKey(OrEmpty(a.account), model, id), Entry(Text("1"), exp))
  }

  function ReadKey(t: Typed, now: int, k: Key): Option<Value> {
    if k in t && Live(t[k], now) then Some(t[k].value) else None
  }

  function Touched(t: Typed, now: int, k: Key): Typed {
    if k in t && !Live(t[k], now) then t - {k} else t
  }

  /** Parsing a stored string, treating anything but an artifact as absent. */
  function AsPayload(v: Option<Value>): Option<Payload> {
    if v.Some? && v.value.Json? then Some(v.value.payload) else None
  }

  /** The non-empty id a lookup marker holds. */
  function AsId(v: Option<Value>): Option<string> {
    if v.Some? && v.value.Text? && v.value.text != "" then Some(v.value.text) else None
  }

  function Found(t: Typed, now: int, model: string, id: string): Option<Payload> {
    AsPayload(ReadKey(t, now, PayloadKey(model, id)))
  }

  function FoundVia(t: Typed, now: int, marker: Key, model: string): Option<Payload> {
    var id := AsId(ReadKey(t, now, marker));
    if id.Some? then Found(t, now, model, id.value) else None
  }

  /** A lookup through a marker drops the marker if expired, else the payload it names if that is expired. */
  function TouchedVia(t: Typed, now: int, marker: Key, model: string): Typed {
    var id := AsId(ReadKey(t, now, marker));
    if id.Some? then Touched(t, now, PayloadKey(model, id.value)) else Touched(t, now, marker)
  }

  /** Nothing was written, and nothing went but what had expired. */
  ghost predicate OnlyExpiredGone(t: Typed, t2: Typed, now: int) {
    && (forall k :: k in t2 ==> k in t && t2[k] == t[k])
    && (forall k :: k in t && Live(t[k], now) ==> k in t2)
  }

  lemma LookupKeeps(t: Typed, now: int, marker: Key, model: string)
    ensures OnlyExpiredGone(t, TouchedVia(t, now, marker, model), now)
  {
  }

  /** What consuming writes: the payload marked spent, living on for the whole seconds it had left. */
  function Spent(e: Entry, now: int): Entry
    requires e.value.Json?
  {
    var remaining := Remaining(e, now);
    Entry(Json(e.value.payload.(consumed := Some(now / 1000))),
          if remaining > 0 then Some(now + remaining * 1000) else None)
  }

  function Consumed(t: Typed, now: int, model: string, id: string): Typed {
    var k := PayloadKey(model, id);
    if Found(t, now, model, id).Some? then t[k := Spent(t[k], now)] else Touched(t, now, k)
  }

  predicate Marker(k: Key) {
    k.GrantKey? || k.AccountKey?
  }

  ghost function GrantMarkers(t: Typed, grant: string): set<Key> {
    set k | k in t && k.GrantKey? && k.grant == grant
  }

  ghost function AccountMarkers(t: Typed, model: string, account: string): set<Key> {
    set k | k in t && k.AccountKey? && k.account == account && k.model == model
  }

  /** The payload keys a set of markers points at. */
  ghost function Named(markers: set<Key>): set<Key> {
    set k | k in markers && Marker(k) :: PayloadKey(k.model, k.id)
  }

  /** A sweep removes the markers it lists and the payloads they name. */
  ghost function Revoked(t: Typed, markers: set<Key>): Typed {
    t - markers - Named(markers)
  }

  ghost function GrantRevoked(t: Typed, grant: string): Typed {
    Revoked(t, GrantMarkers(t, grant))
  }

  ghost function AccountRevoked(t: Typed, model: string, account: string): Typed {
    Revoked(t, AccountMarkers(t, model, account))
  }

  /** A value has its family's shape, and a lookup marker names an id that can be looked up. */
  predicate GoodValue(k: Key, v: Value) {
    match k
    case UidKey(model, _) => v.Text? && GoodId(model, v.text)
    case UserCodeKey(_) => v.Text? && GoodId("DeviceCode", v.text)
    case LimitKey(_, _) => v.Count?
    case _ => true
  }

  ghost predicate WellTyped(t: Typed) {
    forall k :: k in t ==> ValidKey(k) && GoodValue(k, t[k].value)
  }

  /** Everything under the adapter's namespace was written by the adapter or the rate limiter. */
  ghost predicate Clean(entries: map<string, Entry>) {
    && (forall s :: s in entries && NS + ":" <= s ==> Parse(s).Some?)
    && WellTyped(View(entries))
  }

  lemma CleanTyped(entries: map<string, Entry>)
    requires Clean(entries)
    ensures WellTyped(View(entries))
  {
  }

  lemma CleanSet(entries: map<string, Entry>, k: Key, e: Entry)
    requires Clean(entries) && ValidKey(k) && GoodValue(k, e.value)
    ensures Clean(entries[Print(k) := e])
  {
    ViewSet(entries, k, e);
    ParsePrint(k);
  }

  lemma CleanDel(entries: map<string, Entry>, k: Key)
    requires Clean(entries) && ValidKey(k)
    ensures Clean(entries - {Print(k)})
  {
    ViewDel(entries, k);
  }
}
