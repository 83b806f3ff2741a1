/**
  The key scheme of the OpenID Connect storage adapter: six families of colon-joined
  strings, and the proof that a stored string says which family and which fields it came from.
 */
module Keys {
  import opened Options
  import opened Text
  import Glob

  const COLON := ':'
  const NS := "oidc"

  /** Models whose payload may carry a grant id. */
  predicate Grantable(model: string) {
    model in {"AccessToken", "AuthorizationCode", "RefreshToken", "DeviceCode", "BackchannelAuthenticationRequest"}
  }

  /** Models looked up by uid. */
  predicate UidIndexed(model: string) {
    model in {"Session", "Interaction"}
  }

  datatype Key =
    | PayloadKey(model: string, id: string)
    | UidKey(model: string, uid: string)
    | UserCodeKey(userCode: string)
    | GrantKey(grant: string, model: string, id: string)
    | AccountKey(account: string, model: string, id: string)
    | LimitKey(endpoint: string, ip: string)

  /** Model names the provider uses: on one line, and never one of the adapter's own family names. */
  predicate GoodModel(model: string) {
    model != "" && Glob.OneLine(model) && COLON !in model && model != "g" && model != "acct" && model != "rl"
  }

  /** Ids on one line that cannot be mistaken for a secondary lookup of the same model. */
  predicate GoodId(model: string, id: string) {
    && id != "" && Glob.OneLine(id)
    && !(UidIndexed(model) && "uid:" <= id)
    && !(model == "DeviceCode" && "uc:" <= id)
  }

  predicate ValidKey(k: Key) {
    match k
    case PayloadKey(model, id) => GoodModel(model) && GoodId(model, id)
    case UidKey(model, uid) => UidIndexed(model)
    case UserCodeKey(_) => true
    case GrantKey(grant, model, id) => COLON !in grant && GoodModel(model) && GoodId(model, id)
    case AccountKey(account, model, id) => COLON !in account && GoodModel(model) && GoodId(model, id)
    case LimitKey(endpoint, _) => COLON !in endpoint
  }

  function Print(k: Key): string {
    match k
    case PayloadKey(model, id) => NS + ":" + model + ":" + id
    case UidKey(model, uid) => NS + ":" + model + ":" + "uid" + ":" + uid
    case UserCodeKey(userCode) => NS + ":" + "DeviceCode" + ":" + "uc" + ":" + userCode
    case GrantKey(grant, model, id) => NS + ":" + "g" + ":" + grant + ":" + model + ":" + id
    case AccountKey(account, model, id) => NS + ":" + "acct" + ":" + account + ":" + model + ":" + id
    case LimitKey(endpoint, ip) => NS + ":" + "rl" + ":" + endpoint + ":" + ip
  }

  /** The key scheme, as the adapter documents it and the rate limiter adds to it. */
  lemma KeyScheme(model: string, id: string, a: string)
    ensures Print(PayloadKey(model, id)) == "oidc:" + model + ":" + id
    ensures Print(UidKey(model, a)) == "oidc:" + model + ":uid:" + a
    ensures Print(UserCodeKey(a)) == "oidc:DeviceCode:uc:" + a
    ensures Print(GrantKey(a, model, id)) == "oidc:g:" + a + ":" + model + ":" + id
    ensures Print(AccountKey(a, model, id)) == "oidc:acct:" + a + ":" + model + ":" + id
    ensures Print(LimitKey(model, a)) == "oidc:rl:" + model + ":" + a
  {
    assert NS + ":" == "oidc:";
    assert NS + ":" + "g" + ":" == "oidc:g:";
    assert NS + ":" + "acct" + ":" == "oidc:acct:";
    assert NS + ":" + "rl" + ":" == "oidc:rl:";
    assert NS + ":" + "DeviceCode" + ":" + "uc" + ":" == "oidc:DeviceCode:uc:";
    assert NS + ":" + model + ":" + "uid" + ":" + a == "oidc:" + model + ":uid:" + a;
  }

  /** The parts of a printed key: its family's fixed fields, then the parts of the open-ended last field. */
  function Parts(k: Key): seq<string> {
    match k
    case PayloadKey(model, id) => [NS, model] + Split(id, COLON)
    case UidKey(model, uid) => [NS, model, "uid"] + Split(uid, COLON)
    case UserCodeKey(userCode) => [NS, "DeviceCode", "uc"] + Split(userCode, COLON)
    case GrantKey(grant, model, id) => [NS, "g", grant, model] + Split(id, COLON)
    case AccountKey(account, model, id) => [NS, "acct", account, model] + Split(id, COLON)
    case LimitKey(endpoint, ip) => [NS, "rl", endpoint] + Split(ip, COLON)
  }

  /** Two colon-free fields in front of an open-ended one. */
  lemma SplitTwo(a: string, b: string, rest: string)
    requires COLON !in a && COLON !in b
    ensures Split(a + ":" + b + ":" + rest, COLON) == [a, b] + Split(rest, COLON)
  {
    SplitHead(a, b + ":" + rest, COLON);
    SplitHead(b, rest, COLON);
    assert a + ":" + b + ":" + rest == a + ":" + (b + ":" + rest);
  }

  lemma SplitThree(a: string, b: string, c: string, rest: string)
    requires COLON !in a && COLON !in b && COLON !in c
    ensures Split(a + ":" + b + ":" + c + ":" + rest, COLON) == [a, b, c] + Split(rest, COLON)
  {
    SplitTwo(a, b, c + ":" + rest);
    SplitHead(c, rest, COLON);
    assert a + ":" + b + ":" + c + ":" + rest == a + ":" + b + ":" + (c + ":" + rest);
  }

  lemma SplitFour(a: string, b: string, c: string, d: string, rest: string)
    requires COLON !in a && COLON !in b && COLON !in c && COLON !in d
    ensures Split(a + ":" + b + ":" + c + ":" + d + ":" + rest, COLON) == [a, b, c, d] + Split(rest, COLON)
  {
    SplitTwo(a, b, c + ":" + d + ":" + rest);
    SplitTwo(c, d, rest);
    assert a + ":" + b + ":" + c + ":" + d + ":" + rest == a + ":" + b + ":" + (c + ":" + d + ":" + rest);
  }

  /** Splitting a printed key on colons gives its fields back, even when the last one holds colons. */
  lemma SplitPrint(k: Key)
    requires ValidKey(k)
    ensures Split(Print(k), COLON) == Parts(k)
  {
    match k
    case PayloadKey(model, id) => SplitTwo(NS, model, id);
    case UidKey(model, uid) => SplitThree(NS, model, "uid", uid);
    case UserCodeKey(userCode) => SplitThree(NS, "DeviceCode", "uc", userCode);
    case GrantKey(grant, model, id) => SplitFour(NS, "g", grant, model, id);
    case AccountKey(account, model, id) => SplitFour(NS, "acct", account, model, id);
    case LimitKey(endpoint, ip) => SplitThree(NS, "rl", endpoint, ip);
  }

  /** An id that splits like a lookup suffix starts like one. */
  lemma TaggedPrefix(tag: string, id: string)
    requires |Split(id, COLON)| >= 2 && Split(id, COLON)[0] == tag
    ensures tag + ":" <= id
  {
    JoinSplit(id, COLON);
  }

  /** Reading a stored key back. */
  function Parse(s: string): (k: Option<Key>)
    ensures k.Some? ==> ValidKey(k.value) && Print(k.value) == s
  {
    var parts := Split(s, COLON);
    var k := ParseParts(parts);
    if k.Some? && ValidKey(k.value) && Print(k.value) == s then k else None
  }

  function ParseParts(parts: seq<string>): Option<Key> {
    if |parts| < 3 || parts[0] != NS then None
    else if parts[1] == "g" then
      if |parts| < 5 then None else Some(GrantKey(parts[2], parts[3], Join(parts[4..], COLON)))
    else if parts[1] == "acct" then
      if |parts| < 5 then None else Some(AccountKey(parts[2], parts[3], Join(parts[4..], COLON)))
    else if parts[1] == "rl" then
      if |parts| < 4 then None else Some(LimitKey(parts[2], Join(parts[3..], COLON)))
    else if UidIndexed(parts[1]) && |parts| >= 4 && parts[2] == "uid" then
      Some(UidKey(parts[1], Join(parts[3..], COLON)))
    else if parts[1] == "DeviceCode" && |parts| >= 4 && parts[2] == "uc" then
      Some(UserCodeKey(Join(parts[3..], COLON)))
    else Some(PayloadKey(parts[1], Join(parts[2..], COLON)))
  }

  /** The parts read back to the key they came from. */
  lemma ParsePartsOf(k: Key)
    requires ValidKey(k)
    ensures ParseParts(Parts(k)) == Some(k)
  {
    var parts := Parts(k);
    match k
    case PayloadKey(model, id) =>
      JoinSplit(id, COLON);
      var ids := Split(id, COLON);
      assert parts[2..] == ids;
      if |ids| >= 2 && ids[0] == "uid" { TaggedPrefix("uid", id); }
      if |ids| >= 2 && ids[0] == "uc" { TaggedPrefix("uc", id); }
    case UidKey(model, uid) =>
      JoinSplit(uid, COLON);
      assert parts[3..] == Split(uid, COLON);
    case UserCodeKey(userCode) =>
      JoinSplit(userCode, COLON);
      assert parts[3..] == Split(userCode, COLON);
    case GrantKey(grant, model, id) =>
      JoinSplit(id, COLON);
      assert parts[4..] == Split(id, COLON);
    case AccountKey(account, model, id) =>
      JoinSplit(id, COLON);
      assert parts[4..] == Split(id, COLON);
    case LimitKey(endpoint, ip) =>
      JoinSplit(ip, COLON);
      assert parts[3..] == Split(ip, COLON);
  }

  /** The codec round trip, for every key of every family. */
  lemma ParsePrint(k: Key)
    requires ValidKey(k)
    ensures Parse(Print(k)) == Some(k)
  {
    SplitPrint(k);
    ParsePartsOf(k);
  }

  /** Each family is injective and no two families share a string. */
  lemma PrintInjective(k: Key, l: Key)
    requires ValidKey(k) && ValidKey(l) && Print(k) == Print(l)
    ensures k == l
  {
    ParsePrint(k);
    ParsePrint(l);
  }

  function GrantPrefix(grant: string): string {
    NS + ":" + "g" + ":" + grant + ":"
  }

  function AccountPrefix(account: string, model: string): string {
    NS + ":" + "acct" + ":" + account + ":" + model + ":"
  }

  lemma Regroup(prefix: string, model: string, id: string)
    ensures prefix <= prefix + model + ":" + id
  {
    assert prefix + model + ":" + id == prefix + (model + ":" + id);
  }

  /** The second part tells the marker families from all the others. */
  lemma MarkerParts(k: Key)
    requires ValidKey(k)
    ensures |Parts(k)| >= 3
    ensures Parts(k)[1] == "g" <==> k.GrantKey?
    ensures Parts(k)[1] == "acct" <==> k.AccountKey?
    ensures k.GrantKey? ==> Parts(k)[2] == k.grant
    ensures k.AccountKey? ==> |Parts(k)| >= 4 && Parts(k)[2] == k.account && Parts(k)[3] == k.model
  {
  }

  lemma GrantPrefixParts(grant: string, s: string)
    requires COLON !in grant && GrantPrefix(grant) <= s
    ensures |Split(s, COLON)| >= 3 && Split(s, COLON)[1] == "g" && Split(s, COLON)[2] == grant
  {
    var rest := s[|GrantPrefix(grant)|..];
    SplitThree(NS, "g", grant, rest);
    assert s == GrantPrefix(grant) + rest;
  }

  lemma AccountPrefixParts(account: string, model: string, s: string)
    requires COLON !in account && COLON !in model && AccountPrefix(account, model) <= s
    ensures |Split(s, COLON)| >= 4 && Split(s, COLON)[1] == "acct"
    ensures Split(s, COLON)[2] == account && Split(s, COLON)[3] == model
  {
    var rest := s[|AccountPrefix(account, model)|..];
    SplitFour(NS, "acct", account, model, rest);
    assert s == AccountPrefix(account, model) + rest;
  }

  /** A grant's sweep prefix fits its own markers and no other key, even a grant whose id extends it. */
  lemma GrantPrefixExact(grant: string, k: Key)
    requires COLON !in grant && ValidKey(k)
    ensures GrantPrefix(grant) <= Print(k) <==> k.GrantKey? && k.grant == grant
  {
    SplitPrint(k);
    MarkerParts(k);
    if GrantPrefix(grant) <= Print(k) {
      GrantPrefixParts(grant, Print(k));
    }
    if k.GrantKey? && k.grant == grant {
      Regroup(GrantPrefix(grant), k.model, k.id);
    }
  }

  /** An account's sweep prefix for a model fits exactly that account's markers for that model. */
  lemma AccountPrefixExact(account: string, model: string, k: Key)
    requires COLON !in account && COLON !in model && ValidKey(k)
    ensures AccountPrefix(account, model) <= Print(k) <==> k.AccountKey? && k.account == account && k.model == model
  {
    SplitPrint(k);
    MarkerParts(k);
    if AccountPrefix(account, model) <= Print(k) {
      AccountPrefixParts(account, model, Print(k));
    }
    if k.AccountKey? && k.account == account && k.model == model {
      assert AccountPrefix(account, model) <= Print(k);
    }
  }

  lemma OneLineJoined(a: string, b: string)
    requires Glob.OneLine(a) && Glob.OneLine(b)
    ensures Glob.OneLine(a + ":" + b)
  {
  }

  /** What follows the sweep prefix in a marker is on one line, so a pattern's star reaches over it. */
  lemma MarkerRest(k: Key)
    requires ValidKey(k)
    ensures k.GrantKey? ==> GrantPrefix(k.grant) <= Print(k) && Glob.OneLine(Print(k)[|GrantPrefix(k.grant)|..])
    ensures k.AccountKey? ==>
      AccountPrefix(k.account, k.model) <= Print(k) && Glob.OneLine(Print(k)[|AccountPrefix(k.account, k.model)|..])
  {
    if k.GrantKey? {
      assert Print(k) == GrantPrefix(k.grant) + (k.model + ":" + k.id);
      OneLineJoined(k.model, k.id);
    } else if k.AccountKey? {
      assert Print(k) == AccountPrefix(k.account, k.model) + k.id;
    }
  }

  /** What the sweeps recover from a marker: `split(':')[3]` and `split(':').slice(4).join(':')`. */
  lemma MarkerFields(k: Key)
    requires ValidKey(k) && (k.GrantKey? || k.AccountKey?)
    ensures |Split(Print(k), COLON)| >= 5
    ensures Split(Print(k), COLON)[3] == k.model
    ensures Join(Split(Print(k), COLON)[4..], COLON) == k.id
  {
    SplitPrint(k);
    JoinSplit(k.id, COLON);
    assert Parts(k)[4..] == Split(k.id, COLON);
  }
}
