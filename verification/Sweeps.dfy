/**
  The revocation sweeps as string manipulation: list marker keys by pattern, split each on
  colons, delete the payload it names and then the marker. Shown to remove, in the typed view,
  exactly the markers listed and the payloads they name.
 */
module Sweeps {
  import opened Options
  import opened Text
  import opened Keys
  import opened Storage
  import opened OidcSpec
  import Glob

  /** The payload key a grant marker names, when it names one. */
  function GrantTarget(marker: string): Option<string> {
    var parts := Split(marker, COLON);
    if |parts| < 5 || parts[3] == "" || Join(parts[4..], COLON) == "" then None
    else Some(Print(PayloadKey(parts[3], Join(parts[4..], COLON))))
  }

  /** The payload key an account marker names for one model, when it names one. */
  function AccountTarget(model: string, marker: string): Option<string> {
    var parts := Split(marker, COLON);
    if |parts| < 5 || Join(parts[4..], COLON) == "" then None
    else Some(Print(PayloadKey(model, Join(parts[4..], COLON))))
  }

  function AccountTargetOf(model: string): string -> Option<string> {
    marker => AccountTarget(model, marker)
  }

  /** The keys a sweep over these markers deletes. */
  ghost function Swept(markers: seq<string>, target: string -> Option<string>): set<string> {
    (set m | m in markers) + (set m | m in markers && target(m).Some? :: target(m).value)
  }

  /** What one more marker adds to a sweep. */
  ghost function SweptBy(marker: string, target: string -> Option<string>): set<string> {
    if target(marker).Some? then {marker, target(marker).value} else {marker}
  }

  lemma SweptNone(target: string -> Option<string>)
    ensures Swept([], target) == {}
  {
  }

  lemma SweptNext(markers: seq<string>, i: nat, target: string -> Option<string>)
    requires i < |markers|
    ensures Swept(markers[..i + 1], target) == Swept(markers[..i], target) + SweptBy(markers[i], target)
  {
    assert markers[..i + 1] == markers[..i] + [markers[i]];
    var before, after := Swept(markers[..i], target) + SweptBy(markers[i], target), Swept(markers[..i + 1], target);
    forall s | s in after ensures s in before {
      if s !in markers[..i + 1] {
        var m :| m in markers[..i + 1] && target(m).Some? && target(m).value == s;
        if m != markers[i] { assert m in markers[..i]; }
      }
    }
  }

  /** What a pattern made of a literal prefix and a star lists, in the view. */
  lemma ListedKeys(entries: map<string, Entry>, prefix: string, found: seq<string>)
    requires Clean(entries) && Glob.Literal(prefix) && NS + ":" <= prefix
    requires forall s :: s in found <==> s in entries && Glob.Matches(prefix + "*", s)
    ensures forall s :: s in found ==> Parse(s).Some?
    ensures forall k :: ValidKey(k) ==>
      (Print(k) in found <==> k in View(entries) && prefix <= Print(k) && Glob.OneLine(Print(k)[|prefix|..]))
  {
    forall s | s in found ensures Parse(s).Some? {
      Glob.PrefixPattern(prefix, s);
      assert NS + ":" <= s;
    }
    forall k | ValidKey(k)
      ensures Print(k) in found <==> k in View(entries) && prefix <= Print(k) && Glob.OneLine(Print(k)[|prefix|..])
    {
      Glob.PrefixPattern(prefix, Print(k));
      ViewAt(entries, k);
    }
  }

  /** Deleting a set of strings deletes the keys that print to them. */
  lemma ViewMinus(entries: map<string, Entry>, doomed: set<string>, keys: set<Key>)
    requires forall s :: s in doomed ==> NS + ":" <= s
    requires forall k :: k in View(entries) ==> (k in keys <==> Print(k) in doomed)
    ensures View(entries - doomed) == View(entries) - keys
    ensures Foreign(entries - doomed) == Foreign(entries)
    ensures Clean(entries) ==> Clean(entries - doomed)
  {
    ViewIs(entries);
    ViewUnique(entries - doomed, View(entries) - keys);
  }

  /** The listed strings are the prints of these markers, and each names its payload. */
  ghost predicate Lists(found: seq<string>, target: string -> Option<string>, markers: set<Key>) {
    && (forall k :: k in markers ==> ValidKey(k) && Marker(k))
    && (forall k :: k in markers ==> Print(k) in found && target(Print(k)) == Some(Print(PayloadKey(k.model, k.id))))
    && (forall s :: s in found ==> Parse(s).Some? && Parse(s).value in markers)
  }

  lemma SweptPrints(found: seq<string>, target: string -> Option<string>, markers: set<Key>, k: Key)
    requires Lists(found, target, markers) && ValidKey(k)
    ensures Print(k) in Swept(found, target) <==> k in markers + Named(markers)
  {
    ParsePrint(k);
    if k in Named(markers) {
      var l :| l in markers && Marker(l) && PayloadKey(l.model, l.id) == k;
      assert Print(l) in found;
    } else if Print(k) in Swept(found, target) && Print(k) !in found {
      var m :| m in found && target(m).Some? && target(m).value == Print(k);
      var l := Parse(m).value;
      PrintInjective(PayloadKey(l.model, l.id), k);
      assert false;
    }
  }

  lemma SweptInNamespace(found: seq<string>, target: string -> Option<string>, markers: set<Key>)
    requires Lists(found, target, markers)
    ensures forall s :: s in Swept(found, target) ==> NS + ":" <= s
  {
    forall s | s in Swept(found, target) ensures NS + ":" <= s {
      if s in found {
        PrintOnly(Parse(s).value);
      } else {
        var m :| m in found && target(m).Some? && target(m).value == s;
        InNamespace(PayloadKey(Parse(m).value.model, Parse(m).value.id));
      }
    }
  }

  lemma MinusBoth(t: Typed, a: set<Key>, b: set<Key>)
    ensures t - (a + b) == t - a - b
  {
  }

  /** Removing what a sweep lists removes its markers and their payloads, and nothing else. */
  lemma SweepView(entries: map<string, Entry>, found: seq<string>, target: string -> Option<string>, markers: set<Key>)
    requires Clean(entries) && Lists(found, target, markers)
    ensures View(entries - Swept(found, target)) == Revoked(View(entries), markers)
    ensures Foreign(entries - Swept(found, target)) == Foreign(entries)
    ensures Clean(entries - Swept(found, target))
  {
    SweptInNamespace(found, target, markers);
    forall k | k in View(entries) ensures k in markers + Named(markers) <==> Print(k) in Swept(found, target) {
      SweptPrints(found, target, markers, k);
    }
    ViewMinus(entries, Swept(found, target), markers + Named(markers));
    MinusBoth(View(entries), markers, Named(markers));
  }

  lemma GrantLists(entries: map<string, Entry>, grant: string, found: seq<string>)
    requires Clean(entries) && COLON !in grant && Glob.Literal(GrantPrefix(grant))
    requires forall s :: s in found <==> s in entries && Glob.Matches(GrantPrefix(grant) + "*", s)
    ensures Lists(found, GrantTarget, GrantMarkers(View(entries), grant))
  {
    ListedKeys(entries, GrantPrefix(grant), found);
    forall s | s in found ensures Parse(s).value in GrantMarkers(View(entries), grant) {
      GrantPrefixExact(grant, Parse(s).value);
    }
    forall k | k in GrantMarkers(View(entries), grant)
      ensures Print(k) in found && GrantTarget(Print(k)) == Some(Print(PayloadKey(k.model, k.id)))
    {
      GrantPrefixExact(grant, k);
      MarkerRest(k);
      MarkerFields(k);
    }
  }

  lemma AccountLists(entries: map<string, Entry>, model: string, account: string, found: seq<string>)
    requires Clean(entries) && COLON !in account && COLON !in model && Glob.Literal(AccountPrefix(account, model))
    requires forall s :: s in found <==> s in entries && Glob.Matches(AccountPrefix(account, model) + "*", s)
    ensures Lists(found, AccountTargetOf(model), AccountMarkers(View(entries), model, account))
  {
    ListedKeys(entries, AccountPrefix(account, model), found);
    forall s | s in found ensures Parse(s).value in AccountMarkers(View(entries), model, account) {
      AccountPrefixExact(account, model, Parse(s).value);
    }
    forall k | k in AccountMarkers(View(entries), model, account)
      ensures Print(k) in found && AccountTargetOf(model)(Print(k)) == Some(Print(PayloadKey(k.model, k.id)))
    {
      AccountPrefixExact(account, model, k);
      MarkerRest(k);
      MarkerFields(k);
    }
  }

  /** A listing without repeats is as long as the set of markers it lists. */
  lemma {:induction false} ListedCount(found: seq<string>, markers: set<Key>)
    requires Distinct(found)
    requires forall s :: s in found ==> Parse(s).Some? && Parse(s).value in markers
    requires forall k :: k in markers ==> ValidKey(k) && Print(k) in found
    ensures |found| == |markers|
  {
    if found == [] {
      assert forall k :: k !in markers;
    } else {
      var last := |found| - 1;
      var k := Parse(found[last]).value;
      forall l | l in markers - {k} ensures Print(l) in found[..last] {
        ParsePrint(l);
      }
      ListedCount(found[..last], markers - {k});
    }
  }

  lemma GrantSweep(entries: map<string, Entry>, grant: string, found: seq<string>)
    requires Clean(entries) && COLON !in grant && Glob.Literal(grant)
    requires forall s :: s in found <==> s in entries && Glob.Matches(GrantPrefix(grant) + "*", s)
    ensures View(entries - Swept(found, GrantTarget)) == GrantRevoked(View(entries), grant)
    ensures Foreign(entries - Swept(found, GrantTarget)) == Foreign(entries)
    ensures Clean(entries - Swept(found, GrantTarget))
  {
    GrantLists(entries, grant, found);
    SweepView(entries, found, GrantTarget, GrantMarkers(View(entries), grant));
  }

  lemma AccountSweep(entries: map<string, Entry>, model: string, account: string, found: seq<string>)
    requires Clean(entries) && COLON !in account && COLON !in model && Glob.Literal(account) && Glob.Literal(model)
    requires forall s :: s in found <==> s in entries && Glob.Matches(AccountPrefix(account, model) + "*", s)
    requires Distinct(found)
    ensures View(entries - Swept(found, AccountTargetOf(model))) == AccountRevoked(View(entries), model, account)
    ensures Foreign(entries - Swept(found, AccountTargetOf(model))) == Foreign(entries)
    ensures Clean(entries - Swept(found, AccountTargetOf(model)))
    ensures |found| == |AccountMarkers(View(entries), model, account)|
    ensures forall m :: m in found ==> AccountTargetOf(model)(m).Some?
  {
    AccountLists(entries, model, account, found);
    SweepView(entries, found, AccountTargetOf(model), AccountMarkers(View(entries), model, account));
    ListedCount(found, AccountMarkers(View(entries), model, account));
  }
}
