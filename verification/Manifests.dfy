/** The version bump of a release: package manifests, their internal ranges, and the next version number. */
module Manifests {
  import opened Options
  import opened Text

  const SCOPE: string := "@nauth-toolkit/"
  const WORKSPACE: string := "workspace:"

  /** A package.json as the release script changes it; a table may be missing. */
  datatype Manifest = Manifest(
    name: string,
    version: string,
    dependencies: Option<map<string, string>>,
    peerDependencies: Option<map<string, string>>)

  predicate Internal(dep: string) {
    StartsWith(dep, SCOPE)
  }

  predicate Caret(s: string) {
    s != "" && (s[0] == '^' || s[0] == '~')
  }

  /** A workspace reference as a published range. */
  function Resolved(current: string, version: string): string
    requires StartsWith(current, WORKSPACE)
  {
    if current[|WORKSPACE|..] == "~" then "~" + version else "^" + version
  }

  function BumpedRange(current: string, version: string): string {
    if StartsWith(current, WORKSPACE) then Resolved(current, version)
    else if Caret(current) then [current[0]] + version
    else version
  }

  function ResolvedRange(current: string, version: string): string {
    if StartsWith(current, WORKSPACE) then Resolved(current, version) else current
  }

  function BumpedTable(t: Option<map<string, string>>, version: string): Option<map<string, string>> {
    if t.None? then None
    else Some(map dep | dep in t.value :: if Internal(dep) then BumpedRange(t.value[dep], version) else t.value[dep])
  }

  function ResolvedTable(t: Option<map<string, string>>, version: string): Option<map<string, string>> {
    if t.None? then None
    else Some(map dep | dep in t.value :: if Internal(dep) then ResolvedRange(t.value[dep], version) else t.value[dep])
  }

  function Bumped(m: Manifest, version: string): Manifest {
    m.(version := version,
       dependencies := BumpedTable(m.dependencies, version),
       peerDependencies := BumpedTable(m.peerDependencies, version))
  }

  function WorkspaceResolved(m: Manifest, version: string): Manifest {
    m.(dependencies := ResolvedTable(m.dependencies, version),
       peerDependencies := ResolvedTable(m.peerDependencies, version))
  }

  /** No internal range is a workspace reference. */
  ghost predicate NoWorkspace(t: Option<map<string, string>>) {
    t.Some? ==> forall dep :: dep in t.value && Internal(dep) ==> !StartsWith(t.value[dep], WORKSPACE)
  }

  ghost predicate Publishable(m: Manifest) {
    NoWorkspace(m.dependencies) && NoWorkspace(m.peerDependencies)
  }

  /** Every internal range is for this version: exactly, with a caret or with a tilde. */
  ghost predicate Carries(t: Option<map<string, string>>, version: string) {
    t.Some? ==> forall dep :: dep in t.value && Internal(dep) ==>
      t.value[dep] in {version, "^" + version, "~" + version}
  }

  /** The same dependencies, and the same ranges for those from elsewhere. */
  ghost predicate SameOutside(t: Option<map<string, string>>, u: Option<map<string, string>>) {
    && (t.Some? <==> u.Some?)
    && (t.Some? ==> t.value.Keys == u.value.Keys && forall dep :: dep in t.value && !Internal(dep) ==>
      u.value[dep] == t.value[dep])
  }

  lemma RangeCarries(current: string, version: string)
    ensures BumpedRange(current, version) in {version, "^" + version, "~" + version}
  {
    if !StartsWith(current, WORKSPACE) && Caret(current) {
      assert [current[0]] == "^" || [current[0]] == "~";
    }
  }

  lemma TableCarries(t: Option<map<string, string>>, version: string)
    ensures Carries(BumpedTable(t, version), version) && SameOutside(t, BumpedTable(t, version))
  {
    hide BumpedRange, Internal;
    if t.Some? {
      forall dep | dep in t.value
        ensures BumpedRange(t.value[dep], version) in {version, "^" + version, "~" + version}
      {
        RangeCarries(t.value[dep], version);
      }
    }
  }

  /** After a bump the manifest and every internal range carry the new version, and nothing else has changed. */
  lemma BumpCarries(m: Manifest, version: string)
    ensures Bumped(m, version).name == m.name && Bumped(m, version).version == version
    ensures Carries(Bumped(m, version).dependencies, version) && Carries(Bumped(m, version).peerDependencies, version)
    ensures SameOutside(m.dependencies, Bumped(m, version).dependencies)
    ensures SameOutside(m.peerDependencies, Bumped(m, version).peerDependencies)
  {
    hide BumpedTable, Carries, SameOutside;
    TableCarries(m.dependencies, version);
    TableCarries(m.peerDependencies, version);
  }

  /** A range after a bump: a workspace reference by its kind, any other with the mark it had. */
  function RangeAfterBump(current: string, version: string): string {
    if current == "workspace:~" then "~" + version
    else if "workspace:" <= current then "^" + version
    else if "^" <= current then "^" + version
    else if "~" <= current then "~" + version
    else version
  }

  /** A range as published: a workspace reference by its kind, any other as it is. */
  function RangeAsPublished(current: string, version: string): string {
    if current == "workspace:~" then "~" + version
    else if "workspace:" <= current then "^" + version
    else current
  }

  lemma RangesExactly(current: string, version: string)
    ensures BumpedRange(current, version) == RangeAfterBump(current, version)
    ensures ResolvedRange(current, version) == RangeAsPublished(current, version)
  {
    assert StartsWith(current, WORKSPACE) <==> "workspace:" <= current;
    if "workspace:" <= current {
      var kind := current[|WORKSPACE|..];
      assert current == "workspace:" + kind;
      assert kind == "~" <==> current == "workspace:~" by {
        assert "workspace:~" == "workspace:" + "~";
      }
    }
  }

  /** The ranges of a table after this change of its internal ones. */
  ghost predicate Ranges(t: Option<map<string, string>>, t2: Option<map<string, string>>,
      change: (string, string) -> string, version: string) {
    && (t.Some? <==> t2.Some?)
    && (t.Some? ==> t2.value.Keys == t.value.Keys && forall dep :: dep in t.value ==>
      t2.value[dep] == if "@nauth-toolkit/" <= dep then change(t.value[dep], version) else t.value[dep])
  }

  lemma TableRanges(t: Option<map<string, string>>, version: string)
    ensures Ranges(t, BumpedTable(t, version), RangeAfterBump, version)
    ensures Ranges(t, ResolvedTable(t, version), RangeAsPublished, version)
  {
    hide BumpedRange, ResolvedRange, RangeAfterBump, RangeAsPublished;
    if t.Some? {
      forall dep | dep in t.value
        ensures BumpedRange(t.value[dep], version) == RangeAfterBump(t.value[dep], version)
        ensures ResolvedRange(t.value[dep], version) == RangeAsPublished(t.value[dep], version)
      {
        RangesExactly(t.value[dep], version);
      }
    }
  }

  /** Every internal range of either table, bumped and resolved, by what it was. */
  lemma RangesOf(m: Manifest, version: string)
    ensures Ranges(m.dependencies, Bumped(m, version).dependencies, RangeAfterBump, version)
    ensures Ranges(m.peerDependencies, Bumped(m, version).peerDependencies, RangeAfterBump, version)
    ensures Ranges(m.dependencies, WorkspaceResolved(m, version).dependencies, RangeAsPublished, version)
    ensures Ranges(m.peerDependencies, WorkspaceResolved(m, version).peerDependencies, RangeAsPublished, version)
  {
    hide BumpedTable, ResolvedTable, Ranges;
    TableRanges(m.dependencies, version);
    TableRanges(m.peerDependencies, version);
  }

  /** A manifest with one internal dependency, to show what a version can break. */
  function OneDependency(range: string): Manifest {
    Manifest("", "", Some(map[SCOPE := range]), None)
  }

  lemma OneBumped(range: string, version: string)
    ensures Bumped(OneDependency(range), version).dependencies == Some(map[SCOPE := BumpedRange(range, version)])
  {
    hide BumpedRange;
    assert Internal(SCOPE) by { assert SCOPE[..|SCOPE|] == SCOPE; }
    assert Bumped(OneDependency(range), version).dependencies.value == map[SCOPE := BumpedRange(range, version)];
  }

  lemma MarkedIsNotWorkspace(s: string)
    requires Caret(s)
    ensures !StartsWith(s, WORKSPACE)
  {
    if |WORKSPACE| <= |s| {
      assert s[..|WORKSPACE|][0] == s[0];
    }
  }

  lemma CarriedIsPublishable(m: Manifest, version: string)
    requires !StartsWith(version, WORKSPACE)
    ensures Publishable(Bumped(m, version))
  {
    hide StartsWith, Internal, BumpedTable, SameOutside;
    BumpCarries(m, version);
    MarkedIsNotWorkspace("^" + version);
    MarkedIsNotWorkspace("~" + version);
  }

  lemma ResolvedSame(m: Manifest, version: string)
    requires Publishable(m)
    ensures WorkspaceResolved(m, version) == m
  {
    hide StartsWith, Internal;
    TableResolvedSame(m.dependencies, version);
    TableResolvedSame(m.peerDependencies, version);
  }

  lemma TableResolvedSame(t: Option<map<string, string>>, version: string)
    requires NoWorkspace(t)
    ensures ResolvedTable(t, version) == t
  {
    hide StartsWith, Internal;
    if t.Some? {
      assert ResolvedTable(t, version).value == t.value;
    }
  }

  /**
    No workspace reference is left after a bump, and resolving is then a no-op, exactly for versions that are not such a
    reference.
   */
  lemma ResolveAfterBump(version: string)
    ensures (forall m :: Publishable(Bumped(m, version))) <==> !StartsWith(version, WORKSPACE)
    ensures (forall m, v :: WorkspaceResolved(Bumped(m, version), v) == Bumped(m, version)) <==>
      !StartsWith(version, WORKSPACE)
  {
    hide StartsWith, Bumped, WorkspaceResolved;
    if StartsWith(version, WORKSPACE) {
      WorkspaceVersion(version);
    } else {
      forall m ensures Publishable(Bumped(m, version)) {
        CarriedIsPublishable(m, version);
      }
      forall m, v ensures WorkspaceResolved(Bumped(m, version), v) == Bumped(m, version) {
        ResolvedSame(Bumped(m, version), v);
      }
    }
  }

  lemma WorkspaceVersion(version: string)
    requires StartsWith(version, WORKSPACE)
    ensures !Publishable(Bumped(OneDependency("1"), version))
    ensures WorkspaceResolved(Bumped(OneDependency("1"), version), "") != Bumped(OneDependency("1"), version)
  {
    OneBumped("1", version);
    var b := Bumped(OneDependency("1"), version);
    assert Internal(SCOPE) by { assert SCOPE[..|SCOPE|] == SCOPE; }
    assert b.dependencies.value[SCOPE] == version;
    assert WorkspaceResolved(b, "").dependencies.value[SCOPE] == Resolved(version, "");
    assert |Resolved(version, "")| == 1 && |version| >= |WORKSPACE|;
  }

  lemma ResolvedMarked(current: string, version: string)
    requires StartsWith(current, WORKSPACE)
    ensures Resolved(current, version) == "~" + version || Resolved(current, version) == "^" + version
    ensures !StartsWith(Resolved(current, version), WORKSPACE)
  {
    MarkedIsNotWorkspace(Resolved(current, version));
  }

  lemma RangeBumpAfterResolve(current: string, version: string, next: string)
    ensures !StartsWith(ResolvedRange(current, version), WORKSPACE)
    ensures BumpedRange(ResolvedRange(current, version), next) == BumpedRange(current, next)
  {
    hide StartsWith;
    if StartsWith(current, WORKSPACE) {
      ResolvedMarked(current, version);
    }
  }

  lemma TableBumpAfterResolve(t: Option<map<string, string>>, version: string, next: string)
    ensures NoWorkspace(ResolvedTable(t, version))
    ensures BumpedTable(ResolvedTable(t, version), next) == BumpedTable(t, next)
  {
    hide StartsWith, Internal, BumpedRange, ResolvedRange;
    if t.Some? {
      forall dep | dep in t.value
        ensures !StartsWith(ResolvedRange(t.value[dep], version), WORKSPACE)
        ensures BumpedRange(ResolvedRange(t.value[dep], version), next) == BumpedRange(t.value[dep], next)
      {
        RangeBumpAfterResolve(t.value[dep], version, next);
      }
      assert BumpedTable(ResolvedTable(t, version), next).value == BumpedTable(t, next).value;
    }
  }

  /** Whatever was resolved has no workspace reference left, and a later bump does not see the difference. */
  lemma BumpAfterResolve(m: Manifest, version: string, next: string)
    ensures Publishable(WorkspaceResolved(m, version))
    ensures Bumped(WorkspaceResolved(m, version), next) == Bumped(m, next)
  {
    hide NoWorkspace, BumpedTable, ResolvedTable;
    TableBumpAfterResolve(m.dependencies, version, next);
    TableBumpAfterResolve(m.peerDependencies, version, next);
  }

  lemma RangeBumpTwice(current: string, first: string, second: string)
    requires !Caret(first) && !StartsWith(first, WORKSPACE)
    ensures BumpedRange(BumpedRange(current, first), second) == BumpedRange(current, second)
  {
    hide StartsWith;
    if StartsWith(current, WORKSPACE) {
      ResolvedMarked(current, first);
    } else if Caret(current) {
      MarkedIsNotWorkspace([current[0]] + first);
    }
  }

  lemma TableBumpTwice(t: Option<map<string, string>>, first: string, second: string)
    requires !Caret(first) && !StartsWith(first, WORKSPACE)
    ensures BumpedTable(BumpedTable(t, first), second) == BumpedTable(t, second)
  {
    hide Caret, StartsWith, Internal, BumpedRange;
    if t.Some? {
      forall dep | dep in t.value
        ensures BumpedRange(BumpedRange(t.value[dep], first), second) == BumpedRange(t.value[dep], second)
      {
        RangeBumpTwice(t.value[dep], first, second);
      }
      assert BumpedTable(BumpedTable(t, first), second).value == BumpedTable(t, second).value;
    }
  }

  /** A first version with a range mark of its own leaves the mark behind. */
  lemma MarkedFirst(first: string, second: string)
    requires Caret(first) || StartsWith(first, WORKSPACE)
    ensures Bumped(Bumped(OneDependency("1"), first), second) != Bumped(OneDependency("1"), second)
  {
    hide Bumped;
    OneBumped("1", first);
    OneBumped("1", second);
    assert Bumped(OneDependency("1"), first).dependencies == Some(map[SCOPE := first]);
    MarkedTwice(first, second);
  }

  lemma MarkedTwice(first: string, second: string)
    requires Caret(first) || StartsWith(first, WORKSPACE)
    requires Bumped(OneDependency("1"), first).dependencies == Some(map[SCOPE := first])
    ensures
      var b := Bumped(Bumped(OneDependency("1"), first), second).dependencies;
      b.Some? && SCOPE in b.value && |b.value[SCOPE]| == |second| + 1
  {
    assert Internal(SCOPE) by { assert SCOPE[..|SCOPE|] == SCOPE; }
    assert |BumpedRange(first, second)| == |second| + 1;
  }

  /**
    Two bumps in a row come to the second alone, for every manifest, exactly when the first version carries no range
    mark.
   */
  lemma BumpTwice(first: string, second: string)
    ensures (forall m :: Bumped(Bumped(m, first), second) == Bumped(m, second)) <==>
      !Caret(first) && !StartsWith(first, WORKSPACE)
  {
    hide Caret, StartsWith, BumpedTable;
    if Caret(first) || StartsWith(first, WORKSPACE) {
      MarkedFirst(first, second);
    } else {
      forall m ensures Bumped(Bumped(m, first), second) == Bumped(m, second) {
        TableBumpTwice(m.dependencies, first, second);
        TableBumpTwice(m.peerDependencies, first, second);
      }
    }
  }

  /** A whole number in decimal digits. */
  function Decimal(n: nat): string {
    if n < 10 then [DIGITS[n]] else Decimal(n / 10) + [DIGITS[n % 10]]
  }

  const DIGITS: string := "0123456789"

  predicate Digit(c: char) {
    '0' <= c <= '9'
  }

  /** The number the leading digits of a part spell, if it has any. */
  function ParseInt(s: string, sofar: Option<nat>): Option<nat> {
    if s == "" || !Digit(s[0]) then sofar
    else ParseInt(s[1..], Some((if sofar.Some? then sofar.value else 0) * 10 + (s[0] - '0') as nat))
  }

  function Succ(part: string): string {
    var n := ParseInt(if part == "" then "0" else part, None);
    if n.Some? then Decimal(n.value + 1) else "NaN"
  }

  function Part(parts: seq<string>, i: nat): string {
    if i < |parts| then parts[i] else "undefined"
  }

  function IncrementVersion(version: string, minor: bool): string {
    var parts := Split(version, '.');
    if minor then Join([Part(parts, 0), Succ(if 1 < |parts| then parts[1] else ""), "0"], '.')
    else Join([Part(parts, 0), Part(parts, 1), Succ(if 2 < |parts| then parts[2] else "")], '.')
  }

  lemma {:induction false} DecimalDigits(n: nat)
    ensures Decimal(n) != "" && forall c :: c in Decimal(n) ==> Digit(c)
  {
    if n >= 10 {
      DecimalDigits(n / 10);
    }
  }

  lemma {:induction false} ParseAppend(s: string, d: char, sofar: Option<nat>)
    requires (forall c :: c in s ==> Digit(c)) && Digit(d)
    ensures
      var n := ParseInt(s, sofar);
      ParseInt(s + [d], sofar) == Some((if n.Some? then n.value else 0) * 10 + (d - '0') as nat)
  {
    if s == "" {
      assert s + [d] == [d];
    } else {
      assert Digit(s[0]);
      assert (s + [d])[1..] == s[1..] + [d];
      ParseAppend(s[1..], d, Some((if sofar.Some? then sofar.value else 0) * 10 + (s[0] - '0') as nat));
    }
  }

  lemma {:induction false} ParseDecimal(n: nat)
    ensures ParseInt(Decimal(n), None) == Some(n)
  {
    if n < 10 {
      assert Decimal(n)[1..] == "";
    } else {
      ParseDecimal(n / 10);
      DecimalDigits(n / 10);
      ParseAppend(Decimal(n / 10), DIGITS[n % 10], None);
    }
  }

  /** A plain version `major.minor.patch`. */
  function Version(major: nat, minor: nat, patch: nat): string {
    Decimal(major) + "." + Decimal(minor) + "." + Decimal(patch)
  }

  lemma VersionParts(major: nat, minor: nat, patch: nat)
    ensures Split(Version(major, minor, patch), '.') == [Decimal(major), Decimal(minor), Decimal(patch)]
  {
    hide Split, Decimal;
    DecimalDigits(major);
    DecimalDigits(minor);
    DecimalDigits(patch);
    var a, b, c := Decimal(major), Decimal(minor), Decimal(patch);
    SplitFree(c, '.');
    SplitHead(b, c, '.');
    SplitHead(a, b + ['.'] + c, '.');
    assert Version(major, minor, patch) == a + ['.'] + (b + ['.'] + c);
  }

  /** The next version of a plain one is plain: one patch more, or one minor more and patch zero. */
  lemma IncrementPlain(major: nat, minor: nat, patch: nat)
    ensures IncrementVersion(Version(major, minor, patch), false) == Version(major, minor, patch + 1)
    ensures IncrementVersion(Version(major, minor, patch), true) == Version(major, minor + 1, 0)
  {
    VersionParts(major, minor, patch);
    SuccDecimal(minor);
    SuccDecimal(patch);
    assert Decimal(0) == "0";
    hide Split, Join, Decimal, Succ;
    Joined3(Decimal(major), Decimal(minor), Decimal(patch + 1));
    Joined3(Decimal(major), Decimal(minor + 1), Decimal(0));
  }

  lemma SuccDecimal(n: nat)
    ensures Succ(Decimal(n)) == Decimal(n + 1)
  {
    ParseDecimal(n);
    DecimalDigits(n);
  }

  lemma Joined3(a: string, b: string, c: string)
    ensures Join([a, b, c], '.') == a + "." + b + "." + c
  {
    JoinConcat([a], [b, c], '.');
    JoinConcat([b], [c], '.');
    assert [a] + [b, c] == [a, b, c] && [b] + [c] == [b, c];
    assert a + ['.'] + (b + ['.'] + c) == a + "." + b + "." + c;
  }

  /** So a release from a plain version leaves no workspace reference, and can be bumped again with the same effect. */
  lemma PlainVersionsBump(major: nat, minor: nat, patch: nat)
    ensures !Caret(Version(major, minor, patch)) && !StartsWith(Version(major, minor, patch), WORKSPACE)
  {
    hide Decimal;
    DecimalDigits(major);
    var v := Version(major, minor, patch);
    assert v[0] == Decimal(major)[0] && Digit(Decimal(major)[0]);
    if |WORKSPACE| <= |v| {
      assert v[..|WORKSPACE|][0] == v[0];
    }
  }
}
