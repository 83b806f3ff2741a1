/** The release itself: bump every manifest, then publish each package, listed ones first. */
module Publishing {
  import opened Options
  import opened Text
  import opened Manifests

  const PUBLISH_ORDER: seq<string> := [
    "core", "recaptcha", "client", "client-angular", "database/typeorm-postgres", "database/typeorm-mysql",
    "storage/database", "storage/redis", "email/console", "email/nodemailer", "sms/console", "sms/aws-sns",
    "mfa/totp", "mfa/sms", "mfa/email", "mfa/passkey", "social/google", "social/apple", "social/facebook",
    "social/microsoft", "oidc-provider", "nestjs"]

  /** What a publish throws: a failed command's error output, if it was captured, and a message. */
  datatype PublishError = PublishError(stderr: Option<string>, message: string)

  datatype Attempt = Published | Threw(error: PublishError)

  const PREVIOUSLY: string := "previously published"
  const CONFLICT: string := "EPUBLISHCONFLICT"

  /** The text the first loop looks at. */
  function ErrorText(e: PublishError): string {
    if Truthy(e.stderr) then e.stderr.value else e.message
  }

  predicate SaysPublished(text: string) {
    Contains(text, PREVIOUSLY) || Contains(text, CONFLICT)
  }

  datatype Mode = Mode(dryRun: bool, skipBump: bool)

  /** The members of `xs` that are in `of`, or those that are not. */
  function Kept(xs: seq<string>, of: seq<string>, inside: bool): seq<string> {
    if xs == [] then []
    else
      var rest := Kept(xs[..|xs| - 1], of, inside);
      if (xs[|xs| - 1] in of) == inside then rest + [xs[|xs| - 1]] else rest
  }

  /** The packages in the order they are attempted: listed ones as listed, then the others as found. */
  function Attempts(order: seq<string>, packages: seq<string>): seq<string> {
    Kept(order, packages, true) + Kept(packages, order, false)
  }

  /**
    Only for a listed package does an error that says it is there already count as a success; a dry run never fails.
   */
  predicate Fails(order: seq<string>, x: string, registry: string -> Attempt, dryRun: bool) {
    !dryRun && registry(x).Threw? && !(x in order && SaysPublished(ErrorText(registry(x).error)))
  }

  function Failures(xs: seq<string>, order: seq<string>, registry: string -> Attempt, dryRun: bool): nat {
    if xs == [] then 0
    else
      Failures(xs[..|xs| - 1], order, registry, dryRun)
      + if Fails(order, xs[|xs| - 1], registry, dryRun) then 1 else 0
  }

  /** The manifest a package is published with. */
  function Final(m: Manifest, mode: Mode, version: string): Manifest {
    if mode.dryRun then m
    else if mode.skipBump then WorkspaceResolved(m, version)
    else WorkspaceResolved(Bumped(m, version), version)
  }

  /**
    An attempt fails exactly when its command did, unless the package is listed and the command's error output, or
    without any its message, holds one of the two phrases by which npm says that the version is there.
   */
  lemma FailsExactly(order: seq<string>, x: string, registry: string -> Attempt)
    ensures Fails(order, x, registry, false) <==>
      match registry(x)
      case Published => false
      case Threw(PublishError(stderr, message)) =>
        var text := if stderr.None? || stderr.value == "" then message else stderr.value;
        x !in order || forall i: nat :: !At(text, "previously published", i) && !At(text, "EPUBLISHCONFLICT", i)
    ensures !Fails(order, x, registry, true)
  {
    hide Contains, At;
    if registry(x).Threw? {
      ContainsAt(ErrorText(registry(x).error), PREVIOUSLY);
      ContainsAt(ErrorText(registry(x).error), CONFLICT);
    }
  }

  lemma {:induction false} KeptIn(xs: seq<string>, of: seq<string>, inside: bool)
    ensures forall x :: x in Kept(xs, of, inside) <==> x in xs && (x in of) == inside
    ensures Distinct(xs) ==> Distinct(Kept(xs, of, inside))
  {
    if xs == [] {
    } else {
      var n := |xs| - 1;
      KeptIn(xs[..n], of, inside);
      assert xs == xs[..n] + [xs[n]];
      assert Distinct(xs) ==> xs[n] !in xs[..n];
    }
  }

  /** Each package is attempted, and nothing else; a package list without duplicates is attempted once each. */
  lemma AttemptsAll(order: seq<string>, packages: seq<string>)
    ensures forall x :: x in Attempts(order, packages) <==> x in packages
    ensures Distinct(order) && Distinct(packages) ==>
      Distinct(Attempts(order, packages)) && |Attempts(order, packages)| == |packages|
  {
    hide Kept;
    KeptIn(order, packages, true);
    KeptIn(packages, order, false);
    if Distinct(order) && Distinct(packages) {
      DistinctConcat(Kept(order, packages, true), Kept(packages, order, false));
      SameLength(Attempts(order, packages), packages);
    }
  }

  lemma DistinctConcat(xs: seq<string>, ys: seq<string>)
    requires Distinct(xs) && Distinct(ys) && forall x :: x in xs ==> x !in ys
    ensures Distinct(xs + ys)
  {
    forall i, j | 0 <= i < j < |xs + ys| ensures (xs + ys)[i] != (xs + ys)[j] {
      if i < |xs| <= j {
        assert xs[i] in xs && ys[j - |xs|] in ys;
      }
    }
  }

  function Elements(xs: seq<string>): set<string> {
    set x | x in xs
  }

  lemma {:induction false} DistinctSize(xs: seq<string>)
    requires Distinct(xs)
    ensures |Elements(xs)| == |xs|
  {
    if xs == [] {
    } else {
      var n := |xs| - 1;
      DistinctSize(xs[..n]);
      assert Elements(xs) == Elements(xs[..n]) + {xs[n]};
      assert xs[n] !in Elements(xs[..n]);
    }
  }

  lemma SameLength(xs: seq<string>, ys: seq<string>)
    requires Distinct(xs) && Distinct(ys) && forall x :: x in xs <==> x in ys
    ensures |xs| == |ys|
  {
    DistinctSize(xs);
    DistinctSize(ys);
    assert Elements(xs) == Elements(ys);
  }

  lemma {:induction false} KeptWhole(xs: seq<string>)
    ensures forall of: seq<string> :: (forall x :: x in xs ==> x in of) ==> Kept(xs, of, true) == xs
  {
    if xs == [] {
    } else {
      var n := |xs| - 1;
      KeptWhole(xs[..n]);
      assert xs == xs[..n] + [xs[n]];
    }
  }

  lemma {:induction false} KeptNothing(xs: seq<string>, of: seq<string>, inside: bool)
    requires forall x :: x in xs ==> (x in of) != inside
    ensures Kept(xs, of, inside) == []
  {
    if xs == [] {
    } else {
      KeptNothing(xs[..|xs| - 1], of, inside);
    }
  }

  function Deduped(xs: seq<string>): seq<string> {
    if xs == [] then []
    else
      var rest := Deduped(xs[..|xs| - 1]);
      if xs[|xs| - 1] in rest then rest else rest + [xs[|xs| - 1]]
  }

  lemma {:induction false} DedupedIn(xs: seq<string>)
    ensures Distinct(Deduped(xs)) && forall x :: x in Deduped(xs) <==> x in xs
  {
    if xs == [] {
    } else {
      var n := |xs| - 1;
      DedupedIn(xs[..n]);
      assert xs == xs[..n] + [xs[n]];
    }
  }

  /** Every set of packages is attempted exactly once each if and only if the list has no duplicates. */
  lemma ExactlyOnce(order: seq<string>)
    ensures (forall packages :: Distinct(packages) ==> Distinct(Attempts(order, packages))) <==> Distinct(order)
  {
    hide Kept;
    if Distinct(order) {
      forall packages | Distinct(packages) ensures Distinct(Attempts(order, packages)) {
        AttemptsAll(order, packages);
      }
    } else {
      var packages := Deduped(order);
      DedupedIn(order);
      KeptWhole(order);
      KeptNothing(packages, order, false);
      assert Attempts(order, packages) == order;
    }
  }

  lemma {:induction false} KeptInOrder(xs: seq<string>, of: seq<string>, inside: bool, i: nat, j: nat)
    requires i < j < |Kept(xs, of, inside)|
    ensures Before(xs, Kept(xs, of, inside)[i], Kept(xs, of, inside)[j])
  {
    var n := |xs| - 1;
    var rest := Kept(xs[..n], of, inside);
    if j < |rest| {
      KeptInOrder(xs[..n], of, inside, i, j);
      var p, q :| 0 <= p < q < n && xs[..n][p] == rest[i] && xs[..n][q] == rest[j];
      assert xs[p] == rest[i] && xs[q] == rest[j];
    } else {
      KeptIn(xs[..n], of, inside);
      assert rest[i] in xs[..n];
      var p :| 0 <= p < n && xs[p] == rest[i];
      assert xs[n] == Kept(xs, of, inside)[j];
    }
  }

  ghost predicate Before(xs: seq<string>, x: string, y: string) {
    exists p, q :: 0 <= p < q < |xs| && xs[p] == x && xs[q] == y
  }

  /** Of two attempts, the later is listed only if both are, in the list's order; two unlisted ones come as found. */
  lemma AttemptOrder(order: seq<string>, packages: seq<string>, i: nat, j: nat)
    requires i < j < |Attempts(order, packages)|
    ensures
      var x, y := Attempts(order, packages)[i], Attempts(order, packages)[j];
      && (y in order ==> x in order && Before(order, x, y))
      && (x !in order ==> y !in order && Before(packages, x, y))
  {
    hide Kept, Before;
    KeptIn(order, packages, true);
    KeptIn(packages, order, false);
    var listed, others := Kept(order, packages, true), Kept(packages, order, false);
    if j < |listed| {
      KeptInOrder(order, packages, true, i, j);
      assert listed[i] in listed && listed[j] in listed;
    } else {
      assert others[j - |listed|] in others;
      if i < |listed| {
        assert listed[i] in listed;
      } else {
        assert others[i - |listed|] in others;
        KeptInOrder(packages, order, false, i - |listed|, j - |listed|);
      }
    }
  }

  /** No attempt fails exactly when no package's attempt fails. */
  lemma {:induction false} NoFailures(xs: seq<string>, order: seq<string>, registry: string -> Attempt, dryRun: bool)
    ensures Failures(xs, order, registry, dryRun) == 0 <==> forall x :: x in xs ==> !Fails(order, x, registry, dryRun)
    ensures Failures(xs, order, registry, dryRun) <= |xs|
  {
    hide Fails;
    if xs == [] {
    } else {
      var n := |xs| - 1;
      NoFailures(xs[..n], order, registry, dryRun);
      assert xs == xs[..n] + [xs[n]];
    }
  }

  /** Enough of a listed path to tell it from the others: its length and one character. */
  function Mark(s: string): int
    requires |s| > 4
  {
    1000 * |s| + (if |s| == 11 then s[4] else s[1]) as int
  }

  function Marks(xs: seq<string>): seq<int> {
    seq(|xs|, i requires 0 <= i < |xs| => if |xs[i]| > 4 then Mark(xs[i]) else 0)
  }

  const ORDER_MARKS: seq<int> :=
    [0, 9101, 6108, 14108, 25097, 22097, 16116, 13116, 13109, 16109, 11099, 11097, 8102, 7102, 9102, 11112, 13111,
    12111, 15111, 16111, 13105, 6101]

  lemma OrderMarks()
    ensures Marks(PUBLISH_ORDER) == ORDER_MARKS
  {
  }

  lemma MarksDistinct()
    ensures forall i, j :: 0 <= i < j < |ORDER_MARKS| ==> ORDER_MARKS[i] != ORDER_MARKS[j]
  {
  }

  /** The release's own list has no duplicates. */
  lemma PublishOrderDistinct()
    ensures Distinct(PUBLISH_ORDER)
  {
    OrderMarks();
    MarksDistinct();
    forall i, j | 0 <= i < j < |PUBLISH_ORDER| ensures PUBLISH_ORDER[i] != PUBLISH_ORDER[j] {
      assert Marks(PUBLISH_ORDER)[i] != Marks(PUBLISH_ORDER)[j];
    }
  }

  /** Outside a dry run every manifest is published without workspace references, whatever the version. */
  lemma FinalPublishable(m: Manifest, mode: Mode, version: string)
    requires !mode.dryRun
    ensures Publishable(Final(m, mode, version))
    ensures !mode.skipBump && !StartsWith(version, WORKSPACE) ==> Final(m, mode, version) == Bumped(m, version)
  {
    hide Bumped, WorkspaceResolved, Publishable, StartsWith;
    BumpAfterResolve(m, version, "");
    BumpAfterResolve(Bumped(m, version), version, "");
    ResolveAfterBump(version);
  }

  /**
    What each mode makes of a manifest: nothing in a dry run; without a bump its own version, with its workspace
    references resolved; else the new version, with every internal range bumped by its kind and then resolved.
   */
  lemma FinalExactly(m: Manifest, mode: Mode, version: string)
    ensures var last := Final(m, mode, version);
      && last.name == m.name
      && last.version == (if mode.dryRun || mode.skipBump then m.version else version)
      && (mode.dryRun ==> last == m)
      && (!mode.dryRun && mode.skipBump ==>
            && Ranges(m.dependencies, last.dependencies, RangeAsPublished, version)
            && Ranges(m.peerDependencies, last.peerDependencies, RangeAsPublished, version))
      && (!mode.dryRun && !mode.skipBump ==>
            && Ranges(m.dependencies, last.dependencies, RangeAfterBoth, version)
            && Ranges(m.peerDependencies, last.peerDependencies, RangeAfterBoth, version))
  {
    hide RangeAfterBump, RangeAsPublished, BumpedTable, ResolvedTable;
    RangesOf(m, version);
    RangesOf(Bumped(m, version), version);
  }

  function RangeAfterBoth(current: string, version: string): string {
    RangeAsPublished(RangeAfterBump(current, version), version)
  }

  /** The working tree's manifests, by the relative path of their package, and the tallies of a release. */
  class Release {
    const order: seq<string>
    const mode: Mode
    const registry: string -> Attempt
    var manifests: map<string, Manifest>
    var attempts: seq<string>
    var success: nat
    var failed: nat

    constructor (order: seq<string>, mode: Mode, registry: string -> Attempt, manifests: map<string, Manifest>)
      ensures this.order == order && this.mode == mode && this.registry == registry && this.manifests == manifests
      ensures attempts == [] && success == 0 && failed == 0
    {
      this.order, this.mode, this.registry, this.manifests := order, mode, registry, manifests;
      attempts, success, failed := [], 0, 0;
    }

    /** One dependency table, range by range. */
    static method BumpTable(table: map<string, string>, version: string) returns (t: map<string, string>)
      ensures BumpedTable(Some(table), version) == Some(t)
    {
      hide StartsWith, Internal, Resolved;
      t := table;
      var todo := table.Keys;
      while todo != {}
        invariant todo <= table.Keys == t.Keys
        invariant forall dep :: dep in todo ==> t[dep] == table[dep]
        invariant forall dep :: dep in table && dep !in todo ==>
          t[dep] == if Internal(dep) then BumpedRange(table[dep], version) else table[dep]
        decreases |todo|
      {
        var dep :| dep in todo;
        todo := todo - {dep};
        if Internal(dep) {
          var current := t[dep];
          if StartsWith(current, WORKSPACE) {
            t := t[dep := Resolved(current, version)];
          } else {
            t := t[dep := if Caret(current) then [current[0]] + version else version];
          }
        }
      }
      assert BumpedTable(Some(table), version).value == t;
    }

    static method ResolveTable(table: map<string, string>, version: string) returns (t: map<string, string>)
      ensures ResolvedTable(Some(table), version) == Some(t)
    {
      hide StartsWith, Internal, Resolved;
      t := table;
      var todo := table.Keys;
      while todo != {}
        invariant todo <= table.Keys == t.Keys
        invariant forall dep :: dep in todo ==> t[dep] == table[dep]
        invariant forall dep :: dep in table && dep !in todo ==>
          t[dep] == if Internal(dep) then ResolvedRange(table[dep], version) else table[dep]
        decreases |todo|
      {
        var dep :| dep in todo;
        todo := todo - {dep};
        if Internal(dep) && StartsWith(t[dep], WORKSPACE) {
          t := t[dep := Resolved(t[dep], version)];
        }
      }
      assert ResolvedTable(Some(table), version).value == t;
    }

    method UpdatePackageVersion(path: string, newVersion: string)
      requires path in manifests
      modifies this`manifests
      ensures manifests == old(manifests)[path := Bumped(old(manifests)[path], newVersion)]
    {
      hide BumpedRange, Internal;
      var m := manifests[path].(version := newVersion);
      if m.dependencies.Some? {
        var t := BumpTable(m.dependencies.value, newVersion);
        m := m.(dependencies := Some(t));
      }
      if m.peerDependencies.Some? {
        var t := BumpTable(m.peerDependencies.value, newVersion);
        m := m.(peerDependencies := Some(t));
      }
      manifests := manifests[path := m];
    }

    /** Resolves what is left of the workspace protocol, then asks the registry. */
    method PublishPackage(path: string, newVersion: string) returns (outcome: Attempt)
      requires path in manifests
      modifies this`manifests, this`attempts
      ensures manifests == old(manifests)[path := WorkspaceResolved(old(manifests)[path], newVersion)]
      ensures attempts == old(attempts) + [path] && outcome == registry(path)
    {
      hide ResolvedRange, Internal;
      var m := manifests[path];
      if m.dependencies.Some? {
        var t := ResolveTable(m.dependencies.value, newVersion);
        m := m.(dependencies := Some(t));
      }
      if m.peerDependencies.Some? {
        var t := ResolveTable(m.peerDependencies.value, newVersion);
        m := m.(peerDependencies := Some(t));
      }
      manifests := manifests[path := m];
      attempts := attempts + [path];
      outcome := registry(path);
    }

    method UpdateVersions(packages: seq<string>, newVersion: string)
      requires Distinct(packages) && forall x :: x in packages ==> x in manifests
      modifies this`manifests
      ensures manifests.Keys == old(manifests).Keys
      ensures forall x :: x in manifests ==>
        manifests[x] == if x in packages && !mode.skipBump && !mode.dryRun then Bumped(old(manifests)[x], newVersion)
          else old(manifests)[x]
    {
      hide Bumped;
      for i := 0 to |packages|
        invariant manifests.Keys == old(manifests).Keys
        invariant forall x :: x in manifests ==>
          manifests[x] == if x in packages[..i] && !mode.skipBump && !mode.dryRun
            then Bumped(old(manifests)[x], newVersion) else old(manifests)[x]
      {
        if mode.skipBump || mode.dryRun {
        } else {
          assert packages[i] !in packages[..i];
          UpdatePackageVersion(packages[i], newVersion);
        }
        assert packages[..i + 1] == packages[..i] + [packages[i]];
      }
      assert packages[..|packages|] == packages;
    }

    /**
      One publish of either loop: a dry run only counts, and `alreadyCounts` says whether a version already there is a
      success.
     */
    method Try(path: string, newVersion: string, alreadyCounts: bool)
      requires path in manifests
      requires alreadyCounts <==> path in order
      modifies this`manifests, this`attempts, this`success, this`failed
      ensures mode.dryRun ==> manifests == old(manifests) && attempts == old(attempts)
      ensures !mode.dryRun ==>
        manifests == old(manifests)[path := WorkspaceResolved(old(manifests)[path], newVersion)] &&
          attempts == old(attempts) + [path]
      ensures failed == old(failed) + (if Fails(order, path, registry, mode.dryRun) then 1 else 0)
      ensures success + failed == old(success) + old(failed) + 1
    {
      hide WorkspaceResolved;
      if mode.dryRun {
        success := success + 1;
        return;
      }
      var outcome := PublishPackage(path, newVersion);
      match outcome
      case Published =>
        success := success + 1;
      case Threw(error) =>
        if alreadyCounts && SaysPublished(ErrorText(error)) {
          success := success + 1;
        } else {
          failed := failed + 1;
        }
    }

    /** Where a release stands after the attempts `done`. */
    ghost predicate Standing(done: seq<string>, before: map<string, Manifest>, newVersion: string)
      reads this
    {
      && manifests.Keys == before.Keys
      && (forall x :: x in manifests ==>
            manifests[x] == if x in done && !mode.dryRun then WorkspaceResolved(before[x], newVersion) else before[x])
      && attempts == (if mode.dryRun then [] else done)
      && failed == Failures(done, order, registry, mode.dryRun)
      && success + failed == |done|
    }

    /** One more attempt at a package not yet attempted. */
    method TryNext(path: string, newVersion: string, alreadyCounts: bool, ghost done: seq<string>,
        ghost before: map<string, Manifest>)
      requires path in manifests && path !in done && Standing(done, before, newVersion)
      requires alreadyCounts <==> path in order
      modifies this`manifests, this`attempts, this`success, this`failed
      ensures Standing(done + [path], before, newVersion)
    {
      hide WorkspaceResolved, Fails;
      Try(path, newVersion, alreadyCounts);
      assert (done + [path])[..|done|] == done;
    }

    /** Both publish loops: the listed packages that exist, then whatever is not listed. */
    method PublishAll(packages: seq<string>, newVersion: string)
      requires Distinct(order) && Distinct(packages) && forall x :: x in packages <==> x in manifests
      requires attempts == [] && success == 0 && failed == 0
      modifies this`manifests, this`attempts, this`success, this`failed
      ensures Standing(Attempts(order, packages), old(manifests), newVersion)
    {
      hide WorkspaceResolved, Standing, Kept;
      ghost var before := manifests;
      assert Standing([], before, newVersion) by { StandingStart(newVersion); }
      KeptNone(packages, true);
      for i := 0 to |order|
        invariant Standing(Kept(order[..i], packages, true), before, newVersion)
      {
        KeptNext(order, i, packages, true);
        KeptIn(order[..i], packages, true);
        KeysKept(Kept(order[..i], packages, true), before, newVersion);
        if order[i] in manifests {
          TryNext(order[i], newVersion, true, Kept(order[..i], packages, true), before);
        }
      }
      assert order[..|order|] == order;
      ghost var listed := Kept(order, packages, true);
      KeptIn(order, packages, true);
      KeptNone(order, false);
      assert listed + Kept(packages[..0], order, false) == listed;
      for i := 0 to |packages|
        invariant Standing(listed + Kept(packages[..i], order, false), before, newVersion)
      {
        ghost var done := listed + Kept(packages[..i], order, false);
        KeptNext(packages, i, order, false);
        KeptIn(packages[..i], order, false);
        KeysKept(done, before, newVersion);
        if packages[i] !in order {
          TryNext(packages[i], newVersion, false, done, before);
          assert done + [packages[i]] == listed + Kept(packages[..i + 1], order, false);
        }
      }
      assert packages[..|packages|] == packages;
    }

    /** A release: bump, unless asked not to, and publish. */
    method Run(packages: seq<string>, newVersion: string)
      requires Distinct(order) && Distinct(packages) && forall x :: x in packages <==> x in manifests
      requires attempts == [] && success == 0 && failed == 0
      modifies this`manifests, this`attempts, this`success, this`failed
      ensures manifests.Keys == old(manifests).Keys
      ensures forall x :: x in manifests ==> manifests[x] == Final(old(manifests)[x], mode, newVersion)
      ensures attempts == if mode.dryRun then [] else Attempts(order, packages)
      ensures failed == Failures(Attempts(order, packages), order, registry, mode.dryRun)
      ensures success + failed == |packages|
    {
      hide Bumped, WorkspaceResolved, Kept, Failures, Attempts;
      UpdateVersions(packages, newVersion);
      PublishAll(packages, newVersion);
      AttemptsAll(order, packages);
    }

    lemma StandingStart(newVersion: string)
      requires attempts == [] && success == 0 && failed == 0
      ensures Standing([], manifests, newVersion)
    {
    }

    lemma KeysKept(done: seq<string>, before: map<string, Manifest>, newVersion: string)
      requires Standing(done, before, newVersion)
      ensures manifests.Keys == before.Keys
    {
    }
  }

  lemma KeptNone(of: seq<string>, inside: bool)
    ensures forall xs: seq<string> :: Kept(xs[..0], of, inside) == []
  {
  }

  /** One more element looked at; in a list without duplicates it has not been kept before. */
  lemma KeptNext(xs: seq<string>, i: nat, of: seq<string>, inside: bool)
    requires Distinct(xs) && i < |xs|
    ensures Kept(xs[..i + 1], of, inside) == if (xs[i] in of) == inside then Kept(xs[..i], of, inside) + [xs[i]]
      else Kept(xs[..i], of, inside)
    ensures xs[i] !in xs[..i]
  {
    assert xs[..i + 1][..i] == xs[..i];
  }

  /** Any set of packages is attempted once each by the release's own list. */
  lemma ReleaseOnce(packages: seq<string>)
    requires Distinct(packages)
    ensures Distinct(Attempts(PUBLISH_ORDER, packages)) && |Attempts(PUBLISH_ORDER, packages)| == |packages|
    ensures forall x :: x in Attempts(PUBLISH_ORDER, packages) <==> x in packages
  {
    hide PUBLISH_ORDER;
    PublishOrderDistinct();
    AttemptsAll(PUBLISH_ORDER, packages);
  }

  /** The whole release, with the script's own list. */
  method PublishRelease(mode: Mode, registry: string -> Attempt, manifests: map<string, Manifest>,
      packages: seq<string>, newVersion: string)
    returns (release: Release)
    requires Distinct(packages) && forall x :: x in packages <==> x in manifests
    ensures fresh(release) && release.manifests.Keys == manifests.Keys
    ensures forall x :: x in manifests ==> release.manifests[x] == Final(manifests[x], mode, newVersion)
    ensures release.attempts == if mode.dryRun then [] else Attempts(PUBLISH_ORDER, packages)
    ensures release.failed == Failures(Attempts(PUBLISH_ORDER, packages), PUBLISH_ORDER, registry, mode.dryRun)
    ensures release.success + release.failed == |packages|
  {
    hide PUBLISH_ORDER, Attempts, Failures, Final;
    PublishOrderDistinct();
    release := new Release(PUBLISH_ORDER, mode, registry, manifests);
    release.Run(packages, newVersion);
  }
}
