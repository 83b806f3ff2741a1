/**
  A second attempt at a partial release: what the error of an already published package says, and what is made of it.
 */
module Reruns {
  import opened Options
  import opened Text
  import opened Publishing

  /** How npm is run: writing to the script's own terminal, as the script has it, or with its error output captured. */
  datatype Stdio = Inherited | Captured(text: string)

  const FAILED: string := "Command failed: npm publish --tag "
  const REGISTRY: string := " --registry https://registry.npmjs.org/"

  function CommandFailed(tag: string): string {
    FAILED + tag + REGISTRY
  }

  /** The error a failed command throws: it carries npm's own words only if they were captured. */
  function CommandError(tag: string, stdio: Stdio): PublishError {
    match stdio
    case Inherited => PublishError(None, CommandFailed(tag))
    case Captured(text) => PublishError(Some(text), CommandFailed(tag) + "\n" + text)
  }

  /** A second attempt at the same version: what is there is refused, the rest goes through. */
  function Again(there: set<string>, tag: string, stdio: Stdio): string -> Attempt {
    x => if x in there then Threw(CommandError(tag, stdio)) else Published
  }

  /**
    A second attempt reports success exactly when every package that is there is a listed one and its error says so.
   */
  lemma RerunSucceeds(order: seq<string>, packages: seq<string>, there: set<string>, tag: string, stdio: Stdio)
    ensures Failures(Attempts(order, packages), order, Again(there, tag, stdio), false) == 0
      <==> forall x :: x in packages && x in there ==> x in order && SaysPublished(ErrorText(CommandError(tag, stdio)))
  {
    hide Attempts, SaysPublished, ErrorText, CommandError;
    var registry := Again(there, tag, stdio);
    NoFailures(Attempts(order, packages), order, registry, false);
    AttemptsAll(order, packages);
    forall x
      ensures Fails(order, x, registry, false) <==>
        x in there && !(x in order && SaysPublished(ErrorText(CommandError(tag, stdio))))
    {
    }
  }

  /**
    As the script runs npm, a second attempt at a partial release reports success exactly when none of the packages was
    published before, whatever the list, for every tag that does not itself hold the words it looks for.
   */
  lemma RerunFails(order: seq<string>, packages: seq<string>, there: set<string>, tag: string)
    requires !SaysPublished(tag)
    ensures Failures(Attempts(order, packages), order, Again(there, tag, Inherited), false) == 0
      <==> forall x :: x in packages ==> x !in there
  {
    hide Attempts, Failures, SaysPublished, CommandFailed;
    RerunSucceeds(order, packages, there, tag, Inherited);
    CommandSays(tag);
    assert ErrorText(CommandError(tag, Inherited)) == CommandFailed(tag);
  }

  lemma OutsideFailed()
    ensures 'v' !in FAILED && 'P' !in FAILED
  {
  }

  lemma OutsideRegistry()
    ensures 'v' !in REGISTRY && 'P' !in REGISTRY
  {
  }

  lemma PreviouslySpaced()
    ensures |PREVIOUSLY| == 20 && PREVIOUSLY[3] == 'v' && PREVIOUSLY[11] != '-'
    ensures forall j :: 0 <= j < |PREVIOUSLY| ==> (PREVIOUSLY[j] == ' ' <==> j == 10)
  {
  }

  lemma ConflictSpaced()
    ensures |CONFLICT| == 16 && CONFLICT[1] == 'P' && forall j :: 0 <= j < |CONFLICT| ==> CONFLICT[j] != ' '
  {
  }

  lemma CommandSays(tag: string)
    ensures SaysPublished(CommandFailed(tag)) <==> SaysPublished(tag)
  {
    hide *;
    OutsideFailed();
    OutsideRegistry();
    PreviouslySpaced();
    ConflictSpaced();
    OnlyInTag(tag, PREVIOUSLY, 3, 10);
    OnlyInTag(tag, CONFLICT, 1, |CONFLICT|);
    SaysEither(tag);
    SaysEither(CommandFailed(tag));
  }

  lemma SaysEither(text: string)
    ensures SaysPublished(text) <==> Contains(text, PREVIOUSLY) || Contains(text, CONFLICT)
  {
  }

  /**
    Neither text can begin before the tag or reach past it: its character at `mark` is in no other part of the command,
    none before its first space is a space, and what follows that space is not a dash.
   */
  lemma OnlyInTag(tag: string, part: string, mark: nat, space: nat)
    requires mark < space <= |part| && part[mark] !in FAILED && part[mark] !in REGISTRY
    requires forall j :: 0 <= j < |part| ==> (part[j] == ' ' <==> j == space)
    requires space < |part| ==> space + 1 < |part| && part[space + 1] != '-'
    ensures Contains(CommandFailed(tag), part) <==> Contains(tag, part)
  {
    hide *;
    ContainsAt(CommandFailed(tag), part);
    ContainsAt(tag, part);
    if i: nat :| At(CommandFailed(tag), part, i) {
      InTag(tag, part, mark, space, i);
      TagAt(tag, part, i - |FAILED|);
    }
    if i: nat :| At(tag, part, i) {
      TagAt(tag, part, i);
    }
  }

  lemma TagAt(tag: string, part: string, i: nat)
    ensures At(tag, part, i) <==> At(CommandFailed(tag), part, |FAILED| + i) && i + |part| <= |tag|
  {
    var s, n := CommandFailed(tag), |FAILED|;
    if i + |part| <= |tag| {
      AtSlice(tag, part, i);
      AtSlice(s, part, n + i);
      assert s[n + i..n + i + |part|] == tag[i..i + |part|];
    }
  }

  lemma CharAt(s: string, part: string, i: nat, at: nat)
    requires At(s, part, i)
    ensures i <= at < i + |part| ==> part[at - i] == s[at]
  {
    if i <= at < i + |part| {
      assert s[i + (at - i)] == part[at - i];
    }
  }

  lemma InTag(tag: string, part: string, mark: nat, space: nat, i: nat)
    requires mark < space <= |part| && part[mark] !in FAILED && part[mark] !in REGISTRY
    requires forall j :: 0 <= j < |part| ==> (part[j] == ' ' <==> j == space)
    requires space < |part| ==> space + 1 < |part| && part[space + 1] != '-'
    requires At(CommandFailed(tag), part, i)
    ensures |FAILED| <= i && i + |part| <= |FAILED| + |tag|
  {
    var s, n, end := CommandFailed(tag), |FAILED|, |FAILED| + |tag|;
    CommandParts(tag);
    hide *;
    CharAt(s, part, i, i + mark);
    CharAt(s, part, i, n - 1);
    CharAt(s, part, i, end);
    CharAt(s, part, i, end + 1);
    AtEnds(s, part, i);
  }

  lemma AtEnds(s: string, part: string, i: nat)
    requires At(s, part, i)
    ensures i + |part| <= |s|
  {
  }

  /** The characters of the command on either side of its tag. */
  lemma CommandParts(tag: string)
    ensures var s, n, end := CommandFailed(tag), |FAILED|, |FAILED| + |tag|;
      && end + 1 < |s| && n > 0
      && (forall j :: 0 <= j < n ==> s[j] in FAILED)
      && (forall j :: end <= j < |s| ==> s[j] in REGISTRY)
      && s[n - 1] == ' ' && s[end] == ' ' && s[end + 1] == '-'
  {
    LiteralEnds();
    Around(FAILED, tag, REGISTRY);
  }

  lemma LiteralEnds()
    ensures |FAILED| == 34 && |REGISTRY| == 39
    ensures FAILED[33] == ' ' && REGISTRY[0] == ' ' && REGISTRY[1] == '-'
  {
  }

  lemma Around(a: string, b: string, c: string)
    ensures var s, end := a + b + c, |a| + |b|;
      && |s| == end + |c|
      && (forall j :: 0 <= j < |a| ==> s[j] == a[j])
      && (forall j :: end <= j < |s| ==> s[j] == c[j - end])
  {
  }
}
