/** Splitting and joining strings on a separator, as `String.split` and `Array.join` do. */
module Text {

  ghost predicate Free(s: string, sep: char) {
    sep !in s
  }

  function Split(s: string, sep: char): (parts: seq<string>)
    ensures |parts| >= 1
  {
    if s == "" then [""]
    else
      var rest := Split(s[1..], sep);
      if s[0] == sep then [""] + rest else [[s[0]] + rest[0]] + rest[1..]
  }

  function Join(parts: seq<string>, sep: char): string {
    if parts == [] then ""
    else if |parts| == 1 then parts[0]
    else parts[0] + [sep] + Join(parts[1..], sep)
  }

  /** Joining undoes splitting, whatever the string contains. */
  lemma {:induction false} JoinSplit(s: string, sep: char)
    ensures Join(Split(s, sep), sep) == s
  {
    if s == "" {
    } else {
      var rest := Split(s[1..], sep);
      JoinSplit(s[1..], sep);
      if s[0] == sep {
        assert Split(s, sep) == [""] + rest;
        assert ([""] + rest)[1..] == rest;
        assert s == [sep] + s[1..];
      } else {
        var joined := [[s[0]] + rest[0]] + rest[1..];
        assert Split(s, sep) == joined;
        if |rest| == 1 {
          assert joined == [[s[0]] + rest[0]];
        } else {
          assert joined[1..] == rest[1..];
        }
        assert s == [s[0]] + s[1..];
      }
    }
  }

  /** A string without the separator is one part. */
  lemma {:induction false} SplitFree(s: string, sep: char)
    requires Free(s, sep)
    ensures Split(s, sep) == [s]
  {
    if s == "" {
    } else {
      SplitFree(s[1..], sep);
      assert s == [s[0]] + s[1..];
    }
  }

  /** One more character in front of a split: a new empty part, or a longer first part. */
  function Prepend(c: char, parts: seq<string>, sep: char): seq<string>
    requires |parts| >= 1
  {
    if c == sep then [""] + parts else [[c] + parts[0]] + parts[1..]
  }

  lemma SplitStep(c: char, s: string, sep: char)
    ensures Split([c] + s, sep) == Prepend(c, Split(s, sep), sep)
  {
    assert ([c] + s)[1..] == s;
  }

  lemma PrependConcat(c: char, x: seq<string>, y: seq<string>, sep: char)
    requires |x| >= 1
    ensures Prepend(c, x + y, sep) == Prepend(c, x, sep) + y
  {
    assert (x + y)[1..] == x[1..] + y;
  }

  /** Splitting distributes over a separator. */
  lemma {:induction false} SplitConcat(a: string, b: string, sep: char)
    ensures Split(a + [sep] + b, sep) == Split(a, sep) + Split(b, sep)
  {
    if a == "" {
      SplitStep(sep, b, sep);
      assert a + [sep] + b == [sep] + b;
    } else {
      var rest := a[1..] + [sep] + b;
      SplitConcat(a[1..], b, sep);
      assert a + [sep] + b == [a[0]] + rest;
      SplitStep(a[0], rest, sep);
      PrependConcat(a[0], Split(a[1..], sep), Split(b, sep), sep);
    }
  }

  /** A leading separator-free part comes off whole. */
  lemma SplitHead(a: string, b: string, sep: char)
    requires Free(a, sep)
    ensures Split(a + [sep] + b, sep) == [a] + Split(b, sep)
  {
    SplitFree(a, sep);
    SplitConcat(a, b, sep);
  }

  lemma JoinFirst(first: string, rest: seq<string>, sep: char)
    requires rest != []
    ensures Join([first] + rest, sep) == first + [sep] + Join(rest, sep)
  {
    assert ([first] + rest)[1..] == rest;
  }

  lemma {:induction false} JoinConcat(x: seq<string>, y: seq<string>, sep: char)
    requires x != [] && y != []
    ensures Join(x + y, sep) == Join(x, sep) + [sep] + Join(y, sep)
  {
    if |x| == 1 {
      assert x == [x[0]];
      JoinFirst(x[0], y, sep);
    } else {
      JoinConcat(x[1..], y, sep);
      hide Join;
      assert x == [x[0]] + x[1..] && x + y == [x[0]] + (x[1..] + y);
      JoinFirst(x[0], x[1..], sep);
      JoinFirst(x[0], x[1..] + y, sep);
      var rest, tail := Join(x[1..], sep), Join(y, sep);
      assert x[0] + [sep] + (rest + [sep] + tail) == (x[0] + [sep] + rest) + [sep] + tail;
    }
  }

  /** Two strings with the same parts are the same string. */
  lemma SplitInjective(s: string, t: string, sep: char)
    requires Split(s, sep) == Split(t, sep)
    ensures s == t
  {
    JoinSplit(s, sep);
    JoinSplit(t, sep);
  }

  predicate StartsWith(s: string, start: string) {
    |start| <= |s| && s[..|start|] == start
  }

  predicate EndsWith<T(==)>(s: seq<T>, suffix: seq<T>) {
    |suffix| <= |s| && s[|s| - |suffix|..] == suffix
  }

  predicate Contains(s: string, part: string) {
    |part| <= |s| && (s[..|part|] == part || (s != "" && Contains(s[1..], part)))
  }

  /** `part` stands in `s` from index `i`. */
  ghost predicate At(s: string, part: string, i: nat) {
    i + |part| <= |s| && forall j :: 0 <= j < |part| ==> s[i + j] == part[j]
  }

  lemma AtSlice(s: string, part: string, i: nat)
    requires i + |part| <= |s|
    ensures At(s, part, i) <==> s[i..i + |part|] == part
  {
    if At(s, part, i) {
      assert forall j :: 0 <= j < |part| ==> s[i..i + |part|][j] == part[j];
    } else {
      var j :| 0 <= j < |part| && s[i + j] != part[j];
      assert s[i..i + |part|][j] != part[j];
    }
  }

  lemma {:induction false} ContainsAt(s: string, part: string)
    ensures Contains(s, part) <==> exists i: nat :: At(s, part, i)
  {
    assert |part| <= |s| ==> (s[..|part|] == part <==> At(s, part, 0));
    if s != "" {
      ContainsAt(s[1..], part);
      if i: nat :| At(s[1..], part, i) {
        assert At(s, part, i + 1);
      }
      if i: nat :| i > 0 && At(s, part, i) {
        assert At(s[1..], part, i - 1);
      }
    } else if i: nat :| At(s, part, i) {
      assert i == 0;
    }
  }

  ghost predicate Distinct(xs: seq<string>) {
    forall i, j :: 0 <= i < j < |xs| ==> xs[i] != xs[j]
  }
}
