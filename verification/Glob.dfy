/**
  Key patterns, as the regular expressions they are compiled to: `*` stands for any run of characters and `?` for
  any one of them, but neither for a line terminator.
 */
module Glob {

  predicate LineTerminator(c: char) {
    c == '\n' || c == '\r' || c == '\U{2028}' || c == '\U{2029}'
  }

  predicate OneLine(s: string) {
    forall i :: 0 <= i < |s| ==> !LineTerminator(s[i])
  }

  predicate Matches(pattern: string, s: string)
    decreases |pattern| + |s|
  {
    if pattern == "" then s == ""
    else if pattern[0] == '*' then
      Matches(pattern[1..], s) || (s != "" && !LineTerminator(s[0]) && Matches(pattern, s[1..]))
    else
      && s != ""
      && (if pattern[0] == '?' then !LineTerminator(s[0]) else pattern[0] == s[0])
      && Matches(pattern[1..], s[1..])
  }

  ghost predicate Literal(s: string) {
    '*' !in s && '?' !in s
  }

  lemma {:induction false} StarMatchesLines(s: string)
    ensures Matches("*", s) <==> OneLine(s)
  {
    if s == "" {
      assert Matches("*"[1..], s);
    } else {
      StarMatchesLines(s[1..]);
      assert s == [s[0]] + s[1..];
      assert OneLine(s) <==> !LineTerminator(s[0]) && OneLine(s[1..]);
    }
  }

  lemma PrefixStep(prefix: string, s: string)
    requires prefix != "" && s != ""
    ensures prefix <= s <==> prefix[0] == s[0] && prefix[1..] <= s[1..]
  {
    if prefix[0] == s[0] && prefix[1..] <= s[1..] {
      assert s == [s[0]] + s[1..];
      assert prefix == [prefix[0]] + prefix[1..];
    }
  }

  /** A literal prefix followed by `*` matches exactly the strings with that prefix and no line break after it. */
  lemma {:induction false} PrefixPattern(prefix: string, s: string)
    requires Literal(prefix)
    ensures Matches(prefix + "*", s) <==> prefix <= s && OneLine(s[|prefix|..])
  {
    if prefix == "" {
      assert prefix + "*" == "*" && s[0..] == s;
      StarMatchesLines(s);
    } else {
      assert (prefix + "*")[1..] == prefix[1..] + "*";
      if s != "" {
        PrefixPattern(prefix[1..], s[1..]);
        PrefixStep(prefix, s);
        if prefix <= s {
          assert s[1..][|prefix| - 1..] == s[|prefix|..];
        }
      }
    }
  }
}
