/**
 * The two operations of Go's `strings` package the tool relies on, for a
 * one-character separator: `strings.Split` and its inverse `strings.Join`.
 */
module Strings {

  /** Number of occurrences of `c` in `s`. */
  function Occurrences(s: string, c: char): nat {
    multiset(s)[c]
  }

  /** `strings.Join(parts, string(sep))`: the parts with `sep` between neighbours. */
  function Join(parts: seq<string>, sep: char): string
    decreases |parts|
  {
    if |parts| == 0 then ""
    else if |parts| == 1 then parts[0]
    else parts[0] + [sep] + Join(parts[1..], sep)
  }

  /**
   * `strings.Split(s, string(sep))`: the pieces of `s` between the occurrences
   * of `sep`. There is always one more piece than there are separators, so the
   * empty string splits into one empty piece, and pieces may be empty.
   */
  function Split(s: string, sep: char): (parts: seq<string>)
    ensures |parts| == Occurrences(s, sep) + 1
    ensures forall i :: 0 <= i < |parts| ==> sep !in parts[i]
    decreases |s|
  {
    if s == [] then [""]
    else
      var rest := Split(s[1..], sep);
      assert s == [s[0]] + s[1..];
      if s[0] == sep then [""] + rest
      else [[s[0]] + rest[0]] + rest[1..]
  }

  /** Joining the pieces with the separator gives back the string. */
  lemma {:induction false} JoinSplit(s: string, sep: char)
    ensures Join(Split(s, sep), sep) == s
    decreases |s|
  {
    if s != [] {
      JoinSplit(s[1..], sep);
      JoinSplitStep(s, sep, Split(s[1..], sep));
    }
  }

  /** One step of `Split`, stated over the pieces of the tail alone. */
  lemma JoinSplitStep(s: string, sep: char, rest: seq<string>)
    requires s != [] && |rest| > 0 && Join(rest, sep) == s[1..]
    ensures s[0] == sep ==> Join([""] + rest, sep) == s
    ensures s[0] != sep ==> Join([[s[0]] + rest[0]] + rest[1..], sep) == s
  {
    assert s == [s[0]] + s[1..];
    if s[0] == sep {
      JoinAfterLeadingSeparator(rest, sep);
    } else {
      JoinAfterLeadingChar(s[0], rest, sep);
    }
  }

  /** A separator in front adds an empty first piece. */
  lemma JoinAfterLeadingSeparator(rest: seq<string>, sep: char)
    requires |rest| > 0
    ensures Join([""] + rest, sep) == [sep] + Join(rest, sep)
  {
    assert ([""] + rest)[1..] == rest;
  }

  /** Any other character in front joins the first piece. */
  lemma JoinAfterLeadingChar(c: char, rest: seq<string>, sep: char)
    requires |rest| > 0
    ensures Join([[c] + rest[0]] + rest[1..], sep) == [c] + Join(rest, sep)
  {
    var parts := [[c] + rest[0]] + rest[1..];
    assert parts[0] == [c] + rest[0];
    if |rest| > 1 {
      assert parts[1..] == rest[1..];
      assert Join(parts, sep) == ([c] + rest[0]) + [sep] + Join(rest[1..], sep);
    }
  }

  /**
   * Two ways of writing a string as a separator-free head, the separator and a
   * tail agree: the first separator fixes where the head ends.
   */
  lemma FirstSeparator(a: string, b: string, c: string, d: string, sep: char)
    requires sep !in a && sep !in c
    requires a + [sep] + b == c + [sep] + d
    ensures a == c && b == d
  {
    var s := a + [sep] + b;
    assert s[|a|] == sep && (c + [sep] + d)[|c|] == sep;
    assert forall i :: 0 <= i < |a| ==> s[i] == a[i] != sep;
    assert forall i :: 0 <= i < |c| ==> s[i] == c[i] != sep;
    assert a == s[..|a|] == c;
    assert b == s[|a| + 1..] == d;
  }

  /** Join is injective on non-empty lists of separator-free parts. */
  lemma {:induction false} JoinInjective(p: seq<string>, q: seq<string>, sep: char)
    requires |p| >= 1 && |q| >= 1
    requires forall i :: 0 <= i < |p| ==> sep !in p[i]
    requires forall i :: 0 <= i < |q| ==> sep !in q[i]
    requires Join(p, sep) == Join(q, sep)
    ensures p == q
    decreases |p|
  {
    if |p| >= 2 && |q| >= 2 {
      FirstSeparator(p[0], Join(p[1..], sep), q[0], Join(q[1..], sep), sep);
      JoinInjective(p[1..], q[1..], sep);
      assert p == [p[0]] + p[1..] && q == [q[0]] + q[1..];
    }
  }

  /** Splitting undoes joining: Split and Join are inverse on separator-free parts. */
  lemma SplitJoin(parts: seq<string>, sep: char)
    requires |parts| >= 1
    requires forall i :: 0 <= i < |parts| ==> sep !in parts[i]
    ensures Split(Join(parts, sep), sep) == parts
  {
    JoinSplit(Join(parts, sep), sep);
    JoinInjective(Split(Join(parts, sep), sep), parts, sep);
  }
}
