/** Splitting a string on a one-character separator and joining parts back
    with it: the behaviour of Rust's `str::split(char)` followed by `collect`,
    and of `[&str]::join(&str)` for a one-character separator. */
module Delimited {

  /** The parts of `s` between occurrences of `sep`, in order. Like Rust's
      `split`, an empty string yields one empty part, and adjacent, leading
      or trailing separators yield empty parts. */
  function Split(sep: char, s: string): (parts: seq<string>)
    ensures |parts| >= 1
    ensures forall i :: 0 <= i < |parts| ==> sep !in parts[i]
    ensures |parts| == 1 <==> sep !in s
    decreases |s|
  {
    if |s| == 0 then [""]
    else
      var rest := Split(sep, s[1..]);
      if s[0] == sep then [""] + rest
      else [[s[0]] + rest[0]] + rest[1..]
  }

  /** The parts concatenated with one `sep` between each two neighbours. */
  function Join(sep: char, parts: seq<string>): string
  {
    if |parts| == 0 then ""
    else if |parts| == 1 then parts[0]
    else parts[0] + [sep] + Join(sep, parts[1..])
  }

  /** Four parts joined, written out. */
  lemma JoinFour(sep: char, parts: seq<string>)
    requires |parts| == 4
    ensures Join(sep, parts) ==
      parts[0] + [sep] + parts[1] + [sep] + parts[2] + [sep] + parts[3]
  {
    var tail := parts[1..];
    assert tail[1..] == [parts[2], parts[3]] && tail[1..][1..] == [parts[3]];
    calc {
      Join(sep, parts);
      parts[0] + [sep] + Join(sep, tail);
      parts[0] + [sep] + (parts[1] + [sep] + Join(sep, tail[1..]));
      parts[0] + [sep] + (parts[1] + [sep] + (parts[2] + [sep] + parts[3]));
      parts[0] + [sep] + parts[1] + [sep] + parts[2] + [sep] + parts[3];
    }
  }

  /** No part of `parts` contains the separator. */
  predicate SeparatorFree(sep: char, parts: seq<string>)
  {
    forall i :: 0 <= i < |parts| ==> sep !in parts[i]
  }

  /** Putting a character in front of the first part puts it in front of
      the join. */
  lemma JoinPrepend(sep: char, c: char, parts: seq<string>)
    requires |parts| >= 1
    ensures Join(sep, [[c] + parts[0]] + parts[1..]) == [c] + Join(sep, parts)
  {
    var longer := [[c] + parts[0]] + parts[1..];
    assert longer[1..] == parts[1..];
  }

  /** Joining the parts of a split gives back the original string. */
  lemma {:induction false} JoinSplit(sep: char, s: string)
    ensures Join(sep, Split(sep, s)) == s
    decreases |s|
  {
    if |s| > 0 {
      var rest := Split(sep, s[1..]);
      JoinSplit(sep, s[1..]);
      assert s == [s[0]] + s[1..];
      if s[0] == sep {
        assert ([""] + rest)[1..] == rest;
      } else {
        JoinPrepend(sep, s[0], rest);
      }
    }
  }

  /** A separator-free string is one part on its own. */
  lemma {:induction false} SplitSingle(sep: char, p: string)
    requires sep !in p
    ensures Split(sep, p) == [p]
  {
    // the third postcondition of Split gives one part; the join gives which
    JoinSplit(sep, p);
  }

  /** Splitting `p + sep + s`, with `p` separator-free, peels off `p`. */
  lemma {:induction false} SplitPrefix(sep: char, p: string, s: string)
    requires sep !in p
    ensures Split(sep, p + [sep] + s) == [p] + Split(sep, s)
    decreases |p|
  {
    var x := p + [sep] + s;
    if |p| == 0 {
      assert x[0] == sep && x[1..] == s;
    } else {
      assert x[0] == p[0] && x[1..] == p[1..] + [sep] + s;
      SplitPrefix(sep, p[1..], s);
      assert [p[0]] + p[1..] == p;
    }
  }

  /** Splitting a join of separator-free parts recovers the parts. */
  lemma {:induction false} SplitJoin(sep: char, parts: seq<string>)
    requires |parts| >= 1
    requires SeparatorFree(sep, parts)
    ensures Split(sep, Join(sep, parts)) == parts
    decreases |parts|
  {
    if |parts| == 1 {
      SplitSingle(sep, parts[0]);
    } else {
      SplitJoin(sep, parts[1..]);
      SplitPrefix(sep, parts[0], Join(sep, parts[1..]));
      assert [parts[0]] + parts[1..] == parts;
    }
  }

  /** The separators in a join: one between each two neighbours and any
      inside the parts, so there are exactly `|parts| - 1` of them precisely
      when no part holds one. */
  lemma {:induction false} JoinSeparators(sep: char, parts: seq<string>)
    requires |parts| >= 1
    ensures multiset(Join(sep, parts))[sep] >= |parts| - 1
    ensures SeparatorFree(sep, parts) <==> multiset(Join(sep, parts))[sep] == |parts| - 1
    decreases |parts|
  {
    assert sep in parts[0] <==> sep in multiset(parts[0]);
    if |parts| > 1 {
      var tail := parts[1..];
      JoinSeparators(sep, tail);
      var rest := Join(sep, tail);
      assert Join(sep, parts) == parts[0] + [sep] + rest;
      assert multiset(parts[0] + [sep] + rest)[sep] ==
        multiset(parts[0])[sep] + 1 + multiset(rest)[sep];
      SeparatorFreeCons(sep, parts);
    }
  }

  /** A list of parts is separator-free when its first part and the rest
      are. */
  lemma SeparatorFreeCons(sep: char, parts: seq<string>)
    requires |parts| >= 1
    ensures SeparatorFree(sep, parts) <==> sep !in parts[0] && SeparatorFree(sep, parts[1..])
  {
    var tail := parts[1..];
    assert forall i :: 0 <= i < |tail| ==> tail[i] == parts[i + 1];
  }

  /** Two lists of parts of the same length with the same join are equal
      when one of them is separator-free. */
  lemma JoinEqualLength(sep: char, a: seq<string>, b: seq<string>)
    requires 1 <= |a| == |b|
    requires SeparatorFree(sep, a)
    requires Join(sep, a) == Join(sep, b)
    ensures a == b
  {
    JoinSeparators(sep, a);
    JoinSeparators(sep, b);
    JoinInjective(sep, a, b);
  }

  /** Join is one-to-one on non-empty sequences of separator-free parts. */
  lemma JoinInjective(sep: char, a: seq<string>, b: seq<string>)
    requires |a| >= 1 && |b| >= 1
    requires SeparatorFree(sep, a) && SeparatorFree(sep, b)
    requires Join(sep, a) == Join(sep, b)
    ensures a == b
  {
    SplitJoin(sep, a);
    SplitJoin(sep, b);
  }
}
