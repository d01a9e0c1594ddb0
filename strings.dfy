/**
 * The two string operations of the Python standard library that the nutrition
 * engine relies on: the substring test `needle in s` and `"\n".join(lines)`.
 * `SplitLines` (Python's `s.split("\n")`) is the inverse of the join and is
 * what gives "the recommendation has these lines" a precise meaning.
 */
module Strings {

  /** `needle` occurs in `s` starting at position `i`. */
  predicate OccursAt(s: string, needle: string, i: nat)
  {
    i + |needle| <= |s| && s[i..i + |needle|] == needle
  }

  /** Python's `needle in s`. */
  predicate Contains(s: string, needle: string)
  {
    exists i :: 0 <= i <= |s| && OccursAt(s, needle, i)
  }

  /** Every string contains itself, at position 0. */
  lemma ContainsItself(s: string)
    ensures Contains(s, s)
  {
    assert OccursAt(s, s, 0);
  }

  /**
   * Some element of `items` contains `needle`: Python's `needle in str(items)`
   * for a needle without quotes, brackets, commas or backslashes.
   */
  predicate AnyContains(items: seq<string>, needle: string): (found: bool)
    ensures needle in items ==> found
    ensures items == [] ==> !found
  {
    ContainsItself(needle);
    exists j :: 0 <= j < |items| && Contains(items[j], needle)
  }

  /** A character of the needle that never occurs in `s` rules out every match. */
  lemma {:induction false} MissingCharNotContained(s: string, needle: string, k: nat)
    requires k < |needle| && needle[k] !in s
    ensures !Contains(s, needle)
  {
    forall i | 0 <= i <= |s|
      ensures !OccursAt(s, needle, i)
    {
      if i + |needle| <= |s| {
        assert s[i..i + |needle|][k] == s[i + k];
      }
    }
  }

  /** `AnyContains` of a concatenation is the disjunction over its parts. */
  lemma AnyContainsAppend(a: seq<string>, b: seq<string>, needle: string)
    ensures AnyContains(a + b, needle) <==> AnyContains(a, needle) || AnyContains(b, needle)
  {
    if AnyContains(a + b, needle) {
      var j :| 0 <= j < |a + b| && Contains((a + b)[j], needle);
      if j < |a| {
        assert Contains(a[j], needle);
      } else {
        assert Contains(b[j - |a|], needle);
      }
    }
    if AnyContains(a, needle) {
      var j :| 0 <= j < |a| && Contains(a[j], needle);
      assert Contains((a + b)[j], needle);
    }
    if AnyContains(b, needle) {
      var j :| 0 <= j < |b| && Contains(b[j], needle);
      assert Contains((a + b)[|a| + j], needle);
    }
  }

  /** Python's `"\n".join(lines)`: the first line, then a newline before each further line. */
  function JoinLines(lines: seq<string>): (joined: string)
    ensures |lines| > 0 ==> lines[0] <= joined
    ensures |lines| > 1 ==> |lines[0]| < |joined| && joined[|lines[0]|] == '\n'
  {
    if |lines| == 0 then ""
    else if |lines| == 1 then lines[0]
    else lines[0] + "\n" + JoinLines(lines[1..])
  }

  /** Python's `s.split("\n")`: the pieces between newlines, always at least one. */
  function SplitLines(s: string): (pieces: seq<string>)
    ensures |pieces| >= 1
    ensures forall k :: 0 <= k < |pieces| ==> '\n' !in pieces[k]
    decreases |s|
  {
    if s == [] then [""]
    else
      var rest := SplitLines(s[1..]);
      if s[0] == '\n' then [""] + rest
      else [[s[0]] + rest[0]] + rest[1..]
  }

  /** A string without a newline splits into itself. */
  lemma {:induction false} SplitSingleLine(line: string)
    requires '\n' !in line
    ensures SplitLines(line) == [line]
  {
    if line != [] {
      SplitSingleLine(line[1..]);
      assert [line[0]] + line[1..] == line;
    }
  }

  /** Splitting `line + "\n" + tail` peels off `line` when it holds no newline. */
  lemma {:induction false} SplitAfterLine(line: string, tail: string)
    requires '\n' !in line
    ensures SplitLines(line + "\n" + tail) == [line] + SplitLines(tail)
  {
    var s := line + "\n" + tail;
    if line == [] {
      assert s[0] == '\n' && s[1..] == tail;
    } else {
      assert s[0] == line[0] && s[1..] == line[1..] + "\n" + tail;
      SplitAfterLine(line[1..], tail);
      assert [line[0]] + line[1..] == line;
    }
  }

  /** Joining lines that hold no newline and splitting the result gives the lines back. */
  lemma {:induction false} SplitJoinLines(lines: seq<string>)
    requires |lines| >= 1
    requires forall k :: 0 <= k < |lines| ==> '\n' !in lines[k]
    ensures SplitLines(JoinLines(lines)) == lines
  {
    if |lines| == 1 {
      SplitSingleLine(lines[0]);
    } else {
      SplitAfterLine(lines[0], JoinLines(lines[1..]));
      SplitJoinLines(lines[1..]);
      assert [lines[0]] + lines[1..] == lines;
    }
  }
}
