/**
 * The string operations of Python that the bridge relies on when it reads
 * the device listing: the substring test `sub in s`, `s.split(sep)` with a
 * one-character separator, and `line.split('\t')[0]`.
 */
module Text {

  /** `sub` starts at position `i` of `s`. */
  predicate OccursAt(s: string, sub: string, i: nat) {
    i + |sub| <= |s| && s[i..i + |sub|] == sub
  }

  /** Python's `sub in s` for two strings: the empty string and every prefix are in `s`. */
  predicate Contains(s: string, sub: string): (b: bool)
    ensures b ==> |sub| <= |s|
    ensures sub <= s ==> b
  {
    assert sub <= s ==> OccursAt(s, sub, 0);
    exists i: nat | i <= |s| :: OccursAt(s, sub, i)
  }

  /** If `s` contains `sub`, it contains every prefix of `sub`. */
  lemma ContainsPrefix(s: string, sub: string, pre: string)
    requires Contains(s, sub) && pre <= sub
    ensures Contains(s, pre)
  {
    var i: nat :| i <= |s| && OccursAt(s, sub, i);
    assert |pre| <= |sub| && sub[..|pre|] == pre;
    assert s[i..i + |pre|] == s[i..i + |sub|][..|pre|];
    assert OccursAt(s, pre, i);
  }

  /** Python's `s.split(sep)`: the maximal runs of `s` between separators. */
  function Split(s: string, sep: char): (pieces: seq<string>)
    ensures |pieces| > 0
    ensures forall k :: 0 <= k < |pieces| ==> sep !in pieces[k]
    ensures pieces[0] <= s
    ensures |pieces[0]| < |s| ==> s[|pieces[0]|] == sep
    decreases |s|
  {
    if |s| == 0 then [""]
    else
      var rest := Split(s[1..], sep);
      if s[0] == sep then [""] + rest
      else [[s[0]] + rest[0]] + rest[1..]
  }

  /** Python's `sep.join(pieces)`, the inverse of `Split`. */
  function Join(pieces: seq<string>, sep: char): string {
    if |pieces| == 0 then ""
    else if |pieces| == 1 then pieces[0]
    else pieces[0] + [sep] + Join(pieces[1..], sep)
  }

  /** Putting a character in front of the first piece puts it in front of the join. */
  lemma JoinConsFirst(c: char, pieces: seq<string>, sep: char)
    requires |pieces| > 0
    ensures Join([[c] + pieces[0]] + pieces[1..], sep) == [c] + Join(pieces, sep)
  {
    var joined := [[c] + pieces[0]] + pieces[1..];
    assert joined[0] == [c] + pieces[0] && joined[1..] == pieces[1..];
  }

  /** Splitting loses nothing: joining the pieces gives the text back. */
  lemma {:induction false} JoinSplit(s: string, sep: char)
    ensures Join(Split(s, sep), sep) == s
    decreases |s|
  {
    if |s| > 0 {
      var rest := Split(s[1..], sep);
      JoinSplit(s[1..], sep);
      assert [s[0]] + s[1..] == s;
      if s[0] == sep {
        assert Split(s, sep) == [""] + rest;
        assert ([""] + rest)[1..] == rest;
      } else {
        assert Split(s, sep) == [[s[0]] + rest[0]] + rest[1..];
        JoinConsFirst(s[0], rest, sep);
      }
    }
  }

  /** A text without a separator is one piece. */
  lemma {:induction false} SplitWithoutSep(s: string, sep: char)
    requires sep !in s
    ensures Split(s, sep) == [s]
    decreases |s|
  {
    if |s| > 0 {
      assert sep !in s[1..];
      SplitWithoutSep(s[1..], sep);
      assert [s[0]] + s[1..] == s;
    }
  }

  /** The separator after a separator-free head ends the first piece. */
  lemma {:induction false} SplitAfterSep(a: string, b: string, sep: char)
    requires sep !in a
    ensures Split(a + [sep] + b, sep) == [a] + Split(b, sep)
    decreases |a|
  {
    if |a| == 0 {
      assert a + [sep] + b == [sep] + b;
      assert ([sep] + b)[1..] == b;
    } else {
      assert sep !in a[1..];
      SplitAfterSep(a[1..], b, sep);
      assert (a + [sep] + b)[1..] == a[1..] + [sep] + b;
      assert [a[0]] + a[1..] == a;
    }
  }

  /** Splitting a join of separator-free pieces gives the pieces back. */
  lemma {:induction false} SplitJoin(pieces: seq<string>, sep: char)
    requires |pieces| > 0
    requires forall k :: 0 <= k < |pieces| ==> sep !in pieces[k]
    ensures Split(Join(pieces, sep), sep) == pieces
  {
    if |pieces| == 1 {
      SplitWithoutSep(pieces[0], sep);
    } else {
      SplitJoin(pieces[1..], sep);
      SplitAfterSep(pieces[0], Join(pieces[1..], sep), sep);
      assert [pieces[0]] + pieces[1..] == pieces;
    }
  }

  /**
   * Python's `line.split('\t')[0]`: the text before the first TAB, or the
   * whole line when it has none.
   */
  function FirstField(line: string): (f: string)
    ensures f <= line
    ensures '\t' !in f
    ensures |f| < |line| ==> line[|f|] == '\t'
  {
    Split(line, '\t')[0]
  }
}
