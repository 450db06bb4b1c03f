/**
 * Python's ordering of strings (lexicographic by code point, a proper prefix
 * first), the greatest element of a list under it, and `list.sort(reverse=True)`
 * as far as the bridge uses it.
 */
module LexOrder {

  /** `a <= b` for Python strings: a prefix comes first, and no first character is above the other's. */
  predicate Below(a: string, b: string): (r: bool)
    ensures a <= b ==> r
    ensures r && |a| > 0 && |b| > 0 ==> a[0] <= b[0]
  {
    if |a| == 0 then true
    else if |b| == 0 then false
    else if a[0] != b[0] then a[0] < b[0]
    else Below(a[1..], b[1..])
  }

  lemma {:induction false} BelowReflexive(a: string)
    ensures Below(a, a)
  {
    if |a| > 0 {
      BelowReflexive(a[1..]);
    }
  }

  lemma {:induction false} BelowTotal(a: string, b: string)
    ensures Below(a, b) || Below(b, a)
  {
    if |a| > 0 && |b| > 0 && a[0] == b[0] {
      BelowTotal(a[1..], b[1..]);
    }
  }

  lemma {:induction false} BelowAntisymmetric(a: string, b: string)
    requires Below(a, b) && Below(b, a)
    ensures a == b
  {
    if |a| > 0 && |b| > 0 {
      BelowAntisymmetric(a[1..], b[1..]);
      assert a == [a[0]] + a[1..] && b == [b[0]] + b[1..];
    }
  }

  lemma {:induction false} BelowTransitive(a: string, b: string, c: string)
    requires Below(a, b) && Below(b, c)
    ensures Below(a, c)
  {
    if |a| > 0 && |b| > 0 && |c| > 0 && a[0] == b[0] == c[0] {
      BelowTransitive(a[1..], b[1..], c[1..]);
    }
  }

  /** The greatest string of a non-empty list. */
  function Greatest(c: seq<string>): (g: string)
    requires |c| > 0
    ensures g in c
    ensures forall k :: 0 <= k < |c| ==> Below(c[k], g)
  {
    if |c| == 1 then
      BelowReflexive(c[0]);
      c[0]
    else
      var rest := Greatest(c[1..]);
      BelowTotal(rest, c[0]);
      BelowReflexive(c[0]);
      if Below(rest, c[0]) then
        assert forall k :: 1 <= k < |c| ==> Below(c[k], c[0]) by {
          forall k | 1 <= k < |c|
            ensures Below(c[k], c[0])
          {
            assert c[k] == c[1..][k - 1];
            BelowTransitive(c[k], rest, c[0]);
          }
        }
        c[0]
      else
        assert forall k :: 1 <= k < |c| ==> Below(c[k], rest) by {
          forall k | 1 <= k < |c|
            ensures Below(c[k], rest)
          {
            assert c[k] == c[1..][k - 1];
          }
        }
        rest
  }

  /** Non-increasing order, as left by `sort(reverse=True)`. */
  predicate SortedDesc(s: seq<string>) {
    forall i, j :: 0 <= i < j < |s| ==> Below(s[j], s[i])
  }

  /** Puts `x` into a list in front of the first element not above it. */
  function Insert(x: string, s: seq<string>): (r: seq<string>)
    ensures multiset(r) == multiset(s) + multiset{x}
  {
    if |s| == 0 then [x]
    else if Below(s[0], x) then [x] + s
    else
      assert s == [s[0]] + s[1..];
      [s[0]] + Insert(x, s[1..])
  }

  /** Every element of `Insert(x, s)` is `x` or comes from `s`. */
  lemma InsertMembers(x: string, s: seq<string>, y: string)
    requires y in Insert(x, s)
    ensures y == x || y in s
  {
    assert y in multiset(Insert(x, s));
  }

  /** Inserting into a non-increasing list keeps it non-increasing. */
  lemma {:induction false} InsertSorted(x: string, s: seq<string>)
    requires SortedDesc(s)
    ensures SortedDesc(Insert(x, s))
  {
    if |s| == 0 {
    } else if Below(s[0], x) {
      forall j | 0 < j < |s|
        ensures Below(s[j], x)
      {
        BelowTransitive(s[j], s[0], x);
      }
    } else {
      BelowTotal(s[0], x);
      var tail := Insert(x, s[1..]);
      InsertSorted(x, s[1..]);
      forall y | y in tail
        ensures Below(y, s[0])
      {
        InsertMembers(x, s[1..], y);
        if y != x {
          var j :| 0 <= j < |s[1..]| && s[1..][j] == y;
          assert s[j + 1] == y;
        }
      }
      var r := [s[0]] + tail;
      assert Insert(x, s) == r;
      forall i, j | 0 <= i < j < |r|
        ensures Below(r[j], r[i])
      {
        if i > 0 {
          assert r[i] == tail[i - 1] && r[j] == tail[j - 1];
        } else {
          assert r[j] == tail[j - 1] && r[j] in tail;
        }
      }
    }
  }

  /** `list.sort(reverse=True)`: a non-increasing rearrangement of `c`. */
  function SortDesc(c: seq<string>): (r: seq<string>)
    ensures SortedDesc(r)
    ensures multiset(r) == multiset(c)
  {
    if |c| == 0 then []
    else
      assert c == [c[0]] + c[1..];
      InsertSorted(c[0], SortDesc(c[1..]));
      Insert(c[0], SortDesc(c[1..]))
  }

  /** The head of any non-increasing rearrangement of `c` is the greatest element of `c`. */
  lemma SortedHeadIsGreatest(r: seq<string>, c: seq<string>)
    requires SortedDesc(r) && multiset(r) == multiset(c) && |c| > 0
    ensures |r| > 0 && r[0] == Greatest(c)
  {
    var g := Greatest(c);
    assert |r| == |c| by {
      assert |multiset(r)| == |multiset(c)|;
    }
    assert g in multiset(r);
    var j :| 0 <= j < |r| && r[j] == g;
    assert r[0] in multiset(c);
    var k :| 0 <= k < |c| && c[k] == r[0];
    if j > 0 {
      BelowAntisymmetric(r[0], g);
    }
  }
}
