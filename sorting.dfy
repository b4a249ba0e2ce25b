/**
 * The ordering used by both editor versions: `sort_unstable_by` with the
 * comparator `e1.to_ascii_lowercase().cmp(&e2.to_ascii_lowercase())` (or its
 * mirror image for descending order). The sort is unstable, so the model
 * pins down only what any correct sort delivers: a permutation of the input
 * that is ordered under the key.
 */
module Sorting {
  import opened Strings

  /**
   * `Ord for str`: lexicographic order. Rust compares UTF-8 bytes, which for
   * well-formed text is the same as comparing code points one by one. A
   * prefix orders no later than the string it begins.
   */
  predicate LexLeq(a: string, b: string)
    ensures a <= b ==> LexLeq(a, b)
  {
    |a| == 0 || (|b| > 0 && (a[0] < b[0] || (a[0] == b[0] && LexLeq(a[1..], b[1..]))))
  }

  lemma {:induction false} LexLeqReflexive(a: string)
    ensures LexLeq(a, a)
  {
    if |a| > 0 {
      LexLeqReflexive(a[1..]);
    }
  }

  lemma {:induction false} LexLeqTotal(a: string, b: string)
    ensures LexLeq(a, b) || LexLeq(b, a)
  {
    if |a| > 0 && |b| > 0 && a[0] == b[0] {
      LexLeqTotal(a[1..], b[1..]);
    }
  }

  lemma {:induction false} LexLeqTransitive(a: string, b: string, c: string)
    requires LexLeq(a, b) && LexLeq(b, c)
    ensures LexLeq(a, c)
  {
    if |a| > 0 && a[0] == b[0] && b[0] == c[0] {
      LexLeqTransitive(a[1..], b[1..], c[1..]);
    }
  }

  lemma {:induction false} LexLeqAntisymmetric(a: string, b: string)
    requires LexLeq(a, b) && LexLeq(b, a)
    ensures a == b
  {
    if |a| > 0 {
      LexLeqAntisymmetric(a[1..], b[1..]);
      assert a == [a[0]] + a[1..] && b == [b[0]] + b[1..];
    }
  }

  /** The sort key: the line with ASCII letters folded to lower case; folding it again changes nothing. */
  function Key(line: string): (k: string)
    ensures |k| == |line|
    ensures AsciiLowercase(k) == k
  {
    LowercaseOfLower(AsciiLowercase(line));
    AsciiLowercase(line)
  }

  datatype Direction = Ascending | Descending

  /** `x` may come before `y`: the comparator does not answer `Greater` for `(x, y)`. */
  function InOrder(d: Direction, x: string, y: string): (b: bool)
    ensures Key(x) == Key(y) ==> b
  {
    LexLeqReflexive(Key(x));
    match d
    case Ascending => LexLeq(Key(x), Key(y))
    case Descending => LexLeq(Key(y), Key(x))
  }

  lemma InOrderTotal(d: Direction, x: string, y: string)
    ensures InOrder(d, x, y) || InOrder(d, y, x)
  {
    LexLeqTotal(Key(x), Key(y));
  }

  lemma InOrderTransitive(d: Direction, x: string, y: string, z: string)
    requires InOrder(d, x, y) && InOrder(d, y, z)
    ensures InOrder(d, x, z)
  {
    match d
    case Ascending => LexLeqTransitive(Key(x), Key(y), Key(z));
    case Descending => LexLeqTransitive(Key(z), Key(y), Key(x));
  }

  /** Lines that may each come before the other have the same key. */
  lemma InOrderBothWays(d: Direction, x: string, y: string)
    requires InOrder(d, x, y) && InOrder(d, y, x)
    ensures Key(x) == Key(y)
  {
    LexLeqAntisymmetric(Key(x), Key(y));
  }

  /** Every pair of lines, not only every neighbouring pair, is in order. */
  predicate IsSorted(lines: seq<string>, d: Direction)
  {
    forall i, j :: 0 <= i < j < |lines| ==> InOrder(d, lines[i], lines[j])
  }

  /** `lines` is an admissible outcome of sorting `kept`: a permutation of it, in order. */
  predicate SortedPermutation(kept: seq<string>, lines: seq<string>, d: Direction)
  {
    multiset(lines) == multiset(kept) && IsSorted(lines, d)
  }

  /** Inserts `x` before the first line it may precede. */
  function Insert(x: string, s: seq<string>, d: Direction): (r: seq<string>)
    ensures multiset(r) == multiset(s) + multiset{x}
    ensures |r| == |s| + 1
  {
    if s == [] then [x]
    else if InOrder(d, x, s[0]) then [x] + s
    else
      assert s == [s[0]] + s[1..];
      [s[0]] + Insert(x, s[1..], d)
  }

  /** A line that may precede every line of a sorted list may be put in front of it. */
  lemma ConsSorted(h: string, t: seq<string>, d: Direction)
    requires IsSorted(t, d)
    requires forall j :: 0 <= j < |t| ==> InOrder(d, h, t[j])
    ensures IsSorted([h] + t, d)
  {
    var r := [h] + t;
    forall i, j | 0 <= i < j < |r| ensures InOrder(d, r[i], r[j]) {
      if i > 0 { assert r[i] == t[i - 1] && r[j] == t[j - 1]; }
      else { assert r[j] == t[j - 1]; }
    }
  }

  /** The head of a sorted list may precede every line of what `Insert` makes of its tail. */
  lemma HeadPrecedesInsert(x: string, s: seq<string>, d: Direction)
    requires s != [] && IsSorted(s, d) && InOrder(d, s[0], x)
    ensures forall j :: 0 <= j < |Insert(x, s[1..], d)| ==> InOrder(d, s[0], Insert(x, s[1..], d)[j])
  {
    var tail := Insert(x, s[1..], d);
    forall j | 0 <= j < |tail| ensures InOrder(d, s[0], tail[j]) {
      assert tail[j] in multiset(tail);
      if tail[j] != x {
        assert tail[j] in multiset(s[1..]);
        var k :| 0 <= k < |s[1..]| && s[1..][k] == tail[j];
        assert s[k + 1] == tail[j];
      }
    }
  }

  lemma {:induction false} InsertSorted(x: string, s: seq<string>, d: Direction)
    requires IsSorted(s, d)
    ensures IsSorted(Insert(x, s, d), d)
  {
    if s != [] {
      if InOrder(d, x, s[0]) {
        forall j | 0 <= j < |s| ensures InOrder(d, x, s[j]) {
          if j > 0 { InOrderTransitive(d, x, s[0], s[j]); }
        }
        ConsSorted(x, s, d);
      } else {
        InOrderTotal(d, x, s[0]);
        assert IsSorted(s[1..], d);
        InsertSorted(x, s[1..], d);
        HeadPrecedesInsert(x, s, d);
        ConsSorted(s[0], Insert(x, s[1..], d), d);
      }
    }
  }

  /** An insertion sort: some admissible outcome of `sort_unstable_by`. */
  function SortLines(lines: seq<string>, d: Direction): (r: seq<string>)
    ensures SortedPermutation(lines, r, d)
  {
    if lines == [] then []
    else
      var rest := SortLines(lines[1..], d);
      InsertSorted(lines[0], rest, d);
      assert lines == [lines[0]] + lines[1..];
      Insert(lines[0], rest, d)
  }

  /** Lines whose keys are pairwise distinct unless the lines are equal. */
  predicate DistinctKeys(lines: seq<string>)
  {
    forall x, y :: x in lines && y in lines && Key(x) == Key(y) ==> x == y
  }

  lemma MultisetTail(s: seq<string>)
    requires s != []
    ensures multiset(s[1..]) == multiset(s) - multiset{s[0]}
  {
    assert s == [s[0]] + s[1..];
  }

  /** Two admissible outcomes over lines with distinct keys start with the same line. */
  lemma SameFirstLine(kept: seq<string>, a: seq<string>, b: seq<string>, d: Direction)
    requires DistinctKeys(kept) && a != []
    requires SortedPermutation(kept, a, d) && SortedPermutation(kept, b, d)
    ensures b != [] && a[0] == b[0]
  {
    assert a[0] in multiset(b);
    assert b[0] in multiset(a);
    var i :| 0 <= i < |a| && a[i] == b[0];
    var j :| 0 <= j < |b| && b[j] == a[0];
    if i > 0 && j > 0 {
      InOrderBothWays(d, a[0], b[0]);
    }
    assert a[0] in multiset(kept) && b[0] in multiset(kept);
  }

  /**
   * When no two different lines share a key, every admissible outcome is the
   * same: the unstable sort is then deterministic.
   */
  lemma {:induction false} SortedPermutationUnique(kept: seq<string>, a: seq<string>, b: seq<string>, d: Direction)
    requires DistinctKeys(kept)
    requires SortedPermutation(kept, a, d) && SortedPermutation(kept, b, d)
    ensures a == b
    decreases |a|
  {
    if a == [] {
      assert multiset(b) == multiset{};
    } else {
      SameFirstLine(kept, a, b, d);
      MultisetTail(a);
      MultisetTail(b);
      var rest := a[1..];
      assert DistinctKeys(rest) by {
        forall x | x in rest ensures x in kept {
          assert x in multiset(a);
        }
      }
      assert IsSorted(rest, d) && IsSorted(b[1..], d);
      SortedPermutationUnique(rest, rest, b[1..], d);
      assert a == [a[0]] + rest && b == [b[0]] + b[1..];
    }
  }
}
