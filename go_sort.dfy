/**
 * Go's string order (byte-wise lexicographic, a proper prefix first) and
 * sort.Strings, which the loader uses for its name listings.
 */
module GoSort {

  /** a < b for Go strings. */
  predicate Less(a: string, b: string)
  {
    if a == [] then b != []
    else if b == [] then false
    else if a[0] != b[0] then a[0] < b[0]
    else Less(a[1..], b[1..])
  }

  /** a <= b for Go strings. */
  predicate LessEq(a: string, b: string)
  {
    !Less(b, a)
  }

  lemma {:induction false} LessIrreflexive(a: string)
    ensures !Less(a, a)
  {
    if a != [] {
      LessIrreflexive(a[1..]);
    }
  }

  /** Any two Go strings are ordered one way or the other, or equal. */
  lemma {:induction false} LessTrichotomy(a: string, b: string)
    ensures Less(a, b) || a == b || Less(b, a)
  {
    if a != [] && b != [] && a[0] == b[0] {
      LessTrichotomy(a[1..], b[1..]);
      if a[1..] == b[1..] {
        assert a == [a[0]] + a[1..] && b == [b[0]] + b[1..];
      }
    }
  }

  lemma {:induction false} LessAsymmetric(a: string, b: string)
    ensures !(Less(a, b) && Less(b, a))
  {
    if a != [] && b != [] && a[0] == b[0] {
      LessAsymmetric(a[1..], b[1..]);
    }
  }

  lemma {:induction false} LessTransitive(a: string, b: string, c: string)
    requires Less(a, b) && Less(b, c)
    ensures Less(a, c)
  {
    if a != [] && b != [] && c != [] && a[0] == b[0] && b[0] == c[0] {
      LessTransitive(a[1..], b[1..], c[1..]);
    }
  }

  lemma LessEqTransitive(a: string, b: string, c: string)
    requires LessEq(a, b) && LessEq(b, c)
    ensures LessEq(a, c)
  {
    LessTrichotomy(a, b);
    if Less(c, a) && Less(a, b) {
      LessTransitive(c, a, b);
    }
  }

  /** Every element is at most every later element. */
  ghost predicate Sorted(s: seq<string>)
  {
    forall i, j :: 0 <= i < j < |s| ==> LessEq(s[i], s[j])
  }

  /** `x` inserted into the sorted `s` before the first element not below it. */
  function Insert(x: string, s: seq<string>): seq<string>
  {
    if s == [] then [x]
    else if LessEq(x, s[0]) then [x] + s
    else [s[0]] + Insert(x, s[1..])
  }

  lemma {:induction false} InsertPermutes(x: string, s: seq<string>)
    ensures multiset(Insert(x, s)) == multiset(s) + multiset{x}
  {
    if s != [] && !LessEq(x, s[0]) {
      InsertPermutes(x, s[1..]);
    }
    if s != [] {
      assert s == [s[0]] + s[1..];
    }
  }

  /** Every element of the sorted `s` and `x` itself are at least `y`, so all of Insert(x, s) is. */
  lemma InsertAbove(x: string, s: seq<string>, y: string)
    requires LessEq(y, x)
    requires forall j :: 0 <= j < |s| ==> LessEq(y, s[j])
    ensures forall k :: 0 <= k < |Insert(x, s)| ==> LessEq(y, Insert(x, s)[k])
  {
    var t := Insert(x, s);
    InsertPermutes(x, s);
    forall k | 0 <= k < |t|
      ensures LessEq(y, t[k])
    {
      assert t[k] in multiset(t);
      if t[k] != x {
        assert t[k] in multiset(s);
        var j :| 0 <= j < |s| && s[j] == t[k];
      }
    }
  }

  lemma {:induction false} InsertSorted(x: string, s: seq<string>)
    requires Sorted(s)
    ensures Sorted(Insert(x, s))
  {
    if s == [] {
    } else if LessEq(x, s[0]) {
      forall j | 0 <= j < |s|
        ensures LessEq(x, s[j])
      {
        if j > 0 {
          LessEqTransitive(x, s[0], s[j]);
        }
      }
    } else {
      InsertSorted(x, s[1..]);
      var t := Insert(x, s[1..]);
      LessAsymmetric(x, s[0]);
      InsertAbove(x, s[1..], s[0]);
      var r := [s[0]] + t;
      forall i, j | 0 <= i < j < |r|
        ensures LessEq(r[i], r[j])
      {
        if i > 0 {
          assert r[i] == t[i - 1] && r[j] == t[j - 1];
        }
      }
    }
  }

  /** sort.Strings: the same strings, in ascending order. */
  function Sort(s: seq<string>): (r: seq<string>)
    ensures Sorted(r)
    ensures multiset(r) == multiset(s)
  {
    if s == [] then []
    else
      var t := Sort(s[1..]);
      InsertSorted(s[0], t);
      InsertPermutes(s[0], t);
      assert s == [s[0]] + s[1..];
      Insert(s[0], t)
  }

  /** A sorted sequence without repeated strings is strictly ascending. */
  lemma SortedDistinctAscending(s: seq<string>)
    requires Sorted(s)
    requires forall i, j :: 0 <= i < j < |s| ==> s[i] != s[j]
    ensures forall i, j :: 0 <= i < j < |s| ==> Less(s[i], s[j])
  {
    forall i, j | 0 <= i < j < |s|
      ensures Less(s[i], s[j])
    {
      LessTrichotomy(s[i], s[j]);
    }
  }
}
