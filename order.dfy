/** Python's ordering of `str` values (code point by code point, a proper prefix first) and the
    `sorted(...)` of a set of strings, used wherever the source iterates in sorted order. */
module StringOrder {
  import opened Base

  /** `a < b` on Python strings. */
  predicate Less(a: string, b: string)
    decreases |a|
  {
    if |a| == 0 then |b| > 0
    else if |b| == 0 then false
    else if a[0] < b[0] then true
    else if a[0] == b[0] then Less(a[1..], b[1..])
    else false
  }

  lemma {:induction false} LessIrreflexive(a: string)
    ensures !Less(a, a)
    decreases |a|
  {
    if |a| > 0 { LessIrreflexive(a[1..]); }
  }

  lemma {:induction false} LessAsymmetric(a: string, b: string)
    ensures Less(a, b) ==> !Less(b, a)
    decreases |a|
  {
    if |a| > 0 && |b| > 0 && a[0] == b[0] { LessAsymmetric(a[1..], b[1..]); }
  }

  lemma {:induction false} LessTransitive(a: string, b: string, c: string)
    requires Less(a, b) && Less(b, c)
    ensures Less(a, c)
    decreases |a|
  {
    if |a| > 0 && a[0] == b[0] && b[0] == c[0] { LessTransitive(a[1..], b[1..], c[1..]); }
  }

  lemma {:induction false} LessTotal(a: string, b: string)
    requires a != b
    ensures Less(a, b) || Less(b, a)
    decreases |a|
  {
    if |a| > 0 && |b| > 0 && a[0] == b[0] {
      assert a == [a[0]] + a[1..] && b == [b[0]] + b[1..];
      LessTotal(a[1..], b[1..]);
    }
  }

  /** Strictly ascending: what `sorted` returns for a set. */
  predicate StrictlySorted(s: seq<string>) {
    forall i, j | 0 <= i < j < |s| :: Less(s[i], s[j])
  }

  predicate IsLeast(m: string, s: set<string>) {
    m in s && forall y {:trigger Less(m, y)} | y in s && y != m :: Less(m, y)
  }

  lemma {:induction false} LeastExists(s: set<string>)
    requires s != {}
    ensures exists m :: IsLeast(m, s)
    decreases |s|
  {
    var x :| x in s;
    if s == {x} {
      assert IsLeast(x, s);
    } else {
      LeastExists(s - {x});
      var m :| IsLeast(m, s - {x});
      if Less(m, x) {
        assert IsLeast(m, s);
      } else {
        LessTotal(m, x);
        forall y | y in s && y != x ensures Less(x, y) {
          if y != m { LessTransitive(x, m, y); }
        }
        assert IsLeast(x, s);
      }
    }
  }

  lemma LeastUnique(m: string, n: string, s: set<string>)
    requires IsLeast(m, s) && IsLeast(n, s)
    ensures m == n
  {
    if m != n { LessAsymmetric(m, n); }
  }

  /** `sorted(s)` for a set of strings: every element once, in ascending order. */
  function SortedSet(s: set<string>): (r: seq<string>)
    ensures |r| == |s|
    ensures forall x :: x in r <==> x in s
    ensures StrictlySorted(r)
    decreases |s|
  {
    if s == {} then []
    else
      LeastExists(s);
      assert forall m, n | IsLeast(m, s) && IsLeast(n, s) :: m == n by {
        forall m, n | IsLeast(m, s) && IsLeast(n, s) ensures m == n { LeastUnique(m, n, s); }
      }
      var m :| IsLeast(m, s);
      var rest := SortedSet(s - {m});
      ConsSorted(m, rest);
      [m] + rest
  }

  /** A string less than every element of an ascending sequence can go in front of it. */
  lemma ConsSorted(m: string, rest: seq<string>)
    requires StrictlySorted(rest)
    requires forall y | y in rest :: Less(m, y)
    ensures StrictlySorted([m] + rest)
  {
    forall i, j | 0 <= i < j < |[m] + rest| ensures Less(([m] + rest)[i], ([m] + rest)[j]) {
      assert ([m] + rest)[j] == rest[j - 1];
      if i > 0 {
        assert ([m] + rest)[i] == rest[i - 1];
      }
    }
  }

  /** Keeping only some elements of an ascending sequence leaves it ascending. */
  lemma {:induction false} FilterKeepsSorted(s: seq<string>, p: string -> bool)
    requires StrictlySorted(s)
    ensures StrictlySorted(Filter(s, p))
    decreases |s|
  {
    if s != [] {
      var init, last := s[..|s| - 1], s[|s| - 1];
      FilterKeepsSorted(init, p);
      forall x | x in Filter(init, p) ensures Less(x, last) {
        var k :| 0 <= k < |init| && init[k] == x;
      }
    }
  }
}
