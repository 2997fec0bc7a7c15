/** Optional values and results with an error, used for the source's `None` and its exceptions. */
module Base {
  datatype Option<+T> = None | Some(value: T)

  datatype Result<+T, +E> = Ok(value: T) | Err(error: E)

  /** Python truthiness of an optional string: present and not empty. */
  predicate Given(s: Option<string>) {
    s.Some? && s.value != ""
  }

  /** The elements of `s` that satisfy `p`, in order (a list comprehension with an `if`). */
  function Filter<T>(s: seq<T>, p: T -> bool): (r: seq<T>)
    ensures |r| <= |s|
    ensures forall x | x in r :: x in s && p(x)
    ensures forall x | x in s && p(x) :: x in r
    decreases |s|
  {
    if s == [] then [] else Filter(s[..|s| - 1], p) + (if p(s[|s| - 1]) then [s[|s| - 1]] else [])
  }

  /** The sequences of `ss` one after the other (a nested list comprehension). */
  function Concat<T(!new)>(ss: seq<seq<T>>): (r: seq<T>)
    ensures forall x :: x in r <==> exists i | 0 <= i < |ss| :: x in ss[i]
    decreases |ss|
  {
    if ss == [] then []
    else
      assert forall i | 0 <= i < |ss| - 1 :: ss[..|ss| - 1][i] == ss[i];
      Concat(ss[..|ss| - 1]) + ss[|ss| - 1]
  }

  /** One more sequence, one more stretch of the concatenation. */
  lemma ConcatStep<T(!new)>(ss: seq<seq<T>>, i: nat)
    requires i < |ss|
    ensures Concat(ss[..i + 1]) == Concat(ss[..i]) + ss[i]
  {
    assert ss[..i + 1][..i] == ss[..i];
  }

  /** Concatenation distributes over `+`: the parts come out in the order they went in. */
  lemma {:induction false} ConcatAppend<T(!new)>(a: seq<seq<T>>, b: seq<seq<T>>)
    ensures Concat(a + b) == Concat(a) + Concat(b)
    decreases |b|
  {
    if b != [] {
      var b' := b[..|b| - 1];
      assert (a + b)[..|a + b| - 1] == a + b';
      ConcatAppend(a, b');
    } else {
      assert a + b == a;
    }
  }
}
