/** Datatypes and sequence facts shared by every module. */
module Common {

  datatype Option<+T> = None | Some(value: T)

  datatype Result<+T, +E> = Ok(value: T) | Err(error: E)

  /** Non-decreasing, as every list of clock readings here is. */
  ghost predicate Sorted(s: seq<real>) {
    forall i, j :: 0 <= i < j < |s| ==> s[i] <= s[j]
  }

  ghost predicate AllUpTo(s: seq<real>, bound: real) {
    forall i :: 0 <= i < |s| ==> s[i] <= bound
  }

  ghost predicate AllAfter(s: seq<real>, bound: real) {
    forall i :: 0 <= i < |s| ==> s[i] > bound
  }

  /** How many readings lie strictly after `cutoff`. */
  function CountAfter(s: seq<real>, cutoff: real): nat {
    if s == [] then 0
    else CountAfter(s[..|s| - 1], cutoff) + if s[|s| - 1] > cutoff then 1 else 0
  }

  lemma {:induction false} CountAfterConcat(a: seq<real>, b: seq<real>, cutoff: real)
    ensures CountAfter(a + b, cutoff) == CountAfter(a, cutoff) + CountAfter(b, cutoff)
  {
    if b == [] {
      assert a + b == a;
    } else {
      var front := b[..|b| - 1];
      assert (a + b)[..|a + b| - 1] == a + front;
      CountAfterConcat(a, front, cutoff);
    }
  }

  lemma CountAfterAppend(s: seq<real>, x: real, cutoff: real)
    ensures CountAfter(s + [x], cutoff) == CountAfter(s, cutoff) + if x > cutoff then 1 else 0
  {
    assert (s + [x])[..|s|] == s;
  }

  lemma {:induction false} CountAfterBounds(s: seq<real>, cutoff: real)
    ensures CountAfter(s, cutoff) <= |s|
    ensures CountAfter(s, cutoff) == |s| <==> AllAfter(s, cutoff)
    ensures CountAfter(s, cutoff) == 0 <==> AllUpTo(s, cutoff)
  {
    if s == [] {
    } else {
      var front, last := s[..|s| - 1], s[|s| - 1];
      assert s == front + [last];
      CountAfterBounds(front, cutoff);
      assert AllUpTo(s, cutoff) <==> AllUpTo(front, cutoff) && last <= cutoff;
      assert AllAfter(s, cutoff) <==> AllAfter(front, cutoff) && last > cutoff;
    }
  }

  /** It is the number of positions that hold one. */
  lemma {:induction false} CountAfterIsCardinality(s: seq<real>, cutoff: real)
    ensures CountAfter(s, cutoff) == |set i | 0 <= i < |s| && s[i] > cutoff|
  {
    var all := set i | 0 <= i < |s| && s[i] > cutoff;
    if s == [] {
      assert all == {};
    } else {
      var n := |s| - 1;
      var front := set i | 0 <= i < |s[..n]| && s[..n][i] > cutoff;
      CountAfterIsCardinality(s[..n], cutoff);
      assert all == if s[n] > cutoff then front + {n} else front;
    }
  }

  /** A later cutoff never counts more. */
  lemma {:induction false} CountAfterMonotone(s: seq<real>, lo: real, hi: real)
    requires lo <= hi
    ensures CountAfter(s, hi) <= CountAfter(s, lo)
  {
    if s == [] {
    } else {
      CountAfterMonotone(s[..|s| - 1], lo, hi);
    }
  }

  function Max(a: real, b: real): real {
    if a < b then b else a
  }
}
