/** Sums and means of real sequences: `torch.mean` over the camera axis. */
module RealSums {

  function Sum(s: seq<real>): real {
    if |s| == 0 then 0.0 else s[0] + Sum(s[1..])
  }

  function Mean(s: seq<real>): real
    requires |s| > 0
  {
    Sum(s) / (|s| as real)
  }

  /** The sum of a concatenation is the sum of the parts. */
  lemma {:induction false} SumConcat(a: seq<real>, b: seq<real>)
    ensures Sum(a + b) == Sum(a) + Sum(b)
  {
    if |a| > 0 {
      assert (a + b)[1..] == a[1..] + b;
      SumConcat(a[1..], b);
    } else {
      assert a + b == b;
    }
  }

  /** Taking one element out of the sum. */
  lemma SumRemove(s: seq<real>, j: nat)
    requires j < |s|
    ensures Sum(s) == s[j] + Sum(s[..j] + s[j + 1..])
  {
    var front, back := s[..j], s[j + 1..];
    SplitAt(s, j);
    SumConcat(front, [s[j]] + back);
    SumCons(s[j], back);
    SumConcat(front, back);
  }

  lemma SplitAt(s: seq<real>, j: nat)
    requires j < |s|
    ensures s == s[..j] + ([s[j]] + s[j + 1..])
  {
  }

  lemma SumCons(x: real, s: seq<real>)
    ensures Sum([x] + s) == x + Sum(s)
  {
    assert ([x] + s)[1..] == s;
  }

  /** The sum depends only on the multiset of elements, not on their order. */
  lemma {:induction false} SumPermutation(a: seq<real>, b: seq<real>)
    requires multiset(a) == multiset(b)
    ensures Sum(a) == Sum(b)
    decreases |a|
  {
    if |a| > 0 {
      assert a[0] in multiset(b);
      var j :| 0 <= j < |b| && b[j] == a[0];
      RestPermutation(a, b, j);
      SumPermutation(a[1..], b[..j] + b[j + 1..]);
      SumRemove(b, j);
    }
  }

  /** Matching the head of `a` with `b[j]` leaves permutations of each other. */
  lemma RestPermutation(a: seq<real>, b: seq<real>, j: nat)
    requires multiset(a) == multiset(b) && |a| > 0 && j < |b| && b[j] == a[0]
    ensures multiset(a[1..]) == multiset(b[..j] + b[j + 1..])
  {
    assert a[..0] + a[1..] == a[1..];
    calc {
      multiset(a[1..]);
      multiset(a[..0] + a[1..]);
      { MultisetRemove(a, 0); }
      multiset(a) - multiset{a[0]};
      multiset(b) - multiset{b[j]};
      { MultisetRemove(b, j); }
      multiset(b[..j] + b[j + 1..]);
    }
  }

  /** Taking one element out of a sequence takes it out of its multiset. */
  lemma MultisetRemove(b: seq<real>, j: nat)
    requires j < |b|
    ensures multiset(b[..j] + b[j + 1..]) == multiset(b) - multiset{b[j]}
  {
    assert b == b[..j] + [b[j]] + b[j + 1..];
  }

  /** A sum of `n` values in `[lo, hi]` lies in `[n*lo, n*hi]`. */
  lemma {:induction false} SumBounds(s: seq<real>, lo: real, hi: real)
    requires forall i :: 0 <= i < |s| ==> lo <= s[i] <= hi
    ensures (|s| as real) * lo <= Sum(s) <= (|s| as real) * hi
  {
    if |s| > 0 {
      SumBounds(s[1..], lo, hi);
    }
  }

  /** The mean of values in `[lo, hi]` lies in `[lo, hi]`. */
  lemma MeanBounds(s: seq<real>, lo: real, hi: real)
    requires |s| > 0
    requires forall i :: 0 <= i < |s| ==> lo <= s[i] <= hi
    ensures lo <= Mean(s) <= hi
  {
    SumBounds(s, lo, hi);
    DivideBounds(Sum(s), |s| as real, lo, hi);
  }

  lemma DivideBounds(x: real, n: real, lo: real, hi: real)
    requires n > 0.0 && n * lo <= x <= n * hi
    ensures lo <= x / n <= hi
  {
    assert x / n * n == x;
  }

  /** Exchanging two entries leaves the mean unchanged. */
  lemma MeanSwap(s: seq<real>, i: nat, j: nat)
    requires i < |s| && j < |s|
    ensures Mean(s[i := s[j]][j := s[i]]) == Mean(s)
  {
    var t := s[i := s[j]][j := s[i]];
    assert multiset(t) == multiset(s);
    SumPermutation(t, s);
  }
}
