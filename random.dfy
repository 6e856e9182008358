/** The seeded random source the sketch draws from (`$random`). Its
    implementation is an external library; here it is an oracle: a fixed
    stream of uniform draws in [0, 1) and a count of draws already taken, so
    that every run is a function of the stream. */
module RandomSource {

  /** A uniform draw, as `next()` returns it. */
  type Unit = r: real | 0.0 <= r < 1.0

  /** `Math.floor(u * n)`: a uniform draw scaled to an index below n. */
  function PickIndex(u: Unit, n: nat): (k: nat)
    requires n > 0
    ensures k < n
  {
    ScaleBelow(u, n as real);
    (u * n as real).Floor
  }

  /** A draw scaled by a positive size stays in [0, size). */
  lemma ScaleBelow(u: Unit, size: real)
    requires size > 0.0
    ensures 0.0 <= u * size < size
  {
    assert u * size < 1.0 * size;
  }

  /** `between(lo, hi)`: an integer in [lo, hi] derived from one draw. */
  function BetweenOf(u: Unit, lo: int, hi: int): (n: int)
    requires lo <= hi
    ensures lo <= n <= hi
  {
    lo + PickIndex(u, hi - lo + 1)
  }

  /** No element occurs twice in s. */
  ghost predicate Distinct<T>(s: seq<T>)
  {
    forall j, k :: 0 <= j < k < |s| ==> s[j] != s[k]
  }

  /** The number of draws a Fisher-Yates shuffle of n elements takes. */
  function ShuffleDraws(n: nat): nat
  {
    if n <= 1 then 0 else n - 1
  }

  class Random {
    /** The stream the seed determines: the k-th call of `next()` returns source(k). */
    const source: nat -> Unit
    /** How many draws have been taken. */
    var used: nat

    constructor (source: nat -> Unit)
      ensures this.source == source && used == 0
    {
      this.source := source;
      used := 0;
    }

    /** `next()`: the next draw of the stream. */
    method Next() returns (u: Unit)
      modifies this
      ensures u == source(old(used)) && used == old(used) + 1
    {
      u := source(used);
      used := used + 1;
    }

    /** `between(lo, hi)`: one draw, scaled to an integer in [lo, hi]. */
    method Between(lo: int, hi: int) returns (n: int)
      requires lo <= hi
      modifies this
      ensures n == BetweenOf(source(old(used)), lo, hi) && lo <= n <= hi
      ensures used == old(used) + 1
    {
      var u := Next();
      n := BetweenOf(u, lo, hi);
    }

    /** `shuffle(a)`: an in-place Fisher-Yates shuffle. Whatever the stream,
        the result is a permutation of the input. */
    method Shuffle<T>(a: array<T>)
      modifies this, a
      ensures multiset(a[..]) == old(multiset(a[..]))
      ensures Distinct(old(a[..])) ==> Distinct(a[..])
      ensures used == old(used) + ShuffleDraws(a.Length)
    {
      if a.Length <= 1 {
        return;
      }
      var i := a.Length - 1;
      while i > 0
        invariant 0 <= i < a.Length
        invariant multiset(a[..]) == old(multiset(a[..]))
        invariant Distinct(old(a[..])) ==> Distinct(a[..])
        invariant used == old(used) + (a.Length - 1 - i)
      {
        var u := Next();
        var j := PickIndex(u, i + 1);
        ghost var before := a[..];
        a[i], a[j] := a[j], a[i];
        SwapKeepsDistinct(before, i, j);
        SwapKeepsMultiset(before, i, j);
        assert a[..] == before[i := before[j]][j := before[i]];
        i := i - 1;
      }
    }
  }

  /** Exchanging two elements keeps the elements of a sequence. */
  lemma SwapKeepsMultiset<T>(s: seq<T>, i: nat, j: nat)
    requires i < |s| && j < |s|
    ensures multiset(s[i := s[j]][j := s[i]]) == multiset(s)
  {
  }

  /** Exchanging two elements keeps a sequence free of repetitions. */
  lemma SwapKeepsDistinct<T>(s: seq<T>, i: nat, j: nat)
    requires i < |s| && j < |s|
    ensures Distinct(s) ==> Distinct(s[i := s[j]][j := s[i]])
  {
    if Distinct(s) {
      var t := s[i := s[j]][j := s[i]];
      forall p, q | 0 <= p < q < |t|
        ensures t[p] != t[q]
      {
        var p' := if p == i then j else if p == j then i else p;
        var q' := if q == i then j else if q == j then i else q;
        assert t[p] == s[p'] && t[q] == s[q'] && p' != q';
      }
    }
  }
}
