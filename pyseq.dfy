/** Python list slicing and reversal used on histories and Redis lists. */
module PySeq {
  /** Python's `h[-n:]`: the last `n` entries, all of them when there are fewer (and for `n == 0`). */
  function LastN<T>(h: seq<T>, n: nat): (r: seq<T>)
    ensures |r| <= |h| && r == h[|h| - |r|..]
    ensures n > 0 ==> |r| == if |h| < n then |h| else n
  {
    if n == 0 || |h| <= n then h else h[|h| - n..]
  }

  /** A narrower window of a window is the narrower window. */
  lemma LastNNested<T>(h: seq<T>, m: nat, n: nat)
    requires 0 < m <= n
    ensures LastN(LastN(h, n), m) == LastN(h, m)
  {
  }

  /** `reversed(xs)`. */
  function Reverse<T>(xs: seq<T>): (r: seq<T>)
    ensures |r| == |xs|
    ensures forall k :: 0 <= k < |xs| ==> r[k] == xs[|xs| - 1 - k]
  {
    if |xs| == 0 then [] else Reverse(xs[1..]) + [xs[0]]
  }

  /** Reversing twice gives the list back. */
  lemma ReverseReverse<T>(xs: seq<T>)
    ensures Reverse(Reverse(xs)) == xs
  {
  }

  /** With a window wider than one, the newest entries after appending are the older window and the new entry. */
  lemma LastNSnoc<T>(prev: seq<T>, x: T, n: nat)
    requires n > 1
    ensures LastN(prev + [x], n) == LastN(prev, n - 1) + [x]
  {
    var h := prev + [x];
    if |h| > n {
      assert h[|h| - n..] == prev[|prev| - (n - 1)..] + [x];
    }
  }

  lemma ReverseSnoc<T>(a: seq<T>, x: T)
    ensures Reverse(a + [x]) == [x] + Reverse(a)
  {
    assert |Reverse(a + [x])| == |[x] + Reverse(a)|;
    forall k | 0 <= k < |a| + 1
      ensures Reverse(a + [x])[k] == ([x] + Reverse(a))[k]
    {
      if k > 0 {
        assert ([x] + Reverse(a))[k] == Reverse(a)[k - 1] == a[|a| - k];
      }
    }
  }

  /** Reversing a suffix gives a prefix of the reversal. */
  lemma ReverseSuffix<T>(a: seq<T>, j: nat)
    requires j <= |a|
    ensures Reverse(a[j..]) == Reverse(a)[..|a| - j]
  {
    var r := Reverse(a[j..]);
    var p := Reverse(a)[..|a| - j];
    assert |r| == |p|;
    forall k | 0 <= k < |r|
      ensures r[k] == p[k]
    {
      assert r[k] == a[j..][|a| - j - 1 - k];
      assert a[j..][|a| - j - 1 - k] == a[|a| - 1 - k];
      assert p[k] == Reverse(a)[k];
    }
  }
}
