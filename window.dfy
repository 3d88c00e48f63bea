/** Bounded history: keep only the newest entries of a sequence. */
module Window {

  /** The last `max(n, 0)` entries of `s`: the result of appending to a scroll-back
      buffer and cutting it back to its size limit, for both the byte buffer
      (`buf[-delta:]` with `delta = size - len(buf)`) and the line buffer
      (`pop(0)` while longer than the limit). */
  function KeepLast<T>(s: seq<T>, n: int): (r: seq<T>)
    ensures |r| == if n <= 0 then 0 else if |s| <= n then |s| else n
    ensures r == s[|s| - |r|..]
  {
    if n - |s| < 0 then
      (if |s| - n <= |s| then s[|s| - n..] else [])
    else
      s
  }

  /** Cutting after every append is the same as cutting once at the end: the
      buffer always holds exactly the newest `n` entries of everything ever appended. */
  lemma KeepLastAppend<T>(a: seq<T>, b: seq<T>, n: int)
    ensures KeepLast(KeepLast(a, n) + b, n) == KeepLast(a + b, n)
  {
    var k := KeepLast(a, n);
    if n > 0 {
      var lhs := KeepLast(k + b, n);
      var rhs := KeepLast(a + b, n);
      assert |lhs| == |rhs|;
      forall i | 0 <= i < |lhs| ensures lhs[i] == rhs[i] {
        var j := |k + b| - |lhs| + i;
        if j < |k| {
          assert lhs[i] == k[j] == a[|a| - |k| + j];
          assert rhs[i] == (a + b)[|a + b| - |rhs| + i];
        } else {
          assert lhs[i] == b[j - |k|];
        }
      }
    }
  }

  /** A buffer that already fits is left alone. */
  lemma KeepLastFits<T>(s: seq<T>, n: int)
    requires |s| <= n
    ensures KeepLast(s, n) == s
  {
  }
}
