/** Python's slice `s[lo:hi]`, the length of `range(0, n, step)`, and the
    fixed-size cutting `[s[i:i + size] for i in range(0, len(s), size)]` that
    both pipeline stages use: the summariser on the prompt, and the audio reader
    on the sample bytes. */
module Slicing {

  function Min(a: int, b: int): int { if a <= b then a else b }

  /** `s[lo:hi]` for non-negative bounds: both bounds are clamped to `len(s)`,
      and the slice is empty when `hi <= lo`. */
  function Slice<T>(s: seq<T>, lo: nat, hi: nat): (r: seq<T>)
    ensures |r| <= |s|
  {
    var a := Min(lo, |s|);
    var b := Min(hi, |s|);
    if b <= a then [] else s[a..b]
  }

  /** `len(range(0, n, step))`: how many of `0, step, 2 * step, ...` lie
      below `n`. */
  function RangeLen(n: nat, step: nat): nat
    requires step > 0
    decreases n
  {
    if n == 0 then 0 else if n <= step then 1 else 1 + RangeLen(n - step, step)
  }

  /** That count is `ceil(n / step)`. */
  lemma {:induction false} RangeLenIsCeil(n: nat, step: nat)
    requires step > 0
    ensures RangeLen(n, step) == (n + step - 1) / step
    decreases n
  {
    if n == 0 {
      DivUnique(step - 1, step, 0, step - 1);
    } else if n <= step {
      DivUnique(n + step - 1, step, 1, n - 1);
    } else {
      RangeLenIsCeil(n - step, step);
      DivStep(n - 1, step);
    }
  }

  /** `[s[i:i + size] for i in range(0, len(s), size)]`, the `k`-th `i`
      being `k * size`. */
  function Chunks<T>(s: seq<T>, size: nat): seq<seq<T>>
    requires size > 0
  {
    seq(RangeLen(|s|, size), k requires 0 <= k => ChunkAt(s, size, k))
  }

  /** The `k`-th slice of that comprehension. */
  function ChunkAt<T>(s: seq<T>, size: nat, k: nat): seq<T>
  {
    Slice(s, k * size, k * size + size)
  }

  /** Concatenation of a list of pieces, in order. */
  function Concat<T>(ss: seq<seq<T>>): seq<T>
  {
    if ss == [] then [] else ss[0] + Concat(ss[1..])
  }

  lemma {:induction false} DivStep(x: nat, b: nat)
    requires b > 0
    ensures (x + b) / b == x / b + 1
  {
    var q, r := x / b, x % b;
    assert x + b == (q + 1) * b + r;
    DivUnique(x + b, b, q + 1, r);
  }

  lemma {:induction false} DivUnique(x: nat, b: nat, q: nat, r: nat)
    requires b > 0 && r < b && x == q * b + r
    ensures x / b == q
  {
    var q', r' := x / b, x % b;
    assert x == q' * b + r';
    if q' < q {
      MulGap(q', q, b);
    } else if q' > q {
      MulGap(q, q', b);
    }
  }

  lemma {:induction false} MulGap(a: nat, a': nat, b: nat)
    requires a < a'
    ensures a * b + b <= a' * b
    decreases a' - a
  {
    assert a' * b == (a' - 1) * b + b;
    if a + 1 < a' {
      MulGap(a, a' - 1, b);
    }
  }

  /** Shifting a slice by `d` is slicing what follows `d`. */
  lemma SliceShift<T>(s: seq<T>, d: nat, lo: nat, hi: nat)
    requires d <= |s|
    ensures Slice(s, d + lo, d + hi) == Slice(s[d..], lo, hi)
  {
  }

  /** The comprehension peels off one piece at a time: the first piece is
      `s[:size]` and the rest is the comprehension over `s[size:]`. */
  lemma ChunksCons<T>(s: seq<T>, size: nat)
    requires size > 0 && |s| > 0
    ensures Chunks(s, size) == [Slice(s, 0, size)] + Chunks(s[Min(size, |s|)..], size)
  {
    var c := Chunks(s, size);
    var t := s[Min(size, |s|)..];
    if |s| <= size {
      assert t == [];
    } else {
      assert |c| == 1 + |Chunks(t, size)|;
      forall k | 0 <= k < |c| - 1
        ensures c[k + 1] == Chunks(t, size)[k]
      {
        ChunkAtShift(s, size, k);
      }
    }
  }

  lemma ChunkAtShift<T>(s: seq<T>, size: nat, k: nat)
    requires size <= |s|
    ensures ChunkAt(s, size, k + 1) == ChunkAt(s[size..], size, k)
  {
    assert (k + 1) * size == size + k * size;
    SliceShift(s, size, k * size, k * size + size);
  }

  /** The same cutting written as a recursion: take `s[:size]`, then cut the
      rest. The pieces' properties are proved on this form. */
  function Pieces<T>(s: seq<T>, size: nat): seq<seq<T>>
    requires size > 0
    decreases |s|
  {
    if |s| == 0 then [] else [s[..Min(size, |s|)]] + Pieces(s[Min(size, |s|)..], size)
  }

  /** The comprehension and the recursion cut `s` the same way. */
  lemma {:induction false} ChunksArePieces<T>(s: seq<T>, size: nat)
    requires size > 0
    ensures Chunks(s, size) == Pieces(s, size)
    decreases |s|
  {
    if |s| > 0 {
      ChunksCons(s, size);
      ChunksArePieces(s[Min(size, |s|)..], size);
    }
  }

  lemma {:induction false} PiecesConcat<T>(s: seq<T>, size: nat)
    requires size > 0
    ensures Concat(Pieces(s, size)) == s
    decreases |s|
  {
    if |s| > 0 {
      var p := Pieces(s, size);
      PiecesConcat(s[Min(size, |s|)..], size);
      assert p[1..] == Pieces(s[Min(size, |s|)..], size);
    }
  }

  lemma {:induction false} PiecesSizes<T>(s: seq<T>, size: nat)
    requires size > 0
    ensures forall k :: 0 <= k < |Pieces(s, size)| ==> 0 < |Pieces(s, size)[k]| <= size
    ensures forall k :: 0 <= k < |Pieces(s, size)| - 1 ==> |Pieces(s, size)[k]| == size
    decreases |s|
  {
    if |s| > 0 {
      var t := s[Min(size, |s|)..];
      PiecesSizes(t, size);
      if |s| <= size {
        assert t == [];
      }
    }
  }

  lemma {:induction false} PiecesCount<T>(s: seq<T>, size: nat)
    requires size > 0
    ensures |Pieces(s, size)| == 0 <==> |s| == 0
    ensures |s| > 0 ==> (|Pieces(s, size)| - 1) * size < |s| <= |Pieces(s, size)| * size
    decreases |s|
  {
    if |s| > 0 {
      var t := s[Min(size, |s|)..];
      PiecesCount(t, size);
      var n := |Pieces(t, size)|;
      assert |Pieces(s, size)| == n + 1;
      if |s| <= size {
        assert t == [];
      } else {
        MulSucc(n, size);
        if n > 0 {
          MulSucc(n - 1, size);
        }
      }
    }
  }

  lemma MulSucc(n: nat, size: nat)
    ensures (n + 1) * size == n * size + size
  {
  }

  /** The pieces, concatenated in order, give back `s`: no overlap, no gap. */
  lemma ChunksConcat<T>(s: seq<T>, size: nat)
    requires size > 0
    ensures Concat(Chunks(s, size)) == s
  {
    ChunksArePieces(s, size);
    PiecesConcat(s, size);
  }

  /** Every piece is non-empty and at most `size` long, and every piece but
      the last is exactly `size` long. */
  lemma ChunksSizes<T>(s: seq<T>, size: nat)
    requires size > 0
    ensures forall k :: 0 <= k < |Chunks(s, size)| ==> 0 < |Chunks(s, size)[k]| <= size
    ensures forall k :: 0 <= k < |Chunks(s, size)| - 1 ==> |Chunks(s, size)[k]| == size
  {
    ChunksArePieces(s, size);
    PiecesSizes(s, size);
  }

  /** There are `ceil(len(s) / size)` pieces: none for an empty `s`, and
      otherwise `(count - 1) * size < len(s) <= count * size`. */
  lemma ChunksCount<T>(s: seq<T>, size: nat)
    requires size > 0
    ensures |Chunks(s, size)| == 0 <==> |s| == 0
    ensures |s| > 0 ==> (|Chunks(s, size)| - 1) * size < |s| <= |Chunks(s, size)| * size
  {
    ChunksArePieces(s, size);
    PiecesCount(s, size);
  }

  /** When a fixed head fits in one piece, the first piece starts with the
      whole head and every later piece lies entirely in what follows it. */
  lemma ChunksAfterHead<T>(head: seq<T>, body: seq<T>, size: nat)
    requires 0 < |head| <= size
    ensures |Chunks(head + body, size)| > 0
    ensures Chunks(head + body, size)[0][..|head|] == head
    ensures forall k :: 1 <= k < |Chunks(head + body, size)| ==>
              Chunks(head + body, size)[k]
              == Slice(body, k * size - |head|, k * size + size - |head|)
  {
    var s := head + body;
    var c := Chunks(s, size);
    ChunksCount(s, size);
    assert c[0] == ChunkAt(s, size, 0);
    forall k | 1 <= k < |c|
      ensures c[k] == Slice(body, k * size - |head|, k * size + size - |head|)
    {
      assert c[k] == ChunkAt(s, size, k);
      ChunkAtAfterHead(head, body, size, k);
    }
  }

  lemma ChunkAtAfterHead<T>(head: seq<T>, body: seq<T>, size: nat, k: nat)
    requires |head| <= size && 1 <= k
    ensures ChunkAt(head + body, size, k) == Slice(body, k * size - |head|, k * size + size - |head|)
  {
    MulGap(0, k, size);
    var s := head + body;
    assert s[|head|..] == body;
    SliceShift(s, |head|, k * size - |head|, k * size + size - |head|);
  }
}
