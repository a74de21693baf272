/** The strided array kernels of src/util/util.h. A `double *` buffer is
    modelled as the sequence of its entries; a kernel that writes into a
    buffer takes the buffer's contents before the call and returns them
    after it. Doubles are modelled as exact reals: IEEE rounding of the
    products and sums is abstracted away. */
module Kernels {

  type Buffer = seq<real>

  /** Position of entry (`row`, `col`) of a row-major matrix with leading
      dimension `ld`. */
  function Idx(row: int, col: int, ld: int): int
  {
    row * ld + col
  }

  /** A buffer of length `len` holds every entry of an `nRows` × `nCols`
      matrix stored with leading dimension `ld`, and rows do not overlap.
      An empty matrix fits any buffer. */
  predicate Fits(len: int, nRows: int, nCols: int, ld: int)
  {
    nRows <= 0 || nCols <= 0 || (nCols <= ld && (nRows - 1) * ld + nCols <= len)
  }

  /** Position `k` is entry (k / ld, k % ld) of the `nRows` × `nCols`
      window of a buffer with leading dimension `ld >= nCols`. */
  predicate InWindow(k: int, nRows: int, nCols: int, ld: int)
  {
    0 < nCols <= ld && 0 <= k && k / ld < nRows && k % ld < nCols
  }

  lemma IdxDecomposes(row: int, col: int, ld: int)
    requires 0 <= row && 0 <= col < ld
    ensures Idx(row, col, ld) / ld == row && Idx(row, col, ld) % ld == col
  {
    var k := Idx(row, col, ld);
    QuotientUnique(k, ld, k / ld, k % ld, row, col);
  }

  /** Two quotient/remainder pairs of the same number by `ld` agree. */
  lemma QuotientUnique(k: int, ld: int, q1: int, m1: int, q2: int, m2: int)
    requires 0 < ld && 0 <= m1 < ld && 0 <= m2 < ld
    requires k == q1 * ld + m1 && k == q2 * ld + m2
    ensures q1 == q2 && m1 == m2
  {
    var d := q1 - q2;
    assert d * ld == q1 * ld - q2 * ld;
    if d > 0 {
      MulAtLeast(d, ld);
    } else if d < 0 {
      MulAtLeast(-d, ld);
    }
  }

  lemma {:induction false} MulAtLeast(a: int, b: int)
    requires a >= 1 && b >= 0
    ensures a * b >= b
    decreases a
  {
    if a > 1 {
      MulAtLeast(a - 1, b);
      assert a * b == (a - 1) * b + b;
    }
  }

  lemma MulMonotone(a: int, c: int, b: int)
    requires a <= c && b >= 0
    ensures a * b <= c * b
  {
    if a < c {
      MulAtLeast(c - a, b);
      assert (c - a) * b == c * b - a * b;
    }
  }

  lemma IdxInBounds(row: int, col: int, nRows: int, nCols: int, ld: int, len: int)
    requires 0 <= row < nRows && 0 <= col < nCols
    requires Fits(len, nRows, nCols, ld)
    ensures 0 <= Idx(row, col, ld) < len
  {
    assert row * ld <= (nRows - 1) * ld by {
      assert (nRows - 1) * ld - row * ld == (nRows - 1 - row) * ld;
    }
  }

  lemma IdxInjective(r1: int, c1: int, r2: int, c2: int, ld: int)
    requires 0 <= r1 && 0 <= c1 < ld && 0 <= r2 && 0 <= c2 < ld
    requires Idx(r1, c1, ld) == Idx(r2, c2, ld)
    ensures r1 == r2 && c1 == c2
  {
    IdxDecomposes(r1, c1, ld);
    IdxDecomposes(r2, c2, ld);
  }

  /** Every window position is the position of its own (row, col) entry. */
  lemma WindowIsIdx(k: int, nRows: int, nCols: int, ld: int)
    requires InWindow(k, nRows, nCols, ld)
    ensures Idx(k / ld, k % ld, ld) == k
  {
  }

  /** Window position `k` comes before entry (`row`, `col`) in row-major order. */
  predicate WrittenBefore(k: int, nRows: int, nCols: int, ld: int, row: int, col: int)
  {
    InWindow(k, nRows, nCols, ld) && (k / ld < row || (k / ld == row && k % ld < col))
  }

  /** The padding of `dst1` (every position outside the `nRows` × `nCols`
      window, columns `nCols..ld-1` of each row included) is as in `dst0`. */
  ghost predicate PaddingKept(dst0: Buffer, dst1: Buffer, nRows: int, nCols: int, ld: int)
  {
    |dst1| == |dst0| && forall k :: 0 <= k < |dst0| && !InWindow(k, nRows, nCols, ld) ==> dst1[k] == dst0[k]
  }

  /** `dst1` is `dst0` with each window entry (row, col) replaced by
      `value(row, col)` and every other position, padding columns included,
      left as it was. */
  ghost predicate StridedImage(dst0: Buffer, dst1: Buffer, nRows: int, nCols: int, ld: int,
                               value: (int, int) -> real)
  {
    && PaddingKept(dst0, dst1, nRows, nCols, ld)
    && (forall row, col :: 0 <= row < nRows && 0 <= col < nCols ==>
          0 <= Idx(row, col, ld) < |dst1| && dst1[Idx(row, col, ld)] == value(row, col))
  }

  /** The double loop the three element-wise kernels share:
      `for row < n_rows, for col < n_cols: dst[row*ld+col] = value(row, col)`. */
  method StridedWrite(dst: Buffer, nRows: int, nCols: int, ld: int, value: (int, int) -> real)
    returns (out: Buffer)
    requires Fits(|dst|, nRows, nCols, ld)
    ensures StridedImage(dst, out, nRows, nCols, ld, value)
  {
    out := dst;
    var row := 0;
    while row < nRows
      invariant 0 <= row <= (if nRows < 0 then 0 else nRows)
      invariant |out| == |dst|
      invariant forall r, c :: 0 <= r < row && 0 <= c < nCols ==>
                  0 <= Idx(r, c, ld) < |out| && out[Idx(r, c, ld)] == value(r, c)
      invariant forall k :: 0 <= k < |dst| && !WrittenBefore(k, nRows, nCols, ld, row, 0) ==>
                  out[k] == dst[k]
    {
      var col := 0;
      while col < nCols
        invariant 0 <= col <= (if nCols < 0 then 0 else nCols)
        invariant |out| == |dst|
        invariant forall r, c :: (0 <= r < row && 0 <= c < nCols) || (r == row && 0 <= c < col) ==>
                    0 <= Idx(r, c, ld) < |out| && out[Idx(r, c, ld)] == value(r, c)
        invariant forall k :: 0 <= k < |dst| && !WrittenBefore(k, nRows, nCols, ld, row, col) ==>
                    out[k] == dst[k]
      {
        IdxInBounds(row, col, nRows, nCols, ld, |dst|);
        IdxDecomposes(row, col, ld);
        var k0 := Idx(row, col, ld);
        forall r, c | (0 <= r < row && 0 <= c < nCols) || (r == row && 0 <= c < col)
          ensures Idx(r, c, ld) != k0
        {
          if Idx(r, c, ld) == k0 {
            IdxInjective(r, c, row, col, ld);
          }
        }
        forall k | 0 <= k < |dst| && InWindow(k, nRows, nCols, ld) && k / ld == row && k % ld == col
          ensures k == k0
        {
          WindowIsIdx(k, nRows, nCols, ld);
        }
        out := out[k0 := value(row, col)];
        col := col + 1;
      }
      row := row + 1;
    }
  }

  /** Entries of (`row`, `col`) lie in a buffer of length `len`. */
  predicate Covers(len: int, row: int, col: int, ld: int)
  {
    0 <= Idx(row, col, ld) < len
  }

  /** `buf1` is `buf0` with positions `from .. from + len - 1` set to 0 and
      every other position as it was. */
  ghost predicate Zeroed(buf0: Buffer, buf1: Buffer, from: int, len: int)
  {
    |buf1| == |buf0| && forall k :: 0 <= k < |buf0| ==> buf1[k] == (if from <= k < from + len then 0.0 else buf0[k])
  }

  /** `memset(&buf[from], 0, len)`. */
  method Memset(buf: Buffer, from: int, len: int) returns (out: Buffer)
    requires 0 <= from && 0 <= len && from + len <= |buf|
    ensures Zeroed(buf, out, from, len)
  {
    out := buf;
    var j := from;
    while j < from + len
      invariant from <= j <= from + len
      invariant |out| == |buf|
      invariant forall k :: 0 <= k < |buf| ==> out[k] == (if from <= k < j then 0.0 else buf[k])
    {
      out := out[j := 0.0];
      j := j + 1;
    }
  }

  /** `AllocateMemory` of src/util/util.h: whatever the fresh block held
      (`contents`), the `memset` after `malloc` leaves `sz` zero entries. The
      layer's own `AllocateMemory` has no `memset`, so its buffers keep their
      contents. */
  method AllocateMemory(sz: nat, contents: Buffer) returns (buf: Buffer)
    requires |contents| == sz
    ensures |buf| == sz
    ensures forall i :: 0 <= i < sz ==> buf[i] == 0.0
  {
    buf := Memset(contents, 0, sz);
  }

  /** `MatrixAdd`: C = A*alpha + B*beta entry by entry over an
      `nRows` × `nCols` window, each matrix with its own leading dimension. */
  method MatrixAdd(A: Buffer, B: Buffer, C: Buffer, alpha: real, beta: real,
                   nRows: int, nCols: int, lda: int, ldb: int, ldc: int)
    returns (C': Buffer)
    requires Fits(|A|, nRows, nCols, lda) && Fits(|B|, nRows, nCols, ldb) && Fits(|C|, nRows, nCols, ldc)
    ensures forall row, col :: 0 <= row < nRows && 0 <= col < nCols ==>
              && Covers(|A|, row, col, lda) && Covers(|B|, row, col, ldb) && Covers(|C'|, row, col, ldc)
              && C'[Idx(row, col, ldc)] == A[Idx(row, col, lda)] * alpha + B[Idx(row, col, ldb)] * beta
    ensures PaddingKept(C, C', nRows, nCols, ldc)
  {
    C' := StridedWrite(C, nRows, nCols, ldc,
      (r, c) =>
        if Covers(|A|, r, c, lda) && Covers(|B|, r, c, ldb)
        then A[Idx(r, c, lda)] * alpha + B[Idx(r, c, ldb)] * beta
        else 0.0);
    forall row, col | 0 <= row < nRows && 0 <= col < nCols
      ensures Covers(|A|, row, col, lda) && Covers(|B|, row, col, ldb)
    {
      IdxInBounds(row, col, nRows, nCols, lda, |A|);
      IdxInBounds(row, col, nRows, nCols, ldb, |B|);
    }
  }

  /** `std::max(0, x)`. */
  function Relu(x: real): real
  {
    if 0.0 < x then x else 0.0
  }

  /** The gradient of `Relu` as the source defines it, 1 at 0. */
  function ReluGradient(x: real): real
  {
    if x < 0.0 then 0.0 else 1.0
  }

  /** `out1` is `out0` with its window replaced by ReLU of the window of `inp`. */
  ghost predicate IsRelu(inp: Buffer, out0: Buffer, out1: Buffer, nRows: int, nCols: int, ldIn: int, ldOut: int)
  {
    && PaddingKept(out0, out1, nRows, nCols, ldOut)
    && forall row, col :: 0 <= row < nRows && 0 <= col < nCols ==>
         && Covers(|inp|, row, col, ldIn) && Covers(|out1|, row, col, ldOut)
         && out1[Idx(row, col, ldOut)] == Relu(inp[Idx(row, col, ldIn)])
  }

  /** `out1` is `out0` with its window replaced by the ReLU gradient of the window of `inp`. */
  ghost predicate IsReluGradient(inp: Buffer, out0: Buffer, out1: Buffer, nRows: int, nCols: int, ldIn: int, ldOut: int)
  {
    && PaddingKept(out0, out1, nRows, nCols, ldOut)
    && forall row, col :: 0 <= row < nRows && 0 <= col < nCols ==>
         && Covers(|inp|, row, col, ldIn) && Covers(|out1|, row, col, ldOut)
         && out1[Idx(row, col, ldOut)] == ReluGradient(inp[Idx(row, col, ldIn)])
  }

  /** `ReluActivation`: every written output is max(0, input), hence never negative. */
  method ReluActivation(inp: Buffer, out: Buffer, nRows: int, nCols: int, ldIn: int, ldOut: int)
    returns (out': Buffer)
    requires Fits(|inp|, nRows, nCols, ldIn) && Fits(|out|, nRows, nCols, ldOut)
    ensures IsRelu(inp, out, out', nRows, nCols, ldIn, ldOut)
    ensures forall row, col :: 0 <= row < nRows && 0 <= col < nCols ==>
              && Covers(|inp|, row, col, ldIn) && Covers(|out'|, row, col, ldOut)
              && out'[Idx(row, col, ldOut)] >= 0.0
              && (out'[Idx(row, col, ldOut)] == inp[Idx(row, col, ldIn)] || out'[Idx(row, col, ldOut)] == 0.0)
              && out'[Idx(row, col, ldOut)] >= inp[Idx(row, col, ldIn)]
  {
    out' := StridedWrite(out, nRows, nCols, ldOut,
      (r, c) => if Covers(|inp|, r, c, ldIn) then Relu(inp[Idx(r, c, ldIn)]) else 0.0);
    forall row, col | 0 <= row < nRows && 0 <= col < nCols
      ensures Covers(|inp|, row, col, ldIn)
    {
      IdxInBounds(row, col, nRows, nCols, ldIn, |inp|);
    }
  }

  /** `ReluActivationGradient`: 0 where the input is negative, 1 elsewhere
      (an input of exactly 0 gives 1). */
  method ReluActivationGradient(inp: Buffer, out: Buffer, nRows: int, nCols: int, ldIn: int, ldOut: int)
    returns (out': Buffer)
    requires Fits(|inp|, nRows, nCols, ldIn) && Fits(|out|, nRows, nCols, ldOut)
    ensures IsReluGradient(inp, out, out', nRows, nCols, ldIn, ldOut)
    ensures forall row, col :: 0 <= row < nRows && 0 <= col < nCols ==>
              && Covers(|inp|, row, col, ldIn) && Covers(|out'|, row, col, ldOut)
              && (out'[Idx(row, col, ldOut)] == 0.0 <==> inp[Idx(row, col, ldIn)] < 0.0)
              && (out'[Idx(row, col, ldOut)] == 1.0 <==> inp[Idx(row, col, ldIn)] >= 0.0)
  {
    out' := StridedWrite(out, nRows, nCols, ldOut,
      (r, c) => if Covers(|inp|, r, c, ldIn) then ReluGradient(inp[Idx(r, c, ldIn)]) else 0.0);
    forall row, col | 0 <= row < nRows && 0 <= col < nCols
      ensures Covers(|inp|, row, col, ldIn)
    {
      IdxInBounds(row, col, nRows, nCols, ldIn, |inp|);
    }
  }

  /** Applying `ReluActivation` in place to its own output changes nothing. */
  lemma ReluIdempotent(inp: Buffer, out0: Buffer, out1: Buffer, out2: Buffer,
                       nRows: int, nCols: int, ldIn: int, ld: int)
    requires IsRelu(inp, out0, out1, nRows, nCols, ldIn, ld)
    requires IsRelu(out1, out1, out2, nRows, nCols, ld, ld)
    ensures out2 == out1
  {
    forall k | 0 <= k < |out1|
      ensures out2[k] == out1[k]
    {
      if InWindow(k, nRows, nCols, ld) {
        WindowIsIdx(k, nRows, nCols, ld);
        assert out2[Idx(k / ld, k % ld, ld)] == Relu(out1[Idx(k / ld, k % ld, ld)]);
      }
    }
  }

  /** The gradient is 1 exactly where ReLU passes its input through unchanged. */
  lemma ReluGradientMarksPassThrough(inp: Buffer, out0: Buffer, out1: Buffer, grad0: Buffer, grad1: Buffer,
                                     nRows: int, nCols: int, ldIn: int, ldOut: int)
    requires IsRelu(inp, out0, out1, nRows, nCols, ldIn, ldOut)
    requires IsReluGradient(inp, grad0, grad1, nRows, nCols, ldIn, ldOut)
    ensures forall row, col :: 0 <= row < nRows && 0 <= col < nCols ==>
              (grad1[Idx(row, col, ldOut)] == 1.0 <==> out1[Idx(row, col, ldOut)] == inp[Idx(row, col, ldIn)])
  {
  }

  /** Position `k` holds the first maximum of `a`: nothing is larger, and
      everything before it is strictly smaller. */
  predicate IsFirstMax(a: Buffer, k: int)
  {
    && 0 <= k < |a|
    && (forall j :: 0 <= j < |a| ==> a[j] <= a[k])
    && (forall j :: 0 <= j < k ==> a[j] < a[k])
  }

  /** A buffer has at most one first maximum. */
  lemma FirstMaxUnique(a: Buffer, k1: int, k2: int)
    requires IsFirstMax(a, k1) && IsFirstMax(a, k2)
    ensures k1 == k2
  {
    assert a[k1] <= a[k2] && a[k2] <= a[k1];
  }

  /** Reference definition of the first maximum, by recursion on the prefix. */
  function FirstMax(a: Buffer): (k: nat)
    requires |a| > 0
    ensures IsFirstMax(a, k)
  {
    if |a| == 1 then 0
    else
      var k := FirstMax(a[..|a| - 1]);
      if a[|a| - 1] > a[k] then |a| - 1 else k
  }

  /** The running maximum of `Argmax`, which starts at minus infinity. */
  datatype Extended = NegInf | Finite(v: real)

  predicate Exceeds(x: real, m: Extended)
  {
    m.NegInf? || x > m.v
  }

  /** `Argmax`: the loop keeps the index of the first strict improvement, so
      it returns the first position of the maximum. The source initialises
      the index by converting minus infinity to `int`, which is undefined; an
      empty input is therefore excluded. */
  method Argmax(a: Buffer) returns (index: int)
    requires |a| > 0
    ensures IsFirstMax(a, index)
    ensures index == FirstMax(a)
  {
    index := -1;
    var maxi := NegInf;
    var i := 0;
    while i < |a|
      invariant 0 <= i <= |a|
      invariant i == 0 <==> maxi.NegInf?
      invariant i > 0 ==> IsFirstMax(a[..i], index) && maxi == Finite(a[index])
    {
      if Exceeds(a[i], maxi) {
        index := i;
        maxi := Finite(a[i]);
      }
      i := i + 1;
    }
    assert a[..i] == a;
    FirstMaxUnique(a, index, FirstMax(a));
  }
}
