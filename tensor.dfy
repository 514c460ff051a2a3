/**
 * Dense tensors over exact reals: vectors, matrices, and the handful of
 * TensorFlow operations the propagation engine is built from
 * (`tf.concat`, `tf.multiply`, `tf.matmul`, `tf.reduce_sum`).
 * Floating-point rounding is not modelled.
 */
module Tensor {

  type Vector = seq<real>
  type Matrix = seq<Vector>

  /** `m` has `rows` rows of `cols` entries each. */
  predicate IsMatrix(m: Matrix, rows: nat, cols: nat) {
    |m| == rows && forall i :: 0 <= i < |m| ==> |m[i]| == cols
  }

  /** `a` and `b` have the same number of rows and, row by row, the same width. */
  predicate SameShape(a: Matrix, b: Matrix) {
    |a| == |b| && forall i :: 0 <= i < |a| ==> |a[i]| == |b[i]|
  }

  function Zeros(n: nat): (v: Vector)
    ensures |v| == n && forall j :: 0 <= j < n ==> v[j] == 0.0
  {
    seq(n, j => 0.0)
  }

  /** `tf.reduce_sum` of a vector. */
  function Sum(s: seq<real>): real {
    if s == [] then 0.0 else s[0] + Sum(s[1..])
  }

  lemma {:induction false} SumAppend(a: seq<real>, b: seq<real>)
    ensures Sum(a + b) == Sum(a) + Sum(b)
  {
    if a == [] {
      assert a + b == b;
    } else {
      assert (a + b)[1..] == a[1..] + b;
      SumAppend(a[1..], b);
    }
  }

  /** Scaling every term scales the sum. */
  lemma {:induction false} SumScale(s: seq<real>, c: real)
    ensures Sum(seq(|s|, k requires 0 <= k < |s| => c * s[k])) == c * Sum(s)
  {
    if s != [] {
      var t := seq(|s|, k requires 0 <= k < |s| => c * s[k]);
      var u := seq(|s[1..]|, k requires 0 <= k < |s[1..]| => c * s[1..][k]);
      assert forall k :: 0 <= k < |u| ==> t[1..][k] == u[k];
      assert t[1..] == u;
      SumScale(s[1..], c);
    }
  }

  /** Inner product of two vectors of equal length. */
  function Dot(u: Vector, v: Vector): real
    requires |u| == |v|
  {
    if u == [] then 0.0 else u[0] * v[0] + Dot(u[1..], v[1..])
  }

  /** Elementwise product of two vectors (`tf.multiply`). */
  function VMul(u: Vector, v: Vector): (w: Vector)
    requires |u| == |v|
    ensures |w| == |u| && forall j :: 0 <= j < |u| ==> w[j] == u[j] * v[j]
  {
    seq(|u|, j requires 0 <= j < |u| => u[j] * v[j])
  }

  /** Elementwise sum of two vectors. */
  function VAdd(u: Vector, v: Vector): (w: Vector)
    requires |u| == |v|
    ensures |w| == |u| && forall j :: 0 <= j < |u| ==> w[j] == u[j] + v[j]
  {
    seq(|u|, j requires 0 <= j < |u| => u[j] + v[j])
  }

  /** Summing the elementwise product is the inner product: `reduce_sum(multiply(u, v))`. */
  lemma {:induction false} SumOfProductIsDot(u: Vector, v: Vector)
    requires |u| == |v|
    ensures Sum(VMul(u, v)) == Dot(u, v)
  {
    if u != [] {
      assert forall j :: 0 <= j < |u| - 1 ==> VMul(u, v)[1..][j] == VMul(u[1..], v[1..])[j];
      assert VMul(u, v)[1..] == VMul(u[1..], v[1..]);
      SumOfProductIsDot(u[1..], v[1..]);
    }
  }

  lemma {:induction false} DotSuffix(u: Vector, v: Vector, k: nat)
    requires |u| == |v| && k < |u|
    ensures Dot(u[k..], v[k..]) == u[k] * v[k] + Dot(u[k + 1..], v[k + 1..])
  {
    assert u[k..][1..] == u[k + 1..];
    assert v[k..][1..] == v[k + 1..];
  }

  /** Column `j` of a matrix whose rows all have more than `j` entries. On a
      list of matrices, `Column(layers, i)` is row `i` of every layer, in layer order. */
  function Column<T>(b: seq<seq<T>>, j: nat): (c: seq<T>)
    requires forall k :: 0 <= k < |b| ==> j < |b[k]|
    ensures |c| == |b| && forall k :: 0 <= k < |b| ==> c[k] == b[k][j]
  {
    seq(|b|, k requires 0 <= k < |b| => b[k][j])
  }

  /** `tf.matmul(a, b)` where `b` has `c` columns and as many rows as `a` has columns. */
  function MatMul(a: Matrix, b: Matrix, c: nat): (r: Matrix)
    requires forall i :: 0 <= i < |a| ==> |a[i]| == |b|
    requires IsMatrix(b, |b|, c)
    ensures IsMatrix(r, |a|, c)
  {
    seq(|a|, i requires 0 <= i < |a| => seq(c, j requires 0 <= j < c => Dot(a[i], Column(b, j))))
  }

  /** Multiplication works row by row: a contiguous slice of rows of `a`
      gives the same slice of the product. */
  lemma MatMulSlice(a: Matrix, b: Matrix, c: nat, lo: nat, hi: nat)
    requires forall i :: 0 <= i < |a| ==> |a[i]| == |b|
    requires IsMatrix(b, |b|, c)
    requires lo <= hi <= |a|
    ensures MatMul(a[lo..hi], b, c) == MatMul(a, b, c)[lo..hi]
  {
  }

  /** The transpose of an `|p|` x `d` matrix. */
  function Transpose(p: Matrix, d: nat): (t: Matrix)
    requires IsMatrix(p, |p|, d)
    ensures IsMatrix(t, d, |p|)
    ensures forall j, k :: 0 <= j < d && 0 <= k < |p| ==> t[j][k] == p[k][j]
  {
    seq(d, j requires 0 <= j < d => Column(p, j))
  }

  /** Elementwise sum of two matrices of the same shape. */
  function MAdd(a: Matrix, b: Matrix): (r: Matrix)
    requires SameShape(a, b)
    ensures SameShape(r, a)
    ensures forall i, j :: 0 <= i < |a| && 0 <= j < |a[i]| ==> r[i][j] == a[i][j] + b[i][j]
  {
    seq(|a|, i requires 0 <= i < |a| => VAdd(a[i], b[i]))
  }

  /** Elementwise (Hadamard) product of two matrices of the same shape, `tf.multiply`. */
  function MMul(a: Matrix, b: Matrix): (r: Matrix)
    requires SameShape(a, b)
    ensures SameShape(r, a)
    ensures forall i, j :: 0 <= i < |a| && 0 <= j < |a[i]| ==> r[i][j] == a[i][j] * b[i][j]
  {
    seq(|a|, i requires 0 <= i < |a| => VMul(a[i], b[i]))
  }

  /** Applies `f` to every entry. */
  function MMap(f: real -> real, a: Matrix): (r: Matrix)
    ensures SameShape(r, a)
    ensures forall i, j :: 0 <= i < |a| && 0 <= j < |a[i]| ==> r[i][j] == f(a[i][j])
  {
    seq(|a|, i requires 0 <= i < |a| => seq(|a[i]|, j requires 0 <= j < |a[i]| => f(a[i][j])))
  }

  /** Adds the bias row `b` to every row of `a` (the broadcast in `x + b`). */
  function AddBias(a: Matrix, b: Vector): (r: Matrix)
    requires forall i :: 0 <= i < |a| ==> |a[i]| == |b|
    ensures IsMatrix(r, |a|, |b|)
    ensures forall i, j :: 0 <= i < |a| && 0 <= j < |b| ==> r[i][j] == a[i][j] + b[j]
  {
    seq(|a|, i requires 0 <= i < |a| => VAdd(a[i], b))
  }

  /** Concatenation of a list of sequences, in list order. On matrices this is
      `tf.concat(ms, 0)`; on the rows of several matrices it is `tf.concat(ms, 1)`. */
  function Flatten<T>(ss: seq<seq<T>>): seq<T> {
    if ss == [] then [] else ss[0] + Flatten(ss[1..])
  }

  /** Sum of the lengths of a list of sequences. */
  function TotalLength<T>(ss: seq<seq<T>>): nat {
    if ss == [] then 0 else |ss[0]| + TotalLength(ss[1..])
  }

  lemma {:induction false} FlattenLength<T>(ss: seq<seq<T>>)
    ensures |Flatten(ss)| == TotalLength(ss)
  {
    if ss != [] {
      FlattenLength(ss[1..]);
    }
  }

  lemma {:induction false} FlattenAppend<T>(a: seq<seq<T>>, b: seq<seq<T>>)
    ensures Flatten(a + b) == Flatten(a) + Flatten(b)
  {
    if a == [] {
      assert a + b == b;
    } else {
      assert (a + b)[1..] == a[1..] + b;
      FlattenAppend(a[1..], b);
    }
  }

  lemma FlattenSnoc<T>(a: seq<seq<T>>, x: seq<T>)
    ensures Flatten(a + [x]) == Flatten(a) + x
  {
    FlattenAppend(a, [x]);
    assert Flatten([x]) == x + Flatten([x][1..]);
  }

  /** Element `j` of the `k`-th piece sits right after the first `k` pieces:
      concatenation keeps the pieces in order. */
  lemma FlattenAt<T>(ss: seq<seq<T>>, k: nat, j: nat)
    requires k < |ss| && j < |ss[k]|
    ensures TotalLength(ss[..k]) + j < |Flatten(ss)|
    ensures Flatten(ss)[TotalLength(ss[..k]) + j] == ss[k][j]
  {
    assert ss == ss[..k] + ss[k..];
    FlattenAppend(ss[..k], ss[k..]);
    FlattenLength(ss[..k]);
    FlattenLength(ss);
    assert Flatten(ss[k..]) == ss[k] + Flatten(ss[k + 1..]) by {
      assert ss[k..][1..] == ss[k + 1..];
    }
  }

  /** Pieces of one common length `w`: the concatenation has `|ss| * w` elements. */
  lemma {:induction false} UniformTotalLength<T>(ss: seq<seq<T>>, w: nat)
    requires forall k :: 0 <= k < |ss| ==> |ss[k]| == w
    ensures TotalLength(ss) == |ss| * w
  {
    if ss != [] {
      UniformTotalLength(ss[1..], w);
      assert TotalLength(ss) == w + (|ss| - 1) * w;
    }
  }

  /** Stacking matrices of a common width `d` gives a matrix of that width. */
  lemma {:induction false} FlattenRowsWidth(ms: seq<Matrix>, d: nat)
    requires forall k :: 0 <= k < |ms| ==> IsMatrix(ms[k], |ms[k]|, d)
    ensures IsMatrix(Flatten(ms), TotalLength(ms), d)
  {
    FlattenLength(ms);
    if ms != [] {
      FlattenRowsWidth(ms[1..], d);
      assert Flatten(ms) == ms[0] + Flatten(ms[1..]);
    }
  }
}
