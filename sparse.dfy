/**
 * Sparse matrices in coordinate (COO) form, as `tf.SparseTensor` holds them:
 * a list of (row, column, value) entries together with the dense shape.
 * `ToCoo` is `LightGCN._convert_sp_mat_to_sp_tensor`, `SpMM` is
 * `tf.sparse_tensor_dense_matmul`, and `CountNonzero` is scipy's
 * `count_nonzero`.
 */
module Sparse {
  import opened Tensor

  datatype Entry = Entry(row: nat, col: nat, value: real)

  datatype SparseTensor = SparseTensor(entries: seq<Entry>, rows: nat, cols: nat)

  /** Every entry lies inside the dense shape. */
  predicate InBounds(s: SparseTensor) {
    forall n :: 0 <= n < |s.entries| ==> s.entries[n].row < s.rows && s.entries[n].col < s.cols
  }

  /** Entry `x` comes strictly before entry `y` in row-major order. */
  predicate RowMajorBefore(x: Entry, y: Entry) {
    x.row < y.row || (x.row == y.row && x.col < y.col)
  }

  /** The nonzeros of `row` from column `k` on, tagged with row index `i`, left to right. */
  function RowCoo(row: Vector, i: nat, k: nat): (es: seq<Entry>)
    requires k <= |row|
    ensures forall n :: 0 <= n < |es| ==> es[n].row == i && k <= es[n].col < |row|
    decreases |row| - k
  {
    if k == |row| then []
    else (if row[k] != 0.0 then [Entry(i, k, row[k])] else []) + RowCoo(row, i, k + 1)
  }

  /** The nonzeros of the rows of `a`, the first row numbered `i`, in row-major order. */
  function RowsCoo(a: Matrix, i: nat): seq<Entry>
    decreases |a|
  {
    if a == [] then []
    else RowCoo(a[0], i, 0) + RowsCoo(a[1..], i + 1)
  }

  /** Each entry of `RowCoo(row, i, k)` is a nonzero of `row` at a column from `k` on. */
  lemma {:induction false} RowCooEntries(row: Vector, i: nat, k: nat)
    requires k <= |row|
    ensures forall n :: 0 <= n < |RowCoo(row, i, k)| ==>
      var x := RowCoo(row, i, k)[n];
      x.row == i && k <= x.col < |row| && x.value == row[x.col] && x.value != 0.0
    decreases |row| - k
  {
    if k < |row| {
      RowCooEntries(row, i, k + 1);
    }
  }

  /** `RowCoo` lists its columns in strictly increasing order. */
  lemma {:induction false} RowCooSorted(row: Vector, i: nat, k: nat)
    requires k <= |row|
    ensures forall n, m :: 0 <= n < m < |RowCoo(row, i, k)| ==>
      RowCoo(row, i, k)[n].col < RowCoo(row, i, k)[m].col
    decreases |row| - k
  {
    if k < |row| {
      RowCooEntries(row, i, k + 1);
      RowCooSorted(row, i, k + 1);
    }
  }

  /** Each entry of `RowsCoo(a, i)` is a nonzero of `a`, numbered from row `i`. */
  lemma {:induction false} RowsCooEntries(a: Matrix, i: nat)
    ensures forall n :: 0 <= n < |RowsCoo(a, i)| ==>
      var x := RowsCoo(a, i)[n];
      i <= x.row < i + |a| && x.col < |a[x.row - i]| &&
      x.value == a[x.row - i][x.col] && x.value != 0.0
    decreases |a|
  {
    if a != [] {
      var head: seq<Entry>, tail: seq<Entry> := RowCoo(a[0], i, 0), RowsCoo(a[1..], i + 1);
      RowCooEntries(a[0], i, 0);
      RowsCooEntries(a[1..], i + 1);
      forall n | 0 <= n < |head + tail|
        ensures var x := (head + tail)[n];
          i <= x.row < i + |a| && x.col < |a[x.row - i]| &&
          x.value == a[x.row - i][x.col] && x.value != 0.0
      {
        if n >= |head| {
          var x := tail[n - |head|];
          assert a[1..][x.row - (i + 1)] == a[x.row - i];
        }
      }
    }
  }

  /** `RowsCoo` lists its entries in strictly increasing row-major order. */
  lemma {:induction false} RowsCooSorted(a: Matrix, i: nat)
    ensures forall n, m :: 0 <= n < m < |RowsCoo(a, i)| ==> RowMajorBefore(RowsCoo(a, i)[n], RowsCoo(a, i)[m])
    decreases |a|
  {
    if a != [] {
      var head: seq<Entry>, tail: seq<Entry> := RowCoo(a[0], i, 0), RowsCoo(a[1..], i + 1);
      RowCooEntries(a[0], i, 0);
      RowCooSorted(a[0], i, 0);
      RowsCooEntries(a[1..], i + 1);
      RowsCooSorted(a[1..], i + 1);
      forall n, m | 0 <= n < m < |head + tail|
        ensures RowMajorBefore((head + tail)[n], (head + tail)[m])
      {
        if m < |head| {
          assert (head + tail)[n] == head[n] && (head + tail)[m] == head[m];
        } else if n >= |head| {
          assert (head + tail)[n] == tail[n - |head|] && (head + tail)[m] == tail[m - |head|];
        } else {
          assert (head + tail)[n] == head[n] && (head + tail)[m] == tail[m - |head|];
        }
      }
    }
  }

  /** `_convert_sp_mat_to_sp_tensor`: the COO form of the `|a|` x `cols` matrix `a`. */
  function ToCoo(a: Matrix, cols: nat): (s: SparseTensor)
    requires IsMatrix(a, |a|, cols)
    ensures s.rows == |a| && s.cols == cols && InBounds(s)
  {
    RowsCooEntries(a, 0);
    SparseTensor(RowsCoo(a, 0), |a|, cols)
  }

  /** The entries of the COO form are exactly nonzeros of `a`, each carrying its own
      value, in strictly increasing row-major order. */
  lemma ToCooEntries(a: Matrix, cols: nat)
    requires IsMatrix(a, |a|, cols)
    ensures var s := ToCoo(a, cols);
      && (forall n :: 0 <= n < |s.entries| ==>
            s.entries[n].value == a[s.entries[n].row][s.entries[n].col] && s.entries[n].value != 0.0)
      && (forall n, m :: 0 <= n < m < |s.entries| ==> RowMajorBefore(s.entries[n], s.entries[m]))
  {
    RowsCooEntries(a, 0);
    RowsCooSorted(a, 0);
  }

  /** Every entry of `es` has a column index below `c`. */
  predicate ColsBelow(es: seq<Entry>, c: nat) {
    forall n :: 0 <= n < |es| ==> es[n].col < c
  }

  /** The contribution of the entries in row `i` to column `j` of the product with `e`. */
  function CellSum(es: seq<Entry>, i: nat, j: nat, e: Matrix): real
    requires ColsBelow(es, |e|)
    requires forall k :: 0 <= k < |e| ==> j < |e[k]|
  {
    if es == [] then 0.0
    else (if es[0].row == i then es[0].value * e[es[0].col][j] else 0.0) + CellSum(es[1..], i, j, e)
  }

  /** `tf.sparse_tensor_dense_matmul(s, e)` for an `s.cols` x `d` dense matrix `e`:
      every entry (r, c, v) adds `v * e[c]` to row `r` of the result. */
  function SpMM(s: SparseTensor, e: Matrix, d: nat): (r: Matrix)
    requires InBounds(s) && IsMatrix(e, s.cols, d)
    ensures IsMatrix(r, s.rows, d)
  {
    seq(s.rows, i requires 0 <= i < s.rows => seq(d, j requires 0 <= j < d => CellSum(s.entries, i, j, e)))
  }

  lemma {:induction false} CellSumAppend(a: seq<Entry>, b: seq<Entry>, i: nat, j: nat, e: Matrix)
    requires ColsBelow(a, |e|) && ColsBelow(b, |e|)
    requires forall k :: 0 <= k < |e| ==> j < |e[k]|
    ensures ColsBelow(a + b, |e|)
    ensures CellSum(a + b, i, j, e) == CellSum(a, i, j, e) + CellSum(b, i, j, e)
  {
    assert ColsBelow(a + b, |e|) by {
      forall n | 0 <= n < |a + b| ensures (a + b)[n].col < |e| {
        if n >= |a| {
          assert (a + b)[n] == b[n - |a|];
        }
      }
    }
    if a == [] {
      assert a + b == b;
    } else {
      assert (a + b)[1..] == a[1..] + b;
      CellSumAppend(a[1..], b, i, j, e);
    }
  }

  /** Entries of other rows contribute nothing to row `r`. */
  lemma {:induction false} CellSumOtherRow(es: seq<Entry>, r: nat, j: nat, e: Matrix)
    requires ColsBelow(es, |e|)
    requires forall k :: 0 <= k < |e| ==> j < |e[k]|
    requires forall n :: 0 <= n < |es| ==> es[n].row != r
    ensures CellSum(es, r, j, e) == 0.0
  {
    if es != [] {
      CellSumOtherRow(es[1..], r, j, e);
    }
  }

  lemma {:induction false} CellSumRowCoo(row: Vector, i: nat, k: nat, j: nat, e: Matrix)
    requires k <= |row| == |e|
    requires forall t :: 0 <= t < |e| ==> j < |e[t]|
    ensures CellSum(RowCoo(row, i, k), i, j, e) == Dot(row[k..], Column(e, j)[k..])
    decreases |row| - k
  {
    var c := Column(e, j);
    if k == |row| {
      assert row[k..] == [];
    } else {
      var head := if row[k] != 0.0 then [Entry(i, k, row[k])] else [];
      var tail := RowCoo(row, i, k + 1);
      assert RowCoo(row, i, k) == head + tail;
      CellSumAppend(head, tail, i, j, e);
      CellSumRowCoo(row, i, k + 1, j, e);
      DotSuffix(row, c, k);
      var x := row[k] * c[k];
      if head != [] {
        assert head[1..] == [];
        assert CellSum(head, i, j, e) == x;
      } else {
        assert row[k] == 0.0;
        assert x == 0.0;
        assert CellSum(head, i, j, e) == 0.0;
      }
    }
  }

  lemma {:induction false} CellSumRowsCoo(a: Matrix, i: nat, r: nat, j: nat, e: Matrix)
    requires forall t :: 0 <= t < |a| ==> |a[t]| == |e|
    requires forall t :: 0 <= t < |e| ==> j < |e[t]|
    ensures ColsBelow(RowsCoo(a, i), |e|)
    ensures CellSum(RowsCoo(a, i), r, j, e) ==
      if i <= r < i + |a| then Dot(a[r - i], Column(e, j)) else 0.0
    decreases |a|
  {
    if a != [] {
      var head, tail := RowCoo(a[0], i, 0), RowsCoo(a[1..], i + 1);
      assert RowsCoo(a, i) == head + tail;
      CellSumRowsCoo(a[1..], i + 1, r, j, e);
      assert ColsBelow(head, |e|);
      CellSumAppend(head, tail, r, j, e);
      if r == i {
        CellSumRowCoo(a[0], i, 0, j, e);
      } else {
        CellSumOtherRow(head, r, j, e);
      }
      assert a[0][0..] == a[0];
      assert Column(e, j)[0..] == Column(e, j);
      if i + 1 <= r < i + |a| {
        assert a[1..][r - (i + 1)] == a[r - i];
      }
    }
  }

  lemma SpMMOfCooAt(a: Matrix, c: nat, e: Matrix, d: nat, i: nat, j: nat)
    requires IsMatrix(a, |a|, c) && IsMatrix(e, c, d) && i < |a| && j < d
    ensures SpMM(ToCoo(a, c), e, d)[i][j] == MatMul(a, e, d)[i][j]
  {
    var s := ToCoo(a, c);
    assert s.entries == RowsCoo(a, 0);
    CellSumRowsCoo(a, 0, i, j, e);
    var x := CellSum(s.entries, i, j, e);
    assert x == Dot(a[i], Column(e, j));
    var m := SpMM(s, e, d);
    assert m[i][j] == x;
  }

  lemma SpMMOfCooRow(a: Matrix, c: nat, e: Matrix, d: nat, i: nat)
    requires IsMatrix(a, |a|, c) && IsMatrix(e, c, d) && i < |a|
    ensures SpMM(ToCoo(a, c), e, d)[i] == MatMul(a, e, d)[i]
  {
    forall j | 0 <= j < d ensures SpMM(ToCoo(a, c), e, d)[i][j] == MatMul(a, e, d)[i][j] {
      SpMMOfCooAt(a, c, e, d, i, j);
    }
  }

  /** Multiplying the COO form of `a` is multiplying `a` itself. */
  lemma SpMMOfCoo(a: Matrix, c: nat, e: Matrix, d: nat)
    requires IsMatrix(a, |a|, c) && IsMatrix(e, c, d)
    ensures SpMM(ToCoo(a, c), e, d) == MatMul(a, e, d)
  {
    forall i | 0 <= i < |a| ensures SpMM(ToCoo(a, c), e, d)[i] == MatMul(a, e, d)[i] {
      SpMMOfCooRow(a, c, e, d, i);
    }
  }

  /** The sum of the values of the entries at position (`i`, `j`). */
  function ValueAt(es: seq<Entry>, i: nat, j: nat): real {
    if es == [] then 0.0
    else (if es[0].row == i && es[0].col == j then es[0].value else 0.0) + ValueAt(es[1..], i, j)
  }

  /** The dense matrix a COO tensor stands for (duplicate positions add up). */
  function ToDense(s: SparseTensor): (m: Matrix)
    ensures IsMatrix(m, s.rows, s.cols)
  {
    seq(s.rows, i requires 0 <= i < s.rows => seq(s.cols, j requires 0 <= j < s.cols => ValueAt(s.entries, i, j)))
  }

  lemma {:induction false} ValueAtAppend(a: seq<Entry>, b: seq<Entry>, i: nat, j: nat)
    ensures ValueAt(a + b, i, j) == ValueAt(a, i, j) + ValueAt(b, i, j)
  {
    if a == [] {
      assert a + b == b;
    } else {
      assert (a + b)[1..] == a[1..] + b;
      ValueAtAppend(a[1..], b, i, j);
    }
  }

  lemma {:induction false} ValueAtRowCoo(row: Vector, i: nat, k: nat, r: nat, j: nat)
    requires k <= |row|
    ensures ValueAt(RowCoo(row, i, k), r, j) == if r == i && k <= j < |row| then row[j] else 0.0
    decreases |row| - k
  {
    if k < |row| {
      var head := if row[k] != 0.0 then [Entry(i, k, row[k])] else [];
      ValueAtAppend(head, RowCoo(row, i, k + 1), r, j);
      ValueAtRowCoo(row, i, k + 1, r, j);
      if head != [] {
        assert head[1..] == [];
      }
    }
  }

  lemma {:induction false} ValueAtRowsCoo(a: Matrix, i: nat, r: nat, j: nat)
    ensures ValueAt(RowsCoo(a, i), r, j) == if i <= r < i + |a| && j < |a[r - i]| then a[r - i][j] else 0.0
    decreases |a|
  {
    if a != [] {
      var head, tail := RowCoo(a[0], i, 0), RowsCoo(a[1..], i + 1);
      assert RowsCoo(a, i) == head + tail;
      ValueAtAppend(head, tail, r, j);
      ValueAtRowCoo(a[0], i, 0, r, j);
      ValueAtRowsCoo(a[1..], i + 1, r, j);
      if i + 1 <= r < i + |a| {
        assert a[1..][r - (i + 1)] == a[r - i];
      }
    }
  }

  /** The COO form loses nothing: converting back gives the matrix itself. */
  lemma CooRoundTrip(a: Matrix, c: nat)
    requires IsMatrix(a, |a|, c)
    ensures ToDense(ToCoo(a, c)) == a
  {
    var back := ToDense(ToCoo(a, c));
    forall i, j | 0 <= i < |a| && 0 <= j < c
      ensures back[i][j] == a[i][j]
    {
      ValueAtRowsCoo(a, 0, i, j);
    }
    assert forall i :: 0 <= i < |a| ==> back[i] == a[i];
  }

  /** Number of nonzero entries of `row` from column `k` on. */
  function RowNonzero(row: Vector, k: nat): nat
    requires k <= |row|
    decreases |row| - k
  {
    if k == |row| then 0 else (if row[k] != 0.0 then 1 else 0) + RowNonzero(row, k + 1)
  }

  /** scipy's `count_nonzero` of a matrix. */
  function CountNonzero(a: Matrix): nat {
    if a == [] then 0 else RowNonzero(a[0], 0) + CountNonzero(a[1..])
  }

  lemma {:induction false} RowNonzeroIsLength(row: Vector, i: nat, k: nat)
    requires k <= |row|
    ensures |RowCoo(row, i, k)| == RowNonzero(row, k)
    decreases |row| - k
  {
    if k < |row| {
      RowNonzeroIsLength(row, i, k + 1);
    }
  }

  /** The noise vector `_split_A_hat_node_dropout` draws for a fold (one draw per
      `count_nonzero`) has exactly one draw per entry of the fold's COO form. */
  lemma {:induction false} NonzeroCountIsEntryCount(a: Matrix, i: nat)
    ensures |RowsCoo(a, i)| == CountNonzero(a)
    decreases |a|
  {
    if a != [] {
      RowNonzeroIsLength(a[0], i, 0);
      NonzeroCountIsEntryCount(a[1..], i + 1);
    }
  }
}
