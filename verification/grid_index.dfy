/** Row-major index arithmetic shared by the staggered-grid arrays.

    A cell or face (i, j) of a row of width `w` is stored at `j * w + i`.
    The lemmas below decode such an index back into its row and column,
    which is what every "this entry and no other" argument about the
    fluid arrays needs. */
module GridIndex {

  /** Flat index of column `i`, row `j` in rows of width `w`. */
  function Flat(w: nat, i: nat, j: nat): nat {
    j * w + i
  }

  /** Column of a flat index. */
  function Col(w: nat, k: nat): nat
    requires w > 0
  {
    k % w
  }

  /** Row of a flat index. */
  function Row(w: nat, k: nat): nat
    requires w > 0
  {
    k / w
  }

  /** Encoding then decoding a column/row pair gives it back. */
  lemma {:induction false} Decode(w: nat, i: nat, j: nat)
    requires i < w
    ensures Row(w, Flat(w, i, j)) == j
    ensures Col(w, Flat(w, i, j)) == i
  {
    var k := j * w + i;
    var q := k / w;
    var r := k % w;
    assert k == q * w + r;
    assert 0 <= r < w;
    if q > j {
      MulMono(q, j + 1, w);
      assert false;
    } else if q < j {
      MulMono(j, q + 1, w);
      assert false;
    }
  }

  /** Every flat index below `w * h` is the encoding of its own row and column. */
  lemma Encode(w: nat, h: nat, k: nat)
    requires w > 0
    requires k < w * h
    ensures Row(w, k) < h
    ensures Col(w, k) < w
    ensures Flat(w, Col(w, k), Row(w, k)) == k
  {
    var q := k / w;
    assert k == q * w + k % w;
    if q >= h {
      MulMono(q, h, w);
      assert false;
    }
  }

  /** Two encodings are equal only when column and row agree. */
  lemma Injective(w: nat, i: nat, j: nat, i': nat, j': nat)
    requires i < w && i' < w
    requires Flat(w, i, j) == Flat(w, i', j')
    ensures i == i' && j == j'
  {
    Decode(w, i, j);
    Decode(w, i', j');
  }

  /** Every cell (i, j) of a `w` by `h` array has an index inside it. */
  lemma InBounds(w: nat, h: nat, i: nat, j: nat)
    requires i < w && j < h
    ensures Flat(w, i, j) < w * h
  {
    MulMono(h, j + 1, w);
  }

  lemma MulMono(a: int, b: int, c: nat)
    requires a >= b
    ensures a * c >= b * c
  {
  }

  /** A flat index lies before row m exactly when its row is below m. */
  lemma RowBelow(w: nat, k: nat, m: nat)
    requires w > 0
    ensures k < m * w <==> Row(w, k) < m
  {
    var q := k / w;
    assert k == q * w + k % w;
    if q < m {
      MulMono(m, q + 1, w);
    } else {
      MulMono(q, m, w);
    }
  }
}
