/** 2x2 complex transfer matrices and their product (dev/TransferMatrix.py).

    `multiply_transfer_matrices` is a single `np.matmul` of two 2x2 complex
    matrices; the `TransferMatrix` property starts from the all-zero 2x2
    complex matrix. */
module TransferMatrix {
  import opened ComplexNumbers
  import opened Outcomes

  /** [[a00, a01], [a10, a11]] */
  datatype Matrix = Matrix(a00: Complex, a01: Complex, a10: Complex, a11: Complex)

  const Identity: Matrix := Matrix(One, Zero, Zero, One)
  const ZeroMatrix: Matrix := Matrix(Zero, Zero, Zero, Zero)

  /** The entry in row i, column j, as numpy's `m[i, j]`. */
  function Entry(m: Matrix, i: nat, j: nat): Complex
    requires i < 2 && j < 2
  {
    if i == 0 && j == 0 then m.a00
    else if i == 0 then m.a01
    else if j == 0 then m.a10
    else m.a11
  }

  /** The matrix product `np.matmul(x, y)`: every entry is the row-by-column
      sum of x's row and y's column. */
  function Multiply(x: Matrix, y: Matrix): (r: Matrix)
    ensures forall i: nat, j: nat :: i < 2 && j < 2 ==>
      Entry(r, i, j) == Add(Mul(Entry(x, i, 0), Entry(y, 0, j)), Mul(Entry(x, i, 1), Entry(y, 1, j)))
  {
    Matrix(
      Add(Mul(x.a00, y.a00), Mul(x.a01, y.a10)),
      Add(Mul(x.a00, y.a01), Mul(x.a01, y.a11)),
      Add(Mul(x.a10, y.a00), Mul(x.a11, y.a10)),
      Add(Mul(x.a10, y.a01), Mul(x.a11, y.a11)))
  }

  function Det(m: Matrix): Complex {
    Sub(Mul(m.a00, m.a11), Mul(m.a01, m.a10))
  }

  /** The `TransferMatrix` property: when the layer properties or the keyword
      arguments are missing (falsy), the all-zero matrix; otherwise the bare
      `return` of the unfinished branch, i.e. `None`. */
  function DefaultTransferMatrix(layerProperties: bool, args: bool): (r: Option<Matrix>)
    ensures r.Some? <==> !layerProperties || !args
    ensures r.Some? ==> forall i: nat, j: nat :: i < 2 && j < 2 ==> Entry(r.value, i, j) == Zero
  {
    if !layerProperties || !args then Some(ZeroMatrix) else None
  }

  lemma MultiplyAssoc(x: Matrix, y: Matrix, z: Matrix)
    ensures Multiply(Multiply(x, y), z) == Multiply(x, Multiply(y, z))
  {
    RowColumn(x.a00, x.a01, y.a00, y.a10, y.a01, y.a11, z.a00, z.a10);
    RowColumn(x.a00, x.a01, y.a00, y.a10, y.a01, y.a11, z.a01, z.a11);
    RowColumn(x.a10, x.a11, y.a00, y.a10, y.a01, y.a11, z.a00, z.a10);
    RowColumn(x.a10, x.a11, y.a00, y.a10, y.a01, y.a11, z.a01, z.a11);
  }

  /** One entry of (xy)z against the same entry of x(yz). */
  lemma RowColumn(a: Complex, c: Complex, b: Complex, d: Complex, f: Complex, g: Complex, e: Complex, h: Complex)
    ensures Add(Mul(Add(Mul(a, b), Mul(c, d)), e), Mul(Add(Mul(a, f), Mul(c, g)), h))
         == Add(Mul(a, Add(Mul(b, e), Mul(f, h))), Mul(c, Add(Mul(d, e), Mul(g, h))))
  {
    MulAddRight(Mul(a, b), Mul(c, d), e);
    MulAddRight(Mul(a, f), Mul(c, g), h);
    MulAddLeft(a, Mul(b, e), Mul(f, h));
    MulAddLeft(c, Mul(d, e), Mul(g, h));
    MulAssoc(a, b, e);
    MulAssoc(c, d, e);
    MulAssoc(a, f, h);
    MulAssoc(c, g, h);
  }

  lemma MultiplyIdentity(x: Matrix)
    ensures Multiply(Identity, x) == x
    ensures Multiply(x, Identity) == x
  {
  }

  /** The zero default absorbs every matrix it is multiplied with. */
  lemma MultiplyZero(x: Matrix)
    ensures Multiply(ZeroMatrix, x) == ZeroMatrix
    ensures Multiply(x, ZeroMatrix) == ZeroMatrix
  {
  }

  lemma DetMultiply(x: Matrix, y: Matrix)
    ensures Det(Multiply(x, y)) == Mul(Det(x), Det(y))
  {
    var p := Multiply(x, y);
    // the two products of det(xy), expanded
    MulAddLeft(p.a00, Mul(x.a10, y.a01), Mul(x.a11, y.a11));
    MulAddRight(Mul(x.a00, y.a00), Mul(x.a01, y.a10), Mul(x.a10, y.a01));
    MulAddRight(Mul(x.a00, y.a00), Mul(x.a01, y.a10), Mul(x.a11, y.a11));
    MulAddLeft(p.a01, Mul(x.a10, y.a00), Mul(x.a11, y.a10));
    MulAddRight(Mul(x.a00, y.a01), Mul(x.a01, y.a11), Mul(x.a10, y.a00));
    MulAddRight(Mul(x.a00, y.a01), Mul(x.a01, y.a11), Mul(x.a11, y.a10));
    // det(x) det(y), expanded
    MulSubLeft(Det(x), Mul(y.a00, y.a11), Mul(y.a01, y.a10));
    MulSubRight(Mul(x.a00, x.a11), Mul(x.a01, x.a10), Mul(y.a00, y.a11));
    MulSubRight(Mul(x.a00, x.a11), Mul(x.a01, x.a10), Mul(y.a01, y.a10));
    // the monomials, regrouped as x-part times y-part
    MulFour(x.a00, y.a00, x.a10, y.a01);
    MulFour(x.a00, y.a01, x.a10, y.a00);
    MulComm(y.a00, y.a01);
    MulFour(x.a01, y.a10, x.a11, y.a11);
    MulFour(x.a01, y.a11, x.a11, y.a10);
    MulComm(y.a10, y.a11);
    MulFour(x.a00, y.a00, x.a11, y.a11);
    MulFour(x.a00, y.a01, x.a11, y.a10);
    MulFour(x.a01, y.a10, x.a10, y.a01);
    MulFour(x.a01, y.a11, x.a10, y.a00);
  }

  /** Two matrices whose products in the two orders differ. */
  lemma NotCommutative()
    ensures Multiply(Matrix(One, One, Zero, One), Matrix(One, Zero, One, One))
         != Multiply(Matrix(One, Zero, One, One), Matrix(One, One, Zero, One))
  {
    assert Mul(One, One) == One;
    assert Mul(Zero, One) == Zero && Mul(One, Zero) == Zero;
    assert Multiply(Matrix(One, One, Zero, One), Matrix(One, Zero, One, One)).a00 == Add(One, One);
    assert Multiply(Matrix(One, Zero, One, One), Matrix(One, One, Zero, One)).a00 == Add(One, Zero);
  }
}
