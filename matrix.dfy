/** `XCSFUtils.Matrix`: products of square matrices and vectors written into
 *  caller-supplied destination arrays. Matrices are rows of reals; the array
 *  methods are proved against the value-level definitions below, which the
 *  predictors and the rotating conditions use directly. */
module Matrix {

  /** Σ_{j < n} u[j]·v[j], summed left to right as the loops do. */
  function Dot(u: seq<real>, v: seq<real>, n: nat): real
    requires n <= |u| && n <= |v|
  {
    if n == 0 then 0.0 else Dot(u, v, n - 1) + u[n - 1] * v[n - 1]
  }

  /** The dot product does not depend on the order of its arguments. */
  lemma {:induction false} DotSymmetric(u: seq<real>, v: seq<real>, n: nat)
    requires n <= |u| && n <= |v|
    ensures Dot(u, v, n) == Dot(v, u, n)
  {
    if n > 0 {
      DotSymmetric(u, v, n - 1);
    }
  }

  predicate IsSquare(m: seq<seq<real>>, n: nat)
  {
    |m| == n && forall i :: 0 <= i < n ==> |m[i]| == n
  }

  /** At least `n` rows of at least `cols` entries each. */
  predicate Covers(m: seq<seq<real>>, n: nat, cols: nat)
  {
    n <= |m| && forall i :: 0 <= i < n ==> cols <= |m[i]|
  }

  function MatVec(m: seq<seq<real>>, v: seq<real>, n: nat): (r: seq<real>)
    requires Covers(m, n, n) && n <= |v|
    ensures |r| == n
  {
    seq(n, i requires 0 <= i < n => Dot(m[i], v, n))
  }

  /** The extended (affine) product: the first n columns times `v`, plus
   *  column n as a translation. */
  function MatVecExt(m: seq<seq<real>>, v: seq<real>, n: nat): (r: seq<real>)
    requires Covers(m, n, n + 1) && n <= |v|
    ensures |r| == n
  {
    seq(n, i requires 0 <= i < n => Dot(m[i], v, n) + m[i][n])
  }

  function Column(b: seq<seq<real>>, j: nat, n: nat): (c: seq<real>)
    requires Covers(b, n, j + 1)
    ensures |c| == n
  {
    seq(n, k requires 0 <= k < n => b[k][j])
  }

  function MatMul(a: seq<seq<real>>, b: seq<seq<real>>, n: nat): (r: seq<seq<real>>)
    requires Covers(a, n, n) && Covers(b, n, n)
    ensures IsSquare(r, n)
  {
    seq(n, i requires 0 <= i < n => seq(n, j requires 0 <= j < n => Dot(a[i], Column(b, j, n), n)))
  }

  /** s on the diagonal, 0 elsewhere. */
  function Diagonal(s: real, n: nat): (d: seq<seq<real>>)
    ensures IsSquare(d, n)
    ensures forall i, j :: 0 <= i < n && 0 <= j < n ==> d[i][j] == (if i == j then s else 0.0)
  {
    seq(n, i requires 0 <= i < n => seq(n, j requires 0 <= j < n => if i == j then s else 0.0))
  }

  function Identity(n: nat): seq<seq<real>>
  {
    Diagonal(1.0, n)
  }

  /** Against a row that is zero except at k, the product picks entry k. */
  lemma {:induction false} DotUnit(u: seq<real>, v: seq<real>, n: nat, k: nat, s: real)
    requires n <= |u| && n <= |v| && k < n
    requires u[k] == s && forall j :: 0 <= j < n && j != k ==> u[j] == 0.0
    ensures Dot(u, v, n) == s * v[k]
  {
    if n - 1 == k {
      DotZero(u, v, n - 1);
    } else {
      DotUnit(u, v, n - 1, k, s);
    }
  }

  lemma {:induction false} DotZero(u: seq<real>, v: seq<real>, n: nat)
    requires n <= |u| && n <= |v|
    requires forall j :: 0 <= j < n ==> u[j] == 0.0
    ensures Dot(u, v, n) == 0.0
  {
    if n > 0 {
      DotZero(u, v, n - 1);
    }
  }

  /** A diagonal matrix scales every entry of the vector. */
  lemma {:induction false} DiagonalMatVec(s: real, v: seq<real>, n: nat)
    requires n <= |v|
    ensures forall i :: 0 <= i < n ==> MatVec(Diagonal(s, n), v, n)[i] == s * v[i]
  {
    var d := Diagonal(s, n);
    forall i | 0 <= i < n
      ensures MatVec(d, v, n)[i] == s * v[i]
    {
      DotUnit(d[i], v, n, i, s);
    }
  }

  /** The identity leaves the first n entries of a vector unchanged. */
  lemma {:induction false} IdentityMatVec(v: seq<real>, n: nat)
    requires n <= |v|
    ensures MatVec(Identity(n), v, n) == v[..n]
  {
    DiagonalMatVec(1.0, v, n);
  }

  /** Multiplying by the identity on the left gives back the matrix. */
  lemma {:induction false} IdentityMatMul(b: seq<seq<real>>, n: nat)
    requires IsSquare(b, n)
    ensures MatMul(Identity(n), b, n) == b
  {
    var id := Identity(n);
    var r := MatMul(id, b, n);
    forall i, j | 0 <= i < n && 0 <= j < n
      ensures r[i][j] == b[i][j]
    {
      DotUnit(id[i], Column(b, j, n), n, i, 1.0);
    }
    forall i | 0 <= i < n
      ensures r[i] == b[i]
    {
    }
  }

  // ---- the array methods ----

  ghost function Row(a: array2<real>, i: nat): (r: seq<real>)
    requires i < a.Length0
    reads a
    ensures |r| == a.Length1
  {
    seq(a.Length1, j requires 0 <= j < a.Length1 reads a => a[i, j])
  }

  ghost function Rows(a: array2<real>): (r: seq<seq<real>>)
    reads a
    ensures |r| == a.Length0
    ensures forall i :: 0 <= i < a.Length0 ==> r[i] == Row(a, i)
  {
    seq(a.Length0, i requires 0 <= i < a.Length0 reads a => Row(a, i))
  }

  /** `multiply(srcMatrix, srcVector, destination, n)`: the first n entries
   *  of `dest` become the product; nothing else changes. */
  method Multiply(mat: array2<real>, vec: array<real>, dest: array<real>, n: int)
    requires 0 <= n <= mat.Length0 && n <= mat.Length1 && n <= vec.Length && n <= dest.Length
    requires dest != vec
    modifies dest
    ensures dest[..n] == MatVec(Rows(mat), vec[..], n)
    ensures dest[n..] == old(dest[n..])
  {
    ghost var m := Rows(mat);
    for i := 0 to n
      invariant forall k :: 0 <= k < i ==> dest[k] == Dot(m[k], vec[..], n)
      invariant dest[n..] == old(dest[n..])
    {
      dest[i] := mat[i, 0] * vec[0];
      assert Dot(m[i], vec[..], 1) == mat[i, 0] * vec[0];
      for j := 1 to n
        invariant dest[i] == Dot(m[i], vec[..], j)
        invariant forall k :: 0 <= k < i ==> dest[k] == Dot(m[k], vec[..], n)
        invariant dest[n..] == old(dest[n..])
      {
        dest[i] := dest[i] + mat[i, j] * vec[j];
      }
    }
  }

  /** `multiplyExtended`: the affine product with column n as translation. */
  method MultiplyExtended(mat: array2<real>, vec: array<real>, dest: array<real>, n: int)
    requires 0 <= n < mat.Length0 && n < mat.Length1 && n <= vec.Length && n <= dest.Length
    requires dest != vec
    modifies dest
    ensures dest[..n] == MatVecExt(Rows(mat), vec[..], n)
    ensures dest[n..] == old(dest[n..])
  {
    ghost var m := Rows(mat);
    for i := 0 to n
      invariant forall k :: 0 <= k < i ==> dest[k] == Dot(m[k], vec[..], n) + m[k][n]
      invariant dest[n..] == old(dest[n..])
    {
      dest[i] := mat[i, 0] * vec[0];
      assert Dot(m[i], vec[..], 1) == mat[i, 0] * vec[0];
      for j := 1 to n
        invariant dest[i] == Dot(m[i], vec[..], j)
        invariant forall k :: 0 <= k < i ==> dest[k] == Dot(m[k], vec[..], n) + m[k][n]
        invariant dest[n..] == old(dest[n..])
      {
        dest[i] := dest[i] + mat[i, j] * vec[j];
      }
      dest[i] := dest[i] + mat[i, n];
    }
  }

  /** One entry of the product: row i of `a` against column j of `b`. */
  method ProductEntry(a: array2<real>, b: array2<real>, i: int, j: int, n: int) returns (s: real)
    requires 0 <= i < n <= a.Length0 && n <= a.Length1 && n <= b.Length0 && 0 <= j < n <= b.Length1
    ensures s == Dot(Rows(a)[i], Column(Rows(b), j, n), n)
  {
    ghost var row := Rows(a)[i];
    ghost var col := Column(Rows(b), j, n);
    s := a[i, 0] * b[0, j];
    assert Dot(row, col, 1) == a[i, 0] * b[0, j];
    for k := 1 to n
      invariant s == Dot(row, col, k)
    {
      s := s + a[i, k] * b[k, j];
    }
  }

  /** The n×n matrix product `destination = srcA * srcB`. */
  method MultiplyMatrices(a: array2<real>, b: array2<real>, dest: array2<real>, n: int)
    requires 0 <= n <= a.Length0 && n <= a.Length1 && n <= b.Length0 && n <= b.Length1
    requires n <= dest.Length0 && n <= dest.Length1
    requires dest != a && dest != b
    modifies dest
    ensures forall i, j :: 0 <= i < n && 0 <= j < n ==> dest[i, j] == MatMul(Rows(a), Rows(b), n)[i][j]
    ensures forall i, j :: 0 <= i < dest.Length0 && 0 <= j < dest.Length1 && !(i < n && j < n) ==>
      dest[i, j] == old(dest[i, j])
  {
    ghost var prod := MatMul(Rows(a), Rows(b), n);
    for i := 0 to n
      invariant forall i', j :: 0 <= i' < i && 0 <= j < n ==> dest[i', j] == prod[i'][j]
      invariant forall i', j :: 0 <= i' < dest.Length0 && 0 <= j < dest.Length1 && !(i' < i && j < n) ==>
        dest[i', j] == old(dest[i', j])
    {
      for j := 0 to n
        invariant forall i', j' :: 0 <= i' < i && 0 <= j' < n ==> dest[i', j'] == prod[i'][j']
        invariant forall j' :: 0 <= j' < j ==> dest[i, j'] == prod[i][j']
        invariant forall i', j' :: 0 <= i' < dest.Length0 && 0 <= j' < dest.Length1 && !(i' < i && j' < n) && !(i' == i && j' < j) ==>
          dest[i', j'] == old(dest[i', j'])
      {
        var s := ProductEntry(a, b, i, j, n);
        dest[i, j] := s;
      }
    }
  }

  /** `copyMatrix`: the leading n×n block of `src` is copied into `dest`. */
  method CopyMatrix(src: array2<real>, dest: array2<real>, n: int)
    requires 0 <= n <= src.Length0 && n <= src.Length1 && n <= dest.Length0 && n <= dest.Length1
    requires dest != src
    modifies dest
    ensures forall i, j :: 0 <= i < n && 0 <= j < n ==> dest[i, j] == src[i, j]
    ensures forall i, j :: 0 <= i < dest.Length0 && 0 <= j < dest.Length1 && !(i < n && j < n) ==>
      dest[i, j] == old(dest[i, j])
  {
    for i := 0 to n
      invariant forall i', j :: 0 <= i' < i && 0 <= j < n ==> dest[i', j] == src[i', j]
      invariant forall i', j :: 0 <= i' < dest.Length0 && 0 <= j < dest.Length1 && !(i' < i && j < n) ==>
        dest[i', j] == old(dest[i', j])
    {
      for j := 0 to n
        invariant forall i', j' :: 0 <= i' < i && 0 <= j' < n ==> dest[i', j'] == src[i', j']
        invariant forall j' :: 0 <= j' < j ==> dest[i, j'] == src[i, j']
        invariant forall i', j' :: 0 <= i' < dest.Length0 && 0 <= j' < dest.Length1 && !(i' < i && j' < n) && !(i' == i && j' < j) ==>
          dest[i', j'] == old(dest[i', j'])
      {
        dest[i, j] := src[i, j];
      }
    }
  }
}
