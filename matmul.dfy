/**
 * The matrix product of `task2`: 1-based matrices in fixed `maxn x maxn`
 * global arrays, a dimension check, the triple loop that accumulates into
 * the zero-initialised result, and the `%10d` table it prints.
 */
module MatMul {
  import opened Common

  const MAXN: int := 25 + 10

  /**
   * Room for indices `1..rows` and `1..cols` in a `maxn x maxn` array.  A
   * dimension of zero or below is accepted: the loops over it run no times.
   */
  predicate Fits(a: array2<int>, rows: int, cols: int) {
    a.Length0 == MAXN && a.Length1 == MAXN && rows < MAXN && cols < MAXN
  }

  /** The number of times `for (k = 1; k <= n; k++)` runs. */
  function Count(n: int): (c: nat)
    ensures c == 0 <==> n <= 0
    ensures 0 < n ==> c == n
  {
    if n <= 0 then 0 else n
  }

  /** The sum over `k = 1..m` of `a1[i][k] * a2[k][j]`; empty, so 0, when `m <= 0`. */
  ghost function Dot(a1: array2<int>, a2: array2<int>, i: int, j: int, m: int): int
    requires 0 <= i < a1.Length0 && m < a1.Length1 && m < a2.Length0 && 0 <= j < a2.Length1
    reads a1, a2
    decreases Count(m)
  {
    if m <= 0 then 0 else Dot(a1, a2, i, j, m - 1) + a1[i, m] * a2[m, j]
  }

  /**
   * Lines 20-29: when `m1 != n2` nothing is computed; otherwise every cell
   * `(i, j)` with `1 <= i <= n1` and `1 <= j <= m2` gains the dot product of
   * row `i` of `a1` and column `j` of `a2`, and no other cell changes.
   */
  method Multiply(a1: array2<int>, a2: array2<int>, a3: array2<int>, n1: int, m1: int, n2: int, m2: int)
    returns (compatible: bool)
    requires Fits(a1, n1, m1) && Fits(a2, n2, m2) && Fits(a3, n1, m2)
    requires a3 != a1 && a3 != a2
    modifies a3
    ensures compatible <==> m1 == n2
    ensures !compatible ==> unchanged(a3)
    ensures forall i, j :: 0 <= i < MAXN && 0 <= j < MAXN ==>
              a3[i, j] == if compatible && 1 <= i <= n1 && 1 <= j <= m2
                          then old(a3[i, j]) + Dot(a1, a2, i, j, m1) else old(a3[i, j])
  {
    if m1 != n2 {
      return false;
    }
    var n3, m3 := n1, m2;
    for i := 1 to Count(n3) + 1
      invariant forall x, y :: 0 <= x < MAXN && 0 <= y < MAXN ==>
                  a3[x, y] == if 1 <= x < i && 1 <= y <= m3 then old(a3[x, y]) + Dot(a1, a2, x, y, m1) else old(a3[x, y])
    {
      for j := 1 to Count(m3) + 1
        invariant forall x, y :: 0 <= x < MAXN && 0 <= y < MAXN ==>
                    a3[x, y] == if (1 <= x < i && 1 <= y <= m3) || (x == i && 1 <= y < j)
                                then old(a3[x, y]) + Dot(a1, a2, x, y, m1) else old(a3[x, y])
      {
        for k := 1 to Count(m1) + 1
          invariant a3[i, j] == old(a3[i, j]) + Dot(a1, a2, i, j, k - 1)
          invariant forall x, y :: 0 <= x < MAXN && 0 <= y < MAXN && (x != i || y != j) ==>
                      a3[x, y] == if (1 <= x < i && 1 <= y <= m3) || (x == i && 1 <= y < j)
                                  then old(a3[x, y]) + Dot(a1, a2, x, y, m1) else old(a3[x, y])
        {
          a3[i, j] := a3[i, j] + a1[i, k] * a2[k, j];
        }
      }
    }
    return true;
  }

  /** Multiplying by the identity gives back the row: `Dot` picks out `a1[i][j]`. */
  lemma {:induction false} DotIdentity(a1: array2<int>, a2: array2<int>, i: int, j: int, m: int)
    requires 0 <= i < a1.Length0 && 0 <= m < a1.Length1 && m < a2.Length0 && 0 <= j < a2.Length1
    requires forall k :: 1 <= k <= m ==> a2[k, j] == if k == j then 1 else 0
    ensures Dot(a1, a2, i, j, m) == if 1 <= j <= m then a1[i, j] else 0
    decreases m
  {
    if m > 0 {
      DotIdentity(a1, a2, i, j, m - 1);
    }
  }

  /** Any row times a zero column is zero. */
  lemma {:induction false} DotZero(a1: array2<int>, a2: array2<int>, i: int, j: int, m: int)
    requires 0 <= i < a1.Length0 && 0 <= m < a1.Length1 && m < a2.Length0 && 0 <= j < a2.Length1
    requires forall k :: 1 <= k <= m ==> a2[k, j] == 0
    ensures Dot(a1, a2, i, j, m) == 0
    decreases m
  {
    if m > 0 {
      DotZero(a1, a2, i, j, m - 1);
    }
  }

  // ---------------------------------------------------------------------
  // Output
  // ---------------------------------------------------------------------

  function Spaces(n: nat): (s: string)
    ensures |s| == n && forall k :: 0 <= k < n ==> s[k] == ' '
  {
    if n == 0 then "" else Spaces(n - 1) + " "
  }

  /** `%10d`: the decimal text, right-aligned in a field of ten. */
  function Field(x: int): string {
    var t := IntToString(x);
    if |t| < 10 then Spaces(10 - |t|) + t else t
  }

  /**
   * The field is at least ten wide, ends with the decimal text and is
   * padded on the left with blanks only.
   */
  lemma FieldLayout(x: int)
    ensures var s, t := Field(x), IntToString(x);
            |s| == (if |t| < 10 then 10 else |t|) &&
            s[|s| - |t|..] == t &&
            forall k :: 0 <= k < |s| - |t| ==> s[k] == ' '
  {
    var t := IntToString(x);
    if |t| < 10 {
      assert Field(x) == Spaces(10 - |t|) + t;
    }
  }

  /** Row `i`: fields for columns `1..m`. */
  ghost function RowText(a: array2<int>, i: int, m: int): string
    requires 0 <= i < a.Length0 && Count(m) < a.Length1
    reads a
    decreases Count(m)
  {
    if m <= 0 then "" else RowText(a, i, m - 1) + Field(a[i, m])
  }

  /** Rows `1..n`, each followed by a line break. */
  ghost function TableText(a: array2<int>, n: int, m: int): string
    requires Count(n) < a.Length0 && Count(m) < a.Length1
    reads a
    decreases Count(n)
  {
    if n <= 0 then "" else TableText(a, n - 1, m) + RowText(a, n, m) + "\n"
  }

  /** Lines 31-35: the result table. */
  method PrintMatrix(a: array2<int>, n: int, m: int) returns (out: string)
    requires Count(n) < a.Length0 && Count(m) < a.Length1
    ensures out == TableText(a, n, m)
  {
    out := "";
    for i := 1 to Count(n) + 1
      invariant out == TableText(a, i - 1, m)
    {
      var row := PrintRow(a, i, m);
      out := out + row + "\n";
    }
  }

  /** Lines 33-34: the fields of row `i`, columns `1..m`. */
  method PrintRow(a: array2<int>, i: int, m: int) returns (row: string)
    requires 0 <= i < a.Length0 && Count(m) < a.Length1
    ensures row == RowText(a, i, m)
  {
    row := "";
    for j := 1 to Count(m) + 1
      invariant row == RowText(a, i, j - 1)
    {
      row := row + Field(a[i, j]);
    }
  }

  /** A row of values that each fit in ten characters takes exactly ten characters per column. */
  lemma {:induction false} RowWidth(a: array2<int>, i: int, m: int)
    requires 0 <= i < a.Length0 && Count(m) < a.Length1
    requires forall k :: 1 <= k <= m ==> |IntToString(a[i, k])| <= 10
    ensures |RowText(a, i, m)| == 10 * Count(m)
    decreases Count(m)
  {
    if m > 0 {
      RowWidth(a, i, m - 1);
      FieldLayout(a[i, m]);
    }
  }

  /**
   * `main` after reading: the message for incompatible dimensions, else the
   * product table of `n1` rows and `m2` columns.
   */
  method MultiplyAndPrint(a1: array2<int>, a2: array2<int>, a3: array2<int>, n1: int, m1: int, n2: int, m2: int)
    returns (out: string)
    requires Fits(a1, n1, m1) && Fits(a2, n2, m2) && Fits(a3, n1, m2)
    requires a3 != a1 && a3 != a2
    modifies a3
    ensures m1 != n2 ==> out == "Incompatible Dimensions\n" && unchanged(a3)
    ensures m1 == n2 ==> out == TableText(a3, n1, m2)
    ensures forall i, j :: 0 <= i < MAXN && 0 <= j < MAXN ==>
              a3[i, j] == if m1 == n2 && 1 <= i <= n1 && 1 <= j <= m2
                          then old(a3[i, j]) + Dot(a1, a2, i, j, m1) else old(a3[i, j])
  {
    var compatible := Multiply(a1, a2, a3, n1, m1, n2, m2);
    if !compatible {
      return "Incompatible Dimensions\n";
    }
    out := PrintMatrix(a3, n1, m2);
  }
}
