/** Row-major layout: a sequence built by laying rows end to end, and the
    index arithmetic that finds row `r`, column `c` in it. The tile grid
    of the FTL label facade visits its boxes in this order. */
module Layout {

  /* ---------------------------------------------------------------
     Index arithmetic
     --------------------------------------------------------------- */

  lemma MulMonotone(a: int, b: int, c: int)
    requires a <= b && c >= 0
    ensures a * c <= b * c
  {
  }

  lemma MulSucc(a: nat, b: nat)
    ensures a * b + b == (a + 1) * b
  {
  }

  /** Floor division and remainder of naturals. */
  lemma DivMod(p: nat, n: nat)
    requires n > 0
    ensures 0 <= p / n && 0 <= p % n < n && p == (p / n) * n + p % n
  {
  }

  /** `p // ts == r` exactly when `p` lies in `[r * ts, r * ts + ts)`. */
  lemma DivUnique(p: int, ts: int, r: int)
    requires ts > 0 && p >= 0
    ensures r * ts <= p < r * ts + ts <==> r == p / ts
  {
    var q, m := p / ts, p % ts;
    assert p == q * ts + m && 0 <= m < ts;
    if r * ts <= p < r * ts + ts && r != q {
      if r < q {
        MulMonotone(r + 1, q, ts);
      } else {
        MulMonotone(q + 1, r, ts);
      }
    }
  }

  /** Entry `r * n + c` of a row-major grid with `n` columns is row `r`,
      column `c`. */
  lemma GridIndex(r: nat, c: nat, n: nat)
    requires c < n
    ensures (r * n + c) / n == r && (r * n + c) % n == c
  {
    DivUnique(r * n + c, n, r);
  }

  /** An index below `rows * n` has its row below `rows`. */
  lemma GridIndexBounds(k: nat, rows: nat, n: nat)
    requires k < rows * n
    ensures n > 0 && 0 <= k / n < rows && 0 <= k % n < n
  {
    DivMod(k, n);
    if k / n >= rows {
      MulMonotone(rows, k / n, n);
    }
  }

  /** Row `r`, column `c` of a grid of `rows` rows and `n` columns has an
      index below `rows * n`. */
  lemma GridIndexInRange(r: nat, c: nat, rows: nat, n: nat)
    requires r < rows && c < n
    ensures r * n + c < rows * n
  {
    MulMonotone(r + 1, rows, n);
  }

  /** Two cells of a row-major grid are the same exactly when their rows
      and their columns are. */
  lemma GridIndexUnique(k: nat, n: nat, r: nat, c: nat)
    requires c < n
    ensures k == r * n + c <==> k / n == r && k % n == c
  {
    GridIndex(r, c, n);
    DivMod(k, n);
  }

  /* ---------------------------------------------------------------
     Rows laid end to end
     --------------------------------------------------------------- */

  lemma AppendAssoc<T>(a: seq<T>, b: seq<T>, c: seq<T>)
    ensures (a + b) + c == a + (b + c)
  {
  }

  /** The rows `rows(0)`, ..., `rows(n - 1)`, laid end to end. */
  function Concat<T>(rows: nat -> seq<T>, n: nat): (s: seq<T>) {
    if n == 0 then [] else Concat(rows, n - 1) + rows(n - 1)
  }

  /** Every one of the first `n` rows has length `m`. */
  ghost predicate Uniform<T>(rows: nat -> seq<T>, n: nat, m: nat) {
    forall i: nat :: i < n ==> |rows(i)| == m
  }

  /** `n` rows of length `m` make `n * m` entries. */
  lemma {:induction false} ConcatLength<T>(rows: nat -> seq<T>, n: nat, m: nat)
    requires Uniform(rows, n, m)
    ensures |Concat(rows, n)| == n * m
    decreases n
  {
    if n > 0 {
      ConcatLength(rows, n - 1, m);
      MulSucc(n - 1, m);
    }
  }

  /** Entry `c` of row `r` follows the rows above it. */
  lemma {:induction false} ConcatAt<T>(rows: nat -> seq<T>, n: nat, r: nat, c: nat)
    requires r < n && c < |rows(r)|
    ensures |Concat(rows, r)| + c < |Concat(rows, n)|
    ensures Concat(rows, n)[|Concat(rows, r)| + c] == rows(r)[c]
    decreases n
  {
    var k := |Concat(rows, r)| + c;
    if r < n - 1 {
      ConcatAt(rows, n - 1, r, c);
      assert Concat(rows, n)[k] == Concat(rows, n - 1)[k];
    }
  }

  /** With rows of length `m`, entry `r * m + c` is row `r`, column `c`. */
  lemma ConcatUniformAt<T>(rows: nat -> seq<T>, n: nat, m: nat, r: nat, c: nat)
    requires Uniform(rows, n, m) && r < n && c < m
    ensures 0 <= r * m + c < |Concat(rows, n)|
    ensures Concat(rows, n)[r * m + c] == rows(r)[c]
  {
    ConcatLength(rows, r, m);
    ConcatAt(rows, n, r, c);
  }

  /** With rows of length `m`, entry `k` is row `k / m`, column `k % m`. */
  lemma ConcatClosed<T>(rows: nat -> seq<T>, n: nat, m: nat, k: nat)
    requires Uniform(rows, n, m) && k < |Concat(rows, n)|
    ensures |Concat(rows, n)| == n * m
    ensures m > 0 && 0 <= k / m < n && k % m < |rows(k / m)|
    ensures Concat(rows, n)[k] == rows(k / m)[k % m]
  {
    ConcatLength(rows, n, m);
    GridIndexBounds(k, n, m);
    DivMod(k, m);
    ConcatUniformAt(rows, n, m, k / m, k % m);
  }
}
