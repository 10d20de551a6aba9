/** Division with remainder by a positive number, for the arithmetic on bank numbers and addresses. */
module Modular {
  lemma {:induction false} TimesMonotone(a: nat, c: nat, n: nat)
    requires a < c
    ensures a * n + n <= c * n
  {
    if a + 1 < c {
      TimesMonotone(a, c - 1, n);
    }
    assert c * n == (c - 1) * n + n;
  }

  lemma DivMod(x: nat, n: nat)
    requires n > 0
    ensures x == x / n * n + x % n && 0 <= x / n && 0 <= x % n < n
  {
  }

  /** The quotient and the remainder are the only ones. */
  lemma DivModUnique(x: nat, n: nat, q: nat, r: nat)
    requires r < n && x == q * n + r
    ensures x / n == q && x % n == r
  {
    var d, m := x / n, x % n;
    assert x == d * n + m;
    if q > d {
      TimesMonotone(d, q, n);
    } else if d > q {
      TimesMonotone(q, d, n);
    }
  }

  /** Channel i of b's column is a bank. */
  lemma ColumnStart(nb: nat, nc: nat, b: nat, i: nat)
    requires 0 < nc && nb % nc == 0 && b < nb && i < nc
    ensures 0 <= b / nc * nc + i < nb && (b / nc * nc + i) % nc == i && b / nc <= nb / nc && b % nc < nc
  {
    DivMod(b, nc);
    DivMod(nb, nc);
    InColumns(nb / nc, nc, b / nc, b % nc);
    InColumns(nb / nc, nc, b / nc, i);
    DivModUnique(b / nc * nc + i, nc, b / nc, i);
  }

  /** Row r below nc of column q is among p columns exactly when column q is. */
  lemma InColumns(p: nat, nc: nat, q: nat, r: nat)
    requires r < nc
    ensures q * nc + r < p * nc <==> q < p
  {
    if q < p {
      TimesMonotone(q, p, nc);
    } else if p < q {
      TimesMonotone(p, q, nc);
    }
  }

  /** Stepping to the next column stays on the channel. */
  lemma NextColumn(nb: nat, nc: nat, bank: nat)
    requires 0 < nc && nb % nc == 0 && bank < nb
    ensures 0 <= (bank + nc) % nb < nb && (bank + nc) % nb % nc == bank % nc
  {
    DivMod(bank, nc);
    DivMod(nb, nc);
    ColumnStep(nb, nb / nc, nc, bank / nc, bank % nc);
  }

  lemma ColumnStep(nb: nat, p: nat, nc: nat, q: nat, r: nat)
    requires 0 < nb == p * nc && r < nc && q * nc + r < nb
    ensures (q * nc + r + nc) % nb % nc == r
  {
    var next := q * nc + r + nc;
    InColumns(p, nc, q, r);
    assert next == (q + 1) * nc + r;
    InColumns(p, nc, q + 1, r);
    if q + 1 < p {
      DivModUnique(next, nb, 0, next);
      DivModUnique(next, nc, q + 1, r);
    } else {
      assert q + 1 == p;
      DivModUnique(next, nb, 1, r);
      DivModUnique(r, nc, 0, r);
    }
  }

  /** Numbers less than n apart have different remainders. */
  lemma CloseApart(x: nat, y: nat, n: nat)
    requires x < y < x + n
    ensures x % n != y % n
  {
    var q, r := x / n, x % n;
    assert x == q * n + r;
    if r + y - x < n {
      DivModUnique(y, n, q, r + y - x);
    } else {
      assert y == (q + 1) * n + (r + y - x - n);
      DivModUnique(y, n, q + 1, r + y - x - n);
    }
  }

  lemma NextInTurn(x: nat, n: nat)
    requires n > 0
    ensures (x + 1) % n == if x % n == n - 1 then 0 else x % n + 1
  {
    WrapStep(x, n);
    if x % n < n - 1 {
      DivModUnique(x % n + 1, n, 0, x % n + 1);
    } else {
      DivModUnique(n, n, 1, 0);
    }
  }

  /** Stepping a counter that wraps at n. */
  lemma WrapStep(x: nat, n: nat)
    requires n > 0
    ensures (x % n + 1) % n == (x + 1) % n
  {
    var q, r := x / n, x % n;
    assert x == q * n + r;
    if r + 1 < n {
      DivModUnique(x + 1, n, q, r + 1);
      DivModUnique(r + 1, n, 0, r + 1);
    } else {
      assert x + 1 == (q + 1) * n;
      DivModUnique(x + 1, n, q + 1, 0);
      DivModUnique(r + 1, n, 1, 0);
    }
  }
}
