/**
 * `get_smart_grid` (ui/layout.py; identical copies in main.py and test.py):
 * rows and columns of the camera grid for a number of tiles.
 */
module Layout {

  /** Integer square root: the largest `r` with `r * r <= m`. */
  function Isqrt(m: nat): (r: nat)
    ensures r * r <= m < (r + 1) * (r + 1)
    decreases m
  {
    if m == 0 then 0
    else
      var h := 2 * Isqrt(m / 4);
      IsqrtStep(m, Isqrt(m / 4));
      if (h + 1) * (h + 1) <= m then h + 1 else h
  }

  /** Doubling the root of `m / 4` gives a lower bound within 2 of the root of `m`. */
  lemma IsqrtStep(m: nat, q: nat)
    requires q * q <= m / 4 < (q + 1) * (q + 1)
    ensures (2 * q) * (2 * q) <= m < (2 * q + 2) * (2 * q + 2)
  {
    assert (2 * q) * (2 * q) == 4 * (q * q);
    assert (2 * q + 2) * (2 * q + 2) == 4 * ((q + 1) * (q + 1));
    assert m < 4 * (m / 4) + 4;
    assert (q + 1) * (q + 1) >= m / 4 + 1;
  }

  /**
   * `int(num_cameras ** 0.5 * 1.5)` for `n >= 0`, in exact arithmetic: the
   * largest `k` with `k <= 1.5 * sqrt(n)`, i.e. `(2k)^2 <= 9n`.
   */
  function OneAndAHalfRootFloor(n: nat): (k: nat)
    ensures 4 * (k * k) <= 9 * n < 4 * ((k + 1) * (k + 1))
  {
    var s := Isqrt(9 * n);
    var k := s / 2;
    assert 2 * k <= s < 2 * k + 2;
    assert (2 * k) * (2 * k) <= s * s by { MulMono(2 * k, s); }
    assert (s + 1) * (s + 1) <= (2 * k + 2) * (2 * k + 2) by { MulMono(s + 1, 2 * k + 2); }
    k
  }

  lemma MulMono(a: nat, b: nat)
    requires a <= b
    ensures a * a <= b * b
  {
    assert a * a <= a * b <= b * b;
  }

  /** For ten or more tiles the scaled root is at least 4, so the column count is always 4. */
  lemma {:induction false} RootAtLeastFour(n: nat)
    requires n >= 10
    ensures OneAndAHalfRootFloor(n) >= 4
  {
    var k := OneAndAHalfRootFloor(n);
    if k <= 3 {
      MulMono(k + 1, 4);
      assert false;
    }
  }

  /** `get_smart_grid(num_cameras)` as (rows, cols). */
  function SmartGrid(n: int): (g: (int, int))
    ensures g.0 >= 1 && g.1 >= 1
    ensures g.0 * g.1 >= n
    // No wasted row: dropping the last row would not fit all tiles.
    ensures n >= 1 ==> (g.0 - 1) * g.1 < n
    ensures n >= 10 ==> g == ((n + 3) / 4, 4)
  {
    if n <= 1 then (1, 1)
    else if n == 2 then (1, 2)
    else if n == 3 then (1, 3)
    else if n == 4 then (2, 2)
    else if n <= 6 then (2, 3)
    else if n <= 9 then (3, 3)
    else
      RootAtLeastFour(n);
      var root := OneAndAHalfRootFloor(n);
      var cols := if root < 4 then root else 4;
      var rows := (n + cols - 1) / cols;
      assert rows * 4 >= n;
      (rows, cols)
  }

  /** The fixed part of the table, and one tile or fewer (including 0 and negatives) gets a 1x1 grid. */
  lemma SmartGridTable(n: int)
    ensures n <= 1 ==> SmartGrid(n) == (1, 1)
    ensures SmartGrid(2) == (1, 2) && SmartGrid(3) == (1, 3) && SmartGrid(4) == (2, 2)
    ensures 5 <= n <= 6 ==> SmartGrid(n) == (2, 3)
    ensures 7 <= n <= 9 ==> SmartGrid(n) == (3, 3)
  {
  }
}
