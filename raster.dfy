/** Integer facts about the row-major layouts used throughout the pipeline:
    a batch `k` of width `w` starts at `k * w`, and a pixel `(r, c)` of a
    `size x size` grid sits at offset `r * size + c`. */
module Raster {

  /** Euclidean division is determined by any quotient/remainder pair. */
  lemma DivModUnique(a: int, d: int, q: int, r: int)
    requires d > 0 && 0 <= r < d && a == q * d + r
    ensures a / d == q && a % d == r
  {
    var q', r' := a / d, a % d;
    assert a == q' * d + r' && 0 <= r' < d;
    if q' < q {
      MulAtLeast(q - q', d);
      assert false;
    } else if q' > q {
      MulAtLeast(q' - q, d);
      assert false;
    }
  }

  lemma MulAtLeast(k: int, d: int)
    requires k >= 1 && d > 0
    ensures k * d >= d
  {
  }

  /** Multiplication by a non-negative factor keeps order. */
  lemma MulMonotone(a: int, b: int, d: int)
    requires a <= b && d >= 0
    ensures a * d <= b * d
  {
    assert b * d - a * d == (b - a) * d;
  }

  /** Offset `k * w + j` with `j < w` stays inside block `k`. */
  lemma BlockBound(k: int, w: int, j: int, n: int)
    requires 0 <= j < w && 0 <= k < n
    ensures k * w + j < n * w
  {
    MulMonotone(k + 1, n, w);
  }

  /** Distinct (block, offset) pairs give distinct flat positions. */
  lemma BlockInjective(k1: int, j1: int, k2: int, j2: int, w: int)
    requires 0 <= k1 && 0 <= k2 && 0 <= j1 < w && 0 <= j2 < w
    requires k1 != k2 || j1 != j2
    ensures k1 * w + j1 != k2 * w + j2
  {
    DivModUnique(k1 * w + j1, w, k1, j1);
    DivModUnique(k2 * w + j2, w, k2, j2);
  }

  /** A block `k` that fits in `n` has index below `n / w`. */
  lemma BelowQuotient(n: int, w: int, k: int)
    requires w > 0 && 0 <= k && k * w + w <= n
    ensures k < n / w
  {
    DivModUnique(n, w, n / w, n % w);
    if k >= n / w {
      MulMonotone(n / w + 1, k + 1, w);
      assert false;
    }
  }

  /** The block after block `k` starts `w` further on. */
  lemma MulSucc(k: int, w: int)
    requires k >= 0 && w >= 0
    ensures 0 <= k * w && (k + 1) * w == k * w + w
  {
  }

  /** A flat offset `p` inside a `size x size` grid names the pixel
      `(p / size, p % size)` of that grid. */
  lemma PixelOf(p: int, size: int)
    requires 0 <= p < size * size && size >= 0
    ensures size > 0 && 0 <= p / size < size && 0 <= p % size < size
  {
    if size == 0 {
      assert false;
    }
    if p / size >= size {
      MulMonotone(size, p / size, size);
      assert false;
    }
  }

  /** Pixel `(r, c)` of a `size x size` grid sits at offset `r * size + c`,
      and that offset names the pixel again. */
  lemma PixelRoundTrip(r: int, c: int, size: int)
    requires 0 <= r < size && 0 <= c < size
    ensures 0 <= r * size + c < size * size
    ensures (r * size + c) / size == r && (r * size + c) % size == c
  {
    MulMonotone(0, r, size);
    BlockBound(r, size, c, size);
    DivModUnique(r * size + c, size, r, c);
  }

  /** A flat position below `n * w` lies in block `row / w < n`, at offset
      `row % w` inside it. */
  lemma BlockOf(row: int, w: int, n: int)
    requires 0 <= row < n * w && w >= 0
    ensures w > 0 && 0 <= row / w < n && 0 <= row % w < w
  {
    if w == 0 {
      assert false;
    }
    if row / w >= n {
      MulMonotone(n, row / w, w);
      assert false;
    }
  }
}
