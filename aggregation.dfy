/** Aggregating the hypercolumns of a whole image set into one matrix:
    every pixel of every image becomes one row of `F` features. Image `i`
    owns the `size * size` consecutive rows starting at `i * size * size`,
    its pixels in row-major order; the matrix starts zero-filled. */
module Aggregation {
  import opened Layers
  import opened Hypercolumns
  import Raster

  /** Every image's activations yield exactly `F` planes, so that every
      extraction succeeds. */
  ghost predicate AllExtract(acts: seq<seq<Activation>>, resize: (Plane, nat) -> Plane, size: nat, F: nat)
    requires ResizesTo(resize, size)
  {
    forall i :: 0 <= i < |acts| ==> |Planes(acts[i], resize, size)| == F
  }

  /** Row-major offset of pixel `(r, c)` in a `size x size` grid. */
  function Pixel(r: nat, c: nat, size: nat): nat {
    r * size + c
  }

  /** First matrix row of image `i`: every image owns `size * size` rows. */
  function ImageStart(i: nat, size: nat): nat {
    i * (size * size)
  }

  /** The block of rows of image `i` is followed by that of image
      `i + 1`, and lies below the rows of any later image `n > i`. */
  lemma ImageBlock(i: nat, size: nat, n: nat)
    requires i < n
    ensures ImageStart(i + 1, size) == ImageStart(i, size) + size * size <= ImageStart(n, size)
  {
    Raster.MulSucc(i, size * size);
    Raster.MulMonotone(i + 1, n, size * size);
  }

  /** The row of pixel `(r, c)` of image `i` lies inside the block of
      rows of image `i`, below the block of image `i + 1` and so below
      the rows of any later image `n > i`. */
  lemma PixelInImage(i: nat, r: nat, c: nat, size: nat, n: nat)
    requires i < n && r < size && c < size
    ensures Pixel(r, c, size) < size * size
    ensures ImageStart(i + 1, size) == ImageStart(i, size) + size * size <= ImageStart(n, size)
    ensures ImageStart(i, size) + Pixel(r, c, size) < ImageStart(i + 1, size)
  {
    Raster.PixelRoundTrip(r, c, size);
    Raster.MulSucc(i, size * size);
    Raster.MulMonotone(i + 1, n, size * size);
  }

  /** Every row of the matrix of `n` images is the row of some pixel. */
  lemma RowsCovered(row: nat, size: nat, n: nat)
    requires row < ImageStart(n, size)
    ensures exists i: nat, r: nat, c: nat :: i < n && r < size && c < size && row == ImageStart(i, size) + Pixel(r, c, size)
  {
    var s2 := size * size;
    Raster.BlockOf(row, s2, n);
    var i, p := row / s2, row % s2;
    Raster.PixelOf(p, size);
    var r, c := p / size, p % size;
    assert row == ImageStart(i, size) + Pixel(r, c, size);
  }

  /** Different pixels, of the same image or not, never share a row. */
  lemma RowsDistinct(size: nat, i1: nat, r1: nat, c1: nat, i2: nat, r2: nat, c2: nat)
    requires r1 < size && c1 < size && r2 < size && c2 < size
    requires (i1, r1, c1) != (i2, r2, c2)
    ensures ImageStart(i1, size) + Pixel(r1, c1, size) != ImageStart(i2, size) + Pixel(r2, c2, size)
  {
    Raster.PixelRoundTrip(r1, c1, size);
    Raster.PixelRoundTrip(r2, c2, size);
    if i1 == i2 {
      Raster.BlockInjective(r1, c1, r2, c2, size);
    } else {
      Raster.BlockInjective(i1, Pixel(r1, c1, size), i2, Pixel(r2, c2, size), size * size);
    }
  }

  /** When every image's activations have the selected layers' declared
      shapes, every extraction succeeds. */
  lemma ConformingActivationsExtract(network: seq<Shape>, indices: seq<int>, acts: seq<seq<Activation>>,
                                     resize: (Plane, nat) -> Plane, size: nat)
    requires ResizesTo(resize, size)
    requires forall i :: 0 <= i < |acts| ==> Conforms(acts[i], GetLayers(network, indices))
    ensures AllExtract(acts, resize, size, NumFeatureMaps(GetLayers(network, indices)))
  {
    forall i | 0 <= i < |acts|
      ensures |Planes(acts[i], resize, size)| == NumFeatureMaps(GetLayers(network, indices))
    {
      PlanesCount(acts[i], GetLayers(network, indices), resize, size);
    }
  }

  /** A matrix whose row `p` holds pixel `(p / size, p % size)` holds
      pixel `(r, c)` in row `r * size + c`. */
  lemma ReshapedPixels(out: array2<real>, hc: array3<real>, size: nat)
    requires hc.Length1 == size && hc.Length2 == size
    requires out.Length0 == size * size && out.Length1 == hc.Length0
    requires forall p, f :: 0 <= p < size * size && 0 <= f < hc.Length0 ==>
               0 < size && p / size < size && out[p, f] == hc[f, p / size, p % size]
    ensures forall r, c :: 0 <= r < size && 0 <= c < size ==> Pixel(r, c, size) < out.Length0
    ensures forall r, c, f :: 0 <= r < size && 0 <= c < size && 0 <= f < hc.Length0 ==>
              out[Pixel(r, c, size), f] == hc[f, r, c]
  {
    forall r, c | 0 <= r < size && 0 <= c < size
      ensures Pixel(r, c, size) < out.Length0
    {
      Raster.PixelRoundTrip(r, c, size);
    }
    forall r, c, f | 0 <= r < size && 0 <= c < size && 0 <= f < hc.Length0
      ensures out[Pixel(r, c, size), f] == hc[f, r, c]
    {
      var p := Pixel(r, c, size);
      Raster.PixelRoundTrip(r, c, size);
      assert out[p, f] == hc[f, p / size, p % size];
    }
  }

  /** The `(F, size, size)` stack turned into a `(size * size, F)` matrix:
      axis order `(size, size, F)` then the two grid axes merged, so row
      `p` is the pixel `(p / size, p % size)`: pixel `(r, c)` lands in
      row `r * size + c`. */
  method TransposeReshape(hc: array3<real>) returns (out: array2<real>)
    requires hc.Length1 == hc.Length2
    ensures fresh(out)
    ensures out.Length0 == hc.Length1 * hc.Length1 && out.Length1 == hc.Length0
    ensures forall r, c :: 0 <= r < hc.Length1 && 0 <= c < hc.Length1 ==> Pixel(r, c, hc.Length1) < out.Length0
    ensures forall r, c, f :: 0 <= r < hc.Length1 && 0 <= c < hc.Length1 && 0 <= f < hc.Length0 ==>
              out[Pixel(r, c, hc.Length1), f] == hc[f, r, c]
  {
    var size := hc.Length1;
    out := new real[size * size, hc.Length0];
    forall p | 0 <= p < size * size
      ensures 0 < size && 0 <= p / size < size && 0 <= p % size < size
    {
      Raster.PixelOf(p, size);
    }
    forall p, f | 0 <= p < size * size && 0 <= f < hc.Length0 {
      out[p, f] := hc[f, p / size, p % size];
    }
    ReshapedPixels(out, hc, size);
  }

  /** The slice assignment `m[start : start + rows] = current`. */
  method WriteRows(m: array2<real>, current: array2<real>, start: nat)
    requires m != current
    requires current.Length1 == m.Length1 && start + current.Length0 <= m.Length0
    modifies m
    ensures forall row, f :: 0 <= row < m.Length0 && 0 <= f < m.Length1 ==>
              m[row, f] == if start <= row < start + current.Length0 then current[row - start, f] else old(m[row, f])
  {
    forall row, f | start <= row < start + current.Length0 && 0 <= f < m.Length1 {
      m[row, f] := current[row - start, f];
    }
  }

  /** The hypercolumns of one image as a `(size * size, F)` matrix: the
      row of pixel `(r, c)` holds, in column `f`, the pixel's value in
      plane `f`. It fails (`ok` false) when the extraction fails. */
  method ImageRows(network: seq<Shape>, indices: seq<int>, a: seq<Activation>,
                   resize: (Plane, nat) -> Plane, size: nat)
    returns (ok: bool, current: array2<real>)
    requires ResizesTo(resize, size)
    ensures fresh(current)
    ensures ok <==> |Planes(a, resize, size)| == NumFeatureMaps(GetLayers(network, indices))
    ensures ok ==> current.Length0 == size * size && current.Length1 == NumFeatureMaps(GetLayers(network, indices))
    ensures ok ==> forall r, c :: 0 <= r < size && 0 <= c < size ==> Pixel(r, c, size) < current.Length0
    ensures ok ==> forall r, c, f :: 0 <= r < size && 0 <= c < size && 0 <= f < current.Length1 ==>
                     current[Pixel(r, c, size), f] == Planes(a, resize, size)[f][r][c]
  {
    var hc;
    ok, hc := ExtractHypercolumns(network, indices, a, resize, size);
    if !ok {
      current := new real[0, 0];
      return;
    }
    current := TransposeReshape(hc);
  }

  /** One step of the aggregation: writes the hypercolumns of one image,
      pixel by pixel, into the `size * size` rows of `m` from `start` on,
      leaving the other rows alone. It fails (`ok` false) when the
      extraction fails, before any write. */
  method StoreImage(m: array2<real>, network: seq<Shape>, indices: seq<int>, a: seq<Activation>,
                    resize: (Plane, nat) -> Plane, size: nat, start: nat)
    returns (ok: bool)
    requires ResizesTo(resize, size)
    requires m.Length1 == NumFeatureMaps(GetLayers(network, indices))
    requires start + size * size <= m.Length0
    modifies m
    ensures ok <==> |Planes(a, resize, size)| == m.Length1
    ensures forall r, c :: 0 <= r < size && 0 <= c < size ==> start + Pixel(r, c, size) < m.Length0
    ensures ok ==> forall r, c, f :: 0 <= r < size && 0 <= c < size && 0 <= f < m.Length1 ==>
                     m[start + Pixel(r, c, size), f] == Planes(a, resize, size)[f][r][c]
    ensures forall row, f :: 0 <= row < m.Length0 && 0 <= f < m.Length1 && !(start <= row < start + size * size) ==>
              m[row, f] == old(m[row, f])
  {
    forall r, c | 0 <= r < size && 0 <= c < size
      ensures start + Pixel(r, c, size) < m.Length0
    {
      Raster.PixelRoundTrip(r, c, size);
    }
    var current;
    ok, current := ImageRows(network, indices, a, resize, size);
    if !ok {
      return;
    }
    WriteRows(m, current, start);
    forall r, c, f | 0 <= r < size && 0 <= c < size && 0 <= f < m.Length1
      ensures m[start + Pixel(r, c, size), f] == Planes(a, resize, size)[f][r][c]
    {
      var row := start + Pixel(r, c, size);
      assert m[row, f] == current[row - start, f];
    }
  }

  /** Builds the matrix of hypercolumns of `|acts|` images of
      `rows x cols` pixels, where `acts[i]` are the activations of image
      `i` at the layers selected by `indices`: the row of pixel `(r, c)`
      of image `i` holds, in column `f`, the pixel's value in plane `f` of
      the image's stack. It fails (`ok` false) when the images are not
      square, or when some extraction fails. */
  method AggregateHypercolumns(network: seq<Shape>, indices: seq<int>, rows: nat, cols: nat,
                               acts: seq<seq<Activation>>, resize: (Plane, nat) -> Plane)
    returns (ok: bool, m: array2<real>)
    requires ResizesTo(resize, rows)
    ensures fresh(m)
    ensures ok <==> rows == cols && AllExtract(acts, resize, rows, NumFeatureMaps(GetLayers(network, indices)))
    ensures ok ==> m.Length0 == ImageStart(|acts|, rows) && m.Length1 == NumFeatureMaps(GetLayers(network, indices))
    ensures ok ==> forall i, r, c :: 0 <= i < |acts| && 0 <= r < rows && 0 <= c < rows ==>
                     ImageStart(i, rows) + Pixel(r, c, rows) < m.Length0
    ensures ok ==> forall i, r, c, f :: 0 <= i < |acts| && 0 <= r < rows && 0 <= c < rows && 0 <= f < m.Length1 ==>
                     m[ImageStart(i, rows) + Pixel(r, c, rows), f] == Planes(acts[i], resize, rows)[f][r][c]
  {
    var layers := GetLayers(network, indices);
    var nFeatureMaps := NumFeatureMaps(layers);
    var size := rows;
    if size != cols {
      ok := false;
      m := new real[0, 0];
      return;
    }
    m := new real[ImageStart(|acts|, size), nFeatureMaps]((row, f) => 0.0);
    forall k, r, c | 0 <= k < |acts| && 0 <= r < size && 0 <= c < size
      ensures ImageStart(k, size) + Pixel(r, c, size) < m.Length0
    {
      PixelInImage(k, r, c, size, |acts|);
    }
    var i := 0;
    while i < |acts|
      invariant 0 <= i <= |acts|
      invariant forall k :: 0 <= k < i ==> |Planes(acts[k], resize, size)| == nFeatureMaps
      invariant forall k, r, c :: 0 <= k < |acts| && 0 <= r < size && 0 <= c < size ==>
                  ImageStart(k, size) + Pixel(r, c, size) < m.Length0
      invariant forall k, r, c, f :: 0 <= k < i && 0 <= r < size && 0 <= c < size && 0 <= f < nFeatureMaps ==>
                  m[ImageStart(k, size) + Pixel(r, c, size), f] == Planes(acts[k], resize, size)[f][r][c]
    {
      var start := ImageStart(i, size);
      ImageBlock(i, size, |acts|);
      var stored := StoreImage(m, network, indices, acts[i], resize, size, start);
      if !stored {
        ok := false;
        return;
      }
      forall k, r, c | 0 <= k < i && 0 <= r < size && 0 <= c < size
        ensures ImageStart(k, size) + Pixel(r, c, size) < start
      {
        PixelInImage(k, r, c, size, i);
      }
      i := i + 1;
    }
    ok := true;
  }
}
