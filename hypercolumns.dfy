/** Assembling the hypercolumn stack of one instance: every feature map
    of every selected layer becomes one `size x size` plane, a spatial map
    through an abstract resize and a dense layer's scalar as a constant
    plane; the planes are stacked in layer order, then channel order,
    into a zero-initialised `(F, size, size)` array. */
module Hypercolumns {
  import opened Layers

  /** A 2-D map, indexed `[row][column]`. */
  type Plane = seq<seq<real>>

  predicate HasShape(p: Plane, height: nat, width: nat) {
    |p| == height && forall r :: 0 <= r < height ==> |p[r]| == width
  }

  predicate IsGrid(p: Plane, size: nat) {
    HasShape(p, size, size)
  }

  /** A layer's activation for one instance: a stack of 2-D maps for a
      convolution or pooling layer, a vector of scalars for a dense
      layer. */
  datatype Activation = Spatial(maps: seq<Plane>) | Flat(values: seq<real>)

  /** Number of planes an activation contributes. */
  function NumMaps(a: Activation): nat {
    match a
    case Spatial(maps) => |maps|
    case Flat(values) => |values|
  }

  /** The activation has the layer's declared output shape. */
  predicate Matches(a: Activation, s: Shape) {
    match s
    case Conv(c, h, w) => a.Spatial? && |a.maps| == c && forall i :: 0 <= i < c ==> HasShape(a.maps[i], h, w)
    case Dense(u) => a.Flat? && |a.values| == u
  }

  /** One activation per selected layer, each of the layer's shape. */
  predicate Conforms(acts: seq<Activation>, layers: seq<Shape>) {
    |acts| == |layers| && forall l :: 0 <= l < |layers| ==> Matches(acts[l], layers[l])
  }

  /** The only thing known of the bilinear resize: it returns a
      `size x size` map, whatever its input. */
  ghost predicate ResizesTo(resize: (Plane, nat) -> Plane, size: nat) {
    forall p :: IsGrid(resize(p, size), size)
  }

  /** The plane of one scalar activation: `v` in every cell. */
  function ConstantPlane(v: real, size: nat): (p: Plane)
    ensures IsGrid(p, size)
    ensures forall r, c :: 0 <= r < size && 0 <= c < size ==> p[r][c] == v
  {
    seq(size, _ => seq(size, _ => v))
  }

  /** Plane `ch` of activation `a`. */
  function PlaneOf(a: Activation, ch: nat, resize: (Plane, nat) -> Plane, size: nat): (p: Plane)
    requires ResizesTo(resize, size) && ch < NumMaps(a)
    ensures IsGrid(p, size)
  {
    match a
    case Spatial(maps) => resize(maps[ch], size)
    case Flat(values) => ConstantPlane(values[ch], size)
  }

  /** The planes of one activation, in channel order. */
  function LayerPlanes(a: Activation, resize: (Plane, nat) -> Plane, size: nat): (ps: seq<Plane>)
    requires ResizesTo(resize, size)
    ensures |ps| == NumMaps(a)
    ensures forall ch :: 0 <= ch < |ps| ==> ps[ch] == PlaneOf(a, ch, resize, size)
  {
    seq(NumMaps(a), ch requires 0 <= ch < NumMaps(a) => PlaneOf(a, ch, resize, size))
  }

  /** The whole hypercolumn stack: the planes of all activations, layer
      after layer. */
  function Planes(acts: seq<Activation>, resize: (Plane, nat) -> Plane, size: nat): (ps: seq<Plane>)
    requires ResizesTo(resize, size)
    ensures forall f :: 0 <= f < |ps| ==> IsGrid(ps[f], size)
  {
    if acts == [] then []
    else Planes(acts[..|acts| - 1], resize, size) + LayerPlanes(acts[|acts| - 1], resize, size)
  }

  /** The stack of concatenated activation lists is the concatenation of
      their stacks. */
  lemma {:induction false} PlanesAppend(a: seq<Activation>, b: seq<Activation>, resize: (Plane, nat) -> Plane, size: nat)
    requires ResizesTo(resize, size)
    ensures Planes(a + b, resize, size) == Planes(a, resize, size) + Planes(b, resize, size)
    decreases |b|
  {
    if b == [] {
      assert a + b == a;
    } else {
      assert (a + b)[..|a + b| - 1] == a + b[..|b| - 1];
      PlanesAppend(a, b[..|b| - 1], resize, size);
    }
  }

  /** When the activations have the selected layers' declared shapes, the
      stack has exactly as many planes as the layers have feature maps,
      so the source's final consistency assertion holds. */
  lemma {:induction false} PlanesCount(acts: seq<Activation>, layers: seq<Shape>, resize: (Plane, nat) -> Plane, size: nat)
    requires ResizesTo(resize, size)
    requires Conforms(acts, layers)
    ensures |Planes(acts, resize, size)| == NumFeatureMaps(layers)
    decreases |acts|
  {
    if acts != [] {
      var n := |acts| - 1;
      assert Conforms(acts[..n], layers[..n]);
      PlanesCount(acts[..n], layers[..n], resize, size);
      assert layers[..n] == layers[..|layers| - 1];
      assert Matches(acts[n], layers[n]);
    }
  }

  /** Plane `ch` of layer `l` sits at depth `offset + ch` of the stack,
      where `offset` counts the planes of the layers before `l`: the
      stack is in layer order, then channel order. A dense layer's plane
      holds its scalar in every cell; a spatial layer's plane is the
      resized map. */
  lemma PlaneAt(acts: seq<Activation>, l: nat, ch: nat, resize: (Plane, nat) -> Plane, size: nat)
    requires ResizesTo(resize, size)
    requires l < |acts| && ch < NumMaps(acts[l])
    ensures |Planes(acts[..l], resize, size)| + ch < |Planes(acts, resize, size)|
    ensures var p := Planes(acts, resize, size)[|Planes(acts[..l], resize, size)| + ch];
            && (acts[l].Spatial? ==> p == resize(acts[l].maps[ch], size))
            && (acts[l].Flat? ==> forall r, c :: 0 <= r < size && 0 <= c < size ==> p[r][c] == acts[l].values[ch])
  {
    var before, rest := acts[..l], acts[l + 1..];
    assert acts == before + [acts[l]] + rest;
    PlanesAppend(before + [acts[l]], rest, resize, size);
    PlanesAppend(before, [acts[l]], resize, size);
    assert Planes([acts[l]], resize, size) == LayerPlanes(acts[l], resize, size) by {
      assert [acts[l]][..0] == [];
    }
  }

  /** The planes of the first `l` layers and the whole of layer `l` are
      a prefix of the stack. */
  lemma PlanesPrefix(acts: seq<Activation>, l: nat, resize: (Plane, nat) -> Plane, size: nat)
    requires ResizesTo(resize, size)
    requires l < |acts|
    ensures Planes(acts[..l + 1], resize, size) == Planes(acts[..l], resize, size) + LayerPlanes(acts[l], resize, size)
    ensures |Planes(acts[..l + 1], resize, size)| <= |Planes(acts, resize, size)|
  {
    assert acts[..l + 1][..l] == acts[..l];
    assert acts == acts[..l + 1] + acts[l + 1..];
    PlanesAppend(acts[..l + 1], acts[l + 1..], resize, size);
  }

  /** Writes the planes of one layer's activation `a` into `hc` from
      depth `start` on, in channel order, and returns the next free depth.
      It fails (`ok` false) as soon as a plane would land at a depth
      beyond the array. Depths below `start` are left alone. */
  method StackLayer(hc: array3<real>, start: nat, a: Activation, resize: (Plane, nat) -> Plane, size: nat)
    returns (ok: bool, count: nat)
    requires ResizesTo(resize, size)
    requires hc.Length1 == size && hc.Length2 == size && start <= hc.Length0
    modifies hc
    ensures ok <==> start + NumMaps(a) <= hc.Length0
    ensures ok ==> count == start + NumMaps(a)
    ensures ok ==> forall f, r, c :: start <= f < count && 0 <= r < size && 0 <= c < size ==>
                     hc[f, r, c] == LayerPlanes(a, resize, size)[f - start][r][c]
    ensures forall f, r, c :: 0 <= f < start && 0 <= r < size && 0 <= c < size ==>
              hc[f, r, c] == old(hc[f, r, c])
    ensures forall f, r, c :: start + NumMaps(a) <= f < hc.Length0 && 0 <= r < size && 0 <= c < size ==>
              hc[f, r, c] == old(hc[f, r, c])
  {
    count := start;
    var ch := 0;
    while ch < NumMaps(a)
      invariant 0 <= ch <= NumMaps(a)
      invariant count == start + ch <= hc.Length0
      invariant forall f, r, c :: start <= f < count && 0 <= r < size && 0 <= c < size ==>
                  hc[f, r, c] == PlaneOf(a, f - start, resize, size)[r][c]
      invariant forall f, r, c :: 0 <= f < start && 0 <= r < size && 0 <= c < size ==>
                  hc[f, r, c] == old(hc[f, r, c])
      invariant forall f, r, c :: count <= f < hc.Length0 && 0 <= r < size && 0 <= c < size ==>
                  hc[f, r, c] == old(hc[f, r, c])
    {
      var resized: Plane;
      if a.Spatial? {
        resized := resize(a.maps[ch], size);
      } else {
        resized := ConstantPlane(a.values[ch], size);
      }
      assert resized == PlaneOf(a, ch, resize, size);
      if count == hc.Length0 {
        // the write at depth F would be out of bounds
        ok := false;
        return;
      }
      forall r, c | 0 <= r < size && 0 <= c < size {
        hc[count, r, c] := resized[r][c];
      }
      count := count + 1;
      ch := ch + 1;
    }
    ok := true;
  }

  /** Builds the `(F, size, size)` hypercolumn stack of one instance from
      the activations `acts` of the layers at `indices`, where `F` is the
      layers' declared number of feature maps. A running counter gives
      the depth of the next plane. The call fails (`ok` false) when the
      activations do not supply exactly `F` planes: with more, the write
      at depth `F` is out of bounds; with fewer, the final check that the
      counter equals `F` fails. */
  method ExtractHypercolumns(network: seq<Shape>, indices: seq<int>, acts: seq<Activation>,
                             resize: (Plane, nat) -> Plane, size: nat)
    returns (ok: bool, hc: array3<real>)
    requires ResizesTo(resize, size)
    ensures fresh(hc)
    ensures hc.Length0 == NumFeatureMaps(GetLayers(network, indices))
    ensures hc.Length1 == size && hc.Length2 == size
    ensures ok <==> |Planes(acts, resize, size)| == hc.Length0
    ensures ok ==> forall f, r, c :: 0 <= f < hc.Length0 && 0 <= r < size && 0 <= c < size ==>
                     hc[f, r, c] == Planes(acts, resize, size)[f][r][c]
  {
    var layers := GetLayers(network, indices);
    var nFeatureMaps := NumFeatureMaps(layers);
    hc := new real[nFeatureMaps, size, size]((f, r, c) => 0.0);
    var count := 0;
    var l := 0;
    while l < |acts|
      invariant 0 <= l <= |acts|
      invariant count == |Planes(acts[..l], resize, size)| <= nFeatureMaps
      invariant forall f, r, c :: 0 <= f < count && 0 <= r < size && 0 <= c < size ==>
                  hc[f, r, c] == Planes(acts[..l], resize, size)[f][r][c]
    {
      PlanesPrefix(acts, l, resize, size);
      var layerOk;
      layerOk, count := StackLayer(hc, count, acts[l], resize, size);
      if !layerOk {
        ok := false;
        return;
      }
      l := l + 1;
    }
    assert acts[..|acts|] == acts;
    ok := count == nFeatureMaps;
  }
}
