/** Selecting layers of the network by position and counting the
    feature maps they produce. A layer is represented by its declared
    output shape; the network is the list of its layers in order, input
    layer first. */
module Layers {

  /** A layer's output shape without the batch axis: a stack of
      `channels` maps of `height x width`, or a flat vector of `units`. */
  datatype Shape = Conv(channels: nat, height: nat, width: nat) | Dense(units: nat)

  /** The second entry of the layer's output shape (after the batch
      axis): its number of feature maps. */
  function Channels(s: Shape): nat {
    match s
    case Conv(c, _, _) => c
    case Dense(u) => u
  }

  /** The layers at positions `from..` whose position is listed in
      `indices`, in network order. */
  function SelectFrom<L>(network: seq<L>, indices: seq<int>, from: nat): (r: seq<L>)
    requires from <= |network|
    ensures |r| <= |network| - from
    decreases |network| - from
  {
    if from == |network| then []
    else (if from as int in indices then [network[from]] else []) + SelectFrom(network, indices, from + 1)
  }

  /** The layers whose position in the network is one of `indices`. */
  function GetLayers<L>(network: seq<L>, indices: seq<int>): (r: seq<L>)
    ensures |r| <= |network|
  {
    SelectFrom(network, indices, 0)
  }

  /** The total number of feature maps of the given layers. */
  function NumFeatureMaps(layers: seq<Shape>): (n: nat)
    ensures forall i :: 0 <= i < |layers| ==> Channels(layers[i]) <= n
    ensures n == 0 <==> forall i :: 0 <= i < |layers| ==> Channels(layers[i]) == 0
  {
    if layers == [] then 0 else NumFeatureMaps(layers[..|layers| - 1]) + Channels(layers[|layers| - 1])
  }

  predicate StrictlyIncreasing(ps: seq<nat>) {
    forall i, j :: 0 <= i < j < |ps| ==> ps[i] < ps[j]
  }

  /** The positions `from..` selected by `indices`, ascending, together
      with the proof that `SelectFrom` yields exactly the layers at them. */
  lemma {:induction false} SelectFromPositions<L>(network: seq<L>, indices: seq<int>, from: nat) returns (ps: seq<nat>)
    requires from <= |network|
    ensures |ps| == |SelectFrom(network, indices, from)|
    ensures StrictlyIncreasing(ps)
    ensures forall i :: 0 <= i < |ps| ==> from <= ps[i] < |network| && ps[i] as int in indices
    ensures forall i :: 0 <= i < |ps| ==> SelectFrom(network, indices, from)[i] == network[ps[i]]
    ensures forall p :: from <= p < |network| && p as int in indices ==> p in ps
    decreases |network| - from
  {
    if from == |network| {
      ps := [];
    } else {
      var rest := SelectFromPositions(network, indices, from + 1);
      var tail := SelectFrom(network, indices, from + 1);
      if from as int in indices {
        ps := [from] + rest;
        assert SelectFrom(network, indices, from) == [network[from]] + tail;
        forall i | 0 <= i < |ps|
          ensures SelectFrom(network, indices, from)[i] == network[ps[i]]
        {
          if i > 0 { assert ps[i] == rest[i - 1]; }
        }
        forall p | from <= p < |network| && p as int in indices
          ensures p in ps
        {
          if p > from { assert p in rest; }
        }
      } else {
        ps := rest;
        assert SelectFrom(network, indices, from) == tail;
      }
    }
  }

  /** `GetLayers` keeps exactly the layers at the selected positions, in
      network order: there are ascending positions `ps`, each listed in
      `indices`, holding the selected layers one to one, and every valid
      position listed in `indices` is among them. */
  lemma GetLayersPositions<L>(network: seq<L>, indices: seq<int>) returns (ps: seq<nat>)
    ensures |ps| == |GetLayers(network, indices)|
    ensures StrictlyIncreasing(ps)
    ensures forall i :: 0 <= i < |ps| ==> ps[i] < |network| && ps[i] as int in indices
    ensures forall i :: 0 <= i < |ps| ==> GetLayers(network, indices)[i] == network[ps[i]]
    ensures forall p :: 0 <= p < |network| && p as int in indices ==> p in ps
  {
    ps := SelectFromPositions(network, indices, 0);
  }

  /** Only the set of listed positions matters: their order, repetitions
      and out-of-range entries have no effect on the result. */
  lemma {:induction false} SelectIgnoresIndexOrder<L>(network: seq<L>, a: seq<int>, b: seq<int>, from: nat)
    requires from <= |network|
    requires forall p :: 0 <= p < |network| ==> (p in a <==> p in b)
    ensures SelectFrom(network, a, from) == SelectFrom(network, b, from)
    decreases |network| - from
  {
    if from < |network| {
      SelectIgnoresIndexOrder(network, a, b, from + 1);
    }
  }

  lemma GetLayersIgnoresIndexOrder<L>(network: seq<L>, a: seq<int>, b: seq<int>)
    requires forall p :: 0 <= p < |network| ==> (p in a <==> p in b)
    ensures GetLayers(network, a) == GetLayers(network, b)
  {
    SelectIgnoresIndexOrder(network, a, b, 0);
  }

  /** The feature-map count adds up over concatenated layer lists. */
  lemma {:induction false} NumFeatureMapsAppend(a: seq<Shape>, b: seq<Shape>)
    ensures NumFeatureMaps(a + b) == NumFeatureMaps(a) + NumFeatureMaps(b)
    decreases |b|
  {
    if b != [] {
      assert (a + b)[..|a + b| - 1] == a + b[..|b| - 1];
      NumFeatureMapsAppend(a, b[..|b| - 1]);
    } else {
      assert a + b == a;
    }
  }
}
