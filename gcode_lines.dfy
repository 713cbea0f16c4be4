/**
 * Lines of a G-code file and the layer markers that a slicer writes into them.
 * A line is kept as text including its terminator, exactly as Python's file
 * iteration yields it.
 */
module GcodeLines {

  /** Prefix of every layer-boundary line. */
  const LayerPrefix: string := ";LAYER:"

  /** `line.startswith(";LAYER:")` */
  predicate IsMarker(line: string)
    ensures IsMarker(line) ==> |line| >= |LayerPrefix| && line[..|LayerPrefix|] == LayerPrefix
  {
    LayerPrefix <= line
  }

  predicate NoMarkerLine(s: seq<string>) {
    forall k | 0 <= k < |s| :: !IsMarker(s[k])
  }

  /** Number of layer-boundary lines in `s`. */
  function CountMarkers(s: seq<string>): (n: nat)
    ensures n <= |s|
    ensures n == 0 <==> NoMarkerLine(s)
  {
    if s == [] then 0
    else (if IsMarker(s[0]) then 1 else 0) + CountMarkers(s[1..])
  }

  lemma {:induction false} CountMarkersAppend(a: seq<string>, b: seq<string>)
    ensures CountMarkers(a + b) == CountMarkers(a) + CountMarkers(b)
  {
    if a == [] {
      assert a + b == b;
    } else {
      assert (a + b)[1..] == a[1..] + b;
      CountMarkersAppend(a[1..], b);
    }
  }

  /** A layer block: a marker line followed only by lines that are not markers. */
  predicate IsBlock(block: seq<string>) {
    |block| > 0 && IsMarker(block[0]) && NoMarkerLine(block[1..])
  }

  predicate AllBlocks(layers: seq<seq<string>>) {
    forall k | 0 <= k < |layers| :: IsBlock(layers[k])
  }

  lemma BlockHasOneMarker(block: seq<string>)
    requires IsBlock(block)
    ensures CountMarkers(block) == 1
  {
  }

  /** The lines of all layers, layer after layer (the nested comprehension of the source). */
  function Flatten(layers: seq<seq<string>>): (r: seq<string>)
    ensures |layers| == 1 ==> r == layers[0]
    ensures layers != [] ==> |layers[0]| <= |r|
  {
    if layers == [] then [] else layers[0] + Flatten(layers[1..])
  }

  lemma {:induction false} FlattenAppend(ls: seq<seq<string>>, ms: seq<seq<string>>)
    ensures Flatten(ls + ms) == Flatten(ls) + Flatten(ms)
  {
    if ls == [] {
      assert ls + ms == ms;
    } else {
      assert (ls + ms)[1..] == ls[1..] + ms;
      FlattenAppend(ls[1..], ms);
    }
  }

  lemma {:induction false} FlattenSplit(ls: seq<seq<string>>, t: nat)
    requires t <= |ls|
    ensures Flatten(ls[..t]) + Flatten(ls[t..]) == Flatten(ls)
  {
    assert ls[..t] + ls[t..] == ls;
    FlattenAppend(ls[..t], ls[t..]);
  }

  /** Each block contributes exactly one marker to the flattened lines. */
  lemma {:induction false} FlattenBlocksMarkers(layers: seq<seq<string>>)
    requires AllBlocks(layers)
    ensures CountMarkers(Flatten(layers)) == |layers|
  {
    if layers != [] {
      BlockHasOneMarker(layers[0]);
      FlattenBlocksMarkers(layers[1..]);
      CountMarkersAppend(layers[0], Flatten(layers[1..]));
    }
  }

  /** Python's `layers[:t]` for a non-negative `t`: at most the first `t` layers. */
  function Take(layers: seq<seq<string>>, t: nat): (r: seq<seq<string>>)
    ensures |r| == if t <= |layers| then t else |layers|
    ensures r <= layers
  {
    if t <= |layers| then layers[..t] else layers
  }

  /** Python's `layers[t:]` for a non-negative `t`: the layers from index `t` on. */
  function Drop(layers: seq<seq<string>>, t: nat): (r: seq<seq<string>>)
    ensures |r| == if t <= |layers| then |layers| - t else 0
    ensures Take(layers, t) + r == layers
  {
    if t <= |layers| then layers[t..] else []
  }
}
