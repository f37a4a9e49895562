/**
 * The layer stack (src/LayerStack.cpp): an ordered list of layers, pushed at
 * the end and popped by identity, whose remaining layers are detached in
 * insertion order when the stack is destroyed. Layers are compared by
 * identity, as the source compares pointers; each operation returns the
 * layers it called `OnDetach` on, in call order.
 */
module LayerStacks {
  import opened Common

  datatype LayerStack<L> = LayerStack(layers: seq<L>)

  /** A default-constructed stack is empty. */
  function EmptyStack<L>(): LayerStack<L>
  {
    LayerStack([])
  }

  /** `PushLayer`: the layer goes last and every earlier entry stays where it was; nothing is detached. */
  function PushLayer<L>(s: LayerStack<L>, layer: L): (r: LayerStack<L>)
    ensures |r.layers| == |s.layers| + 1
    ensures r.layers[..|s.layers|] == s.layers && r.layers[|s.layers|] == layer
  {
    LayerStack(s.layers + [layer])
  }

  /** `std::find`: the position of the first occurrence, or none. */
  function Find<L(==)>(xs: seq<L>, x: L): (r: Option<nat>)
    ensures r.None? <==> x !in xs
    ensures r.Some? ==> r.value < |xs| && xs[r.value] == x && x !in xs[..r.value]
  {
    if |xs| == 0 then None
    else if xs[0] == x then Some(0)
    else match Find(xs[1..], x)
      case None => None
      case Some(i) =>
        assert xs[..i + 1] == [xs[0]] + xs[1..][..i];
        Some(i + 1)
  }

  /**
   * `PopLayer`: the stack afterwards and the layers detached. A present
   * layer has its first occurrence erased, the others keeping their order,
   * and is detached once (it is not destroyed); an absent layer changes
   * nothing and detaches nothing.
   */
  function PopLayer<L(==)>(s: LayerStack<L>, layer: L): (r: (LayerStack<L>, seq<L>))
    ensures layer !in s.layers ==> r == (s, [])
    ensures layer in s.layers ==> r.1 == [layer] && |r.0.layers| == |s.layers| - 1
    ensures layer in s.layers ==> exists i :: (0 <= i < |s.layers| && s.layers[i] == layer && layer !in s.layers[..i]
      && r.0.layers == s.layers[..i] + s.layers[i + 1..])
    ensures multiset(r.0.layers) + multiset(r.1) == multiset(s.layers)
  {
    match Find(s.layers, layer)
    case None => (s, [])
    case Some(i) =>
      assert s.layers == s.layers[..i] + [s.layers[i]] + s.layers[i + 1..];
      (LayerStack(s.layers[..i] + s.layers[i + 1..]), [layer])
  }

  /** The destructor: every remaining layer is detached, first pushed first. */
  function Destroy<L>(s: LayerStack<L>): (detached: seq<L>)
    ensures |detached| == |s.layers|
    ensures forall i :: 0 <= i < |detached| ==> detached[i] == s.layers[i]
  {
    s.layers
  }

  /** Pushing a run of layers one by one. */
  function PushAll<L>(s: LayerStack<L>, layers: seq<L>): LayerStack<L>
    decreases |layers|
  {
    if |layers| == 0 then s else PushAll(PushLayer(s, layers[0]), layers[1..])
  }

  /** Pushing a run appends it, in order. */
  lemma {:induction false} PushAllAppends<L>(s: LayerStack<L>, layers: seq<L>)
    ensures PushAll(s, layers).layers == s.layers + layers
    decreases |layers|
  {
    if |layers| > 0 {
      PushAllAppends(PushLayer(s, layers[0]), layers[1..]);
      assert s.layers + [layers[0]] + layers[1..] == s.layers + layers;
    }
  }

  /** Destroying a stack built by pushes detaches the layers in the order they were pushed. */
  lemma DestroyDetachesInPushOrder<L>(layers: seq<L>)
    ensures Destroy(PushAll(EmptyStack(), layers)) == layers
  {
    PushAllAppends(EmptyStack(), layers);
  }

  /** `Find` reports a position whose entry is the first occurrence. */
  lemma {:induction false} FindReportsFirst<L>(xs: seq<L>, x: L, i: nat)
    requires i < |xs| && xs[i] == x && x !in xs[..i]
    ensures Find(xs, x) == Some(i)
  {
    if i > 0 {
      assert xs[0] == xs[..i][0];
      assert xs[1..][..i - 1] == xs[..i][1..];
      FindReportsFirst(xs[1..], x, i - 1);
    }
  }

  /** Popping a layer just pushed onto a stack that did not hold it restores the stack and detaches it. */
  lemma PushThenPopRestores<L>(s: LayerStack<L>, layer: L)
    requires layer !in s.layers
    ensures PopLayer(PushLayer(s, layer), layer) == (s, [layer])
  {
    var pushed := PushLayer(s, layer).layers;
    assert pushed[..|s.layers|] == s.layers;
    FindReportsFirst(pushed, layer, |s.layers|);
    assert pushed[..|s.layers|] + pushed[|s.layers| + 1..] == s.layers;
  }

  /** A layer pushed twice survives one pop: only its earlier entry goes. */
  lemma PopOfTwicePushedLayerKeepsOne<L>(s: LayerStack<L>, layer: L)
    requires layer !in s.layers
    ensures var twice := PushLayer(PushLayer(s, layer), layer);
      PopLayer(twice, layer) == (PushLayer(s, layer), [layer])
  {
    var twice := PushLayer(PushLayer(s, layer), layer).layers;
    var n := |s.layers|;
    assert twice == s.layers + [layer, layer];
    assert twice[..n] == s.layers;
    FindReportsFirst(twice, layer, n);
    assert twice[..n] + twice[n + 1..] == s.layers + [layer];
  }
}
