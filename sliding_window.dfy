/**
 * The two bounded FIFO windows of the service (`svmList` and `deltaList`,
 * both `ArrayDeque<Double>`): a value is appended at the tail, and when the
 * window has grown past its capacity the head is removed.
 */
module SlidingWindow {

  function Min(a: nat, b: nat): nat
  {
    if a <= b then a else b
  }

  /** The last `n` values of `s` (all of `s` when it is shorter), in order. */
  function LastN(s: seq<real>, n: nat): (r: seq<real>)
    ensures |r| == Min(|s|, n)

  {
    if |s| <= n then s else s[|s| - n..]
  }

  /** One push: `add` at the tail, then at most one `removeFirst` when over capacity. */
  function Push(w: seq<real>, v: real, capacity: nat): (r: seq<real>)
    requires |w| <= capacity
    ensures |r| <= capacity
    ensures |w| < capacity ==> r == w + [v]
    ensures capacity > 0 && |w| == capacity ==> |r| == capacity && r == w[1..] + [v]
  {
    var added := w + [v];
    if |added| > capacity then added[1..] else added
  }

  /** The window reached by pushing `vs` one by one, from left to right, into `w`. */
  function PushAll(w: seq<real>, vs: seq<real>, capacity: nat): (r: seq<real>)
    requires |w| <= capacity
    ensures |r| <= capacity
  {
    if vs == [] then w
    else Push(PushAll(w, vs[..|vs| - 1], capacity), vs[|vs| - 1], capacity)
  }

  /** Pushing onto the last `capacity` values of a stream gives the last `capacity` values of the longer stream. */
  lemma PushKeepsSuffix(s: seq<real>, v: real, capacity: nat)
    ensures Push(LastN(s, capacity), v, capacity) == LastN(s + [v], capacity)
  {
  }

  /** FIFO eviction: an empty window fed a stream holds exactly the stream's last `capacity` values. */
  lemma {:induction false} PushAllIsSuffix(vs: seq<real>, capacity: nat)
    ensures PushAll([], vs, capacity) == LastN(vs, capacity)
  {
    if vs != [] {
      var init := vs[..|vs| - 1];
      PushAllIsSuffix(init, capacity);
      PushKeepsSuffix(init, vs[|vs| - 1], capacity);
      assert init + [vs[|vs| - 1]] == vs;
    }
  }

  /**
   * After pushing v1..v(capacity+k), the window holds v(k+1)..v(capacity+k) in
   * arrival order; before the window first fills it holds everything pushed.
   */
  lemma FifoEviction(vs: seq<real>, capacity: nat)
    ensures |vs| <= capacity ==> PushAll([], vs, capacity) == vs
    ensures |vs| >= capacity ==> PushAll([], vs, capacity) == vs[|vs| - capacity..]
    ensures |PushAll([], vs, capacity)| == Min(|vs|, capacity)
  {
    PushAllIsSuffix(vs, capacity);
  }
}
