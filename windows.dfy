/**
 * The sliding-window algebra behind the three `collections.deque` buffers of
 * Geiger_2.0.py: a window of fixed length that starts as zeros and, on every
 * push, loses its oldest (leftmost) element and gains a new rightmost one.
 */
module Windows {

  /** The cold-start window: `n` literal zeros (`deque(np.zeros(x_len))`). */
  function Zeros(n: nat): (z: seq<real>)
    ensures |z| == n
    ensures forall i :: 0 <= i < n ==> z[i] == 0.0
  {
    seq(n, _ => 0.0)
  }

  /** One `popleft` followed by one `append`. */
  function Shift(w: seq<real>, x: real): (r: seq<real>)
    requires |w| >= 1
    ensures |r| == |w|
    ensures r[|r| - 1] == x
    ensures forall i :: 0 <= i < |w| - 1 ==> r[i] == w[i + 1]
  {
    w[1..] + [x]
  }

  /** The window after pushing every element of `xs`, first to last. */
  function PushAll(w: seq<real>, xs: seq<real>): (r: seq<real>)
    requires |w| >= 1
    ensures |r| == |w|
    decreases |xs|
  {
    if xs == [] then w else Shift(PushAll(w, xs[..|xs| - 1]), xs[|xs| - 1])
  }

  /** Pushing one more element is one more shift of the window. */
  lemma PushAllSnoc(w: seq<real>, xs: seq<real>, x: real)
    requires |w| >= 1
    ensures PushAll(w, xs + [x]) == Shift(PushAll(w, xs), x)
  {
    assert (xs + [x])[..|xs|] == xs;
  }

  /** After any number of pushes the window is the last |w| elements of the whole stream. */
  lemma {:induction false} PushAllIsSuffix(w: seq<real>, xs: seq<real>)
    requires |w| >= 1
    ensures PushAll(w, xs) == (w + xs)[|xs|..]
    decreases |xs|
  {
    if xs != [] {
      var init, x := xs[..|xs| - 1], xs[|xs| - 1];
      PushAllIsSuffix(w, init);
      assert xs == init + [x];
      assert w + xs == (w + init) + [x];
      calc {
        PushAll(w, xs);
        Shift((w + init)[|init|..], x);
        (w + init)[|init|..][1..] + [x];
        (w + init)[|init| + 1..] + [x];
        ((w + init) + [x])[|init| + 1..];
      }
    }
  }

  /** Entry `i` of the window is the stream element of tick `|xs| + i - |w|`, or a cold-start entry. */
  lemma PushAllAt(w: seq<real>, xs: seq<real>, i: int)
    requires |w| >= 1 && 0 <= i < |w|
    ensures PushAll(w, xs)[i] == if |xs| + i < |w| then w[|xs| + i] else xs[|xs| + i - |w|]
  {
    PushAllIsSuffix(w, xs);
  }

  /** Once at least |w| elements were pushed, nothing of the starting window is left. */
  lemma PushAllFullWindow(w: seq<real>, xs: seq<real>)
    requires |w| >= 1 && |xs| >= |w|
    ensures PushAll(w, xs) == xs[|xs| - |w|..]
  {
    PushAllIsSuffix(w, xs);
    assert (w + xs)[|xs|..] == xs[|xs| - |w|..];
  }

  /** Feeding the same value at least |w| times leaves a window holding only that value. */
  lemma RepeatedValueFillsWindow(w: seq<real>, xs: seq<real>, x: real, k: nat)
    requires |w| >= 1 && k >= |w|
    ensures PushAll(w, xs + seq(k, _ => x)) == seq(|w|, _ => x)
  {
    var stream := xs + seq(k, _ => x);
    PushAllFullWindow(w, stream);
  }
}
