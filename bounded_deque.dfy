/**
 * `collections.deque(maxlen=m).append(x)`: the new element goes on the right and,
 * when the deque would exceed `m` elements, elements fall off the left (the oldest).
 * Used by the frame pool and by both capture workers' diagnostic frame rings.
 */
module BoundedDeque {

  /** The last `min(m, |t|)` elements of `t`. */
  function Window<T>(t: seq<T>, m: nat): (r: seq<T>)
    ensures |r| <= m && |r| <= |t|
  {
    if |t| <= m then t else t[|t| - m..]
  }

  /** Contents after `append(x)` on a deque with contents `s` and `maxlen == m`. */
  function Append<T>(s: seq<T>, x: T, m: nat): (r: seq<T>)
    requires |s| <= m
    ensures |r| <= m
    ensures |s| < m ==> r == s + [x]
    ensures |s| == m && m > 0 ==> r == s[1..] + [x]
    ensures m == 0 ==> r == []
  {
    Window(s + [x], m)
  }

  /** Trimming before an append does not change what the window keeps afterwards. */
  lemma WindowAppend<T>(t: seq<T>, x: T, m: nat)
    ensures Window(Window(t, m) + [x], m) == Window(t + [x], m)
  {
    if |t| > m {
      var w := t[|t| - m..];
      assert w + [x] == (t + [x])[|t| - m..];
      if m > 0 {
        assert (w + [x])[1..] == (t + [x])[|t| + 1 - m..];
      }
    }
  }

  /** Contents after appending every element of `xs` in turn. */
  function AppendAll<T>(s: seq<T>, xs: seq<T>, m: nat): (r: seq<T>)
    requires |s| <= m
    ensures |r| <= m
    decreases |xs|
  {
    if xs == [] then s else AppendAll(Append(s, xs[0], m), xs[1..], m)
  }

  /**
   * The deque is a sliding window: after any number of appends it holds exactly
   * the last `m` of everything ever appended (or all of it, if fewer).
   */
  lemma {:induction false} AppendAllIsWindow<T>(s: seq<T>, xs: seq<T>, m: nat)
    requires |s| <= m
    ensures AppendAll(s, xs, m) == Window(s + xs, m)
    decreases |xs|
  {
    if xs == [] {
      assert s + xs == s;
    } else {
      var s' := Append(s, xs[0], m);
      AppendAllIsWindow(s', xs[1..], m);
      // s' is the window of s + [xs[0]]; windowing commutes with the remaining appends.
      WindowOfConcat(s + [xs[0]], xs[1..], m);
      assert s + [xs[0]] + xs[1..] == s + xs;
    }
  }

  /** Windowing a prefix first and then appending a block gives the window of the whole. */
  lemma {:induction false} WindowOfConcat<T>(t: seq<T>, ys: seq<T>, m: nat)
    ensures Window(Window(t, m) + ys, m) == Window(t + ys, m)
    decreases |ys|
  {
    if ys == [] {
      assert Window(t, m) + ys == Window(t, m);
      assert t + ys == t;
      assert Window(Window(t, m), m) == Window(t, m);
    } else {
      var init := ys[..|ys| - 1];
      var last := ys[|ys| - 1];
      assert ys == init + [last];
      WindowOfConcat(t, init, m);
      WindowAppend(Window(t, m) + init, last, m);
      WindowAppend(t + init, last, m);
      assert Window(t, m) + ys == (Window(t, m) + init) + [last];
      assert t + ys == (t + init) + [last];
    }
  }
}
