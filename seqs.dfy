/** Order-preserving selection over sequences, shared by the record extractors. */
module Seqs {
  import opened Wrappers

  /** The values g yields on xs, in the order of xs, skipping the elements g rejects. */
  function FilterMap<S, T>(xs: seq<S>, g: S -> Option<T>): (r: seq<T>)
    ensures |r| <= |xs|
  {
    if |xs| == 0 then []
    else
      var last := g(xs[|xs| - 1]);
      FilterMap(xs[..|xs| - 1], g) + (if last.Some? then [last.value] else [])
  }

  /** One more element at the end contributes its own value only. */
  lemma FilterMapSnoc<S, T>(xs: seq<S>, x: S, g: S -> Option<T>)
    ensures FilterMap(xs + [x], g) == FilterMap(xs, g) + (if g(x).Some? then [g(x).value] else [])
  {
    assert (xs + [x])[..|xs|] == xs;
  }

  /** Selection distributes over concatenation: the order of the input is kept. */
  lemma {:induction false} FilterMapAppend<S, T>(a: seq<S>, b: seq<S>, g: S -> Option<T>)
    ensures FilterMap(a + b, g) == FilterMap(a, g) + FilterMap(b, g)
  {
    if |b| == 0 {
      assert a + b == a;
    } else {
      var b', x := b[..|b| - 1], b[|b| - 1];
      assert a + b == (a + b') + [x];
      assert b == b' + [x];
      FilterMapSnoc(a + b', x, g);
      FilterMapSnoc(b', x, g);
      FilterMapAppend(a, b', g);
    }
  }

  /** Every selected value is what g yields on some element of the input. */
  lemma {:induction false} FilterMapFrom<S, T>(xs: seq<S>, g: S -> Option<T>, k: int)
    requires 0 <= k < |FilterMap(xs, g)|
    ensures exists i :: 0 <= i < |xs| && g(xs[i]) == Some(FilterMap(xs, g)[k])
  {
    var init := xs[..|xs| - 1];
    var last := g(xs[|xs| - 1]);
    if k < |FilterMap(init, g)| {
      FilterMapFrom(init, g, k);
      var i :| 0 <= i < |init| && g(init[i]) == Some(FilterMap(init, g)[k]);
      assert xs[i] == init[i];
    } else {
      assert g(xs[|xs| - 1]) == Some(FilterMap(xs, g)[k]);
    }
  }

  /** Every element g accepts contributes, so nothing accepted is lost. */
  lemma {:induction false} FilterMapCount<S, T>(xs: seq<S>, g: S -> Option<T>)
    ensures (forall i :: 0 <= i < |xs| ==> g(xs[i]).Some?) ==> |FilterMap(xs, g)| == |xs|
    ensures (forall i :: 0 <= i < |xs| ==> g(xs[i]).None?) ==> FilterMap(xs, g) == []
  {
    if |xs| > 0 {
      var init := xs[..|xs| - 1];
      FilterMapCount(init, g);
      if forall i :: 0 <= i < |xs| ==> g(xs[i]).Some? {
        assert forall i :: 0 <= i < |init| ==> g(init[i]).Some? by {
          forall i | 0 <= i < |init| ensures g(init[i]).Some? {
            assert init[i] == xs[i];
          }
        }
      }
      if forall i :: 0 <= i < |xs| ==> g(xs[i]).None? {
        assert forall i :: 0 <= i < |init| ==> g(init[i]).None? by {
          forall i | 0 <= i < |init| ensures g(init[i]).None? {
            assert init[i] == xs[i];
          }
        }
      }
    }
  }
}
