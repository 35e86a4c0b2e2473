/** The two list shapes the gatherers produce, `xs.filter(keep).map(f)` and
    `xs.map(f)` with a callback that may throw, and their order facts, stated
    once for any element type. */
module Lists {
  import opened Wrappers

  /** `xs.filter(keep).map(f)`. */
  function FilterMap<A, B>(xs: seq<A>, keep: A -> bool, f: A -> B): (ys: seq<B>)
    ensures |ys| <= |xs|
  {
    if xs == [] then []
    else if keep(xs[0]) then [f(xs[0])] + FilterMap(xs[1..], keep, f)
    else FilterMap(xs[1..], keep, f)
  }

  lemma {:induction false} FilterMapAppend<A, B>(xs: seq<A>, zs: seq<A>, keep: A -> bool, f: A -> B)
    ensures FilterMap(xs + zs, keep, f) == FilterMap(xs, keep, f) + FilterMap(zs, keep, f)
  {
    if xs == [] {
      assert xs + zs == zs;
    } else {
      assert (xs + zs)[1..] == xs[1..] + zs;
      assert (xs + zs)[0] == xs[0];
      FilterMapAppend(xs[1..], zs, keep, f);
    }
  }

  /** `positions` lists indices below `n` in strictly increasing order. */
  predicate Increasing(positions: seq<nat>, n: nat) {
    && (forall k :: 0 <= k < |positions| ==> positions[k] < n)
    && (forall k, l :: 0 <= k < l < |positions| ==> positions[k] < positions[l])
  }

  /** `positions` holds exactly the indices of the elements `keep` accepts. */
  predicate SelectsKept<A>(positions: seq<nat>, xs: seq<A>, keep: A -> bool) {
    forall i :: 0 <= i < |xs| ==> (i in positions <==> keep(xs[i]))
  }

  /** Element `k` of `ys` is the image of `xs[positions[k]]`. */
  ghost predicate ImagesAt<A, B>(ys: seq<B>, positions: seq<nat>, xs: seq<A>, f: A -> B)
    requires Increasing(positions, |xs|)
  {
    |ys| == |positions| && forall k :: 0 <= k < |positions| ==> ys[k] == f(xs[positions[k]])
  }

  /** Every position moved up by one. */
  function ShiftUp(tail: seq<nat>): (shifted: seq<nat>)
    ensures |shifted| == |tail|
    ensures forall k :: 0 <= k < |tail| ==> shifted[k] == tail[k] + 1
  {
    seq(|tail|, k requires 0 <= k < |tail| => tail[k] + 1)
  }

  /** Positions into `xs[1..]`, moved up by one, are positions into `xs`
      that select the same elements. */
  lemma Shift<A, B>(xs: seq<A>, tail: seq<nat>, keep: A -> bool, f: A -> B) returns (shifted: seq<nat>)
    requires xs != []
    requires Increasing(tail, |xs| - 1)
    requires SelectsKept(tail, xs[1..], keep)
    requires ImagesAt(FilterMap(xs[1..], keep, f), tail, xs[1..], f)
    ensures Increasing(shifted, |xs|)
    ensures 0 !in shifted
    ensures forall i :: 1 <= i < |xs| ==> (i in shifted <==> keep(xs[i]))
    ensures ImagesAt(FilterMap(xs[1..], keep, f), shifted, xs, f)
  {
    shifted := ShiftUp(tail);
    forall i | 1 <= i < |xs|
      ensures i in shifted <==> keep(xs[i])
    {
      assert xs[1..][i - 1] == xs[i];
      if i in shifted {
        var k :| 0 <= k < |shifted| && shifted[k] == i;
        assert tail[k] == i - 1;
      }
      if keep(xs[i]) {
        assert i - 1 in tail;
        var k :| 0 <= k < |tail| && tail[k] == i - 1;
        assert shifted[k] == i;
      }
    }
    ShiftImages(xs, tail, shifted, keep, f);
  }

  lemma ShiftImages<A, B>(xs: seq<A>, tail: seq<nat>, shifted: seq<nat>, keep: A -> bool, f: A -> B)
    requires xs != []
    requires Increasing(tail, |xs| - 1)
    requires shifted == ShiftUp(tail)
    requires ImagesAt(FilterMap(xs[1..], keep, f), tail, xs[1..], f)
    ensures Increasing(shifted, |xs|)
    ensures ImagesAt(FilterMap(xs[1..], keep, f), shifted, xs, f)
  {
    forall k | 0 <= k < |shifted|
      ensures FilterMap(xs[1..], keep, f)[k] == f(xs[shifted[k]])
    {
      assert xs[1..][tail[k]] == xs[shifted[k]];
    }
  }

  /** Puts index 0 in front of positions that all lie after it. */
  lemma Cons(n: nat, shifted: seq<nat>) returns (positions: seq<nat>)
    requires 0 < n
    requires Increasing(shifted, n)
    requires 0 !in shifted
    ensures positions == [0] + shifted
    ensures Increasing(positions, n)
  {
    positions := [0] + shifted;
    forall k, l | 0 <= k < l < |positions|
      ensures positions[k] < positions[l]
    {
      assert positions[l] == shifted[l - 1];
      if k > 0 {
        assert positions[k] == shifted[k - 1];
      }
    }
  }

  /** When the first element is kept, its index goes in front of the
      positions selected in the rest. */
  lemma PrependKept<A, B>(xs: seq<A>, shifted: seq<nat>, keep: A -> bool, f: A -> B) returns (positions: seq<nat>)
    requires xs != [] && keep(xs[0])
    requires Increasing(shifted, |xs|)
    requires 0 !in shifted
    requires forall i :: 1 <= i < |xs| ==> (i in shifted <==> keep(xs[i]))
    requires ImagesAt(FilterMap(xs[1..], keep, f), shifted, xs, f)
    ensures Increasing(positions, |xs|)
    ensures SelectsKept(positions, xs, keep)
    ensures ImagesAt(FilterMap(xs, keep, f), positions, xs, f)
  {
    positions := Cons(|xs|, shifted);
    var rest := FilterMap(xs[1..], keep, f);
    var ys := FilterMap(xs, keep, f);
    assert ys == [f(xs[0])] + rest;
    forall k | 0 <= k < |positions|
      ensures ys[k] == f(xs[positions[k]])
    {
      if k > 0 {
        assert ys[k] == rest[k - 1];
        assert positions[k] == shifted[k - 1];
      }
    }
    forall i | 0 <= i < |xs|
      ensures i in positions <==> keep(xs[i])
    {
      assert i in positions <==> i == 0 || i in shifted;
    }
  }

  /** When the first element is dropped, the positions selected in the rest
      are the positions for the whole list. */
  lemma SkipDropped<A, B>(xs: seq<A>, shifted: seq<nat>, keep: A -> bool, f: A -> B)
    requires xs != [] && !keep(xs[0])
    requires Increasing(shifted, |xs|)
    requires 0 !in shifted
    requires forall i :: 1 <= i < |xs| ==> (i in shifted <==> keep(xs[i]))
    requires ImagesAt(FilterMap(xs[1..], keep, f), shifted, xs, f)
    ensures SelectsKept(shifted, xs, keep)
    ensures ImagesAt(FilterMap(xs, keep, f), shifted, xs, f)
  {
    assert FilterMap(xs, keep, f) == FilterMap(xs[1..], keep, f);
  }

  /** The output of `FilterMap` is an order-preserving subsequence: strictly
      increasing `positions` select exactly the kept elements, and output `k`
      is the image of the element at `positions[k]`. */
  lemma {:induction false} FilterMapSubsequence<A, B>(xs: seq<A>, keep: A -> bool, f: A -> B)
    returns (positions: seq<nat>)
    ensures Increasing(positions, |xs|)
    ensures SelectsKept(positions, xs, keep)
    ensures ImagesAt(FilterMap(xs, keep, f), positions, xs, f)
  {
    if xs == [] {
      positions := [];
    } else {
      var tail := FilterMapSubsequence(xs[1..], keep, f);
      var shifted := Shift(xs, tail, keep, f);
      if keep(xs[0]) {
        positions := PrependKept(xs, shifted, keep, f);
      } else {
        SkipDropped(xs, shifted, keep, f);
        positions := shifted;
      }
    }
  }

  /** `xs.map(f)` where `f` may throw: the first throw aborts the whole map,
      so a failure is the failure of the first element whose callback throws. */
  function TryMap<A, B, E>(xs: seq<A>, f: A -> Result<B, E>): (r: Result<seq<B>, E>)
    ensures r.Success? <==> forall i :: 0 <= i < |xs| ==> f(xs[i]).Success?
    ensures r.Success? ==> |r.value| == |xs|
    ensures r.Success? ==> forall i :: 0 <= i < |xs| ==> f(xs[i]) == Success(r.value[i])
    ensures r.Failure? ==> exists i :: 0 <= i < |xs| && f(xs[i]) == Failure(r.error)
                                    && forall j :: 0 <= j < i ==> f(xs[j]).Success?
  {
    if xs == [] then Success([])
    else
      match f(xs[0])
      case Failure(e) => Failure(e)
      case Success(y) =>
        var rest := TryMap(xs[1..], f);
        assert forall i :: 1 <= i < |xs| ==> xs[i] == xs[1..][i - 1];
        match rest
        case Failure(e) => Failure(e)
        case Success(ys) => Success([y] + ys)
  }

  /** A successful map is the first image followed by the map of the rest. */
  lemma TryMapCons<A, B, E>(xs: seq<A>, f: A -> Result<B, E>)
    requires xs != []
    ensures TryMap(xs, f).Success? <==> f(xs[0]).Success? && TryMap(xs[1..], f).Success?
    ensures TryMap(xs, f).Success? ==> TryMap(xs, f).value == [f(xs[0]).value] + TryMap(xs[1..], f).value
  {
  }

  lemma ConsAssociates<T>(y: T, xs: seq<T>, zs: seq<T>)
    ensures [y] + (xs + zs) == ([y] + xs) + zs
  {
  }

  /** Mapping consecutive runs that both succeed concatenates their results. */
  lemma {:induction false} TryMapAppend<A, B, E>(xs: seq<A>, zs: seq<A>, f: A -> Result<B, E>)
    requires TryMap(xs, f).Success? && TryMap(zs, f).Success?
    ensures TryMap(xs + zs, f) == Success(TryMap(xs, f).value + TryMap(zs, f).value)
  {
    if xs == [] {
      assert xs + zs == zs;
      assert TryMap(xs, f).value == [];
      assert TryMap(xs, f).value + TryMap(zs, f).value == TryMap(zs, f).value;
    } else {
      var xz := xs + zs;
      assert xz[1..] == xs[1..] + zs;
      assert xz[0] == xs[0];
      TryMapCons(xs, f);
      TryMapAppend(xs[1..], zs, f);
      TryMapCons(xz, f);
      ConsAssociates(f(xs[0]).value, TryMap(xs[1..], f).value, TryMap(zs, f).value);
    }
  }
}
