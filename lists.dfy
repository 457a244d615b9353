/**
 * The list-building idiom the monitors use three times: walk a slice in
 * order, skip the elements a check rejects (`continue`), and `append` a
 * value built from each element that is kept. `Collect` is the
 * specification of such a loop; its lemmas say that the result is an
 * order-preserving selection of the input.
 */
module Lists {
  import opened Wrappers

  /** The values `pick` keeps, in input order (a prefix fold, like the loop). */
  function Collect<A, B>(xs: seq<A>, pick: A --> Option<B>): seq<B>
    requires forall i :: 0 <= i < |xs| ==> pick.requires(xs[i])
    decreases |xs|
  {
    if xs == [] then []
    else
      var init := Collect(xs[..|xs| - 1], pick);
      match pick(xs[|xs| - 1])
      case None => init
      case Some(y) => init + [y]
  }

  /** Collecting a concatenation collects each part in order. */
  lemma {:induction false} CollectAppend<A, B>(xs: seq<A>, ys: seq<A>, pick: A --> Option<B>)
    requires forall i :: 0 <= i < |xs| ==> pick.requires(xs[i])
    requires forall i :: 0 <= i < |ys| ==> pick.requires(ys[i])
    ensures forall i :: 0 <= i < |xs + ys| ==> pick.requires((xs + ys)[i])
    ensures Collect(xs + ys, pick) == Collect(xs, pick) + Collect(ys, pick)
    decreases |ys|
  {
    assert forall i :: 0 <= i < |xs + ys| ==> pick.requires((xs + ys)[i]) by {
      forall i | 0 <= i < |xs + ys| ensures pick.requires((xs + ys)[i]) {
        if i >= |xs| { assert (xs + ys)[i] == ys[i - |xs|]; }
      }
    }
    if ys == [] {
      assert xs + ys == xs;
    } else {
      var n := |ys| - 1;
      assert (xs + ys)[..|xs + ys| - 1] == xs + ys[..n];
      assert (xs + ys)[|xs + ys| - 1] == ys[n];
      CollectAppend(xs, ys[..n], pick);
    }
  }

  /** Never longer than the input, and as long exactly when nothing is skipped. */
  lemma {:induction false} CollectLength<A, B>(xs: seq<A>, pick: A --> Option<B>)
    requires forall i :: 0 <= i < |xs| ==> pick.requires(xs[i])
    ensures |Collect(xs, pick)| <= |xs|
    ensures |Collect(xs, pick)| == |xs| <==> forall i :: 0 <= i < |xs| ==> pick(xs[i]).Some?
    decreases |xs|
  {
    if xs != [] {
      var n := |xs| - 1;
      CollectLength(xs[..n], pick);
      assert forall i :: 0 <= i < n ==> xs[..n][i] == xs[i];
    }
  }

  /** Every collected value was picked from some input element. */
  lemma {:induction false} CollectOrigin<A, B>(xs: seq<A>, pick: A --> Option<B>, k: nat)
    requires forall i :: 0 <= i < |xs| ==> pick.requires(xs[i])
    requires k < |Collect(xs, pick)|
    ensures exists i :: 0 <= i < |xs| && pick(xs[i]) == Some(Collect(xs, pick)[k])
    decreases |xs|
  {
    var n := |xs| - 1;
    var init := Collect(xs[..n], pick);
    if k < |init| {
      CollectOrigin(xs[..n], pick, k);
      var i :| 0 <= i < n && pick(xs[..n][i]) == Some(init[k]);
      assert xs[..n][i] == xs[i];
    } else {
      assert pick(xs[n]) == Some(Collect(xs, pick)[k]);
    }
  }

  /** Every element `pick` keeps contributes its value. */
  lemma {:induction false} CollectComplete<A, B>(xs: seq<A>, pick: A --> Option<B>, i: nat)
    requires forall j :: 0 <= j < |xs| ==> pick.requires(xs[j])
    requires i < |xs| && pick(xs[i]).Some?
    ensures pick(xs[i]).value in Collect(xs, pick)
    decreases |xs|
  {
    var n := |xs| - 1;
    if i < n {
      CollectComplete(xs[..n], pick, i);
      assert xs[..n][i] == xs[i];
    }
  }
}
