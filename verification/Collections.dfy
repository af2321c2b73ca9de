/** Options, results and order-preserving selection from parallel sequences. */
module Collections {

  datatype Option<+T> = None | Some(value: T)

  datatype Result<+T, +E> = Ok(value: T) | Err(error: E)

  /** The elements of `xs` whose key is present and wanted, in their order. */
  function PickIn<T>(xs: seq<T>, keys: seq<Option<int>>, want: set<int>): (r: seq<T>)
    requires |xs| == |keys|
  {
    if xs == [] then []
    else
      var n := |xs| - 1;
      var r := PickIn(xs[..n], keys[..n], want);
      if keys[n].Some? && keys[n].value in want then r + [xs[n]] else r
  }

  /** The keys that are present, each once, in order of first appearance. */
  function FirstSeen(keys: seq<Option<int>>): (r: seq<int>)
    ensures forall k :: k in r <==> Some(k) in keys
    ensures forall i, j :: 0 <= i < j < |r| ==> r[i] != r[j]
  {
    if keys == [] then []
    else
      var n := |keys| - 1;
      var r := FirstSeen(keys[..n]);
      assert keys == keys[..n] + [keys[n]];
      if keys[n].Some? && keys[n].value !in r then r + [keys[n].value] else r
  }

  ghost predicate Distinct<T>(xs: seq<T>) {
    forall i, j :: 0 <= i < j < |xs| ==> xs[i] != xs[j]
  }

  /** Picking commutes with a pointwise change of the elements, given by two parallel sequences. */
  lemma {:induction false} PickParallel<S, T>(xs: seq<S>, ys: seq<T>, keys: seq<Option<int>>, want: set<int>)
    requires |xs| == |ys| == |keys|
    ensures |PickIn(xs, keys, want)| == |PickIn(ys, keys, want)| <= |xs|
    ensures forall p :: 0 <= p < |PickIn(xs, keys, want)| ==>
      exists j :: 0 <= j < |xs| && PickIn(xs, keys, want)[p] == xs[j] && PickIn(ys, keys, want)[p] == ys[j]
  {
    if xs != [] {
      var n := |xs| - 1;
      PickParallel(xs[..n], ys[..n], keys[..n], want);
      var a, b := PickIn(xs[..n], keys[..n], want), PickIn(ys[..n], keys[..n], want);
      forall p | 0 <= p < |PickIn(xs, keys, want)|
        ensures exists j :: 0 <= j < |xs| && PickIn(xs, keys, want)[p] == xs[j] && PickIn(ys, keys, want)[p] == ys[j]
      {
        if p < |a| {
          var j :| 0 <= j < n && a[p] == xs[..n][j] && b[p] == ys[..n][j];
          assert xs[..n][j] == xs[j] && ys[..n][j] == ys[j];
        } else {
          assert PickIn(xs, keys, want)[p] == xs[n] && PickIn(ys, keys, want)[p] == ys[n];
        }
      }
    }
  }

  /** Picking with one more element. */
  lemma PickAppend<T>(xs: seq<T>, keys: seq<Option<int>>, x: T, key: Option<int>, want: set<int>)
    requires |keys| == |xs|
    ensures PickIn(xs + [x], keys + [key], want)
      == if key.Some? && key.value in want then PickIn(xs, keys, want) + [x] else PickIn(xs, keys, want)
  {
    assert (keys + [key])[..|keys|] == keys && (xs + [x])[..|xs|] == xs;
  }

  /** Where a picked element comes from. */
  lemma {:induction false} PickedAt<T>(xs: seq<T>, keys: seq<Option<int>>, want: set<int>, p: nat) returns (j: nat)
    requires |keys| == |xs| && p < |PickIn(xs, keys, want)|
    ensures j < |xs| && PickIn(xs, keys, want)[p] == xs[j] && keys[j].Some? && keys[j].value in want
  {
    var n := |xs| - 1;
    if p < |PickIn(xs[..n], keys[..n], want)| {
      j := PickedAt(xs[..n], keys[..n], want, p);
    } else {
      j := n;
    }
  }
}
