/** Option and Result values shared by the modules of this model. A Python
    function that returns None or raises an exception is modelled as returning
    one of these. */
module Common {

  datatype Option<T> = None | Some(value: T)

  datatype Result<T, E> = Ok(value: T) | Err(error: E)

  /** The exceptions that can escape from the modelled functions. */
  datatype Raised = IndexError | ValueError

  function Max(a: int, b: int): int { if a >= b then a else b }

  function Min(a: int, b: int): int { if a <= b then a else b }

  /** Concatenation of a sequence of sequences, from the back. */
  function Flatten<T>(ss: seq<seq<T>>): seq<T>
  {
    if |ss| == 0 then [] else Flatten(ss[..|ss| - 1]) + ss[|ss| - 1]
  }

  lemma FlattenSnoc<T>(ss: seq<seq<T>>, k: nat)
    requires k < |ss|
    ensures Flatten(ss[..k + 1]) == Flatten(ss[..k]) + ss[k]
  {
    assert ss[..k + 1][..k] == ss[..k];
  }

  lemma FlattenAppend<T>(ss: seq<seq<T>>, x: seq<T>)
    ensures Flatten(ss + [x]) == Flatten(ss) + x
  {
    assert (ss + [x])[..|ss|] == ss;
  }

  lemma {:induction false} FlattenLength<T>(ss: seq<seq<T>>, n: nat)
    requires forall m :: 0 <= m < |ss| ==> |ss[m]| == n
    ensures |Flatten(ss)| == n * |ss|
  {
    if |ss| > 0 {
      FlattenLength(ss[..|ss| - 1], n);
    }
  }

  /** Every element of a flattened sequence comes from one of its blocks. */
  lemma {:induction false} FlattenMember<T>(ss: seq<seq<T>>, x: T)
    requires x in Flatten(ss)
    ensures exists m :: 0 <= m < |ss| && x in ss[m]
  {
    var n := |ss|;
    if x in ss[n - 1] {
    } else {
      FlattenMember(ss[..n - 1], x);
      var m :| 0 <= m < n - 1 && x in ss[..n - 1][m];
      assert x in ss[m];
    }
  }

  /** Two flattened sequences whose blocks agree pointwise through f agree
      pointwise through f. */
  lemma {:induction false} FlattenPointwise<A, B>(xs: seq<seq<A>>, ys: seq<seq<B>>, f: B -> A)
    requires |xs| == |ys|
    requires forall m :: 0 <= m < |xs| ==> |xs[m]| == |ys[m]|
    requires forall m, t :: 0 <= m < |xs| && 0 <= t < |xs[m]| ==> xs[m][t] == f(ys[m][t])
    ensures |Flatten(xs)| == |Flatten(ys)|
    ensures forall k :: 0 <= k < |Flatten(xs)| ==> Flatten(xs)[k] == f(Flatten(ys)[k])
  {
    var n := |xs|;
    if n > 0 {
      var xs', ys' := xs[..n - 1], ys[..n - 1];
      FlattenPointwise(xs', ys', f);
      assert Flatten(xs) == Flatten(xs') + xs[n - 1];
      assert Flatten(ys) == Flatten(ys') + ys[n - 1];
      forall k | 0 <= k < |Flatten(xs)|
        ensures Flatten(xs)[k] == f(Flatten(ys)[k])
      {
        if k >= |Flatten(xs')| {
          var t := k - |Flatten(xs')|;
          assert Flatten(xs)[k] == xs[n - 1][t];
          assert Flatten(ys)[k] == ys[n - 1][t];
        }
      }
    }
  }
}
