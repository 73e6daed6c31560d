/**
 * Small helpers shared by every module: an optional value, and what it
 * means for one list to be an order-preserving sub-list of another.
 */
module Common {

  datatype Option<+T> = None | Some(value: T)

  /** `idx` picks, in increasing order, the positions of `b` that `a` was taken from. */
  ghost predicate Embeds<T>(a: seq<T>, b: seq<T>, idx: seq<int>)
  {
    && |idx| == |a|
    && (forall i :: 0 <= i < |a| ==> 0 <= idx[i] < |b| && a[i] == b[idx[i]])
    && (forall i, j :: 0 <= i < j < |a| ==> idx[i] < idx[j])
  }

  /** `a` is `b` with some elements dropped and the rest kept in order. */
  ghost predicate IsSublist<T>(a: seq<T>, b: seq<T>)
  {
    exists idx :: Embeds(a, b, idx)
  }

  /** Shifting every picked position by one accounts for an element put in front of `b`. */
  lemma SublistSkip<T>(a: seq<T>, b: seq<T>, x: T)
    requires IsSublist(a, b)
    ensures IsSublist(a, [x] + b)
  {
    var idx :| Embeds(a, b, idx);
    var idx' := seq(|idx|, i requires 0 <= i < |idx| => idx[i] + 1);
    assert Embeds(a, [x] + b, idx');
  }

  /** Keeping the element put in front of `b` puts it in front of `a`. */
  lemma SublistKeep<T>(a: seq<T>, b: seq<T>, x: T)
    requires IsSublist(a, b)
    ensures IsSublist([x] + a, [x] + b)
  {
    var idx :| Embeds(a, b, idx);
    var idx' := [0] + seq(|idx|, i requires 0 <= i < |idx| => idx[i] + 1);
    assert Embeds([x] + a, [x] + b, idx');
  }

  lemma SublistEmpty<T>(b: seq<T>)
    ensures IsSublist([], b)
  {
    assert Embeds([], b, []);
  }
}
