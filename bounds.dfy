/** Floating-point values as the classifier compares them: a finite number or one of
    the two infinities (`-np.inf`, `np.inf`) that close the first and last ranges. */
module Bounds {

  datatype Bound = NegInf | Fin(v: real) | PosInf

  /** Python's `<` on floats, with -inf below and +inf above every finite number. */
  predicate Lt(a: Bound, b: Bound) {
    match a
    case NegInf => !b.NegInf?
    case Fin(x) => b.PosInf? || (b.Fin? && x < b.v)
    case PosInf => false
  }

  /** Python's `<=` on floats. */
  predicate Le(a: Bound, b: Bound) {
    !Lt(b, a)
  }

  lemma LtTrans(a: Bound, b: Bound, c: Bound)
    requires Lt(a, b) && Lt(b, c)
    ensures Lt(a, c)
  {
  }

  lemma LtLeTrans(a: Bound, b: Bound, c: Bound)
    requires Lt(a, b) && Le(b, c)
    ensures Lt(a, c)
  {
  }

  lemma LeTrans(a: Bound, b: Bound, c: Bound)
    requires Le(a, b) && Le(b, c)
    ensures Le(a, c)
  {
  }

  /** Strictly increasing, compared pairwise. */
  predicate Increasing(bs: seq<Bound>) {
    forall i, j :: 0 <= i < j < |bs| ==> Lt(bs[i], bs[j])
  }

  /** Non-decreasing, compared pairwise. */
  predicate NonDecreasing(bs: seq<Bound>) {
    forall i, j :: 0 <= i < j < |bs| ==> Le(bs[i], bs[j])
  }

  /** A sequence that increases from each element to the next increases throughout. */
  lemma {:induction false} AdjacentIncreasing(bs: seq<Bound>)
    requires forall i :: 0 <= i < |bs| - 1 ==> Lt(bs[i], bs[i + 1])
    ensures Increasing(bs)
  {
    if |bs| > 1 {
      AdjacentIncreasing(bs[1..]);
      forall j | 1 < j < |bs| ensures Lt(bs[0], bs[j]) {
        assert bs[1..][0] == bs[1] && bs[1..][j - 1] == bs[j];
        LtTrans(bs[0], bs[1], bs[j]);
      }
      forall i, j | 0 <= i < j < |bs| ensures Lt(bs[i], bs[j]) {
        if i > 0 {
          assert bs[1..][i - 1] == bs[i] && bs[1..][j - 1] == bs[j];
        }
      }
    }
  }

  /** The same for non-decreasing sequences. */
  lemma {:induction false} AdjacentNonDecreasing(bs: seq<Bound>)
    requires forall i :: 0 <= i < |bs| - 1 ==> Le(bs[i], bs[i + 1])
    ensures NonDecreasing(bs)
  {
    if |bs| > 1 {
      AdjacentNonDecreasing(bs[1..]);
      forall j | 1 < j < |bs| ensures Le(bs[0], bs[j]) {
        assert bs[1..][0] == bs[1] && bs[1..][j - 1] == bs[j];
        LeTrans(bs[0], bs[1], bs[j]);
      }
      forall i, j | 0 <= i < j < |bs| ensures Le(bs[i], bs[j]) {
        if i > 0 {
          assert bs[1..][i - 1] == bs[i] && bs[1..][j - 1] == bs[j];
        }
      }
    }
  }
}
