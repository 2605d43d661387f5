/** Bucketing one metric by a range list: `pd.cut` with its default right-closed
    intervals, the label list the source passes to it, and the single-range case. */
module Binning {
  import opened Options
  import opened Bounds
  import opened RangeSets

  /** How many bins lie strictly below v: `searchsorted(bins, v, side='left')`, the
      position `pd.cut` uses for right-closed intervals. */
  function CountBelow(bins: seq<Bound>, v: Bound): (c: nat)
    ensures c <= |bins|
    ensures (forall i :: 0 <= i < |bins| ==> Lt(bins[i], v)) ==> c == |bins|
    ensures (forall i :: 0 <= i < |bins| ==> !Lt(bins[i], v)) ==> c == 0
  {
    if bins == [] then 0
    else
      assert forall i :: 0 <= i < |bins| - 1 ==> bins[1..][i] == bins[i + 1];
      (if Lt(bins[0], v) then 1 else 0) + CountBelow(bins[1..], v)
  }

  /** `pd.cut(v, bins, labels=...)` as a bucket index: bucket k is (bins[k], bins[k+1]];
      a value at or below the first bin (or above the last) gets none (NaN). */
  function Cut(bins: seq<Bound>, v: Bound): (b: Option<nat>)
    ensures b.Some? ==> b.value + 1 < |bins|
  {
    var c := CountBelow(bins, v);
    if 0 < c < |bins| then Some(c - 1) else None
  }

  /** On increasing bins, the bins below v are exactly a prefix of length CountBelow. */
  lemma {:induction false} CountBelowIsPrefix(bins: seq<Bound>, v: Bound)
    requires Increasing(bins)
    ensures forall i :: 0 <= i < |bins| ==> (Lt(bins[i], v) <==> i < CountBelow(bins, v))
  {
    if bins != [] {
      var rest := bins[1..];
      assert Increasing(rest) by {
        forall i, j | 0 <= i < j < |rest| ensures Lt(rest[i], rest[j]) {
          assert rest[i] == bins[i + 1] && rest[j] == bins[j + 1];
        }
      }
      CountBelowIsPrefix(rest, v);
      forall i | 1 <= i < |bins| ensures Lt(bins[i], v) <==> Lt(rest[i - 1], v) {
        assert rest[i - 1] == bins[i];
      }
      if !Lt(bins[0], v) && CountBelow(rest, v) > 0 {
        assert Lt(rest[0], v);
        assert Lt(bins[0], bins[1]);
        LtTrans(bins[0], bins[1], v);
        assert false;
      }
    }
  }

  /** The bucket of v is k exactly when bins[k] < v <= bins[k+1]. */
  lemma CutIsBucketContainingValue(bins: seq<Bound>, v: Bound, k: nat)
    requires Increasing(bins)
    ensures Cut(bins, v) == Some(k) <==> k + 1 < |bins| && Lt(bins[k], v) && Le(v, bins[k + 1])
  {
    CountBelowIsPrefix(bins, v);
  }

  /** Bins that run from -inf to +inf give every value other than -inf a bucket. */
  lemma CutIsTotal(bins: seq<Bound>, v: Bound)
    requires Increasing(bins) && |bins| >= 2
    requires bins[0] == NegInf && bins[|bins| - 1] == PosInf && v != NegInf
    ensures Cut(bins, v).Some?
  {
    CountBelowIsPrefix(bins, v);
    assert Lt(bins[0], v);
    assert !Lt(bins[|bins| - 1], v);
  }

  /** A larger value never lies below fewer bins. */
  lemma {:induction false} CountBelowMonotone(bins: seq<Bound>, v: Bound, w: Bound)
    requires Le(v, w)
    ensures CountBelow(bins, v) <= CountBelow(bins, w)
  {
    if bins != [] {
      CountBelowMonotone(bins[1..], v, w);
      if Lt(bins[0], v) {
        LtLeTrans(bins[0], v, w);
      }
    }
  }

  /** Bucket assignment is monotone: v <= w puts w in the same bucket as v or a later one. */
  lemma CutMonotone(bins: seq<Bound>, v: Bound, w: Bound)
    requires Le(v, w) && Cut(bins, v).Some? && Cut(bins, w).Some?
    ensures Cut(bins, v).value <= Cut(bins, w).value
  {
    CountBelowMonotone(bins, v, w);
  }

  /** Only the lower bounds of the ranges decide the bucket; the upper bounds of the
      interior ranges reach the label text and nothing else. */
  lemma BucketIgnoresUpperBounds(rs: seq<Range>, rs': seq<Range>, v: Bound)
    requires |rs| == |rs'|
    requires forall k :: 0 <= k < |rs| ==> rs[k].lo == rs'[k].lo
    ensures Cut(Bins(rs), v) == Cut(Bins(rs'), v)
  {
    assert Bins(rs) == Bins(rs');
  }

  /** A bucket label: the three shapes the source formats, with the unit string
      ("acres" or "MSTB") baked in, and the NaN that `pd.cut` leaves for a value
      outside every bin. */
  datatype Label =
    | LessThan(hi: Bound, unit: string)
    | Between(lo: Bound, hi: Bound, unit: string)
    | GreaterThan(lo: Bound, unit: string)
    | Missing

  /** The `labels=` list for n > 1 ranges. */
  function Labels(rs: seq<Range>, unit: string): (ls: seq<Label>)
    requires |rs| >= 2
    ensures |ls| == |rs|
    ensures ls[0] == LessThan(rs[0].hi, unit)
    ensures forall k :: 0 < k < |rs| - 1 ==> ls[k] == Between(rs[k].lo, rs[k].hi, unit)
    ensures ls[|rs| - 1] == GreaterThan(rs[|rs| - 1].lo, unit)
  {
    var interior := rs[1..|rs| - 1];
    [LessThan(rs[0].hi, unit)]
      + seq(|interior|, k requires 0 <= k < |interior| => Between(interior[k].lo, interior[k].hi, unit))
      + [GreaterThan(rs[|rs| - 1].lo, unit)]
  }

  /** On increasing bins no two buckets share a label; `ClusterKeys.LabelTextsDistinct`
      carries this over to the label texts. */
  lemma LabelsDistinct(rs: seq<Range>, unit: string, j: nat, k: nat)
    requires |rs| >= 2 && Increasing(Bins(rs))
    requires j < k < |rs|
    ensures Labels(rs, unit)[j] != Labels(rs, unit)[k]
  {
    var ls := Labels(rs, unit);
    if 0 < j && k < |rs| - 1 {
      assert Lt(Bins(rs)[j], Bins(rs)[k]);
    }
  }

  /** The `grupo_espaciamiento` / `grupo_volumen` value of one well. */
  function Classify(rs: seq<Range>, unit: string, v: Bound): (l: Label)
    requires Cuttable(rs)
    ensures |rs| == 1 ==> l == LessThan(rs[0].hi, unit)
    ensures |rs| > 1 ==> (l == Missing <==> Cut(Bins(rs), v).None?)
    ensures |rs| > 1 && l != Missing ==> l == Labels(rs, unit)[Cut(Bins(rs), v).value]
    ensures |rs| > 1 && l != Missing ==>
      var k := Cut(Bins(rs), v).value; Lt(rs[k].lo, v) && Le(v, Bins(rs)[k + 1])
    ensures l != Missing ==> l.unit == unit
  {
    if |rs| == 1 then LessThan(rs[0].hi, unit)
    else
      match Cut(Bins(rs), v)
      case None => Missing
      case Some(k) =>
        CutIsBucketContainingValue(Bins(rs), v, k);
        Labels(rs, unit)[k]
  }

  /** With more than one range, a value in bucket k (lo_k < v <= lo_{k+1}, lo_n being
      +inf) gets the k-th of the n labels and no other. */
  lemma ClassifyPicksContainingBucket(rs: seq<Range>, unit: string, v: Bound, k: nat)
    requires Cuttable(rs) && |rs| > 1
    requires k < |rs| && Lt(rs[k].lo, v) && Le(v, Bins(rs)[k + 1])
    ensures Classify(rs, unit, v) == Labels(rs, unit)[k]
    ensures forall j :: 0 <= j < |rs| && j != k ==> Classify(rs, unit, v) != Labels(rs, unit)[j]
  {
    CutIsBucketContainingValue(Bins(rs), v, k);
    forall j | 0 <= j < |rs| && j != k ensures Labels(rs, unit)[k] != Labels(rs, unit)[j] {
      if j < k { LabelsDistinct(rs, unit, j, k); } else { LabelsDistinct(rs, unit, k, j); }
    }
  }

  /** Every value other than -inf gets a label, never NaN, when the list opens at -inf. */
  lemma ClassifyNeverMissing(rs: seq<Range>, unit: string, v: Bound)
    requires Cuttable(rs) && rs[0].lo == NegInf && v != NegInf
    ensures Classify(rs, unit, v) != Missing
  {
    if |rs| > 1 {
      CutIsTotal(Bins(rs), v);
    }
  }

  /** A value equal to an interior lower bound lo_k falls in the bucket below it, not
      in the one that starts there (right-closed intervals). */
  lemma BoundaryValueFallsBelow(rs: seq<Range>, unit: string, k: nat)
    requires Cuttable(rs) && |rs| > 1 && 0 < k < |rs|
    ensures Classify(rs, unit, rs[k].lo) == Labels(rs, unit)[k - 1]
  {
    var bins := Bins(rs);
    assert Lt(bins[k - 1], bins[k]);
    CutIsBucketContainingValue(bins, rs[k].lo, k - 1);
  }

  /** A value in a gap between two ranges, above hi_k but at most lo_{k+1}, still gets
      the label of range k, whose text does not contain it. */
  lemma GapValueTakesLabelBelow(rs: seq<Range>, unit: string, k: nat, v: Bound)
    requires Cuttable(rs) && |rs| > 1 && k < |rs| - 1
    requires Lt(rs[k].hi, v) && Le(v, rs[k + 1].lo) && Lt(rs[k].lo, v)
    ensures Classify(rs, unit, v) == Labels(rs, unit)[k]
  {
    CutIsBucketContainingValue(Bins(rs), v, k);
  }

  /** The rows the sidebar's spacing widgets show by default: five rows, each start 0.1
      above the previous end, each interior range 2.0 wide, in exact arithmetic. */
  function DefaultSpacingRows(): seq<RowInput> {
    [RowInput(0.0, 4.0), RowInput(4.1, 6.1), RowInput(6.2, 8.2), RowInput(8.3, 10.3), RowInput(10.4, 0.0)]
  }

  /** The default rows build the list (-inf, 4.0), (4.1, 6.1), (6.2, 8.2), (8.3, 10.3),
      (10.4, inf), whose bins strictly increase. */
  lemma DefaultSpacingList()
    ensures RangeList(DefaultSpacingRows()) ==
      [Range(NegInf, Fin(4.0)), Range(Fin(4.1), Fin(6.1)), Range(Fin(6.2), Fin(8.2)),
       Range(Fin(8.3), Fin(10.3)), Range(Fin(10.4), PosInf)]
    ensures Cuttable(RangeList(DefaultSpacingRows()))
  {
    var rs := RangeList(DefaultSpacingRows());
    assert |rs| == 5;
    assert rs[0] == Range(NegInf, Fin(4.0));
    assert rs[1] == Range(Fin(4.1), Fin(6.1));
    assert rs[2] == Range(Fin(6.2), Fin(8.2));
    assert rs[3] == Range(Fin(8.3), Fin(10.3));
    assert rs[4] == Range(Fin(10.4), PosInf);
    var bins := Bins(rs);
    assert bins == [NegInf, Fin(4.1), Fin(6.2), Fin(8.3), Fin(10.4), PosInf];
    AdjacentIncreasing(bins);
  }

  /** In exact arithmetic, the default spacing list puts 5.0 acres in
      Between(4.1, 6.1), 4.05 acres (a gap value) in LessThan(4.0), and 12.0 acres in
      GreaterThan(10.4). */
  lemma DefaultSpacingRangesExample()
    ensures var rs := RangeList(DefaultSpacingRows());
      && Cuttable(rs)
      && Classify(rs, "acres", Fin(5.0)) == Between(Fin(4.1), Fin(6.1), "acres")
      && Classify(rs, "acres", Fin(4.05)) == LessThan(Fin(4.0), "acres")
      && Classify(rs, "acres", Fin(12.0)) == GreaterThan(Fin(10.4), "acres")
  {
    DefaultSpacingList();
    var rs := RangeList(DefaultSpacingRows());
    var bins := Bins(rs);
    assert bins == [NegInf, Fin(4.1), Fin(6.2), Fin(8.3), Fin(10.4), PosInf];
    CutIsBucketContainingValue(bins, Fin(5.0), 1);
    CutIsBucketContainingValue(bins, Fin(4.05), 0);
    CutIsBucketContainingValue(bins, Fin(12.0), 4);
  }
}
