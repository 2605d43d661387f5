/** The user's range lists (`rangos_esp`, `rangos_vol`): how the sidebar builds them and
    how `validar_rangos` checks them. */
module RangeSets {
  import opened Bounds

  /** One `(inicio, fin)` tuple of a range list. */
  datatype Range = Range(lo: Bound, hi: Bound)

  /** The bins `pd.cut` is given: every range's lower bound, then +inf. */
  function Bins(rs: seq<Range>): (bins: seq<Bound>)
    ensures |bins| == |rs| + 1
    ensures forall k :: 0 <= k < |rs| ==> bins[k] == rs[k].lo
    ensures bins[|rs|] == PosInf
  {
    seq(|rs|, k requires 0 <= k < |rs| => rs[k].lo) + [PosInf]
  }

  /** What `validar_rangos` accepts: no range ends after the next one starts. */
  predicate ValidRanges(rs: seq<Range>) {
    forall i :: 0 <= i < |rs| - 1 ==> Le(rs[i].hi, rs[i + 1].lo)
  }

  /** `validar_rangos`: scans adjacent pairs and returns false at the first one whose
      end lies above the next start. */
  method ValidateRanges(rs: seq<Range>) returns (ok: bool)
    ensures ok <==> ValidRanges(rs)
    ensures !ok ==> exists i :: 0 <= i < |rs| - 1 && Lt(rs[i + 1].lo, rs[i].hi)
  {
    var i := 0;
    while i < |rs| - 1
      invariant 0 <= i <= if |rs| == 0 then 0 else |rs| - 1
      invariant forall j :: 0 <= j < i ==> Le(rs[j].hi, rs[j + 1].lo)
    {
      if Lt(rs[i + 1].lo, rs[i].hi) {
        return false;
      }
      i := i + 1;
    }
    return true;
  }

  /** Lists of fewer than two ranges have no adjacent pair and are always valid. */
  lemma ShortListsAreValid(rs: seq<Range>)
    requires |rs| <= 1
    ensures ValidRanges(rs)
  {
  }

  /** What one row of the sidebar holds: the start and end typed for range i.
      Row 0 has no start widget and the last row no end widget, so those two
      components are never read. */
  datatype RowInput = RowInput(start: real, end: real)

  /** The tuple the construction loop appends for row i: (-inf, fin) for the first
      row (also when it is the only one), (inicio, +inf) for the last, (inicio, fin)
      in between. */
  function RangeAt(rows: seq<RowInput>, i: nat): Range
    requires i < |rows|
  {
    if i == 0 then Range(NegInf, Fin(rows[0].end))
    else if i == |rows| - 1 then Range(Fin(rows[i].start), PosInf)
    else Range(Fin(rows[i].start), Fin(rows[i].end))
  }

  function RangeList(rows: seq<RowInput>): seq<Range> {
    seq(|rows|, i requires 0 <= i < |rows| => RangeAt(rows, i))
  }

  /** The construction loop: one `append` per sidebar row. */
  method BuildRanges(rows: seq<RowInput>) returns (rs: seq<Range>)
    ensures rs == RangeList(rows)
  {
    rs := [];
    for i := 0 to |rows|
      invariant |rs| == i
      invariant forall j :: 0 <= j < i ==> rs[j] == RangeAt(rows, j)
    {
      if i == 0 {
        rs := rs + [Range(NegInf, Fin(rows[i].end))];
      } else if i == |rows| - 1 {
        rs := rs + [Range(Fin(rows[i].start), PosInf)];
      } else {
        rs := rs + [Range(Fin(rows[i].start), Fin(rows[i].end))];
      }
    }
  }

  /** The shape of a built list: it opens at -inf; with two or more rows it closes at
      +inf and every other bound is finite; a single row gives (-inf, fin), which
      does not reach +inf. */
  lemma RangeListShape(rows: seq<RowInput>)
    requires |rows| >= 1
    ensures |RangeList(rows)| == |rows|
    ensures RangeList(rows)[0] == Range(NegInf, Fin(rows[0].end))
    ensures |rows| >= 2 ==> RangeList(rows)[|rows| - 1] == Range(Fin(rows[|rows| - 1].start), PosInf)
    ensures forall i :: 0 < i < |rows| ==> RangeList(rows)[i].lo == Fin(rows[i].start)
    ensures forall i :: 0 <= i < |rows| - 1 ==> RangeList(rows)[i].hi == Fin(rows[i].end)
  {
  }

  /** A built list passes `validar_rangos` exactly when no row starts below the end
      of the row before it. */
  lemma RangeListValidIff(rows: seq<RowInput>)
    ensures ValidRanges(RangeList(rows)) <==>
      forall i :: 1 <= i < |rows| ==> rows[i - 1].end <= rows[i].start
  {
    var rs := RangeList(rows);
    if ValidRanges(rs) {
      forall i | 1 <= i < |rows| ensures rows[i - 1].end <= rows[i].start {
        assert Le(rs[i - 1].hi, rs[i].lo);
      }
    }
  }

  /** The limits the sidebar's number inputs enforce: between 1 and 10 rows, the
      first end at least 0, every start at least the end of the row before, and every
      interior end at least its own start. */
  predicate SidebarAdmits(rows: seq<RowInput>) {
    && 1 <= |rows| <= 10
    && rows[0].end >= 0.0
    && (forall i :: 1 <= i < |rows| ==> rows[i].start >= rows[i - 1].end)
    && (forall i :: 1 <= i < |rows| - 1 ==> rows[i].end >= rows[i].start)
  }

  /** Whatever the sidebar lets through passes `validar_rangos`, and its bins never
      decrease (they may repeat, see EqualBinsPassValidation). */
  lemma SidebarRangesAreValid(rows: seq<RowInput>)
    requires SidebarAdmits(rows)
    ensures ValidRanges(RangeList(rows))
    ensures NonDecreasing(Bins(RangeList(rows)))
  {
    RangeListValidIff(rows);
    var bins := Bins(RangeList(rows));
    forall i | 0 <= i < |bins| - 1 ensures Le(bins[i], bins[i + 1]) {
      if 0 < i < |rows| - 1 {
        assert rows[i].start <= rows[i].end <= rows[i + 1].start;
      }
    }
    AdjacentNonDecreasing(bins);
  }

  /** `pd.cut` raises unless its bins strictly increase; a single range never reaches
      `pd.cut`. */
  predicate Cuttable(rs: seq<Range>) {
    |rs| >= 1 && (|rs| > 1 ==> Increasing(Bins(rs)))
  }

  /** As written, `validar_rangos` (and the sidebar limits) admit a list whose bins
      repeat: rows ending and starting at 4 give the bins [-inf, 4, 4, +inf], on
      which `pd.cut` raises instead of classifying. */
  lemma EqualBinsPassValidation()
    ensures var rows := [RowInput(0.0, 4.0), RowInput(4.0, 4.0), RowInput(4.0, 0.0)];
      && SidebarAdmits(rows)
      && ValidRanges(RangeList(rows))
      && !Cuttable(RangeList(rows))
  {
    var rows := [RowInput(0.0, 4.0), RowInput(4.0, 4.0), RowInput(4.0, 0.0)];
    var rs := RangeList(rows);
    assert rs == [Range(NegInf, Fin(4.0)), Range(Fin(4.0), Fin(4.0)), Range(Fin(4.0), PosInf)];
    assert Bins(rs)[1] == Bins(rs)[2] == Fin(4.0);
  }

  /** The check the sidebar's error message asks for, increasing ranges that do not
      overlap: every range also starts strictly below its own end. */
  predicate ValidRangesStrict(rs: seq<Range>) {
    ValidRanges(rs) && forall i :: 0 <= i < |rs| ==> Lt(rs[i].lo, rs[i].hi)
  }

  /** With that check, every non-empty list that passes can be handed to `pd.cut`. */
  lemma StrictValidationEnablesCut(rs: seq<Range>)
    requires |rs| >= 1 && ValidRangesStrict(rs)
    ensures Cuttable(rs)
  {
    var bins := Bins(rs);
    forall i | 0 <= i < |bins| - 1 ensures Lt(bins[i], bins[i + 1]) {
      if i < |rs| - 1 {
        LtLeTrans(rs[i].lo, rs[i].hi, rs[i + 1].lo);
      }
    }
    AdjacentIncreasing(bins);
  }
}
