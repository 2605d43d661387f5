/** The per-zone classification loop: split the table by `Zone Name`, add the
    spacing, area, bucket and cluster-key columns to each zone's rows, and collect
    the zone tables in the `dataframes_zonas` map. */
module Zones {
  import opened Options
  import opened Bounds
  import opened Area
  import opened RangeSets
  import opened Binning
  import opened ClusterKeys
  import opened Spacing

  /** The unit strings the two label lists carry. */
  const SpacingUnit: string := "acres"
  const VolumeUnit: string := "MSTB"

  /** A row of a zone table: the input well and the columns the loop adds to it. */
  datatype ClassifiedWell = ClassifiedWell(
    well: Well,       // the original row, unchanged
    nearestSq: Bound, // `distancia_min`, squared
    acres: Bound,     // `espaciamiento_acres`
    spacing: Label,   // `grupo_espaciamiento`
    volume: Label,    // `grupo_volumen`
    combined: string) // `grupo_combined`

  /** The columns of well i of a zone. */
  function ClassifyWell(zoneWells: seq<Well>, i: nat, esp: seq<Range>, vol: seq<Range>, fmt: real -> string): (c: ClassifiedWell)
    requires i < |zoneWells| && Cuttable(esp) && Cuttable(vol)
    ensures c.well == zoneWells[i]
    ensures c.acres.Fin? <==> |zoneWells| >= 2
    ensures c.acres.Fin? ==> c.nearestSq.Fin? && c.nearestSq.v >= 0.0 && c.acres.v == AreaFromSquaredDistance(c.nearestSq.v)
    ensures c.acres == PosInf <==> c.nearestSq == PosInf
    ensures c.spacing.Missing? || c.spacing.unit == SpacingUnit
    ensures c.volume.Missing? || c.volume.unit == VolumeUnit
  {
    var d2 := NearestSq(zoneWells, i);
    var acres := AcresOf(d2);
    var spacing := Classify(esp, SpacingUnit, acres);
    var volume := Classify(vol, VolumeUnit, Fin(zoneWells[i].cum));
    ClassifiedWell(zoneWells[i], d2, acres, spacing, volume,
                   CombinedKey(LabelText(spacing, fmt), LabelText(volume, fmt)))
  }

  /** `df_zona` after the loop body has added its columns: one row per well of the
      zone, in the zone's order, each carrying its original fields. */
  function ClassifyZone(zoneWells: seq<Well>, esp: seq<Range>, vol: seq<Range>, fmt: real -> string): (rows: seq<ClassifiedWell>)
    requires Cuttable(esp) && Cuttable(vol)
    ensures |rows| == |zoneWells|
    ensures WellsOf(rows) == zoneWells
  {
    var rows := seq(|zoneWells|, i requires 0 <= i < |zoneWells| => ClassifyWell(zoneWells, i, esp, vol, fmt));
    assert WellsOf(rows) == zoneWells;
    rows
  }

  function WellsOf(rows: seq<ClassifiedWell>): (ws: seq<Well>)
    ensures |ws| == |rows| && forall i :: 0 <= i < |rows| ==> ws[i] == rows[i].well
  {
    seq(|rows|, i requires 0 <= i < |rows| => rows[i].well)
  }

  /** What a row of a zone with at least two wells says, for range lists that open at
      -inf: the spacing is the smallest squared distance to another well of the zone,
      the area is the circle of that diameter in acres, both labels are real buckets
      (never NaN), and the cluster key reads back as the two label texts. */
  lemma ZoneRowMeaning(zoneWells: seq<Well>, i: nat, esp: seq<Range>, vol: seq<Range>, fmt: real -> string)
    requires i < |zoneWells| && |zoneWells| >= 2
    requires Cuttable(esp) && Cuttable(vol) && esp[0].lo == NegInf && vol[0].lo == NegInf
    requires forall x :: '&' !in fmt(x)
    ensures var c := ClassifyZone(zoneWells, esp, vol, fmt)[i];
      && c.nearestSq.Fin?
      && (forall j :: 0 <= j < |zoneWells| && j != i ==> c.nearestSq.v <= SqDist(zoneWells[i], zoneWells[j]))
      && (exists j :: 0 <= j < |zoneWells| && j != i && c.nearestSq.v == SqDist(zoneWells[i], zoneWells[j]))
      && c.acres == Fin(AreaFromSquaredDistance(c.nearestSq.v))
      && c.spacing == Classify(esp, SpacingUnit, c.acres) && c.spacing != Missing
      && c.volume == Classify(vol, VolumeUnit, Fin(zoneWells[i].cum)) && c.volume != Missing
      && SplitKey(c.combined) == Some((LabelText(c.spacing, fmt), LabelText(c.volume, fmt)))
  {
    var c := ClassifyWell(zoneWells, i, esp, vol, fmt);
    assert ClassifyZone(zoneWells, esp, vol, fmt)[i] == c;
    NearestIsMinimumOverOthers(zoneWells, i);
    RowLabelsAreBuckets(c, esp, vol, zoneWells[i].cum);
    RowKeyReadsBack(c, fmt);
  }

  lemma RowLabelsAreBuckets(c: ClassifiedWell, esp: seq<Range>, vol: seq<Range>, cum: real)
    requires Cuttable(esp) && Cuttable(vol) && esp[0].lo == NegInf && vol[0].lo == NegInf
    requires c.acres != NegInf
    requires c.spacing == Classify(esp, SpacingUnit, c.acres)
    requires c.volume == Classify(vol, VolumeUnit, Fin(cum))
    ensures c.spacing != Missing && c.volume != Missing
  {
    ClassifyNeverMissing(esp, SpacingUnit, c.acres);
    ClassifyNeverMissing(vol, VolumeUnit, Fin(cum));
  }

  lemma RowKeyReadsBack(c: ClassifiedWell, fmt: real -> string)
    requires forall x :: '&' !in fmt(x)
    requires c.spacing.Missing? || c.spacing.unit == SpacingUnit
    requires c.combined == CombinedKey(LabelText(c.spacing, fmt), LabelText(c.volume, fmt))
    ensures SplitKey(c.combined) == Some((LabelText(c.spacing, fmt), LabelText(c.volume, fmt)))
  {
    LabelTextHasNoAmpersand(c.spacing, fmt);
    SplitKeyInvertsCombinedKey(LabelText(c.spacing, fmt), LabelText(c.volume, fmt));
  }

  /** A well alone in its zone gets the +inf padding as spacing, an infinite area,
      and the last spacing bucket ("mayor que ..."), or the constant label when there is
      only one spacing range. */
  lemma LoneWellTakesTopSpacingBucket(w: Well, esp: seq<Range>, vol: seq<Range>, fmt: real -> string)
    requires Cuttable(esp) && Cuttable(vol)
    ensures var c := ClassifyZone([w], esp, vol, fmt)[0];
      && c.nearestSq == PosInf && c.acres == PosInf
      && c.spacing == (if |esp| == 1 then LessThan(esp[0].hi, SpacingUnit)
                       else GreaterThan(esp[|esp| - 1].lo, SpacingUnit))
      && c.volume == Classify(vol, VolumeUnit, Fin(w.cum))
  {
    var c := ClassifyZone([w], esp, vol, fmt)[0];
    assert c == ClassifyWell([w], 0, esp, vol, fmt);
    if |esp| > 1 {
      var bins := Bins(esp);
      assert Lt(bins[|esp| - 1], bins[|esp|]);
      CutIsBucketContainingValue(bins, PosInf, |esp| - 1);
    }
  }

  /** With a single range every well gets the constant label, whatever its value. */
  lemma SingleRangeGivesConstantLabels(zoneWells: seq<Well>, esp: seq<Range>, vol: seq<Range>, fmt: real -> string)
    requires Cuttable(esp) && Cuttable(vol) && |esp| == 1 && |vol| == 1
    ensures forall c :: c in ClassifyZone(zoneWells, esp, vol, fmt) ==>
      c.spacing == LessThan(esp[0].hi, SpacingUnit) && c.volume == LessThan(vol[0].hi, VolumeUnit)
  {
  }

  /** `df[df['Zone Name'] == zona]`: the rows of one zone, in table order. */
  function Filter(df: seq<Well>, z: string): (r: seq<Well>)
    ensures |r| <= |df|
    ensures |df| == 1 ==> r == if df[0].zone == z then df else []
  {
    if df == [] then []
    else
      var rest := Filter(df[1..], z);
      if df[0].zone == z then [df[0]] + rest else rest
  }

  /** The zone's rows are the input rows of that zone, each as often as in the input. */
  lemma {:induction false} FilterCounts(df: seq<Well>, z: string, w: Well)
    ensures multiset(Filter(df, z))[w] == if w.zone == z then multiset(df)[w] else 0
  {
    if df != [] {
      FilterCounts(df[1..], z, w);
      assert df == [df[0]] + df[1..];
    }
  }

  /** Filtering keeps table order: the rows of one zone taken from a table split in two
      are those of the first part followed by those of the second. With the one-row
      case of Filter's contract, this fixes the result row by row. */
  lemma {:induction false} FilterKeepsOrder(a: seq<Well>, b: seq<Well>, z: string)
    ensures Filter(a + b, z) == Filter(a, z) + Filter(b, z)
  {
    if a == [] {
      assert a + b == b;
    } else {
      var ab := a + b;
      assert ab[0] == a[0];
      assert ab[1..] == a[1..] + b;
      FilterKeepsOrder(a[1..], b, z);
      if a[0].zone == z {
        assert Filter(ab, z) == [a[0]] + Filter(ab[1..], z);
        assert Filter(a, z) == [a[0]] + Filter(a[1..], z);
      } else {
        assert Filter(ab, z) == Filter(ab[1..], z);
        assert Filter(a, z) == Filter(a[1..], z);
      }
    }
  }

  /** The zones that occur in the table. */
  function ZoneSet(df: seq<Well>): set<string> {
    set w | w in df :: w.zone
  }

  /** `df['Zone Name'].unique()`: each zone once, in order of first appearance. */
  function UniqueZones(df: seq<Well>): (zs: seq<string>)
    ensures forall a, b :: 0 <= a < b < |zs| ==> zs[a] != zs[b]
    ensures forall z :: z in zs <==> z in ZoneSet(df)
  {
    if df == [] then []
    else
      var front := df[..|df| - 1];
      var z := df[|df| - 1].zone;
      var rest := UniqueZones(front);
      assert df == front + [df[|df| - 1]];
      assert forall w :: w in df <==> w in front || w == df[|df| - 1];
      if z in rest then rest else rest + [z]
  }

  /** The rows of all zone tables listed in zs, as one multiset of wells. */
  function TableWells(tables: map<string, seq<ClassifiedWell>>, zs: seq<string>): multiset<Well>
    requires forall k :: 0 <= k < |zs| ==> zs[k] in tables
  {
    if zs == [] then multiset{} else multiset(WellsOf(tables[zs[0]])) + TableWells(tables, zs[1..])
  }

  /** Zone tables built by filtering: each well is counted in the tables of its own
      zone, as often as it occurs in the input, and in no other. */
  lemma {:induction false} TableWellsCount(df: seq<Well>, tables: map<string, seq<ClassifiedWell>>, zs: seq<string>, w: Well)
    requires forall a, b :: 0 <= a < b < |zs| ==> zs[a] != zs[b]
    requires forall k :: 0 <= k < |zs| ==> zs[k] in tables && WellsOf(tables[zs[k]]) == Filter(df, zs[k])
    ensures TableWells(tables, zs)[w] == if w.zone in zs then multiset(df)[w] else 0
  {
    if zs != [] {
      var rest := zs[1..];
      TableWellsCount(df, tables, rest, w);
      FilterCounts(df, zs[0], w);
      assert zs[0] !in rest by {
        forall k | 0 <= k < |rest| ensures rest[k] != zs[0] {
          assert rest[k] == zs[k + 1];
        }
      }
      assert w.zone in zs <==> w.zone == zs[0] || w.zone in rest;
    }
  }

  /** Every row of a zone's table belongs to that zone. */
  lemma ZoneTableHoldsOnlyItsZone(df: seq<Well>, z: string, rows: seq<ClassifiedWell>, c: ClassifiedWell)
    requires WellsOf(rows) == Filter(df, z)
    requires c in rows
    ensures c.well.zone == z
  {
    var i :| 0 <= i < |rows| && rows[i] == c;
    assert c.well == WellsOf(rows)[i];
    FilterCounts(df, z, c.well);
    assert multiset(Filter(df, z))[c.well] > 0;
  }

  /** Tables built by filtering over the zones of the input hold, together, each input
      row exactly as often as the input does. */
  lemma TablesGatherInput(df: seq<Well>, tables: map<string, seq<ClassifiedWell>>, zones: seq<string>)
    requires zones == UniqueZones(df)
    requires forall k :: 0 <= k < |zones| ==> zones[k] in tables && WellsOf(tables[zones[k]]) == Filter(df, zones[k])
    ensures TableWells(tables, zones) == multiset(df)
  {
    forall w ensures TableWells(tables, zones)[w] == multiset(df)[w] {
      TableWellsCount(df, tables, zones, w);
      if w in df {
        assert w.zone in ZoneSet(df);
      }
    }
  }

  /** A map holding each zone's filtered rows keeps every row under its own zone. */
  lemma ZoneMapSeparatesZones(df: seq<Well>, tables: map<string, seq<ClassifiedWell>>)
    requires forall z :: z in tables ==> WellsOf(tables[z]) == Filter(df, z)
    ensures forall z, c :: z in tables && c in tables[z] ==> c.well.zone == z
  {
    forall z, c | z in tables && c in tables[z] ensures c.well.zone == z {
      ZoneTableHoldsOnlyItsZone(df, z, tables[z], c);
    }
  }

  /** The zone loop over a given list of zone names: one table per name, inserted into
      the map under that name, holding the classified rows of that zone. */
  method BuildZoneTables(df: seq<Well>, zones: seq<string>, esp: seq<Range>, vol: seq<Range>, fmt: real -> string)
    returns (tables: map<string, seq<ClassifiedWell>>)
    requires Cuttable(esp) && Cuttable(vol)
    ensures forall z :: z in tables <==> z in zones
    ensures forall z :: z in tables ==> tables[z] == ClassifyZone(Filter(df, z), esp, vol, fmt)
  {
    tables := map[];
    for k := 0 to |zones|
      invariant forall z :: z in tables <==> z in zones[..k]
      invariant forall z :: z in tables ==> tables[z] == ClassifyZone(Filter(df, z), esp, vol, fmt)
    {
      var zona := zones[k];
      var dfZona := Filter(df, zona);
      tables := tables[zona := ClassifyZone(dfZona, esp, vol, fmt)];
    }
    assert zones[..|zones|] == zones;
  }

  /** Lines 76-125 together: the zones of the table in order of first appearance, and
      the `dataframes_zonas` map. Every input row lands in exactly one table, the one
      keyed by its own zone, with its fields unchanged. */
  method ClassifyByZone(df: seq<Well>, esp: seq<Range>, vol: seq<Range>, fmt: real -> string)
    returns (zones: seq<string>, tables: map<string, seq<ClassifiedWell>>)
    requires Cuttable(esp) && Cuttable(vol)
    ensures zones == UniqueZones(df)
    ensures tables.Keys == ZoneSet(df)
    ensures forall z :: z in tables ==> tables[z] == ClassifyZone(Filter(df, z), esp, vol, fmt)
    ensures forall z, c :: z in tables && c in tables[z] ==> c.well.zone == z
    ensures TableWells(tables, zones) == multiset(df)
  {
    zones := UniqueZones(df);
    tables := BuildZoneTables(df, zones, esp, vol, fmt);
    ZoneMapSeparatesZones(df, tables);
    TablesGatherInput(df, tables, zones);
  }
}
