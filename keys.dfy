/** The text of the bucket labels and the joint cluster key `grupo_combined`. */
module ClusterKeys {
  import opened Options
  import opened Bounds
  import opened Binning
  import opened RangeSets

  /** Python's `str` of a float bound: the caller's rendering of a finite number
      (the decimal text is not modelled), "-inf" and "inf" for the infinities. */
  function BoundText(b: Bound, fmt: real -> string): (t: string)
    ensures b.Fin? ==> t == fmt(b.v)
    ensures (forall x :: fmt(x) != "inf" && fmt(x) != "-inf") ==>
      (t == "inf" <==> b.PosInf?) && (t == "-inf" <==> b.NegInf?)
  {
    match b
    case NegInf => "-inf"
    case Fin(x) => fmt(x)
    case PosInf => "inf"
  }

  /** The f-strings of the `labels=` lists, and "nan" for a NaN category, which is
      what `astype(str)` gives for a value outside every bin. */
  function LabelText(l: Label, fmt: real -> string): (t: string)
    ensures l.Missing? <==> t == "nan"
    ensures l.LessThan? ==> |t| >= 10 && t[..10] == "menor que "
    ensures l.Between? ==> |t| >= 6 && t[..6] == "entre "
    ensures l.GreaterThan? ==> |t| >= 10 && t[..10] == "mayor que "
    ensures !l.Missing? ==> |t| > |l.unit| && t[|t| - |l.unit| - 1..] == " " + l.unit
  {
    match l
    case LessThan(hi, u) =>
      var head := "menor que " + BoundText(hi, fmt);
      assert Phrase(head, u)[..10] == head[..10];
      Phrase(head, u)
    case Between(lo, hi, u) =>
      var head := "entre " + BoundText(lo, fmt) + " " + u + " y " + BoundText(hi, fmt);
      assert Phrase(head, u)[..6] == head[..6];
      Phrase(head, u)
    case GreaterThan(lo, u) =>
      var head := "mayor que " + BoundText(lo, fmt);
      assert Phrase(head, u)[..10] == head[..10];
      Phrase(head, u)
    case Missing => "nan"
  }

  /** A phrase closed by a space and its unit. */
  function Phrase(head: string, u: string): (t: string)
    ensures |t| == |head| + 1 + |u|
    ensures t[..|head|] == head
    ensures t[|head|..] == " " + u
  {
    head + " " + u
  }

  /** Label texts of different shapes never coincide, so the text tells which of
      "menor que", "entre", "mayor que" or NaN a well got. */
  lemma LabelTextDistinguishesShapes(l1: Label, l2: Label, fmt: real -> string)
    requires l1.LessThan? != l2.LessThan? || l1.Between? != l2.Between?
          || l1.GreaterThan? != l2.GreaterThan?
    ensures LabelText(l1, fmt) != LabelText(l2, fmt)
  {
    var t1, t2 := LabelText(l1, fmt), LabelText(l2, fmt);
    if !l1.Missing? && !l2.Missing? {
      assert HeadPair(t1) != HeadPair(t2) by {
        LabelHeadPair(l1, fmt);
        LabelHeadPair(l2, fmt);
      }
    }
  }

  function HeadPair(t: string): (char, char)
    requires |t| >= 2
  {
    (t[0], t[1])
  }

  /** The first two characters of a label text name its shape: "me", "en" or "ma". */
  lemma LabelHeadPair(l: Label, fmt: real -> string)
    requires !l.Missing?
    ensures |LabelText(l, fmt)| >= 2
    ensures HeadPair(LabelText(l, fmt)) ==
      if l.LessThan? then ('m', 'e') else if l.Between? then ('e', 'n') else ('m', 'a')
  {
    var t := LabelText(l, fmt);
    var n := if l.Between? then 6 else 10;
    assert t[0] == t[..n][0] && t[1] == t[..n][1];
  }

  /** `grupo_combined`: the spacing label, " & ", the volume label. */
  function CombinedKey(spacing: string, volume: string): (c: string)
    ensures |c| == |spacing| + 3 + |volume|
    ensures c[..|spacing|] == spacing
    ensures c[|spacing|..|spacing| + 3] == " & "
    ensures c[|spacing| + 3..] == volume
  {
    spacing + " & " + volume
  }

  /** The position of the first occurrence of ch in s, if any. */
  function FirstIndex(s: string, ch: char): (r: Option<nat>)
    ensures r.None? <==> ch !in s
    ensures r.Some? ==> r.value < |s| && s[r.value] == ch && ch !in s[..r.value]
  {
    if s == [] then None
    else if s[0] == ch then Some(0)
    else
      match FirstIndex(s[1..], ch)
      case None => None
      case Some(i) =>
        assert s[..i + 1] == [s[0]] + s[1..][..i];
        Some(i + 1)
  }

  /** Reads a cluster key back as its two labels, cutting at the first '&'. */
  function SplitKey(c: string): (r: Option<(string, string)>)
    ensures r.Some? ==> CombinedKey(r.value.0, r.value.1) == c && '&' !in r.value.0
  {
    match FirstIndex(c, '&')
    case Some(i) =>
      if 1 <= i && i + 1 < |c| && c[i - 1] == ' ' && c[i + 1] == ' ' then
        assert c[..i - 1] + " & " + c[i + 2..] == c;
        assert c[..i - 1] == c[..i][..i - 1];
        Some((c[..i - 1], c[i + 2..]))
      else None
    case None => None
  }

  /** Splitting undoes joining whenever the spacing label has no '&'. */
  lemma SplitKeyInvertsCombinedKey(spacing: string, volume: string)
    requires '&' !in spacing
    ensures SplitKey(CombinedKey(spacing, volume)) == Some((spacing, volume))
  {
    var c := CombinedKey(spacing, volume);
    var n := |spacing|;
    assert c[n + 1] == '&';
    var r := FirstIndex(c, '&');
    assert r.Some?;
    assert r.value == n + 1;
    assert c[..n] == spacing && c[n + 3..] == volume;
  }

  lemma PhraseHasNoAmpersand(head: string, u: string)
    requires '&' !in head && '&' !in u
    ensures '&' !in Phrase(head, u)
  {
  }

  /** No label text contains '&' when neither the number rendering nor the unit does. */
  lemma LabelTextHasNoAmpersand(l: Label, fmt: real -> string)
    requires forall x :: '&' !in fmt(x)
    requires !l.Missing? ==> '&' !in l.unit
    ensures '&' !in LabelText(l, fmt)
  {
    match l
    case LessThan(hi, u) =>
      PhraseHasNoAmpersand("menor que " + BoundText(hi, fmt), u);
    case Between(lo, hi, u) =>
      PhraseHasNoAmpersand("entre " + BoundText(lo, fmt) + " " + u + " y " + BoundText(hi, fmt), u);
    case GreaterThan(lo, u) =>
      PhraseHasNoAmpersand("mayor que " + BoundText(lo, fmt), u);
    case Missing =>
  }

  /** Two wells share a cluster key exactly when they share the spacing label text
      and the volume label text. */
  lemma CombinedKeyDeterminesLabels(s1: Label, v1: Label, s2: Label, v2: Label, fmt: real -> string)
    requires forall x :: '&' !in fmt(x)
    requires !s1.Missing? ==> '&' !in s1.unit
    requires !s2.Missing? ==> '&' !in s2.unit
    ensures CombinedKey(LabelText(s1, fmt), LabelText(v1, fmt)) == CombinedKey(LabelText(s2, fmt), LabelText(v2, fmt))
        <==> LabelText(s1, fmt) == LabelText(s2, fmt) && LabelText(v1, fmt) == LabelText(v2, fmt)
  {
    LabelTextHasNoAmpersand(s1, fmt);
    LabelTextHasNoAmpersand(s2, fmt);
    SplitKeyInvertsCombinedKey(LabelText(s1, fmt), LabelText(v1, fmt));
    SplitKeyInvertsCombinedKey(LabelText(s2, fmt), LabelText(v2, fmt));
  }

  /** No number's text has a space or reads "inf" or "-inf", as with Python's `str`
      of a finite float. */
  ghost predicate PlainText(fmt: real -> string) {
    forall x :: ' ' !in fmt(x) && fmt(x) != "inf" && fmt(x) != "-inf"
  }

  /** Number texts are plain, and the list's distinct finite lower bounds print
      differently, as Python's `str` prints distinct doubles. */
  ghost predicate PlainOn(fmt: real -> string, rs: seq<Range>) {
    && PlainText(fmt)
    && (forall p, q ::
          (0 <= p < |rs| && 0 <= q < |rs| && rs[p].lo.Fin? && rs[q].lo.Fin? && rs[p].lo.v != rs[q].lo.v)
          ==> fmt(rs[p].lo.v) != fmt(rs[q].lo.v))
  }

  /** Distinct bounds print differently when their numbers do, and no bound's text
      has a space. */
  lemma BoundTextInjective(a: Bound, b: Bound, fmt: real -> string)
    requires PlainText(fmt)
    requires a.Fin? && b.Fin? && a.v != b.v ==> fmt(a.v) != fmt(b.v)
    ensures a != b ==> BoundText(a, fmt) != BoundText(b, fmt)
    ensures ' ' !in BoundText(a, fmt)
  {
  }

  /** A space-free word followed by a space can be read back off a string: strings
      that start with different such words differ. */
  lemma WordBeforeSpace(s1: string, x1: string, s2: string, x2: string)
    requires ' ' !in x1 && ' ' !in x2 && x1 != x2
    requires |s1| > |x1| && s1[..|x1|] == x1 && s1[|x1|] == ' '
    requires |s2| > |x2| && s2[..|x2|] == x2 && s2[|x2|] == ' '
    ensures s1 != s2
  {
    if |x1| < |x2| {
      assert s2[|x1|] == x2[|x1|];
    } else if |x2| < |x1| {
      assert s1[|x2|] == x1[|x2|];
    } else {
      var i :| 0 <= i < |x1| && x1[i] != x2[i];
      assert s1[i] == x1[i] && s2[i] == x2[i];
    }
  }

  /** After "entre ", a Between label's text holds its lower bound and then a space. */
  lemma BetweenTextTail(lo: Bound, hi: Bound, u: string, fmt: real -> string)
    ensures var t, b := LabelText(Between(lo, hi, u), fmt), BoundText(lo, fmt);
      |t| > 6 + |b| && t[6..][..|b|] == b && t[6..][|b|] == ' '
  {
    var b := BoundText(lo, fmt);
    var head := "entre " + b + " " + u + " y " + BoundText(hi, fmt);
    var t := LabelText(Between(lo, hi, u), fmt);
    assert t == Phrase(head, u);
    assert t[..|head|] == head;
    assert head[6..6 + |b|] == b && head[6 + |b|] == ' ';
    assert t[6..][..|b|] == t[..|head|][6..6 + |b|];
  }

  /** Between labels with different lower bounds have different texts. */
  lemma BetweenTextsDiffer(lo1: Bound, hi1: Bound, lo2: Bound, hi2: Bound, u: string, fmt: real -> string)
    requires PlainText(fmt) && lo1 != lo2
    requires lo1.Fin? && lo2.Fin? ==> fmt(lo1.v) != fmt(lo2.v)
    ensures LabelText(Between(lo1, hi1, u), fmt) != LabelText(Between(lo2, hi2, u), fmt)
  {
    BoundTextInjective(lo1, lo2, fmt);
    BoundTextInjective(lo2, lo1, fmt);
    BetweenTextTail(lo1, hi1, u, fmt);
    BetweenTextTail(lo2, hi2, u, fmt);
    var t1, t2 := LabelText(Between(lo1, hi1, u), fmt), LabelText(Between(lo2, hi2, u), fmt);
    WordBeforeSpace(t1[6..], BoundText(lo1, fmt), t2[6..], BoundText(lo2, fmt));
  }

  /** Two buckets of one list never get the same label text, so grouping wells by
      label text groups them by bucket: the shapes differ, or, for two interior
      ranges, the lower bounds written after "entre " differ. */
  lemma LabelTextsDistinct(rs: seq<Range>, unit: string, j: nat, k: nat, fmt: real -> string)
    requires |rs| >= 2 && Increasing(Bins(rs)) && j < k < |rs|
    requires PlainOn(fmt, rs)
    ensures LabelText(Labels(rs, unit)[j], fmt) != LabelText(Labels(rs, unit)[k], fmt)
  {
    var lj, lk := Labels(rs, unit)[j], Labels(rs, unit)[k];
    if 0 < j && k < |rs| - 1 {
      assert Lt(Bins(rs)[j], Bins(rs)[k]);
      assert rs[j].lo.Fin? && rs[k].lo.Fin? ==> rs[j].lo.v != rs[k].lo.v;
      BetweenTextsDiffer(rs[j].lo, rs[j].hi, rs[k].lo, rs[k].hi, unit, fmt);
    } else {
      LabelTextDistinguishesShapes(lj, lk, fmt);
    }
  }

  /** A formatter that writes the default spacing list's finite lower bounds as
      Python does, and everything else as "0". */
  function DefaultBoundText(x: real): string {
    if x == 4.1 then "4.1" else if x == 6.2 then "6.2"
    else if x == 8.3 then "8.3" else if x == 10.4 then "10.4" else "0"
  }

  /** The default spacing list's finite lower bounds are 4.1, 6.2, 8.3 and 10.4. */
  lemma DefaultLowerBounds()
    ensures var rs := RangeList(DefaultSpacingRows());
      |rs| == 5 && forall p :: 0 <= p < |rs| && rs[p].lo.Fin? ==> rs[p].lo.v in {4.1, 6.2, 8.3, 10.4}
  {
    DefaultSpacingList();
  }

  /** The assumption `PlainOn` can be met: that formatter meets it on the default
      spacing list. */
  lemma DefaultBoundTextIsPlain()
    ensures PlainOn(DefaultBoundText, RangeList(DefaultSpacingRows()))
  {
    var rs := RangeList(DefaultSpacingRows());
    DefaultLowerBounds();
    forall x ensures ' ' !in DefaultBoundText(x) && DefaultBoundText(x) != "inf" && DefaultBoundText(x) != "-inf" {
    }
    forall p, q | (0 <= p < |rs| && 0 <= q < |rs| && rs[p].lo.Fin? && rs[q].lo.Fin? && rs[p].lo.v != rs[q].lo.v)
      ensures DefaultBoundText(rs[p].lo.v) != DefaultBoundText(rs[q].lo.v)
    {
      assert rs[p].lo.v in {4.1, 6.2, 8.3, 10.4} && rs[q].lo.v in {4.1, 6.2, 8.3, 10.4};
    }
  }

  /** With that formatter the default spacing list's five label texts are pairwise
      distinct. */
  lemma DefaultListTextsDistinct()
    ensures var rs := RangeList(DefaultSpacingRows());
      forall j, k :: 0 <= j < k < |rs| ==>
        LabelText(Labels(rs, "acres")[j], DefaultBoundText) != LabelText(Labels(rs, "acres")[k], DefaultBoundText)
  {
    var rs := RangeList(DefaultSpacingRows());
    DefaultSpacingList();
    DefaultBoundTextIsPlain();
    forall j, k | 0 <= j < k < |rs|
      ensures LabelText(Labels(rs, "acres")[j], DefaultBoundText) != LabelText(Labels(rs, "acres")[k], DefaultBoundText)
    {
      LabelTextsDistinct(rs, "acres", j, k, DefaultBoundText);
    }
  }
}
