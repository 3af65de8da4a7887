/** What a timeline shows (webui/src/chart.ts): which points it draws, where, and what counts as a gap.

  The drawing is read off its commands alone, with the arithmetic written out: equal steps of time and value are
  equal steps to the right and upwards, the axes end at the extremes, and the default threshold is three times
  the median spacing. */
module ChartScales {
  import opened Domain
  import opened Sequences
  import opened Timelines

  // ----- which points are drawn -----

  lemma {:induction false} FiniteOneMore(points: seq<Point>, p: Point)
    ensures FinitePoints(points + [p]) ==
            FinitePoints(points) + if p.value.Some? then [Finite(p.time, p.value.value)] else []
  {
    if points == [] {
      assert points + [p] == [p] && [p][1..] == [];
    } else {
      assert (points + [p])[1..] == points[1..] + [p];
      FiniteOneMore(points[1..], p);
    }
  }

  /** Point `k` is drawn as `f`. */
  predicate IsPoint(points: seq<Point>, k: nat, f: Finite) {
    k < |points| && points[k].time == f.time && points[k].value == Some(f.value)
  }

  /** At these positions, in order, are the points that have a value, and they are drawn as `fs`. */
  ghost predicate Selects(points: seq<Point>, at: seq<nat>, fs: seq<Finite>) {
    && |at| == |fs| && (forall i, j :: 0 <= i < j < |at| ==> at[i] < at[j])
    && (forall k: nat :: k in at <==> k < |points| && points[k].value.Some?)
    && forall i :: 0 <= i < |at| ==> IsPoint(points, at[i], fs[i])
  }

  lemma SelectsMore(points: seq<Point>, at: seq<nat>, fs: seq<Finite>, p: Point)
    requires Selects(points, at, fs)
    ensures if p.value.None? then Selects(points + [p], at, fs)
            else Selects(points + [p], at + [|points|], fs + [Finite(p.time, p.value.value)])
  {
    var more := points + [p];
    assert forall k: nat :: k in at ==> k < |points|;
    assert forall k: nat :: k < |points| ==> more[k] == points[k];
  }

  /** Exactly the points that have a value are drawn, in order. */
  lemma {:induction false} FiniteInOrder(points: seq<Point>) returns (at: seq<nat>)
    ensures Selects(points, at, FinitePoints(points))
  {
    at := [];
    if points == [] {
      assert FinitePoints(points) == [];
    } else {
      hide FinitePoints, Selects;
      var n := |points| - 1;
      var before := FiniteInOrder(points[..n]);
      FiniteOneMore(points[..n], points[n]);
      SelectsMore(points[..n], before, FinitePoints(points[..n]), points[n]);
      assert points == points[..n] + [points[n]];
      at := before + if points[n].value.Some? then [n] else [];
      assert before + [] == before && FinitePoints(points[..n]) + [] == FinitePoints(points[..n]);
    }
  }

  // ----- the axes -----

  /** All that the y axis has to cover. */
  function Heights(points: seq<Point>, thresholds: seq<real>): seq<real> { Values(FinitePoints(points)) + thresholds }

  ghost predicate Flat(ys: seq<real>) { forall i, j :: 0 <= i < |ys| && 0 <= j < |ys| ==> ys[i] == ys[j] }

  /** The x axis runs from the first point to the last or to the present, whichever is later; the y axis from the lowest
    to the highest of values and thresholds. Around a single height it leaves a tenth on either side, or one. */
  lemma AxesEndAtExtremes(points: seq<Point>, thresholds: seq<real>, width: real, height: real,
                          now: Option<real>, explicit: Option<real>)
    ensures var tl := Drawn(points, thresholds, width, height, now, explicit);
            var pts, ys := FinitePoints(points), Heights(points, thresholds);
            && tl.width == width && tl.height == height
            && (pts != [] ==> tl.xMin == pts[0].time && tl.xMax >= pts[|pts| - 1].time)
            && (pts != [] ==> tl.xMax == pts[|pts| - 1].time || now == Some(tl.xMax))
            && (now.Some? ==> tl.xMax >= now.value)
            && (ys == [] ==> tl.yMin == 0.0 && tl.yMax == 1.0)
            && (!Flat(ys) ==> tl.yMin in ys && tl.yMax in ys && forall y :: y in ys ==> tl.yMin <= y <= tl.yMax)
            && (ys != [] && Flat(ys) ==>
                  var pad := if ys[0] == 0.0 then 1.0 else if ys[0] > 0.0 then ys[0] / 10.0 else -ys[0] / 10.0;
                  tl.yMin == ys[0] - pad && tl.yMax == ys[0] + pad)
  {
    hide FinitePoints, GapThreshold, Commands, InternalGaps, TrailingGap, MinOf, MaxOf;
    var ys := Heights(points, thresholds);
    if ys != [] && MinOf(ys) == MaxOf(ys) {
      assert Flat(ys);
    }
  }

  // ----- where the points are drawn -----

  lemma ShareTimes(a: real, b: real, side: real)
    requires b != 0.0
    ensures Share(a, b) * side * b == a * side
  {
    var q := Share(a, b);
    assert q * side * b == q * b * side;
  }

  lemma AlongSteps(s: real, t: real, lo: real, hi: real, side: real)
    requires lo < hi
    ensures (Along(t, lo, hi, side) - Along(s, lo, hi, side)) * (hi - lo) == (t - s) * side
    ensures Along(lo, lo, hi, side) == 0.0 && Along(hi, lo, hi, side) == side
  {
    ShareTimes(t - lo, hi - lo, side);
    ShareTimes(s - lo, hi - lo, side);
    Whole(hi - lo, side);
  }

  lemma Whole(b: real, side: real)
    requires b != 0.0
    ensures Share(0.0, b) * side == 0.0 && Share(b, b) * side == side
  {
    assert Share(b, b) == 1.0 && Share(0.0, b) == 0.0;
  }

  lemma StepsAreUp(dy: real, dv: real, span: real, height: real)
    requires span > 0.0 && height > 0.0 && dy * span == dv * height && dv > 0.0
    ensures dy > 0.0
  {
  }

  /** The command of each point. */
  lemma CommandOfPoint(points: seq<Point>, thresholds: seq<real>, width: real, height: real,
                       now: Option<real>, explicit: Option<real>, i: nat)
    requires i < |FinitePoints(points)|
    ensures var tl := Drawn(points, thresholds, width, height, now, explicit);
            var pts := FinitePoints(points);
            && |tl.path| == |pts|
            && tl.path[i].x == ScaleX(pts[i].time, tl) && tl.path[i].y == ScaleY(pts[i].value, tl)
            && (tl.path[i].MoveTo? <==> Broken(Times(pts), i, GapThreshold(Times(pts), explicit)))
  {
    hide FinitePoints, GapThreshold, Broken, Along, Commands, InternalGaps, TrailingGap, YRange;
    var pts := FinitePoints(points);
    CommandAt(pts, GapThreshold(Times(pts), explicit), Frame(pts, thresholds, width, height, now), i);
  }

  lemma ScaleYSteps(v: real, u: real, tl: Timeline)
    requires tl.yMin < tl.yMax
    ensures (ScaleY(v, tl) - ScaleY(u, tl)) * (tl.yMax - tl.yMin) == (u - v) * tl.height
    ensures tl.height > 0.0 && v < u ==> ScaleY(u, tl) < ScaleY(v, tl)
    ensures ScaleY(tl.yMin, tl) == tl.height && ScaleY(tl.yMax, tl) == 0.0
  {
    hide Along;
    AlongSteps(v, u, tl.yMin, tl.yMax, tl.height);
    if tl.height > 0.0 && v < u {
      StepsAreUp(ScaleY(v, tl) - ScaleY(u, tl), u - v, tl.yMax - tl.yMin, tl.height);
    }
  }

  lemma YAxisIsWide(points: seq<Point>, thresholds: seq<real>, width: real, height: real,
                    now: Option<real>, explicit: Option<real>)
    ensures var tl := Drawn(points, thresholds, width, height, now, explicit); tl.yMin < tl.yMax && tl.height == height
  {
    hide FinitePoints, GapThreshold, Commands, InternalGaps, TrailingGap, YRange;
  }

  /** Upwards is more: equal steps of value are equal steps of y, from the bottom at the axis's lowest value to the
    top at its highest. */
  lemma ValuesAreHeights(points: seq<Point>, thresholds: seq<real>, width: real, height: real,
                         now: Option<real>, explicit: Option<real>, i: nat, j: nat)
    requires i < |FinitePoints(points)| && j < |FinitePoints(points)|
    ensures var tl := Drawn(points, thresholds, width, height, now, explicit);
            var pts := FinitePoints(points);
            && |tl.path| == |pts| && tl.yMin < tl.yMax
            && (tl.path[i].y - tl.path[j].y) * (tl.yMax - tl.yMin) == (pts[j].value - pts[i].value) * height
            && (height > 0.0 && pts[i].value < pts[j].value ==> tl.path[j].y < tl.path[i].y)
            && (pts[i].value == tl.yMin ==> tl.path[i].y == height)
            && (pts[i].value == tl.yMax ==> tl.path[i].y == 0.0)
  {
    hide FinitePoints, Drawn, ScaleY, ScaleX, GapThreshold, Broken;
    CommandOfPoint(points, thresholds, width, height, now, explicit, i);
    CommandOfPoint(points, thresholds, width, height, now, explicit, j);
    YAxisIsWide(points, thresholds, width, height, now, explicit);
    var tl := Drawn(points, thresholds, width, height, now, explicit);
    ScaleYSteps(FinitePoints(points)[i].value, FinitePoints(points)[j].value, tl);
  }

  /** To the right is later: equal steps of time are equal steps of x, from the first point at the left edge to the
    end of the axis at the right edge. */
  lemma TimesAreWidths(points: seq<Point>, thresholds: seq<real>, width: real, height: real,
                       now: Option<real>, explicit: Option<real>, i: nat, j: nat)
    requires Ordered(Times(FinitePoints(points)))
    requires i < |FinitePoints(points)| && j < |FinitePoints(points)|
    ensures var tl := Drawn(points, thresholds, width, height, now, explicit);
            var pts := FinitePoints(points);
            && |tl.path| == |pts| && tl.path[0].x == 0.0
            && (tl.path[j].x - tl.path[i].x) * (tl.xMax - tl.xMin) == (pts[j].time - pts[i].time) * width
            && (pts[i].time == tl.xMax && tl.xMin < tl.xMax ==> tl.path[i].x == width)
  {
    hide FinitePoints, GapThreshold, Broken, Along, Commands, InternalGaps, TrailingGap, YRange;
    CommandOfPoint(points, thresholds, width, height, now, explicit, 0);
    CommandOfPoint(points, thresholds, width, height, now, explicit, i);
    CommandOfPoint(points, thresholds, width, height, now, explicit, j);
    var tl := Drawn(points, thresholds, width, height, now, explicit);
    var ts := Times(FinitePoints(points));
    assert ts[0] <= ts[i] <= ts[|ts| - 1] && ts[0] <= ts[j] <= ts[|ts| - 1];
    if tl.xMin < tl.xMax {
      AlongSteps(ts[i], ts[j], tl.xMin, tl.xMax, width);
    }
  }

  // ----- what counts as a gap -----

  function CountBelow(s: seq<real>, t: real): (n: nat)
    ensures n <= |s|
  {
    if s == [] then 0 else CountBelow(s[..|s| - 1], t) + if s[|s| - 1] < t then 1 else 0
  }

  lemma {:induction false} BelowCons(s: seq<real>, x: real, t: real)
    ensures CountBelow([x] + s, t) == CountBelow(s, t) + if x < t then 1 else 0
  {
    if s != [] {
      assert ([x] + s)[..|s|] == [x] + s[..|s| - 1];
      BelowCons(s[..|s| - 1], x, t);
    } else {
      assert [x] + s == [x] && [x][..0] == [];
    }
  }

  lemma {:induction false} BelowPut(s: seq<real>, x: real, t: real)
    ensures CountBelow(Put(AtMost, s, x), t) == CountBelow(s, t) + if x < t then 1 else 0
  {
    BelowCons(s, x, t);
    if s != [] && x > s[0] {
      BelowPut(s[1..], x, t);
      BelowCons(Put(AtMost, s[1..], x), s[0], t);
      BelowCons(s[1..], s[0], t);
      assert s == [s[0]] + s[1..];
    }
  }

  lemma {:induction false} BelowSort(s: seq<real>, t: real)
    ensures CountBelow(Sort(AtMost, s), t) == CountBelow(s, t)
  {
    if s != [] {
      hide CountBelow;
      BelowSort(s[1..], t);
      BelowPut(Sort(AtMost, s[1..]), s[0], t);
      BelowCons(s[1..], s[0], t);
      assert s == [s[0]] + s[1..];
    }
  }

  /** In an ordered list, what is below the element at `m` comes before it. */
  lemma {:induction false} BelowBefore(s: seq<real>, m: nat)
    requires Ordered(s) && m < |s|
    ensures CountBelow(s, s[m]) <= m
  {
    BelowUpTo(s, s[m], m);
  }

  lemma {:induction false} BelowUpTo(s: seq<real>, t: real, m: nat)
    requires m <= |s| && forall i :: m <= i < |s| ==> s[i] >= t
    ensures CountBelow(s, t) <= m
  {
    if m < |s| {
      BelowUpTo(s[..|s| - 1], t, m);
    }
  }

  /** `m` is the upper median: it occurs, at most half of the others are less and fewer than half are more. */
  ghost predicate IsMedian(ds: seq<real>, m: real) {
    m in ds && CountBelow(ds, m) <= |ds| / 2 && CountAbove(ds, m) < |ds| - |ds| / 2
  }

  /** Without an explicit threshold it is three times the median of the spacings above zero, and there is none when no
    spacing is above zero. */
  lemma DefaultIsThreeMedians(ts: seq<real>)
    ensures var ds := Positive(Spacings(ts));
            if ds == [] then GapThreshold(ts, None) == None
            else exists m :: IsMedian(ds, m) && GapThreshold(ts, None) == Some(3.0 * m)
  {
    hide Sort, Spacings, Positive;
    var ds := Positive(Spacings(ts));
    if ds != [] {
      var sorted := Sort(AtMost, ds);
      var m := sorted[|sorted| / 2];
      SortOrdered(ds);
      BelowBefore(sorted, |sorted| / 2);
      BelowSort(ds, m);
      CountBehind(sorted, |sorted| / 2, m);
      CountSort(ds, m);
      assert m in sorted;
      assert IsMedian(ds, m);
      assert GapThreshold(ts, None) == Some(3.0 * m);
    }
  }

  lemma {:induction false} SpacingAt(ts: seq<real>, i: nat)
    requires i + 1 < |ts|
    ensures Spacings(ts)[i] == ts[i + 1] - ts[i]
  {
    if i + 2 < |ts| {
      SpacingAt(ts[..|ts| - 1], i);
    }
  }

  lemma {:induction false} PositiveIs(ds: seq<real>, d: real)
    ensures d in Positive(ds) <==> d in ds && d > 0.0
    ensures |Positive(ds)| == CountAbove(ds, 0.0)
  {
    if ds != [] {
      PositiveIs(ds[..|ds| - 1], d);
      assert ds == ds[..|ds| - 1] + [ds[|ds| - 1]];
    }
  }

  /** A new stroke starts at the first point and after every spacing above the threshold. */
  lemma StrokesStartAfterGaps(points: seq<Point>, thresholds: seq<real>, width: real, height: real,
                              now: Option<real>, explicit: Option<real>, i: nat)
    requires i < |FinitePoints(points)|
    ensures var tl := Drawn(points, thresholds, width, height, now, explicit);
            var pts := FinitePoints(points);
            var gap := GapThreshold(Times(pts), explicit);
            && (explicit.Some? ==> gap == explicit) && i < |tl.path|
            && (tl.path[i].MoveTo? <==> i == 0 || (gap.Some? && pts[i].time - pts[i - 1].time > gap.value))
  {
    hide FinitePoints, Along, Commands, InternalGaps, TrailingGap, YRange, Sort, Spacings;
    CommandOfPoint(points, thresholds, width, height, now, explicit, i);
  }

  /** The gaps of a timeline: an instant is in one exactly when it lies between two neighbouring points, or between the
    last point and the end of the axis, that are further apart than the threshold. */
  lemma GapsOnAxisIff(points: seq<Point>, thresholds: seq<real>, width: real, height: real,
                      now: Option<real>, explicit: Option<real>, t: real)
    ensures var tl := Drawn(points, thresholds, width, height, now, explicit);
            var ts := Times(FinitePoints(points));
            (exists g :: g in tl.gaps && g.from < t < g.to) <==>
            || (exists i :: SilentAt(ts, i, GapThreshold(ts, explicit), t))
            || SilentAfter(ts, tl.xMax, GapThreshold(ts, explicit), t)
  {
    hide FinitePoints, GapThreshold, Commands, InternalGaps, TrailingGap, YRange, SilentAt, SilentAfter;
    var ts := Times(FinitePoints(points));
    var tl := Drawn(points, thresholds, width, height, now, explicit);
    InGapIff(ts, tl.xMax, GapThreshold(ts, explicit), t);
    assert tl.gaps == AllGaps(ts, tl.xMax, GapThreshold(ts, explicit));
  }
}
