/** The history timeline (webui/src/chart.ts).

  Values and instants are reals; rounding coordinates to one decimal is left out, so a path is the list of
  its drawing commands. The gaps of a timeline are proved to be exactly the silent stretches: ordered,
  without samples inside, and adding up with the connected stretches to the width of the axis. */
module Timelines {
  import opened Domain
  import opened Sequences

  /** A sample on the chart; a value that is not finite is None. */
  datatype Point = Point(time: real, value: Option<real>)

  datatype Gap = Gap(from: real, to: real)

  /** One path command: M starts a run, L continues it. */
  datatype Command = MoveTo(x: real, y: real) | LineTo(x: real, y: real)

  datatype Timeline = Timeline(width: real, height: real, xMin: real, xMax: real, yMin: real, yMax: real,
                               path: seq<Command>, gaps: seq<Gap>)

  datatype Finite = Finite(time: real, value: real)

  /** The points with a finite value. */
  function FinitePoints(points: seq<Point>): seq<Finite> {
    if points == [] then []
    else
      var p := points[0];
      (if p.value.None? then [] else [Finite(p.time, p.value.value)]) + FinitePoints(points[1..])
  }

  function Times(pts: seq<Finite>): (ts: seq<real>)
    ensures |ts| == |pts| && forall i :: 0 <= i < |ts| ==> ts[i] == pts[i].time
  {
    seq(|pts|, i requires 0 <= i < |pts| => pts[i].time)
  }

  function Values(pts: seq<Finite>): (vs: seq<real>)
    ensures |vs| == |pts| && forall i :: 0 <= i < |vs| ==> vs[i] == pts[i].value
  {
    seq(|pts|, i requires 0 <= i < |pts| => pts[i].value)
  }

  predicate Ordered(ts: seq<real>) { forall i, j :: 0 <= i < j < |ts| ==> ts[i] <= ts[j] }

  // ----- the gap threshold -----

  /** Spacings between consecutive instants. */
  function Spacings(ts: seq<real>): (ds: seq<real>)
    ensures |ds| == if |ts| < 2 then 0 else |ts| - 1
  {
    if |ts| < 2 then [] else Spacings(ts[..|ts| - 1]) + [ts[|ts| - 1] - ts[|ts| - 2]]
  }

  function Positive(ds: seq<real>): (r: seq<real>)
    ensures forall i :: 0 <= i < |r| ==> r[i] > 0.0
  {
    if ds == [] then []
    else Positive(ds[..|ds| - 1]) + if ds[|ds| - 1] > 0.0 then [ds[|ds| - 1]] else []
  }

  predicate AtMost(a: real, b: real) { a <= b }

  lemma {:induction false} PutOrdered(s: seq<real>, x: real)
    requires Ordered(s)
    ensures Ordered(Put(AtMost, s, x))
  {
    if s != [] && x > s[0] {
      PutOrdered(s[1..], x);
      var rest := Put(AtMost, s[1..], x);
      forall j | 0 <= j < |rest| ensures s[0] <= rest[j] {
        assert rest[j] in rest;
      }
    }
  }

  lemma {:induction false} SortOrdered(s: seq<real>)
    ensures Ordered(Sort(AtMost, s))
  {
    if s != [] {
      SortOrdered(s[1..]);
      PutOrdered(Sort(AtMost, s[1..]), s[0]);
    }
  }

  /** Spacing beyond which two samples are not contiguous; None is infinite. */
  function GapThreshold(ts: seq<real>, explicit: Option<real>): Option<real> {
    if explicit.Some? then explicit
    else
      var ds := Sort(AtMost, Positive(Spacings(ts)));
      if |ds| == 0 then None else Some(3.0 * ds[|ds| / 2])
  }

  predicate Exceeds(d: real, gap: Option<real>) { gap.Some? && d > gap.value }

  // ----- the drawing -----

  function Abs(v: real): real { if v < 0.0 then -v else v }

  /** The y range; a flat series is padded so that the range is never empty. */
  function YRange(ys: seq<real>): (r: (real, real))
    ensures r.0 < r.1
    ensures forall i :: 0 <= i < |ys| ==> r.0 <= ys[i] <= r.1
    ensures ys != [] && (forall i :: 0 <= i < |ys| ==> ys[i] == ys[0]) ==> ys[0] - r.0 == r.1 - ys[0]
  {
    var lo := if ys == [] then 0.0 else MinOf(ys);
    var hi := if ys == [] then 1.0 else MaxOf(ys);
    var pad := if lo != hi then 0.0 else Padding(lo);
    (lo - pad, hi + pad)
  }

  function Padding(v: real): (pad: real)
    ensures pad > 0.0
  {
    if Abs(v) * 0.1 == 0.0 then 1.0 else Abs(v) * 0.1
  }

  /** The quotient of a part and a whole, under a name so that a proof can set it aside. */
  function Share(a: real, b: real): (q: real)
    requires b != 0.0
    ensures q * b == a
  {
    a / b
  }

  /** Where `t` lies between `lo` and `hi`, scaled to `side`. */
  function Along(t: real, lo: real, hi: real, side: real): real
    requires hi - lo != 0.0
  {
    Share(t - lo, hi - lo) * side
  }

  function ScaleX(t: real, tl: Timeline): real {
    if tl.xMax - tl.xMin == 0.0 then 0.0 else Along(t, tl.xMin, tl.xMax, tl.width)
  }

  function ScaleY(v: real, tl: Timeline): real {
    if tl.yMax - tl.yMin == 0.0 then tl.height / 2.0
    else tl.height - Along(v, tl.yMin, tl.yMax, tl.height)
  }

  predicate Broken(ts: seq<real>, i: nat, gap: Option<real>)
    requires i < |ts|
  {
    i == 0 || Exceeds(ts[i] - ts[i - 1], gap)
  }

  /** The gaps between samples. */
  function InternalGaps(ts: seq<real>, gap: Option<real>): seq<Gap> {
    if |ts| < 2 then []
    else
      InternalGaps(ts[..|ts| - 1], gap) + if Broken(ts, |ts| - 1, gap) then [Gap(ts[|ts| - 2], ts[|ts| - 1])] else []
  }

  /** The gap after the last sample, if the axis goes on for long enough. */
  function TrailingGap(ts: seq<real>, xMax: real, gap: Option<real>): seq<Gap> {
    if ts != [] && Exceeds(xMax - ts[|ts| - 1], gap) then [Gap(ts[|ts| - 1], xMax)] else []
  }

  /** The command that draws point `i`. */
  function DrawPoint(pts: seq<Finite>, i: nat, gap: Option<real>, frame: Timeline): Command
    requires i < |pts|
  {
    var x, y := ScaleX(pts[i].time, frame), ScaleY(pts[i].value, frame);
    if Broken(Times(pts), i, gap) then MoveTo(x, y) else LineTo(x, y)
  }

  function Commands(pts: seq<Finite>, gap: Option<real>, frame: Timeline): (cs: seq<Command>)
    ensures |cs| == |pts|
  {
    if pts == [] then []
    else
      Commands(pts[..|pts| - 1], gap, frame) + [DrawPoint(pts, |pts| - 1, gap, frame)]
  }

  /** The axes, before anything is drawn. */
  function Frame(pts: seq<Finite>, thresholds: seq<real>, width: real, height: real, now: Option<real>): Timeline {
    var last := if pts == [] then 1.0 else pts[|pts| - 1].time;
    var xMin := if pts == [] then 0.0 else pts[0].time;
    var xMax := if now.Some? && now.value > last then now.value else last;
    var y := YRange(Values(pts) + thresholds);
    Timeline(width, height, xMin, xMax, y.0, y.1, [], [])
  }

  function Drawn(points: seq<Point>, thresholds: seq<real>, width: real, height: real,
                 now: Option<real>, explicit: Option<real>): Timeline {
    var pts := FinitePoints(points);
    var ts := Times(pts);
    var frame := Frame(pts, thresholds, width, height, now);
    var gap := GapThreshold(ts, explicit);
    frame.(path := Commands(pts, gap, frame), gaps := InternalGaps(ts, gap) + TrailingGap(ts, frame.xMax, gap))
  }

  lemma PrefixTimes(pts: seq<Finite>, i: nat)
    requires i <= |pts|
    ensures Times(pts[..i]) == Times(pts)[..i]
  {
  }

  lemma OneMorePoint(pts: seq<Finite>, i: nat, gap: Option<real>, frame: Timeline)
    requires i < |pts|
    ensures Commands(pts[..i + 1], gap, frame) == Commands(pts[..i], gap, frame) + [DrawPoint(pts, i, gap, frame)]
    ensures InternalGaps(Times(pts)[..i + 1], gap) ==
            if i > 0 && Broken(Times(pts), i, gap)
            then InternalGaps(Times(pts)[..i], gap) + [Gap(pts[i - 1].time, pts[i].time)]
            else InternalGaps(Times(pts)[..i], gap)
  {
    hide ScaleX, ScaleY, Exceeds;
    var ts := Times(pts);
    assert pts[..i + 1][..i] == pts[..i] && ts[..i + 1][..i] == ts[..i];
    assert i > 0 ==> Broken(ts[..i + 1], i, gap) == Broken(ts, i, gap);
    PrefixTimes(pts, i + 1);
  }

  method Draw(points: seq<Point>, thresholds: seq<real>, width: real, height: real,
              now: Option<real>, explicit: Option<real>) returns (tl: Timeline)
    ensures tl == Drawn(points, thresholds, width, height, now, explicit)
  {
    hide FinitePoints, Padding, MinOf, MaxOf, GapThreshold, ScaleX, ScaleY, Exceeds, Commands, InternalGaps;
    var pts := FinitePoints(points);
    var ys := Values(pts) + thresholds;
    var yMin := if ys == [] then 0.0 else MinOf(ys);
    var yMax := if ys == [] then 1.0 else MaxOf(ys);
    if yMin == yMax {
      var pad := Padding(yMin);
      yMin := yMin - pad;
      yMax := yMax + pad;
    }
    var last := if pts == [] then 1.0 else pts[|pts| - 1].time;
    tl := Timeline(width, height, if pts == [] then 0.0 else pts[0].time,
                   if now.Some? && now.value > last then now.value else last, yMin, yMax, [], []);
    assert tl == Frame(pts, thresholds, width, height, now);
    var ts := Times(pts);
    var gap := GapThreshold(ts, explicit);
    var parts, gaps := DrawPoints(pts, gap, tl);
    if pts != [] && Exceeds(tl.xMax - last, gap) {
      gaps := gaps + [Gap(last, tl.xMax)];
    }
    tl := tl.(path := parts, gaps := gaps);
  }

  /** The loop over the points. */
  method DrawPoints(pts: seq<Finite>, gap: Option<real>, tl: Timeline) returns (parts: seq<Command>, gaps: seq<Gap>)
    ensures parts == Commands(pts, gap, tl)
    ensures gaps == InternalGaps(Times(pts), gap)
  {
    hide Exceeds, ScaleX, ScaleY, Commands, InternalGaps;
    ghost var ts := Times(pts);
    parts, gaps := [], [];
    NothingDrawn(pts[..0], ts[..0], gap, tl);
    for i := 0 to |pts|
      invariant parts == Commands(pts[..i], gap, tl)
      invariant gaps == InternalGaps(ts[..i], gap)
    {
      OneMorePoint(pts, i, gap, tl);
      var p := pts[i];
      var broken := i == 0 || Exceeds(p.time - pts[i - 1].time, gap);
      if i > 0 && broken {
        gaps := gaps + [Gap(pts[i - 1].time, p.time)];
      }
      var x, y := ScaleX(p.time, tl), ScaleY(p.value, tl);
      parts := parts + [if broken then MoveTo(x, y) else LineTo(x, y)];
    }
    assert pts[..|pts|] == pts && ts[..|ts|] == ts;
  }

  lemma NothingDrawn(pts: seq<Finite>, ts: seq<real>, gap: Option<real>, tl: Timeline)
    requires pts == [] && ts == []
    ensures Commands(pts, gap, tl) == [] && InternalGaps(ts, gap) == []
  {
  }

  // ----- gaps are the silent stretches -----

  /** Between samples `i - 1` and `i` the series is broken. */
  predicate BreakAt(ts: seq<real>, i: int, gap: Option<real>) {
    0 < i < |ts| && Broken(ts, i, gap)
  }

  lemma {:induction false} InternalGapIff(ts: seq<real>, gap: Option<real>, g: Gap)
    ensures g in InternalGaps(ts, gap) <==> exists i :: BreakAt(ts, i, gap) && g == Gap(ts[i - 1], ts[i])
  {
    if |ts| >= 2 {
      var n := |ts| - 1;
      InternalGapIff(ts[..n], gap, g);
      forall i | BreakAt(ts, i, gap) && i < n ensures BreakAt(ts[..n], i, gap) {
      }
      if g in InternalGaps(ts[..n], gap) {
        var i :| BreakAt(ts[..n], i, gap) && g == Gap(ts[..n][i - 1], ts[..n][i]);
        assert BreakAt(ts, i, gap);
      }
      assert Broken(ts, n, gap) <==> BreakAt(ts, n, gap);
    }
  }

  function AllGaps(ts: seq<real>, xMax: real, gap: Option<real>): seq<Gap> {
    InternalGaps(ts, gap) + TrailingGap(ts, xMax, gap)
  }

  ghost predicate Disjoint(gaps: seq<Gap>) {
    && (forall i :: 0 <= i < |gaps| ==> gaps[i].from <= gaps[i].to)
    && (forall i, j :: 0 <= i < j < |gaps| ==> gaps[i].to <= gaps[j].from)
  }

  lemma {:induction false} InternalGapsDisjoint(ts: seq<real>, gap: Option<real>)
    requires Ordered(ts)
    ensures Disjoint(InternalGaps(ts, gap))
    ensures ts != [] ==> forall g :: g in InternalGaps(ts, gap) ==> g.to <= ts[|ts| - 1]
  {
    if |ts| >= 2 {
      InternalGapsDisjoint(ts[..|ts| - 1], gap);
    }
  }

  /** Gaps come in order, share no interior, and no sample lies strictly inside one. */
  lemma GapsAreSilent(ts: seq<real>, xMax: real, gap: Option<real>)
    requires Ordered(ts) && (ts != [] ==> ts[|ts| - 1] <= xMax)
    ensures Disjoint(AllGaps(ts, xMax, gap))
    ensures forall g, k :: g in AllGaps(ts, xMax, gap) && 0 <= k < |ts| ==> !(g.from < ts[k] < g.to)
  {
    hide Exceeds, InternalGaps;
    InternalGapsDisjoint(ts, gap);
    forall g, k | g in AllGaps(ts, xMax, gap) && 0 <= k < |ts| ensures !(g.from < ts[k] < g.to) {
      if g in InternalGaps(ts, gap) {
        InternalGapIff(ts, gap, g);
      }
    }
  }

  /** `t` lies between samples `i - 1` and `i`, and these are further apart than the threshold. */
  predicate SilentAt(ts: seq<real>, i: int, gap: Option<real>, t: real) {
    0 < i < |ts| && ts[i - 1] < t < ts[i] && gap.Some? && ts[i] - ts[i - 1] > gap.value
  }

  /** `t` lies between the last sample and the edge of the axis, and these are further apart than the threshold. */
  predicate SilentAfter(ts: seq<real>, xMax: real, gap: Option<real>, t: real) {
    ts != [] && ts[|ts| - 1] < t < xMax && gap.Some? && xMax - ts[|ts| - 1] > gap.value
  }

  /** An instant is inside a gap exactly when what surrounds it is further apart than the threshold. */
  lemma InGapIff(ts: seq<real>, xMax: real, gap: Option<real>, t: real)
    ensures (exists g :: g in AllGaps(ts, xMax, gap) && g.from < t < g.to) <==>
            (exists i :: SilentAt(ts, i, gap, t)) || SilentAfter(ts, xMax, gap, t)
  {
    hide InternalGaps;
    forall g | g in AllGaps(ts, xMax, gap) && g.from < t < g.to
      ensures (exists i :: SilentAt(ts, i, gap, t)) || SilentAfter(ts, xMax, gap, t)
    {
      if g in InternalGaps(ts, gap) {
        InternalGapIff(ts, gap, g);
        var i :| BreakAt(ts, i, gap) && g == Gap(ts[i - 1], ts[i]);
        assert SilentAt(ts, i, gap, t);
      }
    }
    forall i | SilentAt(ts, i, gap, t) ensures exists g :: g in AllGaps(ts, xMax, gap) && g.from < t < g.to {
      InternalGapIff(ts, gap, Gap(ts[i - 1], ts[i]));
      assert BreakAt(ts, i, gap);
      assert Gap(ts[i - 1], ts[i]) in AllGaps(ts, xMax, gap);
    }
    if SilentAfter(ts, xMax, gap, t) {
      assert AllGaps(ts, xMax, gap)[|InternalGaps(ts, gap)|] == Gap(ts[|ts| - 1], xMax);
    }
  }

  // ----- lengths and counts -----

  function Length(gaps: seq<Gap>): real {
    if gaps == [] then 0.0 else Length(gaps[..|gaps| - 1]) + (gaps[|gaps| - 1].to - gaps[|gaps| - 1].from)
  }

  lemma LengthSnoc(gaps: seq<Gap>, g: Gap)
    ensures Length(gaps + [g]) == Length(gaps) + (g.to - g.from)
  {
    assert (gaps + [g])[..|gaps|] == gaps;
  }

  /** Total length of the spacings that are drawn as lines. */
  function Connected(ts: seq<real>, gap: Option<real>): real {
    if |ts| < 2 then 0.0
    else
      Connected(ts[..|ts| - 1], gap) + if Broken(ts, |ts| - 1, gap) then 0.0 else ts[|ts| - 1] - ts[|ts| - 2]
  }

  /** What is left of the axis after the last sample, when that is no gap. */
  function Remainder(ts: seq<real>, xMax: real, gap: Option<real>): real
    requires ts != []
  {
    if Exceeds(xMax - ts[|ts| - 1], gap) then 0.0 else xMax - ts[|ts| - 1]
  }

  lemma {:induction false} InternalLengths(ts: seq<real>, gap: Option<real>)
    requires ts != []
    ensures Length(InternalGaps(ts, gap)) + Connected(ts, gap) == ts[|ts| - 1] - ts[0]
  {
    hide Broken, Length;
    var n := |ts| - 1;
    if n == 0 {
      assert Length([]) == 0.0 by { EmptyLength(); }
    } else {
      InternalLengths(ts[..n], gap);
      LengthSnoc(InternalGaps(ts[..n], gap), Gap(ts[n - 1], ts[n]));
      assert InternalGaps(ts[..n], gap) + [] == InternalGaps(ts[..n], gap);
    }
  }

  lemma EmptyLength()
    ensures Length([]) == 0.0
  {
  }

  /** Gaps, connected stretches and the trailing remainder add up to the axis. */
  lemma LengthsAddUp(ts: seq<real>, xMax: real, gap: Option<real>)
    requires ts != []
    ensures Length(AllGaps(ts, xMax, gap)) + Connected(ts, gap) + Remainder(ts, xMax, gap) == xMax - ts[0]
  {
    hide Length, Connected, InternalGaps, Exceeds;
    InternalLengths(ts, gap);
    LengthSnoc(InternalGaps(ts, gap), Gap(ts[|ts| - 1], xMax));
    assert InternalGaps(ts, gap) + [] == InternalGaps(ts, gap);
  }

  function Runs(cs: seq<Command>): nat {
    if cs == [] then 0 else Runs(cs[..|cs| - 1]) + if cs[|cs| - 1].MoveTo? then 1 else 0
  }

  lemma RunsSnoc(cs: seq<Command>, c: Command)
    ensures Runs(cs + [c]) == Runs(cs) + if c.MoveTo? then 1 else 0
  {
    assert (cs + [c])[..|cs|] == cs;
  }

  /** The path has one run more than there are gaps between samples. */
  lemma {:induction false} OneRunMoreThanGaps(pts: seq<Finite>, gap: Option<real>, frame: Timeline)
    requires pts != []
    ensures Runs(Commands(pts, gap, frame)) == |InternalGaps(Times(pts), gap)| + 1
  {
    hide ScaleX, ScaleY, Exceeds, Runs;
    var n := |pts| - 1;
    PrefixTimes(pts, n);
    RunsSnoc(Commands(pts[..n], gap, frame), Commands(pts, gap, frame)[n]);
    if n > 0 {
      OneRunMoreThanGaps(pts[..n], gap, frame);
    } else {
      assert Commands(pts[..0], gap, frame) == [];
      assert Runs([]) == 0 by { NoRuns(); }
    }
  }

  lemma NoRuns()
    ensures Runs([]) == 0
  {
  }

  // ----- the default threshold -----

  function CountAbove(s: seq<real>, t: real): (n: nat)
    ensures n <= |s|
  {
    if s == [] then 0 else CountAbove(s[..|s| - 1], t) + if s[|s| - 1] > t then 1 else 0
  }

  lemma CountSnoc(s: seq<real>, x: real, t: real)
    ensures CountAbove(s + [x], t) == CountAbove(s, t) + if x > t then 1 else 0
  {
    assert (s + [x])[..|s|] == s;
  }

  lemma {:induction false} CountCons(s: seq<real>, x: real, t: real)
    ensures CountAbove([x] + s, t) == CountAbove(s, t) + if x > t then 1 else 0
  {
    if s != [] {
      assert ([x] + s)[..|s|] == [x] + s[..|s| - 1];
      CountCons(s[..|s| - 1], x, t);
    } else {
      assert [x] + s == [x] && [x][..0] == [];
    }
  }

  lemma {:induction false} CountPut(s: seq<real>, x: real, t: real)
    ensures CountAbove(Put(AtMost, s, x), t) == CountAbove(s, t) + if x > t then 1 else 0
  {
    CountCons(s, x, t);
    if s != [] && x > s[0] {
      CountPut(s[1..], x, t);
      CountCons(Put(AtMost, s[1..], x), s[0], t);
      CountCons(s[1..], s[0], t);
      assert s == [s[0]] + s[1..];
    }
  }

  lemma {:induction false} CountSort(s: seq<real>, t: real)
    ensures CountAbove(Sort(AtMost, s), t) == CountAbove(s, t)
  {
    if s != [] {
      hide CountAbove;
      CountSort(s[1..], t);
      CountPut(Sort(AtMost, s[1..]), s[0], t);
      CountCons(s[1..], s[0], t);
      assert s == [s[0]] + s[1..];
    }
  }

  /** In an ordered list, what exceeds the element at `m` comes behind it. */
  lemma {:induction false} CountBehind(s: seq<real>, m: nat, t: real)
    requires Ordered(s) && m < |s| && s[m] <= t
    ensures CountAbove(s, t) <= |s| - m - 1
  {
    if m < |s| - 1 {
      CountBehind(s[..|s| - 1], m, t);
    } else {
      NoneAbove(s, t);
    }
  }

  lemma {:induction false} NoneAbove(s: seq<real>, t: real)
    requires forall i :: 0 <= i < |s| ==> s[i] <= t
    ensures CountAbove(s, t) == 0
  {
    if s != [] {
      NoneAbove(s[..|s| - 1], t);
    }
  }

  lemma PositiveSnoc(ds: seq<real>, d: real)
    ensures Positive(ds + [d]) == if d > 0.0 then Positive(ds) + [d] else Positive(ds)
  {
    assert (ds + [d])[..|ds|] == ds;
  }

  lemma PositiveOfNone(t: real)
    ensures CountAbove(Positive([]), t) == CountAbove([], t)
  {
  }

  lemma {:induction false} CountPositive(ds: seq<real>, t: real)
    requires t >= 0.0
    ensures CountAbove(Positive(ds), t) == CountAbove(ds, t)
  {
    hide CountAbove, Positive;
    if ds == [] {
      PositiveOfNone(t);
    } else {
      var init, d := ds[..|ds| - 1], ds[|ds| - 1];
      assert ds == init + [d];
      CountPositive(init, t);
      PositiveSnoc(init, d);
      CountSnoc(Positive(init), d, t);
      CountSnoc(init, d, t);
    }
  }

  /** One instant more: its spacing is a gap when it exceeds the threshold. */
  lemma GapsOneMore(ts: seq<real>, t: real)
    requires |ts| >= 2
    ensures var d := ts[|ts| - 1] - ts[|ts| - 2];
            && Spacings(ts) == Spacings(ts[..|ts| - 1]) + [d]
            && |InternalGaps(ts, Some(t))| == |InternalGaps(ts[..|ts| - 1], Some(t))| + if d > t then 1 else 0
  {
  }

  lemma NothingCounted(ts: seq<real>, t: real)
    requires |ts| < 2
    ensures |InternalGaps(ts, Some(t))| == 0 == CountAbove(Spacings(ts), t)
  {
  }

  lemma {:induction false} GapsAreCounted(ts: seq<real>, t: real)
    ensures |InternalGaps(ts, Some(t))| == CountAbove(Spacings(ts), t)
  {
    hide InternalGaps, Spacings, CountAbove;
    if |ts| < 2 {
      NothingCounted(ts, t);
    } else {
      GapsAreCounted(ts[..|ts| - 1], t);
      GapsOneMore(ts, t);
      CountSnoc(Spacings(ts[..|ts| - 1]), ts[|ts| - 1] - ts[|ts| - 2], t);
    }
  }

  /** With the default threshold fewer than half of the positive spacings are gaps: of `n` at most n/2 rounded up, less
    one. */
  lemma DefaultGapsAreFew(ts: seq<real>)
    ensures var n := |Positive(Spacings(ts))|;
            var gaps := |InternalGaps(ts, GapThreshold(ts, None))|;
            if n == 0 then gaps == 0 else gaps <= (n + 1) / 2 - 1
  {
    hide InternalGaps, Spacings, Positive, Sort;
    var ds := Positive(Spacings(ts));
    var sorted := Sort(AtMost, ds);
    if |ds| == 0 {
      NoGapsWithoutThreshold(ts);
    } else {
      var median := sorted[|sorted| / 2];
      assert median > 0.0 by { assert median in sorted; }
      SortOrdered(ds);
      GapsAreCounted(ts, 3.0 * median);
      CountPositive(Spacings(ts), 3.0 * median);
      CountSort(ds, 3.0 * median);
      CountBehind(sorted, |sorted| / 2, 3.0 * median);
    }
  }

  lemma {:induction false} NoGapsWithoutThreshold(ts: seq<real>)
    ensures InternalGaps(ts, None) == []
  {
    if |ts| >= 2 {
      NoGapsWithoutThreshold(ts[..|ts| - 1]);
    }
  }

  // ----- the drawing stays in its box -----

  lemma ShareInside(a: real, b: real)
    requires 0.0 <= a <= b && b > 0.0
    ensures 0.0 <= Share(a, b) <= 1.0
  {
  }

  lemma ShareGrows(a: real, a': real, b: real)
    requires a <= a' && b > 0.0
    ensures Share(a, b) <= Share(a', b)
  {
  }

  lemma Part(q: real, side: real)
    requires 0.0 <= q <= 1.0 && side >= 0.0
    ensures 0.0 <= q * side <= side
  {
  }

  lemma PartGrows(q: real, q': real, side: real)
    requires q <= q' && side >= 0.0
    ensures q * side <= q' * side
  {
  }

  lemma AlongInside(t: real, lo: real, hi: real, side: real)
    requires lo <= t <= hi && lo < hi && side >= 0.0
    ensures 0.0 <= Along(t, lo, hi, side) <= side
  {
    ShareInside(t - lo, hi - lo);
    hide Share;
    Part(Share(t - lo, hi - lo), side);
  }

  lemma AlongGrows(t: real, t': real, lo: real, hi: real, side: real)
    requires t <= t' && lo < hi && side >= 0.0
    ensures Along(t, lo, hi, side) <= Along(t', lo, hi, side)
  {
    ShareGrows(t - lo, t' - lo, hi - lo);
    hide Share;
    PartGrows(Share(t - lo, hi - lo), Share(t' - lo, hi - lo), side);
  }

  lemma XInside(t: real, tl: Timeline)
    requires tl.xMin <= t <= tl.xMax && tl.width >= 0.0
    ensures 0.0 <= ScaleX(t, tl) <= tl.width
  {
    hide Along;
    if tl.xMax - tl.xMin != 0.0 {
      AlongInside(t, tl.xMin, tl.xMax, tl.width);
    }
  }

  lemma XGrows(t: real, t': real, tl: Timeline)
    requires t <= t' && tl.xMin <= tl.xMax && tl.width >= 0.0
    ensures ScaleX(t, tl) <= ScaleX(t', tl)
  {
    hide Along;
    if tl.xMax - tl.xMin != 0.0 {
      AlongGrows(t, t', tl.xMin, tl.xMax, tl.width);
    }
  }

  lemma YInside(v: real, tl: Timeline)
    requires tl.yMin < tl.yMax && tl.yMin <= v <= tl.yMax && tl.height >= 0.0
    ensures 0.0 <= ScaleY(v, tl) <= tl.height
  {
    hide Along;
    AlongInside(v, tl.yMin, tl.yMax, tl.height);
  }

  lemma {:induction false} CommandAt(pts: seq<Finite>, gap: Option<real>, frame: Timeline, i: nat)
    requires i < |pts|
    ensures Commands(pts, gap, frame)[i] == DrawPoint(pts, i, gap, frame)
  {
    hide ScaleX, ScaleY, Exceeds;
    var n := |pts| - 1;
    if i < n {
      CommandAt(pts[..n], gap, frame, i);
      PrefixTimes(pts, n);
    }
  }

  /** Every point of the path and every threshold line lies in the box, and the path never turns back. */
  lemma DrawnInsideBox(points: seq<Point>, thresholds: seq<real>, width: real, height: real,
                       now: Option<real>, explicit: Option<real>)
    requires Ordered(Times(FinitePoints(points))) && width >= 0.0 && height >= 0.0
    ensures var tl := Drawn(points, thresholds, width, height, now, explicit);
            && (forall i :: 0 <= i < |tl.path| ==> 0.0 <= tl.path[i].x <= width && 0.0 <= tl.path[i].y <= height)
            && (forall i, j :: 0 <= i < j < |tl.path| ==> tl.path[i].x <= tl.path[j].x)
            && (forall k :: 0 <= k < |thresholds| ==> 0.0 <= ScaleY(thresholds[k], tl) <= height)
  {
    hide ScaleX, ScaleY, FinitePoints, GapThreshold, Exceeds, YRange, Commands, InternalGaps;
    var tl := Drawn(points, thresholds, width, height, now, explicit);
    var pts := FinitePoints(points);
    var frame := Frame(pts, thresholds, width, height, now);
    var gap := GapThreshold(Times(pts), explicit);
    var ys := Values(pts) + thresholds;
    forall i | 0 <= i < |pts|
      ensures tl.path[i].x == ScaleX(pts[i].time, frame)
      ensures 0.0 <= tl.path[i].x <= width && 0.0 <= tl.path[i].y <= height
    {
      CommandAt(pts, gap, frame, i);
      assert Times(pts)[0] <= Times(pts)[i] <= Times(pts)[|pts| - 1];
      XInside(pts[i].time, frame);
      assert ys[i] == pts[i].value;
      YInside(pts[i].value, frame);
    }
    forall i, j | 0 <= i < j < |pts| ensures tl.path[i].x <= tl.path[j].x {
      assert Times(pts)[i] <= Times(pts)[j];
      XGrows(pts[i].time, pts[j].time, frame);
    }
    forall k | 0 <= k < |thresholds| ensures 0.0 <= ScaleY(thresholds[k], tl) <= height {
      assert ys[|pts| + k] == thresholds[k];
      YInside(thresholds[k], frame);
      SameAxis(thresholds[k], frame, tl);
    }
  }

  lemma SameAxis(v: real, a: Timeline, b: Timeline)
    requires a.yMin == b.yMin && a.yMax == b.yMax && a.height == b.height
    ensures ScaleY(v, a) == ScaleY(v, b)
  {
  }

  /** A flat series is drawn at half height. */
  lemma FlatIsCentred(points: seq<Point>, thresholds: seq<real>, width: real, height: real,
                      now: Option<real>, explicit: Option<real>, v: real)
    requires var ys := Values(FinitePoints(points)) + thresholds; ys != [] && forall i :: 0 <= i < |ys| ==> ys[i] == v
    ensures ScaleY(v, Drawn(points, thresholds, width, height, now, explicit)) == height / 2.0
  {
    hide FinitePoints, GapThreshold, Commands, InternalGaps, TrailingGap;
    var ys := Values(FinitePoints(points)) + thresholds;
    var lo, hi := YRange(ys).0, YRange(ys).1;
    assert v == ys[0];
    assert hi - lo == (v - lo) + (v - lo);
    Half(v - lo, height);
  }

  lemma Half(a: real, side: real)
    requires a > 0.0
    ensures Share(a, a + a) == 0.5 && Share(a, a + a) * side == side / 2.0
  {
  }

  /** What holds of every timeline of time-ordered samples. */
  lemma GapsOfTimeline(points: seq<Point>, thresholds: seq<real>, width: real, height: real,
                       now: Option<real>, explicit: Option<real>)
    requires Ordered(Times(FinitePoints(points))) && FinitePoints(points) != []
    ensures var tl := Drawn(points, thresholds, width, height, now, explicit);
            var pts := FinitePoints(points);
            var gap := GapThreshold(Times(pts), explicit);
            && Disjoint(tl.gaps)
            && (forall g, k :: g in tl.gaps && 0 <= k < |pts| ==> !(g.from < pts[k].time < g.to))
            && Length(tl.gaps) + Connected(Times(pts), gap) + Remainder(Times(pts), tl.xMax, gap) == tl.xMax - tl.xMin
            && Runs(tl.path) == |tl.gaps| + 1 - |TrailingGap(Times(pts), tl.xMax, gap)|
            && (explicit.None? ==>
                  var n := |Positive(Spacings(Times(pts)))|;
                  |tl.gaps| - |TrailingGap(Times(pts), tl.xMax, gap)| <= if n == 0 then 0 else (n + 1) / 2 - 1)
  {
    hide FinitePoints, GapThreshold, Commands, InternalGaps, YRange, Length, Connected, Remainder, Exceeds, Runs,
      Ordered;
    var pts := FinitePoints(points);
    var ts := Times(pts);
    var gap := GapThreshold(ts, explicit);
    var frame := Frame(pts, thresholds, width, height, now);
    GapsAreSilent(ts, frame.xMax, gap);
    LengthsAddUp(ts, frame.xMax, gap);
    OneRunMoreThanGaps(pts, gap, frame);
    DefaultGapsAreFew(ts);
  }
}
