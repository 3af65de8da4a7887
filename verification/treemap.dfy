/** The squarified treemap of the dashboard (webui/src/treemap.ts).

  `Squarify` is the loop of the source. Its specification is `Layout`, a recursive reading of the same
  layout: cut a greedy row off the front, place it as one strip, lay the rest out in what is left. The
  geometry is proved about `Layout`: the tiles partition the box exactly, every tile has its share of
  the area, and the score the rows are chosen by is the worst aspect ratio that is really drawn. */
module Treemap {
  import opened Sequences

  datatype Rect = Rect(x: real, y: real, w: real, h: real)
  datatype Item = Item(key: string, weight: real)
  datatype Placed = Placed(key: string, x: real, y: real, w: real, h: real)

  const MIN_WEIGHT_RATIO: real := 0.02

  function Max(a: real, b: real): real { if a >= b then a else b }

  function Min(a: real, b: real): real { if a <= b then a else b }

  /** The guarded quotient `d > 0 ? n / d : 0` of the layout code. */
  function Ratio(n: real, d: real): real { if d > 0.0 then n / d else 0.0 }

  /** Multiplication under a name, so that a proof can set it aside. */
  function Times(a: real, b: real): real { a * b }

  lemma RatioOfSum(a: real, b: real, d: real)
    requires d > 0.0
    ensures Ratio(a + b, d) == Ratio(a, d) + Ratio(b, d)
    ensures a > 0.0 ==> Ratio(a, d) > 0.0
    ensures Ratio(0.0, d) == 0.0
    ensures Times(d, Ratio(a, d)) == a && Times(Ratio(a, d), d) == a
  {
  }

  lemma RatioCancels(n: real, d: real, q: real)
    requires d > 0.0 && Times(d, q) == n
    ensures Ratio(n, d) == q
  {
  }

  lemma TimesSign(w: real, h: real)
    requires h > 0.0
    ensures Times(w, h) > 0.0 <==> w > 0.0
    ensures Times(w, h) == 0.0 <==> w == 0.0
    ensures Times(w, h) == Times(h, w)
  {
  }

  lemma TimesDistributes(a: real, b: real, c: real)
    ensures Times(a + b, c) == Times(a, c) + Times(b, c)
    ensures Times(a - b, c) == Times(a, c) - Times(b, c)
    ensures Times(0.0, c) == 0.0
  {
  }

  function Sum(xs: seq<real>): real {
    if xs == [] then 0.0 else xs[0] + Sum(xs[1..])
  }

  ghost predicate Positive(xs: seq<real>) {
    forall i :: 0 <= i < |xs| ==> xs[i] > 0.0
  }

  lemma {:induction false} SumConcat(a: seq<real>, b: seq<real>)
    ensures Sum(a + b) == Sum(a) + Sum(b)
  {
    if a == [] {
      assert a + b == b;
    } else {
      assert (a + b)[1..] == a[1..] + b;
      SumConcat(a[1..], b);
    }
  }

  lemma {:induction false} SumPositive(xs: seq<real>)
    requires Positive(xs)
    ensures xs == [] ==> Sum(xs) == 0.0
    ensures xs != [] ==> Sum(xs) > 0.0
  {
    if xs != [] {
      SumPositive(xs[1..]);
    }
  }

  // ----- effective weights -----

  /** The largest weight, but never below zero. */
  function TopWeight(items: seq<Item>): (m: real)
    ensures m >= 0.0
    ensures forall i :: 0 <= i < |items| ==> items[i].weight <= m
  {
    if items == [] then 0.0 else Max(items[0].weight, TopWeight(items[1..]))
  }

  function FloorWeight(items: seq<Item>): (f: real)
    ensures f > 0.0
  {
    if TopWeight(items) > 0.0 then TopWeight(items) * MIN_WEIGHT_RATIO else 1.0
  }

  /** What each item weighs once a non-positive weight has been raised to a sliver. */
  function Effective(items: seq<Item>): (ws: seq<real>)
    ensures |ws| == |items| && Positive(ws)
  {
    seq(|items|, i requires 0 <= i < |items| => if items[i].weight > 0.0 then items[i].weight else FloorWeight(items))
  }

  function Scaled(ws: seq<real>, scale: real): (areas: seq<real>)
    ensures |areas| == |ws|
    ensures forall i :: 0 <= i < |ws| ==> areas[i] == Times(ws[i], scale)
  {
    seq(|ws|, i requires 0 <= i < |ws| => Times(ws[i], scale))
  }

  lemma {:induction false} SumScaled(ws: seq<real>, scale: real)
    ensures Sum(Scaled(ws, scale)) == Times(Sum(ws), scale)
  {
    hide Times;
    TimesDistributes(0.0, 0.0, scale);
    if ws != [] {
      assert Scaled(ws, scale)[1..] == Scaled(ws[1..], scale);
      SumScaled(ws[1..], scale);
      TimesDistributes(ws[0], Sum(ws[1..]), scale);
    }
  }

  function Keys(items: seq<Item>): (ks: seq<string>)
    ensures |ks| == |items|
    ensures forall i :: 0 <= i < |items| ==> ks[i] == items[i].key
  {
    seq(|items|, i requires 0 <= i < |items| => items[i].key)
  }

  // ----- one row -----

  predicate Wide(free: Rect) { free.w >= free.h }

  function Side(free: Rect): real { Min(free.w, free.h) }

  /** The score of a row: the formula of `worst`. */
  function Worst(areas: seq<real>, side: real): real
    requires areas != [] && Positive(areas) && side > 0.0
  {
    SumPositive(areas);
    Max(Across(MaxOf(areas), Sum(areas), side), Along(MinOf(areas), Sum(areas), side))
  }

  /** The two ratios of the score: side^2 * area / sum^2, and its inverse. */
  function Across(area: real, sum: real, side: real): real
    requires sum > 0.0
  {
    TimesSign(sum, sum);
    Times(Times(side, side), area) / Times(sum, sum)
  }

  function Along(area: real, sum: real, side: real): real
    requires area > 0.0 && side > 0.0
  {
    TimesSign(side, side);
    TimesSign(Times(side, side), area);
    Times(sum, sum) / Times(Times(side, side), area)
  }

  /** How far the strip of a row reaches into the free rectangle. */
  function Thickness(free: Rect, sum: real): real {
    if Wide(free) then Ratio(sum, free.h) else Ratio(sum, free.w)
  }

  function Tile(key: string, area: real, at: real, free: Rect, thick: real): Placed {
    var len := Ratio(area, thick);
    if Wide(free) then Placed(key, free.x, at, thick, len) else Placed(key, at, free.y, len, thick)
  }

  function Strip(keys: seq<string>, areas: seq<real>, at: real, free: Rect, thick: real): (tiles: seq<Placed>)
    requires |keys| == |areas|
    ensures |tiles| == |areas|
  {
    if areas == [] then []
    else
      [Tile(keys[0], areas[0], at, free, thick)] +
      Strip(keys[1..], areas[1..], at + Ratio(areas[0], thick), free, thick)
  }

  function RowStart(free: Rect): real { if Wide(free) then free.y else free.x }

  function RowTiles(keys: seq<string>, areas: seq<real>, free: Rect): (tiles: seq<Placed>)
    requires |keys| == |areas|
    ensures |tiles| == |areas|
  {
    Strip(keys, areas, RowStart(free), free, Thickness(free, Sum(areas)))
  }

  function Rest(free: Rect, sum: real): Rect {
    var thick := Thickness(free, sum);
    if Wide(free) then Rect(free.x + thick, free.y, free.w - thick, free.h)
    else Rect(free.x, free.y + thick, free.w, free.h - thick)
  }

  // ----- the whole layout -----

  /** How long the greedy row gets when its first `k` items have been taken. */
  function RowLen(areas: seq<real>, side: real, k: nat): (n: nat)
    requires Positive(areas) && side > 0.0 && 1 <= k <= |areas|
    ensures k <= n <= |areas|
    decreases |areas| - k
  {
    hide Worst;
    if k < |areas| && Worst(areas[..k], side) >= Worst(areas[..k + 1], side) then RowLen(areas, side, k + 1) else k
  }

  /** `free` has room for exactly `areas`, and is not degenerate while anything is left to place. */
  ghost predicate Fits(areas: seq<real>, free: Rect) {
    && Positive(areas)
    && Times(free.w, free.h) == Sum(areas)
    && free.w >= 0.0 && free.h >= 0.0
    && (areas != [] ==> free.w > 0.0 && free.h > 0.0)
  }

  /** Cutting a row off keeps the free area equal to the weight not yet laid out. */
  lemma RestFits(areas: seq<real>, n: nat, free: Rect)
    requires Fits(areas, free) && 1 <= n <= |areas|
    ensures Fits(areas[n..], Rest(free, Sum(areas[..n])))
    ensures Thickness(free, Sum(areas[..n])) > 0.0
    ensures Times(Thickness(free, Sum(areas[..n])), Side(free)) == Sum(areas[..n])
  {
    hide Ratio, Times;
    assert areas == areas[..n] + areas[n..];
    SumConcat(areas[..n], areas[n..]);
    SumPositive(areas[..n]);
    SumPositive(areas[n..]);
    var sum, left := Sum(areas[..n]), Sum(areas[n..]);
    if Wide(free) {
      ShareOfSide(free.w, free.h, sum, left);
    } else {
      TimesSign(free.w, free.h);
      TimesSign(free.h - Ratio(sum, free.w), free.w);
      ShareOfSide(free.h, free.w, sum, left);
    }
  }

  lemma ShareOfSide(long: real, side: real, sum: real, left: real)
    requires long > 0.0 && side > 0.0 && sum > 0.0 && left >= 0.0
    requires Times(long, side) == sum + left
    ensures Ratio(sum, side) > 0.0 && Times(Ratio(sum, side), side) == sum
    ensures Times(long - Ratio(sum, side), side) == left
    ensures long - Ratio(sum, side) >= 0.0
    ensures left > 0.0 ==> long - Ratio(sum, side) > 0.0
  {
    hide Times, Ratio;
    RatioOfSum(sum, 0.0, side);
    TimesDistributes(long, Ratio(sum, side), side);
    TimesSign(long - Ratio(sum, side), side);
  }

  function Layout(keys: seq<string>, areas: seq<real>, free: Rect): (tiles: seq<Placed>)
    requires |keys| == |areas| && Fits(areas, free)
    ensures |tiles| == |areas|
    decreases |areas|
  {
    if areas == [] then []
    else
      var n := RowLen(areas, Side(free), 1);
      RestFits(areas, n, free);
      RowTiles(keys[..n], areas[..n], free) + Layout(keys[n..], areas[n..], Rest(free, Sum(areas[..n])))
  }

  // ----- exact partition -----

  predicate Covers(t: Placed, px: real, py: real) {
    t.x <= px < t.x + t.w && t.y <= py < t.y + t.h
  }

  predicate InRect(r: Rect, px: real, py: real) {
    r.x <= px < r.x + r.w && r.y <= py < r.y + r.h
  }

  /** In how many tiles a point lies. */
  function Hits(tiles: seq<Placed>, px: real, py: real): nat {
    if tiles == [] then 0 else (if Covers(tiles[0], px, py) then 1 else 0) + Hits(tiles[1..], px, py)
  }

  lemma {:induction false} HitsConcat(a: seq<Placed>, b: seq<Placed>, px: real, py: real)
    ensures Hits(a + b, px, py) == Hits(a, px, py) + Hits(b, px, py)
  {
    if a == [] {
      assert a + b == b;
    } else {
      assert (a + b)[1..] == a[1..] + b;
      HitsConcat(a[1..], b, px, py);
    }
  }

  /** The part of the strip from `at` on, as a rectangle. */
  function Slab(at: real, len: real, free: Rect, thick: real): Rect {
    if Wide(free) then Rect(free.x, at, thick, len) else Rect(at, free.y, len, thick)
  }

  lemma {:induction false} StripHits(keys: seq<string>, areas: seq<real>,
                                     at: real, free: Rect, thick: real, px: real, py: real)
    requires |keys| == |areas| && Positive(areas) && thick > 0.0
    ensures Hits(Strip(keys, areas, at, free, thick), px, py)
            == if InRect(Slab(at, Ratio(Sum(areas), thick), free, thick), px, py) then 1 else 0
  {
    hide Ratio;
    RatioOfSum(0.0, 0.0, thick);
    if areas != [] {
      var len := Ratio(areas[0], thick);
      var tiles := Strip(keys, areas, at, free, thick);
      assert tiles[1..] == Strip(keys[1..], areas[1..], at + len, free, thick);
      StripHits(keys[1..], areas[1..], at + len, free, thick, px, py);
      SumPositive(areas[1..]);
      RatioOfSum(areas[0], Sum(areas[1..]), thick);
      RatioOfSum(Sum(areas[1..]), 0.0, thick);
    }
  }

  lemma RowHits(keys: seq<string>, areas: seq<real>, n: nat, free: Rect, px: real, py: real)
    requires |keys| == |areas| && Fits(areas, free) && 1 <= n <= |areas|
    ensures Hits(RowTiles(keys[..n], areas[..n], free), px, py)
            + (if InRect(Rest(free, Sum(areas[..n])), px, py) then 1 else 0)
            == if InRect(free, px, py) then 1 else 0
  {
    hide Ratio, Times, Strip, Hits, Sum;
    RestFits(areas, n, free);
    var sum := Sum(areas[..n]);
    var thick := Thickness(free, sum);
    StripHits(keys[..n], areas[..n], RowStart(free), free, thick, px, py);
    RatioCancels(sum, thick, Side(free));
  }

  lemma {:induction false} LayoutHits(keys: seq<string>, areas: seq<real>, free: Rect, px: real, py: real)
    requires |keys| == |areas| && Fits(areas, free)
    ensures Hits(Layout(keys, areas, free), px, py) == if InRect(free, px, py) then 1 else 0
    decreases |areas|
  {
    hide Ratio, Times, RowLen, Rest, RowTiles;
    if areas == [] {
      if free.h > 0.0 {
        TimesSign(free.w, free.h);
      }
    } else {
      var n := RowLen(areas, Side(free), 1);
      RestFits(areas, n, free);
      var rest := Rest(free, Sum(areas[..n]));
      LayoutHits(keys[n..], areas[n..], rest, px, py);
      RowHits(keys, areas, n, free, px, py);
      HitsConcat(RowTiles(keys[..n], areas[..n], free), Layout(keys[n..], areas[n..], rest), px, py);
    }
  }

  /** The tile a point lies in, when there is exactly one. */
  ghost predicate OnlyIn(tiles: seq<Placed>, k: nat, px: real, py: real) {
    k < |tiles| && Covers(tiles[k], px, py) && forall j :: 0 <= j < |tiles| && j != k ==> !Covers(tiles[j], px, py)
  }

  ghost predicate InNone(tiles: seq<Placed>, px: real, py: real) {
    forall j :: 0 <= j < |tiles| ==> !Covers(tiles[j], px, py)
  }

  lemma {:induction false} HitsMeaning(tiles: seq<Placed>, px: real, py: real)
    ensures Hits(tiles, px, py) == 0 ==> InNone(tiles, px, py)
    ensures Hits(tiles, px, py) == 1 ==> exists k: nat :: OnlyIn(tiles, k, px, py)
  {
    if tiles != [] {
      var rest := tiles[1..];
      HitsMeaning(rest, px, py);
      assert forall j :: 1 <= j < |tiles| ==> tiles[j] == rest[j - 1];
      if Hits(tiles, px, py) == 1 {
        if Covers(tiles[0], px, py) {
          assert OnlyIn(tiles, 0, px, py);
        } else {
          var k: nat :| OnlyIn(rest, k, px, py);
          assert OnlyIn(tiles, k + 1, px, py);
        }
      }
    }
  }

  ghost predicate Partitions(tiles: seq<Placed>, box: Rect) {
    forall px: real, py: real ::
      if InRect(box, px, py) then exists k: nat :: OnlyIn(tiles, k, px, py) else InNone(tiles, px, py)
  }

  lemma LayoutPartitions(keys: seq<string>, areas: seq<real>, free: Rect)
    requires |keys| == |areas| && Fits(areas, free)
    ensures Partitions(Layout(keys, areas, free), free)
  {
    forall px: real, py: real
      ensures if InRect(free, px, py) then exists k: nat :: OnlyIn(Layout(keys, areas, free), k, px, py)
              else InNone(Layout(keys, areas, free), px, py)
    {
      LayoutHits(keys, areas, free, px, py);
      HitsMeaning(Layout(keys, areas, free), px, py);
    }
  }

  // ----- proportionality -----

  ghost predicate Proportional(tiles: seq<Placed>, keys: seq<string>, areas: seq<real>) {
    && |tiles| == |keys| == |areas|
    && forall i :: 0 <= i < |tiles| ==>
         && tiles[i].key == keys[i]
         && Times(tiles[i].w, tiles[i].h) == areas[i]
         && tiles[i].w > 0.0 && tiles[i].h > 0.0
  }

  lemma ProportionalConcat(t: seq<Placed>, k: seq<string>, a: seq<real>,
                           t': seq<Placed>, k': seq<string>, a': seq<real>)
    requires Proportional(t, k, a) && Proportional(t', k', a')
    ensures Proportional(t + t', k + k', a + a')
  {
    hide Times;
  }

  lemma {:induction false} StripProportional(keys: seq<string>, areas: seq<real>, at: real, free: Rect, thick: real)
    requires |keys| == |areas| && Positive(areas) && thick > 0.0
    ensures Proportional(Strip(keys, areas, at, free, thick), keys, areas)
  {
    hide Ratio, Times;
    if areas != [] {
      var len := Ratio(areas[0], thick);
      RatioOfSum(areas[0], 0.0, thick);
      StripProportional(keys[1..], areas[1..], at + len, free, thick);
      ProportionalConcat([Tile(keys[0], areas[0], at, free, thick)], [keys[0]], [areas[0]],
                         Strip(keys[1..], areas[1..], at + len, free, thick), keys[1..], areas[1..]);
      assert [keys[0]] + keys[1..] == keys && [areas[0]] + areas[1..] == areas;
    }
  }

  lemma {:induction false} LayoutProportional(keys: seq<string>, areas: seq<real>, free: Rect)
    requires |keys| == |areas| && Fits(areas, free)
    ensures Proportional(Layout(keys, areas, free), keys, areas)
    decreases |areas|
  {
    hide Ratio, Times, RowLen, Rest, Strip, Proportional, Thickness;
    if areas == [] {
      EmptyProportional(keys, areas);
    } else {
      var n := RowLen(areas, Side(free), 1);
      RestFits(areas, n, free);
      var sum := Sum(areas[..n]);
      var rest := Rest(free, sum);
      StripProportional(keys[..n], areas[..n], RowStart(free), free, Thickness(free, sum));
      LayoutProportional(keys[n..], areas[n..], rest);
      ProportionalConcat(RowTiles(keys[..n], areas[..n], free), keys[..n], areas[..n],
                         Layout(keys[n..], areas[n..], rest), keys[n..], areas[n..]);
      assert keys[..n] + keys[n..] == keys && areas[..n] + areas[n..] == areas;
    }
  }

  lemma EmptyProportional(keys: seq<string>, areas: seq<real>)
    requires keys == [] && areas == []
    ensures Proportional([], keys, areas)
  {
  }

  // ----- the score is the geometry -----

  function Aspect(t: Placed): real
    requires t.w > 0.0 && t.h > 0.0
  {
    Max(t.w / t.h, t.h / t.w)
  }

  /** `m` is the largest aspect ratio among the tiles. */
  ghost predicate IsWorstAspect(m: real, tiles: seq<Placed>) {
    && (forall i :: 0 <= i < |tiles| ==> tiles[i].w > 0.0 && tiles[i].h > 0.0)
    && (forall i :: 0 <= i < |tiles| ==> Aspect(tiles[i]) <= m)
    && exists i :: 0 <= i < |tiles| && Aspect(tiles[i]) == m
  }

  /** A tile as long as its share of the strip has exactly the two ratios of the formula. */
  lemma AspectOfShare(area: real, sum: real, side: real, thick: real, len: real)
    requires area > 0.0 && sum > 0.0 && side > 0.0
    requires thick > 0.0 && len > 0.0 && Times(thick, side) == sum && Times(len, thick) == area
    ensures len / thick == Across(area, sum, side)
    ensures thick / len == Along(area, sum, side)
  {
    hide Times;
    var s2 := Times(side, side);
    var k := Times(thick, s2);
    TimesSign(side, side);
    TimesSign(thick, s2);
    TimesSign(sum, sum);
    TimesSign(s2, area);
    Regroup(thick, side, len);
    Cancel(len, thick, k);
    Cancel(thick, len, k);
  }

  lemma Regroup(thick: real, side: real, len: real)
    ensures Times(Times(thick, side), Times(thick, side)) == Times(thick, Times(thick, Times(side, side)))
    ensures Times(Times(side, side), Times(len, thick)) == Times(len, Times(thick, Times(side, side)))
  {
    var s2 := side * side;
    assert (thick * side) * (thick * side) == thick * (side * (thick * side));
    assert side * (thick * side) == thick * s2;
    assert s2 * (len * thick) == len * (s2 * thick);
  }

  lemma Cancel(n: real, d: real, k: real)
    requires d > 0.0 && k > 0.0
    ensures Times(d, k) > 0.0
    ensures n / d == Times(n, k) / Times(d, k)
  {
    TimesSign(d, k);
    var q := n / d;
    assert q * d == n;
    assert q * (d * k) == (q * d) * k;
    Quotient(q, n * k, d * k);
  }

  lemma Quotient(q: real, n: real, d: real)
    requires d > 0.0 && q * d == n
    ensures q == n / d
  {
  }

  lemma AcrossMonotone(a: real, b: real, sum: real, side: real)
    requires 0.0 < a <= b && sum > 0.0 && side > 0.0
    ensures Across(a, sum, side) <= Across(b, sum, side)
    ensures Along(b, sum, side) <= Along(a, sum, side)
  {
    hide Times;
    var s2 := Times(side, side);
    TimesSign(side, side);
    TimesSign(sum, sum);
    TimesSign(s2, a);
    TimesSign(s2, b);
    TimesMonotone(s2, a, b);
    QuotientMonotone(Times(s2, a), Times(s2, b), Times(sum, sum));
    DivisorMonotone(Times(sum, sum), Times(s2, a), Times(s2, b));
  }

  lemma TimesMonotone(c: real, a: real, b: real)
    requires a <= b && c > 0.0
    ensures Times(c, a) <= Times(c, b)
  {
    TimesSign(b - a, c);
    TimesDistributes(b, a, c);
    TimesSign(a, c);
    TimesSign(b, c);
  }

  lemma QuotientMonotone(a: real, b: real, d: real)
    requires a <= b && d > 0.0
    ensures a / d <= b / d
  {
  }

  lemma DivisorMonotone(n: real, a: real, b: real)
    requires n > 0.0 && 0.0 < a <= b
    ensures n / b <= n / a
  {
    var q := n / b;
    assert q * b == n && q > 0.0;
    assert q * a <= q * b;
    QuotientMonotone(q * a, n, a);
    assert (q * a) / a == q;
  }

  lemma {:induction false} StripTile(keys: seq<string>, areas: seq<real>, at: real, free: Rect, thick: real, i: nat)
    requires |keys| == |areas| && i < |areas|
    ensures var t := Strip(keys, areas, at, free, thick)[i];
            if Wide(free) then t.w == thick && t.h == Ratio(areas[i], thick)
            else t.h == thick && t.w == Ratio(areas[i], thick)
  {
    hide Ratio;
    if i > 0 {
      StripTile(keys[1..], areas[1..], at + Ratio(areas[0], thick), free, thick, i - 1);
    }
  }

  lemma RowAspect(keys: seq<string>, areas: seq<real>, free: Rect, i: nat)
    requires |keys| == |areas| && Positive(areas) && free.w > 0.0 && free.h > 0.0 && i < |areas|
    ensures var t := RowTiles(keys, areas, free)[i];
            && Sum(areas) > 0.0
            && t.w > 0.0 && t.h > 0.0
            && Aspect(t) == Max(Across(areas[i], Sum(areas), Side(free)), Along(areas[i], Sum(areas), Side(free)))
  {
    hide Across, Along, Strip, Sum;
    SumPositive(areas);
    var sum, side := Sum(areas), Side(free);
    var thick := sum / side;
    RatioOfSum(sum, 0.0, side);
    RatioOfSum(areas[i], 0.0, thick);
    AspectOfShare(areas[i], sum, side, thick, Ratio(areas[i], thick));
    StripTile(keys, areas, RowStart(free), free, thick, i);
  }

  /** `worst(row, side)` is exactly the largest aspect ratio among the tiles the row would be drawn as. */
  lemma WorstIsDrawn(keys: seq<string>, areas: seq<real>, free: Rect)
    requires |keys| == |areas| && areas != [] && Positive(areas) && free.w > 0.0 && free.h > 0.0
    ensures IsWorstAspect(Worst(areas, Side(free)), RowTiles(keys, areas, free))
  {
    hide Across, Along, RowTiles, Sum, Aspect, MaxOf, MinOf;
    SumPositive(areas);
    var sum, side, tiles := Sum(areas), Side(free), RowTiles(keys, areas, free);
    forall i | 0 <= i < |tiles|
      ensures tiles[i].w > 0.0 && tiles[i].h > 0.0 && Aspect(tiles[i]) <= Worst(areas, side)
    {
      RowAspect(keys, areas, free, i);
      AcrossMonotone(areas[i], MaxOf(areas), sum, side);
      AcrossMonotone(MinOf(areas), areas[i], sum, side);
    }
    var big :| 0 <= big < |areas| && areas[big] == MaxOf(areas);
    var small :| 0 <= small < |areas| && areas[small] == MinOf(areas);
    RowAspect(keys, areas, free, big);
    RowAspect(keys, areas, free, small);
    AcrossMonotone(areas[small], areas[big], sum, side);
    assert Aspect(tiles[big]) == Worst(areas, side) || Aspect(tiles[small]) == Worst(areas, side);
  }

  lemma WorstAspectUnique(a: real, b: real, tiles: seq<Placed>)
    requires IsWorstAspect(a, tiles) && IsWorstAspect(b, tiles)
    ensures a == b
  {
    hide Aspect;
  }

  lemma {:induction false} RowLenGreedy(areas: seq<real>, side: real, k: nat)
    requires Positive(areas) && side > 0.0 && 1 <= k <= |areas|
    ensures forall j :: k <= j < RowLen(areas, side, k) ==> Worst(areas[..j], side) >= Worst(areas[..j + 1], side)
    ensures RowLen(areas, side, k) < |areas| ==>
              Worst(areas[..RowLen(areas, side, k)], side) < Worst(areas[..RowLen(areas, side, k) + 1], side)
    decreases |areas| - k
  {
    hide Worst;
    if k < |areas| && Worst(areas[..k], side) >= Worst(areas[..k + 1], side) {
      RowLenGreedy(areas, side, k + 1);
    }
  }

  /** The largest aspect ratio drawn when the first `k` items form the row. */
  ghost function DrawnWorst(keys: seq<string>, areas: seq<real>, free: Rect, k: nat): (m: real)
    requires |keys| == |areas| && Positive(areas) && free.w > 0.0 && free.h > 0.0 && 1 <= k <= |areas|
    ensures IsWorstAspect(m, RowTiles(keys[..k], areas[..k], free))
  {
    WorstIsDrawn(keys[..k], areas[..k], free);
    var m :| IsWorstAspect(m, RowTiles(keys[..k], areas[..k], free));
    m
  }

  /** A closed row: no item taken into it made the drawn ratio worse, and the next item would have. */
  lemma RowIsLocallyBest(keys: seq<string>, areas: seq<real>, free: Rect)
    requires |keys| == |areas| && areas != [] && Positive(areas) && free.w > 0.0 && free.h > 0.0
    ensures var n := RowLen(areas, Side(free), 1);
            && (forall k :: 1 <= k < n ==> DrawnWorst(keys, areas, free, k + 1) <= DrawnWorst(keys, areas, free, k))
            && (n < |areas| ==> DrawnWorst(keys, areas, free, n) < DrawnWorst(keys, areas, free, n + 1))
  {
    hide Worst, RowLen, RowTiles, IsWorstAspect;
    RowLenGreedy(areas, Side(free), 1);
    forall k | 1 <= k <= |areas|
      ensures DrawnWorst(keys, areas, free, k) == Worst(areas[..k], Side(free))
    {
      WorstIsDrawn(keys[..k], areas[..k], free);
      WorstAspectUnique(DrawnWorst(keys, areas, free, k), Worst(areas[..k], Side(free)),
                        RowTiles(keys[..k], areas[..k], free));
    }
  }

  /** One row of a layout: the items from `start` up to `end`, placed in what was free at the time. */
  datatype Row = Row(start: nat, end: nat, free: Rect)

  /** No item taken into the row made the drawn ratio worse, and the next item, if there is one, would have. */
  ghost predicate LocallyBest(keys: seq<string>, areas: seq<real>, row: Row) {
    && |keys| == |areas| && row.start < row.end <= |areas|
    && Positive(areas[row.start..]) && row.free.w > 0.0 && row.free.h > 0.0
    && var ks, rest, n := keys[row.start..], areas[row.start..], row.end - row.start;
       && (forall k :: 1 <= k < n ==> DrawnWorst(ks, rest, row.free, k + 1) <= DrawnWorst(ks, rest, row.free, k))
       && (n < |rest| ==> DrawnWorst(ks, rest, row.free, n) < DrawnWorst(ks, rest, row.free, n + 1))
  }

  /** The row is where the tiles of its items are. */
  ghost predicate DrawnAs(tiles: seq<Placed>, keys: seq<string>, areas: seq<real>, row: Row) {
    && |tiles| == |keys| == |areas| && row.start <= row.end <= |areas|
    && tiles[row.start..row.end] == RowTiles(keys[row.start..row.end], areas[row.start..row.end], row.free)
  }

  /** The rows follow each other through all items, each in what the one before left free. */
  ghost predicate Chained(areas: seq<real>, free: Rect, rows: seq<Row>) {
    && rows != [] && rows[0].start == 0 && rows[0].free == free && rows[|rows| - 1].end == |areas|
    && (forall i :: 0 <= i < |rows| ==> rows[i].start <= rows[i].end <= |areas|)
    && (forall i :: 0 < i < |rows| ==> Follows(areas, rows[i - 1], rows[i]))
  }

  ghost predicate Follows(areas: seq<real>, row: Row, next: Row) {
    && row.start <= row.end <= |areas|
    && next.start == row.end && next.free == Rest(row.free, Sum(areas[row.start..row.end]))
  }

  function Shifted(row: Row, n: nat): Row { Row(row.start + n, row.end + n, row.free) }

  function ShiftedAll(rows: seq<Row>, n: nat): (r: seq<Row>)
    ensures |r| == |rows| && forall i :: 0 <= i < |r| ==> r[i] == Shifted(rows[i], n)
  {
    seq(|rows|, i requires 0 <= i < |rows| => Shifted(rows[i], n))
  }

  lemma ShiftedBest(keys: seq<string>, areas: seq<real>, n: nat, row: Row)
    requires |keys| == |areas| && n <= |areas| && LocallyBest(keys[n..], areas[n..], row)
    ensures LocallyBest(keys, areas, Shifted(row, n))
  {
    hide DrawnWorst, Positive;
    assert keys[n..][row.start..] == keys[row.start + n..] && areas[n..][row.start..] == areas[row.start + n..];
  }

  lemma ShiftedDrawn(first: seq<Placed>, tiles: seq<Placed>, keys: seq<string>, areas: seq<real>, row: Row)
    requires |keys| == |areas| && |first| <= |areas|
    requires DrawnAs(tiles, keys[|first|..], areas[|first|..], row)
    ensures DrawnAs(first + tiles, keys, areas, Shifted(row, |first|))
  {
    hide RowTiles;
    var n := |first|;
    assert (first + tiles)[row.start + n..row.end + n] == tiles[row.start..row.end];
    assert keys[n..][row.start..row.end] == keys[row.start + n..row.end + n];
    assert areas[n..][row.start..row.end] == areas[row.start + n..row.end + n];
  }

  lemma ShiftedChain(areas: seq<real>, n: nat, free: Rect, rows: seq<Row>)
    requires 1 <= n < |areas| && Chained(areas[n..], Rest(free, Sum(areas[..n])), rows)
    ensures Chained(areas, free, [Row(0, n, free)] + ShiftedAll(rows, n))
  {
    hide Rest, Sum;
    var all := [Row(0, n, free)] + ShiftedAll(rows, n);
    forall i | 0 < i < |all| ensures Follows(areas, all[i - 1], all[i]) {
      if i == 1 {
        assert areas[0..n] == areas[..n];
      } else {
        var row := rows[i - 2];
        assert Follows(areas[n..], rows[i - 1 - 1], rows[i - 1]);
        assert areas[n..][row.start..row.end] == areas[row.start + n..row.end + n];
      }
    }
  }

  lemma FirstRow(keys: seq<string>, areas: seq<real>, free: Rect) returns (n: nat)
    requires |keys| == |areas| && Fits(areas, free) && areas != []
    ensures 1 <= n <= |areas| && LocallyBest(keys, areas, Row(0, n, free))
    ensures Fits(areas[n..], Rest(free, Sum(areas[..n])))
    ensures Layout(keys, areas, free) ==
            RowTiles(keys[..n], areas[..n], free) + Layout(keys[n..], areas[n..], Rest(free, Sum(areas[..n])))
  {
    hide Worst, RowTiles, DrawnWorst, Rest, Sum, Times;
    n := RowLen(areas, Side(free), 1);
    RestFits(areas, n, free);
    RowIsLocallyBest(keys, areas, free);
    assert keys[0..] == keys && areas[0..] == areas;
  }

  /** Every row of every layout is locally best: the layout is made of rows that follow each other through all items. */
  lemma {:induction false} EveryRowIsLocallyBest(keys: seq<string>, areas: seq<real>, free: Rect)
    returns (rows: seq<Row>)
    requires |keys| == |areas| && Fits(areas, free) && areas != []
    ensures Chained(areas, free, rows)
    ensures forall i :: 0 <= i < |rows| ==>
              LocallyBest(keys, areas, rows[i]) && DrawnAs(Layout(keys, areas, free), keys, areas, rows[i])
    decreases |areas|
  {
    hide Layout, RowTiles, Rest, Sum, Times, LocallyBest, Chained, Fits;
    var n := FirstRow(keys, areas, free);
    var first := RowTiles(keys[..n], areas[..n], free);
    var tiles := Layout(keys, areas, free);
    assert tiles[0..n] == first && keys[0..n] == keys[..n] && areas[0..n] == areas[..n];
    assert DrawnAs(tiles, keys, areas, Row(0, n, free));
    if n == |areas| {
      rows := [Row(0, n, free)];
      OneRow(areas, free);
    } else {
      var left := Rest(free, Sum(areas[..n]));
      var tail := EveryRowIsLocallyBest(keys[n..], areas[n..], left);
      ShiftedChain(areas, n, free, tail);
      forall i | 0 <= i < |tail|
        ensures LocallyBest(keys, areas, Shifted(tail[i], n)) && DrawnAs(tiles, keys, areas, Shifted(tail[i], n))
      {
        ShiftedBest(keys, areas, n, tail[i]);
        ShiftedDrawn(first, Layout(keys[n..], areas[n..], left), keys, areas, tail[i]);
      }
      rows := [Row(0, n, free)] + ShiftedAll(tail, n);
    }
  }

  /** The tiles are drawn in rows, each of them locally best. */
  ghost predicate InBestRows(tiles: seq<Placed>, keys: seq<string>, areas: seq<real>, free: Rect) {
    exists rows :: Chained(areas, free, rows)
      && forall i :: 0 <= i < |rows| ==> LocallyBest(keys, areas, rows[i]) && DrawnAs(tiles, keys, areas, rows[i])
  }

  lemma LayoutInBestRows(keys: seq<string>, areas: seq<real>, free: Rect)
    requires |keys| == |areas| && Fits(areas, free) && areas != []
    ensures InBestRows(Layout(keys, areas, free), keys, areas, free)
  {
    var rows := EveryRowIsLocallyBest(keys, areas, free);
  }

  lemma OneRow(areas: seq<real>, free: Rect)
    ensures Chained(areas, free, [Row(0, |areas|, free)])
  {
  }

  // ----- the loops of the source -----

  ghost function Span(a: nat, b: nat): (row: seq<nat>)
    requires a <= b
    ensures |row| == b - a
  {
    seq(b - a, k requires 0 <= k < b - a => a + k)
  }

  /** What a row of item indexes weighs and is called. */
  function RowAreas(row: seq<nat>, weights: seq<real>, scale: real): (areas: seq<real>)
    requires forall k :: 0 <= k < |row| ==> row[k] < |weights|
    ensures |areas| == |row|
    ensures forall k :: 0 <= k < |row| ==> areas[k] == Times(weights[row[k]], scale)
  {
    seq(|row|, k requires 0 <= k < |row| => Times(weights[row[k]], scale))
  }

  ghost function RowKeys(row: seq<nat>, items: seq<Item>): (keys: seq<string>)
    requires forall k :: 0 <= k < |row| ==> row[k] < |items|
    ensures |keys| == |row|
    ensures forall k :: 0 <= k < |row| ==> keys[k] == items[row[k]].key
  {
    seq(|row|, k requires 0 <= k < |row| => items[row[k]].key)
  }

  method Total(xs: seq<real>) returns (sum: real)
    ensures sum == Sum(xs)
  {
    sum := 0.0;
    for k := 0 to |xs|
      invariant sum + Sum(xs[k..]) == Sum(xs)
    {
      sum := sum + xs[k];
      assert xs[k..][1..] == xs[k + 1..];
    }
  }

  /** `worst` on a row of item indexes. */
  method WorstOfRow(row: seq<nat>, side: real, weights: seq<real>, scale: real) returns (score: real)
    requires row != [] && side > 0.0
    requires forall k :: 0 <= k < |row| ==> row[k] < |weights|
    requires Positive(RowAreas(row, weights, scale))  // weights and scale are positive
    ensures score == Worst(RowAreas(row, weights, scale), side)
  {
    var areas := RowAreas(row, weights, scale);
    var sum := Total(areas);
    SumPositive(areas);
    score := Max(Across(MaxOf(areas), sum, side), Along(MinOf(areas), sum, side));
  }

  lemma StripFrom(keys: seq<string>, areas: seq<real>, k: nat, at: real, free: Rect, thick: real)
    requires |keys| == |areas| && k < |areas|
    ensures Strip(keys[k..], areas[k..], at, free, thick) ==
            [Tile(keys[k], areas[k], at, free, thick)] +
            Strip(keys[k + 1..], areas[k + 1..], at + Ratio(areas[k], thick), free, thick)
  {
    hide Tile, Ratio;
    assert keys[k..][1..] == keys[k + 1..] && areas[k..][1..] == areas[k + 1..];
  }

  lemma NoStrip(at: real, free: Rect, thick: real)
    ensures Strip([], [], at, free, thick) == []
  {
  }

  method LayoutRow(row: seq<nat>, free: Rect, weights: seq<real>, scale: real, items: seq<Item>, out: seq<Placed>)
    returns (placed: seq<Placed>, left: Rect)
    requires |weights| == |items|
    requires forall k :: 0 <= k < |row| ==> row[k] < |items|
    ensures var areas := RowAreas(row, weights, scale);
            placed == out + RowTiles(RowKeys(row, items), areas, free) && left == Rest(free, Sum(areas))
  {
    hide Sum, Ratio, Strip;
    ghost var keys := RowKeys(row, items);
    var areas := RowAreas(row, weights, scale);
    var sum := Total(areas);
    var thick := if Wide(free) then Ratio(sum, free.h) else Ratio(sum, free.w);
    var at := if Wide(free) then free.y else free.x;
    placed := out;
    for k := 0 to |row|
      invariant placed + Strip(keys[k..], areas[k..], at, free, thick) == out + RowTiles(keys, areas, free)
    {
      var i := row[k];
      var len := Ratio(areas[k], thick);
      var tile := if Wide(free) then Placed(items[i].key, free.x, at, thick, len)
                  else Placed(items[i].key, at, free.y, len, thick);
      StripFrom(keys, areas, k, at, free, thick);
      assert placed + ([tile] + Strip(keys[k + 1..], areas[k + 1..], at + len, free, thick))
          == (placed + [tile]) + Strip(keys[k + 1..], areas[k + 1..], at + len, free, thick);
      placed := placed + [tile];
      at := at + len;
    }
    NoStrip(at, free, thick);
    assert placed + [] == placed;
    left := if Wide(free) then Rect(free.x + thick, free.y, free.w - thick, free.h)
            else Rect(free.x, free.y + thick, free.w, free.h - thick);
  }

  // ----- squarify -----

  /** Area of each item in the box: its effective weight over the total, times the area of the box. */
  function Shares(items: seq<Item>, box: Rect): (areas: seq<real>)
    requires items != [] && box.w > 0.0 && box.h > 0.0
    ensures |areas| == |items|
  {
    SumPositive(Effective(items));
    Scaled(Effective(items), Times(box.w, box.h) / Sum(Effective(items)))
  }

  lemma ScaleBack(n: real, d: real)
    requires n > 0.0 && d > 0.0
    ensures Times(d, n / d) == n && n / d > 0.0
  {
  }

  lemma SharesFit(items: seq<Item>, box: Rect)
    requires items != [] && box.w > 0.0 && box.h > 0.0
    ensures Fits(Shares(items, box), box)
  {
    hide Sum, Effective, Scaled, Times;
    var ws := Effective(items);
    SumPositive(ws);
    var scale := Times(box.w, box.h) / Sum(ws);
    TimesSign(box.w, box.h);
    ScaleBack(Times(box.w, box.h), Sum(ws));
    SumScaled(ws, scale);
    forall i | 0 <= i < |ws| ensures Shares(items, box)[i] > 0.0 {
      TimesSign(ws[i], scale);
    }
  }

  // ----- what the weights of the items become -----

  function AreaOf(tiles: seq<Placed>): real {
    if tiles == [] then 0.0 else tiles[0].w * tiles[0].h + AreaOf(tiles[1..])
  }

  /** The tiles fill the box, in proportion to the weights that are above zero. An item without such a weight gets a
    fiftieth of what the heaviest item gets; where no item has one, all get the same. */
  ghost predicate FairShares(tiles: seq<Placed>, items: seq<Item>, box: Rect) {
    && |tiles| == |items| && AreaOf(tiles) == box.w * box.h
    && (forall i, j :: 0 <= i < |items| && 0 <= j < |items| && items[i].weight > 0.0 && items[j].weight > 0.0 ==>
          tiles[i].w * tiles[i].h * items[j].weight == tiles[j].w * tiles[j].h * items[i].weight)
    && (forall i, j :: 0 <= i < |items| && items[i].weight <= 0.0 && Heaviest(items, j) && items[j].weight > 0.0 ==>
          tiles[i].w * tiles[i].h * 50.0 == tiles[j].w * tiles[j].h)
    && ((forall k :: 0 <= k < |items| ==> items[k].weight <= 0.0) ==>
          forall i, j :: 0 <= i < |items| && 0 <= j < |items| ==> tiles[i].w * tiles[i].h == tiles[j].w * tiles[j].h)
  }

  predicate Heaviest(items: seq<Item>, j: int) {
    0 <= j < |items| && forall k :: 0 <= k < |items| ==> items[k].weight <= items[j].weight
  }

  lemma {:induction false} AreasAddUp(tiles: seq<Placed>, keys: seq<string>, areas: seq<real>)
    requires Proportional(tiles, keys, areas)
    ensures AreaOf(tiles) == Sum(areas)
  {
    if tiles != [] {
      AreasAddUp(tiles[1..], keys[1..], areas[1..]);
    }
  }

  lemma {:induction false} TopWeightIsReached(items: seq<Item>)
    ensures TopWeight(items) == 0.0 || exists k :: 0 <= k < |items| && items[k].weight == TopWeight(items)
  {
    if items != [] {
      TopWeightIsReached(items[1..]);
      if k :| 0 <= k < |items[1..]| && items[1..][k].weight == TopWeight(items[1..]) {
        assert items[k + 1].weight == TopWeight(items[1..]);
      }
    }
  }

  lemma Swapped(a: real, b: real, scale: real)
    ensures Times(a, scale) * b == Times(b, scale) * a
    ensures Times(a * 0.02, scale) * 50.0 == Times(a, scale)
  {
    assert (a * scale) * b == (b * scale) * a;
    assert (a * 0.02) * scale == 0.02 * (a * scale);
  }

  lemma SharesAreFair(tiles: seq<Placed>, items: seq<Item>, box: Rect)
    requires items != [] && box.w > 0.0 && box.h > 0.0 && Proportional(tiles, Keys(items), Shares(items, box))
    ensures FairShares(tiles, items, box)
  {
    hide Sum, Scaled, TopWeight, Times, AreaOf;
    var ws := Effective(items);
    SumPositive(ws);
    var scale := Times(box.w, box.h) / Sum(ws);
    SharesFit(items, box);
    AreasAddUp(tiles, Keys(items), Shares(items, box));
    TopWeightIsReached(items);
    Product(box.w, box.h);
    forall i | 0 <= i < |items| ensures tiles[i].w * tiles[i].h == Times(ws[i], scale) {
      Product(tiles[i].w, tiles[i].h);
    }
    forall i, j | 0 <= i < |items| && 0 <= j < |items| && items[i].weight > 0.0 && items[j].weight > 0.0
      ensures tiles[i].w * tiles[i].h * items[j].weight == tiles[j].w * tiles[j].h * items[i].weight
    {
      Swapped(ws[i], ws[j], scale);
    }
    forall i, j | 0 <= i < |items| && items[i].weight <= 0.0 && Heaviest(items, j) && items[j].weight > 0.0
      ensures tiles[i].w * tiles[i].h * 50.0 == tiles[j].w * tiles[j].h
    {
      assert TopWeight(items) == items[j].weight;
      Swapped(items[j].weight, 0.0, scale);
    }
  }

  lemma Product(a: real, b: real)
    ensures Times(a, b) == a * b
  {
  }

  // ----- where a row is drawn -----

  /** A row stands along the left edge of what is free when that is at least as wide as high, one tile below the other
    from the top; otherwise it lies along the upper edge, from the left. What is left free begins behind it. */
  ghost predicate IsStripOf(tiles: seq<Placed>, free: Rect, left: Rect) {
    tiles != [] &&
    if free.w >= free.h then
      && (forall i :: 0 <= i < |tiles| ==> tiles[i].x == free.x && tiles[i].w == tiles[0].w)
      && tiles[0].y == free.y && (forall i :: 0 < i < |tiles| ==> tiles[i].y == tiles[i - 1].y + tiles[i - 1].h)
      && left == Rect(free.x + tiles[0].w, free.y, free.w - tiles[0].w, free.h)
    else
      && (forall i :: 0 <= i < |tiles| ==> tiles[i].y == free.y && tiles[i].h == tiles[0].h)
      && tiles[0].x == free.x && (forall i :: 0 < i < |tiles| ==> tiles[i].x == tiles[i - 1].x + tiles[i - 1].w)
      && left == Rect(free.x, free.y + tiles[0].h, free.w, free.h - tiles[0].h)
  }

  lemma {:induction false} StripRuns(keys: seq<string>, areas: seq<real>, at: real, free: Rect, thick: real)
    requires |keys| == |areas|
    ensures var tiles := Strip(keys, areas, at, free, thick);
            if free.w >= free.h then
              && (forall i :: 0 <= i < |tiles| ==> tiles[i].x == free.x && tiles[i].w == thick)
              && (tiles != [] ==> tiles[0].y == at)
              && (forall i :: 0 < i < |tiles| ==> tiles[i].y == tiles[i - 1].y + tiles[i - 1].h)
            else
              && (forall i :: 0 <= i < |tiles| ==> tiles[i].y == free.y && tiles[i].h == thick)
              && (tiles != [] ==> tiles[0].x == at)
              && (forall i :: 0 < i < |tiles| ==> tiles[i].x == tiles[i - 1].x + tiles[i - 1].w)
  {
    hide Ratio;
    if areas != [] {
      StripRuns(keys[1..], areas[1..], at + Ratio(areas[0], thick), free, thick);
      var tiles := Strip(keys, areas, at, free, thick);
      var rest := Strip(keys[1..], areas[1..], at + Ratio(areas[0], thick), free, thick);
      assert forall i :: 0 < i < |tiles| ==> tiles[i] == rest[i - 1];
    }
  }

  lemma RowIsStrip(keys: seq<string>, areas: seq<real>, free: Rect)
    requires |keys| == |areas| && areas != []
    ensures IsStripOf(RowTiles(keys, areas, free), free, Rest(free, Sum(areas)))
  {
    hide Strip, Ratio, Sum;
    StripRuns(keys, areas, RowStart(free), free, Thickness(free, Sum(areas)));
  }

  ghost predicate StandsBefore(tiles: seq<Placed>, row: Row, next: Row) {
    row.start < row.end <= |tiles| && IsStripOf(tiles[row.start..row.end], row.free, next.free)
  }

  /** So the whole layout runs from the upper left corner, row by row. */
  lemma RowsAreStrips(tiles: seq<Placed>, keys: seq<string>, areas: seq<real>, free: Rect, rows: seq<Row>)
    requires Chained(areas, free, rows)
    requires forall i :: 0 <= i < |rows| ==> LocallyBest(keys, areas, rows[i]) && DrawnAs(tiles, keys, areas, rows[i])
    ensures rows[0].free == free
    ensures forall i :: 0 < i < |rows| ==> StandsBefore(tiles, rows[i - 1], rows[i])
  {
    hide RowTiles, Rest, Sum, DrawnWorst;
    forall i | 0 < i < |rows| ensures StandsBefore(tiles, rows[i - 1], rows[i]) {
      var row := rows[i - 1];
      assert Follows(areas, row, rows[i]) && LocallyBest(keys, areas, row) && DrawnAs(tiles, keys, areas, row);
      RowIsStrip(keys[row.start..row.end], areas[row.start..row.end], row.free);
    }
  }

  /** One row of `Layout`, read on the suffixes that start at item `a`. */
  lemma RowStep(keys: seq<string>, areas: seq<real>, a: nat, i: nat, free: Rect)
    requires |keys| == |areas| && a < i <= |areas| && Fits(areas[a..], free)
    requires RowLen(areas[a..], Side(free), 1) == i - a
    ensures Fits(areas[i..], Rest(free, Sum(areas[a..i])))
    ensures Layout(keys[a..], areas[a..], free)
            == RowTiles(keys[a..i], areas[a..i], free) + Layout(keys[i..], areas[i..], Rest(free, Sum(areas[a..i])))
  {
    hide Sum, Ratio, Times, RowLen, Rest, RowTiles, Thickness;
    RestFits(areas[a..], i - a, free);
    assert areas[a..][..i - a] == areas[a..i] && areas[a..][i - a..] == areas[i..];
    assert keys[a..][..i - a] == keys[a..i] && keys[a..][i - a..] == keys[i..];
  }

  /** The guard of the loop decides whether the greedy row goes on. */
  lemma RowGoesOn(areas: seq<real>, a: nat, i: nat, free: Rect)
    requires a < i < |areas| && Fits(areas[a..], free)
    requires Positive(areas[a..i]) && Positive(areas[a..i + 1])
    ensures Worst(areas[a..i], Side(free)) >= Worst(areas[a..i + 1], Side(free)) ==>
              RowLen(areas[a..], Side(free), i + 1 - a) == RowLen(areas[a..], Side(free), i - a)
    ensures Worst(areas[a..i], Side(free)) < Worst(areas[a..i + 1], Side(free)) ==>
              RowLen(areas[a..], Side(free), i - a) == i - a
  {
    hide Worst, Times, Sum;
    assert areas[a..][..i - a] == areas[a..i] && areas[a..][..i + 1 - a] == areas[a..i + 1];
  }

  /** A row of consecutive indexes is a stretch of the input. */
  lemma SpanOf(items: seq<Item>, box: Rect, a: nat, i: nat)
    requires a <= i <= |items| && items != [] && box.w > 0.0 && box.h > 0.0
    ensures var ws := Effective(items);
            && Sum(ws) > 0.0
            && RowAreas(Span(a, i), ws, Times(box.w, box.h) / Sum(ws)) == Shares(items, box)[a..i]
    ensures RowKeys(Span(a, i), items) == Keys(items)[a..i]
    ensures Positive(Shares(items, box)[a..i])
  {
    hide Sum, Times;
    SumPositive(Effective(items));
    SharesFit(items, box);
  }

  method Squarify(items: seq<Item>, box: Rect) returns (out: seq<Placed>)
    requires box.w > 0.0 && box.h > 0.0
    ensures items == [] ==> out == []
    ensures items != [] ==> Fits(Shares(items, box), box) && out == Layout(Keys(items), Shares(items, box), box)
    ensures items != [] ==> Partitions(out, box)
    ensures items != [] ==> Proportional(out, Keys(items), Shares(items, box))
    ensures items != [] ==> FairShares(out, items, box)
    ensures items != [] ==> InBestRows(out, Keys(items), Shares(items, box), box)
  {
    hide InBestRows, FairShares;
    hide Sum, Ratio, Times, RowTiles, Rest, Worst, Layout, Partitions, Proportional, Effective, Scaled, Thickness,
      RowAreas, RowKeys, RowLen, Shares, Keys;
    if |items| == 0 {
      return [];
    }
    var weights := Effective(items);
    var total := Total(weights);
    SumPositive(weights);
    var scale := Times(box.w, box.h) / total;
    ghost var keys, areas := Keys(items), Shares(items, box);
    SharesFit(items, box);
    out := [];
    var free := box;
    var row: seq<nat> := [];
    var i := 0;
    ghost var a := 0;  // where the current row starts
    assert keys[0..] == keys && areas[0..] == areas;
    while i < |items|
      invariant 0 <= a <= i <= |items|
      invariant row == Span(a, i)
      invariant Fits(areas[a..], free)
      invariant out + Layout(keys[a..], areas[a..], free) == Layout(keys, areas, box)
      invariant i > a ==> RowLen(areas[a..], Side(free), i - a) == RowLen(areas[a..], Side(free), 1)
      decreases |items| - i, |row|
    {
      var side := Min(free.w, free.h);
      var next := row + [i];
      assert next == Span(a, i + 1);
      var take := |row| == 0;
      if !take {
        SpanOf(items, box, a, i);
        SpanOf(items, box, a, i + 1);
        var before := WorstOfRow(row, side, weights, scale);
        var after := WorstOfRow(next, side, weights, scale);
        take := before >= after;
        RowGoesOn(areas, a, i, free);
      }
      if take {
        row := next;
        i := i + 1;
      } else {
        RowStep(keys, areas, a, i, free);
        out, free := LayoutRow(row, free, weights, scale, items, out);
        row := [];
        a := i;
      }
    }
    if |row| > 0 {
      SpanOf(items, box, a, i);
      LastRow(areas, a, free);
      RowStep(keys, areas, a, i, free);
      out, free := LayoutRow(row, free, weights, scale, items, out);
      a := i;
    }
    NothingLeft(keys, areas, a, free);
    assert out + [] == out;
    LayoutIsGood(items, box);
  }

  lemma LayoutIsGood(items: seq<Item>, box: Rect)
    requires items != [] && box.w > 0.0 && box.h > 0.0
    ensures Fits(Shares(items, box), box)
    ensures var tiles := Layout(Keys(items), Shares(items, box), box);
            && Partitions(tiles, box) && Proportional(tiles, Keys(items), Shares(items, box))
            && FairShares(tiles, items, box) && InBestRows(tiles, Keys(items), Shares(items, box), box)
  {
    hide *;
    SharesFit(items, box);
    LayoutPartitions(Keys(items), Shares(items, box), box);
    LayoutProportional(Keys(items), Shares(items, box), box);
    SharesAreFair(Layout(Keys(items), Shares(items, box), box), items, box);
    SharesNotEmpty(items, box);
    LayoutInBestRows(Keys(items), Shares(items, box), box);
  }

  lemma SharesNotEmpty(items: seq<Item>, box: Rect)
    requires items != [] && box.w > 0.0 && box.h > 0.0
    ensures Shares(items, box) != []
  {
  }

  lemma LastRow(areas: seq<real>, a: nat, free: Rect)
    requires a < |areas| && Fits(areas[a..], free)
    ensures RowLen(areas[a..], Side(free), |areas| - a) == |areas| - a
  {
    hide Worst, Times, Sum;
  }

  lemma NothingLeft(keys: seq<string>, areas: seq<real>, a: nat, free: Rect)
    requires |keys| == |areas| == a && Fits(areas[a..], free)
    ensures Layout(keys[a..], areas[a..], free) == []
  {
  }
}
