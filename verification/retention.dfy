/** Ingestion under a memory budget (internal/usecase/ingest.go), one call at a time.

  The budgeted store is compared with the store that never forgets: after the same arrivals, the budgeted
  one holds the newest min(M, k) samples, and each of its streams is a suffix of the stable time-sort of
  what arrived there. */
module Retention {
  import opened Domain
  import opened MemStore

  // ----- the stable sort -----

  /** The arrivals of one stream in the order the store keeps them. */
  function SortOf(arrived: seq<Sample>): (ss: seq<Sample>)
    ensures |ss| == |arrived|
  {
    if arrived == [] then [] else Insert(SortOf(arrived[..|arrived| - 1]), arrived[|arrived| - 1])
  }

  /** The samples of one instant, in order. */
  function AtTime(ss: seq<Sample>, t: Time): seq<Sample> {
    if ss == [] then [] else (if ss[0].time == t then [ss[0]] else []) + AtTime(ss[1..], t)
  }

  lemma {:induction false} AtTimeConcat(a: seq<Sample>, b: seq<Sample>, t: Time)
    ensures AtTime(a + b, t) == AtTime(a, t) + AtTime(b, t)
  {
    if a == [] {
      assert a + b == b;
    } else {
      assert (a + b)[1..] == a[1..] + b;
      AtTimeConcat(a[1..], b, t);
      var head := if a[0].time == t then [a[0]] else [];
      assert head + (AtTime(a[1..], t) + AtTime(b, t)) == (head + AtTime(a[1..], t)) + AtTime(b, t);
    }
  }

  lemma {:induction false} AtTimeNone(ss: seq<Sample>, t: Time)
    requires forall k :: 0 <= k < |ss| ==> ss[k].time != t
    ensures AtTime(ss, t) == []
  {
    if ss != [] {
      AtTimeNone(ss[1..], t);
    }
  }

  lemma AtTimeOne(x: Sample, t: Time)
    ensures AtTime([x], t) == if x.time == t then [x] else []
  {
  }

  lemma AtTimeInsert(ss: seq<Sample>, x: Sample, t: Time)
    ensures AtTime(Insert(ss, x), t) == AtTime(ss, t) + (if x.time == t then [x] else [])
  {
    hide Insert, AtTime;
    var i := InsertSplits(ss, x);
    var a, b := ss[..i], ss[i..];
    assert ss == a + b;
    AtTimeConcat(a, b, t);
    AtTimeConcat(a + [x], b, t);
    AtTimeConcat(a, [x], t);
    AtTimeOne(x, t);
    if x.time == t {
      AtTimeNone(b, t);
      assert AtTime(a, t) + [x] + [] == AtTime(a, t) + [] + [x];
    } else {
      assert AtTime(a, t) + [] + AtTime(b, t) == AtTime(a, t) + AtTime(b, t) + [];
    }
  }

  /** `SortOf` sorts by time and keeps the arrival order of equal times. */
  lemma {:induction false} SortIsStable(arrived: seq<Sample>, t: Time)
    ensures Sorted(SortOf(arrived))
    ensures AtTime(SortOf(arrived), t) == AtTime(arrived, t)
  {
    if arrived != [] {
      var init, x := arrived[..|arrived| - 1], arrived[|arrived| - 1];
      SortIsStable(init, t);
      InsertSorted(SortOf(init), x);
      AtTimeInsert(SortOf(init), x, t);
      assert arrived == init + [x];
      AtTimeConcat(init, [x], t);
    }
  }

  lemma {:induction false} HeadInAtTime(ss: seq<Sample>, k: nat)
    requires k < |ss|
    ensures AtTime(ss, ss[k].time) != []
  {
    if k > 0 {
      HeadInAtTime(ss[1..], k - 1);
    }
  }

  lemma NonEmptySomewhere(ss: seq<Sample>)
    ensures ss != [] ==> AtTime(ss, ss[0].time) != []
  {
  }

  lemma {:induction false} AtTimeInside(ss: seq<Sample>, t: Time, x: Sample)
    requires x in AtTime(ss, t)
    ensures x in ss && x.time == t
  {
    if x !in AtTime(ss[1..], t) {
      assert x == ss[0];
    } else {
      AtTimeInside(ss[1..], t, x);
    }
  }

  /** Only one sequence is sorted and agrees on every instant, so that is what "stable sort" means. */
  lemma {:induction false} StableSortUnique(a: seq<Sample>, b: seq<Sample>)
    requires Sorted(a) && Sorted(b)
    requires forall t :: AtTime(a, t) == AtTime(b, t)
    ensures a == b
  {
    NonEmptySomewhere(b);
    if a != [] {
      var t := a[0].time;
      HeadInAtTime(a, 0);
      AtTimeInside(b, t, AtTime(b, t)[0]);
      var u := b[0].time;
      HeadInAtTime(b, 0);
      AtTimeInside(a, u, AtTime(a, u)[0]);
      assert a[0] == AtTime(a, t)[0] && b[0] == AtTime(b, u)[0];
      assert t == u && a[0] == b[0];
      forall s ensures AtTime(a[1..], s) == AtTime(b[1..], s) {
        assert AtTime(a, s) == AtTime(b, s);
        var skip := if t == s then 1 else 0;
        assert AtTime(a[1..], s) == AtTime(a, s)[skip..] && AtTime(b[1..], s) == AtTime(b, s)[skip..];
      }
      StableSortUnique(a[1..], b[1..]);
    }
  }

  // ----- the store that never forgets -----

  type Arrivals = seq<(StreamID, Sample)>

  function Of(arrivals: Arrivals, id: StreamID): seq<Sample> {
    if arrivals == [] then []
    else
      var last := arrivals[|arrivals| - 1];
      Of(arrivals[..|arrivals| - 1], id) + if last.0 == id then [last.1] else []
  }

  function Everything(arrivals: Arrivals): Streams {
    if arrivals == [] then map[]
    else
      var last := arrivals[|arrivals| - 1];
      Appended(Everything(arrivals[..|arrivals| - 1]), last.0, last.1)
  }

  lemma {:induction false} EverythingIsSorted(arrivals: Arrivals, id: StreamID)
    ensures Held(Everything(arrivals), id) == SortOf(Of(arrivals, id))
    ensures ValidStreams(Everything(arrivals))
    ensures Total(Everything(arrivals)) == |arrivals|
  {
    if arrivals != [] {
      var init, last := arrivals[..|arrivals| - 1], arrivals[|arrivals| - 1];
      EverythingIsSorted(init, id);
      AppendedKeeps(Everything(init), last.0, last.1);
      if last.0 == id {
        var arrived := Of(arrivals, id);
        assert arrived[..|arrived| - 1] == Of(init, id);
      } else {
        assert Of(arrivals, id) == Of(init, id);
      }
    }
  }

  // ----- one ingest -----

  /** Append, then drop whatever is over budget. */
  ghost predicate Ingests(maxSamples: int, m: Streams, id: StreamID, x: Sample, m': Streams) {
    var added := Appended(m, id, x);
    DropsOldest(added, Excess(maxSamples, Total(added)), m')
  }

  class Ingester {
    const store: Store
    const maxSamples: int

    constructor (store: Store, maxSamples: int)
      ensures this.store == store && this.maxSamples == maxSamples
    {
      this.store := store;
      this.maxSamples := maxSamples;
    }

    method Ingest(id: StreamID, s: Sample)
      requires store.Valid()
      modifies store
      ensures store.Valid()
      ensures Ingests(maxSamples, old(store.streams), id, s, store.streams)
    {
      hide ValidStreams, DropsOldest;
      store.Append(id, s);
      var count := store.Count();
      var n := Excess(maxSamples, count);
      if n > 0 {
        var _ := store.DropOldest(n);
      } else {
        DropsNone(store.streams, n);
      }
    }
  }

  /** The evictor forgets everything outside the window. */
  method Evict(store: Store, duration: int, now: Time) returns (dropped: int)
    requires store.Valid()
    modifies store
    ensures store.Valid()
    ensures store.streams == Pruned(old(store.streams), Cutoff(duration, now))
    ensures dropped == old(Total(store.streams)) - Total(store.streams)
    ensures forall id :: KeepsYoung(old(Held(store.streams, id)), duration, now, Held(store.streams, id))
  {
    ghost var was := store.streams;
    dropped := store.DropBefore(Cutoff(duration, now));
    PrunedKeepsYoung(was, duration, now);
  }

  /** Of the samples that were held, those at most `duration` old are left, in their order. */
  ghost predicate KeepsYoung(was: seq<Sample>, duration: int, now: Time, left: seq<Sample>) {
    && |left| <= |was|
    && (forall k :: 0 <= k < |was| ==> (now - was[k].time <= duration <==> k >= |was| - |left|))
    && left == was[|was| - |left|..]
  }

  lemma PrunedKeepsYoung(m: Streams, duration: int, now: Time)
    requires ValidStreams(m)
    ensures forall id :: KeepsYoung(Held(m, id), duration, now, Held(Pruned(m, Cutoff(duration, now)), id))
  {
    forall id ensures KeepsYoung(Held(m, id), duration, now, Held(Pruned(m, Cutoff(duration, now)), id)) {
      hide Newer;
      var cut := FirstYoung(Held(m, id), duration, now, |Held(m, id)|);
      NewerIsSuffix(Held(m, id), Cutoff(duration, now), cut);
    }
  }

  /** Where the young samples of a sorted stream start. */
  lemma {:induction false} FirstYoung(ss: seq<Sample>, duration: int, now: Time, i: nat) returns (cut: nat)
    requires Sorted(ss) && i <= |ss| && forall k :: i <= k < |ss| ==> now - ss[k].time <= duration
    ensures cut <= |ss| && forall k :: 0 <= k < |ss| ==> (now - ss[k].time <= duration <==> k >= cut)
  {
    cut := i;
    if i > 0 && now - ss[i - 1].time <= duration {
      cut := FirstYoung(ss, duration, now, i - 1);
    }
  }

  // ----- the budgeted store keeps the newest -----

  lemma ForgetsTransitive(a: Streams, b: Streams, c: Streams)
    requires ForgetsOldest(a, b) && ForgetsOldest(b, c)
    ensures ForgetsOldest(a, c)
  {
    hide NoneNewer, IsSuffix, Gone, Held;
    forall i ensures IsSuffix(Held(c, i), Held(a, i)) {
      SuffixChain(Held(c, i), Held(b, i), Held(a, i));
    }
    forall i, j ensures NoneNewer(Gone(a, c, i), Held(c, j)) {
      GoneChain(a, b, c, i);
      NoneNewerOfParts(Gone(a, b, i), Gone(b, c, i), Held(c, j), Held(b, j));
    }
  }

  lemma SuffixChain(a: seq<Sample>, b: seq<Sample>, c: seq<Sample>)
    requires IsSuffix(a, b) && IsSuffix(b, c)
    ensures IsSuffix(a, c)
    ensures c[..|c| - |a|] == c[..|c| - |b|] + b[..|b| - |a|]
  {
    assert c == c[..|c| - |b|] + b;
  }

  lemma GoneChain(a: Streams, b: Streams, c: Streams, i: StreamID)
    requires IsSuffix(Held(b, i), Held(a, i)) && IsSuffix(Held(c, i), Held(b, i))
    ensures Gone(a, c, i) == Gone(a, b, i) + Gone(b, c, i)
  {
    hide Held;
    SuffixChain(Held(c, i), Held(b, i), Held(a, i));
  }

  /** Behind everything forgotten, a new sample lands in the part that is kept. */
  lemma InsertBehind(gone: seq<Sample>, kept: seq<Sample>, x: Sample)
    requires forall k :: 0 <= k < |gone| ==> gone[k].time <= x.time
    ensures Insert(gone + kept, x) == gone + Insert(kept, x)
  {
    hide Insert;
    var i := InsertSplits(kept, x);
    var s := gone + kept;
    InsertAt(s, x, |gone| + i);
    assert s[..|gone| + i] == gone + kept[..i] && s[|gone| + i..] == kept[i..];
  }

  /** Before everything kept, it lands in the part that is forgotten. */
  lemma InsertBefore(gone: seq<Sample>, kept: seq<Sample>, x: Sample)
    requires forall k :: 0 <= k < |kept| ==> x.time < kept[k].time
    ensures Insert(gone + kept, x) == Insert(gone, x) + kept
  {
    hide Insert;
    var i := InsertSplits(gone, x);
    var s := gone + kept;
    InsertAt(s, x, i);
    assert s[..i] == gone[..i] && s[i..] == gone[i..] + kept;
  }

  /** `x` is older than something already forgotten. */
  ghost predicate IsLate(full: Streams, m: Streams, x: Sample) {
    exists i, k :: 0 <= k < |Gone(full, m, i)| && x.time < Gone(full, m, i)[k].time
  }

  lemma HeldAppended(m: Streams, id: StreamID, x: Sample, i: StreamID)
    ensures Held(Appended(m, id, x), i) == if i == id then Insert(Held(m, id), x) else Held(m, i)
  {
  }

  lemma GoneInTime(full: Streams, m: Streams, id: StreamID, x: Sample, i: StreamID)
    requires ForgetsOldest(full, m) && !IsLate(full, m, x)
    ensures IsSuffix(Held(Appended(m, id, x), i), Held(Appended(full, id, x), i))
    ensures Gone(Appended(full, id, x), Appended(m, id, x), i) == Gone(full, m, i)
  {
    hide Appended;
    HeldAppended(full, id, x, i);
    HeldAppended(m, id, x, i);
    SplitHeld(full, m, i);
    if i == id {
      InsertBehind(Gone(full, m, id), Held(m, id), x);
    }
  }

  lemma AppendInTime(full: Streams, m: Streams, id: StreamID, x: Sample)
    requires ForgetsOldest(full, m) && !IsLate(full, m, x)
    ensures ForgetsOldest(Appended(full, id, x), Appended(m, id, x))
  {
    hide Appended, IsSuffix, Held, Gone;
    var full', m' := Appended(full, id, x), Appended(m, id, x);
    forall i ensures IsSuffix(Held(m', i), Held(full', i)) {
      GoneInTime(full, m, id, x, i);
    }
    forall i, j ensures NoneNewer(Gone(full', m', i), Held(m', j)) {
      GoneInTime(full, m, id, x, i);
      HeldAppended(m, id, x, j);
      assert NoneNewer(Gone(full, m, i), Held(m, j));
      if j == id {
        NoneNewerInsert(Gone(full, m, i), Held(m, id), x);
      }
    }
  }

  lemma NoneNewerInsert(gone: seq<Sample>, kept: seq<Sample>, x: Sample)
    requires NoneNewer(gone, kept)
    requires forall k :: 0 <= k < |gone| ==> gone[k].time <= x.time
    ensures NoneNewer(gone, Insert(kept, x))
  {
    var k := InsertSplits(kept, x);
  }

  lemma SplitHeld(full: Streams, m: Streams, i: StreamID)
    requires ForgetsOldest(full, m)
    ensures IsSuffix(Held(m, i), Held(full, i))
    ensures Held(full, i) == Gone(full, m, i) + Held(m, i)
  {
  }

  lemma LateIsOldest(full: Streams, m: Streams, x: Sample, j: StreamID)
    requires ForgetsOldest(full, m) && IsLate(full, m, x)
    ensures forall k :: 0 <= k < |Held(m, j)| ==> x.time < Held(m, j)[k].time
  {
    var i, d :| 0 <= d < |Gone(full, m, i)| && x.time < Gone(full, m, i)[d].time;
    assert NoneNewer(Gone(full, m, i), Held(m, j));
  }

  lemma GoneLate(full: Streams, m: Streams, id: StreamID, x: Sample, i: StreamID)
    requires IsSuffix(Held(m, i), Held(full, i))
    requires forall k :: 0 <= k < |Held(m, i)| ==> x.time < Held(m, i)[k].time
    ensures IsSuffix(Held(m, i), Held(Appended(full, id, x), i))
    ensures Gone(Appended(full, id, x), m, i) == if i == id then Insert(Gone(full, m, id), x) else Gone(full, m, i)
  {
    hide Appended, Insert, IsSuffix, Held;
    HeldAppended(full, id, x, i);
    if i == id {
      SuffixLate(Held(m, id), Held(full, id), x);
    }
  }

  /** An insertion before everything kept leaves the kept part a suffix. */
  lemma SuffixLate(kept: seq<Sample>, all: seq<Sample>, x: Sample)
    requires IsSuffix(kept, all) && forall k :: 0 <= k < |kept| ==> x.time < kept[k].time
    ensures |kept| <= |all| && |kept| <= |Insert(all, x)| && IsSuffix(kept, Insert(all, x))
    ensures Insert(all, x)[..|Insert(all, x)| - |kept|] == Insert(all[..|all| - |kept|], x)
  {
    hide Insert;
    var gone := all[..|all| - |kept|];
    assert all == gone + kept;
    InsertBefore(gone, kept, x);
  }

  lemma NoneNewerLate(gone: seq<Sample>, kept: seq<Sample>, x: Sample)
    requires NoneNewer(gone, kept)
    requires forall k :: 0 <= k < |kept| ==> x.time < kept[k].time
    ensures NoneNewer(Insert(gone, x), kept)
  {
    var k := InsertSplits(gone, x);
  }

  /** A late sample is forgotten at once, so the store is unchanged by it. */
  lemma AppendLate(full: Streams, m: Streams, id: StreamID, x: Sample)
    requires ForgetsOldest(full, m) && IsLate(full, m, x)
    ensures ForgetsOldest(Appended(full, id, x), m)
  {
    hide Appended, IsSuffix, Held, Gone, IsLate;
    var full' := Appended(full, id, x);
    forall i ensures IsSuffix(Held(m, i), Held(full', i)) {
      LateIsOldest(full, m, x, i);
      GoneLate(full, m, id, x, i);
    }
    forall i, j ensures NoneNewer(Gone(full', m, i), Held(m, j)) {
      LateIsOldest(full, m, x, i);
      GoneLate(full, m, id, x, i);
      assert NoneNewer(Gone(full, m, i), Held(m, j));
      LateIsOldest(full, m, x, j);
      NoneNewerLate(Gone(full, m, i), Held(m, j), x);
    }
  }

  lemma OnlyOldest(m: Streams, id: StreamID, k: StreamID)
    requires OldestHead(m, k) && id in m && m[id] != []
    requires k != id ==> m[id][0].time < m[k][0].time
    ensures k == id
  {
  }

  /** A sample older than everything held is the one that goes, whatever the ties. */
  lemma LateIsDropped(m: Streams, id: StreamID, x: Sample, m': Streams)
    requires ValidStreams(m) && OlderThanAll(m, x)
    requires DropsOldest(Appended(m, id, x), 1, m')
    ensures m' == m
  {
    hide Insert, OldestHead, OlderThanAll, Sorted;
    var a := Appended(m, id, x);
    OlderThanHead(m, x, id);
    InsertAt(Held(m, id), x, 0);
    assert a[id] == [x] + Held(m, id);
    var k :| OldestHead(a, k) && DropsOldest(HeadDropped(a, k), 0, m');
    InMap(a, k);
    OlderThanHead(m, x, k);
    assert k != id ==> a[k] == Held(m, k) && x.time < Held(m, k)[0].time;
    OnlyOldest(a, id, k);
    UndoAppend(m, id, x);
  }

  /** The sample is older than everything held. */
  ghost predicate OlderThanAll(m: Streams, x: Sample) {
    forall j, k :: 0 <= k < |Held(m, j)| ==> x.time < Held(m, j)[k].time
  }

  lemma OlderThanHead(m: Streams, x: Sample, j: StreamID)
    requires OlderThanAll(m, x)
    ensures forall k :: 0 <= k < |Held(m, j)| ==> x.time < Held(m, j)[k].time
  {
  }

  lemma LateIsOlderThanAll(full: Streams, m: Streams, x: Sample)
    requires ForgetsOldest(full, m) && IsLate(full, m, x)
    ensures OlderThanAll(m, x)
  {
    hide ForgetsOldest, IsLate;
    forall j ensures forall k :: 0 <= k < |Held(m, j)| ==> x.time < Held(m, j)[k].time {
      LateIsOldest(full, m, x, j);
    }
  }

  lemma UndoAppend(m: Streams, id: StreamID, x: Sample)
    requires ValidStreams(m) && Insert(Held(m, id), x) == [x] + Held(m, id)
    ensures HeadDropped(Appended(m, id, x), id) == m
  {
  }

  /** The budgeted store against the store that never forgets. */
  ghost predicate KeepsNewest(maxSamples: int, full: Streams, m: Streams) {
    && ValidStreams(m)
    && ForgetsOldest(full, m)
    && Total(m) == (if Total(full) <= maxSamples then Total(full) else maxSamples)
    && (Total(full) <= maxSamples ==> m == full)
  }

  lemma SameWhenNothingGone(full: Streams, m: Streams)
    requires ValidStreams(full) && ValidStreams(m) && full == m
    ensures forall x :: !IsLate(full, m, x)
  {
  }

  /** Dropping the excess from a store that kept the newest, with one sample more, keeps the newest. */
  lemma IngestKeepsNewest(maxSamples: int, full: Streams, m: Streams, id: StreamID, x: Sample)
    requires maxSamples > 0 && ValidStreams(full) && KeepsNewest(maxSamples, full, m)
    ensures forall m' :: Ingests(maxSamples, m, id, x, m') ==> KeepsNewest(maxSamples, Appended(full, id, x), m')
  {
    hide ForgetsOldest, IsLate, Appended, DropsOldest;
    AppendedKeeps(full, id, x);
    AppendedKeeps(m, id, x);
    var added := Appended(m, id, x);
    var n := Excess(maxSamples, Total(added));
    forall m' | Ingests(maxSamples, m, id, x, m') ensures KeepsNewest(maxSamples, Appended(full, id, x), m') {
      DropsOldestContract(added, n, m');
      if IsLate(full, m, x) {
        if Total(full) <= maxSamples {
          SameWhenNothingGone(full, m);
        }
        LateIsOlderThanAll(full, m, x);
        LateIsDropped(m, id, x, m');
        AppendLate(full, m, id, x);
      } else {
        AppendInTime(full, m, id, x);
        ForgetsTransitive(Appended(full, id, x), added, m');
        if n == 0 {
          DropsNothing(added, m');
        }
      }
    }
  }

  lemma DropsNothing(m: Streams, m': Streams)
    requires DropsOldest(m, 0, m')
    ensures m' == m
  {
  }

  /** Some state of the store after ingesting `arrivals` in order, starting empty. */
  ghost predicate Reaches(maxSamples: int, arrivals: Arrivals, m: Streams) {
    if arrivals == [] then m == map[]
    else
      var last := arrivals[|arrivals| - 1];
      exists prev ::
        Reaches(maxSamples, arrivals[..|arrivals| - 1], prev) && Ingests(maxSamples, prev, last.0, last.1, m)
  }

  /** After any k ingests under a budget M > 0: min(M, k) samples are held, every stream is a suffix of the
    stable sort of its arrivals, and nothing forgotten is newer than anything held. */
  lemma {:induction false} RetentionRefinesSort(maxSamples: int, arrivals: Arrivals, m: Streams)
    requires maxSamples > 0 && Reaches(maxSamples, arrivals, m)
    ensures ValidStreams(m)
    ensures Total(m) == if |arrivals| <= maxSamples then |arrivals| else maxSamples
    ensures forall id :: IsSuffix(Held(m, id), SortOf(Of(arrivals, id)))
    ensures forall i, j, a, b ::
              0 <= a < |SortOf(Of(arrivals, i))| - |Held(m, i)| && 0 <= b < |Held(m, j)| ==>
                SortOf(Of(arrivals, i))[a].time <= Held(m, j)[b].time
    ensures KeepsNewest(maxSamples, Everything(arrivals), m)
  {
    KeepsNewestOverRun(maxSamples, arrivals, m);
    var full := Everything(arrivals);
    EverythingIsSorted(arrivals, StreamID("", "", KindNone, ""));
    forall id ensures Held(full, id) == SortOf(Of(arrivals, id))
      && Gone(full, m, id) == SortOf(Of(arrivals, id))[..|SortOf(Of(arrivals, id))| - |Held(m, id)|]
    {
      EverythingIsSorted(arrivals, id);
      SplitHeld(full, m, id);
    }
    forall i, j, a, b | 0 <= a < |SortOf(Of(arrivals, i))| - |Held(m, i)| && 0 <= b < |Held(m, j)|
      ensures SortOf(Of(arrivals, i))[a].time <= Held(m, j)[b].time
    {
      assert NoneNewer(Gone(full, m, i), Held(m, j));
      assert SortOf(Of(arrivals, i))[a] == Gone(full, m, i)[a];
    }
  }

  lemma {:induction false} KeepsNewestOverRun(maxSamples: int, arrivals: Arrivals, m: Streams)
    requires maxSamples > 0 && Reaches(maxSamples, arrivals, m)
    ensures KeepsNewest(maxSamples, Everything(arrivals), m)
  {
    if arrivals == [] {
      ForgetsNothing(m);
    } else {
      var init, last := arrivals[..|arrivals| - 1], arrivals[|arrivals| - 1];
      var prev :| Reaches(maxSamples, init, prev) && Ingests(maxSamples, prev, last.0, last.1, m);
      KeepsNewestOverRun(maxSamples, init, prev);
      EverythingIsSorted(init, last.0);
      IngestKeepsNewest(maxSamples, Everything(init), prev, last.0, last.1);
    }
  }

  /** A budget of zero or less never forgets. */
  lemma {:induction false} UnlimitedKeepsEverything(maxSamples: int, arrivals: Arrivals, m: Streams)
    requires maxSamples <= 0 && Reaches(maxSamples, arrivals, m)
    ensures m == Everything(arrivals)
  {
    if arrivals != [] {
      var init, last := arrivals[..|arrivals| - 1], arrivals[|arrivals| - 1];
      var prev :| Reaches(maxSamples, init, prev) && Ingests(maxSamples, prev, last.0, last.1, m);
      UnlimitedKeepsEverything(maxSamples, init, prev);
    }
  }
}
