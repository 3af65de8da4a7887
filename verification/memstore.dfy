/** The in-memory store (internal/adapter/memstore/memstore.go).

  `Store` is the source's struct with its loops. Its methods are specified by functions and relations on
  the `streams` map, and the contents of a map are read as one multiset of tagged samples, so that what
  is appended, kept and dropped can be added up. */
module MemStore {
  import opened Domain
  import Names

  type Streams = map<StreamID, seq<Sample>>

  // ----- one stream -----

  ghost predicate Sorted(ss: seq<Sample>) {
    forall i, j :: 0 <= i < j < |ss| ==> ss[i].time <= ss[j].time
  }

  /** Insertion from the back, behind every sample that is not newer. */
  function Insert(ss: seq<Sample>, x: Sample): (r: seq<Sample>)
    ensures |r| == |ss| + 1
  {
    if ss == [] || ss[|ss| - 1].time <= x.time then ss + [x] else Insert(ss[..|ss| - 1], x) + [ss[|ss| - 1]]
  }

  lemma {:induction false} InsertSplits(ss: seq<Sample>, x: Sample) returns (i: nat)
    ensures i <= |ss| && Insert(ss, x) == ss[..i] + [x] + ss[i..]
    ensures i > 0 ==> ss[i - 1].time <= x.time
    ensures forall k :: i <= k < |ss| ==> x.time < ss[k].time
  {
    if ss == [] || ss[|ss| - 1].time <= x.time {
      i := |ss|;
    } else {
      var init, last := ss[..|ss| - 1], ss[|ss| - 1];
      i := InsertSplits(init, x);
      assert init[..i] + [x] + init[i..] + [last] == ss[..i] + [x] + ss[i..];
    }
  }

  /** In a sorted stream there is only one place to go. */
  lemma {:induction false} InsertAt(ss: seq<Sample>, x: Sample, i: nat)
    requires i <= |ss| && (i > 0 ==> ss[i - 1].time <= x.time)
    requires forall k :: i <= k < |ss| ==> x.time < ss[k].time
    ensures Insert(ss, x) == ss[..i] + [x] + ss[i..]
  {
    if i < |ss| {
      var init, last := ss[..|ss| - 1], ss[|ss| - 1];
      InsertAt(init, x, i);
      assert init[..i] + [x] + init[i..] + [last] == ss[..i] + [x] + ss[i..];
    } else {
      assert ss[..i] + [x] + ss[i..] == ss + [x];
    }
  }

  lemma InsertSorted(ss: seq<Sample>, x: Sample)
    requires Sorted(ss)
    ensures Sorted(Insert(ss, x))
  {
    var i := InsertSplits(ss, x);
  }

  /** The samples not older than the cutoff. */
  function Newer(ss: seq<Sample>, cutoff: Time): (r: seq<Sample>)
    ensures |r| <= |ss|
  {
    if ss == [] then [] else (if ss[0].time >= cutoff then [ss[0]] else []) + Newer(ss[1..], cutoff)
  }

  lemma {:induction false} NewerIsSuffix(ss: seq<Sample>, cutoff: Time, i: nat)
    requires i <= |ss|
    requires forall k :: 0 <= k < i ==> ss[k].time < cutoff
    requires forall k :: i <= k < |ss| ==> ss[k].time >= cutoff
    ensures Newer(ss, cutoff) == ss[i..]
  {
    if ss != [] {
      NewerIsSuffix(ss[1..], cutoff, if i > 0 then i - 1 else 0);
    }
  }

  // ----- all streams -----

  ghost predicate ValidStreams(m: Streams) {
    forall id :: id in m ==> m[id] != [] && Sorted(m[id])
  }

  function Held(m: Streams, id: StreamID): seq<Sample> { if id in m then m[id] else [] }

  /** How many samples the store holds. */
  ghost function Total(m: Streams): nat
    decreases |m|
  {
    if m == map[] then 0 else var id :| id in m; |m[id]| + Total(m - {id})
  }

  lemma {:induction false} TotalAt(m: Streams, id: StreamID)
    requires id in m
    ensures Total(m) == |m[id]| + Total(m - {id})
    decreases |m|
  {
    var k :| k in m && Total(m) == |m[k]| + Total(m - {k});
    if k != id {
      TotalAt(m - {k}, id);
      TotalAt(m - {id}, k);
      assert m - {k} - {id} == m - {id} - {k};
    }
  }

  lemma TotalUpdate(m: Streams, id: StreamID, ss: seq<Sample>)
    ensures Total(m[id := ss]) + |Held(m, id)| == Total(m) + |ss|
  {
    TotalAt(m[id := ss], id);
    assert m[id := ss] - {id} == m - {id};
    TotalRemove(m, id);
  }

  lemma TotalRemove(m: Streams, id: StreamID)
    ensures Total(m - {id}) + |Held(m, id)| == Total(m)
  {
    if id in m {
      TotalAt(m, id);
    } else {
      assert m - {id} == m;
    }
  }

  // ----- listings -----

  /** What a listing picks from a stream's identifier, if anything. */
  type Pick = StreamID -> Option<string>

  function Picked(m: Streams, pick: Pick): set<string> { set id | id in m && pick(id).Some? :: pick(id).value }

  function PickNamespace(): Pick { (id: StreamID) => Some(id.ns) }

  function PickService(ns: string): Pick { (id: StreamID) => if id.ns == ns then Some(id.svc) else None }

  function PickStream(ns: string, svc: string, kind: Kind): Pick {
    (id: StreamID) => if id.ns == ns && id.svc == svc && id.kind == kind then Some(id.name) else None
  }

  // ----- the operations on values -----

  function Appended(m: Streams, id: StreamID, x: Sample): Streams { m[id := Insert(Held(m, id), x)] }

  lemma AppendedKeeps(m: Streams, id: StreamID, x: Sample)
    requires ValidStreams(m)
    ensures ValidStreams(Appended(m, id, x))
    ensures Total(Appended(m, id, x)) == Total(m) + 1
  {
    InsertSorted(Held(m, id), x);
    TotalUpdate(m, id, Insert(Held(m, id), x));
  }

  /** `id` has the oldest first sample; several streams may tie. */
  ghost predicate OldestHead(m: Streams, id: StreamID) {
    && id in m && m[id] != []
    && forall j :: j in m && m[j] != [] ==> m[id][0].time <= m[j][0].time
  }

  function HeadDropped(m: Streams, id: StreamID): Streams {
    if |Held(m, id)| <= 1 then m - {id} else m[id := m[id][1..]]
  }

  lemma HeadDroppedKeeps(m: Streams, id: StreamID)
    requires ValidStreams(m) && id in m
    ensures ValidStreams(HeadDropped(m, id))
    ensures forall j :: Held(HeadDropped(m, id), j) == if j == id then m[id][1..] else Held(m, j)
    ensures Total(HeadDropped(m, id)) == Total(m) - 1
  {
    if |m[id]| == 1 {
      TotalRemove(m, id);
    } else {
      TotalUpdate(m, id, m[id][1..]);
    }
  }

  /** Some outcome of dropping the `n` globally oldest samples; ties are broken in any order. */
  ghost predicate DropsOldest(m: Streams, n: int, m': Streams)
    decreases n
  {
    if n <= 0 || m == map[] then m' == m
    else exists id :: OldestHead(m, id) && DropsOldest(HeadDropped(m, id), n - 1, m')
  }

  lemma HasHead(m: Streams, id: StreamID)
    requires OldestHead(m, id)
    ensures m != map[]
  {
  }

  lemma {:induction false} DropsOneMore(m: Streams, n: nat, mid: Streams, id: StreamID)
    requires DropsOldest(m, n, mid) && OldestHead(mid, id)
    ensures DropsOldest(m, n + 1, HeadDropped(mid, id))
    decreases n
  {
    hide HeadDropped, OldestHead;
    if n == 0 || m == map[] {
      HasHead(mid, id);
      DropsNone(HeadDropped(mid, id), 0);
      assert OldestHead(m, id) && DropsOldest(HeadDropped(m, id), 0, HeadDropped(mid, id));
    } else {
      var k :| OldestHead(m, k) && DropsOldest(HeadDropped(m, k), n - 1, mid);
      DropsOneMore(HeadDropped(m, k), n - 1, mid, id);
    }
  }

  lemma DropsNone(m: Streams, n: int)
    ensures DropsOldest(m, 0, m)
    ensures n <= 0 ==> DropsOldest(m, n, m)
  {
  }

  lemma HeadDroppedInSteps(m: Streams, id: StreamID)
    requires id in m && m[id] != []
    ensures var tail := m[id][1..];
            HeadDropped(m, id) == if |tail| == 0 then m[id := tail] - {id} else m[id := tail]
  {
    assert m[id := m[id][1..]] - {id} == m - {id};
  }

  lemma {:induction false} DropsNoMore(m: Streams, n: nat, more: nat, m': Streams)
    requires DropsOldest(m, n, m') && m' == map[] && n <= more
    ensures DropsOldest(m, more, m')
    decreases n
  {
    hide HeadDropped, OldestHead;
    if n > 0 && m != map[] {
      var k :| OldestHead(m, k) && DropsOldest(HeadDropped(m, k), n - 1, m');
      DropsNoMore(HeadDropped(m, k), n - 1, more - 1, m');
    }
  }

  ghost predicate IsSuffix(a: seq<Sample>, b: seq<Sample>) {
    |a| <= |b| && b[|b| - |a|..] == a
  }

  /** No sample of the first sequence is newer than any of the second. */
  ghost predicate NoneNewer(gone: seq<Sample>, kept: seq<Sample>) {
    forall a, b :: 0 <= a < |gone| && 0 <= b < |kept| ==> gone[a].time <= kept[b].time
  }

  /** What of a stream has been forgotten on the way from `m` to `m'`. */
  function Gone(m: Streams, m': Streams, id: StreamID): seq<Sample> {
    if |Held(m', id)| <= |Held(m, id)| then Held(m, id)[..|Held(m, id)| - |Held(m', id)|] else []
  }

  /** Every stream of `m'` is a suffix of what `m` holds, and nothing forgotten is newer than anything kept. */
  ghost predicate ForgetsOldest(m: Streams, m': Streams) {
    && (forall id :: IsSuffix(Held(m', id), Held(m, id)))
    && (forall i, j :: NoneNewer(Gone(m, m', i), Held(m', j)))
  }

  lemma HeadIsOldest(m: Streams, id: StreamID, j: StreamID)
    requires ValidStreams(m) && OldestHead(m, id)
    ensures NoneNewer([m[id][0]], Held(m, j))
  {
    forall b | 0 <= b < |Held(m, j)| ensures m[id][0].time <= Held(m, j)[b].time {
      assert m[j][0].time <= m[j][b].time;
    }
  }

  lemma NoneNewerOfParts(head: seq<Sample>, gone: seq<Sample>, kept: seq<Sample>, whole: seq<Sample>)
    requires NoneNewer(head, whole) && NoneNewer(gone, kept) && IsSuffix(kept, whole)
    ensures NoneNewer(head + gone, kept)
  {
    assert forall b :: 0 <= b < |kept| ==> kept[b] == whole[|whole| - |kept| + b];
  }

  lemma SuffixOfTail(a: seq<Sample>, s: seq<Sample>)
    requires s != [] && IsSuffix(a, s[1..])
    ensures IsSuffix(a, s)
    ensures s[..|s| - |a|] == [s[0]] + s[1..][..|s| - 1 - |a|]
  {
    var d := |s| - |a|;
    assert s[1..][d - 1..] == s[d..];
  }

  lemma HeldAfterHead(m: Streams, id: StreamID, i: StreamID)
    requires id in m && m[id] != []
    ensures Held(HeadDropped(m, id), i) == if i == id then m[id][1..] else Held(m, i)
  {
  }

  lemma GoneOneMore(m: Streams, id: StreamID, m': Streams, i: StreamID)
    requires id in m && m[id] != [] && IsSuffix(Held(m', i), Held(HeadDropped(m, id), i))
    ensures IsSuffix(Held(m', i), Held(m, i))
    ensures Gone(m, m', i) == (if i == id then [m[id][0]] else []) + Gone(HeadDropped(m, id), m', i)
  {
    hide HeadDropped;
    HeldAfterHead(m, id, i);
    if i == id {
      SuffixOfTail(Held(m', i), m[id]);
    }
  }

  lemma ForgetsOneMore(m: Streams, id: StreamID, m': Streams)
    requires ValidStreams(m) && OldestHead(m, id) && ForgetsOldest(HeadDropped(m, id), m')
    ensures ForgetsOldest(m, m')
  {
    hide ValidStreams, HeadDropped, OldestHead, NoneNewer, IsSuffix, Gone, Held;
    InMap(m, id);
    forall i ensures IsSuffix(Held(m', i), Held(m, i)) {
      GoneOneMore(m, id, m', i);
    }
    forall i, j ensures NoneNewer(Gone(m, m', i), Held(m', j)) {
      GoneOneMore(m, id, m', i);
      HeadIsOldest(m, id, j);
      NoneNewerOfNothing(Held(m, j));
      NoneNewerOfParts(if i == id then [m[id][0]] else [], Gone(HeadDropped(m, id), m', i), Held(m', j), Held(m, j));
    }
  }

  lemma NoneNewerOfNothing(kept: seq<Sample>)
    ensures NoneNewer([], kept)
  {
  }

  lemma EmptyTotal()
    ensures Total(map[]) == 0
  {
  }

  lemma ForgetsNothing(m: Streams)
    ensures ForgetsOldest(m, m)
  {
  }

  lemma InMap(m: Streams, id: StreamID)
    requires OldestHead(m, id)
    ensures id in m && m[id] != []
  {
  }

  /** What dropping the `n` oldest does: exactly min(n, all) samples go, none newer than any that stays. */
  lemma {:induction false} DropsOldestContract(m: Streams, n: int, m': Streams)
    requires ValidStreams(m) && DropsOldest(m, n, m')
    ensures ValidStreams(m')
    ensures ForgetsOldest(m, m')
    ensures Total(m') == if n <= 0 then Total(m) else if n <= Total(m) then Total(m) - n else 0
    decreases n
  {
    hide ValidStreams, HeadDropped, ForgetsOldest, OldestHead, Total;
    EmptyTotal();
    ForgetsNothing(m);
    if n > 0 && m != map[] {
      var id :| OldestHead(m, id) && DropsOldest(HeadDropped(m, id), n - 1, m');
      InMap(m, id);
      HeadDroppedKeeps(m, id);
      DropsOldestContract(HeadDropped(m, id), n - 1, m');
      ForgetsOneMore(m, id, m');
    }
  }

  /** What the window rule leaves: every stream filtered, empty streams forgotten. */
  function Pruned(m: Streams, cutoff: Time): Streams {
    map id | id in m && Newer(m[id], cutoff) != [] :: Newer(m[id], cutoff)
  }

  /** The map while the loop of DropBefore still has the streams of `todo` to look at. */
  ghost predicate PrunedSoFar(was: Streams, cutoff: Time, todo: set<StreamID>, m: Streams) {
    && todo <= m.Keys <= was.Keys
    && (forall id :: id in todo ==> m[id] == was[id])
    && (forall id :: id in was && id !in todo ==> Held(m, id) == Newer(was[id], cutoff))
  }

  lemma PrunesOneMore(was: Streams, cutoff: Time, todo: set<StreamID>, m: Streams, id: StreamID, m': Streams)
    requires PrunedSoFar(was, cutoff, todo, m) && id in todo
    requires m'.Keys <= m.Keys && m.Keys <= m'.Keys + {id}
    requires forall j :: j in m' && j != id ==> m'[j] == m[j]
    requires Held(m', id) == Newer(was[id], cutoff)
    ensures PrunedSoFar(was, cutoff, todo - {id}, m')
  {
  }

  lemma PrunedStart(m: Streams, cutoff: Time)
    ensures PrunedSoFar(m, cutoff, m.Keys, m)
  {
  }

  lemma PrunedNext(was: Streams, cutoff: Time, todo: set<StreamID>, m: Streams, id: StreamID)
    requires PrunedSoFar(was, cutoff, todo, m) && id in todo && ValidStreams(m)
    ensures id in m && id in was && m[id] == was[id] && m[id] != [] && Sorted(m[id])
  {
  }

  lemma PrunedEnd(was: Streams, cutoff: Time, m: Streams)
    requires PrunedSoFar(was, cutoff, {}, m) && ValidStreams(m)
    ensures m == Pruned(was, cutoff)
  {
    assert forall id :: id in was ==> Held(m, id) == Newer(was[id], cutoff);
  }

  lemma SuffixValid(m: Streams, id: StreamID, i: nat)
    requires ValidStreams(m) && id in m && i <= |m[id]|
    ensures ValidStreams(m - {id})
    ensures i < |m[id]| ==> ValidStreams(m[id := m[id][i..]])
  {
  }

  // ----- the store -----

  class Store {
    var streams: Streams
    var count: int

    ghost predicate Valid()
      reads this
    {
      ValidStreams(streams) && count == Total(streams)
    }

    constructor ()
      ensures Valid() && streams == map[]
    {
      streams := map[];
      count := 0;
    }

    method Append(id: StreamID, sample: Sample)
      requires Valid()
      modifies this
      ensures Valid()
      ensures streams == Appended(old(streams), id, sample)
      ensures Total(streams) == old(Total(streams)) + 1
    {
      var ss := if id in streams then streams[id] else [];
      var i := |ss|;
      while i > 0 && sample.time < ss[i - 1].time
        invariant 0 <= i <= |ss|
        invariant forall k :: i <= k < |ss| ==> sample.time < ss[k].time
      {
        i := i - 1;
      }
      InsertAt(ss, sample, i);
      AppendedKeeps(streams, id, sample);
      streams := streams[id := ss[..i] + [sample] + ss[i..]];
      count := count + 1;
    }

    method Count() returns (n: int)
      requires Valid()
      ensures n == Total(streams)
    {
      n := count;
    }

    /** The scan over the map, in whatever order it is visited. */
    method FindOldest() returns (oldest: StreamID, found: bool)
      requires ValidStreams(streams)
      ensures found <==> streams != map[]
      ensures found ==> OldestHead(streams, oldest)
    {
      oldest, found := StreamID("", "", KindNone, ""), false;
      var todo := streams.Keys;
      while todo != {}
        invariant todo <= streams.Keys
        invariant found <==> todo != streams.Keys
        invariant found ==>
                    && oldest in streams
                    && forall j :: j in streams && j !in todo ==> streams[oldest][0].time <= streams[j][0].time
        decreases |todo|
      {
        var id :| id in todo;
        todo := todo - {id};
        if !found || streams[id][0].time < streams[oldest][0].time {
          oldest, found := id, true;
        }
      }
    }

    method DropOldest(n: int) returns (dropped: int)
      requires Valid()
      modifies this
      ensures Valid()
      ensures DropsOldest(old(streams), n, streams)
      ensures dropped == old(Total(streams)) - Total(streams)
    {
      hide Total, DropsOldest, OldestHead, HeadDropped, ValidStreams;
      DropsNone(streams, n);
      dropped := 0;
      var left := n;
      while left > 0
        invariant Valid()
        invariant if n <= 0 then dropped == 0 && left == n else dropped == n - left && 0 <= left <= n
        invariant DropsOldest(old(streams), dropped, streams)
        invariant n <= 0 ==> streams == old(streams)
        invariant dropped == old(Total(streams)) - Total(streams)
      {
        var oldest, found := FindOldest();
        if !found {
          DropsNoMore(old(streams), dropped, n, streams);
          break;
        }
        HeadDroppedKeeps(streams, oldest);
        DropsOneMore(old(streams), dropped, streams, oldest);
        InMap(streams, oldest);
        HeadDroppedInSteps(streams, oldest);
        var tail := streams[oldest][1..];
        streams := streams[oldest := tail];
        if |tail| == 0 {
          streams := streams - {oldest};
        }
        count := count - 1;
        dropped := dropped + 1;
        left := left - 1;
      }
    }

    /** sort.Search for the first sample at or after the cutoff. */
    method SearchCutoff(ss: seq<Sample>, cutoff: Time) returns (i: nat)
      requires Sorted(ss)
      ensures i <= |ss|
      ensures forall k :: 0 <= k < i ==> ss[k].time < cutoff
      ensures forall k :: i <= k < |ss| ==> ss[k].time >= cutoff
    {
      i := 0;
      var j := |ss|;
      while i < j
        invariant 0 <= i <= j <= |ss|
        invariant forall k :: 0 <= k < i ==> ss[k].time < cutoff
        invariant forall k :: j <= k < |ss| ==> ss[k].time >= cutoff
      {
        var h := (i + j) / 2;
        if ss[h].time < cutoff {
          i := h + 1;
        } else {
          j := h;
        }
      }
    }

    method DropBefore(cutoff: Time) returns (dropped: int)
      requires Valid()
      modifies this
      ensures Valid()
      ensures streams == Pruned(old(streams), cutoff)
      ensures dropped == old(Total(streams)) - Total(streams)
    {
      hide Total, Newer, IsSuffix, PrunedSoFar, ValidStreams, Pruned;
      PrunedStart(streams, cutoff);
      dropped := 0;
      var todo := streams.Keys;
      ghost var was := streams;
      while todo != {}
        invariant Valid()
        invariant PrunedSoFar(was, cutoff, todo, streams)
        invariant dropped == Total(was) - Total(streams)
        decreases |todo|
      {
        var id :| id in todo;
        PrunedNext(was, cutoff, todo, streams, id);
        var ss := streams[id];
        var i := SearchCutoff(ss, cutoff);
        ghost var before := streams;
        NewerIsSuffix(ss, cutoff, i);
        SuffixValid(streams, id, i);
        if i > 0 {
          dropped := dropped + i;
          count := count - i;
          if i == |ss| {
            TotalRemove(streams, id);
            streams := streams - {id};
          } else {
            TotalUpdate(streams, id, ss[i..]);
            streams := streams[id := ss[i..]];
          }
        }
        PrunesOneMore(was, cutoff, todo, before, id, streams);
        todo := todo - {id};
      }
      PrunedEnd(was, cutoff, streams);
    }

    /** A stream is there exactly when it holds a sample, and comes whole, oldest first. */
    method Samples(id: StreamID) returns (r: Option<seq<Sample>>)
      ensures r.Some? <==> id in streams
      ensures r.Some? ==> r.value == Held(streams, id)
      ensures Valid() ==> (r.Some? <==> Held(streams, id) != []) && Sorted(r.GetOr([]))
    {
      r := if id in streams then Some(streams[id]) else None;
    }

    /** Names gathered in a set, then copied out and sorted. */
    method Collect(pick: Pick) returns (out: seq<string>)
      ensures Names.Lists(out, Picked(streams, pick))
    {
      var names: set<string>, todo := {}, streams.Keys;
      while todo != {}
        invariant todo <= streams.Keys
        invariant names == set id | id in streams.Keys - todo && pick(id).Some? :: pick(id).value
        decreases |todo|
      {
        var id :| id in todo;
        if pick(id).Some? {
          names := names + {pick(id).value};
        }
        todo := todo - {id};
      }
      assert names == Picked(streams, pick);
      out := Names.SortedNames(names);
    }

    method Namespaces() returns (out: seq<string>)
      ensures Names.Lists(out, Picked(streams, PickNamespace()))
    {
      out := Collect(PickNamespace());
    }

    method Services(ns: string) returns (out: seq<string>)
      ensures Names.Lists(out, Picked(streams, PickService(ns)))
    {
      out := Collect(PickService(ns));
    }

    method StreamNames(ns: string, svc: string, kind: Kind) returns (out: seq<string>)
      ensures Names.Lists(out, Picked(streams, PickStream(ns, svc, kind)))
    {
      out := Collect(PickStream(ns, svc, kind));
    }
  }

  lemma {:induction false} NewerSorted(ss: seq<Sample>, cutoff: Time)
    requires Sorted(ss)
    ensures Sorted(Newer(ss, cutoff))
    ensures IsSuffix(Newer(ss, cutoff), ss)
    ensures forall k :: 0 <= k < |Newer(ss, cutoff)| ==> Newer(ss, cutoff)[k].time >= cutoff
    ensures forall k :: 0 <= k < |ss| - |Newer(ss, cutoff)| ==> ss[k].time < cutoff
  {
    if ss != [] {
      NewerSorted(ss[1..], cutoff);
      if ss[0].time >= cutoff {
        NewerIsSuffix(ss, cutoff, 0);
      }
    }
  }

  lemma PrunedHeld(m: Streams, cutoff: Time, id: StreamID)
    requires ValidStreams(m)
    ensures Held(Pruned(m, cutoff), id) == Newer(Held(m, id), cutoff)
    ensures IsSuffix(Held(Pruned(m, cutoff), id), Held(m, id))
    ensures forall k :: 0 <= k < |Held(Pruned(m, cutoff), id)| ==> Held(Pruned(m, cutoff), id)[k].time >= cutoff
    ensures forall k :: 0 <= k < |Gone(m, Pruned(m, cutoff), id)| ==> Held(m, id)[k].time < cutoff
    ensures Sorted(Held(Pruned(m, cutoff), id))
  {
    NewerSorted(Held(m, id), cutoff);
  }

  /** The window rule is another case of forgetting the oldest: what goes is older than the cutoff, what stays is
    not. */
  lemma PrunedForgetsOldest(m: Streams, cutoff: Time)
    requires ValidStreams(m)
    ensures ValidStreams(Pruned(m, cutoff))
    ensures ForgetsOldest(m, Pruned(m, cutoff))
    ensures forall id, k :: 0 <= k < |Held(m, id)| ==>
              (k < |Gone(m, Pruned(m, cutoff), id)| <==> Held(m, id)[k].time < cutoff)
  {
    hide Newer, Sorted;
    var m' := Pruned(m, cutoff);
    forall id ensures IsSuffix(Held(m', id), Held(m, id)) {
      PrunedHeld(m, cutoff, id);
    }
    forall id | id in m' ensures Sorted(m'[id]) {
      PrunedHeld(m, cutoff, id);
    }
    forall i, j ensures NoneNewer(Gone(m, m', i), Held(m', j)) {
      PrunedHeld(m, cutoff, i);
      PrunedHeld(m, cutoff, j);
    }
    forall id, k | 0 <= k < |Held(m, id)|
      ensures k < |Gone(m, m', id)| <==> Held(m, id)[k].time < cutoff
    {
      PrunedHeld(m, cutoff, id);
      if k >= |Gone(m, m', id)| {
        assert Held(m, id)[k] == Held(m', id)[k - |Gone(m, m', id)|];
      }
    }
  }
}
