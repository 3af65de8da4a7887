/** What concurrent ingestion keeps of each stream (internal/usecase/ingest.go).

  Whatever the interleaving, evictions and over-drops included, a stream holds part of the stable sort of what
  arrived there, in that order. */
module ConcurrentOrder {
  import opened Domain
  import opened MemStore
  import opened ConcurrentIngest
  import opened Retention

  // ----- a call by itself -----

  /** The state after call `c` has appended, and after it has counted, when no other is in flight. */
  ghost function HavingAppended(s: System, c: nat, id: StreamID, x: Sample): System {
    s.(store := Appended(s.store, id, x), calls := map[c := HasAppended], arrived := s.arrived + 1)
  }

  ghost function HavingCounted(maxSamples: int, s: System, c: nat): System {
    var n := Excess(maxSamples, Total(s.store));
    s.(calls := if n > 0 then map[c := MustDrop(n)] else map[])
  }

  /** Taken one after the other, without anything in between, the steps of a call are an ingest. */
  lemma StepsAreAnIngest(maxSamples: int, s: System, c: nat, id: StreamID, x: Sample, s': System)
    requires s.calls == map[]
    ensures var appended := HavingAppended(s, c, id, x);
            var counted := HavingCounted(maxSamples, appended, c);
            && Next(maxSamples, s, Append(c, id, x), appended) && Next(maxSamples, appended, ReadCount(c), counted)
            && (counted.calls == map[] ==> Ingests(maxSamples, s.store, id, x, counted.store))
            && (counted.calls != map[] && Next(maxSamples, counted, DropExcess(c), s') ==>
                  s'.calls == map[] && Ingests(maxSamples, s.store, id, x, s'.store))
  {
    hide Total, Appended;
    var appended := HavingAppended(s, c, id, x);
    var counted := HavingCounted(maxSamples, appended, c);
    assert map[c := HasAppended] - {c} == map[];
    assert map[c := HasAppended][c := MustDrop(1)] == map[c := MustDrop(1)];
    if counted.calls != map[] && Next(maxSamples, counted, DropExcess(c), s') {
      assert counted.calls - {c} == map[];
    }
  }

  // ----- parts of a sequence -----

  /** `part` is `whole` with some elements left out. */
  ghost predicate IsPart(part: seq<Sample>, whole: seq<Sample>)
    decreases whole
  {
    if part == [] then true
    else if whole == [] then false
    else
      var p, w := |part| - 1, |whole| - 1;
      (part[p] == whole[w] && IsPart(part[..p], whole[..w])) || IsPart(part, whole[..w])
  }

  lemma {:induction false} PartElement(part: seq<Sample>, whole: seq<Sample>, k: nat)
    requires IsPart(part, whole) && k < |part|
    ensures part[k] in whole
    decreases whole
  {
    var p, w := |part| - 1, |whole| - 1;
    assert whole == whole[..w] + [whole[w]];
    if IsPart(part, whole[..w]) {
      PartElement(part, whole[..w], k);
    } else if k < p {
      PartElement(part[..p], whole[..w], k);
    }
  }

  lemma {:induction false} SuffixOfPart(part: seq<Sample>, whole: seq<Sample>, i: nat)
    requires IsPart(part, whole) && i <= |part|
    ensures IsPart(part[i..], whole)
    decreases whole
  {
    if i < |part| {
      var p, w := |part| - 1, |whole| - 1;
      if IsPart(part, whole[..w]) {
        SuffixOfPart(part, whole[..w], i);
      } else {
        SuffixOfPart(part[..p], whole[..w], i);
        assert part[i..][..p - i] == part[..p][i..];
      }
    }
  }

  lemma PartSnoc(part: seq<Sample>, whole: seq<Sample>, x: Sample)
    requires IsPart(part, whole)
    ensures IsPart(part + [x], whole + [x]) && IsPart(part, whole + [x])
  {
    assert (part + [x])[..|part|] == part && (whole + [x])[..|whole|] == whole;
  }

  lemma InsertAtEnd(ss: seq<Sample>, x: Sample)
    requires forall k :: 0 <= k < |ss| ==> ss[k].time <= x.time
    ensures Insert(ss, x) == ss + [x]
  {
  }

  lemma InsertInside(ss: seq<Sample>, x: Sample)
    requires ss != [] && x.time < ss[|ss| - 1].time
    ensures Insert(ss, x) == Insert(ss[..|ss| - 1], x) + [ss[|ss| - 1]]
  {
  }

  lemma SortedPrefix(ss: seq<Sample>, n: nat)
    requires Sorted(ss) && n <= |ss|
    ensures Sorted(ss[..n])
  {
  }

  lemma SortedLast(ss: seq<Sample>, x: Sample)
    requires Sorted(ss) && x in ss
    ensures x.time <= ss[|ss| - 1].time
  {
  }

  /** A sample finds its place in the part as it does in the whole. */
  lemma {:induction false} InsertKeepsPart(part: seq<Sample>, whole: seq<Sample>, x: Sample)
    requires IsPart(part, whole) && Sorted(whole)
    ensures IsPart(Insert(part, x), Insert(whole, x))
    decreases whole
  {
    hide Insert, Sorted;
    if whole == [] || whole[|whole| - 1].time <= x.time {
      forall k | 0 <= k < |whole| ensures whole[k].time <= x.time {
        SortedLast(whole, whole[k]);
      }
      forall k | 0 <= k < |part| ensures part[k].time <= x.time {
        PartElement(part, whole, k);
      }
      InsertAtEnd(part, x);
      InsertAtEnd(whole, x);
      PartSnoc(part, whole, x);
    } else {
      var p, w := |part| - 1, |whole| - 1;
      InsertInside(whole, x);
      SortedPrefix(whole, w);
      if part == [] || IsPart(part, whole[..w]) {
        InsertKeepsPart(part, whole[..w], x);
        PartSnoc(Insert(part, x), Insert(whole[..w], x), whole[w]);
      } else {
        InsertInside(part, x);
        InsertKeepsPart(part[..p], whole[..w], x);
        PartSnoc(Insert(part[..p], x), Insert(whole[..w], x), whole[w]);
      }
    }
  }

  // ----- traces -----

  /** What arrived in the course of these actions, in order. */
  function ArrivedIn(actions: seq<Action>): Arrivals {
    if actions == [] then []
    else
      var last := actions[|actions| - 1];
      ArrivedIn(actions[..|actions| - 1]) + if last.Append? then [(last.id, last.sample)] else []
  }

  lemma OfOneMore(arrivals: Arrivals, a: (StreamID, Sample), id: StreamID)
    ensures Of(arrivals + [a], id) == if a.0 == id then Of(arrivals, id) + [a.1] else Of(arrivals, id)
  {
    assert (arrivals + [a])[..|arrivals|] == arrivals;
  }

  lemma SortOneMore(arrived: seq<Sample>, x: Sample)
    ensures SortOf(arrived + [x]) == Insert(SortOf(arrived), x)
  {
    assert (arrived + [x])[..|arrived|] == arrived;
  }

  /** Each stream of `m` holds part of the stable sort of its arrivals. */
  ghost predicate HoldsParts(m: Streams, arrivals: Arrivals) {
    forall id :: IsPart(Held(m, id), SortOf(Of(arrivals, id)))
  }

  lemma ForgettingKeepsParts(m: Streams, m': Streams, arrivals: Arrivals)
    requires HoldsParts(m, arrivals) && ForgetsOldest(m, m')
    ensures HoldsParts(m', arrivals)
  {
    hide IsPart, NoneNewer, SortOf;
    forall id ensures IsPart(Held(m', id), SortOf(Of(arrivals, id))) {
      assert IsPart(Held(m, id), SortOf(Of(arrivals, id))) && IsSuffix(Held(m', id), Held(m, id));
      SuffixOfPart(Held(m, id), SortOf(Of(arrivals, id)), |Held(m, id)| - |Held(m', id)|);
    }
  }

  lemma AppendKeepsParts(m: Streams, arrivals: Arrivals, id: StreamID, x: Sample)
    requires HoldsParts(m, arrivals)
    ensures HoldsParts(Appended(m, id, x), arrivals + [(id, x)])
  {
    hide IsPart, Insert, SortOf;
    forall j ensures IsPart(Held(Appended(m, id, x), j), SortOf(Of(arrivals + [(id, x)], j))) {
      OfOneMore(arrivals, (id, x), j);
      assert IsPart(Held(m, j), SortOf(Of(arrivals, j)));
      if j == id {
        SortOneMore(Of(arrivals, id), x);
        SortIsStable(Of(arrivals, id), x.time);
        InsertKeepsPart(Held(m, id), SortOf(Of(arrivals, id)), x);
      }
    }
  }

  lemma StepKeepsParts(maxSamples: int, s: System, a: Action, s': System, arrivals: Arrivals)
    requires maxSamples > 0 && Bounded(maxSamples, s) && Next(maxSamples, s, a, s') && HoldsParts(s.store, arrivals)
    ensures HoldsParts(s'.store, arrivals + if a.Append? then [(a.id, a.sample)] else [])
  {
    hide HoldsParts, ValidStreams, Total, DropsOldest, ForgetsOldest, Appended;
    assert arrivals + [] == arrivals;
    match a
    case Append(c, id, x) => AppendKeepsParts(s.store, arrivals, id, x);
    case ReadCount(c) =>
    case DropExcess(c) =>
      DropsOldestContract(s.store, s.calls[c].excess, s'.store);
      ForgettingKeepsParts(s.store, s'.store, arrivals);
    case EvictBefore(cutoff) =>
      PrunedForgetsOldest(s.store, cutoff);
      ForgettingKeepsParts(s.store, s'.store, arrivals);
  }

  /** In every state of every trace each stream is time-sorted and part of the stable sort of what arrived there. */
  lemma {:induction false} StreamsStayInOrder(maxSamples: int, states: seq<System>, actions: seq<Action>, k: nat)
    requires maxSamples > 0 && Trace(maxSamples, states, actions) && k < |states|
    ensures ValidStreams(states[k].store)
    ensures HoldsParts(states[k].store, ArrivedIn(actions[..k]))
    ensures |ArrivedIn(actions[..k])| == states[k].arrived
  {
    hide HoldsParts, ValidStreams, Total, Next;
    BudgetHolds(maxSamples, states, actions, k);
    if k == 0 {
      NothingHeld();
    } else {
      BudgetHolds(maxSamples, states, actions, k - 1);
      StreamsStayInOrder(maxSamples, states, actions, k - 1);
      StepKeepsParts(maxSamples, states[k - 1], actions[k - 1], states[k], ArrivedIn(actions[..k - 1]));
      StepCountsArrivals(maxSamples, states[k - 1], actions[k - 1], states[k]);
      assert actions[..k][..k - 1] == actions[..k - 1];
    }
  }

  lemma StepCountsArrivals(maxSamples: int, s: System, a: Action, s': System)
    requires Next(maxSamples, s, a, s')
    ensures s'.arrived == s.arrived + if a.Append? then 1 else 0
  {
  }

  lemma NothingHeld()
    ensures HoldsParts(START.store, []) && START.arrived == 0
  {
  }
}
