/** Ingest as a small concurrent protocol (internal/usecase/ingest.go, internal/adapter/memstore/memstore.go).

  Each of the store's calls is atomic under its lock, but Ingest makes three of them and holds no lock in
  between. Any number of calls may be under way, interleaved with evictions. The budget is then kept up to
  the calls in flight, from above and from below. */
module ConcurrentIngest {
  import opened Domain
  import opened MemStore

  /** Where a running Ingest stands: it has appended, or it has also read a count that is over budget. */
  datatype Phase = HasAppended | MustDrop(excess: int)

  /** `dropped` and `evicted` count what the budget and the window made the store forget. */
  datatype System = System(store: Streams, calls: map<nat, Phase>, arrived: nat, dropped: nat, evicted: nat)

  datatype Action =
    | Append(call: nat, id: StreamID, sample: Sample)
    | ReadCount(call: nat)
    | DropExcess(call: nat)
    | EvictBefore(cutoff: Time)

  const START := System(map[], map[], 0, 0, 0)

  ghost predicate Next(maxSamples: int, s: System, a: Action, s': System) {
    match a
    case Append(c, id, x) =>
      && c !in s.calls
      && s' == s.(store := Appended(s.store, id, x), calls := s.calls[c := HasAppended], arrived := s.arrived + 1)
    case ReadCount(c) =>
      && c in s.calls && s.calls[c].HasAppended?
      && var n := Excess(maxSamples, Total(s.store));
         s' == s.(calls := if n > 0 then s.calls[c := MustDrop(n)] else s.calls - {c})
    case DropExcess(c) =>
      && c in s.calls && s.calls[c].MustDrop?
      && DropsOldest(s.store, s.calls[c].excess, s'.store)
      && s'.calls == s.calls - {c}
      && s'.arrived == s.arrived && s'.evicted == s.evicted
      && s'.dropped == s.dropped + Total(s.store) - Total(s'.store)
    case EvictBefore(cutoff) =>
      && s'.store == Pruned(s.store, cutoff)
      && s'.calls == s.calls
      && s'.arrived == s.arrived && s'.dropped == s.dropped
      && s'.evicted == s.evicted + Total(s.store) - Total(s'.store)
  }

  ghost predicate Trace(maxSamples: int, states: seq<System>, actions: seq<Action>) {
    && |states| == |actions| + 1
    && states[0] == START
    && forall k :: 0 <= k < |actions| ==> Next(maxSamples, states[k], actions[k], states[k + 1])
  }

  /** At most `width` calls are in flight at any time. */
  ghost predicate Narrow(states: seq<System>, width: nat) {
    forall i :: 0 <= i < |states| ==> |states[i].calls| <= width
  }

  // ----- the upper bound, and conservation -----

  ghost predicate Bounded(maxSamples: int, s: System) {
    && ValidStreams(s.store)
    && Total(s.store) <= maxSamples + |s.calls|
    && (forall c :: c in s.calls && s.calls[c].MustDrop? ==> s.calls[c].excess > 0)
    && s.arrived == Total(s.store) + s.dropped + s.evicted
  }

  lemma CallEnds(calls: map<nat, Phase>, c: nat)
    requires c in calls
    ensures |calls - {c}| == |calls| - 1
  {
    assert (calls - {c}).Keys == calls.Keys - {c};
    assert |calls.Keys| == |calls|;
  }

  lemma CallBegins(calls: map<nat, Phase>, c: nat, p: Phase)
    ensures |calls[c := p]| == if c in calls then |calls| else |calls| + 1
  {
    assert calls[c := p].Keys == calls.Keys + {c};
    assert |calls.Keys| == |calls|;
  }

  lemma BeginBounded(maxSamples: int, s: System, c: nat, id: StreamID, x: Sample, s': System)
    requires Bounded(maxSamples, s) && Next(maxSamples, s, Append(c, id, x), s')
    ensures Bounded(maxSamples, s')
  {
    hide ValidStreams, Total, Appended;
    AppendedKeeps(s.store, id, x);
    CallBegins(s.calls, c, HasAppended);
  }

  lemma ReadBounded(maxSamples: int, s: System, c: nat, s': System)
    requires maxSamples > 0 && Bounded(maxSamples, s) && Next(maxSamples, s, ReadCount(c), s')
    ensures Bounded(maxSamples, s')
  {
    hide ValidStreams, Total;
    if Excess(maxSamples, Total(s.store)) > 0 {
      CallBegins(s.calls, c, MustDrop(Excess(maxSamples, Total(s.store))));
    } else {
      CallEnds(s.calls, c);
    }
  }

  lemma DropBounded(maxSamples: int, s: System, c: nat, s': System)
    requires maxSamples > 0 && Bounded(maxSamples, s) && Next(maxSamples, s, DropExcess(c), s')
    ensures Bounded(maxSamples, s')
  {
    hide ValidStreams, Total, DropsOldest, ForgetsOldest;
    DropsOldestContract(s.store, s.calls[c].excess, s'.store);
    CallEnds(s.calls, c);
  }

  lemma EvictBounded(maxSamples: int, s: System, cutoff: Time, s': System)
    requires Bounded(maxSamples, s) && Next(maxSamples, s, EvictBefore(cutoff), s')
    ensures Bounded(maxSamples, s')
  {
    hide ValidStreams, Total, ForgetsOldest;
    PrunedForgetsOldest(s.store, cutoff);
    ForgettingShrinks(s.store, s'.store);
  }

  lemma StepBounded(maxSamples: int, s: System, a: Action, s': System)
    requires maxSamples > 0 && Bounded(maxSamples, s) && Next(maxSamples, s, a, s')
    ensures Bounded(maxSamples, s')
  {
    hide Bounded, Next;
    match a
    case Append(c, id, x) => BeginBounded(maxSamples, s, c, id, x, s');
    case ReadCount(c) => ReadBounded(maxSamples, s, c, s');
    case DropExcess(c) => DropBounded(maxSamples, s, c, s');
    case EvictBefore(cutoff) => EvictBounded(maxSamples, s, cutoff, s');
  }

  /** A store whose streams are suffixes of another's holds no more. */
  lemma {:induction false} ForgettingShrinks(m: Streams, m': Streams)
    requires ForgetsOldest(m, m') && m'.Keys <= m.Keys
    ensures Total(m') <= Total(m)
    decreases |m|
  {
    if m == map[] {
      assert m' == map[];
    } else {
      var id :| id in m;
      TotalAt(m, id);
      TotalRemove(m', id);
      assert IsSuffix(Held(m', id), Held(m, id));
      RemoveForgets(m, m', id);
      ForgettingShrinks(m - {id}, m' - {id});
    }
  }

  lemma RemoveForgets(m: Streams, m': Streams, id: StreamID)
    requires ForgetsOldest(m, m')
    ensures ForgetsOldest(m - {id}, m' - {id})
  {
    hide NoneNewer;
    forall i ensures IsSuffix(Held(m' - {id}, i), Held(m - {id}, i)) {
      assert IsSuffix(Held(m', i), Held(m, i));
    }
    forall i, j ensures NoneNewer(Gone(m - {id}, m' - {id}, i), Held(m' - {id}, j)) {
      assert NoneNewer(Gone(m, m', i), Held(m', j));
      NoneNewerOfNothing(Held(m' - {id}, j));
      NothingAfter(Gone(m - {id}, m' - {id}, i));
    }
  }

  lemma NothingAfter(gone: seq<Sample>)
    ensures NoneNewer(gone, [])
  {
  }

  lemma StartBounded(maxSamples: int)
    requires maxSamples > 0
    ensures Bounded(maxSamples, START)
  {
  }

  /** Whatever the interleaving, the store is over budget by at most the calls in flight, so not at all when none
    is; and every sample that arrived is held or was counted as forgotten. */
  lemma {:induction false} BudgetHolds(maxSamples: int, states: seq<System>, actions: seq<Action>, k: nat)
    requires maxSamples > 0 && Trace(maxSamples, states, actions) && k < |states|
    ensures Total(states[k].store) <= maxSamples + |states[k].calls|
    ensures states[k].calls == map[] ==> Total(states[k].store) <= maxSamples
    ensures states[k].arrived == Total(states[k].store) + states[k].dropped + states[k].evicted
    ensures Bounded(maxSamples, states[k])
  {
    hide Total, ValidStreams, Next;
    if k == 0 {
      StartBounded(maxSamples);
    } else {
      BudgetHolds(maxSamples, states, actions, k - 1);
      StepBounded(maxSamples, states[k - 1], actions[k - 1], states[k]);
    }
  }

  // ----- the lower bound -----

  function Owed(p: Phase): int { if p.MustDrop? then p.excess else 0 }

  /** What the calls in flight are still going to drop. */
  ghost function Pending(calls: map<nat, Phase>): int
    decreases |calls|
  {
    if calls == map[] then 0 else var c :| c in calls; Owed(calls[c]) + Pending(calls - {c})
  }

  lemma {:induction false} PendingAt(calls: map<nat, Phase>, c: nat)
    requires c in calls
    ensures Pending(calls) == Owed(calls[c]) + Pending(calls - {c})
    decreases |calls|
  {
    var d :| d in calls && Pending(calls) == Owed(calls[d]) + Pending(calls - {d});
    if d != c {
      PendingAt(calls - {d}, c);
      PendingAt(calls - {c}, d);
      assert calls - {d} - {c} == calls - {c} - {d};
    }
  }

  lemma PendingUpdate(calls: map<nat, Phase>, c: nat, p: Phase)
    ensures Pending(calls[c := p]) == Owed(p) + Pending(calls - {c})
  {
    PendingAt(calls[c := p], c);
    assert calls[c := p] - {c} == calls - {c};
  }

  /** Multiplication under a name, so that a proof can set it aside. */
  function Times(a: int, b: int): int { a * b }

  lemma OneMoreTime(a: int, n: int)
    ensures Times(a, n) == Times(a, n - 1) + a
    ensures Times(a, 0) == 0
  {
  }

  lemma TimesMonotone(a: nat, m: int, n: int)
    requires m <= n
    ensures Times(a, m) <= Times(a, n)
  {
    assert a * (n - m) >= 0;
    assert a * (n - m) == a * n - a * m;
  }

  lemma {:induction false} PendingAtMost(calls: map<nat, Phase>, each: nat)
    requires forall c :: c in calls ==> 0 <= Owed(calls[c]) <= each
    ensures 0 <= Pending(calls) <= Times(each, |calls|)
    decreases |calls|
  {
    hide Times;
    OneMoreTime(each, 0);
    if calls != map[] {
      var c :| c in calls && Pending(calls) == Owed(calls[c]) + Pending(calls - {c});
      CallEnds(calls, c);
      PendingAtMost(calls - {c}, each);
      OneMoreTime(each, |calls|);
    }
  }

  ghost predicate OwesAtMost(s: System, each: nat) { forall c :: c in s.calls ==> 0 <= Owed(s.calls[c]) <= each }

  /** What is held, and what was evicted on top of the first `since`, cover what is still to be dropped down to
    `width * (width - 1)` below the budget. */
  ghost predicate Covered(maxSamples: int, width: nat, since: int, s: System) {
    && since <= s.evicted
    && Total(s.store) + (s.evicted - since) - Pending(s.calls) >= maxSamples - Times(width, width - 1)
  }

  lemma StepOwesLittle(maxSamples: int, width: nat, s: System, a: Action, s': System)
    requires Bounded(maxSamples, s) && |s.calls| <= width && Next(maxSamples, s, a, s') && OwesAtMost(s, width)
    ensures OwesAtMost(s', width)
  {
    hide ValidStreams, Total, DropsOldest, Appended;
  }

  /** Whoever counts too many samples leaves exactly the budget when it drops them, if no other call drops before. */
  lemma CountCovers(maxSamples: int, width: nat, s: System, c: nat, s': System)
    requires |s.calls| <= width && OwesAtMost(s, width)
    requires maxSamples > 0 && Next(maxSamples, s, ReadCount(c), s') && Total(s.store) > maxSamples
    ensures s'.evicted == s.evicted && Covered(maxSamples, width, s'.evicted, s')
  {
    hide Total, Pending, Times;
    PendingUpdate(s.calls, c, MustDrop(Total(s.store) - maxSamples));
    CallEnds(s.calls, c);
    PendingAtMost(s.calls - {c}, width);
    TimesMonotone(width, |s.calls - {c}|, width - 1);
  }

  lemma ReadCovers(maxSamples: int, width: nat, since: int, s: System, c: nat, s': System)
    requires maxSamples > 0 && |s.calls| <= width && OwesAtMost(s, width)
    requires Covered(maxSamples, width, since, s) && Next(maxSamples, s, ReadCount(c), s')
    ensures Covered(maxSamples, width, since, s')
  {
    hide Total, Pending, Times;
    if Total(s.store) > maxSamples {
      CountCovers(maxSamples, width, s, c, s');
    } else {
      PendingAt(s.calls, c);
    }
  }

  lemma StepCovers(maxSamples: int, width: nat, since: int, s: System, a: Action, s': System)
    requires maxSamples > 0 && Bounded(maxSamples, s) && |s.calls| <= width && OwesAtMost(s, width)
    requires Covered(maxSamples, width, since, s) && Next(maxSamples, s, a, s')
    ensures Covered(maxSamples, width, since, s')
  {
    hide ValidStreams, Total, DropsOldest, ForgetsOldest, Appended, Pending, Times;
    match a
    case Append(c, id, x) =>
      AppendedKeeps(s.store, id, x);
      PendingUpdate(s.calls, c, HasAppended);
      assert s.calls - {c} == s.calls;
    case ReadCount(c) =>
      ReadCovers(maxSamples, width, since, s, c, s');
    case DropExcess(c) =>
      DropsOldestContract(s.store, s.calls[c].excess, s'.store);
      PendingAt(s.calls, c);
    case EvictBefore(cutoff) =>
      PrunedForgetsOldest(s.store, cutoff);
      ForgettingShrinks(s.store, s'.store);
  }

  lemma {:induction false} CallsOweLittle(maxSamples: int, width: nat,
                                          states: seq<System>, actions: seq<Action>, k: nat)
    requires maxSamples > 0 && Trace(maxSamples, states, actions) && Narrow(states, width) && k < |states|
    ensures OwesAtMost(states[k], width)
  {
    hide Next, Bounded;
    if k > 0 {
      BudgetHolds(maxSamples, states, actions, k - 1);
      CallsOweLittle(maxSamples, width, states, actions, k - 1);
      StepOwesLittle(maxSamples, width, states[k - 1], actions[k - 1], states[k]);
    }
  }

  lemma {:induction false} CoveredSince(maxSamples: int, width: nat,
                                        states: seq<System>, actions: seq<Action>, j: nat, k: nat)
    requires maxSamples > 0 && Trace(maxSamples, states, actions) && Narrow(states, width) && j < k < |states|
    requires actions[j].ReadCount? && Total(states[j].store) > maxSamples
    ensures Covered(maxSamples, width, states[j].evicted, states[k])
  {
    hide Total, Bounded, Covered, OwesAtMost, Next;
    BudgetHolds(maxSamples, states, actions, k - 1);
    CallsOweLittle(maxSamples, width, states, actions, k - 1);
    if k == j + 1 {
      CountCovers(maxSamples, width, states[j], actions[j].call, states[k]);
    } else {
      CoveredSince(maxSamples, width, states, actions, j, k - 1);
      StepCovers(maxSamples, width, states[j].evicted, states[k - 1], actions[k - 1], states[k]);
    }
  }

  /** With at most `width` calls at a time: from any count over the budget on, what is held and what was evicted since
    that count stay within width * (width - 1) of the budget. */
  lemma OverDropIsBounded(maxSamples: int, width: nat, states: seq<System>, actions: seq<Action>, j: nat, k: nat)
    requires maxSamples > 0 && Trace(maxSamples, states, actions) && Narrow(states, width) && j < k < |states|
    requires actions[j].ReadCount? && Total(states[j].store) > maxSamples
    ensures states[k].evicted >= states[j].evicted
    ensures Total(states[k].store) + (states[k].evicted - states[j].evicted) >= maxSamples - Times(width, width - 1)
  {
    hide Total, Times, Pending, Trace, Narrow;
    CoveredSince(maxSamples, width, states, actions, j, k);
    CallsOweLittle(maxSamples, width, states, actions, k);
    PendingAtMost(states[k].calls, width);
  }

  /** Before the first such count the budget makes the store forget nothing. */
  lemma {:induction false} NoCountNoDrop(maxSamples: int, states: seq<System>, actions: seq<Action>, k: nat)
    requires maxSamples > 0 && Trace(maxSamples, states, actions) && k < |states|
    requires forall j :: 0 <= j < k && actions[j].ReadCount? ==> Total(states[j].store) <= maxSamples
    ensures states[k].dropped == 0 && forall c :: c in states[k].calls ==> states[k].calls[c] == HasAppended
  {
    hide Total, DropsOldest, Appended;
    if k > 0 {
      NoCountNoDrop(maxSamples, states, actions, k - 1);
      assert Next(maxSamples, states[k - 1], actions[k - 1], states[k]);
    }
  }

  // ----- the bounds are reached -----

  function Copies(x: Sample, n: nat): seq<Sample> { seq(n, _ => x) }

  /** A store that holds one sample `n` times. */
  function StoreOf(id: StreamID, x: Sample, n: nat): Streams { if n == 0 then map[] else map[id := Copies(x, n)] }

  lemma StoreTotal(id: StreamID, x: Sample, n: nat)
    ensures Total(StoreOf(id, x, n)) == n
  {
    if n > 0 {
      TotalAt(StoreOf(id, x, n), id);
      assert StoreOf(id, x, n) - {id} == map[];
    }
  }

  lemma StoreAppended(id: StreamID, x: Sample, n: nat)
    ensures Appended(StoreOf(id, x, n), id, x) == StoreOf(id, x, n + 1)
  {
    assert Held(StoreOf(id, x, n), id) == Copies(x, n);
    InsertAt(Copies(x, n), x, n);
    assert Copies(x, n)[..n] + [x] + Copies(x, n)[n..] == Copies(x, n + 1);
  }

  lemma {:induction false} StoreDropped(id: StreamID, x: Sample, n: nat, k: nat)
    ensures DropsOldest(StoreOf(id, x, n), k, StoreOf(id, x, Minus(n, k)))
    decreases k
  {
    if k > 0 && n > 0 {
      StoreDropped(id, x, n - 1, k - 1);
      var m := StoreOf(id, x, n);
      assert Copies(x, n)[1..] == Copies(x, n - 1);
      assert HeadDropped(m, id) == StoreOf(id, x, n - 1);
      assert OldestHead(m, id);
    }
  }

  function Minus(n: nat, k: nat): nat { if k <= n then n - k else 0 }

  /** Calls `lo` up to `hi`, of which those before `mid` have counted `excess` samples too many. */
  function Calls(excess: int, lo: nat, mid: nat, hi: nat): map<nat, Phase> {
    map c | lo <= c < hi :: PhaseOf(excess, mid, c)
  }

  function PhaseOf(excess: int, mid: nat, c: nat): Phase { if c < mid then MustDrop(excess) else HasAppended }

  lemma {:induction false} CallsSize(excess: int, lo: nat, mid: nat, hi: nat)
    requires lo <= hi
    ensures |Calls(excess, lo, mid, hi)| == hi - lo
    decreases hi - lo
  {
    var calls := Calls(excess, lo, mid, hi);
    if lo == hi {
      assert calls == map[];
    } else {
      CallsSize(excess, lo + 1, mid, hi);
      assert calls - {lo} == Calls(excess, lo + 1, mid, hi);
      CallEnds(calls, lo);
    }
  }

  /** A trace with at most `width` calls at a time and without evictions that ends in `s`. */
  ghost predicate Leads(maxSamples: int, width: nat, states: seq<System>, actions: seq<Action>, s: System) {
    && Trace(maxSamples, states, actions) && Narrow(states, width) && states[|states| - 1] == s
    && forall k :: 0 <= k < |actions| ==> !actions[k].EvictBefore?
  }

  lemma TraceGoesOn(maxSamples: int, width: nat, states: seq<System>, actions: seq<Action>, a: Action, s': System)
    requires Trace(maxSamples, states, actions) && Narrow(states, width)
    requires Next(maxSamples, states[|states| - 1], a, s') && |s'.calls| <= width
    ensures Trace(maxSamples, states + [s'], actions + [a]) && Narrow(states + [s'], width)
  {
    hide Next;
    var more, acts := states + [s'], actions + [a];
    forall k | 0 <= k < |acts| ensures Next(maxSamples, more[k], acts[k], more[k + 1]) {
      if k < |actions| {
        assert more[k] == states[k] && acts[k] == actions[k] && more[k + 1] == states[k + 1];
      }
    }
  }

  lemma GoesOn(maxSamples: int, width: nat, states: seq<System>, actions: seq<Action>, s: System, a: Action, s': System)
    requires Leads(maxSamples, width, states, actions, s) && Next(maxSamples, s, a, s') && |s'.calls| <= width
    requires !a.EvictBefore?
    ensures Leads(maxSamples, width, states + [s'], actions + [a], s')
  {
    hide Next, Trace, Narrow;
    assert states != [] by {
      LastState(maxSamples, width, states, actions, s);
    }
    TraceGoesOn(maxSamples, width, states, actions, a, s');
  }

  function Filled(id: StreamID, x: Sample, n: nat): System { System(StoreOf(id, x, n), map[], n, 0, 0) }

  /** Ingests one after the other fill the store up to its budget. */
  lemma {:induction false} Fill(maxSamples: nat, width: nat, id: StreamID, x: Sample, n: nat)
    returns (states: seq<System>, actions: seq<Action>)
    requires width >= 1 && n <= maxSamples
    ensures Leads(maxSamples, width, states, actions, Filled(id, x, n))
  {
    hide Total, Appended, StoreOf, Leads;
    if n == 0 {
      states, actions := [START], [];
      assert Leads(maxSamples, width, states, actions, Filled(id, x, 0)) by { Starts(maxSamples, width, id, x); }
    } else {
      states, actions := Fill(maxSamples, width, id, x, n - 1);
      var mid := System(StoreOf(id, x, n), map[0 := HasAppended], n, 0, 0);
      StoreAppended(id, x, n - 1);
      GoesOn(maxSamples, width, states, actions, Filled(id, x, n - 1), Append(0, id, x), mid);
      StoreTotal(id, x, n);
      assert mid.calls - {0} == map[];
      GoesOn(maxSamples, width, states + [mid], actions + [Append(0, id, x)], mid, ReadCount(0), Filled(id, x, n));
      states, actions := states + [mid] + [Filled(id, x, n)], actions + [Append(0, id, x)] + [ReadCount(0)];
    }
  }

  lemma Starts(maxSamples: nat, width: nat, id: StreamID, x: Sample)
    ensures Leads(maxSamples, width, [START], [], Filled(id, x, 0))
  {
    assert START.calls == map[];
  }

  function Begun(id: StreamID, x: Sample, m: nat, w: nat, k: nat): System {
    System(StoreOf(id, x, m + k), Calls(w, 0, 0, k), m + k, 0, 0)
  }

  /** On top of that, calls that append before any of them counts. */
  lemma {:induction false} BeginAll(m: nat, w: nat, id: StreamID, x: Sample, k: nat)
    returns (states: seq<System>, actions: seq<Action>)
    requires w >= 1 && k <= w
    ensures Leads(m, w, states, actions, Begun(id, x, m, w, k))
  {
    hide Total, Appended, StoreOf, Leads;
    if k == 0 {
      states, actions := Fill(m, w, id, x, m);
      assert Calls(w, 0, 0, 0) == map[];
    } else {
      states, actions := BeginAll(m, w, id, x, k - 1);
      StoreAppended(id, x, m + k - 1);
      CallsSize(w, 0, 0, k);
      assert Calls(w, 0, 0, k - 1)[k - 1 := HasAppended] == Calls(w, 0, 0, k);
      GoesOn(m, w, states, actions, Begun(id, x, m, w, k - 1), Append(k - 1, id, x), Begun(id, x, m, w, k));
      states, actions := states + [Begun(id, x, m, w, k)], actions + [Append(k - 1, id, x)];
    }
  }

  function Counted(id: StreamID, x: Sample, m: nat, w: nat, k: nat): System {
    System(StoreOf(id, x, m + w), Calls(w, 0, k, w), m + w, 0, 0)
  }

  /** At `peak` the store holds the whole budget and one sample for every call in flight. */
  ghost predicate PeaksAt(m: nat, w: nat, states: seq<System>, peak: nat) {
    peak < |states| && |states[peak].calls| == w && Total(states[peak].store) == m + w
  }

  /** Then they all count, before any of them drops. */
  lemma {:induction false} CountAll(m: nat, w: nat, id: StreamID, x: Sample, k: nat)
    returns (states: seq<System>, actions: seq<Action>, peak: nat)
    requires m > 0 && w >= 1 && k <= w
    ensures Leads(m, w, states, actions, Counted(id, x, m, w, k)) && PeaksAt(m, w, states, peak)
  {
    hide Total, StoreOf, Leads;
    StoreTotal(id, x, m + w);
    CallsSize(w, 0, k, w);
    if k == 0 {
      states, actions := BeginAll(m, w, id, x, w);
      LastState(m, w, states, actions, Begun(id, x, m, w, w));
      peak := |states| - 1;
    } else {
      states, actions, peak := CountAll(m, w, id, x, k - 1);
      assert Calls(w, 0, k - 1, w)[k - 1] == HasAppended;
      assert Calls(w, 0, k - 1, w)[k - 1 := MustDrop(w)] == Calls(w, 0, k, w);
      GoesOn(m, w, states, actions, Counted(id, x, m, w, k - 1), ReadCount(k - 1), Counted(id, x, m, w, k));
      states, actions := states + [Counted(id, x, m, w, k)], actions + [ReadCount(k - 1)];
    }
  }

  lemma LastState(maxSamples: int, width: nat, states: seq<System>, actions: seq<Action>, s: System)
    requires Leads(maxSamples, width, states, actions, s)
    ensures |states| == |actions| + 1 && states[|states| - 1] == s
  {
  }

  /** What is left when `k` calls have each dropped `w` of `m + w` samples. */
  function Left(m: nat, w: nat, k: nat): nat { if k == 0 then m + w else Minus(Left(m, w, k - 1), w) }

  lemma {:induction false} LeftIs(m: nat, w: nat, k: nat)
    ensures Left(m, w, k) == if m + w - Times(w, k) >= 0 then m + w - Times(w, k) else 0
  {
    hide Times;
    OneMoreTime(w, k);
    if k > 0 {
      LeftIs(m, w, k - 1);
    }
  }

  lemma {:induction false} LeftAtMost(m: nat, w: nat, k: nat)
    ensures Left(m, w, k) <= m + w
  {
    if k > 0 {
      LeftAtMost(m, w, k - 1);
    }
  }

  function Dropped(id: StreamID, x: Sample, m: nat, w: nat, k: nat): System {
    LeftAtMost(m, w, k);
    System(StoreOf(id, x, Left(m, w, k)), Calls(w, k, w, w), m + w, m + w - Left(m, w, k), 0)
  }

  /** At last they all drop. */
  lemma {:induction false} DropAll(m: nat, w: nat, id: StreamID, x: Sample, k: nat)
    returns (states: seq<System>, actions: seq<Action>, peak: nat)
    requires m > 0 && w >= 1 && k <= w
    ensures Leads(m, w, states, actions, Dropped(id, x, m, w, k)) && PeaksAt(m, w, states, peak)
  {
    hide Total, StoreOf, Leads, DropsOldest;
    CallsSize(w, k, w, w);
    if k == 0 {
      states, actions, peak := CountAll(m, w, id, x, w);
    } else {
      states, actions, peak := DropAll(m, w, id, x, k - 1);
      var before, after := Dropped(id, x, m, w, k - 1), Dropped(id, x, m, w, k);
      StoreDropped(id, x, Left(m, w, k - 1), w);
      StoreTotal(id, x, Left(m, w, k - 1));
      StoreTotal(id, x, Left(m, w, k));
      assert Calls(w, k - 1, w, w) - {k - 1} == Calls(w, k, w, w);
      GoesOn(m, w, states, actions, before, DropExcess(k - 1), after);
      states, actions := states + [after], actions + [DropExcess(k - 1)];
    }
  }

  /** For every budget and every number of calls, without evictions: they all append, all count, and all drop what each
    of them counted. On the way the store is over budget by all the calls in flight, and in the end it holds exactly as
    little as `OverDropIsBounded` allows, or nothing. */
  lemma InterleavedCallsOverDrop(maxSamples: nat, width: nat, id: StreamID, x: Sample)
    returns (states: seq<System>, actions: seq<Action>, peak: nat)
    requires maxSamples > 0 && width >= 1
    ensures Trace(maxSamples, states, actions) && Narrow(states, width) && PeaksAt(maxSamples, width, states, peak)
    ensures forall k :: 0 <= k < |actions| ==> !actions[k].EvictBefore?
    ensures var end := states[|states| - 1];
            var least := maxSamples - Times(width, width - 1);
            && end.calls == map[] && end.evicted == 0 && end.arrived == maxSamples + width
            && Total(end.store) == (if least >= 0 then least else 0)
            && end.dropped == end.arrived - Total(end.store)
  {
    hide Total, StoreOf, Times;
    states, actions, peak := DropAll(maxSamples, width, id, x, width);
    StoreTotal(id, x, Left(maxSamples, width, width));
    LeftIs(maxSamples, width, width);
    OneMoreTime(width, width);
    assert Calls(width, width, width, width) == map[];
  }

  /** In some trace with at most `width` calls at a time the store at some moment holds `over` samples more than its
    budget. */
  ghost predicate CanBeOver(maxSamples: int, width: nat, over: nat) {
    exists states: seq<System>, actions: seq<Action>, k ::
      Trace(maxSamples, states, actions) && Narrow(states, width) && 0 <= k < |states|
      && Total(states[k].store) == maxSamples + over
  }

  /** Whatever the budget, the store can be over it by as many samples as calls may be in flight, and by no more. */
  lemma OverBudgetIff(maxSamples: nat, width: nat, over: nat)
    requires maxSamples > 0 && width >= 1
    ensures CanBeOver(maxSamples, width, over) <==> over <= width
  {
    hide Total, Trace, StoreOf;
    forall states: seq<System>, actions: seq<Action>, k
      | Trace(maxSamples, states, actions) && Narrow(states, width) && 0 <= k < |states|
      ensures Total(states[k].store) <= maxSamples + width
    {
      BudgetHolds(maxSamples, states, actions, k);
    }
    if over <= width {
      var id, x := StreamID("", "", KindNone, ""), Sample(1, "", "");
      var states, actions := BeginAll(maxSamples, width, id, x, over);
      LastState(maxSamples, width, states, actions, Begun(id, x, maxSamples, width, over));
      StoreTotal(id, x, maxSamples + over);
      assert Total(states[|states| - 1].store) == maxSamples + over;
    }
  }
}
