/** When concurrent ingestion forgets more than its budget asks for (internal/usecase/ingest.go, cmd/sor/main.go).

  Ingest drops as many samples as it counted too many, and holds no lock in between: what it counted may be gone
  by then, dropped by another call or evicted. A single drop, and the traces in which no drop goes too far, are
  characterised exactly. */
module OverDrops {
  import opened Domain
  import opened MemStore
  import opened ConcurrentIngest

  /** The step forgets something and leaves less than the budget. */
  ghost predicate DropsTooMuch(maxSamples: int, s: System, a: Action, s': System) {
    a.DropExcess? && Total(s'.store) < Total(s.store) && Total(s'.store) < maxSamples
  }

  // ----- one drop -----

  /** The call has been about to drop since step `j`. */
  ghost predicate PendingSince(states: seq<System>, actions: seq<Action>, c: nat, j: nat, k: nat) {
    && j < k < |states| && j < |actions| && actions[j] == ReadCount(c)
    && forall i :: j < i <= k ==> c in states[i].calls && states[i].calls[c].MustDrop?
  }

  lemma KeepsPhase(maxSamples: int, s: System, a: Action, s': System, c: nat)
    requires Next(maxSamples, s, a, s') && c in s'.calls && s'.calls[c].MustDrop? && a != ReadCount(c)
    ensures c in s.calls && s.calls[c] == s'.calls[c]
  {
    hide Total, DropsOldest, Appended;
  }

  lemma {:induction false} CountOf(maxSamples: int, states: seq<System>, actions: seq<Action>, k: nat, c: nat)
    returns (j: nat)
    requires Trace(maxSamples, states, actions) && k < |states|
    requires c in states[k].calls && states[k].calls[c].MustDrop?
    ensures PendingSince(states, actions, c, j, k)
    ensures states[k].calls[c].excess == Excess(maxSamples, Total(states[j].store))
  {
    hide Total, DropsOldest, Appended;
    j := k - 1;
    assert Next(maxSamples, states[j], actions[j], states[k]);
    if actions[j] != ReadCount(c) {
      KeepsPhase(maxSamples, states[j], actions[j], states[k], c);
      j := CountOf(maxSamples, states, actions, k - 1, c);
    }
  }

  /** A call drops too much exactly when the store has shrunk since the call counted, though not to nothing. */
  lemma DropsTooMuchIff(maxSamples: int, states: seq<System>, actions: seq<Action>, k: nat) returns (j: nat)
    requires maxSamples > 0 && Trace(maxSamples, states, actions) && k < |actions| && actions[k].DropExcess?
    ensures PendingSince(states, actions, actions[k].call, j, k)
    ensures DropsTooMuch(maxSamples, states[k], actions[k], states[k + 1]) <==>
            0 < Total(states[k].store) < Total(states[j].store)
  {
    hide ValidStreams, Total, DropsOldest, ForgetsOldest, PendingSince, Appended;
    var c := actions[k].call;
    assert Next(maxSamples, states[k], actions[k], states[k + 1]);
    j := CountOf(maxSamples, states, actions, k, c);
    BudgetHolds(maxSamples, states, actions, k);
    DropsOldestContract(states[k].store, states[k].calls[c].excess, states[k + 1].store);
  }

  // ----- traces in which no drop goes too far -----

  ghost predicate SomeoneMustDrop(s: System) { exists c :: c in s.calls && s.calls[c].MustDrop? }

  /** No eviction falls between a call's count and its drop. */
  ghost predicate Apart(states: seq<System>, actions: seq<Action>) {
    forall k :: 0 <= k < |actions| && k < |states| && actions[k].EvictBefore? ==> !SomeoneMustDrop(states[k])
  }

  /** No drop ever goes too far, in any trace with at most `width` calls at a time; evictions keep `apart` from pending
    drops, or come at any time. */
  ghost predicate NeverDropsTooMuch(maxSamples: int, width: nat, apart: bool) {
    forall states: seq<System>, actions: seq<Action>, k ::
      Trace(maxSamples, states, actions) && Narrow(states, width) && (apart ==> Apart(states, actions))
      && 0 <= k < |actions| ==>
        !DropsTooMuch(maxSamples, states[k], actions[k], states[k + 1])
  }

  /** Whoever is about to drop will leave exactly the budget. */
  ghost predicate LeavesBudget(maxSamples: int, s: System) {
    forall c :: c in s.calls && s.calls[c].MustDrop? ==> Total(s.store) == maxSamples + s.calls[c].excess
  }

  lemma OnlyCall(calls: map<nat, Phase>, c: nat, d: nat)
    requires |calls| <= 1 && c in calls && d in calls
    ensures c == d
  {
    if c != d {
      CallEnds(calls, c);
      CallEnds(calls - {c}, d);
    }
  }

  lemma LoneStep(maxSamples: int, s: System, a: Action, s': System)
    requires maxSamples > 0 && Bounded(maxSamples, s) && Next(maxSamples, s, a, s') && |s.calls| <= 1 && |s'.calls| <= 1
    requires a.EvictBefore? ==> !SomeoneMustDrop(s)
    requires LeavesBudget(maxSamples, s)
    ensures LeavesBudget(maxSamples, s') && !DropsTooMuch(maxSamples, s, a, s')
  {
    hide ValidStreams, Total, DropsOldest, ForgetsOldest, Appended;
    match a
    case Append(c, id, x) =>
      forall d | d in s'.calls ensures d == c {
        OnlyCall(s'.calls, c, d);
      }
    case ReadCount(c) =>
      forall d | d in s.calls ensures d == c {
        OnlyCall(s.calls, c, d);
      }
    case DropExcess(c) =>
      DropsOldestContract(s.store, s.calls[c].excess, s'.store);
      forall d | d in s.calls ensures d == c {
        OnlyCall(s.calls, c, d);
      }
    case EvictBefore(_) =>
  }

  lemma {:induction false} LoneCalls(maxSamples: int, states: seq<System>, actions: seq<Action>, k: nat)
    requires maxSamples > 0 && Trace(maxSamples, states, actions) && Narrow(states, 1) && Apart(states, actions)
    requires k < |states|
    ensures LeavesBudget(maxSamples, states[k])
    ensures k < |actions| ==> !DropsTooMuch(maxSamples, states[k], actions[k], states[k + 1])
  {
    hide Next, Bounded, DropsTooMuch, SomeoneMustDrop;
    BudgetHolds(maxSamples, states, actions, k);
    if k > 0 {
      LoneCalls(maxSamples, states, actions, k - 1);
      BudgetHolds(maxSamples, states, actions, k - 1);
      LoneStep(maxSamples, states[k - 1], actions[k - 1], states[k]);
    }
    if k < |actions| {
      LoneStep(maxSamples, states[k], actions[k], states[k + 1]);
    }
  }

  /** Where no drop goes too far, evictions alone explain a store below its budget. */
  lemma {:induction false} OnlyEvictionsGoBelow(maxSamples: int, states: seq<System>, actions: seq<Action>, k: nat)
    requires maxSamples > 0 && Trace(maxSamples, states, actions) && k < |states|
    requires forall i :: 0 <= i < k ==> !DropsTooMuch(maxSamples, states[i], actions[i], states[i + 1])
    ensures states[k].dropped == 0 || Total(states[k].store) + states[k].evicted >= maxSamples
  {
    hide ValidStreams, Total, DropsOldest, ForgetsOldest, Appended;
    if k > 0 {
      var s, a, s' := states[k - 1], actions[k - 1], states[k];
      OnlyEvictionsGoBelow(maxSamples, states, actions, k - 1);
      BudgetHolds(maxSamples, states, actions, k - 1);
      assert Next(maxSamples, s, a, s') && !DropsTooMuch(maxSamples, s, a, s');
      match a
      case Append(_, id, x) => AppendedKeeps(s.store, id, x);
      case ReadCount(_) =>
      case DropExcess(c) =>
        DropsOldestContract(s.store, s.calls[c].excess, s'.store);
        EvictedSofar(maxSamples, states, actions, k);
      case EvictBefore(_) =>
    }
  }

  lemma {:induction false} EvictedSofar(maxSamples: int, states: seq<System>, actions: seq<Action>, k: nat)
    requires maxSamples > 0 && Trace(maxSamples, states, actions) && k < |states|
    ensures states[k].evicted >= 0
  {
    hide ValidStreams, Total, DropsOldest, ForgetsOldest, Appended;
    if k > 0 {
      EvictedSofar(maxSamples, states, actions, k - 1);
      BudgetHolds(maxSamples, states, actions, k - 1);
      assert Next(maxSamples, states[k - 1], actions[k - 1], states[k]);
      if actions[k - 1].EvictBefore? {
        PrunedForgetsOldest(states[k - 1].store, actions[k - 1].cutoff);
        ForgettingShrinks(states[k - 1].store, states[k].store);
      }
    }
  }

  /** Two calls suffice, without any eviction. */
  lemma TwoCallsDropTooMuch(maxSamples: nat)
    returns (states: seq<System>, actions: seq<Action>, k: nat)
    requires maxSamples > 0
    ensures Trace(maxSamples, states, actions) && Narrow(states, 2) && Apart(states, actions) && k < |actions|
    ensures DropsTooMuch(maxSamples, states[k], actions[k], states[k + 1])
  {
    hide Total, Trace, Narrow, DropsTooMuch;
    var peak: nat;
    states, actions, peak := InterleavedCallsOverDrop(maxSamples, 2, StreamID("", "", KindNone, ""), Sample(1, "", ""));
    LengthOf(maxSamples, states, actions);
    var n := |actions|;
    if forall i :: 0 <= i < n ==> !DropsTooMuch(maxSamples, states[i], actions[i], states[i + 1]) {
      OnlyEvictionsGoBelow(maxSamples, states, actions, n);
      assert false;
    }
    k :| 0 <= k < n && DropsTooMuch(maxSamples, states[k], actions[k], states[k + 1]);
  }

  lemma LengthOf(maxSamples: int, states: seq<System>, actions: seq<Action>)
    requires Trace(maxSamples, states, actions)
    ensures |states| == |actions| + 1
  {
  }

  // ----- one call and an eviction -----

  const OLD := StreamID("", "", KindNone, "old")
  const NEW := StreamID("", "", KindNone, "new")

  /** A full store of samples of time 1, and one sample of time 2. */
  function OldAndNew(n: nat): Streams { StoreOf(OLD, Sample(1, "", ""), n)[NEW := [Sample(2, "", "")]] }

  lemma OldAndNewAppended(n: nat)
    ensures Appended(StoreOf(OLD, Sample(1, "", ""), n), NEW, Sample(2, "", "")) == OldAndNew(n)
    ensures Total(OldAndNew(n)) == n + 1
  {
    var full, y := StoreOf(OLD, Sample(1, "", ""), n), Sample(2, "", "");
    assert Held(full, NEW) == [];
    assert Insert([], y) == [y];
    StoreTotal(OLD, Sample(1, "", ""), n);
    TotalUpdate(full, NEW, [y]);
  }

  lemma {:induction false} NoneOfOld(n: nat, x: Sample, cutoff: Time)
    requires x.time < cutoff
    ensures Newer(Copies(x, n), cutoff) == []
  {
    if n > 0 {
      assert Copies(x, n)[1..] == Copies(x, n - 1) && Copies(x, n)[..n - 1] == Copies(x, n - 1);
      NoneOfOld(n - 1, x, cutoff);
    }
  }

  lemma OldGoes(n: nat)
    ensures Pruned(OldAndNew(n), 2) == StoreOf(NEW, Sample(2, "", ""), 1)
  {
    NoneOfOld(n, Sample(1, "", ""), 2);
    assert Copies(Sample(2, "", ""), 1) == [Sample(2, "", "")];
    assert Newer([Sample(2, "", "")], 2) == [Sample(2, "", "")];
  }

  /** The last steps of the trace below: counted, evicted, dropped. */
  function Late(m: nat, step: nat): System {
    match step
    case 0 => System(OldAndNew(m), map[0 := HasAppended], m + 1, 0, 0)
    case 1 => System(OldAndNew(m), map[0 := MustDrop(1)], m + 1, 0, 0)
    case 2 => System(StoreOf(NEW, Sample(2, "", ""), 1), map[0 := MustDrop(1)], m + 1, 0, m)
    case _ => System(map[], map[], m + 1, 1, m)
  }

  const LATE_ACTIONS := [Append(0, NEW, Sample(2, "", "")), ReadCount(0), EvictBefore(2), DropExcess(0)]

  lemma LateSteps(m: nat)
    requires m > 0
    ensures Next(m, Filled(OLD, Sample(1, "", ""), m), LATE_ACTIONS[0], Late(m, 0))
    ensures Next(m, Late(m, 0), LATE_ACTIONS[1], Late(m, 1))
    ensures Next(m, Late(m, 1), LATE_ACTIONS[2], Late(m, 2))
    ensures Next(m, Late(m, 2), LATE_ACTIONS[3], Late(m, 3)) && DropsTooMuch(m, Late(m, 2), LATE_ACTIONS[3], Late(m, 3))
  {
    hide Total, Appended, DropsOldest, StoreOf, Pruned, OldAndNew;
    var y := Sample(2, "", "");
    OldAndNewAppended(m);
    OldGoes(m);
    StoreTotal(NEW, y, 1);
    StoreTotal(NEW, y, 0);
    StoreDropped(NEW, y, 1, 1);
    assert StoreOf(NEW, y, 0) == map[] by {
      NothingStored(NEW, y);
    }
  }

  lemma NothingStored(id: StreamID, x: Sample)
    ensures StoreOf(id, x, 0) == map[]
  {
  }

  /** For every budget one call at a time suffices, if an eviction comes between its count and its drop: in a store full
    of old samples the window makes room, and then the call forgets the newest sample, the only one left. */
  lemma EvictionInBetween(maxSamples: nat)
    returns (states: seq<System>, actions: seq<Action>, k: nat)
    requires maxSamples > 0
    ensures Trace(maxSamples, states, actions) && Narrow(states, 1) && k + 1 == |actions|
    ensures DropsTooMuch(maxSamples, states[k], actions[k], states[k + 1])
    ensures var end := states[k + 1];
            end.calls == map[] && end.store == map[] && end.evicted == maxSamples && end.dropped == 1
  {
    hide Next, Late, Trace, Narrow, DropsTooMuch;
    var full := Filled(OLD, Sample(1, "", ""), maxSamples);
    states, actions := Fill(maxSamples, 1, OLD, Sample(1, "", ""), maxSamples);
    LastState(maxSamples, 1, states, actions, full);
    LateSteps(maxSamples);
    LateCalls(maxSamples);
    for i := 0 to 4
      invariant Trace(maxSamples, states, actions) && Narrow(states, 1)
      invariant |states| == |actions| + 1
      invariant states[|states| - 1] == if i == 0 then full else Late(maxSamples, i - 1)
      invariant i == 4 ==> |states| >= 2 && states[|states| - 2] == Late(maxSamples, 2)
      invariant i == 4 ==> actions[|actions| - 1] == LATE_ACTIONS[3]
    {
      TraceGoesOn(maxSamples, 1, states, actions, LATE_ACTIONS[i], Late(maxSamples, i));
      states, actions := states + [Late(maxSamples, i)], actions + [LATE_ACTIONS[i]];
    }
    k := |actions| - 1;
  }

  lemma LateCalls(m: nat)
    ensures forall i: nat :: |Late(m, i).calls| <= 1
    ensures var end := Late(m, 3); end.calls == map[] && end.store == map[] && end.evicted == m && end.dropped == 1
  {
  }

  /** For every budget above zero: no drop ever goes too far exactly when calls do not overlap and evictions keep apart
    from pending drops (or when there are no calls at all). */
  lemma NeverDropsTooMuchIff(maxSamples: nat, width: nat, apart: bool)
    requires maxSamples > 0
    ensures NeverDropsTooMuch(maxSamples, width, apart) <==> width == 0 || (width == 1 && apart)
  {
    hide Next, Narrow, Apart, DropsTooMuch;
    if width == 0 || (width == 1 && apart) {
      forall states: seq<System>, actions: seq<Action>, k
        | Trace(maxSamples, states, actions) && Narrow(states, width) && (apart ==> Apart(states, actions))
          && 0 <= k < |actions|
        ensures !DropsTooMuch(maxSamples, states[k], actions[k], states[k + 1])
      {
        if width == 0 {
          NoCallsNoDrop(maxSamples, states, actions, k);
        } else {
          LoneCalls(maxSamples, states, actions, k);
        }
      }
    } else if width == 1 {
      var states, actions, k := EvictionInBetween(maxSamples);
    } else {
      var states, actions, k := TwoCallsDropTooMuch(maxSamples);
      Wider(states, 2, width);
    }
  }

  lemma Wider(states: seq<System>, width: nat, wider: nat)
    requires Narrow(states, width) && width <= wider
    ensures Narrow(states, wider)
  {
  }

  lemma NoCallsNoDrop(maxSamples: int, states: seq<System>, actions: seq<Action>, k: nat)
    requires Trace(maxSamples, states, actions) && Narrow(states, 0) && k < |actions|
    ensures !DropsTooMuch(maxSamples, states[k], actions[k], states[k + 1])
  {
    hide Total, DropsOldest, Appended;
    assert Next(maxSamples, states[k], actions[k], states[k + 1]);
    assert |states[k].calls| == 0;
  }
}
