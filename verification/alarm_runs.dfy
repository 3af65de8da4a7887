/** Runs of the alerter that can occur, and runs that make rules fire.

  cmd/sor/main.go checks the clock once before it serves samples and then from a single loop; a sample's value
  is what its text parses to (internal/usecase/alert.go). */
module AlarmRuns {
  import opened Domain
  import opened Alerting
  import Monitors

  function InstantOf(i: Input): Time {
    match i
    case Arrive(_, s, _) => s.time
    case Tick(now) => now
  }

  ghost predicate ClockForward(ins: seq<Input>) {
    forall i, j :: 0 <= i < j < |ins| && ins[i].Tick? && ins[j].Tick? ==> ins[i].now <= ins[j].now
  }

  /** A run that can occur in a program started at `start`: it begins with a check, the clock never goes back, and every
    value is the number its text stands for. Samples may carry any time, in any order, but Go's zero time. */
  ghost predicate CanOccur(parse: Parser, start: Time, ins: seq<Input>) {
    && (ins != [] ==> ins[0].Tick?)
    && ClockForward(ins)
    && (forall k :: 0 <= k < |ins| ==> InstantOf(ins[k]) >= if ins[k].Tick? then start else 1)
    && Parsed(parse, ins)
  }

  // ----- texts on either side of a threshold -----

  /** A text whose number breaches the rule; absent rules need none. */
  predicate BreachedBy(parse: Parser, r: Rule, text: string) {
    r.op != Absent ==> parse(text).Some? && Monitors.IsBreach(r, parse(text).value)
  }

  /** A text whose number ends the rule's alarm. */
  predicate ClearedBy(parse: Parser, r: Rule, text: string) {
    parse(text).Some? && !Monitors.IsBreach(r, parse(text).value)
  }

  /** Numbers can be written on both sides of every rule's threshold. */
  ghost predicate Crossable(parse: Parser, rules: seq<Rule>) {
    forall k :: 0 <= k < |rules| ==> CanCross(parse, rules[k])
  }

  ghost predicate CanCross(parse: Parser, r: Rule) {
    (exists text :: BreachedBy(parse, r, text)) && (exists text :: ClearedBy(parse, r, text))
  }

  ghost predicate Written(parse: Parser, t: real) { exists text :: parse(text) == Some(t) }

  ghost predicate WrittenBelow(parse: Parser, t: real) { exists text :: parse(text).Some? && parse(text).value < t }

  ghost predicate WrittenAbove(parse: Parser, t: real) { exists text :: parse(text).Some? && parse(text).value > t }

  /** Some number can be written on the side of the threshold that the threshold itself is not on. */
  ghost predicate HasOtherSide(parse: Parser, r: Rule) {
    match r.op
    case Greater => WrittenAbove(parse, r.threshold)
    case LessEq => WrittenAbove(parse, r.threshold)
    case Less => WrittenBelow(parse, r.threshold)
    case GreaterEq => WrittenBelow(parse, r.threshold)
    case Absent => true
  }

  /** Where the threshold can be written, as in a file it is, one number on its other side is all that is needed. */
  lemma CanCrossIff(parse: Parser, r: Rule)
    requires Written(parse, r.threshold)
    ensures CanCross(parse, r) <==> HasOtherSide(parse, r)
  {
    var at :| parse(at) == Some(r.threshold);
    if CanCross(parse, r) && r.op != Absent {
      var breach :| BreachedBy(parse, r, breach);
      var clear :| ClearedBy(parse, r, clear);
      assert parse(breach).Some? && parse(clear).Some?;
      assert HasOtherSide(parse, r);
    }
    if HasOtherSide(parse, r) {
      var other := at;
      if r.op == Greater || r.op == LessEq {
        other :| parse(other).Some? && parse(other).value > r.threshold;
      } else if r.op != Absent {
        other :| parse(other).Some? && parse(other).value < r.threshold;
      }
      assert BreachedBy(parse, r, at) || BreachedBy(parse, r, other);
      assert ClearedBy(parse, r, at) || ClearedBy(parse, r, other);
    }
  }

  // ----- a run that makes a rule fire -----

  function Wait(r: Rule): nat { if r.hold > 0 then r.hold else 0 }

  /** Inputs from `start` on after which a monitor of this rule is firing. */
  function FireRun(parse: Parser, r: Rule, start: Time, grace: nat, text: string): seq<Input> {
    if r.op == Absent then [Tick(start), Tick(start + grace + Wait(r))]
    else
      [Tick(start), Arrive(r.stream, Sample(start, text, ""), parse(text)),
       Arrive(r.stream, Sample(start + Wait(r), text, ""), parse(text))]
  }

  /** When such a run is over. */
  function EndOf(r: Rule, start: Time, grace: nat): Time { start + grace + Wait(r) }

  lemma FireRunOccurs(parse: Parser, r: Rule, start: Time, grace: nat, text: string)
    requires start >= 1
    ensures CanOccur(parse, start, FireRun(parse, r, start, grace, text))
    ensures Until(FireRun(parse, r, start, grace, text), EndOf(r, start, grace))
  {
  }

  /** Nothing in the run is later than `end`. */
  ghost predicate Until(ins: seq<Input>, end: Time) { forall k :: 0 <= k < |ins| ==> InstantOf(ins[k]) <= end }

  /** A run that starts where another is over continues it. */
  lemma OneAfterTheOther(parse: Parser, start: Time, end: Time, a: seq<Input>, b: seq<Input>)
    requires CanOccur(parse, start, a) && Until(a, end) && CanOccur(parse, end, b) && start <= end && a != []
    ensures CanOccur(parse, start, a + b)
  {
    var ins := a + b;
    forall k | 0 <= k < |ins| ensures ins[k] == if k < |a| then a[k] else b[k - |a|] {
    }
    forall i, j | 0 <= i < j < |ins| && ins[i].Tick? && ins[j].Tick? ensures ins[i].now <= ins[j].now {
      if i < |a| <= j {
        assert InstantOf(a[i]) <= end <= InstantOf(b[j - |a|]);
      }
    }
  }

  /** A sample at the end of a run belongs to it. */
  lemma ThenSample(parse: Parser, start: Time, ins: seq<Input>, id: StreamID, x: Sample)
    requires CanOccur(parse, start, ins) && ins != [] && x.time >= 1
    ensures CanOccur(parse, start, ins + [Arrive(id, x, parse(x.value))])
  {
    var more := ins + [Arrive(id, x, parse(x.value))];
    forall k | 0 <= k < |ins| ensures more[k] == ins[k] {
    }
  }

  // ----- what such runs do to a monitor -----

  /** The monitor has seen nothing after `end`. */
  predicate Unsettled(m: Monitors.State, grace: nat, end: Time) {
    m.grace == grace && if m.rule.op == Absent then m.lastSeen <= end + grace else m.since <= end
  }

  lemma TickSettles(m: Monitors.State, grace: nat, start: Time)
    requires Unsettled(m, grace, start) && start >= 1
    ensures var m' := StepOne(m, Tick(start)).0;
            && m'.rule == m.rule && Unsettled(m', grace, start)
            && (m.rule.op == Absent ==> m'.lastSeen != ZERO_TIME)
            && (m.rule.op != Absent ==> m' == m)
  {
  }

  lemma BreachFires(m: Monitors.State, start: Time, text: string, value: real)
    requires m.rule.op != Absent && Monitors.IsBreach(m.rule, value) && m.since <= start && start >= 1
    ensures var first := StepOne(m, Arrive(m.rule.stream, Sample(start, text, ""), Some(value))).0;
            StepOne(first, Arrive(m.rule.stream, Sample(start + Wait(m.rule), text, ""), Some(value))).0.fired
  {
  }

  lemma FireRunFires(parse: Parser, ms: States, k: nat, start: Time, grace: nat, text: string)
    requires k < |ms| && BreachedBy(parse, ms[k].rule, text) && start >= 1
    requires Unsettled(ms[k], grace, start)
    ensures RunAll(ms, FireRun(parse, ms[k].rule, start, grace, text))[k].fired
  {
    hide StepOne, Monitors.IsBreach, Unsettled;
    var ins := FireRun(parse, ms[k].rule, start, grace, text);
    TickSettles(ms[k], grace, start);
    RunOnOne(ms, ins, k);
    if ms[k].rule.op == Absent {
      DueFires(StepOne(ms[k], ins[0]).0, grace, start);
    } else {
      SinceStart(ms[k], grace, start);
      BreachFires(ms[k], start, text, parse(text).value);
    }
  }

  lemma SinceStart(m: Monitors.State, grace: nat, start: Time)
    requires Unsettled(m, grace, start) && m.rule.op != Absent
    ensures m.since <= start
  {
  }

  lemma DueFires(m: Monitors.State, grace: nat, start: Time)
    requires Unsettled(m, grace, start) && m.rule.op == Absent && m.lastSeen != ZERO_TIME
    ensures StepOne(m, Tick(start + grace + Wait(m.rule))).0.fired
  {
  }

  /** Short runs, step by step. */
  lemma RunOnOne(ms: States, ins: seq<Input>, k: nat)
    requires 2 <= |ins| <= 3 && k < |ms|
    ensures var two := StepOne(StepOne(ms[k], ins[0]).0, ins[1]).0;
            RunAll(ms, ins)[k] == if |ins| == 2 then two else StepOne(two, ins[2]).0
  {
    hide StepOne;
    assert ins[..2][..1][..0] == [] && ins[..2][..1] == [ins[0]];
    assert RunAll(ms, ins[..2][..1])[k] == StepOne(ms[k], ins[0]).0;
    assert RunAll(ms, ins[..2])[k] == StepOne(StepOne(ms[k], ins[0]).0, ins[1]).0;
    if |ins| == 2 {
      assert ins[..2] == ins;
    }
  }

  /** Rules that samples cannot tell apart. */
  predicate SameCondition(a: Rule, b: Rule) {
    a.stream == b.stream && a.op == b.op && a.threshold == b.threshold
  }

  /** An input that cannot end this rule's alarm: a check, a sample of another stream, or one that breaches the rule. */
  predicate Harmless(i: Input, r: Rule) {
    match i
    case Tick(_) => true
    case Arrive(id, _, v) => id != r.stream || (r.op != Absent && v.Some? && Monitors.IsBreach(r, v.value))
  }

  lemma StepKeeps(m: Monitors.State, i: Input, grace: nat, end: Time)
    requires Harmless(i, m.rule) && InstantOf(i) <= end
    ensures var m' := StepOne(m, i).0;
            && m'.rule == m.rule
            && (m.fired ==> m'.fired)
            && (Unsettled(m, grace, end) ==> Unsettled(m', grace, end))
  {
  }

  lemma {:induction false} RunKeeps(ms: States, k: nat, ins: seq<Input>, grace: nat, end: Time)
    requires k < |ms| && Until(ins, end) && forall i :: 0 <= i < |ins| ==> Harmless(ins[i], ms[k].rule)
    ensures var m := RunAll(ms, ins)[k];
            && m.rule == ms[k].rule
            && (ms[k].fired ==> m.fired)
            && (Unsettled(ms[k], grace, end) ==> Unsettled(m, grace, end))
  {
    hide StepOne, Unsettled, Harmless, InstantOf;
    if ins != [] {
      var n := |ins| - 1;
      RunKeeps(ms, k, ins[..n], grace, end);
      StepKeeps(RunAll(ms, ins[..n])[k], ins[n], grace, end);
    }
  }

  /** Firing a rule on another stream, or with the same condition, leaves a firing monitor firing and an unsettled one
    unsettled. */
  lemma FireRunKeeps(parse: Parser, ms: States, k: nat, r: Rule, start: Time, grace: nat, text: string)
    requires k < |ms| && BreachedBy(parse, r, text) && start >= 1
    requires ms[k].rule.stream != r.stream || SameCondition(ms[k].rule, r)
    ensures var m := RunAll(ms, FireRun(parse, r, start, grace, text))[k];
            && m.rule == ms[k].rule
            && (ms[k].fired ==> m.fired)
            && (Unsettled(ms[k], grace, EndOf(r, start, grace)) ==> Unsettled(m, grace, EndOf(r, start, grace)))
  {
    hide RunAll, Unsettled;
    FireRunOccurs(parse, r, start, grace, text);
    RunKeeps(ms, k, FireRun(parse, r, start, grace, text), grace, EndOf(r, start, grace));
  }

  lemma FreshIsUnsettled(r: Rule, grace: nat, end: Time)
    requires end >= 0
    ensures Unsettled(Monitors.Fresh(r, grace), grace, end)
  {
  }
}
