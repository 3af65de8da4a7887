/** The state machine of one alert rule (internal/domain/alert.go).

  `Monitor` is the source's object; `Observed` and `Checked` on `State` values say what its two methods do.
  What the machine means is then stated about whole histories of samples and clock checks. */
module Monitors {
  import opened Domain

  datatype State = State(rule: Rule, grace: int, since: Time, lastSeen: Time, fired: bool)

  function Fresh(rule: Rule, grace: int): State { State(rule, grace, ZERO_TIME, ZERO_TIME, false) }

  function Observed(m: State, t: Time, value: real): (State, Event) {
    if m.rule.op == Absent then
      (m.(lastSeen := t, fired := false), if m.fired then Resolved else NoEvent)
    else if !Holds(m.rule.op, value, m.rule.threshold) then
      (m.(since := ZERO_TIME, fired := false), if m.fired then Resolved else NoEvent)
    else
      var since := if m.since == ZERO_TIME then t else m.since;
      if m.fired || t - since < m.rule.hold then (m.(since := since), NoEvent)
      else (m.(since := since, fired := true), Fired)
  }

  function Checked(m: State, now: Time): (State, Event) {
    if m.rule.op != Absent then (m, NoEvent)
    else if m.lastSeen == ZERO_TIME then (m.(lastSeen := now + m.grace), NoEvent)
    else if m.fired || now - m.lastSeen < m.rule.hold then (m, NoEvent)
    else (m.(fired := true), Fired)
  }

  class Monitor {
    const rule: Rule
    var grace: int
    var since: Time
    var lastSeen: Time
    var fired: bool

    function Now(): State
      reads this
    {
      State(rule, grace, since, lastSeen, fired)
    }

    constructor (rule: Rule)
      ensures this.rule == rule && Now() == Fresh(rule, 0)
    {
      this.rule := rule;
      grace, since, lastSeen, fired := 0, ZERO_TIME, ZERO_TIME, false;
    }

    method Observe(t: Time, value: real) returns (ev: Event)
      modifies this
      ensures (Now(), ev) == Observed(old(Now()), t, value)
    {
      if rule.op == Absent {
        lastSeen := t;
        if fired {
          fired := false;
          return Resolved;
        }
        return NoEvent;
      }
      if !Holds(rule.op, value, rule.threshold) {
        var wasFired := fired;
        since, fired := ZERO_TIME, false;
        if wasFired {
          return Resolved;
        }
        return NoEvent;
      }
      if since == ZERO_TIME {
        since := t;
      }
      if fired || t - since < rule.hold {
        return NoEvent;
      }
      fired := true;
      return Fired;
    }

    method Check(now: Time) returns (ev: Event)
      modifies this
      ensures (Now(), ev) == Checked(old(Now()), now)
    {
      if rule.op != Absent {
        return NoEvent;
      }
      if lastSeen == ZERO_TIME {
        lastSeen := now + grace;
        return NoEvent;
      }
      if fired || now - lastSeen < rule.hold {
        return NoEvent;
      }
      fired := true;
      return Fired;
    }
  }

  // ----- histories -----

  datatype Input = Seen(time: Time, value: real) | Clock(now: Time)

  function Step(m: State, i: Input): (State, Event) {
    match i
    case Seen(t, v) => Observed(m, t, v)
    case Clock(now) => Checked(m, now)
  }

  function Run(m: State, ins: seq<Input>): State {
    if ins == [] then m else Step(Run(m, ins[..|ins| - 1]), ins[|ins| - 1]).0
  }

  /** The event input `k` of the history gave rise to. */
  function EventAt(m: State, ins: seq<Input>, k: nat): Event
    requires k < |ins|
  {
    Step(Run(m, ins[..k]), ins[k]).1
  }

  /** The events of a run, without the silent steps. */
  function Events(m: State, ins: seq<Input>): seq<Event> {
    if ins == [] then []
    else
      var ev := EventAt(m, ins, |ins| - 1);
      Events(m, ins[..|ins| - 1]) + if ev == NoEvent then [] else [ev]
  }

  lemma {:induction false} RunKeepsRule(m: State, ins: seq<Input>)
    ensures Run(m, ins).rule == m.rule && Run(m, ins).grace == m.grace
  {
    if ins != [] {
      RunKeepsRule(m, ins[..|ins| - 1]);
    }
  }

  lemma EventIsChange(m: State, i: Input)
    ensures var (m', ev) := Step(m, i);
            if m'.fired == m.fired then ev == NoEvent else ev == if m'.fired then Fired else Resolved
  {
  }

  /** Fired, Resolved, Fired, ... starting with Fired, and one more Fired than Resolved exactly while firing. */
  lemma {:induction false} EventsAlternate(rule: Rule, grace: int, ins: seq<Input>)
    ensures forall k :: 0 <= k < |Events(Fresh(rule, grace), ins)| ==>
              Events(Fresh(rule, grace), ins)[k] == if k % 2 == 0 then Fired else Resolved
    ensures |Events(Fresh(rule, grace), ins)| % 2 == 1 <==> Run(Fresh(rule, grace), ins).fired
  {
    hide Step;
    if ins != [] {
      EventsAlternate(rule, grace, ins[..|ins| - 1]);
      EventIsChange(Run(Fresh(rule, grace), ins[..|ins| - 1]), ins[|ins| - 1]);
    }
  }

  // ----- threshold rules -----

  function Samples(ins: seq<Input>): seq<Input> {
    if ins == [] then []
    else Samples(ins[..|ins| - 1]) + if ins[|ins| - 1].Seen? then [ins[|ins| - 1]] else []
  }

  /** The value is on the wrong side of the rule's threshold. Absent rules look at no value. */
  predicate IsBreach(rule: Rule, value: real) {
    || (rule.op == Greater && value > rule.threshold)
    || (rule.op == GreaterEq && value >= rule.threshold)
    || (rule.op == Less && value < rule.threshold)
    || (rule.op == LessEq && value <= rule.threshold)
  }

  ghost predicate Breaches(rule: Rule, i: Input) {
    i.Seen? && IsBreach(rule, i.value)
  }

  /** A quiet monitor that need not wait fires on a sample exactly when the comparison of its rule is true of it. */
  lemma FiresAtOnceIff(m: State, t: Time, v: real)
    requires !m.fired && m.since == ZERO_TIME && m.rule.hold <= 0
    ensures Observed(m, t, v).1 == Fired <==>
            match m.rule.op
            case Greater => v > m.rule.threshold
            case GreaterEq => v >= m.rule.threshold
            case Less => v < m.rule.threshold
            case LessEq => v <= m.rule.threshold
            case Absent => false
  {
  }

  /** A firing threshold monitor resolves on a sample exactly when that comparison is false of it. */
  lemma ResolvesAtOnceIff(m: State, t: Time, v: real)
    requires m.fired && m.rule.op != Absent
    ensures Observed(m, t, v).1 == Resolved <==> !IsBreach(m.rule, v)
    ensures Observed(m, t, v).0.fired <==> IsBreach(m.rule, v)
  {
  }

  /** `b` is where the current run of breaching samples starts: everything from there on breaches, and the sample
    before it, if there is one, does not. */
  ghost predicate BreachStartsAt(rule: Rule, obs: seq<Input>, b: nat) {
    && b <= |obs|
    && (forall k :: b <= k < |obs| ==> Breaches(rule, obs[k]))
    && (b > 0 ==> !Breaches(rule, obs[b - 1]))
  }

  /** Some sample of the current breach came at least the hold time after its first. */
  ghost predicate Sustained(rule: Rule, obs: seq<Input>, b: nat) {
    b < |obs| && exists k :: b <= k < |obs| && obs[k].Seen? && obs[b].Seen? && obs[k].time - obs[b].time >= rule.hold
  }

  ghost predicate RealTimes(grace: int, ins: seq<Input>) {
    forall k :: 0 <= k < |ins| ==>
      match ins[k]
      case Seen(t, _) => t != ZERO_TIME
      case Clock(now) => now + grace != ZERO_TIME
  }

  lemma {:induction false} ThresholdState(rule: Rule, grace: int, ins: seq<Input>) returns (b: nat)
    requires rule.op != Absent && RealTimes(grace, ins)
    ensures BreachStartsAt(rule, Samples(ins), b)
    ensures var m := Run(Fresh(rule, grace), ins);
            && m.since == (if b < |Samples(ins)| then Samples(ins)[b].time else ZERO_TIME)
            && (m.fired <==> Sustained(rule, Samples(ins), b))
    ensures forall k :: b <= k < |Samples(ins)| ==> Samples(ins)[k].time != ZERO_TIME
  {
    if ins == [] {
      b := 0;
    } else {
      var init, last := ins[..|ins| - 1], ins[|ins| - 1];
      b := ThresholdState(rule, grace, init);
      RunKeepsRule(Fresh(rule, grace), init);
      var obs, obs' := Samples(init), Samples(ins);
      if last.Clock? {
        assert obs' == obs;
      } else {
        assert obs' == obs + [last];
        if Breaches(rule, last) {
          assert forall k :: b <= k < |obs| ==> obs'[k] == obs[k];
          SustainedByOneMore(rule, obs, b, last);
        } else {
          b := |obs'|;
        }
      }
    }
  }

  lemma SustainedByOneMore(rule: Rule, obs: seq<Input>, b: nat, last: Input)
    requires last.Seen? && BreachStartsAt(rule, obs, b)
    ensures Sustained(rule, obs + [last], b) <==>
            Sustained(rule, obs, b) || last.time - (if b < |obs| then obs[b].time else last.time) >= rule.hold
  {
    var obs' := obs + [last];
    assert forall k :: 0 <= k < |obs| ==> obs'[k] == obs[k];
    assert obs'[|obs|] == last;
  }

  lemma BreachStartUnique(rule: Rule, obs: seq<Input>, b: nat, c: nat)
    requires BreachStartsAt(rule, obs, b) && BreachStartsAt(rule, obs, c)
    ensures b == c
  {
  }

  /** A threshold monitor is firing exactly when the current breach has been sustained; clock checks and the order
    of timestamps do not matter. */
  lemma ThresholdFiringIff(rule: Rule, grace: int, ins: seq<Input>, b: nat)
    requires rule.op != Absent && RealTimes(grace, ins)
    requires BreachStartsAt(rule, Samples(ins), b)
    ensures Run(Fresh(rule, grace), ins).fired <==> Sustained(rule, Samples(ins), b)
  {
    var c := ThresholdState(rule, grace, ins);
    BreachStartUnique(rule, Samples(ins), b, c);
  }

  // ----- absent rules -----

  /** Since when the stream counts as silent: the last sample, or else the first check plus the grace. */
  function Anchor(grace: int, ins: seq<Input>): Option<Time> {
    if ins == [] then None
    else
      var before := Anchor(grace, ins[..|ins| - 1]);
      match ins[|ins| - 1]
      case Seen(t, _) => Some(t)
      case Clock(now) => if before.None? then Some(now + grace) else before
  }

  /** The first input after the one that set the anchor. */
  function QuietFrom(ins: seq<Input>): nat {
    if ins == [] then 0
    else if ins[|ins| - 1].Seen? || |ins| == 1 then |ins|
    else QuietFrom(ins[..|ins| - 1])
  }

  /** What the anchor is, read off the history: input `QuietFrom - 1` set it, only checks follow, and when it is a
    check it is the very first input, so that the grace plays no part once a sample was seen. */
  lemma {:induction false} AnchorMeaning(grace: int, ins: seq<Input>)
    requires ins != []
    ensures 1 <= QuietFrom(ins) <= |ins|
    ensures forall k :: QuietFrom(ins) <= k < |ins| ==> ins[k].Clock?
    ensures match ins[QuietFrom(ins) - 1]
            case Seen(t, _) => Anchor(grace, ins) == Some(t)
            case Clock(now) => QuietFrom(ins) == 1 && Anchor(grace, ins) == Some(now + grace)
  {
    if ins[|ins| - 1].Clock? && |ins| > 1 {
      AnchorMeaning(grace, ins[..|ins| - 1]);
    }
  }

  ghost predicate SilentTooLong(rule: Rule, grace: int, ins: seq<Input>) {
    exists k :: QuietFrom(ins) <= k < |ins| && ins[k].Clock? && ins[k].now - Anchor(grace, ins).GetOr(0) >= rule.hold
  }

  lemma {:induction false} AbsentState(rule: Rule, grace: int, ins: seq<Input>)
    requires rule.op == Absent && RealTimes(grace, ins)
    ensures var m := Run(Fresh(rule, grace), ins);
            && m.lastSeen == Anchor(grace, ins).GetOr(ZERO_TIME)
            && (ins != [] ==> m.lastSeen != ZERO_TIME)
            && (m.fired <==> SilentTooLong(rule, grace, ins))
  {
    if ins != [] {
      var init, last := ins[..|ins| - 1], ins[|ins| - 1];
      AbsentState(rule, grace, init);
      RunKeepsRule(Fresh(rule, grace), init);
      AnchorMeaning(grace, ins);
      if init != [] {
        AnchorMeaning(grace, init);
        if last.Clock? {
          assert forall k :: 0 <= k < |init| ==> ins[k] == init[k];
        }
      }
    }
  }

  /** An absent monitor is firing exactly when some check since the last sample (or since the arming check) came at
    least the hold time after the anchor. */
  lemma AbsentFiringIff(rule: Rule, grace: int, ins: seq<Input>)
    requires rule.op == Absent && RealTimes(grace, ins)
    ensures Run(Fresh(rule, grace), ins).fired <==> SilentTooLong(rule, grace, ins)
  {
    AbsentState(rule, grace, ins);
  }

  /** Once a sample was seen, the grace changes nothing. */
  lemma GraceOnlyBeforeFirstSample(rule: Rule, g: int, h: int, ins: seq<Input>, k: nat)
    requires rule.op == Absent && RealTimes(g, ins) && RealTimes(h, ins)
    requires k < |ins| && ins[k].Seen?
    ensures Run(Fresh(rule, g), ins).fired == Run(Fresh(rule, h), ins).fired
  {
    AbsentState(rule, g, ins);
    AbsentState(rule, h, ins);
    AnchorMeaning(g, ins);
    AnchorMeaning(h, ins);
    assert ins[QuietFrom(ins) - 1].Seen?;
  }

  lemma {:induction false} StaysFired(m: State, ins: seq<Input>, i: nat, j: nat)
    requires m.rule.op == Absent && i <= j <= |ins| && Run(m, ins[..i]).fired
    requires forall k :: i <= k < j ==> ins[k].Clock?
    ensures Run(m, ins[..j]).fired
    decreases j - i
  {
    if i < j {
      StaysFired(m, ins, i, j - 1);
      RunKeepsRule(m, ins[..j - 1]);
      assert ins[..j][..j - 1] == ins[..j - 1];
    }
  }

  /** Two alarms of an absent rule always have a sample between them. */
  lemma FiresOncePerSilence(m: State, ins: seq<Input>, i: nat, j: nat)
    requires m.rule.op == Absent && i < j < |ins|
    requires EventAt(m, ins, i) == Fired && EventAt(m, ins, j) == Fired
    ensures exists k :: i < k < j && ins[k].Seen?
  {
    RunKeepsRule(m, ins[..i]);
    RunKeepsRule(m, ins[..j]);
    assert ins[..i + 1][..i] == ins[..i];
    if forall k :: i + 1 <= k < j ==> ins[k].Clock? {
      StaysFired(m, ins, i + 1, j);
    }
  }

  function Clocks(checks: seq<Time>): (ins: seq<Input>)
    ensures |ins| == |checks|
    ensures forall k :: 0 <= k < |checks| ==> ins[k] == Clock(checks[k])
  {
    seq(|checks|, k requires 0 <= k < |checks| => Clock(checks[k]))
  }

  lemma {:induction false} AnchorStays(grace: int, ins: seq<Input>, checks: seq<Time>)
    requires ins != []
    ensures Anchor(grace, ins + Clocks(checks)) == Anchor(grace, ins)
    ensures QuietFrom(ins + Clocks(checks)) == QuietFrom(ins)
  {
    if checks == [] {
      assert ins + Clocks(checks) == ins;
    } else {
      var n := |checks| - 1;
      AnchorStays(grace, ins, checks[..n]);
      AnchorMeaning(grace, ins);
      assert (ins + Clocks(checks))[..|ins| + n] == ins + Clocks(checks[..n]);
    }
  }

  /** Checks before anchor + hold leave a monitor that is not firing as it is. */
  lemma NotYetDue(rule: Rule, grace: int, ins: seq<Input>, checks: seq<Time>)
    requires rule.op == Absent && RealTimes(grace, ins + Clocks(checks)) && ins != []
    requires !Run(Fresh(rule, grace), ins).fired
    requires forall i :: 0 <= i < |checks| ==> checks[i] < Anchor(grace, ins).GetOr(0) + rule.hold
    ensures var m := Run(Fresh(rule, grace), ins + Clocks(checks));
            !m.fired && m.rule == rule && m.lastSeen == Anchor(grace, ins).GetOr(0) && m.lastSeen != ZERO_TIME
  {
    hide Run, Clocks, Anchor, QuietFrom;
    var all := ins + Clocks(checks);
    assert forall i :: 0 <= i < |ins| ==> all[i] == ins[i];
    AnchorStays(grace, ins, checks);
    AbsentState(rule, grace, ins);
    AbsentState(rule, grace, all);
    RunKeepsRule(Fresh(rule, grace), all);
    assert forall i :: |ins| <= i < |all| ==> all[i] == Clock(checks[i - |ins|]);
  }

  /** A check before `due`: the first of the coming ones, or an earlier one that these follow within `p`. */
  ghost predicate CheckedBefore(ins: seq<Input>, checks: seq<Time>, p: int, due: Time) {
    checks != [] &&
    (checks[0] < due
     || exists c :: 0 <= c < |ins| && ins[c].Clock? && ins[c].now < due && checks[0] - ins[c].now <= p)
  }

  lemma FirstDue(checks: seq<Time>, due: Time) returns (k: nat)
    requires checks != [] && due <= checks[|checks| - 1]
    ensures k < |checks| && due <= checks[k]
    ensures forall i :: 0 <= i < k ==> checks[i] < due
  {
    k := 0;
    while checks[k] < due
      invariant k < |checks|
      invariant forall i :: 0 <= i < k ==> checks[i] < due
      decreases |checks| - k
    {
      k := k + 1;
    }
  }

  /** The first check that is due fires. */
  lemma DueCheckFires(rule: Rule, grace: int, ins: seq<Input>, checks: seq<Time>, k: nat)
    requires rule.op == Absent && RealTimes(grace, ins + Clocks(checks)) && ins != []
    requires !Run(Fresh(rule, grace), ins).fired
    requires k < |checks| && Anchor(grace, ins).GetOr(0) + rule.hold <= checks[k]
    requires forall i :: 0 <= i < k ==> checks[i] < Anchor(grace, ins).GetOr(0) + rule.hold
    ensures EventAt(Fresh(rule, grace), ins + Clocks(checks), |ins| + k) == Fired
  {
    hide Run, Anchor, RealTimes;
    var all := ins + Clocks(checks);
    assert all[..|ins| + k] == ins + Clocks(checks[..k]);
    assert RealTimes(grace, all[..|ins| + k]) by { PrefixTimes(grace, all, |ins| + k); }
    NotYetDue(rule, grace, ins, checks[..k]);
    assert all[|ins| + k] == Clock(checks[k]);
  }

  lemma PrefixTimes(grace: int, ins: seq<Input>, n: nat)
    requires n <= |ins| && RealTimes(grace, ins)
    ensures RealTimes(grace, ins[..n])
  {
  }

  /** While a silence goes on and checks come at most `p` apart, one of them before anchor + hold, it is reported at a
    check before anchor + hold + p. */
  lemma SilenceIsReported(rule: Rule, grace: int, ins: seq<Input>, checks: seq<Time>, p: int) returns (k: nat)
    requires rule.op == Absent && RealTimes(grace, ins + Clocks(checks)) && ins != []
    requires !Run(Fresh(rule, grace), ins).fired
    requires forall i :: 0 <= i < |checks| - 1 ==> checks[i + 1] - checks[i] <= p
    requires var due := Anchor(grace, ins).GetOr(0) + rule.hold;
             CheckedBefore(ins, checks, p, due) && due <= checks[|checks| - 1]
    ensures k < |checks|
    ensures EventAt(Fresh(rule, grace), ins + Clocks(checks), |ins| + k) == Fired
    ensures var due := Anchor(grace, ins).GetOr(0) + rule.hold; due <= checks[k] < due + p
  {
    hide Run, Anchor, RealTimes, EventAt;
    k := FirstDue(checks, Anchor(grace, ins).GetOr(0) + rule.hold);
    DueCheckFires(rule, grace, ins, checks, k);
    if k > 0 {
      assert checks[(k - 1) + 1] - checks[k - 1] <= p;
    }
  }
}
