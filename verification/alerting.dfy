/** The alerter (internal/usecase/alert.go): every rule's monitor, indexed by stream.

  The index shares its monitors with the configuration-ordered list, so updating one updates the other.
  `StepAll` and `Notes` say, on the ordered list alone, what one Observe or Check does and sends. */
module Alerting {
  import opened Domain
  import Monitors

  type States = seq<Monitors.State>

  /** What reaches the alerter: an arriving sample with the number its text parses to, or a clock check. */
  datatype Input =
    | Arrive(id: StreamID, sample: Sample, value: Option<real>)
    | Tick(now: Time)

  /** strconv.ParseFloat: the number a sample's text stands for, if any. */
  type Parser = string -> Option<real>

  /** Inputs as they occur: each arriving value is what the sample's text parses to. */
  ghost predicate Parsed(parse: Parser, ins: seq<Input>) {
    forall k :: 0 <= k < |ins| && ins[k].Arrive? ==> ins[k].value == parse(ins[k].sample.value)
  }

  function StepOne(m: Monitors.State, i: Input): (Monitors.State, Event) {
    match i
    case Arrive(id, s, v) =>
      if m.rule.stream == id && v.Some? then Monitors.Observed(m, s.time, v.value) else (m, NoEvent)
    case Tick(now) => Monitors.Checked(m, now)
  }

  function StepAll(ms: States, i: Input): (r: States)
    ensures |r| == |ms|
    ensures forall k :: 0 <= k < |ms| ==> r[k] == StepOne(ms[k], i).0
  {
    seq(|ms|, k requires 0 <= k < |ms| => StepOne(ms[k], i).0)
  }

  function NoteOf(rule: Rule, ev: Event, i: Input): Notification {
    match i
    case Arrive(_, s, _) => Notification(rule, ev, s.time, s.value, s.unit)
    case Tick(now) => Notification(rule, ev, now, "", "")
  }

  /** The notification monitor `m` contributes, if any. */
  function NoteFrom(m: Monitors.State, i: Input): seq<Notification> {
    var ev := StepOne(m, i).1;
    if ev == NoEvent then [] else [NoteOf(m.rule, ev, i)]
  }

  /** What is sent, in configuration order. */
  function Notes(ms: States, i: Input): seq<Notification> {
    if ms == [] then [] else Notes(ms[..|ms| - 1], i) + NoteFrom(ms[|ms| - 1], i)
  }

  function Initial(rules: seq<Rule>, grace: int): (ms: States)
    ensures |ms| == |rules|
    ensures forall k :: 0 <= k < |rules| ==> ms[k] == Monitors.Fresh(rules[k], grace)
  {
    seq(|rules|, k requires 0 <= k < |rules| => Monitors.Fresh(rules[k], grace))
  }

  function RunAll(ms: States, ins: seq<Input>): (r: States)
    ensures |r| == |ms|
  {
    if ins == [] then ms else StepAll(RunAll(ms, ins[..|ins| - 1]), ins[|ins| - 1])
  }

  function RulesOf(ms: States): (rules: seq<Rule>)
    ensures |rules| == |ms|
    ensures forall k :: 0 <= k < |ms| ==> rules[k] == ms[k].rule
  {
    seq(|ms|, k requires 0 <= k < |ms| => ms[k].rule)
  }

  lemma {:induction false} RunKeepsRules(ms: States, ins: seq<Input>)
    ensures forall k :: 0 <= k < |ms| ==> RunAll(ms, ins)[k].rule == ms[k].rule
  {
    if ins != [] {
      RunKeepsRules(ms, ins[..|ins| - 1]);
    }
  }

  lemma RulesStay(ms: States, ins: seq<Input>)
    ensures RulesOf(RunAll(ms, ins)) == RulesOf(ms)
  {
    RunKeepsRules(ms, ins);
  }

  /** What one rule's monitor sees of the whole input. */
  function ViewOf(id: StreamID, ins: seq<Input>): seq<Monitors.Input> {
    if ins == [] then [] else ViewOf(id, ins[..|ins| - 1]) + ViewOfOne(id, ins[|ins| - 1])
  }

  function ViewOfOne(id: StreamID, i: Input): seq<Monitors.Input> {
    match i
    case Arrive(j, s, v) => if j == id && v.Some? then [Monitors.Seen(s.time, v.value)] else []
    case Tick(now) => [Monitors.Clock(now)]
  }

  lemma ViewStep(m: Monitors.State, seen: seq<Monitors.Input>, i: Input)
    requires Monitors.Run(m, seen).rule == m.rule
    ensures Monitors.Run(m, seen + ViewOfOne(m.rule.stream, i)) == StepOne(Monitors.Run(m, seen), i).0
  {
    hide Monitors.Observed, Monitors.Checked;
    var more := ViewOfOne(m.rule.stream, i);
    if more == [] {
      assert seen + more == seen;
    } else {
      assert (seen + more)[..|seen + more| - 1] == seen;
    }
  }

  /** Each monitor runs on its own view, whatever the other rules are; so every theorem about one monitor holds
    inside the alerter. */
  lemma {:induction false} EachRunsAlone(ms: States, ins: seq<Input>, k: nat)
    requires k < |ms|
    ensures RunAll(ms, ins)[k] == Monitors.Run(ms[k], ViewOf(ms[k].rule.stream, ins))
  {
    hide StepOne;
    if ins != [] {
      var init, last := ins[..|ins| - 1], ins[|ins| - 1];
      EachRunsAlone(ms, init, k);
      RunKeepsRules(ms, init);
      ViewStep(ms[k], ViewOf(ms[k].rule.stream, init), last);
    }
  }

  // ----- the object -----

  function OnStream(ms: seq<Monitors.Monitor>, id: StreamID): (r: seq<Monitors.Monitor>)
    ensures forall k :: 0 <= k < |r| ==> r[k] in ms && r[k].rule.stream == id
    ensures forall k :: 0 <= k < |ms| && ms[k].rule.stream == id ==> ms[k] in r
  {
    if ms == [] then []
    else OnStream(ms[..|ms| - 1], id) + if ms[|ms| - 1].rule.stream == id then [ms[|ms| - 1]] else []
  }

  ghost predicate Distinct(ms: seq<Monitors.Monitor>) {
    forall j, k :: 0 <= j < k < |ms| ==> ms[j] != ms[k]
  }

  lemma {:induction false} OnStreamDistinct(ms: seq<Monitors.Monitor>, id: StreamID)
    requires Distinct(ms)
    ensures Distinct(OnStream(ms, id))
  {
    if ms != [] {
      OnStreamDistinct(ms[..|ms| - 1], id);
    }
  }

  /** `index` lists, per stream, the monitors of that stream in order. */
  ghost predicate Indexes(ms: seq<Monitors.Monitor>, index: map<StreamID, seq<Monitors.Monitor>>) {
    forall id :: (if id in index then index[id] else []) == OnStream(ms, id)
  }

  lemma IndexAt(ms: seq<Monitors.Monitor>, index: map<StreamID, seq<Monitors.Monitor>>, id: StreamID)
    requires Indexes(ms, index)
    ensures (if id in index then index[id] else []) == OnStream(ms, id)
  {
  }

  lemma IndexOneMore(ms: seq<Monitors.Monitor>, index: map<StreamID, seq<Monitors.Monitor>>, m: Monitors.Monitor)
    requires Distinct(ms) && Indexes(ms, index) && m !in ms
    ensures Distinct(ms + [m])
    ensures Indexes(ms + [m],
                    index[m.rule.stream := (if m.rule.stream in index then index[m.rule.stream] else []) + [m]])
  {
    var ms' := ms + [m];
    assert ms'[..|ms'| - 1] == ms;
    forall id ensures OnStream(ms', id) == OnStream(ms, id) + if id == m.rule.stream then [m] else [] {}
  }

  function StatesOf(ms: seq<Monitors.Monitor>): (r: States)
    reads ms
    ensures |r| == |ms|
    ensures forall k :: 0 <= k < |ms| ==> r[k] == ms[k].Now()
  {
    if ms == [] then [] else StatesOf(ms[..|ms| - 1]) + [ms[|ms| - 1].Now()]
  }

  /** States remembered for a list of monitors. */
  ghost function Recall(was: map<Monitors.Monitor, Monitors.State>, ms: seq<Monitors.Monitor>): (r: States)
    requires forall m :: m in ms ==> m in was
    ensures |r| == |ms|
    ensures forall k :: 0 <= k < |ms| ==> r[k] == was[ms[k]]
  {
    seq(|ms|, k requires 0 <= k < |ms| => was[ms[k]])
  }

  /** Monitors on other streams have nothing to say about a sample. */
  lemma {:induction false} NotesOfIndexed(was: map<Monitors.Monitor, Monitors.State>,
                                          ms: seq<Monitors.Monitor>, i: Input)
    requires i.Arrive? && i.value.Some?
    requires forall m :: m in ms ==> m in was && was[m].rule == m.rule
    ensures Notes(Recall(was, ms), i) == Notes(Recall(was, OnStream(ms, i.id)), i)
  {
    hide Notes, StepOne;
    if ms != [] {
      var init, last := ms[..|ms| - 1], ms[|ms| - 1];
      NotesOfIndexed(was, init, i);
      assert Recall(was, ms) == Recall(was, init) + [was[last]];
      NotesOfMore(Recall(was, init), was[last], i);
      if last.rule.stream == i.id {
        assert Recall(was, OnStream(ms, i.id)) == Recall(was, OnStream(init, i.id)) + [was[last]];
        NotesOfMore(Recall(was, OnStream(init, i.id)), was[last], i);
      } else {
        assert OnStream(ms, i.id) == OnStream(init, i.id);
        Elsewhere(was[last], i);
      }
    }
  }

  /** Once the monitors on the sample's stream have stepped, all have. */
  lemma AllHaveStepped(was: map<Monitors.Monitor, Monitors.State>, ms: seq<Monitors.Monitor>, i: Input)
    requires i.Arrive? && forall m :: m in ms ==> m in was && was[m].rule == m.rule
    requires forall m :: m in OnStream(ms, i.id) ==> m.Now() == StepOne(was[m], i).0
    requires forall m :: m in ms && m !in OnStream(ms, i.id) ==> m.Now() == was[m]
    ensures StatesOf(ms) == StepAll(Recall(was, ms), i)
  {
    hide StepOne, OnStream;
    forall k | 0 <= k < |ms| ensures ms[k].Now() == StepOne(was[ms[k]], i).0 {
      if ms[k] !in OnStream(ms, i.id) {
        Elsewhere(was[ms[k]], i);
      }
    }
  }

  lemma NotesOfMore(ms: States, m: Monitors.State, i: Input)
    ensures Notes(ms + [m], i) == Notes(ms, i) + NoteFrom(m, i)
  {
    assert (ms + [m])[..|ms|] == ms;
  }

  lemma NothingIndexed()
    ensures Distinct([]) && Indexes([], map[])
  {
  }

  lemma OneMoreNote(ms: States, k: nat, i: Input)
    requires k < |ms|
    ensures Notes(ms[..k + 1], i) == Notes(ms[..k], i) + NoteFrom(ms[k], i)
  {
    assert ms[..k + 1][..k] == ms[..k];
  }

  /** What the notifier answers to the k-th notification of a call: an error, or nothing. */
  type Answer = nat -> Option<string>

  function ErrorsIn(answer: Answer, n: nat): seq<string> {
    if n == 0 then [] else ErrorsIn(answer, n - 1) + if answer(n - 1).Some? then [answer(n - 1).value] else []
  }

  class Alerter {
    var ordered: seq<Monitors.Monitor>
    var monitors: map<StreamID, seq<Monitors.Monitor>>

    ghost predicate Valid()
      reads this
    {
      && Distinct(ordered)
      && Indexes(ordered, monitors)
    }

    /** The state of every rule, in configuration order. */
    function Now(): (ms: States)
      reads this, ordered
      ensures |ms| == |ordered|
      ensures forall k :: 0 <= k < |ordered| ==> ms[k] == ordered[k].Now()
    {
      StatesOf(ordered)
    }

    constructor (rules: seq<Rule>)
      ensures Valid()
      ensures forall m :: m in ordered ==> fresh(m)
      ensures Now() == Initial(rules, 0)
    {
      hide OnStream, Distinct, Indexes;
      ordered := [];
      monitors := map[];
      new;
      NothingIndexed();
      for k := 0 to |rules|
        invariant Valid()
        invariant |ordered| == k
        invariant forall m :: m in ordered ==> fresh(m)
        invariant forall j :: 0 <= j < k ==> ordered[j].Now() == Monitors.Fresh(rules[j], 0)
      {
        var r := rules[k];
        var m := new Monitors.Monitor(r);
        IndexOneMore(ordered, monitors, m);
        ordered := ordered + [m];
        monitors := monitors[r.stream := (if r.stream in monitors then monitors[r.stream] else []) + [m]];
      }
    }

    method SetAbsentGrace(d: int)
      requires Valid()
      modifies ordered
      ensures Valid()
      ensures forall k :: 0 <= k < |ordered| ==> Now()[k] == old(Now())[k].(grace := d)
    {
      for k := 0 to |ordered|
        invariant forall j :: 0 <= j < k ==> ordered[j].Now() == old(ordered[j].Now()).(grace := d)
        invariant forall j :: k <= j < |ordered| ==> ordered[j].Now() == old(ordered[j].Now())
      {
        ordered[k].grace := d;
      }
    }

    /** Every rule in configuration order, with its firing state. */
    method Status() returns (out: seq<(Rule, bool)>)
      ensures |out| == |ordered|
      ensures forall k :: 0 <= k < |ordered| ==> out[k] == (Now()[k].rule, Now()[k].fired)
    {
      out := [];
      for k := 0 to |ordered|
        invariant |out| == k
        invariant forall j :: 0 <= j < k ==> out[j] == (Now()[j].rule, Now()[j].fired)
      {
        out := out + [(ordered[k].rule, ordered[k].fired)];
      }
    }

    /** Hands every notification to the notifier, whatever it answered to those before, and collects its errors. */
    method Send(pending: seq<Notification>, answer: Answer) returns (sent: seq<Notification>, errs: seq<string>)
      ensures sent == pending && errs == ErrorsIn(answer, |pending|)
    {
      sent, errs := [], [];
      for k := 0 to |pending|
        invariant sent == pending[..k] && errs == ErrorsIn(answer, k)
      {
        sent := sent + [pending[k]];
        if answer(k).Some? {
          errs := errs + [answer(k).value];
        }
      }
    }

    /** `sent` is what the notifier is given, in order. */
    method Check(now: Time, answer: Answer) returns (sent: seq<Notification>, errs: seq<string>)
      requires Valid()
      modifies ordered
      ensures Valid()
      ensures Now() == StepAll(old(Now()), Tick(now))
      ensures sent == Notes(old(Now()), Tick(now)) && errs == ErrorsIn(answer, |sent|)
    {
      hide Notes, OnStream, Indexes, StatesOf, Monitors.Checked;
      var pending: seq<Notification> := [];
      ghost var was := Now();
      NoNotes(Tick(now));
      for k := 0 to |ordered|
        invariant pending == Notes(was[..k], Tick(now))
        invariant forall j :: 0 <= j < k ==> ordered[j].Now() == StepOne(was[j], Tick(now)).0
        invariant forall j :: k <= j < |ordered| ==> ordered[j].Now() == was[j]
      {
        OneMoreNote(was, k, Tick(now));
        var m := ordered[k];
        var ev := m.Check(now);
        if ev != NoEvent {
          pending := pending + [Notification(m.rule, ev, now, "", "")];
        }
      }
      assert was[..|ordered|] == was;
      sent, errs := Send(pending, answer);
    }

    method Observe(id: StreamID, s: Sample, parse: Parser, answer: Answer)
      returns (sent: seq<Notification>, errs: seq<string>)
      requires Valid()
      modifies ordered
      ensures Valid()
      ensures Now() == StepAll(old(Now()), Arrive(id, s, parse(s.value)))
      ensures sent == Notes(old(Now()), Arrive(id, s, parse(s.value))) && errs == ErrorsIn(answer, |sent|)
    {
      hide OnStream, Notes, StepOne, StepAll, StatesOf, Recall, Distinct, Indexes;
      IndexAt(ordered, monitors, id);
      var on := if id in monitors then monitors[id] else [];
      var value := parse(s.value);
      ghost var i := Arrive(id, s, value);
      if value.None? || |on| == 0 {
        Ignored(Now(), i);
        return [], [];
      }
      ghost var was := map m | m in ordered :: m.Now();
      assert Recall(was, ordered) == Now();
      NotesOfIndexed(was, ordered, i);
      OnStreamDistinct(ordered, id);
      var pending := FeedEach(on, i, s, value.value);
      assert Recall(was, on) == old(StatesOf(on));
      AllHaveStepped(was, ordered, i);
      sent, errs := Send(pending, answer);
    }

    /** The loop of Observe over the monitors of one stream. */
    static method FeedEach(on: seq<Monitors.Monitor>, ghost i: Input, s: Sample, value: real)
      returns (pending: seq<Notification>)
      requires Distinct(on) && i.Arrive? && i.sample == s && i.value == Some(value)
      requires forall k :: 0 <= k < |on| ==> on[k].rule.stream == i.id
      modifies on
      ensures forall k :: 0 <= k < |on| ==> on[k].Now() == StepOne(old(on[k].Now()), i).0
      ensures pending == Notes(old(StatesOf(on)), i)
    {
      hide Notes, StatesOf, Monitors.Observed;
      ghost var mine := StatesOf(on);
      pending := [];
      NoNotes(i);
      for k := 0 to |on|
        invariant pending == Notes(mine[..k], i)
        invariant forall j :: 0 <= j < k ==> on[j].Now() == StepOne(mine[j], i).0
        invariant forall j :: k <= j < |on| ==> on[j].Now() == mine[j]
      {
        OneMoreNote(mine, k, i);
        var m := on[k];
        var ev := m.Observe(s.time, value);
        if ev != NoEvent {
          pending := pending + [Notification(m.rule, ev, s.time, s.value, s.unit)];
        }
      }
      assert mine[..|on|] == mine;
    }
  }

  lemma Elsewhere(m: Monitors.State, i: Input)
    requires i.Arrive? && m.rule.stream != i.id
    ensures StepOne(m, i) == (m, NoEvent)
  {
  }

  lemma NoNotes(i: Input)
    ensures Notes([], i) == []
  {
  }

  /** A sample that does not parse, or that no rule watches, changes nothing and is not reported. */
  lemma {:induction false} Ignored(ms: States, i: Input)
    requires i.Arrive? && (i.value.None? || forall k :: 0 <= k < |ms| ==> ms[k].rule.stream != i.id)
    ensures Notes(ms, i) == [] && StepAll(ms, i) == ms
  {
    if ms != [] {
      Ignored(ms[..|ms| - 1], i);
    }
  }

  // ----- notifications and states -----

  /** Position `k` of the configuration and the notification it sent, for every notification of a step. */
  lemma {:induction false} NoteOrigin(ms: States, i: Input, n: Notification)
    ensures n in Notes(ms, i) <==>
            exists k :: 0 <= k < |ms| && StepOne(ms[k], i).1 != NoEvent
                        && n == NoteOf(ms[k].rule, StepOne(ms[k], i).1, i)
  {
    if ms != [] {
      NoteOrigin(ms[..|ms| - 1], i, n);
    }
  }

  /** The notification tells of rule and event, and when and on what: the sample's time, text and unit, or the time of
    the check and nothing more. */
  ghost predicate TellsOf(n: Notification, rule: Rule, fired: bool, i: Input) {
    && n.rule == rule && n.event == (if fired then Fired else Resolved)
    && (i.Arrive? ==> n.time == i.sample.time && n.value == i.sample.value && n.unit == i.sample.unit)
    && (i.Tick? ==> n.time == i.now && n.value == "" && n.unit == "")
  }

  lemma NoteTells(m: Monitors.State, i: Input)
    ensures NoteFrom(m, i) == [] <==> StepOne(m, i).0.fired == m.fired
    ensures forall n :: n in NoteFrom(m, i) ==> TellsOf(n, m.rule, StepOne(m, i).0.fired, i)
    ensures |NoteFrom(m, i)| <= 1
  {
    hide StepOne;
    EventIsTransition(m, i);
  }

  ghost predicate Changes(m: Monitors.State, i: Input) { StepOne(m, i).0.fired != m.fired }

  /** `notes` tells of the rules at these positions, in order: those whose monitors start or stop firing. */
  ghost predicate SentFrom(ms: States, i: Input, at: seq<nat>, notes: seq<Notification>) {
    && |at| == |notes| && (forall a, b :: 0 <= a < b < |at| ==> at[a] < at[b])
    && (forall k: nat :: k in at <==> k < |ms| && Changes(ms[k], i))
    && forall a :: 0 <= a < |at| ==>
         at[a] < |ms| && TellsOf(notes[a], ms[at[a]].rule, StepOne(ms[at[a]], i).0.fired, i)
  }

  lemma SentOneMore(ms: States, i: Input, at: seq<nat>, notes: seq<Notification>, m: Monitors.State)
    requires SentFrom(ms, i, at, notes)
    ensures !Changes(m, i) ==> SentFrom(ms + [m], i, at, notes)
    ensures forall n :: Changes(m, i) && TellsOf(n, m.rule, StepOne(m, i).0.fired, i) ==>
              SentFrom(ms + [m], i, at + [|ms|], notes + [n])
  {
    hide StepOne, Changes, TellsOf;
    assert forall k: nat :: k in at ==> k < |ms|;
    assert forall k: nat :: k < |ms| ==> (ms + [m])[k] == ms[k];
  }

  /** What a step sends: in configuration order, one notification for each rule whose monitor starts or stops firing. */
  lemma {:induction false} NotesInOrder(ms: States, i: Input) returns (at: seq<nat>)
    ensures SentFrom(ms, i, at, Notes(ms, i))
  {
    at := [];
    if ms != [] {
      hide StepOne, TellsOf, NoteFrom, SentFrom;
      var init, last := ms[..|ms| - 1], ms[|ms| - 1];
      at := NotesInOrder(init, i);
      NoteTells(last, i);
      SentOneMore(init, i, at, Notes(init, i), last);
      assert ms == init + [last];
      var note := NoteFrom(last, i);
      if note == [] {
        assert Notes(init, i) + [] == Notes(init, i);
      } else {
        assert note == [note[0]] && note[0] in note;
        at := at + [|init|];
      }
    }
  }

  /** A monitor sends Fired exactly when it goes from quiet to firing, and Resolved on the way back. */
  lemma EventIsTransition(m: Monitors.State, i: Input)
    ensures StepOne(m, i).1 == Fired <==> !m.fired && StepOne(m, i).0.fired
    ensures StepOne(m, i).1 == Resolved <==> m.fired && !StepOne(m, i).0.fired
    ensures StepOne(m, i).0.rule == m.rule
  {
  }

  lemma {:induction false} RunConcat(ms: States, a: seq<Input>, b: seq<Input>)
    ensures RunAll(ms, a + b) == RunAll(RunAll(ms, a), b)
  {
    hide StepAll;
    if b == [] {
      assert a + b == a;
    } else {
      assert (a + b)[..|a + b| - 1] == a + b[..|b| - 1];
      RunConcat(ms, a, b[..|b| - 1]);
    }
  }
}
