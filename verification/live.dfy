/** The dashboard's live picture (webui/src/live.ts) as a replica of the alerter's state.

  `Live` keeps a set of string keys "path|op|threshold", seeded from the alerter's status and then changed
  only by the events of the feed. The keys are lossy: rules that differ in hold time or channel share one.
  The question is when the colour red nevertheless means that a monitor of that stream is firing. */
module LiveView {
  import opened Domain
  import opened KpiTree
  import AlarmRuns
  import Alerting
  import Monitors
  import opened Paths

  /** A sample as the dashboard receives it; `value` is missing when the text is no number. */
  datatype Point = Point(time: Time, value: Option<real>, raw: string, unit: string)

  datatype Alert = Alert(rule: WireRule, firing: bool)

  datatype WatchEvent = WatchEvent(path: string, sample: Point, alert: Option<Alert>)

  datatype Severity = Red | Amber | Green | Unknown

  /** How a threshold is written inside a key. */
  type Printer = real -> string

  /** These rules' thresholds print differently unless they are equal. */
  ghost predicate TellsApart(num: Printer, rules: seq<Rule>) {
    forall j, k :: 0 <= j < |rules| && 0 <= k < |rules| && num(rules[j].threshold) == num(rules[k].threshold) ==>
      rules[j].threshold == rules[k].threshold
  }

  ghost predicate AllGood(rules: seq<Rule>) {
    forall k :: 0 <= k < |rules| ==> GoodStream(rules[k].stream)
  }

  ghost predicate NoPipes(rules: seq<Rule>) {
    forall k :: 0 <= k < |rules| ==> PipeFree(PathString(rules[k].stream))
  }

  /** What the dashboard's keys need of the rules. */
  ghost predicate Suits(num: Printer, rules: seq<Rule>) {
    TellsApart(num, rules) && AllGood(rules) && NoPipes(rules)
  }

  function RuleKey(num: Printer, r: WireRule): string {
    r.path + ("|" + (OpName(r.op) + ("|" + num(r.threshold))))
  }

  /** What precedes the first "|" of a key. */
  function BeforePipe(s: string): string {
    if s == "" || s[0] == '|' then "" else [s[0]] + BeforePipe(s[1..])
  }

  predicate PipeFree(s: string) { '|' !in s }

  function FiringPaths(keys: set<string>): set<string> {
    set k | k in keys :: BeforePipe(k)
  }

  function KpiStatus(kpi: Kpi, value: Option<real>, firing: set<string>): Severity {
    if kpi.path in firing then Red
    else if value.None? then Unknown
    else if exists k :: 0 <= k < |kpi.rules| && Holds(kpi.rules[k].op, value.value, kpi.rules[k].threshold) then Amber
    else Green
  }

  // ----- windows -----

  /** The last `h` elements. */
  function LastN<T>(xs: seq<T>, h: nat): seq<T> {
    if |xs| <= h then xs else xs[|xs| - h..]
  }

  /** `xs.slice(-h)`: for h = 0 the argument is -0, and everything is kept. */
  function SliceLast<T>(xs: seq<T>, h: nat): seq<T> {
    if h == 0 then xs else LastN(xs, h)
  }

  lemma LastNMore<T>(xs: seq<T>, x: T, h: nat)
    ensures LastN(LastN(xs, h) + [x], h) == LastN(xs + [x], h)
  {
  }

  // ----- the state and its two changes -----

  datatype State = State(kpis: map<string, Kpi>, window: map<string, seq<Point>>, firing: set<string>)

  type Statuses = seq<(WireRule, bool)>

  function RulesIn(ss: Statuses): (rs: seq<WireRule>)
    ensures |rs| == |ss|
    ensures forall k :: 0 <= k < |ss| ==> rs[k] == ss[k].0
  {
    seq(|ss|, k requires 0 <= k < |ss| => ss[k].0)
  }

  function KeysFiring(num: Printer, ss: Statuses): set<string> {
    set k | 0 <= k < |ss| && ss[k].1 :: RuleKey(num, ss[k].0)
  }

  function Loaded(num: Printer, h: nat, before: State, ss: Statuses, cat: string -> seq<Point>): State
    requires AllParse(RulesIn(ss))
  {
    var kpis := KpiTable(RulesIn(ss));
    State(kpis, Seeded(before.window, kpis.Keys, cat, h), KeysFiring(num, ss))
  }

  /** The windows after seeding those of `paths`; paths that are no KPI any more are left behind. */
  function Seeded(window: map<string, seq<Point>>, paths: set<string>,
                  cat: string -> seq<Point>, h: nat): map<string, seq<Point>> {
    window + map p | p in paths :: SliceLast(cat(p), h)
  }

  lemma SeededMore(window: map<string, seq<Point>>, paths: set<string>, cat: string -> seq<Point>, h: nat, p: string)
    ensures Seeded(window, paths + {p}, cat, h) == Seeded(window, paths, cat, h)[p := SliceLast(cat(p), h)]
    ensures Seeded(window, {}, cat, h) == window
  {
  }

  function Recent(st: State, path: string): seq<Point> { if path in st.window then st.window[path] else [] }

  function Handled(num: Printer, h: nat, st: State, ev: WatchEvent): State {
    if ev.path !in st.kpis then st
    else
      match ev.alert
      case Some(a) =>
        st.(firing := if a.firing then st.firing + {RuleKey(num, a.rule)} else st.firing - {RuleKey(num, a.rule)})
      case None => st.(window := st.window[ev.path := LastN(Recent(st, ev.path) + [ev.sample], h)])
  }

  function LatestValue(st: State, path: string): Option<real> {
    var r := Recent(st, path);
    if r == [] then None else r[|r| - 1].value
  }

  function Status(st: State, path: string): Severity {
    if path !in st.kpis then Unknown else KpiStatus(st.kpis[path], LatestValue(st, path), FiringPaths(st.firing))
  }

  /** What asking the system of record for the rules and their states came to. */
  datatype Fetched = Answered(states: Statuses) | Failed(message: string)

  class Live {
    var tree: seq<Namespace>
    var lastError: Option<string>
    var kpis: map<string, Kpi>
    var window: map<string, seq<Point>>
    var firingRules: set<string>
    const history: nat
    const num: Printer

    function Now(): State
      reads this
    {
      State(kpis, window, firingRules)
    }

    constructor (history: nat, num: Printer)
      ensures this.history == history && this.num == num && Now() == State(map[], map[], {}) && lastError == None
    {
      this.history, this.num := history, num;
      tree, lastError, kpis, window, firingRules := [], None, map[], map[], {};
    }

    /** Rebuilds everything from the alerter's status. When that cannot be had, or when a rule's path does not parse, it
      throws before anything but `lastError` changes. */
    method Load(fetched: Fetched, cat: string -> seq<Point>) returns (ok: bool)
      modifies this
      ensures ok <==> fetched.Answered? && AllParse(RulesIn(fetched.states))
      ensures ok ==>
                && tree == Grouped(RulesIn(fetched.states))
                && Now() == Loaded(num, history, old(Now()), fetched.states, cat)
      ensures !ok ==> Now() == old(Now()) && tree == old(tree)
      ensures lastError == if fetched.Failed? then Some(fetched.message) else None
    {
      hide KeysFiring, KpiTable, Grouped, RulesIn, RuleKey;
      if fetched.Failed? {
        lastError := Some(fetched.message);
        return false;
      }
      lastError := None;
      var states := fetched.states;
      var rules := RulesIn(states);
      var built := BuildTree(rules);
      if built.None? {
        return false;
      }
      tree := built.value;
      kpis := IndexKpis(tree);
      IndexIsKpis(rules, kpis);
      SeedFiring(states);
      SeedWindows(cat);
      return true;
    }

    method SeedFiring(states: Statuses)
      modifies this`firingRules
      ensures firingRules == KeysFiring(num, states)
    {
      hide KeysFiring, RuleKey;
      firingRules := {};
      NoKeys(num);
      for k := 0 to |states|
        invariant firingRules == KeysFiring(num, states[..k])
      {
        if states[k].1 {
          firingRules := firingRules + {RuleKey(num, states[k].0)};
        }
        assert states[..k + 1] == states[..k] + [states[k]];
        OneMoreKey(num, states[..k], states[k]);
      }
      assert states[..|states|] == states;
    }

    method SeedWindows(cat: string -> seq<Point>)
      modifies this`window
      ensures window == Seeded(old(window), kpis.Keys, cat, history)
    {
      hide Seeded, SliceLast;
      SeededMore(window, {}, cat, history, "");
      var paths := kpis.Keys;
      var todo := paths;
      assert paths - todo == {};
      while todo != {}
        invariant todo <= paths
        invariant window == Seeded(old(window), paths - todo, cat, history)
        decreases |todo|
      {
        var p :| p in todo;
        SeededMore(old(window), paths - todo, cat, history, p);
        assert paths - (todo - {p}) == (paths - todo) + {p};
        todo := todo - {p};
        window := window[p := SliceLast(cat(p), history)];
      }
      assert paths - todo == paths;
    }

    method Handle(ev: WatchEvent)
      modifies this`window, this`firingRules
      ensures Now() == Handled(num, history, old(Now()), ev)
    {
      if ev.path !in kpis {
        return;
      }
      match ev.alert {
        case Some(a) =>
          var key := RuleKey(num, a.rule);
          if a.firing {
            firingRules := firingRules + {key};
          } else {
            firingRules := firingRules - {key};
          }
        case None =>
          var win := (if ev.path in window then window[ev.path] else []) + [ev.sample];
          if |win| > history {
            win := win[|win| - history..];
          }
          window := window[ev.path := win];
      }
    }
  }

  lemma NoKeys(num: Printer)
    ensures KeysFiring(num, []) == {}
  {
  }

  lemma OneMoreKey(num: Printer, ss: Statuses, s: (WireRule, bool))
    ensures KeysFiring(num, ss + [s]) == KeysFiring(num, ss) + if s.1 then {RuleKey(num, s.0)} else {}
  {
    var all := ss + [s];
    forall key
      ensures key in KeysFiring(num, all) <==> key in KeysFiring(num, ss) || (s.1 && key == RuleKey(num, s.0))
    {
      if key in KeysFiring(num, ss) {
        var k :| 0 <= k < |ss| && ss[k].1 && RuleKey(num, ss[k].0) == key;
        assert all[k] == ss[k];
      }
      assert all[|ss|] == s;
    }
  }

  // ----- the window of each KPI -----

  function HandleAll(num: Printer, h: nat, st: State, evs: seq<WatchEvent>): State {
    if evs == [] then st else Handled(num, h, HandleAll(num, h, st, evs[..|evs| - 1]), evs[|evs| - 1])
  }

  /** The samples delivered for a path; alert events carry one too, but it is not a new sample. */
  function Delivered(path: string, evs: seq<WatchEvent>): seq<Point> {
    if evs == [] then []
    else
      var last := evs[|evs| - 1];
      Delivered(path, evs[..|evs| - 1]) + if last.path == path && last.alert.None? then [last.sample] else []
  }

  lemma {:induction false} HandleKeepsKpis(num: Printer, h: nat, st: State, evs: seq<WatchEvent>)
    ensures HandleAll(num, h, st, evs).kpis == st.kpis
  {
    if evs != [] {
      HandleKeepsKpis(num, h, st, evs[..|evs| - 1]);
    }
  }

  lemma {:induction false} WindowAfter(num: Printer, h: nat, st: State, evs: seq<WatchEvent>,
                                       path: string, seed: seq<Point>)
    requires path in st.kpis && Recent(st, path) == LastN(seed, h)
    ensures Recent(HandleAll(num, h, st, evs), path) == LastN(seed + Delivered(path, evs), h)
  {
    if evs == [] {
      assert seed + [] == seed;
    } else {
      var init, last := evs[..|evs| - 1], evs[|evs| - 1];
      WindowAfter(num, h, st, init, path, seed);
      HandleKeepsKpis(num, h, st, init);
      var got := seed + Delivered(path, init);
      if last.path == path && last.alert.None? {
        LastNMore(got, last.sample, h);
        assert got + [last.sample] == seed + Delivered(path, evs);
      } else {
        assert seed + Delivered(path, evs) == got;
      }
    }
  }

  /** The events on these paths. */
  function OnPaths(evs: seq<WatchEvent>, paths: set<string>): seq<WatchEvent> {
    if evs == [] then []
    else OnPaths(evs[..|evs| - 1], paths) + if evs[|evs| - 1].path in paths then [evs[|evs| - 1]] else []
  }

  /** Events on other paths than those of the KPIs have no effect at all. */
  lemma {:induction false} StrangersAreIgnored(num: Printer, h: nat, st: State, evs: seq<WatchEvent>)
    ensures HandleAll(num, h, st, evs) == HandleAll(num, h, st, OnPaths(evs, st.kpis.Keys))
  {
    hide LastN;
    if evs != [] {
      var init, last := evs[..|evs| - 1], evs[|evs| - 1];
      var known := OnPaths(init, st.kpis.Keys);
      StrangersAreIgnored(num, h, st, init);
      HandleKeepsKpis(num, h, st, init);
      assert (known + [last])[..|known|] == known;
      assert known + [] == known;
    }
  }

  /** Nothing is known of a path that no rule is on. */
  lemma NoRuleNoColour(num: Printer, h: nat, before: State, ss: Statuses, cat: string -> seq<Point>,
                       evs: seq<WatchEvent>, path: string)
    requires AllParse(RulesIn(ss)) && forall k :: 0 <= k < |ss| ==> ss[k].0.path != path
    ensures Status(HandleAll(num, h, Loaded(num, h, before, ss, cat), evs), path) == Unknown
  {
    hide Seeded, KeysFiring, KpiStatus, FiringPaths;
    HandleKeepsKpis(num, h, Loaded(num, h, before, ss, cat), evs);
  }

  /** The last `h` of a sequence: its end, as long as that, or all of it when it is shorter. */
  lemma LastNIs<T>(xs: seq<T>, h: nat)
    ensures |LastN(xs, h)| == if |xs| <= h then |xs| else h
    ensures LastN(xs, h) == xs[|xs| - |LastN(xs, h)|..]
  {
  }

  /** The path of a well-formed metrics stream is one the dashboard can parse. */
  lemma StreamParses(id: StreamID)
    requires GoodStream(id)
    ensures Paths.TsParse(PathString(id)) == Some(Paths.Parts(id.ns, id.svc, id.name))
  {
    Paths.ParseOfPrint(Paths.PathOf(id));
    Paths.ParsersAgree(PathString(id), Paths.Parts(id.ns, id.svc, id.name));
  }

  lemma SamePathSameStream(a: StreamID, b: StreamID)
    requires GoodStream(a) && GoodStream(b)
    ensures PathString(a) == PathString(b) ==> a == b
  {
    if PathString(a) == PathString(b) {
      Paths.PrintInjective(Paths.PathOf(a), Paths.PathOf(b));
    }
  }

  /** A metrics stream as the rule parser makes them. */
  predicate GoodStream(id: StreamID) {
    Paths.WellFormed(Paths.PathOf(id)) && id.kind == Metrics && id.name != ""
  }

  ghost predicate WindowsKept(num: Printer, h: nat) {
    forall before: State, ss: Statuses, cat: string -> seq<Point>, evs: seq<WatchEvent>, path: string ::
      AllParse(RulesIn(ss)) && path in KpiTable(RulesIn(ss)) ==>
        var st := HandleAll(num, h, Loaded(num, h, before, ss, cat), evs);
        Recent(st, path) == LastN(cat(path) + Delivered(path, evs), h)
  }

  /** The window of every KPI is the last `h` of its seed and what was delivered since, exactly when h is at least one:
    with no history asked for, loading keeps the whole stream instead. */
  lemma WindowsKeptIff(num: Printer, h: nat)
    ensures WindowsKept(num, h) <==> h >= 1
  {
    hide Paths.TsParse;
    if h >= 1 {
      forall before: State, ss: Statuses, cat: string -> seq<Point>, evs: seq<WatchEvent>, path: string
        | AllParse(RulesIn(ss)) && path in KpiTable(RulesIn(ss))
        ensures var st := HandleAll(num, h, Loaded(num, h, before, ss, cat), evs);
                Recent(st, path) == LastN(cat(path) + Delivered(path, evs), h)
      {
        WindowAfter(num, h, Loaded(num, h, before, ss, cat), evs, path, cat(path));
      }
    } else {
      var id := StreamID("a", "b", Metrics, "c");
      var rule := WireRule(PathString(id), Greater, 0.0, 0, "");
      StreamParses(id);
      var ss: Statuses := [(rule, false)];
      var before := State(map[], map[], {});
      var cat := (p: string) => [Point(1, None, "", "")];
      assert RulesIn(ss)[0] == rule;
      var loaded := Loaded(num, h, before, ss, cat);
      assert HandleAll(num, h, loaded, []) == loaded;
      assert Recent(loaded, rule.path) == cat(rule.path);
      assert cat(rule.path) + Delivered(rule.path, []) == cat(rule.path);
      assert |LastN(cat(rule.path), 0)| == 0;
    }
  }

  // ----- keys -----

  lemma {:induction false} BeforePipeOf(a: string, rest: string)
    ensures PipeFree(BeforePipe(a))
    ensures PipeFree(a) ==> BeforePipe(a + ("|" + rest)) == a
  {
    var s := a + ("|" + rest);
    if a != "" {
      BeforePipeOf(a[1..], rest);
      assert s[0] == a[0] && s[1..] == a[1..] + ("|" + rest) && a == [a[0]] + a[1..];
    }
  }

  lemma SplitAtPipe(a: string, b: string, x: string, y: string)
    requires PipeFree(a) && PipeFree(b) && a + ("|" + x) == b + ("|" + y)
    ensures a == b && x == y
  {
    BeforePipeOf(a, x);
    BeforePipeOf(b, y);
    assert (a + ("|" + x))[|a| + 1..] == x && (b + ("|" + y))[|b| + 1..] == y;
  }

  lemma OpNameInjective(a: Op, b: Op)
    ensures PipeFree(OpName(a)) && (OpName(a) == OpName(b) ==> a == b)
  {
  }

  /** Rules with one key differ at most in hold time and channel. */
  lemma KeysMeetIff(num: Printer, a: WireRule, b: WireRule)
    requires PipeFree(a.path) && PipeFree(b.path)
    requires num(a.threshold) == num(b.threshold) ==> a.threshold == b.threshold
    ensures RuleKey(num, a) == RuleKey(num, b) <==> a.path == b.path && a.op == b.op && a.threshold == b.threshold
  {
    if RuleKey(num, a) == RuleKey(num, b) {
      var ra, rb := OpName(a.op) + ("|" + num(a.threshold)), OpName(b.op) + ("|" + num(b.threshold));
      SplitAtPipe(a.path, b.path, ra, rb);
      OpNameInjective(a.op, b.op);
      OpNameInjective(b.op, a.op);
      SplitAtPipe(OpName(a.op), OpName(b.op), num(a.threshold), num(b.threshold));
    }
  }

  // ----- what the alerter sends -----

  function WireOf(r: Rule): WireRule { WireRule(PathString(r.stream), r.op, r.threshold, r.hold, r.channel) }

  /** An alert as the dashboard receives it; the sample that comes with it is shown but not kept. */
  function WatchAlert(n: Notification): WatchEvent {
    WatchEvent(PathString(n.rule.stream), Point(n.time, None, n.value, n.unit),
               Some(Alert(WireOf(n.rule), n.event == Fired)))
  }

  function WatchAlerts(ns: seq<Notification>): (evs: seq<WatchEvent>)
    ensures |evs| == |ns|
    ensures forall k :: 0 <= k < |ns| ==> evs[k] == WatchAlert(ns[k])
  {
    seq(|ns|, k requires 0 <= k < |ns| => WatchAlert(ns[k]))
  }

  /** What one arrival or check puts on the feed: the sample first, then the alerts it caused. */
  function FeedOf(ms: Alerting.States, i: Alerting.Input): seq<WatchEvent> {
    (match i
     case Arrive(id, s, v) => [WatchEvent(PathString(id), Point(s.time, v, s.value, s.unit), None)]
     case Tick(_) => [])
    + WatchAlerts(Alerting.Notes(ms, i))
  }

  function StatusesOf(ms: Alerting.States): (ss: Statuses)
    ensures |ss| == |ms|
    ensures forall k :: 0 <= k < |ms| ==> ss[k] == (WireOf(ms[k].rule), ms[k].fired)
  {
    seq(|ms|, k requires 0 <= k < |ms| => (WireOf(ms[k].rule), ms[k].fired))
  }

  // ----- one input, fully delivered -----

  function KeyOf(num: Printer, m: Monitors.State): string { RuleKey(num, WireOf(m.rule)) }

  ghost predicate SomeFiring(num: Printer, ms: Alerting.States, key: string) {
    exists k :: 0 <= k < |ms| && ms[k].fired && KeyOf(num, ms[k]) == key
  }

  /** The replica holds a key exactly when some monitor with that key is firing. */
  ghost predicate Replicates(num: Printer, ms: Alerting.States, firing: set<string>) {
    forall key :: key in firing <==> SomeFiring(num, ms, key)
  }

  lemma SameKeySameStream(num: Printer, a: Rule, b: Rule)
    requires num(a.threshold) == num(b.threshold) ==> a.threshold == b.threshold
    requires PipeFree(PathString(a.stream)) && PipeFree(PathString(b.stream))
    ensures GoodStream(a.stream) && GoodStream(b.stream) && RuleKey(num, WireOf(a)) == RuleKey(num, WireOf(b)) ==>
              a.stream == b.stream && a.op == b.op && a.threshold == b.threshold
  {
    hide PathString, GoodStream, PipeFree, RuleKey;
    KeysMeetIff(num, WireOf(a), WireOf(b));
    if GoodStream(a.stream) && GoodStream(b.stream) {
      SamePathSameStream(a.stream, b.stream);
    }
  }

  /** Monitors that share stream, operator and threshold resolve on the same sample, whatever their hold times. */
  lemma ResolveTogether(a: Monitors.State, b: Monitors.State, i: Alerting.Input)
    requires a.rule.stream == b.rule.stream && a.rule.op == b.rule.op && a.rule.threshold == b.rule.threshold
    requires Alerting.StepOne(a, i).1 == Resolved
    ensures !Alerting.StepOne(b, i).0.fired && Alerting.StepOne(b, i).1 != Fired
  {
  }

  /** What delivering alert events does to one key, when they agree about it. */
  lemma {:induction false} KeyAfter(num: Printer, h: nat, st: State, ns: seq<Notification>, key: string, ev: Event)
    requires forall k :: 0 <= k < |ns| ==> PathString(ns[k].rule.stream) in st.kpis
    requires forall k :: 0 <= k < |ns| && NoteKey(num, ns[k]) == key ==> ns[k].event == ev
    ensures key in HandleAll(num, h, st, WatchAlerts(ns)).firing <==>
              if Mentions(num, ns, key) then ev == Fired else key in st.firing
  {
    hide RuleKey, PathString;
    if ns != [] {
      var init, last := ns[..|ns| - 1], ns[|ns| - 1];
      assert WatchAlerts(ns)[..|ns| - 1] == WatchAlerts(init);
      KeyAfter(num, h, st, init, key, ev);
      HandleKeepsKpis(num, h, st, WatchAlerts(init));
      assert Mentions(num, ns, key) <==> Mentions(num, init, key) || NoteKey(num, last) == key;
    }
  }

  function NoteKey(num: Printer, n: Notification): string { RuleKey(num, WireOf(n.rule)) }

  ghost predicate Mentions(num: Printer, ns: seq<Notification>, key: string) {
    exists k :: 0 <= k < |ns| && NoteKey(num, ns[k]) == key
  }

  // ----- agreement -----

  /** All notifications of one step that carry a key say the same, and it is the new state of the monitors behind it. */
  lemma NotesAgreeOnKey(num: Printer, ms: Alerting.States, i: Alerting.Input, j: nat, k: nat)
    requires Suits(num, Alerting.RulesOf(ms))
    requires j < |ms| && k < |ms|
    ensures var ev := Alerting.StepOne(ms[j], i).1;
            KeyOf(num, ms[j]) == KeyOf(num, ms[k]) && ev != NoEvent ==>
              && Alerting.StepOne(ms[k], i).1 in {NoEvent, ev}
              && (Alerting.StepOne(ms[j], i).0.fired <==> ev == Fired)
              && (ev == Resolved ==> !Alerting.StepOne(ms[k], i).0.fired)
  {
    hide Alerting.StepOne, RuleKey, PathString;
    SameKeySameStream(num, ms[j].rule, ms[k].rule);
    Alerting.EventIsTransition(ms[j], i);
    Alerting.EventIsTransition(ms[k], i);
    if KeyOf(num, ms[j]) == KeyOf(num, ms[k]) {
      if Alerting.StepOne(ms[j], i).1 == Resolved {
        ResolveTogether(ms[j], ms[k], i);
      } else if Alerting.StepOne(ms[k], i).1 == Resolved {
        ResolveTogether(ms[k], ms[j], i);
      }
    }
  }

  ghost predicate Knows(st: State, ms: Alerting.States) {
    forall k :: 0 <= k < |ms| ==> PathString(ms[k].rule.stream) in st.kpis
  }

  /** One note of a step, traced to the monitor that sent it. */
  lemma NoteSender(num: Printer, ms: Alerting.States, i: Alerting.Input, n: Notification) returns (k: nat)
    requires n in Alerting.Notes(ms, i)
    ensures k < |ms| && Alerting.StepOne(ms[k], i).1 == n.event != NoEvent
    ensures KeyOf(num, ms[k]) == NoteKey(num, n) && n.rule == ms[k].rule
  {
    hide Alerting.StepOne, RuleKey, PathString;
    Alerting.NoteOrigin(ms, i, n);
    k :| 0 <= k < |ms| && Alerting.StepOne(ms[k], i).1 != NoEvent
      && n == Alerting.NoteOf(ms[k].rule, Alerting.StepOne(ms[k], i).1, i);
  }

  lemma KeyStep(num: Printer, h: nat, ms: Alerting.States, st: State, i: Alerting.Input, key: string)
    requires Suits(num, Alerting.RulesOf(ms)) && Knows(st, ms)
    requires key in st.firing <==> SomeFiring(num, ms, key)
    ensures key in HandleAll(num, h, st, WatchAlerts(Alerting.Notes(ms, i))).firing
            <==> SomeFiring(num, Alerting.StepAll(ms, i), key)
  {
    hide Alerting.StepOne, Alerting.Notes, RuleKey, PathString, HandleAll, WatchAlerts;
    var ns, ms' := Alerting.Notes(ms, i), Alerting.StepAll(ms, i);
    forall k | 0 <= k < |ms| ensures KeyOf(num, ms'[k]) == KeyOf(num, ms[k]) {
      Alerting.EventIsTransition(ms[k], i);
    }
    forall k | 0 <= k < |ns| ensures PathString(ns[k].rule.stream) in st.kpis {
      var s := NoteSender(num, ms, i, ns[k]);
    }
    if Mentions(num, ns, key) {
      var m :| 0 <= m < |ns| && NoteKey(num, ns[m]) == key;
      var j := NoteSender(num, ms, i, ns[m]);
      var ev := ns[m].event;
      forall k | 0 <= k < |ns| && NoteKey(num, ns[k]) == key ensures ns[k].event == ev {
        var s := NoteSender(num, ms, i, ns[k]);
        NotesAgreeOnKey(num, ms, i, j, s);
      }
      KeyAfter(num, h, st, ns, key, ev);
      forall k | 0 <= k < |ms| && KeyOf(num, ms[k]) == key && ev == Resolved ensures !ms'[k].fired {
        NotesAgreeOnKey(num, ms, i, j, k);
      }
      NotesAgreeOnKey(num, ms, i, j, j);
      assert ev == Fired ==> ms'[j].fired;
    } else {
      KeyAfter(num, h, st, ns, key, Fired);
      forall k | 0 <= k < |ms| && KeyOf(num, ms[k]) == key ensures ms'[k].fired == ms[k].fired {
        Alerting.EventIsTransition(ms[k], i);
        SilentUnlessMentioned(num, ms, i, k);
      }
    }
  }

  lemma SilentUnlessMentioned(num: Printer, ms: Alerting.States, i: Alerting.Input, k: nat)
    requires k < |ms| && !Mentions(num, Alerting.Notes(ms, i), KeyOf(num, ms[k]))
    ensures Alerting.StepOne(ms[k], i).1 == NoEvent
  {
    hide Alerting.StepOne, Alerting.Notes, RuleKey, PathString;
    var n := Alerting.NoteOf(ms[k].rule, Alerting.StepOne(ms[k], i).1, i);
    Alerting.NoteOrigin(ms, i, n);
    assert NoteKey(num, n) == KeyOf(num, ms[k]);
  }

  lemma {:induction false} HandleConcat(num: Printer, h: nat, st: State, a: seq<WatchEvent>, b: seq<WatchEvent>)
    ensures HandleAll(num, h, st, a + b) == HandleAll(num, h, HandleAll(num, h, st, a), b)
  {
    if b == [] {
      assert a + b == a;
    } else {
      HandleConcat(num, h, st, a, b[..|b| - 1]);
      assert (a + b)[..|a + b| - 1] == a + b[..|b| - 1];
    }
  }

  lemma StepReplicates(num: Printer, h: nat, ms: Alerting.States, st: State, i: Alerting.Input)
    requires Suits(num, Alerting.RulesOf(ms)) && Knows(st, ms)
    requires Replicates(num, ms, st.firing)
    ensures Replicates(num, Alerting.StepAll(ms, i), HandleAll(num, h, st, FeedOf(ms, i)).firing)
  {
    hide Alerting.StepAll, Alerting.Notes, RuleKey, PathString, WatchAlerts, FeedOf, HandleAll, SomeFiring;
    var alerts := WatchAlerts(Alerting.Notes(ms, i));
    var first := FeedSplits(ms, i);
    SampleOnly(num, h, st, first);
    var st' := HandleAll(num, h, st, first);
    HandleConcat(num, h, st, first, alerts);
    forall key ensures key in HandleAll(num, h, st', alerts).firing <==> SomeFiring(num, Alerting.StepAll(ms, i), key) {
      assert key in st.firing <==> SomeFiring(num, ms, key);
      KeyStep(num, h, ms, st', i, key);
    }
  }

  lemma FeedSplits(ms: Alerting.States, i: Alerting.Input) returns (first: seq<WatchEvent>)
    ensures FeedOf(ms, i) == first + WatchAlerts(Alerting.Notes(ms, i))
    ensures |first| <= 1 && forall k :: 0 <= k < |first| ==> first[k].alert.None?
  {
    first := match i
      case Arrive(id, s, v) => [WatchEvent(PathString(id), Point(s.time, v, s.value, s.unit), None)]
      case Tick(_) => [];
  }

  lemma SampleOnly(num: Printer, h: nat, st: State, evs: seq<WatchEvent>)
    requires |evs| <= 1 && forall k :: 0 <= k < |evs| ==> evs[k].alert.None?
    ensures HandleAll(num, h, st, evs).firing == st.firing && HandleAll(num, h, st, evs).kpis == st.kpis
  {
    if evs != [] {
      assert evs[..0] == [];
    }
  }

  /** The dashboard after a run of inputs, each fully delivered before the next. */
  function Deliver(num: Printer, h: nat, ms: Alerting.States, st: State, ins: seq<Alerting.Input>): State {
    if ins == [] then st
    else
      var init := ins[..|ins| - 1];
      HandleAll(num, h, Deliver(num, h, ms, st, init), FeedOf(Alerting.RunAll(ms, init), ins[|ins| - 1]))
  }

  lemma {:induction false} RunReplicates(num: Printer, h: nat, ms: Alerting.States, st: State, ins: seq<Alerting.Input>)
    requires Suits(num, Alerting.RulesOf(ms)) && Knows(st, ms)
    requires Replicates(num, ms, st.firing)
    ensures Replicates(num, Alerting.RunAll(ms, ins), Deliver(num, h, ms, st, ins).firing)
    ensures Deliver(num, h, ms, st, ins).kpis == st.kpis
  {
    hide Alerting.StepOne, Alerting.StepAll, RuleKey, PathString, FeedOf, Replicates, HandleAll;
    if ins != [] {
      var init, last := ins[..|ins| - 1], ins[|ins| - 1];
      var now, mid := Alerting.RunAll(ms, init), Deliver(num, h, ms, st, init);
      RunReplicates(num, h, ms, st, init);
      Alerting.RunKeepsRules(ms, init);
      StepReplicates(num, h, now, mid, last);
      HandleKeepsKpis(num, h, mid, FeedOf(now, last));
    }
  }

  lemma KeysFiringReplicate(num: Printer, ms: Alerting.States)
    ensures Replicates(num, ms, KeysFiring(num, StatusesOf(ms)))
  {
    hide RuleKey;
    var ss := StatusesOf(ms);
    forall key ensures key in KeysFiring(num, ss) <==> SomeFiring(num, ms, key) {
      if SomeFiring(num, ms, key) {
        var k :| 0 <= k < |ms| && ms[k].fired && KeyOf(num, ms[k]) == key;
        assert ss[k].1 && RuleKey(num, ss[k].0) == key;
      }
    }
  }

  /** Loading from the alerter's status is a consistent start. */
  lemma LoadReplicates(num: Printer, h: nat, before: State, ms: Alerting.States, cat: string -> seq<Point>)
    requires AllGood(Alerting.RulesOf(ms))
    ensures AllParse(RulesIn(StatusesOf(ms)))
    ensures var st := Loaded(num, h, before, StatusesOf(ms), cat); Replicates(num, ms, st.firing) && Knows(st, ms)
  {
    hide RuleKey, PathString, Paths.TsParse, GoodStream;
    var ss := StatusesOf(ms);
    forall k | 0 <= k < |ss| ensures Parses(RulesIn(ss)[k]) {
      StreamParses(ms[k].rule.stream);
    }
    var st := Loaded(num, h, before, ss, cat);
    forall k | 0 <= k < |ms| ensures PathString(ms[k].rule.stream) in st.kpis {
      assert RulesIn(ss)[k].path in KpiTable(RulesIn(ss));
    }
    KeysFiringReplicate(num, ms);
  }

  /** Some monitor on the stream with this path is firing. */
  ghost predicate PathFiring(ms: Alerting.States, path: string) {
    exists k :: 0 <= k < |ms| && ms[k].fired && PathString(ms[k].rule.stream) == path
  }

  /** A path is red as it should be when the replica is right about the keys that begin with it. */
  lemma RedIff(num: Printer, st: State, ms: Alerting.States, path: string)
    requires forall key :: BeforePipe(key) == path ==> (key in st.firing <==> SomeFiring(num, ms, key))
    requires NoPipes(Alerting.RulesOf(ms)) && path in st.kpis && st.kpis[path].path == path
    ensures Status(st, path) == Red <==> PathFiring(ms, path)
  {
    hide PathString;
    if path in FiringPaths(st.firing) {
      var key :| key in st.firing && BeforePipe(key) == path;
      assert SomeFiring(num, ms, key);
      var k :| 0 <= k < |ms| && ms[k].fired && KeyOf(num, ms[k]) == key;
      BeforePipeOf(PathString(ms[k].rule.stream), OpName(ms[k].rule.op) + ("|" + num(ms[k].rule.threshold)));
    }
    if PathFiring(ms, path) {
      var k :| 0 <= k < |ms| && ms[k].fired && PathString(ms[k].rule.stream) == path;
      BeforePipeOf(path, OpName(ms[k].rule.op) + ("|" + num(ms[k].rule.threshold)));
      assert SomeFiring(num, ms, KeyOf(num, ms[k]));
    }
  }

  /** Load at any point of a run that can occur, then deliver the rest in order: on every rule's path the dashboard is
    red exactly when some monitor of that path is firing. */
  ghost predicate AlwaysAgrees(parse: Alerting.Parser, begin: Time, num: Printer, h: nat,
                               rules: seq<Rule>, grace: int, before: State, cat: string -> seq<Point>) {
    forall pre: seq<Alerting.Input>, post: seq<Alerting.Input>, k ::
      AlarmRuns.CanOccur(parse, begin, pre + post) && 0 <= k < |rules| ==>
        AgreesAfter(num, h, rules, grace, before, cat, pre, post, PathString(rules[k].stream))
  }

  ghost predicate AgreesAfter(num: Printer, h: nat, rules: seq<Rule>, grace: int,
                              before: State, cat: string -> seq<Point>,
                              pre: seq<Alerting.Input>, post: seq<Alerting.Input>, path: string) {
    var atLoad := Alerting.RunAll(Alerting.Initial(rules, grace), pre);
    && AllParse(RulesIn(StatusesOf(atLoad)))
    && var st := Deliver(num, h, atLoad, Loaded(num, h, before, StatusesOf(atLoad), cat), post);
       Status(st, path) == Red <==> PathFiring(Alerting.RunAll(atLoad, post), path)
  }

  lemma LoadedLists(num: Printer, h: nat, before: State, ss: Statuses, cat: string -> seq<Point>, j: nat)
    requires AllParse(RulesIn(ss)) && j < |ss|
    ensures var kpis := Loaded(num, h, before, ss, cat).kpis;
            var path := ss[j].0.path;
            path in kpis && kpis[path].path == path
  {
    assert RulesIn(ss)[j].path in KpiTable(RulesIn(ss));
  }

  /** A replica stays right about a path while a run is delivered to it. */
  lemma RedAfterRun(num: Printer, h: nat, ms: Alerting.States, st: State, ins: seq<Alerting.Input>, path: string)
    requires Suits(num, Alerting.RulesOf(ms)) && Knows(st, ms) && Replicates(num, ms, st.firing)
    requires path in st.kpis && st.kpis[path].path == path
    ensures Status(Deliver(num, h, ms, st, ins), path) == Red <==> PathFiring(Alerting.RunAll(ms, ins), path)
  {
    hide Knows, SomeFiring, Status, PathFiring, TellsApart, AllGood, NoPipes, Deliver, Alerting.RunAll;
    RunReplicates(num, h, ms, st, ins);
    Alerting.RulesStay(ms, ins);
    RedIff(num, Deliver(num, h, ms, st, ins), Alerting.RunAll(ms, ins), path);
  }

  lemma AgreesWithoutPipes(num: Printer, h: nat, rules: seq<Rule>, grace: int, before: State, cat: string -> seq<Point>,
                           pre: seq<Alerting.Input>, post: seq<Alerting.Input>, j: nat)
    requires Suits(num, rules) && j < |rules|
    ensures AgreesAfter(num, h, rules, grace, before, cat, pre, post, PathString(rules[j].stream))
  {
    hide PathString, Status, Replicates, Knows, PathFiring, TellsApart, AllGood, NoPipes, AllParse, Loaded, Deliver,
      Alerting.RunAll;
    var atLoad := Alerting.RunAll(Alerting.Initial(rules, grace), pre);
    Alerting.RulesStay(Alerting.Initial(rules, grace), pre);
    assert Alerting.RulesOf(atLoad) == rules;
    LoadReplicates(num, h, before, atLoad, cat);
    var ss := StatusesOf(atLoad);
    LoadedLists(num, h, before, ss, cat, j);
    assert ss[j].0.path == PathString(rules[j].stream);
    RedAfterRun(num, h, atLoad, Loaded(num, h, before, ss, cat), post, PathString(rules[j].stream));
  }

  /** Everything the feed carries during a run. */
  function FeedRun(ms: Alerting.States, ins: seq<Alerting.Input>): seq<WatchEvent> {
    if ins == [] then []
    else FeedRun(ms, ins[..|ins| - 1]) + FeedOf(Alerting.RunAll(ms, ins[..|ins| - 1]), ins[|ins| - 1])
  }

  /** The samples of a run that arrive on a stream with this path, as the dashboard keeps them. */
  function ArrivalsOn(path: string, ins: seq<Alerting.Input>): seq<Point> {
    if ins == [] then []
    else
      ArrivalsOn(path, ins[..|ins| - 1]) +
      match ins[|ins| - 1]
      case Arrive(id, s, v) => if PathString(id) == path then [Point(s.time, v, s.value, s.unit)] else []
      case Tick(_) => []
  }

  lemma {:induction false} DeliveredConcat(path: string, a: seq<WatchEvent>, b: seq<WatchEvent>)
    ensures Delivered(path, a + b) == Delivered(path, a) + Delivered(path, b)
  {
    if b == [] {
      assert a + b == a;
    } else {
      assert (a + b)[..|a + b| - 1] == a + b[..|b| - 1];
      DeliveredConcat(path, a, b[..|b| - 1]);
    }
  }

  lemma {:induction false} NoSamplesInAlerts(path: string, evs: seq<WatchEvent>)
    requires forall k :: 0 <= k < |evs| ==> evs[k].alert.Some?
    ensures Delivered(path, evs) == []
  {
    if evs != [] {
      NoSamplesInAlerts(path, evs[..|evs| - 1]);
    }
  }

  lemma FirstDelivered(path: string, e: WatchEvent)
    ensures Delivered(path, [e]) == if e.path == path && e.alert.None? then [e.sample] else []
    ensures Delivered(path, []) == []
  {
    assert [e][..0] == [];
  }

  /** What is delivered for a path during a run is what arrived there: every sample once, in order, and nothing else. */
  lemma {:induction false} DeliveredIsWhatArrived(path: string, ms: Alerting.States, ins: seq<Alerting.Input>)
    ensures Delivered(path, FeedRun(ms, ins)) == ArrivalsOn(path, ins)
  {
    hide PathString, Delivered, Alerting.Notes, Alerting.RunAll;
    if ins == [] {
      NoSamplesInAlerts(path, []);
    } else {
      var init, i := ins[..|ins| - 1], ins[|ins| - 1];
      var now := Alerting.RunAll(ms, init);
      DeliveredIsWhatArrived(path, ms, init);
      DeliveredConcat(path, FeedRun(ms, init), FeedOf(now, i));
      var alerts := WatchAlerts(Alerting.Notes(now, i));
      NoSamplesInAlerts(path, alerts);
      match i
      case Arrive(id, s, v) =>
        var e := WatchEvent(PathString(id), Point(s.time, v, s.value, s.unit), None);
        FirstDelivered(path, e);
        DeliveredConcat(path, [e], alerts);
      case Tick(_) =>
        assert [] + alerts == alerts;
    }
  }

  lemma {:induction false} DeliverIsFeedRun(num: Printer, h: nat,
                                            ms: Alerting.States, st: State, ins: seq<Alerting.Input>)
    ensures Deliver(num, h, ms, st, ins) == HandleAll(num, h, st, FeedRun(ms, ins))
  {
    hide FeedOf;
    if ins != [] {
      var init := ins[..|ins| - 1];
      DeliverIsFeedRun(num, h, ms, st, init);
      HandleConcat(num, h, st, FeedRun(ms, init), FeedOf(Alerting.RunAll(ms, init), ins[|ins| - 1]));
    }
  }

  /** The colour a path ought to have: red while a monitor of it fires, else by its newest sample and its thresholds. */
  ghost function Colour(rules: seq<Rule>, now: Alerting.States, seen: seq<Point>, path: string): Severity {
    if PathFiring(now, path) then Red
    else if seen == [] || seen[|seen| - 1].value.None? then Unknown
    else if OverThreshold(rules, path, seen[|seen| - 1].value.value) then Amber
    else Green
  }

  ghost predicate OverThreshold(rules: seq<Rule>, path: string, value: real) {
    exists k :: 0 <= k < |rules| && PathString(rules[k].stream) == path && Monitors.IsBreach(rules[k], value)
  }

  lemma AmberIff(rules: seq<Rule>, ms: Alerting.States, path: string, value: real)
    requires |ms| == |rules| && forall k :: 0 <= k < |rules| ==> ms[k].rule == rules[k]
    ensures var on := RulesOn(RulesIn(StatusesOf(ms)), path);
            (exists k :: 0 <= k < |on| && Holds(on[k].op, value, on[k].threshold)) <==>
            OverThreshold(rules, path, value)
  {
    hide PathString, RulesOn;
    var rs := RulesIn(StatusesOf(ms));
    var on := RulesOn(rs, path);
    if k :| 0 <= k < |on| && Holds(on[k].op, value, on[k].threshold) {
      RulesOnContents(rs, path, on[k]);
      var m :| 0 <= m < |rs| && rs[m] == on[k];
      assert rs[m] == WireOf(rules[m]);
    }
    if OverThreshold(rules, path, value) {
      var m :| 0 <= m < |rules| && PathString(rules[m].stream) == path && Monitors.IsBreach(rules[m], value);
      assert rs[m] == WireOf(rules[m]);
      RulesOnContents(rs, path, rs[m]);
      var k :| 0 <= k < |on| && on[k] == rs[m];
    }
  }

  lemma ShownColour(st: State, h: nat, rules: seq<Rule>, ms: Alerting.States,
                    now: Alerting.States, seen: seq<Point>, path: string)
    requires path in st.kpis && st.kpis[path].rules == RulesOn(RulesIn(StatusesOf(ms)), path)
    requires |ms| == |rules| && forall k :: 0 <= k < |rules| ==> ms[k].rule == rules[k]
    requires h >= 1 && Recent(st, path) == LastN(seen, h)
    requires Status(st, path) == Red <==> PathFiring(now, path)
    ensures Status(st, path) == Colour(rules, now, seen, path)
  {
    hide PathString, PathFiring, RulesOn, FiringPaths, StatusesOf;
    if seen != [] && seen[|seen| - 1].value.Some? {
      AmberIff(rules, ms, path, seen[|seen| - 1].value.value);
    }
  }

  /** After any run delivered in order, every rule's path is shown in the colour it ought to have. */
  lemma ColourAfterRun(num: Printer, h: nat, rules: seq<Rule>, grace: int, before: State, cat: string -> seq<Point>,
                       pre: seq<Alerting.Input>, post: seq<Alerting.Input>, j: nat)
    requires Suits(num, rules) && h >= 1 && j < |rules|
    ensures var atLoad := Alerting.RunAll(Alerting.Initial(rules, grace), pre);
            && AllParse(RulesIn(StatusesOf(atLoad)))
            && var path := PathString(rules[j].stream);
               Status(Deliver(num, h, atLoad, Loaded(num, h, before, StatusesOf(atLoad), cat), post), path)
               == Colour(rules, Alerting.RunAll(atLoad, post), cat(path) + Delivered(path, FeedRun(atLoad, post)), path)
  {
    hide PathString, Alerting.StepAll, GoodStream, PipeFree, Paths.TsParse, RuleKey, PathFiring, FeedRun, HandleAll,
      Alerting.RunAll, RulesOn, Delivered, Status, Recent;
    AgreesWithoutPipes(num, h, rules, grace, before, cat, pre, post, j);
    var ms := Alerting.Initial(rules, grace);
    var atLoad := Alerting.RunAll(ms, pre);
    Alerting.RunKeepsRules(ms, pre);
    var path := PathString(rules[j].stream);
    var ss := StatusesOf(atLoad);
    assert RulesIn(ss)[j].path == path;
    var start := Loaded(num, h, before, ss, cat);
    var evs := FeedRun(atLoad, post);
    DeliverIsFeedRun(num, h, atLoad, start, post);
    HandleKeepsKpis(num, h, start, evs);
    LoadedWindow(num, h, before, ss, cat, path);
    WindowAfter(num, h, start, evs, path, cat(path));
    ShownColour(HandleAll(num, h, start, evs), h, rules, atLoad, Alerting.RunAll(atLoad, post),
                cat(path) + Delivered(path, evs), path);
  }

  lemma LoadedWindow(num: Printer, h: nat, before: State, ss: Statuses, cat: string -> seq<Point>, path: string)
    requires AllParse(RulesIn(ss)) && h >= 1
    ensures path in KpiTable(RulesIn(ss)) ==> Recent(Loaded(num, h, before, ss, cat), path) == LastN(cat(path), h)
  {
    hide KpiTable, KeysFiring, LastN, AllParse, RulesIn;
  }

  // ----- and exactly then -----

  lemma PipedNeverRed(st: State, path: string)
    requires path in st.kpis && st.kpis[path].path == path && !PipeFree(path)
    ensures Status(st, path) != Red
  {
    if path in FiringPaths(st.firing) {
      var key :| key in st.firing && BeforePipe(key) == path;
      BeforePipeOf(key, "");
    }
  }

  /** Whenever the program is started, the dashboard agrees with the alerter over every run that can occur exactly when
    no rule's path contains the key separator. */
  lemma AgreementIffNoPipes(parse: Alerting.Parser, begin: Time, num: Printer, h: nat, rules: seq<Rule>, grace: nat,
                            before: State, cat: string -> seq<Point>)
    requires TellsApart(num, rules) && AllGood(rules) && AlarmRuns.Crossable(parse, rules) && begin >= 1
    ensures AlwaysAgrees(parse, begin, num, h, rules, grace, before, cat) <==> NoPipes(rules)
  {
    hide AgreesAfter, PathString, AlarmRuns.CanOccur, AlarmRuns.FireRun, AlarmRuns.BreachedBy, AlarmRuns.ClearedBy;
    if NoPipes(rules) {
      forall pre: seq<Alerting.Input>, post: seq<Alerting.Input>, k | 0 <= k < |rules|
        ensures AgreesAfter(num, h, rules, grace, before, cat, pre, post, PathString(rules[k].stream))
      {
        AgreesWithoutPipes(num, h, rules, grace, before, cat, pre, post, k);
      }
    }
    forall k | 0 <= k < |rules| && !PipeFree(PathString(rules[k].stream))
      ensures !AlwaysAgrees(parse, begin, num, h, rules, grace, before, cat)
    {
      var text :| AlarmRuns.BreachedBy(parse, rules[k], text);
      var pre := AlarmRuns.FireRun(parse, rules[k], begin, grace, text);
      DisagreesOnPipe(parse, begin, num, h, rules, grace, before, cat, k, text);
      AlarmRuns.FireRunOccurs(parse, rules[k], begin, grace, text);
      assert pre + [] == pre;
    }
  }

  /** A firing rule whose path contains the separator is not shown red. */
  lemma DisagreesOnPipe(parse: Alerting.Parser, begin: Time, num: Printer, h: nat, rules: seq<Rule>, grace: nat,
                        before: State, cat: string -> seq<Point>, k: nat, text: string)
    requires AllGood(rules) && k < |rules| && !PipeFree(PathString(rules[k].stream))
    requires AlarmRuns.BreachedBy(parse, rules[k], text) && begin >= 1
    ensures var pre := AlarmRuns.FireRun(parse, rules[k], begin, grace, text);
            !AgreesAfter(num, h, rules, grace, before, cat, pre, [], PathString(rules[k].stream))
  {
    hide PathString, Alerting.StepAll, Alerting.StepOne, GoodStream, PipeFree, Status, TsParse, RuleKey,
      AlarmRuns.FireRun, AlarmRuns.BreachedBy, AlarmRuns.Unsettled;
    var ms := Alerting.Initial(rules, grace);
    var pre := AlarmRuns.FireRun(parse, rules[k], begin, grace, text);
    var atLoad := Alerting.RunAll(ms, pre);
    Alerting.RunKeepsRules(ms, pre);
    AlarmRuns.FreshIsUnsettled(rules[k], grace, begin);
    AlarmRuns.FireRunFires(parse, ms, k, begin, grace, text);
    LoadReplicates(num, h, before, atLoad, cat);
    var path := PathString(rules[k].stream);
    assert atLoad[k].rule == rules[k] && RulesIn(StatusesOf(atLoad))[k].path == path;
    var st := Loaded(num, h, before, StatusesOf(atLoad), cat);
    assert path in st.kpis && st.kpis[path].path == path;
    PipedNeverRed(st, path);
    assert PathFiring(atLoad, path);
  }
}
