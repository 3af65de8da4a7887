/** From the alerter through the feed to the dashboard: a subscriber that keeps up receives exactly what a run
  publishes, and the dashboard behind it agrees with the alerter. */
module Delivery {
  import opened Domain
  import Alerting
  import KpiTree
  import LiveFeed
  import LiveView
  import Paths

  type Events = seq<LiveFeed.Event>

  function AlertsOf(ns: seq<Notification>): (evs: Events)
    ensures |evs| == |ns| && forall k :: 0 <= k < |evs| ==> evs[k] == LiveFeed.AlertEvent(ns[k])
  {
    seq(|ns|, k requires 0 <= k < |ns| => LiveFeed.AlertEvent(ns[k]))
  }

  /** What the tee and the notifiers publish for one input: the sample first, then the alerts it caused. */
  function EventsOf(ms: Alerting.States, i: Alerting.Input): Events {
    (match i
     case Arrive(id, s, _) => [LiveFeed.SampleEvent(id, s)]
     case Tick(_) => [])
    + AlertsOf(Alerting.Notes(ms, i))
  }

  function EventsOfRun(ms: Alerting.States, ins: seq<Alerting.Input>): Events {
    if ins == [] then []
    else EventsOfRun(ms, ins[..|ins| - 1]) + EventsOf(Alerting.RunAll(ms, ins[..|ins| - 1]), ins[|ins| - 1])
  }

  /** An event as the dashboard receives it. */
  function Watched(parse: Alerting.Parser, e: LiveFeed.Event): LiveView.WatchEvent {
    match e.alert
    case Some(n) => LiveView.WatchAlert(n)
    case None =>
      LiveView.WatchEvent(Paths.PathString(e.stream),
                          LiveView.Point(e.sample.time, parse(e.sample.value), e.sample.value, e.sample.unit), None)
  }

  function WatchedAll(parse: Alerting.Parser, evs: Events): (ws: seq<LiveView.WatchEvent>)
    ensures |ws| == |evs| && forall k :: 0 <= k < |ws| ==> ws[k] == Watched(parse, evs[k])
  {
    seq(|evs|, k requires 0 <= k < |evs| => Watched(parse, evs[k]))
  }

  lemma WatchedConcat(parse: Alerting.Parser, a: Events, b: Events)
    ensures WatchedAll(parse, a + b) == WatchedAll(parse, a) + WatchedAll(parse, b)
  {
  }

  lemma StepIsWatched(parse: Alerting.Parser, ms: Alerting.States, i: Alerting.Input)
    requires i.Arrive? ==> i.value == parse(i.sample.value)
    ensures WatchedAll(parse, EventsOf(ms, i)) == LiveView.FeedOf(ms, i)
  {
    hide Paths.PathString, Alerting.Notes;
    var ns := Alerting.Notes(ms, i);
    assert WatchedAll(parse, AlertsOf(ns)) == LiveView.WatchAlerts(ns);
    match i
    case Arrive(id, s, _) => WatchedConcat(parse, [LiveFeed.SampleEvent(id, s)], AlertsOf(ns));
    case Tick(_) => WatchedConcat(parse, [], AlertsOf(ns));
  }

  /** What an event published for one input tells: the sample that arrived, or a notification that was sent. */
  lemma PublishedTells(ms: Alerting.States, i: Alerting.Input, e: LiveFeed.Event)
    requires e in EventsOf(ms, i)
    ensures e.alert.None? ==> i.Arrive? && e.stream == i.id && e.sample == i.sample
    ensures e.alert.Some? ==>
              var n := e.alert.value;
              && n in Alerting.Notes(ms, i) && e.stream == n.rule.stream
              && e.sample.time == n.time && e.sample.value == n.value && e.sample.unit == n.unit
  {
    hide Alerting.Notes;
    var ns := Alerting.Notes(ms, i);
    if e in AlertsOf(ns) {
      var k :| 0 <= k < |ns| && e == LiveFeed.AlertEvent(ns[k]);
    }
  }

  /** What the dashboard makes of a published event: the path, time, text and unit it tells, and of an alert the rule
    and whether it began or ended. */
  lemma WatchedTells(parse: Alerting.Parser, ms: Alerting.States, i: Alerting.Input, e: LiveFeed.Event)
    requires e in EventsOf(ms, i)
    ensures var w := Watched(parse, e);
            && w.path == Paths.PathString(e.stream)
            && w.sample.time == e.sample.time && w.sample.raw == e.sample.value && w.sample.unit == e.sample.unit
            && (w.alert.Some? <==> e.alert.Some?)
            && (e.alert.None? ==> w.sample.value == parse(e.sample.value))
            && (e.alert.Some? ==>
                  var rule, wire := e.alert.value.rule, w.alert.value.rule;
                  && (w.alert.value.firing <==> e.alert.value.event == Fired)
                  && wire.path == w.path && wire.op == rule.op && wire.threshold == rule.threshold
                  && wire.hold == rule.hold && wire.channel == rule.channel)
  {
    hide Alerting.Notes, Paths.PathString;
    PublishedTells(ms, i, e);
  }

  /** What a run publishes is what the dashboard's theorems call the feed of the run. */
  lemma {:induction false} RunIsWatched(parse: Alerting.Parser, ms: Alerting.States, ins: seq<Alerting.Input>)
    requires Alerting.Parsed(parse, ins)
    ensures WatchedAll(parse, EventsOfRun(ms, ins)) == LiveView.FeedRun(ms, ins)
  {
    hide EventsOf, LiveView.FeedOf, WatchedAll, Alerting.RunAll;
    if ins == [] {
      NothingWatched(parse);
    } else {
      var init, last := ins[..|ins| - 1], ins[|ins| - 1];
      RunIsWatched(parse, ms, init);
      StepIsWatched(parse, Alerting.RunAll(ms, init), last);
      WatchedConcat(parse, EventsOfRun(ms, init), EventsOf(Alerting.RunAll(ms, init), last));
    }
  }

  lemma NothingWatched(parse: Alerting.Parser)
    ensures WatchedAll(parse, []) == []
  {
  }

  /** The dashboard's buffer is never full when something is published. */
  ghost predicate KeepsUp(buffer: nat, acts: seq<LiveFeed.Action>, who: nat) {
    LiveFeed.NeverFull(buffer, LiveFeed.Story(acts, who), 0)
  }

  /** A subscriber that has taken everything from its channel received exactly the feed of the run published since it
    subscribed, if and only if it kept up. */
  lemma ReceivesFeedIff(parse: Alerting.Parser, ms: Alerting.States, ins: seq<Alerting.Input>, buffer: nat,
                        acts: seq<LiveFeed.Action>, who: nat)
    requires who < |LiveFeed.Run(buffer, acts)| && LiveFeed.Run(buffer, acts)[who].buffered == []
    requires Alerting.Parsed(parse, ins) && LiveFeed.Published(LiveFeed.Story(acts, who)) == EventsOfRun(ms, ins)
    ensures LiveFeed.Run(buffer, acts)[who].got == EventsOfRun(ms, ins) <==> KeepsUp(buffer, acts, who)
    ensures KeepsUp(buffer, acts, who) ==>
              WatchedAll(parse, LiveFeed.Run(buffer, acts)[who].got) == LiveView.FeedRun(ms, ins)
  {
    hide EventsOfRun, LiveView.FeedRun, LiveFeed.Published, LiveFeed.Story, LiveFeed.Solo, LiveFeed.NeverFull,
      LiveFeed.Run, Alerting.Parsed, WatchedAll;
    LiveFeed.SubscribersAreIndependent(buffer, acts, who);
    LiveFeed.MissesNothingIff(buffer, LiveFeed.Story(acts, who));
    RunIsWatched(parse, ms, ins);
    var v := LiveFeed.Run(buffer, acts)[who];
    assert LiveFeed.Seen(v) == v.got;
  }

  /** The dashboard that loads, subscribes, keeps up and handles what it receives shows every rule's path in the colour
    it ought to have. */
  lemma DashboardThatKeepsUpAgrees(parse: Alerting.Parser, num: LiveView.Printer, h: nat, rules: seq<Rule>, grace: int,
                                   before: LiveView.State, cat: string -> seq<LiveView.Point>,
                                   pre: seq<Alerting.Input>, post: seq<Alerting.Input>,
                                   buffer: nat, acts: seq<LiveFeed.Action>, who: nat, j: nat)
    requires LiveView.Suits(num, rules) && h >= 1 && j < |rules|
    requires Alerting.Parsed(parse, post)
    requires who < |LiveFeed.Run(buffer, acts)| && LiveFeed.Run(buffer, acts)[who].buffered == []
    requires LiveFeed.Published(LiveFeed.Story(acts, who))
             == EventsOfRun(Alerting.RunAll(Alerting.Initial(rules, grace), pre), post)
    requires KeepsUp(buffer, acts, who)
    ensures var atLoad := Alerting.RunAll(Alerting.Initial(rules, grace), pre);
            && KpiTree.AllParse(LiveView.RulesIn(LiveView.StatusesOf(atLoad)))
            && var start := LiveView.Loaded(num, h, before, LiveView.StatusesOf(atLoad), cat);
               var received := WatchedAll(parse, LiveFeed.Run(buffer, acts)[who].got);
               var path := Paths.PathString(rules[j].stream);
               var seen := cat(path) + LiveView.Delivered(path, received);
               LiveView.Status(LiveView.HandleAll(num, h, start, received), path) ==
               LiveView.Colour(rules, Alerting.RunAll(atLoad, post), seen, path)
  {
    hide *;
    var atLoad := Alerting.RunAll(Alerting.Initial(rules, grace), pre);
    ReceivesFeedIff(parse, atLoad, post, buffer, acts, who);
    LiveView.ColourAfterRun(num, h, rules, grace, before, cat, pre, post, j);
    LiveView.DeliverIsFeedRun(num, h, atLoad, LiveView.Loaded(num, h, before, LiveView.StatusesOf(atLoad), cat), post);
  }
}
