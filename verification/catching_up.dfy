/** A dashboard that missed events (internal/usecase/feed.go, webui/src/live.ts).

  A subscriber with a full buffer loses events, so the dashboard behind it may be wrong about a key. It is wrong
  exactly when the last alert it received under that key tells otherwise than the last one published, and from
  the moment on at which it loses nothing more, the next alert under the key puts it right. */
module CatchingUp {
  import opened Domain
  import opened LiveView
  import Alerting
  import Delivery
  import LiveFeed

  // ----- the last word on a key -----

  predicate Tells(num: Printer, paths: set<string>, ev: WatchEvent, key: string) {
    ev.path in paths && ev.alert.Some? && LiveView.RuleKey(num, ev.alert.value.rule) == key
  }

  /** What the last alert under the key tells: that something fires, or that nothing does. */
  function LastWord(num: Printer, paths: set<string>, evs: seq<WatchEvent>, key: string): Option<bool> {
    if evs == [] then None
    else
      var last := evs[|evs| - 1];
      if Tells(num, paths, last, key) then Some(last.alert.value.firing)
      else LastWord(num, paths, evs[..|evs| - 1], key)
  }

  lemma {:induction false} LastWordDecides(num: Printer, h: nat, st: State, evs: seq<WatchEvent>, key: string)
    ensures key in HandleAll(num, h, st, evs).firing <==>
            LastWord(num, st.kpis.Keys, evs, key).GetOr(key in st.firing)
  {
    hide LiveView.RuleKey;
    if evs != [] {
      LastWordDecides(num, h, st, evs[..|evs| - 1], key);
      HandleKeepsKpis(num, h, st, evs[..|evs| - 1]);
    }
  }

  // ----- right and wrong -----

  /** The dashboard holds the key exactly when some monitor with that key is firing. */
  ghost predicate RightAbout(num: Printer, st: State, ms: Alerting.States, key: string) {
    key in st.firing <==> SomeFiring(num, ms, key)
  }

  /** The dashboard as it would be had it just been loaded. */
  function Perfect(num: Printer, st: State, ms: Alerting.States): State {
    st.(firing := KeysFiring(num, StatusesOf(ms)))
  }

  /** What the alerter's monitors do to a key during a run is what the last alert published under it tells. */
  lemma LastWordIsTrue(num: Printer, st: State, ms: Alerting.States, ins: seq<Alerting.Input>, key: string)
    requires Suits(num, Alerting.RulesOf(ms)) && Knows(st, ms)
    ensures SomeFiring(num, Alerting.RunAll(ms, ins), key) <==>
            LastWord(num, st.kpis.Keys, FeedRun(ms, ins), key).GetOr(SomeFiring(num, ms, key))
  {
    hide Suits, LastWord, SomeFiring, FeedRun, Deliver, KeysFiring, Alerting.RunAll;
    var perfect := Perfect(num, st, ms);
    KeysFiringReplicate(num, ms);
    RunReplicates(num, 1, ms, perfect, ins);
    DeliverIsFeedRun(num, 1, ms, perfect, ins);
    LastWordDecides(num, 1, perfect, FeedRun(ms, ins), key);
  }

  /** A dashboard that started right and received whatever it received is wrong about a key exactly when the last alert
    it received under the key, or else its start, tells otherwise than the last one published. */
  lemma RightAboutIff(num: Printer, h: nat, ms: Alerting.States, st: State, ins: seq<Alerting.Input>,
                      received: seq<WatchEvent>, key: string)
    requires Suits(num, Alerting.RulesOf(ms)) && Knows(st, ms) && RightAbout(num, st, ms, key)
    ensures RightAbout(num, HandleAll(num, h, st, received), Alerting.RunAll(ms, ins), key) <==>
            LastWord(num, st.kpis.Keys, received, key).GetOr(key in st.firing) ==
            LastWord(num, st.kpis.Keys, FeedRun(ms, ins), key).GetOr(key in st.firing)
  {
    hide Suits, Knows, LastWord, SomeFiring, FeedRun, HandleAll, Alerting.RunAll;
    LastWordDecides(num, h, st, received, key);
    LastWordIsTrue(num, st, ms, ins, key);
  }

  /** Whatever a dashboard holds, once everything of a run has been delivered to it, it is right about a key exactly
    when it was before or the run published an alert under the key. */
  lemma CatchesUpIff(num: Printer, h: nat, ms: Alerting.States, st: State, ins: seq<Alerting.Input>, key: string)
    requires Suits(num, Alerting.RulesOf(ms)) && Knows(st, ms)
    ensures RightAbout(num, HandleAll(num, h, st, FeedRun(ms, ins)), Alerting.RunAll(ms, ins), key) <==>
            RightAbout(num, st, ms, key) || LastWord(num, st.kpis.Keys, FeedRun(ms, ins), key).Some?
  {
    hide Suits, Knows, LastWord, SomeFiring, FeedRun, HandleAll, Alerting.RunAll;
    LastWordDecides(num, h, st, FeedRun(ms, ins), key);
    LastWordIsTrue(num, st, ms, ins, key);
  }

  /** So a path is red as it should be again once this holds of every key that begins with it. */
  lemma RedAgain(num: Printer, h: nat, ms: Alerting.States, st: State, ins: seq<Alerting.Input>, path: string)
    requires Suits(num, Alerting.RulesOf(ms)) && Knows(st, ms)
    requires path in st.kpis && st.kpis[path].path == path
    requires forall key :: BeforePipe(key) == path ==>
               RightAbout(num, st, ms, key) || LastWord(num, st.kpis.Keys, FeedRun(ms, ins), key).Some?
    ensures Status(HandleAll(num, h, st, FeedRun(ms, ins)), path) == Red <==>
            PathFiring(Alerting.RunAll(ms, ins), path)
  {
    hide Knows, LastWord, SomeFiring, FeedRun, HandleAll, Status, PathFiring, TellsApart, AllGood, NoPipes,
      Alerting.RunAll;
    var end, now := HandleAll(num, h, st, FeedRun(ms, ins)), Alerting.RunAll(ms, ins);
    forall key | BeforePipe(key) == path ensures key in end.firing <==> SomeFiring(num, now, key) {
      CatchesUpIff(num, h, ms, st, ins, key);
    }
    HandleKeepsKpis(num, h, st, FeedRun(ms, ins));
    Alerting.RulesStay(ms, ins);
    RedIff(num, end, now, path);
  }

  // ----- behind the feed -----

  lemma {:induction false} StoryGrows(acts: seq<LiveFeed.Action>, more: seq<LiveFeed.Action>, who: nat)
    ensures LiveFeed.Story(acts, who) <= LiveFeed.Story(acts + more, who)
    ensures LiveFeed.Subscribed(acts) <= LiveFeed.Subscribed(acts + more)
  {
    if more == [] {
      assert acts + more == acts;
    } else {
      StoryGrows(acts, more[..|more| - 1], who);
      assert (acts + more)[..|acts + more| - 1] == acts + more[..|more| - 1];
    }
  }

  /** What a subscription lives through during `more`. */
  function Later(acts: seq<LiveFeed.Action>, more: seq<LiveFeed.Action>, who: nat): seq<LiveFeed.Local> {
    StoryGrows(acts, more, who);
    LiveFeed.Story(acts + more, who)[|LiveFeed.Story(acts, who)|..]
  }

  /** The subscriber's buffer is never full at a publication in `more`. */
  ghost predicate KeepsUpSince(buffer: nat, acts: seq<LiveFeed.Action>, more: seq<LiveFeed.Action>, who: nat) {
    LiveFeed.NeverFull(buffer, LiveFeed.Story(acts + more, who), |LiveFeed.Story(acts, who)|)
  }

  /** A subscriber that lost what it lost, and has drained its channel: what it received is what it had seen before and,
    if and only if it has kept up since, everything published since. */
  lemma ReceivesRestIff(buffer: nat, acts: seq<LiveFeed.Action>, more: seq<LiveFeed.Action>, who: nat)
    requires who < |LiveFeed.Run(buffer, acts)|
    ensures who < |LiveFeed.Run(buffer, acts + more)|
    ensures var v, end := LiveFeed.Run(buffer, acts)[who], LiveFeed.Run(buffer, acts + more)[who];
            end.buffered == [] ==>
              (end.got == LiveFeed.Seen(v) + LiveFeed.PublishedSince(LiveFeed.Story(acts, who), Later(acts, more, who))
               <==> KeepsUpSince(buffer, acts, more, who))
  {
    hide LiveFeed.Solo, LiveFeed.Run, LiveFeed.Story, LiveFeed.NeverFull, LiveFeed.PublishedSince;
    LiveFeed.SubscribersAreIndependent(buffer, acts, who);
    LiveFeed.SubscribersAreIndependent(buffer, acts + more, who);
    StoryGrows(acts, more, who);
    var before, later := LiveFeed.Story(acts, who), Later(acts, more, who);
    assert before + later == LiveFeed.Story(acts + more, who);
    LiveFeed.MissesNothingSinceIff(buffer, before, later);
    var end := LiveFeed.Run(buffer, acts + more)[who];
    assert end.buffered == [] ==> LiveFeed.Seen(end) == end.got;
  }

  /** A dashboard that lags behind, whatever it lost: when its subscriber has kept up since the alerter was in state
    `ms` and has drained its channel, the dashboard is right about a key exactly when what it had seen by then was
    enough or an alert under the key was published since. */
  lemma LaggingDashboardCatchesUp(parse: Alerting.Parser, num: Printer, h: nat, start: State,
                                  ms: Alerting.States, ins: seq<Alerting.Input>, buffer: nat,
                                  acts: seq<LiveFeed.Action>, more: seq<LiveFeed.Action>, who: nat, key: string)
    requires Suits(num, Alerting.RulesOf(ms)) && Knows(start, ms) && Alerting.Parsed(parse, ins)
    requires who < |LiveFeed.Run(buffer, acts)| && KeepsUpSince(buffer, acts, more, who)
    requires LiveFeed.PublishedSince(LiveFeed.Story(acts, who), Later(acts, more, who)) == Delivery.EventsOfRun(ms, ins)
    ensures who < |LiveFeed.Run(buffer, acts + more)|
    ensures LiveFeed.Run(buffer, acts + more)[who].buffered == [] ==>
              var seen := Delivery.WatchedAll(parse, LiveFeed.Seen(LiveFeed.Run(buffer, acts)[who]));
              var got := Delivery.WatchedAll(parse, LiveFeed.Run(buffer, acts + more)[who].got);
              RightAbout(num, HandleAll(num, h, start, got), Alerting.RunAll(ms, ins), key) <==>
                || RightAbout(num, HandleAll(num, h, start, seen), ms, key)
                || LastWord(num, start.kpis.Keys, FeedRun(ms, ins), key).Some?
  {
    hide *;
    ReceivesRestIff(buffer, acts, more, who);
    var end := LiveFeed.Run(buffer, acts + more)[who];
    if end.buffered == [] {
      var before := LiveFeed.Seen(LiveFeed.Run(buffer, acts)[who]);
      Delivery.WatchedConcat(parse, before, Delivery.EventsOfRun(ms, ins));
      Delivery.RunIsWatched(parse, ms, ins);
      var seen := Delivery.WatchedAll(parse, before);
      HandleConcat(num, h, start, seen, FeedRun(ms, ins));
      HandleKeepsKpis(num, h, start, seen);
      KnowsStill(start, HandleAll(num, h, start, seen), ms);
      CatchesUpIff(num, h, ms, HandleAll(num, h, start, seen), ins, key);
    }
  }

  lemma KnowsStill(a: State, b: State, ms: Alerting.States)
    requires Knows(a, ms) && a.kpis == b.kpis
    ensures Knows(b, ms)
  {
  }
}
