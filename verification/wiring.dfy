/** How the pieces are wired together (cmd/sor/main.go): an accepted alert.conf feeds the alerter, the Slack
  notifier and the dashboard, and what the other modules assume of rules and destinations then holds. */
module Wiring {
  import opened Domain
  import opened AlertConf
  import opened ConfigClosure
  import AlarmRuns
  import LiveView
  import SlackBook

  function DestinationOf(ch: Channel): SlackBook.Destination { SlackBook.Destination(ch.url, ch.token, ch.channelID) }

  /** Channels by name; a later channel would replace an earlier one of the same name. */
  function Destinations(channels: seq<Channel>): map<string, SlackBook.Destination> {
    if channels == [] then map[]
    else
      var ch := channels[|channels| - 1];
      Destinations(channels[..|channels| - 1])[ch.name := DestinationOf(ch)]
  }

  method BuildDestinations(channels: seq<Channel>) returns (out: map<string, SlackBook.Destination>)
    ensures out == Destinations(channels)
  {
    out := map[];
    for i := 0 to |channels|
      invariant out == Destinations(channels[..i])
    {
      assert channels[..i + 1][..i] == channels[..i];
      var ch := channels[i];
      out := out[ch.name := SlackBook.Destination(ch.url, ch.token, ch.channelID)];
    }
    assert channels[..|channels|] == channels;
  }

  /** With distinct names no channel replaces another, and there is nothing else in the map. */
  lemma {:induction false} EachChannelIsThere(channels: seq<Channel>)
    requires DistinctNames(channels)
    ensures forall k :: 0 <= k < |channels| ==>
              && channels[k].name in Destinations(channels)
              && var dest := Destinations(channels)[channels[k].name];
                 && dest.webhook == channels[k].url && dest.token == channels[k].token
                 && dest.channelID == channels[k].channelID
    ensures Destinations(channels).Keys == NamesOf(channels)
  {
    if channels != [] {
      var init, last := channels[..|channels| - 1], channels[|channels| - 1];
      EachChannelIsThere(init);
      OneNameMore(init, last);
      assert channels == init + [last];
    }
  }

  lemma EveryRuleHasDestination(cfg: Config)
    requires Closed(cfg)
    ensures forall k :: 0 <= k < |cfg.rules| ==> cfg.rules[k].channel in Destinations(cfg.channels)
  {
    EachChannelIsThere(cfg.channels);
  }

  ghost predicate ThresholdsWritten(env: Env, rules: seq<Rule>) {
    forall k :: 0 <= k < |rules| ==> AlarmRuns.Written(env.parseFloat, rules[k].threshold)
  }

  lemma MeantThresholdIsWritten(env: Env, line: string)
    ensures var m := MeaningOf(env, line); m.Alerts? ==> AlarmRuns.Written(env.parseFloat, m.rule.threshold)
  {
    hide ParseChannel, ParseOp, ExpandLine;
  }

  lemma {:induction false} AcceptedThresholdsAreWritten(env: Env, lines: seq<string>)
    requires ParseAll(env, lines).Accepted?
    ensures ThresholdsWritten(env, ParseAll(env, lines).config.rules)
  {
    hide MeaningOf, Complaint, AlarmRuns.Written;
    if lines != [] {
      AcceptedThresholdsAreWritten(env, lines[..|lines| - 1]);
      MeantThresholdIsWritten(env, lines[|lines| - 1]);
    }
  }

  /** What the two theorems below ask of an accepted file's rules: for each, one number that can be written on the other
    side of its threshold. */
  lemma AcceptedRulesCrossIff(env: Env, lines: seq<string>)
    requires ParseAll(env, lines).Accepted?
    ensures var rules := ParseAll(env, lines).config.rules;
            AlarmRuns.Crossable(env.parseFloat, rules) <==>
            forall k :: 0 <= k < |rules| ==> AlarmRuns.HasOtherSide(env.parseFloat, rules[k])
  {
    hide ParseAll, AlarmRuns.CanCross, AlarmRuns.HasOtherSide, AlarmRuns.Written;
    AcceptedThresholdsAreWritten(env, lines);
    var rules := ParseAll(env, lines).config.rules;
    forall k | 0 <= k < |rules|
      ensures AlarmRuns.CanCross(env.parseFloat, rules[k]) <==> AlarmRuns.HasOtherSide(env.parseFloat, rules[k])
    {
      AlarmRuns.CanCrossIff(env.parseFloat, rules[k]);
    }
  }

  /** For an accepted file, Slack's map serves every rule privately over every run exactly when the rules' keys
    differ. */
  lemma SlackOfAcceptedFile(env: Env, lines: seq<string>, begin: Time, num: LiveView.Printer, grace: nat)
    requires ParseAll(env, lines).Accepted? && begin >= 1
    requires var rules := ParseAll(env, lines).config.rules;
             && LiveView.TellsApart(num, rules) && SlackBook.NoPipeNumbers(num, rules)
             && AlarmRuns.Crossable(env.parseFloat, rules)
    ensures var cfg := ParseAll(env, lines).config;
            SlackBook.AlwaysPrivate(env.parseFloat, begin, num, Destinations(cfg.channels), cfg.rules, grace) <==>
            SlackBook.DistinctKeys(num, cfg.rules)
  {
    hide ParseAll, Destinations, SlackBook.NoPipeNumbers, LiveView.TellsApart, AlarmRuns.Crossable,
      SlackBook.AlwaysPrivate;
    AcceptedIsClosed(env, lines);
    var cfg := ParseAll(env, lines).config;
    EveryRuleHasDestination(cfg);
    SlackBook.PrivateIffDistinctKeys(env.parseFloat, begin, num, Destinations(cfg.channels), cfg.rules, grace);
  }

  /** For an accepted file, the dashboard agrees with the alerter over every run exactly when no rule's path holds the
    key separator. */
  lemma DashboardOfAcceptedFile(env: Env, lines: seq<string>, begin: Time, num: LiveView.Printer, h: nat, grace: nat,
                                before: LiveView.State, cat: string -> seq<LiveView.Point>)
    requires ParseAll(env, lines).Accepted? && begin >= 1
    requires var rules := ParseAll(env, lines).config.rules;
             LiveView.TellsApart(num, rules) && AlarmRuns.Crossable(env.parseFloat, rules)
    ensures var rules := ParseAll(env, lines).config.rules;
            LiveView.AlwaysAgrees(env.parseFloat, begin, num, h, rules, grace, before, cat) <==> LiveView.NoPipes(rules)
  {
    hide ParseAll, LiveView.NoPipes, LiveView.TellsApart, LiveView.AlwaysAgrees, AlarmRuns.Crossable;
    AcceptedIsClosed(env, lines);
    LiveView.AgreementIffNoPipes(env.parseFloat, begin, num, h, ParseAll(env, lines).config.rules, grace, before, cat);
  }
}
