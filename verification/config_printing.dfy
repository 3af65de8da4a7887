/** Writing alert.conf: every closed configuration of printable words can be written down so that the parser of
  internal/adapter/alertconf/alertconf.go reads it back. */
module ConfigPrinting {
  import opened Domain
  import opened AlertConf
  import opened ConfText
  import opened ConfigClosure
  import Paths
  import LiveView

  /** How numbers and durations are written. */
  datatype Printer = Printer(num: real -> string, dur: int -> string)

  function ChannelWords(ch: Channel): seq<string> {
    ["channel", ch.name, ch.typ] + if ch.typ == "slack" then [ch.url] else [ch.token, ch.channelID]
  }

  function RuleWords(pr: Printer, r: Rule): seq<string> {
    var target := ["for", pr.dur(r.hold), "to", r.channel];
    if r.op == Absent then ["alert", Paths.PathString(r.stream), "absent"] + target
    else ["alert", Paths.PathString(r.stream), OpName(r.op), pr.num(r.threshold)] + target
  }

  function Print(pr: Printer, cfg: Config): (lines: seq<string>)
    ensures |lines| == |cfg.channels| + |cfg.rules|
    ensures forall k :: 0 <= k < |cfg.channels| ==> lines[k] == JoinWords(ChannelWords(cfg.channels[k]))
    ensures forall k :: 0 <= k < |cfg.rules| ==> lines[|cfg.channels| + k] == JoinWords(RuleWords(pr, cfg.rules[k]))
  {
    seq(|cfg.channels|, k requires 0 <= k < |cfg.channels| => JoinWords(ChannelWords(cfg.channels[k])))
    + seq(|cfg.rules|, k requires 0 <= k < |cfg.rules| => JoinWords(RuleWords(pr, cfg.rules[k])))
  }

  /** A channel as the grammar has them, made of words. */
  ghost predicate PrintableChannel(ch: Channel) {
    && Word(ch.name)
    && if ch.typ == "slack" then Word(ch.url) && ch.token == ch.channelID == ""
       else ch.typ == "slack-bot" && Word(ch.token) && Word(ch.channelID) && ch.url == ""
  }

  /** A rule made of words whose numbers are read back as written; the absent form always gets the threshold "0". */
  ghost predicate PrintableRule(env: Env, pr: Printer, r: Rule) {
    && LiveView.GoodStream(r.stream) && Word(Paths.PathString(r.stream)) && Word(r.channel)
    && Word(pr.dur(r.hold)) && env.parseDuration(pr.dur(r.hold)) == Some(r.hold)
    && if r.op == Absent then env.parseFloat("0") == Some(r.threshold)
       else Word(pr.num(r.threshold)) && env.parseFloat(pr.num(r.threshold)) == Some(r.threshold)
  }

  ghost predicate Printable(env: Env, pr: Printer, cfg: Config) {
    && (forall k :: 0 <= k < |cfg.channels| ==> PrintableChannel(cfg.channels[k]))
    && (forall k :: 0 <= k < |cfg.rules| ==> PrintableRule(env, pr, cfg.rules[k]))
    && (env.lookup.Some? ==> forall k :: 0 <= k < |Print(pr, cfg)| ==> NoRefIn(Print(pr, cfg)[k], ""))
  }

  lemma ExpansionLeaves(line: string, lookup: Option<Lookup>)
    requires lookup.Some? ==> NoRefIn(line, "")
    ensures ExpandLine(line, lookup) == (line, None)
  {
    if lookup.Some? {
      BareDollarsStay(line, lookup.value);
    }
  }

  lemma LineOfWords(env: Env, ws: seq<string>)
    requires AllWords(ws) && ws != [] && ws[0][0] != '#'
    requires env.lookup.Some? ==> NoRefIn(JoinWords(ws), "")
    ensures MeaningOf(env, JoinWords(ws)) == WordsMean(env, ws)
  {
    hide WordsMean, JoinWords, Fields, Replaced, TrimSpace;
    JoinedEnds(ws);
    NothingToTrim(JoinWords(ws));
    ExpansionLeaves(JoinWords(ws), env.lookup);
    FieldsOfJoined(ws);
  }

  lemma ChannelIsRead(env: Env, ch: Channel)
    requires PrintableChannel(ch)
    requires env.lookup.Some? ==> NoRefIn(JoinWords(ChannelWords(ch)), "")
    ensures MeaningOf(env, JoinWords(ChannelWords(ch))) == Declares(ch)
  {
    hide JoinWords, MeaningOf, ParseAlert;
    var ws := ChannelWords(ch);
    KeywordsAreWords();
    assert ws[1..] == [ch.name, ch.typ] + if ch.typ == "slack" then [ch.url] else [ch.token, ch.channelID];
    LineOfWords(env, ws);
  }

  lemma KeywordsAreWords()
    ensures Word("channel") && Word("slack") && Word("slack-bot")
    ensures Word("alert") && Word("for") && Word("to") && Word("absent")
  {
  }

  lemma OpIsWord(op: Op)
    ensures Word(OpName(op)) && ParseOp(OpName(op)) == Some(op)
  {
  }

  lemma RuleIsRead(env: Env, pr: Printer, r: Rule)
    requires PrintableRule(env, pr, r)
    requires env.lookup.Some? ==> NoRefIn(JoinWords(RuleWords(pr, r)), "")
    ensures MeaningOf(env, JoinWords(RuleWords(pr, r))) == Alerts(r)
  {
    hide JoinWords, MeaningOf, ParseChannel, Paths.Parse, Paths.Print, Word, OpName;
    var ws := RuleWords(pr, r);
    KeywordsAreWords();
    OpIsWord(r.op);
    NamesOfOps(r.op);
    assert AllWords(ws);
    LineOfWords(env, ws);
    Paths.ParseOfPrint(Paths.PathOf(r.stream));
    var shape := [Paths.PathString(r.stream), OpName(r.op), if r.op == Absent then "0" else pr.num(r.threshold),
                  "for", pr.dur(r.hold), "to", r.channel];
    assert Spliced(ws[1..]) == shape;
    assert Paths.IdOf(Paths.PathOf(r.stream)) == r.stream;
  }

  lemma NamesOfOps(op: Op)
    ensures OpName(op) == "absent" <==> op == Absent
  {
    assert OpName(Greater)[0] != 'a' && OpName(GreaterEq)[0] != 'a';
    assert OpName(Less)[0] != 'a' && OpName(LessEq)[0] != 'a';
  }

  /** What the printed lines mean: the channels, then the rules. */
  function Written(cfg: Config): (ms: seq<Meaning>)
    ensures |ms| == |cfg.channels| + |cfg.rules|
    ensures forall k :: 0 <= k < |cfg.channels| ==> ms[k] == Declares(cfg.channels[k])
    ensures forall k :: 0 <= k < |cfg.rules| ==> ms[|cfg.channels| + k] == Alerts(cfg.rules[k])
  {
    seq(|cfg.channels|, k requires 0 <= k < |cfg.channels| => Declares(cfg.channels[k]))
    + seq(|cfg.rules|, k requires 0 <= k < |cfg.rules| => Alerts(cfg.rules[k]))
  }

  lemma WrittenAt(cfg: Config, i: nat)
    requires i < |Written(cfg)|
    ensures Written(cfg)[i] ==
            if i < |cfg.channels| then Declares(cfg.channels[i]) else Alerts(cfg.rules[i - |cfg.channels|])
  {
    if i >= |cfg.channels| {
      assert i == |cfg.channels| + (i - |cfg.channels|);
    }
  }

  lemma {:induction false} WrittenHolds(cfg: Config)
    ensures Declared(Written(cfg)) == cfg.channels && Alerted(Written(cfg)) == cfg.rules
    decreases |cfg.channels| + |cfg.rules|
  {
    hide Declared, Alerted;
    if cfg.rules != [] {
      var last := |cfg.rules| - 1;
      var less := cfg.(rules := cfg.rules[..last]);
      WrittenHolds(less);
      assert Written(cfg) == Written(less) + [Alerts(cfg.rules[last])];
      HoldsOneMore(Written(less), Alerts(cfg.rules[last]));
    } else if cfg.channels != [] {
      var last := |cfg.channels| - 1;
      var less := cfg.(channels := cfg.channels[..last]);
      WrittenHolds(less);
      assert Written(cfg) == Written(less) + [Declares(cfg.channels[last])];
      HoldsOneMore(Written(less), Declares(cfg.channels[last]));
    } else {
      NothingIsConsistent(Written(cfg));
    }
  }

  lemma WrittenIsConsistent(cfg: Config)
    requires Closed(cfg)
    ensures Consistent(Written(cfg))
  {
    hide LiveView.AllGood, Written;
    var ms, n := Written(cfg), |cfg.channels|;
    forall i | 0 <= i < |ms|
      ensures ms[i] == if i < n then Declares(cfg.channels[i]) else Alerts(cfg.rules[i - n])
    {
      WrittenAt(cfg, i);
    }
    forall j | 0 <= j < |ms| && ms[j].Alerts? ensures DeclaredBefore(ms, j, ms[j].rule.channel) {
      var k :| 0 <= k < n && cfg.channels[k].name == cfg.rules[j - n].channel;
      assert ms[k] == Declares(cfg.channels[k]);
    }
  }

  /** What is required of a configuration, for one of its lines. */
  lemma PrintedLine(env: Env, pr: Printer, cfg: Config, k: nat)
    requires Printable(env, pr, cfg) && k < |Print(pr, cfg)|
    ensures env.lookup.Some? ==> NoRefIn(Print(pr, cfg)[k], "")
    ensures var n := |cfg.channels|;
            if k < n then
              PrintableChannel(cfg.channels[k]) && Print(pr, cfg)[k] == JoinWords(ChannelWords(cfg.channels[k]))
            else
              && PrintableRule(env, pr, cfg.rules[k - n])
              && Print(pr, cfg)[k] == JoinWords(RuleWords(pr, cfg.rules[k - n]))
  {
    hide JoinWords, ChannelWords, RuleWords, PrintableChannel, PrintableRule, NoRefIn;
    if k >= |cfg.channels| {
      assert k == |cfg.channels| + (k - |cfg.channels|);
    }
  }

  lemma LineIsRead(env: Env, pr: Printer, cfg: Config, k: nat)
    requires Printable(env, pr, cfg) && k < |Print(pr, cfg)|
    ensures MeaningOf(env, Print(pr, cfg)[k]) == Written(cfg)[k]
  {
    hide MeaningOf, JoinWords, ChannelWords, RuleWords, Printable, PrintableChannel, PrintableRule, NoRefIn, Print,
      Written;
    var n := |cfg.channels|;
    PrintedLine(env, pr, cfg, k);
    WrittenAt(cfg, k);
    if k < n {
      ChannelIsRead(env, cfg.channels[k]);
    } else {
      RuleIsRead(env, pr, cfg.rules[k - n]);
    }
  }

  /** Every closed, printable configuration is what the parser makes of its printed form. */
  lemma ParseOfPrint(env: Env, pr: Printer, cfg: Config)
    requires Closed(cfg) && Printable(env, pr, cfg)
    ensures ParseAll(env, Print(pr, cfg)) == Accepted(cfg)
  {
    hide Closed, Consistent, MeaningOf, ParseAll, Print, Printable, Written, Declared, Alerted;
    var lines := Print(pr, cfg);
    forall k | 0 <= k < |lines| ensures MeaningOf(env, lines[k]) == Written(cfg)[k] {
      LineIsRead(env, pr, cfg, k);
    }
    assert Meanings(env, lines) == Written(cfg);
    WrittenHolds(cfg);
    WrittenIsConsistent(cfg);
    AcceptsIff(env, lines);
  }
}
