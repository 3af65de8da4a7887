/** What alert.conf guarantees to everything downstream.

  The line loop is read declaratively: a file is accepted exactly when its lines are consistent, and is
  otherwise blamed on its first inconsistent line. Every accepted configuration is closed, and every closed
  configuration can be written down and parsed back. */
module ConfigClosure {
  import opened Domain
  import opened AlertConf
  import opened ConfText
  import Paths
  import KpiTree
  import LiveView

  // ----- which files are accepted -----

  function Meanings(env: Env, lines: seq<string>): (ms: seq<Meaning>)
    ensures |ms| == |lines| && forall i :: 0 <= i < |ms| ==> ms[i] == MeaningOf(env, lines[i])
  {
    seq(|lines|, i requires 0 <= i < |lines| => MeaningOf(env, lines[i]))
  }

  function Declared(ms: seq<Meaning>): seq<Channel> {
    if ms == [] then []
    else
      var m := ms[|ms| - 1];
      Declared(ms[..|ms| - 1]) + if m.Declares? then [m.channel] else []
  }

  function Alerted(ms: seq<Meaning>): seq<Rule> {
    if ms == [] then []
    else
      var m := ms[|ms| - 1];
      Alerted(ms[..|ms| - 1]) + if m.Alerts? then [m.rule] else []
  }

  ghost predicate DeclaredBefore(ms: seq<Meaning>, j: nat, name: string) {
    exists i :: 0 <= i < j && i < |ms| && ms[i].Declares? && ms[i].channel.name == name
  }

  /** No line is broken, no channel is declared twice, and every rule's channel is declared on an earlier line. */
  ghost predicate Consistent(ms: seq<Meaning>) {
    && (forall i :: 0 <= i < |ms| ==> !ms[i].Broken?)
    && (forall j :: 0 <= j < |ms| && ms[j].Declares? ==> !DeclaredBefore(ms, j, ms[j].channel.name))
    && (forall j :: 0 <= j < |ms| && ms[j].Alerts? ==> DeclaredBefore(ms, j, ms[j].rule.channel))
  }

  lemma {:induction false} DeclaredNames(ms: seq<Meaning>, name: string)
    ensures name in NamesOf(Declared(ms)) <==> DeclaredBefore(ms, |ms|, name)
  {
    if ms != [] {
      var init, m := ms[..|ms| - 1], ms[|ms| - 1];
      DeclaredNames(init, name);
      if m.Declares? {
        OneNameMore(Declared(init), m.channel);
        assert Declared(ms) == Declared(init) + [m.channel];
      } else {
        assert Declared(ms) == Declared(init);
      }
      DeclaredGrows(init, m, name);
    }
  }

  lemma DeclaredGrows(init: seq<Meaning>, m: Meaning, name: string)
    ensures DeclaredBefore(init + [m], |init| + 1, name) <==>
            DeclaredBefore(init, |init|, name) || (m.Declares? && m.channel.name == name)
    ensures forall j: nat :: j <= |init| ==> (DeclaredBefore(init + [m], j, name) <==> DeclaredBefore(init, j, name))
  {
    var ms := init + [m];
    assert forall i :: 0 <= i < |init| ==> ms[i] == init[i];
    assert ms[|init|] == m;
  }

  lemma HoldsOneMore(ms: seq<Meaning>, m: Meaning)
    ensures Declared(ms + [m]) == if m.Declares? then Declared(ms) + [m.channel] else Declared(ms)
    ensures Alerted(ms + [m]) == if m.Alerts? then Alerted(ms) + [m.rule] else Alerted(ms)
  {
    assert (ms + [m])[..|ms|] == ms;
  }

  lemma ConsistentOneMore(init: seq<Meaning>, m: Meaning)
    ensures Consistent(init + [m]) <==>
            && Consistent(init) && !m.Broken?
            && (m.Declares? ==> !DeclaredBefore(init, |init|, m.channel.name))
            && (m.Alerts? ==> DeclaredBefore(init, |init|, m.rule.channel))
  {
    hide DeclaredBefore;
    var ms := init + [m];
    assert ms[|init|] == m;
    forall j | 0 <= j < |init| ensures ms[j] == init[j] {
    }
    forall name, j: nat | j <= |init| ensures DeclaredBefore(ms, j, name) <==> DeclaredBefore(init, j, name) {
      DeclaredGrows(init, m, name);
    }
  }

  lemma ConsistentGrows(init: seq<Meaning>, m: Meaning, cfg: Config)
    requires cfg == Config(Declared(init), Alerted(init))
    ensures Consistent(init + [m]) <==> Consistent(init) && Complaint(cfg, m).None?
    ensures Complaint(cfg, m).None? ==> Grown(cfg, m) == Config(Declared(init + [m]), Alerted(init + [m]))
  {
    hide NamesOf, DeclaredBefore, Consistent, Declared, Alerted;
    ConsistentOneMore(init, m);
    HoldsOneMore(init, m);
    match m
    case Declares(ch) => DeclaredNames(init, ch.name);
    case Alerts(rule) => DeclaredNames(init, rule.channel);
    case _ =>
  }

  /** A file is accepted exactly when its lines are consistent, and then holds what they declare, in order. */
  lemma {:induction false} AcceptsIff(env: Env, lines: seq<string>)
    ensures ParseAll(env, lines).Accepted? <==> Consistent(Meanings(env, lines))
    ensures ParseAll(env, lines).Accepted? ==>
              ParseAll(env, lines).config == Config(Declared(Meanings(env, lines)), Alerted(Meanings(env, lines)))
  {
    hide MeaningOf, Complaint, Consistent, Grown;
    if lines == [] {
      NothingIsConsistent(Meanings(env, lines));
    } else {
      var n := |lines| - 1;
      AcceptsIff(env, lines[..n]);
      var before, m := Meanings(env, lines[..n]), MeaningOf(env, lines[n]);
      assert Meanings(env, lines) == before + [m];
      ConsistentGrows(before, m, Config(Declared(before), Alerted(before)));
    }
  }

  lemma NothingIsConsistent(ms: seq<Meaning>)
    requires ms == []
    ensures Consistent(ms) && Declared(ms) == [] && Alerted(ms) == []
  {
  }

  /** A rejected file is blamed on its first line that does not fit the lines before it. */
  lemma {:induction false} RejectsIff(env: Env, lines: seq<string>, n: nat, p: Problem)
    ensures ParseAll(env, lines) == Rejected(n, p) <==>
            && 1 <= n <= |lines|
            && Consistent(Meanings(env, lines[..n - 1]))
            && var ms := Meanings(env, lines[..n - 1]);
               Complaint(Config(Declared(ms), Alerted(ms)), MeaningOf(env, lines[n - 1])) == Some(p)
  {
    hide MeaningOf, Complaint, Consistent, Grown, Declared, Alerted, Meanings, ParseAll;
    if 1 <= n <= |lines| {
      AcceptsIff(env, lines[..n - 1]);
      if ParseAll(env, lines[..n - 1]).Accepted? {
        OneLineMore(env, lines, n - 1);
        if ParseAll(env, lines[..n]).Rejected? {
          RejectionStands(env, lines, n);
        } else {
          LaterRejection(env, lines, n);
        }
      } else {
        RejectionStands(env, lines, n - 1);
        LineOfRejection(env, lines[..n - 1]);
      }
    } else {
      LineOfRejection(env, lines);
    }
  }

  lemma {:induction false} LineOfRejection(env: Env, lines: seq<string>)
    ensures ParseAll(env, lines).Rejected? ==> 1 <= ParseAll(env, lines).line <= |lines|
  {
    hide MeaningOf, Complaint, Grown;
    if lines != [] {
      LineOfRejection(env, lines[..|lines| - 1]);
    }
  }

  lemma {:induction false} LaterRejection(env: Env, lines: seq<string>, n: nat)
    requires n <= |lines| && ParseAll(env, lines[..n]).Accepted?
    ensures ParseAll(env, lines).Rejected? ==> ParseAll(env, lines).line > n
  {
    hide MeaningOf, Complaint, Grown;
    if n == |lines| {
      assert lines[..n] == lines;
    } else {
      assert lines[..|lines| - 1][..n] == lines[..n];
      LaterRejection(env, lines[..|lines| - 1], n);
    }
  }

  // ----- accepted configurations are closed -----

  /** A parsed rule watches a well-formed metrics stream, whose path prints as it was written. */
  lemma ParsedRuleIsGood(env: Env, args: seq<string>)
    requires ParseAlert(env, args).Fine?
    ensures var rule := ParseAlert(env, args).value;
            && LiveView.GoodStream(rule.stream)
            && |args| > 0 && Paths.PathString(rule.stream) == args[0]
            && (rule.op == Absent <==> |args| >= 2 && args[1] == "absent")
  {
    hide Paths.Parse, Paths.Print;
    Paths.PrintOfParse(args[0]);
    var p := Paths.Parse(args[0]).value;
    assert Paths.PathOf(Paths.IdOf(p)) == p;
  }

  ghost predicate DistinctNames(channels: seq<Channel>) {
    forall i, j :: 0 <= i < j < |channels| ==> channels[i].name != channels[j].name
  }

  /** Channel names are distinct, and every rule has a channel and a stream the dashboard can parse. */
  ghost predicate Closed(cfg: Config) {
    && DistinctNames(cfg.channels)
    && (forall k :: 0 <= k < |cfg.rules| ==> cfg.rules[k].channel in NamesOf(cfg.channels))
    && LiveView.AllGood(cfg.rules)
  }

  lemma GrownStaysClosed(env: Env, line: string, cfg: Config)
    requires Closed(cfg) && Complaint(cfg, MeaningOf(env, line)).None?
    ensures Closed(Grown(cfg, MeaningOf(env, line)))
  {
    hide ParseChannel, ParseAlert, TrimSpace, Fields, Replaced, LiveView.GoodStream;
    var m := MeaningOf(env, line);
    match m
    case Declares(ch) =>
      OneNameMore(cfg.channels, ch);
      assert forall k :: 0 <= k < |cfg.channels| ==> cfg.channels[k].name in NamesOf(cfg.channels);
    case Alerts(rule) =>
      var text := ExpandLine(TrimSpace(line), env.lookup).0;
      ParsedRuleIsGood(env, Fields(text)[1..]);
    case _ =>
  }

  lemma {:induction false} AcceptedIsClosed(env: Env, lines: seq<string>)
    requires ParseAll(env, lines).Accepted?
    ensures Closed(ParseAll(env, lines).config)
  {
    hide MeaningOf, Complaint, Grown, Closed;
    if lines == [] {
      assert Closed(Config([], [])) by { EmptyIsClosed(); }
    } else {
      AcceptedIsClosed(env, lines[..|lines| - 1]);
      GrownStaysClosed(env, lines[|lines| - 1], ParseAll(env, lines[..|lines| - 1]).config);
    }
  }

  lemma EmptyIsClosed()
    ensures Closed(Config([], []))
  {
  }

  /** The rules as the dashboard receives them. */
  function Wire(rules: seq<Rule>): (rs: seq<KpiTree.WireRule>)
    ensures |rs| == |rules| && forall k :: 0 <= k < |rs| ==> rs[k] == LiveView.WireOf(rules[k])
  {
    seq(|rules|, k requires 0 <= k < |rules| => LiveView.WireOf(rules[k]))
  }

  lemma WireParses(rules: seq<Rule>)
    requires LiveView.AllGood(rules)
    ensures KpiTree.AllParse(Wire(rules))
  {
    hide LiveView.GoodStream, Paths.TsParse, Paths.Print;
    forall k | 0 <= k < |rules| ensures KpiTree.Parses(Wire(rules)[k]) {
      LiveView.StreamParses(rules[k].stream);
    }
  }

  lemma {:induction false} OnItsPath(rs: seq<KpiTree.WireRule>, k: nat)
    requires k < |rs|
    ensures rs[k] in KpiTree.RulesOn(rs, rs[k].path)
  {
    var n := |rs| - 1;
    if k < n {
      OnItsPath(rs[..n], k);
    } else {
      assert KpiTree.RulesOn(rs, rs[k].path) == KpiTree.RulesOn(rs[..n], rs[k].path) + [rs[k]];
    }
  }

  /** Every rule of an accepted file is in the tree as it was written: under its path, with its comparison, threshold,
    hold time and channel. */
  lemma AcceptedRuleIsInTree(env: Env, lines: seq<string>, k: nat) returns (kpi: KpiTree.Kpi, r: KpiTree.WireRule)
    requires ParseAll(env, lines).Accepted? && k < |ParseAll(env, lines).config.rules|
    ensures var rules := ParseAll(env, lines).config.rules;
            && KpiTree.AllParse(Wire(rules)) && KpiTree.InTree(KpiTree.Grouped(Wire(rules)), kpi) && r in kpi.rules
            && kpi.ns == rules[k].stream.ns && kpi.svc == rules[k].stream.svc && kpi.name == rules[k].stream.name
            && r.op == rules[k].op && r.threshold == rules[k].threshold && r.hold == rules[k].hold
            && r.channel == rules[k].channel && r.path == kpi.path == Paths.PathString(rules[k].stream)
  {
    hide ParseAll, KpiTree.Grouped, KpiTree.InTree, Paths.TsParse, KpiTree.RulesOn, Paths.PathString, DistinctNames,
      NamesOf;
    AcceptedIsClosed(env, lines);
    AcceptedFileIsGrouped(env, lines);
    var rules := ParseAll(env, lines).config.rules;
    var rs := Wire(rules);
    r := rs[k];
    LiveView.StreamParses(rules[k].stream);
    kpi := KpiTree.KpiOf(rs, r.path);
    assert r in rs;
  }

  /** From text to dashboard: the tree of an accepted file can be built, holds every rule under its path, and holds
    for each of its paths exactly the rules on it, in file order. */
  lemma AcceptedFileIsGrouped(env: Env, lines: seq<string>)
    requires ParseAll(env, lines).Accepted?
    ensures var rs := Wire(ParseAll(env, lines).config.rules);
            && KpiTree.AllParse(rs)
            && (forall k :: 0 <= k < |rs| ==>
                  && KpiTree.InTree(KpiTree.Grouped(rs), KpiTree.KpiOf(rs, rs[k].path))
                  && rs[k] in KpiTree.KpiOf(rs, rs[k].path).rules)
            && (forall kpi :: KpiTree.InTree(KpiTree.Grouped(rs), kpi) ==>
                  kpi.rules == KpiTree.RulesOn(rs, kpi.path) && kpi.rules != [])
  {
    hide ParseAll, KpiTree.Grouped, KpiTree.InTree, Paths.TsParse, KpiTree.RulesOn, LiveView.GoodStream, DistinctNames,
      NamesOf;
    AcceptedIsClosed(env, lines);
    var rules := ParseAll(env, lines).config.rules;
    var rs := Wire(rules);
    WireParses(rules);
    forall k | 0 <= k < |rs|
      ensures KpiTree.InTree(KpiTree.Grouped(rs), KpiTree.KpiOf(rs, rs[k].path))
      ensures rs[k] in KpiTree.KpiOf(rs, rs[k].path).rules
    {
      OnItsPath(rs, k);
      KpiTree.TreeHolds(rs, KpiTree.KpiOf(rs, rs[k].path));
    }
    forall kpi | KpiTree.InTree(KpiTree.Grouped(rs), kpi)
      ensures kpi.rules == KpiTree.RulesOn(rs, kpi.path) && kpi.rules != []
    {
      KpiTree.TreeHolds(rs, kpi);
      var k :| 0 <= k < |rs| && rs[k].path == kpi.path;
      OnItsPath(rs, k);
    }
  }
}
