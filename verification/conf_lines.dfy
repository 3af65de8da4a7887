/** What the lines of alert.conf do, read off the file as it is written (internal/adapter/alertconf/alertconf.go).

  Comments, blank lines and white space have no effect; a rule or channel line is taken exactly when it has the
  documented shape, and adds the rule or channel it spells. */
module ConfLines {
  import opened Domain
  import opened AlertConf
  import opened ConfText
  import ConfigClosure
  import Paths

  // ----- white space -----

  ghost predicate Blank(s: string) { forall i :: 0 <= i < |s| ==> IsSpace(s[i]) }

  /** White space within ASCII. */
  lemma AsciiSpaces(c: char)
    requires c < '\U{80}'
    ensures IsSpace(c) <==> c == ' ' || c == '\t' || c == '\n' || c == '\r' || c == '\U{B}' || c == '\U{C}'
  {
  }

  lemma {:induction false} TrimLeftOfPadded(pad: string, s: string)
    requires Blank(pad)
    ensures TrimLeft(pad + s) == TrimLeft(s)
  {
    if pad == "" {
      assert pad + s == s;
    } else {
      assert (pad + s)[1..] == pad[1..] + s && (pad + s)[0] == pad[0];
      TrimLeftOfPadded(pad[1..], s);
    }
  }

  lemma {:induction false} TrimRightOfPadded(s: string, pad: string)
    requires Blank(pad)
    ensures TrimRight(s + pad) == TrimRight(s)
  {
    if pad == "" {
      assert s + pad == s;
    } else {
      var n := |pad| - 1;
      assert (s + pad)[..|s + pad| - 1] == s + pad[..n] && (s + pad)[|s + pad| - 1] == pad[n];
      TrimRightOfPadded(s, pad[..n]);
    }
  }

  /** Only blanks are cut off on the left. */
  lemma {:induction false} TrimLeftCuts(s: string) returns (pad: string)
    ensures Blank(pad) && s == pad + TrimLeft(s) && (TrimLeft(s) == "" || !IsSpace(TrimLeft(s)[0]))
  {
    pad := "";
    if s != "" && IsSpace(s[0]) {
      var rest := TrimLeftCuts(s[1..]);
      pad := [s[0]] + rest;
      assert s == [s[0]] + s[1..];
    }
  }

  lemma {:induction false} TrimLeftPast(s: string, pad: string)
    requires Blank(pad)
    ensures TrimLeft(s) == "" ==> TrimRight(TrimLeft(s + pad)) == ""
    ensures TrimLeft(s) != "" ==> TrimLeft(s + pad) == TrimLeft(s) + pad
  {
    if s == "" {
      assert s + pad == pad && pad + "" == pad;
      TrimLeftOfPadded(pad, "");
    } else {
      assert (s + pad)[1..] == s[1..] + pad && (s + pad)[0] == s[0];
      if IsSpace(s[0]) {
        TrimLeftPast(s[1..], pad);
      }
    }
  }

  /** White space around a text is cut off. */
  lemma TrimOfPadded(left: string, s: string, right: string)
    requires Blank(left) && Blank(right)
    ensures TrimSpace(left + s + right) == TrimSpace(s)
  {
    assert left + s + right == left + (s + right);
    TrimLeftOfPadded(left, s + right);
    TrimLeftPast(s, right);
    TrimRightOfPadded(TrimLeft(s), right);
  }

  lemma TrimOfBlank(s: string)
    requires Blank(s)
    ensures TrimSpace(s) == ""
  {
    TrimOfPadded(s, "", "");
    assert s + "" + "" == s;
  }

  lemma {:induction false} TrimRightStarts(c: char, s: string)
    requires !IsSpace(c)
    ensures TrimRight([c] + s) != "" && TrimRight([c] + s)[0] == c
  {
    if s != "" && IsSpace(s[|s| - 1]) {
      assert ([c] + s)[..|[c] + s| - 1] == [c] + s[..|s| - 1];
      TrimRightStarts(c, s[..|s| - 1]);
    }
  }

  // ----- lines that have no effect -----

  /** White space only, or a comment: '#' first but for white space, and any text. */
  ghost predicate NoEffect(line: string) {
    Blank(line) || exists pad, text :: Blank(pad) && line == pad + ("#" + text)
  }

  lemma NoEffectMeansNothing(env: Env, line: string)
    requires NoEffect(line)
    ensures MeaningOf(env, line) == Nothing
  {
    if Blank(line) {
      TrimOfBlank(line);
    } else {
      var pad, text :| Blank(pad) && line == pad + ("#" + text);
      TrimOfPadded(pad, "#" + text, "");
      assert pad + ("#" + text) + "" == line;
      AsciiSpaces('#');
      TrimRightStarts('#', text);
    }
  }

  /** The same outcome, blamed on a later line if the blame falls behind `n`. */
  function MovedDown(r: Parsed, n: nat): Parsed {
    match r
    case Accepted(cfg) => Accepted(cfg)
    case Rejected(line, p) => Rejected(if line <= n then line else line + 1, p)
  }

  lemma {:induction false} NothingInserted(env: Env, before: seq<string>, line: string, after: seq<string>)
    requires MeaningOf(env, line) == Nothing
    ensures ParseAll(env, before + [line] + after) == MovedDown(ParseAll(env, before + after), |before|)
  {
    hide MeaningOf;
    var all, without := before + [line] + after, before + after;
    if after == [] {
      assert all == before + [line] && without == before && all[..|all| - 1] == before;
      ConfigClosure.LineOfRejection(env, before);
    } else {
      var n := |after| - 1;
      NothingInserted(env, before, line, after[..n]);
      assert all[..|all| - 1] == before + [line] + after[..n] && all[|all| - 1] == after[n];
      assert without[..|without| - 1] == before + after[..n] && without[|without| - 1] == after[n];
    }
  }

  /** A blank line or a comment anywhere changes nothing but the numbers of the lines behind it; what a comment says,
    and what it refers to, is never looked at. */
  lemma CommentsChangeNothing(env: Env, before: seq<string>, line: string, after: seq<string>)
    requires NoEffect(line)
    ensures ParseAll(env, before + [line] + after) == MovedDown(ParseAll(env, before + after), |before|)
  {
    NoEffectMeansNothing(env, line);
    NothingInserted(env, before, line, after);
  }

  /** White space around a line changes nothing. */
  lemma PaddingChangesNothing(env: Env, before: seq<string>,
                              left: string, line: string, right: string, after: seq<string>)
    requires Blank(left) && Blank(right)
    ensures ParseAll(env, before + [left + line + right] + after) == ParseAll(env, before + [line] + after)
  {
    TrimOfPadded(left, line, right);
    SameMeaning(env, before, left + line + right, line, after);
  }

  lemma {:induction false} SameMeaning(env: Env, before: seq<string>, a: string, b: string, after: seq<string>)
    requires MeaningOf(env, a) == MeaningOf(env, b)
    ensures ParseAll(env, before + [a] + after) == ParseAll(env, before + [b] + after)
  {
    hide MeaningOf, Complaint, Grown;
    var x, y := before + [a] + after, before + [b] + after;
    if after == [] {
      assert x == before + [a] && y == before + [b];
      assert x[..|x| - 1] == before == y[..|y| - 1];
    } else {
      var n := |after| - 1;
      SameMeaning(env, before, a, b, after[..n]);
      assert x[..|x| - 1] == before + [a] + after[..n] && y[..|y| - 1] == before + [b] + after[..n];
      assert x[|x| - 1] == after[n] == y[|y| - 1];
    }
  }

  // ----- words -----

  /** Words with white space between them, as much as one likes. */
  function Spaced(ws: seq<string>, gaps: seq<string>): string
    requires |gaps| == |ws|
  {
    if ws == [] then "" else ws[0] + (gaps[0] + Spaced(ws[1..], gaps[1..]))
  }

  /** There is some white space behind each word but the last, which ends the text. */
  ghost predicate GoodGaps(gaps: seq<string>) {
    gaps != [] ==> gaps[|gaps| - 1] == "" && forall i :: 0 <= i < |gaps| - 1 ==> gaps[i] != "" && Blank(gaps[i])
  }

  lemma {:induction false} FieldsSkip(pad: string, s: string)
    requires Blank(pad)
    ensures Fields(pad + s) == Fields(s)
  {
    if pad == "" {
      assert pad + s == s;
    } else {
      assert (pad + s)[1..] == pad[1..] + s && (pad + s)[0] == pad[0];
      FieldsSkip(pad[1..], s);
    }
  }

  /** They are found again, however they are spaced. */
  lemma {:induction false} FieldsOfSpaced(ws: seq<string>, gaps: seq<string>)
    requires |gaps| == |ws| && AllWords(ws) && GoodGaps(gaps)
    ensures Fields(Spaced(ws, gaps)) == ws
  {
    hide IsSpace, Word;
    if ws != [] {
      var rest := Spaced(ws[1..], gaps[1..]);
      FieldsOfSpaced(ws[1..], gaps[1..]);
      if |ws| == 1 {
        assert gaps[0] == "" && rest == "" && gaps[0] + rest == "";
        FirstField(ws[0], "");
        assert ws == [ws[0]] + [];
      } else {
        assert Blank(gaps[0]) && (gaps[0] + rest)[0] == gaps[0][0];
        FirstField(ws[0], gaps[0] + rest);
        FieldsSkip(gaps[0], rest);
        assert ws == [ws[0]] + ws[1..];
      }
    }
  }

  lemma {:induction false} SpacedEnds(ws: seq<string>, gaps: seq<string>)
    requires |gaps| == |ws| && AllWords(ws) && GoodGaps(gaps) && ws != []
    ensures var s := Spaced(ws, gaps); s != "" && s[0] == ws[0][0] && !IsSpace(s[0]) && !IsSpace(s[|s| - 1])
  {
    hide IsSpace;
    if |ws| > 1 {
      SpacedEnds(ws[1..], gaps[1..]);
      var rest := Spaced(ws[1..], gaps[1..]);
      assert Spaced(ws, gaps) == ws[0] + gaps[0] + rest;
    } else {
      assert Spaced(ws, gaps) == ws[0];
    }
  }

  /** A line of these words: it is no comment, and refers to nothing in the environment. */
  ghost predicate IsLineOf(env: Env, line: string, ws: seq<string>) {
    && ws != [] && AllWords(ws) && ws[0][0] != '#'
    && (exists gaps :: |gaps| == |ws| && GoodGaps(gaps) && line == Spaced(ws, gaps))
    && (env.lookup.Some? ==> NoRefIn(line, ""))
  }

  lemma LineMeans(env: Env, line: string, ws: seq<string>)
    requires IsLineOf(env, line, ws)
    ensures MeaningOf(env, line) == WordsMean(env, ws)
  {
    hide IsSpace, Replaced, NoRefIn, Fields, TrimSpace, WordsMean;
    var gaps :| |gaps| == |ws| && GoodGaps(gaps) && line == Spaced(ws, gaps);
    FieldsOfSpaced(ws, gaps);
    SpacedEnds(ws, gaps);
    NothingToTrim(line);
    if env.lookup.Some? {
      BareDollarsStay(line, env.lookup.value);
    }
  }

  lemma NextLine(env: Env, lines: seq<string>, line: string)
    requires ParseAll(env, lines).Accepted?
    ensures var cfg, m := ParseAll(env, lines).config, MeaningOf(env, line);
            ParseAll(env, lines + [line]) ==
            if Complaint(cfg, m).Some? then Rejected(|lines| + 1, Complaint(cfg, m).value) else Accepted(Grown(cfg, m))
  {
    hide MeaningOf, Complaint, Grown;
    assert (lines + [line])[..|lines|] == lines;
  }

  ghost predicate IsDeclared(cfg: Config, name: string) {
    exists k :: 0 <= k < |cfg.channels| && cfg.channels[k].name == name
  }

  // ----- rule lines -----

  /** "<path> <op> <threshold> for <duration> to <channel>" or "<path> absent for <duration> to <channel>". */
  ghost predicate SpellsRule(env: Env, args: seq<string>, rule: Rule) {
    && (|args| == 7 || (|args| == 6 && args[1] == "absent"))
    && rule.stream.kind == Metrics
    && Paths.RegexMatches(args[0], Paths.Parts(rule.stream.ns, rule.stream.svc, rule.stream.name))
    && var rest := if |args| == 7 then args[3..] else args[2..];
       && rest[0] == "for" && rest[2] == "to"
       && env.parseDuration(rest[1]) == Some(rule.hold) && rest[3] == rule.channel
       && if |args| == 7 then SpellsComparison(args[1], rule.op) && env.parseFloat(args[2]) == Some(rule.threshold)
          else rule.op == Absent && env.parseFloat("0") == Some(rule.threshold)
  }

  predicate SpellsComparison(word: string, op: Op) {
    || (word == ">" && op == Greater) || (word == ">=" && op == GreaterEq)
    || (word == "<" && op == Less) || (word == "<=" && op == LessEq)
  }

  lemma SpelledIsParsed(env: Env, args: seq<string>, rule: Rule)
    ensures SpellsRule(env, args, rule) <==> ParseAlert(env, args) == Fine(rule)
  {
    hide Paths.Parse, Paths.TsParse, Paths.RegexMatches;
    if |args| > 0 {
      PathIsSpelled(args[0], rule.stream);
    }
    if |args| == 6 && args[1] == "absent" {
      var a := Spliced(args);
      assert a == [args[0], args[1], "0", args[2], args[3], args[4], args[5]];
    }
  }

  lemma PathIsSpelled(path: string, id: StreamID)
    ensures id.kind == Metrics && Paths.RegexMatches(path, Paths.Parts(id.ns, id.svc, id.name)) <==>
            && Paths.Parse(path).Ok? && Paths.DepthOf(Paths.Parse(path).value) == Paths.DepthStream
            && Paths.Parse(path).value.kind == Metrics && Paths.IdOf(Paths.Parse(path).value) == id
  {
    hide Paths.Parse, Paths.TsParse, Paths.RegexMatches;
    Paths.TsParseIsRegex(path, Paths.Parts(id.ns, id.svc, id.name));
    Paths.ParsersAgree(path, Paths.Parts(id.ns, id.svc, id.name));
  }

  /** After an accepted file, a rule line is accepted exactly when it spells a rule whose channel is declared, and
    adds that rule. */
  lemma RuleLineIff(env: Env, lines: seq<string>, line: string, args: seq<string>)
    requires ParseAll(env, lines).Accepted? && IsLineOf(env, line, ["alert"] + args)
    ensures var cfg := ParseAll(env, lines).config;
            && (forall rule :: SpellsRule(env, args, rule) && IsDeclared(cfg, rule.channel) ==>
                  ParseAll(env, lines + [line]) == Accepted(cfg.(rules := cfg.rules + [rule])))
            && ((forall rule :: SpellsRule(env, args, rule) ==> !IsDeclared(cfg, rule.channel)) ==>
                  ParseAll(env, lines + [line]).Rejected? && ParseAll(env, lines + [line]).line == |lines| + 1)
  {
    hide ParseAll, MeaningOf, ParseAlert, SpellsRule, IsLineOf;
    var cfg := ParseAll(env, lines).config;
    LineMeans(env, line, ["alert"] + args);
    NextLine(env, lines, line);
    AlertWord(env, args);
    forall rule ensures SpellsRule(env, args, rule) <==> ParseAlert(env, args) == Fine(rule) {
      SpelledIsParsed(env, args, rule);
    }
    if ParseAlert(env, args).Fine? {
      var rule := ParseAlert(env, args).value;
      assert SpellsRule(env, args, rule);
      DeclaredName(cfg, rule.channel);
    }
  }

  lemma AlertWord(env: Env, args: seq<string>)
    ensures WordsMean(env, ["alert"] + args) ==
            match ParseAlert(env, args) { case Fine(rule) => Alerts(rule) case Wrong(p) => Broken(p) }
  {
    assert (["alert"] + args)[1..] == args;
    assert "alert"[0] != "channel"[0];
  }

  lemma DeclaredName(cfg: Config, name: string)
    ensures name in NamesOf(cfg.channels) <==> IsDeclared(cfg, name)
  {
  }

  // ----- channel lines -----

  /** "<name> slack <webhook-url>" or "<name> slack-bot <bot-token> <channel-id>". */
  ghost predicate SpellsChannel(args: seq<string>, ch: Channel) {
    || (|args| == 3 && args[1] == "slack" && ch == Channel(args[0], "slack", args[2], "", ""))
    || (|args| == 4 && args[1] == "slack-bot" && ch == Channel(args[0], "slack-bot", "", args[2], args[3]))
  }

  lemma ChannelWord(env: Env, args: seq<string>)
    ensures WordsMean(env, ["channel"] + args) ==
            match ParseChannel(args) { case Fine(ch) => Declares(ch) case Wrong(p) => Broken(p) }
  {
    assert (["channel"] + args)[1..] == args;
  }

  /** After an accepted file, a channel line is accepted exactly when it spells a channel whose name is new, and adds
    that channel. */
  lemma ChannelLineIff(env: Env, lines: seq<string>, line: string, args: seq<string>)
    requires ParseAll(env, lines).Accepted? && IsLineOf(env, line, ["channel"] + args)
    ensures var cfg := ParseAll(env, lines).config;
            && (forall ch :: SpellsChannel(args, ch) && !IsDeclared(cfg, ch.name) ==>
                  ParseAll(env, lines + [line]) == Accepted(cfg.(channels := cfg.channels + [ch])))
            && ((forall ch :: SpellsChannel(args, ch) ==> IsDeclared(cfg, ch.name)) ==>
                  ParseAll(env, lines + [line]).Rejected? && ParseAll(env, lines + [line]).line == |lines| + 1)
  {
    hide ParseAll, MeaningOf, IsLineOf;
    var cfg := ParseAll(env, lines).config;
    LineMeans(env, line, ["channel"] + args);
    NextLine(env, lines, line);
    ChannelWord(env, args);
    assert "slack" != "slack-bot" by {
      assert |"slack"| != |"slack-bot"|;
    }
    forall ch ensures SpellsChannel(args, ch) <==> ParseChannel(args) == Fine(ch) {
    }
    if ParseChannel(args).Fine? {
      var ch := ParseChannel(args).value;
      assert SpellsChannel(args, ch);
      DeclaredName(cfg, ch.name);
    }
  }

  /** Any other first word is refused by its name. */
  lemma OtherLinesAreRefused(env: Env, lines: seq<string>, line: string, ws: seq<string>)
    requires ParseAll(env, lines).Accepted? && IsLineOf(env, line, ws) && ws[0] != "alert" && ws[0] != "channel"
    ensures ParseAll(env, lines + [line]) == Rejected(|lines| + 1, UnknownDirective(ws[0]))
  {
    hide ParseAll, MeaningOf, IsLineOf;
    assert ws != [] by {
      LineHasWords(env, line, ws);
    }
    LineMeans(env, line, ws);
    NextLine(env, lines, line);
  }

  lemma LineHasWords(env: Env, line: string, ws: seq<string>)
    requires IsLineOf(env, line, ws)
    ensures ws != []
  {
  }

  // ----- what a refused line is told -----

  /** The complaints about a rule line, in the order they are looked for. */
  lemma RuleComplaints(env: Env, lines: seq<string>, line: string, args: seq<string>)
    requires ParseAll(env, lines).Accepted? && IsLineOf(env, line, ["alert"] + args)
    requires |args| == 7 && args[1] != "absent"
    ensures var r, n := ParseAll(env, lines + [line]), |lines| + 1;
            if args[3] != "for" || args[5] != "to" then r == Rejected(n, AlertUsage)
            else if Paths.Parse(args[0]).Err? then r == Rejected(n, BadPath(Paths.Parse(args[0]).error))
            else if Paths.TsParse(args[0]).None? then r == Rejected(n, NotMetrics(args[0]))
            else if args[1] != ">" && args[1] != ">=" && args[1] != "<" && args[1] != "<=" then
              r == Rejected(n, BadComparison(args[1]))
            else if env.parseFloat(args[2]).None? then r == Rejected(n, BadThreshold(args[2]))
            else if env.parseDuration(args[4]).None? then r == Rejected(n, BadDuration(args[4]))
            else if !IsDeclared(ParseAll(env, lines).config, args[6]) then r == Rejected(n, UnknownChannel(args[6]))
            else r.Accepted?
  {
    hide ParseAll, MeaningOf, IsLineOf, Paths.Parse, Paths.TsParse;
    LineMeans(env, line, ["alert"] + args);
    NextLine(env, lines, line);
    AlertWord(env, args);
    DeclaredName(ParseAll(env, lines).config, args[6]);
    if Paths.Parse(args[0]).Ok? {
      MetricsFileIff(args[0]);
    }
  }

  lemma MetricsFileIff(path: string)
    requires Paths.Parse(path).Ok?
    ensures Paths.TsParse(path).Some? <==>
            Paths.DepthOf(Paths.Parse(path).value) == Paths.DepthStream && Paths.Parse(path).value.kind == Metrics
  {
    hide Paths.Parse, Paths.TsParse;
    var p := Paths.Parse(path).value;
    Paths.ParsersAgree(path, Paths.Parts(p.ns, p.svc, p.name));
    if Paths.TsParse(path).Some? {
      Paths.ParsersAgree(path, Paths.TsParse(path).value);
    }
  }

  /** A rule or channel line of the wrong length, an unknown type and a repeated name. */
  lemma OtherComplaints(env: Env, lines: seq<string>, line: string, args: seq<string>)
    requires ParseAll(env, lines).Accepted?
    ensures IsLineOf(env, line, ["alert"] + args) && |args| != 7 && (|args| != 6 || args[1] != "absent") ==>
              ParseAll(env, lines + [line]) == Rejected(|lines| + 1, AlertUsage)
    ensures IsLineOf(env, line, ["channel"] + args) ==>
              var r, n := ParseAll(env, lines + [line]), |lines| + 1;
              if |args| < 2 then r == Rejected(n, ChannelUsage)
              else if args[1] != "slack" && args[1] != "slack-bot" then r == Rejected(n, UnsupportedType(args[1]))
              else if |args| != (if args[1] == "slack" then 3 else 4) then r == Rejected(n, ChannelUsage)
              else if IsDeclared(ParseAll(env, lines).config, args[0]) then r == Rejected(n, DeclaredTwice(args[0]))
              else r.Accepted?
  {
    hide ParseAll, MeaningOf, IsLineOf, Paths.Parse;
    NextLine(env, lines, line);
    if IsLineOf(env, line, ["alert"] + args) {
      LineMeans(env, line, ["alert"] + args);
      AlertWord(env, args);
    }
    if IsLineOf(env, line, ["channel"] + args) {
      LineMeans(env, line, ["channel"] + args);
      ChannelWord(env, args);
      if |args| >= 2 {
        DeclaredName(ParseAll(env, lines).config, args[0]);
        assert args[1] == "slack-bot" ==> args[1] != "slack" by {
          assert |"slack"| != |"slack-bot"|;
        }
      }
    }
  }

  /** A line, not a comment, that refers to a name which is not set is refused with the first such reference. */
  lemma UnsetIsRefused(env: Env, lines: seq<string>, ps: seq<Piece>)
    requires ParseAll(env, lines).Accepted? && env.lookup.Some? && GoodPieces(ps)
    requires var line := WrittenAll(ps); line != "" && TrimSpace(line) == line && line[0] != '#'
    requires FirstUnset(ps, env.lookup.value).Some?
    ensures ParseAll(env, lines + [WrittenAll(ps)]) ==
            Rejected(|lines| + 1, NotSet(FirstUnset(ps, env.lookup.value).value))
  {
    hide ParseAll, TrimSpace, Replaced, GoodPieces, FirstUnset, WrittenAll;
    ExpansionIsSubstitution(ps, env.lookup.value);
    NextLine(env, lines, WrittenAll(ps));
  }

  /** A line whose references are all set is read as if the values stood in their places. */
  lemma ValuesAreRead(env: Env, lines: seq<string>, ps: seq<Piece>, ws: seq<string>)
    requires ParseAll(env, lines).Accepted? && env.lookup.Some? && GoodPieces(ps)
    requires var line := WrittenAll(ps); line != "" && TrimSpace(line) == line && line[0] != '#'
    requires FirstUnset(ps, env.lookup.value).None? && Fields(ValueAll(ps, env.lookup.value)) == ws
    ensures forall plain :: IsLineOf(env, plain, ws) ==>
              ParseAll(env, lines + [WrittenAll(ps)]) == ParseAll(env, lines + [plain])
    ensures ws == [] ==> ParseAll(env, lines + [WrittenAll(ps)]) == ParseAll(env, lines)
  {
    hide ParseAll, TrimSpace, Replaced, GoodPieces, FirstUnset, WrittenAll, Fields, IsLineOf, WordsMean;
    ExpansionIsSubstitution(ps, env.lookup.value);
    NextLine(env, lines, WrittenAll(ps));
    forall plain | IsLineOf(env, plain, ws)
      ensures ParseAll(env, lines + [WrittenAll(ps)]) == ParseAll(env, lines + [plain])
    {
      LineMeans(env, plain, ws);
      NextLine(env, lines, plain);
    }
    if ws == [] {
      NoWords(env);
    }
  }

  lemma NoWords(env: Env)
    ensures WordsMean(env, []) == Nothing
  {
  }
}
