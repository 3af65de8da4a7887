/** The parser of alert.conf (internal/adapter/alertconf/alertconf.go).

  `ParseEnv` is the line loop. A declarative reading of a file, the meaning of each line and when the lines
  agree with each other, says exactly which files are accepted, what the configuration then is, and which line
  a rejected file is blamed on. Accepted configurations are closed: everything downstream can use them. */
module AlertConf {
  import opened Domain
  import opened ConfText
  import Paths

  datatype Channel = Channel(name: string, typ: string, url: string, token: string, channelID: string)

  datatype Config = Config(channels: seq<Channel>, rules: seq<Rule>)

  datatype Problem =
    | NotSet(ref: string)
    | UnknownDirective(word: string)
    | ChannelUsage
    | UnsupportedType(typ: string)
    | DeclaredTwice(name: string)
    | AlertUsage
    | BadPath(error: Paths.Error)
    | NotMetrics(path: string)
    | BadComparison(op: string)
    | BadThreshold(text: string)
    | BadDuration(text: string)
    | UnknownChannel(name: string)

  datatype Outcome<+T> = Fine(value: T) | Wrong(problem: Problem)

  /** What a file becomes; lines are counted from 1. */
  datatype Parsed = Accepted(config: Config) | Rejected(line: nat, problem: Problem)

  /** The environment, and the library's parsers of numbers and durations. */
  datatype Env = Env(lookup: Option<Lookup>, parseFloat: string -> Option<real>, parseDuration: string -> Option<int>)

  // ----- one directive -----

  function ParseChannel(args: seq<string>): Outcome<Channel> {
    if |args| < 2 then Wrong(ChannelUsage)
    else if args[1] == "slack" then
      if |args| != 3 then Wrong(ChannelUsage) else Fine(Channel(args[0], args[1], args[2], "", ""))
    else if args[1] == "slack-bot" then
      if |args| != 4 then Wrong(ChannelUsage) else Fine(Channel(args[0], args[1], "", args[2], args[3]))
    else Wrong(UnsupportedType(args[1]))
  }

  function ParseOp(s: string): Option<Op> {
    if s == ">" then Some(Greater)
    else if s == ">=" then Some(GreaterEq)
    else if s == "<" then Some(Less)
    else if s == "<=" then Some(LessEq)
    else if s == "absent" then Some(Absent)
    else None
  }

  /** The absent form gets a placeholder threshold. */
  function Spliced(args: seq<string>): seq<string> {
    if |args| >= 2 && args[1] == "absent" then [args[0], args[1], "0"] + args[2..] else args
  }

  function ParseAlert(env: Env, args: seq<string>): Outcome<Rule> {
    var a := Spliced(args);
    if |a| != 7 || a[3] != "for" || a[5] != "to" then Wrong(AlertUsage)
    else
      match Paths.Parse(a[0])
      case Err(e) => Wrong(BadPath(e))
      case Ok(p) =>
        if Paths.DepthOf(p) != Paths.DepthStream || p.kind != Metrics then Wrong(NotMetrics(a[0]))
        else if ParseOp(a[1]).None? then Wrong(BadComparison(a[1]))
        else if env.parseFloat(a[2]).None? then Wrong(BadThreshold(a[2]))
        else if env.parseDuration(a[4]).None? then Wrong(BadDuration(a[4]))
        else Fine(Rule(Paths.IdOf(p), ParseOp(a[1]).value, env.parseFloat(a[2]).value, env.parseDuration(a[4]).value,
                       a[6]))
  }

  // ----- the line loop -----

  function NamesOf(channels: seq<Channel>): set<string> { set k | 0 <= k < |channels| :: channels[k].name }

  function ExpandLine(line: string, lookup: Option<Lookup>): (string, Option<string>) {
    if lookup.None? then (line, None) else Replaced(line, lookup.value)
  }

  /** What a line says by itself. */
  datatype Meaning = Nothing | Declares(channel: Channel) | Alerts(rule: Rule) | Broken(problem: Problem)

  function MeaningOf(env: Env, raw: string): Meaning {
    var line := TrimSpace(raw);
    if line == "" || line[0] == '#' then Nothing
    else
      var (text, missing) := ExpandLine(line, env.lookup);
      if missing.Some? then Broken(NotSet(missing.value)) else WordsMean(env, Fields(text))
  }

  function WordsMean(env: Env, fields: seq<string>): Meaning {
    if fields == [] then Nothing
    else if fields[0] == "channel" then
      match ParseChannel(fields[1..]) { case Fine(ch) => Declares(ch) case Wrong(p) => Broken(p) }
    else if fields[0] == "alert" then
      match ParseAlert(env, fields[1..]) { case Fine(rule) => Alerts(rule) case Wrong(p) => Broken(p) }
    else Broken(UnknownDirective(fields[0]))
  }

  /** Why a line cannot follow what was configured so far. */
  function Complaint(cfg: Config, m: Meaning): Option<Problem> {
    match m
    case Nothing => None
    case Declares(ch) => if ch.name in NamesOf(cfg.channels) then Some(DeclaredTwice(ch.name)) else None
    case Alerts(rule) => if rule.channel in NamesOf(cfg.channels) then None else Some(UnknownChannel(rule.channel))
    case Broken(p) => Some(p)
  }

  function Grown(cfg: Config, m: Meaning): Config {
    match m
    case Declares(ch) => cfg.(channels := cfg.channels + [ch])
    case Alerts(rule) => cfg.(rules := cfg.rules + [rule])
    case _ => cfg
  }

  function ParseAll(env: Env, lines: seq<string>): Parsed {
    if lines == [] then Accepted(Config([], []))
    else
      match ParseAll(env, lines[..|lines| - 1])
      case Rejected(n, p) => Rejected(n, p)
      case Accepted(cfg) =>
        var m := MeaningOf(env, lines[|lines| - 1]);
        if Complaint(cfg, m).Some? then Rejected(|lines|, Complaint(cfg, m).value) else Accepted(Grown(cfg, m))
  }

  lemma {:induction false} RejectionStands(env: Env, lines: seq<string>, i: nat)
    requires i <= |lines| && ParseAll(env, lines[..i]).Rejected?
    ensures ParseAll(env, lines) == ParseAll(env, lines[..i])
  {
    hide MeaningOf, Complaint;
    if i == |lines| {
      assert lines[..i] == lines;
    } else {
      assert lines[..|lines| - 1][..i] == lines[..i];
      RejectionStands(env, lines[..|lines| - 1], i);
    }
  }

  lemma OneLineMore(env: Env, lines: seq<string>, i: nat)
    requires i < |lines| && ParseAll(env, lines[..i]).Accepted?
    ensures var cfg, m := ParseAll(env, lines[..i]).config, MeaningOf(env, lines[i]);
            ParseAll(env, lines[..i + 1]) ==
            if Complaint(cfg, m).Some? then Rejected(i + 1, Complaint(cfg, m).value) else Accepted(Grown(cfg, m))
  {
    hide MeaningOf, Complaint, Grown;
    assert lines[..i + 1][..i] == lines[..i];
  }

  lemma OneNameMore(channels: seq<Channel>, ch: Channel)
    ensures NamesOf(channels + [ch]) == NamesOf(channels) + {ch.name}
  {
    var more := channels + [ch];
    forall k | 0 <= k < |channels| ensures more[k] == channels[k] {
    }
    assert more[|channels|] == ch;
    forall n | n in NamesOf(channels) + {ch.name} ensures n in NamesOf(more) {
      if n in NamesOf(channels) {
        var k :| 0 <= k < |channels| && channels[k].name == n;
        assert more[k].name == n;
      }
    }
  }

  method ParseEnv(env: Env, lines: seq<string>) returns (r: Parsed)
    ensures r == ParseAll(env, lines)
  {
    hide ParseAll, TrimSpace, Fields, ParseChannel, ParseAlert, NamesOf, Replaced;
    var cfg := Config([], []);
    var seen: set<string> := {};
    NothingParsed(env, lines);
    for n := 0 to |lines|
      invariant ParseAll(env, lines[..n]) == Accepted(cfg)
      invariant seen == NamesOf(cfg.channels)
    {
      OneLineMore(env, lines, n);
      ghost var m := MeaningOf(env, lines[n]);
      var line := TrimSpace(lines[n]);
      if line == "" || line[0] == '#' {
        continue;
      }
      var text, missing := Expand(line, env.lookup);
      if missing.Some? {
        RejectionStands(env, lines, n + 1);
        return Rejected(n + 1, NotSet(missing.value));
      }
      var fields := Fields(text);
      if |fields| == 0 {
        continue;
      }
      var err: Option<Problem> := None;
      if fields[0] == "channel" {
        var ch := ParseChannel(fields[1..]);
        if ch.Wrong? {
          err := Some(ch.problem);
        } else if ch.value.name in seen {
          err := Some(DeclaredTwice(ch.value.name));
        } else {
          seen := seen + {ch.value.name};
          OneNameMore(cfg.channels, ch.value);
          cfg := cfg.(channels := cfg.channels + [ch.value]);
        }
      } else if fields[0] == "alert" {
        var rule := ParseAlert(env, fields[1..]);
        if rule.Wrong? {
          err := Some(rule.problem);
        } else if rule.value.channel !in seen {
          err := Some(UnknownChannel(rule.value.channel));
        } else {
          cfg := cfg.(rules := cfg.rules + [rule.value]);
        }
      } else {
        err := Some(UnknownDirective(fields[0]));
      }
      if err.Some? {
        RejectionStands(env, lines, n + 1);
        return Rejected(n + 1, err.value);
      }
    }
    assert lines[..|lines|] == lines;
    return Accepted(cfg);
  }

  lemma NothingParsed(env: Env, lines: seq<string>)
    ensures ParseAll(env, lines[..0]) == Accepted(Config([], []))
    ensures NamesOf([]) == {}
  {
  }
}
