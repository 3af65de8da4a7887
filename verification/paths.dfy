/** Paths of the virtual filesystem: the Go parser and printer (internal/domain/domain.go) and the
  dashboard's regular expression (webui/src/status.ts). The parser and the printer undo each other, and
  the two parsers accept the same metrics streams with the same components. */
module Paths {
  import opened Domain

  datatype Path = Path(ns: string, svc: string, kind: Kind, name: string)

  datatype Error = BadPath | NotFound | NotDir | IsDir

  datatype Result<+T> = Ok(value: T) | Err(error: Error)

  datatype Depth = DepthRoot | DepthNamespace | DepthService | DepthKind | DepthStream

  const ROOT := Path("", "", KindNone, "")
  const DAT := ".dat"

  function PathOf(id: StreamID): Path { Path(id.ns, id.svc, id.kind, id.name) }

  function IdOf(p: Path): StreamID { StreamID(p.ns, p.svc, p.kind, p.name) }

  function KindName(k: Kind): string {
    match k
    case Logs => "logs"
    case Metrics => "metrics"
    case KindNone => ""
  }

  function ParseKind(s: string): Option<Kind> {
    if s == "logs" then Some(Logs) else if s == "metrics" then Some(Metrics) else None
  }

  function DepthOf(p: Path): Depth {
    if p.name != "" then DepthStream
    else if p.kind != KindNone then DepthKind
    else if p.svc != "" then DepthService
    else if p.ns != "" then DepthNamespace
    else DepthRoot
  }

  // ----- splitting at slashes -----

  predicate SlashFree(s: string) { '/' !in s }

  function Split(s: string): (parts: seq<string>)
    ensures |parts| >= 1
  {
    if s == "" then [""]
    else
      var rest := Split(s[1..]);
      if s[0] == '/' then [""] + rest else [[s[0]] + rest[0]] + rest[1..]
  }

  function Join(parts: seq<string>): string
    requires |parts| >= 1
  {
    if |parts| == 1 then parts[0] else parts[0] + "/" + Join(parts[1..])
  }

  lemma {:induction false} JoinOfSplit(s: string)
    ensures Join(Split(s)) == s
    ensures forall i :: 0 <= i < |Split(s)| ==> SlashFree(Split(s)[i])
  {
    if s != "" {
      JoinOfSplit(s[1..]);
      var rest := Split(s[1..]);
      assert s == [s[0]] + s[1..];
      if s[0] == '/' {
        assert ([""] + rest)[1..] == rest;
      } else {
        JoinPrepend(s[0], rest);
      }
    }
  }

  lemma JoinCons(first: string, rest: seq<string>)
    requires |rest| >= 1
    ensures Join([first] + rest) == first + ("/" + Join(rest))
  {
    assert ([first] + rest)[1..] == rest;
  }

  lemma JoinOne(s: string)
    ensures Join([s]) == s && s + "" == s
  {
  }

  lemma JoinPrepend(c: char, parts: seq<string>)
    requires |parts| >= 1
    ensures Join([[c] + parts[0]] + parts[1..]) == [c] + Join(parts)
  {
    hide Join;
    if |parts| == 1 {
      JoinOne(parts[0]);
      JoinOne([c] + parts[0]);
      assert [[c] + parts[0]] + parts[1..] == [[c] + parts[0]] && parts == [parts[0]];
    } else {
      JoinCons(parts[0], parts[1..]);
      JoinCons([c] + parts[0], parts[1..]);
      assert parts == [parts[0]] + parts[1..];
      Regroup([c], parts[0], "/" + Join(parts[1..]));
    }
  }

  lemma Regroup(a: string, b: string, c: string)
    ensures (a + b) + c == a + (b + c)
  {
  }

  lemma {:induction false} SplitOfSlashFree(s: string)
    requires SlashFree(s)
    ensures Split(s) == [s]
  {
    if s != "" {
      SplitOfSlashFree(s[1..]);
      assert [s[0]] + s[1..] == s;
    }
  }

  lemma {:induction false} SplitAtSlash(a: string, b: string)
    requires SlashFree(a)
    ensures Split(a + "/" + b) == [a] + Split(b)
  {
    var s := a + "/" + b;
    if a == "" {
      assert s[1..] == b;
    } else {
      assert s[1..] == a[1..] + "/" + b;
      SplitAtSlash(a[1..], b);
      assert [a[0]] + a[1..] == a;
    }
  }

  lemma {:induction false} SplitOfJoin(parts: seq<string>)
    requires |parts| >= 1 && forall i :: 0 <= i < |parts| ==> SlashFree(parts[i])
    ensures Split(Join(parts)) == parts
  {
    if |parts| == 1 {
      SplitOfSlashFree(parts[0]);
    } else {
      SplitOfJoin(parts[1..]);
      SplitAtSlash(parts[0], Join(parts[1..]));
    }
  }

  // ----- the Go parser -----

  predicate HasSuffix(s: string, suffix: string) {
    |s| >= |suffix| && s[|s| - |suffix|..] == suffix
  }

  /** One pass of the switch: component `i` of the path, counted from zero. */
  function FillOne(i: nat, part: string, p: Path): Result<Path> {
    if part == "" then Err(BadPath)
    else if i == 0 then Ok(p.(ns := part))
    else if i == 1 then Ok(p.(svc := part))
    else if i == 2 then
      if ParseKind(part).None? then Err(NotFound) else Ok(p.(kind := ParseKind(part).value))
    else if i == 3 then
      if !HasSuffix(part, DAT) || |part| == |DAT| then Err(NotFound) else Ok(p.(name := part[..|part| - |DAT|]))
    else Ok(p)
  }

  function Fill(parts: seq<string>, i: nat, p: Path): Result<Path>
    requires i <= |parts|
    decreases |parts| - i
  {
    if i == |parts| then Ok(p)
    else
      match FillOne(i, parts[i], p)
      case Err(e) => Err(e)
      case Ok(q) => Fill(parts, i + 1, q)
  }

  function Parse(s: string): Result<Path> {
    if !("/" <= s) then Err(BadPath)
    else if s == "/" then Ok(ROOT)
    else
      var parts := Split(s[1..]);
      if |parts| > 4 then Err(NotFound) else Fill(parts, 0, ROOT)
  }

  method ParsePath(s: string) returns (r: Result<Path>)
    ensures r == Parse(s)
  {
    if !("/" <= s) {
      return Err(BadPath);
    }
    if s == "/" {
      return Ok(ROOT);
    }
    var parts := Split(s[1..]);
    if |parts| > 4 {
      return Err(NotFound);
    }
    var p := ROOT;
    for i := 0 to |parts|
      invariant Fill(parts, i, p) == Fill(parts, 0, ROOT)
    {
      var part := parts[i];
      if part == "" {
        return Err(BadPath);
      }
      match i {
        case 0 => p := p.(ns := part);
        case 1 => p := p.(svc := part);
        case 2 =>
          var k := ParseKind(part);
          if k.None? {
            return Err(NotFound);
          }
          p := p.(kind := k.value);
        case _ =>
          if !HasSuffix(part, DAT) || |part| == |DAT| {
            return Err(NotFound);
          }
          p := p.(name := part[..|part| - |DAT|]);
      }
    }
    return Ok(p);
  }

  // ----- the printer -----

  function Print(p: Path): string {
    if p.ns == "" then "/" else "/" + (p.ns + PrintService(p))
  }

  function PrintService(p: Path): string {
    if p.svc == "" then "" else "/" + (p.svc + PrintKind(p))
  }

  function PrintKind(p: Path): string {
    if p.kind == KindNone then "" else "/" + (KindName(p.kind) + PrintName(p))
  }

  function PrintName(p: Path): string {
    if p.name == "" then "" else "/" + (p.name + DAT)
  }

  /** Fields are filled from the front and hold no slash. */
  predicate WellFormed(p: Path) {
    && SlashFree(p.ns) && SlashFree(p.svc) && SlashFree(p.name)
    && (p.name != "" ==> p.kind != KindNone)
    && (p.kind != KindNone ==> p.svc != "")
    && (p.svc != "" ==> p.ns != "")
  }

  /** The path of a stream's file. */
  function PathString(id: StreamID): string { Print(PathOf(id)) }

  /** The components of a path below the root. */
  ghost function Components(p: Path): (parts: seq<string>)
    requires p.ns != ""
    ensures |parts| >= 1
  {
    if p.svc == "" then [p.ns]
    else if p.kind == KindNone then [p.ns, p.svc]
    else if p.name == "" then [p.ns, p.svc, KindName(p.kind)]
    else [p.ns, p.svc, KindName(p.kind), p.name + DAT]
  }

  lemma PrintIsJoin(p: Path)
    requires p.ns != ""
    ensures Print(p) == "/" + Join(Components(p))
  {
    hide Join;
    var file := [p.name + DAT];
    var kind := [KindName(p.kind)] + if p.name == "" then [] else file;
    var svc := [p.svc] + if p.kind == KindNone then [] else kind;
    assert Join(file) == p.name + DAT by { JoinOne(p.name + DAT); }
    JoinCons(KindName(p.kind), file);
    JoinOne(KindName(p.kind));
    assert Join(kind) == KindName(p.kind) + PrintName(p) by {
      if p.name == "" {
        assert kind == [KindName(p.kind)];
      }
    }
    JoinCons(p.svc, kind);
    JoinOne(p.svc);
    assert Join(svc) == p.svc + PrintKind(p) by {
      if p.kind == KindNone {
        assert svc == [p.svc];
      }
    }
    JoinOne(p.ns);
    JoinCons(p.ns, svc);
    assert Components(p) == [p.ns] + if p.svc == "" then [] else svc;
  }

  lemma FillComponents(p: Path)
    requires WellFormed(p) && p.ns != ""
    ensures Fill(Components(p), 0, ROOT) == Ok(p)
  {
    var c := Components(p);
    var p1 := ROOT.(ns := p.ns);
    var p2 := p1.(svc := p.svc);
    var p3 := p2.(kind := p.kind);
    FillDone(c, |c|, p);
    if |c| == 4 {
      assert HasSuffix(c[3], DAT) && c[3][..|c[3]| - |DAT|] == p.name;
      assert Fill(c, 3, p3) == Fill(c, 4, p);
    }
    if |c| >= 3 {
      assert Fill(c, 2, p2) == Fill(c, 3, p3);
    }
    if |c| >= 2 {
      assert Fill(c, 1, p1) == Fill(c, 2, p2);
    }
    assert Fill(c, 0, ROOT) == Fill(c, 1, p1);
  }

  /** Parsing what was printed gives the path back. */
  lemma ParseOfPrint(p: Path)
    requires WellFormed(p)
    ensures Parse(Print(p)) == Ok(p)
  {
    hide Fill, Print, Split, Join, WellFormed, Components;
    if p.ns != "" {
      var c := Components(p);
      PrintIsJoin(p);
      ComponentsFree(p);
      SplitOfJoin(c);
      JoinNotEmpty(c);
      assert Print(p)[1..] == Join(c);
      FillComponents(p);
    } else {
      RootIsPrinted(p);
    }
  }

  lemma ComponentsFree(p: Path)
    requires WellFormed(p) && p.ns != ""
    ensures var c := Components(p);
            |c| <= 4 && c[0] != "" && forall i :: 0 <= i < |c| ==> SlashFree(c[i])
  {
  }

  lemma RootIsPrinted(p: Path)
    requires WellFormed(p) && p.ns == ""
    ensures Print(p) == "/" && p == ROOT
  {
  }

  lemma JoinNotEmpty(parts: seq<string>)
    requires |parts| >= 1 && parts[0] != ""
    ensures Join(parts) != ""
  {
  }

  /** One component more: what `Fill` returns went through `FillOne`, which sets one field. */
  lemma FillStep(parts: seq<string>, i: nat, p: Path)
    requires i < |parts| && Fill(parts, i, p).Ok? && SlashFree(parts[i])
    ensures parts[i] != "" && FillOne(i, parts[i], p).Ok?
    ensures var q := FillOne(i, parts[i], p).value;
            && Fill(parts, i, p) == Fill(parts, i + 1, q)
            && (i == 0 ==> q == p.(ns := parts[i]))
            && (i == 1 ==> q == p.(svc := parts[i]))
            && (i == 2 ==> q == p.(kind := q.kind) && q.kind != KindNone && parts[i] == KindName(q.kind))
            && (i == 3 ==> q == p.(name := q.name) && q.name != "" && SlashFree(q.name) && parts[i] == q.name + DAT)
  {
  }

  /** Filling succeeds only on the components of the path it yields. */
  lemma FillOk(parts: seq<string>)
    requires 1 <= |parts| <= 4 && Fill(parts, 0, ROOT).Ok?
    requires forall i :: 0 <= i < |parts| ==> SlashFree(parts[i])
    ensures var p := Fill(parts, 0, ROOT).value;
            WellFormed(p) && p.ns != "" && Components(p) == parts
  {
    hide Fill, FillOne, SlashFree, KindName, WellFormed, Components;
    FillStep(parts, 0, ROOT);
    var p1 := FillOne(0, parts[0], ROOT).value;
    FillDone(parts, 1, p1);
    if |parts| >= 2 {
      FillStep(parts, 1, p1);
      var p2 := FillOne(1, parts[1], p1).value;
      FillDone(parts, 2, p2);
      if |parts| >= 3 {
        FillStep(parts, 2, p2);
        var p3 := FillOne(2, parts[2], p2).value;
        FillDone(parts, 3, p3);
        if |parts| == 4 {
          FillStep(parts, 3, p3);
          FillDone(parts, 4, FillOne(3, parts[3], p3).value);
        }
      }
    }
    Assembled(parts, Fill(parts, 0, ROOT).value);
  }

  /** A path whose fields are exactly these components. */
  lemma Assembled(parts: seq<string>, p: Path)
    requires 1 <= |parts| <= 4
    requires p.ns == parts[0] != "" && SlashFree(p.ns)
    requires if |parts| > 1 then p.svc == parts[1] != "" && SlashFree(p.svc) else p.svc == ""
    requires if |parts| > 2 then p.kind != KindNone && KindName(p.kind) == parts[2] else p.kind == KindNone
    requires if |parts| > 3 then p.name != "" && SlashFree(p.name) && parts[3] == p.name + DAT else p.name == ""
    ensures WellFormed(p) && Components(p) == parts
  {
  }

  lemma FillDone(parts: seq<string>, i: nat, p: Path)
    requires i <= |parts|
    ensures i == |parts| ==> Fill(parts, i, p) == Ok(p)
  {
  }

  /** Printing what was parsed gives the string back, for every accepted string. */
  lemma PrintOfParse(s: string)
    requires Parse(s).Ok?
    ensures WellFormed(Parse(s).value)
    ensures Print(Parse(s).value) == s
  {
    if s != "/" {
      var parts := Split(s[1..]);
      JoinOfSplit(s[1..]);
      FillOk(parts);
      PrintIsJoin(Parse(s).value);
    }
  }

  lemma PrintInjective(p: Path, q: Path)
    requires WellFormed(p) && WellFormed(q) && Print(p) == Print(q)
    ensures p == q
  {
    ParseOfPrint(p);
    ParseOfPrint(q);
  }

  /** The layout of the filesystem, spelled out level by level: first the directories. */
  lemma DirectoryPaths(ns: string, svc: string)
    requires ns != "" && svc != "" && SlashFree(ns) && SlashFree(svc)
    ensures Parse("/") == Ok(Path("", "", KindNone, ""))
    ensures Parse("/" + ns) == Ok(Path(ns, "", KindNone, ""))
    ensures Parse("/" + (ns + ("/" + svc))) == Ok(Path(ns, svc, KindNone, ""))
    ensures Parse("/" + (ns + ("/" + (svc + "/logs")))) == Ok(Path(ns, svc, Logs, ""))
    ensures Parse("/" + (ns + ("/" + (svc + "/metrics")))) == Ok(Path(ns, svc, Metrics, ""))
  {
    hide Parse;
    ParseOfPrint(ROOT);
    assert ns + "" == ns && svc + "" == svc;
    ParseOfPrint(Path(ns, "", KindNone, ""));
    ParseOfPrint(Path(ns, svc, KindNone, ""));
    DirectoryOfKind(ns, svc, Logs);
    DirectoryOfKind(ns, svc, Metrics);
    assert "/" + "logs" == "/logs" && "/" + "metrics" == "/metrics";
  }

  lemma DirectoryOfKind(ns: string, svc: string, kind: Kind)
    requires ns != "" && svc != "" && SlashFree(ns) && SlashFree(svc) && kind != KindNone
    ensures Parse("/" + (ns + ("/" + (svc + ("/" + KindName(kind)))))) == Ok(Path(ns, svc, kind, ""))
  {
    hide Parse, KindName;
    assert KindName(kind) + "" == KindName(kind);
    ParseOfPrint(Path(ns, svc, kind, ""));
  }

  /** Then the files. */
  lemma FilePaths(ns: string, svc: string, name: string)
    requires ns != "" && svc != "" && name != "" && SlashFree(ns) && SlashFree(svc) && SlashFree(name)
    ensures Parse("/" + (ns + ("/" + (svc + ("/logs/" + (name + ".dat")))))) == Ok(Path(ns, svc, Logs, name))
    ensures Parse("/" + (ns + ("/" + (svc + ("/metrics/" + (name + ".dat")))))) == Ok(Path(ns, svc, Metrics, name))
  {
    hide Parse, SlashFree;
    FileOfKind(ns, svc, Logs, name);
    FileOfKind(ns, svc, Metrics, name);
    var file := name + ".dat";
    assert "/" + ("logs" + ("/" + file)) == "/logs/" + file;
    assert "/" + ("metrics" + ("/" + file)) == "/metrics/" + file;
  }

  lemma FileOfKind(ns: string, svc: string, kind: Kind, name: string)
    requires ns != "" && svc != "" && name != "" && SlashFree(ns) && SlashFree(svc) && SlashFree(name)
    requires kind != KindNone
    ensures var s := "/" + (ns + ("/" + (svc + ("/" + (KindName(kind) + ("/" + (name + ".dat")))))));
            Parse(s) == Ok(Path(ns, svc, kind, name))
  {
    hide Parse, SlashFree, KindName;
    ParseOfPrint(Path(ns, svc, kind, name));
  }

  /** A service has no other directories than these two, and nothing but .dat files lies in them. */
  lemma NothingElse(ns: string, svc: string, part: string, file: string)
    requires ns != "" && svc != "" && part != ""
    requires SlashFree(ns) && SlashFree(svc) && SlashFree(part) && SlashFree(file)
    ensures Parse("/" + Join([ns, svc, part])).Ok? <==> part == "logs" || part == "metrics"
    ensures Parse("/" + Join([ns, svc, "logs", file])).Ok? <==> exists name :: name != "" && file == name + ".dat"
  {
    hide Parse, Join;
    SplitOfJoin([ns, svc, part]);
    SplitOfJoin([ns, svc, "logs", file]);
    ParseOfParts([ns, svc, part]);
    ParseOfParts([ns, svc, "logs", file]);
    if name :| name != "" && file == name + ".dat" {
      assert HasSuffix(file, ".dat");
    }
    if HasSuffix(file, ".dat") && |file| > 4 {
      assert file == file[..|file| - 4] + ".dat";
    }
  }

  lemma ParseOfParts(parts: seq<string>)
    requires 3 <= |parts| <= 4 && parts[0] != "" && parts[1] != "" && Split(Join(parts)) == parts
    ensures var r := Parse("/" + Join(parts));
            r.Ok? <==>
            && (parts[2] == "logs" || parts[2] == "metrics")
            && (|parts| == 4 ==> HasSuffix(parts[3], ".dat") && |parts[3]| > 4)
  {
    hide Join, Split;
    var s := "/" + Join(parts);
    assert s[1..] == Join(parts);
    JoinNotEmpty(parts);
    var p1 := ROOT.(ns := parts[0]);
    var p2 := p1.(svc := parts[1]);
    assert Fill(parts, 0, ROOT) == Fill(parts, 1, p1) == Fill(parts, 2, p2);
    if ParseKind(parts[2]).Some? {
      var p3 := p2.(kind := ParseKind(parts[2]).value);
      assert Fill(parts, 2, p2) == Fill(parts, 3, p3);
      FillDone(parts, 3, p3);
      if |parts| == 4 && FillOne(3, parts[3], p3).Ok? {
        FillDone(parts, 4, FillOne(3, parts[3], p3).value);
      }
    }
  }

  /** Component `i` is where the parser stops: it is the first one that is empty or no directory of its level. */
  predicate Acceptable(parts: seq<string>, i: nat)
    requires i < |parts|
  {
    && parts[i] != ""
    && (i == 2 ==> ParseKind(parts[i]).Some?)
    && (i == 3 ==> HasSuffix(parts[i], DAT) && |parts[i]| > |DAT|)
  }

  lemma {:induction false} FillError(parts: seq<string>, i: nat, p: Path, e: Error)
    requires i <= |parts|
    ensures Fill(parts, i, p) == Err(e) <==>
            exists k :: i <= k < |parts| && !Acceptable(parts, k) && (forall j :: i <= j < k ==> Acceptable(parts, j))
                        && e == if parts[k] == "" then BadPath else NotFound
    decreases |parts| - i
  {
    if i < |parts| && Acceptable(parts, i) {
      FillError(parts, i + 1, FillOne(i, parts[i], p).value, e);
    }
  }

  /** Which error a rejected path gets. */
  lemma ErrorsExactly(s: string)
    ensures Parse(s) == Err(BadPath) <==>
            || !("/" <= s)
            || (s != "/" && |Split(s[1..])| <= 4 &&
                var parts := Split(s[1..]);
                exists k :: 0 <= k < |parts| && parts[k] == "" && forall j :: 0 <= j < k ==> Acceptable(parts, j))
    ensures Parse(s).Err? ==> Parse(s).error in {BadPath, NotFound}
  {
    if "/" <= s && s != "/" {
      var parts := Split(s[1..]);
      FillError(parts, 0, ROOT, BadPath);
      FillError(parts, 0, ROOT, NotFound);
      if Fill(parts, 0, ROOT).Err? {
        FillError(parts, 0, ROOT, Fill(parts, 0, ROOT).error);
      }
    }
  }

  // ----- the dashboard's parser -----

  datatype Parts = Parts(ns: string, svc: string, name: string)

  /** What the regular expression matches, with its three groups. */
  ghost predicate RegexMatches(s: string, m: Parts) {
    && m.ns != "" && m.svc != "" && m.name != ""
    && SlashFree(m.ns) && SlashFree(m.svc) && SlashFree(m.name)
    && s == "/" + (m.ns + ("/" + (m.svc + ("/" + ("metrics/" + (m.name + ".dat"))))))
  }

  /** A greedy run of characters other than a slash. */
  function Run(s: string): (n: nat)
    ensures n <= |s|
    ensures forall i :: 0 <= i < n ==> s[i] != '/'
    ensures n < |s| ==> s[n] == '/'
  {
    if s == "" || s[0] == '/' then 0 else 1 + Run(s[1..])
  }

  /** One `([^/]+)` group and the slash after it: the group and what follows. The run must reach its slash. */
  function Segment(s: string): Option<(string, string)> {
    var n := Run(s);
    if n == 0 || n == |s| then None else Some((s[..n], s[n + 1..]))
  }

  /** The last group: a name and ".dat" at the very end. */
  function LastGroup(s: string): Option<string> {
    if !SlashFree(s) || !HasSuffix(s, DAT) || |s| == |DAT| then None else Some(s[..|s| - |DAT|])
  }

  function TsParse(s: string): Option<Parts> {
    if !("/" <= s) then None
    else
      match Segment(s[1..])
      case None => None
      case Some((ns, s2)) =>
        match Segment(s2)
        case None => None
        case Some((svc, s3)) =>
          if !("metrics/" <= s3) then None
          else
            match LastGroup(s3[8..])
            case None => None
            case Some(name) => Some(Parts(ns, svc, name))
  }

  lemma SegmentIs(s: string, a: string, rest: string)
    ensures Segment(s) == Some((a, rest)) <==> a != "" && SlashFree(a) && s == a + ("/" + rest)
  {
    var n := Run(s);
    if a != "" && SlashFree(a) && s == a + ("/" + rest) {
      assert s[|a|] == '/';
      assert forall i :: 0 <= i < |a| ==> s[i] == a[i];
      assert n == |a|;
      assert s[..n] == a && s[n + 1..] == rest;
    }
    if Segment(s) == Some((a, rest)) {
      assert s == s[..n] + ("/" + s[n + 1..]);
    }
  }

  lemma LastGroupIs(s: string, name: string)
    ensures LastGroup(s) == Some(name) <==> name != "" && SlashFree(name) && s == name + DAT
  {
    if name != "" && SlashFree(name) && s == name + DAT {
      assert s[|s| - |DAT|..] == DAT && s[..|s| - |DAT|] == name;
      assert SlashFree(s);
    }
    if LastGroup(s) == Some(name) {
      assert s == name + DAT;
    }
  }

  /** The scan finds a match exactly when the expression has one, and the match is unique. */
  lemma TsParseIsRegex(s: string, m: Parts)
    ensures TsParse(s) == Some(m) <==> RegexMatches(s, m)
  {
    hide Segment, LastGroup, SlashFree;
    if RegexMatches(s, m) {
      var tail := m.name + DAT;
      var s3 := "metrics/" + tail;
      var s2 := m.svc + ("/" + s3);
      assert s == "/" + (m.ns + ("/" + s2));
      assert s[1..] == m.ns + ("/" + s2) && s3[8..] == tail;
      SegmentIs(s[1..], m.ns, s2);
      SegmentIs(s2, m.svc, s3);
      LastGroupIs(tail, m.name);
    }
    if TsParse(s) == Some(m) {
      var s2 := Segment(s[1..]).value.1;
      var s3 := Segment(s2).value.1;
      SegmentIs(s[1..], m.ns, s2);
      SegmentIs(s2, m.svc, s3);
      LastGroupIs(s3[8..], m.name);
      assert s == "/" + s[1..] && s3 == "metrics/" + s3[8..];
    }
  }

  /** The dashboard accepts exactly the metrics streams the Go parser accepts, with equal components. */
  lemma ParsersAgree(s: string, m: Parts)
    ensures TsParse(s) == Some(m) <==>
            Parse(s) == Ok(Path(m.ns, m.svc, Metrics, m.name)) && m.name != ""
  {
    hide Parse, TsParse;
    TsParseIsRegex(s, m);
    var p := Path(m.ns, m.svc, Metrics, m.name);
    assert "metrics" + ("/" + (m.name + DAT)) == "metrics/" + (m.name + DAT);
    if RegexMatches(s, m) {
      assert Print(p) == s;
      ParseOfPrint(p);
    }
    if Parse(s) == Ok(p) && m.name != "" {
      PrintOfParse(s);
      assert Print(p) == s;
    }
  }
}
