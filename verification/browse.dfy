/** The browser over the virtual filesystem (internal/usecase/browse.go).

  `Browser.Ls` and `Browser.Cat` are specified by functions of the store's contents. What a reader of the
  filesystem relies on is proved of those: walking the directories from the root finds every stored stream
  once and nothing else, and each file found is readable. */
module Browsing {
  import opened Domain
  import opened Paths
  import opened MemStore
  import Names

  datatype Entry = Entry(name: string, dir: bool)

  function Dirs(names: seq<string>): (es: seq<Entry>)
    ensures |es| == |names| && forall i :: 0 <= i < |es| ==> es[i] == Entry(names[i], true)
  {
    seq(|names|, i requires 0 <= i < |names| => Entry(names[i], true))
  }

  function Files(names: seq<string>): (es: seq<Entry>)
    ensures |es| == |names| && forall i :: 0 <= i < |es| ==> es[i] == Entry(names[i] + DAT, false)
  {
    seq(|names|, i requires 0 <= i < |names| => Entry(names[i] + DAT, false))
  }

  const KIND_DIRS := [Entry(KindName(Logs), true), Entry(KindName(Metrics), true)]

  // ----- what the two operations answer -----

  ghost function LsOf(m: Streams, path: string): Result<seq<Entry>> {
    match Parse(path)
    case Err(e) => Err(e)
    case Ok(p) => LsAt(m, p)
  }

  ghost function LsAt(m: Streams, p: Path): Result<seq<Entry>> {
    match DepthOf(p)
    case DepthRoot => Ok(Dirs(Names.Listing(Picked(m, PickNamespace()))))
    case DepthNamespace =>
      if p.ns !in Picked(m, PickNamespace()) then Err(NotFound)
      else Ok(Dirs(Names.Listing(Picked(m, PickService(p.ns)))))
    case DepthService =>
      if p.svc !in Picked(m, PickService(p.ns)) then Err(NotFound) else Ok(KIND_DIRS)
    case DepthKind =>
      if p.svc !in Picked(m, PickService(p.ns)) then Err(NotFound)
      else Ok(Files(Names.Listing(Picked(m, PickStream(p.ns, p.svc, p.kind)))))
    case DepthStream => Err(if IdOf(p) in m then NotDir else NotFound)
  }

  ghost function CatOf(m: Streams, path: string): Result<seq<Sample>> {
    match Parse(path)
    case Err(e) => Err(e)
    case Ok(p) =>
      if DepthOf(p) != DepthStream then Err(IsDir)
      else if IdOf(p) !in m then Err(NotFound)
      else Ok(m[IdOf(p)])
  }

  // ----- the browser -----

  class Browser {
    const store: Store

    constructor (store: Store)
      ensures this.store == store
    {
      this.store := store;
    }

    method Contains(list: seq<string>, s: string) returns (found: bool)
      ensures found <==> s in list
    {
      for i := 0 to |list|
        invariant s !in list[..i]
      {
        if list[i] == s {
          return true;
        }
      }
      return false;
    }

    method DirEntries(names: seq<string>) returns (out: seq<Entry>)
      ensures out == Dirs(names)
    {
      out := [];
      for i := 0 to |names|
        invariant out == Dirs(names[..i])
      {
        out := out + [Entry(names[i], true)];
      }
      assert names[..|names|] == names;
    }

    method CheckService(p: Path) returns (ok: bool)
      ensures ok <==> p.svc in Picked(store.streams, PickService(p.ns))
    {
      var services := store.Services(p.ns);
      ok := Contains(services, p.svc);
    }

    method Ls(path: string) returns (r: Result<seq<Entry>>)
      ensures r == LsOf(store.streams, path)
    {
      hide Picked, Names.Lists, Names.Listing, Parse;
      var parsed := ParsePath(path);
      if parsed.Err? {
        return Err(parsed.error);
      }
      var p := parsed.value;
      match DepthOf(p) {
        case DepthRoot =>
          var names := store.Namespaces();
          Names.IsListing(names, Picked(store.streams, PickNamespace()));
          var out := DirEntries(names);
          return Ok(out);
        case DepthNamespace =>
          var names := store.Namespaces();
          Names.IsListing(names, Picked(store.streams, PickNamespace()));
          var found := Contains(names, p.ns);
          if !found {
            return Err(NotFound);
          }
          var services := store.Services(p.ns);
          Names.IsListing(services, Picked(store.streams, PickService(p.ns)));
          var out := DirEntries(services);
          return Ok(out);
        case DepthService =>
          var ok := CheckService(p);
          if !ok {
            return Err(NotFound);
          }
          return Ok([Entry(KindName(Logs), true), Entry(KindName(Metrics), true)]);
        case DepthKind =>
          var ok := CheckService(p);
          if !ok {
            return Err(NotFound);
          }
          var names := store.StreamNames(p.ns, p.svc, p.kind);
          Names.IsListing(names, Picked(store.streams, PickStream(p.ns, p.svc, p.kind)));
          var out: seq<Entry> := [];
          for i := 0 to |names|
            invariant out == Files(names[..i])
          {
            out := out + [Entry(names[i] + DAT, false)];
          }
          assert names[..|names|] == names;
          return Ok(out);
        case DepthStream =>
          var held := store.Samples(IdOf(p));
          return Err(if held.Some? then NotDir else NotFound);
      }
    }

    method Cat(path: string) returns (r: Result<seq<Sample>>)
      ensures r == CatOf(store.streams, path)
    {
      var parsed := ParsePath(path);
      if parsed.Err? {
        return Err(parsed.error);
      }
      var p := parsed.value;
      if DepthOf(p) != DepthStream {
        return Err(IsDir);
      }
      var held := store.Samples(IdOf(p));
      r := if held.Some? then Ok(held.value) else Err(NotFound);
    }
  }

  // ----- walking -----

  function Child(dir: string, name: string): string { if dir == "/" then "/" + name else dir + ("/" + name) }

  /** The files found by listing `dir` and, `levels` deep, every directory listed. */
  ghost function Walk(m: Streams, dir: string, levels: nat): seq<string>
    decreases levels, 1, 0
  {
    if levels == 0 then []
    else
      match LsOf(m, dir)
      case Err(_) => []
      case Ok(es) => WalkEntries(m, dir, es, levels)
  }

  ghost function WalkEntries(m: Streams, dir: string, es: seq<Entry>, levels: nat): seq<string>
    requires levels > 0
    decreases levels, 0, |es|
  {
    if es == [] then []
    else WalkEntry(m, dir, es[0], levels) + WalkEntries(m, dir, es[1..], levels)
  }

  ghost function WalkEntry(m: Streams, dir: string, e: Entry, levels: nat): seq<string>
    requires levels > 0
    decreases levels, 0, 0
  {
    if e.dir then Walk(m, Child(dir, e.name), levels - 1) else [Child(dir, e.name)]
  }

  /** An identifier that has a path: the receiver does not check this. */
  predicate GoodId(id: StreamID) {
    && id.kind != KindNone
    && id.ns != "" && id.svc != "" && id.name != ""
    && SlashFree(id.ns) && SlashFree(id.svc) && SlashFree(id.name)
  }

  ghost predicate AllGood(ids: set<StreamID>) { forall id :: id in ids ==> GoodId(id) }

  lemma GoodIsWellFormed(id: StreamID)
    ensures GoodId(id) <==> WellFormed(PathOf(id)) && DepthOf(PathOf(id)) == DepthStream
  {
  }

  lemma FilesDiffer(a: StreamID, b: StreamID)
    requires GoodId(a) && GoodId(b) && PathString(a) == PathString(b)
    ensures a == b
  {
    PrintInjective(PathOf(a), PathOf(b));
  }

  /** `files` are the files of these streams, each once. */
  ghost predicate Covers(files: seq<string>, ids: set<StreamID>) {
    && (forall i, j :: 0 <= i < j < |files| ==> files[i] != files[j])
    && (forall s :: s in files <==> exists id :: id in ids && s == PathString(id))
  }

  lemma CoversJoin(a: seq<string>, A: set<StreamID>, b: seq<string>, B: set<StreamID>)
    requires AllGood(A) && AllGood(B) && A !! B
    requires Covers(a, A) && Covers(b, B)
    ensures Covers(a + b, A + B)
  {
    hide GoodId, PathString;
    forall x, y | x in a && y in b ensures x != y {
      var i :| i in A && x == PathString(i);
      var j :| j in B && y == PathString(j);
      if x == y {
        FilesDiffer(i, j);
      }
    }
    forall i, j | 0 <= i < j < |a + b| ensures (a + b)[i] != (a + b)[j] {
      if i < |a| <= j {
        assert a[i] in a && b[j - |a|] in b;
      }
    }
    assert forall s :: s in a + b <==> s in a || s in b;
  }

  // ----- one directory -----

  /** `p` lies on the path of `id`. */
  predicate On(p: Path, id: StreamID) {
    && (p.ns != "" ==> p.ns == id.ns)
    && (p.svc != "" ==> p.svc == id.svc)
    && (p.kind != KindNone ==> p.kind == id.kind)
  }

  function Below(m: Streams, p: Path): set<StreamID> { set id | id in m && On(p, id) }

  /** A directory of the store: the fixed directories under a service count whether or not they hold streams. */
  ghost predicate IsDirectory(m: Streams, p: Path) {
    && WellFormed(p) && p.name == ""
    && (p.ns != "" ==> exists id :: id in m && id.ns == p.ns && (p.svc != "" ==> id.svc == p.svc))
  }

  function Level(p: Path): nat {
    match DepthOf(p)
    case DepthRoot => 0
    case DepthNamespace => 1
    case DepthService => 2
    case DepthKind => 3
    case DepthStream => 4
  }

  /** The entry that leads from `p` towards `id`. */
  function EntryName(p: Path, id: StreamID): string {
    match DepthOf(p)
    case DepthRoot => id.ns
    case DepthNamespace => id.svc
    case DepthService => KindName(id.kind)
    case DepthKind => id.name + DAT
    case DepthStream => ""
  }

  /** The streams below `p` an entry leads to. */
  function Through(m: Streams, p: Path, e: Entry): set<StreamID> {
    set id | id in Below(m, p) && EntryName(p, id) == e.name
  }

  /** A directory entry leads to a directory holding just the streams it is the way to, a file entry to one stream. */
  ghost predicate Leads(m: Streams, p: Path, e: Entry) {
    if e.dir then
      exists q :: IsDirectory(m, q) && Level(q) == Level(p) + 1
                  && Print(q) == Child(Print(p), e.name) && Below(m, q) == Through(m, p, e)
    else
      exists id :: Through(m, p, e) == {id} && PathString(id) == Child(Print(p), e.name)
  }

  ghost predicate GoodListing(m: Streams, p: Path, es: seq<Entry>) {
    && (forall i, j :: 0 <= i < j < |es| ==> es[i].name != es[j].name)
    && (forall i :: 0 <= i < |es| ==> Leads(m, p, es[i]))
    && (forall id :: id in Below(m, p) ==> exists i :: 0 <= i < |es| && es[i].name == EntryName(p, id))
  }

  lemma {:induction false} JoinOneMore(parts: seq<string>, name: string)
    requires |parts| >= 1
    ensures Join(parts + [name]) == Join(parts) + ("/" + name)
  {
    hide Join;
    assert parts == [parts[0]] + parts[1..];
    JoinOne(parts[0]);
    JoinOne(name);
    if |parts| == 1 {
      JoinCons(parts[0], [name]);
      assert parts == [parts[0]];
    } else {
      JoinOneMore(parts[1..], name);
      JoinCons(parts[0], parts[1..]);
      JoinCons(parts[0], parts[1..] + [name]);
      assert parts + [name] == [parts[0]] + (parts[1..] + [name]);
      Regroup(parts[0], "/" + Join(parts[1..]), "/" + name);
      Regroup("/", Join(parts[1..]), "/" + name);
    }
  }

  /** `q` is `p` with the component `name` added. */
  predicate OneBelow(p: Path, q: Path, name: string) {
    match DepthOf(p)
    case DepthRoot => q == ROOT.(ns := name) && name != ""
    case DepthNamespace => q == p.(svc := name) && name != ""
    case DepthService => q == p.(kind := q.kind) && q.kind != KindNone && name == KindName(q.kind)
    case DepthKind => q == p.(name := q.name) && q.name != "" && name == q.name + DAT
    case DepthStream => false
  }

  /** Going down one level: the printed path grows by the entry's name. */
  lemma ChildIsPrinted(p: Path, q: Path, name: string)
    requires WellFormed(p) && OneBelow(p, q, name)
    ensures Print(q) == Child(Print(p), name)
  {
    if p == ROOT {
      assert name + "" == name;
    } else {
      hide Join, Print;
      PrintIsJoin(p);
      PrintIsJoin(q);
      assert Components(q) == Components(p) + [name];
      JoinOneMore(Components(p), name);
      Regroup("/", Join(Components(p)), "/" + name);
      NotRoot(p);
    }
  }

  lemma NotRoot(p: Path)
    requires p.ns != ""
    ensures Print(p) != "/"
  {
    assert Print(p)[1] == p.ns[0];
  }

  lemma NamesDistinct(names: seq<string>)
    requires Names.Increasing(names)
    ensures forall i, j :: 0 <= i < j < |names| ==> names[i] != names[j]
  {
    forall i, j | 0 <= i < j < |names| ensures names[i] != names[j] {
      Names.BeforeTotal(names[i], names[j]);
    }
  }

  lemma RootEntryLeads(m: Streams, name: string)
    requires AllGood(m.Keys) && name in Picked(m, PickNamespace())
    ensures Leads(m, ROOT, Entry(name, true))
  {
    hide Print, Child;
    var id :| id in m && id.ns == name;
    var q := ROOT.(ns := name);
    ChildIsPrinted(ROOT, q, name);
    assert IsDirectory(m, q) && Below(m, q) == Through(m, ROOT, Entry(name, true));
  }

  lemma RootListing(m: Streams)
    requires AllGood(m.Keys)
    ensures LsAt(m, ROOT).Ok? && GoodListing(m, ROOT, LsAt(m, ROOT).value)
  {
    hide Leads;
    var names := Names.Listing(Picked(m, PickNamespace()));
    NamesDistinct(names);
    var es := Dirs(names);
    forall i | 0 <= i < |es| ensures Leads(m, ROOT, es[i]) {
      assert names[i] in names;
      RootEntryLeads(m, names[i]);
    }
    forall id | id in Below(m, ROOT) ensures exists i :: 0 <= i < |es| && es[i].name == EntryName(ROOT, id) {
      assert PickNamespace()(id).value in Picked(m, PickNamespace());
      var i :| 0 <= i < |names| && names[i] == id.ns;
      assert es[i].name == EntryName(ROOT, id);
    }
  }

  lemma NamespaceEntryLeads(m: Streams, p: Path, name: string)
    requires AllGood(m.Keys) && IsDirectory(m, p) && DepthOf(p) == DepthNamespace
    requires name in Picked(m, PickService(p.ns))
    ensures Leads(m, p, Entry(name, true))
  {
    hide Print, Child;
    var id :| id in m && id.ns == p.ns && id.svc == name;
    var q := p.(svc := name);
    ChildIsPrinted(p, q, name);
    assert IsDirectory(m, q) && Below(m, q) == Through(m, p, Entry(name, true));
  }

  lemma NamespaceExists(m: Streams, p: Path)
    requires IsDirectory(m, p) && p.ns != ""
    ensures p.ns in Picked(m, PickNamespace())
  {
    var id :| id in m && id.ns == p.ns;
    assert PickNamespace()(id) == Some(p.ns);
  }

  lemma NamespaceListing(m: Streams, p: Path)
    requires AllGood(m.Keys) && IsDirectory(m, p) && DepthOf(p) == DepthNamespace
    ensures LsAt(m, p).Ok? && GoodListing(m, p, LsAt(m, p).value)
  {
    hide Leads, IsDirectory;
    NamespaceExists(m, p);
    var names := Names.Listing(Picked(m, PickService(p.ns)));
    NamesDistinct(names);
    var es := Dirs(names);
    forall i | 0 <= i < |es| ensures Leads(m, p, es[i]) {
      assert names[i] in names;
      NamespaceEntryLeads(m, p, names[i]);
    }
    forall id | id in Below(m, p) ensures exists i :: 0 <= i < |es| && es[i].name == EntryName(p, id) {
      assert PickService(p.ns)(id).value in Picked(m, PickService(p.ns));
      var i :| 0 <= i < |names| && names[i] == id.svc;
      assert es[i].name == EntryName(p, id);
    }
  }

  lemma ServiceExists(m: Streams, p: Path)
    requires IsDirectory(m, p) && p.svc != ""
    ensures p.svc in Picked(m, PickService(p.ns))
  {
    var id :| id in m && id.ns == p.ns && id.svc == p.svc;
    assert PickService(p.ns)(id) == Some(p.svc);
  }

  lemma ServiceListing(m: Streams, p: Path)
    requires AllGood(m.Keys) && IsDirectory(m, p) && DepthOf(p) == DepthService
    ensures LsAt(m, p).Ok? && GoodListing(m, p, LsAt(m, p).value)
  {
    hide Print, Child, Picked;
    ServiceExists(m, p);
    forall k | k in {Logs, Metrics} ensures Leads(m, p, Entry(KindName(k), true)) {
      var q := p.(kind := k);
      ChildIsPrinted(p, q, KindName(k));
      assert IsDirectory(m, q) && Below(m, q) == Through(m, p, Entry(KindName(k), true));
    }
    forall id | id in Below(m, p) ensures exists i :: 0 <= i < |KIND_DIRS| && KIND_DIRS[i].name == EntryName(p, id) {
      assert GoodId(id);
      assert KIND_DIRS[if id.kind == Logs then 0 else 1].name == EntryName(p, id);
    }
  }

  lemma KindEntryLeads(m: Streams, p: Path, name: string)
    requires AllGood(m.Keys) && IsDirectory(m, p) && DepthOf(p) == DepthKind
    requires name in Picked(m, PickStream(p.ns, p.svc, p.kind))
    ensures Leads(m, p, Entry(name + DAT, false))
  {
    hide Print, Child;
    var e := Entry(name + DAT, false);
    var id :| id in m && PickStream(p.ns, p.svc, p.kind)(id) == Some(name);
    ChildIsPrinted(p, PathOf(id), e.name);
    forall other | other in Through(m, p, e) ensures other == id {
      SameFileName(other.name, id.name);
    }
    assert Through(m, p, e) == {id};
  }

  lemma FileNamesDistinct(names: seq<string>)
    requires Names.Increasing(names)
    ensures forall i, j :: 0 <= i < j < |names| ==> Files(names)[i].name != Files(names)[j].name
  {
    NamesDistinct(names);
    forall i, j | 0 <= i < j < |names| ensures Files(names)[i].name != Files(names)[j].name {
      SameFileName(names[i], names[j]);
    }
  }

  lemma KindListing(m: Streams, p: Path)
    requires AllGood(m.Keys) && IsDirectory(m, p) && DepthOf(p) == DepthKind
    ensures LsAt(m, p).Ok? && GoodListing(m, p, LsAt(m, p).value)
  {
    hide Leads;
    ServiceExists(m, p);
    var pick := PickStream(p.ns, p.svc, p.kind);
    var names := Names.Listing(Picked(m, pick));
    FileNamesDistinct(names);
    var es := Files(names);
    forall i | 0 <= i < |es| ensures Leads(m, p, es[i]) {
      assert names[i] in names;
      KindEntryLeads(m, p, names[i]);
    }
    forall id | id in Below(m, p) ensures exists i :: 0 <= i < |es| && es[i].name == EntryName(p, id) {
      assert pick(id).value in Picked(m, pick);
      var i :| 0 <= i < |names| && names[i] == id.name;
      assert es[i].name == EntryName(p, id);
    }
  }

  lemma SameFileName(a: string, b: string)
    ensures a + DAT == b + DAT ==> a == b
  {
    assert a == (a + DAT)[..|a + DAT| - 4] && b == (b + DAT)[..|b + DAT| - 4];
  }

  /** Listing a directory never fails, and each entry leads where it should. */
  lemma LsOfDirectory(m: Streams, p: Path)
    requires AllGood(m.Keys) && IsDirectory(m, p)
    ensures LsOf(m, Print(p)).Ok? && GoodListing(m, p, LsOf(m, Print(p)).value)
    ensures (forall i :: 0 <= i < |LsOf(m, Print(p)).value| ==> (LsOf(m, Print(p)).value[i].dir <==> Level(p) < 3))
  {
    hide GoodListing, Names.Listing;
    ParseOfPrint(p);
    match DepthOf(p) {
      case DepthRoot => RootListing(m);
      case DepthNamespace => NamespaceListing(m, p);
      case DepthService => ServiceListing(m, p);
      case DepthKind => KindListing(m, p);
    }
  }

  /** The order of a listing: names in lexicographic order, a service's two directories as they are, and files by the
    names of their streams. */
  lemma ListingOrder(m: Streams, p: Path)
    requires AllGood(m.Keys) && IsDirectory(m, p)
    ensures LsOf(m, Print(p)).Ok?
    ensures var es := LsOf(m, Print(p)).value;
            match Level(p)
            case 2 => es == [Entry("logs", true), Entry("metrics", true)]
            case 3 => exists names :: Names.Increasing(names) && AreFiles(es, names)
            case _ => forall i, j :: 0 <= i < j < |es| ==> Names.Before(es[i].name, es[j].name)
  {
    hide GoodListing, Names.Before, Picked, Print, Parse, Child;
    LsOfDirectory(m, p);
    ParseOfPrint(p);
    if Level(p) == 3 {
      var names := Names.Listing(Picked(m, PickStream(p.ns, p.svc, p.kind)));
      assert AreFiles(LsOf(m, Print(p)).value, names);
    }
  }

  ghost predicate AreFiles(es: seq<Entry>, names: seq<string>) {
    |es| == |names| && forall i :: 0 <= i < |es| ==> es[i] == Entry(names[i] + ".dat", false)
  }

  /** What is a directory: a path of that form can be listed exactly when it is the root or a stream is held under
    its namespace and service; otherwise it is reported missing, and cat refuses it in any case. */
  lemma ListableIffDirectory(m: Streams, s: string)
    requires Parse(s).Ok? && DepthOf(Parse(s).value) != DepthStream
    ensures LsOf(m, s).Ok? <==> IsDirectory(m, Parse(s).value)
    ensures LsOf(m, s).Err? ==> LsOf(m, s).error == NotFound
    ensures CatOf(m, s) == Err(IsDir)
  {
    hide Parse, Print, Names.Listing;
    PrintOfParse(s);
    var p := Parse(s).value;
    if p.ns in Picked(m, PickNamespace()) && p.svc == "" && p.ns != "" {
      var id :| id in m && PickNamespace()(id) == Some(p.ns);
      assert IsDirectory(m, p);
    }
    if p.svc in Picked(m, PickService(p.ns)) && p.svc != "" {
      var id :| id in m && PickService(p.ns)(id) == Some(p.svc);
      assert IsDirectory(m, p);
    }
    if IsDirectory(m, p) && p.svc != "" {
      ServiceExists(m, p);
    }
    if IsDirectory(m, p) && p.ns != "" {
      var id :| id in m && id.ns == p.ns;
      assert PickNamespace()(id).value in Picked(m, PickNamespace());
    }
  }

  // ----- the whole walk -----

  lemma {:induction false} WalkCovers(m: Streams, p: Path, levels: nat)
    requires AllGood(m.Keys) && IsDirectory(m, p) && levels + Level(p) >= 4
    ensures Covers(Walk(m, Print(p), levels), Below(m, p))
    decreases levels, 1, 0
  {
    hide LsOf, Covers, GoodListing, IsDirectory, Below;
    LsOfDirectory(m, p);
    assert Level(p) < 4 by {
      DirectoryLevel(m, p);
    }
    var es := LsOf(m, Print(p)).value;
    WalkEntriesCover(m, p, es, 0, levels);
    assert es[0..] == es;
    EveryStreamIsNamed(m, p, es);
  }

  lemma DirectoryLevel(m: Streams, p: Path)
    requires IsDirectory(m, p)
    ensures Level(p) < 4
  {
  }

  function Named(m: Streams, p: Path, es: seq<Entry>): set<StreamID> {
    set id | id in Below(m, p) && exists i :: 0 <= i < |es| && es[i].name == EntryName(p, id)
  }

  lemma EveryStreamIsNamed(m: Streams, p: Path, es: seq<Entry>)
    requires GoodListing(m, p, es)
    ensures Named(m, p, es) == Below(m, p)
  {
  }

  lemma NamedOneMore(m: Streams, p: Path, es: seq<Entry>, i: nat)
    requires i < |es| && GoodListing(m, p, es)
    ensures Through(m, p, es[i]) + Named(m, p, es[i + 1..]) == Named(m, p, es[i..])
    ensures Through(m, p, es[i]) !! Named(m, p, es[i + 1..])
    ensures Leads(m, p, es[i])
  {
    hide Leads, Below, EntryName;
    var rest, tail := es[i + 1..], es[i..];
    forall id | id in Named(m, p, tail) ensures id in Through(m, p, es[i]) + Named(m, p, rest) {
      var k :| 0 <= k < |tail| && tail[k].name == EntryName(p, id);
      if k > 0 {
        assert rest[k - 1] == tail[k];
      }
    }
    forall id | id in Named(m, p, rest) ensures id in Named(m, p, tail) && id !in Through(m, p, es[i]) {
      var k :| 0 <= k < |rest| && rest[k].name == EntryName(p, id);
      assert rest[k] == es[i + 1 + k] == tail[k + 1];
    }
    forall id | id in Through(m, p, es[i]) ensures id in Named(m, p, tail) {
      assert tail[0] == es[i];
    }
  }

  lemma {:induction false} WalkEntriesCover(m: Streams, p: Path, es: seq<Entry>, i: nat, levels: nat)
    requires AllGood(m.Keys) && levels > 0 && levels + Level(p) >= 4
    requires i <= |es| && GoodListing(m, p, es)
    ensures Covers(WalkEntries(m, Print(p), es[i..], levels), Named(m, p, es[i..]))
    decreases levels, 0, |es| - i
  {
    hide GoodListing, Leads, Through;
    if i == |es| {
      NothingNamed(m, p, es[i..]);
    } else {
      hide Covers, Named;
      NamedOneMore(m, p, es, i);
      assert es[i..][1..] == es[i + 1..];
      WalkEntryCovers(m, p, es[i], levels);
      WalkEntriesCover(m, p, es, i + 1, levels);
      AllBelowGood(m, p, es[i], es[i + 1..]);
      CoversJoin(WalkEntry(m, Print(p), es[i], levels), Through(m, p, es[i]),
                 WalkEntries(m, Print(p), es[i + 1..], levels), Named(m, p, es[i + 1..]));
    }
  }

  lemma NothingNamed(m: Streams, p: Path, none: seq<Entry>)
    requires none == []
    ensures Named(m, p, none) == {}
  {
  }

  lemma AllBelowGood(m: Streams, p: Path, e: Entry, es: seq<Entry>)
    requires AllGood(m.Keys)
    ensures AllGood(Through(m, p, e)) && AllGood(Named(m, p, es))
  {
  }

  lemma OneFileCovers(id: StreamID)
    ensures Covers([PathString(id)], {id})
  {
  }

  lemma {:induction false} WalkEntryCovers(m: Streams, p: Path, e: Entry, levels: nat)
    requires AllGood(m.Keys) && levels > 0 && levels + Level(p) >= 4
    requires Leads(m, p, e)
    ensures Covers(WalkEntry(m, Print(p), e, levels), Through(m, p, e))
    decreases levels, 0, 0
  {
    hide Through, IsDirectory, Level, Walk, Child, Print, PathString, Covers;
    if !e.dir {
      var id :| Through(m, p, e) == {id} && PathString(id) == Child(Print(p), e.name);
      OneFileCovers(id);
    } else {
      var q :| IsDirectory(m, q) && Level(q) == Level(p) + 1
        && Print(q) == Child(Print(p), e.name) && Below(m, q) == Through(m, p, e);
      WalkCovers(m, q, levels - 1);
    }
  }

  /** Walking from the root, however deep one is prepared to go beyond the layout's four levels, visits every
    stored stream exactly once and nothing else. */
  lemma WalkIsExact(m: Streams, levels: nat)
    requires AllGood(m.Keys) && levels >= 4
    ensures Covers(Walk(m, "/", levels), m.Keys)
  {
    hide Covers;
    WalkCovers(m, ROOT, levels);
    assert Below(m, ROOT) == m.Keys;
  }

  lemma CatOkIsFile(m: Streams, s: string)
    requires CatOf(m, s).Ok?
    ensures exists id :: id in m && s == PathString(id) && CatOf(m, s) == Ok(m[id])
  {
    hide Parse, Print;
    PrintOfParse(s);
    var p := Parse(s).value;
    assert PathOf(IdOf(p)) == p;
    assert PathString(IdOf(p)) == s;
  }

  /** `Cat` succeeds exactly on the visited paths, with the whole stream, oldest sample first. */
  lemma CatReadsWhatIsWalked(m: Streams, levels: nat, s: string)
    requires ValidStreams(m) && AllGood(m.Keys) && levels >= 4
    ensures CatOf(m, s).Ok? <==> s in Walk(m, "/", levels)
    ensures CatOf(m, s).Ok? ==> exists id :: id in m && s == PathString(id) && CatOf(m, s) == Ok(m[id]) && Sorted(m[id])
  {
    hide Walk, CatOf, PathString, Sorted, GoodId;
    WalkIsExact(m, levels);
    forall id | id in m ensures CatOf(m, PathString(id)) == Ok(m[id]) {
      GoodIsReadable(m, id);
    }
    if CatOf(m, s).Ok? {
      CatOkIsFile(m, s);
    }
  }

  /** A stream path that the walk does not visit is reported missing by both operations. */
  lemma UnvisitedIsNotFound(m: Streams, levels: nat, s: string)
    requires ValidStreams(m) && AllGood(m.Keys) && levels >= 4
    requires Parse(s).Ok? && DepthOf(Parse(s).value) == DepthStream
    ensures if s in Walk(m, "/", levels) then CatOf(m, s).Ok? && LsOf(m, s) == Err(NotDir)
            else CatOf(m, s) == Err(NotFound) && LsOf(m, s) == Err(NotFound)
  {
    hide Walk, Print, Parse;
    CatReadsWhatIsWalked(m, levels, s);
  }

  /** Every stream of a store is readable at its own path. */
  ghost predicate AlwaysReadable(ids: set<StreamID>) {
    forall m: Streams, id :: m.Keys == ids && ValidStreams(m) && id in ids ==> CatOf(m, PathString(id)) == Ok(m[id])
  }

  lemma BadIdHasNoPath(id: StreamID)
    requires !GoodId(id)
    ensures Parse(PathString(id)) != Ok(PathOf(id)) || DepthOf(PathOf(id)) != DepthStream
  {
    hide Parse, Print;
    if Parse(PathString(id)) == Ok(PathOf(id)) {
      PrintOfParse(PathString(id));
      GoodIsWellFormed(id);
    }
  }

  /** A store in which no other stream holds what this one does. */
  function Telling(ids: set<StreamID>, id: StreamID): Streams {
    map i | i in ids :: [Sample(1, if i == id then "mine" else "other", "")]
  }

  lemma TellingIsValid(ids: set<StreamID>, id: StreamID)
    ensures Telling(ids, id).Keys == ids && ValidStreams(Telling(ids, id))
    ensures id in ids ==>
              forall other :: other in ids && other != id ==> Telling(ids, id)[other] != Telling(ids, id)[id]
  {
    assert Sample(1, "mine", "").value[0] != Sample(1, "other", "").value[0];
  }

  lemma BadIdIsUnreadable(ids: set<StreamID>, id: StreamID)
    requires id in ids && !GoodId(id)
    ensures !AlwaysReadable(ids)
  {
    hide GoodId, Parse, PathString, ValidStreams;
    var m := Telling(ids, id);
    TellingIsValid(ids, id);
    BadIdHasNoPath(id);
    assert CatOf(m, PathString(id)) != Ok(m[id]);
  }

  /** Which identifiers the filesystem can show: those with non-empty, slash-free names and a kind. */
  lemma ReadableIffGood(ids: set<StreamID>)
    ensures AlwaysReadable(ids) <==> AllGood(ids)
  {
    hide GoodId, PathString, CatOf, ValidStreams;
    if AllGood(ids) {
      forall m: Streams, id | m.Keys == ids && ValidStreams(m) && id in ids
        ensures CatOf(m, PathString(id)) == Ok(m[id])
      {
        GoodIsReadable(m, id);
      }
    }
    forall id | id in ids && !GoodId(id) ensures !AlwaysReadable(ids) {
      BadIdIsUnreadable(ids, id);
    }
  }

  lemma GoodIsReadable(m: Streams, id: StreamID)
    requires id in m && GoodId(id)
    ensures CatOf(m, PathString(id)) == Ok(m[id])
  {
    GoodIsWellFormed(id);
    ParseOfPrint(PathOf(id));
  }
}
