/** The dashboard's grouping of rules into namespaces, services and KPIs (webui/src/status.ts).

  `Grouped` is the reading: at every level the names in first-seen order, and under each KPI its rules in
  order. The loop of `buildTree`, which finds or pushes at each level, computes exactly that. */
module KpiTree {
  import opened Domain
  import Paths

  /** A rule as the dashboard receives it. */
  datatype WireRule = WireRule(path: string, op: Op, threshold: real, hold: int, channel: string)

  datatype Kpi = Kpi(path: string, ns: string, svc: string, name: string, rules: seq<WireRule>)
  datatype Service = Service(ns: string, name: string, kpis: seq<Kpi>)
  datatype Namespace = Namespace(name: string, services: seq<Service>)

  predicate Parses(r: WireRule) { Paths.TsParse(r.path).Some? }

  function PartsOf(r: WireRule): Paths.Parts
    requires Parses(r)
  {
    Paths.TsParse(r.path).value
  }

  ghost predicate AllParse(rs: seq<WireRule>) {
    forall k :: 0 <= k < |rs| ==> Parses(rs[k])
  }

  ghost predicate NoDuplicates(xs: seq<string>) {
    forall j, k :: 0 <= j < k < |xs| ==> xs[j] != xs[k]
  }

  // ----- the reading -----

  function Append(names: seq<string>, name: string): seq<string> {
    if name in names then names else names + [name]
  }

  /** Namespaces, services of a namespace and paths of a service, in first-seen order. */
  function NamespacesOf(rs: seq<WireRule>): seq<string>
    requires AllParse(rs)
  {
    if rs == [] then [] else Append(NamespacesOf(rs[..|rs| - 1]), PartsOf(rs[|rs| - 1]).ns)
  }

  function ServicesOf(rs: seq<WireRule>, ns: string): seq<string>
    requires AllParse(rs)
  {
    if rs == [] then []
    else
      var p := PartsOf(rs[|rs| - 1]);
      var before := ServicesOf(rs[..|rs| - 1], ns);
      if p.ns == ns then Append(before, p.svc) else before
  }

  function PathsOf(rs: seq<WireRule>, ns: string, svc: string): seq<string>
    requires AllParse(rs)
  {
    if rs == [] then []
    else
      var p := PartsOf(rs[|rs| - 1]);
      var before := PathsOf(rs[..|rs| - 1], ns, svc);
      if p.ns == ns && p.svc == svc then Append(before, rs[|rs| - 1].path) else before
  }

  /** The rules on one path, in order. */
  function RulesOn(rs: seq<WireRule>, path: string): seq<WireRule> {
    if rs == [] then []
    else RulesOn(rs[..|rs| - 1], path) + if rs[|rs| - 1].path == path then [rs[|rs| - 1]] else []
  }

  function KpiOf(rs: seq<WireRule>, path: string): Kpi
    requires Paths.TsParse(path).Some?
  {
    var p := Paths.TsParse(path).value;
    Kpi(path, p.ns, p.svc, p.name, RulesOn(rs, path))
  }

  lemma {:induction false} PathsParse(rs: seq<WireRule>, ns: string, svc: string)
    requires AllParse(rs)
    ensures forall k :: 0 <= k < |PathsOf(rs, ns, svc)| ==>
              var t := Paths.TsParse(PathsOf(rs, ns, svc)[k]); t.Some? && t.value.ns == ns && t.value.svc == svc
  {
    hide Paths.TsParse;
    if rs != [] {
      PathsParse(rs[..|rs| - 1], ns, svc);
    }
  }

  function KpisOf(rs: seq<WireRule>, ns: string, svc: string): (kpis: seq<Kpi>)
    requires AllParse(rs)
    ensures |kpis| == |PathsOf(rs, ns, svc)|
  {
    PathsParse(rs, ns, svc);
    var paths := PathsOf(rs, ns, svc);
    seq(|paths|, k requires 0 <= k < |paths| => KpiOf(rs, paths[k]))
  }

  function ServiceNodes(rs: seq<WireRule>, ns: string): (nodes: seq<Service>)
    requires AllParse(rs)
    ensures |nodes| == |ServicesOf(rs, ns)|
  {
    var names := ServicesOf(rs, ns);
    seq(|names|, k requires 0 <= k < |names| => Service(ns, names[k], KpisOf(rs, ns, names[k])))
  }

  function Grouped(rs: seq<WireRule>): (tree: seq<Namespace>)
    requires AllParse(rs)
    ensures |tree| == |NamespacesOf(rs)|
  {
    var names := NamespacesOf(rs);
    seq(|names|, k requires 0 <= k < |names| => Namespace(names[k], ServiceNodes(rs, names[k])))
  }

  // ----- find or push, level by level -----

  /** Array.find, as a position; the length when nothing matches. */
  function Find<T>(xs: seq<T>, matches: T -> bool): (k: nat)
    ensures k <= |xs|
    ensures k < |xs| ==> matches(xs[k])
    ensures forall j :: 0 <= j < k ==> !matches(xs[j])
  {
    if xs == [] || matches(xs[0]) then 0 else 1 + Find(xs[1..], matches)
  }

  function AtPath(path: string): Kpi -> bool { (kpi: Kpi) => kpi.path == path }

  function ServiceNamed(name: string): Service -> bool { (svc: Service) => svc.name == name }

  function NamespaceNamed(name: string): Namespace -> bool { (ns: Namespace) => ns.name == name }

  function WithKpi(kpis: seq<Kpi>, p: Paths.Parts, r: WireRule): seq<Kpi> {
    var k := Find(kpis, AtPath(r.path));
    var found := if k < |kpis| then kpis else kpis + [Kpi(r.path, p.ns, p.svc, p.name, [])];
    found[k := found[k].(rules := found[k].rules + [r])]
  }

  function WithService(svcs: seq<Service>, p: Paths.Parts, r: WireRule): seq<Service> {
    var k := Find(svcs, ServiceNamed(p.svc));
    var found := if k < |svcs| then svcs else svcs + [Service(p.ns, p.svc, [])];
    found[k := found[k].(kpis := WithKpi(found[k].kpis, p, r))]
  }

  function WithRule(tree: seq<Namespace>, p: Paths.Parts, r: WireRule): seq<Namespace> {
    var k := Find(tree, NamespaceNamed(p.ns));
    var found := if k < |tree| then tree else tree + [Namespace(p.ns, [])];
    found[k := found[k].(services := WithService(found[k].services, p, r))]
  }

  // ----- names are unique and in first-seen order -----

  lemma {:induction false} NamesUnique(rs: seq<WireRule>, ns: string, svc: string)
    requires AllParse(rs)
    ensures NoDuplicates(NamespacesOf(rs)) && NoDuplicates(ServicesOf(rs, ns)) && NoDuplicates(PathsOf(rs, ns, svc))
  {
    hide Paths.TsParse;
    if rs != [] {
      NamesUnique(rs[..|rs| - 1], ns, svc);
    }
  }

  lemma {:induction false} NamesPresent(rs: seq<WireRule>, r: WireRule, p: Paths.Parts)
    requires AllParse(rs) && r in rs && Paths.TsParse(r.path) == Some(p)
    ensures p.ns in NamespacesOf(rs) && p.svc in ServicesOf(rs, p.ns) && r.path in PathsOf(rs, p.ns, p.svc)
  {
    hide Paths.TsParse;
    var init, last := rs[..|rs| - 1], rs[|rs| - 1];
    if r != last {
      assert r in init;
      NamesPresent(init, r, p);
    }
  }

  /** A name that was never seen has nothing under it. */
  lemma {:induction false} NothingUnseen(rs: seq<WireRule>, ns: string, svc: string)
    requires AllParse(rs)
    ensures ns !in NamespacesOf(rs) ==> ServicesOf(rs, ns) == []
    ensures svc !in ServicesOf(rs, ns) ==> PathsOf(rs, ns, svc) == []
  {
    hide Paths.TsParse;
    if rs != [] {
      NothingUnseen(rs[..|rs| - 1], ns, svc);
    }
  }

  lemma {:induction false} NoRulesUnseen(rs: seq<WireRule>, path: string, t: Paths.Parts)
    requires AllParse(rs) && Paths.TsParse(path) == Some(t) && path !in PathsOf(rs, t.ns, t.svc)
    ensures RulesOn(rs, path) == []
  {
    hide Paths.TsParse;
    if rs != [] {
      NoRulesUnseen(rs[..|rs| - 1], path, t);
    }
  }

  // ----- one rule more -----

  lemma RulesOnMore(rs: seq<WireRule>, r: WireRule, path: string)
    ensures RulesOn(rs + [r], path) == RulesOn(rs, path) + if path == r.path then [r] else []
  {
    assert (rs + [r])[..|rs|] == rs;
  }

  lemma PathsOfMore(rs: seq<WireRule>, r: WireRule, p: Paths.Parts)
    requires AllParse(rs) && Paths.TsParse(r.path) == Some(p)
    ensures AllParse(rs + [r]) && PathsOf(rs + [r], p.ns, p.svc) == Append(PathsOf(rs, p.ns, p.svc), r.path)
  {
    hide Paths.TsParse;
    assert (rs + [r])[..|rs|] == rs;
  }

  /** Where a path is among the KPIs of its service: at the place it was first seen, if it was. */
  lemma FindPath(rs: seq<WireRule>, p: Paths.Parts, path: string)
    requires AllParse(rs)
    ensures var paths, k := PathsOf(rs, p.ns, p.svc), Find(KpisOf(rs, p.ns, p.svc), AtPath(path));
            && k <= |paths| && (k < |paths| ==> paths[k] == path) && (k == |paths| ==> path !in paths)
            && forall i :: 0 <= i < |paths| && i != k ==> paths[i] != path
  {
    hide Paths.TsParse, PathsOf, RulesOn;
    var paths, kpis := PathsOf(rs, p.ns, p.svc), KpisOf(rs, p.ns, p.svc);
    PathsParse(rs, p.ns, p.svc);
    NamesUnique(rs, p.ns, p.svc);
    forall i | 0 <= i < |paths| ensures AtPath(path)(kpis[i]) <==> paths[i] == path {
    }
  }

  lemma KpisOfMore(rs: seq<WireRule>, r: WireRule, p: Paths.Parts)
    requires AllParse(rs) && Paths.TsParse(r.path) == Some(p)
    ensures KpisOf(rs + [r], p.ns, p.svc) == WithKpi(KpisOf(rs, p.ns, p.svc), p, r)
  {
    hide Paths.TsParse, PathsOf, RulesOn, Find, NoDuplicates;
    var rs' := rs + [r];
    var paths, kpis := PathsOf(rs, p.ns, p.svc), KpisOf(rs, p.ns, p.svc);
    PathsParse(rs, p.ns, p.svc);
    PathsOfMore(rs, r, p);
    FindPath(rs, p, r.path);
    if r.path !in paths {
      NoRulesUnseen(rs, r.path, p);
    }
    var want := WithKpi(kpis, p, r);
    forall i | 0 <= i < |want| ensures KpisOf(rs', p.ns, p.svc)[i] == want[i] {
      RulesOnMore(rs, r, PathsOf(rs', p.ns, p.svc)[i]);
    }
  }

  lemma KpisOfElsewhere(rs: seq<WireRule>, r: WireRule, p: Paths.Parts, ns: string, svc: string)
    requires AllParse(rs) && Paths.TsParse(r.path) == Some(p) && (p.ns != ns || p.svc != svc)
    ensures KpisOf(rs + [r], ns, svc) == KpisOf(rs, ns, svc)
  {
    hide Paths.TsParse;
    var rs' := rs + [r];
    assert rs'[..|rs|] == rs;
    PathsParse(rs, ns, svc);
    var paths := PathsOf(rs, ns, svc);
    forall k | 0 <= k < |paths| ensures KpiOf(rs', paths[k]) == KpiOf(rs, paths[k]) {
      assert paths[k] != r.path;
    }
  }

  lemma ServiceNodesMore(rs: seq<WireRule>, r: WireRule, p: Paths.Parts)
    requires AllParse(rs) && Paths.TsParse(r.path) == Some(p)
    ensures ServiceNodes(rs + [r], p.ns) == WithService(ServiceNodes(rs, p.ns), p, r)
  {
    hide Paths.TsParse, KpisOf, WithKpi;
    var rs' := rs + [r];
    assert rs'[..|rs|] == rs;
    var names := ServicesOf(rs, p.ns);
    NamesUnique(rs, p.ns, p.svc);
    NothingUnseen(rs, p.ns, p.svc);
    forall k | 0 <= k < |names| && names[k] != p.svc ensures KpisOf(rs', p.ns, names[k]) == KpisOf(rs, p.ns, names[k]) {
      KpisOfElsewhere(rs, r, p, p.ns, names[k]);
    }
    KpisOfMore(rs, r, p);
    KpisOfNone(rs, p.ns, p.svc);
    var nodes := ServiceNodes(rs, p.ns);
    var k := Find(nodes, ServiceNamed(p.svc));
    assert forall i :: 0 <= i < |names| ==> nodes[i].name == names[i];
    assert ServicesOf(rs', p.ns) == if k < |names| then names else names + [p.svc];
    var want := WithService(nodes, p, r);
    forall i | 0 <= i < |want| ensures ServiceNodes(rs', p.ns)[i] == want[i] {
      assert i < |names| && i != k ==> names[i] != p.svc;
    }
  }

  lemma KpisOfNone(rs: seq<WireRule>, ns: string, svc: string)
    requires AllParse(rs)
    ensures PathsOf(rs, ns, svc) == [] ==> KpisOf(rs, ns, svc) == []
    ensures ServicesOf(rs, ns) == [] ==> ServiceNodes(rs, ns) == []
  {
  }

  lemma ServiceNodesElsewhere(rs: seq<WireRule>, r: WireRule, p: Paths.Parts, ns: string)
    requires AllParse(rs) && Paths.TsParse(r.path) == Some(p) && p.ns != ns
    ensures ServiceNodes(rs + [r], ns) == ServiceNodes(rs, ns)
  {
    hide Paths.TsParse, KpisOf;
    var rs' := rs + [r];
    assert rs'[..|rs|] == rs;
    var names := ServicesOf(rs, ns);
    forall k | 0 <= k < |names| ensures KpisOf(rs', ns, names[k]) == KpisOf(rs, ns, names[k]) {
      KpisOfElsewhere(rs, r, p, ns, names[k]);
    }
  }

  lemma GroupedMore(rs: seq<WireRule>, r: WireRule, p: Paths.Parts)
    requires AllParse(rs) && Paths.TsParse(r.path) == Some(p)
    ensures Grouped(rs + [r]) == WithRule(Grouped(rs), p, r)
  {
    hide Paths.TsParse, ServiceNodes, WithService;
    var rs' := rs + [r];
    assert rs'[..|rs|] == rs;
    var names := NamespacesOf(rs);
    NamesUnique(rs, p.ns, p.svc);
    NothingUnseen(rs, p.ns, p.svc);
    forall k | 0 <= k < |names| && names[k] != p.ns ensures ServiceNodes(rs', names[k]) == ServiceNodes(rs, names[k]) {
      ServiceNodesElsewhere(rs, r, p, names[k]);
    }
    ServiceNodesMore(rs, r, p);
    KpisOfNone(rs, p.ns, p.svc);
    var nodes := Grouped(rs);
    var k := Find(nodes, NamespaceNamed(p.ns));
    assert forall i :: 0 <= i < |names| ==> nodes[i].name == names[i];
    assert NamespacesOf(rs') == if k < |names| then names else names + [p.ns];
    var want := WithRule(nodes, p, r);
    forall i | 0 <= i < |want| ensures Grouped(rs')[i] == want[i] {
      assert i < |names| && i != k ==> names[i] != p.ns;
    }
  }

  /** The loop. It gives up, as the source throws, on the first rule whose path is no metrics stream. */
  method BuildTree(rules: seq<WireRule>) returns (tree: Option<seq<Namespace>>)
    ensures tree.Some? <==> AllParse(rules)
    ensures AllParse(rules) ==> tree == Some(Grouped(rules))
  {
    hide Paths.TsParse, WithRule, Grouped;
    var t: seq<Namespace> := [];
    NothingGrouped();
    for i := 0 to |rules|
      invariant AllParse(rules[..i]) && t == Grouped(rules[..i])
    {
      var rule := rules[i];
      var parsed := Paths.TsParse(rule.path);
      if parsed.None? {
        return None;
      }
      assert rules[..i + 1] == rules[..i] + [rule];
      GroupedMore(rules[..i], rule, parsed.value);
      t := WithRule(t, parsed.value, rule);
    }
    assert rules[..|rules|] == rules;
    return Some(t);
  }

  lemma NothingGrouped()
    ensures Grouped([]) == []
  {
  }

  // ----- what the tree holds -----

  ghost predicate InTree(tree: seq<Namespace>, kpi: Kpi) {
    exists i, j, k ::
      && 0 <= i < |tree| && 0 <= j < |tree[i].services| && 0 <= k < |tree[i].services[j].kpis|
      && tree[i].services[j].kpis[k] == kpi
  }

  lemma OnlyRulesInTree(rs: seq<WireRule>, kpi: Kpi)
    requires AllParse(rs) && InTree(Grouped(rs), kpi)
    ensures (exists r :: r in rs && r.path == kpi.path) && Paths.TsParse(kpi.path).Some? && kpi == KpiOf(rs, kpi.path)
  {
    hide Paths.TsParse, RulesOn;
    var tree := Grouped(rs);
    var i, j, k :| 0 <= i < |tree| && 0 <= j < |tree[i].services| && 0 <= k < |tree[i].services[j].kpis|
      && tree[i].services[j].kpis[k] == kpi;
    var ns, svc := tree[i].name, tree[i].services[j].name;
    PathsParse(rs, ns, svc);
    PathIsOfRule(rs, ns, svc, k);
  }

  lemma RuleIsInTree(rs: seq<WireRule>, r: WireRule)
    requires AllParse(rs) && r in rs
    ensures Paths.TsParse(r.path).Some? && InTree(Grouped(rs), KpiOf(rs, r.path))
  {
    hide Paths.TsParse, RulesOn;
    var tree, p := Grouped(rs), PartsOf(r);
    NamesPresent(rs, r, p);
    var i :| 0 <= i < |NamespacesOf(rs)| && NamespacesOf(rs)[i] == p.ns;
    var j :| 0 <= j < |ServicesOf(rs, p.ns)| && ServicesOf(rs, p.ns)[j] == p.svc;
    var k :| 0 <= k < |PathsOf(rs, p.ns, p.svc)| && PathsOf(rs, p.ns, p.svc)[k] == r.path;
    assert tree[i].services[j].kpis[k] == KpiOf(rs, r.path);
  }

  /** No rule is lost and none is made up: a path has one KPI exactly when some rule is on it, and that KPI holds its
    rules in order. */
  lemma TreeHolds(rs: seq<WireRule>, kpi: Kpi)
    requires AllParse(rs)
    ensures InTree(Grouped(rs), kpi) <==>
            (exists r :: r in rs && r.path == kpi.path) && Paths.TsParse(kpi.path).Some? && kpi == KpiOf(rs, kpi.path)
  {
    hide InTree, Grouped, Paths.TsParse, KpiOf;
    if InTree(Grouped(rs), kpi) {
      OnlyRulesInTree(rs, kpi);
    }
    forall r | r in rs && r.path == kpi.path && Paths.TsParse(kpi.path).Some? && kpi == KpiOf(rs, kpi.path)
      ensures InTree(Grouped(rs), kpi)
    {
      RuleIsInTree(rs, r);
    }
  }

  /** A KPI carries what its path says: "/<namespace>/<service>/metrics/<name>.dat". Its rules are those on the path,
    each as it was received. */
  lemma KpiIsItsPath(rs: seq<WireRule>, kpi: Kpi, r: WireRule)
    requires AllParse(rs) && InTree(Grouped(rs), kpi)
    ensures kpi.path == "/" + (kpi.ns + ("/" + (kpi.svc + ("/" + ("metrics/" + (kpi.name + ".dat"))))))
    ensures r in kpi.rules <==> r in rs && r.path == kpi.path
  {
    hide InTree, Grouped, Paths.TsParse, RulesOn;
    TreeHolds(rs, kpi);
    Paths.TsParseIsRegex(kpi.path, Paths.TsParse(kpi.path).value);
    RulesOnContents(rs, kpi.path, r);
  }

  lemma {:induction false} RulesOnContents(rs: seq<WireRule>, path: string, r: WireRule)
    ensures r in RulesOn(rs, path) <==> r in rs && r.path == path
  {
    if rs != [] {
      RulesOnContents(rs[..|rs| - 1], path, r);
      assert rs == rs[..|rs| - 1] + [rs[|rs| - 1]];
    }
  }

  /** A path is at one place of the tree only. */
  lemma OnePlacePerPath(rs: seq<WireRule>, i: nat, j: nat, k: nat, i': nat, j': nat, k': nat)
    requires AllParse(rs)
    requires var t := Grouped(rs); i < |t| && j < |t[i].services| && k < |t[i].services[j].kpis|
    requires var t := Grouped(rs); i' < |t| && j' < |t[i'].services| && k' < |t[i'].services[j'].kpis|
    requires Grouped(rs)[i].services[j].kpis[k].path == Grouped(rs)[i'].services[j'].kpis[k'].path
    ensures i == i' && j == j' && k == k'
  {
    hide Paths.TsParse;
    var t := Grouped(rs);
    var ns, svc := t[i].name, t[i].services[j].name;
    PathsParse(rs, ns, svc);
    PathsParse(rs, t[i'].name, t[i'].services[j'].name);
    NamesUnique(rs, ns, svc);
  }

  lemma {:induction false} PathIsOfRule(rs: seq<WireRule>, ns: string, svc: string, k: nat)
    requires AllParse(rs) && k < |PathsOf(rs, ns, svc)|
    ensures exists r :: r in rs && r.path == PathsOf(rs, ns, svc)[k]
  {
    hide Paths.TsParse;
    var init, last := rs[..|rs| - 1], rs[|rs| - 1];
    if k < |PathsOf(init, ns, svc)| {
      PathIsOfRule(init, ns, svc, k);
      var r :| r in init && r.path == PathsOf(init, ns, svc)[k];
      assert r in rs;
    } else {
      assert last in rs;
    }
  }

  /** The dashboard's lookup table of KPIs, filled by walking the tree. */
  method IndexKpis(tree: seq<Namespace>) returns (kpis: map<string, Kpi>)
    ensures forall path :: path in kpis ==> kpis[path].path == path && InTree(tree, kpis[path])
    ensures forall kpi :: InTree(tree, kpi) ==> kpi.path in kpis
  {
    kpis := map[];
    for i := 0 to |tree|
      invariant forall path :: path in kpis ==> kpis[path].path == path && InTree(tree, kpis[path])
      invariant Indexed(tree, kpis, i, 0, 0)
    {
      var svcs := tree[i].services;
      for j := 0 to |svcs|
        invariant forall path :: path in kpis ==> kpis[path].path == path && InTree(tree, kpis[path])
        invariant Indexed(tree, kpis, i, j, 0)
      {
        var ks := svcs[j].kpis;
        for k := 0 to |ks|
          invariant forall path :: path in kpis ==> kpis[path].path == path && InTree(tree, kpis[path])
          invariant Indexed(tree, kpis, i, j, k)
        {
          assert InTree(tree, tree[i].services[j].kpis[k]);
          kpis := kpis[ks[k].path := ks[k]];
        }
      }
    }
  }

  /** Every KPI that comes before position (i, j, k) of the walk is in the table. */
  ghost predicate Indexed(tree: seq<Namespace>, kpis: map<string, Kpi>, i: nat, j: nat, k: nat) {
    forall a, b, c ::
      && 0 <= a < |tree| && 0 <= b < |tree[a].services| && 0 <= c < |tree[a].services[b].kpis|
      && (a < i || (a == i && (b < j || (b == j && c < k))))
      ==> tree[a].services[b].kpis[c].path in kpis
  }

  /** So the table maps each path that has a rule to its KPI, and nothing else. */
  lemma IndexIsKpis(rs: seq<WireRule>, kpis: map<string, Kpi>)
    requires AllParse(rs)
    requires forall path :: path in kpis ==> kpis[path].path == path && InTree(Grouped(rs), kpis[path])
    requires forall kpi :: InTree(Grouped(rs), kpi) ==> kpi.path in kpis
    ensures kpis == KpiTable(rs)
  {
    hide Paths.TsParse, Grouped, InTree;
    forall path | path in kpis ensures path in KpiTable(rs) && kpis[path] == KpiTable(rs)[path] {
      TreeHolds(rs, kpis[path]);
    }
    forall path | path in KpiTable(rs) ensures path in kpis {
      TreeHolds(rs, KpiTable(rs)[path]);
    }
  }

  function KpiTable(rs: seq<WireRule>): map<string, Kpi>
    requires AllParse(rs)
  {
    map r | r in rs :: r.path := KpiOf(rs, r.path)
  }
}
