/** A solution's node graph and its copy under new names (pkg/tools/clone_solution.go). */
module GraphClone {
  import opened Text

  /** A node reference: `node:port`, or a text without a colon, which names no node. */
  datatype Ref = Bare(text: string) | PortOf(node: string, port: string)

  function RefText(r: Ref): string {
    match r
    case Bare(text) => text
    case PortOf(node, port) => node + ":" + port
  }

  function ParseRef(s: string): Ref {
    var i := IndexOf(s, ':');
    if i == |s| then Bare(s) else PortOf(s[..i], s[i + 1..])
  }

  predicate WellFormed(r: Ref) {
    match r
    case Bare(text) => ':' !in text
    case PortOf(node, _) => ':' !in node
  }

  type Names = map<string, string>

  /** remapNodeRef on the text as it is stored. */
  function RemapNodeRef(ref: string, names: Names): string {
    var parts := SplitN(ref, ':', 2);
    if |parts| != 2 then ref
    else if parts[0] in names then names[parts[0]] + ":" + parts[1]
    else ref
  }

  function Remap(r: Ref, names: Names): Ref {
    if r.PortOf? && r.node in names then r.(node := names[r.node]) else r
  }

  lemma ParseOfText(r: Ref)
    requires WellFormed(r)
    ensures ParseRef(RefText(r)) == r
  {
    match r
    case Bare(text) =>
    case PortOf(node, port) =>
      var s := RefText(r);
      assert s == node + [':'] + port;
      IndexOfAfter(node, ':', port);
      assert s[..|node|] == node && s[|node| + 1..] == port;
  }

  /** Remapping the text of a reference is remapping the reference; any text is one. */
  lemma RemapTextIsRemap(s: string, names: Names)
    ensures WellFormed(ParseRef(s)) && RefText(ParseRef(s)) == s
    ensures RemapNodeRef(s, names) == RefText(Remap(ParseRef(s), names))
  {
    var i := IndexOf(s, ':');
    if i < |s| {
      assert s == s[..i] + ":" + s[i + 1..];
      assert SplitN(s[i + 1..], ':', 1) == [s[i + 1..]];
    }
  }

  datatype Edge = Edge(id: string, port: string, target: Ref, flow: string)

  datatype Config = Config(port: string, source: Ref, flow: string, data: string)

  /** `spec` stands for everything else the copy carries along, `status` for what the operator writes. */
  datatype Node = Node(flow: string, spec: string, edges: seq<Edge>, configs: seq<Config>, status: string)

  /** The export: nodes in order, and the flows it lists. */
  datatype Export = Export(order: seq<string>, nodes: map<string, Node>, flows: set<string>)

  predicate ValidExport(x: Export) {
    && (forall id <- x.order :: id in x.nodes)
    && (forall i, j :: 0 <= i < j < |x.order| ==> x.order[i] != x.order[j])
  }

  /** The node's flow is one the export lists, so it is copied. */
  predicate Copied(x: Export, id: string) { id in x.order && id in x.nodes && x.nodes[id].flow in x.flows }

  // ----- what a node becomes -----

  const SELF := Bare("")

  /** The configs that reference nothing. */
  function SelfContained(configs: seq<Config>): (r: seq<Config>)
    ensures forall c <- r :: c.source == SELF
  {
    if configs == [] then []
    else
      var last := configs[|configs| - 1];
      SelfContained(configs[..|configs| - 1]) + (if last.source == SELF then [last] else [])
  }

  /** Phase 1: without edges, and with the configs that reference nothing. */
  function Stripped(n: Node, flow: string): Node {
    n.(flow := flow, edges := [], configs := SelfContained(n.configs))
  }

  /** strings.ReplaceAll(s, ":", "_"). */
  function Underscored(s: string): string {
    seq(|s|, i requires 0 <= i < |s| => if s[i] == ':' then '_' else s[i])
  }

  function NewEdge(e: Edge, name: string, flow: string, names: Names): Edge {
    var target := Remap(e.target, names);
    Edge(name + "_" + e.port + "-" + Underscored(RefText(target)), e.port, target, flow)
  }

  function NewConfig(c: Config, flow: string, names: Names): Config {
    Config(c.port, Remap(c.source, names), if c.flow != "" then flow else c.flow, c.data)
  }

  function NewEdges(edges: seq<Edge>, name: string, flow: string, names: Names): (r: seq<Edge>)
    ensures |r| == |edges|
  {
    seq(|edges|, i requires 0 <= i < |edges| => NewEdge(edges[i], name, flow, names))
  }

  function NewConfigs(configs: seq<Config>, flow: string, names: Names): (r: seq<Config>)
    ensures |r| == |configs|
  {
    seq(|configs|, i requires 0 <= i < |configs| => NewConfig(configs[i], flow, names))
  }

  /** Phase 2: the live node with the source's edges and configs under the new names. */
  function Wired(live: Node, n: Node, name: string, flow: string, names: Names): Node {
    live.(edges := NewEdges(n.edges, name, flow, names), configs := NewConfigs(n.configs, flow, names))
  }

  // ----- references -----

  predicate RefIn(r: Ref, present: set<string>) { r.PortOf? ==> r.node in present }

  /** Everything the node refers to is there. */
  predicate Rooted(n: Node, present: set<string>) {
    && (forall e <- n.edges :: RefIn(e.target, present))
    && (forall c <- n.configs :: RefIn(c.source, present))
  }

  /** The copied nodes refer to copied nodes only. */
  ghost predicate Closed(x: Export) {
    forall id :: Copied(x, id) ==> Rooted(x.nodes[id], CopiedSet(x))
  }

  function CopiedSet(x: Export): set<string> { set id | id in x.order && Copied(x, id) }

  lemma StrippedIsRooted(n: Node, flow: string, present: set<string>)
    ensures Rooted(Stripped(n, flow), present)
  {
  }

  lemma MorePresent(n: Node, some: set<string>, more: set<string>)
    requires Rooted(n, some) && some <= more
    ensures Rooted(n, more)
  {
  }

  /** A wired node is rooted exactly when each of its references is to a renamed node, or to a present one. */
  lemma WiredIsRootedIff(live: Node, n: Node, name: string, flow: string, names: Names, present: set<string>)
    requires names.Values <= present
    ensures Rooted(Wired(live, n, name, flow, names), present) <==> Rooted(n, names.Keys + present)
  {
    var w := Wired(live, n, name, flow, names);
    forall r: Ref ensures RefIn(Remap(r, names), present) <==> RefIn(r, names.Keys + present) {
      if r.PortOf? && r.node in names { assert names[r.node] in names.Values; }
    }
    if Rooted(w, present) {
      forall e | e in n.edges ensures RefIn(e.target, names.Keys + present) {
        var i :| 0 <= i < |n.edges| && n.edges[i] == e;
        assert w.edges[i] in w.edges;
      }
      forall c | c in n.configs ensures RefIn(c.source, names.Keys + present) {
        var i :| 0 <= i < |n.configs| && n.configs[i] == c;
        assert w.configs[i] in w.configs;
      }
    }
  }

  // ----- isomorphism -----

  predicate Injective(names: Names) { forall a, b :: a in names && b in names && names[a] == names[b] ==> a == b }

  /** getPortConfig: the first config for edges from `source` into `port`. */
  function FindConfig(configs: seq<Config>, source: Ref, port: string): Option<Config> {
    if configs == [] then None
    else if configs[0].source == source && configs[0].port == port then Some(configs[0])
    else FindConfig(configs[1..], source, port)
  }

  /** The config that is found is the first one of the list with this source and port. */
  lemma {:induction false} FindsFirst(configs: seq<Config>, source: Ref, port: string)
    ensures match FindConfig(configs, source, port)
      case None => forall c <- configs :: c.source != source || c.port != port
      case Some(c) =>
        exists i :: 0 <= i < |configs| && configs[i] == c && c.source == source && c.port == port
          && forall j :: 0 <= j < i ==> configs[j].source != source || configs[j].port != port
    decreases |configs|
  {
    if configs != [] && !(configs[0].source == source && configs[0].port == port) {
      FindsFirst(configs[1..], source, port);
      match FindConfig(configs[1..], source, port)
      case None =>
      case Some(c) =>
        var i :| 0 <= i < |configs| - 1 && configs[1..][i] == c
          && forall j :: 0 <= j < i ==> configs[1..][j].source != source || configs[1..][j].port != port;
        forall j | 0 <= j < i + 1 ensures configs[j].source != source || configs[j].port != port {
          if j > 0 { assert configs[1..][j - 1] == configs[j]; }
        }
        assert configs[i + 1] == c;
    }
  }

  lemma RemapInjective(a: Ref, b: Ref, names: Names)
    requires Injective(names) && RefIn(a, names.Keys) && RefIn(b, names.Keys)
    ensures Remap(a, names) == Remap(b, names) <==> a == b
  {
  }

  /** The copy of an edge finds the copy of the config that the edge itself found. */
  lemma {:induction false} EdgesFindTheirConfigs(
      configs: seq<Config>, source: Ref, port: string, flow: string, names: Names)
    requires Injective(names) && RefIn(source, names.Keys) && forall c <- configs :: RefIn(c.source, names.Keys)
    ensures FindConfig(NewConfigs(configs, flow, names), Remap(source, names), port)
         == match FindConfig(configs, source, port)
            case None => None
            case Some(c) => Some(NewConfig(c, flow, names))
    decreases |configs|
  {
    if configs != [] {
      assert configs[0] in configs && forall c <- configs[1..] :: c in configs;
      RemapInjective(configs[0].source, source, names);
      EdgesFindTheirConfigs(configs[1..], source, port, flow, names);
      assert NewConfigs(configs, flow, names)[1..] == NewConfigs(configs[1..], flow, names);
    }
  }

  /** The copy of `n` under `name` has n's edges and configs, one for one, under the renaming. */
  ghost predicate IsCopy(copy: Node, n: Node, name: string, flow: string, names: Names) {
    && copy.flow == flow && copy.spec == n.spec
    && copy.edges == NewEdges(n.edges, name, flow, names)
    && copy.configs == NewConfigs(n.configs, flow, names)
  }

  // ----- a copy, part by part -----

  /** The reference has the same port and the new name of the node, where that has one. */
  predicate Renamed(was: Ref, now: Ref, names: Names) {
    match was
    case Bare(text) => now == was
    case PortOf(node, port) =>
      now.PortOf? && now.port == port && now.node == if node in names then names[node] else node
  }

  /** The text of `t` with an underscore for every colon. */
  predicate ColonsReplaced(s: string, t: string) {
    |s| == |t| && forall i :: 0 <= i < |t| ==> (t[i] == ':' ==> s[i] == '_') && (t[i] != ':' ==> s[i] == t[i])
  }

  /** Port and data are the source's, the source reference is renamed, and the flow is new where there was one. */
  predicate ConfigCopied(now: Config, was: Config, flow: string, names: Names) {
    && now.port == was.port && now.data == was.data && Renamed(was.source, now.source, names)
    && (was.flow == "" ==> now.flow == "") && (was.flow != "" ==> now.flow == flow)
  }

  /** The port is the source's, the target renamed, the flow new, and the id made of the new names. */
  predicate EdgeCopied(now: Edge, was: Edge, name: string, flow: string, names: Names) {
    && now.port == was.port && now.flow == flow && Renamed(was.target, now.target, names)
    && var head := name + "_" + was.port + "-";
    && HasPrefix(now.id, head)
    && match now.target
       case Bare(text) => ColonsReplaced(now.id[|head|..], text)
       case PortOf(node, port) => ColonsReplaced(now.id[|head|..], node + ":" + port)
  }

  ghost predicate NodeCopied(now: Node, was: Node, name: string, flow: string, names: Names) {
    && now.flow == flow && now.spec == was.spec
    && |now.configs| == |was.configs| && |now.edges| == |was.edges|
    && (forall i :: 0 <= i < |was.configs| ==> ConfigCopied(now.configs[i], was.configs[i], flow, names))
    && (forall i :: 0 <= i < |was.edges| ==> EdgeCopied(now.edges[i], was.edges[i], name, flow, names))
  }

  lemma NewConfigIsCopied(c: Config, flow: string, names: Names)
    ensures ConfigCopied(NewConfig(c, flow, names), c, flow, names)
  {
  }

  lemma NewEdgeIsCopied(e: Edge, name: string, flow: string, names: Names)
    ensures EdgeCopied(NewEdge(e, name, flow, names), e, name, flow, names)
  {
    var head, now := name + "_" + e.port + "-", NewEdge(e, name, flow, names);
    assert now.id == head + Underscored(RefText(now.target));
    assert now.id[..|head|] == head && now.id[|head|..] == Underscored(RefText(now.target));
  }

  /** The copy, part by part: each config and each edge of the source, in order. */
  lemma CopyIsCopied(copy: Node, n: Node, name: string, flow: string, names: Names)
    requires IsCopy(copy, n, name, flow, names)
    ensures NodeCopied(copy, n, name, flow, names)
  {
    forall i | 0 <= i < |n.configs| ensures ConfigCopied(copy.configs[i], n.configs[i], flow, names) {
      NewConfigIsCopied(n.configs[i], flow, names);
    }
    forall i | 0 <= i < |n.edges| ensures EdgeCopied(copy.edges[i], n.edges[i], name, flow, names) {
      NewEdgeIsCopied(n.edges[i], name, flow, names);
    }
  }

  /** SelfContained keeps exactly the configs that reference nothing. */
  lemma {:induction false} SelfContainedKeeps(configs: seq<Config>, c: Config)
    ensures multiset(SelfContained(configs))[c] == if c.source == Bare("") then multiset(configs)[c] else 0
  {
    if configs != [] {
      var n := |configs| - 1;
      SelfContainedKeeps(configs[..n], c);
      assert configs == configs[..n] + [configs[n]];
    }
  }

  lemma {:induction false} FindAppend(configs: seq<Config>, c: Config, source: Ref, port: string)
    ensures FindConfig(configs + [c], source, port)
         == match FindConfig(configs, source, port)
            case Some(d) => Some(d)
            case None => if c.source == source && c.port == port then Some(c) else None
    decreases |configs|
  {
    if configs != [] {
      FindAppend(configs[1..], c, source, port);
      assert (configs + [c])[1..] == configs[1..] + [c];
    }
  }

  lemma {:induction false} SelfContainedFinds(configs: seq<Config>, port: string)
    ensures FindConfig(SelfContained(configs), Bare(""), port) == FindConfig(configs, Bare(""), port)
  {
    if configs != [] {
      var n := |configs| - 1;
      var last := configs[n];
      SelfContainedFinds(configs[..n], port);
      FindAppend(configs[..n], last, Bare(""), port);
      FindAppend(SelfContained(configs[..n]), last, Bare(""), port);
      assert configs == configs[..n] + [last];
      assert SelfContained(configs[..n]) + [] == SelfContained(configs[..n]);
    }
  }

  /**
   * A node that is not wired yet boots on its own settings: it has no edges, keeps exactly the
   * configs that reference nothing, finds for every port the one that the source finds, and is the
   * source's in all but its flow.
   */
  lemma BareNodeBootsOnItsSettings(n: Node, flow: string, port: string, c: Config)
    ensures var bare := Stripped(n, flow);
      && bare.flow == flow && bare.spec == n.spec && bare.edges == []
      && multiset(bare.configs)[c] == (if c.source == Bare("") then multiset(n.configs)[c] else 0)
      && FindConfig(bare.configs, Bare(""), port) == FindConfig(n.configs, Bare(""), port)
  {
    SelfContainedKeeps(n.configs, c);
    SelfContainedFinds(n.configs, port);
  }
}
