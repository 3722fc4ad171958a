/**
 * Installing a solution into a live cluster (pkg/tools/clone_solution.go, phases 1 and 2): create
 * every node bare, then wire them, while the operator keeps writing to the new nodes. The names
 * the cluster assigns, its refusals and its conflicts are parameters.
 */
module CloneSolution {
  import opened Text
  import opened GraphClone

  /** How the cluster answers one update: stored, in conflict because the operator wrote first, or refused. */
  datatype Update = Stored | Conflict(status: string) | Refused

  type Updates = nat -> Update

  /** The API server, with every state it went through. */
  class Cluster {
    var nodes: map<string, Node>
    ghost var history: seq<map<string, Node>>

    ghost predicate Valid()
      reads this
    {
      |history| > 0 && history[|history| - 1] == nodes
    }

    constructor (nodes: map<string, Node>)
      ensures Valid() && this.nodes == nodes && history == [nodes]
    {
      this.nodes := nodes;
      history := [nodes];
    }

    method Put(name: string, n: Node)
      requires Valid()
      modifies this
      ensures Valid() && nodes == old(nodes)[name := n] && history == old(history) + [nodes]
    {
      nodes := nodes[name := n];
      history := history + [nodes];
    }

    /** UpdateNodeCR on a live copy; in a conflict the operator has just written the node's status. */
    method UpdateNode(name: string, n: Node, u: Update)
      requires Valid() && name in nodes
      modifies this
      ensures Valid() && history == old(history) + [nodes]
      ensures match u
        case Stored => nodes == old(nodes)[name := n]
        case Conflict(status) => nodes == old(nodes)[name := old(nodes)[name].(status := status)]
        case Refused => nodes == old(nodes)
    {
      match u {
        case Stored => nodes := nodes[name := n];
        case Conflict(status) => nodes := nodes[name := nodes[name].(status := status)];
        case Refused =>
      }
      history := history + [nodes];
    }
  }

  /** What the cluster will answer: the name of each new node, the new flow names, and the updates. */
  datatype World = World(given: Names, flows: Names, createFails: set<string>, updates: map<string, Updates>)

  const ATTEMPTS := 5

  /** New names are given to all nodes, and to no two the same or one that exists. */
  predicate FreshNames(x: Export, w: World, nodes: map<string, Node>) {
    && (forall id <- x.order :: id in w.given && w.given[id] !in nodes && id in w.updates)
    && (forall a, b :: a in x.order && b in x.order && w.given[a] == w.given[b] ==> a == b)
    && (forall f <- x.flows :: f in w.flows)
  }

  // ----- what every state keeps -----

  /** No created node refers to a name that is not there. */
  ghost predicate NoDangling(nodes: map<string, Node>, created: set<string>) {
    forall n :: n in created && n in nodes ==> Rooted(nodes[n], nodes.Keys)
  }

  /** No state since the start has a dangling reference in a created node. */
  ghost predicate NeverDangles(history: seq<map<string, Node>>, since: nat, created: set<string>) {
    forall i :: since <= i < |history| ==> NoDangling(history[i], created)
  }

  /** The nodes that were there before are as they were. */
  ghost predicate OthersKept(before: map<string, Node>, after: map<string, Node>, created: set<string>) {
    forall n :: n in before && n !in created ==> n in after && after[n] == before[n]
  }

  function AssignedNames(x: Export, w: World): set<string>
    requires forall id <- x.order :: id in w.given
  {
    set id | id in x.order :: w.given[id]
  }

  /** `names` maps the copied ones of the first n nodes to their assigned names. */
  ghost predicate NamesUpTo(x: Export, w: World, names: Names, n: nat) {
    && n <= |x.order|
    && (forall id :: id in names <==> id in x.order[..n] && Copied(x, id))
    && (forall id :: id in names ==> id in w.given && names[id] == w.given[id])
  }

  /** The copied ones of the first n nodes are in the cluster, bare. */
  ghost predicate BareUpTo(x: Export, w: World, nodes: map<string, Node>, names: Names) {
    forall id :: id in names ==>
      && id in x.nodes && x.nodes[id].flow in w.flows && names[id] in nodes
      && nodes[names[id]].(status := "") == Stripped(x.nodes[id], w.flows[x.nodes[id].flow]).(status := "")
  }

  type History = seq<map<string, Node>>

  function Now(h: History): map<string, Node> { if h == [] then map[] else h[|h| - 1] }

  /** The states after `start` so far: nothing dangles, and nothing that was there before has changed. */
  ghost predicate Safe(start: History, h: History, created: set<string>) {
    && 0 < |start| <= |h| && h[..|start|] == start
    && NeverDangles(h, |start|, created) && NoDangling(Now(h), created)
    && OthersKept(Now(start), Now(h), created) && Now(start).Keys <= Now(h).Keys
  }

  lemma SafeStep(start: History, h: History, g: History, created: set<string>, name: string, n: Node)
    requires Safe(start, h, created) && name in created && g == h + [Now(h)[name := n]]
    requires Rooted(n, Now(h).Keys + {name})
    ensures Safe(start, g, created)
  {
    forall m | m in created && m in Now(g) && m != name ensures Rooted(Now(g)[m], Now(g).Keys) {
      MorePresent(Now(h)[m], Now(h).Keys, Now(g).Keys);
    }
    MorePresent(n, Now(h).Keys + {name}, Now(g).Keys);
    forall i | |start| <= i < |g| ensures NoDangling(g[i], created) {
      if i < |h| { assert g[i] == h[i]; }
    }
  }

  /** The names of the first i nodes that are not created yet are free. */
  ghost predicate RestFree(x: Export, w: World, nodes: map<string, Node>, i: nat)
    requires i <= |x.order| && forall id <- x.order :: id in w.given
  {
    forall k :: i <= k < |x.order| ==> w.given[x.order[k]] !in nodes
  }

  /** The i-th node's name is neither an earlier nor a later node's. */
  lemma GivenApart(x: Export, w: World, names: Names, i: nat, start: map<string, Node>)
    requires ValidExport(x) && FreshNames(x, w, start) && i < |x.order| && NamesUpTo(x, w, names, i)
    ensures forall other :: other in names ==> names[other] != w.given[x.order[i]]
    ensures forall k :: i < k < |x.order| ==> w.given[x.order[k]] != w.given[x.order[i]]
  {
    var id := x.order[i];
    forall k | i < k < |x.order| ensures w.given[x.order[k]] != w.given[id] {
      assert x.order[k] in x.order && x.order[k] != id;
    }
    forall other | other in names ensures names[other] != w.given[id] {
      assert other in x.order[..i] && other in x.order && other != id;
    }
  }

  lemma NamesStep(x: Export, w: World, names: Names, i: nat)
    requires ValidExport(x) && i < |x.order| && NamesUpTo(x, w, names, i) && x.order[i] in w.given
    requires x.nodes[x.order[i]].flow in x.flows
    ensures NamesUpTo(x, w, names[x.order[i] := w.given[x.order[i]]], i + 1)
  {
    assert x.order[..i + 1] == x.order[..i] + [x.order[i]];
  }

  lemma NodesStep(x: Export, w: World, h: map<string, Node>, names: Names, id: string, bare: Node)
    requires BareUpTo(x, w, h, names) && id in w.given && id in x.nodes && x.nodes[id].flow in w.flows
    requires bare == Stripped(x.nodes[id], w.flows[x.nodes[id].flow])
    requires forall other :: other in names ==> names[other] != w.given[id]
    ensures BareUpTo(x, w, h[w.given[id] := bare], names[id := w.given[id]])
  {
  }

  lemma BareStep(x: Export, w: World, h: map<string, Node>, names: Names, i: nat, start: map<string, Node>)
    requires ValidExport(x) && FreshNames(x, w, start) && i < |x.order|
    requires NamesUpTo(x, w, names, i) && BareUpTo(x, w, h, names) && RestFree(x, w, h, i)
    requires x.nodes[x.order[i]].flow in x.flows
    ensures var id := x.order[i]; var n := x.nodes[id];
      var g := h[w.given[id] := Stripped(n, w.flows[n.flow])];
      && NamesUpTo(x, w, names[id := w.given[id]], i + 1)
      && BareUpTo(x, w, g, names[id := w.given[id]]) && RestFree(x, w, g, i + 1)
  {
    GivenApart(x, w, names, i, start);
    NamesStep(x, w, names, i);
    var id := x.order[i];
    NodesStep(x, w, h, names, id, Stripped(x.nodes[id], w.flows[x.nodes[id].flow]));
  }

  lemma SkipStep(x: Export, w: World, h: map<string, Node>, names: Names, i: nat)
    requires ValidExport(x) && (forall id <- x.order :: id in w.given) && i < |x.order|
    requires NamesUpTo(x, w, names, i) && RestFree(x, w, h, i)
    requires x.nodes[x.order[i]].flow !in x.flows
    ensures NamesUpTo(x, w, names, i + 1) && RestFree(x, w, h, i + 1)
  {
    assert x.order[..i + 1] == x.order[..i] + [x.order[i]];
  }

  /** The first n nodes are in flows that the export lists. */
  predicate AllListed(x: Export, n: nat)
    requires ValidExport(x) && n <= |x.order|
  {
    forall k :: 0 <= k < n ==> x.order[k] in x.nodes && x.nodes[x.order[k]].flow in x.flows
  }

  lemma ListedStep(x: Export, i: nat)
    requires ValidExport(x) && i < |x.order|
    ensures AllListed(x, i + 1) <==> AllListed(x, i) && x.nodes[x.order[i]].flow in x.flows
  {
  }

  /** What phase 1 has done when it comes to the i-th node. */
  ghost predicate CreatedUpTo(x: Export, w: World, nodes: map<string, Node>, names: Names, i: nat)
    requires i <= |x.order| && forall id <- x.order :: id in w.given
  {
    NamesUpTo(x, w, names, i) && BareUpTo(x, w, nodes, names) && RestFree(x, w, nodes, i)
  }

  /** Phase 1 for one node of a listed flow. */
  method CreateOne(c: Cluster, x: Export, w: World, names: Names, i: nat, ghost start: History)
    returns (more: Names)
    requires c.Valid() && ValidExport(x) && i < |x.order| && x.nodes[x.order[i]].flow in x.flows
    requires FreshNames(x, w, Now(start)) && Safe(start, c.history, AssignedNames(x, w))
    requires CreatedUpTo(x, w, c.nodes, names, i)
    modifies c
    ensures c.Valid() && Safe(start, c.history, AssignedNames(x, w))
    ensures CreatedUpTo(x, w, c.nodes, more, i + 1)
  {
    var id := x.order[i];
    var name, bare := w.given[id], Stripped(x.nodes[id], w.flows[x.nodes[id].flow]);
    ghost var h := c.history;
    BareStep(x, w, c.nodes, names, i, Now(start));
    StrippedIsRooted(x.nodes[id], w.flows[x.nodes[id].flow], c.nodes.Keys + {name});
    c.Put(name, bare);
    SafeStep(start, h, c.history, AssignedNames(x, w), name, bare);
    more := names[id := name];
  }

  /** The body of phase 1's loop. */
  method CreateNext(c: Cluster, x: Export, w: World, names: Names, errors: seq<string>, i: nat, ghost start: History)
    returns (more: Names, found: seq<string>, ok: bool)
    requires c.Valid() && ValidExport(x) && i < |x.order|
    requires FreshNames(x, w, Now(start)) && Safe(start, c.history, AssignedNames(x, w))
    requires CreatedUpTo(x, w, c.nodes, names, i) && (errors == [] <==> AllListed(x, i))
    modifies c
    ensures c.Valid() && Safe(start, c.history, AssignedNames(x, w)) && BareUpTo(x, w, c.nodes, more)
    ensures ok ==> CreatedUpTo(x, w, c.nodes, more, i + 1) && (found == [] <==> AllListed(x, i + 1))
  {
    var id := x.order[i];
    more, found, ok := names, errors, true;
    ListedStep(x, i);
    if x.nodes[id].flow !in x.flows {
      SkipStep(x, w, c.nodes, names, i);
      found := errors + [id];
    } else if id in w.createFails {
      ok := false;
    } else {
      more := CreateOne(c, x, w, names, i, start);
    }
  }

  /** Phase 1. A node of an unlisted flow is an error and is left out; a refused create ends the install. */
  method CreateNodes(c: Cluster, x: Export, w: World) returns (names: Names, errors: seq<string>, ok: bool)
    requires c.Valid() && ValidExport(x) && FreshNames(x, w, c.nodes)
    modifies c
    ensures c.Valid() && Safe(old(c.history), c.history, AssignedNames(x, w))
    ensures BareUpTo(x, w, c.nodes, names)
    ensures ok ==> NamesUpTo(x, w, names, |x.order|)
    ensures ok ==> (errors == [] <==> AllListed(x, |x.order|))
  {
    names, errors, ok := map[], [], true;
    ghost var start := c.history;
    var i := 0;
    while i < |x.order| && ok
      invariant 0 <= i <= |x.order|
      invariant c.Valid() && Safe(start, c.history, AssignedNames(x, w)) && BareUpTo(x, w, c.nodes, names)
      invariant ok ==> CreatedUpTo(x, w, c.nodes, names, i) && (errors == [] <==> AllListed(x, i))
    {
      names, errors, ok := CreateNext(c, x, w, names, errors, i, start);
      i := i + 1;
    }
  }

  // ----- phase 2 -----

  /** What the first attempts that end in conflict, a store or a refusal come to. */
  function Settles(u: Updates, n: nat): bool
    requires n <= ATTEMPTS
    decreases ATTEMPTS - n
  {
    if n == ATTEMPTS then false
    else match u(n) case Stored => true case Conflict(_) => Settles(u, n + 1) case Refused => false
  }

  /** An update goes through exactly when one of the first five attempts is stored, after conflicts alone. */
  lemma SettlesIff(u: Updates)
    ensures Settles(u, 0) <==> exists i :: 0 <= i < 5 && u(i) == Stored && forall j :: 0 <= j < i ==> u(j).Conflict?
  {
    if u(0).Conflict? && u(1).Conflict? && u(2).Conflict? && u(3).Conflict? && u(4).Conflict? {
      assert Settles(u, 5) == false;
    }
    assert Settles(u, 0) == (u(0) == Stored || (u(0).Conflict? && Settles(u, 1)));
    assert Settles(u, 1) == (u(1) == Stored || (u(1).Conflict? && Settles(u, 2)));
    assert Settles(u, 2) == (u(2) == Stored || (u(2).Conflict? && Settles(u, 3)));
    assert Settles(u, 3) == (u(3) == Stored || (u(3).Conflict? && Settles(u, 4)));
    assert Settles(u, 4) == (u(4) == Stored || (u(4).Conflict? && Settles(u, 5)));
  }

  /** The node differs from `n` at most in its status. */
  predicate SameBut(a: Node, n: Node) { a.(status := "") == n.(status := "") }

  lemma SameButRooted(a: Node, n: Node, present: set<string>)
    requires SameBut(a, n) && Rooted(n, present)
    ensures Rooted(a, present)
  {
    assert a.edges == n.(status := "").edges && a.configs == n.(status := "").configs;
  }

  /** The retry loop around one node: conflicts only cost attempts. */
  method WireNode(c: Cluster, n: Node, name: string, flow: string, names: Names, u: Updates,
                  ghost start: History, ghost created: set<string>) returns (ok: bool)
    requires c.Valid() && Safe(start, c.history, created) && name in created && name in c.nodes
    requires forall live: Node :: Rooted(Wired(live, n, name, flow, names), c.nodes.Keys)
    modifies c
    ensures c.Valid() && Safe(start, c.history, created) && c.nodes.Keys == old(c.nodes).Keys
    ensures forall m :: m in c.nodes && m != name ==> c.nodes[m] == old(c.nodes)[m]
    ensures ok == Settles(u, 0)
    ensures SameBut(c.nodes[name], if ok then Wired(old(c.nodes)[name], n, name, flow, names) else old(c.nodes)[name])
  {
    ghost var before := c.nodes;
    var attempt := 0;
    while attempt < ATTEMPTS
      invariant 0 <= attempt <= ATTEMPTS && Settles(u, attempt) == Settles(u, 0)
      invariant c.Valid() && Safe(start, c.history, created) && c.nodes.Keys == before.Keys
      invariant forall m :: m in c.nodes && m != name ==> c.nodes[m] == before[m]
      invariant SameBut(c.nodes[name], before[name])
    {
      ghost var h := c.history;
      var live := c.nodes[name];
      var wired := Wired(live, n, name, flow, names);
      c.UpdateNode(name, wired, u(attempt));
      UpdateIsSafe(start, h, c.history, created, name, wired, u(attempt));
      match u(attempt) {
        case Stored => return true;
        case Conflict(_) =>
        case Refused => return false;
      }
      attempt := attempt + 1;
    }
    ok := false;
  }

  lemma UpdateIsSafe(start: History, h: History, g: History, created: set<string>, name: string, wired: Node, u: Update)
    requires Safe(start, h, created) && name in created && name in Now(h) && Rooted(wired, Now(h).Keys)
    requires g == h + [match u
                       case Stored => Now(h)[name := wired]
                       case Conflict(status) => Now(h)[name := Now(h)[name].(status := status)]
                       case Refused => Now(h)]
    ensures Safe(start, g, created)
  {
    assert Now(h).Keys + {name} == Now(h).Keys;
    match u
    case Stored => SafeStep(start, h, g, created, name, wired);
    case Conflict(status) =>
      SameButRooted(Now(h)[name].(status := status), Now(h)[name], Now(h).Keys);
      SafeStep(start, h, g, created, name, Now(h)[name].(status := status));
    case Refused =>
      assert Now(h)[name := Now(h)[name]] == Now(h);
      SafeStep(start, h, g, created, name, Now(h)[name]);
  }

  /** The first i nodes are wired, the others still bare. */
  ghost predicate WiredUpTo(x: Export, w: World, nodes: map<string, Node>, names: Names, i: nat)
    requires i <= |x.order|
  {
    && (forall k :: 0 <= k < i && x.order[k] in names ==> CopyInPlace(x, w, nodes, names, x.order[k]))
    && (forall k :: i <= k < |x.order| && x.order[k] in names ==> BareInPlace(x, w, nodes, names, x.order[k]))
  }

  ghost predicate CopyInPlace(x: Export, w: World, nodes: map<string, Node>, names: Names, id: string) {
    && id in names && id in x.nodes && x.nodes[id].flow in w.flows && names[id] in nodes
    && IsCopy(nodes[names[id]], x.nodes[id], names[id], w.flows[x.nodes[id].flow], names)
  }

  /** ... part by part: every config with its data, every edge with its id. */
  ghost predicate CopiedInPlace(x: Export, w: World, nodes: map<string, Node>, names: Names, id: string) {
    && id in names && id in x.nodes && x.nodes[id].flow in w.flows && names[id] in nodes
    && NodeCopied(nodes[names[id]], x.nodes[id], names[id], w.flows[x.nodes[id].flow], names)
  }

  lemma CopyInPlaceIsCopied(x: Export, w: World, nodes: map<string, Node>, names: Names, id: string)
    requires CopyInPlace(x, w, nodes, names, id)
    ensures CopiedInPlace(x, w, nodes, names, id)
  {
    CopyIsCopied(nodes[names[id]], x.nodes[id], names[id], w.flows[x.nodes[id].flow], names);
  }

  ghost predicate BareInPlace(x: Export, w: World, nodes: map<string, Node>, names: Names, id: string) {
    && id in names && id in x.nodes && x.nodes[id].flow in w.flows && names[id] in nodes
    && SameBut(nodes[names[id]], Stripped(x.nodes[id], w.flows[x.nodes[id].flow]))
  }

  /** Every copied node may be wired at any time: all the names it refers to exist. */
  lemma MayWire(x: Export, w: World, nodes: map<string, Node>, names: Names, id: string)
    requires ValidExport(x) && Closed(x) && NamesUpTo(x, w, names, |x.order|)
    requires BareNamesIn(nodes, names) && id in names
    ensures forall live: Node, flow ::
      Rooted(Wired(live, x.nodes[id], names[id], flow, names), nodes.Keys)
  {
    assert x.order[..|x.order|] == x.order;
    assert CopiedSet(x) == names.Keys;
    forall live: Node, flow ensures Rooted(Wired(live, x.nodes[id], names[id], flow, names), nodes.Keys) {
      MorePresent(x.nodes[id], CopiedSet(x), names.Keys + nodes.Keys);
      forall v | v in names.Values ensures v in nodes.Keys {
        var k :| k in names && names[k] == v;
      }
      WiredIsRootedIff(live, x.nodes[id], names[id], flow, names, nodes.Keys);
    }
  }

  predicate BareNamesIn(nodes: map<string, Node>, names: Names) { forall id :: id in names ==> names[id] in nodes }

  /** A wired node that differs at most in its status is the copy. */
  lemma WiredIsCopy(a: Node, bare: Node, n: Node, name: string, flow: string, names: Names)
    requires SameBut(bare, Stripped(n, flow)) && SameBut(a, Wired(bare, n, name, flow, names))
    ensures IsCopy(a, n, name, flow, names)
  {
    assert a.(status := "").edges == a.edges && a.(status := "").configs == a.configs;
  }

  /** A node without edges and configs needs no wiring. */
  lemma NothingToWire(a: Node, n: Node, name: string, flow: string, names: Names)
    requires SameBut(a, Stripped(n, flow)) && n.edges == [] && n.configs == []
    ensures IsCopy(a, n, name, flow, names)
  {
    assert a.(status := "").edges == a.edges && a.(status := "").configs == a.configs;
  }

  /** The i-th node became its copy, and no other node changed. */
  lemma WireStep(
      x: Export, w: World, before: map<string, Node>, after: map<string, Node>, names: Names, i: nat)
    requires ValidExport(x) && i < |x.order| && WiredUpTo(x, w, before, names, i)
    requires Injective(names) && x.order[i] in names && CopyInPlace(x, w, after, names, x.order[i])
    requires after.Keys == before.Keys && forall m :: m in after && m != names[x.order[i]] ==> after[m] == before[m]
    ensures WiredUpTo(x, w, after, names, i + 1)
  {
    forall k | 0 <= k < |x.order| && k != i && x.order[k] in names ensures names[x.order[k]] != names[x.order[i]] {
    }
    forall k | 0 <= k < i && x.order[k] in names ensures CopyInPlace(x, w, after, names, x.order[k]) {
      assert CopyInPlace(x, w, before, names, x.order[k]);
    }
    forall k | i < k < |x.order| && x.order[k] in names ensures BareInPlace(x, w, after, names, x.order[k]) {
      assert BareInPlace(x, w, before, names, x.order[k]);
    }
  }

  lemma WireSkip(x: Export, w: World, nodes: map<string, Node>, names: Names, i: nat)
    requires i < |x.order| && WiredUpTo(x, w, nodes, names, i) && x.order[i] !in names
    ensures WiredUpTo(x, w, nodes, names, i + 1)
  {
    forall k | 0 <= k < i + 1 && x.order[k] in names ensures CopyInPlace(x, w, nodes, names, x.order[k]) {
      assert k < i;
    }
  }

  /** Phase 2 for one created node: nothing to do, or the retry loop. */
  method WireOne(c: Cluster, x: Export, w: World, names: Names, id: string,
                 ghost start: History, ghost created: set<string>) returns (ok: bool)
    requires c.Valid() && Safe(start, c.history, created)
    requires BareInPlace(x, w, c.nodes, names, id) && names[id] in created && id in w.updates
    requires forall live: Node, flow :: Rooted(Wired(live, x.nodes[id], names[id], flow, names), c.nodes.Keys)
    modifies c
    ensures c.Valid() && Safe(start, c.history, created) && c.nodes.Keys == old(c.nodes).Keys
    ensures forall m :: m in c.nodes && m != names[id] ==> c.nodes[m] == old(c.nodes)[m]
    ensures ok ==> CopyInPlace(x, w, c.nodes, names, id)
  {
    var n, flow := x.nodes[id], w.flows[x.nodes[id].flow];
    ghost var before := c.nodes[names[id]];
    if n.edges == [] && n.configs == [] {
      NothingToWire(before, n, names[id], flow, names);
      return true;
    }
    ok := WireNode(c, n, names[id], flow, names, w.updates[id], start, created);
    if ok {
      WiredIsCopy(c.nodes[names[id]], before, n, names[id], flow, names);
    }
  }

  /** Phase 2: wires every created node that has something to wire; the first failure ends the install. */
  method WireNodes(c: Cluster, x: Export, w: World, names: Names, ghost start: History, ghost created: set<string>)
    returns (ok: bool)
    requires c.Valid() && Safe(start, c.history, created)
    requires ValidExport(x) && Closed(x) && NamesUpTo(x, w, names, |x.order|) && Injective(names)
    requires forall id :: id in names ==> names[id] in created && names[id] in c.nodes && id in w.updates
    requires WiredUpTo(x, w, c.nodes, names, 0)
    modifies c
    ensures c.Valid() && Safe(start, c.history, created)
    ensures ok ==> WiredUpTo(x, w, c.nodes, names, |x.order|)
  {
    var i := 0;
    while i < |x.order|
      invariant 0 <= i <= |x.order| && c.Valid() && Safe(start, c.history, created)
      invariant BareNamesIn(c.nodes, names) && WiredUpTo(x, w, c.nodes, names, i)
    {
      var id := x.order[i];
      if id in names {
        ghost var before := c.nodes;
        MayWire(x, w, c.nodes, names, id);
        ok := WireOne(c, x, w, names, id, start, created);
        if !ok {
          return;
        }
        WireStep(x, w, before, c.nodes, names, i);
      } else {
        WireSkip(x, w, c.nodes, names, i);
      }
      i := i + 1;
    }
    ok := true;
  }

  lemma AllCopied(x: Export, w: World, nodes: map<string, Node>, names: Names)
    requires ValidExport(x) && AllListed(x, |x.order|) && NamesUpTo(x, w, names, |x.order|)
    requires WiredUpTo(x, w, nodes, names, |x.order|)
    ensures names.Keys == (set id | id in x.order)
    ensures forall id <- x.order :: CopyInPlace(x, w, nodes, names, id)
  {
    assert x.order[..|x.order|] == x.order;
    forall id | id in x.order ensures id in names && CopyInPlace(x, w, nodes, names, id) {
      var k :| 0 <= k < |x.order| && x.order[k] == id;
    }
  }

  /**
   * The install. Whatever the cluster answers, no state it goes through has a created node that
   * refers to an absent name, and nothing that was there changes. When it succeeds, every exported
   * node has a copy with the same edges and configs under the renaming, however many conflicts
   * there were on the way.
   */
  method Clone(c: Cluster, x: Export, w: World) returns (success: bool, names: Names)
    requires c.Valid() && ValidExport(x) && FreshNames(x, w, c.nodes) && Closed(x)
    modifies c
    ensures c.Valid() && Safe(old(c.history), c.history, AssignedNames(x, w))
    ensures success ==> Injective(names) && names.Keys == (set id | id in x.order)
    ensures success ==> forall id <- x.order :: CopyInPlace(x, w, c.nodes, names, id)
    ensures success ==> forall id <- x.order :: CopiedInPlace(x, w, c.nodes, names, id)
  {
    ghost var start, created := c.history, AssignedNames(x, w);
    ghost var before := c.nodes;
    var errors, ok;
    names, errors, ok := CreateNodes(c, x, w);
    if !ok {
      return false, names;
    }
    AllNamed(x, w, before, names);
    ok := WireNodes(c, x, w, names, start, created);
    success := ok && errors == [];
    if success {
      AllCopied(x, w, c.nodes, names);
      forall id | id in x.order ensures CopiedInPlace(x, w, c.nodes, names, id) {
        CopyInPlaceIsCopied(x, w, c.nodes, names, id);
      }
    }
  }

  lemma AllNamed(x: Export, w: World, before: map<string, Node>, names: Names)
    requires ValidExport(x) && FreshNames(x, w, before) && NamesUpTo(x, w, names, |x.order|)
    ensures Injective(names)
    ensures forall id :: id in names ==> id in x.order && names[id] in AssignedNames(x, w) && id in w.updates
    ensures forall id :: id in x.order && x.nodes[id].flow in x.flows ==> id in names
  {
    assert x.order[..|x.order|] == x.order;
  }

  /**
   * In the finished copy, the copy of an edge from `a` into port `q` of `b` finds the copy of the
   * config that the edge itself finds in `b`, and none when the edge finds none.
   */
  lemma CopiedEdgeFindsItsConfig(
      x: Export, w: World, nodes: map<string, Node>, names: Names, a: string, b: string, port: string, q: string)
    requires ValidExport(x) && Closed(x) && Injective(names) && a in names && b in names
    requires NamesUpTo(x, w, names, |x.order|) && CopyInPlace(x, w, nodes, names, b)
    ensures FindConfig(nodes[names[b]].configs, PortOf(names[a], port), q)
         == match FindConfig(x.nodes[b].configs, PortOf(a, port), q)
            case None => None
            case Some(c) => Some(NewConfig(c, w.flows[x.nodes[b].flow], names))
    ensures match FindConfig(x.nodes[b].configs, PortOf(a, port), q)
      case None => true
      case Some(c) =>
        var found := FindConfig(nodes[names[b]].configs, PortOf(names[a], port), q);
        found.Some? && ConfigCopied(found.value, c, w.flows[x.nodes[b].flow], names)
  {
    assert x.order[..|x.order|] == x.order;
    assert CopiedSet(x) == names.Keys;
    assert Rooted(x.nodes[b], names.Keys);
    EdgesFindTheirConfigs(x.nodes[b].configs, PortOf(a, port), q, w.flows[x.nodes[b].flow], names);
  }
}
