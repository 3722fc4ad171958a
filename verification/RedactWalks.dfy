/**
 * The redaction walks as they run over values in memory: the copying one (pkg/redact/redact.go),
 * the copy-on-write one (pkg/redact/authored.go), the one that writes in place
 * (pkg/redact/shape.go), and their composition (pkg/tools/scenario_capture.go).
 */
module RedactWalks {
  import opened JsonTree
  import opened JsonHeap
  import opened JsonStore
  import opened Redaction

  // ----- children of a container that is not in memory yet -----

  /** The cells of the original that its slot `t` leads to. */
  ghost function Shares(h: Cells, r: Ref, j: Json, t: Slot): iset<nat> {
    if IsContainer(j) && Fits(h, r, j) && Has(j, t)
    then iset b: nat | Owns(h, Kid(h[r.addr], t), Part(j, t), b)
    else iset{}
  }

  /**
   * `c` holds the children of `q`: separate trees, each made of new cells and of cells that the
   * same slot of the original leads to.
   */
  ghost predicate Forest(low: nat, h: Cells, r: Ref, j: Json, s: Store, c: Cell, q: Json) {
    && IsContainer(q) && (c.Slice? <==> q.Arr?)
    && (forall t :: Has(q, t) <==> CellHas(c, t))
    && (forall t :: Has(q, t) ==> Tree(s.cells, Kid(c, t), Part(q, t)))
    && (forall t, b: nat :: Has(q, t) && Owns(s.cells, Kid(c, t), Part(q, t), b) ==>
          b >= low || b in Shares(h, r, j, t))
    && (forall t, u, b: nat ::
          (Has(q, t) && Has(q, u) && Owns(s.cells, Kid(c, t), Part(q, t), b)
           && Owns(s.cells, Kid(c, u), Part(q, u), b)) ==> t == u)
  }

  /** The original was in memory before any new cell, and is a tree. */
  ghost predicate Origin(low: nat, h: Cells, r: Ref, j: Json) {
    (forall b: nat :: b in h ==> b < low) && (IsContainer(j) ==> Tree(h, r, j))
  }

  lemma SharesAreOld(low: nat, h: Cells, r: Ref, j: Json, t: Slot, u: Slot, b: nat)
    requires Origin(low, h, r, j) && b in Shares(h, r, j, t)
    ensures b < low && (b in Shares(h, r, j, u) ==> t == u) && Owns(h, r, j, b)
  {
    OwnedIsAllocated(h, Kid(h[r.addr], t), Part(j, t), b);
  }

  lemma ForestGrows(low: nat, h: Cells, r: Ref, j: Json, s: Store, g: Store, c: Cell, q: Json)
    requires Forest(low, h, r, j, s, c, q) && Grown(s, g)
    ensures Forest(low, h, r, j, g, c, q)
    ensures forall t, b: nat :: Has(q, t) ==>
      (Owns(g.cells, Kid(c, t), Part(q, t), b) <==> Owns(s.cells, Kid(c, t), Part(q, t), b))
  {
    forall t | Has(q, t)
      ensures Tree(g.cells, Kid(c, t), Part(q, t))
      ensures forall b: nat :: Owns(g.cells, Kid(c, t), Part(q, t), b) <==> Owns(s.cells, Kid(c, t), Part(q, t), b)
    {
      Grow(s.cells, g.cells, Kid(c, t), Part(q, t));
    }
  }

  /** A new child of new and own cells is separate from all the others. */
  lemma NewChildApart(
      low: nat, h: Cells, r: Ref, j: Json, s: Store, c: Cell, q: Json, slot: Slot, t: Slot, b: nat)
    requires Origin(low, h, r, j) && Sound(s) && low <= s.next && Forest(low, h, r, j, s, c, q)
    requires Has(q, t) && t != slot && Owns(s.cells, Kid(c, t), Part(q, t), b)
    ensures b < s.next && b !in Shares(h, r, j, slot)
  {
    OwnedIsAllocated(s.cells, Kid(c, t), Part(q, t), b);
    if b in Shares(h, r, j, slot) {
      SharesAreOld(low, h, r, j, slot, t, b);
    }
  }

  lemma ForestPut(
      low: nat, h: Cells, r: Ref, j: Json, s: Store, g: Store, c: Cell, q: Json,
      slot: Slot, kid: Ref, p: Json, d: Cell, k: Json)
    requires Origin(low, h, r, j) && Sound(s) && low <= s.next && Forest(low, h, r, j, s, c, q) && Grown(s, g)
    requires Tree(g.cells, kid, p)
    requires forall b: nat :: Owns(g.cells, kid, p, b) ==> b >= s.next || b in Shares(h, r, j, slot)
    requires CellReplaced(c, slot, kid, d) && Replaced(q, slot, p, k)
    ensures Forest(low, h, r, j, g, d, k)
  {
    ForestGrows(low, h, r, j, s, g, c, q);
    forall t, b: nat | Has(q, t) && t != slot && Owns(g.cells, Kid(c, t), Part(q, t), b)
      ensures !Owns(g.cells, kid, p, b)
    {
      NewChildApart(low, h, r, j, s, c, q, slot, t, b);
    }
  }

  /** Allocating the container makes it a tree. */
  lemma ForestRoot(low: nat, h: Cells, r: Ref, j: Json, s: Store, c: Cell, q: Json)
    requires Origin(low, h, r, j) && Sound(s) && low <= s.next && Forest(low, h, r, j, s, c, q)
    ensures var g := New(s, c);
      && Grown(s, g) && Tree(g.cells, Ptr(s.next), q)
      && forall b: nat :: Owns(g.cells, Ptr(s.next), q, b) ==> b >= low || Owns(h, r, j, b)
  {
    var g := New(s, c);
    ForestGrows(low, h, r, j, s, g, c, q);
    assert Fits(g.cells, Ptr(s.next), q);
    forall t | Has(q, t) ensures !Owns(g.cells, Kid(c, t), Part(q, t), s.next) {
      if Owns(s.cells, Kid(c, t), Part(q, t), s.next) {
        OwnedIsAllocated(s.cells, Kid(c, t), Part(q, t), s.next);
      }
    }
    forall b: nat | Owns(g.cells, Ptr(s.next), q, b) ensures b >= low || Owns(h, r, j, b) {
      if b != s.next {
        var t :| Has(q, t) && Owns(g.cells, Kid(c, t), Part(q, t), b);
        if b < low { SharesAreOld(low, h, r, j, t, t, b); }
      }
    }
  }

  lemma AppendReplaces(outs: seq<Ref>, items: seq<Json>, out: Ref, p: Json)
    requires |outs| == |items|
    ensures CellReplaced(Slice(outs), Index(|outs|), out, Slice(outs + [out]))
    ensures Replaced(Arr(items), Index(|items|), p, Arr(items + [p]))
  {
  }

  lemma FieldReplaces(outs: map<string, Ref>, fields: map<string, Json>, k: string, out: Ref, p: Json)
    ensures CellReplaced(Map(outs), Name(k), out, Map(outs[k := out]))
    ensures Replaced(Obj(fields), Name(k), p, Obj(fields[k := p]))
  {
  }

  lemma EmptyForest(s: Store, c: Cell, q: Json)
    requires (c == Slice([]) && q == Arr([])) || (c == Map(map[]) && q == Obj(map[]))
    ensures Forest(s.next, map[], Scalar(Null), Null, s, c, q)
  {
  }

  // ----- the copying walk -----

  /** value: a copy in which every text under a secret key is masked; the copy shares no cell with anything. */
  method Value(m: Memory, key: string, r: Ref, secret: Secrets, ghost j: Json) returns (out: Ref)
    requires Sound(m.store) && Tree(m.store.cells, r, j)
    modifies m
    ensures Grown(old(m.store), m.store)
    ensures var k := Masked(key, j, secret);
      Tree(m.store.cells, out, k) && forall b: nat :: Owns(m.store.cells, out, k, b) ==> b >= old(m.store).next
    decreases j, 1
  {
    match r
    case Scalar(v) =>
      out := if v.Text? && MaskableText(key, v.text, secret) then Scalar(Text(VALUE)) else r;
    case Ptr(a) =>
      match m.store.cells[a]
      case Slice(_) => out := CopySlice(m, key, a, secret, j);
      case Map(_) => out := CopyMap(m, a, secret, j);
  }

  method CopySlice(m: Memory, key: string, a: nat, secret: Secrets, ghost j: Json) returns (out: Ref)
    requires Sound(m.store) && j.Arr? && Tree(m.store.cells, Ptr(a), j)
    modifies m
    ensures Grown(old(m.store), m.store)
    ensures var k := Masked(key, j, secret);
      Tree(m.store.cells, out, k) && forall b: nat :: Owns(m.store.cells, out, k, b) ==> b >= old(m.store).next
    decreases j, 0
  {
    ghost var s := m.store;
    var items := m.store.cells[a].items;
    SliceLength(s, a, j);
    var outs: seq<Ref> := [];
    ghost var done: seq<Json> := [];
    EmptyForest(s, Slice(outs), Arr(done));
    var i := 0;
    while i < |items|
      invariant 0 <= i <= |items| && |outs| == |done| == i
      invariant Grown(s, m.store) && Forest(s.next, map[], Scalar(Null), Null, m.store, Slice(outs), Arr(done))
      invariant forall t :: 0 <= t < i ==> done[t] == Masked(key, j.items[t], secret)
    {
      ghost var mid, p := m.store, Masked(key, j.items[i], secret);
      assert Has(j, Index(i)) && Kid(s.cells[a], Index(i)) == items[i];
      Grow(s.cells, m.store.cells, items[i], j.items[i]);
      var next := Value(m, key, items[i], secret, j.items[i]);
      AppendReplaces(outs, done, next, p);
      ForestPut(s.next, map[], Scalar(Null), Null, mid, m.store, Slice(outs), Arr(done), Index(i), next, p,
                Slice(outs + [next]), Arr(done + [p]));
      outs, done := outs + [next], done + [p];
      i := i + 1;
    }
    assert Arr(done) == Masked(key, j, secret);
    ForestRoot(s.next, map[], Scalar(Null), Null, m.store, Slice(outs), Arr(done));
    var n := m.Alloc(Slice(outs));
    out := Ptr(n);
  }

  lemma SliceLength(s: Store, a: nat, j: Json)
    requires j.Arr? && Tree(s.cells, Ptr(a), j)
    ensures |s.cells[a].items| == |j.items|
  {
    assert Has(j, Index(|s.cells[a].items|)) <==> CellHas(s.cells[a], Index(|s.cells[a].items|));
    assert Has(j, Index(|j.items|)) <==> CellHas(s.cells[a], Index(|j.items|));
  }

  lemma MapKeys(s: Store, a: nat, j: Json)
    requires j.Obj? && Tree(s.cells, Ptr(a), j)
    ensures s.cells[a].fields.Keys == j.fields.Keys
  {
    forall k: string ensures k in s.cells[a].fields <==> k in j.fields {
      assert Has(j, Name(k)) <==> CellHas(s.cells[a], Name(k));
    }
  }

  predicate FieldsMasked(done: map<string, Json>, j: Json, secret: Secrets)
    requires j.Obj?
  {
    forall k :: k in done ==> k in j.fields && done[k] == Masked(k, j.fields[k], secret)
  }

  lemma AllFieldsMasked(done: map<string, Json>, j: Json, secret: Secrets)
    requires j.Obj? && FieldsMasked(done, j, secret) && done.Keys == j.fields.Keys
    ensures Obj(done) == Masked("", j, secret)
  {
    var k := Masked("", j, secret);
    assert k.fields.Keys == j.fields.Keys;
    SameObject(Obj(done), k);
  }

  lemma FieldCopied(
      low: nat, s: Store, g: Store, outs: map<string, Ref>, done: map<string, Json>, k: string, next: Ref, p: Json)
    requires Sound(s) && low <= s.next && Grown(s, g)
    requires Forest(low, map[], Scalar(Null), Null, s, Map(outs), Obj(done))
    requires Tree(g.cells, next, p) && forall b: nat :: Owns(g.cells, next, p, b) ==> b >= s.next
    ensures Forest(low, map[], Scalar(Null), Null, g, Map(outs[k := next]), Obj(done[k := p]))
  {
    FieldReplaces(outs, done, k, next, p);
    ForestPut(low, map[], Scalar(Null), Null, s, g, Map(outs), Obj(done), Name(k), next, p,
              Map(outs[k := next]), Obj(done[k := p]));
  }

  /** One field of the map: the copies so far with one more. */
  method CopyField(
      m: Memory, k: string, kid: Ref, secret: Secrets, outs: map<string, Ref>,
      ghost s: Store, ghost x: Json, ghost done: map<string, Json>)
    returns (next: Ref)
    requires Grown(s, m.store) && Sound(s) && Tree(s.cells, kid, x)
    requires Forest(s.next, map[], Scalar(Null), Null, m.store, Map(outs), Obj(done))
    modifies m
    ensures Grown(s, m.store)
    ensures Forest(
      s.next, map[], Scalar(Null), Null, m.store, Map(outs[k := next]), Obj(done[k := Masked(k, x, secret)]))
    decreases x, 2
  {
    ghost var mid := m.store;
    Grow(s.cells, m.store.cells, kid, x);
    next := Value(m, k, kid, secret, x);
    FieldCopied(s.next, mid, m.store, outs, done, k, next, Masked(k, x, secret));
  }

  lemma MapCopied(
      s: Store, t: Store, j: Json, secret: Secrets, outs: map<string, Ref>, done: map<string, Json>)
    requires Sound(s) && Grown(s, t) && Forest(s.next, map[], Scalar(Null), Null, t, Map(outs), Obj(done))
    requires j.Obj? && FieldsMasked(done, j, secret) && done.Keys == j.fields.Keys
    ensures var g, k := New(t, Map(outs)), Masked("", j, secret);
      && Grown(s, g) && Tree(g.cells, Ptr(t.next), k)
      && forall b: nat :: Owns(g.cells, Ptr(t.next), k, b) ==> b >= s.next
  {
    AllFieldsMasked(done, j, secret);
    ForestRoot(s.next, map[], Scalar(Null), Null, t, Map(outs), Obj(done));
  }

  method CopyMap(m: Memory, a: nat, secret: Secrets, ghost j: Json) returns (out: Ref)
    requires Sound(m.store) && j.Obj? && Tree(m.store.cells, Ptr(a), j)
    modifies m
    ensures Grown(old(m.store), m.store)
    ensures var k := Masked("", j, secret);
      Tree(m.store.cells, out, k) && forall b: nat :: Owns(m.store.cells, out, k, b) ==> b >= old(m.store).next
    decreases j, 0
  {
    ghost var s := m.store;
    var fields := m.store.cells[a].fields;
    MapKeys(s, a, j);
    var outs: map<string, Ref> := map[];
    ghost var done: map<string, Json> := map[];
    EmptyForest(s, Map(outs), Obj(done));
    var rest := fields.Keys;
    while rest != {}
      invariant rest <= fields.Keys && done.Keys == fields.Keys - rest
      invariant Grown(s, m.store) && Forest(s.next, map[], Scalar(Null), Null, m.store, Map(outs), Obj(done))
      invariant FieldsMasked(done, j, secret)
      decreases |rest|
    {
      var k :| k in rest;
      assert Has(j, Name(k)) && Kid(s.cells[a], Name(k)) == fields[k];
      var next := CopyField(m, k, fields[k], secret, outs, s, j.fields[k], done);
      outs, done := outs[k := next], done[k := Masked(k, j.fields[k], secret)];
      rest := rest - {k};
    }
    MapCopied(s, m.store, j, secret, outs, done);
    var n := m.Alloc(Map(outs));
    out := Ptr(n);
  }

  // ----- the copy-on-write walk -----

  /** byName over the original at `r`: itself when nothing was maskable, else a copy that shares the rest. */
  ghost predicate MaskedShared(
      s: Store, t: Store, key: string, r: Ref, j: Json, secret: Secrets, out: Ref, changed: bool)
  {
    var k := Masked(key, j, secret);
    && Grown(s, t)
    && changed == Maskable(key, j, secret)
    && (!changed ==> t == s && out == r)
    && Tree(t.cells, out, k)
    && (forall b: nat :: Owns(t.cells, out, k, b) ==> b >= s.next || Owns(s.cells, r, j, b))
  }

  method ByNameBelow(m: Memory, key: string, r: Ref, secret: Secrets, ghost j: Json) returns (out: Ref, changed: bool)
    requires Sound(m.store) && Tree(m.store.cells, r, j)
    modifies m
    ensures MaskedShared(old(m.store), m.store, key, r, j, secret, out, changed)
    decreases j, 1
  {
    match r
    case Scalar(v) =>
      changed := v.Text? && MaskableText(key, v.text, secret);
      out := if changed then Scalar(Text(VALUE)) else r;
    case Ptr(a) =>
      match m.store.cells[a]
      case Slice(_) => out, changed := ByNameSlice(m, key, a, secret, j);
      case Map(_) => out, changed := ByNameMap(m, key, a, secret, j);
  }

  /**
   * How far the walk over the container at `a` has come: `c` is the container with its changed
   * children replaced, still outside memory, and `q` is what it stands for.
   */
  ghost predicate Halfway(s: Store, t: Store, a: nat, j: Json, changed: bool, c: Cell, q: Json) {
    && Grown(s, t) && a in s.cells
    && (!changed ==> t == s && c == s.cells[a] && q == j)
    && Forest(s.next, s.cells, Ptr(a), j, t, c, q)
  }

  lemma StartHalfway(s: Store, a: nat, j: Json)
    requires Sound(s) && IsContainer(j) && Tree(s.cells, Ptr(a), j)
    ensures Halfway(s, s, a, j, false, s.cells[a], j)
  {
  }

  lemma ChildHere(s: Store, t: Store, a: nat, j: Json, slot: Slot)
    requires Sound(s) && IsContainer(j) && Tree(s.cells, Ptr(a), j) && Has(j, slot) && Grown(s, t)
    ensures Tree(t.cells, Kid(s.cells[a], slot), Part(j, slot))
    ensures forall b: nat ::
      Owns(t.cells, Kid(s.cells[a], slot), Part(j, slot), b) <==> b in Shares(s.cells, Ptr(a), j, slot)
  {
    Grow(s.cells, t.cells, Kid(s.cells[a], slot), Part(j, slot));
  }

  /** One more slot whose child changed. */
  lemma SlotChanged(
      s: Store, t: Store, g: Store, a: nat, j: Json, changed: bool, c: Cell, q: Json, slot: Slot,
      key: string, secret: Secrets, kid: Ref, d: Cell, k: Json)
    requires Sound(s) && IsContainer(j) && Tree(s.cells, Ptr(a), j) && Has(j, slot)
    requires Halfway(s, t, a, j, changed, c, q)
    requires MaskedShared(t, g, key, Kid(s.cells[a], slot), Part(j, slot), secret, kid, true)
    requires CellReplaced(c, slot, kid, d) && Replaced(q, slot, Masked(key, Part(j, slot), secret), k)
    ensures Halfway(s, g, a, j, true, d, k)
  {
    ChildHere(s, t, a, j, slot);
    ForestPut(s.next, s.cells, Ptr(a), j, t, g, c, q, slot, kid, Masked(key, Part(j, slot), secret), d, k);
  }

  /** The walk over a whole container is done. */
  lemma HalfwayDone(s: Store, t: Store, a: nat, j: Json, c: Cell, q: Json)
    requires Sound(s) && IsContainer(j) && Tree(s.cells, Ptr(a), j) && Halfway(s, t, a, j, true, c, q)
    ensures var g := New(t, c);
      && Grown(s, g) && Tree(g.cells, Ptr(t.next), q)
      && forall b: nat :: Owns(g.cells, Ptr(t.next), q, b) ==> b >= s.next || Owns(s.cells, Ptr(a), j, b)
  {
    ForestRoot(s.next, s.cells, Ptr(a), j, t, c, q);
  }

  /** The first i elements of `q` are masked, the others are those of `items`. */
  predicate MaskedUpTo(q: seq<Json>, items: seq<Json>, key: string, secret: Secrets, i: nat) {
    && |q| == |items| && i <= |items|
    && (forall t :: 0 <= t < i ==> q[t] == Masked(key, items[t], secret))
    && (forall t :: i <= t < |q| ==> q[t] == items[t])
  }

  method ByNameSlice(m: Memory, key: string, a: nat, secret: Secrets, ghost j: Json) returns (out: Ref, changed: bool)
    requires Sound(m.store) && j.Arr? && Tree(m.store.cells, Ptr(a), j)
    modifies m
    ensures MaskedShared(old(m.store), m.store, key, Ptr(a), j, secret, out, changed)
    decreases j, 0
  {
    ghost var s := m.store;
    var items := m.store.cells[a].items;
    SliceLength(s, a, j);
    StartHalfway(s, a, j);
    var copied := items;
    ghost var q := j.items;
    changed := false;
    var i := 0;
    while i < |items|
      invariant 0 <= i <= |items| == |copied| == |j.items| && MaskedUpTo(q, j.items, key, secret, i)
      invariant Halfway(s, m.store, a, j, changed, Slice(copied), Arr(q))
      invariant changed == exists t :: 0 <= t < i && Maskable(key, j.items[t], secret)
    {
      ghost var mid, was, slot := m.store, changed, Index(i);
      assert Has(j, slot) && Kid(s.cells[a], slot) == items[i];
      ChildHere(s, mid, a, j, slot);
      var next, did := ByNameBelow(m, key, items[i], secret, j.items[i]);
      ghost var p := Masked(key, j.items[i], secret);
      if did {
        ElementReplaces(copied, q, i, next, p);
        SlotChanged(s, mid, m.store, a, j, was, Slice(copied), Arr(q), slot, key, secret, next,
                    Slice(copied[i := next]), Arr(q[i := p]));
        copied, changed := copied[i := next], true;
      } else {
        UnmaskableIsKept(key, j.items[i], secret);
        assert q[i := p] == q;
      }
      q := q[i := p];
      i := i + 1;
    }
    out := Ptr(a);
    assert Arr(q) == Masked(key, j, secret);
    if changed {
      HalfwayDone(s, m.store, a, j, Slice(copied), Arr(q));
      var n := m.Alloc(Slice(copied));
      out := Ptr(n);
    }
  }

  lemma ElementReplaces(outs: seq<Ref>, items: seq<Json>, i: nat, out: Ref, p: Json)
    requires i < |outs| == |items|
    ensures CellReplaced(Slice(outs), Index(i), out, Slice(outs[i := out]))
    ensures Replaced(Arr(items), Index(i), p, Arr(items[i := p]))
  {
  }

  /** The fields outside `rest` are masked, the others are those of `fields`. */
  predicate MaskedBut(q: map<string, Json>, fields: map<string, Json>, secret: Secrets, rest: set<string>) {
    && q.Keys == fields.Keys
    && (forall k :: k in q ==> q[k] == if k in rest then fields[k] else Masked(k, fields[k], secret))
  }

  /** One field of the map. */
  method ByNameField(
      m: Memory, k: string, kid: Ref, secret: Secrets, copied: map<string, Ref>, changed: bool,
      ghost s: Store, ghost a: nat, ghost j: Json, ghost q: map<string, Json>)
    returns (now: map<string, Ref>, did: bool)
    requires Sound(s) && j.Obj? && Tree(s.cells, Ptr(a), j) && k in j.fields && k in q && q[k] == j.fields[k]
    requires CellHas(s.cells[a], Name(k)) && Kid(s.cells[a], Name(k)) == kid
    requires Halfway(s, m.store, a, j, changed, Map(copied), Obj(q))
    modifies m
    ensures did == (changed || Maskable(k, j.fields[k], secret))
    ensures Halfway(s, m.store, a, j, did, Map(now), Obj(q[k := Masked(k, j.fields[k], secret)]))
    decreases j.fields[k], 2
  {
    ghost var mid, p := m.store, Masked(k, j.fields[k], secret);
    assert Has(j, Name(k));
    ChildHere(s, mid, a, j, Name(k));
    var next, masked := ByNameBelow(m, k, kid, secret, j.fields[k]);
    if masked {
      FieldReplaces(copied, q, k, next, p);
      SlotChanged(s, mid, m.store, a, j, changed, Map(copied), Obj(q), Name(k), k, secret, next,
                  Map(copied[k := next]), Obj(q[k := p]));
      return copied[k := next], true;
    }
    UnmaskableIsKept(k, j.fields[k], secret);
    assert q[k := p] == q;
    return copied, changed;
  }

  lemma MapMasked(
      s: Store, t: Store, key: string, a: nat, j: Json, secret: Secrets, changed: bool,
      copied: map<string, Ref>, q: map<string, Json>)
    requires Sound(s) && j.Obj? && Tree(s.cells, Ptr(a), j) && Halfway(s, t, a, j, changed, Map(copied), Obj(q))
    requires MaskedBut(q, j.fields, secret, {})
    requires changed == exists k :: k in j.fields && Maskable(k, j.fields[k], secret)
    ensures MaskedShared(s, if changed then New(t, Map(copied)) else t, key, Ptr(a), j, secret,
                         if changed then Ptr(t.next) else Ptr(a), changed)
  {
    AllFieldsMasked(q, j, secret);
    if changed { HalfwayDone(s, t, a, j, Map(copied), Obj(q)); }
  }

  method ByNameMap(m: Memory, key: string, a: nat, secret: Secrets, ghost j: Json) returns (out: Ref, changed: bool)
    requires Sound(m.store) && j.Obj? && Tree(m.store.cells, Ptr(a), j)
    modifies m
    ensures MaskedShared(old(m.store), m.store, key, Ptr(a), j, secret, out, changed)
    decreases j, 0
  {
    ghost var s := m.store;
    var fields := m.store.cells[a].fields;
    MapKeys(s, a, j);
    StartHalfway(s, a, j);
    var copied := fields;
    ghost var q := j.fields;
    changed := false;
    var rest := fields.Keys;
    while rest != {}
      invariant rest <= fields.Keys && MaskedBut(q, j.fields, secret, rest)
      invariant Halfway(s, m.store, a, j, changed, Map(copied), Obj(q))
      invariant changed == exists k :: k in fields && k !in rest && Maskable(k, j.fields[k], secret)
      decreases |rest|
    {
      var k :| k in rest;
      assert Has(j, Name(k)) && Kid(s.cells[a], Name(k)) == fields[k];
      copied, changed := ByNameField(m, k, fields[k], secret, copied, changed, s, a, j, q);
      q := q[k := Masked(k, j.fields[k], secret)];
      rest := rest - {k};
    }
    MapMasked(s, m.store, key, a, j, secret, changed, copied, q);
    out := Ptr(a);
    if changed {
      var n := m.Alloc(Map(copied));
      out := Ptr(n);
    }
  }

  /** ByName: the original, untouched and itself, when no name is declared or nothing matches. */
  method ByName(m: Memory, r: Ref, names: map<string, bool>, ghost j: Json) returns (out: Ref, changed: bool)
    requires Sound(m.store) && Tree(m.store.cells, r, j)
    modifies m
    ensures MaskedShared(old(m.store), m.store, "", r, j, k => k in names && names[k], out, changed)
    ensures var secret := k => k in names && names[k];
      Rewrites("", j, Masked("", j, secret), (k, s) => TextRedacted(k, s, secret))
  {
    var secret := k => k in names && names[k];
    MaskedRewrites("", j, secret);
    if names == map[] || r == Scalar(Null) {
      NoNamesNothingMaskable("", j, secret);
      UnmaskableIsKept("", j, secret);
      return r, false;
    }
    out, changed := ByNameBelow(m, "", r, secret, j);
  }

  lemma {:induction false} NoNamesNothingMaskable(key: string, j: Json, secret: Secrets)
    requires j == Null || forall k :: !secret(k)
    ensures !Maskable(key, j, secret)
    decreases j
  {
    match j
    case Arr(items) =>
      forall i | 0 <= i < |items| ensures !Maskable(key, items[i], secret) {
        NoNamesNothingMaskable(key, items[i], secret);
      }
    case Obj(fields) =>
      forall k | k in fields ensures !Maskable(k, fields[k], secret) {
        NoNamesNothingMaskable(k, fields[k], secret);
      }
    case _ =>
  }

  // ----- the walk in place -----

  /** SecretsByShape: the tree itself is changed, cell by cell, and nothing outside it. */
  ghost predicate ShapedInPlace(s: Store, t: Store, r: Ref, j: Json, shapes: Shapes, out: Ref, changed: bool) {
    var k := Shaped(j, shapes);
    && Sound(t) && changed == ShapeHit(j, shapes)
    && (!changed ==> t == s && out == r)
    && Tree(t.cells, out, k)
    && (IsContainer(j) ==> r.Ptr? && out == r && Wrote(s, t, r.addr, j, k, iset{}))
    && (!IsContainer(j) ==> t == s)
  }

  method SecretsByShape(m: Memory, r: Ref, shapes: Shapes, ghost j: Json) returns (out: Ref, changed: bool)
    requires Sound(m.store) && Tree(m.store.cells, r, j)
    modifies m
    ensures ShapedInPlace(old(m.store), m.store, r, j, shapes, out, changed)
    decreases j, 1
  {
    match r
    case Scalar(v) =>
      if v.Text? {
        out, changed := Scalar(Text(shapes(v.text))), shapes(v.text) != v.text;
      } else {
        out, changed := r, false;
      }
    case Ptr(a) =>
      out := r;
      match m.store.cells[a]
      case Slice(_) => changed := ShapeSlice(m, a, shapes, j);
      case Map(_) => changed := ShapeMap(m, a, shapes, j);
  }

  lemma PutSameKid(s: Store, a: nat, slot: Slot)
    requires a in s.cells && CellHas(s.cells[a], slot)
    ensures Put(s, a, slot, Kid(s.cells[a], slot)) == s
  {
    assert PutSlot(s.cells[a], slot, Kid(s.cells[a], slot)) == s.cells[a];
    assert s.cells[a := s.cells[a]] == s.cells;
  }

  /** One slot of the container: its child changed in place, or was replaced by another scalar. */
  lemma SlotShaped(
      s: Store, t: Store, g: Store, a: nat, j: Json, q: Json, slot: Slot, shapes: Shapes, kid: Ref, did: bool, k: Json)
    requires Sound(s) && Sound(t) && IsContainer(q) && Wrote(s, t, a, j, q, iset{}) && Has(q, slot)
    requires ShapedInPlace(t, g, Kid(t.cells[a], slot), Part(q, slot), shapes, kid, did)
    requires Replaced(q, slot, Shaped(Part(q, slot), shapes), k)
    ensures Wrote(s, if did then Put(g, a, slot, kid) else g, a, j, k, iset{})
  {
    var x, r := Part(q, slot), Kid(t.cells[a], slot);
    assert Clear(t, a, q, iset{});
    if IsContainer(x) {
      ChildWrote(t, g, a, q, slot, r.addr, Shaped(x, shapes), k, iset{});
      ChildApart(t, g, a, q, slot, r.addr, Shaped(x, shapes), iset{});
      PutSameKid(g, a, slot);
      WroteTwice(s, t, g, a, j, q, k, iset{});
    } else if did {
      PutWrote(t, t, Put(t, a, slot, kid), a, q, slot, kid, Shaped(x, shapes), k, iset{});
      WroteTwice(s, t, Put(t, a, slot, kid), a, j, q, k, iset{});
    } else {
      UnshapedIsKept(x, shapes);
      SameReplaced(q, slot, k);
    }
  }

  lemma ElementSet(items: seq<Json>, i: nat, p: Json)
    requires i < |items|
    ensures Replaced(Arr(items), Index(i), p, Arr(items[i := p]))
  {
  }

  lemma FieldSet(fields: map<string, Json>, k: string, p: Json)
    ensures Replaced(Obj(fields), Name(k), p, Obj(fields[k := p]))
  {
  }

  predicate ShapedUpTo(q: seq<Json>, items: seq<Json>, shapes: Shapes, i: nat) {
    && |q| == |items| && i <= |items|
    && (forall t :: 0 <= t < i ==> q[t] == Shaped(items[t], shapes))
    && (forall t :: i <= t < |q| ==> q[t] == items[t])
  }

  method ShapeSlice(m: Memory, a: nat, shapes: Shapes, ghost j: Json) returns (changed: bool)
    requires Sound(m.store) && j.Arr? && Tree(m.store.cells, Ptr(a), j)
    modifies m
    ensures ShapedInPlace(old(m.store), m.store, Ptr(a), j, shapes, Ptr(a), changed)
    decreases j, 0
  {
    ghost var s, q := m.store, j.items;
    SliceLength(s, a, j);
    NothingWrote(s, a, j, iset{});
    changed := false;
    var i, n := 0, |m.store.cells[a].items|;
    while i < n
      invariant 0 <= i <= n == |j.items| && ShapedUpTo(q, j.items, shapes, i)
      invariant Sound(m.store) && Wrote(s, m.store, a, j, Arr(q), iset{})
      invariant changed == exists t :: 0 <= t < i && ShapeHit(j.items[t], shapes)
      invariant !changed ==> m.store == s
    {
      ghost var mid, p := m.store, Shaped(j.items[i], shapes);
      var slot := Index(i);
      assert Has(Arr(q), slot) && Part(Arr(q), slot) == j.items[i];
      var replaced, did := SecretsByShape(m, m.store.cells[a].items[i], shapes, j.items[i]);
      ElementSet(q, i, p);
      SlotShaped(s, mid, m.store, a, j, Arr(q), slot, shapes, replaced, did, Arr(q[i := p]));
      if did {
        m.store := Put(m.store, a, slot, replaced);
        changed := true;
      }
      q := q[i := p];
      i := i + 1;
    }
    assert Arr(q) == Shaped(j, shapes);
  }

  predicate ShapedBut(q: map<string, Json>, fields: map<string, Json>, shapes: Shapes, rest: set<string>) {
    && q.Keys == fields.Keys
    && (forall k :: k in q ==> q[k] == if k in rest then fields[k] else Shaped(fields[k], shapes))
  }

  lemma AllFieldsShaped(q: map<string, Json>, j: Json, shapes: Shapes)
    requires j.Obj? && ShapedBut(q, j.fields, shapes, {})
    ensures Obj(q) == Shaped(j, shapes)
  {
    var k := Shaped(j, shapes);
    assert k.fields.Keys == j.fields.Keys;
    SameObject(Obj(q), k);
  }

  method ShapeMap(m: Memory, a: nat, shapes: Shapes, ghost j: Json) returns (changed: bool)
    requires Sound(m.store) && j.Obj? && Tree(m.store.cells, Ptr(a), j)
    modifies m
    ensures ShapedInPlace(old(m.store), m.store, Ptr(a), j, shapes, Ptr(a), changed)
    decreases j, 0
  {
    ghost var s, q := m.store, j.fields;
    MapKeys(s, a, j);
    NothingWrote(s, a, j, iset{});
    changed := false;
    var rest := m.store.cells[a].fields.Keys;
    while rest != {}
      invariant rest <= j.fields.Keys && ShapedBut(q, j.fields, shapes, rest)
      invariant Sound(m.store) && Wrote(s, m.store, a, j, Obj(q), iset{})
      invariant changed == exists k :: k in j.fields && k !in rest && ShapeHit(j.fields[k], shapes)
      invariant !changed ==> m.store == s
      decreases |rest|
    {
      var k :| k in rest;
      var did := ShapeField(m, a, k, shapes, s, j, q);
      q := q[k := Shaped(j.fields[k], shapes)];
      changed := changed || did;
      rest := rest - {k};
    }
    AllFieldsShaped(q, j, shapes);
  }

  /** One field of the map. */
  method ShapeField(
      m: Memory, a: nat, k: string, shapes: Shapes, ghost s: Store, ghost j: Json, ghost q: map<string, Json>)
    returns (did: bool)
    requires Sound(s) && Sound(m.store) && Wrote(s, m.store, a, j, Obj(q), iset{})
    requires j.Obj? && k in j.fields && k in q && q[k] == j.fields[k]
    modifies m
    ensures Sound(m.store) && Wrote(s, m.store, a, j, Obj(q[k := Shaped(j.fields[k], shapes)]), iset{})
    ensures did == ShapeHit(j.fields[k], shapes) && (!did ==> m.store == old(m.store))
    decreases j.fields[k], 2
  {
    ghost var mid, p := m.store, Shaped(j.fields[k], shapes);
    var slot := Name(k);
    assert Has(Obj(q), slot) && Part(Obj(q), slot) == j.fields[k];
    var replaced: Ref;
    replaced, did := SecretsByShape(m, m.store.cells[a].fields[k], shapes, j.fields[k]);
    FieldSet(q, k, p);
    SlotShaped(s, mid, m.store, a, j, Obj(q), slot, shapes, replaced, did, Obj(q[k := p]));
    if did {
      m.store := Put(m.store, a, slot, replaced);
    }
  }

  // ----- both walks -----

  /**
   * RedactSecrets: names first, into a copy, then shapes, in place on that copy. The caller's
   * memory keeps every cell it had, and so the caller's value. The result is, place by place, that
   * value with its secret texts redacted.
   */
  method RedactSecrets(m: Memory, r: Ref, secret: Secrets, shapes: Shapes, ghost j: Json) returns (out: Ref)
    requires Sound(m.store) && Tree(m.store.cells, r, j)
    modifies m
    ensures Tree(m.store.cells, out, Shaped(Masked("", j, secret), shapes))
    ensures Rewrites("", j, Shaped(Masked("", j, secret), shapes), (k, s) => shapes(TextRedacted(k, s, secret)))
    ensures Grown(old(m.store), m.store) && Tree(m.store.cells, r, j)
  {
    ghost var s := m.store;
    var copy := Value(m, "", r, secret, j);
    ghost var k, t := Masked("", j, secret), m.store;
    var changed;
    out, changed := SecretsByShape(m, copy, shapes, k);
    forall b: nat | b in s.cells ensures b in m.store.cells && m.store.cells[b] == s.cells[b] {
      assert b < s.next && !Owns(t.cells, copy, k, b);
    }
    Grow(s.cells, m.store.cells, r, j);
    RedactedRewrites(j, secret, shapes);
  }
}
