/**
 * Decoded JSON in memory: maps and slices are cells with an identity, so that a write through
 * one reference shows through every other. A tree is a value none of whose cells is shared.
 */
module JsonHeap {
  import opened JsonTree

  /** A Go `any`: a scalar, or a reference to a map or slice. */
  datatype Ref = Scalar(value: Json) | Ptr(addr: nat)

  datatype Cell = Slice(items: seq<Ref>) | Map(fields: map<string, Ref>)

  type Cells = map<nat, Cell>

  /** A place inside a container. */
  datatype Slot = Index(i: nat) | Name(k: string)

  predicate IsContainer(j: Json) { j.Arr? || j.Obj? }

  predicate Has(j: Json, s: Slot) {
    match s
    case Index(i) => j.Arr? && i < |j.items|
    case Name(k) => j.Obj? && k in j.fields
  }

  function Part(j: Json, s: Slot): (p: Json)
    requires Has(j, s)
    ensures p < j
  {
    match s
    case Index(i) => j.items[i]
    case Name(k) => j.fields[k]
  }

  predicate CellHas(c: Cell, s: Slot) {
    match s
    case Index(i) => c.Slice? && i < |c.items|
    case Name(k) => c.Map? && k in c.fields
  }

  function Kid(c: Cell, s: Slot): Ref
    requires CellHas(c, s)
  {
    match s
    case Index(i) => c.items[i]
    case Name(k) => c.fields[k]
  }

  /** The reference leads to a cell of the value's kind and with its slots. */
  ghost predicate Fits(h: Cells, r: Ref, j: Json) {
    && r.Ptr? && r.addr in h
    && (h[r.addr].Slice? <==> j.Arr?) && (h[r.addr].Map? <==> j.Obj?)
    && (forall s :: Has(j, s) <==> CellHas(h[r.addr], s))
  }

  /** The cell at `b` is part of the value. */
  ghost predicate Owns(h: Cells, r: Ref, j: Json, b: nat)
    decreases j
  {
    && IsContainer(j) && Fits(h, r, j)
    && (b == r.addr || exists s :: Has(j, s) && Owns(h, Kid(h[r.addr], s), Part(j, s), b))
  }

  /** The reference holds the value `j`, and no cell of it is reached twice. */
  ghost predicate Tree(h: Cells, r: Ref, j: Json)
    decreases j
  {
    if !IsContainer(j) then r == Scalar(j)
    else
      && Fits(h, r, j)
      && (forall s :: Has(j, s) ==>
            Tree(h, Kid(h[r.addr], s), Part(j, s)) && !Owns(h, Kid(h[r.addr], s), Part(j, s), r.addr))
      && (forall s, t, b ::
            (Has(j, s) && Has(j, t) && Owns(h, Kid(h[r.addr], s), Part(j, s), b)
             && Owns(h, Kid(h[r.addr], t), Part(j, t), b)) ==> s == t)
  }

  /** The two memories agree on every cell of the value. */
  ghost predicate Same(h: Cells, g: Cells, r: Ref, j: Json) {
    forall b :: Owns(h, r, j, b) ==> b in h && b in g && g[b] == h[b]
  }

  lemma {:induction false} OwnedIsAllocated(h: Cells, r: Ref, j: Json, b: nat)
    requires Owns(h, r, j, b)
    ensures b in h
    decreases j
  {
    if b != r.addr {
      var s :| Has(j, s) && Owns(h, Kid(h[r.addr], s), Part(j, s), b);
      OwnedIsAllocated(h, Kid(h[r.addr], s), Part(j, s), b);
    }
  }

  /** Where the memories agree on a value, they agree on what it is and what it owns. */
  lemma {:induction false} Frame(h: Cells, g: Cells, r: Ref, j: Json)
    requires Tree(h, r, j) && Same(h, g, r, j)
    ensures Tree(g, r, j)
    ensures forall b :: Owns(g, r, j, b) <==> Owns(h, r, j, b)
    decreases j
  {
    if IsContainer(j) {
      assert Owns(h, r, j, r.addr);
      forall s | Has(j, s)
        ensures Tree(g, Kid(h[r.addr], s), Part(j, s))
        ensures forall b :: Owns(g, Kid(h[r.addr], s), Part(j, s), b) <==> Owns(h, Kid(h[r.addr], s), Part(j, s), b)
      {
        forall b | Owns(h, Kid(h[r.addr], s), Part(j, s), b) ensures b in h && b in g && g[b] == h[b] {
          assert Owns(h, r, j, b);
        }
        Frame(h, g, Kid(h[r.addr], s), Part(j, s));
      }
    }
  }

  /** A memory that only gained cells still holds every tree. */
  lemma Grow(h: Cells, g: Cells, r: Ref, j: Json)
    requires Tree(h, r, j) && forall b :: b in h ==> b in g && g[b] == h[b]
    ensures Tree(g, r, j)
    ensures forall b :: Owns(g, r, j, b) <==> Owns(h, r, j, b)
  {
    forall b | Owns(h, r, j, b) ensures b in h { OwnedIsAllocated(h, r, j, b); }
    Frame(h, g, r, j);
  }

  /** `k` is `j` except that slot `s` now holds `p`. */
  ghost predicate Replaced(j: Json, s: Slot, p: Json, k: Json) {
    && (j.Arr? <==> k.Arr?) && (j.Obj? <==> k.Obj?) && IsContainer(j)
    && (forall t :: Has(k, t) <==> Has(j, t) || t == s)
    && (forall t :: Has(k, t) ==> Part(k, t) == if t == s then p else Part(j, t))
  }

  ghost predicate CellReplaced(c: Cell, s: Slot, r: Ref, d: Cell) {
    && (c.Slice? <==> d.Slice?)
    && (forall t :: CellHas(d, t) <==> CellHas(c, t) || t == s)
    && (forall t :: CellHas(d, t) ==> Kid(d, t) == if t == s then r else Kid(c, t))
  }

  /** The tree's other children are as they were, and apart from the new child. */
  ghost predicate Apart(h: Cells, g: Cells, a: nat, j: Json, s: Slot, r: Ref, p: Json)
    requires IsContainer(j) && Fits(h, Ptr(a), j)
  {
    && !Owns(g, r, p, a)
    && (forall t, b :: Has(j, t) && t != s && Owns(h, Kid(h[a], t), Part(j, t), b) ==>
          b in h && b in g && g[b] == h[b] && !Owns(g, r, p, b))
  }

  /** Putting a tree into one slot of a tree gives the tree with that slot replaced. */
  lemma Regraft(h: Cells, g: Cells, a: nat, j: Json, s: Slot, r: Ref, p: Json, k: Json)
    requires IsContainer(j) && Tree(h, Ptr(a), j) && Replaced(j, s, p, k)
    requires a in g && CellReplaced(h[a], s, r, g[a])
    requires Tree(g, r, p) && Apart(h, g, a, j, s, r, p)
    ensures Tree(g, Ptr(a), k)
    ensures forall b :: Owns(g, Ptr(a), k, b) ==> Owns(h, Ptr(a), j, b) || Owns(g, r, p, b)
  {
    forall t | Has(j, t) && t != s
      ensures Tree(g, Kid(h[a], t), Part(j, t))
      ensures forall b :: Owns(g, Kid(h[a], t), Part(j, t), b) <==> Owns(h, Kid(h[a], t), Part(j, t), b)
    {
      Frame(h, g, Kid(h[a], t), Part(j, t));
    }
    assert Fits(g, Ptr(a), k);
  }
}
