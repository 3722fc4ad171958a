/** Memory that grows and is written in place: what a write to one tree does to it and to the others. */
module JsonStore {
  import opened JsonTree
  import opened JsonHeap

  /** Memory with the next free address. */
  datatype Store = Store(cells: Cells, next: nat)

  predicate Sound(s: Store) { forall b :: b in s.cells ==> b < s.next }

  function New(s: Store, c: Cell): Store { Store(s.cells[s.next := c], s.next + 1) }

  function PutSlot(c: Cell, slot: Slot, r: Ref): Cell {
    match slot
    case Index(i) => if c.Slice? && i < |c.items| then Slice(c.items[i := r]) else c
    case Name(k) => if c.Map? then Map(c.fields[k := r]) else c
  }

  /** container[slot] = r. */
  function Put(s: Store, a: nat, slot: Slot, r: Ref): Store {
    if a in s.cells then s.(cells := s.cells[a := PutSlot(s.cells[a], slot, r)]) else s
  }

  /** What a slot holds; nil when the key is missing. */
  function KidOr(s: Store, a: nat, slot: Slot): Ref {
    if a in s.cells && CellHas(s.cells[a], slot) then Kid(s.cells[a], slot) else Scalar(Null)
  }

  function AddrOf(r: Ref): nat { if r.Ptr? then r.addr else 0 }

  // ----- what a write may touch -----

  /**
   * From `s` to `t` the tree at `a` went from `j` to `k`: cells outside it are as they were, and
   * it now owns nothing but its own cells, `extra` ones, and new ones.
   */
  ghost predicate Wrote(s: Store, t: Store, a: nat, j: Json, k: Json, extra: iset<nat>) {
    && Sound(t) && s.next <= t.next
    && Tree(t.cells, Ptr(a), k)
    && (forall b: nat :: b in s.cells && !Owns(s.cells, Ptr(a), j, b) ==> b in t.cells && t.cells[b] == s.cells[b])
    && (forall b: nat :: Owns(t.cells, Ptr(a), k, b) ==> Owns(s.cells, Ptr(a), j, b) || b in extra || b >= s.next)
  }

  ghost function OwnedBy(s: Store, r: Ref, j: Json): iset<nat> { iset b: nat | Owns(s.cells, r, j, b) }

  /** A tree that shares no cell with the written one is untouched. */
  lemma BystanderStays(s: Store, t: Store, a: nat, j: Json, k: Json, extra: iset<nat>, r: Ref, v: Json)
    requires Sound(s) && Wrote(s, t, a, j, k, extra) && Tree(s.cells, r, v)
    requires forall b :: Owns(s.cells, r, v, b) ==> !Owns(s.cells, Ptr(a), j, b)
    ensures Tree(t.cells, r, v)
    ensures forall b :: Owns(t.cells, r, v, b) <==> Owns(s.cells, r, v, b)
  {
    forall b | Owns(s.cells, r, v, b) ensures b in s.cells && b in t.cells && t.cells[b] == s.cells[b] {
      OwnedIsAllocated(s.cells, r, v, b);
    }
    Frame(s.cells, t.cells, r, v);
  }

  lemma WroteTwice(s: Store, t: Store, u: Store, a: nat, i: Json, j: Json, k: Json, extra: iset<nat>)
    requires Wrote(s, t, a, i, j, iset{}) && Wrote(t, u, a, j, k, extra)
    requires Sound(s)
    ensures Wrote(s, u, a, i, k, extra)
  {
    forall b | b in s.cells && !Owns(s.cells, Ptr(a), i, b)
      ensures b in u.cells && u.cells[b] == s.cells[b]
    {
      assert b < s.next;
    }
  }

  /** No cell of the tree is extra. */
  ghost predicate Clear(s: Store, a: nat, j: Json, extra: iset<nat>) {
    forall b: nat :: Owns(s.cells, Ptr(a), j, b) ==> b !in extra
  }

  /** A write below one slot leaves the rest of the tree alone. */
  lemma ChildApart(s: Store, t: Store, a: nat, j: Json, slot: Slot, c: nat, p: Json, extra: iset<nat>)
    requires Sound(s) && IsContainer(j) && Tree(s.cells, Ptr(a), j) && Has(j, slot) && Clear(s, a, j, extra)
    requires Kid(s.cells[a], slot) == Ptr(c) && Wrote(s, t, c, Part(j, slot), p, extra)
    ensures Apart(s.cells, t.cells, a, j, slot, Ptr(c), p)
    ensures a in t.cells && t.cells[a] == s.cells[a]
  {
    var x := Part(j, slot);
    assert !Owns(s.cells, Ptr(c), x, a) && Owns(s.cells, Ptr(a), j, a);
    forall u, b | Has(j, u) && u != slot && Owns(s.cells, Kid(s.cells[a], u), Part(j, u), b)
      ensures b in s.cells && b in t.cells && t.cells[b] == s.cells[b] && !Owns(t.cells, Ptr(c), p, b)
    {
      OwnedIsAllocated(s.cells, Kid(s.cells[a], u), Part(j, u), b);
      assert Owns(s.cells, Ptr(a), j, b);
    }
  }

  lemma ChildOwns(s: Store, a: nat, j: Json, slot: Slot, b: nat)
    requires IsContainer(j) && Tree(s.cells, Ptr(a), j) && Has(j, slot)
    requires Owns(s.cells, Kid(s.cells[a], slot), Part(j, slot), b)
    ensures Owns(s.cells, Ptr(a), j, b)
  {
  }

  /** A write below one slot is a write of the whole. */
  lemma ChildWrote(
      s: Store, t: Store, a: nat, j: Json, slot: Slot, c: nat, p: Json, k: Json, extra: iset<nat>)
    requires Sound(s) && IsContainer(j) && Tree(s.cells, Ptr(a), j) && Has(j, slot) && Clear(s, a, j, extra)
    requires Kid(s.cells[a], slot) == Ptr(c) && Wrote(s, t, c, Part(j, slot), p, extra)
    requires Replaced(j, slot, p, k)
    ensures Wrote(s, t, a, j, k, extra)
  {
    var x := Part(j, slot);
    ChildApart(s, t, a, j, slot, c, p, extra);
    Regraft(s.cells, t.cells, a, j, slot, Ptr(c), p, k);
    forall b | Owns(s.cells, Ptr(c), x, b) ensures Owns(s.cells, Ptr(a), j, b) {
      ChildOwns(s, a, j, slot, b);
    }
  }

  lemma PutSlotReplaces(h: Cells, a: nat, j: Json, slot: Slot, r: Ref)
    requires IsContainer(j) && Fits(h, Ptr(a), j) && (slot.Index? ==> Has(j, slot)) && (slot.Name? ==> j.Obj?)
    ensures CellReplaced(h[a], slot, r, PutSlot(h[a], slot, r))
  {
  }

  /** A separate tree, new or extra, survives being put into a slot. */
  lemma GuestStays(s: Store, g: Store, t: Store, a: nat, j: Json, slot: Slot, r: Ref, p: Json, extra: iset<nat>)
    requires Sound(s) && Grown(s, g) && t == Put(g, a, slot, r) && Clear(s, a, j, extra)
    requires IsContainer(j) && Tree(s.cells, Ptr(a), j)
    requires Tree(g.cells, r, p) && forall b: nat :: Owns(g.cells, r, p, b) ==> b in extra || b >= s.next
    ensures Tree(t.cells, r, p) && forall b: nat :: Owns(t.cells, r, p, b) ==> b in extra || b >= s.next
    ensures !Owns(t.cells, r, p, a)
  {
    assert Owns(s.cells, Ptr(a), j, a);
    forall b | Owns(g.cells, r, p, b) ensures b in g.cells && b in t.cells && t.cells[b] == g.cells[b] {
      OwnedIsAllocated(g.cells, r, p, b);
    }
    Frame(g.cells, t.cells, r, p);
  }

  /** ... and the rest of the tree is apart from it. */
  lemma PutApart(s: Store, g: Store, t: Store, a: nat, j: Json, slot: Slot, r: Ref, p: Json, extra: iset<nat>)
    requires Sound(s) && Grown(s, g) && t == Put(g, a, slot, r) && Clear(s, a, j, extra)
    requires IsContainer(j) && Tree(s.cells, Ptr(a), j) && !Owns(t.cells, r, p, a)
    requires forall b: nat :: Owns(t.cells, r, p, b) ==> b in extra || b >= s.next
    ensures Apart(s.cells, t.cells, a, j, slot, r, p)
  {
    forall u, b | Has(j, u) && u != slot && Owns(s.cells, Kid(s.cells[a], u), Part(j, u), b)
      ensures b in s.cells && b in t.cells && t.cells[b] == s.cells[b] && !Owns(t.cells, r, p, b)
    {
      OwnedIsAllocated(s.cells, Kid(s.cells[a], u), Part(j, u), b);
      ChildOwns(s, a, j, u, b);
    }
  }

  ghost predicate Grown(s: Store, g: Store) {
    Sound(g) && s.next <= g.next && forall b: nat :: b in s.cells ==> b in g.cells && g.cells[b] == s.cells[b]
  }

  /** Putting a separate tree into a slot. */
  lemma PutWrote(s: Store, g: Store, t: Store, a: nat, j: Json, slot: Slot, r: Ref, p: Json, k: Json, extra: iset<nat>)
    requires Sound(s) && Grown(s, g) && t == Put(g, a, slot, r) && Clear(s, a, j, extra)
    requires IsContainer(j) && Tree(s.cells, Ptr(a), j) && Replaced(j, slot, p, k)
    requires (slot.Index? ==> Has(j, slot)) && (slot.Name? ==> j.Obj?)
    requires Tree(g.cells, r, p) && forall b: nat :: Owns(g.cells, r, p, b) ==> b in extra || b >= s.next
    ensures Wrote(s, t, a, j, k, extra)
  {
    GuestStays(s, g, t, a, j, slot, r, p, extra);
    PutApart(s, g, t, a, j, slot, r, p, extra);
    PutSlotReplaces(s.cells, a, j, slot, r);
    Regraft(s.cells, t.cells, a, j, slot, r, p, k);
    assert Owns(s.cells, Ptr(a), j, a);
  }

  lemma NewIsTree(s: Store, c: Cell, j: Json)
    requires Sound(s) && (c == Map(map[]) && j == EMPTY_OBJECT)
    ensures Grown(s, New(s, c)) && Tree(New(s, c).cells, Ptr(s.next), j)
    ensures forall b: nat :: Owns(New(s, c).cells, Ptr(s.next), j, b) <==> b == s.next
  {
  }

  lemma SameReplaced(j: Json, slot: Slot, k: Json)
    requires Has(j, slot) && Replaced(j, slot, Part(j, slot), k)
    ensures j == k
  {
    if j.Obj? {
      forall n: string ensures n in k.fields <==> n in j.fields {
        assert Has(k, Name(n)) <==> Has(j, Name(n));
      }
      forall n | n in j.fields ensures k.fields[n] == j.fields[n] {
        assert Has(k, Name(n)) && Part(k, Name(n)) == Part(j, Name(n));
      }
      SameObject(j, k);
    } else {
      assert Has(k, Index(|j.items|)) <==> Has(j, Index(|j.items|));
      assert Has(k, Index(|k.items|)) <==> Has(j, Index(|k.items|));
      forall i | 0 <= i < |j.items| ensures k.items[i] == j.items[i] {
        assert Part(k, Index(i)) == Part(j, Index(i));
      }
      assert j.items == k.items;
    }
  }

  lemma NothingWrote(s: Store, a: nat, j: Json, extra: iset<nat>)
    requires Sound(s) && Tree(s.cells, Ptr(a), j)
    ensures Wrote(s, s, a, j, j, extra)
  {
  }

  /** What was separate from the tree before a write of its own cells still is. */
  lemma GuestKeepsOut(s: Store, t: Store, a: nat, j: Json, k: Json, r: Ref, v: Json)
    requires Sound(s) && Wrote(s, t, a, j, k, iset{}) && Tree(s.cells, r, v) && Clear(s, a, j, OwnedBy(s, r, v))
    ensures Tree(t.cells, r, v) && OwnedBy(t, r, v) == OwnedBy(s, r, v) && Clear(t, a, k, OwnedBy(t, r, v))
  {
    forall b: nat | Owns(s.cells, r, v, b) ensures !Owns(s.cells, Ptr(a), j, b) && b < s.next {
      OwnedIsAllocated(s.cells, r, v, b);
      assert b in OwnedBy(s, r, v);
    }
    BystanderStays(s, t, a, j, k, iset{}, r, v);
  }

  /** Making room first and writing below a slot then, as one write. */
  lemma Lift(
      s: Store, t: Store, u: Store, a: nat, j: Json, i: Json, slot: Slot, c: nat, q: Json, k: Json, extra: iset<nat>)
    requires Sound(s) && Wrote(s, t, a, j, i, iset{}) && IsContainer(i) && Has(i, slot) && Clear(t, a, i, extra)
    requires Kid(t.cells[a], slot) == Ptr(c) && Wrote(t, u, c, Part(i, slot), q, extra) && Replaced(i, slot, q, k)
    ensures Wrote(s, u, a, j, k, extra)
  {
    ChildWrote(t, u, a, i, slot, c, q, k, extra);
    WroteTwice(s, t, u, a, j, i, k, extra);
  }

  /** A part of a clear tree is clear. */
  lemma PartClear(t: Store, a: nat, i: Json, slot: Slot, c: nat, extra: iset<nat>)
    requires IsContainer(i) && Tree(t.cells, Ptr(a), i) && Has(i, slot) && Kid(t.cells[a], slot) == Ptr(c)
    requires Clear(t, a, i, extra)
    ensures Tree(t.cells, Ptr(c), Part(i, slot)) && Clear(t, c, Part(i, slot), extra)
  {
    forall b: nat | Owns(t.cells, Ptr(c), Part(i, slot), b) ensures b !in extra {
      ChildOwns(t, a, i, slot, b);
    }
  }

  /** The memory that decoded payloads live in. */
  class Memory {
    var store: Store

    constructor ()
      ensures store == Store(map[], 0)
    {
      store := Store(map[], 0);
    }

    method Alloc(c: Cell) returns (a: nat)
      modifies this
      ensures store == New(old(store), c) && a == old(store).next
    {
      a := store.next;
      store := Store(store.cells[a := c], a + 1);
    }
  }
}
