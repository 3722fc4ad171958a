/**
 * setPath as it runs (pkg/tools/build_flow_scenarios.go): a cursor moves down nested maps and
 * slices in memory and changes them in place. Proved against the value-level Set of ScenarioPaths.
 */
module ScenarioMock {
  import opened JsonTree
  import opened JsonHeap
  import opened JsonStore
  import opened ScenarioPaths

  predicate IsMap(s: Store, r: Ref) { r.Ptr? && r.addr in s.cells && s.cells[r.addr].Map? }

  predicate IsFullSlice(s: Store, r: Ref) {
    r.Ptr? && r.addr in s.cells && s.cells[r.addr].Slice? && |s.cells[r.addr].items| > 0
  }

  /** The slot holds a map afterwards, an existing one if it can. */
  function MapIn(s: Store, a: nat, slot: Slot): Store {
    if IsMap(s, KidOr(s, a, slot)) then s else Put(New(s, Map(map[])), a, slot, Ptr(s.next))
  }

  /** The slot holds a slice with at least one element afterwards. */
  function SliceIn(s: Store, a: nat, slot: Slot): Store {
    if IsFullSlice(s, KidOr(s, a, slot)) then s
    else Put(New(New(s, Map(map[])), Slice([Ptr(s.next)])), a, slot, Ptr(s.next + 1))
  }

  /** One path walk from the map at `a`, as a function of the memory. */
  function WriteAt(s: Store, a: nat, p: seq<Seg>, v: Ref): Store
    decreases |p|, 0
  {
    if p == [] || p[0].Bad? || !IsMap(s, Ptr(a)) then s
    else
      var slot := Name(p[0].name);
      if p[0].Key? then
        if |p| == 1 then (if KidOr(s, a, slot) == Scalar(Null) then Put(s, a, slot, v) else s)
        else
          WriteBelow(s, a, slot, p[1..], v)
      else
        var t := SliceIn(s, a, slot);
        if |p| == 1 then t
        else WriteBelow(t, AddrOf(KidOr(t, a, slot)), Index(0), p[1..], v)
  }

  /** A step into a slot, where it makes room for a map, and the rest of the walk. */
  function WriteBelow(s: Store, a: nat, slot: Slot, p: seq<Seg>, v: Ref): Store
    decreases |p|, 1
  {
    var t := MapIn(s, a, slot);
    WriteAt(t, AddrOf(KidOr(t, a, slot)), p, v)
  }

  // ----- the two ways of making room -----

  /** MapIn leaves the slot's object in place, or an empty one instead of anything else. */
  lemma MapInWrote(s: Store, a: nat, j: Json, slot: Slot, k: Json)
    requires Sound(s) && IsContainer(j) && Tree(s.cells, Ptr(a), j)
    requires (slot.Index? ==> Has(j, slot)) && (slot.Name? ==> j.Obj?)
    requires Replaced(j, slot, ObjectOr(if Has(j, slot) then Part(j, slot) else Null), k)
    ensures Wrote(s, MapIn(s, a, slot), a, j, k, iset{})
    ensures var t := MapIn(s, a, slot); IsMap(t, KidOr(t, a, slot))
  {
    var x := if Has(j, slot) then Part(j, slot) else Null;
    if IsMap(s, KidOr(s, a, slot)) {
      assert x.Obj?;
      SameReplaced(j, slot, k);
    } else {
      NewIsTree(s, Map(map[]), EMPTY_OBJECT);
      PutWrote(s, New(s, Map(map[])), MapIn(s, a, slot), a, j, slot, Ptr(s.next), EMPTY_OBJECT, k, iset{});
    }
  }

  /** SliceIn leaves the slot's array in place, or one empty object in an array instead of anything else. */
  lemma SliceInWrote(s: Store, a: nat, j: Json, name: string, k: Json)
    requires Sound(s) && j.Obj? && Tree(s.cells, Ptr(a), j) && k == With(j, name, Arr(ItemsOr(Field(j, name))))
    ensures Wrote(s, SliceIn(s, a, Name(name)), a, j, k, iset{})
    ensures var t := SliceIn(s, a, Name(name)); KidOr(t, a, Name(name)).Ptr?
  {
    var slot := Name(name);
    var x := Field(j, name);
    assert Has(j, slot) ==> Part(j, slot) == x && Tree(s.cells, KidOr(s, a, slot), x);
    if IsFullSlice(s, KidOr(s, a, slot)) {
      assert x.Arr? && CellHas(s.cells[KidOr(s, a, slot).addr], Index(0)) && Has(x, Index(0));
      SameReplaced(j, slot, k);
    } else {
      if x.Arr? { assert Has(x, Index(0)) <==> CellHas(s.cells[KidOr(s, a, slot).addr], Index(0)); }
      var one := New(s, Map(map[]));
      var g := New(one, Slice([Ptr(s.next)]));
      NewIsTree(s, Map(map[]), EMPTY_OBJECT);
      OneElementIsTree(s, one, g, s.next + 1);
      PutWrote(s, g, SliceIn(s, a, slot), a, j, slot, Ptr(s.next + 1), Arr([EMPTY_OBJECT]), k, iset{});
    }
  }

  lemma OneElementIsTree(s: Store, one: Store, g: Store, a: nat)
    requires Sound(s) && one == New(s, Map(map[])) && g == New(one, Slice([Ptr(s.next)])) && a == s.next + 1
    requires Grown(s, one) && Tree(one.cells, Ptr(s.next), EMPTY_OBJECT)
    requires forall b: nat :: Owns(one.cells, Ptr(s.next), EMPTY_OBJECT, b) <==> b == s.next
    ensures Grown(s, g) && Tree(g.cells, Ptr(a), Arr([EMPTY_OBJECT]))
    ensures forall b: nat :: Owns(g.cells, Ptr(a), Arr([EMPTY_OBJECT]), b) ==> b >= s.next
  {
    Grow(one.cells, g.cells, Ptr(s.next), EMPTY_OBJECT);
    var j := Arr([EMPTY_OBJECT]);
    assert forall t :: Has(j, t) <==> t == Index(0);
    assert Part(j, Index(0)) == EMPTY_OBJECT && Kid(g.cells[a], Index(0)) == Ptr(s.next);
    assert Fits(g.cells, Ptr(a), j);
  }

  // ----- a whole path -----

  /** Making room for an object in a slot and writing on below it. */
  lemma {:induction false} StepDown(
      s: Store, a: nat, j: Json, slot: Slot, p: seq<Seg>, r: Ref, v: Json, i: Json, k: Json)
    requires Sound(s) && IsContainer(j) && Tree(s.cells, Ptr(a), j)
    requires (slot.Index? ==> Has(j, slot)) && (slot.Name? ==> j.Obj?)
    requires Tree(s.cells, r, v) && Clear(s, a, j, OwnedBy(s, r, v))
    requires Replaced(j, slot, ObjectOr(if Has(j, slot) then Part(j, slot) else Null), i)
    requires Replaced(i, slot, Set(ObjectOr(if Has(j, slot) then Part(j, slot) else Null), p, v), k)
    ensures Wrote(s, WriteBelow(s, a, slot, p, r), a, j, k, OwnedBy(s, r, v))
    decreases |p|, 2
  {
    var t := MapIn(s, a, slot);
    MapInWrote(s, a, j, slot, i);
    GuestKeepsOut(s, t, a, j, i, r, v);
    var c := AddrOf(KidOr(t, a, slot));
    assert Has(i, slot) && Kid(t.cells[a], slot) == Ptr(c);
    PartClear(t, a, i, slot, c, OwnedBy(t, r, v));
    WriteAtSets(t, c, Part(i, slot), p, r, v);
    Lift(s, t, WriteAt(t, c, p, r), a, j, i, slot, c, Set(Part(i, slot), p, v), k, OwnedBy(s, r, v));
  }

  /**
   * A path walk in memory does to the tree at `a` exactly what Set does to its value, touches no
   * other cell, and takes in nothing but the written value's cells.
   */
  lemma {:induction false} WriteAtSets(s: Store, a: nat, j: Json, p: seq<Seg>, r: Ref, v: Json)
    requires Sound(s) && j.Obj? && Tree(s.cells, Ptr(a), j)
    requires Tree(s.cells, r, v) && Clear(s, a, j, OwnedBy(s, r, v))
    ensures Wrote(s, WriteAt(s, a, p, r), a, j, Set(j, p, v), OwnedBy(s, r, v))
    decreases |p|, 1
  {
    if p == [] || p[0].Bad? {
      NothingWrote(s, a, j, OwnedBy(s, r, v));
    } else if p[0].Key? {
      WriteKey(s, a, j, p, r, v);
    } else {
      WriteIndexed(s, a, j, p, r, v);
    }
  }

  lemma {:induction false} WriteKey(s: Store, a: nat, j: Json, p: seq<Seg>, r: Ref, v: Json)
    requires Sound(s) && j.Obj? && Tree(s.cells, Ptr(a), j) && p != [] && p[0].Key?
    requires Tree(s.cells, r, v) && Clear(s, a, j, OwnedBy(s, r, v))
    ensures Wrote(s, WriteAt(s, a, p, r), a, j, Set(j, p, v), OwnedBy(s, r, v))
    decreases |p|, 0
  {
    var name := p[0].name;
    var slot, x := Name(name), Field(j, name);
    assert Has(j, slot) ==> Part(j, slot) == x && Tree(s.cells, KidOr(s, a, slot), x);
    assert IsMap(s, Ptr(a));
    if |p| > 1 {
      var below := Set(ObjectOr(x), p[1..], v);
      NameReplaced(j, name, ObjectOr(x), below);
      StepDown(s, a, j, slot, p[1..], r, v, With(j, name, ObjectOr(x)), With(j, name, below));
    } else if x == Null {
      PutWrote(s, s, Put(s, a, slot, r), a, j, slot, r, v, With(j, name, v), OwnedBy(s, r, v));
    } else {
      NothingWrote(s, a, j, OwnedBy(s, r, v));
    }
  }

  lemma {:induction false} WriteIndexed(s: Store, a: nat, j: Json, p: seq<Seg>, r: Ref, v: Json)
    requires Sound(s) && j.Obj? && Tree(s.cells, Ptr(a), j) && p != [] && p[0].At?
    requires Tree(s.cells, r, v) && Clear(s, a, j, OwnedBy(s, r, v))
    ensures Wrote(s, WriteAt(s, a, p, r), a, j, Set(j, p, v), OwnedBy(s, r, v))
    decreases |p|, 0
  {
    var name := p[0].name;
    var slot, items := Name(name), ItemsOr(Field(j, name));
    var t := SliceIn(s, a, slot);
    var i := With(j, name, Arr(items));
    assert IsMap(s, Ptr(a));
    SliceInWrote(s, a, j, name, i);
    GuestKeepsOut(s, t, a, j, i, r, v);
    if |p| > 1 {
      IndexedBelow(s, t, a, j, i, items, p, r, v);
    }
  }

  lemma {:induction false} IndexedBelow(
      s: Store, t: Store, a: nat, j: Json, i: Json, items: seq<Json>, p: seq<Seg>, r: Ref, v: Json)
    requires Sound(s) && j.Obj? && Tree(s.cells, Ptr(a), j) && |p| > 1 && p[0].At?
    requires items == ItemsOr(Field(j, p[0].name)) && i == With(j, p[0].name, Arr(items))
    requires t == SliceIn(s, a, Name(p[0].name)) && Wrote(s, t, a, j, i, iset{}) && IsMap(s, Ptr(a))
    requires Tree(t.cells, r, v) && OwnedBy(t, r, v) == OwnedBy(s, r, v) && Clear(t, a, i, OwnedBy(t, r, v))
    ensures Wrote(s, WriteAt(s, a, p, r), a, j, Set(j, p, v), OwnedBy(s, r, v))
    decreases |p| - 1, 3
  {
    var slot, extra := Name(p[0].name), OwnedBy(s, r, v);
    assert Has(i, slot) && Part(i, slot) == Arr(items);
    var b := AddrOf(KidOr(t, a, slot));
    assert Kid(t.cells[a], slot) == Ptr(b);
    PartClear(t, a, i, slot, b, extra);
    var mid, below := Arr(items[0 := ObjectOr(items[0])]), Arr(items[0 := Set(ObjectOr(items[0]), p[1..], v)]);
    HeadReplaced(items, ObjectOr(items[0]), Set(ObjectOr(items[0]), p[1..], v));
    StepDown(t, b, Arr(items), Index(0), p[1..], r, v, mid, below);
    var u := WriteBelow(t, b, Index(0), p[1..], r);
    assert WriteAt(s, a, p, r) == u;
    NameReplaced(j, p[0].name, Arr(items), below);
    Lift(s, t, u, a, j, i, slot, b, below, With(j, p[0].name, below), extra);
  }

  lemma NameReplaced(j: Json, name: string, x: Json, y: Json)
    requires j.Obj?
    ensures Replaced(j, Name(name), x, With(j, name, x))
    ensures Replaced(With(j, name, x), Name(name), y, With(j, name, y))
  {
  }

  lemma HeadReplaced(items: seq<Json>, x: Json, y: Json)
    requires |items| > 0
    ensures Replaced(Arr(items), Index(0), x, Arr(items[0 := x]))
    ensures Replaced(Arr(items[0 := x]), Index(0), y, Arr(items[0 := y]))
  {
  }

  // ----- the loop -----

  /** setPath: the cursor `cur` walks down from `dst`. */
  method SetPath(m: Memory, dst: nat, path: Path, value: Ref)
    modifies m
    ensures m.store == WriteAt(old(m.store), dst, path, value)
  {
    var cur := dst;
    var i := 0;
    while i < |path|
      invariant 0 <= i <= |path|
      invariant WriteAt(m.store, cur, path[i..], value) == WriteAt(old(m.store), dst, path, value)
    {
      assert path[i..][1..] == path[i + 1..];
      var seg := path[i];
      if seg.Bad? || !IsMap(m.store, Ptr(cur)) {
        return;
      }
      var slot := Name(seg.name);
      if seg.Key? {
        if i == |path| - 1 {
          if KidOr(m.store, cur, slot) == Scalar(Null) {
            m.store := Put(m.store, cur, slot, value);
          }
          return;
        }
        if !IsMap(m.store, KidOr(m.store, cur, slot)) {
          var next := m.Alloc(Map(map[]));
          m.store := Put(m.store, cur, slot, Ptr(next));
        }
        cur := AddrOf(KidOr(m.store, cur, slot));
      } else {
        if !IsFullSlice(m.store, KidOr(m.store, cur, slot)) {
          var elem := m.Alloc(Map(map[]));
          var arr := m.Alloc(Slice([Ptr(elem)]));
          m.store := Put(m.store, cur, slot, Ptr(arr));
        }
        if i == |path| - 1 {
          return;
        }
        var arr := AddrOf(KidOr(m.store, cur, slot));
        if !IsMap(m.store, KidOr(m.store, arr, Index(0))) {
          var elem := m.Alloc(Map(map[]));
          m.store := Put(m.store, arr, Index(0), Ptr(elem));
        }
        cur := AddrOf(KidOr(m.store, arr, Index(0)));
      }
      i := i + 1;
    }
  }
}
