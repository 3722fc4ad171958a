/**
 * The path writer and the path reader of scenario scaffolding
 * (setPath in pkg/tools/build_flow_scenarios.go, walkExample in pkg/tools/schema_required.go).
 */
module ScenarioPaths {
  import opened JsonTree

  /** One dotted segment as segmentRe splits it: `name`, `name[0]` or `name[*]`, or no match. */
  datatype Seg = Bad | Key(name: string) | At(name: string)

  /** A path is never empty: strings.Split yields at least one part. */
  type Path = p: seq<Seg> | |p| > 0 witness [Bad]

  predicate Readable(p: seq<Seg>) { forall s <- p :: !s.Bad? }

  /** The object behind a field, or a new one in its place. */
  function ObjectOr(j: Json): Json { if j.Obj? then j else EMPTY_OBJECT }

  /** The array behind a field, or a new one with one object in its place. */
  function ItemsOr(j: Json): (items: seq<Json>)
    ensures |items| > 0
  {
    if j.Arr? && |j.items| > 0 then j.items else [EMPTY_OBJECT]
  }

  /** setPath: what the walk leaves behind in `d`. */
  function Set(d: Json, p: seq<Seg>, v: Json): (r: Json)
    ensures d.Obj? ==> r.Obj?
    decreases |p|
  {
    if p == [] || p[0].Bad? || !d.Obj? then d
    else
      var k := p[0].name;
      if p[0].Key? then
        if |p| == 1 then (if Field(d, k) == Null then With(d, k, v) else d)
        else With(d, k, Set(ObjectOr(Field(d, k)), p[1..], v))
      else
        var items := ItemsOr(Field(d, k));
        if |p| == 1 then With(d, k, Arr(items))
        else With(d, k, Arr(items[0 := Set(ObjectOr(items[0]), p[1..], v)]))
  }

  /** walkExample. */
  function Walk(d: Json, p: seq<Seg>): Json
    decreases |p|
  {
    if p == [] then d
    else if p[0].Bad? || !d.Obj? then Null
    else
      var x := Field(d, p[0].name);
      if p[0].Key? then Walk(x, p[1..])
      else if x.Arr? && |x.items| > 0 then Walk(x.items[0], p[1..])
      else Null
  }

  lemma WalkNull(p: seq<Seg>)
    ensures Walk(Null, p) == Null
  {
  }

  // ----- read after write -----

  /** Reading back a plain leaf gives the old value if there was one, and the written one otherwise. */
  lemma {:induction false} ReadAfterWrite(d: Json, p: Path, v: Json)
    requires d.Obj? && Readable(p) && p[|p| - 1].Key?
    ensures Walk(Set(d, p, v), p) == if Walk(d, p) != Null then Walk(d, p) else v
    decreases |p|
  {
    var x := Field(d, p[0].name);
    if |p| == 1 {
      assert Walk(x, p[1..]) == x;
    } else if p[0].Key? {
      ReadAfterWrite(ObjectOr(x), p[1..], v);
    } else {
      ReadAfterWrite(ObjectOr(ItemsOr(x)[0]), p[1..], v);
    }
  }

  /** The arrays along an indexed path all exist and are not empty. */
  predicate ArraysThere(d: Json, p: seq<Seg>)
    decreases |p|
  {
    p != [] && !p[0].Bad? && d.Obj? &&
    var x := Field(d, p[0].name);
    if p[0].Key? then |p| == 1 || ArraysThere(x, p[1..])
    else x.Arr? && |x.items| > 0 && (|p| == 1 || ArraysThere(x.items[0], p[1..]))
  }

  /** A path that ends in an index never writes the value: it only makes sure of one element. */
  lemma {:induction false} IndexedLeafIgnoresValue(d: Json, p: Path, v: Json)
    requires d.Obj? && Readable(p) && p[|p| - 1].At?
    ensures Walk(Set(d, p, v), p) == if ArraysThere(d, p) then Walk(d, p) else EMPTY_OBJECT
    decreases |p|
  {
    var x := Field(d, p[0].name);
    if |p| == 1 {
      assert forall y :: Walk(y, p[1..]) == y;
    } else if p[0].Key? {
      IndexedLeafIgnoresValue(ObjectOr(x), p[1..], v);
    } else {
      IndexedLeafIgnoresValue(ObjectOr(ItemsOr(x)[0]), p[1..], v);
    }
  }

  // ----- divergent paths -----

  /** After a common start the paths go to differently named fields. */
  predicate Diverge(p: seq<Seg>, q: seq<Seg>)
    decreases |p|
  {
    p != [] && q != [] && !p[0].Bad? && !q[0].Bad? &&
    (p[0].name != q[0].name || (p[0] == q[0] && Diverge(p[1..], q[1..])))
  }

  lemma {:induction false} DivergeSymmetric(p: seq<Seg>, q: seq<Seg>)
    requires Diverge(p, q)
    ensures Diverge(q, p)
    decreases |p|
  {
    if p[0].name == q[0].name { DivergeSymmetric(p[1..], q[1..]); }
  }

  /** A write changes nothing that a divergent path reads. */
  lemma {:induction false} DivergentReadsUnchanged(d: Json, p: seq<Seg>, q: seq<Seg>, v: Json)
    requires Diverge(p, q)
    ensures Walk(Set(d, p, v), q) == Walk(d, q)
    decreases |p|
  {
    if d.Obj? && p[0].name == q[0].name {
      var x := Field(d, p[0].name);
      if p[0].Key? {
        DivergentReadsUnchanged(ObjectOr(x), p[1..], q[1..], v);
        if !x.Obj? { EmptyReadsNull(q[1..]); }
      } else {
        DivergentReadsUnchanged(ObjectOr(ItemsOr(x)[0]), p[1..], q[1..], v);
        EmptyReadsNull(q[1..]);
      }
    }
  }

  lemma EmptyReadsNull(q: seq<Seg>)
    requires q != []
    ensures Walk(EMPTY_OBJECT, q) == Null && forall j: Json :: !j.Obj? ==> Walk(j, q) == Null
  {
    WalkNull(q[1..]);
  }

  /** What a write does to the one field it goes through. */
  function FieldAfter(x: Json, p: seq<Seg>, v: Json): Json
    requires p != [] && !p[0].Bad?
  {
    if p[0].Key? then
      if |p| == 1 then (if x == Null then v else x) else Set(ObjectOr(x), p[1..], v)
    else if |p| == 1 then Arr(ItemsOr(x))
    else Arr(ItemsOr(x)[0 := Set(ObjectOr(ItemsOr(x)[0]), p[1..], v)])
  }

  /** A write touches the field its first segment names, and creates it if it was missing. */
  lemma SetIsFieldAfter(d: Json, p: seq<Seg>, v: Json)
    requires d.Obj? && p != [] && !p[0].Bad?
    ensures Set(d, p, v) == With(d, p[0].name, FieldAfter(Field(d, p[0].name), p, v))
  {
    var k := p[0].name;
    if p[0].Key? && |p| == 1 && Field(d, k) != Null {
      assert d.fields[k := d.fields[k]] == d.fields;
    }
  }

  lemma SetElsewhere(d: Json, p: seq<Seg>, q: seq<Seg>, v: Json, w: Json)
    requires d.Obj? && p != [] && q != [] && !p[0].Bad? && !q[0].Bad? && p[0].name != q[0].name
    ensures Set(Set(d, p, v), q, w) == Set(Set(d, q, w), p, v)
  {
    var j, k := p[0].name, q[0].name;
    var x, y := FieldAfter(Field(d, j), p, v), FieldAfter(Field(d, k), q, w);
    SetIsFieldAfter(d, p, v);
    SetIsFieldAfter(d, q, w);
    SetIsFieldAfter(Set(d, p, v), q, w);
    SetIsFieldAfter(Set(d, q, w), p, v);
    assert d.fields[j := x][k := y] == d.fields[k := y][j := x];
  }

  /** Two writes through one field are one write of that field. */
  lemma SetTwice(d: Json, p: seq<Seg>, q: seq<Seg>, v: Json, w: Json)
    requires d.Obj? && p != [] && q != [] && !p[0].Bad? && !q[0].Bad? && p[0].name == q[0].name
    ensures Set(Set(d, p, v), q, w)
         == With(d, p[0].name, FieldAfter(FieldAfter(Field(d, p[0].name), p, v), q, w))
  {
    var k := p[0].name;
    var x := FieldAfter(Field(d, k), p, v);
    SetIsFieldAfter(d, p, v);
    SetIsFieldAfter(With(d, k, x), q, w);
    assert d.fields[k := x][k := FieldAfter(x, q, w)] == d.fields[k := FieldAfter(x, q, w)];
  }

  /** The part of a field that a longer path goes on in. */
  function Below(x: Json, seg: Seg): Json { if seg.Key? then ObjectOr(x) else ObjectOr(ItemsOr(x)[0]) }

  lemma FieldsCommute(x: Json, p: seq<Seg>, q: seq<Seg>, v: Json, w: Json)
    requires |p| > 1 && |q| > 1 && p[0] == q[0] && !p[0].Bad?
    requires var y := Below(x, p[0]); Set(Set(y, p[1..], v), q[1..], w) == Set(Set(y, q[1..], w), p[1..], v)
    ensures FieldAfter(FieldAfter(x, p, v), q, w) == FieldAfter(FieldAfter(x, q, w), p, v)
  {
    var y := Below(x, p[0]);
    if p[0].At? {
      FieldAfterTwice(ItemsOr(x), Set(y, p[1..], v), q, w);
      FieldAfterTwice(ItemsOr(x), Set(y, q[1..], w), p, v);
    }
  }

  lemma FieldAfterTwice(items: seq<Json>, y: Json, q: seq<Seg>, w: Json)
    requires |items| > 0 && |q| > 1 && q[0].At? && y.Obj?
    ensures FieldAfter(Arr(items[0 := y]), q, w) == Arr(items[0 := Set(y, q[1..], w)])
  {
    assert items[0 := y][0 := Set(y, q[1..], w)] == items[0 := Set(y, q[1..], w)];
  }

  /** Writes to divergent paths commute, whatever their values. */
  lemma {:induction false} DivergentWritesCommute(d: Json, p: seq<Seg>, q: seq<Seg>, v: Json, w: Json)
    requires Diverge(p, q)
    ensures Set(Set(d, p, v), q, w) == Set(Set(d, q, w), p, v)
    decreases |p|
  {
    if d.Obj? {
      if p[0].name == q[0].name {
        var x := Field(d, p[0].name);
        DivergentWritesCommute(Below(x, p[0]), p[1..], q[1..], v, w);
        FieldsCommute(x, p, q, v, w);
        SetTwice(d, p, q, v, w);
        SetTwice(d, q, p, w, v);
      } else {
        SetElsewhere(d, p, q, v, w);
      }
    }
  }

  // ----- conflict-free path sets -----

  /** Some name is a plain object to one path and an array to the other, at the same place. */
  predicate Conflict(p: seq<Seg>, q: seq<Seg>)
    decreases |p|
  {
    p != [] && q != [] && !p[0].Bad? && !q[0].Bad? && p[0].name == q[0].name &&
    if p[0] == q[0] then Conflict(p[1..], q[1..])
    else if p[0].Key? then |p| > 1
    else |q| > 1
  }

  /** Every array has a first element that is not null, where an indexed path may look. */
  predicate HeadsFull(j: Json) {
    match j
    case Arr(items) => |items| > 0 ==> items[0] != Null && HeadsFull(items[0])
    case Obj(fields) => forall k :: k in fields ==> HeadsFull(fields[k])
    case _ => true
  }

  /** A write of anything but null takes no value away from a path that does not conflict with it. */
  lemma {:induction false} WritesKeepReads(d: Json, p: seq<Seg>, q: seq<Seg>, v: Json)
    requires !Conflict(p, q) && v != Null && Walk(d, q) != Null
    ensures Walk(Set(d, p, v), q) != Null
    decreases |p|
  {
    if p != [] && q != [] && d.Obj? && !p[0].Bad? && p[0].name == q[0].name {
      var x := Field(d, p[0].name);
      if |p| == 1 {
        if p[0].Key? {
          WalkNull(q[1..]);
          if q[0].At? { assert x != Null; }
        } else if q[0].Key? {
          assert |q| == 1;
        }
      } else if p[0].Key? {
        if |q| > 1 {
          assert x.Obj?;
          WritesKeepReads(x, p[1..], q[1..], v);
        }
      } else if q[0].At? && |q| > 1 {
        assert x.items[0].Obj?;
        WritesKeepReads(x.items[0], p[1..], q[1..], v);
      }
    }
  }

  /** ... and a conflicting write always takes it away, leaving the path unreadable. */
  lemma {:induction false} ConflictDestroys(d: Json, p: seq<Seg>, q: seq<Seg>, v: Json)
    requires d.Obj? && Conflict(p, q) && Readable(q)
    ensures Walk(Set(d, p, v), q) == Null
    decreases |p|
  {
    var x := Field(d, p[0].name);
    if p[0] == q[0] {
      if p[0].Key? {
        ConflictDestroys(ObjectOr(x), p[1..], q[1..], v);
      } else {
        ConflictDestroys(ObjectOr(ItemsOr(x)[0]), p[1..], q[1..], v);
      }
    } else if p[0].Key? {
      assert Field(Set(d, p, v), p[0].name).Obj?;
    } else {
      assert Field(Set(d, p, v), p[0].name).Arr?;
    }
  }

  /** A second write spoils a first one exactly when the two paths conflict. */
  lemma SecondWriteSpoilsIff(d: Json, p: Path, q: Path, v: Json, w: Json)
    requires d.Obj? && Readable(p) && Readable(q) && p[|p| - 1].Key? && v != Null && w != Null
    ensures Walk(Set(Set(d, p, v), q, w), p) == Null <==> Conflict(q, p)
  {
    ReadAfterWrite(d, p, v);
    if Conflict(q, p) {
      ConflictDestroys(Set(d, p, v), q, p, w);
    } else {
      WritesKeepReads(Set(d, p, v), q, p, w);
    }
  }

  datatype Write = Write(path: Path, value: Json)

  function SetAll(d: Json, writes: seq<Write>): (r: Json)
    ensures d.Obj? ==> r.Obj?
    decreases |writes|
  {
    if writes == [] then d
    else Set(SetAll(d, writes[..|writes| - 1]), writes[|writes| - 1].path, writes[|writes| - 1].value)
  }

  /** No two of the paths conflict, none is malformed, and no value is null. */
  predicate ConflictFree(writes: seq<Write>) {
    && (forall w <- writes :: Readable(w.path) && w.value != Null)
    && (forall a <- writes, b <- writes :: !Conflict(a.path, b.path))
  }

  lemma {:induction false} SetKeepsHeadsFull(d: Json, p: seq<Seg>, v: Json)
    requires HeadsFull(d) && HeadsFull(v)
    ensures HeadsFull(Set(d, p, v))
    decreases |p|
  {
    if p != [] && !p[0].Bad? && d.Obj? && |p| > 1 {
      var x := Field(d, p[0].name);
      if p[0].Key? {
        SetKeepsHeadsFull(ObjectOr(x), p[1..], v);
      } else {
        SetKeepsHeadsFull(ObjectOr(ItemsOr(x)[0]), p[1..], v);
      }
    }
  }

  lemma {:induction false} SetAllKeepsHeadsFull(d: Json, writes: seq<Write>)
    requires HeadsFull(d) && forall w <- writes :: HeadsFull(w.value)
    ensures HeadsFull(SetAll(d, writes))
    decreases |writes|
  {
    if writes != [] {
      SetAllKeepsHeadsFull(d, writes[..|writes| - 1]);
      SetKeepsHeadsFull(SetAll(d, writes[..|writes| - 1]), writes[|writes| - 1].path, writes[|writes| - 1].value);
    }
  }

  lemma {:induction false} HeadsFullWalk(d: Json, p: seq<Seg>)
    requires HeadsFull(d) && ArraysThere(d, p) && p[|p| - 1].At?
    ensures Walk(d, p) != Null
    decreases |p|
  {
    var x := Field(d, p[0].name);
    if |p| > 1 {
      HeadsFullWalk(if p[0].Key? then x else x.items[0], p[1..]);
    }
  }

  /** One write makes its own path readable. */
  lemma WriteMakesReadable(d: Json, w: Write)
    requires d.Obj? && Readable(w.path) && w.value != Null
    requires w.path[|w.path| - 1].Key? || HeadsFull(d)
    ensures Walk(Set(d, w.path, w.value), w.path) != Null
  {
    if w.path[|w.path| - 1].Key? {
      ReadAfterWrite(d, w.path, w.value);
    } else {
      IndexedLeafIgnoresValue(d, w.path, w.value);
      if ArraysThere(d, w.path) { HeadsFullWalk(d, w.path); }
    }
  }

  /**
   * After conflict-free writes in any order, Go's map order included, every path reads a value:
   * the writes are any list, so every order of one set of writes is covered. For a path that
   * itself ends in an index, no array may start with null.
   */
  lemma {:induction false} EveryPathReadable(d: Json, writes: seq<Write>, i: nat)
    requires d.Obj? && ConflictFree(writes) && i < |writes|
    requires writes[i].path[|writes[i].path| - 1].Key? || (HeadsFull(d) && forall w <- writes :: HeadsFull(w.value))
    ensures Walk(SetAll(d, writes), writes[i].path) != Null
    decreases |writes|
  {
    var n := |writes| - 1;
    var front, last := writes[..n], writes[n];
    assert last in writes && forall w <- front :: w in writes;
    if i == n {
      if last.path[|last.path| - 1].At? { SetAllKeepsHeadsFull(d, front); }
      WriteMakesReadable(SetAll(d, front), last);
    } else {
      EveryPathReadable(d, front, i);
      assert front[i] == writes[i] && writes[i] in writes;
      WritesKeepReads(SetAll(d, front), last.path, writes[i].path, last.value);
    }
  }

  /** What every write must be for its own path to read a value right after it. */
  predicate Proper(d: Json, writes: seq<Write>) {
    && (forall w <- writes :: Readable(w.path) && w.value != Null)
    && ((forall w <- writes :: w.path[|w.path| - 1].Key?)
        || (HeadsFull(d) && forall w <- writes :: HeadsFull(w.value)))
  }

  predicate NoConflicts(writes: seq<Write>) { forall a <- writes, b <- writes :: !Conflict(a.path, b.path) }

  /** The same writes in some order. */
  predicate IsOrder(order: seq<Write>, writes: seq<Write>) { multiset(order) == multiset(writes) }

  ghost predicate AllReadable(d: Json, order: seq<Write>) {
    forall w <- order :: Walk(SetAll(d, order), w.path) != Null
  }

  lemma OrderHasSameWrites(order: seq<Write>, writes: seq<Write>, w: Write)
    requires IsOrder(order, writes)
    ensures w in order <==> w in writes
  {
    assert w in multiset(order) <==> w in multiset(writes);
  }

  /** The order that leaves the i-th write for last. */
  lemma LastWrite(writes: seq<Write>, i: nat) returns (order: seq<Write>)
    requires i < |writes|
    ensures IsOrder(order, writes) && order[|order| - 1] == writes[i]
  {
    order := writes[..i] + writes[i + 1..] + [writes[i]];
    assert writes == writes[..i] + [writes[i]] + writes[i + 1..];
  }

  /** Every order of the writes leaves every path readable exactly when no two of the paths conflict. */
  lemma EveryOrderReadableIff(d: Json, writes: seq<Write>)
    requires d.Obj? && Proper(d, writes)
    ensures (forall order :: IsOrder(order, writes) ==> AllReadable(d, order)) <==> NoConflicts(writes)
  {
    if NoConflicts(writes) {
      forall order | IsOrder(order, writes) ensures AllReadable(d, order) {
        OrderReadable(d, order, writes);
      }
    } else {
      var a, b :| a in writes && b in writes && Conflict(a.path, b.path);
      var i :| 0 <= i < |writes| && writes[i] == a;
      var order := LastWrite(writes, i);
      OrderHasSameWrites(order, writes, b);
      ConflictDestroys(SetAll(d, order[..|order| - 1]), a.path, b.path, a.value);
      assert !AllReadable(d, order);
    }
  }

  lemma OrderReadable(d: Json, order: seq<Write>, writes: seq<Write>)
    requires d.Obj? && Proper(d, writes) && NoConflicts(writes) && IsOrder(order, writes)
    ensures AllReadable(d, order)
  {
    forall w | w in order ensures w in writes { OrderHasSameWrites(order, writes, w); }
    forall w | w in order ensures Walk(SetAll(d, order), w.path) != Null {
      var i :| 0 <= i < |order| && order[i] == w;
      EveryPathReadable(d, order, i);
    }
  }

  /** walkExample's loop. */
  method WalkExample(example: Json, path: Path) returns (r: Json)
    ensures r == Walk(example, path)
  {
    var cur := example;
    var i := 0;
    while i < |path|
      invariant 0 <= i <= |path|
      invariant Walk(cur, path[i..]) == Walk(example, path)
    {
      assert path[i..][1..] == path[i + 1..];
      var seg := path[i];
      if seg.Bad? || !cur.Obj? {
        return Null;
      }
      if seg.name !in cur.fields {
        WalkNull(path[i + 1..]);
        return Null;
      }
      cur := cur.fields[seg.name];
      if seg.At? {
        if !cur.Arr? || |cur.items| == 0 {
          return Null;
        }
        cur := cur.items[0];
      }
      i := i + 1;
    }
    assert path[i..] == [];
    r := cur;
  }
}
