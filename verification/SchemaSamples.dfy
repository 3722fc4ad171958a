/**
 * Sample values from a JSON schema with references that may be cyclic
 * (pkg/tools/build_flow_scenarios.go, pkg/tools/scenario_scaffold_live.go).
 */
module SchemaSamples {
  import opened JsonTree

  /** What stands under `items` or under one property: nothing, something that is no object, or a schema. */
  datatype Attribute = Missing | Malformed | Sub(node: Schema)

  /**
   * The parts of a schema object that the generator reads: `ref` is the name behind
   * `#/$defs/` or "", a null `literal` means no const, `kind` is the type or "".
   */
  datatype Schema = Schema(
    ref: string, choices: seq<Json>, literal: Json, kind: string,
    items: Attribute, hasProperties: bool, properties: map<string, Attribute>)

  type Defs = map<string, Schema>

  /** resolveSchemaNode: one step through a reference; a dangling one stays where it is. */
  function Resolve(defs: Defs, n: Schema): Schema {
    if n.ref != "" && n.ref in defs then defs[n.ref] else n
  }

  const MAX_DEPTH: nat := 5

  /** The declared type, or the one that `items` or `properties` imply. */
  function KindOf(n: Schema): string {
    if n.kind != "" then n.kind
    else if n.items != Missing then "array"
    else if n.hasProperties then "object"
    else ""
  }

  predicate IsNumeric(kind: string) { kind == "integer" || kind == "number" }

  predicate IsScalar(kind: string) { kind == "string" || kind == "boolean" || IsNumeric(kind) }

  const ZERO := Number("0")

  datatype Sample = NoSample | Some(value: Json)

  /** placeholderForSchema. */
  function Placeholder(defs: Defs, node: Schema, marker: string, depth: nat): Sample
    decreases MAX_DEPTH + 2 - depth, 1
  {
    var n := Resolve(defs, node);
    if depth > MAX_DEPTH then NoSample
    else if n.choices != [] then Some(n.choices[0])
    else if n.literal != Null then Some(n.literal)
    else
      var kind := KindOf(n);
      if kind == "string" then Some(Text(marker))
      else if IsNumeric(kind) then Some(ZERO)
      else if kind == "boolean" then Some(Flag(false))
      else if kind == "array" then Some(Arr([Element(defs, n, marker, depth)]))
      else if kind == "object" then Some(ObjectSample(defs, n, depth))
      else NoSample
  }

  /** The one element of an array sample: an empty object when the element schema gives nothing. */
  function Element(defs: Defs, n: Schema, marker: string, depth: nat): Json
    requires depth <= MAX_DEPTH
    decreases MAX_DEPTH + 2 - depth, 0
  {
    if n.items.Sub? then
      match Placeholder(defs, n.items.node, marker, depth + 1)
      case Some(v) => v
      case NoSample => EMPTY_OBJECT
    else EMPTY_OBJECT
  }

  /** One property of an object sample: scalars, and whatever a choice or a const fixes. */
  function PropertySample(defs: Defs, a: Attribute, name: string, depth: nat): Sample
    requires depth <= MAX_DEPTH
    decreases MAX_DEPTH + 1 - depth, 2
  {
    if !a.Sub? then NoSample
    else
      var child := Resolve(defs, a.node);
      if child.choices == [] && child.literal == Null && !IsScalar(child.kind) then NoSample
      else Placeholder(defs, child, "<" + name + ">", depth + 1)
  }

  function ObjectSample(defs: Defs, n: Schema, depth: nat): Json
    requires depth <= MAX_DEPTH
    decreases MAX_DEPTH + 1 - depth, 3
  {
    Obj(map k | k in n.properties && PropertySample(defs, n.properties[k], k, depth).Some?
          :: PropertySample(defs, n.properties[k], k, depth).value)
  }

  /** objectPlaceholder's loop. */
  method ObjectPlaceholder(defs: Defs, n: Schema, depth: nat) returns (out: Json)
    requires depth <= MAX_DEPTH
    ensures out == ObjectSample(defs, n, depth)
  {
    var fields: map<string, Json> := map[];
    var rest := n.properties.Keys;
    while rest != {}
      invariant rest <= n.properties.Keys
      invariant forall k :: k in fields <==>
        k in n.properties && k !in rest && PropertySample(defs, n.properties[k], k, depth).Some?
      invariant forall k :: k in fields ==> fields[k] == PropertySample(defs, n.properties[k], k, depth).value
      decreases |rest|
    {
      var k :| k in rest;
      var sample := PropertySample(defs, n.properties[k], k, depth);
      if sample.Some? {
        fields := fields[k := sample.value];
      }
      rest := rest - {k};
    }
    out := Obj(fields);
    SameObject(out, ObjectSample(defs, n, depth));
  }

  // ----- what the samples are -----

  /** What a schema fixes, or the sample of its scalar type. */
  predicate ShowsScalar(n: Schema, marker: string, v: Json) {
    && (n.choices != [] ==> v == n.choices[0])
    && (n.choices == [] && n.literal != Null ==> v == n.literal)
    && (n.choices == [] && n.literal == Null ==>
          && (n.kind == "string" ==> v == Text(marker))
          && (n.kind == "integer" || n.kind == "number" ==> v == Number("0"))
          && (n.kind == "boolean" ==> v == Flag(false)))
  }

  predicate GivesScalar(n: Schema) {
    n.choices != [] || n.literal != Null || n.kind in {"string", "integer", "number", "boolean"}
  }

  /** Within five levels the sample of a scalar or fixed schema is that value, and of a text its marker. */
  lemma ScalarSample(defs: Defs, node: Schema, marker: string, depth: nat)
    requires depth <= 5 && GivesScalar(Resolve(defs, node))
    ensures var p := Placeholder(defs, node, marker, depth);
      p.Some? && ShowsScalar(Resolve(defs, node), marker, p.value)
  {
  }

  lemma PropertyShown(defs: Defs, a: Attribute, k: string, depth: nat)
    requires depth <= 5
    requires a.Sub? ==> Resolve(defs, Resolve(defs, a.node)) == Resolve(defs, a.node)
    ensures var p := PropertySample(defs, a, k, depth);
      && (p.Some? <==> depth < 5 && a.Sub? && GivesScalar(Resolve(defs, a.node)))
      && (p.Some? ==> ShowsScalar(Resolve(defs, a.node), "<" + k + ">", p.value))
  {
    if a.Sub? && depth < 5 && GivesScalar(Resolve(defs, a.node)) {
      ScalarSample(defs, Resolve(defs, a.node), "<" + k + ">", depth + 1);
    }
  }

  /**
   * An object's sample shows a property exactly when its schema is scalar or fixes a value, and shows
   * that value, or a text that names the property; at the last level it shows none.
   */
  lemma ObjectShowsItsScalars(defs: Defs, node: Schema, marker: string, depth: nat, k: string)
    requires var n := Resolve(defs, node);
      && depth <= 5 && n.choices == [] && n.literal == Null
      && (n.kind == "object" || (n.kind == "" && n.items == Missing && n.hasProperties))
    requires OneStepProperties(defs, Resolve(defs, node))
    ensures var n, p := Resolve(defs, node), Placeholder(defs, node, marker, depth);
      && p.Some? && p.value.Obj?
      && (k in p.value.fields <==>
            && depth < 5 && k in n.properties && n.properties[k].Sub?
            && GivesScalar(Resolve(defs, n.properties[k].node)))
      && (k in p.value.fields ==>
            ShowsScalar(Resolve(defs, n.properties[k].node), "<" + k + ">", p.value.fields[k]))
  {
    var n := Resolve(defs, node);
    assert Placeholder(defs, node, marker, depth) == Some(ObjectSample(defs, n, depth));
    if k in n.properties { PropertyShown(defs, n.properties[k], k, depth); }
  }

  /** A reference counts as the definition behind it, and a dangling one as no reference. */
  lemma ReferenceSample(defs: Defs, node: Schema, marker: string, depth: nat)
    requires node.ref != ""
    ensures node.ref in defs && defs[node.ref].ref == "" ==>
      Placeholder(defs, node, marker, depth) == Placeholder(defs, defs[node.ref], marker, depth)
    ensures node.ref !in defs && !GivesScalar(node) ==>
      (Placeholder(defs, node, marker, depth).Some? <==>
        depth <= 5 && (node.kind == "array" || node.kind == "object"
                       || (node.kind == "" && (node.items != Missing || node.hasProperties))))
  {
  }

  /** An array's sample has one element: the sample of its element schema one level down, or an empty object. */
  lemma ArrayShowsOneElement(defs: Defs, node: Schema, marker: string, depth: nat)
    requires var n := Resolve(defs, node);
      && depth <= 5 && n.choices == [] && n.literal == Null
      && (n.kind == "array" || (n.kind == "" && n.items != Missing))
    ensures var n, p := Resolve(defs, node), Placeholder(defs, node, marker, depth);
      && p.Some? && p.value.Arr? && |p.value.items| == 1
      && (n.items.Sub? && Placeholder(defs, n.items.node, marker, depth + 1).Some? ==>
            p.value.items[0] == Placeholder(defs, n.items.node, marker, depth + 1).value)
      && (!n.items.Sub? || Placeholder(defs, n.items.node, marker, depth + 1).NoSample? ==>
            p.value.items[0] == Obj(map[]))
  {
  }

  // ----- conformance -----

  predicate HasKind(kind: string, v: Json) {
    (kind == "string" ==> v.Text?) && (IsNumeric(kind) ==> v.Number?) && (kind == "boolean" ==> v.Flag?)
    && (kind == "array" ==> v.Arr?) && (kind == "object" ==> v.Obj?)
  }

  /** The value meets the schema, itself and in every part that the schema speaks of. */
  predicate Conforms(defs: Defs, node: Schema, v: Json)
    decreases v
  {
    var n := Resolve(defs, node);
    && (n.choices != [] ==> v in n.choices)
    && (n.literal != Null ==> v == n.literal)
    && HasKind(n.kind, v)
    && (v.Arr? && n.items.Sub? ==> forall i :: 0 <= i < |v.items| ==> Conforms(defs, n.items.node, v.items[i]))
    && (v.Obj? ==> forall k :: k in v.fields && k in n.properties && n.properties[k].Sub? ==>
          Conforms(defs, n.properties[k].node, v.fields[k]))
  }

  predicate Fixed(n: Schema) { n.choices != [] || n.literal != Null }

  /** The value that a choice or const fixes. */
  function FixedValue(n: Schema): Json
    requires Fixed(n)
  {
    if n.choices != [] then n.choices[0] else n.literal
  }

  /** Something the generator can give a value to: a choice, a const, or one of the six types. */
  predicate Declared(n: Schema) {
    Fixed(n) || IsScalar(KindOf(n)) || KindOf(n) == "array" || KindOf(n) == "object"
  }

  /** An array whose element schema the generator goes on with. */
  predicate GoesOn(n: Schema) { !Fixed(n) && KindOf(n) == "array" && n.items.Sub? }

  /** The schema lets an empty object pass: no other type, and no choice or const but that one. */
  predicate AcceptsEmptyObject(n: Schema) {
    && (n.choices != [] ==> EMPTY_OBJECT in n.choices)
    && (n.literal != Null ==> n.literal == EMPTY_OBJECT)
    && (n.kind == "object" || !(IsScalar(n.kind) || n.kind == "array"))
  }

  /** What the schema fixes for the node, if anything, is a value that the schema accepts. */
  predicate Coherent(defs: Defs, node: Schema) {
    var n := Resolve(defs, node);
    Fixed(n) ==> Conforms(defs, node, FixedValue(n))
  }

  /** No property refers to a reference: the generator resolves a property's schema twice. */
  predicate OneStepProperties(defs: Defs, n: Schema) {
    forall k :: k in n.properties && n.properties[k].Sub? ==>
      Resolve(defs, Resolve(defs, n.properties[k].node)) == Resolve(defs, n.properties[k].node)
  }

  /** ... in the object, if any, that the array nesting below the node leads to. */
  predicate OneStep(defs: Defs, node: Schema, depth: nat)
    decreases MAX_DEPTH + 1 - depth
  {
    var n := Resolve(defs, node);
    depth <= MAX_DEPTH ==>
      if GoesOn(n) then OneStep(defs, n.items.node, depth + 1)
      else !Fixed(n) && KindOf(n) == "object" ==> OneStepProperties(defs, n)
  }

  /**
   * The condition on the schema: down its array nesting, the level at which the generator stops or
   * has nothing to go by accepts an empty object; and a choice or const that it shows, there or in
   * an object's properties, is coherent.
   */
  predicate Fits(defs: Defs, node: Schema, depth: nat)
    decreases MAX_DEPTH + 1 - depth
  {
    var n := Resolve(defs, node);
    if depth > MAX_DEPTH || !Declared(n) then AcceptsEmptyObject(n)
    else if Fixed(n) then Coherent(defs, node)
    else if GoesOn(n) then Fits(defs, n.items.node, depth + 1)
    else KindOf(n) == "object" && depth < MAX_DEPTH ==>
      forall k :: k in n.properties && n.properties[k].Sub? ==> Coherent(defs, n.properties[k].node)
  }

  lemma EmptyObjectConformsIff(defs: Defs, node: Schema)
    ensures Conforms(defs, node, EMPTY_OBJECT) <==> AcceptsEmptyObject(Resolve(defs, node))
  {
  }

  /** A property that an object sample shows conforms exactly when what it fixes is coherent. */
  lemma PropertyConformsIff(defs: Defs, a: Attribute, name: string, depth: nat)
    requires depth <= MAX_DEPTH && a.Sub?
    requires Resolve(defs, Resolve(defs, a.node)) == Resolve(defs, a.node)
    ensures var p := PropertySample(defs, a, name, depth);
      && (p.Some? ==> (Conforms(defs, a.node, p.value) <==> Coherent(defs, a.node)))
      && (Fixed(Resolve(defs, a.node)) && depth < MAX_DEPTH ==> p.Some?)
  {
  }

  lemma ObjectConformsIff(defs: Defs, node: Schema, depth: nat)
    requires var n := Resolve(defs, node);
      depth <= MAX_DEPTH && !Fixed(n) && KindOf(n) == "object" && OneStepProperties(defs, n)
    ensures Conforms(defs, node, ObjectSample(defs, Resolve(defs, node), depth)) <==> Fits(defs, node, depth)
  {
    var n := Resolve(defs, node);
    var v := ObjectSample(defs, n, depth);
    forall k | k in n.properties && n.properties[k].Sub?
      ensures k in v.fields ==> (Conforms(defs, n.properties[k].node, v.fields[k])
                                 <==> Coherent(defs, n.properties[k].node))
      ensures k !in v.fields && depth < MAX_DEPTH ==> Coherent(defs, n.properties[k].node)
    {
      PropertyConformsIff(defs, n.properties[k], k, depth);
    }
    if depth == MAX_DEPTH {
      forall k | k in n.properties ensures k !in v.fields {
      }
    }
  }

  /**
   * There is a sample exactly within the depth limit and for a declared schema, and the schema
   * accepts it exactly when the schema fits.
   */
  lemma {:induction false} SampleConformsIff(defs: Defs, node: Schema, marker: string, depth: nat)
    requires OneStep(defs, node, depth)
    ensures var p := Placeholder(defs, node, marker, depth);
      && (p.Some? <==> depth <= MAX_DEPTH && Declared(Resolve(defs, node)))
      && (p.Some? ==> (Conforms(defs, node, p.value) <==> Fits(defs, node, depth)))
    decreases MAX_DEPTH + 1 - depth
  {
    var n := Resolve(defs, node);
    if depth <= MAX_DEPTH && Declared(n) && !Fixed(n) {
      if KindOf(n) == "array" {
        ArrayConformsIff(defs, node, marker, depth);
        if n.items.Sub? {
          SampleConformsIff(defs, n.items.node, marker, depth + 1);
          EmptyObjectConformsIff(defs, n.items.node);
        }
      } else if KindOf(n) == "object" {
        ObjectConformsIff(defs, node, depth);
      }
    }
  }

  lemma ArrayConformsIff(defs: Defs, node: Schema, marker: string, depth: nat)
    requires var n := Resolve(defs, node); depth <= MAX_DEPTH && !Fixed(n) && KindOf(n) == "array"
    ensures var n := Resolve(defs, node);
      Conforms(defs, node, Placeholder(defs, node, marker, depth).value)
      <==> (n.items.Sub? ==> Conforms(defs, n.items.node, Element(defs, n, marker, depth)))
  {
    var v := Placeholder(defs, node, marker, depth).value;
    assert v.items[0] == Element(defs, Resolve(defs, node), marker, depth);
  }

  /**
   * In particular: when the array nesting ends before the cut-off in declared schemas, and what the
   * schema fixes is coherent, there is a sample and it conforms.
   */
  lemma SampleConforms(defs: Defs, node: Schema, marker: string, depth: nat)
    requires Within(defs, node, depth) && OneStep(defs, node, depth)
    ensures Placeholder(defs, node, marker, depth).Some?
    ensures Conforms(defs, node, Placeholder(defs, node, marker, depth).value)
  {
    SampleConformsIff(defs, node, marker, depth);
    WithinFits(defs, node, depth);
  }

  predicate Within(defs: Defs, node: Schema, depth: nat)
    decreases MAX_DEPTH + 1 - depth
  {
    var n := Resolve(defs, node);
    && depth <= MAX_DEPTH && Declared(n) && Coherent(defs, node)
    && (forall k :: k in n.properties && n.properties[k].Sub? ==> Coherent(defs, n.properties[k].node))
    && (GoesOn(n) ==> Within(defs, n.items.node, depth + 1))
  }

  lemma {:induction false} WithinFits(defs: Defs, node: Schema, depth: nat)
    requires Within(defs, node, depth)
    ensures Fits(defs, node, depth)
    decreases MAX_DEPTH + 1 - depth
  {
    var n := Resolve(defs, node);
    if GoesOn(n) { WithinFits(defs, n.items.node, depth + 1); }
  }

  // ----- the cut-off -----

  /** `height` arrays inside each other, references or not, around a scalar. */
  predicate Tower(defs: Defs, node: Schema, height: nat)
    decreases height
  {
    var n := Resolve(defs, node);
    if height == 0 then !Fixed(n) && IsScalar(n.kind)
    else GoesOn(n) && n.kind == "array" && Tower(defs, n.items.node, height - 1)
  }

  lemma {:induction false} TowerFitsIff(defs: Defs, node: Schema, height: nat, depth: nat)
    requires Tower(defs, node, height) && depth <= MAX_DEPTH + 1
    ensures OneStep(defs, node, depth) && (Fits(defs, node, depth) <==> depth + height <= MAX_DEPTH)
    decreases height
  {
    var n := Resolve(defs, node);
    if height > 0 && depth <= MAX_DEPTH {
      TowerFitsIff(defs, n.items.node, height - 1, depth + 1);
    }
  }

  /**
   * Below the cut-off the innermost element is an empty object whatever was declared, so a tower of
   * arrays around a scalar gets a conforming sample exactly when its scalar lies within the limit.
   */
  lemma TowerConformsIff(defs: Defs, node: Schema, height: nat, marker: string, depth: nat)
    requires Tower(defs, node, height) && depth <= MAX_DEPTH
    ensures Placeholder(defs, node, marker, depth).Some?
    ensures Conforms(defs, node, Placeholder(defs, node, marker, depth).value) <==> depth + height <= MAX_DEPTH
  {
    TowerFitsIff(defs, node, height, depth);
    SampleConformsIff(defs, node, marker, depth);
  }

  /** An array that is its own element type. */
  predicate CyclicArray(defs: Defs, node: Schema) {
    var n := Resolve(defs, node);
    GoesOn(n) && n.kind == "array" && Resolve(defs, n.items.node) == n
  }

  lemma {:induction false} CyclicArrayNeverFits(defs: Defs, node: Schema, depth: nat)
    requires CyclicArray(defs, node) && depth <= MAX_DEPTH + 1
    ensures OneStep(defs, node, depth) && !Fits(defs, node, depth)
    decreases MAX_DEPTH + 1 - depth
  {
    if depth <= MAX_DEPTH { CyclicArrayNeverFits(defs, Resolve(defs, node).items.node, depth + 1); }
  }

  /** For an array of itself the generator stops, and the sample it stops with never conforms. */
  lemma CyclicArrayNeverConforms(defs: Defs, node: Schema, marker: string)
    requires CyclicArray(defs, node)
    ensures Placeholder(defs, node, marker, 0).Some?
    ensures !Conforms(defs, node, Placeholder(defs, node, marker, 0).value)
  {
    CyclicArrayNeverFits(defs, node, 0);
    SampleConformsIff(defs, node, marker, 0);
  }
}
