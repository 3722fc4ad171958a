/**
 * What masking does to a JSON value (pkg/redact/redact.go, pkg/redact/authored.go, pkg/redact/shape.go).
 * Which keys hold credentials and how a credential shape is cut out of a text are parameters.
 */
module Redaction {
  import opened JsonTree
  import opened JsonHeap

  const VALUE := "<redacted>"

  type Secrets = string -> bool
  type Shapes = string -> string

  /** A template reference: it names a secret, it does not hold one. */
  predicate IsExpression(s: string) { exists i :: 0 <= i < |s| - 1 && s[i] == '{' && s[i + 1] == '{' }

  predicate MaskableText(key: string, s: string, secret: Secrets) { s != "" && !IsExpression(s) && secret(key) }

  /** Every text under a secret key replaced, at any depth. */
  function Masked(key: string, j: Json, secret: Secrets): (r: Json)
    ensures IsContainer(r) <==> IsContainer(j)
    decreases j
  {
    match j
    case Text(s) => if MaskableText(key, s, secret) then Text(VALUE) else j
    case Arr(items) => Arr(seq(|items|, i requires 0 <= i < |items| => Masked(key, items[i], secret)))
    case Obj(fields) => Obj(map k | k in fields :: Masked(k, fields[k], secret))
    case _ => j
  }

  /** Some text in the value would be replaced. */
  predicate Maskable(key: string, j: Json, secret: Secrets)
    decreases j
  {
    match j
    case Text(s) => MaskableText(key, s, secret)
    case Arr(items) => exists i :: 0 <= i < |items| && Maskable(key, items[i], secret)
    case Obj(fields) => exists k :: k in fields && Maskable(k, fields[k], secret)
    case _ => false
  }

  /** Every text with its credential shapes cut out, at any depth. */
  function Shaped(j: Json, shapes: Shapes): (r: Json)
    ensures IsContainer(r) <==> IsContainer(j)
  {
    match j
    case Text(s) => Text(shapes(s))
    case Arr(items) => Arr(seq(|items|, i requires 0 <= i < |items| => Shaped(items[i], shapes)))
    case Obj(fields) => Obj(map k | k in fields :: Shaped(fields[k], shapes))
    case _ => j
  }

  /** Some text in the value has a credential shape. */
  predicate ShapeHit(j: Json, shapes: Shapes) {
    match j
    case Text(s) => shapes(s) != s
    case Arr(items) => exists i :: 0 <= i < |items| && ShapeHit(items[i], shapes)
    case Obj(fields) => exists k :: k in fields && ShapeHit(fields[k], shapes)
    case _ => false
  }

  /** Masking again changes nothing: the mask itself stays what it is. */
  lemma {:induction false} MaskedTwice(key: string, j: Json, secret: Secrets)
    ensures Masked(key, Masked(key, j, secret), secret) == Masked(key, j, secret)
    decreases j
  {
    match j
    case Arr(items) =>
      forall i | 0 <= i < |items|
        ensures Masked(key, Masked(key, items[i], secret), secret) == Masked(key, items[i], secret)
      {
        MaskedTwice(key, items[i], secret);
      }
    case Obj(fields) =>
      forall k | k in fields ensures Masked(k, Masked(k, fields[k], secret), secret) == Masked(k, fields[k], secret) {
        MaskedTwice(k, fields[k], secret);
      }
    case _ =>
  }

  /** A value without maskable text is left as it is. */
  lemma {:induction false} UnmaskableIsKept(key: string, j: Json, secret: Secrets)
    requires !Maskable(key, j, secret)
    ensures Masked(key, j, secret) == j
    decreases j
  {
    match j
    case Arr(items) =>
      forall i | 0 <= i < |items| ensures Masked(key, items[i], secret) == items[i] {
        UnmaskableIsKept(key, items[i], secret);
      }
    case Obj(fields) =>
      forall k | k in fields ensures Masked(k, fields[k], secret) == fields[k] {
        UnmaskableIsKept(k, fields[k], secret);
      }
    case _ =>
  }

  /** Nothing maskable is left, except the mask itself. */
  lemma {:induction false} NothingLeft(key: string, j: Json, secret: Secrets)
    ensures forall k, s :: Holds(key, Masked(key, j, secret), k, s) ==> !MaskableText(k, s, secret) || s == VALUE
    decreases j
  {
    forall k, s | Holds(key, Masked(key, j, secret), k, s)
      ensures !MaskableText(k, s, secret) || s == VALUE
    {
      match j
      case Arr(items) =>
        var i :| 0 <= i < |items| && Holds(key, Masked(key, items[i], secret), k, s);
        NothingLeft(key, items[i], secret);
      case Obj(fields) =>
        var n :| n in fields && Holds(n, Masked(n, fields[n], secret), k, s);
        NothingLeft(n, fields[n], secret);
      case _ =>
    }
  }

  /** The text `s` sits somewhere in the value, under the key `k`. */
  predicate Holds(key: string, j: Json, k: string, s: string)
    decreases j
  {
    match j
    case Text(t) => k == key && s == t
    case Arr(items) => exists i :: 0 <= i < |items| && Holds(key, items[i], k, s)
    case Obj(fields) => exists n :: n in fields && Holds(n, fields[n], k, s)
    case _ => false
  }

  /** The value keeps its structure and its other texts: only maskable texts changed. */
  lemma {:induction false} OtherTextsStay(key: string, j: Json, secret: Secrets, k: string, s: string)
    requires Holds(key, j, k, s) && !MaskableText(k, s, secret)
    ensures Holds(key, Masked(key, j, secret), k, s)
    decreases j
  {
    match j
    case Arr(items) =>
      var i :| 0 <= i < |items| && Holds(key, items[i], k, s);
      OtherTextsStay(key, items[i], secret, k, s);
      assert Masked(key, j, secret).items[i] == Masked(key, items[i], secret);
    case Obj(fields) =>
      var n :| n in fields && Holds(n, fields[n], k, s);
      OtherTextsStay(n, fields[n], secret, k, s);
      assert Masked(key, j, secret).fields[n] == Masked(n, fields[n], secret);
    case _ =>
  }

  lemma {:induction false} UnshapedIsKept(j: Json, shapes: Shapes)
    ensures Shaped(j, shapes) == j <==> !ShapeHit(j, shapes)
    decreases j
  {
    match j
    case Arr(items) =>
      forall i | 0 <= i < |items| ensures Shaped(items[i], shapes) == items[i] <==> !ShapeHit(items[i], shapes) {
        UnshapedIsKept(items[i], shapes);
      }
      if Shaped(j, shapes) == j {
        forall i | 0 <= i < |items| ensures Shaped(items[i], shapes) == items[i] {
          assert Shaped(j, shapes).items[i] == items[i];
        }
      }
    case Obj(fields) =>
      forall k | k in fields ensures Shaped(fields[k], shapes) == fields[k] <==> !ShapeHit(fields[k], shapes) {
        UnshapedIsKept(fields[k], shapes);
      }
      if Shaped(j, shapes) == j {
        forall k | k in fields ensures Shaped(fields[k], shapes) == fields[k] {
          assert Shaped(j, shapes).fields[k] == fields[k];
        }
      }
    case _ =>
  }

  // ----- place by place -----

  /** Going down through the value this way leads to `x`. */
  predicate Leads(j: Json, way: seq<Slot>, x: Json)
    decreases |way|
  {
    if way == [] then j == x else Has(j, way[0]) && Leads(Part(j, way[0]), way[1..], x)
  }

  /** The name last gone through; elements of an array stand under the array's own name. */
  function KeyAlong(key: string, way: seq<Slot>): string
    decreases |way|
  {
    if way == [] then key else KeyAlong(if way[0].Name? then way[0].k else key, way[1..])
  }

  /** A text under a secret name, not empty and without two opening braces in a row, gives way to the mask. */
  function TextRedacted(key: string, s: string, secret: Secrets): string {
    if secret(key) && s != "" && forall i :: 0 <= i && i + 1 < |s| ==> !(s[i] == s[i + 1] == '{')
    then "<redacted>" else s
  }

  /** The container is one of the same kind, with the same places. */
  ghost predicate SamePlaces(x: Json, y: Json) {
    IsContainer(y) && (x.Arr? <==> y.Arr?) && forall t: Slot :: Has(x, t) <==> Has(y, t)
  }

  /** What is to become of the text `s` under the name `k`. */
  type Change = (string, string) -> string

  /** What must stand where `x` stood: a changed text, another scalar as it is, a container alike. */
  ghost predicate Stands(key: string, x: Json, y: Json, change: Change) {
    && (x.Text? ==> y == Text(change(key, x.text)))
    && (!x.Text? && !IsContainer(x) ==> y == x)
    && (IsContainer(x) ==> SamePlaces(x, y))
  }

  ghost predicate StandsAt(key: string, x: Json, r: Json, way: seq<Slot>, change: Change) {
    exists y :: Leads(r, way, y) && Stands(key, x, y, change)
  }

  /** The result differs from the value in its texts alone, and in each as the change says. */
  ghost predicate Rewrites(key: string, j: Json, r: Json, change: Change) {
    forall way, x :: Leads(j, way, x) ==> StandsAt(KeyAlong(key, way), x, r, way, change)
  }

  lemma {:induction false} MaskedAlong(key: string, j: Json, secret: Secrets, way: seq<Slot>, x: Json)
    requires Leads(j, way, x)
    ensures Leads(Masked(key, j, secret), way, Masked(KeyAlong(key, way), x, secret))
    decreases |way|
  {
    if way != [] {
      var k := if way[0].Name? then way[0].k else key;
      assert Part(Masked(key, j, secret), way[0]) == Masked(k, Part(j, way[0]), secret);
      MaskedAlong(k, Part(j, way[0]), secret, way[1..], x);
    }
  }

  lemma {:induction false} ShapedAlong(j: Json, shapes: Shapes, way: seq<Slot>, x: Json)
    requires Leads(j, way, x)
    ensures Leads(Shaped(j, shapes), way, Shaped(x, shapes))
    decreases |way|
  {
    if way != [] {
      assert Part(Shaped(j, shapes), way[0]) == Shaped(Part(j, way[0]), shapes);
      ShapedAlong(Part(j, way[0]), shapes, way[1..], x);
    }
  }

  lemma MaskedStands(key: string, x: Json, secret: Secrets)
    ensures Stands(key, x, Masked(key, x, secret), (k, s) => TextRedacted(k, s, secret))
  {
  }

  lemma ShapedStands(key: string, x: Json, shapes: Shapes)
    ensures Stands(key, x, Shaped(x, shapes), (k, s) => shapes(s))
  {
  }

  /**
   * Masking, place by place: every text that stands under a secret name, is not empty and has no two
   * opening braces in a row becomes the mask, at any depth; everything else stays.
   */
  lemma MaskedRewrites(key: string, j: Json, secret: Secrets)
    ensures Rewrites(key, j, Masked(key, j, secret), (k, s) => TextRedacted(k, s, secret))
  {
    var change: Change := (k, s) => TextRedacted(k, s, secret);
    forall way, x | Leads(j, way, x)
      ensures StandsAt(KeyAlong(key, way), x, Masked(key, j, secret), way, change)
    {
      MaskedAlong(key, j, secret, way, x);
      MaskedStands(KeyAlong(key, way), x, secret);
    }
  }

  /** Masking by name and then by shape, place by place. */
  lemma RedactedRewrites(j: Json, secret: Secrets, shapes: Shapes)
    ensures Rewrites("", j, Shaped(Masked("", j, secret), shapes), (k, s) => shapes(TextRedacted(k, s, secret)))
  {
    var change: Change := (k, s) => shapes(TextRedacted(k, s, secret));
    forall way, x | Leads(j, way, x)
      ensures StandsAt(KeyAlong("", way), x, Shaped(Masked("", j, secret), shapes), way, change)
    {
      var k := KeyAlong("", way);
      MaskedAlong("", j, secret, way, x);
      ShapedAlong(Masked("", j, secret), shapes, way, Masked(k, x, secret));
      MaskedStands(k, x, secret);
      ShapedStands(k, Masked(k, x, secret), shapes);
    }
  }
}
