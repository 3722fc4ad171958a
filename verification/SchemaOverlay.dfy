/** Overlaying a schema's definitions with configured ones (pkg/schema/schema.go). */
module SchemaOverlay {
  import opened Text

  /** A definition: the attributes the overlay looks at, its explicit properties, and the rest of it. */
  datatype Def = Def(
    path: Option<string>, configurable: Option<bool>, shared: Option<bool>, readonly: Option<bool>,
    required: Option<string>, properties: map<string, string>, rest: string)

  type Defs = map<string, Def>

  predicate HasProperties(d: Def) { d.properties != map[] }

  // ----- the path table -----

  /** The configured definition has this path; an empty path does not count. */
  predicate AtPath(d: Def, p: string) { p != "" && d.path == Some(p) }

  ghost predicate Collected(confs: Defs, p: string) { exists k :: k in confs && AtPath(confs[k], p) }

  ghost predicate RichlyCollected(confs: Defs, p: string) {
    exists k :: k in confs && AtPath(confs[k], p) && HasProperties(confs[k])
  }

  /**
   * The path has an entry when it is collected: some definition with that path, and a rich one
   * whenever there is one.
   */
  ghost predicate EntryStands(table: Defs, confs: Defs, p: string) {
    && (p in table <==> Collected(confs, p))
    && (p in table ==> exists k :: k in confs && confs[k] == table[p] && AtPath(confs[k], p))
    && (p in table ==> (HasProperties(table[p]) <==> RichlyCollected(confs, p)))
  }

  /** One definition per collected path. Which of several comes out depends on the map order. */
  ghost predicate IsPathTable(table: Defs, confs: Defs) { forall p :: EntryStands(table, confs, p) }

  method BuildPathTable(confs: Defs) returns (table: Defs)
    ensures IsPathTable(table, confs)
  {
    table := map[];
    ghost var seen: Defs := map[];
    var rest := confs.Keys;
    while rest != {}
      invariant rest <= confs.Keys && seen.Keys == confs.Keys - rest
      invariant forall k :: k in seen ==> seen[k] == confs[k]
      invariant IsPathTable(table, seen)
      decreases |rest|
    {
      var k :| k in rest;
      var conf := confs[k];
      ghost var was, more := table, seen[k := conf];
      if conf.path.Some? && conf.path.value != "" {
        var p := conf.path.value;
        if p !in table || !HasProperties(table[p]) {
          table := table[p := conf];
        }
      }
      TableStep(was, seen, k, conf, more, table);
      seen := more;
      rest := rest - {k};
    }
    assert seen == confs;
  }

  /** What one more definition adds for a path. */
  lemma OneMore(seen: Defs, k: string, conf: Def, p: string)
    requires k !in seen
    ensures Collected(seen[k := conf], p) <==> Collected(seen, p) || AtPath(conf, p)
    ensures RichlyCollected(seen[k := conf], p)
       <==> RichlyCollected(seen, p) || (AtPath(conf, p) && HasProperties(conf))
  {
    var more := seen[k := conf];
    assert k in more && more[k] == conf;
    forall j | j in seen ensures j in more && more[j] == seen[j] {
    }
  }

  lemma TableStep(table: Defs, seen: Defs, k: string, conf: Def, more: Defs, after: Defs)
    requires IsPathTable(table, seen) && k !in seen && more == seen[k := conf]
    requires after == if conf.path.Some? && conf.path.value != ""
                         && (conf.path.value !in table || !HasProperties(table[conf.path.value]))
                      then table[conf.path.value := conf] else table
    ensures IsPathTable(after, more)
  {
    forall p ensures EntryStands(after, more, p) {
      OneMore(seen, k, conf, p);
      assert EntryStands(table, seen, p);
      if p in table {
        var j :| j in seen && seen[j] == table[p] && AtPath(seen[j], p);
        assert j in more && more[j] == table[p];
      }
      assert k in more && more[k] == conf;
    }
  }

  // ----- one definition -----

  predicate Rich(table: Defs, path: Option<string>) {
    path.Some? && path.value != "" && path.value in table && HasProperties(table[path.value])
  }

  /**
   * The configured definition that meets the schema's own one: by name, unless it is bare where the
   * path has a rich one; else by path.
   */
  function Chosen(confs: Defs, table: Defs, key: string, own: Def): Option<Def> {
    if key in confs then
      if !HasProperties(confs[key]) && Rich(table, own.path) then Some(table[own.path.value])
      else Some(confs[key])
    else if own.path.Some? && own.path.value != "" && own.path.value in table then Some(table[own.path.value])
    else None
  }

  function Flag(b: Option<bool>): bool { b.Some? && b.value }

  /** The configured definition with the schema's own attributes. */
  function Overlaid(own: Def, conf: Def): Def {
    Def(if own.path.Some? then own.path else conf.path,
        Some(Flag(own.configurable)),
        if own.shared.Some? then own.shared else conf.shared,
        if Flag(own.readonly) then Some(true) else conf.readonly,
        None, conf.properties, conf.rest)
  }

  /** A bare definition never masks one that has properties. */
  predicate Masks(conf: Def, own: Def) { !HasProperties(conf) && HasProperties(own) }

  function Overlay(confs: Defs, table: Defs, key: string, own: Def): Def {
    var conf := Chosen(confs, table, key, own);
    if conf.Some? && !Masks(conf.value, own) then Overlaid(own, conf.value) else own
  }

  /** The overlay never loses shape, and has properties exactly when the own or the chosen definition has. */
  lemma OverlayKeepsShape(confs: Defs, table: Defs, key: string, own: Def)
    ensures var conf := Chosen(confs, table, key, own);
      HasProperties(Overlay(confs, table, key, own))
      <==> HasProperties(own) || (conf.Some? && HasProperties(conf.value))
  {
  }

  /** What the overlay keeps of the own definition, and what it takes away. */
  lemma OverlayKeepsIdentity(confs: Defs, table: Defs, key: string, own: Def)
    ensures var r := Overlay(confs, table, key, own); var conf := Chosen(confs, table, key, own);
      && (own.path.Some? ==> r.path == own.path)
      && Flag(r.configurable) == Flag(own.configurable)
      && (own.shared.Some? ==> r.shared == own.shared)
      && (Flag(own.readonly) ==> Flag(r.readonly))
      && (r == own || (r.required == None && conf.Some? && r.properties == conf.value.properties))
      && (conf.Some? && !Masks(conf.value, own) ==> r.required == None)
  {
  }

  /** `r` is the configured definition, under the own path, configurable, shared and readonly attributes. */
  predicate TakenFrom(r: Def, own: Def, conf: Def) {
    && r.properties == conf.properties && r.rest == conf.rest && r.required == None
    && (own.path.Some? ==> r.path == own.path) && (own.path.None? ==> r.path == conf.path)
    && (own.configurable == Some(true) ==> r.configurable == Some(true))
    && (own.configurable != Some(true) ==> r.configurable == Some(false))
    && (own.shared.Some? ==> r.shared == own.shared) && (own.shared.None? ==> r.shared == conf.shared)
    && (own.readonly == Some(true) ==> r.readonly == Some(true))
    && (own.readonly != Some(true) ==> r.readonly == conf.readonly)
  }

  /** What a bare configured definition leaves of one with properties, and any other makes of it. */
  predicate Meets(r: Def, own: Def, conf: Def) {
    if conf.properties == map[] && own.properties != map[] then r == own else TakenFrom(r, own, conf)
  }

  /**
   * Whom a definition meets: the configured one of its name; at a path that has a rich one, that one if
   * its namesake is bare; the path's when there is no namesake; and else nobody, and it stays as it is.
   */
  lemma OverlayMeets(confs: Defs, table: Defs, key: string, own: Def)
    ensures var r := Overlay(confs, table, key, own);
      var listed := own.path.Some? && own.path.value != "" && own.path.value in table;
      var rich := listed && table[own.path.value].properties != map[];
      && (key in confs && (confs[key].properties != map[] || !rich) ==> Meets(r, own, confs[key]))
      && (key in confs && confs[key].properties == map[] && rich ==> Meets(r, own, table[own.path.value]))
      && (key !in confs && listed ==> Meets(r, own, table[own.path.value]))
      && (key !in confs && !listed ==> r == own)
  {
  }

  lemma TablesAgree(confs: Defs, s: Defs, t: Defs, p: string)
    requires IsPathTable(s, confs) && IsPathTable(t, confs)
    ensures p in s <==> p in t
    ensures p in s ==> (HasProperties(s[p]) <==> HasProperties(t[p]))
  {
    assert EntryStands(s, confs, p) && EntryStands(t, confs, p);
  }

  /** What the overlay's shape depends on, for a definition of the given path. */
  lemma SameRichness(confs: Defs, s: Defs, t: Defs, key: string, own: Def)
    requires own.path.Some? ==> (own.path.value in s <==> own.path.value in t)
    requires own.path.Some? && own.path.value in s ==>
      (HasProperties(s[own.path.value]) <==> HasProperties(t[own.path.value]))
    ensures HasProperties(Overlay(confs, s, key, own)) <==> HasProperties(Overlay(confs, t, key, own))
    ensures Overlay(confs, s, key, own).required == Overlay(confs, t, key, own).required
  {
  }

  /** Whatever the map order, the same definitions come out with properties. */
  lemma RichnessIgnoresOrder(confs: Defs, s: Defs, t: Defs, key: string, own: Def)
    requires IsPathTable(s, confs) && IsPathTable(t, confs)
    ensures HasProperties(Overlay(confs, s, key, own)) <==> HasProperties(Overlay(confs, t, key, own))
    ensures Overlay(confs, s, key, own).required == Overlay(confs, t, key, own).required
  {
    if own.path.Some? { TablesAgree(confs, s, t, own.path.value); }
    SameRichness(confs, s, t, key, own);
  }

  /**
   * The one way in which a second overlay differs: a definition without a path took one over from a
   * bare configured definition of its own name, and now meets a rich one by that path.
   */
  predicate TakesNewPath(confs: Defs, table: Defs, key: string, own: Def) {
    && own.path.None? && !HasProperties(own)
    && key in confs && !HasProperties(confs[key]) && Rich(table, confs[key].path)
  }

  /** With one path table the overlay is idempotent exactly on the other definitions. */
  lemma OverlayIdempotentIff(confs: Defs, table: Defs, key: string, own: Def)
    ensures var once := Overlay(confs, table, key, own);
      Overlay(confs, table, key, once) == once <==> !TakesNewPath(confs, table, key, own)
  {
    var once := Overlay(confs, table, key, own);
    if TakesNewPath(confs, table, key, own) {
      assert once.path == confs[key].path;
      assert Chosen(confs, table, key, once) == Some(table[once.path.value]);
      assert HasProperties(Overlay(confs, table, key, once));
    } else if own.path.Some? {
      assert once.path == own.path;
    }
  }

  /** A second overlay that differs: a bare C and a rich D share the path that C's own definition lacks. */
  const OWN_C := Def(None, None, None, None, None, map[], "")
  const BARE_C := Def(Some("$.c"), None, None, None, None, map[], "")
  const RICH_D := Def(Some("$.c"), None, None, None, None, map["x" := "string"], "")
  const CONFIGURED: Defs := map["C" := BARE_C, "D" := RICH_D]

  lemma SecondOverlayExample(table: Defs)
    requires IsPathTable(table, CONFIGURED)
    ensures TakesNewPath(CONFIGURED, table, "C", OWN_C)
    ensures var once := Overlay(CONFIGURED, table, "C", OWN_C);
      !HasProperties(once) && HasProperties(Overlay(CONFIGURED, table, "C", once))
  {
    assert "x" in RICH_D.properties;
    assert "D" in CONFIGURED && AtPath(RICH_D, "$.c") && HasProperties(CONFIGURED["D"]);
    assert EntryStands(table, CONFIGURED, "$.c");
  }

  // ----- the whole schema -----

  class Schema {
    // $defs; None when the schema has none.
    var defs: Option<Defs>

    constructor (defs: Option<Defs>)
      ensures this.defs == defs
    {
      this.defs := defs;
    }

    /**
     * UpdateWithDefinitions: every definition overlaid in place with one path table, none added
     * and none lost. Without $defs nothing changes.
     */
    method UpdateWithDefinitions(confs: Defs) returns (ghost table: Defs)
      modifies this
      ensures IsPathTable(table, confs)
      ensures old(defs).None? <==> defs.None?
      ensures defs.Some? ==>
        && defs.value.Keys == old(defs).value.Keys
        && forall k :: k in defs.value ==> defs.value[k] == Overlay(confs, table, k, old(defs).value[k])
    {
      var pathToConf := BuildPathTable(confs);
      table := pathToConf;
      if defs.Some? {
        OverlayAll(confs, pathToConf);
      }
    }

    method OverlayAll(confs: Defs, pathToConf: Defs)
      requires defs.Some?
      modifies this
      ensures defs.Some? && defs.value.Keys == old(defs).value.Keys
      ensures forall k :: k in defs.value ==> defs.value[k] == Overlay(confs, pathToConf, k, old(defs).value[k])
    {
      ghost var own := defs.value;
      var rest := defs.value.Keys;
      while rest != {}
        invariant defs.Some? && defs.value.Keys == own.Keys && rest <= own.Keys
        invariant forall k :: k in own ==>
          defs.value[k] == if k in rest then own[k] else Overlay(confs, pathToConf, k, own[k])
        decreases |rest|
      {
        var key :| key in rest;
        var def := OverlayOne(confs, pathToConf, key, defs.value[key]);
        defs := Some(defs.value[key := def]);
        rest := rest - {key};
      }
    }
  }

  /** The body of the loop over the definitions. */
  method OverlayOne(confs: Defs, pathToConf: Defs, key: string, def: Def) returns (r: Def)
    ensures r == Overlay(confs, pathToConf, key, def)
  {
    var ok, conf := key in confs, def;
    if ok {
      conf := confs[key];
    }
    if ok && !HasProperties(conf) && def.path.Some? && def.path.value != "" {
      var p := def.path.value;
      if p in pathToConf && HasProperties(pathToConf[p]) {
        conf := pathToConf[p];
      }
    }
    if !ok && def.path.Some? && def.path.value != "" {
      ok := def.path.value in pathToConf;
      if ok {
        conf := pathToConf[def.path.value];
      }
    }
    if !ok || (!HasProperties(conf) && HasProperties(def)) {
      return def;
    }
    var copy := conf;
    if def.path.Some? {
      copy := copy.(path := def.path);
    }
    copy := copy.(configurable := Some(Flag(def.configurable)));
    if def.shared.Some? {
      copy := copy.(shared := def.shared);
    }
    if Flag(def.readonly) {
      copy := copy.(readonly := Some(true));
    }
    r := copy.(required := None);
  }
}
