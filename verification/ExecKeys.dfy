/**
 * Key layout of the execution KV bucket (internal/scheduler/reconciler.go, pkg/state/jetstream.go):
 * exec/<runID>/step/<stepKey> holds a completion record, exec/<runID>/redrive/<stepKey> a counter.
 */
module ExecKeys {
  import opened Text
  import RunKeys

  datatype KeyRef =
    | StepRef(run: string, step: string)
    | RedriveRef(run: string, step: string)

  /** The raw key that failStep writes. */
  function StepKvKey(run: string, step: string): string { "exec/" + run + "/step/" + step }

  /** redriveKey. */
  function RedriveKvKey(run: string, step: string): string { "exec/" + run + "/redrive/" + step }

  function KvKey(ref: KeyRef): string {
    match ref
    case StepRef(run, step) => StepKvKey(run, step)
    case RedriveRef(run, step) => RedriveKvKey(run, step)
  }

  /** How readLedger takes a key apart; None for keys it skips. */
  function ParseKey(k: string): Option<KeyRef> {
    var parts := SplitN(k, '/', 4);
    if |parts| != 4 || parts[0] != "exec" then None
    else if parts[2] == "redrive" then Some(RedriveRef(parts[1], parts[3]))
    else if parts[2] == "step" then Some(StepRef(parts[1], parts[3]))
    else None
  }

  function Four(a: string, b: string, c: string, d: string): string {
    a + ['/'] + (b + ['/'] + (c + ['/'] + d))
  }

  lemma SplitTwo(c: string, d: string)
    requires '/' !in c
    ensures SplitN(c + ['/'] + d, '/', 2) == [c, d]
  {
    SplitNPeel(c, '/', d, 2);
  }

  lemma SplitThree(b: string, c: string, d: string)
    requires '/' !in b && '/' !in c
    ensures SplitN(b + ['/'] + (c + ['/'] + d), '/', 3) == [b, c, d]
  {
    SplitTwo(c, d);
    SplitNPeel(b, '/', c + ['/'] + d, 3);
  }

  lemma PeelFirst(a: string, rest: string, b: string, c: string, d: string)
    requires '/' !in a && SplitN(rest, '/', 3) == [b, c, d]
    ensures SplitN(a + ['/'] + rest, '/', 4) == [a, b, c, d]
  {
    SplitNPeel(a, '/', rest, 4);
    assert [a] + [b, c, d] == [a, b, c, d];
  }

  lemma SplitFour(whole: string, a: string, b: string, c: string, d: string)
    requires '/' !in a && '/' !in b && '/' !in c && whole == Four(a, b, c, d)
    ensures SplitN(whole, '/', 4) == [a, b, c, d]
  {
    var rest := b + ['/'] + (c + ['/'] + d);
    SplitThree(b, c, d);
    PeelFirst(a, rest, b, c, d);
    assert whole == a + ['/'] + rest;
  }

  lemma StepSpelling(run: string, step: string)
    ensures StepKvKey(run, step) == Four("exec", run, "step", step)
  {
    assert "exec/" == "exec" + ['/'] && "/step/" == ['/'] + "step" + ['/'];
  }

  lemma RedriveSpelling(run: string, step: string)
    ensures RedriveKvKey(run, step) == Four("exec", run, "redrive", step)
  {
    assert "exec/" == "exec" + ['/'] && "/redrive/" == ['/'] + "redrive" + ['/'];
  }

  lemma SplitStepKey(run: string, step: string)
    requires '/' !in run
    ensures SplitN(StepKvKey(run, step), '/', 4) == ["exec", run, "step", step]
  {
    StepSpelling(run, step);
    SplitFour(StepKvKey(run, step), "exec", run, "step", step);
  }

  lemma SplitRedriveKey(run: string, step: string)
    requires '/' !in run
    ensures SplitN(RedriveKvKey(run, step), '/', 4) == ["exec", run, "redrive", step]
  {
    RedriveSpelling(run, step);
    SplitFour(RedriveKvKey(run, step), "exec", run, "redrive", step);
  }

  /** Keys of slash-free run ids parse back to what they were built from, step keys with slashes included. */
  lemma ParseBuilt(ref: KeyRef)
    requires '/' !in ref.run
    ensures ParseKey(KvKey(ref)) == Some(ref)
  {
    match ref
    case StepRef(run, step) => SplitStepKey(run, step);
    case RedriveRef(run, step) => SplitRedriveKey(run, step);
  }

  lemma JoinFour(p: seq<string>)
    requires |p| == 4
    ensures Join(p, '/') == Four(p[0], p[1], p[2], p[3])
  {
    var q := p[1..];
    var r := q[1..];
    assert Join(r[1..], '/') == p[3];
    assert Join(r, '/') == p[2] + ['/'] + p[3];
    assert Join(q, '/') == p[1] + ['/'] + Join(r, '/');
  }

  /** Every key that parses is the one built from what it parses to. */
  lemma BuiltParsed(k: string)
    requires ParseKey(k).Some?
    ensures KvKey(ParseKey(k).value) == k && '/' !in ParseKey(k).value.run
  {
    var p := SplitN(k, '/', 4);
    JoinSplitN(k, '/', 4);
    JoinFour(p);
    StepSpelling(p[1], p[3]);
    RedriveSpelling(p[1], p[3]);
  }

  /**
   * The key of a step parses back to it exactly when the run id has no slash; any other run's keys
   * are filed under another run, or under none.
   */
  lemma ParsesBackIff(ref: KeyRef)
    ensures ParseKey(KvKey(ref)) == Some(ref) <==> '/' !in ref.run
  {
    if '/' !in ref.run {
      ParseBuilt(ref);
    } else if ParseKey(KvKey(ref)).Some? {
      BuiltParsed(KvKey(ref));
    }
  }

  // ----- the state store's side: sanitized, namespaced keys (pkg/state/jetstream.go) -----

  predicate KvSafe(c: char) {
    'a' <= c <= 'z' || 'A' <= c <= 'Z' || '0' <= c <= '9' || c in "-_/.="
  }

  /** The characters that stay, by their codes: small and capital letters, digits, and - _ / . = in that order. */
  lemma AllowedCharacters(c: char)
    ensures SanitizeKey([c]) == [c] <==>
      var code := c as int;
      97 <= code <= 122 || 65 <= code <= 90 || 48 <= code <= 57 || code in {45, 95, 47, 46, 61}
    ensures SanitizeKey([c]) == [c] || SanitizeKey([c]) == "_"
  {
    assert SanitizeKey([c]) == [if KvSafe(c) then c else '_'];
  }

  predicate Clean(s: string) { forall c <- s :: KvSafe(c) }

  function SanitizeKey(k: string): (r: string)
    ensures |r| == |k|
    ensures forall i :: 0 <= i < |k| ==> r[i] == (if KvSafe(k[i]) then k[i] else '_')
  {
    seq(|k|, i requires 0 <= i < |k| => if KvSafe(k[i]) then k[i] else '_')
  }

  lemma SanitizeClean(k: string)
    requires Clean(k)
    ensures SanitizeKey(k) == k
  {
  }

  lemma SanitizeIdempotent(k: string)
    ensures Clean(SanitizeKey(k)) && SanitizeKey(SanitizeKey(k)) == SanitizeKey(k)
  {
  }

  lemma SanitizeConcat(a: string, b: string)
    ensures SanitizeKey(a + b) == SanitizeKey(a) + SanitizeKey(b)
  {
  }

  function Namespace(runId: string): string { SanitizeKey("exec/" + runId + "/") }

  /** JetStreamState.full. */
  function FullKey(runId: string, key: string): string { Namespace(runId) + SanitizeKey(key) }

  function StepLedgerKey(stepKey: string): string { "step/" + stepKey }

  /**
   * The key the runner writes through the state store is the key the reconciler reads and
   * writes raw, exactly when sanitizing alters neither id.
   */
  lemma StoreAndReconcilerAgree(runId: string, stepKey: string)
    ensures FullKey(runId, StepLedgerKey(stepKey)) == StepKvKey(runId, stepKey) <==> Clean(runId) && Clean(stepKey)
  {
    SanitizeConcat("exec/" + runId + "/", "step/" + stepKey);
    var raw := "exec/" + runId + "/" + ("step/" + stepKey);
    assert raw == StepKvKey(runId, stepKey);
    assert FullKey(runId, StepLedgerKey(stepKey)) == SanitizeKey(raw);
    if SanitizeKey(raw) == raw {
      SanitizeIdempotent(raw);
      assert forall c <- runId :: c in raw;
      assert forall c <- stepKey :: c in raw;
    } else if Clean(runId) && Clean(stepKey) {
      SanitizeClean(raw);
    }
  }

  /** ... and then it parses back to the same run and step. */
  lemma StoreKeyRoundTrips(runId: string, stepKey: string)
    requires Clean(runId) && '/' !in runId && Clean(stepKey)
    ensures ParseKey(FullKey(runId, StepLedgerKey(stepKey))) == Some(StepRef(runId, stepKey))
  {
    StoreAndReconcilerAgree(runId, stepKey);
    ParseBuilt(StepRef(runId, stepKey));
  }

  lemma {:induction false} HexIsClean(h: nat, width: nat)
    ensures Clean(RunKeys.Hex(h, width))
    decreases width
  {
    if width > 0 { HexIsClean(h / 16, width - 1); }
  }

  lemma {:induction false} ChainKeysAreClean(runId: string, parent: string, edges: seq<(string, nat)>)
    requires Clean(runId) && Clean(parent)
    ensures Clean(RunKeys.ChainKey(runId, parent, edges))
    decreases |edges|
  {
    if edges != [] {
      HexIsClean(RunKeys.Fnv(RunKeys.Preimage(parent, edges[0].0, edges[0].1)), 16);
      ChainKeysAreClean(runId, RunKeys.StepKeyFor(runId, parent, edges[0].0, edges[0].1), edges[1..]);
    }
  }

  /**
   * So the runner and the reconciler agree on every key of every run the runtime starts, whose id is a
   * UUID: on its first step's and on each one reached from it, whatever the edges are called.
   */
  lemma RuntimeKeysAgree(runId: string, edges: seq<(string, nat)>)
    requires forall c <- runId :: '0' <= c <= '9' || 'a' <= c <= 'f' || c == '-'
    ensures var key := RunKeys.ChainKey(runId, runId + ".root", edges);
      && FullKey(runId, StepLedgerKey(key)) == StepKvKey(runId, key)
      && ParseKey(StepKvKey(runId, key)) == Some(StepRef(runId, key))
      && ParseKey(RedriveKvKey(runId, key)) == Some(RedriveRef(runId, key))
  {
    var key := RunKeys.ChainKey(runId, runId + ".root", edges);
    assert Clean(".root");
    ChainKeysAreClean(runId, runId + ".root", edges);
    StoreAndReconcilerAgree(runId, key);
    ParseBuilt(StepRef(runId, key));
    ParseBuilt(RedriveRef(runId, key));
  }

  /** Namespaces of distinct clean slash-free run ids share no key. */
  lemma NamespacesDisjoint(r: string, s: string, k: string)
    requires Clean(r) && Clean(s) && '/' !in r && '/' !in s
    requires HasPrefix(k, Namespace(r)) && HasPrefix(k, Namespace(s))
    ensures r == s
  {
    SanitizeClean("exec/" + r + "/");
    SanitizeClean("exec/" + s + "/");
    var t := k[5..];
    assert k[..|r| + 6] == "exec/" + r + "/" && k[..|s| + 6] == "exec/" + s + "/";
    assert t[..|r| + 1] == k[..|r| + 6][5..] == r + "/";
    assert t[..|s| + 1] == k[..|s| + 6][5..] == s + "/";
    assert t == r + ['/'] + t[|r| + 1..];
    assert t == s + ['/'] + t[|s| + 1..];
    IndexOfAfter(r, '/', t[|r| + 1..]);
    IndexOfAfter(s, '/', t[|s| + 1..]);
    assert r == t[..|r|] && s == t[..|s|];
  }
}
