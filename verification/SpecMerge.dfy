/** Reconciling a SPIRE operand: our spec is merged into the stored one, so that
    our fields hold our values and fields of other controllers are kept. */
module SpecMerge {
  import opened Strings
  import opened Json

  /** `src` over `dst`: objects are merged, anything else of ours wins. */
  function Overlay(dst: Value, src: Value): Value
    decreases src, 1
  {
    if dst.Obj? && src.Obj? then Merge(dst, src) else src
  }

  function Merge(dst: Value, src: Value): (r: Value)
    requires dst.Obj? && src.Obj?
    ensures r.Obj?
    decreases src, 0
  {
    Obj(map k | k in dst.fields.Keys + src.fields.Keys ::
      if k !in src.fields then dst.fields[k]
      else if k !in dst.fields then src.fields[k]
      else Overlay(dst.fields[k], src.fields[k]))
  }

  // ---------- which paths change ----------

  /** The path leaves our spec at an object of ours. */
  predicate Unnamed(src: Value, path: seq<string>)
    decreases |path|
  {
    src.Obj? && path != [] && (path[0] in src.fields ==> Unnamed(src.fields[path[0]], path[1..]))
  }

  /** Every leaf of our spec is in the merged spec. */
  lemma {:induction false} NamedPathsHoldOurs(dst: Value, src: Value, path: seq<string>)
    requires At(src, path).Some? && !At(src, path).value.Obj?
    ensures At(Overlay(dst, src), path) == At(src, path)
    decreases |path|
  {
    if dst.Obj? && src.Obj? && path[0] in dst.fields {
      NamedPathsHoldOurs(dst.fields[path[0]], src.fields[path[0]], path[1..]);
    }
  }

  /** Every path we do not name keeps what it had. */
  lemma {:induction false} UnnamedPathsAreKept(dst: Value, src: Value, path: seq<string>)
    requires Unnamed(src, path)
    ensures At(Overlay(dst, src), path) == At(dst, path)
    decreases |path|
  {
    if path[0] in src.fields {
      if dst.Obj? && path[0] in dst.fields {
        UnnamedPathsAreKept(dst.fields[path[0]], src.fields[path[0]], path[1..]);
      } else {
        UnnamedIsAbsent(src.fields[path[0]], path[1..]);
      }
    }
  }

  lemma {:induction false} UnnamedIsAbsent(src: Value, path: seq<string>)
    requires Unnamed(src, path)
    ensures At(src, path) == None
    decreases |path|
  {
    if path[0] in src.fields { UnnamedIsAbsent(src.fields[path[0]], path[1..]); }
  }

  /** A path is unnamed, below a leaf of ours, or leads to a value of ours. */
  lemma {:induction false} EveryPathIsOneOfThree(src: Value, path: seq<string>)
    ensures Unnamed(src, path) || At(src, path).Some?
            || exists i :: 0 <= i < |path| && At(src, path[..i]).Some? && !At(src, path[..i]).value.Obj?
    decreases |path|
  {
    if path != [] && src.Obj? && path[0] in src.fields {
      EveryPathIsOneOfThree(src.fields[path[0]], path[1..]);
      if i :| 0 <= i < |path| - 1 && At(src.fields[path[0]], path[1..][..i]).Some?
              && !At(src.fields[path[0]], path[1..][..i]).value.Obj? {
        assert path[..i + 1][1..] == path[1..][..i];
        assert At(src, path[..i + 1]) == At(src.fields[path[0]], path[1..][..i]);
      }
    } else if path != [] && !src.Obj? {
      assert At(src, path[..0]) == Some(src);
    }
  }

  // ---------- fixpoint ----------

  /** Everything our spec says already holds. */
  predicate Agrees(dst: Value, src: Value)
    decreases src
  {
    if src.Obj? then dst.Obj? && forall k :: k in src.fields ==> k in dst.fields && Agrees(dst.fields[k], src.fields[k])
    else dst == src
  }

  lemma {:induction false} AgreesWithItself(v: Value)
    ensures Agrees(v, v)
  {
    if v.Obj? {
      forall k | k in v.fields ensures Agrees(v.fields[k], v.fields[k]) { AgreesWithItself(v.fields[k]); }
    }
  }

  lemma {:induction false} MergedAgrees(dst: Value, src: Value)
    ensures Agrees(Overlay(dst, src), src)
    decreases src
  {
    if dst.Obj? && src.Obj? {
      forall k | k in src.fields ensures Agrees(Merge(dst, src).fields[k], src.fields[k]) {
        if k in dst.fields {
          MergedAgrees(dst.fields[k], src.fields[k]);
        } else {
          AgreesWithItself(src.fields[k]);
        }
      }
    } else {
      AgreesWithItself(src);
    }
  }

  lemma {:induction false} AgreeingIsFixed(dst: Value, src: Value)
    requires Agrees(dst, src)
    ensures Overlay(dst, src) == dst
    decreases src
  {
    if src.Obj? {
      forall k | k in src.fields ensures Overlay(dst.fields[k], src.fields[k]) == dst.fields[k] {
        AgreeingIsFixed(dst.fields[k], src.fields[k]);
      }
      assert Merge(dst, src).fields == dst.fields;
    }
  }

  /** The merge is idempotent and changes nothing exactly when our spec holds. */
  lemma MergeReachesFixpoint(dst: Value, src: Value)
    requires dst.Obj? && src.Obj?
    ensures Merge(Merge(dst, src), src) == Merge(dst, src)
    ensures Merge(dst, src) == dst <==> Agrees(dst, src)
  {
    MergedAgrees(dst, src);
    AgreeingIsFixed(Merge(dst, src), src);
    if Agrees(dst, src) { AgreeingIsFixed(dst, src); }
  }

  // ---------- another controller ----------

  /** `after` and `before` have the same leaves and the same objects at every path
      that our spec names. */
  ghost predicate OnlyUnnamedChanged(src: Value, before: Value, after: Value) {
    forall path | At(src, path).Some? ::
      if At(src, path).value.Obj? then IsObj(At(before, path)) ==> IsObj(At(after, path))
      else At(after, path) == At(before, path)
  }

  predicate IsObj(v: Option<Value>) { v.Some? && v.value.Obj? }

  /** Agreement, path by path. */
  ghost predicate AgreesAtPaths(dst: Value, src: Value) {
    forall path | At(src, path).Some? ::
      if At(src, path).value.Obj? then IsObj(At(dst, path)) else At(dst, path) == At(src, path)
  }

  lemma {:induction false} AgreesAtPath(dst: Value, src: Value, path: seq<string>)
    requires Agrees(dst, src) && At(src, path).Some?
    ensures if At(src, path).value.Obj? then IsObj(At(dst, path)) else At(dst, path) == At(src, path)
    decreases |path|
  {
    if path != [] { AgreesAtPath(dst.fields[path[0]], src.fields[path[0]], path[1..]); }
  }

  lemma {:induction false} PathsAgree(dst: Value, src: Value)
    requires AgreesAtPaths(dst, src)
    ensures Agrees(dst, src)
    decreases src
  {
    assert At(src, []) == Some(src) && At(dst, []) == Some(dst);
    if src.Obj? {
      forall k | k in src.fields ensures k in dst.fields && Agrees(dst.fields[k], src.fields[k]) {
        PathBelow(src, k, []);
        PathBelow(dst, k, []);
        assert At(src, [k]).Some?;
        assert k in dst.fields;
        forall path | At(src.fields[k], path).Some?
          ensures if At(src.fields[k], path).value.Obj? then IsObj(At(dst.fields[k], path))
                  else At(dst.fields[k], path) == At(src.fields[k], path)
        {
          PathBelow(src, k, path);
          PathBelow(dst, k, path);
        }
        PathsAgree(dst.fields[k], src.fields[k]);
      }
    }
  }

  lemma PathBelow(v: Value, k: string, path: seq<string>)
    ensures At(v, [k] + path) == if v.Obj? && k in v.fields then At(v.fields[k], path) else None
    ensures [k] + [] == [k]
  {
    assert ([k] + path)[1..] == path;
  }

  /** Others touching only what we do not name leave nothing for us to write. */
  lemma ForeignChangesNeedNoWrite(src: Value, before: Value, after: Value)
    requires src.Obj? && Agrees(before, src) && OnlyUnnamedChanged(src, before, after)
    ensures Agrees(after, src) && Overlay(after, src) == after
  {
    forall path | At(src, path).Some?
      ensures if At(src, path).value.Obj? then IsObj(At(after, path)) else At(after, path) == At(src, path)
    {
      AgreesAtPath(before, src, path);
    }
    PathsAgree(after, src);
    AgreeingIsFixed(after, src);
  }

  /** No fighting over any spec of ours: once merged, a whole history of foreign
      changes to paths we do not name never makes a later merge write. */
  lemma {:induction false} MergeNeverFights(src: Value, dst: Value, history: seq<Value>)
    requires src.Obj? && history != [] && history[0] == Overlay(dst, src)
    requires forall i :: 0 < i < |history| ==> OnlyUnnamedChanged(src, history[i - 1], history[i])
    ensures forall v :: v in history ==> Agrees(v, src) && Overlay(v, src) == v
  {
    var n := |history| - 1;
    if n == 0 {
      MergedAgrees(dst, src);
    } else {
      MergeNeverFights(src, dst, history[..n]);
      assert history[n - 1] in history[..n];
      ForeignChangesNeedNoWrite(src, history[n - 1], history[n]);
      assert history == history[..n] + [history[n]];
    }
    AgreeingIsFixed(history[n], src);
  }

  // ---------- the ZTWIM object ----------

  const TRUST_DOMAIN := "trustDomain"
  const CLUSTER_NAME := "clusterName"
  const BUNDLE_CONFIG_MAP := "bundleConfigMap"

  datatype Config = Config(trustDomain: string, clusterName: string)

  /** A string member that is already set; "" otherwise. */
  function SetText(spec: Value, key: string): string {
    if spec.Obj? && key in spec.fields && spec.fields[key].Str? then spec.fields[key].text else ""
  }

  /** The spec we ask for: values already set win over the configured ones. */
  function Desired(c: Config, spec: Value): (s: Value)
    ensures s.Obj?
  {
    var td := if SetText(spec, TRUST_DOMAIN) != "" then SetText(spec, TRUST_DOMAIN) else c.trustDomain;
    var cn := if SetText(spec, CLUSTER_NAME) != "" then SetText(spec, CLUSTER_NAME) else c.clusterName;
    ZtwimSpec(td, cn)
  }

  function ZtwimSpec(trustDomain: string, clusterName: string): (s: Value)
    ensures s.Obj?
  {
    Obj(map[TRUST_DOMAIN := Str(trustDomain),
            CLUSTER_NAME := Str(if clusterName == "" then "agent-platform" else clusterName),
            BUNDLE_CONFIG_MAP := Str("spire-bundle")])
  }

  /** A missing or malformed spec counts as empty. */
  function Base(spec: Value): (b: Value)
    ensures b.Obj?
  {
    if spec.Obj? then spec else Obj(map[])
  }

  function Reconcile(c: Config, spec: Value): Value { Merge(Base(spec), Desired(c, spec)) }

  lemma KeysDiffer()
    ensures TRUST_DOMAIN != CLUSTER_NAME && CLUSTER_NAME != BUNDLE_CONFIG_MAP && TRUST_DOMAIN != BUNDLE_CONFIG_MAP
  {
    assert TRUST_DOMAIN[0] != CLUSTER_NAME[0] && CLUSTER_NAME[0] != BUNDLE_CONFIG_MAP[0];
    assert TRUST_DOMAIN[0] != BUNDLE_CONFIG_MAP[0];
  }

  /** After a reconcile the three members hold what we asked for. */
  lemma ReconcileMembers(c: Config, spec: Value, key: string)
    requires key in Desired(c, spec).fields
    ensures key in Reconcile(c, spec).fields && Reconcile(c, spec).fields[key] == Desired(c, spec).fields[key]
  {
    LeafOverwrites(Base(spec), Desired(c, spec), key);
  }

  lemma LeafOverwrites(dst: Value, src: Value, k: string)
    requires dst.Obj? && src.Obj? && k in src.fields && !src.fields[k].Obj?
    ensures k in Merge(dst, src).fields && Merge(dst, src).fields[k] == src.fields[k]
  {
    if k in dst.fields { assert Overlay(dst.fields[k], src.fields[k]) == src.fields[k]; }
  }

  /** The cluster name a reconcile leaves: the one that is set, else the configured one,
      else the default. */
  function ClusterName(c: Config, spec: Value): string {
    if SetText(spec, CLUSTER_NAME) != "" then SetText(spec, CLUSTER_NAME)
    else if c.clusterName != "" then c.clusterName
    else "agent-platform"
  }

  lemma DesiredMembers(c: Config, spec: Value)
    ensures var s := Desired(c, spec).fields;
            && TRUST_DOMAIN in s && CLUSTER_NAME in s && s.Keys == {TRUST_DOMAIN, CLUSTER_NAME, BUNDLE_CONFIG_MAP}
            && s[TRUST_DOMAIN] == Str(if SetText(spec, TRUST_DOMAIN) != "" then SetText(spec, TRUST_DOMAIN) else c.trustDomain)
            && s[CLUSTER_NAME] == Str(ClusterName(c, spec)) && ClusterName(c, spec) != ""
  {
    KeysDiffer();
    assert |"agent-platform"| > 0;
  }

  lemma ReconcileTexts(c: Config, spec: Value)
    ensures var r := Reconcile(c, spec);
            && SetText(r, TRUST_DOMAIN)
               == (if SetText(spec, TRUST_DOMAIN) != "" then SetText(spec, TRUST_DOMAIN) else c.trustDomain)
            && SetText(r, CLUSTER_NAME) == ClusterName(c, spec) && ClusterName(c, spec) != ""
  {
    DesiredMembers(c, spec);
    ReconcileMembers(c, spec, TRUST_DOMAIN);
    ReconcileMembers(c, spec, CLUSTER_NAME);
  }

  /** A second reconcile with the same configuration asks for the same spec. */
  lemma DesiredIsStable(c: Config, spec: Value)
    ensures Desired(c, Reconcile(c, spec)) == Desired(c, spec)
  {
    DesiredMembers(c, spec);
    ReconcileMembers(c, spec, TRUST_DOMAIN);
    ReconcileMembers(c, spec, CLUSTER_NAME);
    assert SetText(Reconcile(c, spec), CLUSTER_NAME) == Desired(c, spec).fields[CLUSTER_NAME].text;
  }

  datatype Action = Ours(config: Config) | Theirs(spec: Value)

  /** Other controllers leave the three members we manage alone. */
  predicate LeavesOurs(before: Value, after: Value) {
    before.Obj? ==>
      && after.Obj?
      && At(after, [TRUST_DOMAIN]) == At(before, [TRUST_DOMAIN])
      && At(after, [CLUSTER_NAME]) == At(before, [CLUSTER_NAME])
      && At(after, [BUNDLE_CONFIG_MAP]) == At(before, [BUNDLE_CONFIG_MAP])
  }

  function Next(spec: Value, a: Action): Value {
    match a
    case Ours(c) => Reconcile(c, spec)
    case Theirs(other) => if LeavesOurs(spec, other) then other else spec
  }

  function Run(spec: Value, acts: seq<Action>): Value
    decreases |acts|
  {
    if acts == [] then spec else Next(Run(spec, acts[..|acts| - 1]), acts[|acts| - 1])
  }

  /** A trust domain or cluster name that is set never changes again. */
  lemma {:induction false} SetValuesNeverChange(spec: Value, acts: seq<Action>)
    requires spec.Obj?
    ensures Run(spec, acts).Obj?
    ensures SetText(spec, TRUST_DOMAIN) != "" ==> SetText(Run(spec, acts), TRUST_DOMAIN) == SetText(spec, TRUST_DOMAIN)
    ensures SetText(spec, CLUSTER_NAME) != "" ==> SetText(Run(spec, acts), CLUSTER_NAME) == SetText(spec, CLUSTER_NAME)
    decreases |acts|
  {
    if acts != [] {
      var most := Run(spec, acts[..|acts| - 1]);
      SetValuesNeverChange(spec, acts[..|acts| - 1]);
      match acts[|acts| - 1]
      case Ours(c) => ReconcileTexts(c, most);
      case Theirs(other) => if LeavesOurs(most, other) { TheirsKeepsMembers(most, other); }
    }
  }

  lemma TheirsKeepsMembers(before: Value, after: Value)
    requires before.Obj? && LeavesOurs(before, after)
    ensures forall k | k == TRUST_DOMAIN || k == CLUSTER_NAME || k == BUNDLE_CONFIG_MAP ::
              (k in after.fields <==> k in before.fields) && (k in after.fields ==> after.fields[k] == before.fields[k])
  {
    forall k ensures At(before, [k]) == if k in before.fields then Some(before.fields[k]) else None { PathBelow(before, k, []); }
    forall k ensures At(after, [k]) == if k in after.fields then Some(after.fields[k]) else None { PathBelow(after, k, []); }
  }

  /** The configuration has nothing left to say about this spec. */
  predicate InForce(c: Config, spec: Value) { spec.Obj? && Agrees(spec, Desired(c, spec)) }

  lemma InForceAfterReconcile(c: Config, spec: Value)
    ensures InForce(c, Reconcile(c, spec))
  {
    DesiredIsStable(c, spec);
    MergedAgrees(Base(spec), Desired(c, spec));
  }

  lemma TheirsKeepsInForce(c: Config, before: Value, after: Value)
    requires InForce(c, before) && LeavesOurs(before, after)
    ensures InForce(c, after)
  {
    TheirsKeepsMembers(before, after);
    DesiredMembers(c, before);
    assert Desired(c, after) == Desired(c, before);
  }

  predicate SameConfig(c: Config, acts: seq<Action>) {
    forall a :: a in acts && a.Ours? ==> a.config == c
  }

  /** No fighting: after our first reconcile, whatever other controllers do to the
      members we do not manage, every later reconcile writes nothing. */
  lemma {:induction false} NoFighting(c: Config, spec: Value, acts: seq<Action>)
    requires SameConfig(c, acts)
    ensures var now := Run(Reconcile(c, spec), acts); InForce(c, now) && Reconcile(c, now) == now
    decreases |acts|
  {
    var now := Run(Reconcile(c, spec), acts);
    if acts == [] {
      InForceAfterReconcile(c, spec);
    } else {
      var most := acts[..|acts| - 1];
      NoFighting(c, spec, most);
      match acts[|acts| - 1]
      case Ours(d) => assert acts[|acts| - 1] in acts;
      case Theirs(other) =>
        if LeavesOurs(Run(Reconcile(c, spec), most), other) {
          TheirsKeepsInForce(c, Run(Reconcile(c, spec), most), other);
        }
    }
    MergeReachesFixpoint(now, Desired(c, now));
  }
}
