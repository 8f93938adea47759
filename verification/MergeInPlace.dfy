/** The spec merge as it runs: Go maps are references, nested maps of the stored spec are
    changed in place and nested maps of ours may end up shared with it. */
module MergeInPlace {
  import opened Strings
  import opened Json
  import opened SpecMerge

  /** A `map[string]interface{}`. */
  class GoMap {
    var entries: map<string, Entry>

    constructor ()
      ensures entries == map[]
    {
      entries := map[];
    }
  }

  datatype Entry = Scalar(value: Value) | Nested(m: GoMap)

  /** The contents of some maps at a moment. */
  type Heap = map<GoMap, map<string, Entry>>

  ghost function Snap(u: set<GoMap>): Heap
    reads u
  {
    map m | m in u :: m.entries
  }

  // ---------- trees of maps ----------

  /** The map objects a tree is made of, by key. */
  datatype Layout = Layout(self: GoMap, subs: map<string, Layout>)

  ghost function Below(f: Layout): set<GoMap>
    decreases f, 0
  {
    set k, m | k in f.subs && m in Maps(f.subs[k]) :: m
  }

  ghost function Maps(f: Layout): set<GoMap>
    decreases f, 1
  {
    {f.self} + Below(f)
  }

  /** The maps of one key; none when its value is no map. */
  ghost function MapsAt(f: Layout, k: string): set<GoMap> { if k in f.subs then Maps(f.subs[k]) else {} }

  lemma MapsAtBelow(f: Layout, k: string)
    ensures MapsAt(f, k) <= Below(f) <= Maps(f)
  {
  }

  /** No map is reached along two ways. */
  ghost predicate Unshared(f: Layout)
    decreases f
  {
    && f.self !in Below(f)
    && (forall k :: k in f.subs ==> Unshared(f.subs[k]))
    && (forall j, k :: j in f.subs && k in f.subs && j != k ==> Maps(f.subs[j]) !! Maps(f.subs[k]))
  }

  /** The maps laid out as `f` hold the tree `t`. */
  ghost predicate Holds(h: Heap, f: Layout, t: Value)
    decreases f
  {
    && f.self in h && t.Obj?
    && h[f.self].Keys == t.fields.Keys
    && f.subs.Keys <= t.fields.Keys
    && (forall k :: k in t.fields && k !in f.subs ==> !t.fields[k].Obj? && h[f.self][k] == Scalar(t.fields[k]))
    && (forall k :: k in f.subs ==> h[f.self][k] == Nested(f.subs[k].self) && Holds(h, f.subs[k], t.fields[k]))
  }

  /** Two heaps with the same contents of the tree's maps hold the same tree. */
  lemma {:induction false} SameMapsSameTree(h: Heap, h': Heap, f: Layout, t: Value)
    requires Holds(h, f, t) && forall m :: m in Maps(f) && m in h ==> m in h' && h'[m] == h[m]
    ensures Holds(h', f, t)
    decreases f
  {
    forall k | k in f.subs ensures Holds(h', f.subs[k], t.fields[k]) {
      MapsAtBelow(f, k);
      SameMapsSameTree(h, h', f.subs[k], t.fields[k]);
    }
  }

  lemma ReplaceUnshared(f: Layout, k: string, s: Layout)
    requires Unshared(f) && Unshared(s) && f.self !in Maps(s)
    requires forall j :: j in f.subs && j != k ==> Maps(f.subs[j]) !! Maps(s)
    ensures Unshared(Layout(f.self, f.subs[k := s]))
  {
    var g := Layout(f.self, f.subs[k := s]);
    forall m | m in Below(g) ensures m != f.self {
      var j :| j in g.subs && m in Maps(g.subs[j]);
      if j != k { assert m in Below(f); }
    }
  }

  lemma DropUnshared(f: Layout, k: string)
    requires Unshared(f)
    ensures Unshared(Layout(f.self, f.subs - {k}))
  {
    var g := Layout(f.self, f.subs - {k});
    forall m | m in Below(g) ensures m in Below(f) {
      var j :| j in g.subs && m in Maps(g.subs[j]);
      assert m in Maps(f.subs[j]);
    }
  }

  // ---------- one assignment ----------

  lemma Assemble(h: Heap, g: Layout, t: Value)
    requires g.self in h && t.Obj? && h[g.self].Keys == t.fields.Keys && g.subs.Keys <= t.fields.Keys
    requires forall k :: k in t.fields && k !in g.subs ==> !t.fields[k].Obj? && h[g.self][k] == Scalar(t.fields[k])
    requires forall k :: k in g.subs ==> h[g.self][k] == Nested(g.subs[k].self) && Holds(h, g.subs[k], t.fields[k])
    ensures Holds(h, g, t)
  {
  }

  /** What `Holds` says about the top map only. */
  lemma TopOf(h: Heap, f: Layout, t: Value)
    requires Holds(h, f, t)
    ensures f.self in h && t.Obj? && h[f.self].Keys == t.fields.Keys && f.subs.Keys <= t.fields.Keys
    ensures forall k :: k in t.fields && k !in f.subs ==> !t.fields[k].Obj? && h[f.self][k] == Scalar(t.fields[k])
    ensures forall k :: k in f.subs ==> h[f.self][k] == Nested(f.subs[k].self)
  {
  }

  /** Writing the top map leaves the trees below it alone. */
  lemma SubsSurvive(h: Heap, h': Heap, f: Layout, t: Value, k: string)
    requires Holds(h, f, t) && Unshared(f) && (forall m :: m in h && m != f.self ==> m in h' && h'[m] == h[m])
    requires k in f.subs
    ensures Holds(h', f.subs[k], t.fields[k])
  {
    MapsAtBelow(f, k);
    SameMapsSameTree(h, h', f.subs[k], t.fields[k]);
  }

  lemma PutScalar(h: Heap, f: Layout, t: Value, k: string, v: Value)
    requires Holds(h, f, t) && Unshared(f) && !v.Obj?
    ensures Holds(h[f.self := h[f.self][k := Scalar(v)]], Layout(f.self, f.subs - {k}), Obj(t.fields[k := v]))
    ensures Unshared(Layout(f.self, f.subs - {k}))
  {
    var h' := h[f.self := h[f.self][k := Scalar(v)]];
    DropUnshared(f, k);
    forall j | j in f.subs ensures Holds(h', f.subs[j], t.fields[j]) { SubsSurvive(h, h', f, t, j); }
  }

  lemma PutMap(h: Heap, f: Layout, t: Value, k: string, s: Layout, v: Value)
    requires Holds(h, f, t) && Unshared(f) && Holds(h, s, v) && Unshared(s) && Maps(s) !! Maps(f)
    ensures Holds(h[f.self := h[f.self][k := Nested(s.self)]], Layout(f.self, f.subs[k := s]), Obj(t.fields[k := v]))
    ensures Unshared(Layout(f.self, f.subs[k := s]))
  {
    var h' := h[f.self := h[f.self][k := Nested(s.self)]];
    forall j | j in f.subs ensures Holds(h', f.subs[j], t.fields[j]) && Maps(f.subs[j]) <= Maps(f) {
      SubsSurvive(h, h', f, t, j);
      MapsAtBelow(f, j);
    }
    ReplaceUnshared(f, k, s);
    SameMapsSameTree(h, h', s, v);
    TopOf(h, f, t);
    Assemble(h', Layout(f.self, f.subs[k := s]), Obj(t.fields[k := v]));
  }

  /** Changing the maps of one key leaves the top map and the other keys alone. */
  lemma OthersSurvive(h: Heap, h': Heap, f: Layout, t: Value, k: string, j: string)
    requires Holds(h, f, t) && Unshared(f) && k in f.subs && j in f.subs && j != k
    requires forall m :: m in h && m !in Maps(f.subs[k]) ==> m in h' && h'[m] == h[m]
    ensures Holds(h', f.subs[j], t.fields[j])
  {
    SameMapsSameTree(h, h', f.subs[j], t.fields[j]);
  }

  lemma TopSurvives(h: Heap, h': Heap, f: Layout, t: Value, k: string)
    requires Holds(h, f, t) && Unshared(f) && k in f.subs
    requires forall m :: m in h && m !in Maps(f.subs[k]) ==> m in h' && h'[m] == h[m]
    ensures f.self in h' && h'[f.self] == h[f.self]
  {
    MapsAtBelow(f, k);
  }

  /** A nested tree that was changed in place, around the same top map. */
  lemma PutBack(h: Heap, h': Heap, f: Layout, t: Value, k: string, s: Layout, v: Value)
    requires Holds(h, f, t) && Unshared(f) && k in f.subs && s.self == f.subs[k].self && Holds(h', s, v)
    requires forall m :: m in h && m !in Maps(f.subs[k]) ==> m in h' && h'[m] == h[m]
    ensures Holds(h', Layout(f.self, f.subs[k := s]), Obj(t.fields[k := v]))
  {
    TopOf(h, f, t);
    TopSurvives(h, h', f, t, k);
    forall j | j in f.subs && j != k ensures Holds(h', f.subs[j], t.fields[j]) { OthersSurvive(h, h', f, t, k, j); }
    Assemble(h', Layout(f.self, f.subs[k := s]), Obj(t.fields[k := v]));
  }

  /** The merge once the keys in `done` have been visited. */
  ghost function MergePart(dst: Value, src: Value, done: set<string>): map<string, Value>
    requires dst.Obj? && src.Obj? && done <= src.fields.Keys
  {
    map k | k in dst.fields.Keys + done :: if k in done then Merge(dst, src).fields[k] else dst.fields[k]
  }

  lemma MergePartStep(dst: Value, src: Value, done: set<string>, k: string)
    requires dst.Obj? && src.Obj? && done <= src.fields.Keys && k in src.fields && k !in done
    ensures MergePart(dst, src, done + {k}) == MergePart(dst, src, done)[k := Merge(dst, src).fields[k]]
    ensures k in MergePart(dst, src, done) <==> k in dst.fields
    ensures k in dst.fields ==> MergePart(dst, src, done)[k] == dst.fields[k]
  {
  }

  /** The value the merge puts under a key of ours. */
  function Merged(t: Value, ts: Value, k: string): Value
    requires t.Obj? && ts.Obj? && k in ts.fields
  {
    if k in t.fields then Overlay(t.fields[k], ts.fields[k]) else ts.fields[k]
  }

  lemma SubOf(h: Heap, f: Layout, t: Value, k: string)
    requires Holds(h, f, t) && Unshared(f) && k in f.subs
    ensures Holds(h, f.subs[k], t.fields[k]) && Unshared(f.subs[k])
    ensures Maps(f.subs[k]) <= Maps(f) && f.self !in Maps(f.subs[k]) && f.subs[k].self in Maps(f.subs[k])
  {
    MapsAtBelow(f, k);
  }

  // ---------- the loop ----------

  /** `dst[k] = v` for a value of ours that is not merged. */
  method Assign(dst: GoMap, k: string, v: Entry, ghost u: set<GoMap>)
    requires dst in u
    modifies dst
    ensures Snap(u) == old(Snap(u))[dst := old(dst.entries)[k := v]]
  {
    dst.entries := dst.entries[k := v];
  }

  /** Everything one key needs: both trees in the heap, apart from each other. */
  ghost predicate Apart(f: Layout, fs: Layout, k: string, u: set<GoMap>) {
    && Maps(f) + Maps(fs) <= u && f.self !in Maps(fs)
    && MapsAt(f, k) !! Maps(fs) && MapsAt(fs, k) !! Maps(f)
  }

  /** Only the key changed, and its maps come from either side. */
  ghost predicate OnlyAt(f: Layout, fs: Layout, g: Layout, k: string) {
    && g.self == f.self
    && (forall j :: j != k ==> (j in g.subs <==> j in f.subs) && (j in f.subs ==> g.subs[j] == f.subs[j]))
    && MapsAt(g, k) <= MapsAt(f, k) + MapsAt(fs, k)
  }

  lemma ReplacedOnlyAt(f: Layout, fs: Layout, k: string, s: Layout)
    requires Maps(s) <= MapsAt(f, k) + MapsAt(fs, k)
    ensures OnlyAt(f, fs, Layout(f.self, f.subs[k := s]), k)
  {
  }

  lemma DroppedOnlyAt(f: Layout, fs: Layout, k: string)
    ensures OnlyAt(f, fs, Layout(f.self, f.subs - {k}), k)
  {
  }

  /** One key of ours: nested maps on both sides are merged in place, everything else of
      ours replaces what is there. */
  method MergeKey(dst: GoMap, src: GoMap, k: string, ghost f: Layout, ghost t: Value, ghost fs: Layout, ghost ts: Value,
                  ghost u: set<GoMap>) returns (ghost g: Layout)
    requires f.self == dst && Holds(Snap(u), f, t) && Unshared(f)
    requires fs.self == src && Holds(Snap(u), fs, ts) && Unshared(fs) && k in ts.fields
    requires Apart(f, fs, k, u)
    modifies dst, MapsAt(f, k)
    ensures Unshared(g) && Holds(Snap(u), g, Obj(t.fields[k := Merged(t, ts, k)])) && OnlyAt(f, fs, g, k)
    ensures forall m :: m in u && m != dst && m !in MapsAt(f, k) ==> m.entries == old(m.entries)
    decreases fs, 1
  {
    ghost var h := Snap(u);
    match src.entries[k] {
      case Scalar(v) =>
        PutScalar(h, f, t, k, v);
        DroppedOnlyAt(f, fs, k);
        Assign(dst, k, Scalar(v), u);
        g := Layout(dst, f.subs - {k});
      case Nested(m) =>
        SubOf(h, fs, ts, k);
        if k in dst.entries && dst.entries[k].Nested? {
          g := MergeNested(dst, dst.entries[k].m, m, k, f, t, fs, ts, u);
        } else {
          PutMap(h, f, t, k, fs.subs[k], ts.fields[k]);
          ReplacedOnlyAt(f, fs, k, fs.subs[k]);
          Assign(dst, k, Nested(m), u);
          g := Layout(dst, f.subs[k := fs.subs[k]]);
        }
    }
  }

  /** The recursive call, and what it leaves of the map around it. */
  method MergeNested(dst: GoMap, d: GoMap, m: GoMap, k: string, ghost f: Layout, ghost t: Value, ghost fs: Layout, ghost ts: Value,
                     ghost u: set<GoMap>) returns (ghost g: Layout)
    requires f.self == dst && Holds(Snap(u), f, t) && Unshared(f) && k in f.subs && f.subs[k].self == d
    requires Holds(Snap(u), fs, ts) && Unshared(fs) && k in fs.subs && fs.subs[k].self == m
    requires Apart(f, fs, k, u)
    modifies MapsAt(f, k)
    ensures Unshared(g) && Holds(Snap(u), g, Obj(t.fields[k := Merged(t, ts, k)])) && OnlyAt(f, fs, g, k)
    ensures forall m :: m in u && m !in MapsAt(f, k) ==> m.entries == old(m.entries)
    decreases fs, 0
  {
    ghost var h := Snap(u);
    SubOf(h, f, t, k);
    SubOf(h, fs, ts, k);
    ghost var s := MergeNestedMap(d, m, f.subs[k], t.fields[k], fs.subs[k], ts.fields[k], u);
    NestedApart(f, fs, k, s);
    ReplacedOnlyAt(f, fs, k, s);
    PutBack(h, Snap(u), f, t, k, s, Merge(t.fields[k], ts.fields[k]));
    g := Layout(dst, f.subs[k := s]);
  }

  lemma NestedApart(f: Layout, fs: Layout, k: string, s: Layout)
    requires Unshared(f) && Unshared(s) && k in f.subs && k in fs.subs && Maps(s) <= Maps(f.subs[k]) + Below(fs.subs[k])
    requires MapsAt(fs, k) !! Maps(f)
    ensures Unshared(Layout(f.self, f.subs[k := s])) && Maps(s) <= MapsAt(f, k) + MapsAt(fs, k)
  {
    MapsAtBelow(f, k);
    forall j | j in f.subs && j != k ensures Maps(f.subs[j]) !! Maps(s) { MapsAtBelow(f, j); }
    ReplaceUnshared(f, k, s);
  }

  /** What the keys still to come may rely on: their maps are the stored ones, and ours
      are not yet part of the tree. */
  ghost predicate Pending(f: Layout, fs: Layout, g: Layout, todo: set<string>) {
    && g.self == f.self && Maps(g) <= Maps(f) + Below(fs)
    && (forall k :: k in todo ==> MapsAt(g, k) <= Maps(f) && MapsAt(fs, k) !! Maps(g))
  }

  lemma PendingAtStart(f: Layout, fs: Layout, todo: set<string>)
    requires Maps(f) !! Maps(fs)
    ensures Pending(f, fs, f, todo)
  {
    forall k | k in todo ensures MapsAt(f, k) <= Maps(f) && MapsAt(fs, k) !! Maps(f) {
      MapsAtBelow(f, k);
      MapsAtBelow(fs, k);
    }
  }

  lemma PendingApart(f: Layout, fs: Layout, g: Layout, todo: set<string>, k: string, u: set<GoMap>)
    requires Pending(f, fs, g, todo) && k in todo && Maps(f) !! Maps(fs) && Maps(f) + Maps(fs) <= u
    ensures Apart(g, fs, k, u) && g.self in Maps(f)
  {
    assert f.self in Maps(f);
  }

  lemma PendingNext(f: Layout, fs: Layout, g: Layout, g': Layout, todo: set<string>, k: string)
    requires Pending(f, fs, g, todo) && k in todo && OnlyAt(g, fs, g', k) && Unshared(fs)
    ensures Pending(f, fs, g', todo - {k})
  {
    MapsAtBelow(fs, k);
    MapsGrow(g, fs, g', k);
    forall j | j in todo && j != k ensures MapsAt(g', j) <= Maps(f) && MapsAt(fs, j) !! Maps(g') {
      assert MapsAt(g', j) == MapsAt(g, j);
      assert MapsAt(fs, j) !! MapsAt(fs, k);
    }
  }

  lemma MapsGrow(g: Layout, fs: Layout, g': Layout, k: string)
    requires OnlyAt(g, fs, g', k)
    ensures Maps(g') <= Maps(g) + MapsAt(fs, k)
  {
    forall m | m in Below(g') ensures m in Maps(g) + MapsAt(fs, k) {
      var j :| j in g'.subs && m in Maps(g'.subs[j]);
      if j != k { assert m in Below(g); } else { MapsAtBelow(g, k); }
    }
  }

  /** `mergeNestedMap`, in whatever order the map yields our keys: the stored tree becomes
      the merge, in place and without sharing within it; our own tree is unchanged; no
      other map is written. */
  method MergeNestedMap(dst: GoMap, src: GoMap, ghost f: Layout, ghost t: Value, ghost fs: Layout, ghost ts: Value,
                        ghost u: set<GoMap>) returns (ghost g: Layout)
    requires f.self == dst && Holds(Snap(u), f, t) && Unshared(f)
    requires fs.self == src && Holds(Snap(u), fs, ts) && Unshared(fs)
    requires Maps(f) !! Maps(fs) && Maps(f) + Maps(fs) <= u
    modifies Maps(f)
    ensures g.self == dst && Unshared(g) && Holds(Snap(u), g, Merge(t, ts)) && Maps(g) <= Maps(f) + Below(fs)
    ensures forall m :: m in u && m !in Maps(f) ==> m.entries == old(m.entries)
    decreases fs, 2
  {
    ghost var h := Snap(u);
    g := f;
    var todo := src.entries.Keys;
    PendingAtStart(f, fs, todo);
    NothingMerged(t, ts);
    while todo != {}
      invariant todo <= ts.fields.Keys
      invariant Unshared(g) && Holds(Snap(u), g, Obj(MergePart(t, ts, ts.fields.Keys - todo)))
      invariant forall m :: m in u && m !in Maps(f) ==> m.entries == old(m.entries)
      invariant Pending(f, fs, g, todo)
    {
      var k :| k in todo;
      ghost var g0 := g;
      SameMapsSameTree(h, Snap(u), fs, ts);
      PendingApart(f, fs, g, todo, k, u);
      KeyMerged(t, ts, todo, k);
      g := MergeKey(dst, src, k, g, Obj(MergePart(t, ts, ts.fields.Keys - todo)), fs, ts, u);
      PendingNext(f, fs, g0, g, todo, k);
      todo := todo - {k};
    }
    AllMerged(t, ts);
  }

  lemma NothingMerged(t: Value, ts: Value)
    requires t.Obj? && ts.Obj?
    ensures Obj(MergePart(t, ts, ts.fields.Keys - ts.fields.Keys)) == t
  {
  }

  lemma AllMerged(t: Value, ts: Value)
    requires t.Obj? && ts.Obj?
    ensures Obj(MergePart(t, ts, ts.fields.Keys - {})) == Merge(t, ts)
  {
    var all, merged := MergePart(t, ts, ts.fields.Keys - {}), Merge(t, ts).fields;
    assert all.Keys == merged.Keys;
    forall k | k in merged ensures all[k] == merged[k] { if k !in ts.fields { ForeignKey(t, ts, k); } }
  }

  lemma ForeignKey(t: Value, ts: Value, k: string)
    requires t.Obj? && ts.Obj? && k in t.fields && k !in ts.fields
    ensures k in Merge(t, ts).fields && Merge(t, ts).fields[k] == t.fields[k]
  {
  }

  lemma KeyMerged(t: Value, ts: Value, todo: set<string>, k: string)
    requires t.Obj? && ts.Obj? && todo <= ts.fields.Keys && k in todo
    ensures var part := MergePart(t, ts, ts.fields.Keys - todo);
            part[k := Merged(Obj(part), ts, k)] == MergePart(t, ts, ts.fields.Keys - (todo - {k}))
  {
    MergePartStep(t, ts, ts.fields.Keys - todo, k);
    assert ts.fields.Keys - (todo - {k}) == ts.fields.Keys - todo + {k};
  }
}
