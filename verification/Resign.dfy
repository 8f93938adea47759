/** Restarting a workload so that it signs its card again: because the leaf
    certificate is about to expire, or because the trust bundle changed. */
module Resign {
  import opened Strings

  /** The resign-trigger annotation: absent, unreadable, or a time in seconds. */
  datatype Trigger = NoTrigger | Malformed | Triggered(time: int)

  /** The annotations the reconciler keeps. `bundleHash` is "" when absent;
      `leafExpiry` is None when absent or not a formatted time. */
  datatype Workload = Workload(bundleHash: string, trigger: Trigger, leafExpiry: Option<int>)

  /** One reconcile: the clock at its checks and at its write, the expiry of the
      verified leaf (None for the zero time) and the provider's bundle hash. */
  datatype Event = Event(now: int, at: int, leaf: Option<int>, hash: string)

  const DEFAULT_GRACE := 1800

  function Grace(configured: int): int { if configured == 0 then DEFAULT_GRACE else configured }

  predicate CoolingDown(grace: int, w: Workload, e: Event) { w.trigger.Triggered? && e.now - w.trigger.time < grace }

  predicate Expiring(grace: int, e: Event) { e.leaf.Some? && e.leaf.value - e.now < grace }

  predicate Rotated(w: Workload, e: Event) { w.bundleHash != "" && e.hash != "" && w.bundleHash != e.hash }

  /** A restart was already triggered for this very certificate. */
  predicate Handled(w: Workload, e: Event) { w.leafExpiry == e.leaf }

  predicate Restarts(grace: int, w: Workload, e: Event) {
    && !CoolingDown(grace, w, e)
    && if Expiring(grace, e) then !Handled(w, e) else Rotated(w, e)
  }

  function Restarted(w: Workload, e: Event): Workload {
    Workload(e.hash, Triggered(e.at), if e.leaf.Some? then e.leaf else w.leafExpiry)
  }

  function Reconcile(grace: int, w: Workload, e: Event): Workload {
    if Restarts(grace, w, e) then Restarted(w, e)
    else if CoolingDown(grace, w, e) || Expiring(grace, e) then w
    else if w.bundleHash == "" then w.(bundleHash := e.hash)
    else w
  }

  /** The documentation promises a restart when either condition holds. Outside the
      cool-down the code keeps that promise exactly when the certificate that is
      about to expire was not handled before. */
  lemma EitherConditionRestartsExactly(grace: int, w: Workload, e: Event)
    requires !CoolingDown(grace, w, e) && (Expiring(grace, e) || Rotated(w, e))
    ensures Restarts(grace, w, e) <==> !(Expiring(grace, e) && Handled(w, e))
  {
  }

  /** A rotated trust bundle goes unnoticed while a handled leaf is expiring. */
  lemma RotationIgnored()
    ensures var w := Workload("a", Triggered(0), Some(5000));
            var e := Event(4000, 4000, Some(5000), "b");
            Rotated(w, e) && !CoolingDown(DEFAULT_GRACE, w, e) && !Restarts(DEFAULT_GRACE, w, e)
            && Reconcile(DEFAULT_GRACE, w, e) == w
  {
    assert "a"[0] != "b"[0];
  }

  predicate Quiet(grace: int, w: Workload, e: Event) { !CoolingDown(grace, w, e) && !Expiring(grace, e) && e.hash != "" }

  /** Of two quiet reconciles in a row, the first records its hash and the second
      restarts exactly when it sees another one. */
  lemma RotationIsNoticed(grace: int, w: Workload, d: Event, e: Event)
    requires Quiet(grace, w, d) && Quiet(grace, Reconcile(grace, w, d), e)
    ensures Reconcile(grace, w, d).bundleHash == d.hash
    ensures Restarts(grace, Reconcile(grace, w, d), e) <==> e.hash != d.hash
  {
  }

  /** The stored annotations, changed step by step as the reconciler does. */
  class Stored {
    var bundleHash: string
    var trigger: Trigger
    var leafExpiry: Option<int>

    constructor (w: Workload)
      ensures Value() == w
    {
      bundleHash, trigger, leafExpiry := w.bundleHash, w.trigger, w.leafExpiry;
    }

    function Value(): Workload
      reads this
    {
      Workload(bundleHash, trigger, leafExpiry)
    }

    method MaybeRestartForResign(configured: int, e: Event) returns (restarted: bool)
      modifies this
      ensures restarted == Restarts(Grace(configured), old(Value()), e)
      ensures Value() == Reconcile(Grace(configured), old(Value()), e)
    {
      var grace := if configured == 0 then DEFAULT_GRACE else configured;
      match trigger {
        case Triggered(last) => if e.now - last < grace { return false; }
        case _ =>
      }
      var needsRestart := false;
      if e.leaf.Some? && e.leaf.value - e.now < grace {
        if leafExpiry == e.leaf { return false; }
        needsRestart := true;
      }
      if bundleHash != "" && e.hash != "" && bundleHash != e.hash { needsRestart := true; }
      if !needsRestart {
        if bundleHash == "" && e.hash != "" { bundleHash := e.hash; }
        return false;
      }
      TriggerRolloutRestart(e.at, e.hash, e.leaf);
      return true;
    }

    method TriggerRolloutRestart(at: int, hash: string, leaf: Option<int>)
      modifies this
      ensures Value() == Workload(hash, Triggered(at), if leaf.Some? then leaf else old(leafExpiry))
    {
      trigger := Triggered(at);
      if leaf.Some? { leafExpiry := leaf; }
      bundleHash := hash;
    }
  }

  // ---------- whole runs ----------

  function After(grace: int, w: Workload, es: seq<Event>): Workload {
    if es == [] then w else Reconcile(grace, After(grace, w, es[..|es| - 1]), es[|es| - 1])
  }

  /** Reconcile number `i` of the run restarts the workload. */
  predicate RestartAt(grace: int, w: Workload, es: seq<Event>, i: nat)
    requires i < |es|
  {
    Restarts(grace, After(grace, w, es[..i]), es[i])
  }

  function Count(grace: int, w: Workload, es: seq<Event>): nat {
    if es == [] then 0
    else Count(grace, w, es[..|es| - 1]) + if RestartAt(grace, w, es, |es| - 1) then 1 else 0
  }

  predicate MonotoneClock(es: seq<Event>) {
    && (forall i :: 0 <= i < |es| ==> es[i].now <= es[i].at)
    && (forall i, j :: 0 <= i < j < |es| ==> es[i].at <= es[j].now)
  }

  /** After a restart the trigger annotation is at least as late as that restart. */
  lemma {:induction false} TriggerRemembers(grace: int, w: Workload, es: seq<Event>, i: nat)
    requires MonotoneClock(es) && i < |es| && RestartAt(grace, w, es, i)
    ensures var t := After(grace, w, es).trigger; t.Triggered? && es[i].at <= t.time
  {
    var n := |es| - 1;
    if i < n {
      assert es[..n][..i] == es[..i];
      TriggerRemembers(grace, w, es[..n], i);
      assert es[i].at <= es[n].now;
    }
  }

  /** Two restarts are at least the grace period apart. */
  lemma RestartsAreApart(grace: int, w: Workload, es: seq<Event>, i: nat, j: nat)
    requires MonotoneClock(es) && i < j < |es|
    requires RestartAt(grace, w, es, i) && RestartAt(grace, w, es, j)
    ensures es[j].at - es[i].at >= grace
  {
    assert es[..j][..i] == es[..i];
    TriggerRemembers(grace, w, es[..j], i);
  }

  // ---------- the number of restarts ----------

  /** The last leaf expiry seen. */
  function LastLeaf(es: seq<Event>): Option<int> {
    if es == [] then None
    else if es[|es| - 1].leaf.Some? then es[|es| - 1].leaf
    else LastLeaf(es[..|es| - 1])
  }

  /** How often the observed leaf expiry became a different one. */
  function LeafRuns(es: seq<Event>): nat {
    if es == [] then 0
    else
      var most, e := es[..|es| - 1], es[|es| - 1];
      LeafRuns(most) + if e.leaf.Some? && e.leaf != LastLeaf(most) then 1 else 0
  }

  /** The last nonempty hash, starting from the workload's own annotation. */
  function LastHash(h: string, es: seq<Event>): string {
    if es == [] then h
    else if es[|es| - 1].hash != "" then es[|es| - 1].hash
    else LastHash(h, es[..|es| - 1])
  }

  function HashChanges(h: string, es: seq<Event>): nat {
    if es == [] then 0
    else
      var most, e := es[..|es| - 1], es[|es| - 1];
      HashChanges(h, most) + if e.hash != "" && LastHash(h, most) != "" && e.hash != LastHash(h, most) then 1 else 0
  }

  /** A leaf, or a hash, whose restart is still to come. */
  function LeafDue(w: Workload, es: seq<Event>): nat {
    if LastLeaf(es).Some? && w.leafExpiry != LastLeaf(es) then 1 else 0
  }

  function HashDue(w: Workload, h: string, es: seq<Event>): nat {
    if w.bundleHash != "" && w.bundleHash != LastHash(h, es) then 1 else 0
  }

  lemma {:induction false} HashWasSeen(grace: int, w: Workload, es: seq<Event>)
    requires LastHash(w.bundleHash, es) == ""
    ensures After(grace, w, es).bundleHash == ""
  {
    if es != [] { HashWasSeen(grace, w, es[..|es| - 1]); }
  }

  lemma {:induction false} CountPlusDue(grace: int, w: Workload, es: seq<Event>)
    ensures var t := After(grace, w, es);
            Count(grace, w, es) + LeafDue(t, es) + HashDue(t, w.bundleHash, es)
              <= LeafRuns(es) + HashChanges(w.bundleHash, es)
  {
    if es != [] {
      var most := es[..|es| - 1];
      CountPlusDue(grace, w, most);
      if LastHash(w.bundleHash, most) == "" { HashWasSeen(grace, w, most); }
      StepPlusDue(grace, w, After(grace, w, most), most, es[|es| - 1]);
      assert most + [es[|es| - 1]] == es;
    }
  }

  /** One reconcile pays for its restart with a new leaf, a new hash or a due one. */
  lemma StepPlusDue(grace: int, w: Workload, t: Workload, most: seq<Event>, e: Event)
    requires LastHash(w.bundleHash, most) == "" ==> t.bundleHash == ""
    ensures var es := most + [e];
            var t' := Reconcile(grace, t, e);
            (if Restarts(grace, t, e) then 1 else 0) + LeafDue(t', es) + HashDue(t', w.bundleHash, es)
              <= LeafDue(t, most) + HashDue(t, w.bundleHash, most)
                 + (LeafRuns(es) - LeafRuns(most)) + (HashChanges(w.bundleHash, es) - HashChanges(w.bundleHash, most))
  {
    assert (most + [e])[..|most|] == most;
  }

  /** In every run the restarts are bounded by the changes of the observed leaf
      expiry plus the changes of the trust bundle hash. */
  lemma RestartBound(grace: int, w: Workload, es: seq<Event>)
    ensures Count(grace, w, es) <= LeafRuns(es) + HashChanges(w.bundleHash, es)
  {
    CountPlusDue(grace, w, es);
  }

  predicate LeavesNeverDecrease(es: seq<Event>) {
    forall i, j :: 0 <= i < j < |es| && es[i].leaf.Some? && es[j].leaf.Some? ==> es[i].leaf.value <= es[j].leaf.value
  }

  function Leaves(es: seq<Event>): set<int> {
    set i | 0 <= i < |es| && es[i].leaf.Some? :: es[i].leaf.value
  }

  lemma LeavesGrow(es: seq<Event>)
    requires es != []
    ensures var e := es[|es| - 1];
            Leaves(es) == Leaves(es[..|es| - 1]) + if e.leaf.Some? then {e.leaf.value} else {}
  {
    var n := |es| - 1;
    assert forall i :: 0 <= i < n ==> es[..n][i] == es[i];
    forall x | x in Leaves(es[..n]) ensures x in Leaves(es) {
      var i :| 0 <= i < n && es[..n][i].leaf == Some(x);
      assert es[i].leaf == Some(x);
    }
    forall x | x in Leaves(es) ensures x in Leaves(es[..n]) || es[n].leaf == Some(x) {
      var i :| 0 <= i < |es| && es[i].leaf.Some? && es[i].leaf.value == x;
      if i < n { assert es[..n][i].leaf == Some(x); }
    }
    if es[n].leaf.Some? { assert es[n].leaf.value in Leaves(es); }
  }

  /** The last leaf seen is one of the leaves and the largest so far. */
  lemma {:induction false} LastLeafIsLargest(es: seq<Event>)
    requires LeavesNeverDecrease(es)
    ensures LastLeaf(es).None? <==> Leaves(es) == {}
    ensures LastLeaf(es).Some? ==> LastLeaf(es).value in Leaves(es) && forall x :: x in Leaves(es) ==> x <= LastLeaf(es).value
  {
    if es != [] {
      LeavesGrow(es);
      var n := |es| - 1;
      LastLeafIsLargest(es[..n]);
      if es[n].leaf.Some? {
        forall x | x in Leaves(es[..n]) ensures x <= es[n].leaf.value {
          var i :| 0 <= i < n && es[..n][i].leaf == Some(x);
          assert es[i].leaf == Some(x);
        }
      }
    }
  }

  /** A leaf that was seen before is the last one seen. */
  lemma SeenBeforeIsLast(es: seq<Event>)
    requires es != [] && LeavesNeverDecrease(es) && es[|es| - 1].leaf.Some?
    ensures es[|es| - 1].leaf.value in Leaves(es[..|es| - 1]) <==> LastLeaf(es[..|es| - 1]) == es[|es| - 1].leaf
  {
    var most := es[..|es| - 1];
    LeavesGrow(es);
    LastLeafIsLargest(most);
    LastLeafIsLargest(es);
    if LastLeaf(most).Some? { assert LastLeaf(most).value in Leaves(es); }
  }

  lemma {:induction false} RunsAreDistinctLeaves(es: seq<Event>)
    requires LeavesNeverDecrease(es)
    ensures LeafRuns(es) == |Leaves(es)|
  {
    if es != [] {
      var most, leaf := es[..|es| - 1], es[|es| - 1].leaf;
      RunsAreDistinctLeaves(most);
      LeavesGrow(es);
      if leaf.Some? {
        SeenBeforeIsLast(es);
        AddOne(Leaves(most), leaf.value);
      } else {
        assert Leaves(es) == Leaves(most);
      }
    }
  }

  lemma AddOne(s: set<int>, x: int)
    ensures |s + {x}| == |s| + if x in s then 0 else 1
  {
    if x in s { assert s + {x} == s; }
  }

  /** With leaf expiries that never decrease, no certificate causes two restarts,
      however short its lifetime is next to the grace period. */
  lemma RestartsBoundedByLeavesAndRotations(grace: int, w: Workload, es: seq<Event>)
    requires LeavesNeverDecrease(es)
    ensures Count(grace, w, es) <= |Leaves(es)| + HashChanges(w.bundleHash, es)
  {
    RestartBound(grace, w, es);
    RunsAreDistinctLeaves(es);
  }

  function Clock(grace: nat, n: nat): nat { if n == 0 then 0 else Clock(grace, n - 1) + grace }

  /** Two certificates seen in turn, a grace period apart. */
  function Alternating(grace: nat, n: nat): (es: seq<Event>)
    ensures |es| == n
  {
    if n == 0 then []
    else Alternating(grace, n - 1) + [Event(Clock(grace, n), Clock(grace, n), Some(n % 2), "")]
  }

  const UNTOUCHED := Workload("", NoTrigger, None)

  function Alternated(grace: nat, n: nat): Workload {
    if n == 0 then UNTOUCHED else Workload("", Triggered(Clock(grace, n)), Some(n % 2))
  }

  /** Every reconcile of the alternating run restarts. */
  lemma AlternatingStep(grace: nat, n: nat)
    requires n > 0 && grace > 1
    ensures var e := Event(Clock(grace, n), Clock(grace, n), Some(n % 2), "");
            Restarts(grace, Alternated(grace, n - 1), e) && Reconcile(grace, Alternated(grace, n - 1), e) == Alternated(grace, n)
  {
    assert Clock(grace, n) >= grace;
  }

  lemma RunGrows(grace: int, w: Workload, es: seq<Event>, e: Event)
    ensures After(grace, w, es + [e]) == Reconcile(grace, After(grace, w, es), e)
    ensures Count(grace, w, es + [e]) == Count(grace, w, es) + if Restarts(grace, After(grace, w, es), e) then 1 else 0
  {
    assert (es + [e])[..|es|] == es;
  }

  lemma {:induction false} AlternatingLeaves(grace: nat, n: nat)
    ensures Leaves(Alternating(grace, n)) <= {0, 1}
  {
    if n > 0 {
      AlternatingLeaves(grace, n - 1);
      LeavesGrow(Alternating(grace, n));
      assert Alternating(grace, n)[..n - 1] == Alternating(grace, n - 1);
    }
  }

  /** Without that ordering two leaf expiries can cause any number of restarts. */
  lemma {:induction false} AlternatingLeavesKeepRestarting(grace: nat, n: nat)
    requires grace > 1
    ensures Count(grace, UNTOUCHED, Alternating(grace, n)) == n
    ensures Leaves(Alternating(grace, n)) <= {0, 1}
    ensures After(grace, UNTOUCHED, Alternating(grace, n)) == Alternated(grace, n)
  {
    AlternatingLeaves(grace, n);
    if n > 0 {
      AlternatingLeavesKeepRestarting(grace, n - 1);
      AlternatingStep(grace, n);
      RunGrows(grace, UNTOUCHED, Alternating(grace, n - 1), Event(Clock(grace, n), Clock(grace, n), Some(n % 2), ""));
    }
  }
}
