/** The `signature-verified` label of a workload: every agent card that targets the
    workload keeps its own verdict in an annotation, and the label says whether
    all of them are "true". Calls read the object, change the copy and write it
    back under Kubernetes optimistic concurrency. */
module VerifiedLabel {
  import opened Strings

  const PREFIX := "verified-state.agent.rossoctl.dev/"
  const LABEL := "agent.rossoctl.dev/signature-verified"
  const LAST_VERIFIED := "agent.rossoctl.dev/last-verified-state"
  /** Attempts allowed by `retry.DefaultRetry`. */
  const STEPS := 5

  type Texts = map<string, string>

  datatype Object = Object(version: nat, annotations: Texts, labels: Texts)

  function CardKey(card: string): string { PREFIX + card }

  predicate PerCard(key: string) { PREFIX <= key }

  lemma CardKeys(card: string, other: string)
    ensures PerCard(CardKey(card)) && CardKey(card)[|PREFIX|..] == card
    ensures CardKey(card) == CardKey(other) ==> card == other
    ensures !PerCard(LAST_VERIFIED)
  {
    assert CardKey(other)[|PREFIX|..] == other;
    assert PREFIX[0] != LAST_VERIFIED[0];
  }

  /** At least one card has a verdict, and every verdict is "true". */
  ghost predicate Aggregate(annotations: Texts) {
    && (exists k :: k in annotations && PerCard(k))
    && (forall k :: k in annotations && PerCard(k) ==> annotations[k] == "true")
  }

  method AggregateVerifiedState(annotations: Texts) returns (all: bool)
    ensures all == Aggregate(annotations)
  {
    var found := false;
    var todo := annotations.Keys;
    while todo != {}
      invariant todo <= annotations.Keys
      invariant found == exists k :: k in annotations.Keys - todo && PerCard(k)
      invariant forall k :: k in annotations.Keys - todo && PerCard(k) ==> annotations[k] == "true"
    {
      var k :| k in todo;
      todo := todo - {k};
      assert annotations.Keys - todo == annotations.Keys - (todo + {k}) + {k};
      if PREFIX <= k {
        found := true;
        if annotations[k] != "true" { return false; }
      }
    }
    return found;
  }

  /** The label's value as Go reads it: "" when absent. */
  function Label(labels: Texts): string { if LABEL in labels then labels[LABEL] else "" }

  ghost predicate Exact(o: Object) {
    Label(o.labels) == if Aggregate(o.annotations) then "true" else ""
  }

  function Flag(verified: bool): string { if verified then "true" else "false" }

  ghost function Relabel(annotations: Texts, labels: Texts): Texts {
    if Aggregate(annotations) then labels[LABEL := "true"] else labels - {LABEL}
  }

  lemma RelabelIsExact(o: Object)
    ensures Exact(o.(labels := Relabel(o.annotations, o.labels)))
  {
  }

  // ---------- one attempt ----------

  datatype Task = Propagate(card: string, verified: bool) | Cleanup(card: string)

  /** The call finds nothing to write. */
  ghost predicate Settled(t: Task, o: Object) {
    match t
    case Propagate(card, verified) => Verdict(o, card) == Some(Flag(verified)) && Exact(o)
    case Cleanup(card) => Verdict(o, card) == None
  }

  function Verdict(o: Object, card: string): Option<string> {
    if CardKey(card) in o.annotations then Some(o.annotations[CardKey(card)]) else None
  }

  /** The copy the call writes back. */
  ghost function Changed(t: Task, o: Object): Object {
    var annotations := match t
      case Propagate(card, verified) => o.annotations[CardKey(card) := Flag(verified)] - {LAST_VERIFIED}
      case Cleanup(card) => o.annotations - {CardKey(card)};
    o.(annotations := annotations, labels := Relabel(annotations, o.labels))
  }

  /** What a completed call leaves behind for its card. */
  function Outcome(t: Task): Option<string> {
    match t case Propagate(_, verified) => Some(Flag(verified)) case Cleanup(_) => None
  }

  /** A write sets the card's own verdict, no other card's, and the label. */
  lemma ChangedIsRight(t: Task, o: Object, card: string)
    ensures Verdict(Changed(t, o), card) == if card == t.card then Outcome(t) else Verdict(o, card)
    ensures Exact(Changed(t, o)) && Changed(t, o).version == o.version
  {
    CardKeys(t.card, card);
    CardKeys(card, t.card);
    RelabelIsExact(Changed(t, o));
  }

  /** A write touches its own annotation, the deprecated one and the label, and
      nothing else; a propagate removes the deprecated annotation. */
  lemma ChangedTouchesOnlyOurs(t: Task, o: Object, k: string)
    ensures k != CardKey(t.card) && k != LAST_VERIFIED ==>
      && (k in Changed(t, o).annotations <==> k in o.annotations)
      && (k in o.annotations ==> Changed(t, o).annotations[k] == o.annotations[k])
    ensures k != LABEL ==>
      && (k in Changed(t, o).labels <==> k in o.labels)
      && (k in o.labels ==> Changed(t, o).labels[k] == o.labels[k])
    ensures t.Propagate? ==> LAST_VERIFIED !in Changed(t, o).annotations
    ensures t.Cleanup? ==> (LAST_VERIFIED in Changed(t, o).annotations <==> LAST_VERIFIED in o.annotations)
  {
    CardKeys(t.card, t.card);
  }

  lemma SettledIsRight(t: Task, o: Object)
    requires Settled(t, o)
    ensures Verdict(o, t.card) == Outcome(t)
  {
  }

  /** A freshly read workload object, changed in place by one attempt. */
  class Workload {
    var version: nat
    var annotations: Texts
    var labels: Texts

    constructor (o: Object)
      ensures Value() == o
    {
      version, annotations, labels := o.version, o.annotations, o.labels;
    }

    function Value(): Object
      reads this
    {
      Object(version, annotations, labels)
    }

    /** The label is what the annotations call for. */
    method LabelCorrect() returns (correct: bool)
      ensures correct == Exact(Value())
    {
      var aggregated := AggregateVerifiedState(annotations);
      var current := if LABEL in labels then labels[LABEL] else "";
      return (aggregated && current == "true") || (!aggregated && current == "");
    }

    method SetLabel()
      modifies `labels
      ensures labels == Relabel(annotations, old(labels))
    {
      var aggregated := AggregateVerifiedState(annotations);
      if aggregated {
        labels := labels[LABEL := "true"];
      } else {
        labels := labels - {LABEL};
      }
    }

    /** The body of `propagateLabelToWorkload` between Get and Update. */
    method PropagateAttempt(card: string, verified: bool) returns (write: bool)
      modifies this
      ensures write == !Settled(Propagate(card, verified), old(Value()))
      ensures Value() == if write then Changed(Propagate(card, verified), old(Value())) else old(Value())
    {
      var anno := PREFIX + card;
      var desired := if verified then "true" else "false";
      if anno in annotations && annotations[anno] == desired {
        var correct := LabelCorrect();
        if correct { return false; }
      }
      annotations := annotations[anno := desired];
      annotations := annotations - {LAST_VERIFIED};
      SetLabel();
      return true;
    }

    /** The body of `cleanupPerCardAnnotation` between Get and Update. */
    method CleanupAttempt(card: string) returns (write: bool)
      modifies this
      ensures write == !Settled(Cleanup(card), old(Value()))
      ensures Value() == if write then Changed(Cleanup(card), old(Value())) else old(Value())
    {
      var anno := PREFIX + card;
      if anno !in annotations { return false; }
      annotations := annotations - {anno};
      SetLabel();
      return true;
    }
  }

  // ---------- interleaved calls ----------

  datatype Call = Idle | Reading(task: Task, tries: nat) | Writing(task: Task, tries: nat, copy: Object) | Failed(task: Task)

  /** `log` lists the tasks whose calls returned success, oldest first. */
  datatype State = State(stored: Object, calls: map<int, Call>, log: seq<Task>)

  /** `Foreign` is any other write to the object; `Drop` is a failed request. */
  datatype Action =
    | Start(id: int, task: Task)
    | Read(id: int)
    | Write(id: int)
    | Drop(id: int)
    | Foreign(annotations: Texts, labels: Texts)

  /** Other writers leave the verdicts and the label alone. */
  ghost predicate LeavesOurs(o: Object, annotations: Texts, labels: Texts) {
    && (forall k | PerCard(k) :: (k in annotations <==> k in o.annotations) && (k in annotations ==> annotations[k] == o.annotations[k]))
    && Label(labels) == Label(o.labels)
  }

  function At(s: State, id: int): Call { if id in s.calls then s.calls[id] else Idle }

  /** The call returns success. */
  function Finish(s: State, id: int, t: Task): State { s.(calls := s.calls[id := Idle], log := s.log + [t]) }

  ghost function Get(s: State, id: int, t: Task, tries: nat): State {
    if Settled(t, s.stored) then Finish(s, id, t)
    else s.(calls := s.calls[id := Writing(t, tries, Changed(t, s.stored))])
  }

  /** Compare-and-set on the version; a conflict starts the next attempt. */
  function Update(s: State, id: int, t: Task, tries: nat, copy: Object): State {
    if copy.version == s.stored.version then
      Finish(s, id, t).(stored := copy.(version := s.stored.version + 1))
    else s.(calls := s.calls[id := if tries + 1 < STEPS then Reading(t, tries + 1) else Failed(t)])
  }

  ghost function Next(s: State, a: Action): State {
    match a
    case Start(id, t) => if At(s, id).Idle? || At(s, id).Failed? then s.(calls := s.calls[id := Reading(t, 0)]) else s
    case Read(id) => (match At(s, id) case Reading(t, tries) => Get(s, id, t, tries) case _ => s)
    case Write(id) => (match At(s, id) case Writing(t, tries, copy) => Update(s, id, t, tries, copy) case _ => s)
    case Drop(id) =>
      (match At(s, id)
       case Reading(t, _) => s.(calls := s.calls[id := Failed(t)])
       case Writing(t, _, _) => s.(calls := s.calls[id := Failed(t)])
       case _ => s)
    case Foreign(annotations, labels) =>
      if LeavesOurs(s.stored, annotations, labels)
      then s.(stored := Object(s.stored.version + 1, annotations, labels)) else s
  }

  ghost function Run(s: State, acts: seq<Action>): State {
    if acts == [] then s else Next(Run(s, acts[..|acts| - 1]), acts[|acts| - 1])
  }

  /** No call is under way and nothing has been logged. */
  predicate Initial(s: State) { s.calls == map[] && s.log == [] }

  /** A copy whose version is still current was made from the current object. */
  ghost predicate CopyOk(o: Object, c: Call) {
    c.Writing? ==>
      && c.copy.version <= o.version
      && Exact(c.copy)
      && (c.copy.version == o.version ==> c.copy == Changed(c.task, o))
  }

  ghost predicate CopiesOk(s: State) { forall id :: CopyOk(s.stored, At(s, id)) }

  /** The verdict the completed calls left for a card. */
  function LastWord(init: Object, log: seq<Task>, card: string): Option<string> {
    if log == [] then Verdict(init, card)
    else if log[|log| - 1].card == card then Outcome(log[|log| - 1])
    else LastWord(init, log[..|log| - 1], card)
  }

  ghost predicate Faithful(init: Object, s: State) {
    forall card :: Verdict(s.stored, card) == LastWord(init, s.log, card)
  }

  lemma ReadKeeps(init: Object, s: State, id: int)
    requires CopiesOk(s) && Faithful(init, s)
    ensures CopiesOk(Next(s, Read(id))) && Faithful(init, Next(s, Read(id)))
  {
    match At(s, id)
    case Reading(t, tries) =>
      var s' := Get(s, id, t, tries);
      ChangedIsRight(t, s.stored, t.card);
      forall other ensures CopyOk(s'.stored, At(s', other)) { assert CopyOk(s.stored, At(s, other)); }
      if Settled(t, s.stored) {
        SettledIsRight(t, s.stored);
        LogGrows(init, s, t, s'.stored);
      }
    case _ =>
  }

  /** Logging a task keeps the object faithful when the object shows its outcome. */
  lemma LogGrows(init: Object, s: State, t: Task, o: Object)
    requires Faithful(init, s)
    requires forall card :: Verdict(o, card) == if card == t.card then Outcome(t) else Verdict(s.stored, card)
    ensures forall card :: Verdict(o, card) == LastWord(init, s.log + [t], card)
  {
    assert (s.log + [t])[..|s.log|] == s.log;
  }

  lemma WriteKeeps(init: Object, s: State, id: int)
    requires CopiesOk(s) && Faithful(init, s)
    ensures CopiesOk(Next(s, Write(id))) && Faithful(init, Next(s, Write(id)))
  {
    match At(s, id)
    case Writing(t, tries, copy) =>
      var s' := Update(s, id, t, tries, copy);
      assert CopyOk(s.stored, At(s, id));
      forall other ensures CopyOk(s'.stored, At(s', other)) { assert CopyOk(s.stored, At(s, other)); }
      if copy.version == s.stored.version {
        forall card ensures Verdict(s'.stored, card) == if card == t.card then Outcome(t) else Verdict(s.stored, card) {
          ChangedIsRight(t, s.stored, card);
        }
        LogGrows(init, s, t, s'.stored);
      }
    case _ =>
  }

  lemma OtherKeeps(init: Object, s: State, a: Action)
    requires CopiesOk(s) && Faithful(init, s) && (a.Start? || a.Drop? || a.Foreign?)
    ensures CopiesOk(Next(s, a)) && Faithful(init, Next(s, a))
  {
    var s' := Next(s, a);
    forall other ensures CopyOk(s'.stored, At(s', other)) { assert CopyOk(s.stored, At(s, other)); }
    forall card ensures Verdict(s'.stored, card) == LastWord(init, s'.log, card) {
      CardKeys(card, card);
      assert Verdict(s.stored, card) == LastWord(init, s.log, card);
    }
  }

  /** No card's verdict is lost: in every interleaving each annotation is what the
      card's own last successful call left there. */
  lemma {:induction false} NoVerdictIsLost(s: State, acts: seq<Action>)
    requires Initial(s)
    ensures CopiesOk(Run(s, acts)) && Faithful(s.stored, Run(s, acts))
  {
    if acts == [] {
      assert forall id :: At(s, id).Idle?;
    } else {
      var most := acts[..|acts| - 1];
      var a := acts[|acts| - 1];
      NoVerdictIsLost(s, most);
      match a
      case Read(id) => ReadKeeps(s.stored, Run(s, most), id);
      case Write(id) => WriteKeeps(s.stored, Run(s, most), id);
      case _ => OtherKeeps(s.stored, Run(s, most), a);
    }
  }

  lemma ForeignKeepsAggregate(o: Object, annotations: Texts, labels: Texts)
    requires LeavesOurs(o, annotations, labels)
    ensures Exact(Object(o.version + 1, annotations, labels)) <==> Exact(o)
  {
    if k :| k in o.annotations && PerCard(k) {
      assert k in annotations;
    }
  }

  /** The step is a write that went through. */
  predicate Commits(s: State, a: Action) {
    a.Write? && At(s, a.id).Writing? && At(s, a.id).copy.version == s.stored.version
  }

  ghost predicate Wrote(s: State, acts: seq<Action>) {
    acts != [] && var most := acts[..|acts| - 1]; Wrote(s, most) || Commits(Run(s, most), acts[|acts| - 1])
  }

  /** A step leaves the label right exactly when it was right or the step is a write of
      ours that went through. */
  lemma StepExactly(s: State, a: Action)
    requires CopiesOk(s)
    ensures Exact(Next(s, a).stored) <==> Exact(s.stored) || Commits(s, a)
  {
    match a
    case Write(id) => assert CopyOk(s.stored, At(s, id));
    case Foreign(annotations, labels) =>
      if LeavesOurs(s.stored, annotations, labels) { ForeignKeepsAggregate(s.stored, annotations, labels); }
    case _ =>
  }

  /** In every interleaving the label is right exactly when it was right at the start or
      some call has written since. */
  lemma {:induction false} LabelRightExactlyAfterAWrite(s: State, acts: seq<Action>)
    requires Initial(s)
    ensures Exact(Run(s, acts).stored) <==> Exact(s.stored) || Wrote(s, acts)
  {
    if acts != [] {
      var most := acts[..|acts| - 1];
      LabelRightExactlyAfterAWrite(s, most);
      NoVerdictIsLost(s, most);
      StepExactly(Run(s, most), acts[|acts| - 1]);
    }
  }

  ghost predicate Propagated(log: seq<Task>) { exists i :: 0 <= i < |log| && log[i].Propagate? }

  /** Whatever the label was at the start, it is right in every state after a propagate
      call has succeeded. */
  lemma {:induction false} LabelRightAfterPropagate(s: State, acts: seq<Action>)
    requires Initial(s) && (Exact(s.stored) || Propagated(Run(s, acts).log))
    ensures Exact(Run(s, acts).stored)
  {
    if acts != [] {
      var most, a := acts[..|acts| - 1], acts[|acts| - 1];
      var t := Run(s, most);
      NoVerdictIsLost(s, most);
      LogGrowsByOne(t, a);
      if Exact(s.stored) || Propagated(t.log) {
        LabelRightAfterPropagate(s, most);
        StepExactly(t, a);
      } else {
        PropagateRestoresLabel(t, a);
      }
    }
  }

  lemma LogGrowsByOne(s: State, a: Action)
    ensures var log := Next(s, a).log; log == s.log || (log != [] && log[..|log| - 1] == s.log)
    ensures Propagated(Next(s, a).log) && !Propagated(s.log) ==>
              var log := Next(s, a).log; log != s.log && log != [] && log[|log| - 1].Propagate?
  {
    var log := Next(s, a).log;
    if Propagated(log) && !Propagated(s.log) {
      var i :| 0 <= i < |log| && log[i].Propagate?;
      assert forall j :: 0 <= j < |s.log| ==> !s.log[j].Propagate?;
    }
  }

  /** In every interleaving, once the label was right or a propagate call succeeded, the
      label is "true" exactly when some card's last successful call left a verdict and
      every such verdict is "true". */
  lemma LabelIsConjunction(s: State, acts: seq<Action>)
    requires Initial(s) && (Exact(s.stored) || Propagated(Run(s, acts).log))
    ensures var t := Run(s, acts);
            Label(t.stored.labels) == "true" <==> AllTrue(card => LastWord(s.stored, t.log, card))
  {
    var t := Run(s, acts);
    NoVerdictIsLost(s, acts);
    LabelRightAfterPropagate(s, acts);
    AggregateByCard(t.stored);
    assert |"true"| != |""|;
    var said, shown := card => LastWord(s.stored, t.log, card), card => Verdict(t.stored, card);
    AllTrueAgree(said, shown);
    assert AllTrue(shown) <==> Aggregate(t.stored.annotations);
  }

  ghost predicate AllTrue(verdict: string -> Option<string>) {
    (exists card :: verdict(card).Some?) && forall card | verdict(card).Some? :: verdict(card) == Some("true")
  }

  lemma AllTrueAgree(f: string -> Option<string>, g: string -> Option<string>)
    requires forall card :: f(card) == g(card)
    ensures AllTrue(f) <==> AllTrue(g)
  {
    if card :| f(card).Some? { assert g(card).Some?; }
    if card :| g(card).Some? { assert f(card).Some?; }
    if AllTrue(f) {
      forall card | g(card).Some? ensures g(card) == Some("true") { assert f(card).Some?; }
    }
    if AllTrue(g) {
      forall card | f(card).Some? ensures f(card) == Some("true") { assert g(card).Some?; }
    }
  }

  lemma AggregateByCard(o: Object)
    ensures Aggregate(o.annotations) <==> AllTrue(card => Verdict(o, card))
  {
    forall card ensures PerCard(CardKey(card)) { CardKeys(card, card); }
    forall k | PerCard(k) ensures CardKey(k[|PREFIX|..]) == k {
      assert k == k[..|PREFIX|] + k[|PREFIX|..];
    }
    var verdict := card => Verdict(o, card);
    if k :| k in o.annotations && PerCard(k) {
      assert verdict(k[|PREFIX|..]).Some?;
    }
    if AllTrue(verdict) {
      forall k | k in o.annotations && PerCard(k) ensures o.annotations[k] == "true" {
        assert verdict(k[|PREFIX|..]).Some?;
      }
    }
  }

  /** Whatever the label was, a propagate call that returns success leaves it right. */
  lemma PropagateRestoresLabel(s: State, a: Action)
    requires CopiesOk(s) && Next(s, a).log != s.log
    requires var log := Next(s, a).log; log != [] && log[|log| - 1].Propagate?
    ensures Exact(Next(s, a).stored)
  {
    match a
    case Write(id) => assert CopyOk(s.stored, At(s, id));
    case _ =>
  }

  /** A cleanup repairs the label only when it writes: without an annotation of its
      own card it returns before looking at the label. */
  lemma CleanupRestoresExactly(s: State, a: Action)
    requires CopiesOk(s) && Next(s, a).log != s.log
    requires var log := Next(s, a).log; log != [] && log[|log| - 1].Cleanup?
    ensures Exact(Next(s, a).stored) <==> a.Write? || Exact(s.stored)
  {
    match a
    case Write(id) => assert CopyOk(s.stored, At(s, id));
    case _ =>
  }

  /** Repeating a call that was its card's last successful one writes nothing,
      whatever the label was at the start and the other cards did in between. */
  lemma RepeatWritesNothing(s: State, acts: seq<Action>, id: int, i: nat)
    requires Initial(s)
    requires var t := Run(s, acts);
             && i < |t.log|
             && (forall j :: i < j < |t.log| ==> t.log[j].card != t.log[i].card)
             && At(t, id) == Reading(t.log[i], 0)
    ensures var t := Run(s, acts);
            Next(t, Read(id)).stored == t.stored && Next(t, Read(id)).log == t.log + [t.log[i]]
  {
    var t := Run(s, acts);
    NoVerdictIsLost(s, acts);
    if t.log[i].Propagate? { LabelRightAfterPropagate(s, acts); }
    LastWordIs(s.stored, t.log, i);
    assert Verdict(t.stored, t.log[i].card) == Outcome(t.log[i]);
  }

  lemma {:induction false} LastWordIs(init: Object, log: seq<Task>, i: nat)
    requires i < |log| && forall j :: i < j < |log| ==> log[j].card != log[i].card
    ensures LastWord(init, log, log[i].card) == Outcome(log[i])
  {
    if i < |log| - 1 { LastWordIs(init, log[..|log| - 1], i); }
  }

  /** A conflict means that some other write went through in between. */
  lemma ConflictMeansProgress(s: State, id: int)
    requires CopiesOk(s) && At(s, id).Writing? && Next(s, Write(id)).log == s.log
    ensures At(s, id).copy.version < s.stored.version
  {
    assert CopyOk(s.stored, At(s, id));
  }
}
