/** Critical-section ownership: who holds a session's semaphore and whose transaction
    its `ActiveOAuthTx` is, in every interleaving. */
module BrokerOwnership {
  import opened Strings
  import opened Broker
  import SessionStore

  /** The semaphore channel of a session object holds exactly the call that is between
      acquire and release on it. */
  ghost predicate Mutex(s: State) {
    && (forall i :: 0 <= i < |s.calls| && InCritical(s.calls[i].pc) ==>
          s.calls[i].session < |s.live| && s.live[s.calls[i].session].sem == [i])
    && (forall id :: 0 <= id < |s.live| ==> SemHeld(s, id))
  }

  ghost predicate SemHeld(s: State, id: nat)
    requires id < |s.live|
  {
    var sem := s.live[id].sem;
    sem == [] || (|sem| == 1 && sem[0] < |s.calls| && InCritical(s.calls[sem[0]].pc) && s.calls[sem[0]].session == id)
  }

  /** From storing its transaction to clearing it, a call finds its own, non-nil
      transaction in the session. */
  ghost predicate Owns(s: State) {
    forall i :: 0 <= i < |s.calls| && HasTx(s.calls[i].pc) ==> OwnsTx(s, i, s.calls[i])
  }

  ghost predicate OwnsTx(s: State, i: nat, c: Call) {
    && c.session < |s.live| && s.live[c.session].tx == Some(c.tx)
    && c.tx < |s.txs| && s.txs[c.tx].owner == i
  }

  ghost predicate Owned(s: State) {
    Shape(s) && Mutex(s) && Owns(s)
  }

  // ---- A call's own step ----

  /** What a step may do to its semaphore. */
  ghost predicate SemMoves(i: nat, c: Call, l: Live, e: Effect) {
    || (e.live.sem == l.sem && InCritical(e.call.pc) == InCritical(c.pc) && (InCritical(c.pc) ==> e.call.session == c.session))
    || (!InCritical(c.pc) && l.sem == [] && e.live.sem == [i] && InCritical(e.call.pc) && e.call.session == c.session)
    || (InCritical(c.pc) && e.live.sem == Release(l.sem) && !InCritical(e.call.pc))
  }

  /** What a step may do to its transaction: never the owner of the active one. */
  ghost predicate TxMoves(s: State, i: nat, c: Call, e: Effect) {
    && (e.tx.SetTx? ==> HasTx(c.pc) && ActiveTx(s, c) == Some(c.tx) && c.tx < |s.txs|
                        && e.tx.t.owner == i && e.live.tx == LiveOf(s, c).tx)
    && (e.tx.NewTx? ==> !HasTx(c.pc) && e.tx.t.owner == i && e.call.tx == |s.txs| && e.live.tx == Some(|s.txs|)
                        && e.call.session == c.session)
    && (HasTx(e.call.pc) && !e.tx.NewTx? ==>
          HasTx(c.pc) && e.call.tx == c.tx && e.call.session == c.session && e.live.tx == LiveOf(s, c).tx)
    && (InCritical(c.pc) || e.live.tx == LiveOf(s, c).tx)
  }

  lemma DecideMoves(s: State, i: nat, ok: bool, text: string, num: int)
    requires Owned(s) && i < |s.calls|
    ensures var e := Decide(s, i, ok, text, num);
            SemMoves(i, s.calls[i], LiveOf(s, s.calls[i]), e) && TxMoves(s, i, s.calls[i], e)
  {
    var c := s.calls[i];
    assert HasTx(c.pc) ==> OwnsTx(s, i, c);
    if BeforeLock(c.pc) {
      ApproachMoves(s, i, c, ok);
    } else if c.pc.TxStored? || c.pc.Waiting? || c.pc.GotCode? {
      UseTxMoves(s, i, c, ok, text);
    } else {
      HoldMoves(s, i, c, ok, num);
    }
  }

  lemma ApproachMoves(s: State, i: nat, c: Call, ok: bool)
    requires BeforeLock(c.pc)
    ensures SemMoves(i, c, LiveOf(s, c), Approach(s, i, c, ok)) && TxMoves(s, i, c, Approach(s, i, c, ok))
  {
    assert [] + [i] == [i];
  }

  lemma UseTxMoves(s: State, i: nat, c: Call, ok: bool, text: string)
    requires (c.pc.TxStored? || c.pc.Waiting? || c.pc.GotCode?) && OwnsTx(s, i, c)
    ensures SemMoves(i, c, LiveOf(s, c), UseTx(s, c, ok, text)) && TxMoves(s, i, c, UseTx(s, c, ok, text))
  {
  }

  lemma HoldMoves(s: State, i: nat, c: Call, ok: bool, num: int)
    requires !BeforeLock(c.pc) && !(c.pc.TxStored? || c.pc.Waiting? || c.pc.GotCode?)
    ensures SemMoves(i, c, LiveOf(s, c), Hold(s, i, c, ok, num)) && TxMoves(s, i, c, Hold(s, i, c, ok, num))
  {
  }

  // ---- Every other call is untouched ----

  lemma MutexCommit(s: State, i: nat, e: Effect)
    requires Shape(s) && Mutex(s) && i < |s.calls| && SemMoves(i, s.calls[i], LiveOf(s, s.calls[i]), e)
    requires InCritical(e.call.pc) ==> e.call.session < |s.live|
    ensures Mutex(Commit(s, i, e))
  {
    var s', c := Commit(s, i, e), s.calls[i];
    CommitIsLocal(s, i, e);
    forall j | 0 <= j < |s'.calls| && InCritical(s'.calls[j].pc)
      ensures s'.calls[j].session < |s'.live| && s'.live[s'.calls[j].session].sem == [j]
    {
      if j != i && s.calls[j].session == c.session { assert s.live[c.session].sem == [j]; }
    }
    forall id | 0 <= id < |s'.live| ensures SemHeld(s', id) {
      assert SemHeld(s, id);
    }
  }

  lemma OwnsCommit(s: State, i: nat, e: Effect)
    requires Owned(s) && i < |s.calls| && TxMoves(s, i, s.calls[i], e)
    requires InCritical(s.calls[i].pc) ==> s.calls[i].session < |s.live|
    requires HasTx(e.call.pc) ==> e.call.session < |s.live|
    ensures Owns(Commit(s, i, e))
  {
    var s', c := Commit(s, i, e), s.calls[i];
    CommitIsLocal(s, i, e);
    forall j | 0 <= j < |s'.calls| && HasTx(s'.calls[j].pc) ensures OwnsTx(s', j, s'.calls[j]) {
      if j == i {
        assert HasTx(c.pc) ==> OwnsTx(s, i, c);
      } else {
        var d := s.calls[j];
        assert OwnsTx(s, j, d) && s.live[d.session].sem == [j];
        if InCritical(c.pc) {
          assert s.live[c.session].sem == [i];
          assert d.session != c.session;
        }
      }
    }
  }

  lemma OwnedStep(s: State, i: nat, ok: bool, text: string, num: int)
    requires Owned(s) && i < |s.calls|
    ensures Owned(StepCall(s, i, ok, text, num))
  {
    var e := Decide(s, i, ok, text, num);
    DecideMoves(s, i, ok, text, num);
    ShapeDecide(s, i, ok, text, num);
    ShapeStep(s, i, ok, text, num);
    MutexCommit(s, i, e);
    OwnsCommit(s, i, e);
  }

  // ---- The other actions ----

  lemma OwnedManage(s: State, op: SessionStore.Op)
    requires Owned(s)
    ensures Owned(Next(s, Manage(op)))
  {
    ShapeNext(s, Manage(op));
    CreatedGrows(s.store, op);
    var s' := Next(s, Manage(op));
    forall id | 0 <= id < |s'.live| ensures SemHeld(s', id) {
      if id < |s.live| { assert SemHeld(s, id); }
    }
    forall i | 0 <= i < |s'.calls| && HasTx(s'.calls[i].pc) ensures OwnsTx(s', i, s'.calls[i]) {
      assert OwnsTx(s, i, s.calls[i]);
    }
  }

  lemma OwnedOther(s: State, a: Action)
    requires Owned(s) && !a.Step? && !a.Manage?
    ensures Owned(Next(s, a))
  {
    ShapeNext(s, a);
    var s' := Next(s, a);
    forall id | 0 <= id < |s'.live| ensures SemHeld(s', id) { assert SemHeld(s, id); }
    forall i | 0 <= i < |s'.calls| && HasTx(s'.calls[i].pc) ensures OwnsTx(s', i, s'.calls[i]) {
      assert OwnsTx(s, i, s.calls[i]);
    }
  }

  lemma OwnedNext(s: State, a: Action)
    requires Owned(s)
    ensures Owned(Next(s, a))
  {
    if a.Step? {
      if a.call < |s.calls| { OwnedStep(s, a.call, a.ok, a.text, a.num); }
    } else if a.Manage? {
      OwnedManage(s, a.op);
    } else {
      OwnedOther(s, a);
    }
  }

  lemma {:induction false} OwnedRun(maxPerUser: int, acts: seq<Action>)
    ensures Owned(Run(maxPerUser, acts))
    decreases |acts|
  {
    if acts != [] {
      OwnedRun(maxPerUser, acts[..|acts| - 1]);
      OwnedNext(Run(maxPerUser, acts[..|acts| - 1]), acts[|acts| - 1]);
    }
  }

  // ---- Main results ----

  /** The calls between acquire and release on a session object. */
  ghost function Holders(s: State, id: nat): set<nat> {
    set i: nat | i < |s.calls| && InCritical(s.calls[i].pc) && s.calls[i].session == id
  }

  /** In every run and for every session object, the length of the semaphore channel is
      the number of calls between acquire and release, and it is at most one. */
  lemma SemaphoreCountsHolders(maxPerUser: int, acts: seq<Action>, id: nat)
    requires id < |Run(maxPerUser, acts).live|
    ensures var s := Run(maxPerUser, acts);
            |s.live[id].sem| == |Holders(s, id)| <= 1
  {
    OwnedRun(maxPerUser, acts);
    var s := Run(maxPerUser, acts);
    assert SemHeld(s, id);
    assert Holders(s, id) == set i | i in s.live[id].sem;
    if s.live[id].sem != [] { assert Holders(s, id) == {s.live[id].sem[0]}; }
  }

  /** In every run a call about to release finds its own element in the channel (never
      the "not acquired" branch), a call using its transaction finds exactly that
      transaction in the session, and no call ever dereferences nil. */
  lemma CriticalSectionIsOwned(maxPerUser: int, acts: seq<Action>, i: nat)
    requires i < |Run(maxPerUser, acts).calls|
    ensures var s := Run(maxPerUser, acts); var c := s.calls[i];
            && (c.pc.Releasing? ==> c.session < |s.live| && s.live[c.session].sem == [i])
            && (HasTx(c.pc) ==> OwnsTx(s, i, c))
            && !c.pc.Panicked?
  {
    OwnedRun(maxPerUser, acts);
    NeverPanics(maxPerUser, acts);
  }

  lemma {:induction false} NeverPanics(maxPerUser: int, acts: seq<Action>)
    ensures forall i :: 0 <= i < |Run(maxPerUser, acts).calls| ==> !Run(maxPerUser, acts).calls[i].pc.Panicked?
    decreases |acts|
  {
    if acts != [] {
      var s, a := Run(maxPerUser, acts[..|acts| - 1]), acts[|acts| - 1];
      NeverPanics(maxPerUser, acts[..|acts| - 1]);
      OwnedRun(maxPerUser, acts[..|acts| - 1]);
      if a.Step? && a.call < |s.calls| { DecideDoesNotPanic(s, a.call, a.ok, a.text, a.num); }
    }
  }

  lemma DecideDoesNotPanic(s: State, i: nat, ok: bool, text: string, num: int)
    requires Owned(s) && i < |s.calls| && !s.calls[i].pc.Panicked?
    ensures !Decide(s, i, ok, text, num).call.pc.Panicked?
  {
    assert HasTx(s.calls[i].pc) ==> OwnsTx(s, i, s.calls[i]);
  }
}
