/** Double-checked locking gives single flight: for every session key that is never
    reused, whatever happens to other keys, a second flow for the session and a resource
    starts only once the first flow's token is expired or within five minutes of it. */
module BrokerSingleFlight {
  import opened Strings
  import opened Broker
  import opened BrokerOwnership
  import SessionStore
  import TokenCache

  predicate Same(f: Flow, key: string, res: string) {
    f.key == key && f.res == res
  }

  /** The earlier flow was finished and its token useless when the later one missed. */
  predicate GoneBy(f: Flow, missedAt: int) {
    f.storedAt <= missedAt && TokenCache.IsTokenExpired(f.expiresAt, missedAt)
  }

  ghost predicate Spaced(flows: seq<Flow>, key: string) {
    forall m, n :: 0 <= m < n < |flows| && flows[n].key == key && Same(flows[m], key, flows[n].res) ==>
      GoneBy(flows[m], flows[n].missedAt)
  }

  /** The token of a flow is useless by now or still the one in the cache. */
  ghost predicate UselessOrCached(s: State, f: Flow) {
    && f.storedAt <= s.now
    && (TokenCache.IsTokenExpired(f.expiresAt, s.now)
        || TokenCache.Find(s.cache, f.key, f.res) == Some(TokenCache.Entry(f.token, f.expiresAt, f.storedAt)))
  }

  /** Every finished flow for this call's key and resource was gone when the call missed. */
  ghost predicate AllGone(flows: seq<Flow>, c: Call) {
    forall n :: 0 <= n < |flows| && Same(flows[n], c.key, c.res) ==> GoneBy(flows[n], c.missedAt)
  }

  ghost predicate Timely(s: State, c: Call) {
    InFlow(c.pc) ==> c.missedAt <= s.now && AllGone(s.flows, c)
  }

  ghost predicate SingleFlight(s: State, key: string) {
    && Spaced(s.flows, key)
    && (forall n :: 0 <= n < |s.flows| && s.flows[n].key == key ==> UselessOrCached(s, s.flows[n]))
    && (forall i :: 0 <= i < |s.calls| && s.calls[i].key == key ==> Timely(s, s.calls[i]))
  }

  // ---- A call's own step ----

  lemma MissMeansGone(s: State, c: Call)
    requires Lookup(s, c).None? && forall n :: 0 <= n < |s.flows| && s.flows[n].key == c.key ==> UselessOrCached(s, s.flows[n])
    ensures AllGone(s.flows, c.(missedAt := s.now))
  {
    forall n | 0 <= n < |s.flows| && Same(s.flows[n], c.key, c.res) ensures GoneBy(s.flows[n], s.now) {
      assert UselessOrCached(s, s.flows[n]);
    }
  }

  ghost predicate EffectTimely(s: State, c: Call, e: Effect) {
    && (InFlow(e.call.pc) ==>
          && e.flow.None? && e.call.key == c.key && e.call.res == c.res
          && ((InFlow(c.pc) && e.call.missedAt == c.missedAt) || (Lookup(s, c).None? && e.call.missedAt == s.now)))
    && e.call.key == c.key
    && (e.flow.Some? ==>
          var f := e.flow.value;
          InFlow(c.pc) && Same(f, c.key, c.res) && f.missedAt == c.missedAt && f.storedAt == s.now)
  }

  lemma DecideTimely(s: State, i: nat, ok: bool, text: string, num: int)
    requires Owned(s) && i < |s.calls|
    ensures EffectTimely(s, s.calls[i], Decide(s, i, ok, text, num))
  {
    var c := s.calls[i];
    assert CallShape(s.store.created, |s.txs|, c);
    if BeforeLock(c.pc) {
    } else if c.pc.TxStored? || c.pc.Waiting? || c.pc.GotCode? {
    } else {
      HoldTimely(s, i, c, ok, num);
    }
  }

  lemma HoldTimely(s: State, i: nat, c: Call, ok: bool, num: int)
    requires CallShape(s.store.created, |s.txs|, c)
    requires !BeforeLock(c.pc) && !(c.pc.TxStored? || c.pc.Waiting? || c.pc.GotCode?)
    ensures EffectTimely(s, c, Hold(s, i, c, ok, num))
  {
  }

  /** A key that is never reused has one session object, so one call in a flow. */
  lemma OneFlowPerKey(s: State, i: nat, j: nat)
    requires Owned(s) && i < |s.calls| && SessionStore.NeverReused(s.store, s.calls[i].key)
    requires j < |s.calls| && InFlow(s.calls[i].pc) && InFlow(s.calls[j].pc)
    requires s.calls[i].key == s.calls[j].key
    ensures i == j
  {
    var c, d := s.calls[i], s.calls[j];
    assert CallShape(s.store.created, |s.txs|, c) && CallShape(s.store.created, |s.txs|, d);
    assert s.live[c.session].sem == [i] && s.live[d.session].sem == [j];
  }

  // ---- The history after it ----

  lemma SpacedCommit(s: State, i: nat, e: Effect, key: string)
    requires SingleFlight(s, key) && i < |s.calls| && EffectTimely(s, s.calls[i], e)
    ensures Spaced(Commit(s, i, e).flows, key)
  {
    if s.calls[i].key == key { assert Timely(s, s.calls[i]); }
  }

  lemma FlowsCommit(s: State, i: nat, e: Effect, key: string)
    requires SingleFlight(s, key) && i < |s.calls| && EffectTimely(s, s.calls[i], e)
    ensures var s' := Commit(s, i, e); forall n :: 0 <= n < |s'.flows| && s'.flows[n].key == key ==> UselessOrCached(s', s'.flows[n])
  {
    var s', c := Commit(s, i, e), s.calls[i];
    if c.key == key { assert Timely(s, c); }
    forall n | 0 <= n < |s'.flows| && s'.flows[n].key == key ensures UselessOrCached(s', s'.flows[n]) {
      if n < |s.flows| {
        assert UselessOrCached(s, s.flows[n]);
        if e.flow.Some? && Same(s.flows[n], c.key, c.res) { assert GoneBy(s.flows[n], c.missedAt); }
      }
    }
  }

  lemma CallsCommit(s: State, i: nat, e: Effect, key: string)
    requires Owned(s) && SingleFlight(s, key) && SessionStore.NeverReused(s.store, key)
    requires i < |s.calls| && EffectTimely(s, s.calls[i], e)
    ensures var s' := Commit(s, i, e); forall j :: 0 <= j < |s'.calls| && s'.calls[j].key == key ==> Timely(s', s'.calls[j])
  {
    var s', c := Commit(s, i, e), s.calls[i];
    if c.key == key { assert Timely(s, c); }
    forall j | 0 <= j < |s'.calls| && s'.calls[j].key == key ensures Timely(s', s'.calls[j]) {
      assert Timely(s, s.calls[j]);
      if j != i {
        if e.flow.Some? && InFlow(s.calls[j].pc) && c.key == key { OneFlowPerKey(s, i, j); }
      } else if InFlow(e.call.pc) && Lookup(s, c).None? {
        MissMeansGone(s, c);
      }
    }
  }

  lemma StepKeeps(s: State, i: nat, ok: bool, text: string, num: int, key: string)
    requires Owned(s) && SingleFlight(s, key) && SessionStore.NeverReused(s.store, key) && i < |s.calls|
    ensures SingleFlight(StepCall(s, i, ok, text, num), key)
  {
    var e := Decide(s, i, ok, text, num);
    DecideTimely(s, i, ok, text, num);
    SpacedCommit(s, i, e, key);
    FlowsCommit(s, i, e, key);
    CallsCommit(s, i, e, key);
  }

  lemma OtherKeeps(s: State, a: Action, key: string)
    requires SingleFlight(s, key) && !a.Step?
    ensures SingleFlight(Next(s, a), key)
  {
    var s' := Next(s, a);
    forall n | 0 <= n < |s'.flows| && s'.flows[n].key == key ensures UselessOrCached(s', s'.flows[n]) {
      assert UselessOrCached(s, s.flows[n]);
    }
    forall i | 0 <= i < |s'.calls| && s'.calls[i].key == key ensures Timely(s', s'.calls[i]) {
      if i < |s.calls| { assert Timely(s, s.calls[i]); }
    }
  }

  lemma KeyStaysFresh(s: State, a: Action, key: string)
    requires SessionStore.NeverReused(Next(s, a).store, key)
    ensures SessionStore.NeverReused(s.store, key)
  {
    if a.Manage? { CreatedGrows(s.store, a.op); }
  }

  lemma {:induction false} SingleFlightRun(maxPerUser: int, acts: seq<Action>, key: string)
    requires SessionStore.NeverReused(Run(maxPerUser, acts).store, key)
    ensures SingleFlight(Run(maxPerUser, acts), key)
    decreases |acts|
  {
    if acts != [] {
      var s, a := Run(maxPerUser, acts[..|acts| - 1]), acts[|acts| - 1];
      KeyStaysFresh(s, a, key);
      SingleFlightRun(maxPerUser, acts[..|acts| - 1], key);
      OwnedRun(maxPerUser, acts[..|acts| - 1]);
      if a.Step? {
        if a.call < |s.calls| { StepKeeps(s, a.call, a.ok, a.text, a.num, key); }
      } else {
        OtherKeeps(s, a, key);
      }
    }
  }

  // ---- Main results ----

  /** Of two successful flows for one session and resource, when the session's key is
      never reused, the later one found the cache empty only after the earlier one had stored its token and that token had
      expired or come within five minutes of expiry. */
  lemma SecondFlowOnlyAfterExpiry(maxPerUser: int, acts: seq<Action>, m: nat, n: nat)
    requires m < n < |Run(maxPerUser, acts).flows|
    requires var flows := Run(maxPerUser, acts).flows; flows[m].key == flows[n].key && flows[m].res == flows[n].res
    requires SessionStore.NeverReused(Run(maxPerUser, acts).store, Run(maxPerUser, acts).flows[n].key)
    ensures var flows := Run(maxPerUser, acts).flows;
            && flows[m].storedAt <= flows[n].missedAt <= flows[n].storedAt
            && flows[m].expiresAt < flows[n].missedAt + TokenCache.FIVE_MINUTES
  {
    SingleFlightRun(maxPerUser, acts, Run(maxPerUser, acts).flows[n].key);
    MissBeforeStore(maxPerUser, acts, Run(maxPerUser, acts).flows[n].key);
    assert Same(Run(maxPerUser, acts).flows[m], Run(maxPerUser, acts).flows[n].key, Run(maxPerUser, acts).flows[n].res);
  }

  lemma {:induction false} MissBeforeStore(maxPerUser: int, acts: seq<Action>, key: string)
    requires SessionStore.NeverReused(Run(maxPerUser, acts).store, key)
    ensures var flows := Run(maxPerUser, acts).flows;
            forall n :: 0 <= n < |flows| && flows[n].key == key ==> flows[n].missedAt <= flows[n].storedAt
    decreases |acts|
  {
    if acts != [] {
      var s, a := Run(maxPerUser, acts[..|acts| - 1]), acts[|acts| - 1];
      KeyStaysFresh(s, a, key);
      MissBeforeStore(maxPerUser, acts[..|acts| - 1], key);
      SingleFlightRun(maxPerUser, acts[..|acts| - 1], key);
      OwnedRun(maxPerUser, acts[..|acts| - 1]);
      if a.Step? && a.call < |s.calls| {
        if s.calls[a.call].key == key { assert Timely(s, s.calls[a.call]); }
        DecideTimely(s, a.call, a.ok, a.text, a.num);
      }
    }
  }

  /** At any moment at most one call per session key that is never reused is running a flow. */
  lemma OneFlowAtATime(maxPerUser: int, acts: seq<Action>, i: nat, j: nat)
    requires var s := Run(maxPerUser, acts);
             i < |s.calls| && SessionStore.NeverReused(s.store, s.calls[i].key) && j < |s.calls| && InFlow(s.calls[i].pc) && InFlow(s.calls[j].pc)
             && s.calls[i].key == s.calls[j].key
    ensures i == j
  {
    OwnedRun(maxPerUser, acts);
    OneFlowPerKey(Run(maxPerUser, acts), i, j);
  }
}
