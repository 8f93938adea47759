/** Where a returned token comes from: in every interleaving it was exchanged in a flow
    for the same session key and resource, with a code delivered for that flow's own
    state value. */
module BrokerProvenance {
  import opened Strings
  import opened Broker
  import opened BrokerOwnership
  import SessionStore
  import TokenCache

  // ---- The state parameter ----

  /** `sessionKey.nonce` split at its last dot. */
  function KeyOf(state: string): Option<string> {
    var dot := LastIndexOf(state, '.');
    if dot == -1 then None else Some(state[..dot])
  }

  /** Splitting at the last dot recovers every session key, also one with dots in it,
      because the nonce has none. */
  lemma StateRoundTrip(key: string, nonce: string)
    requires '.' !in nonce
    ensures KeyOf(key + "." + nonce) == Some(key)
  {
    var state := key + "." + nonce;
    assert state[|key|] == '.';
    var dot := LastIndexOf(state, '.');
    assert forall n :: |key| < n < |state| ==> state[n] == nonce[n - |key| - 1];
    forall m | 0 <= m <= |key| ensures '.' in state[m..] { assert state[m..][|key| - m] == '.'; }
    assert state[..|key|] == key;
  }

  // ---- What every state records ----

  ghost predicate TxTraced(x: nat, t: Tx, delivered: set<Delivery>) {
    && (t.state == "" ==> t.chan == [])
    && (forall k :: 0 <= k < |t.chan| ==> t.chan[k].state == t.state && Delivery(x, t.state, t.chan[k].code) in delivered)
  }

  /** `t` is the call's own transaction. */
  ghost predicate CallTraced(c: Call, t: Tx, delivered: set<Delivery>) {
    && t.res == c.res
    && (if c.pc.TxStored? then t.state == "" else KeyOf(t.state) == Some(c.key))
    && (c.pc.GotCode? || c.pc.Exchanged? || c.pc.Cached? ==>
          c.completion.state == t.state && Delivery(c.tx, t.state, c.completion.code) in delivered)
  }

  /** The flow ran for its own user, key and resource, and its code was delivered for
      the state of its own transaction. */
  ghost predicate FlowTraced(s: State, f: Flow) {
    && f.owner < |s.store.created| && s.store.created[f.owner] == SessionStore.Session(f.key, f.user)
    && f.tx < |s.txs| && s.txs[f.tx].state == f.state && s.txs[f.tx].res == f.res
    && KeyOf(f.state) == Some(f.key)
    && Delivery(f.tx, f.state, f.code) in s.delivered
  }

  ghost predicate FromFlow(flows: seq<Flow>, key: string, res: string, token: string) {
    exists n :: 0 <= n < |flows| && flows[n].key == key && flows[n].res == res && flows[n].token == token
  }

  ghost predicate ResultTraced(flows: seq<Flow>, c: Call) {
    (c.pc.Cached? || c.pc.Releasing? || c.pc.Returned?) && c.result.Some? ==> FromFlow(flows, c.key, c.res, c.result.value)
  }

  ghost predicate CacheTraced(flows: seq<Flow>, cache: TokenCache.Tokens) {
    forall k, r :: TokenCache.Find(cache, k, r).Some? ==> FromFlow(flows, k, r, TokenCache.Find(cache, k, r).value.token)
  }

  ghost predicate TxsTraced(s: State) {
    && (forall x :: 0 <= x < |s.txs| ==> TxTraced(x, s.txs[x], s.delivered))
    && (forall i :: 0 <= i < |s.calls| && HasTx(s.calls[i].pc) ==>
          s.calls[i].tx < |s.txs| && CallTraced(s.calls[i], s.txs[s.calls[i].tx], s.delivered))
    && (forall n :: 0 <= n < |s.flows| ==> FlowTraced(s, s.flows[n]))
  }

  ghost predicate TokensTraced(s: State) {
    && CacheTraced(s.flows, s.cache)
    && (forall i :: 0 <= i < |s.calls| ==> ResultTraced(s.flows, s.calls[i]))
  }

  ghost predicate Traced(s: State) {
    Owned(s) && TxsTraced(s) && TokensTraced(s)
  }

  // ---- A call's own step ----

  ghost predicate EffectTraced(s: State, i: nat, c: Call, e: Effect) {
    && (e.tx.SetTx? && c.tx < |s.txs| ==>
          && TxTraced(c.tx, e.tx.t, s.delivered) && e.tx.t.res == s.txs[c.tx].res
          && (s.txs[c.tx].state != "" ==> e.tx.t.state == s.txs[c.tx].state))
    && (e.tx.NewTx? ==> TxTraced(|s.txs|, e.tx.t, s.delivered))
    && (HasTx(e.call.pc) ==>
          var t := if e.tx.KeepTx? && c.tx < |s.txs| then s.txs[c.tx] else if e.tx.KeepTx? then Tx(i, "", "", [], TxFailed) else e.tx.t;
          CallTraced(e.call, t, s.delivered))
    && (e.flow.Some? ==> HasTx(c.pc) && e.tx.KeepTx? && FlowTraced(s, e.flow.value)
                         && e.flow.value.key == c.key && e.flow.value.res == c.res && c.result == Some(e.flow.value.token)
                         && e.call == c.(pc := Cached))
  }

  lemma DecideTraced(s: State, i: nat, ok: bool, text: string, num: int)
    requires Traced(s) && i < |s.calls|
    ensures EffectTraced(s, i, s.calls[i], Decide(s, i, ok, text, num))
  {
    var c := s.calls[i];
    assert CallShape(s.store.created, |s.txs|, c);
    if HasTx(c.pc) {
      assert OwnsTx(s, i, c);
      assert CallTraced(c, s.txs[c.tx], s.delivered);
      assert TxTraced(c.tx, s.txs[c.tx], s.delivered);
    }
    if BeforeLock(c.pc) {
    } else if c.pc.TxStored? {
      BuildUrlTraced(s, i, c, ok, text);
    } else if c.pc.Waiting? {
      ReceiveTraced(s, i, c, ok, text);
    } else if c.pc.GotCode? {
      ExchangeTraced(s, i, c, ok, text);
    } else {
      HoldTraced(s, i, c, ok, num);
    }
  }

  ghost predicate Ready(s: State, i: nat, c: Call) {
    && OwnsTx(s, i, c) && SessionKey(s, c) == c.key
    && CallTraced(c, s.txs[c.tx], s.delivered) && TxTraced(c.tx, s.txs[c.tx], s.delivered)
  }

  lemma BuildUrlTraced(s: State, i: nat, c: Call, ok: bool, text: string)
    requires c.pc.TxStored? && Ready(s, i, c)
    ensures EffectTraced(s, i, c, UseTx(s, c, ok, text))
  {
    if '.' !in text { StateRoundTrip(c.key, text); }
  }

  lemma ReceiveTraced(s: State, i: nat, c: Call, ok: bool, text: string)
    requires c.pc.Waiting? && Ready(s, i, c)
    ensures EffectTraced(s, i, c, UseTx(s, c, ok, text))
  {
  }

  lemma ExchangeTraced(s: State, i: nat, c: Call, ok: bool, text: string)
    requires c.pc.GotCode? && Ready(s, i, c)
    ensures EffectTraced(s, i, c, UseTx(s, c, ok, text))
  {
    StatusDoesNotMatter(c.tx, s.txs[c.tx], TxCompleted, s.delivered);
    StatusDoesNotMatter(c.tx, s.txs[c.tx], TxFailed, s.delivered);
    assert ActiveTx(s, c) == Some(c.tx);
  }

  lemma StatusDoesNotMatter(x: nat, t: Tx, status: Status, delivered: set<Delivery>)
    requires TxTraced(x, t, delivered)
    ensures TxTraced(x, t.(status := status), delivered)
  {
  }

  lemma HoldTraced(s: State, i: nat, c: Call, ok: bool, num: int)
    requires !BeforeLock(c.pc) && !(c.pc.TxStored? || c.pc.Waiting? || c.pc.GotCode?)
    requires CallShape(s.store.created, |s.txs|, c)
    requires HasTx(c.pc) ==> OwnsTx(s, i, c) && CallTraced(c, s.txs[c.tx], s.delivered) && TxTraced(c.tx, s.txs[c.tx], s.delivered)
    ensures EffectTraced(s, i, c, Hold(s, i, c, ok, num))
  {
  }

  // ---- Every other record is untouched ----

  lemma TxsTracedCommit(s: State, i: nat, e: Effect)
    requires Traced(s) && i < |s.calls|
    requires TxMoves(s, i, s.calls[i], e) && EffectTraced(s, i, s.calls[i], e) && EffectShape(s, e)
    ensures TxsTraced(Commit(s, i, e))
  {
    var s', c := Commit(s, i, e), s.calls[i];
    CommitIsLocal(s, i, e);
    forall x | 0 <= x < |s'.txs| ensures TxTraced(x, s'.txs[x], s'.delivered) {
      if x < |s.txs| { assert TxTraced(x, s.txs[x], s.delivered); }
    }
    forall j | 0 <= j < |s'.calls| && HasTx(s'.calls[j].pc)
      ensures s'.calls[j].tx < |s'.txs| && CallTraced(s'.calls[j], s'.txs[s'.calls[j].tx], s'.delivered)
    {
      if j != i {
        assert OwnsTx(s, j, s.calls[j]);
        if e.tx.SetTx? { assert OwnsTx(s, i, c); }
      }
    }
    forall n | 0 <= n < |s'.flows| ensures FlowTraced(s', s'.flows[n]) {
      if n < |s.flows| { assert FlowTraced(s, s.flows[n]); }
      assert LastIndexOf("", '.') == -1;
    }
  }

  lemma FromFlowGrows(flows: seq<Flow>, more: seq<Flow>, key: string, res: string, token: string)
    requires FromFlow(flows, key, res, token)
    ensures FromFlow(flows + more, key, res, token)
  {
    var n :| 0 <= n < |flows| && flows[n].key == key && flows[n].res == res && flows[n].token == token;
    assert (flows + more)[n] == flows[n];
  }

  /** The flows recorded by a step. */
  function Added(e: Effect): seq<Flow> {
    if e.flow.Some? then [e.flow.value] else []
  }

  lemma CacheTracedCommit(s: State, i: nat, e: Effect)
    requires CacheTraced(s.flows, s.cache) && i < |s.calls|
    ensures var s' := Commit(s, i, e); CacheTraced(s'.flows, s'.cache)
  {
    var s' := Commit(s, i, e);
    assert s'.flows == s.flows + Added(e);
    forall k, r | TokenCache.Find(s'.cache, k, r).Some?
      ensures FromFlow(s'.flows, k, r, TokenCache.Find(s'.cache, k, r).value.token)
    {
      if e.flow.Some? && (k, r) == (e.flow.value.key, e.flow.value.res) {
        assert s'.flows[|s.flows|] == e.flow.value;
      } else {
        FromFlowGrows(s.flows, Added(e), k, r, TokenCache.Find(s.cache, k, r).value.token);
      }
    }
  }

  /** A result that is new in this step was read from the cache or just exchanged. */
  ghost predicate ResultMoves(s: State, c: Call, e: Effect) {
    ResultTraced(s.flows + Added(e), e.call)
  }

  lemma DecideResult(s: State, i: nat, ok: bool, text: string, num: int)
    requires Traced(s) && i < |s.calls|
    ensures ResultMoves(s, s.calls[i], Decide(s, i, ok, text, num))
  {
    var c, e := s.calls[i], Decide(s, i, ok, text, num);
    assert ResultTraced(s.flows, c);
    DecideTraced(s, i, ok, text, num);
    if e.flow.Some? {
      assert (s.flows + Added(e))[|s.flows|] == e.flow.value;
    } else {
      assert s.flows + Added(e) == s.flows;
      assert CallShape(s.store.created, |s.txs|, c);
      if Lookup(s, c).Some? { LookupTraced(s, c); }
      if BeforeLock(c.pc) { ApproachResult(s, i, c, ok); } else { HeldResult(s, i, c, ok, text, num); }
    }
  }

  lemma LookupTraced(s: State, c: Call)
    requires CacheTraced(s.flows, s.cache) && Lookup(s, c).Some?
    ensures FromFlow(s.flows, c.key, c.res, Lookup(s, c).value)
  {
  }

  lemma ApproachResult(s: State, i: nat, c: Call, ok: bool)
    requires BeforeLock(c.pc) && (Lookup(s, c).Some? ==> FromFlow(s.flows, c.key, c.res, Lookup(s, c).value))
    ensures ResultTraced(s.flows, Approach(s, i, c, ok).call)
  {
  }

  lemma HeldResult(s: State, i: nat, c: Call, ok: bool, text: string, num: int)
    requires !BeforeLock(c.pc) && ResultTraced(s.flows, c) && CallShape(s.store.created, |s.txs|, c)
    requires Lookup(s, c).Some? ==> FromFlow(s.flows, c.key, c.res, Lookup(s, c).value)
    ensures c.pc.TxStored? || c.pc.Waiting? || c.pc.GotCode? ==> ResultTraced(s.flows, UseTx(s, c, ok, text).call)
    ensures !c.pc.Exchanged? ==> ResultTraced(s.flows, Hold(s, i, c, ok, num).call)
  {
  }

  lemma TokensTracedCommit(s: State, i: nat, e: Effect)
    requires TokensTraced(s) && i < |s.calls| && ResultMoves(s, s.calls[i], e)
    ensures TokensTraced(Commit(s, i, e))
  {
    var s' := Commit(s, i, e);
    CacheTracedCommit(s, i, e);
    assert s'.flows == s.flows + Added(e);
    forall j | 0 <= j < |s'.calls| ensures ResultTraced(s'.flows, s'.calls[j]) {
      if j != i {
        var d := s.calls[j];
        assert ResultTraced(s.flows, d);
        if (d.pc.Cached? || d.pc.Releasing? || d.pc.Returned?) && d.result.Some? {
          FromFlowGrows(s.flows, Added(e), d.key, d.res, d.result.value);
        }
      }
    }
  }

  lemma TracedStep(s: State, i: nat, ok: bool, text: string, num: int)
    requires Traced(s) && i < |s.calls|
    ensures Traced(StepCall(s, i, ok, text, num))
  {
    var e := Decide(s, i, ok, text, num);
    OwnedStep(s, i, ok, text, num);
    DecideMoves(s, i, ok, text, num);
    ShapeDecide(s, i, ok, text, num);
    DecideTraced(s, i, ok, text, num);
    DecideResult(s, i, ok, text, num);
    TxsTracedCommit(s, i, e);
    TokensTracedCommit(s, i, e);
  }

  // ---- The other actions ----

  lemma TracedDeliver(s: State, state: string, code: string)
    requires Traced(s)
    ensures Traced(Next(s, Callback(state, code)))
  {
    OwnedNext(s, Callback(state, code));
    TxsTracedDeliver(s, state, code);
  }

  lemma TxsTracedDeliver(s: State, state: string, code: string)
    requires Traced(s)
    ensures TxsTraced(Next(s, Callback(state, code)))
  {
    var s' := Next(s, Callback(state, code));
    forall x | 0 <= x < |s'.txs| ensures TxTraced(x, s'.txs[x], s'.delivered) { assert TxTraced(x, s.txs[x], s.delivered); }
    forall n | 0 <= n < |s'.flows| ensures FlowTraced(s', s'.flows[n]) { assert FlowTraced(s, s.flows[n]); }
  }

  lemma TracedManage(s: State, op: SessionStore.Op)
    requires Traced(s)
    ensures Traced(Next(s, Manage(op)))
  {
    OwnedNext(s, Manage(op));
    CreatedGrows(s.store, op);
    var s' := Next(s, Manage(op));
    forall n | 0 <= n < |s'.flows| ensures FlowTraced(s', s'.flows[n]) { assert FlowTraced(s, s.flows[n]); }
  }

  lemma TracedOther(s: State, a: Action)
    requires Traced(s) && (a.Tick? || a.Arrive? || a.CleanCache?)
    ensures Traced(Next(s, a))
  {
    var s' := Next(s, a);
    OwnedNext(s, a);
    forall n | 0 <= n < |s'.flows| ensures FlowTraced(s', s'.flows[n]) { assert FlowTraced(s, s.flows[n]); }
  }

  lemma {:induction false} TracedRun(maxPerUser: int, acts: seq<Action>)
    ensures Traced(Run(maxPerUser, acts))
    decreases |acts|
  {
    if acts != [] {
      var s, a := Run(maxPerUser, acts[..|acts| - 1]), acts[|acts| - 1];
      TracedRun(maxPerUser, acts[..|acts| - 1]);
      match a
      case Step(i, ok, text, num) => if i < |s.calls| { TracedStep(s, i, ok, text, num); }
      case Callback(state, code) => TracedDeliver(s, state, code);
      case Manage(op) => TracedManage(s, op);
      case _ => TracedOther(s, a);
    }
  }

  // ---- Main results ----

  /** The session key was never given to a second user. */
  ghost predicate NeverRebound(s: State, key: string) {
    forall i, j :: 0 <= i < |s.store.created| && 0 <= j < |s.store.created|
                   && s.store.created[i].key == key && s.store.created[j].key == key ==>
      s.store.created[i].user == s.store.created[j].user
  }

  /** Every token a call returns came from a flow for its key and resource, whose code
      was delivered for the flow's own state; if that key is never rebound to another
      user, the flow was started by the same user. */
  lemma ReturnedTokenHasProvenance(maxPerUser: int, acts: seq<Action>, i: nat)
    requires i < |Run(maxPerUser, acts).calls| && Run(maxPerUser, acts).calls[i].pc.Returned?
    ensures var s := Run(maxPerUser, acts); var c := s.calls[i];
            exists n :: 0 <= n < |s.flows| && FlowTraced(s, s.flows[n])
                        && s.flows[n].key == c.key && s.flows[n].res == c.res && c.result == Some(s.flows[n].token)
                        && (NeverRebound(s, c.key) ==> s.flows[n].user == c.user)
  {
    TracedRun(maxPerUser, acts);
    var s := Run(maxPerUser, acts);
    var c := s.calls[i];
    assert CallShape(s.store.created, |s.txs|, c) && ResultTraced(s.flows, c);
    var n :| 0 <= n < |s.flows| && s.flows[n].key == c.key && s.flows[n].res == c.res && s.flows[n].token == c.result.value;
    assert FlowTraced(s, s.flows[n]);
  }

  /** A callback for a waiting flow's own state reaches that flow while its session is
      in the table. */
  lemma CallbackReachesItsFlow(maxPerUser: int, acts: seq<Action>, i: nat, code: string)
    requires var s := Run(maxPerUser, acts);
             i < |s.calls| && (s.calls[i].pc.UrlBuilt? || s.calls[i].pc.Waiting?)
             && s.calls[i].key in s.store.sessions && s.store.sessions[s.calls[i].key] == s.calls[i].session
    ensures var s := Run(maxPerUser, acts); var c := s.calls[i];
            && c.tx < |s.txs|
            && (s.txs[c.tx].chan == [] ==>
                  var s' := Next(s, Callback(s.txs[c.tx].state, code));
                  c.tx < |s'.txs| && s'.txs[c.tx].chan == [Completion(code, s.txs[c.tx].state)])
  {
    TracedRun(maxPerUser, acts);
    var s := Run(maxPerUser, acts);
    assert OwnsTx(s, i, s.calls[i]);
    assert CallTraced(s.calls[i], s.txs[s.calls[i].tx], s.delivered);
  }
}
