/** Why provenance names the user only for keys that are never rebound, and why single
    flight needs keys that are never reused: ending a session leaves its tokens in the
    cache and its calls running, and the key can be given to a new session. */
module BrokerRebinding {
  import opened Strings
  import opened Broker
  import opened BrokerProvenance
  import SessionStore
  import TokenCache

  /** Who asks for what, and what the network answers. */
  datatype Story = Story(key: string, first: string, second: string, res: string,
                         nonce: string, code: string, token: string, expiresAt: int)

  predicate Possible(y: Story) {
    y.first != y.second && '.' !in y.nonce && !TokenCache.IsTokenExpired(y.expiresAt, 0)
  }

  lemma Then(maxPerUser: int, acts: seq<Action>, a: Action)
    ensures Run(maxPerUser, acts + [a]) == Next(Run(maxPerUser, acts), a)
  {
    assert (acts + [a])[..|acts|] == acts;
  }

  // ---- The first user's flow ----

  function OneSession(maxPerUser: int, y: Story): SessionStore.Store {
    SessionStore.Store(maxPerUser, [SessionStore.Session(y.key, y.first)], map[y.key := 0], map[y.first := [y.key]], map[], [], [], false)
  }

  function FirstCall(y: Story, pc: Pc): Call {
    Call(y.key, y.first, y.res, pc, 0, 0, 0, 0, Completion("", ""), None)
  }

  /** The only call in its flow. */
  function During(maxPerUser: int, y: Story, c: Call, l: Live, txs: seq<Tx>, delivered: set<Delivery>): State {
    State(0, OneSession(maxPerUser, y), [l], txs, [c], map[], delivered, [])
  }

  function Go(call: nat, text: string, num: int): Action { Step(call, true, text, num) }

  lemma Start(maxPerUser: int, y: Story)
    ensures var s := Next(Next(Init(maxPerUser), Manage(SessionStore.Create(y.key, y.first))), Arrive(y.key, y.first, y.res));
            s == During(maxPerUser, y, FirstCall(y, Begin), Live([], None), [], {})
  {
    assert SessionStore.DoCreate(SessionStore.Empty(maxPerUser), y.key, y.first) == OneSession(maxPerUser, y) by {
      assert [] + [y.key] == [y.key] && [] + [SessionStore.Session(y.key, y.first)] == [SessionStore.Session(y.key, y.first)];
    }
    assert [] + [Live([], None)] == [Live([], None)];
    assert [] + [FirstCall(y, Begin)] == [FirstCall(y, Begin)];
  }

  /** A step that changes the call and its session object, and perhaps the transaction. */
  lemma Advance(maxPerUser: int, y: Story, c: Call, l: Live, txs: seq<Tx>, told: set<Delivery>, a: Action, e: Effect, more: seq<Tx>)
    requires a.Step? && a.call == 0 && c.session == 0 && e.flow == None
    requires Decide(During(maxPerUser, y, c, l, txs, told), 0, a.ok, a.text, a.num) == e
    requires match e.tx
             case KeepTx => more == txs
             case SetTx(t) => |txs| == 1 && l.tx == Some(0) && more == [t]
             case NewTx(t) => more == txs + [t]
    ensures Next(During(maxPerUser, y, c, l, txs, told), a) == During(maxPerUser, y, e.call, e.live, more, told)
  {
    assert [c][0 := e.call] == [e.call] && [l][0 := e.live] == [e.live];
    if e.tx.SetTx? { assert txs[0 := e.tx.t] == [e.tx.t]; }
  }

  lemma Approaching(maxPerUser: int, y: Story, pc: Pc, next: Pc)
    requires (pc.Begin? && next.Validated?) || (pc.Validated? && next.Missed?) || (pc.Missed? && next.GotSession?)
    ensures Next(During(maxPerUser, y, FirstCall(y, pc), Live([], None), [], {}), Go(0, "", 0))
         == During(maxPerUser, y, FirstCall(y, next), Live([], None), [], {})
  {
    Advance(maxPerUser, y, FirstCall(y, pc), Live([], None), [], {}, Go(0, "", 0),
            Effect(FirstCall(y, next), Live([], None), KeepTx, None), []);
  }

  lemma Locking(maxPerUser: int, y: Story)
    ensures Next(During(maxPerUser, y, FirstCall(y, GotSession), Live([], None), [], {}), Go(0, "", 0))
         == During(maxPerUser, y, FirstCall(y, Locked), Live([0], None), [], {})
  {
    assert [] + [0] == [0];
    Advance(maxPerUser, y, FirstCall(y, GotSession), Live([], None), [], {}, Go(0, "", 0),
            Effect(FirstCall(y, Locked), Live([0], None), KeepTx, None), []);
  }

  function StateOf(y: Story): string { y.key + "." + y.nonce }

  function TheTx(y: Story, state: string, chan: seq<Completion>, status: Status): Tx { Tx(0, y.res, state, chan, status) }

  lemma Discovering(maxPerUser: int, y: Story, pc: Pc, next: Pc)
    requires (pc.Locked? && next.MustFlow?) || (pc.MustFlow? && next.Discovered?)
    ensures Next(During(maxPerUser, y, FirstCall(y, pc), Live([0], None), [], {}), Go(0, "", 0))
         == During(maxPerUser, y, FirstCall(y, next), Live([0], None), [], {})
  {
    Advance(maxPerUser, y, FirstCall(y, pc), Live([0], None), [], {}, Go(0, "", 0),
            Effect(FirstCall(y, next), Live([0], None), KeepTx, None), []);
  }

  lemma StoringTx(maxPerUser: int, y: Story)
    ensures Next(During(maxPerUser, y, FirstCall(y, Discovered), Live([0], None), [], {}), Go(0, "", 0))
         == During(maxPerUser, y, FirstCall(y, TxStored), Live([0], Some(0)), [TheTx(y, "", [], WaitingCode)], {})
  {
    var t := TheTx(y, "", [], WaitingCode);
    assert [] + [t] == [t];
    Advance(maxPerUser, y, FirstCall(y, Discovered), Live([0], None), [], {}, Go(0, "", 0),
            Effect(FirstCall(y, TxStored), Live([0], Some(0)), NewTx(t), None), [t]);
  }

  lemma BuildingUrl(maxPerUser: int, y: Story)
    requires Possible(y)
    ensures Next(During(maxPerUser, y, FirstCall(y, TxStored), Live([0], Some(0)), [TheTx(y, "", [], WaitingCode)], {}), Go(0, y.nonce, 0))
         == During(maxPerUser, y, FirstCall(y, UrlBuilt), Live([0], Some(0)), [TheTx(y, StateOf(y), [], WaitingCode)], {})
  {
    Advance(maxPerUser, y, FirstCall(y, TxStored), Live([0], Some(0)), [TheTx(y, "", [], WaitingCode)], {}, Go(0, y.nonce, 0),
            Effect(FirstCall(y, UrlBuilt), Live([0], Some(0)), SetTx(TheTx(y, StateOf(y), [], WaitingCode)), None),
            [TheTx(y, StateOf(y), [], WaitingCode)]);
  }

  lemma Publishing(maxPerUser: int, y: Story)
    ensures Next(During(maxPerUser, y, FirstCall(y, UrlBuilt), Live([0], Some(0)), [TheTx(y, StateOf(y), [], WaitingCode)], {}), Go(0, "", 0))
         == During(maxPerUser, y, FirstCall(y, Waiting), Live([0], Some(0)), [TheTx(y, StateOf(y), [], WaitingCode)], {})
  {
    var txs := [TheTx(y, StateOf(y), [], WaitingCode)];
    Advance(maxPerUser, y, FirstCall(y, UrlBuilt), Live([0], Some(0)), txs, {}, Go(0, "", 0),
            Effect(FirstCall(y, Waiting), Live([0], Some(0)), KeepTx, None), txs);
  }

  function Answered(y: Story): Completion { Completion(y.code, StateOf(y)) }

  function Told(y: Story): set<Delivery> { {Delivery(0, StateOf(y), y.code)} }

  /** The call with its code and, later, its token. */
  function WithCode(y: Story, pc: Pc, result: Option<string>): Call {
    FirstCall(y, pc).(completion := Answered(y), result := result)
  }

  lemma Answering(maxPerUser: int, y: Story)
    requires Possible(y)
    ensures Next(During(maxPerUser, y, FirstCall(y, Waiting), Live([0], Some(0)), [TheTx(y, StateOf(y), [], WaitingCode)], {}),
                 Callback(StateOf(y), y.code))
         == During(maxPerUser, y, FirstCall(y, Waiting), Live([0], Some(0)), [TheTx(y, StateOf(y), [Answered(y)], WaitingCode)], Told(y))
  {
    StateRoundTrip(y.key, y.nonce);
    var t := TheTx(y, StateOf(y), [], WaitingCode);
    var s := During(maxPerUser, y, FirstCall(y, Waiting), Live([0], Some(0)), [t], {});
    assert SessionByState(s, StateOf(y)) == Some(0);
    assert [] + [Answered(y)] == [Answered(y)] && {} + Told(y) == Told(y);
    assert [t][0 := t.(chan := [Answered(y)])] == [t.(chan := [Answered(y)])];
  }

  lemma Receiving(maxPerUser: int, y: Story)
    ensures Next(During(maxPerUser, y, FirstCall(y, Waiting), Live([0], Some(0)), [TheTx(y, StateOf(y), [Answered(y)], WaitingCode)], Told(y)), Go(0, "", 0))
         == During(maxPerUser, y, WithCode(y, GotCode, None), Live([0], Some(0)), [TheTx(y, StateOf(y), [], WaitingCode)], Told(y))
  {
    assert [Answered(y)][1..] == [];
    Advance(maxPerUser, y, FirstCall(y, Waiting), Live([0], Some(0)), [TheTx(y, StateOf(y), [Answered(y)], WaitingCode)], Told(y), Go(0, "", 0),
            Effect(WithCode(y, GotCode, None), Live([0], Some(0)), SetTx(TheTx(y, StateOf(y), [], WaitingCode)), None),
            [TheTx(y, StateOf(y), [], WaitingCode)]);
  }

  lemma Exchanging(maxPerUser: int, y: Story)
    ensures Next(During(maxPerUser, y, WithCode(y, GotCode, None), Live([0], Some(0)), [TheTx(y, StateOf(y), [], WaitingCode)], Told(y)), Go(0, y.token, 0))
         == During(maxPerUser, y, WithCode(y, Exchanged, Some(y.token)), Live([0], Some(0)), [TheTx(y, StateOf(y), [], TxCompleted)], Told(y))
  {
    Advance(maxPerUser, y, WithCode(y, GotCode, None), Live([0], Some(0)), [TheTx(y, StateOf(y), [], WaitingCode)], Told(y), Go(0, y.token, 0),
            Effect(WithCode(y, Exchanged, Some(y.token)), Live([0], Some(0)), SetTx(TheTx(y, StateOf(y), [], TxCompleted)), None),
            [TheTx(y, StateOf(y), [], TxCompleted)]);
  }

  function TheFlowOf(y: Story): Flow {
    Flow(0, y.key, y.first, y.res, y.token, y.expiresAt, 0, 0, 0, StateOf(y), y.code)
  }

  function Stored(y: Story): TokenCache.Tokens {
    map[y.key := map[y.res := TokenCache.Entry(y.token, y.expiresAt, 0)]]
  }

  /** The flow is over and its token is in the cache. */
  function Over(maxPerUser: int, y: Story, pc: Pc, l: Live): State {
    State(0, OneSession(maxPerUser, y), [l], [TheTx(y, StateOf(y), [], TxCompleted)],
          [WithCode(y, pc, Some(y.token))], Stored(y), Told(y), [TheFlowOf(y)])
  }

  lemma Caching(maxPerUser: int, y: Story)
    ensures Next(During(maxPerUser, y, WithCode(y, Exchanged, Some(y.token)), Live([0], Some(0)), [TheTx(y, StateOf(y), [], TxCompleted)], Told(y)),
                 Go(0, "", y.expiresAt))
         == Over(maxPerUser, y, Cached, Live([0], Some(0)))
  {
    var c := WithCode(y, Exchanged, Some(y.token));
    var s := During(maxPerUser, y, c, Live([0], Some(0)), [TheTx(y, StateOf(y), [], TxCompleted)], Told(y));
    var e := Effect(WithCode(y, Cached, Some(y.token)), Live([0], Some(0)), KeepTx, Some(TheFlowOf(y)));
    assert Decide(s, 0, true, "", y.expiresAt) == e;
    assert [c][0 := e.call] == [e.call] && [e.live][0 := e.live] == [e.live] && [] + [TheFlowOf(y)] == [TheFlowOf(y)];
    assert TokenCache.Put(map[], y.key, y.res, TokenCache.Entry(y.token, y.expiresAt, 0)) == Stored(y);
  }

  lemma Finishing(maxPerUser: int, y: Story)
    ensures Next(Over(maxPerUser, y, Cached, Live([0], Some(0))), Go(0, "", 0)) == Over(maxPerUser, y, Releasing, Live([0], None))
    ensures Next(Over(maxPerUser, y, Releasing, Live([0], None)), Go(0, "", 0)) == Over(maxPerUser, y, Returned, Live([], None))
  {
    Unstore(maxPerUser, y, Cached, Live([0], Some(0)), Releasing, Live([0], None));
    assert [0][1..] == [];
    Unstore(maxPerUser, y, Releasing, Live([0], None), Returned, Live([], None));
  }

  lemma Unstore(maxPerUser: int, y: Story, pc: Pc, l: Live, pc': Pc, l': Live)
    requires Decide(Over(maxPerUser, y, pc, l), 0, true, "", 0) == Effect(WithCode(y, pc', Some(y.token)), l', KeepTx, None)
    ensures Next(Over(maxPerUser, y, pc, l), Go(0, "", 0)) == Over(maxPerUser, y, pc', l')
  {
    assert [WithCode(y, pc, Some(y.token))][0 := WithCode(y, pc', Some(y.token))] == [WithCode(y, pc', Some(y.token))];
    assert [l][0 := l'] == [l'];
  }

  // ---- The second user ----

  function TwoSessions(maxPerUser: int, y: Story): SessionStore.Store {
    SessionStore.Store(maxPerUser, [SessionStore.Session(y.key, y.first), SessionStore.Session(y.key, y.second)],
                       map[y.key := 1], map[y.second := [y.key]], map[], [0], [], false)
  }

  function SecondCall(y: Story, pc: Pc, owner: nat, result: Option<string>): Call {
    Call(y.key, y.second, y.res, pc, owner, 0, 0, 0, Completion("", ""), result)
  }

  function After(maxPerUser: int, y: Story, calls: seq<Call>): State {
    Over(maxPerUser, y, Returned, Live([], None)).(
      store := TwoSessions(maxPerUser, y), live := [Live([], None), Live([], None)],
      calls := [WithCode(y, Returned, Some(y.token))] + calls)
  }

  lemma Ended(maxPerUser: int, y: Story)
    ensures SessionStore.DoEnd(OneSession(maxPerUser, y), y.key)
         == NoSession(maxPerUser, y)
  {
    var st := OneSession(maxPerUser, y);
    assert SessionStore.Without([y.key], y.key) == [];
    assert st.sessions - {y.key} == map[] && st.timers - {y.key} == map[] && st.userSessions - {y.first} == map[];
    assert [] + [0] == [0];
  }

  function NoSession(maxPerUser: int, y: Story): SessionStore.Store {
    OneSession(maxPerUser, y).(sessions := map[], userSessions := map[], closed := [0])
  }

  lemma Created(maxPerUser: int, y: Story)
    ensures SessionStore.DoCreate(NoSession(maxPerUser, y), y.key, y.second) == TwoSessions(maxPerUser, y)
  {
    assert [] + [y.key] == [y.key];
    assert [SessionStore.Session(y.key, y.first)] + [SessionStore.Session(y.key, y.second)]
        == [SessionStore.Session(y.key, y.first), SessionStore.Session(y.key, y.second)];
  }

  lemma Unbinding(maxPerUser: int, y: Story)
    ensures var over := Over(maxPerUser, y, Returned, Live([], None));
            Next(over, Manage(SessionStore.End(y.key))) == over.(store := NoSession(maxPerUser, y))
  {
    Ended(maxPerUser, y);
    assert [Live([], None)] + [] == [Live([], None)];
  }

  lemma Rebinding(maxPerUser: int, y: Story)
    ensures var over := Over(maxPerUser, y, Returned, Live([], None));
            Next(over.(store := NoSession(maxPerUser, y)), Manage(SessionStore.Create(y.key, y.second))) == After(maxPerUser, y, [])
  {
    Created(maxPerUser, y);
    assert [Live([], None)] + [Live([], None)] == [Live([], None), Live([], None)];
    assert [WithCode(y, Returned, Some(y.token))] + [] == [WithCode(y, Returned, Some(y.token))];
  }

  lemma Arriving(maxPerUser: int, y: Story)
    ensures Next(After(maxPerUser, y, []), Arrive(y.key, y.second, y.res)) == After(maxPerUser, y, [SecondCall(y, Begin, 0, None)])
  {
    var c := WithCode(y, Returned, Some(y.token));
    assert [c] + [] + [SecondCall(y, Begin, 0, None)] == [c] + [SecondCall(y, Begin, 0, None)];
  }

  lemma SecondStep(maxPerUser: int, y: Story, c: Call, c': Call)
    requires c.session == 0
    requires Decide(After(maxPerUser, y, [c]), 1, true, "", 0) == Effect(c', Live([], None), KeepTx, None)
    ensures Next(After(maxPerUser, y, [c]), Go(1, "", 0)) == After(maxPerUser, y, [c'])
  {
    var first := WithCode(y, Returned, Some(y.token));
    assert ([first] + [c])[1 := c'] == [first] + [c'];
    var live := [Live([], None), Live([], None)];
    assert live[0 := Live([], None)] == live;
  }

  lemma SecondGetsIt(maxPerUser: int, y: Story)
    requires Possible(y)
    ensures Next(After(maxPerUser, y, [SecondCall(y, Begin, 0, None)]), Go(1, "", 0)) == After(maxPerUser, y, [SecondCall(y, Validated, 1, None)])
    ensures Next(After(maxPerUser, y, [SecondCall(y, Validated, 1, None)]), Go(1, "", 0))
         == After(maxPerUser, y, [SecondCall(y, Returned, 1, Some(y.token))])
  {
    SecondStep(maxPerUser, y, SecondCall(y, Begin, 0, None), SecondCall(y, Validated, 1, None));
    assert TokenCache.Get(Stored(y), 0, y.key, y.res) == Some(y.token);
    SecondStep(maxPerUser, y, SecondCall(y, Validated, 1, None), SecondCall(y, Returned, 1, Some(y.token)));
  }

  // ---- The run ----

  function Acquire(y: Story): seq<Action> {
    ToTheCode(y) + [Go(0, y.token, 0)] + [Go(0, "", y.expiresAt)] + [Go(0, "", 0)] + [Go(0, "", 0)]
  }

  function HandOver(y: Story): seq<Action> {
    Acquire(y) + [Manage(SessionStore.End(y.key))] + [Manage(SessionStore.Create(y.key, y.second))]
    + [Arrive(y.key, y.second, y.res)] + [Go(1, "", 0)] + [Go(1, "", 0)]
  }

  function ToTheLock(y: Story): seq<Action> {
    [Manage(SessionStore.Create(y.key, y.first))] + [Arrive(y.key, y.first, y.res)]
    + [Go(0, "", 0)] + [Go(0, "", 0)] + [Go(0, "", 0)] + [Go(0, "", 0)]
  }

  function ToTheUrl(y: Story): seq<Action> {
    ToTheLock(y) + [Go(0, "", 0)] + [Go(0, "", 0)] + [Go(0, "", 0)] + [Go(0, y.nonce, 0)] + [Go(0, "", 0)]
  }

  function ToTheCode(y: Story): seq<Action> {
    ToTheUrl(y) + [Callback(StateOf(y), y.code)] + [Go(0, "", 0)]
  }

  lemma Three(maxPerUser: int, acts: seq<Action>, a: Action, b: Action, c: Action)
    ensures Run(maxPerUser, acts + [a] + [b] + [c]) == Next(Next(Next(Run(maxPerUser, acts), a), b), c)
  {
    Then(maxPerUser, acts, a);
    Then(maxPerUser, acts + [a], b);
    Then(maxPerUser, acts + [a] + [b], c);
  }

  lemma RunToTheLock(maxPerUser: int, y: Story)
    ensures Run(maxPerUser, ToTheLock(y)) == During(maxPerUser, y, FirstCall(y, Locked), Live([0], None), [], {})
  {
    var a, b := Manage(SessionStore.Create(y.key, y.first)), Arrive(y.key, y.first, y.res);
    Start(maxPerUser, y);
    Approaching(maxPerUser, y, Begin, Validated);
    Approaching(maxPerUser, y, Validated, Missed);
    Approaching(maxPerUser, y, Missed, GotSession);
    Locking(maxPerUser, y);
    Three(maxPerUser, [], a, b, Go(0, "", 0));
    assert [] + [a] == [a];
    Three(maxPerUser, [a] + [b] + [Go(0, "", 0)], Go(0, "", 0), Go(0, "", 0), Go(0, "", 0));
  }

  lemma RunToTheUrl(maxPerUser: int, y: Story)
    requires Possible(y)
    ensures Run(maxPerUser, ToTheUrl(y))
         == During(maxPerUser, y, FirstCall(y, Waiting), Live([0], Some(0)), [TheTx(y, StateOf(y), [], WaitingCode)], {})
  {
    RunToTheLock(maxPerUser, y);
    Discovering(maxPerUser, y, Locked, MustFlow);
    Discovering(maxPerUser, y, MustFlow, Discovered);
    StoringTx(maxPerUser, y);
    BuildingUrl(maxPerUser, y);
    Publishing(maxPerUser, y);
    Three(maxPerUser, ToTheLock(y), Go(0, "", 0), Go(0, "", 0), Go(0, "", 0));
    var acts := ToTheLock(y) + [Go(0, "", 0)] + [Go(0, "", 0)] + [Go(0, "", 0)];
    Then(maxPerUser, acts, Go(0, y.nonce, 0));
    Then(maxPerUser, acts + [Go(0, y.nonce, 0)], Go(0, "", 0));
  }

  lemma RunToTheCode(maxPerUser: int, y: Story)
    requires Possible(y)
    ensures Run(maxPerUser, ToTheCode(y)) == During(maxPerUser, y, WithCode(y, GotCode, None), Live([0], Some(0)),
                                                  [TheTx(y, StateOf(y), [], WaitingCode)], Told(y))
  {
    RunToTheUrl(maxPerUser, y);
    Answering(maxPerUser, y);
    Receiving(maxPerUser, y);
    Then(maxPerUser, ToTheUrl(y), Callback(StateOf(y), y.code));
    Then(maxPerUser, ToTheUrl(y) + [Callback(StateOf(y), y.code)], Go(0, "", 0));
  }

  lemma RunAcquire(maxPerUser: int, y: Story)
    requires Possible(y)
    ensures Run(maxPerUser, Acquire(y)) == Over(maxPerUser, y, Returned, Live([], None))
  {
    RunToTheCode(maxPerUser, y);
    Exchanging(maxPerUser, y);
    Caching(maxPerUser, y);
    Finishing(maxPerUser, y);
    Three(maxPerUser, ToTheCode(y), Go(0, y.token, 0), Go(0, "", y.expiresAt), Go(0, "", 0));
    Then(maxPerUser, ToTheCode(y) + [Go(0, y.token, 0)] + [Go(0, "", y.expiresAt)] + [Go(0, "", 0)], Go(0, "", 0));
  }

  /** For every key, resource and pair of users there is a run in which the key is rebound
      and the second user's call returns a token that only the first user ever obtained. */
  lemma ReboundKeyHandsOverToken(maxPerUser: int, y: Story)
    requires Possible(y)
    ensures var s := Run(maxPerUser, HandOver(y));
            && |s.calls| == 2 && s.calls[1].pc.Returned? && s.calls[1].user == y.second && s.calls[1].key == y.key
            && s.calls[1].result == Some(y.token)
            && |s.flows| == 1 && s.flows[0].user == y.first && s.flows[0].token == y.token
            && !NeverRebound(s, y.key)
  {
    RunAcquire(maxPerUser, y);
    Unbinding(maxPerUser, y);
    Rebinding(maxPerUser, y);
    Arriving(maxPerUser, y);
    SecondGetsIt(maxPerUser, y);
    Three(maxPerUser, Acquire(y), Manage(SessionStore.End(y.key)), Manage(SessionStore.Create(y.key, y.second)),
          Arrive(y.key, y.second, y.res));
    var acts := Acquire(y) + [Manage(SessionStore.End(y.key))] + [Manage(SessionStore.Create(y.key, y.second))]
                + [Arrive(y.key, y.second, y.res)];
    Then(maxPerUser, acts, Go(1, "", 0));
    Then(maxPerUser, acts + [Go(1, "", 0)], Go(1, "", 0));
    var created := TwoSessions(maxPerUser, y).created;
    assert created[0].key == y.key && created[1].key == y.key && created[0].user != created[1].user;
  }

  // ---- A reused key ----

  /** The first call holds the old session's semaphore, the second works on the new one. */
  function Both(maxPerUser: int, y: Story, calls: seq<Call>, l: Live): State {
    State(0, TwoSessions(maxPerUser, y), [Live([0], None), l], [], [FirstCall(y, MustFlow)] + calls, map[], {}, [])
  }

  lemma EndingInFlow(maxPerUser: int, y: Story)
    ensures var s := During(maxPerUser, y, FirstCall(y, MustFlow), Live([0], None), [], {});
            Next(s, Manage(SessionStore.End(y.key))) == s.(store := NoSession(maxPerUser, y))
  {
    Ended(maxPerUser, y);
    assert [Live([0], None)] + [] == [Live([0], None)];
  }

  lemma ReusingInFlow(maxPerUser: int, y: Story)
    ensures var s := During(maxPerUser, y, FirstCall(y, MustFlow), Live([0], None), [], {});
            Next(s.(store := NoSession(maxPerUser, y)), Manage(SessionStore.Create(y.key, y.second))) == Both(maxPerUser, y, [], Live([], None))
  {
    Created(maxPerUser, y);
    assert [Live([0], None)] + [Live([], None)] == [Live([0], None), Live([], None)];
    assert [FirstCall(y, MustFlow)] + [] == [FirstCall(y, MustFlow)];
  }

  lemma ArrivingAgain(maxPerUser: int, y: Story)
    ensures Next(Both(maxPerUser, y, [], Live([], None)), Arrive(y.key, y.second, y.res))
         == Both(maxPerUser, y, [SecondCall(y, Begin, 0, None)], Live([], None))
  {
    assert [FirstCall(y, MustFlow)] + [] + [SecondCall(y, Begin, 0, None)] == [FirstCall(y, MustFlow)] + [SecondCall(y, Begin, 0, None)];
  }

  /** A step of the second call: it sees the old session object until it fetched the new. */
  lemma BothStep(maxPerUser: int, y: Story, c: Call, l: Live, c': Call, l': Live)
    requires c.session <= 1 && (c.session == 0 ==> l' == l)
    requires Decide(Both(maxPerUser, y, [c], l), 1, true, "", 0) == Effect(c', if c.session == 0 then Live([0], None) else l', KeepTx, None)
    ensures Next(Both(maxPerUser, y, [c], l), Go(1, "", 0)) == Both(maxPerUser, y, [c'], l')
  {
    assert ([FirstCall(y, MustFlow)] + [c])[1 := c'] == [FirstCall(y, MustFlow)] + [c'];
    var live := [Live([0], None), l];
    assert live[0 := Live([0], None)] == live && live[1 := l'] == [Live([0], None), l'];
  }

  function OnNew(y: Story, pc: Pc): Call { SecondCall(y, pc, 1, None).(session := 1) }

  lemma SecondApproaches(maxPerUser: int, y: Story)
    ensures Next(Both(maxPerUser, y, [SecondCall(y, Begin, 0, None)], Live([], None)), Go(1, "", 0))
         == Both(maxPerUser, y, [SecondCall(y, Validated, 1, None)], Live([], None))
    ensures Next(Both(maxPerUser, y, [SecondCall(y, Validated, 1, None)], Live([], None)), Go(1, "", 0))
         == Both(maxPerUser, y, [SecondCall(y, Missed, 1, None)], Live([], None))
    ensures Next(Both(maxPerUser, y, [SecondCall(y, Missed, 1, None)], Live([], None)), Go(1, "", 0))
         == Both(maxPerUser, y, [OnNew(y, GotSession)], Live([], None))
  {
    BothStep(maxPerUser, y, SecondCall(y, Begin, 0, None), Live([], None), SecondCall(y, Validated, 1, None), Live([], None));
    BothStep(maxPerUser, y, SecondCall(y, Validated, 1, None), Live([], None), SecondCall(y, Missed, 1, None), Live([], None));
    BothStep(maxPerUser, y, SecondCall(y, Missed, 1, None), Live([], None), OnNew(y, GotSession), Live([], None));
  }

  lemma SecondLocks(maxPerUser: int, y: Story)
    ensures Next(Both(maxPerUser, y, [OnNew(y, GotSession)], Live([], None)), Go(1, "", 0)) == Both(maxPerUser, y, [OnNew(y, Locked)], Live([1], None))
    ensures Next(Both(maxPerUser, y, [OnNew(y, Locked)], Live([1], None)), Go(1, "", 0)) == Both(maxPerUser, y, [OnNew(y, MustFlow)], Live([1], None))
  {
    assert [] + [1] == [1];
    BothStep(maxPerUser, y, OnNew(y, GotSession), Live([], None), OnNew(y, Locked), Live([1], None));
    BothStep(maxPerUser, y, OnNew(y, Locked), Live([1], None), OnNew(y, MustFlow), Live([1], None));
  }

  function TwoFlows(y: Story): seq<Action> {
    ToTheLock(y) + [Go(0, "", 0)] + [Manage(SessionStore.End(y.key))] + [Manage(SessionStore.Create(y.key, y.second))]
    + [Arrive(y.key, y.second, y.res)] + [Go(1, "", 0)] + [Go(1, "", 0)] + [Go(1, "", 0)] + [Go(1, "", 0)] + [Go(1, "", 0)]
  }

  /** For every key and resource there is a run that reuses the key and has two flows for
      it under way at once, whoever the two sessions belong to. */
  lemma ReusedKeyRunsTwoFlows(maxPerUser: int, y: Story)
    ensures var s := Run(maxPerUser, TwoFlows(y));
            && |s.calls| == 2 && s.calls[0].key == s.calls[1].key == y.key && s.calls[0].res == s.calls[1].res == y.res
            && InFlow(s.calls[0].pc) && InFlow(s.calls[1].pc) && !SessionStore.NeverReused(s.store, y.key)
  {
    RunToTheLock(maxPerUser, y);
    Discovering(maxPerUser, y, Locked, MustFlow);
    EndingInFlow(maxPerUser, y);
    ReusingInFlow(maxPerUser, y);
    Three(maxPerUser, ToTheLock(y), Go(0, "", 0), Manage(SessionStore.End(y.key)), Manage(SessionStore.Create(y.key, y.second)));
    var acts := ToTheLock(y) + [Go(0, "", 0)] + [Manage(SessionStore.End(y.key))] + [Manage(SessionStore.Create(y.key, y.second))];
    RunSecond(maxPerUser, y, acts);
    var created := TwoSessions(maxPerUser, y).created;
    assert created[0].key == y.key && created[1].key == y.key;
  }

  lemma RunSecond(maxPerUser: int, y: Story, acts: seq<Action>)
    requires Run(maxPerUser, acts) == Both(maxPerUser, y, [], Live([], None))
    ensures Run(maxPerUser, acts + [Arrive(y.key, y.second, y.res)] + [Go(1, "", 0)] + [Go(1, "", 0)] + [Go(1, "", 0)] + [Go(1, "", 0)] + [Go(1, "", 0)])
         == Both(maxPerUser, y, [OnNew(y, MustFlow)], Live([1], None))
  {
    ArrivingAgain(maxPerUser, y);
    SecondApproaches(maxPerUser, y);
    SecondLocks(maxPerUser, y);
    Three(maxPerUser, acts, Arrive(y.key, y.second, y.res), Go(1, "", 0), Go(1, "", 0));
    Three(maxPerUser, acts + [Arrive(y.key, y.second, y.res)] + [Go(1, "", 0)] + [Go(1, "", 0)], Go(1, "", 0), Go(1, "", 0), Go(1, "", 0));
  }
}
