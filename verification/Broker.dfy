/** Token acquisition as a step system. Any number of `AcquireToken` calls advance one
    shared access at a time, interleaved with session management, OAuth callbacks,
    cache cleanup and the clock.

    What the network decides (discovery, the exchanged token, its expiry, the random
    nonce), whether a send finds room and whether a context is cancelled are chosen
    freely by the action, so a run is any sequence of actions. */
module Broker {
  import opened Strings
  import SessionStore
  import TokenCache

  // ---- State ----

  datatype Pc =
    | Begin        // about to validate the session
    | Validated    // about to look in the cache
    | Missed       // about to fetch the session object
    | GotSession   // about to acquire the semaphore
    | Locked       // about to look in the cache again
    | MustFlow     // about to discover the endpoints
    | Discovered   // about to store the transaction in the session
    | TxStored     // about to build the authorization URL
    | UrlBuilt     // about to publish the event
    | Waiting      // waiting for the authorization code
    | GotCode      // about to exchange the code
    | Exchanged    // about to cache the token
    | Cached       // about to clear the transaction
    | Releasing    // about to release the semaphore
    | Returned
    | Failed
    | Panicked     // dereferenced a nil transaction

  datatype Completion = Completion(code: string, state: string)

  /** A running call and its locals. `owner` is the session object that was validated,
      `missedAt` the time of the second cache miss and `tx` the transaction it made. */
  datatype Call = Call(key: string, user: string, res: string, pc: Pc,
                       owner: nat, session: nat, missedAt: int, tx: nat,
                       completion: Completion, result: Option<string>)

  datatype Status = WaitingCode | TxCompleted | TxFailed

  datatype Tx = Tx(owner: nat, res: string, state: string, chan: seq<Completion>, status: Status)

  /** The mutable part of a session object: the capacity-1 semaphore channel (its
      element is tagged with the call that put it there) and `ActiveOAuthTx`. */
  datatype Live = Live(sem: seq<nat>, tx: Option<nat>)

  datatype Delivery = Delivery(tx: nat, state: string, code: string)

  /** A flow that obtained a token and stored it. */
  datatype Flow = Flow(owner: nat, key: string, user: string, res: string, token: string, expiresAt: int,
                       missedAt: int, storedAt: int, tx: nat, state: string, code: string)

  datatype State = State(
    now: int,
    store: SessionStore.Store,
    live: seq<Live>,            // indexed like store.created
    txs: seq<Tx>,
    calls: seq<Call>,
    cache: TokenCache.Tokens,
    delivered: set<Delivery>,   // history: codes put into a completion channel
    flows: seq<Flow>)           // history: successful flows, in order

  datatype Action =
    | Tick(d: nat)
    | Manage(op: SessionStore.Op)
    | Arrive(key: string, user: string, res: string)
    | Step(call: nat, ok: bool, text: string, num: int)
    | Callback(state: string, code: string)
    | CleanCache

  function Init(maxPerUser: int): State {
    State(0, SessionStore.Empty(maxPerUser), [], [], [], map[], {}, [])
  }

  // ---- Steps of a call ----

  /** What a step does to the session's active transaction. */
  datatype TxEffect = KeepTx | SetTx(t: Tx) | NewTx(t: Tx)

  /** What a step does: the call's new locals, its session object, the transaction and,
      when it stores a token, the finished flow. */
  datatype Effect = Effect(call: Call, live: Live, tx: TxEffect, flow: Option<Flow>)

  function LiveOf(s: State, c: Call): Live {
    if c.session < |s.live| then s.live[c.session] else Live([], None)
  }

  function ActiveTx(s: State, c: Call): Option<nat> {
    var tx := LiveOf(s, c).tx;
    if tx.Some? && tx.value < |s.txs| then tx else None
  }

  function SessionKey(s: State, c: Call): string {
    if c.session < |s.store.created| then s.store.created[c.session].key else ""
  }

  function Lookup(s: State, c: Call): Option<string> {
    TokenCache.Get(s.cache, s.now, c.key, c.res)
  }

  /** `SimpleSemaphore.Release`: receives if the channel holds something. */
  function Release(sem: seq<nat>): seq<nat> {
    if sem == [] then [] else sem[1..]
  }

  /** The session object `ValidateSession` and `GetSession` find. */
  function FindSession(s: State, key: string): Option<nat> {
    if key in s.store.sessions && s.store.sessions[key] < |s.store.created|
    then Some(s.store.sessions[key]) else None
  }

  /** The steps before the semaphore is held; only `Acquire` touches shared state. */
  function Approach(s: State, i: nat, c: Call, ok: bool): Effect {
    var l := LiveOf(s, c);
    var only := (c': Call) => Effect(c', l, KeepTx, None);
    match c.pc
    case Begin =>
      var found := FindSession(s, c.key);
      if found.Some? && s.store.created[found.value].user == c.user
      then only(c.(pc := Validated, owner := found.value))
      else only(c.(pc := Failed))
    case Validated =>
      var hit := Lookup(s, c);
      only(if hit.Some? then c.(pc := Returned, result := hit) else c.(pc := Missed))
    case Missed =>
      var found := FindSession(s, c.key);
      only(if found.Some? then c.(pc := GotSession, session := found.value) else c.(pc := Failed))
    case GotSession =>
      if !ok then only(c.(pc := Failed))
      else if |l.sem| < 1 then Effect(c.(pc := Locked), l.(sem := l.sem + [i]), KeepTx, None)
      else only(c)
    case _ => only(c)
  }

  /** The steps that go through the session's `ActiveOAuthTx` pointer. */
  function UseTx(s: State, c: Call, ok: bool, text: string): Effect {
    var l := LiveOf(s, c);
    var x := ActiveTx(s, c);
    if x.None? then Effect(c.(pc := Panicked), l, KeepTx, None)
    else
      var t := s.txs[x.value];
      var abort := Effect(c.(pc := Releasing, result := None), l, SetTx(t.(status := TxFailed)), None);
      match c.pc
      case TxStored =>
        if ok && '.' !in text
        then Effect(c.(pc := UrlBuilt), l, SetTx(t.(state := SessionKey(s, c) + "." + text)), None)
        else abort
      case Waiting =>
        if !ok then abort
        else if t.chan == [] then Effect(c, l, KeepTx, None)
        else Effect(c.(pc := GotCode, completion := t.chan[0]), l, SetTx(t.(chan := t.chan[1..])), None)
      case GotCode =>
        if ok then Effect(c.(pc := Exchanged, result := Some(text)), l, SetTx(t.(status := TxCompleted)), None)
        else abort
      case _ => Effect(c, l, KeepTx, None)
  }

  function TheFlow(s: State, c: Call, expiresAt: int): Flow
    requires c.result.Some?
  {
    Flow(c.owner, SessionKey(s, c), c.user, c.res, c.result.value, expiresAt,
         c.missedAt, s.now, c.tx, c.completion.state, c.completion.code)
  }

  /** The other steps under the semaphore. */
  function Hold(s: State, i: nat, c: Call, ok: bool, num: int): Effect {
    var l := LiveOf(s, c);
    var fail := Effect(c.(pc := Releasing, result := None), l, KeepTx, None);
    match c.pc
    case Locked =>
      var hit := Lookup(s, c);
      if hit.Some? then Effect(c.(pc := Releasing, result := hit), l, KeepTx, None)
      else Effect(c.(pc := MustFlow, missedAt := s.now), l, KeepTx, None)
    case MustFlow => if ok then Effect(c.(pc := Discovered), l, KeepTx, None) else fail
    case Discovered =>
      Effect(c.(pc := TxStored, tx := |s.txs|), l.(tx := Some(|s.txs|)), NewTx(Tx(i, c.res, "", [], WaitingCode)), None)
    case UrlBuilt => if ok then Effect(c.(pc := Waiting), l, KeepTx, None) else fail
    case Exchanged =>
      Effect(c.(pc := Cached), l, KeepTx, if c.result.Some? then Some(TheFlow(s, c, num)) else None)
    case Cached => Effect(c.(pc := Releasing), l.(tx := None), KeepTx, None)
    case Releasing =>
      Effect(c.(pc := if c.result.Some? then Returned else Failed), l.(sem := Release(l.sem)), KeepTx, None)
    case _ => Effect(c, l, KeepTx, None)
  }

  predicate BeforeLock(pc: Pc) {
    pc.Begin? || pc.Validated? || pc.Missed? || pc.GotSession?
  }

  function Decide(s: State, i: nat, ok: bool, text: string, num: int): Effect
    requires i < |s.calls|
  {
    var c := s.calls[i];
    if BeforeLock(c.pc) then Approach(s, i, c, ok)
    else if c.pc.TxStored? || c.pc.Waiting? || c.pc.GotCode? then UseTx(s, c, ok, text)
    else Hold(s, i, c, ok, num)
  }

  function Commit(s: State, i: nat, e: Effect): State
    requires i < |s.calls|
  {
    var c := s.calls[i];
    s.(calls := s.calls[i := e.call],
       live := if c.session < |s.live| then s.live[c.session := e.live] else s.live,
       txs := match e.tx
              case KeepTx => s.txs
              case SetTx(t) => if ActiveTx(s, c).Some? then s.txs[ActiveTx(s, c).value := t] else s.txs
              case NewTx(t) => s.txs + [t],
       cache := match e.flow
                case None => s.cache
                case Some(f) => TokenCache.Put(s.cache, f.key, f.res, TokenCache.Entry(f.token, f.expiresAt, s.now)),
       flows := match e.flow
                case None => s.flows
                case Some(f) => s.flows + [f])
  }

  function StepCall(s: State, i: nat, ok: bool, text: string, num: int): State
    requires i < |s.calls|
  {
    Commit(s, i, Decide(s, i, ok, text, num))
  }

  // ---- The other actions ----

  /** `GetSessionByState`: the part before the last dot is the session key, and the
      session's transaction must carry exactly this state. */
  function SessionByState(s: State, state: string): Option<nat> {
    var dot := LastIndexOf(state, '.');
    if dot == -1 then None
    else if state[..dot] !in s.store.sessions then None
    else
      var id := s.store.sessions[state[..dot]];
      if id >= |s.live| then None
      else
        match s.live[id].tx
        case None => None
        case Some(x) => if x < |s.txs| && s.txs[x].state == state then Some(id) else None
  }

  /** Callback lookup followed by `CompleteOAuth`: a send that does not block. */
  function Deliver(s: State, state: string, code: string): State {
    match SessionByState(s, state)
    case None => s
    case Some(id) =>
      var x := s.live[id].tx.value;
      var t := s.txs[x];
      if |t.chan| >= 1 then s
      else s.(txs := s.txs[x := t.(chan := t.chan + [Completion(code, state)])],
              delivered := s.delivered + {Delivery(x, state, code)})
  }

  ghost function Next(s: State, a: Action): State {
    match a
    case Tick(d) => s.(now := s.now + d)
    case Manage(op) =>
      var store := SessionStore.Apply(s.store, op);
      var more := if |store.created| > |s.live| then [Live([], None)] else [];
      s.(store := store, live := s.live + more)
    case Arrive(key, user, res) =>
      s.(calls := s.calls + [Call(key, user, res, Begin, 0, 0, 0, 0, Completion("", ""), None)])
    case Step(i, ok, text, num) => if i < |s.calls| then StepCall(s, i, ok, text, num) else s
    case Callback(state, code) => Deliver(s, state, code)
    case CleanCache => s.(cache := TokenCache.Cleanup(s.cache, s.now))
  }

  ghost function Run(maxPerUser: int, acts: seq<Action>): State {
    if acts == [] then Init(maxPerUser) else Next(Run(maxPerUser, acts[..|acts| - 1]), acts[|acts| - 1])
  }

  // ---- Where a call is ----

  predicate InCritical(pc: Pc) {
    pc.Locked? || pc.MustFlow? || pc.Discovered? || pc.TxStored? || pc.UrlBuilt? || pc.Waiting? || pc.GotCode? || pc.Exchanged? || pc.Cached? || pc.Releasing?
  }

  predicate HasTx(pc: Pc) {
    pc.TxStored? || pc.UrlBuilt? || pc.Waiting? || pc.GotCode? || pc.Exchanged? || pc.Cached?
  }

  /** Between the second cache miss and the token being stored. */
  predicate InFlow(pc: Pc) {
    pc.MustFlow? || pc.Discovered? || pc.TxStored? || pc.UrlBuilt? || pc.Waiting? || pc.GotCode? || pc.Exchanged?
  }

  // ---- Well-formedness ----

  ghost predicate CallShape(created: seq<SessionStore.Session>, txCount: nat, c: Call) {
    && (c.pc.GotSession? || InCritical(c.pc) ==> c.session < |created| && created[c.session].key == c.key)
    && (!c.pc.Begin? && !c.pc.Failed? ==> c.owner < |created| && created[c.owner] == SessionStore.Session(c.key, c.user))
    && (HasTx(c.pc) ==> c.tx < txCount)
    && (c.pc.Exchanged? || c.pc.Cached? || c.pc.Returned? ==> c.result.Some?)
  }

  ghost predicate Shape(s: State) {
    && SessionStore.Safe(s.store)
    && |s.live| == |s.store.created|
    && (forall id :: 0 <= id < |s.live| && s.live[id].tx.Some? ==> s.live[id].tx.value < |s.txs|)
    && (forall i :: 0 <= i < |s.calls| ==> CallShape(s.store.created, |s.txs|, s.calls[i]))
  }

  lemma {:induction false} CreatedGrowsInShutdown(st: SessionStore.Store, order: seq<string>)
    ensures SessionStore.CleanupAll(st, order).created == st.created
    decreases |order|
  {
    if order != [] { CreatedGrowsInShutdown(SessionStore.DoEnd(st, order[0]), order[1..]); }
  }

  /** Session objects are never forgotten: `created` grows by at most one at its end. */
  lemma CreatedGrows(st: SessionStore.Store, op: SessionStore.Op)
    ensures var r := SessionStore.Apply(st, op);
            st.created <= r.created && |r.created| <= |st.created| + 1
  {
    if op.Shutdown? {
      CreatedGrowsInShutdown(st.(timers := map[], shutdown := true), op.order);
    }
  }

  lemma ShapeManage(s: State, op: SessionStore.Op)
    requires Shape(s)
    ensures Shape(Next(s, Manage(op)))
  {
    SessionStore.StepKeeps(s.store, op);
    CreatedGrows(s.store, op);
  }

  /** A step of call `i` leaves the other calls, the other session objects and the
      transactions of other sessions alone. */
  ghost predicate Local(s: State, s': State, i: nat) {
    && i < |s.calls| == |s'.calls|
    && (forall j :: 0 <= j < |s.calls| && j != i ==> s'.calls[j] == s.calls[j])
    && s'.store == s.store && s'.now == s.now && s'.delivered == s.delivered
    && |s'.live| == |s.live|
    && (forall id :: 0 <= id < |s.live| && id != s.calls[i].session ==> s'.live[id] == s.live[id])
    && |s.txs| <= |s'.txs|
    && (forall x :: 0 <= x < |s.txs| && (s.calls[i].session < |s.live| ==> s.live[s.calls[i].session].tx != Some(x)) ==>
          s'.txs[x] == s.txs[x])
  }

  lemma CommitIsLocal(s: State, i: nat, e: Effect)
    requires i < |s.calls|
    ensures Local(s, Commit(s, i, e), i)
  {
  }

  /** What remains to be shown about the call that moved. */
  lemma ShapeLocal(s: State, s': State, i: nat)
    requires Shape(s) && Local(s, s', i) && CallShape(s'.store.created, |s'.txs|, s'.calls[i])
    requires s.calls[i].session < |s.live| ==>
               var tx := s'.live[s.calls[i].session].tx; tx.Some? ==> tx.value < |s'.txs|
    ensures Shape(s')
  {
    forall j | 0 <= j < |s'.calls| ensures CallShape(s'.store.created, |s'.txs|, s'.calls[j]) {
      assert CallShape(s.store.created, |s.txs|, s.calls[j]);
    }
  }

  ghost predicate EffectShape(s: State, e: Effect) {
    var txCount := |s.txs| + if e.tx.NewTx? then 1 else 0;
    CallShape(s.store.created, txCount, e.call) && (e.live.tx.Some? ==> e.live.tx.value < txCount)
  }

  lemma ShapeApproach(s: State, i: nat, c: Call, ok: bool)
    requires Shape(s) && CallShape(s.store.created, |s.txs|, c)
    ensures EffectShape(s, Approach(s, i, c, ok))
  {
  }

  lemma ShapeUseTx(s: State, c: Call, ok: bool, text: string)
    requires Shape(s) && CallShape(s.store.created, |s.txs|, c) && HasTx(c.pc)
    ensures EffectShape(s, UseTx(s, c, ok, text))
  {
  }

  lemma ShapeHold(s: State, i: nat, c: Call, ok: bool, num: int)
    requires Shape(s) && CallShape(s.store.created, |s.txs|, c)
    ensures EffectShape(s, Hold(s, i, c, ok, num))
  {
  }

  lemma ShapeDecide(s: State, i: nat, ok: bool, text: string, num: int)
    requires Shape(s) && i < |s.calls|
    ensures EffectShape(s, Decide(s, i, ok, text, num))
  {
    var c := s.calls[i];
    ShapeApproach(s, i, c, ok);
    if HasTx(c.pc) { ShapeUseTx(s, c, ok, text); }
    ShapeHold(s, i, c, ok, num);
  }

  lemma ShapeStep(s: State, i: nat, ok: bool, text: string, num: int)
    requires Shape(s) && i < |s.calls|
    ensures Shape(StepCall(s, i, ok, text, num))
  {
    ShapeDecide(s, i, ok, text, num);
    CommitIsLocal(s, i, Decide(s, i, ok, text, num));
    ShapeLocal(s, StepCall(s, i, ok, text, num), i);
  }

  lemma ShapeNext(s: State, a: Action)
    requires Shape(s)
    ensures Shape(Next(s, a))
  {
    match a
    case Manage(op) => ShapeManage(s, op);
    case Step(i, ok, text, num) => if i < |s.calls| { ShapeStep(s, i, ok, text, num); }
    case Arrive(_, _, _) =>
    case Callback(_, _) =>
    case Tick(_) =>
    case CleanCache =>
  }
}
