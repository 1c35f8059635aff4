/**
The relay's session lifecycle: the accept goroutine, one worker per session, the registry they
share, and the shutdown path of `Service.Run`. Sessions are numbered in the order in which the
handshake yielded them; a session and its mux carry the same number.

Each action is one lock region, one channel operation, one Close, or one thing the peers do.
*/
module RelayService {
  import opened Bytes
  import opened Registry

  /**
  Where a session is in its life. Before `Starting` it is in the hands of the accept goroutine,
  from then on in those of its worker.
  */
  datatype Pc =
    | Yielded                    // returned by the handshake
    | Recorded                   // in Service.sessions, worker not started
    | Starting                   // worker started, not yet registered
    | ClosingPrev(prev: Mux)     // registered, about to close the holder it replaced
    | Serving                    // in ServeProxy or ServeExit, about to look at the context
    | Parked                     // there, inside AcceptStream
    | ClosingSelf                // the serve loop returned
    | Vacating                   // deferred Vacate is next
    | Deleting                   // deferred delete from Service.sessions is next
    | Finished                   // serveWG.Done

  /**
  `recorded`: in Service.sessions; `pending`: streams waiting to be accepted on the mux;
  `closed`: the mux is closed, by us or by the peer.
  */
  datatype Session = Session(role: Mode, pc: Pc, gen: nat, closed: bool, recorded: bool, pending: nat)

  /**
  The accept goroutine. `Shaking` is the TLS handshake, bounded by a deadline and the context;
  `Greeting` waits for the client's hello, bounded by neither.
  */
  datatype Acceptor = Listening | Shaking | Greeting | Holding(id: nat) | Spawning(id: nat) | Stopped

  datatype Main = Waiting | StopListening | AwaitAcceptor | Sweeping | Cancelling | Joining | Returned

  datatype State = State(
    slots: Slots, sessions: seq<Session>, acceptor: Acceptor, main: Main,
    parentDone: bool, svcDone: bool, listenerClosed: bool)

  datatype Action =
    | Accept                          // a raw connection arrives
    | TlsDone                         // the TLS handshake succeeds
    | HandshakeFails                  // in TLS, or a bad hello, or the client went away
    | HandshakeYields(role: Mode)
    | AcceptFails                     // the listener is closed or broken: the goroutine returns
    | Record                          // Service.register
    | Spawn                           // serveWG.Add, go serveSession
    | Register(id: nat)
    | ClosePrev(id: nat)
    | Park(id: nat)                   // the context is not done: AcceptStream
    | ServeOne(id: nat)               // the serve loop accepts one stream
    | ServeReturns(id: nat)
    | CloseSelf(id: nat)
    | Vacate(id: nat)
    | Delete(id: nat)
    | StreamArrives(id: nat)          // the peer opens a stream
    | PeerCloses(id: nat)             // the mux dies on its own
    | CancelParent
    | WakeUp                          // Run's select
    | CloseListener
    | SeeAcceptorDone
    | CloseAll
    | CancelService
    | WaitDone

  function Init(): State {
    State(map[], [], Listening, Waiting, false, false, false)
  }

  predicate AtPc(s: State, id: nat, pc: Pc) {
    id < |s.sessions| && s.sessions[id].pc == pc
  }

  predicate ServiceCtxDone(s: State) {
    s.parentDone || s.svcDone
  }

  /** Steps of the accept goroutine. */
  predicate AcceptStep(a: Action) {
    a.Accept? || a.TlsDone? || a.HandshakeFails? || a.HandshakeYields? || a.AcceptFails? || a.Record? || a.Spawn?
  }

  /** Steps of a worker, or of the peer behind its session. */
  predicate SessionStep(a: Action) {
    || a.Register? || a.ClosePrev? || a.Park? || a.ServeOne? || a.ServeReturns? || a.CloseSelf?
    || a.Vacate? || a.Delete? || a.StreamArrives? || a.PeerCloses?
  }

  predicate AcceptEnabled(s: State, a: Action)
    requires AcceptStep(a)
  {
    match a
    case Accept => s.acceptor.Listening? && !s.listenerClosed
    case TlsDone => s.acceptor.Shaking?
    case HandshakeFails => s.acceptor.Shaking? || s.acceptor.Greeting?
    case HandshakeYields(role) => s.acceptor.Greeting? && !role.ModeRelay?
    case AcceptFails => s.acceptor.Listening?
    case Record => s.acceptor.Holding?
    case Spawn => s.acceptor.Spawning?
  }

  predicate SessionEnabled(s: State, a: Action)
    requires SessionStep(a)
  {
    a.id < |s.sessions| &&
    var x := s.sessions[a.id];
    match a
    case Register(_) => x.pc.Starting?
    case ClosePrev(_) => x.pc.ClosingPrev?
    case Park(_) => x.pc.Serving? && !ServiceCtxDone(s)
    case ServeOne(_) => x.pc.Parked? && x.pending > 0
    case ServeReturns(_) => (x.pc.Serving? && ServiceCtxDone(s)) || (x.pc.Parked? && x.closed)
    case CloseSelf(_) => x.pc.ClosingSelf?
    case Vacate(_) => x.pc.Vacating?
    case Delete(_) => x.pc.Deleting?
    case StreamArrives(_) => !x.closed
    case PeerCloses(_) => !x.closed
  }

  predicate MainEnabled(s: State, a: Action)
    requires !AcceptStep(a) && !SessionStep(a)
  {
    match a
    case CancelParent => !s.parentDone
    case WakeUp => s.main.Waiting? && (s.parentDone || s.acceptor.Stopped?)
    case CloseListener => s.main.StopListening?
    case SeeAcceptorDone => s.main.AwaitAcceptor? && s.acceptor.Stopped?
    case CloseAll => s.main.Sweeping?
    case CancelService => s.main.Cancelling?
    case WaitDone => s.main.Joining? && forall i :: 0 <= i < |s.sessions| ==> s.sessions[i].pc.Finished?
  }

  predicate Enabled(s: State, a: Action) {
    if AcceptStep(a) then AcceptEnabled(s, a)
    else if SessionStep(a) then SessionEnabled(s, a)
    else MainEnabled(s, a)
  }

  function Put(s: State, id: nat, x: Session): State
    requires id < |s.sessions|
  {
    s.(sessions := s.sessions[id := x])
  }

  /** closeAll: close every recorded session, under the lock. */
  function Swept(sessions: seq<Session>): (r: seq<Session>)
    ensures |r| == |sessions|
    ensures forall i :: 0 <= i < |r| ==>
      r[i] == sessions[i].(closed := sessions[i].closed || sessions[i].recorded)
  {
    if sessions == [] then []
    else [sessions[0].(closed := sessions[0].closed || sessions[0].recorded)] + Swept(sessions[1..])
  }

  function ApplyRegister(s: State, id: nat): State
    requires id < |s.sessions|
  {
    var x := s.sessions[id];
    var held := CurrentOf(s.slots, x.role);
    var slots := AfterRegister(s.slots, x.role, id);
    Put(s.(slots := slots), id,
        x.(pc := if held.Some? then ClosingPrev(held.value.0) else Serving, gen := slots[x.role].gen))
  }

  /** The previous holder is closed through its mux; the worker then serves. */
  function ApplyClosePrev(s: State, id: nat): State
    requires id < |s.sessions| && s.sessions[id].pc.ClosingPrev?
  {
    var x := s.sessions[id];
    var s1 := if x.pc.prev < |s.sessions|
              then Put(s, x.pc.prev, s.sessions[x.pc.prev].(closed := true)) else s;
    Put(s1, id, s1.sessions[id].(pc := Serving))
  }

  function AcceptApply(s: State, a: Action): State
    requires AcceptStep(a) && AcceptEnabled(s, a)
  {
    match a
    case Accept => s.(acceptor := Shaking)
    case TlsDone => s.(acceptor := Greeting)
    case HandshakeFails => s.(acceptor := Listening)
    case HandshakeYields(role) =>
      s.(acceptor := Holding(|s.sessions|), sessions := s.sessions + [Session(role, Yielded, 0, false, false, 0)])
    case AcceptFails => s.(acceptor := Stopped)
    case Record =>
      var id := s.acceptor.id;
      var s' := s.(acceptor := Spawning(id));
      if id < |s.sessions| then Put(s', id, s.sessions[id].(recorded := true, pc := Recorded)) else s'
    case Spawn =>
      var id := s.acceptor.id;
      var s' := s.(acceptor := Listening);
      if id < |s.sessions| then Put(s', id, s.sessions[id].(pc := Starting)) else s'
  }

  function SessionApply(s: State, a: Action): State
    requires SessionStep(a) && SessionEnabled(s, a)
  {
    var x := s.sessions[a.id];
    match a
    case Register(id) => ApplyRegister(s, id)
    case ClosePrev(id) => ApplyClosePrev(s, id)
    case Park(id) => Put(s, id, x.(pc := Parked))
    case ServeOne(id) => Put(s, id, x.(pending := x.pending - 1, pc := Serving))
    case ServeReturns(id) => Put(s, id, x.(pc := ClosingSelf))
    case CloseSelf(id) => Put(s, id, x.(closed := true, pc := Vacating))
    case Vacate(id) => Put(s.(slots := AfterVacate(s.slots, x.role, x.gen)), id, x.(pc := Deleting))
    case Delete(id) => Put(s, id, x.(recorded := false, pc := Finished))
    case StreamArrives(id) => Put(s, id, x.(pending := x.pending + 1))
    case PeerCloses(id) => Put(s, id, x.(closed := true))
  }

  function MainApply(s: State, a: Action): State
    requires !AcceptStep(a) && !SessionStep(a) && MainEnabled(s, a)
  {
    match a
    case CancelParent => s.(parentDone := true)
    case WakeUp => s.(main := StopListening)
    case CloseListener => s.(main := AwaitAcceptor, listenerClosed := true)
    case SeeAcceptorDone => s.(main := Sweeping)
    case CloseAll => s.(main := Cancelling, sessions := Swept(s.sessions))
    case CancelService => s.(main := Joining, svcDone := true)
    case WaitDone => s.(main := Returned)
  }

  function Apply(s: State, a: Action): State
    requires Enabled(s, a)
  {
    if AcceptStep(a) then AcceptApply(s, a)
    else if SessionStep(a) then SessionApply(s, a)
    else MainApply(s, a)
  }

  /** The session set that Service.mu guards, with the sessions closed so far. */
  class Service {
    var sessions: set<nat>
    var closed: set<nat>

    constructor ()
      ensures sessions == {} && closed == {}
    {
      sessions := {};
      closed := {};
    }

    method Record(session: nat)
      modifies this
      ensures sessions == old(sessions) + {session} && closed == old(closed)
    {
      sessions := sessions + {session};
    }

    method Delete(session: nat)
      modifies this
      ensures sessions == old(sessions) - {session} && closed == old(closed)
    {
      sessions := sessions - {session};
    }

    /** closeAll: closes every recorded session, in whatever order the map yields them. */
    method CloseAll()
      modifies this
      ensures closed == old(closed) + sessions && sessions == old(sessions)
    {
      var todo := sessions;
      while todo != {}
        invariant todo <= sessions == old(sessions)
        invariant closed == old(closed) + (sessions - todo)
        decreases todo
      {
        var x :| x in todo;
        closed := closed + {x};
        todo := todo - {x};
      }
    }
  }

  /** The two sets tell the same as the flags of the joint machine. */
  ghost predicate Shows(sessions: set<nat>, closed: set<nat>, ss: seq<Session>) {
    forall i: nat :: i < |ss| ==> (i in sessions <==> ss[i].recorded) && (i in closed <==> ss[i].closed)
  }

  /** register on the sets is the accept goroutine's recording step. */
  lemma RecordIsStep(sessions: set<nat>, closed: set<nat>, s: State)
    requires Shows(sessions, closed, s.sessions) && s.acceptor.Holding? && s.acceptor.id < |s.sessions|
    ensures Shows(sessions + {s.acceptor.id}, closed, Apply(s, Record).sessions)
  {
  }

  /** delete on the sets is a worker's last step. */
  lemma DeleteIsStep(sessions: set<nat>, closed: set<nat>, s: State, id: nat)
    requires Shows(sessions, closed, s.sessions) && AtPc(s, id, Deleting)
    ensures Shows(sessions - {id}, closed, Apply(s, Delete(id)).sessions)
  {
  }

  /** closeAll on the sets is the sweep of the joint machine. */
  lemma CloseAllIsSweep(sessions: set<nat>, closed: set<nat>, ss: seq<Session>)
    requires Shows(sessions, closed, ss)
    ensures Shows(sessions, closed + sessions, Swept(ss))
  {
  }

  // ----- The invariant -----

  /** The worker has registered. */
  predicate HasRegistered(pc: Pc) {
    !pc.Yielded? && !pc.Recorded? && !pc.Starting?
  }

  /** The worker has registered and not yet vacated. */
  predicate Holds(pc: Pc) {
    pc.ClosingPrev? || pc.Serving? || pc.Parked? || pc.ClosingSelf? || pc.Vacating?
  }

  /** The holder named by a slot is a worker of that role and generation that has not vacated. */
  predicate SlotOwned(s: State, mode: Mode) {
    var h := CurrentOf(s.slots, mode);
    h.Some? ==>
      && h.value.0 < |s.sessions|
      && s.sessions[h.value.0].role == mode
      && Holds(s.sessions[h.value.0].pc)
      && s.sessions[h.value.0].gen == h.value.1
  }

  predicate InSlot(s: State, id: nat) {
    id < |s.sessions| && SlotOf(s.slots, s.sessions[id].role).mux == Some(id)
  }

  /** A holding worker's generation is no newer than its slot's, and equal only for the slot's holder. */
  predicate GenOrdered(s: State, id: nat)
    requires id < |s.sessions|
  {
    var x := s.sessions[id];
    Holds(x.pc) ==>
      && Age(x.gen) <= SlotAge(s.slots, x.role)
      && (Age(x.gen) == SlotAge(s.slots, x.role) ==> InSlot(s, id))
  }

  predicate Evicts(s: State, i: nat, id: nat) {
    AtPc(s, i, ClosingPrev(id))
  }

  /** A worker's `prev` is another session of its role that registered and left the slot. */
  predicate PrevSound(s: State, i: nat)
    requires i < |s.sessions|
  {
    s.sessions[i].pc.ClosingPrev? ==>
      var p := s.sessions[i].pc.prev;
      && p < |s.sessions| && p != i
      && s.sessions[p].role == s.sessions[i].role
      && HasRegistered(s.sessions[p].pc) && !InSlot(s, p)
  }

  ghost predicate PrevUnique(s: State) {
    forall i, j, p :: Evicts(s, i, p) && Evicts(s, j, p) ==> i == j
  }

  /** A session that registered and left its slot is closed, or some worker is about to close it. */
  ghost predicate EvictionPending(s: State, id: nat)
    requires id < |s.sessions|
  {
    HasRegistered(s.sessions[id].pc) && !InSlot(s, id) ==>
      s.sessions[id].closed || exists i :: Evicts(s, i, id)
  }

  predicate LocalSound(x: Session) {
    && !x.role.ModeRelay?
    && (x.pc.Vacating? || x.pc.Deleting? || x.pc.Finished? ==> x.closed)
    && (x.recorded <==> !x.pc.Yielded? && !x.pc.Finished?)
  }

  ghost predicate AllLocal(ss: seq<Session>) {
    forall i :: 0 <= i < |ss| ==> LocalSound(ss[i])
  }

  /** Only the accept goroutine's current session is not yet a worker. */
  predicate AcceptorSound(s: State) {
    && (s.acceptor.Holding? ==> AtPc(s, s.acceptor.id, Yielded))
    && (s.acceptor.Spawning? ==> AtPc(s, s.acceptor.id, Recorded))
    && (forall i :: 0 <= i < |s.sessions| && (s.sessions[i].pc.Yielded? || s.sessions[i].pc.Recorded?) ==>
          (s.acceptor.Holding? || s.acceptor.Spawning?) && s.acceptor.id == i)
  }

  predicate AfterSweep(m: Main) {
    m.Cancelling? || m.Joining? || m.Returned?
  }

  predicate MainSound(s: State) {
    && (s.main.Sweeping? || AfterSweep(s.main) ==> s.acceptor.Stopped?)
    && (s.main.AwaitAcceptor? || s.main.Sweeping? || AfterSweep(s.main) ==> s.listenerClosed)
    && (AfterSweep(s.main) ==> forall i :: 0 <= i < |s.sessions| ==> s.sessions[i].closed)
    && (s.main.Joining? || s.main.Returned? ==> s.svcDone)
    && (s.main.Returned? ==> forall i :: 0 <= i < |s.sessions| ==> s.sessions[i].pc.Finished?)
  }

  /** What relates workers to the slots, however often the generation counter has gone round. */
  ghost predicate SlotInv(s: State) {
    && (forall m :: SlotOwned(s, m))
    && (forall i :: 0 <= i < |s.sessions| ==> PrevSound(s, i))
    && PrevUnique(s)
  }

  /** What every run keeps. */
  ghost predicate Inv(s: State) {
    SlotInv(s) && AllLocal(s.sessions) && AcceptorSound(s) && MainSound(s)
  }

  /** What rests on generations being distinct; no slot has changed more than t times. */
  ghost predicate GenInv(s: State, t: nat) {
    && (forall m :: SlotAge(s.slots, m) <= t)
    && (forall i :: 0 <= i < |s.sessions| ==> GenOrdered(s, i))
  }

  /** Nobody was dropped: who left a slot is closed or about to be. */
  ghost predicate EvictInv(s: State) {
    forall i :: 0 <= i < |s.sessions| ==> EvictionPending(s, i)
  }

  lemma InitInv()
    ensures Inv(Init()) && GenInv(Init(), 0) && EvictInv(Init())
  {
  }

  // ----- Steps that leave the registry alone -----

  /** A session changed without touching its place in the registry; being closed is never undone. */
  predicate Quiet(x: Session, y: Session) {
    && y.role == x.role && y.gen == x.gen
    && HasRegistered(y.pc) == HasRegistered(x.pc) && Holds(y.pc) == Holds(x.pc)
    && (x.closed ==> y.closed)
    && (y.pc == x.pc || (!x.pc.ClosingPrev? && !y.pc.ClosingPrev?))
    && LocalSound(y)
  }

  ghost predicate QuietStep(s: State, s': State) {
    && s'.slots == s.slots && |s'.sessions| == |s.sessions|
    && forall i :: 0 <= i < |s.sessions| ==> Quiet(s.sessions[i], s'.sessions[i])
  }

  lemma QuietKeepsSlots(s: State, s': State)
    requires SlotInv(s) && QuietStep(s, s')
    ensures SlotInv(s')
  {
    forall m ensures SlotOwned(s', m) {
      assert SlotOwned(s, m);
      var h := CurrentOf(s.slots, m);
      if h.Some? {
        assert Quiet(s.sessions[h.value.0], s'.sessions[h.value.0]);
      }
    }
    forall i | 0 <= i < |s.sessions| ensures PrevSound(s', i) {
      assert Quiet(s.sessions[i], s'.sessions[i]) && PrevSound(s, i);
      if s.sessions[i].pc.ClosingPrev? {
        assert Quiet(s.sessions[s.sessions[i].pc.prev], s'.sessions[s.sessions[i].pc.prev]);
      }
    }
    forall i: nat, j: nat, p: nat | Evicts(s', i, p) && Evicts(s', j, p) ensures i == j {
      assert Quiet(s.sessions[i], s'.sessions[i]) && Quiet(s.sessions[j], s'.sessions[j]);
      assert Evicts(s, i, p) && Evicts(s, j, p);
    }
  }

  lemma QuietKeepsGens(s: State, s': State, t: nat)
    requires GenInv(s, t) && QuietStep(s, s')
    ensures GenInv(s', t)
  {
    forall i | 0 <= i < |s.sessions| ensures GenOrdered(s', i) {
      assert Quiet(s.sessions[i], s'.sessions[i]) && GenOrdered(s, i);
    }
  }

  lemma QuietKeepsEvictions(s: State, s': State)
    requires EvictInv(s) && QuietStep(s, s')
    ensures EvictInv(s')
  {
    forall i | 0 <= i < |s.sessions| ensures EvictionPending(s', i) {
      assert Quiet(s.sessions[i], s'.sessions[i]) && EvictionPending(s, i);
      if k: nat :| Evicts(s, k, i) {
        assert Quiet(s.sessions[k], s'.sessions[k]);
        assert Evicts(s', k, i);
      }
    }
  }

  predicate ActsQuietly(a: Action) {
    !a.HandshakeYields? && !a.Register? && !a.ClosePrev? && !a.Vacate?
  }

  lemma PutQuiet(s: State, s': State, id: nat)
    requires AllLocal(s.sessions) && id < |s.sessions| == |s'.sessions| && s'.slots == s.slots
    requires s'.sessions == s.sessions[id := s'.sessions[id]] && Quiet(s.sessions[id], s'.sessions[id])
    ensures QuietStep(s, s')
  {
  }

  lemma QuietSessionAction(s: State, a: Action)
    requires SessionStep(a) && SessionEnabled(s, a) && ActsQuietly(a) && AllLocal(s.sessions)
    ensures QuietStep(s, SessionApply(s, a))
  {
    hide QuietStep;
    PutQuiet(s, SessionApply(s, a), a.id);
  }

  lemma QuietAcceptAction(s: State, a: Action)
    requires AcceptStep(a) && AcceptEnabled(s, a) && ActsQuietly(a) && AllLocal(s.sessions) && AcceptorSound(s)
    ensures QuietStep(s, AcceptApply(s, a))
  {
    hide QuietStep;
    if a.Record? || a.Spawn? {
      PutQuiet(s, AcceptApply(s, a), s.acceptor.id);
    } else {
      SameQuiet(s, AcceptApply(s, a));
    }
  }

  lemma QuietAction(s: State, a: Action)
    requires AllLocal(s.sessions) && AcceptorSound(s) && Enabled(s, a) && ActsQuietly(a)
    ensures QuietStep(s, Apply(s, a))
  {
    hide QuietStep, AcceptApply, SessionApply;
    if AcceptStep(a) {
      QuietAcceptAction(s, a);
    } else if SessionStep(a) {
      QuietSessionAction(s, a);
    } else if a.CloseAll? {
      SweepQuiet(s);
    } else {
      SameQuiet(s, MainApply(s, a));
    }
  }

  lemma SameQuiet(s: State, s': State)
    requires AllLocal(s.sessions) && s'.slots == s.slots && s'.sessions == s.sessions
    ensures QuietStep(s, s')
  {
  }

  lemma SweepQuiet(s: State)
    requires AllLocal(s.sessions)
    ensures QuietStep(s, s.(main := Cancelling, sessions := Swept(s.sessions)))
  {
  }

  // ----- The four steps that matter -----

  function Yield(s: State, role: Mode): State {
    s.(sessions := s.sessions + [Session(role, Yielded, 0, false, false, 0)])
  }

  lemma YieldKeepsSlots(s: State, s': State, role: Mode)
    requires SlotInv(s) && s'.slots == s.slots && s'.sessions == Yield(s, role).sessions
    ensures SlotInv(s')
  {
    forall m ensures SlotOwned(s', m) {
      assert SlotOwned(s, m);
    }
    forall i | 0 <= i < |s'.sessions| ensures PrevSound(s', i) {
      assert i < |s.sessions| ==> PrevSound(s, i);
    }
    forall i: nat, j: nat, p: nat | Evicts(s', i, p) && Evicts(s', j, p) ensures i == j {
      assert Evicts(s, i, p) && Evicts(s, j, p);
    }
  }

  lemma YieldKeepsGens(s: State, s': State, t: nat, role: Mode)
    requires GenInv(s, t) && s'.slots == s.slots && s'.sessions == Yield(s, role).sessions
    ensures GenInv(s', t)
  {
    forall i | 0 <= i < |s'.sessions| ensures GenOrdered(s', i) {
      assert i < |s.sessions| ==> GenOrdered(s, i);
    }
  }

  lemma YieldKeepsEvictions(s: State, s': State, role: Mode)
    requires EvictInv(s) && s'.slots == s.slots && s'.sessions == Yield(s, role).sessions
    ensures EvictInv(s')
  {
    forall i | 0 <= i < |s'.sessions| ensures EvictionPending(s', i) {
      if i < |s.sessions| {
        assert EvictionPending(s, i);
        if k: nat :| Evicts(s, k, i) {
          assert Evicts(s', k, i);
        }
      }
    }
  }

  lemma ClosePrevKeepsSlots(s: State, id: nat)
    requires SlotInv(s) && id < |s.sessions| && s.sessions[id].pc.ClosingPrev?
    ensures SlotInv(ApplyClosePrev(s, id))
  {
    var s' := ApplyClosePrev(s, id);
    assert PrevSound(s, id);
    forall m ensures SlotOwned(s', m) {
      assert SlotOwned(s, m);
    }
    forall i | 0 <= i < |s'.sessions| ensures PrevSound(s', i) {
      assert PrevSound(s, i);
    }
    forall i: nat, j: nat, q: nat | Evicts(s', i, q) && Evicts(s', j, q) ensures i == j {
      assert Evicts(s, i, q) && Evicts(s, j, q);
    }
  }

  lemma ClosePrevKeepsGens(s: State, t: nat, id: nat)
    requires GenInv(s, t) && id < |s.sessions| && s.sessions[id].pc.ClosingPrev? && PrevSound(s, id)
    ensures GenInv(ApplyClosePrev(s, id), t)
  {
    var s' := ApplyClosePrev(s, id);
    forall i | 0 <= i < |s'.sessions| ensures GenOrdered(s', i) {
      assert GenOrdered(s, i);
    }
  }

  lemma ClosePrevKeepsEvictions(s: State, id: nat)
    requires EvictInv(s) && id < |s.sessions| && s.sessions[id].pc.ClosingPrev? && PrevSound(s, id)
    ensures EvictInv(ApplyClosePrev(s, id))
  {
    var s' := ApplyClosePrev(s, id);
    forall i | 0 <= i < |s'.sessions| ensures EvictionPending(s', i) {
      assert EvictionPending(s, i);
      if k: nat :| Evicts(s, k, i) {
        assert k != id ==> Evicts(s', k, i);
      }
    }
  }

  /** Registering hands the slot over: the old holder is now some worker's `prev`, and only its. */
  lemma RegisterKeepsSlots(s: State, id: nat)
    requires SlotInv(s) && AtPc(s, id, Starting)
    ensures SlotInv(ApplyRegister(s, id))
  {
    var s', role := ApplyRegister(s, id), s.sessions[id].role;
    assert SlotOwned(s, role);
    forall m ensures SlotOwned(s', m) {
      assert SlotOwned(s, m);
    }
    forall i | 0 <= i < |s'.sessions| ensures PrevSound(s', i) {
      assert PrevSound(s, i);
    }
    forall i: nat, j: nat, p: nat | Evicts(s', i, p) && Evicts(s', j, p) ensures i == j {
      assert i != id ==> Evicts(s, i, p) && PrevSound(s, i);
      assert j != id ==> Evicts(s, j, p) && PrevSound(s, j);
    }
  }

  /** The new generation is newer than every other, as long as the counter has not gone round. */
  lemma RegisterKeepsGens(s: State, t: nat, id: nat)
    requires SlotInv(s) && GenInv(s, t) && AtPc(s, id, Starting) && t + 1 <= GENERATIONS
    ensures GenInv(ApplyRegister(s, id), t + 1)
  {
    var s', role := ApplyRegister(s, id), s.sessions[id].role;
    assert SlotOwned(s, role) && SlotAge(s.slots, role) <= t;
    forall m ensures SlotAge(s'.slots, m) <= t + 1 {
      assert SlotAge(s.slots, m) <= t;
    }
    forall i | 0 <= i < |s'.sessions| ensures GenOrdered(s', i) {
      assert GenOrdered(s, i);
    }
  }

  /** Whom a registration replaces, its worker is about to close; the counter has no part in it. */
  lemma RegisterKeepsEvictions(s: State, id: nat)
    requires SlotInv(s) && EvictInv(s) && AtPc(s, id, Starting)
    ensures EvictInv(ApplyRegister(s, id))
  {
    var s', role := ApplyRegister(s, id), s.sessions[id].role;
    assert SlotOwned(s, role);
    forall i | 0 <= i < |s'.sessions| ensures EvictionPending(s', i) {
      assert EvictionPending(s, i);
      if i != id && InSlot(s, i) && s.sessions[i].role == role {
        assert Evicts(s', id, i);
      } else if k: nat :| Evicts(s, k, i) {
        assert Evicts(s', k, i);
      }
    }
  }

  /** Vacating: the holder never stays behind in its slot. */
  lemma VacateKeepsSlots(s: State, id: nat)
    requires SlotInv(s) && AtPc(s, id, Vacating)
    ensures SlotInv(Apply(s, Vacate(id)))
  {
    var s' := Apply(s, Vacate(id));
    forall m ensures SlotOwned(s', m) {
      assert SlotOwned(s, m);
    }
    forall i | 0 <= i < |s'.sessions| ensures PrevSound(s', i) {
      assert PrevSound(s, i);
    }
    forall i: nat, j: nat, p: nat | Evicts(s', i, p) && Evicts(s', j, p) ensures i == j {
      assert Evicts(s, i, p) && Evicts(s, j, p);
    }
  }

  /** A holder empties its slot, a superseded worker changes nothing. */
  lemma VacateKeepsGens(s: State, t: nat, id: nat)
    requires SlotInv(s) && AllLocal(s.sessions) && GenInv(s, t) && AtPc(s, id, Vacating) && t + 1 <= GENERATIONS
    ensures GenInv(Apply(s, Vacate(id)), t + 1)
  {
    var s', role := Apply(s, Vacate(id)), s.sessions[id].role;
    assert GenOrdered(s, id) && LocalSound(s.sessions[id]) && SlotOwned(s, role) && SlotAge(s.slots, role) <= t;
    forall m ensures SlotAge(s'.slots, m) <= t + 1 {
      assert SlotAge(s.slots, m) <= t;
    }
    forall i | 0 <= i < |s'.sessions| ensures GenOrdered(s', i) {
      assert GenOrdered(s, i);
    }
  }

  /** A Vacate by a worker whose generation is no stranger's drops nobody else. */
  lemma VacateKeepsEvictions(s: State, id: nat)
    requires SlotInv(s) && AllLocal(s.sessions) && EvictInv(s) && AtPc(s, id, Vacating) && GenOrdered(s, id)
    ensures EvictInv(Apply(s, Vacate(id)))
  {
    var s', role := Apply(s, Vacate(id)), s.sessions[id].role;
    assert LocalSound(s.sessions[id]) && SlotOwned(s, role);
    forall i | 0 <= i < |s'.sessions| ensures EvictionPending(s', i) {
      assert EvictionPending(s, i);
      if k: nat :| Evicts(s, k, i) {
        assert Evicts(s', k, i);
      }
    }
  }

  // ----- Every step and every run -----

  lemma StepKeepsSlots(s: State, a: Action)
    requires Inv(s) && Enabled(s, a)
    ensures SlotInv(Apply(s, a))
  {
    match a
    case HandshakeYields(role) => YieldKeepsSlots(s, Apply(s, a), role);
    case Register(id) => RegisterKeepsSlots(s, id);
    case ClosePrev(id) => ClosePrevKeepsSlots(s, id);
    case Vacate(id) => VacateKeepsSlots(s, id);
    case _ =>
      QuietAction(s, a);
      hide SlotInv;
      QuietKeepsSlots(s, Apply(s, a));
  }

  /** What a session step does to one session: it only ever moves forward. */
  predicate Forward(x: Session, y: Session) {
    && (x.closed ==> y.closed)
    && (y.recorded ==> x.recorded)
    && (x.pc.Finished? ==> y.pc.Finished?)
    && (x.pc.Yielded? || x.pc.Recorded? || y.pc.Yielded? || y.pc.Recorded? ==> y.pc == x.pc)
    && (LocalSound(x) ==> LocalSound(y))
  }

  /** A session step leaves the goroutines of Run alone and only moves sessions forward. */
  ghost predicate MovesForward(s: State, s': State) {
    && s' == s.(slots := s'.slots, sessions := s'.sessions)
    && |s'.sessions| == |s.sessions|
    && forall i :: 0 <= i < |s.sessions| ==> Forward(s.sessions[i], s'.sessions[i])
  }

  lemma PutForward(s: State, slots: Slots, id: nat, y: Session)
    requires id < |s.sessions| && Forward(s.sessions[id], y)
    ensures MovesForward(s, Put(s.(slots := slots), id, y))
  {
    hide LocalSound;
  }

  lemma ClosePrevForward(s: State, id: nat)
    requires id < |s.sessions| && s.sessions[id].pc.ClosingPrev?
    ensures MovesForward(s, ApplyClosePrev(s, id))
  {
  }

  lemma SessionStepForward(s: State, a: Action)
    requires SessionStep(a) && SessionEnabled(s, a)
    ensures MovesForward(s, SessionApply(s, a))
  {
    if a.ClosePrev? {
      ClosePrevForward(s, a.id);
    } else {
      var s' := SessionApply(s, a);
      hide MovesForward;
      assert s' == Put(s.(slots := s'.slots), a.id, s'.sessions[a.id]);
      PutForward(s, s'.slots, a.id, s'.sessions[a.id]);
    }
  }

  lemma AcceptKeepsAcceptor(s: State, a: Action)
    requires AcceptorSound(s) && AcceptStep(a) && AcceptEnabled(s, a)
    ensures AcceptorSound(AcceptApply(s, a))
  {
  }

  lemma AcceptKeepsLocal(s: State, a: Action)
    requires AllLocal(s.sessions) && AcceptorSound(s) && AcceptStep(a) && AcceptEnabled(s, a)
    ensures AllLocal(AcceptApply(s, a).sessions)
  {
  }

  lemma SweepClosesAll(s: State)
    requires AllLocal(s.sessions) && AcceptorSound(s) && s.acceptor.Stopped?
    ensures forall i :: 0 <= i < |s.sessions| ==> Swept(s.sessions)[i].closed
  {
    forall i | 0 <= i < |s.sessions| ensures Swept(s.sessions)[i].closed {
      assert LocalSound(s.sessions[i]);
    }
  }

  /** Everything but the slots. */
  ghost predicate LifeInv(s: State) {
    AllLocal(s.sessions) && AcceptorSound(s) && MainSound(s)
  }

  lemma ForwardKeepsLife(s: State, s': State)
    requires LifeInv(s) && MovesForward(s, s')
    ensures LifeInv(s')
  {
    hide LocalSound;
  }

  lemma MainKeepsLife(s: State, a: Action)
    requires LifeInv(s) && !AcceptStep(a) && !SessionStep(a) && MainEnabled(s, a)
    ensures LifeInv(MainApply(s, a))
  {
    if a.CloseAll? {
      SweepClosesAll(s);
    }
  }

  lemma StepKeepsLife(s: State, a: Action)
    requires LifeInv(s) && Enabled(s, a)
    ensures LifeInv(Apply(s, a))
  {
    if SessionStep(a) {
      hide LifeInv, SessionApply, SessionEnabled, MovesForward;
      SessionStepForward(s, a);
      ForwardKeepsLife(s, Apply(s, a));
    } else if AcceptStep(a) {
      AcceptKeepsAcceptor(s, a);
      AcceptKeepsLocal(s, a);
      hide AcceptorSound, AllLocal;
    } else {
      hide LifeInv, MainApply, MainEnabled;
      MainKeepsLife(s, a);
    }
  }

  /** Every step of any goroutine keeps the invariant, however long the relay has been running. */
  lemma StepKeepsInv(s: State, a: Action)
    requires Inv(s) && Enabled(s, a)
    ensures Inv(Apply(s, a))
  {
    StepKeepsSlots(s, a);
    assert LifeInv(s);
    hide SlotInv, AllLocal, AcceptorSound, MainSound, Apply, Enabled;
    StepKeepsLife(s, a);
  }

  /** The steps that may change a slot's generation. */
  function Bump(a: Action): nat {
    if a.Register? || a.Vacate? then 1 else 0
  }

  /** Every step keeps generations in order until the slots have changed 2^64 times. */
  lemma StepKeepsGens(s: State, t: nat, a: Action)
    requires Inv(s) && GenInv(s, t) && Enabled(s, a) && t + Bump(a) <= GENERATIONS
    ensures GenInv(Apply(s, a), t + Bump(a))
  {
    match a
    case HandshakeYields(role) => YieldKeepsGens(s, Apply(s, a), t, role);
    case Register(id) => RegisterKeepsGens(s, t, id);
    case ClosePrev(id) => ClosePrevKeepsGens(s, t, id);
    case Vacate(id) => VacateKeepsGens(s, t, id);
    case _ =>
      QuietAction(s, a);
      hide GenInv;
      QuietKeepsGens(s, Apply(s, a), t);
  }

  lemma StepKeepsEvictions(s: State, a: Action)
    requires Inv(s) && EvictInv(s) && Enabled(s, a) && (a.Vacate? ==> GenOrdered(s, a.id))
    ensures EvictInv(Apply(s, a))
  {
    match a
    case HandshakeYields(role) => YieldKeepsEvictions(s, Apply(s, a), role);
    case Register(id) => RegisterKeepsEvictions(s, id);
    case ClosePrev(id) => ClosePrevKeepsEvictions(s, id);
    case Vacate(id) => VacateKeepsEvictions(s, id);
    case _ =>
      QuietAction(s, a);
      hide EvictInv;
      QuietKeepsEvictions(s, Apply(s, a));
  }

  ghost predicate ValidRun(s: State, acts: seq<Action>)
    decreases |acts|
  {
    acts == [] || (Enabled(s, acts[0]) && ValidRun(Apply(s, acts[0]), acts[1..]))
  }

  ghost function Final(s: State, acts: seq<Action>): State
    requires ValidRun(s, acts)
    decreases |acts|
  {
    if acts == [] then s else Final(Apply(s, acts[0]), acts[1..])
  }

  /** How many registrations and vacates a run has. */
  function Bumps(acts: seq<Action>): nat {
    if acts == [] then 0 else Bump(acts[0]) + Bumps(acts[1..])
  }

  lemma {:induction false} RunKeepsInv(s: State, acts: seq<Action>)
    requires Inv(s) && ValidRun(s, acts)
    ensures Inv(Final(s, acts))
    decreases |acts|
  {
    hide Inv, Apply, Enabled;
    if acts != [] {
      StepKeepsInv(s, acts[0]);
      RunKeepsInv(Apply(s, acts[0]), acts[1..]);
    }
  }

  lemma {:induction false} RunKeepsGens(s: State, t: nat, acts: seq<Action>)
    requires Inv(s) && GenInv(s, t) && ValidRun(s, acts) && t + Bumps(acts) <= GENERATIONS
    ensures GenInv(Final(s, acts), t + Bumps(acts))
    decreases |acts|
  {
    hide Inv, GenInv, Apply, Enabled;
    if acts != [] {
      StepKeepsInv(s, acts[0]);
      StepKeepsGens(s, t, acts[0]);
      RunKeepsGens(Apply(s, acts[0]), t + Bump(acts[0]), acts[1..]);
    }
  }

  /** One more registration or vacate may pass before anybody can be dropped. */
  lemma {:induction false} RunKeepsEvictions(s: State, t: nat, acts: seq<Action>)
    requires Inv(s) && EvictInv(s) && (t <= GENERATIONS ==> GenInv(s, t))
    requires ValidRun(s, acts) && t + Bumps(acts) <= GENERATIONS + 1
    ensures EvictInv(Final(s, acts))
    decreases |acts|
  {
    hide Inv, EvictInv, Apply, GenOrdered;
    if acts != [] {
      var a := acts[0];
      StepKeepsInv(s, a);
      StepKeepsEvictions(s, a);
      if t + Bump(a) <= GENERATIONS {
        StepKeepsGens(s, t, a);
      }
      hide GenInv, Enabled;
      RunKeepsEvictions(Apply(s, a), t + Bump(a), acts[1..]);
    }
  }

  ghost predicate Reached(s: State, acts: seq<Action>) {
    ValidRun(Init(), acts) && Final(Init(), acts) == s
  }

  lemma ReachedInv(s: State, acts: seq<Action>)
    requires Reached(s, acts)
    ensures Inv(s)
    ensures Bumps(acts) <= GENERATIONS ==> GenInv(s, Bumps(acts))
    ensures Bumps(acts) <= GENERATIONS + 1 ==> EvictInv(s)
  {
    InitInv();
    RunKeepsInv(Init(), acts);
    if Bumps(acts) <= GENERATIONS + 1 {
      RunKeepsEvictions(Init(), 0, acts);
    }
    if Bumps(acts) <= GENERATIONS {
      RunKeepsGens(Init(), 0, acts);
    }
  }

  // ----- What the relay promises -----

  /** A worker of this role and generation that has registered and not yet vacated. */
  predicate Owner(s: State, mode: Mode, gen: nat, id: nat) {
    id < |s.sessions| && s.sessions[id].role == mode && s.sessions[id].gen == gen && Holds(s.sessions[id].pc)
  }

  /** If the slot is not empty, it belongs to exactly one worker, the one whose mux it holds. */
  ghost predicate OneOwner(s: State, mode: Mode) {
    CurrentOf(s.slots, mode).Some? ==>
      var h := CurrentOf(s.slots, mode).value;
      Owner(s, mode, h.1, h.0) && forall id :: Owner(s, mode, h.1, id) ==> id == h.0
  }

  /** In every interleaving with up to 2^64 registrations and vacates, a slot belongs to exactly one worker. */
  lemma SlotHasOneOwner(s: State, acts: seq<Action>, mode: Mode)
    requires Reached(s, acts) && Bumps(acts) <= GENERATIONS
    ensures OneOwner(s, mode)
  {
    ReachedInv(s, acts);
    assert SlotOwned(s, mode);
    var h := CurrentOf(s.slots, mode);
    if h.Some? {
      forall id: nat | Owner(s, mode, h.value.1, id) ensures id == h.value.0 {
        assert GenOrdered(s, id);
      }
    }
  }

  /** In every run at all, whatever the counter did, a slot's holder is a worker of its role that has not vacated. */
  lemma HolderIsAlive(s: State, acts: seq<Action>, mode: Mode)
    requires Reached(s, acts) && CurrentOf(s.slots, mode).Some?
    ensures var h := CurrentOf(s.slots, mode).value; Owner(s, mode, h.1, h.0)
  {
    ReachedInv(s, acts);
    assert SlotOwned(s, mode);
  }

  /** Vacating now empties the slot if its caller still holds it, and changes nothing otherwise. */
  ghost predicate VacatesOwn(s: State, id: nat)
    requires AtPc(s, id, Vacating)
  {
    var s' := Apply(s, Vacate(id));
    && (InSlot(s, id) ==> CurrentOf(s'.slots, s.sessions[id].role) == None)
    && (!InSlot(s, id) ==> s'.slots == s.slots)
    && forall m :: m != s.sessions[id].role ==> CurrentOf(s'.slots, m) == CurrentOf(s.slots, m)
  }

  /** A Vacate empties the slot exactly when its caller still holds it; a stale one changes nothing. */
  lemma VacateOnlyOwn(s: State, acts: seq<Action>, id: nat)
    requires Reached(s, acts) && Bumps(acts) <= GENERATIONS && AtPc(s, id, Vacating)
    ensures VacatesOwn(s, id)
  {
    ReachedInv(s, acts);
    assert GenOrdered(s, id) && SlotOwned(s, s.sessions[id].role);
  }

  /** The newest registration of a role holds its slot until it vacates. */
  lemma NewestHolds(s: State, acts: seq<Action>, i: nat, j: nat)
    requires Reached(s, acts) && Bumps(acts) <= GENERATIONS
    ensures NoNewer(s, i, j)
  {
    ReachedInv(s, acts);
    if InSlot(s, i) && j < |s.sessions| {
      assert GenOrdered(s, j) && SlotOwned(s, s.sessions[i].role);
    }
  }

  /** If i holds its slot, no unvacated worker j of the role is as new as it. */
  predicate NoNewer(s: State, i: nat, j: nat) {
    InSlot(s, i) && j < |s.sessions| && s.sessions[j].role == s.sessions[i].role && Holds(s.sessions[j].pc) ==>
      && Age(s.sessions[j].gen) <= Age(s.sessions[i].gen)
      && (s.sessions[j].gen == s.sessions[i].gen ==> j == i)
  }

  /** Once every worker has finished, every slot is empty. */
  lemma FinishedLeavesNothing(s: State, acts: seq<Action>)
    requires Reached(s, acts) && forall i :: 0 <= i < |s.sessions| ==> s.sessions[i].pc.Finished?
    ensures forall mode :: CurrentOf(s.slots, mode) == None
  {
    ReachedInv(s, acts);
    forall mode ensures CurrentOf(s.slots, mode) == None {
      assert SlotOwned(s, mode);
    }
  }

  /** If this mux was in a slot and no longer is, it is closed or is the `prev` of exactly one worker. */
  ghost predicate ClosedOnce(s: State, id: nat) {
    id < |s.sessions| && HasRegistered(s.sessions[id].pc) && !InSlot(s, id) ==>
      s.sessions[id].closed || exists i :: Evicts(s, i, id) && forall j :: Evicts(s, j, id) ==> j == i
  }

  /** In every interleaving with up to 2^64 + 1 registrations and vacates, an evicted mux is closed once. */
  lemma EvictedIsClosedOnce(s: State, acts: seq<Action>, id: nat)
    requires Reached(s, acts) && Bumps(acts) <= GENERATIONS + 1
    ensures ClosedOnce(s, id)
  {
    ReachedInv(s, acts);
    if id < |s.sessions| && HasRegistered(s.sessions[id].pc) && !InSlot(s, id) && !s.sessions[id].closed {
      assert EvictionPending(s, id);
      var i: nat :| Evicts(s, i, id);
      assert forall j :: Evicts(s, j, id) ==> j == i;
    }
  }

  /** When Run returns, every session the handshake ever yielded is closed and none is recorded. */
  lemma ReturnLeavesNothing(s: State, acts: seq<Action>)
    requires Reached(s, acts) && s.main.Returned?
    ensures forall i :: 0 <= i < |s.sessions| ==>
      s.sessions[i].closed && !s.sessions[i].recorded && s.sessions[i].pc.Finished?
    ensures forall mode :: CurrentOf(s.slots, mode) == None
  {
    ReachedInv(s, acts);
    assert AllLocal(s.sessions);
    FinishedLeavesNothing(s, acts);
  }

  /** After the sweep no session appears and none is recorded again. */
  lemma NothingRecordedAfterSweep(s: State, acts: seq<Action>, a: Action)
    requires Reached(s, acts) && AfterSweep(s.main) && Enabled(s, a)
    ensures var s' := Apply(s, a);
      && AfterSweep(s'.main) && |s'.sessions| == |s.sessions|
      && forall i :: 0 <= i < |s.sessions| ==> (s'.sessions[i].recorded ==> s.sessions[i].recorded)
  {
    ReachedInv(s, acts);
    if SessionStep(a) {
      hide SlotInv, SessionApply, SessionEnabled;
      SessionStepForward(s, a);
    } else {
      hide SlotInv, SessionApply, SessionEnabled;
    }
  }

  // ----- Where the generation counter goes round -----

  lemma RunCons(s: State, a: Action, acts: seq<Action>)
    requires Enabled(s, a) && ValidRun(Apply(s, a), acts)
    ensures ValidRun(s, [a] + acts) && Final(s, [a] + acts) == Final(Apply(s, a), acts)
    ensures Bumps([a] + acts) == Bump(a) + Bumps(acts)
  {
    assert ([a] + acts)[0] == a && ([a] + acts)[1..] == acts;
  }

  lemma {:induction false} RunAppend(s: State, xs: seq<Action>, ys: seq<Action>)
    requires ValidRun(s, xs) && ValidRun(Final(s, xs), ys)
    ensures ValidRun(s, xs + ys) && Final(s, xs + ys) == Final(Final(s, xs), ys)
    ensures Bumps(xs + ys) == Bumps(xs) + Bumps(ys)
    decreases |xs|
  {
    hide Apply, Enabled;
    if xs == [] {
      assert xs + ys == ys;
    } else {
      RunAppend(Apply(s, xs[0]), xs[1..], ys);
      assert xs + ys == [xs[0]] + (xs[1..] + ys);
      RunCons(s, xs[0], xs[1..] + ys);
    }
  }

  predicate Accepting(s: State) {
    s.acceptor.Listening? && !s.listenerClosed && !ServiceCtxDone(s)
  }

  /** Worker `id` holds the proxy slot. */
  predicate HoldsProxySlot(s: State, id: nat) {
    CurrentOf(s.slots, ModeProxy).Some? && CurrentOf(s.slots, ModeProxy).value.0 == id
    && Owner(s, ModeProxy, CurrentOf(s.slots, ModeProxy).value.1, id)
  }

  /** Nothing in the run cancels the relay or breaks its listener. */
  predicate LeftAlone(acts: seq<Action>) {
    forall i :: 0 <= i < |acts| ==> !acts[i].AcceptFails? && !acts[i].CancelParent?
  }

  /** A client of this role connects. */
  lemma YieldRun(s: State, role: Mode) returns (acts: seq<Action>)
    requires s.acceptor.Listening? && !s.listenerClosed && !role.ModeRelay?
    ensures ValidRun(s, acts) && LeftAlone(acts) && Bumps(acts) == 0
    ensures Final(s, acts) == Yield(s, role).(acceptor := Holding(|s.sessions|))
  {
    hide SessionApply, MainApply;
    var s1 := Apply(s, Accept);
    var s2 := Apply(s1, TlsDone);
    hide Apply, Enabled;
    OneStepRun(s2, HandshakeYields(role));
    RunCons(s1, TlsDone, [HandshakeYields(role)]);
    RunCons(s, Accept, [TlsDone] + [HandshakeYields(role)]);
    acts := [Accept] + ([TlsDone] + [HandshakeYields(role)]);
  }

  /** The accept goroutine records its session and starts its worker. */
  lemma SpawnRun(s: State) returns (acts: seq<Action>)
    requires s.acceptor.Holding? && s.acceptor.id < |s.sessions|
    ensures ValidRun(s, acts) && LeftAlone(acts) && Bumps(acts) == 0
    ensures var id := s.acceptor.id;
      Final(s, acts)
      == s.(acceptor := Listening, sessions := s.sessions[id := s.sessions[id].(recorded := true, pc := Starting)])
  {
    hide SessionApply, MainApply;
    var s1 := Apply(s, Record);
    hide Apply, Enabled;
    OneStepRun(s1, Spawn);
    RunCons(s, Record, [Spawn]);
    acts := [Record] + [Spawn];
  }

  /** Another client of this role connects and its worker starts. */
  lemma ConnectRun(s: State, role: Mode) returns (acts: seq<Action>)
    requires Accepting(s) && !role.ModeRelay?
    ensures ValidRun(s, acts) && LeftAlone(acts) && Bumps(acts) == 0
    ensures Final(s, acts) == s.(sessions := s.sessions + [Session(role, Starting, 0, false, true, 0)])
  {
    var m1 := YieldRun(s, role);
    var m2 := SpawnRun(Final(s, m1));
    hide ValidRun, Final;
    RunAppend(s, m1, m2);
    acts := m1 + m2;
  }

  /** Another proxy connects and registers; nothing else changes. */
  lemma OneMore(s: State) returns (acts: seq<Action>)
    requires Accepting(s)
    ensures ValidRun(s, acts) && Bumps(acts) == 1
    ensures var f := Final(s, acts);
      && Accepting(f) && |f.sessions| == |s.sessions| + 1 && f.sessions[..|s.sessions|] == s.sessions
      && HoldsProxySlot(f, |s.sessions|) && !f.sessions[|s.sessions|].closed
      && (CurrentOf(s.slots, ModeProxy).None? ==> f.sessions[|s.sessions|].pc.Serving?)
      && SlotOf(f.slots, ModeProxy).gen == NextGen(SlotOf(s.slots, ModeProxy).gen)
  {
    var id := |s.sessions|;
    acts := ConnectRun(s, ModeProxy);
    var s1 := Final(s, acts);
    hide AcceptApply, MainApply, ValidRun;
    var s2 := Apply(s1, Register(id));
    assert s2.sessions[..id] == s.sessions;
    assert HoldsProxySlot(s2, id);
    OneStepRun(s1, Register(id));
    hide Apply, Enabled, Final, HoldsProxySlot;
    RunAppend(s, acts, [Register(id)]);
    acts := acts + [Register(id)];
  }

  lemma OneStepRun(s: State, a: Action)
    requires Enabled(s, a)
    ensures ValidRun(s, [a]) && Final(s, [a]) == Apply(s, a) && Bumps([a]) == Bump(a)
  {
    hide Apply, Enabled;
    assert ValidRun(Apply(s, a), []) && Final(Apply(s, a), []) == Apply(s, a);
    RunCons(s, a, []);
    assert [a] + [] == [a];
  }

  lemma NextGenAdds(g: nat, n: nat)
    requires n > 0
    ensures NextGen((g + n - 1) % GENERATIONS) == (g + n) % GENERATIONS
  {
    var q, r := (g + n - 1) / GENERATIONS, (g + n - 1) % GENERATIONS;
    assert g + n - 1 == GENERATIONS * q + r;
    if r + 1 == GENERATIONS {
      assert g + n == GENERATIONS * (q + 1);
    } else {
      assert g + n == GENERATIONS * q + (r + 1);
    }
  }

  /** n more proxies connect and register, while all workers that were there stand still. */
  lemma {:induction false} ManyMore(s: State, n: nat) returns (acts: seq<Action>)
    requires Accepting(s) && n > 0
    ensures ValidRun(s, acts) && Bumps(acts) == n
    ensures var f := Final(s, acts);
      && Accepting(f) && |f.sessions| == |s.sessions| + n && f.sessions[..|s.sessions|] == s.sessions
      && HoldsProxySlot(f, |s.sessions| + n - 1) && !f.sessions[|s.sessions| + n - 1].closed
      && SlotOf(f.slots, ModeProxy).gen == (SlotOf(s.slots, ModeProxy).gen + n) % GENERATIONS
  {
    hide Apply, Enabled, HoldsProxySlot, Accepting;
    var g := SlotOf(s.slots, ModeProxy).gen;
    if n == 1 {
      acts := OneMore(s);
    } else {
      acts := ManyMore(s, n - 1);
      var f := Final(s, acts);
      var last := OneMore(f);
      RunAppend(s, acts, last);
      NextGenAdds(g, n);
      assert Final(f, last).sessions[..|s.sessions|] == f.sessions[..|s.sessions|];
      acts := acts + last;
    }
  }

  /** After 2^64 + 1 registrations the first worker, still serving, and the newest have the same generation. */
  lemma CounterGoesRound() returns (acts: seq<Action>, s: State)
    ensures Reached(s, acts) && Bumps(acts) == GENERATIONS + 1
    ensures |s.sessions| == GENERATIONS + 1 && s.sessions[0].pc.Serving? && !s.sessions[0].closed
    ensures HoldsProxySlot(s, GENERATIONS) && Owner(s, ModeProxy, SlotOf(s.slots, ModeProxy).gen, 0)
    ensures Accepting(s) && !s.sessions[GENERATIONS].closed && forall i :: !Evicts(s, i, GENERATIONS)
  {
    hide Apply, Enabled;
    var a1 := OneMore(Init());
    var s1 := Final(Init(), a1);
    assert HoldsProxySlot(s1, 0);
    var a2 := ManyMore(s1, GENERATIONS);
    s := Final(s1, a2);
    RunAppend(Init(), a1, a2);
    acts := a1 + a2;
    assert s.sessions[0] == s.sessions[..1][0] == s1.sessions[0];
    hide ValidRun, Final, Bumps;
    HolderIsNoPrev(s, acts, GENERATIONS);
  }

  lemma HolderIsNoPrev(s: State, acts: seq<Action>, id: nat)
    requires Reached(s, acts) && HoldsProxySlot(s, id)
    ensures forall i :: !Evicts(s, i, id)
  {
    ReachedInv(s, acts);
    forall i: nat ensures !Evicts(s, i, id) {
      assert i < |s.sessions| ==> PrevSound(s, i);
    }
  }

  /** A serving worker whose peer goes away gets as far as its deferred Vacate. */
  lemma UnwindRun(s: State, id: nat) returns (acts: seq<Action>)
    requires id < |s.sessions| && s.sessions[id].pc.Serving? && !s.sessions[id].closed && !ServiceCtxDone(s)
    ensures ValidRun(s, acts) && Bumps(acts) == 0
    ensures Final(s, acts) == Put(s, id, s.sessions[id].(closed := true, pc := Vacating))
  {
    hide AcceptApply, MainApply;
    var s1 := Apply(s, PeerCloses(id));
    var s1' := Apply(s1, Park(id));
    var s2 := Apply(s1', ServeReturns(id));
    var s3 := Apply(s2, CloseSelf(id));
    assert s3 == Put(s, id, s.sessions[id].(closed := true, pc := Vacating));
    assert ValidRun(s3, []) && Final(s3, []) == s3;
    hide Apply, Enabled, SessionApply, SessionEnabled;
    acts := [];
    RunCons(s2, CloseSelf(id), acts);
    acts := [CloseSelf(id)] + acts;
    RunCons(s1', ServeReturns(id), acts);
    acts := [ServeReturns(id)] + acts;
    RunCons(s1, Park(id), acts);
    acts := [Park(id)] + acts;
    RunCons(s, PeerCloses(id), acts);
    acts := [PeerCloses(id)] + acts;
  }

  /** There a stale Vacate evicts the newest worker. */
  lemma StaleVacateEvicts() returns (acts: seq<Action>, s: State)
    ensures Reached(s, acts) && Bumps(acts) == GENERATIONS + 1
    ensures AtPc(s, 0, Vacating) && !VacatesOwn(s, 0)
    ensures !ClosedOnce(Apply(s, Vacate(0)), GENERATIONS)
  {
    var a1, s1 := CounterGoesRound();
    var a2 := UnwindRun(s1, 0);
    s := Final(s1, a2);
    hide ValidRun, Final;
    RunAppend(Init(), a1, a2);
    acts := a1 + a2;
    assert s.slots == s1.slots && s.sessions[0].gen == SlotOf(s.slots, ModeProxy).gen;
    DroppedIsOpen(s1, s);
  }

  /** The worker it evicts is left open, with nobody about to close it. */
  lemma DroppedIsOpen(s: State, v: State)
    requires |s.sessions| == GENERATIONS + 1 && v == Put(s, 0, s.sessions[0].(closed := true, pc := Vacating))
    requires HoldsProxySlot(s, GENERATIONS) && Owner(s, ModeProxy, SlotOf(s.slots, ModeProxy).gen, 0)
    requires !s.sessions[GENERATIONS].closed && forall i :: !Evicts(s, i, GENERATIONS)
    ensures !ClosedOnce(Apply(v, Vacate(0)), GENERATIONS)
  {
    var d := Apply(v, Vacate(0));
    assert d.sessions[GENERATIONS] == s.sessions[GENERATIONS] && !InSlot(d, GENERATIONS);
    forall i: nat ensures !Evicts(d, i, GENERATIONS) {
      assert !Evicts(s, i, GENERATIONS);
    }
  }

  /** One owner per slot in all runs with up to n registrations and vacates, if and only if n is at most 2^64. */
  lemma OneOwnerIff(n: nat)
    ensures (forall s, acts, mode :: Reached(s, acts) && Bumps(acts) <= n ==> OneOwner(s, mode))
       <==> n <= 0x1_0000_0000_0000_0000
  {
    if n <= GENERATIONS {
      forall s, acts, mode | Reached(s, acts) && Bumps(acts) <= n ensures OneOwner(s, mode) {
        SlotHasOneOwner(s, acts, mode);
      }
    } else {
      var acts, s := CounterGoesRound();
      assert Reached(s, acts) && Bumps(acts) <= n && !OneOwner(s, ModeProxy);
    }
  }

  /** The same bound, to the step, for the newest registration to hold its slot. */
  lemma NewestHoldsIff(n: nat)
    ensures n <= GENERATIONS <==> forall s, acts, i: nat, j: nat ::
      Reached(s, acts) && Bumps(acts) <= n ==> NoNewer(s, i, j)
  {
    if n <= GENERATIONS {
      forall s, acts, i: nat, j: nat | Reached(s, acts) && Bumps(acts) <= n ensures NoNewer(s, i, j) {
        NewestHolds(s, acts, i, j);
      }
    } else {
      var acts, s := CounterGoesRound();
      assert Reached(s, acts) && Bumps(acts) <= n && !NoNewer(s, GENERATIONS, 0);
    }
  }

  /** Every evicted mux is closed once in all runs with up to n of them, if and only if n is at most 2^64 + 1. */
  lemma ClosedOnceIff(n: nat)
    ensures n <= GENERATIONS + 1 <==> forall s, acts, id: nat ::
      Reached(s, acts) && Bumps(acts) <= n ==> ClosedOnce(s, id)
  {
    if n <= GENERATIONS + 1 {
      forall s, acts, id: nat | Reached(s, acts) && Bumps(acts) <= n ensures ClosedOnce(s, id) {
        EvictedIsClosedOnce(s, acts, id);
      }
    } else {
      var acts, s := StaleVacateEvicts();
      var a := Vacate(0);
      hide ValidRun, Apply, Enabled, ClosedOnce;
      OneStepRun(s, a);
      RunAppend(Init(), acts, [a]);
      assert Reached(Apply(s, a), acts + [a]) && Bumps(acts + [a]) <= n && !ClosedOnce(Apply(s, a), GENERATIONS);
    }
  }

  /** The same bound, to the step, for Vacate to leave successors alone. */
  lemma VacateOnlyOwnIff(n: nat)
    ensures n <= GENERATIONS <==> forall s, acts, id: nat ::
      Reached(s, acts) && Bumps(acts) <= n && AtPc(s, id, Vacating) ==> VacatesOwn(s, id)
  {
    if n <= GENERATIONS {
      forall s, acts, id: nat | Reached(s, acts) && Bumps(acts) <= n && AtPc(s, id, Vacating)
        ensures VacatesOwn(s, id)
      {
        VacateOnlyOwn(s, acts, id);
      }
    } else {
      var acts, s := StaleVacateEvicts();
      assert Reached(s, acts) && Bumps(acts) <= n && AtPc(s, 0, Vacating) && !VacatesOwn(s, 0);
    }
  }

  // ----- The final wait ends -----

  function PcWork(pc: Pc): nat {
    match pc
    case Yielded => 10
    case Recorded => 9
    case Starting => 8
    case ClosingPrev(_) => 7
    case Serving => 6
    case Parked => 5
    case ClosingSelf => 4
    case Vacating => 3
    case Deleting => 2
    case Finished => 0
  }

  function SessionsWork(ss: seq<Session>): nat {
    if ss == [] then 0 else PcWork(ss[0].pc) + 2 * ss[0].pending + SessionsWork(ss[1..])
  }

  function ShutdownWork(s: State): nat {
    SessionsWork(s.sessions)
    + (match s.main case Cancelling => 2 case Joining => 1 case _ => 0)
    + if s.parentDone then 0 else 1
  }

  lemma {:induction false} WorkUpdate(ss: seq<Session>, i: nat, y: Session)
    requires i < |ss|
    ensures SessionsWork(ss[i := y])
      == SessionsWork(ss) - PcWork(ss[i].pc) - 2 * ss[i].pending + PcWork(y.pc) + 2 * y.pending
  {
    if i == 0 {
      assert ss[i := y][1..] == ss[1..];
    } else {
      assert ss[i := y][1..] == ss[1..][i - 1 := y];
      WorkUpdate(ss[1..], i - 1, y);
    }
  }

  /** A step of one worker, as a change of one session. */
  predicate WorkerStep(a: Action) {
    a.Register? || a.Park? || a.ServeOne? || a.ServeReturns? || a.CloseSelf? || a.Vacate? || a.Delete?
  }

  lemma WorkerDecreases(s: State, a: Action)
    requires WorkerStep(a) && Enabled(s, a)
    ensures Apply(s, a).main == s.main
    ensures ShutdownWork(Apply(s, a)) < ShutdownWork(s)
  {
    hide SessionsWork, AcceptApply, MainApply;
    var y := Apply(s, a).sessions[a.id];
    assert Apply(s, a).sessions == s.sessions[a.id := y];
    WorkUpdate(s.sessions, a.id, y);
  }

  lemma ClosePrevDecreases(s: State, id: nat)
    requires id < |s.sessions| && s.sessions[id].pc.ClosingPrev? && PrevSound(s, id)
    ensures ShutdownWork(ApplyClosePrev(s, id)) < ShutdownWork(s)
  {
    hide SessionsWork;
    var p := s.sessions[id].pc.prev;
    WorkUpdate(s.sessions, p, s.sessions[p].(closed := true));
    var ss := s.sessions[p := s.sessions[p].(closed := true)];
    WorkUpdate(ss, id, ss[id].(pc := Serving));
  }

  /** After the sweep every possible step, of whatever goroutine, strictly decreases the remaining work. */
  lemma ShutdownDecreases(s: State, a: Action)
    requires Inv(s) && AfterSweep(s.main) && Enabled(s, a)
    ensures AfterSweep(Apply(s, a).main)
    ensures ShutdownWork(Apply(s, a)) < ShutdownWork(s)
  {
    if WorkerStep(a) {
      hide SessionsWork, Inv;
      WorkerDecreases(s, a);
    } else if a.ClosePrev? {
      assert PrevSound(s, a.id);
      hide SessionsWork, SlotInv, ShutdownWork;
      ClosePrevDecreases(s, a.id);
    } else {
      hide SessionsWork, SlotInv;
    }
  }

  /** After the sweep and before Run returns, some goroutine of the relay can always move. */
  lemma ShutdownNeverStuck(s: State)
    requires Inv(s) && AfterSweep(s.main) && !s.main.Returned?
    ensures exists a: Action :: !a.CancelParent? && Enabled(s, a)
  {
    hide SlotInv;
    if s.main.Cancelling? {
      assert Enabled(s, CancelService);
    } else if forall i :: 0 <= i < |s.sessions| ==> s.sessions[i].pc.Finished? {
      assert Enabled(s, WaitDone);
    } else {
      var i :| 0 <= i < |s.sessions| && !s.sessions[i].pc.Finished?;
      match s.sessions[i].pc
      case Starting => assert Enabled(s, Register(i));
      case ClosingPrev(_) => assert Enabled(s, ClosePrev(i));
      case Serving => assert Enabled(s, ServeReturns(i));
      case Parked => assert Enabled(s, ServeReturns(i));
      case ClosingSelf => assert Enabled(s, CloseSelf(i));
      case Vacating => assert Enabled(s, Vacate(i));
      case Deleting => assert Enabled(s, Delete(i));
    }
  }

  /**
  The wait in Run ends: a run that starts after the sweep has at most ShutdownWork steps, and
  when no goroutine of the relay can move any more, Run has returned.
  */
  lemma {:induction false} ShutdownTerminates(s: State, acts: seq<Action>)
    requires Inv(s) && AfterSweep(s.main) && ValidRun(s, acts)
    ensures |acts| + ShutdownWork(Final(s, acts)) <= ShutdownWork(s)
    ensures (forall a: Action :: !a.CancelParent? ==> !Enabled(Final(s, acts), a)) ==> Final(s, acts).main.Returned?
    decreases |acts|
  {
    if acts == [] {
      if !s.main.Returned? {
        ShutdownNeverStuck(s);
      }
    } else {
      ShutdownDecreases(s, acts[0]);
      StepKeepsInv(s, acts[0]);
      hide Inv, Apply, Enabled, ShutdownWork;
      ShutdownTerminates(Apply(s, acts[0]), acts[1..]);
    }
  }

  // ----- From cancellation to the return, with silent peers -----

  /**
  A step that the relay takes by itself once it is cancelled. Everything else is up to the
  peers: connecting, finishing TLS, sending the hello or leaving instead, opening streams,
  closing. The TLS handshake gives up by itself, and a closed listener refuses.
  */
  predicate OwnStep(s: State, a: Action) {
    && Enabled(s, a)
    && !a.Accept? && !a.TlsDone? && !a.HandshakeYields? && !a.StreamArrives? && !a.PeerCloses? && !a.CancelParent?
    && (a.HandshakeFails? ==> s.acceptor.Shaking?)
    && (a.AcceptFails? ==> s.listenerClosed)
  }

  /** The worker waits in AcceptStream for a peer that says nothing. */
  predicate WaitsForPeer(x: Session) {
    x.pc.Parked? && !x.closed && x.pending == 0
  }

  /** Run waits for the accept goroutine, which waits for a hello; nobody else has anything to do. */
  predicate Hangs(s: State) {
    && s.main.AwaitAcceptor? && s.acceptor.Greeting?
    && forall i :: 0 <= i < |s.sessions| ==> s.sessions[i].pc.Finished? || WaitsForPeer(s.sessions[i])
  }

  lemma WorkerMoves(s: State, i: nat) returns (a: Action)
    requires ServiceCtxDone(s) && i < |s.sessions| && !s.sessions[i].pc.Yielded? && !s.sessions[i].pc.Recorded?
    requires !s.sessions[i].pc.Finished? && !WaitsForPeer(s.sessions[i])
    ensures OwnStep(s, a)
  {
    match s.sessions[i].pc
    case Starting => a := Register(i);
    case ClosingPrev(_) => a := ClosePrev(i);
    case Serving => a := ServeReturns(i);
    case Parked => a := if s.sessions[i].closed then ServeReturns(i) else ServeOne(i);
    case ClosingSelf => a := CloseSelf(i);
    case Vacating => a := Vacate(i);
    case Deleting => a := Delete(i);
  }

  /** The relay was cancelled, or its accept loop ended because the listener broke. */
  predicate Ending(s: State) {
    s.parentDone || s.acceptor.Stopped?
  }

  /** What Run's own goroutine or the accept goroutine can do, unless one of them waits. */
  lemma RunMoves(s: State) returns (a: Option<Action>)
    requires LifeInv(s) && Ending(s) && !s.main.Returned?
    ensures a.Some? ==> OwnStep(s, a.value)
    ensures a.None? ==> (s.main.AwaitAcceptor? && s.acceptor.Greeting?) || s.main.Joining?
  {
    a := match s.main
      case Waiting => Some(WakeUp)
      case StopListening => Some(CloseListener)
      case AwaitAcceptor =>
        (match s.acceptor
         case Listening => Some(AcceptFails)
         case Shaking => Some(HandshakeFails)
         case Greeting => None
         case Holding(_) => Some(Record)
         case Spawning(_) => Some(Spawn)
         case Stopped => Some(SeeAcceptorDone))
      case Sweeping => Some(CloseAll)
      case Cancelling => Some(CancelService)
      case _ => None;
  }

  /**
  After cancellation, or after the listener broke, and before the return, the relay can do
  nothing by itself if and only if it hangs: some client has finished TLS and sends no hello.
  */
  lemma StuckIffHangs(s: State)
    requires Inv(s) && Ending(s) && !s.main.Returned?
    ensures (forall a :: !OwnStep(s, a)) <==> Hangs(s)
  {
    assert LifeInv(s);
    hide SlotInv;
    var a := RunMoves(s);
    if a.Some? {
      assert OwnStep(s, a.value);
    } else if i :| 0 <= i < |s.sessions| && !s.sessions[i].pc.Finished? && !WaitsForPeer(s.sessions[i]) {
      var b := WorkerMoves(s, i);
      assert OwnStep(s, b);
    } else if s.main.Joining? {
      assert OwnStep(s, WaitDone);
    }
  }

  function AcceptorWork(a: Acceptor): nat {
    match a
    case Shaking => 4
    case Holding(_) => 3
    case Spawning(_) => 2
    case Listening => 1
    case _ => 0
  }

  function MainWork(m: Main): nat {
    match m
    case Waiting => 6
    case StopListening => 5
    case AwaitAcceptor => 4
    case Sweeping => 3
    case Cancelling => 2
    case Joining => 1
    case Returned => 0
  }

  function RelayWork(s: State): nat {
    SessionsWork(s.sessions) + AcceptorWork(s.acceptor) + MainWork(s.main)
  }

  lemma {:induction false} SweptWork(ss: seq<Session>)
    ensures SessionsWork(Swept(ss)) == SessionsWork(ss)
  {
    if ss != [] {
      SweptWork(ss[1..]);
      assert Swept(ss)[1..] == Swept(ss[1..]);
    }
  }

  lemma AcceptStepWorks(s: State, a: Action)
    requires AcceptorSound(s) && AcceptStep(a) && OwnStep(s, a)
    ensures RelayWork(Apply(s, a)) < RelayWork(s)
    ensures Apply(s, a).acceptor.Greeting? <==> s.acceptor.Greeting?
  {
    hide SessionsWork, SessionApply, MainApply;
    if a.Record? || a.Spawn? {
      var id := s.acceptor.id;
      var y := Apply(s, a).sessions[id];
      assert Apply(s, a).sessions == s.sessions[id := y];
      WorkUpdate(s.sessions, id, y);
    }
  }

  lemma SessionStepWorks(s: State, a: Action)
    requires Inv(s) && SessionStep(a) && OwnStep(s, a)
    ensures RelayWork(Apply(s, a)) < RelayWork(s)
    ensures Apply(s, a).acceptor == s.acceptor
  {
    SessionStepForward(s, a);
    if a.ClosePrev? {
      assert PrevSound(s, a.id);
      hide SessionsWork, Inv, SlotInv, ShutdownWork;
      ClosePrevDecreases(s, a.id);
      MoreWork(s, Apply(s, a));
    } else {
      hide SessionsWork, Inv, ShutdownWork, SessionApply;
      WorkerDecreases(s, a);
      MoreWork(s, Apply(s, a));
    }
  }

  /** Both measures count the sessions alike. */
  lemma MoreWork(s: State, s': State)
    requires s' == s.(slots := s'.slots, sessions := s'.sessions) && ShutdownWork(s') < ShutdownWork(s)
    ensures RelayWork(s') < RelayWork(s)
  {
    hide SessionsWork;
  }

  lemma MainStepWorks(s: State, a: Action)
    requires !AcceptStep(a) && !SessionStep(a) && OwnStep(s, a)
    ensures RelayWork(Apply(s, a)) < RelayWork(s)
    ensures Apply(s, a).acceptor == s.acceptor
  {
    SweptWork(s.sessions);
    hide SessionsWork, Swept, AcceptApply, SessionApply;
  }

  /** Every step of the relay's own uses up work, and none starts or ends the wait for a hello. */
  lemma OwnStepWorks(s: State, a: Action)
    requires Inv(s) && OwnStep(s, a)
    ensures RelayWork(Apply(s, a)) < RelayWork(s)
    ensures Apply(s, a).acceptor.Greeting? <==> s.acceptor.Greeting?
  {
    hide RelayWork, SlotInv, AllLocal, MainSound, AcceptorSound, Apply, OwnStep;
    if AcceptStep(a) {
      AcceptStepWorks(s, a);
    } else if SessionStep(a) {
      SessionStepWorks(s, a);
    } else {
      MainStepWorks(s, a);
    }
  }

  lemma OwnStepKeepsEnding(s: State, a: Action)
    requires OwnStep(s, a) && Ending(s)
    ensures Ending(Apply(s, a))
  {
    if SessionStep(a) {
      SessionStepForward(s, a);
      hide SessionApply;
    }
  }

  ghost predicate OwnRun(s: State, acts: seq<Action>)
    requires ValidRun(s, acts)
    decreases |acts|
  {
    acts == [] || (OwnStep(s, acts[0]) && OwnRun(Apply(s, acts[0]), acts[1..]))
  }

  /**
  Cancellation, or a broken listener, with silent peers: the relay takes boundedly many steps, and when it can take no
  more, Run has returned if and only if no client was holding back its hello when it was
  cancelled. If one was, Run hangs.
  */
  lemma {:induction false} CancelReturnsIff(s: State, acts: seq<Action>)
    requires Inv(s) && Ending(s) && ValidRun(s, acts) && OwnRun(s, acts)
    ensures var f := Final(s, acts);
      && |acts| + RelayWork(f) <= RelayWork(s)
      && ((forall a :: !OwnStep(f, a)) ==>
            (f.main.Returned? <==> !s.acceptor.Greeting?) && (!f.main.Returned? ==> Hangs(f)))
    decreases |acts|
  {
    if acts == [] {
      if !s.main.Returned? {
        StuckIffHangs(s);
      }
    } else {
      hide Inv, Apply, OwnStep, RelayWork, Hangs, Ending;
      StepKeepsInv(s, acts[0]);
      OwnStepWorks(s, acts[0]);
      OwnStepKeepsEnding(s, acts[0]);
      CancelReturnsIff(Apply(s, acts[0]), acts[1..]);
    }
  }

  /** The hanging case is reachable: one client connects, finishes TLS and sends nothing more. */
  lemma SilentClientHangs() returns (acts: seq<Action>, s: State)
    ensures Reached(s, acts) && s.parentDone && Hangs(s)
  {
    hide SessionApply, ApplyClosePrev, ApplyRegister;
    var s1 := Apply(Init(), Accept);
    var s2 := Apply(s1, TlsDone);
    var s3 := Apply(s2, CancelParent);
    var s4 := Apply(s3, WakeUp);
    s := Apply(s4, CloseListener);
    assert ValidRun(s, []) && Final(s, []) == s;
    hide Apply, Enabled;
    acts := [];
    RunCons(s4, CloseListener, acts);
    acts := [CloseListener] + acts;
    RunCons(s3, WakeUp, acts);
    acts := [WakeUp] + acts;
    RunCons(s2, CancelParent, acts);
    acts := [CancelParent] + acts;
    RunCons(s1, TlsDone, acts);
    acts := [TlsDone] + acts;
    RunCons(Init(), Accept, acts);
    acts := [Accept] + acts;
  }

  // ----- The relay stays up, whatever its clients do -----

  /** The listener works and nobody cancelled the relay. */
  predicate Up(s: State) {
    s.main.Waiting? && !s.acceptor.Stopped? && !s.listenerClosed && !ServiceCtxDone(s)
  }

  lemma StepKeepsUp(s: State, a: Action)
    requires Up(s) && Enabled(s, a) && !a.AcceptFails? && !a.CancelParent?
    ensures Up(Apply(s, a))
  {
    if SessionStep(a) {
      SessionStepForward(s, a);
      hide SessionApply;
    }
  }

  /** No client, however it behaves, makes the accept goroutine stop or the relay shut down. */
  lemma {:induction false} ClientsCannotStop(s: State, acts: seq<Action>)
    requires Up(s) && ValidRun(s, acts) && LeftAlone(acts)
    ensures Up(Final(s, acts))
    decreases |acts|
  {
    if acts != [] {
      hide Up, Apply, Enabled;
      StepKeepsUp(s, acts[0]);
      ClientsCannotStop(Apply(s, acts[0]), acts[1..]);
    }
  }

  /** Worker id holds its role's slot and has just taken the stream that its peer opened. */
  predicate Served(s: State, id: nat, role: Mode) {
    && id < |s.sessions| && s.sessions[id].role == role && s.sessions[id].pc.Serving? && !s.sessions[id].closed
    && s.sessions[id].pending == 0 && InSlot(s, id)
  }

  /** Besides the previous holder of the role, nobody notices a new session. */
  ghost predicate OthersUntouched(s: State, f: State, role: Mode) {
    && |s.sessions| <= |f.sessions|
    && (forall j :: 0 <= j < |s.sessions| && !(s.sessions[j].role == role && InSlot(s, j)) ==>
          f.sessions[j] == s.sessions[j])
    && (forall m :: m != role ==> CurrentOf(f.slots, m) == CurrentOf(s.slots, m))
  }

  /** The accept goroutine is done with whichever client it has: a bad one is dropped, a good one gets its worker. */
  lemma SettleRun(s: State) returns (acts: seq<Action>)
    requires Up(s) && AcceptorSound(s)
    ensures ValidRun(s, acts) && LeftAlone(acts) && Accepting(Final(s, acts))
    ensures s.acceptor.Shaking? || s.acceptor.Greeting? ==> Final(s, acts) == s.(acceptor := Listening)
    ensures Final(s, acts).slots == s.slots && |Final(s, acts).sessions| == |s.sessions|
  {
    hide SessionApply, MainApply;
    match s.acceptor
    case Listening =>
      acts := [];
    case Holding(_) =>
      acts := SpawnRun(s);
    case Spawning(_) =>
      OneStepRun(s, Spawn);
      acts := [Spawn];
    case _ =>
      OneStepRun(s, HandshakeFails);
      acts := [HandshakeFails];
  }

  /** Its worker registers it, closing whom it replaces. */
  lemma EnterRun(s: State, id: nat) returns (acts: seq<Action>)
    requires SlotInv(s) && AtPc(s, id, Starting) && !s.sessions[id].closed
    ensures ValidRun(s, acts) && LeftAlone(acts)
    ensures var f := Final(s, acts);
      && f == s.(slots := f.slots, sessions := f.sessions) && |f.sessions| == |s.sessions|
      && f.sessions[id] == s.sessions[id].(pc := Serving, gen := f.sessions[id].gen) && InSlot(f, id)
      && (forall j :: 0 <= j < |s.sessions| && j != id ==>
            f.sessions[j] == s.sessions[j]
            || (InSlot(s, j) && s.sessions[j].role == s.sessions[id].role
                && f.sessions[j] == s.sessions[j].(closed := true)))
      && (forall m :: m != s.sessions[id].role ==> CurrentOf(f.slots, m) == CurrentOf(s.slots, m))
  {
    hide AcceptApply, MainApply;
    assert SlotOwned(s, s.sessions[id].role);
    var s1 := Apply(s, Register(id));
    if s1.sessions[id].pc.ClosingPrev? {
      var s2 := Apply(s1, ClosePrev(id));
      hide Apply, Enabled;
      OneStepRun(s1, ClosePrev(id));
      RunCons(s, Register(id), [ClosePrev(id)]);
      acts := [Register(id)] + [ClosePrev(id)];
    } else {
      hide Apply, Enabled;
      OneStepRun(s, Register(id));
      acts := [Register(id)];
    }
  }

  /** The peer opens a stream and the serve loop takes it. */
  lemma StreamRun(s: State, id: nat) returns (acts: seq<Action>)
    requires id < |s.sessions| && s.sessions[id].pc.Serving? && !s.sessions[id].closed && !ServiceCtxDone(s)
    ensures ValidRun(s, acts) && LeftAlone(acts) && Final(s, acts) == s && ServeOne(id) in acts
  {
    hide AcceptApply, MainApply;
    var s1 := Apply(s, Park(id));
    var s2 := Apply(s1, StreamArrives(id));
    var s3 := Apply(s2, ServeOne(id));
    assert s3.sessions == s.sessions;
    assert ValidRun(s3, []) && Final(s3, []) == s3;
    hide Apply, Enabled, SessionApply, SessionEnabled;
    acts := [];
    RunCons(s2, ServeOne(id), acts);
    acts := [ServeOne(id)] + acts;
    RunCons(s1, StreamArrives(id), acts);
    acts := [StreamArrives(id)] + acts;
    RunCons(s, Park(id), acts);
    acts := [Park(id)] + acts;
  }

  /**
  From every reachable state of a relay that is up, a client that is still to come can connect,
  register and have a stream served, in either role and whatever the clients before it did. When
  the accept goroutine was busy with a client that fails, only the previous holder of the role
  notices.
  */
  lemma ServesOneMore(s: State, acts: seq<Action>, role: Mode) returns (more: seq<Action>)
    requires Reached(s, acts) && Up(s) && !role.ModeRelay?
    ensures ValidRun(s, more) && LeftAlone(more) && ServeOne(|s.sessions|) in more
    ensures var f := Final(s, more);
      && Served(f, |s.sessions|, role) && Up(f)
      && (s.acceptor.Shaking? || s.acceptor.Greeting? ==> OthersUntouched(s, f, role))
  {
    ReachedInv(s, acts);
    var m1 := SettleRun(s);
    RunKeepsInv(s, m1);
    var s1 := Final(s, m1);
    hide Inv, AcceptorSound, ValidRun, Final, Reached, OthersUntouched;
    var m2 := NextClientRun(s1, role);
    RunAppend(s, m1, m2);
    more := m1 + m2;
    ClientsCannotStop(s, more);
    if s.acceptor.Shaking? || s.acceptor.Greeting? {
      UntouchedFrom(s, s1, Final(s1, m2), role);
    }
  }

  lemma UntouchedFrom(s: State, s1: State, f: State, role: Mode)
    requires s1 == s.(acceptor := Listening) && OthersUntouched(s1, f, role)
    ensures OthersUntouched(s, f, role)
  {
  }

  /** With the accept goroutine free, the next client connects, registers and has a stream served. */
  lemma NextClientRun(s: State, role: Mode) returns (acts: seq<Action>)
    requires Inv(s) && Accepting(s) && !role.ModeRelay?
    ensures ValidRun(s, acts) && LeftAlone(acts) && ServeOne(|s.sessions|) in acts
    ensures Served(Final(s, acts), |s.sessions|, role) && OthersUntouched(s, Final(s, acts), role)
  {
    var id := |s.sessions|;
    hide Inv, ValidRun, Final, SlotInv;
    var m1 := ConnectRun(s, role);
    var s1 := Final(s, m1);
    RunKeepsInv(s, m1);
    InvSlots(s1);
    var m2 := EnterRun(s1, id);
    var m3 := StreamRun(Final(s1, m2), id);
    RunAppend(s1, m2, m3);
    RunAppend(s, m1, m2 + m3);
    acts := m1 + (m2 + m3);
    assert ServeOne(id) in m3;
  }

  lemma InvSlots(s: State)
    requires Inv(s)
    ensures SlotInv(s)
  {
  }

  // ----- What closing the listener and cancelling cut off -----

  /** A client whose handshake is under way. */
  function InHandshake(s: State): nat {
    if s.acceptor.Shaking? || s.acceptor.Greeting? then 1 else 0
  }

  lemma ClosedStep(s: State, a: Action)
    requires s.listenerClosed && Enabled(s, a)
    ensures Apply(s, a).listenerClosed
    ensures |Apply(s, a).sessions| + InHandshake(Apply(s, a)) <= |s.sessions| + InHandshake(s)
  {
    if SessionStep(a) {
      SessionStepForward(s, a);
      hide SessionApply;
    }
  }

  /** Once the listener is closed no client is accepted: at most the one in its handshake still gets a session. */
  lemma {:induction false} ClosedListenerAdmitsNobody(s: State, acts: seq<Action>)
    requires s.listenerClosed && ValidRun(s, acts)
    ensures |Final(s, acts).sessions| <= |s.sessions| + InHandshake(s)
    decreases |acts|
  {
    hide Apply, Enabled;
    if acts != [] {
      ClosedStep(s, acts[0]);
      ClosedListenerAdmitsNobody(Apply(s, acts[0]), acts[1..]);
    }
  }

  function CountServes(acts: seq<Action>, id: nat): nat {
    if acts == [] then 0 else (if acts[0] == ServeOne(id) then 1 else 0) + CountServes(acts[1..], id)
  }

  function MayServe(s: State, id: nat): nat {
    if AtPc(s, id, Parked) then 1 else 0
  }

  lemma DoneStep(s: State, a: Action, id: nat)
    requires AllLocal(s.sessions) && AcceptorSound(s) && ServiceCtxDone(s) && Enabled(s, a)
    ensures ServiceCtxDone(Apply(s, a))
    ensures (if a == ServeOne(id) then 1 else 0) + MayServe(Apply(s, a), id) <= MayServe(s, id)
  {
    if AcceptStep(a) {
      hide SessionApply, MainApply;
    } else if a.ClosePrev? {
      hide AcceptApply, MainApply;
    } else if SessionStep(a) {
      hide AcceptApply, MainApply, ApplyClosePrev, AcceptorSound, AllLocal;
    } else {
      hide AcceptApply, SessionApply, AcceptorSound;
    }
  }

  /** After cancellation a serve loop takes at most the one stream it is already waiting for. */
  lemma {:induction false} CancelledServesAtMostOne(s: State, acts: seq<Action>, id: nat)
    requires Inv(s) && ServiceCtxDone(s) && ValidRun(s, acts)
    ensures CountServes(acts, id) <= MayServe(s, id)
    decreases |acts|
  {
    hide Apply, Enabled, SlotInv, MainSound, AcceptorSound, AllLocal, ServiceCtxDone, MayServe;
    if acts != [] {
      StepKeepsInv(s, acts[0]);
      DoneStep(s, acts[0], id);
      CancelledServesAtMostOne(Apply(s, acts[0]), acts[1..], id);
    }
  }

  /** A relay that is up can be cancelled at any time, and its listener can break whenever it is listening. */
  lemma CanEnd(s: State)
    ensures !s.parentDone ==> Enabled(s, CancelParent) && Ending(Apply(s, CancelParent))
    ensures s.acceptor.Listening? ==> Enabled(s, AcceptFails) && Ending(Apply(s, AcceptFails))
  {
  }
}
