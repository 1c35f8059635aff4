/**
The client's reconnect loop together with a consumer of the links it publishes: `Connector.Run`,
one watcher goroutine per link, and `Broker.Run`, all under one parent context.

Links are numbered in the order in which connect created them. Every action is one operation on
a channel, on the atomic pointer or on a session, or one thing that the network does.
*/
module Connector {
  import opened Bytes
  import opened Backoff

  /** Watching: the goroutine of connect is in its select; Woken: it left it; Closed: link.done is closed. */
  datatype Watcher = Watching | Woken | Closed

  /** `ended`: the session's Done channel is closed; `cancelled`: link.cancel was called. */
  datatype Link = Link(ended: bool, cancelled: bool, watcher: Watcher)

  datatype Pc =
    | Dialing
    | Exchanging                 // dialled; the hello exchange no longer looks at the context
    | BackingOff
    | Linked(i: nat)             // connect returned, not yet published
    | Serving(i: nat)
    | Cancelling(i: nat)         // serve took parent.Done and closed the session
    | Ended(i: nat)              // serve returned nil, the link is still published
    | Returned

  datatype BrokerPc = Polling | BrokerServing(i: nat) | BrokerReturned

  /**
  `fails` counts the failures since the start or the last healthy session; `served` lists the
  links the broker has served.
  */
  datatype State = State(
    parentDone: bool, links: seq<Link>, pc: Pc, current: Option<nat>,
    backoff: Duration, fails: nat,
    broker: BrokerPc, last: Option<nat>, served: seq<nat>)

  datatype Action =
    | CancelParent
    | DialSucceeds               // impossible once the parent is cancelled
    | ConnectFails               // any error but cancellation, before or after dialling
    | ConnectCancelled
    | ExchangeSucceeds           // a session exists; its link is created
    | Publish                    // current.Store
    | BackoffElapses
    | BackoffCancelled
    | ServeDone                  // serve's select takes link.done
    | ServeCancelled             // serve's select takes parent.Done and closes the session
    | CancelLink                 // link.cancel, then Run returns
    | Clear(healthy: bool)       // clearIf, then the health check
    | SessionEnds(i: nat)        // the peer or the network ends the session
    | WatchSession(i: nat)       // the watcher sees sess.Done and cancels
    | WatchCtx(i: nat)           // the watcher sees ctx.Done
    | CloseDone(i: nat)          // close(link.done)
    | Poll                       // the broker snapshots and serves a link it has not served last
    | BrokerSessionDone          // serveSession sees Session.Done and closes the session
    | BrokerCancelled            // serveSession sees ctx.Done and closes the session
    | BrokerReturns

  function Init(t: Timing): State {
    State(false, [], Dialing, None, t.minBackoff, 0, Polling, None, [])
  }

  /** Connector.Snapshot. */
  function Snapshot(s: State): Option<nat> {
    s.current
  }

  /** The link's context is done when it was cancelled or when its parent was. */
  predicate CtxDone(s: State, i: nat)
    requires i < |s.links|
  {
    s.links[i].cancelled || s.parentDone
  }

  predicate WatcherStep(a: Action) {
    a.SessionEnds? || a.WatchSession? || a.WatchCtx? || a.CloseDone?
  }

  predicate BrokerStep(a: Action) {
    a.Poll? || a.BrokerSessionDone? || a.BrokerCancelled? || a.BrokerReturns?
  }

  predicate WatcherEnabled(s: State, a: Action)
    requires WatcherStep(a)
  {
    a.i < |s.links| &&
    match a
    case SessionEnds(i) => true
    case WatchSession(i) => s.links[i].watcher.Watching? && s.links[i].ended
    case WatchCtx(i) => s.links[i].watcher.Watching? && CtxDone(s, i)
    case CloseDone(i) => s.links[i].watcher.Woken?
  }

  predicate BrokerEnabled(s: State, a: Action)
    requires BrokerStep(a)
  {
    match a
    case Poll => s.broker.Polling? && s.current.Some? && s.current != s.last
    case BrokerSessionDone => s.broker.BrokerServing? && s.broker.i < |s.links| && s.links[s.broker.i].ended
    case BrokerCancelled => s.broker.BrokerServing? && s.broker.i < |s.links| && s.parentDone
    case BrokerReturns => s.broker.Polling? && s.parentDone
  }

  predicate RunEnabled(s: State, a: Action)
    requires !WatcherStep(a) && !BrokerStep(a)
  {
    match a
    case CancelParent => !s.parentDone
    case DialSucceeds => s.pc.Dialing? && !s.parentDone
    case ConnectFails => s.pc.Dialing? || s.pc.Exchanging?
    case ConnectCancelled => s.pc.Dialing? && s.parentDone
    case ExchangeSucceeds => s.pc.Exchanging?
    case Publish => s.pc.Linked?
    case BackoffElapses => s.pc.BackingOff?
    case BackoffCancelled => s.pc.BackingOff? && s.parentDone
    case ServeDone => s.pc.Serving? && s.pc.i < |s.links| && s.links[s.pc.i].watcher.Closed?
    case ServeCancelled => s.pc.Serving? && s.pc.i < |s.links| && s.parentDone
    case CancelLink => s.pc.Cancelling? && s.pc.i < |s.links|
    case Clear(_) => s.pc.Ended?
  }

  predicate Enabled(s: State, a: Action) {
    if WatcherStep(a) then WatcherEnabled(s, a)
    else if BrokerStep(a) then BrokerEnabled(s, a)
    else RunEnabled(s, a)
  }

  function PutLink(s: State, i: nat, l: Link): State
    requires i < |s.links|
  {
    s.(links := s.links[i := l])
  }

  function WatcherApply(s: State, a: Action): State
    requires WatcherStep(a) && WatcherEnabled(s, a)
  {
    var l := s.links[a.i];
    match a
    case SessionEnds(i) => PutLink(s, i, l.(ended := true))
    case WatchSession(i) => PutLink(s, i, l.(cancelled := true, watcher := Woken))
    case WatchCtx(i) => PutLink(s, i, l.(watcher := Woken))
    case CloseDone(i) => PutLink(s, i, l.(watcher := Closed))
  }

  function BrokerApply(s: State, a: Action): State
    requires BrokerStep(a) && BrokerEnabled(s, a)
  {
    match a
    case Poll =>
      var i := s.current.value;
      s.(last := s.current, broker := BrokerServing(i), served := s.served + [i])
    case BrokerSessionDone =>
      PutLink(s.(broker := Polling), s.broker.i, s.links[s.broker.i].(ended := true))
    case BrokerCancelled =>
      PutLink(s.(broker := Polling), s.broker.i, s.links[s.broker.i].(ended := true))
    case BrokerReturns => s.(broker := BrokerReturned)
  }

  function RunApply(t: Timing, s: State, a: Action): State
    requires !WatcherStep(a) && !BrokerStep(a) && RunEnabled(s, a)
  {
    match a
    case CancelParent => s.(parentDone := true)
    case DialSucceeds => s.(pc := Exchanging)
    case ConnectFails => s.(pc := BackingOff)
    case ConnectCancelled => s.(pc := Returned)
    case ExchangeSucceeds =>
      s.(pc := Linked(|s.links|), links := s.links + [Link(false, false, Watching)])
    case Publish => s.(pc := Serving(s.pc.i), current := Some(s.pc.i))
    case BackoffElapses => s.(pc := Dialing, backoff := NextBackoff(t, s.backoff), fails := s.fails + 1)
    case BackoffCancelled => s.(pc := Returned)
    case ServeDone => s.(pc := Ended(s.pc.i))
    case ServeCancelled =>
      PutLink(s.(pc := Cancelling(s.pc.i)), s.pc.i, s.links[s.pc.i].(ended := true))
    case CancelLink => PutLink(s.(pc := Returned), s.pc.i, s.links[s.pc.i].(cancelled := true))
    case Clear(healthy) =>
      var s' := s.(pc := Dialing, current := if s.current == Some(s.pc.i) then None else s.current);
      if healthy then s'.(backoff := t.minBackoff, fails := 0) else s'
  }

  function Apply(t: Timing, s: State, a: Action): State
    requires Enabled(s, a)
  {
    if WatcherStep(a) then WatcherApply(s, a)
    else if BrokerStep(a) then BrokerApply(s, a)
    else RunApply(t, s, a)
  }

  // ----- The invariant -----

  /** Its session ended and its context is cancelled for good. */
  predicate Retired(l: Link) {
    l.ended && l.cancelled
  }

  predicate LinkSound(l: Link, parentDone: bool) {
    && (l.cancelled ==> l.ended)
    && (!l.watcher.Watching? ==> Retired(l) || parentDone)
  }

  /** Run is working on link i, which is the newest. */
  predicate WorksOn(pc: Pc, i: nat) {
    (pc.Linked? || pc.Serving? || pc.Cancelling? || pc.Ended?) && pc.i == i
  }

  /** How many links have been published. */
  function Published(s: State): int {
    if s.pc.Linked? then |s.links| - 1 else |s.links|
  }

  predicate RunSound(s: State) {
    var n := |s.links|;
    && (forall i :: 0 <= i < n ==> LinkSound(s.links[i], s.parentDone))
    && (forall i :: 0 <= i < n - 1 ==> Retired(s.links[i]))
    && (s.pc.Linked? || s.pc.Serving? || s.pc.Cancelling? || s.pc.Ended? ==> n > 0 && s.pc.i == n - 1)
    && (s.pc.Exchanging? && n > 0 ==> Retired(s.links[n - 1]))
    && ((s.pc.Dialing? || s.pc.BackingOff?) && n > 0 ==> Retired(s.links[n - 1]) || s.parentDone)
    && (s.pc.Ended? ==> s.links[n - 1].watcher.Closed?)
    && ((s.pc.Dialing? || s.pc.BackingOff? || s.pc.Returned?) && n > 0 ==>
          s.links[n - 1].ended || s.links[n - 1].watcher.Closed?)
    && (s.pc.Cancelling? ==> s.links[n - 1].ended && s.parentDone)
    && (s.pc.Serving? || s.pc.Cancelling? || s.pc.Ended? ==> s.current == Some(n - 1))
    && (s.pc.Dialing? || s.pc.Exchanging? || s.pc.BackingOff? || s.pc.Linked? ==> s.current == None)
    && (s.pc.Returned? ==> s.parentDone)
    && (s.pc.Returned? && s.current.Some? ==> n > 0 && s.current == Some(n - 1) && Retired(s.links[n - 1]))
  }

  predicate BrokerSound(s: State) {
    && s.last == (if s.served == [] then None else Some(s.served[|s.served| - 1]))
    && (forall i, j :: 0 <= i < j < |s.served| ==> s.served[i] < s.served[j])
    && (forall i :: 0 <= i < |s.served| ==> s.served[i] < Published(s))
    && (s.broker.BrokerServing? ==> s.last == Some(s.broker.i))
    && (s.broker.BrokerReturned? ==> s.parentDone)
    && (forall k :: 0 <= k < |s.served| ==>
          s.links[s.served[k]].ended || (s.broker.BrokerServing? && k == |s.served| - 1))
  }

  predicate BackoffSound(t: Timing, s: State) {
    Valid(t) && t.maxBackoff < TWO62 ==> s.backoff == Base(t, s.fails)
  }

  predicate Inv(t: Timing, s: State) {
    RunSound(s) && BrokerSound(s) && BackoffSound(t, s)
  }

  lemma InitInv(t: Timing)
    ensures Inv(t, Init(t))
  {
    if Valid(t) {
      ValidBounds(t);
    }
  }

  lemma WatcherKeepsRun(s: State, a: Action)
    requires RunSound(s) && WatcherStep(a) && WatcherEnabled(s, a)
    ensures RunSound(WatcherApply(s, a))
  {
  }

  lemma BrokerKeepsRun(s: State, a: Action)
    requires RunSound(s) && BrokerStep(a) && BrokerEnabled(s, a)
    ensures RunSound(BrokerApply(s, a))
  {
  }

  lemma RunKeepsRun(t: Timing, s: State, a: Action)
    requires RunSound(s) && !WatcherStep(a) && !BrokerStep(a) && RunEnabled(s, a)
    ensures RunSound(RunApply(t, s, a))
  {
    hide NextBackoff;
  }

  lemma RunKeepsBroker(t: Timing, s: State, a: Action)
    requires RunSound(s) && BrokerSound(s) && !WatcherStep(a) && !BrokerStep(a) && RunEnabled(s, a)
    ensures BrokerSound(RunApply(t, s, a))
  {
    hide NextBackoff, LinkSound, Retired;
  }

  lemma BrokerKeepsBroker(s: State, a: Action)
    requires RunSound(s) && BrokerSound(s) && BrokerStep(a) && BrokerEnabled(s, a)
    ensures BrokerSound(BrokerApply(s, a))
  {
    hide LinkSound, Retired;
  }

  lemma StepKeepsBroker(t: Timing, s: State, a: Action)
    requires RunSound(s) && BrokerSound(s) && Enabled(s, a)
    ensures BrokerSound(Apply(t, s, a))
  {
    if WatcherStep(a) {
      hide RunSound;
    } else if BrokerStep(a) {
      hide BrokerApply, BrokerSound, RunSound;
      BrokerKeepsBroker(s, a);
    } else {
      hide RunApply, BrokerSound, RunSound;
      RunKeepsBroker(t, s, a);
    }
  }

  lemma StepKeepsBackoff(t: Timing, s: State, a: Action)
    requires BackoffSound(t, s) && Enabled(s, a)
    ensures BackoffSound(t, Apply(t, s, a))
  {
    if Valid(t) && t.maxBackoff < TWO62 {
      ValidBounds(t);
      NextIsBaseNext(t, s.fails);
      assert Base(t, 0) == t.minBackoff;
    }
    hide Valid, Base, NextBackoff;
  }

  lemma StepKeepsInv(t: Timing, s: State, a: Action)
    requires Inv(t, s) && Enabled(s, a)
    ensures Inv(t, Apply(t, s, a))
  {
    StepKeepsBroker(t, s, a);
    StepKeepsBackoff(t, s, a);
    hide BackoffSound, BrokerSound, RunSound;
    if WatcherStep(a) {
      WatcherKeepsRun(s, a);
    } else if BrokerStep(a) {
      BrokerKeepsRun(s, a);
    } else {
      RunKeepsRun(t, s, a);
    }
  }

  ghost predicate ValidRun(t: Timing, s: State, acts: seq<Action>)
    decreases |acts|
  {
    acts == [] || (Enabled(s, acts[0]) && ValidRun(t, Apply(t, s, acts[0]), acts[1..]))
  }

  ghost function Final(t: Timing, s: State, acts: seq<Action>): State
    requires ValidRun(t, s, acts)
    decreases |acts|
  {
    if acts == [] then s else Final(t, Apply(t, s, acts[0]), acts[1..])
  }

  lemma {:induction false} RunKeepsInv(t: Timing, s: State, acts: seq<Action>)
    requires Inv(t, s) && ValidRun(t, s, acts)
    ensures Inv(t, Final(t, s, acts))
    decreases |acts|
  {
    hide Inv, Apply, Enabled;
    if acts != [] {
      StepKeepsInv(t, s, acts[0]);
      RunKeepsInv(t, Apply(t, s, acts[0]), acts[1..]);
    }
  }

  ghost predicate Reached(t: Timing, s: State, acts: seq<Action>) {
    ValidRun(t, Init(t), acts) && Final(t, Init(t), acts) == s
  }

  lemma ReachedInv(t: Timing, s: State, acts: seq<Action>)
    requires Reached(t, s, acts)
    ensures Inv(t, s)
  {
    InitInv(t);
    RunKeepsInv(t, Init(t), acts);
  }

  // ----- What the connector and the broker promise -----

  /**
  Every published link except the newest is retired: its session has ended and its context is
  cancelled. The newest one's context is done as soon as Run has let go of it.
  */
  lemma OnlyNewestLives(t: Timing, s: State, acts: seq<Action>)
    requires Reached(t, s, acts)
    ensures forall i :: 0 <= i < |s.links| - 1 ==> Retired(s.links[i])
    ensures |s.links| > 0 && !WorksOn(s.pc, |s.links| - 1) ==> CtxDone(s, |s.links| - 1)
    ensures s.pc.Returned? && Snapshot(s).Some? ==> |s.links| > 0 && Retired(s.links[|s.links| - 1])
  {
    ReachedInv(t, s, acts);
  }

  /** Snapshot is empty whenever Run is connecting or backing off, and otherwise shows the newest link. */
  lemma SnapshotIsNewest(t: Timing, s: State, acts: seq<Action>)
    requires Reached(t, s, acts)
    ensures s.pc.Dialing? || s.pc.Exchanging? || s.pc.BackingOff? ==> Snapshot(s) == None
    ensures Snapshot(s).Some? ==> |s.links| > 0 && Snapshot(s).value == |s.links| - 1
    ensures s.pc.Serving? ==> Snapshot(s) == Some(s.pc.i)
  {
    ReachedInv(t, s, acts);
  }

  /** clearIf always finds its own link: no successor can have been published before. */
  lemma ClearHitsOwnLink(t: Timing, s: State, acts: seq<Action>, healthy: bool)
    requires Reached(t, s, acts) && Enabled(s, Clear(healthy))
    ensures s.current == Some(s.pc.i) && Apply(t, s, Clear(healthy)).current == None
  {
    ReachedInv(t, s, acts);
  }

  /** The broker serves published links only, each at most once and in order of publication. */
  lemma ServedInOrder(t: Timing, s: State, acts: seq<Action>)
    requires Reached(t, s, acts)
    ensures forall i, j :: 0 <= i < j < |s.served| ==> s.served[i] < s.served[j]
    ensures forall i :: 0 <= i < |s.served| ==> s.served[i] < Published(s)
  {
    ReachedInv(t, s, acts);
  }

  /** The delay before the next attempt after k failures is min(MinBackoff * 2^k, MaxBackoff). */
  lemma WaitIsBase(t: Timing, s: State, acts: seq<Action>)
    requires Reached(t, s, acts) && Valid(t) && t.maxBackoff < TWO62
    ensures s.backoff == Base(t, s.fails)
  {
    ReachedInv(t, s, acts);
  }

  /**
  After Run has returned every session has ended, except that the newest one may survive: only
  if serve took link.done, so that nothing is published, and only if the broker either never
  served that link or is still serving it.
  */
  lemma OnlyNewestCanLeak(t: Timing, s: State, acts: seq<Action>, i: nat)
    requires Reached(t, s, acts) && s.pc.Returned? && i < |s.links| && !s.links[i].ended
    ensures i == |s.links| - 1 && Snapshot(s) == None && s.links[i].watcher.Closed?
    ensures i !in s.served || s.broker == BrokerServing(i)
  {
    ReachedInv(t, s, acts);
    if i in s.served {
      var k :| 0 <= k < |s.served| && s.served[k] == i;
      assert s.links[s.served[k]].ended || (s.broker.BrokerServing? && k == |s.served| - 1);
    }
  }

  /** A link that the broker served and let go of has an ended session, so a leaked one was never served. */
  lemma ServedSessionsEnd(t: Timing, s: State, acts: seq<Action>, k: nat)
    requires Reached(t, s, acts) && k < |s.served|
    requires !s.broker.BrokerServing? || k < |s.served| - 1
    ensures s.served[k] < |s.links| && s.links[s.served[k]].ended
  {
    ReachedInv(t, s, acts);
  }

  lemma RunCons(t: Timing, s: State, a: Action, acts: seq<Action>)
    requires Enabled(s, a) && ValidRun(t, Apply(t, s, a), acts)
    ensures ValidRun(t, s, [a] + acts) && Final(t, s, [a] + acts) == Final(t, Apply(t, s, a), acts)
    ensures Failed([a] + acts) == Failed([a]) + Failed(acts) && Waited([a] + acts) == Waited([a]) + Waited(acts)
  {
    assert ([a] + acts)[0] == a && ([a] + acts)[1..] == acts;
  }

  /** After this run both Run methods have returned and session i is still open. */
  ghost predicate Leaks(t: Timing, s: State, i: nat, acts: seq<Action>) {
    ValidRun(t, s, acts) &&
    var f := Final(t, s, acts);
    f.pc.Returned? && f.broker.BrokerReturned? && i < |f.links| && !f.links[i].ended
  }

  /** The newest session is open and no broker is there to close it. */
  predicate Unattended(s: State, i: nat) {
    i == |s.links| - 1 && !s.links[i].ended && s.broker != BrokerServing(i)
  }

  /** A step on the way to the leak: cancel, send the broker home, then let serve take link.done. */
  function TowardsLeak(s: State, i: nat): Action
    requires i < |s.links|
  {
    if !s.parentDone then CancelParent
    else if s.broker.BrokerServing? then BrokerCancelled
    else if s.broker.Polling? then BrokerReturns
    else
      match s.pc
      case Linked(_) => Publish
      case Serving(_) =>
        (match s.links[i].watcher case Watching => WatchCtx(i) case Woken => CloseDone(i) case Closed => ServeDone)
      case Ended(_) => Clear(false)
      case BackingOff => BackoffCancelled
      case _ => ConnectCancelled
  }

  /** How many such steps are left. */
  function LeakWork(s: State, i: nat): nat
    requires i < |s.links|
  {
    (if s.parentDone then 0 else 1)
    + (match s.broker case BrokerServing(_) => 2 case Polling => 1 case BrokerReturned => 0)
    + (match s.links[i].watcher case Watching => 2 case Woken => 1 case Closed => 0)
    + (match s.pc
       case Linked(_) => 4 case Serving(_) => 3 case Ended(_) => 2 case Returned => 0 case _ => 1)
  }

  lemma StepTowardsLeak(t: Timing, s: State, i: nat)
    requires RunSound(s) && BrokerSound(s) && i < |s.links| && Unattended(s, i)
    requires !s.pc.Returned? || !s.broker.BrokerReturned?
    ensures Enabled(s, TowardsLeak(s, i))
    ensures var s' := Apply(t, s, TowardsLeak(s, i));
      i < |s'.links| && Unattended(s', i) && LeakWork(s', i) < LeakWork(s, i)
  {
    hide NextBackoff;
  }

  /** From a state with an unattended session, both Run methods can return and leave it open. */
  lemma {:induction false} LeakRun(t: Timing, s: State, i: nat) returns (acts: seq<Action>)
    requires Inv(t, s) && i < |s.links| && Unattended(s, i)
    ensures Leaks(t, s, i, acts)
    decreases LeakWork(s, i)
  {
    acts := [];
    if !s.pc.Returned? || !s.broker.BrokerReturned? {
      var a := TowardsLeak(s, i);
      StepTowardsLeak(t, s, i);
      StepKeepsInv(t, s, a);
      hide Inv, RunSound, BrokerSound, Enabled, Apply, LeakWork;
      acts := LeakRun(t, Apply(t, s, a), i);
      RunCons(t, s, a, acts);
      acts := [a] + acts;
    }
  }

  /** Once the broker serves a link it leaves it only with the session ended; ended sessions stay ended. */
  predicate Attended(s: State, i: nat) {
    i < |s.links| && (s.links[i].ended || s.broker == BrokerServing(i))
  }

  lemma StepKeepsAttended(t: Timing, s: State, a: Action, i: nat)
    requires Attended(s, i) && Enabled(s, a)
    ensures Attended(Apply(t, s, a), i)
  {
    hide NextBackoff;
  }

  lemma {:induction false} RunKeepsAttended(t: Timing, s: State, acts: seq<Action>, i: nat)
    requires Attended(s, i) && ValidRun(t, s, acts)
    ensures Attended(Final(t, s, acts), i)
    decreases |acts|
  {
    hide Apply, Enabled;
    if acts != [] {
      StepKeepsAttended(t, s, acts[0], i);
      RunKeepsAttended(t, Apply(t, s, acts[0]), acts[1..], i);
    }
  }

  /**
  Exactly when a session can leak: in any reachable state, both Run methods can still return
  with session i open if and only if it is the newest, is open, and the broker is not serving it.
  */
  lemma LeakIff(t: Timing, s: State, acts: seq<Action>, i: nat)
    requires Reached(t, s, acts) && i < |s.links|
    ensures (exists more :: Leaks(t, s, i, more)) <==> Unattended(s, i)
  {
    ReachedInv(t, s, acts);
    if Unattended(s, i) {
      var more := LeakRun(t, s, i);
      assert Leaks(t, s, i, more);
    } else {
      assert Attended(s, i);
      forall more | ValidRun(t, s, more) ensures !Leaks(t, s, i, more) {
        RunKeepsAttended(t, s, more, i);
      }
    }
  }

  /** Such a state is reachable: dial, exchange, and the session is not yet published. */
  lemma SessionCanLeak(t: Timing) returns (acts: seq<Action>)
    ensures Leaks(t, Init(t), 0, acts)
  {
    hide NextBackoff;
    var s0 := Init(t);
    var s1 := Apply(t, s0, DialSucceeds);
    var s2 := Apply(t, s1, ExchangeSucceeds);
    InitInv(t);
    StepKeepsInv(t, s0, DialSucceeds);
    StepKeepsInv(t, s1, ExchangeSucceeds);
    acts := LeakRun(t, s2, 0);
    RunCons(t, s1, ExchangeSucceeds, acts);
    acts := [ExchangeSucceeds] + acts;
    RunCons(t, s0, DialSucceeds, acts);
    acts := [DialSucceeds] + acts;
  }

  // ----- The connector always gets back -----

  /** Link k does not exist yet, or Run is bringing it to a broker that has not served it. */
  predicate Heading(s: State, k: nat) {
    && !s.parentDone
    && (|s.links| == k
        || (|s.links| == k + 1 && (s.pc == Linked(k) || s.pc == Serving(k)) && s.last != Some(k)
            && s.links[k] == Link(false, false, Watching)))
  }

  /** Link k is published and the broker is serving it. */
  predicate Arrived(s: State, k: nat) {
    s.pc == Serving(k) && Snapshot(s) == Some(k) && s.broker == BrokerServing(k) && !s.parentDone
  }

  /** A step on the way there: end the old session, dial again, publish, let the broker pick the link up. */
  function TowardsLink(s: State, k: nat): Action
    requires Heading(s, k)
  {
    match s.pc
    case BackingOff => BackoffElapses
    case Dialing => DialSucceeds
    case Exchanging => ExchangeSucceeds
    case Linked(_) => Publish
    case Serving(i) =>
      if i == k then (if s.broker.BrokerServing? then BrokerSessionDone else Poll)
      else if i < |s.links| && !s.links[i].ended then SessionEnds(i)
      else if i < |s.links| && s.links[i].watcher.Watching? then WatchSession(i)
      else if i < |s.links| && s.links[i].watcher.Woken? then CloseDone(i)
      else ServeDone
    case _ => Clear(false)
  }

  function LinkWork(s: State, k: nat): nat {
    (match s.broker case BrokerServing(i) => if i == k then 0 else 2 case _ => 1)
    + match s.pc
      case Linked(i) => if i == k then 2 else 12
      case Serving(i) =>
        if i == k then 1
        else if i < |s.links|
        then (if s.links[i].ended then 7 else 8)
             + (match s.links[i].watcher case Watching => 2 case Woken => 1 case Closed => 0)
        else 7
      case Ended(_) => 6
      case BackingOff => 6
      case Dialing => 5
      case Exchanging => 4
      case _ => 0
  }

  lemma StepTowardsLink(t: Timing, s: State, k: nat)
    requires RunSound(s) && BrokerSound(s) && Heading(s, k) && !Arrived(s, k)
    ensures Enabled(s, TowardsLink(s, k))
    ensures var s' := Apply(t, s, TowardsLink(s, k));
      LinkWork(s', k) < LinkWork(s, k) && (Arrived(s', k) || Heading(s', k))
  {
    hide NextBackoff;
  }

  /**
  From every reachable state whose parent is alive, however many dials failed and sessions ended
  before: the next link can be published and the broker can be serving it.
  */
  lemma {:induction false} LinkRun(t: Timing, s: State, k: nat) returns (acts: seq<Action>)
    requires Inv(t, s) && (Heading(s, k) || Arrived(s, k))
    ensures ValidRun(t, s, acts) && Arrived(Final(t, s, acts), k)
    decreases LinkWork(s, k)
  {
    acts := [];
    if !Arrived(s, k) {
      var a := TowardsLink(s, k);
      StepTowardsLink(t, s, k);
      StepKeepsInv(t, s, a);
      hide Inv, RunSound, BrokerSound, Enabled, Apply, LinkWork, Heading, Arrived;
      acts := LinkRun(t, Apply(t, s, a), k);
      RunCons(t, s, a, acts);
      acts := [a] + acts;
    }
  }

  lemma AlwaysReconnects(t: Timing, s: State, acts: seq<Action>) returns (more: seq<Action>)
    requires Reached(t, s, acts) && !s.parentDone
    ensures ValidRun(t, s, more) && Arrived(Final(t, s, more), |s.links|)
  {
    ReachedInv(t, s, acts);
    more := LinkRun(t, s, |s.links|);
  }

  // ----- Cancellation ends both -----

  /** The step that cancellation leads to. */
  function TowardsReturn(s: State): Action {
    if !s.parentDone then CancelParent
    else
      match s.broker
      case BrokerServing(_) => BrokerCancelled
      case Polling => BrokerReturns
      case BrokerReturned =>
        match s.pc
        case Dialing => ConnectCancelled
        case Exchanging => ConnectFails
        case BackingOff => BackoffCancelled
        case Linked(_) => Publish
        case Serving(_) => ServeCancelled
        case Cancelling(_) => CancelLink
        case Ended(_) => Clear(false)
        case Returned => CancelParent
  }

  function ReturnWork(s: State): nat {
    (if s.parentDone then 0 else 1)
    + (match s.broker case BrokerServing(_) => 2 case Polling => 1 case BrokerReturned => 0)
    + (match s.pc
       case Linked(_) => 4 case Serving(_) => 3 case Cancelling(_) => 1 case Ended(_) => 2
       case Exchanging => 2 case Dialing => 1 case BackingOff => 1 case Returned => 0)
  }

  lemma StepTowardsReturn(t: Timing, s: State)
    requires RunSound(s) && BrokerSound(s) && (!s.pc.Returned? || !s.broker.BrokerReturned?)
    ensures Enabled(s, TowardsReturn(s))
    ensures ReturnWork(Apply(t, s, TowardsReturn(s))) < ReturnWork(s)
  {
    hide NextBackoff;
  }

  /** From every reachable state, cancelling the parent lets both Run methods return, without the network. */
  lemma {:induction false} CancelReturns(t: Timing, s: State) returns (acts: seq<Action>)
    requires Inv(t, s)
    ensures ValidRun(t, s, acts) && |acts| <= ReturnWork(s) <= 7
    ensures Final(t, s, acts).pc.Returned? && Final(t, s, acts).broker.BrokerReturned?
    decreases ReturnWork(s)
  {
    acts := [];
    if !s.pc.Returned? || !s.broker.BrokerReturned? {
      var a := TowardsReturn(s);
      StepTowardsReturn(t, s);
      StepKeepsInv(t, s, a);
      assert ReturnWork(s) <= 7;
      hide Inv, RunSound, BrokerSound, Enabled, Apply, ReturnWork;
      acts := CancelReturns(t, Apply(t, s, a));
      RunCons(t, s, a, acts);
      acts := [a] + acts;
    }
  }

  /** A cancelled Run or broker is never stuck, and its session is closed when serve sees the cancellation. */
  lemma CancelIsSeen(t: Timing, s: State)
    requires RunSound(s) && BrokerSound(s) && s.parentDone
    ensures s.pc.Serving? ==>
      Enabled(s, ServeCancelled) && Apply(t, s, ServeCancelled).links[s.pc.i].ended
    ensures s.broker.BrokerServing? ==>
      Enabled(s, BrokerCancelled) && Apply(t, s, BrokerCancelled).links[s.broker.i].ended
    ensures s.pc.BackingOff? ==> Enabled(s, BackoffCancelled)
    ensures s.pc.Dialing? ==> Enabled(s, ConnectCancelled) && !Enabled(s, DialSucceeds)
  {
    hide NextBackoff;
  }

  // ----- Every attempt and every wait, counted over whole runs -----

  /** Attempts to connect that have begun; one begins with Run. */
  function Begun(acts: seq<Action>): nat {
    if acts == [] then 0 else (if acts[0].BackoffElapses? || acts[0].Clear? then 1 else 0) + Begun(acts[1..])
  }

  function Failed(acts: seq<Action>): nat {
    if acts == [] then 0 else (if acts[0].ConnectFails? then 1 else 0) + Failed(acts[1..])
  }

  /** Attempts that ended otherwise: with a session, or cancelled. */
  function EndedOtherwise(acts: seq<Action>): nat {
    if acts == [] then 0
    else (if acts[0].ExchangeSucceeds? || acts[0].ConnectCancelled? then 1 else 0) + EndedOtherwise(acts[1..])
  }

  function Waited(acts: seq<Action>): nat {
    if acts == [] then 0
    else (if acts[0].BackoffElapses? || acts[0].BackoffCancelled? then 1 else 0) + Waited(acts[1..])
  }

  function Connecting(pc: Pc): nat {
    if pc.Dialing? || pc.Exchanging? then 1 else 0
  }

  /**
  Every attempt that began has ended in exactly one way or is under way, and every failed attempt
  is followed by exactly one wait, over or under way. After a wait another attempt begins.
  */
  lemma {:induction false} AttemptsAddUp(t: Timing, s: State, acts: seq<Action>)
    requires ValidRun(t, s, acts)
    ensures var f := Final(t, s, acts);
      && Connecting(s.pc) + Begun(acts) == Failed(acts) + EndedOtherwise(acts) + Connecting(f.pc)
      && (if s.pc.BackingOff? then 1 else 0) + Failed(acts) == Waited(acts) + (if f.pc.BackingOff? then 1 else 0)
    decreases |acts|
  {
    hide NextBackoff, Apply, Enabled;
    if acts != [] {
      OneActionAddsUp(t, s, acts[0]);
      AttemptsAddUp(t, Apply(t, s, acts[0]), acts[1..]);
    }
  }

  lemma OneActionAddsUp(t: Timing, s: State, a: Action)
    requires Enabled(s, a)
    ensures var f := Apply(t, s, a);
      && Connecting(s.pc) + Begun([a]) == Failed([a]) + EndedOtherwise([a]) + Connecting(f.pc)
      && (if s.pc.BackingOff? then 1 else 0) + Failed([a]) == Waited([a]) + (if f.pc.BackingOff? then 1 else 0)
  {
    hide NextBackoff;
  }

  /** The turns of Connector.Run's loop in a run, and the delays it waited for. */
  function TurnsOf(acts: seq<Action>): seq<Turn> {
    if acts == [] then []
    else
      (match acts[0]
       case BackoffElapses => [NoSession]
       case Clear(healthy) => [SessionEnded(healthy)]
       case _ => []) + TurnsOf(acts[1..])
  }

  ghost function WaitsOf(t: Timing, s: State, acts: seq<Action>): seq<int>
    requires ValidRun(t, s, acts)
    decreases |acts|
  {
    if acts == [] then []
    else (if acts[0].BackoffElapses? then [s.backoff as int] else []) + WaitsOf(t, Apply(t, s, acts[0]), acts[1..])
  }

  /** The delays of the joint machine are those of the loop's own arithmetic, turn by turn. */
  lemma {:induction false} WaitsAreExpected(t: Timing, s: State, acts: seq<Action>)
    requires Valid(t) && t.maxBackoff < TWO62 && BackoffSound(t, s) && ValidRun(t, s, acts)
    ensures WaitsOf(t, s, acts) == ExpectedWaits(t, TurnsOf(acts), s.fails)
    decreases |acts|
  {
    if acts != [] {
      var a, s' := acts[0], Apply(t, s, acts[0]);
      StepKeepsBackoff(t, s, a);
      assert s'.fails == (if a.BackoffElapses? then s.fails + 1 else if a == Clear(true) then 0 else s.fails) by {
        hide NextBackoff, Valid, Base;
      }
      hide NextBackoff, Valid, Base, Apply, Enabled;
      WaitsAreExpected(t, s', acts[1..]);
      var rest := TurnsOf(acts[1..]);
      match a
      case BackoffElapses => assert ([NoSession] + rest)[1..] == rest;
      case Clear(healthy) => assert ([SessionEnded(healthy)] + rest)[1..] == rest;
      case _ => assert [] + rest == rest;
    }
  }

  /** Any number of failures can come first, before or after dialling; each is waited out, one after the other. */
  lemma {:induction false} FailRun(t: Timing, s: State, dialled: seq<bool>) returns (acts: seq<Action>)
    requires s.pc.Dialing? && !s.parentDone
    ensures ValidRun(t, s, acts) && Failed(acts) == |dialled| == Waited(acts)
    ensures var f := Final(t, s, acts);
      f == s.(backoff := f.backoff, fails := s.fails + |dialled|)
    decreases |dialled|
  {
    acts := [];
    if dialled != [] {
      var a: seq<Action> := if dialled[0] then [DialSucceeds] else [];
      var s1 := if dialled[0] then Apply(t, s, DialSucceeds) else s;
      var s2 := Apply(t, s1, ConnectFails);
      var s3 := Apply(t, s2, BackoffElapses);
      assert s3 == s.(backoff := s3.backoff, fails := s.fails + 1);
      hide Apply, Enabled, NextBackoff;
      acts := FailRun(t, s3, dialled[1..]);
      RunCons(t, s2, BackoffElapses, acts);
      acts := [BackoffElapses] + acts;
      RunCons(t, s1, ConnectFails, acts);
      acts := [ConnectFails] + acts;
      if dialled[0] {
        RunCons(t, s, DialSucceeds, acts);
        acts := [DialSucceeds] + acts;
      }
    }
  }

  // ----- The two loops on their own -----

  /** How one turn of Connector.Run goes: no session, or a session that ended by itself. */
  datatype Turn = NoSession | SessionEnded(healthy: bool)

  /** The waits that a list of turns should cause, k failures after the last healthy session. */
  function ExpectedWaits(t: Timing, turns: seq<Turn>, k: nat): seq<int> {
    if turns == [] then []
    else
      match turns[0]
      case NoSession => [Base(t, k)] + ExpectedWaits(t, turns[1..], k + 1)
      case SessionEnded(healthy) => ExpectedWaits(t, turns[1..], if healthy then 0 else k)
  }

  /** Connector.Run's own arithmetic, turn by turn, waits exactly as expected. */
  method RetryWaits(t: Timing, turns: seq<Turn>) returns (waits: seq<int>)
    ensures Valid(t) && t.maxBackoff < TWO62 ==> waits == ExpectedWaits(t, turns, 0)
  {
    ghost var safe := Valid(t) && t.maxBackoff < TWO62;
    waits := [];
    var backoff := t.minBackoff;
    ghost var k := 0;
    if safe {
      ValidBounds(t);
      assert Base(t, 0) == t.minBackoff;
    }
    hide Base, NextBackoff, Valid;
    for i := 0 to |turns|
      invariant safe ==> backoff == Base(t, k)
      invariant safe ==> waits + ExpectedWaits(t, turns[i..], k) == ExpectedWaits(t, turns, 0)
    {
      assert turns[i..][1..] == turns[i + 1..];
      match turns[i]
      case NoSession =>
        waits := waits + [backoff];
        if safe {
          NextIsBaseNext(t, k);
        }
        backoff := NextBackoff(t, backoff);
        k := k + 1;
      case SessionEnded(healthy) =>
        if healthy {
          backoff := t.minBackoff;
          k := 0;
        }
    }
    assert turns[|turns|..] == [];
  }

  predicate Increasing(xs: seq<nat>) {
    forall i, j :: 0 <= i < j < |xs| ==> xs[i] < xs[j]
  }

  /** Links are numbered in order of publication, so what Snapshot returns never goes back. */
  predicate NeverGoesBack(snapshots: seq<Option<nat>>) {
    forall i, j :: 0 <= i < j < |snapshots| && snapshots[i].Some? && snapshots[j].Some? ==>
      snapshots[i].value <= snapshots[j].value
  }

  /** Broker.Run's polling loop over what its snapshots return: a link is served when it differs from the last. */
  method PollLinks(snapshots: seq<Option<nat>>) returns (served: seq<nat>)
    ensures forall j :: 0 <= j < |served| ==> Some(served[j]) in snapshots
    ensures forall j :: 0 <= j < |snapshots| && snapshots[j].Some? ==> snapshots[j].value in served
    ensures NeverGoesBack(snapshots) ==> Increasing(served)
  {
    var last: Option<nat> := None;
    served := [];
    ghost var at: nat := 0;
    for n := 0 to |snapshots|
      invariant forall j :: 0 <= j < |served| ==> Some(served[j]) in snapshots
      invariant forall j :: 0 <= j < n && snapshots[j].Some? ==> snapshots[j].value in served
      invariant last == if served == [] then None else Some(served[|served| - 1])
      invariant served != [] ==> at < n && snapshots[at] == last
      invariant NeverGoesBack(snapshots) ==> Increasing(served)
    {
      var link := snapshots[n];
      if link.Some? && link != last {
        assert NeverGoesBack(snapshots) && served != [] ==> served[|served| - 1] < link.value;
        served := served + [link.value];
        last, at := link, n;
      }
    }
  }
}
