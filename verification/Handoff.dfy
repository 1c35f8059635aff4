/**
The hand-off of relay-opened streams inside the exit's broker: `streamAcceptor` accepts them and
offers each on an unbuffered channel to `serveSession`, which also watches the context and the
end of the session. Streams are numbered in the order in which they were accepted.
*/
module Handoff {
  datatype Acceptor =
    | Top                    // at the check of stop
    | Accepting              // in AcceptStream
    | Offering(i: nat)       // in the select between feed and stop
    | Gone

  datatype Server = Selecting | Leaving | Left

  /** `pending`: streams the relay opened that nobody accepted yet. */
  datatype State = State(
    acceptor: Acceptor, server: Server, ctxDone: bool, sessionClosed: bool, pending: nat,
    accepted: nat, served: seq<nat>, closed: seq<nat>)

  datatype Action =
    | StreamArrives
    | SessionEnds
    | CancelCtx
    | PassStop               // stop is still open
    | SeeStopAtTop           // stop is closed: the acceptor returns
    | AcceptStream
    | AcceptFails
    | HandOver               // feed <- conn meets conn := <-feed
    | CloseDoomed            // stop is closed: close the offered stream
    | Wind                   // ctx.Done or Session.Done: close the session
    | CloseStop              // the deferred close(stop)

  function Init(): State {
    State(Top, Selecting, false, false, 0, 0, [], [])
  }

  predicate Enabled(s: State, a: Action) {
    match a
    case StreamArrives => !s.sessionClosed
    case SessionEnds => true
    case CancelCtx => true
    case PassStop => s.acceptor.Top? && !s.server.Left?
    case SeeStopAtTop => s.acceptor.Top? && s.server.Left?
    case AcceptStream => s.acceptor.Accepting? && s.pending > 0
    case AcceptFails => s.acceptor.Accepting? && s.sessionClosed
    case HandOver => s.acceptor.Offering? && s.server.Selecting?
    case CloseDoomed => s.acceptor.Offering? && s.server.Left?
    case Wind => s.server.Selecting? && (s.ctxDone || s.sessionClosed)
    case CloseStop => s.server.Leaving?
  }

  function Apply(s: State, a: Action): State
    requires Enabled(s, a)
  {
    match a
    case StreamArrives => s.(pending := s.pending + 1)
    case SessionEnds => s.(sessionClosed := true)
    case CancelCtx => s.(ctxDone := true)
    case PassStop => s.(acceptor := Accepting)
    case SeeStopAtTop => s.(acceptor := Gone)
    case AcceptStream =>
      s.(acceptor := Offering(s.accepted), accepted := s.accepted + 1, pending := s.pending - 1)
    case AcceptFails => s.(acceptor := Gone)
    case HandOver => s.(acceptor := Top, served := s.served + [s.acceptor.i])
    case CloseDoomed => s.(acceptor := Top, closed := s.closed + [s.acceptor.i])
    case Wind => s.(server := Leaving, sessionClosed := true)
    case CloseStop => s.(server := Left)
  }

  /** 0, 1, ..., n - 1. */
  function FirstN(n: nat): (r: seq<nat>)
    ensures |r| == n && forall i :: 0 <= i < n ==> r[i] == i
  {
    seq(n, i => i)
  }

  predicate Inv(s: State) {
    && s.served == FirstN(|s.served|)
    && (s.closed == [] || s.closed == [|s.served|])
    && (s.acceptor.Offering? ==> s.acceptor.i == |s.served| && s.closed == [])
    && s.accepted == |s.served| + |s.closed| + (if s.acceptor.Offering? then 1 else 0)
    && (s.closed != [] ==> s.server.Left? && !s.acceptor.Accepting?)
    && (!s.server.Selecting? ==> s.sessionClosed)
    && (s.acceptor.Gone? ==> s.sessionClosed)
  }

  lemma StepKeepsInv(s: State, a: Action)
    requires Inv(s) && Enabled(s, a)
    ensures Inv(Apply(s, a))
  {
    if a.HandOver? {
      assert s.served + [|s.served|] == FirstN(|s.served| + 1);
    }
  }

  ghost predicate ValidRun(s: State, acts: seq<Action>)
    decreases |acts|
  {
    acts == [] || (Enabled(s, acts[0]) && ValidRun(Apply(s, acts[0]), acts[1..]))
  }

  ghost function Final(s: State, acts: seq<Action>): State
    requires ValidRun(s, acts)
    decreases |acts|
  {
    if acts == [] then s else Final(Apply(s, acts[0]), acts[1..])
  }

  lemma {:induction false} RunKeepsInv(s: State, acts: seq<Action>)
    requires Inv(s) && ValidRun(s, acts)
    ensures Inv(Final(s, acts))
    decreases |acts|
  {
    if acts != [] {
      StepKeepsInv(s, acts[0]);
      RunKeepsInv(Apply(s, acts[0]), acts[1..]);
    }
  }

  /**
  Under any interleaving the accepted streams, in order, are those served, then at most one
  closed on wind-down, then at most one still held at the hand-off. None is lost or duplicated.
  */
  lemma NoStreamLost(acts: seq<Action>)
    requires ValidRun(Init(), acts)
    ensures var s := Final(Init(), acts);
      && s.served + s.closed + (if s.acceptor.Offering? then [s.acceptor.i] else []) == FirstN(s.accepted)
      && |s.closed| <= 1
      && (s.closed != [] ==> s.server.Left?)
  {
    RunKeepsInv(Init(), acts);
    var s := Final(Init(), acts);
    assert s.served + s.closed + (if s.acceptor.Offering? then [s.acceptor.i] else []) == FirstN(s.accepted);
  }

  /** Steps left for the acceptor once stop is closed. */
  function AcceptorWork(p: Acceptor): nat {
    match p
    case Top => 1
    case Accepting => 3
    case Offering(_) => 2
    case Gone => 0
  }

  /** The acceptor goroutine and its counterpart; the rest is the outside world. */
  predicate AcceptorStep(a: Action) {
    a.PassStop? || a.SeeStopAtTop? || a.AcceptStream? || a.AcceptFails? || a.CloseDoomed? || a.HandOver?
  }

  /**
  Once serveSession has returned, the acceptor makes at most three more steps whatever else
  happens, is never stuck before it is gone, and then holds no stream.
  */
  lemma {:induction false} AcceptorUnwinds(s: State, acts: seq<Action>)
    requires Inv(s) && s.server.Left? && ValidRun(s, acts)
    ensures var f := Final(s, acts);
      && f.server.Left? && f.served == s.served
      && CountAcceptor(acts) + AcceptorWork(f.acceptor) <= AcceptorWork(s.acceptor)
      && ((forall a :: AcceptorStep(a) ==> !Enabled(f, a)) ==>
            f.acceptor.Gone? && f.served + f.closed == FirstN(f.accepted))
    decreases |acts|
  {
    if acts == [] {
      match s.acceptor
      case Top => assert Enabled(s, SeeStopAtTop);
      case Accepting => assert Enabled(s, AcceptFails);
      case Offering(_) => assert Enabled(s, CloseDoomed);
      case Gone => assert s.served + s.closed == FirstN(s.accepted);
    } else {
      StepKeepsInv(s, acts[0]);
      AcceptorUnwinds(Apply(s, acts[0]), acts[1..]);
    }
  }

  function CountAcceptor(acts: seq<Action>): nat {
    if acts == [] then 0 else (if AcceptorStep(acts[0]) then 1 else 0) + CountAcceptor(acts[1..])
  }

  // ----- While the session is open -----

  predicate Open(s: State) {
    s.server.Selecting? && !s.sessionClosed && !s.ctxDone
  }

  /** Nothing in the run ends the session or cancels the context. */
  predicate StaysOpen(acts: seq<Action>) {
    forall i :: 0 <= i < |acts| ==> !acts[i].SessionEnds? && !acts[i].CancelCtx?
  }

  /** How far the acceptor has come: three steps for each stream. */
  function Progress(s: State): nat {
    3 * |s.served| + match s.acceptor case Top => 0 case Accepting => 1 case Offering(_) => 2 case Gone => 0
  }

  function CountArrivals(acts: seq<Action>): nat {
    if acts == [] then 0 else (if acts[0].StreamArrives? then 1 else 0) + CountArrivals(acts[1..])
  }

  /**
  On an open session the acceptor never goes away, serves a stream with every three steps of
  its own, closes none, and can move unless everything that ever arrived has been served.
  */
  lemma {:induction false} OpenSessionServes(s: State, acts: seq<Action>)
    requires Inv(s) && Open(s) && ValidRun(s, acts) && StaysOpen(acts)
    ensures var f := Final(s, acts);
      && Open(f) && !f.acceptor.Gone? && f.closed == s.closed
      && Progress(f) == Progress(s) + CountAcceptor(acts)
      && f.accepted + f.pending == s.accepted + s.pending + CountArrivals(acts)
      && ((forall a :: AcceptorStep(a) ==> !Enabled(f, a)) ==>
            f.served == FirstN(s.accepted + s.pending + CountArrivals(acts)) && f.pending == 0)
    decreases |acts|
  {
    if acts == [] {
      match s.acceptor
      case Top => assert AcceptorStep(PassStop) && Enabled(s, PassStop);
      case Accepting =>
        if s.pending > 0 {
          assert AcceptorStep(AcceptStream) && Enabled(s, AcceptStream);
        }
      case Offering(_) => assert AcceptorStep(HandOver) && Enabled(s, HandOver);
      case Gone =>
    } else {
      StepKeepsInv(s, acts[0]);
      OpenSessionServes(Apply(s, acts[0]), acts[1..]);
    }
  }

  predicate Ending(s: State) {
    s.sessionClosed || s.ctxDone
  }

  /** Steps of the two goroutines. */
  predicate InnerStep(a: Action) {
    AcceptorStep(a) || a.Wind? || a.CloseStop?
  }

  function ClosingWork(s: State): nat {
    3 * s.pending
    + (match s.acceptor case Top => 2 case Accepting => 1 case Offering(_) => 3 case Gone => 0)
    + (match s.server case Selecting => 2 case Leaving => 1 case Left => 0)
  }

  function CountInner(acts: seq<Action>): nat {
    if acts == [] then 0 else (if InnerStep(acts[0]) then 1 else 0) + CountInner(acts[1..])
  }

  /**
  When the session ends or the context is cancelled, both goroutines come to an end: their steps
  are bounded by what has arrived, and when none is possible serveSession has returned, the
  acceptor is gone and no stream is left behind.
  */
  lemma {:induction false} ClosingUnwinds(s: State, acts: seq<Action>)
    requires Inv(s) && Ending(s) && ValidRun(s, acts)
    ensures var f := Final(s, acts);
      && CountInner(acts) + ClosingWork(f) <= ClosingWork(s) + 3 * CountArrivals(acts)
      && ((forall a :: InnerStep(a) ==> !Enabled(f, a)) ==>
            f.server.Left? && f.acceptor.Gone? && f.served + f.closed == FirstN(f.accepted))
    decreases |acts|
  {
    if acts == [] {
      if s.server.Selecting? {
        assert InnerStep(Wind) && Enabled(s, Wind);
      } else if s.server.Leaving? {
        assert InnerStep(CloseStop) && Enabled(s, CloseStop);
      } else {
        AcceptorUnwinds(s, []);
      }
    } else {
      StepKeepsInv(s, acts[0]);
      ClosingUnwinds(Apply(s, acts[0]), acts[1..]);
    }
  }

  /** What decides each select and check of the acceptor: stop alone, and the server's readiness to receive. */
  lemma AcceptorChoices(s: State)
    ensures s.acceptor.Top? ==>
      (Enabled(s, PassStop) <==> !s.server.Left?) && (Enabled(s, SeeStopAtTop) <==> s.server.Left?)
    ensures s.acceptor.Offering? ==>
      (Enabled(s, HandOver) <==> s.server.Selecting?) && (Enabled(s, CloseDoomed) <==> s.server.Left?)
    ensures s.acceptor.Offering? && s.server.Left? ==> Enabled(Apply(s, CloseDoomed), SeeStopAtTop)
  {
  }
}
