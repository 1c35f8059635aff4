/**
How Duplex.Run comes to an end when its peers do nothing more. Once the context is cancelled,
the drain timer is armed, or the select loop was left for whatever reason, the goroutines of Run
can always move by themselves, have a bounded number of steps left, and then Run has returned.
*/
module Leaving {
  import opened Bytes
  import opened Duplex

  /** The direction waits for its peer: nothing read, nothing to read, no EOF. */
  predicate Idle(n: Node, d: Dir) {
    var c := CopierOf(n.hop, d);
    && c.phase.Copying? && c.ahead == [] && c.buf == []
    && !SourceConn(n.hop, d).closed && !(Source(n, d).queue == [] && Source(n, d).fin)
  }

  /** Everybody waits: both directions for their peers, the select loop for them. */
  predicate Waits(n: Node) {
    && n.hop.ctl.main.Looping? && !n.hop.ctl.cancelled && !n.hop.ctl.timer
    && Idle(n, Up) && Idle(n, Down)
  }

  /** A copier that is neither done nor waiting for its peer can move. */
  lemma CopierMoves(n: Node, d: Dir) returns (a: Action)
    requires HopInv(n.hop) && n.hop.ctl.main.Looping?
    requires !CopierOf(n.hop, d).phase.Done? && !Idle(n, d)
    ensures Local(a) && Enabled(n, a)
  {
    var c := CopierOf(n.hop, d);
    match c.phase
    case Copying =>
      if c.buf != [] {
        a := if TargetConn(n.hop, d).closed || Target(n, d).fin then Cut(d, 0) else CopyWrite(d, |c.buf|);
      } else if c.ahead != [] {
        a := CopyRead(d, |c.ahead|);
      } else {
        a := if SourceConn(n.hop, d).closed then Cut(d, 0) else CopyEof(d);
      }
    case Closing => a := Finish(d, Ok);
    case Sending(_) =>
      SendNeverBlocks(n, d);
      a := Send(d);
  }

  /** Nobody can move although Run has not returned, if and only if everybody waits. */
  lemma StuckIffWaits(n: Node)
    requires HopInv(n.hop)
    ensures (forall a :: Local(a) ==> !Enabled(n, a)) <==> n.hop.ctl.main.Returned? || Waits(n)
  {
    var c := n.hop.ctl;
    match c.main
    case Returned(_) => ReturnedHasJoined(n.hop);
    case Forcing(_, _) => assert Local(Force) && Enabled(n, Force);
    case Joining(_) => JoinNeverStuck(n);
    case Looping =>
      assert |c.received + c.results| == |c.received| + |c.results|;
      if c.results != [] {
        assert Local(Receive) && Enabled(n, Receive);
      } else if c.cancelled {
        assert Local(SeeCancel) && Enabled(n, SeeCancel);
      } else if c.timer {
        assert Local(SeeTimeout) && Enabled(n, SeeTimeout);
      } else if !Idle(n, Up) {
        var a := CopierMoves(n, Up);
      } else if !Idle(n, Down) {
        var a := CopierMoves(n, Down);
      } else {
        WaitingIsStuck(n);
      }
  }

  lemma WaitingIsStuck(n: Node)
    requires HopInv(n.hop) && Waits(n) && n.hop.ctl.results == []
    ensures forall a :: Local(a) ==> !Enabled(n, a)
  {
  }

  // ----- The work that is left without new bytes -----

  function CopierWork(c: Copier): nat {
    2 * |c.ahead| + |c.buf|
    + match c.phase case Copying => 3 case Closing => 2 case Sending(_) => 1 case Done(_) => 0
  }

  function MainWork(c: Control): nat {
    c.remaining
    + match c.main
      case Looping => 7
      case Forcing(_, k) => if k < 4 then 6 - k else 3
      case Joining(_) => 2
      case Returned(_) => 0
  }

  function RunWork(h: Hop): nat {
    CopierWork(h.up) + CopierWork(h.down) + MainWork(h.ctl)
  }

  lemma CopierStepWorks(n: Node, a: Action)
    requires CopierStep(a) && CopierEnabled(n, a) && !a.Take?
    ensures RunWork(CopierApply(n, a).hop) < RunWork(n.hop)
  {
    CopierStepFrame(n, a);
    hide MainWork;
  }

  lemma ControlStepWorks(n: Node, a: Action)
    requires !CopierStep(a) && Enabled(n, a)
    ensures RunWork(Apply(n, a).hop) <= RunWork(n.hop)
    ensures !a.Cancel? ==> RunWork(Apply(n, a).hop) < RunWork(n.hop)
  {
  }

  /** Every step but the arrival of bytes uses up work. */
  lemma StepWorks(n: Node, a: Action)
    requires Enabled(n, a) && !a.Take?
    ensures RunWork(Apply(n, a).hop) <= RunWork(n.hop)
    ensures Local(a) ==> RunWork(Apply(n, a).hop) < RunWork(n.hop)
  {
    hide RunWork, CopierApply;
    if CopierStep(a) {
      CopierStepWorks(n, a);
    } else {
      ControlStepWorks(n, a);
    }
  }

  /** Run has a reason to leave its loop, or has left it. */
  predicate Told(c: Control) {
    c.cancelled || c.timer || !c.main.Looping?
  }

  /** A reason to leave stays one, and what Run will return is settled when it leaves. */
  lemma StepKeepsTold(n: Node, a: Action)
    requires Enabled(n, a) && Told(n.hop.ctl)
    ensures Told(Apply(n, a).hop.ctl)
    ensures !n.hop.ctl.main.Looping? ==>
      var m := Apply(n, a).hop.ctl.main; !m.Looping? && m.ret == n.hop.ctl.main.ret
  {
    if CopierStep(a) {
      CopierStepFrame(n, a);
      hide CopierApply;
    }
  }

  /** The peers do nothing more for this duplex: no bytes arrive. */
  predicate Quiet(ts: seq<Turn>) {
    forall i :: 0 <= i < |ts| && ts[i].Own? ==> !ts[i].a.Take?
  }

  /**
  Once told, Run returns: with no more bytes arriving, whatever else happens around it, at most
  RunWork steps of its goroutines are left, and when none is possible Run has returned.
  */
  lemma {:induction false} ToldReturns(n: Node, ts: seq<Turn>)
    requires HopInv(n.hop) && Told(n.hop.ctl) && ValidTurns(n, ts) && Quiet(ts)
    ensures var m := After(n, ts);
      && LocalTurns(ts) + RunWork(m.hop) <= RunWork(n.hop)
      && ((forall a :: Local(a) ==> !Enabled(m, a)) ==> m.hop.ctl.main.Returned?)
    ensures !n.hop.ctl.main.Looping? ==>
      var m := After(n, ts).hop.ctl.main; !m.Looping? && m.ret == n.hop.ctl.main.ret
    decreases |ts|
  {
    if ts == [] {
      StuckIffWaits(n);
    } else {
      hide HopInv, RunWork, Enabled, Apply, Local;
      var n' := TurnApply(n, ts[0]);
      if ts[0].Own? {
        StepKeepsHopInv(n, ts[0].a);
        StepWorks(n, ts[0].a);
        StepKeepsTold(n, ts[0].a);
      }
      ToldReturns(n', ts[1..]);
    }
  }

  /** In every state the context can be cancelled, and then Run returns without its peers' help. */
  lemma CancelReturns(n: Node, ts: seq<Turn>)
    requires HopInv(n.hop)
    ensures Enabled(n, Cancel)
    ensures ValidTurns(Apply(n, Cancel), ts) && Quiet(ts) ==>
      var m := After(Apply(n, Cancel), ts);
      && LocalTurns(ts) + RunWork(m.hop) <= RunWork(n.hop)
      && ((forall a :: Local(a) ==> !Enabled(m, a)) ==> m.hop.ctl.main.Returned?)
  {
    if ValidTurns(Apply(n, Cancel), ts) && Quiet(ts) {
      StepKeepsHopInv(n, Cancel);
      StepWorks(n, Cancel);
      hide HopInv, RunWork;
      ToldReturns(Apply(n, Cancel), ts);
    }
  }

  /** After a first success the timer alone makes Run return, however silent the other direction. */
  lemma TimerReturns(n: Node, ts: seq<Turn>)
    requires HopInv(n.hop) && n.hop.ctl.main.Looping? && n.hop.ctl.received == [Ok]
    requires ValidTurns(n, ts) && Quiet(ts)
    ensures var m := After(n, ts);
      && LocalTurns(ts) + RunWork(m.hop) <= RunWork(n.hop)
      && ((forall a :: Local(a) ==> !Enabled(m, a)) ==> m.hop.ctl.main.Returned?)
  {
    TimerArmedOnce(n.hop);
    ToldReturns(n, ts);
  }

  // ----- What a Run with silent peers returns -----

  /** Nothing is on the channel and no copier can move. */
  predicate PeersSilent(n: Node) {
    && n.hop.ctl.main.Looping? && n.hop.ctl.results == []
    && (n.hop.up.phase.Done? || Idle(n, Up)) && (n.hop.down.phase.Done? || Idle(n, Down))
  }

  lemma OnlyWaysOut(n: Node, a: Action)
    requires HopInv(n.hop) && PeersSilent(n) && Local(a) && Enabled(n, a)
    ensures a.SeeCancel? || a.SeeTimeout?
  {
  }

  predicate AllLocal(ts: seq<Turn>) {
    forall i :: 0 <= i < |ts| ==> ts[i].Own? && Local(ts[i].a)
  }

  /** With silent peers, a Run that goes on for as long as it can returns exactly the reason it was told. */
  lemma SilentReturnsReason(n: Node, ts: seq<Turn>)
    requires HopInv(n.hop) && PeersSilent(n) && (n.hop.ctl.cancelled || n.hop.ctl.timer)
    requires ValidTurns(n, ts) && AllLocal(ts) && forall a :: Local(a) ==> !Enabled(After(n, ts), a)
    ensures var m := After(n, ts).hop.ctl.main;
      && (m == Returned(Fail(CtxErr)) || m == Returned(Fail(DrainTimeout)))
      && (!n.hop.ctl.timer ==> m == Returned(Fail(CtxErr)))
      && (!n.hop.ctl.cancelled ==> m == Returned(Fail(DrainTimeout)))
  {
    ToldReturns(n, ts);
    assert ts != [];
    var a := ts[0].a;
    OnlyWaysOut(n, a);
    StepKeepsHopInv(n, a);
    StepKeepsTold(n, a);
    ToldReturns(Apply(n, a), ts[1..]);
  }

  // ----- Every outcome that the selects allow is possible -----

  lemma TurnsCons(n: Node, a: Action, ts: seq<Turn>)
    requires Enabled(n, a) && ValidTurns(Apply(n, a), ts)
    ensures ValidTurns(n, [Own(a)] + ts) && After(n, [Own(a)] + ts) == After(Apply(n, a), ts)
  {
    hide Apply, Enabled;
    assert ([Own(a)] + ts)[0] == Own(a) && ([Own(a)] + ts)[1..] == ts;
  }

  /** Once the loop was left, Run's own goroutines get to the return. */
  lemma {:induction false} ReturnRun(n: Node) returns (ts: seq<Turn>)
    requires HopInv(n.hop) && !n.hop.ctl.main.Looping?
    ensures ValidTurns(n, ts) && After(n, ts).hop.ctl.main == Returned(n.hop.ctl.main.ret)
    decreases RunWork(n.hop)
  {
    ts := [];
    if !n.hop.ctl.main.Returned? {
      StuckIffWaits(n);
      var a :| Local(a) && Enabled(n, a);
      StepKeepsHopInv(n, a);
      StepWorks(n, a);
      StepKeepsTold(n, a);
      hide HopInv, RunWork, Enabled, Apply, Local, ValidTurns, After;
      ts := ReturnRun(Apply(n, a));
      TurnsCons(n, a, ts);
      ts := [Own(a)] + ts;
    }
  }

  /** A run of this duplex after which Run has returned `ret`. */
  ghost predicate Returns(n: Node, ret: Result, ts: seq<Turn>) {
    ValidTurns(n, ts) && After(n, ts).hop.ctl.main == Returned(ret)
  }

  lemma StepThenReturns(n: Node, a: Action) returns (ts: seq<Turn>)
    requires HopInv(n.hop) && Enabled(n, a) && !Apply(n, a).hop.ctl.main.Looping?
    ensures Returns(n, Apply(n, a).hop.ctl.main.ret, ts)
  {
    StepKeepsHopInv(n, a);
    hide HopInv, Enabled, Apply;
    ts := ReturnRun(Apply(n, a));
    TurnsCons(n, a, ts);
    ts := [Own(a)] + ts;
  }

  /** While the loop runs, whatever is on the channel, Run can be cancelled and return the context's error. */
  lemma CanReturnCancelled(n: Node) returns (ts: seq<Turn>)
    requires HopInv(n.hop) && n.hop.ctl.main.Looping?
    ensures Returns(n, Fail(CtxErr), ts)
  {
    var n1 := Apply(n, Cancel);
    StepKeepsHopInv(n, Cancel);
    assert Apply(n1, SeeCancel).hop.ctl.main == Forcing(Fail(CtxErr), 0);
    ts := StepThenReturns(n1, SeeCancel);
    hide HopInv, Enabled, Apply;
    TurnsCons(n, Cancel, ts);
    ts := [Own(Cancel)] + ts;
  }

  /** While the loop runs, Run can return the drain timeout if a success was received; the timer may always win. */
  lemma CanTimeOut(n: Node) returns (ts: seq<Turn>)
    requires HopInv(n.hop) && n.hop.ctl.main.Looping? && n.hop.ctl.received == [Ok]
    ensures Returns(n, Fail(DrainTimeout), ts)
  {
    TimerArmedOnce(n.hop);
    assert Apply(n, SeeTimeout).hop.ctl.main == Forcing(Fail(DrainTimeout), 0);
    ts := StepThenReturns(n, SeeTimeout);
  }

  /** A result that is posted next and is an error is what Run can return. */
  lemma PostedIsReturned(n: Node, d: Dir) returns (ts: seq<Turn>)
    requires HopInv(n.hop) && n.hop.ctl.main.Looping? && n.hop.ctl.results == []
    requires CopierOf(n.hop, d).phase.Sending? && CopierOf(n.hop, d).phase.r.Fail?
    ensures Returns(n, CopierOf(n.hop, d).phase.r, ts)
  {
    var r := CopierOf(n.hop, d).phase.r;
    SendNeverBlocks(n, d);
    var n1 := Apply(n, Send(d));
    StepKeepsHopInv(n, Send(d));
    assert n1.hop.ctl.results == [r] && n1.hop.ctl.main.Looping? && n1.hop.ctl.remaining > 0;
    assert Apply(n1, Receive).hop.ctl.main == Forcing(r, 0);
    ts := StepThenReturns(n1, Receive);
    hide HopInv, Enabled, Apply;
    TurnsCons(n, Send(d), ts);
    ts := [Own(Send(d))] + ts;
  }

  /**
  A direction can fail at any time, whatever it holds, while copying or while passing on the FIN,
  and with any error; if it is the first to post, that very error is what Run returns.
  */
  lemma CanFail(n: Node, d: Dir, code: nat) returns (ts: seq<Turn>)
    requires HopInv(n.hop) && n.hop.ctl.main.Looping? && n.hop.ctl.results == []
    requires CopierOf(n.hop, d).phase.Copying? || CopierOf(n.hop, d).phase.Closing?
    ensures Returns(n, Fail(CopyErr(code)), ts)
  {
    var a := if CopierOf(n.hop, d).phase.Copying? then Fault(d, code) else Finish(d, Fail(CopyErr(code)));
    var n1 := Apply(n, a);
    StepKeepsHopInv(n, a);
    CopierStepFrame(n, a);
    assert CopierOf(n1.hop, d).phase == Sending(Fail(CopyErr(code)));
    hide HopInv, Enabled, Apply;
    ts := PostedIsReturned(n1, d);
    TurnsCons(n, a, ts);
    ts := [Own(a)] + ts;
  }

  /** A direction that is cut by the duplex's own closes fails with the error it got. */
  lemma CutIsReturned(n: Node, d: Dir, code: nat) returns (ts: seq<Turn>)
    requires HopInv(n.hop) && n.hop.ctl.main.Looping? && n.hop.ctl.results == [] && Enabled(n, Cut(d, code))
    ensures Returns(n, Fail(CopyErr(code)), ts)
  {
    var a := Cut(d, code);
    var n1 := Apply(n, a);
    StepKeepsHopInv(n, a);
    CopierStepFrame(n, a);
    assert CopierOf(n1.hop, d).phase == Sending(Fail(CopyErr(code)));
    hide HopInv, Enabled, Apply;
    ts := PostedIsReturned(n1, d);
    TurnsCons(n, a, ts);
    ts := [Own(a)] + ts;
  }

  /** A deadline in the past is enough to unblock a copier: neither connection need be closed yet. */
  lemma PastDeadlineUnblocks(n: Node, d: Dir, code: nat)
    requires CopierOf(n.hop, d).phase.Copying? && n.hop.inbound.past && n.hop.outbound.past
    ensures CopierOf(n.hop, d).buf != [] || CopierOf(n.hop, d).ahead == [] ==> Enabled(n, Cut(d, code))
  {
  }

  /** Nothing ties a copier to a chunk size: it can take, read and write any part of what there is. */
  lemma AnyChunk(n: Node, d: Dir, k: nat)
    requires CopierOf(n.hop, d).phase.Copying? && k > 0
    ensures Enabled(n, Take(d, k)) <==> k <= |Source(n, d).queue|
    ensures CopierOf(n.hop, d).buf == [] ==> (Enabled(n, CopyRead(d, k)) <==> k <= |CopierOf(n.hop, d).ahead|)
    ensures !TargetConn(n.hop, d).closed && !Target(n, d).fin ==>
      (Enabled(n, CopyWrite(d, k)) <==> k <= |CopierOf(n.hop, d).buf|)
  {
  }
}
