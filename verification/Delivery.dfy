/**
Delivery as progress. Take any chain of half-closing duplexes in which nothing outside fails,
nothing is cancelled and no drain timer fires, and let both ends send their FIN. Then some step
is possible until every Run has returned nil and both receivers have seen EOF, and every step
uses up some of a finite amount of work. So every run that goes on for as long as it can
delivers everything, in both directions.
*/
module Delivery {
  import opened Bytes
  import opened Duplex
  import P = Pipeline
  import C = Chain

  // ----- The work left in one direction -----

  /**
  Every byte counts once for each station it still has to leave. A byte is on a wire, then ahead
  of the copier, then in its buffer, then on the next wire; `before` bytes come from further back.
  */
  ghost function BytesWork(before: nat, stages: seq<P.Stage>, wires: seq<P.Wire>): nat
    requires |wires| == |stages| + 1
    decreases |stages|
  {
    var onWire := before + |wires[0].queue|;
    if stages == [] then onWire
    else
      var ahead := onWire + |stages[0].ahead|;
      var buffered := ahead + |stages[0].buf|;
      onWire + ahead + buffered + BytesWork(buffered, stages[1..], wires[1..])
  }

  ghost function LineWork(p: P.Line): nat
    requires P.WellFormed(p)
  {
    BytesWork(0, p.stages, p.wires) + if p.sinkEof then 0 else 1
  }

  /** How many bytes a move takes one station further. */
  function Carried(m: P.Move): nat {
    match m
    case Fill(k) => k
    case Read(k) => k
    case Write(k) => k
    case _ => 0
  }

  /** Bytes on the first wire and bytes from further back have the same way to go. */
  lemma SameFront(before: nat, before': nat, stages: seq<P.Stage>, wires: seq<P.Wire>, wires': seq<P.Wire>)
    requires |wires| == |stages| + 1 == |wires'| && wires[1..] == wires'[1..]
    requires before + |wires[0].queue| == before' + |wires'[0].queue|
    ensures BytesWork(before, stages, wires) == BytesWork(before', stages, wires')
  {
  }

  /** The work that one lane's wire and copier add, for what comes from further back and their own. */
  function StageWork(l: P.Lane): nat {
    3 * |l.src.queue| + 2 * |l.stage.ahead| + |l.stage.buf|
  }

  function StageBytes(l: P.Lane): nat {
    |l.src.queue| + |l.stage.ahead| + |l.stage.buf|
  }

  lemma MovedCarries(l: P.Lane, m: P.Move)
    requires P.CanMove(l, m)
    ensures var l' := P.Moved(l, m);
      && StageWork(l') + Carried(m) == StageWork(l)
      && StageBytes(l') + |l'.dst.queue| == StageBytes(l) + |l.dst.queue|
  {
  }

  lemma Unfold(before: nat, stages: seq<P.Stage>, wires: seq<P.Wire>)
    requires |wires| == |stages| + 1 && stages != []
    ensures var l := P.Lane(wires[0], stages[0], wires[1]);
      BytesWork(before, stages, wires)
      == 3 * before + StageWork(l) + BytesWork(before + StageBytes(l), stages[1..], wires[1..])
  {
  }

  /** A move inside one lane takes off as much work as it carries bytes. */
  lemma {:induction false} LaneWork(before: nat, stages: seq<P.Stage>, wires: seq<P.Wire>, i: nat, m: P.Move)
    requires |wires| == |stages| + 1 && i < |stages|
    requires P.CanMove(P.Lane(wires[i], stages[i], wires[i + 1]), m)
    ensures var l := P.Moved(P.Lane(wires[i], stages[i], wires[i + 1]), m);
      BytesWork(before, stages[i := l.stage], wires[i := l.src][i + 1 := l.dst]) + Carried(m)
      == BytesWork(before, stages, wires)
    decreases i
  {
    hide P.Moved, P.CanMove, BytesWork, StageWork, StageBytes, Carried;
    var lane := P.Lane(wires[i], stages[i], wires[i + 1]);
    var l := P.Moved(lane, m);
    var stages', wires' := stages[i := l.stage], wires[i := l.src][i + 1 := l.dst];
    Unfold(before, stages, wires);
    Unfold(before, stages', wires');
    var first, first' := P.Lane(wires[0], stages[0], wires[1]), P.Lane(wires'[0], stages'[0], wires'[1]);
    if i == 0 {
      assert first == lane && first' == l;
      MovedCarries(lane, m);
      assert stages'[1..] == stages[1..] && wires'[1..][1..] == wires[1..][1..];
      SameFront(before + StageBytes(first), before + StageBytes(first'), stages[1..], wires[1..], wires'[1..]);
    } else {
      assert wires[1..][i - 1] == wires[i] && wires[1..][i] == wires[i + 1] && stages[1..][i - 1] == stages[i];
      LaneWork(before + StageBytes(first), stages[1..], wires[1..], i - 1, m);
      assert stages'[1..] == stages[1..][i - 1 := l.stage];
      assert wires'[1..] == wires[1..][i - 1 := l.src][i := l.dst];
      SameStage(first, first');
    }
  }

  lemma SameStage(l: P.Lane, l': P.Lane)
    requires l'.stage == l.stage && l'.src == l.src
    ensures StageWork(l') == StageWork(l) && StageBytes(l') == StageBytes(l)
  {
  }

  lemma {:induction false} ReceiveWork(before: nat, stages: seq<P.Stage>, wires: seq<P.Wire>, k: nat)
    requires |wires| == |stages| + 1 && k <= |wires[|stages|].queue|
    ensures var last := wires[|stages|];
      BytesWork(before, stages, wires[|stages| := last.(queue := last.queue[k..])]) + k
      == BytesWork(before, stages, wires)
    decreases |stages|
  {
    if stages != [] {
      var last := wires[|stages|];
      var w := last.(queue := last.queue[k..]);
      var buffered := before + |wires[0].queue| + |stages[0].ahead| + |stages[0].buf|;
      ReceiveWork(buffered, stages[1..], wires[1..], k);
      assert wires[|stages| := w][1..] == wires[1..][|stages| - 1 := w];
    }
  }

  // ----- One duplex that runs smoothly -----

  /** Nothing outside fails, nothing is cancelled, the drain timer does not fire. */
  predicate Calm(a: Action) {
    !a.Fault? && !a.Cancel? && !a.SeeTimeout? && (a.Finish? ==> a.r.Ok?)
  }

  predicate HasEnded(p: Phase) {
    p.Sending? || p.Done?
  }

  /** A direction ends well, and its FIN is on the wire exactly when it has ended. */
  predicate SmoothDir(n: Node, d: Dir) {
    var p := CopierOf(n.hop, d).phase;
    (HasEnded(p) ==> p.r == Ok) && (Target(n, d).fin <==> HasEnded(p))
  }

  predicate SmoothHop(h: Hop) {
    && h.inbound.kind.HalfClose? && h.outbound.kind.HalfClose?
    && !h.fault && !h.ctl.cancelled
    && (h.ctl.main.Looping? ==> !h.inbound.closed && !h.outbound.closed)
    && (!h.ctl.main.Looping? ==> h.ctl.main.ret == Ok)
  }

  predicate Smooth(n: Node) {
    HopInv(n.hop) && SmoothHop(n.hop) && SmoothDir(n, Up) && SmoothDir(n, Down)
  }

  /** A smooth duplex leaves its loop only when both directions are done. */
  lemma LeftMeansDone(n: Node)
    requires Smooth(n) && !n.hop.ctl.main.Looping?
    ensures n.hop.up.phase == Done(Ok) && n.hop.down.phase == Done(Ok) && n.hop.ctl.remaining == 0
  {
  }

  /** Its copiers are never cut. */
  lemma NeverCut(n: Node, d: Dir, code: nat)
    requires Smooth(n)
    ensures !Enabled(n, Cut(d, code))
  {
    if !n.hop.ctl.main.Looping? {
      LeftMeansDone(n);
    }
  }

  lemma CopierStepSmooth(n: Node, a: Action)
    requires Smooth(n) && CopierStep(a) && CopierEnabled(n, a) && Calm(a)
    ensures SmoothHop(CopierApply(n, a).hop)
    ensures SmoothDir(CopierApply(n, a), Up) && SmoothDir(CopierApply(n, a), Down)
  {
    if a.Cut? {
      NeverCut(n, a.d, a.code);
    }
    hide HopInv;
  }

  lemma ForceStepSmooth(n: Node)
    requires Smooth(n) && Enabled(n, Force)
    ensures SmoothHop(ForceStep(n).hop)
    ensures SmoothDir(ForceStep(n), Up) && SmoothDir(ForceStep(n), Down)
  {
    LeftMeansDone(n);
    hide HopInv;
  }

  /** The head of the channel of a smooth duplex is a success. */
  lemma ChannelHoldsSuccess(n: Node)
    requires Smooth(n) && n.hop.ctl.results != []
    ensures n.hop.ctl.results[0] == Ok
  {
    TakeKeepsOrder(n.hop.ctl);
    hide MainInv, ForceInv, CopierInv;
  }

  lemma ControlStepSmooth(n: Node, a: Action)
    requires Smooth(n) && !CopierStep(a) && !a.Force? && Enabled(n, a) && Calm(a)
    ensures SmoothHop(Apply(n, a).hop)
    ensures SmoothDir(Apply(n, a), Up) && SmoothDir(Apply(n, a), Down)
  {
    if a.Receive? {
      ChannelHoldsSuccess(n);
    }
    hide HopInv;
  }

  lemma CalmStepSmooth(n: Node, a: Action)
    requires Smooth(n) && Enabled(n, a) && Calm(a)
    ensures Smooth(Apply(n, a))
  {
    StepKeepsHopInv(n, a);
    hide SmoothHop, SmoothDir, HopInv;
    if CopierStep(a) {
      CopierStepSmooth(n, a);
    } else if a.Force? {
      ForceStepSmooth(n);
    } else {
      ControlStepSmooth(n, a);
    }
  }

  lemma NeighbourKeepsSmooth(n: Node, l': Link, r': Link)
    requires Smooth(n) && NeighbourStep(n.left, n.right, l', r')
    ensures Smooth(Node(l', n.hop, r'))
  {
    hide HopInv;
  }

  // ----- The work left in one duplex -----

  function PhaseWork(p: Phase): nat {
    match p
    case Copying => 3
    case Closing => 2
    case Sending(_) => 1
    case Done(_) => 0
  }

  function MainWork(c: Control): nat {
    match c.main
    case Looping => 6 + c.remaining
    case Forcing(_, k) => if k < 4 then 6 - k else 2
    case Joining(_) => 1
    case Returned(_) => 0
  }

  function HopWork(h: Hop): nat {
    PhaseWork(h.up.phase) + PhaseWork(h.down.phase) + MainWork(h.ctl)
  }

  /** Steps that carry bytes. */
  predicate Carries(a: Action) {
    a.Take? || a.CopyRead? || a.CopyWrite?
  }

  lemma CopierStepWorks(n: Node, a: Action)
    requires Smooth(n) && CopierStep(a) && CopierEnabled(n, a) && Calm(a)
    ensures var h := CopierApply(n, a).hop;
      && h.ctl == n.hop.ctl && HopWork(h) <= HopWork(n.hop)
      && (!Carries(a) ==> HopWork(h) < HopWork(n.hop))
  {
    if a.Cut? {
      NeverCut(n, a.d, a.code);
    }
    hide HopInv, MainWork;
  }

  lemma ControlStepWorks(n: Node, a: Action)
    requires Smooth(n) && !CopierStep(a) && Enabled(n, a) && Calm(a)
    ensures HopWork(Apply(n, a).hop) < HopWork(n.hop)
  {
    if !n.hop.ctl.main.Looping? {
      LeftMeansDone(n);
    }
    hide ForceInv, CopierInv, ChannelInv, ExitReason;
  }

  /** Every calm step carries bytes or takes work off the duplex. */
  lemma CalmStepWorks(n: Node, a: Action)
    requires Smooth(n) && Enabled(n, a) && Calm(a)
    ensures HopWork(Apply(n, a).hop) <= HopWork(n.hop)
    ensures !Carries(a) ==> HopWork(Apply(n, a).hop) < HopWork(n.hop)
  {
    hide Smooth, HopWork, CopierApply;
    if CopierStep(a) {
      CopierStepWorks(n, a);
    } else {
      ControlStepWorks(n, a);
    }
  }

  /** A direction that sees its sender's FIN can go on until it is done. */
  lemma DirectionMoves(n: Node, d: Dir) returns (a: Action)
    requires Smooth(n) && Source(n, d).fin && !CopierOf(n.hop, d).phase.Done?
    ensures Calm(a) && Enabled(n, a)
  {
    var c := CopierOf(n.hop, d);
    if !n.hop.ctl.main.Looping? {
      LeftMeansDone(n);
    }
    match c.phase
    case Copying =>
      a := if c.buf != [] then CopyWrite(d, |c.buf|)
      else if c.ahead != [] then CopyRead(d, |c.ahead|)
      else if Source(n, d).queue != [] then Take(d, |Source(n, d).queue|)
      else CopyEof(d);
    case Closing => a := Finish(d, Ok);
    case Sending(_) =>
      SendNeverBlocks(n, d);
      a := Send(d);
  }

  /** When both directions are done, Run can go on until it has returned. */
  lemma RunMoves(n: Node) returns (a: Action)
    requires Smooth(n) && n.hop.up.phase.Done? && n.hop.down.phase.Done? && !n.hop.ctl.main.Returned?
    ensures Calm(a) && Enabled(n, a)
  {
    var m := n.hop.ctl.main;
    if !m.Looping? {
      LeftMeansDone(n);
    }
    a := if m.Looping? then Receive else if m.Forcing? then Force else Return;
  }

  // ----- The chain -----

  predicate CalmEvent(e: C.Event) {
    e.AtHop? ==> Calm(e.a)
  }

  /** Steps that change nothing: a second FIN, a second look at EOF. */
  predicate Idle(c: C.Chain, e: C.Event) {
    e.EndFin? || (e.EndEof? && C.EndsOf(c, e.d).sinkEof)
  }

  ghost predicate SmoothChain(c: C.Chain) {
    C.WellFormed(c) && C.Inv(c) && AllSmooth(c)
  }

  /** Both ends have sent their FIN. */
  ghost predicate BothFin(c: C.Chain) {
    C.WellFormed(c) && C.View(c, Up).wires[0].fin && C.View(c, Down).wires[0].fin
  }

  /** Every Run returned nil and both receivers saw EOF. */
  predicate Complete(c: C.Chain) {
    (forall i :: 0 <= i < |c.hops| ==> c.hops[i].ctl.main == Returned(Ok)) && c.up.sinkEof && c.down.sinkEof
  }

  lemma InitSmooth(kinds: seq<(CloseKind, CloseKind)>)
    requires forall i :: 0 <= i < |kinds| ==> kinds[i] == (HalfClose, HalfClose)
    ensures SmoothChain(C.Init(kinds))
  {
    C.InitInv(kinds);
    var c := C.Init(kinds);
    hide C.Inv;
    forall i | 0 <= i < |c.hops| ensures Smooth(C.NodeAt(c, i)) {
      FreshHopInv(HalfClose, HalfClose);
    }
  }

  lemma HopStepKeepsSmooth(c: C.Chain, i: nat, a: Action, j: nat)
    requires C.WellFormed(c) && i < |c.hops| && j < |c.hops| && Calm(a)
    requires Smooth(C.NodeAt(c, i)) && Smooth(C.NodeAt(c, j)) && Enabled(C.NodeAt(c, i), a)
    ensures Smooth(C.NodeAt(C.WithNode(c, i, Apply(C.NodeAt(c, i), a)), j))
  {
    hide Smooth, Enabled, Apply, Calm;
    var n := C.NodeAt(c, i);
    var c' := C.WithNode(c, i, Apply(n, a));
    if i == j {
      CalmStepSmooth(n, a);
      assert C.NodeAt(c', i) == Apply(n, a);
    } else {
      SmoothKeepsWires(n, a);
      NeighbourKeepsSmooth(C.NodeAt(c, j), c'.links[j], c'.links[j + 1]);
    }
  }

  lemma SmoothKeepsWires(n: Node, a: Action)
    requires Smooth(n) && Enabled(n, a)
    ensures var n' := Apply(n, a); n'.left.up.fin == n.left.up.fin && n'.right.down.fin == n.right.down.fin
  {
    hide HopInv, SmoothHop, SmoothDir, Enabled, Apply;
    C.OwnWiresOnly(n, a);
  }

  lemma EndStepKeepsSmooth(c: C.Chain, e: C.Event, j: nat)
    requires C.WellFormed(c) && C.Enabled(c, e) && !e.AtHop? && j < |c.hops| && Smooth(C.NodeAt(c, j))
    ensures Smooth(C.NodeAt(C.Apply(c, e), j))
  {
    hide Smooth;
    NeighbourKeepsSmooth(C.NodeAt(c, j), C.Apply(c, e).links[j], C.Apply(c, e).links[j + 1]);
  }

  ghost predicate AllSmooth(c: C.Chain)
    requires C.WellFormed(c)
  {
    forall i :: 0 <= i < |c.hops| ==> Smooth(C.NodeAt(c, i))
  }

  lemma StepKeepsAllSmooth(c: C.Chain, e: C.Event)
    requires C.WellFormed(c) && AllSmooth(c) && C.Enabled(c, e) && CalmEvent(e)
    ensures AllSmooth(C.Apply(c, e))
  {
    hide Smooth, Enabled, Apply;
    if e.AtHop? {
      assert Smooth(C.NodeAt(c, e.index)) && Enabled(C.NodeAt(c, e.index), e.a);
      assert C.Apply(c, e) == C.WithNode(c, e.index, Apply(C.NodeAt(c, e.index), e.a));
      hide C.Apply, C.Enabled, C.WithNode;
      forall j | 0 <= j < |c.hops| ensures Smooth(C.NodeAt(C.Apply(c, e), j)) {
        HopStepKeepsSmooth(c, e.index, e.a, j);
      }
    } else {
      hide C.Apply, C.Enabled;
      forall j | 0 <= j < |c.hops| ensures Smooth(C.NodeAt(C.Apply(c, e), j)) {
        EndStepKeepsSmooth(c, e, j);
      }
    }
  }

  lemma StepKeepsSmooth(c: C.Chain, e: C.Event)
    requires SmoothChain(c) && C.Enabled(c, e) && CalmEvent(e)
    ensures SmoothChain(C.Apply(c, e))
  {
    hide AllSmooth, C.Inv, C.Apply, C.Enabled;
    C.StepKeepsInv(c, e);
    StepKeepsAllSmooth(c, e);
  }

  function HopsWork(hops: seq<Hop>): nat {
    if hops == [] then 0 else HopWork(hops[0]) + HopsWork(hops[1..])
  }

  lemma {:induction false} HopsUpdate(hops: seq<Hop>, i: nat, h: Hop)
    requires i < |hops|
    ensures HopsWork(hops[i := h]) == HopsWork(hops) - HopWork(hops[i]) + HopWork(h)
  {
    hide HopWork;
    if i == 0 {
      assert hops[i := h][1..] == hops[1..];
    } else {
      assert hops[i := h][1..] == hops[1..][i - 1 := h];
      HopsUpdate(hops[1..], i - 1, h);
    }
  }

  ghost function ChainWork(c: C.Chain): nat
    requires C.WellFormed(c)
  {
    LineWork(C.View(c, Up)) + LineWork(C.View(c, Down)) + HopsWork(c.hops)
  }

  /** One direction's share of a step of a duplex. */
  lemma HopStepLine(c: C.Chain, d: Dir, i: nat, a: Action)
    requires C.WellFormed(c) && C.Enabled(c, C.AtHop(i, a)) && HopInv(c.hops[i])
    ensures var c' := C.Apply(c, C.AtHop(i, a));
      && LineWork(C.View(c', d)) + Carried(C.MoveOf(C.NodeAt(c, i), d, a)) == LineWork(C.View(c, d))
      && C.View(c', d).wires[0].fin == C.View(c, d).wires[0].fin
  {
    hide HopInv, C.View, C.MoveOf, C.Apply, C.Inv, Enabled, Apply, LineWork, Carried, P.Enabled, P.Apply;
    C.HopStepRefines(c, d, i, a);
    C.LaneOfView(c, d, i);
    LineMove(C.View(c, d), C.StageIndex(c, d, i), C.MoveOf(C.NodeAt(c, i), d, a));
  }

  /** A move of one copier, seen in the line. */
  lemma LineMove(p: P.Line, k: nat, m: P.Move)
    requires P.WellFormed(p) && P.Enabled(p, P.At(k, m))
    ensures var p' := P.Apply(p, P.At(k, m));
      && P.WellFormed(p') && LineWork(p') + Carried(m) == LineWork(p) && p'.wires[0].fin == p.wires[0].fin
  {
    LaneWork(0, p.stages, p.wires, k, m);
    hide BytesWork, Carried;
  }

  lemma SmoothHopInv(n: Node)
    requires Smooth(n)
    ensures HopInv(n.hop)
  {
  }

  lemma CarriesSome(n: Node, a: Action)
    requires Enabled(n, a) && Carries(a)
    ensures Carried(C.MoveOf(n, Up, a)) + Carried(C.MoveOf(n, Down, a)) > 0
  {
    assert Carried(C.MoveOf(n, a.d, a)) > 0;
  }

  lemma HopStepHops(c: C.Chain, i: nat, a: Action)
    requires C.WellFormed(c) && C.Enabled(c, C.AtHop(i, a)) && Smooth(C.NodeAt(c, i)) && Calm(a)
    ensures var hops := C.Apply(c, C.AtHop(i, a)).hops;
      && HopsWork(hops) <= HopsWork(c.hops)
      && (!Carries(a) ==> HopsWork(hops) < HopsWork(c.hops))
  {
    hide Smooth, HopWork, HopsWork, Apply, Enabled;
    var n := C.NodeAt(c, i);
    CalmStepWorks(n, a);
    HopsUpdate(c.hops, i, Apply(n, a).hop);
  }

  lemma HopStepWorks(c: C.Chain, i: nat, a: Action)
    requires SmoothChain(c) && BothFin(c) && C.Enabled(c, C.AtHop(i, a)) && Calm(a)
    ensures var c' := C.Apply(c, C.AtHop(i, a)); BothFin(c') && ChainWork(c') < ChainWork(c)
  {
    hide C.Inv, Smooth, C.View, C.MoveOf, Carried, LineWork, HopsWork, Apply, Enabled, C.Apply;
    var n := C.NodeAt(c, i);
    assert Smooth(n) && Enabled(n, a);
    SmoothHopInv(n);
    HopStepLine(c, Up, i, a);
    HopStepLine(c, Down, i, a);
    HopStepHops(c, i, a);
    if Carries(a) {
      CarriesSome(n, a);
    }
  }

  predicate EndEvent(e: P.Event) {
    e.SourceFin? || e.SinkReceive? || e.SinkEof?
  }

  /** What an end of the line does to its work. */
  lemma EndLineWorks(p: P.Line, e: P.Event)
    requires P.WellFormed(p) && P.Enabled(p, e) && EndEvent(e) && p.wires[0].fin
    ensures var p' := P.Apply(p, e);
      && P.WellFormed(p') && p'.wires[0].fin && LineWork(p') <= LineWork(p)
      && (e.SinkReceive? || (e.SinkEof? && !p.sinkEof) ==> LineWork(p') < LineWork(p))
  {
    match e
    case SinkReceive(k) =>
      ReceiveWork(0, p.stages, p.wires, k);
      hide BytesWork;
    case SourceFin =>
      SameFront(0, 0, p.stages, p.wires, p.wires[0 := p.wires[0].(fin := true)]);
      hide BytesWork;
    case SinkEof => hide BytesWork;
  }

  lemma EndStepWorks(c: C.Chain, e: C.Event)
    requires C.WellFormed(c) && BothFin(c) && C.Enabled(c, e) && !e.AtHop?
    ensures var c' := C.Apply(c, e);
      BothFin(c') && ChainWork(c') <= ChainWork(c) && (!Idle(c, e) ==> ChainWork(c') < ChainWork(c))
  {
    hide C.View, LineWork, C.Apply, C.Enabled, P.Apply, P.Enabled, HopsWork, C.EventOf, Idle;
    var d := e.d;
    assert d == Up || d == Down;
    EndEventOf(c, e);
    C.EndStepRefines(c, d, e);
    C.EndStepRefines(c, C.Reverse(d), e);
    EndLineWorks(C.View(c, d), C.EventOf(c, d, e));
  }

  /** After its FIN an end can only receive, see EOF, or repeat the FIN. */
  lemma EndEventOf(c: C.Chain, e: C.Event)
    requires C.WellFormed(c) && C.Enabled(c, e) && !e.AtHop? && C.View(c, e.d).wires[0].fin
    ensures var ev := C.EventOf(c, e.d, e);
      EndEvent(ev) && (!Idle(c, e) ==> ev.SinkReceive? || (ev.SinkEof? && !C.View(c, e.d).sinkEof))
    ensures C.Apply(c, e).hops == c.hops
  {
    C.ViewEnds(c, e.d);
    hide C.View;
  }

  /** Every calm step that changes anything uses up work. */
  lemma StepWorks(c: C.Chain, e: C.Event)
    requires SmoothChain(c) && BothFin(c) && C.Enabled(c, e) && CalmEvent(e)
    ensures BothFin(C.Apply(c, e)) && ChainWork(C.Apply(c, e)) <= ChainWork(c)
    ensures !Idle(c, e) ==> ChainWork(C.Apply(c, e)) < ChainWork(c)
  {
    hide BothFin, ChainWork;
    if e.AtHop? {
      HopStepWorks(c, e.index, e.a);
    } else {
      EndStepWorks(c, e);
    }
  }

  /** A calm step that changes something. */
  ghost predicate Moves(c: C.Chain, e: C.Event)
    requires C.WellFormed(c)
  {
    CalmEvent(e) && C.Enabled(c, e) && !Idle(c, e)
  }

  function HopIndex(c: C.Chain, d: Dir, j: nat): nat
    requires j < |c.hops|
  {
    if d.Up? then j else |c.hops| - 1 - j
  }

  /** The end of a direction whose last wire has its FIN. */
  lemma ReceiverMoves(c: C.Chain, d: Dir) returns (e: Option<C.Event>)
    requires C.WellFormed(c) && C.View(c, d).wires[|c.hops|].fin
    ensures e.Some? ==> Moves(c, e.value)
    ensures e.None? ==> C.EndsOf(c, d).sinkEof
  {
    hide C.View, Enabled, Apply, Calm;
    C.ViewEnds(c, d);
    var w := C.WireOf(c.links[C.LastLink(c, d)], d);
    e := if w.queue != [] then Some(C.EndReceive(d, |w.queue|))
    else if !C.EndsOf(c, d).sinkEof then Some(C.EndEof(d))
    else None;
  }

  /** The wires around stage j of a direction. */
  lemma StageWires(c: C.Chain, d: Dir, j: nat)
    requires C.WellFormed(c) && j < |c.hops|
    ensures var n, w := C.NodeAt(c, HopIndex(c, d, j)), C.View(c, d).wires;
      |w| == |c.hops| + 1 && Source(n, d) == w[j] && Target(n, d) == w[j + 1]
  {
    hide C.StagesOf;
  }

  /** From stage j on, a direction whose wire has its FIN can move, or is over right to the receiver. */
  lemma {:induction false} DirectionProgress(c: C.Chain, d: Dir, j: nat) returns (e: Option<C.Event>)
    requires C.WellFormed(c) && AllSmooth(c) && j <= |c.hops| && C.View(c, d).wires[j].fin
    ensures e.Some? ==> Moves(c, e.value)
    ensures e.None? ==> C.EndsOf(c, d).sinkEof
    ensures e.None? ==> forall k :: j <= k < |c.hops| ==> CopierOf(c.hops[HopIndex(c, d, k)], d).phase.Done?
    decreases |c.hops| - j
  {
    hide C.View, HopInv, SmoothHop, Enabled;
    if j == |c.hops| {
      e := ReceiverMoves(c, d);
    } else {
      var i := HopIndex(c, d, j);
      var n := C.NodeAt(c, i);
      StageWires(c, d, j);
      assert Smooth(n) && SmoothDir(n, d);
      if !CopierOf(n.hop, d).phase.Done? {
        hide Smooth;
        var a := DirectionMoves(n, d);
        e := Some(C.AtHop(i, a));
      } else {
        e := DirectionProgress(c, d, j + 1);
      }
    }
  }

  /** Until everything is complete, something can move. */
  lemma NeverStuck(c: C.Chain)
    requires SmoothChain(c) && BothFin(c) && !Complete(c)
    ensures exists e :: Moves(c, e)
  {
    hide C.View, C.Inv, Smooth, AllSmooth, Moves;
    var up := DirectionProgress(c, Up, 0);
    var down := DirectionProgress(c, Down, 0);
    if up.Some? {
      assert Moves(c, up.value);
    } else if down.Some? {
      assert Moves(c, down.value);
    } else {
      var i :| 0 <= i < |c.hops| && c.hops[i].ctl.main != Returned(Ok);
      assert CopierOf(c.hops[HopIndex(c, Up, i)], Up).phase.Done?;
      assert CopierOf(c.hops[HopIndex(c, Down, |c.hops| - 1 - i)], Down).phase.Done?;
      var e := DoneHopMoves(c, i);
    }
  }

  lemma DoneHopMoves(c: C.Chain, i: nat) returns (e: C.Event)
    requires C.WellFormed(c) && AllSmooth(c) && i < |c.hops|
    requires c.hops[i].up.phase.Done? && c.hops[i].down.phase.Done? && c.hops[i].ctl.main != Returned(Ok)
    ensures Moves(c, e)
  {
    var n := C.NodeAt(c, i);
    assert Smooth(n) && SmoothHop(n.hop);
    hide Smooth, HopInv, Enabled;
    var a := RunMoves(n);
    e := C.AtHop(i, a);
  }

  ghost predicate CalmRun(es: seq<C.Event>) {
    forall i :: 0 <= i < |es| ==> CalmEvent(es[i])
  }

  /** How many steps of the run changed something. */
  ghost function CountMoves(c: C.Chain, es: seq<C.Event>): nat
    requires C.WellFormed(c) && C.ValidRun(c, es)
    decreases |es|
  {
    if es == [] then 0 else (if Idle(c, es[0]) then 0 else 1) + CountMoves(C.Apply(c, es[0]), es[1..])
  }

  lemma {:induction false} RunKeepsSmooth(c: C.Chain, es: seq<C.Event>)
    requires C.WellFormed(c) && SmoothChain(c) && C.ValidRun(c, es) && CalmRun(es)
    ensures SmoothChain(C.Final(c, es))
    decreases |es|
  {
    hide SmoothChain, C.Apply, C.Enabled;
    if es != [] {
      StepKeepsSmooth(c, es[0]);
      RunKeepsSmooth(C.Apply(c, es[0]), es[1..]);
    }
  }

  lemma {:induction false} RunWorks(c: C.Chain, es: seq<C.Event>)
    requires C.WellFormed(c) && SmoothChain(c) && BothFin(c) && C.ValidRun(c, es) && CalmRun(es)
    ensures BothFin(C.Final(c, es))
    ensures CountMoves(c, es) + ChainWork(C.Final(c, es)) <= ChainWork(c)
    decreases |es|
  {
    hide SmoothChain, BothFin, C.Apply, C.Enabled, ChainWork, Idle;
    if es != [] {
      StepKeepsSmooth(c, es[0]);
      StepWorks(c, es[0]);
      RunWorks(C.Apply(c, es[0]), es[1..]);
    }
  }

  lemma WellFormedFirst(c: C.Chain)
    requires BothFin(c)
    ensures C.WellFormed(c)
  {
    hide C.View;
  }

  /** So from every such state some calm run completes. */
  lemma {:induction false} CompletingRun(c: C.Chain) returns (es: seq<C.Event>)
    requires SmoothChain(c) && BothFin(c)
    ensures C.ValidRun(c, es) && CalmRun(es) && Complete(C.Final(c, es))
    decreases ChainWork(c)
  {
    hide SmoothChain, BothFin, ChainWork, C.Apply, C.Enabled, Idle, Complete;
    es := [];
    if !Complete(c) {
      WellFormedFirst(c);
      NeverStuck(c);
      var e :| Moves(c, e);
      StepKeepsSmooth(c, e);
      StepWorks(c, e);
      es := CompletingRun(C.Apply(c, e));
      C.RunCons(c, e, es);
      es := [e] + es;
    }
  }

  /** Complete means delivered. */
  lemma CompleteDelivers(c: C.Chain, d: Dir)
    requires SmoothChain(c) && Complete(c)
    ensures C.EndsOf(c, d).delivered == C.EndsOf(c, d).sent
  {
    forall i | 0 <= i < |c.hops| ensures CopierOf(c.hops[i], d).eof {
      assert Smooth(C.NodeAt(c, i));
      NilReturnMeansBothEof(c.hops[i]);
    }
    C.AllEofInv(c, d);
  }

  /**
  The chain delivers. After any calm run at whose end both ends have sent their FIN, whatever
  calm steps follow and in whatever order, at most ChainWork of them change anything; and when
  none is left that would, every Run has returned nil, both receivers have seen EOF, and
  everything sent has been delivered, in both directions.
  */
  lemma EverythingArrives(kinds: seq<(CloseKind, CloseKind)>, es: seq<C.Event>, more: seq<C.Event>)
    requires forall i :: 0 <= i < |kinds| ==> kinds[i] == (HalfClose, HalfClose)
    requires C.ValidRun(C.Init(kinds), es) && CalmRun(es) && BothFin(C.Final(C.Init(kinds), es))
    requires C.ValidRun(C.Final(C.Init(kinds), es), more) && CalmRun(more)
    ensures var c := C.Final(C.Init(kinds), es);
      var f := C.Final(c, more);
      && CountMoves(c, more) + ChainWork(f) <= ChainWork(c)
      && ((forall e :: !Moves(f, e)) ==> Complete(f) && f.up.delivered == f.up.sent && f.down.delivered == f.down.sent)
  {
    InitSmooth(kinds);
    var c := C.Final(C.Init(kinds), es);
    hide SmoothChain, BothFin, ChainWork, C.Init;
    RunKeepsSmooth(C.Init(kinds), es);
    RunKeepsSmooth(c, more);
    RunWorks(c, more);
    var f := C.Final(c, more);
    if !Complete(f) {
      NeverStuck(f);
    } else {
      CompleteDelivers(f, Up);
      CompleteDelivers(f, Down);
    }
  }
}
