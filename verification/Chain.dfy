/**
Any number of duplexes in a row, as in browser, proxy, relay, exit, website. Neighbouring
duplexes share a link. Each direction of the chain refines one line of the Pipeline module,
so that conservation, order and completeness are proved once and hold for both directions.
*/
module Chain {
  import opened Bytes
  import P = Pipeline
  import opened Duplex

  /** What an end of the chain sent into a direction and what the other end took out of it. */
  datatype Ends = Ends(sent: seq<byte>, delivered: seq<byte>, sinkEof: bool)

  /** `links[i]` is in front of `hops[i]`, `links[i + 1]` behind it. */
  datatype Chain = Chain(hops: seq<Hop>, links: seq<Link>, up: Ends, down: Ends)

  datatype Event =
    | EndSend(d: Dir, data: seq<byte>)   // the end where direction d starts writes
    | EndFin(d: Dir)                     // it closes its write side
    | EndReceive(d: Dir, count: nat)     // the end where direction d arrives reads
    | EndEof(d: Dir)                     // it reads EOF
    | AtHop(index: nat, a: Action)

  ghost predicate WellFormed(c: Chain) {
    |c.links| == |c.hops| + 1
  }

  function NodeAt(c: Chain, i: nat): Node
    requires i < |c.hops| && |c.links| == |c.hops| + 1
  {
    Node(c.links[i], c.hops[i], c.links[i + 1])
  }

  function WithNode(c: Chain, i: nat, n: Node): Chain
    requires i < |c.hops| && |c.links| == |c.hops| + 1
  {
    c.(hops := c.hops[i := n.hop], links := c.links[i := n.left][i + 1 := n.right])
  }

  function EndsOf(c: Chain, d: Dir): Ends {
    if d.Up? then c.up else c.down
  }

  function WithEnds(c: Chain, d: Dir, e: Ends): Chain {
    if d.Up? then c.(up := e) else c.(down := e)
  }

  function WireOf(l: Link, d: Dir): P.Wire {
    if d.Up? then l.up else l.down
  }

  function WithWire(c: Chain, i: nat, d: Dir, w: P.Wire): Chain
    requires i < |c.links|
  {
    c.(links := c.links[i := if d.Up? then c.links[i].(up := w) else c.links[i].(down := w)])
  }

  /** The link where direction d starts, and the link where it arrives. */
  function FirstLink(c: Chain, d: Dir): nat {
    if d.Up? then 0 else |c.hops|
  }

  function LastLink(c: Chain, d: Dir): nat {
    if d.Up? then |c.hops| else 0
  }

  ghost predicate Enabled(c: Chain, e: Event)
    requires WellFormed(c)
  {
    match e
    case EndSend(d, _) => !WireOf(c.links[FirstLink(c, d)], d).fin
    case EndFin(d) => true
    case EndReceive(d, k) => 0 < k <= |WireOf(c.links[LastLink(c, d)], d).queue|
    case EndEof(d) =>
      var w := WireOf(c.links[LastLink(c, d)], d);
      w.queue == [] && w.fin
    case AtHop(i, a) => i < |c.hops| && Duplex.Enabled(NodeAt(c, i), a)
  }

  ghost function Apply(c: Chain, e: Event): (c': Chain)
    requires WellFormed(c) && Enabled(c, e)
    ensures WellFormed(c') && |c'.hops| == |c.hops|
  {
    match e
    case EndSend(d, data) =>
      var i := FirstLink(c, d);
      var w := WireOf(c.links[i], d);
      var c' := WithWire(c, i, d, w.(queue := w.queue + data));
      WithEnds(c', d, EndsOf(c, d).(sent := EndsOf(c, d).sent + data))
    case EndFin(d) =>
      var i := FirstLink(c, d);
      WithWire(c, i, d, WireOf(c.links[i], d).(fin := true))
    case EndReceive(d, k) =>
      var i := LastLink(c, d);
      var w := WireOf(c.links[i], d);
      var c' := WithWire(c, i, d, w.(queue := w.queue[k..]));
      WithEnds(c', d, EndsOf(c, d).(delivered := EndsOf(c, d).delivered + w.queue[..k]))
    case EndEof(d) => WithEnds(c, d, EndsOf(c, d).(sinkEof := true))
    case AtHop(i, a) => WithNode(c, i, Duplex.Apply(NodeAt(c, i), a))
  }

  /** A chain of fresh duplexes; `kinds[i]` says how hop i's inbound and outbound close. */
  ghost function Init(kinds: seq<(CloseKind, CloseKind)>): Chain {
    var wire := P.Wire([], false);
    var ends := Ends([], [], false);
    Chain(seq(|kinds|, i requires 0 <= i < |kinds| => Fresh(kinds[i].0, kinds[i].1)),
          seq(|kinds| + 1, i => Link(wire, wire)), ends, ends)
  }

  ghost predicate ValidRun(c: Chain, es: seq<Event>)
    requires WellFormed(c)
    decreases |es|
  {
    es == [] || (Enabled(c, es[0]) && ValidRun(Apply(c, es[0]), es[1..]))
  }

  ghost function Final(c: Chain, es: seq<Event>): (c': Chain)
    requires WellFormed(c) && ValidRun(c, es)
    ensures WellFormed(c') && |c'.hops| == |c.hops|
    decreases |es|
  {
    if es == [] then c else Final(Apply(c, es[0]), es[1..])
  }

  // ----- Each direction refines a pipeline line -----

  function StageOf(c: Copier): P.Stage {
    P.Stage(c.ahead, c.buf, if c.phase.Copying? then P.Active else if c.eof then P.AtEof else P.Broken)
  }

  /** A direction's stage number for hop i: counted from where the direction starts. */
  function StageIndex(c: Chain, d: Dir, i: nat): nat
    requires i < |c.hops|
  {
    if d.Up? then i else |c.hops| - 1 - i
  }

  ghost function View(c: Chain, d: Dir): P.Line
    requires WellFormed(c)
  {
    var e := EndsOf(c, d);
    P.Line(e.sent, WiresOf(c.links, d), StagesOf(c.hops, d), e.delivered, e.sinkEof)
  }

  /** The wires of a direction, from where it starts to where it arrives. */
  ghost function WiresOf(links: seq<Link>, d: Dir): (r: seq<P.Wire>)
    ensures |r| == |links|
    ensures forall j :: 0 <= j < |r| ==> r[j] == WireOf(links[if d.Up? then j else |links| - 1 - j], d)
  {
    seq(|links|, j requires 0 <= j < |links| => WireOf(links[if d.Up? then j else |links| - 1 - j], d))
  }

  /** The copiers of a direction, from where it starts to where it arrives. */
  ghost function StagesOf(hops: seq<Hop>, d: Dir): (r: seq<P.Stage>)
    ensures |r| == |hops|
    ensures forall j :: 0 <= j < |r| ==> r[j] == StageOf(CopierOf(hops[if d.Up? then j else |hops| - 1 - j], d))
  {
    seq(|hops|, j requires 0 <= j < |hops| => StageOf(CopierOf(hops[if d.Up? then j else |hops| - 1 - j], d)))
  }

  function LaneOf(n: Node, d: Dir): P.Lane {
    P.Lane(Source(n, d), StageOf(CopierOf(n.hop, d)), Target(n, d))
  }

  /** Whether an action closes the wire that direction d writes to. */
  predicate Closes(n: Node, d: Dir, a: Action) {
    match a
    case Finish(f, r) =>
      f == d && (TargetConn(n.hop, d).kind.FullClose? || (TargetConn(n.hop, d).kind.HalfClose? && r.Ok?))
    case Force => n.hop.ctl.main.Forcing? && n.hop.ctl.main.step == (if d.Up? then 3 else 2)
    case _ => false
  }

  /** What a duplex action means for the line of direction d. */
  function MoveOf(n: Node, d: Dir, a: Action): P.Move {
    if Closes(n, d, a) then P.CloseOut
    else if !CopierStep(a) || a.d != d then P.Stay
    else
      match a
      case Take(_, k) => P.Fill(k)
      case CopyRead(_, k) => P.Read(k)
      case CopyWrite(_, k) => P.Write(k)
      case CopyEof(_) => P.SeeEof
      case Cut(_, _) => P.Break
      case Fault(_, _) => P.Break
      case _ => P.Stay
  }

  lemma CopierStepMovesLane(n: Node, d: Dir, a: Action)
    requires CopierStep(a) && CopierEnabled(n, a) && CopierInv(CopierOf(n.hop, d))
    ensures P.CanMove(LaneOf(n, d), MoveOf(n, d, a))
    ensures LaneOf(CopierApply(n, a), d) == P.Moved(LaneOf(n, d), MoveOf(n, d, a))
  {
  }

  lemma ActionMovesLane(n: Node, d: Dir, a: Action)
    requires HopInv(n.hop) && Duplex.Enabled(n, a)
    ensures P.CanMove(LaneOf(n, d), MoveOf(n, d, a))
    ensures LaneOf(Duplex.Apply(n, a), d) == P.Moved(LaneOf(n, d), MoveOf(n, d, a))
  {
    if CopierStep(a) {
      CopierStepMovesLane(n, d, a);
    }
  }

  ghost function EventOf(c: Chain, d: Dir, e: Event): P.Event
    requires WellFormed(c) && Enabled(c, e) && (e.AtHop? || e.d == d)
  {
    match e
    case EndSend(_, data) => P.SourceSend(data)
    case EndFin(_) => P.SourceFin
    case EndReceive(_, k) => P.SinkReceive(k)
    case EndEof(_) => P.SinkEof
    case AtHop(i, a) => P.At(StageIndex(c, d, i), MoveOf(NodeAt(c, i), d, a))
  }

  lemma LaneOfView(c: Chain, d: Dir, i: nat)
    requires WellFormed(c) && i < |c.hops|
    ensures P.WellFormed(View(c, d)) && |View(c, d).stages| == |c.hops|
    ensures P.LaneAt(View(c, d), StageIndex(c, d, i)) == LaneOf(NodeAt(c, i), d)
  {
    hide StageOf, WiresOf, StagesOf;
  }

  /** Replacing one link replaces one wire of each direction. */
  lemma LinkIsWire(links: seq<Link>, d: Dir, i: nat, l: Link)
    requires i < |links|
    ensures WiresOf(links[i := l], d) == WiresOf(links, d)[if d.Up? then i else |links| - 1 - i := WireOf(l, d)]
  {
    hide WiresOf, WireOf;
  }

  lemma HopIsStage(hops: seq<Hop>, d: Dir, i: nat, h: Hop)
    requires i < |hops|
    ensures StagesOf(hops[i := h], d)
      == StagesOf(hops, d)[if d.Up? then i else |hops| - 1 - i := StageOf(CopierOf(h, d))]
  {
    hide StagesOf, StageOf, CopierOf;
  }

  /** Replacing one node replaces one lane of the view. */
  lemma NodeIsLane(c: Chain, d: Dir, i: nat, n: Node)
    requires WellFormed(c) && i < |c.hops|
    ensures P.WellFormed(View(c, d))
    ensures View(WithNode(c, i, n), d) == P.WithLane(View(c, d), StageIndex(c, d, i), LaneOf(n, d))
  {
    hide StageOf, WiresOf, StagesOf;
    LinkIsWire(c.links, d, i, n.left);
    LinkIsWire(c.links[i := n.left], d, i + 1, n.right);
    HopIsStage(c.hops, d, i, n.hop);
    var w := WiresOf(c.links, d);
    if d.Up? {
      assert WiresOf(c.links[i := n.left][i + 1 := n.right], d) == w[i := n.left.up][i + 1 := n.right.up];
    } else {
      var k := |c.hops| - 1 - i;
      assert WiresOf(c.links[i := n.left][i + 1 := n.right], d) == w[k + 1 := n.left.down][k := n.right.down];
      assert w[k + 1 := n.left.down][k := n.right.down] == w[k := n.right.down][k + 1 := n.left.down];
    }
  }

  /** A direction's wire number for link i: counted from where the direction starts. */
  function WireIndex(c: Chain, d: Dir, i: nat): nat
    requires i <= |c.hops|
  {
    if d.Up? then i else |c.hops| - i
  }

  /** Replacing one wire of one direction replaces one wire of that view and nothing of the other. */
  lemma WireIsWire(c: Chain, d: Dir, i: nat, w: P.Wire, f: Dir)
    requires WellFormed(c) && i <= |c.hops|
    ensures P.WellFormed(View(c, f))
    ensures var v := View(c, f);
      View(WithWire(c, i, d, w), f) == if f == d then v.(wires := v.wires[WireIndex(c, d, i) := w]) else v
  {
    hide WiresOf, StagesOf;
    var l := if d.Up? then c.links[i].(up := w) else c.links[i].(down := w);
    LinkIsWire(c.links, f, i, l);
    var ws := WiresOf(c.links, f);
    var k := WireIndex(c, f, i);
    if f != d {
      assert WireOf(l, f) == WireOf(c.links[i], f) == ws[k];
      assert ws[k := ws[k]] == ws;
    }
  }

  lemma EndsAreEnds(c: Chain, d: Dir, e: Ends, f: Dir)
    requires WellFormed(c)
    ensures var v := View(c, f);
      View(WithEnds(c, d, e), f)
      == if f == d then v.(sent := e.sent, delivered := e.delivered, sinkEof := e.sinkEof) else v
  {
    hide WiresOf, StagesOf;
  }

  lemma ViewEnds(c: Chain, d: Dir)
    requires WellFormed(c)
    ensures var v := View(c, d);
      && |v.wires| == |c.links| && |v.stages| == |c.hops|
      && v.wires[0] == WireOf(c.links[FirstLink(c, d)], d)
      && v.wires[|c.hops|] == WireOf(c.links[LastLink(c, d)], d)
      && v.sent == EndsOf(c, d).sent && v.delivered == EndsOf(c, d).delivered && v.sinkEof == EndsOf(c, d).sinkEof
  {
  }

  /** A step at an end of the chain is a line step of its direction and nothing to the other one. */
  lemma EndStepRefines(c: Chain, d: Dir, e: Event)
    requires WellFormed(c) && Enabled(c, e) && !e.AtHop?
    ensures P.WellFormed(View(c, d))
    ensures e.d == d ==>
      && P.Enabled(View(c, d), EventOf(c, d, e))
      && View(Apply(c, e), d) == P.Apply(View(c, d), EventOf(c, d, e))
    ensures e.d != d ==> View(Apply(c, e), d) == View(c, d)
  {
    hide View;
    ViewEnds(c, d);
    var first, last := FirstLink(c, e.d), LastLink(c, e.d);
    match e
    case EndSend(f, data) =>
      var w := WireOf(c.links[first], f);
      WireIsWire(c, f, first, w.(queue := w.queue + data), d);
      EndsAreEnds(WithWire(c, first, f, w.(queue := w.queue + data)), f,
                  EndsOf(c, f).(sent := EndsOf(c, f).sent + data), d);
    case EndFin(f) =>
      WireIsWire(c, f, first, WireOf(c.links[first], f).(fin := true), d);
    case EndReceive(f, k) =>
      var w := WireOf(c.links[last], f);
      WireIsWire(c, f, last, w.(queue := w.queue[k..]), d);
      EndsAreEnds(WithWire(c, last, f, w.(queue := w.queue[k..])), f,
                  EndsOf(c, f).(delivered := EndsOf(c, f).delivered + w.queue[..k]), d);
    case EndEof(f) =>
      EndsAreEnds(c, f, EndsOf(c, f).(sinkEof := true), d);
  }

  lemma HopStepRefines(c: Chain, d: Dir, i: nat, a: Action)
    requires WellFormed(c) && Enabled(c, AtHop(i, a)) && HopInv(c.hops[i])
    ensures P.WellFormed(View(c, d))
    ensures var m := P.At(StageIndex(c, d, i), MoveOf(NodeAt(c, i), d, a));
      P.Enabled(View(c, d), m) && View(Apply(c, AtHop(i, a)), d) == P.Apply(View(c, d), m)
  {
    hide View, LaneOf, MoveOf, HopInv, Duplex.Enabled, Duplex.Apply, P.CanMove, P.Moved, P.WithLane, P.LaneAt, WithNode;
    var n := NodeAt(c, i);
    LaneOfView(c, d, i);
    ActionMovesLane(n, d, a);
    NodeIsLane(c, d, i, Duplex.Apply(n, a));
  }

  // ----- Whole runs -----

  ghost predicate Inv(c: Chain) {
    && WellFormed(c)
    && (forall i :: 0 <= i < |c.hops| ==> NodeInv(NodeAt(c, i)))
    && P.Inv(View(c, Up)) && P.Inv(View(c, Down))
  }

  lemma InitInv(kinds: seq<(CloseKind, CloseKind)>)
    ensures Inv(Init(kinds))
  {
    InitNodes(kinds);
    InitLine(kinds, Up);
    InitLine(kinds, Down);
    hide NodeInv, View, P.Inv;
  }

  lemma InitNodes(kinds: seq<(CloseKind, CloseKind)>)
    ensures var c := Init(kinds); WellFormed(c) && forall i :: 0 <= i < |c.hops| ==> NodeInv(NodeAt(c, i))
  {
    var c := Init(kinds);
    forall i | 0 <= i < |c.hops| ensures NodeInv(NodeAt(c, i)) {
      FreshHopInv(kinds[i].0, kinds[i].1);
      hide HopInv;
    }
  }

  lemma InitLine(kinds: seq<(CloseKind, CloseKind)>, d: Dir)
    ensures WellFormed(Init(kinds)) && P.Inv(View(Init(kinds), d))
  {
    hide P.Inv;
    EmptyLineInv(View(Init(kinds), d));
  }

  lemma EmptyLineInv(p: P.Line)
    requires P.WellFormed(p) && p.sent == [] && p.delivered == [] && !p.sinkEof
    requires forall i :: 0 <= i < |p.wires| ==> p.wires[i] == P.Wire([], false)
    requires forall i :: 0 <= i < |p.stages| ==> p.stages[i] == P.Stage([], [], P.Active)
    ensures P.Inv(p)
  {
    EmptyBeyond(p.stages, p.wires);
  }

  lemma {:induction false} EmptyBeyond(stages: seq<P.Stage>, wires: seq<P.Wire>)
    requires |wires| == |stages| + 1
    requires forall i :: 0 <= i < |wires| ==> wires[i].queue == []
    requires forall i :: 0 <= i < |stages| ==> P.Held(stages[i]) == []
    ensures P.Beyond(stages, wires) == []
  {
    if stages != [] {
      EmptyBeyond(stages[1..], wires[1..]);
    }
  }

  /** A step at one hop looks, to every other hop, like a neighbour moving bytes and closing its own side. */
  lemma HopStepKeepsNodes(c: Chain, i: nat, a: Action, j: nat)
    requires WellFormed(c) && i < |c.hops| && j < |c.hops|
    requires NodeInv(NodeAt(c, i)) && NodeInv(NodeAt(c, j)) && Duplex.Enabled(NodeAt(c, i), a)
    ensures NodeInv(NodeAt(WithNode(c, i, Duplex.Apply(NodeAt(c, i), a)), j))
  {
    hide NodeInv, HopInv, Duplex.Enabled, Duplex.Apply;
    var c' := WithNode(c, i, Duplex.Apply(NodeAt(c, i), a));
    if i == j {
      StepKeepsNodeInv(NodeAt(c, i), a);
    } else {
      NodeInvHop(NodeAt(c, i));
      OwnWiresOnly(NodeAt(c, i), a);
      NeighbourKeepsNodeInv(NodeAt(c, j), c'.links[j], c'.links[j + 1]);
    }
  }

  lemma EndStepKeepsNodes(c: Chain, e: Event, j: nat)
    requires WellFormed(c) && Enabled(c, e) && !e.AtHop? && j < |c.hops| && NodeInv(NodeAt(c, j))
    ensures NodeInv(NodeAt(Apply(c, e), j))
  {
    hide NodeInv, HopInv;
    NeighbourKeepsNodeInv(NodeAt(c, j), Apply(c, e).links[j], Apply(c, e).links[j + 1]);
  }

  lemma NodeInvHop(n: Node)
    requires NodeInv(n)
    ensures HopInv(n.hop)
  {
  }

  /** A duplex closes only the two wires it writes to. */
  lemma OwnWiresOnly(n: Node, a: Action)
    requires HopInv(n.hop) && Duplex.Enabled(n, a)
    ensures var n' := Duplex.Apply(n, a); n'.left.up.fin == n.left.up.fin && n'.right.down.fin == n.right.down.fin
  {
    if CopierStep(a) {
      CopierOwnWiresOnly(n, a);
    }
  }

  lemma CopierOwnWiresOnly(n: Node, a: Action)
    requires CopierStep(a) && CopierEnabled(n, a)
    ensures var n' := CopierApply(n, a); n'.left.up.fin == n.left.up.fin && n'.right.down.fin == n.right.down.fin
  {
  }

  lemma StepKeepsInv(c: Chain, e: Event)
    requires Inv(c) && Enabled(c, e)
    ensures Inv(Apply(c, e))
  {
    StepKeepsLine(c, Up, e);
    StepKeepsLine(c, Down, e);
    StepKeepsNodes(c, e);
    hide View, P.Inv, NodeInv, Apply, Enabled;
  }

  lemma StepKeepsNodes(c: Chain, e: Event)
    requires Inv(c) && Enabled(c, e)
    ensures WellFormed(Apply(c, e))
    ensures forall j :: 0 <= j < |c.hops| ==> NodeInv(NodeAt(Apply(c, e), j))
  {
    hide View, P.Inv, NodeInv, Duplex.Enabled, Duplex.Apply;
    if e.AtHop? {
      assert NodeInv(NodeAt(c, e.index)) && Duplex.Enabled(NodeAt(c, e.index), e.a);
      assert Apply(c, e) == WithNode(c, e.index, Duplex.Apply(NodeAt(c, e.index), e.a));
      hide Apply, Enabled, WithNode;
      forall j | 0 <= j < |c.hops| ensures NodeInv(NodeAt(Apply(c, e), j)) {
        HopStepKeepsNodes(c, e.index, e.a, j);
      }
    } else {
      hide Apply, Enabled;
      forall j | 0 <= j < |c.hops| ensures NodeInv(NodeAt(Apply(c, e), j)) {
        EndStepKeepsNodes(c, e, j);
      }
    }
  }

  /** Forward simulation: a chain step is a line step of the same direction, or no step of it. */
  lemma StepKeepsLine(c: Chain, d: Dir, e: Event)
    requires Inv(c) && Enabled(c, e)
    ensures WellFormed(Apply(c, e)) && P.Inv(View(Apply(c, e), d))
  {
    assert P.Inv(View(c, d));
    if e.AtHop? {
      assert NodeInv(NodeAt(c, e.index)) && HopInv(c.hops[e.index]);
      hide View, Inv, P.Inv, NodeInv, HopInv, Duplex.Enabled, Duplex.Apply, P.Enabled, P.Apply, MoveOf, Apply;
      HopStepRefines(c, d, e.index, e.a);
      P.StepKeepsInv(View(c, d), P.At(StageIndex(c, d, e.index), MoveOf(NodeAt(c, e.index), d, e.a)));
    } else {
      hide View, Inv, P.Inv, P.Enabled, P.Apply, Apply;
      EndStepRefines(c, d, e);
      if e.d == d {
        P.StepKeepsInv(View(c, d), EventOf(c, d, e));
      }
    }
  }

  lemma {:induction false} RunKeepsInv(c: Chain, es: seq<Event>)
    requires Inv(c) && ValidRun(c, es)
    ensures Inv(Final(c, es)) && |Final(c, es).hops| == |c.hops|
    decreases |es|
  {
    if es != [] {
      hide Inv, Enabled, Apply;
      StepKeepsInv(c, es[0]);
      RunKeepsInv(Apply(c, es[0]), es[1..]);
    }
  }

  /**
  For any number of hops, any chunking and any interleaving, including every failure,
  cancellation and timeout: in each direction the bytes sent are the bytes delivered followed
  by the bytes in flight hop by hop. So delivery is always an in-order prefix.
  */
  lemma BytesAreConserved(kinds: seq<(CloseKind, CloseKind)>, es: seq<Event>, d: Dir)
    requires ValidRun(Init(kinds), es)
    ensures var c := Final(Init(kinds), es);
      && WellFormed(c) && P.WellFormed(View(c, d))
      && EndsOf(c, d).sent == EndsOf(c, d).delivered + P.InFlight(View(c, d))
      && EndsOf(c, d).delivered <= EndsOf(c, d).sent
  {
    InitInv(kinds);
    RunKeepsInv(Init(kinds), es);
  }

  /** If every hop's copier of a direction reached EOF, only the last wire can hold undelivered bytes. */
  lemma AllEofMeansComplete(kinds: seq<(CloseKind, CloseKind)>, es: seq<Event>, d: Dir)
    requires ValidRun(Init(kinds), es)
    requires var c := Final(Init(kinds), es); forall i :: 0 <= i < |c.hops| ==> CopierOf(c.hops[i], d).eof
    ensures var c := Final(Init(kinds), es);
      && WellFormed(c)
      && EndsOf(c, d).sent == EndsOf(c, d).delivered + WireOf(c.links[LastLink(c, d)], d).queue
      && (EndsOf(c, d).sinkEof ==> EndsOf(c, d).delivered == EndsOf(c, d).sent)
  {
    InitInv(kinds);
    RunKeepsInv(Init(kinds), es);
    var c := Final(Init(kinds), es);
    hide Init;
    AllEofInv(c, d);
  }

  lemma AllEofInv(c: Chain, d: Dir)
    requires Inv(c) && forall i :: 0 <= i < |c.hops| ==> CopierOf(c.hops[i], d).eof
    ensures EndsOf(c, d).sent == EndsOf(c, d).delivered + WireOf(c.links[LastLink(c, d)], d).queue
    ensures EndsOf(c, d).sinkEof ==> EndsOf(c, d).delivered == EndsOf(c, d).sent
  {
    hide P.Inv, NodeInv, View, WiresOf, StagesOf, StageOf;
    var v := View(c, d);
    assert P.Inv(v);
    ViewEnds(c, d);
    hide Inv;
    forall j | 0 <= j < |v.stages| ensures v.stages[j].status.AtEof? {
      var i := if d.Up? then j else |c.hops| - 1 - j;
      assert CopierOf(c.hops[i], d).eof;
      EofStage(c, d, i);
      assert StageIndex(c, d, i) == j;
    }
    P.AllEofDeliversAll(v);
  }

  lemma EofStage(c: Chain, d: Dir, i: nat)
    requires Inv(c) && i < |c.hops| && CopierOf(c.hops[i], d).eof
    ensures View(c, d).stages[StageIndex(c, d, i)].status.AtEof?
  {
    hide NodeInv, P.Inv, MainInv, ForceInv, ChannelInv, WiresOf, StagesOf;
    NodeInvHop(NodeAt(c, i));
  }

  /**
  Inside any chain, a hop whose Run returned nil copied both ways to EOF, saw both peers' FINs,
  and passed both on wherever the connection has a CloseWrite.
  */
  lemma NilReturnMeansComplete(kinds: seq<(CloseKind, CloseKind)>, es: seq<Event>, i: nat)
    requires ValidRun(Init(kinds), es) && i < |kinds|
    requires Final(Init(kinds), es).hops[i].ctl.main == Returned(Ok)
    ensures var c := Final(Init(kinds), es);
      && WellFormed(c) && i < |c.hops|
      && c.hops[i].up.eof && c.hops[i].down.eof
      && c.links[i].up == P.Wire([], true) && c.links[i + 1].down == P.Wire([], true)
      && (!kinds[i].1.NoClose? ==> c.links[i + 1].up.fin)
      && (!kinds[i].0.NoClose? ==> c.links[i].down.fin)
  {
    InitInv(kinds);
    RunKeepsInv(Init(kinds), es);
    RunKeepsKinds(Init(kinds), es, i);
    var c := Final(Init(kinds), es);
    assert c.hops[i].inbound.kind == kinds[i].0 && c.hops[i].outbound.kind == kinds[i].1;
    hide Init, ValidRun, Final;
    assert FinSent(NodeAt(c, i), Up) && FinSent(NodeAt(c, i), Down);
    NodeInvHop(NodeAt(c, i));
    NilReturnMeansBothEof(c.hops[i]);
    EofSourceEmpty(c, i, Up);
    EofSourceEmpty(c, i, Down);
  }

  /** Every hop of every chain keeps the protocol of Duplex.Run in every reachable state. */
  lemma EveryHopKeepsProtocol(kinds: seq<(CloseKind, CloseKind)>, es: seq<Event>, i: nat)
    requires ValidRun(Init(kinds), es) && i < |kinds|
    ensures var h := Final(Init(kinds), es).hops[i];
      && HopInv(h)
      && h.ctl.armed <= 1
      && (h.ctl.main.Joining? || h.ctl.main.Returned? ==> h.inbound.closed && h.outbound.closed)
      && (h.ctl.main.Returned? ==> h.up.phase.Done? && h.down.phase.Done? && h.ctl.results == [])
      && (!h.ctl.main.Looping? && h.ctl.main.ret == Fail(DrainTimeout) ==> h.ctl.received[..h.ctl.looped] == [Ok])
  {
    InitInv(kinds);
    RunKeepsInv(Init(kinds), es);
    var c := Final(Init(kinds), es);
    hide Init;
    NodeInvHop(NodeAt(c, i));
    hide Inv;
    if c.hops[i].ctl.main.Returned? {
      ReturnedHasJoined(c.hops[i]);
    }
    TimerArmedOnce(c.hops[i]);
  }

  /** A copier at EOF has an empty, finished wire in front of it, and keeps it. */
  lemma EofSourceEmpty(c: Chain, i: nat, d: Dir)
    requires Inv(c) && i < |c.hops| && CopierOf(c.hops[i], d).eof
    ensures Source(NodeAt(c, i), d) == P.Wire([], true)
  {
    NodeInvHop(NodeAt(c, i));
    LaneOfView(c, d, i);
    EofStage(c, d, i);
    var v, k := View(c, d), StageIndex(c, d, i);
    assert P.EofSettled(v);
    hide Inv, View, NodeInv, HopInv, P.Inv;
    assert P.LaneAt(v, k) == LaneOf(NodeAt(c, i), d);
  }

  // ----- Where a guarantee stops: concrete runs and exact conditions -----

  function Reverse(d: Dir): Dir {
    if d.Up? then Down else Up
  }

  lemma RunCons(c: Chain, e: Event, es: seq<Event>)
    requires WellFormed(c) && Enabled(c, e) && ValidRun(Apply(c, e), es)
    ensures ValidRun(c, [e] + es) && Final(c, [e] + es) == Final(Apply(c, e), es)
  {
    assert ([e] + es)[0] == e && ([e] + es)[1..] == es;
  }

  /** The copier has its result, posted or not. */
  predicate HasResult(p: Phase, r: Result) {
    p == Sending(r) || p == Done(r)
  }

  /** Hop 0 lost a direction by its own doing: the loop still runs, nothing outside failed, bytes are stuck. */
  ghost predicate SelfHarmed(c: Chain, d: Dir) {
    && |c.hops| == 1
    && c.hops[0].ctl.main.Looping? && !c.hops[0].fault
    && (exists e :: HasResult(CopierOf(c.hops[0], d).phase, Fail(e)))
    && EndsOf(c, d).delivered < EndsOf(c, d).sent
  }

  ghost predicate HarmingRun(kinds: (CloseKind, CloseKind), es: seq<Event>, d: Dir) {
    ValidRun(Init([kinds]), es) && SelfHarmed(Final(Init([kinds]), es), d)
  }

  /** A FIN one way on a connection whose CloseWrite closes it entirely, as requestConn's does. */
  lemma FullCloseRun(kinds: (CloseKind, CloseKind), d: Dir) returns (es: seq<Event>)
    requires (if d.Up? then kinds.1 else kinds.0).FullClose?
    ensures ValidRun(Init([kinds]), es) && SelfHarmed(Final(Init([kinds]), es), Reverse(d))
  {
    var r := Reverse(d);
    var c0 := Init([kinds]);
    var c1 := Apply(c0, EndSend(r, [7]));
    var c2 := Apply(c1, EndFin(d));
    var acts := FullCloseCuts(NodeAt(c2, 0), d);
    HopRun(c2, 0, acts);
    hide Duplex.Apply, Duplex.Enabled;
    RunCons(c1, EndFin(d), AllAt(0, acts));
    RunCons(c0, EndSend(r, [7]), [EndFin(d)] + AllAt(0, acts));
    es := [EndSend(r, [7])] + ([EndFin(d)] + AllAt(0, acts));
  }

  /** A fresh duplex passes on a FIN by closing the connection, and so cuts its other direction. */
  lemma FullCloseCuts(n: Node, d: Dir) returns (acts: seq<Action>)
    requires n.hop == Fresh(n.hop.inbound.kind, n.hop.outbound.kind)
    requires Source(n, d) == P.Wire([], true) && TargetConn(n.hop, d).kind.FullClose?
    ensures ValidNodeRun(n, acts)
    ensures var h := FinalNode(n, acts).hop;
      h.ctl == n.hop.ctl && !h.fault && HasResult(CopierOf(h, Reverse(d)).phase, Fail(CopyErr(0)))
  {
    var r := Reverse(d);
    var n1 := Duplex.Apply(n, CopyEof(d));
    var n2 := Duplex.Apply(n1, Finish(d, Ok));
    assert SourceConn(n2.hop, r).closed;
    var n3 := Duplex.Apply(n2, Cut(r, 0));
    assert ValidNodeRun(n3, []) && FinalNode(n3, []) == n3;
    hide Duplex.Apply;
    acts := [];
    NodeRunCons(n2, Cut(r, 0), acts);
    acts := [Cut(r, 0)] + acts;
    NodeRunCons(n1, Finish(d, Ok), acts);
    acts := [Finish(d, Ok)] + acts;
    NodeRunCons(n, CopyEof(d), acts);
    acts := [CopyEof(d)] + acts;
  }

  lemma NoFullCloseNoHarm(kinds: (CloseKind, CloseKind), es: seq<Event>, d: Dir)
    requires ValidRun(Init([kinds]), es) && !kinds.0.FullClose? && !kinds.1.FullClose?
    ensures !SelfHarmed(Final(Init([kinds]), es), d)
  {
    ReachedNode(kinds, es);
    var c := Final(Init([kinds]), es);
    hide Init, ValidRun, Final;
    if c.hops[0].ctl.main.Looping? && !c.hops[0].fault {
      GentleHasNoFailure(NodeAt(c, 0), d);
    }
  }

  /** The one hop of a chain of one, in any reachable state. */
  lemma ReachedNode(kinds: (CloseKind, CloseKind), es: seq<Event>)
    requires ValidRun(Init([kinds]), es)
    ensures var c := Final(Init([kinds]), es);
      && WellFormed(c) && |c.hops| == 1 && NodeInv(NodeAt(c, 0))
      && c.hops[0].inbound.kind == kinds.0 && c.hops[0].outbound.kind == kinds.1
  {
    InitInv([kinds]);
    RunKeepsInv(Init([kinds]), es);
    hide NodeInv;
    assert NodeInv(NodeAt(Final(Init([kinds]), es), 0));
    RunKeepsKinds(Init([kinds]), es, 0);
  }

  lemma GentleHasNoFailure(n: Node, d: Dir)
    requires NodeInv(n) && n.hop.ctl.main.Looping? && Gentle(n.hop)
    ensures forall e :: !HasResult(CopierOf(n.hop, d).phase, Fail(e))
  {
    hide HopInv, FinSent;
    assert DirUnharmed(n, d);
  }

  lemma StepKeepsKinds(n: Node, a: Action)
    requires Duplex.Enabled(n, a)
    ensures var h, h' := n.hop, Duplex.Apply(n, a).hop;
      h'.inbound.kind == h.inbound.kind && h'.outbound.kind == h.outbound.kind
  {
    if CopierStep(a) {
      CopierStepFrame(n, a);
    }
  }

  lemma {:induction false} RunKeepsKinds(c: Chain, es: seq<Event>, i: nat)
    requires WellFormed(c) && ValidRun(c, es) && i < |c.hops|
    ensures var c' := Final(c, es);
      && c'.hops[i].inbound.kind == c.hops[i].inbound.kind
      && c'.hops[i].outbound.kind == c.hops[i].outbound.kind
    decreases |es|
  {
    if es != [] {
      if es[0].AtHop? {
        hide Duplex.Enabled, Duplex.Apply;
        StepKeepsKinds(NodeAt(c, es[0].index), es[0].a);
      }
      RunKeepsKinds(Apply(c, es[0]), es[1..], i);
    }
  }

  /** A duplex can hurt one of its own directions before the timeout if and only if a connection fully closes. */
  lemma HarmIffFullClose(kinds: (CloseKind, CloseKind))
    ensures (exists es, d :: HarmingRun(kinds, es, d)) <==> kinds.0.FullClose? || kinds.1.FullClose?
  {
    if kinds.0.FullClose? {
      var es := FullCloseRun(kinds, Down);
      assert HarmingRun(kinds, es, Up);
    } else if kinds.1.FullClose? {
      var es := FullCloseRun(kinds, Up);
      assert HarmingRun(kinds, es, Down);
    } else {
      forall es, d | ValidRun(Init([kinds]), es) ensures !HarmingRun(kinds, es, d) {
        NoFullCloseNoHarm(kinds, es, d);
      }
    }
  }

  /** Hop 0 has success for a direction, posted or not, while the peer has not been told that the direction ended. */
  ghost predicate SilentSuccess(c: Chain, d: Dir) {
    && |c.hops| == 1 && WellFormed(c)
    && HasResult(CopierOf(c.hops[0], d).phase, Ok)
    && !Target(NodeAt(c, 0), d).fin
  }

  ghost predicate SilentRun(kinds: (CloseKind, CloseKind), es: seq<Event>, d: Dir) {
    ValidRun(Init([kinds]), es) && SilentSuccess(Final(Init([kinds]), es), d)
  }

  lemma NoCloseRun(kinds: (CloseKind, CloseKind), d: Dir) returns (es: seq<Event>)
    requires (if d.Up? then kinds.1 else kinds.0).NoClose?
    ensures ValidRun(Init([kinds]), es) && SilentSuccess(Final(Init([kinds]), es), d)
  {
    var c0 := Init([kinds]);
    var e0, e1, e2 := EndFin(d), AtHop(0, CopyEof(d)), AtHop(0, Finish(d, Ok));
    var c1 := Apply(c0, e0);
    var c2 := Apply(c1, e1);
    var c3 := Apply(c2, e2);
    assert ValidRun(c3, []) && Final(c3, []) == c3;
    RunCons(c2, e2, []);
    RunCons(c1, e1, [e2] + []);
    RunCons(c0, e0, [e1] + ([e2] + []));
    es := [e0] + ([e1] + ([e2] + []));
  }

  /** A success comes with a FIN for every run, if and only if the written connection has some CloseWrite. */
  lemma FinPrecedesSuccessIff(kinds: (CloseKind, CloseKind), d: Dir)
    ensures (forall es :: !SilentRun(kinds, es, d)) <==> !(if d.Up? then kinds.1 else kinds.0).NoClose?
  {
    if (if d.Up? then kinds.1 else kinds.0).NoClose? {
      var es := NoCloseRun(kinds, d);
      assert SilentRun(kinds, es, d);
    } else {
      forall es | ValidRun(Init([kinds]), es) ensures !SilentRun(kinds, es, d) {
        ReachedNode(kinds, es);
        var n := NodeAt(Final(Init([kinds]), es), 0);
        hide Init, ValidRun, Final, HopInv, Unharmed;
        assert FinSent(n, d);
      }
    }
  }

  // ----- A clean EOF is no proof of completeness -----

  ghost predicate ValidNodeRun(n: Node, acts: seq<Action>)
    decreases |acts|
  {
    acts == [] || (Duplex.Enabled(n, acts[0]) && ValidNodeRun(Duplex.Apply(n, acts[0]), acts[1..]))
  }

  ghost function FinalNode(n: Node, acts: seq<Action>): Node
    requires ValidNodeRun(n, acts)
    decreases |acts|
  {
    if acts == [] then n else FinalNode(Duplex.Apply(n, acts[0]), acts[1..])
  }

  function AllAt(i: nat, acts: seq<Action>): seq<Event> {
    if acts == [] then [] else [AtHop(i, acts[0])] + AllAt(i, acts[1..])
  }

  /** What one hop can do by itself it can do inside a chain. */
  lemma {:induction false} HopRun(c: Chain, i: nat, acts: seq<Action>)
    requires WellFormed(c) && i < |c.hops| && ValidNodeRun(NodeAt(c, i), acts)
    ensures ValidRun(c, AllAt(i, acts))
    ensures Final(c, AllAt(i, acts)) == WithNode(c, i, FinalNode(NodeAt(c, i), acts))
    decreases |acts|
  {
    hide Duplex.Enabled, Duplex.Apply;
    if acts == [] {
      assert WithNode(c, i, NodeAt(c, i)) == c;
    } else {
      var e := AtHop(i, acts[0]);
      var n := Duplex.Apply(NodeAt(c, i), acts[0]);
      var c' := Apply(c, e);
      assert NodeAt(c', i) == n;
      HopRun(c', i, acts[1..]);
      RunCons(c, e, AllAt(i, acts[1..]));
      assert WithNode(c', i, FinalNode(n, acts[1..])) == WithNode(c, i, FinalNode(n, acts[1..]));
    }
  }

  lemma NodeRunCons(n: Node, a: Action, acts: seq<Action>)
    requires Duplex.Enabled(n, a) && ValidNodeRun(Duplex.Apply(n, a), acts)
    ensures ValidNodeRun(n, [a] + acts) && FinalNode(n, [a] + acts) == FinalNode(Duplex.Apply(n, a), acts)
  {
    assert ([a] + acts)[0] == a && ([a] + acts)[1..] == acts;
  }

  /** The four calls of forceClose put a FIN behind whatever is on the outgoing wires. */
  lemma ForceFour(n: Node, d: Dir) returns (acts: seq<Action>)
    requires n.hop.ctl.main.Forcing? && n.hop.ctl.main.step == 0
    ensures ValidNodeRun(n, acts) && Target(FinalNode(n, acts), d) == Target(n, d).(fin := true)
  {
    var n1 := Duplex.Apply(n, Force);
    var n2 := Duplex.Apply(n1, Force);
    var n3 := Duplex.Apply(n2, Force);
    var n4 := Duplex.Apply(n3, Force);
    assert Target(n4, d) == Target(n, d).(fin := true);
    assert ValidNodeRun(n4, []) && FinalNode(n4, []) == n4;
    hide Duplex.Apply;
    acts := [];
    NodeRunCons(n3, Force, acts);
    acts := [Force] + acts;
    NodeRunCons(n2, Force, acts);
    acts := [Force] + acts;
    NodeRunCons(n1, Force, acts);
    acts := [Force] + acts;
    NodeRunCons(n, Force, acts);
    acts := [Force] + acts;
  }

  /** A fresh duplex whose copy fails force-closes both connections. */
  lemma FailRun(n: Node, d: Dir) returns (acts: seq<Action>)
    requires n.hop == Fresh(n.hop.inbound.kind, n.hop.outbound.kind)
    ensures ValidNodeRun(n, acts) && Target(FinalNode(n, acts), d) == Target(n, d).(fin := true)
  {
    var n1 := Duplex.Apply(n, Fault(d, 0));
    var n2 := Duplex.Apply(n1, Send(d));
    assert n2.hop.ctl.results == [Fail(CopyErr(0))];
    var n3 := Duplex.Apply(n2, Receive);
    assert Target(n3, d) == Target(n, d);
    acts := ForceFour(n3, d);
    hide Duplex.Apply;
    NodeRunCons(n2, Receive, acts);
    acts := [Receive] + acts;
    NodeRunCons(n1, Send(d), acts);
    acts := [Send(d)] + acts;
    NodeRunCons(n, Fault(d, 0), acts);
    acts := [Fault(d, 0)] + acts;
  }

  lemma {:induction false} RunAppend(c: Chain, xs: seq<Event>, ys: seq<Event>)
    requires WellFormed(c) && ValidRun(c, xs) && ValidRun(Final(c, xs), ys)
    ensures ValidRun(c, xs + ys) && Final(c, xs + ys) == Final(Final(c, xs), ys)
    decreases |xs|
  {
    hide Apply, Enabled;
    if xs == [] {
      assert xs + ys == ys;
    } else {
      RunAppend(Apply(c, xs[0]), xs[1..], ys);
      assert xs + ys == [xs[0]] + (xs[1..] + ys);
      RunCons(c, xs[0], xs[1..] + ys);
    }
  }

  /** The receiver of direction d saw EOF although something sent is missing. */
  ghost predicate Truncated(c: Chain, d: Dir) {
    EndsOf(c, d).sinkEof && EndsOf(c, d).delivered != EndsOf(c, d).sent
  }

  ghost predicate TruncatingRun(kinds: seq<(CloseKind, CloseKind)>, es: seq<Event>, d: Dir) {
    ValidRun(Init(kinds), es) && Truncated(Final(Init(kinds), es), d)
  }

  /** A byte is sent; the hop next to the receiver fails and force-closes; the receiver sees an ordinary EOF. */
  lemma TruncateRun(kinds: seq<(CloseKind, CloseKind)>, d: Dir) returns (es: seq<Event>)
    requires kinds != []
    ensures TruncatingRun(kinds, es, d)
  {
    var c0, k := Init(kinds), if d.Up? then |kinds| - 1 else 0;
    var c1 := Apply(c0, EndSend(d, [7]));
    var acts := FailRun(NodeAt(c1, k), d);
    HopRun(c1, k, acts);
    hide Duplex.Apply, Duplex.Enabled;
    var n := FinalNode(NodeAt(c1, k), acts);
    var c2 := WithNode(c1, k, n);
    assert Target(NodeAt(c1, k), d) == P.Wire([], false);
    assert WireOf(c2.links[LastLink(c2, d)], d) == Target(n, d) == P.Wire([], true);
    var c3 := Apply(c2, EndEof(d));
    assert ValidRun(c3, []) && Final(c3, []) == c3;
    RunCons(c2, EndEof(d), []);
    RunAppend(c1, AllAt(k, acts), [EndEof(d)] + []);
    es := [EndSend(d, [7])] + (AllAt(k, acts) + ([EndEof(d)] + []));
    RunCons(c0, EndSend(d, [7]), AllAt(k, acts) + ([EndEof(d)] + []));
  }

  /**
  A clean EOF at the far end proves completeness in every run, of either direction, if and only
  if there is no duplex in between: any chain of one or more can truncate silently.
  */
  lemma TruncationIff(kinds: seq<(CloseKind, CloseKind)>, d: Dir)
    ensures (exists es :: TruncatingRun(kinds, es, d)) <==> kinds != []
  {
    if kinds != [] {
      var es := TruncateRun(kinds, d);
      assert TruncatingRun(kinds, es, d);
    } else {
      forall es | ValidRun(Init(kinds), es) ensures !TruncatingRun(kinds, es, d) {
        AllEofMeansComplete(kinds, es, d);
      }
    }
  }
}
