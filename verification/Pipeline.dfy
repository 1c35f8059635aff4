/**
One direction of a chain of copiers, from a source to a sink.

Between the source, the copiers and the sink lie wires. A copier ("stage") takes bytes off
the wire in front of it, holds them for a while and puts them on the wire behind it. This is
the simple form that the full chain of duplexes refines, once per direction.
*/
module Pipeline {
  import opened Bytes

  /** Active: io.Copy is running; AtEof: io.Copy returned nil; Broken: io.Copy returned an error. */
  datatype Status = Active | AtEof | Broken

  /** `ahead` was taken off the wire but not yet read by the copier; `buf` was read but not yet written. */
  datatype Stage = Stage(ahead: seq<byte>, buf: seq<byte>, status: Status)

  /** `fin` means that the writing end is closed: nothing more will ever be put on the wire. */
  datatype Wire = Wire(queue: seq<byte>, fin: bool)

  /** A stage together with the wire it reads from and the wire it writes to. */
  datatype Lane = Lane(src: Wire, stage: Stage, dst: Wire)

  datatype Move =
    | Stay
    | Fill(count: nat)
    | Read(count: nat)
    | Write(count: nat)
    | SeeEof
    | Break
    | CloseOut

  datatype Line = Line(
    sent: seq<byte>, wires: seq<Wire>, stages: seq<Stage>, delivered: seq<byte>, sinkEof: bool)

  datatype Event =
    | SourceSend(data: seq<byte>)
    | SourceFin
    | SinkReceive(count: nat)
    | SinkEof
    | At(index: nat, move: Move)

  predicate CanMove(l: Lane, m: Move) {
    match m
    case Stay => true
    case Fill(k) => l.stage.status.Active? && 0 < k <= |l.src.queue|
    case Read(k) => l.stage.status.Active? && l.stage.buf == [] && 0 < k <= |l.stage.ahead|
    case Write(k) => l.stage.status.Active? && 0 < k <= |l.stage.buf| && !l.dst.fin
    case SeeEof =>
      && l.stage.status.Active?
      && l.stage.buf == [] && l.stage.ahead == [] && l.src.queue == [] && l.src.fin
    case Break => l.stage.status.Active?
    case CloseOut => true
  }

  function Moved(l: Lane, m: Move): Lane
    requires CanMove(l, m)
  {
    match m
    case Stay => l
    case Fill(k) =>
      Lane(l.src.(queue := l.src.queue[k..]), l.stage.(ahead := l.stage.ahead + l.src.queue[..k]), l.dst)
    case Read(k) =>
      l.(stage := l.stage.(ahead := l.stage.ahead[k..], buf := l.stage.ahead[..k]))
    case Write(k) =>
      l.(stage := l.stage.(buf := l.stage.buf[k..]), dst := l.dst.(queue := l.dst.queue + l.stage.buf[..k]))
    case SeeEof => l.(stage := l.stage.(status := AtEof))
    case Break => l.(stage := l.stage.(status := Broken))
    case CloseOut => l.(dst := l.dst.(fin := true))
  }

  ghost predicate WellFormed(p: Line) {
    |p.wires| == |p.stages| + 1
  }

  function LaneAt(p: Line, i: nat): Lane
    requires WellFormed(p) && i < |p.stages|
  {
    Lane(p.wires[i], p.stages[i], p.wires[i + 1])
  }

  function WithLane(p: Line, i: nat, l: Lane): Line
    requires WellFormed(p) && i < |p.stages|
  {
    p.(stages := p.stages[i := l.stage], wires := p.wires[i := l.src][i + 1 := l.dst])
  }

  ghost predicate Enabled(p: Line, e: Event)
    requires WellFormed(p)
  {
    var last := p.wires[|p.stages|];
    match e
    case SourceSend(data) => !p.wires[0].fin
    case SourceFin => true
    case SinkReceive(k) => 0 < k <= |last.queue|
    case SinkEof => last.queue == [] && last.fin
    case At(i, m) => i < |p.stages| && CanMove(LaneAt(p, i), m)
  }

  ghost function Apply(p: Line, e: Event): Line
    requires WellFormed(p) && Enabled(p, e)
  {
    var n := |p.stages|;
    match e
    case SourceSend(data) =>
      p.(sent := p.sent + data, wires := p.wires[0 := p.wires[0].(queue := p.wires[0].queue + data)])
    case SourceFin => p.(wires := p.wires[0 := p.wires[0].(fin := true)])
    case SinkReceive(k) =>
      p.(delivered := p.delivered + p.wires[n].queue[..k],
         wires := p.wires[n := p.wires[n].(queue := p.wires[n].queue[k..])])
    case SinkEof => p.(sinkEof := true)
    case At(i, m) => WithLane(p, i, Moved(LaneAt(p, i), m))
  }

  /** The bytes a stage holds, oldest first. */
  function Held(s: Stage): seq<byte> {
    s.buf + s.ahead
  }

  /** Everything in flight behind the first wire, oldest (closest to the sink) first. */
  ghost function Beyond(stages: seq<Stage>, wires: seq<Wire>): seq<byte>
    requires |wires| == |stages| + 1
  {
    if stages == [] then [] else Beyond(stages[1..], wires[1..]) + wires[1].queue + Held(stages[0])
  }

  /** Everything sent and not yet delivered, hop by hop, oldest first. */
  ghost function InFlight(p: Line): seq<byte>
    requires WellFormed(p)
  {
    Beyond(p.stages, p.wires) + p.wires[0].queue
  }

  /** A stage that saw EOF left nothing in front of it, and nothing can arrive there any more. */
  ghost predicate EofSettled(p: Line)
    requires WellFormed(p)
  {
    forall i :: 0 <= i < |p.stages| && p.stages[i].status.AtEof? ==>
      && Held(p.stages[i]) == []
      && p.wires[i] == Wire([], true)
  }

  ghost predicate Inv(p: Line) {
    && WellFormed(p)
    && p.sent == p.delivered + InFlight(p)
    && EofSettled(p)
    && (p.sinkEof ==> p.wires[|p.stages|] == Wire([], true))
  }

  /** What a move keeps: the lane's bytes in order, and that a closed wire gains nothing. */
  lemma MovedKeepsBytes(l: Lane, m: Move)
    requires CanMove(l, m)
    ensures
      var l' := Moved(l, m);
      l'.dst.queue + Held(l'.stage) + l'.src.queue == l.dst.queue + Held(l.stage) + l.src.queue
  {
    match m
    case Fill(k) =>
      assert l.src.queue == l.src.queue[..k] + l.src.queue[k..];
    case Read(k) =>
      assert l.stage.ahead == l.stage.ahead[..k] + l.stage.ahead[k..];
    case Write(k) =>
      assert l.stage.buf == l.stage.buf[..k] + l.stage.buf[k..];
    case _ =>
  }

  /** Rearranging bytes inside one lane does not change what is in flight overall. */
  lemma {:induction false} LaneKeepsFlight(stages: seq<Stage>, wires: seq<Wire>, i: nat, l: Lane)
    requires |wires| == |stages| + 1 && i < |stages|
    requires l.dst.queue + Held(l.stage) + l.src.queue
          == wires[i + 1].queue + Held(stages[i]) + wires[i].queue
    ensures
      var wires' := wires[i := l.src][i + 1 := l.dst];
      Beyond(stages[i := l.stage], wires') + wires'[0].queue == Beyond(stages, wires) + wires[0].queue
    decreases i
  {
    var stages', wires' := stages[i := l.stage], wires[i := l.src][i + 1 := l.dst];
    if i == 0 {
      BeyondIgnoresFirst(stages[1..], wires[1..], wires'[1..]);
      assert stages'[1..] == stages[1..];
      var b := Beyond(stages[1..], wires[1..]);
      calc {
        Beyond(stages', wires') + wires'[0].queue;
        b + l.dst.queue + Held(l.stage) + l.src.queue;
        b + (l.dst.queue + Held(l.stage) + l.src.queue);
        b + (wires[1].queue + Held(stages[0]) + wires[0].queue);
        Beyond(stages, wires) + wires[0].queue;
      }
    } else {
      LaneKeepsFlight(stages[1..], wires[1..], i - 1, l);
      assert stages'[1..] == stages[1..][i - 1 := l.stage];
      assert wires'[1..] == wires[1..][i - 1 := l.src][i := l.dst];
      assert stages'[0] == stages[0] && wires'[0] == wires[0];
    }
  }

  lemma {:induction false} BeyondIgnoresFirst(stages: seq<Stage>, wires: seq<Wire>, wires': seq<Wire>)
    requires |wires| == |stages| + 1 == |wires'|
    requires wires[1..] == wires'[1..]
    ensures Beyond(stages, wires) == Beyond(stages, wires')
  {
    if stages != [] {
      assert wires[1] == wires[1..][0] == wires'[1];
    }
  }

  /** Taking bytes off the last wire takes them off the old end of what is in flight. */
  lemma {:induction false} LastWireIsOldest(stages: seq<Stage>, wires: seq<Wire>, k: nat)
    requires |wires| == |stages| + 1
    requires k <= |wires[|stages|].queue|
    ensures
      var last := wires[|stages|];
      var wires' := wires[|stages| := last.(queue := last.queue[k..])];
      Beyond(stages, wires) + wires[0].queue == last.queue[..k] + (Beyond(stages, wires') + wires'[0].queue)
    decreases |stages|
  {
    var last := wires[|stages|];
    var wires' := wires[|stages| := last.(queue := last.queue[k..])];
    if stages == [] {
      assert last.queue == last.queue[..k] + last.queue[k..];
    } else {
      LastWireIsOldest(stages[1..], wires[1..], k);
      assert wires'[1..] == wires[1..][|stages| - 1 := last.(queue := last.queue[k..])];
      var head := last.queue[..k];
      var tail := Held(stages[0]) + wires[0].queue;
      calc {
        Beyond(stages, wires) + wires[0].queue;
        (Beyond(stages[1..], wires[1..]) + wires[1].queue) + tail;
        (head + (Beyond(stages[1..], wires'[1..]) + wires'[1].queue)) + tail;
        head + (Beyond(stages, wires') + wires'[0].queue);
      }
    }
  }

  lemma LaneMoveKeepsEof(p: Line, i: nat, m: Move)
    requires WellFormed(p) && i < |p.stages| && CanMove(LaneAt(p, i), m) && EofSettled(p)
    ensures EofSettled(WithLane(p, i, Moved(LaneAt(p, i), m)))
  {
    var p' := WithLane(p, i, Moved(LaneAt(p, i), m));
    forall j | 0 <= j < |p'.stages| && p'.stages[j].status.AtEof?
      ensures Held(p'.stages[j]) == [] && p'.wires[j] == Wire([], true)
    {
      if j == i + 1 {
        assert p.wires[i + 1] == Wire([], true);
      }
    }
  }

  lemma LaneMoveKeepsInv(p: Line, i: nat, m: Move)
    requires Inv(p) && i < |p.stages| && CanMove(LaneAt(p, i), m)
    ensures Inv(WithLane(p, i, Moved(LaneAt(p, i), m)))
  {
    var l := LaneAt(p, i);
    MovedKeepsBytes(l, m);
    LaneKeepsFlight(p.stages, p.wires, i, Moved(l, m));
    LaneMoveKeepsEof(p, i, m);
    hide Moved, Beyond, EofSettled;
  }

  lemma SourceStepKeepsInv(p: Line, w: Wire, data: seq<byte>)
    requires Inv(p) && w.queue == p.wires[0].queue + data
    requires p.wires[0].fin ==> w == p.wires[0]
    ensures Inv(p.(sent := p.sent + data, wires := p.wires[0 := w]))
  {
    var p' := p.(sent := p.sent + data, wires := p.wires[0 := w]);
    BeyondIgnoresFirst(p.stages, p.wires, p'.wires);
    hide Beyond;
    assert p'.sent == p'.delivered + InFlight(p');
  }

  lemma SinkReceiveKeepsInv(p: Line, k: nat)
    requires Inv(p) && Enabled(p, SinkReceive(k))
    ensures Inv(Apply(p, SinkReceive(k)))
  {
    var p' := Apply(p, SinkReceive(k));
    LastWireIsOldest(p.stages, p.wires, k);
    hide Beyond;
    assert p'.sent == p'.delivered + InFlight(p');
  }

  lemma SinkEofKeepsInv(p: Line)
    requires Inv(p) && Enabled(p, SinkEof)
    ensures Inv(Apply(p, SinkEof))
  {
    hide Beyond;
  }

  /** Every event keeps conservation and the meaning of EOF. */
  lemma StepKeepsInv(p: Line, e: Event)
    requires Inv(p) && Enabled(p, e)
    ensures Inv(Apply(p, e))
  {
    hide Moved, Beyond, EofSettled;
    match e
    case SourceSend(data) => SourceStepKeepsInv(p, p.wires[0].(queue := p.wires[0].queue + data), data);
    case SourceFin =>
      SourceStepKeepsInv(p, p.wires[0].(fin := true), []);
      assert p.sent + [] == p.sent;
    case SinkReceive(k) => SinkReceiveKeepsInv(p, k);
    case SinkEof => SinkEofKeepsInv(p);
    case At(i, m) => LaneMoveKeepsInv(p, i, m);
  }

  /** Delivery is always an in-order prefix of what was sent. */
  lemma DeliveredIsPrefix(p: Line)
    requires Inv(p)
    ensures p.delivered <= p.sent
    ensures p.sent[|p.delivered|..] == InFlight(p)
  {
  }

  lemma {:induction false} NothingBeyond(stages: seq<Stage>, wires: seq<Wire>)
    requires |wires| == |stages| + 1
    requires forall i :: 0 <= i < |stages| ==> Held(stages[i]) == [] && wires[i] == Wire([], true)
    ensures Beyond(stages, wires) + wires[0].queue == wires[|stages|].queue
  {
    if stages != [] {
      NothingBeyond(stages[1..], wires[1..]);
    }
  }

  /** If every copier reached EOF, only the last wire can still hold bytes. */
  lemma AllEofDeliversAll(p: Line)
    requires Inv(p)
    requires forall i :: 0 <= i < |p.stages| ==> p.stages[i].status.AtEof?
    ensures p.sent == p.delivered + p.wires[|p.stages|].queue
    ensures p.sinkEof ==> p.delivered == p.sent
  {
    NothingBeyond(p.stages, p.wires);
  }
}
