/**
One `Duplex.Run`: the calling goroutine, two copier goroutines, the results channel of
capacity 2, the drain timer, cancellation, the deferred force-close and the deferred join.

A duplex sits between two links. It reads and writes the wires of both. Every action below is
one channel operation, one call on a connection, or one thing that the outside world does.
*/
module Duplex {
  import opened Bytes
  import opened Pipeline

  /** Up copies inbound to outbound, Down copies outbound to inbound. */
  datatype Dir = Up | Down

  /** What CloseWrite does to a connection: send a FIN, close it entirely, or nothing at all. */
  datatype CloseKind = HalfClose | FullClose | NoClose

  datatype Err = CopyErr(code: nat) | CtxErr | DrainTimeout
  datatype Result = Ok | Fail(err: Err)

  datatype Phase = Copying | Closing | Sending(r: Result) | Done(r: Result)

  /** `eof` records that io.Copy returned nil. */
  datatype Copier = Copier(ahead: seq<byte>, buf: seq<byte>, phase: Phase, eof: bool)

  /** `past`: its deadline was moved to the past; `closed`: Close was called on it. */
  datatype Conn = Conn(kind: CloseKind, past: bool, closed: bool)

  datatype Main = Looping | Forcing(ret: Result, step: nat) | Joining(ret: Result) | Returned(ret: Result)

  /**
  The calling goroutine and its channel. `received` lists every result taken from the channel,
  the first `looped` of them inside the select loop; `armed` counts timer creations.
  */
  datatype Control = Control(
    results: seq<Result>, main: Main, remaining: nat, timer: bool,
    received: seq<Result>, looped: nat, armed: nat, cancelled: bool)

  /** `fault`: something outside this duplex made a read, a write or a CloseWrite fail. */
  datatype Hop = Hop(up: Copier, down: Copier, inbound: Conn, outbound: Conn, ctl: Control, fault: bool)

  /** The two wires between neighbours: `up` carries bytes away from the browser, `down` towards it. */
  datatype Link = Link(up: Wire, down: Wire)

  /** A duplex with the two links it sits between. */
  datatype Node = Node(left: Link, hop: Hop, right: Link)

  datatype Action =
    | Take(d: Dir, count: nat)              // bytes move from the wire into the connection's reader
    | CopyRead(d: Dir, count: nat)          // io.Copy reads a chunk
    | CopyWrite(d: Dir, count: nat)         // io.Copy writes (part of) the chunk
    | CopyEof(d: Dir)                       // io.Copy reads EOF and returns nil
    | Cut(d: Dir, code: nat)                // a read or write fails because of this duplex's own closes
    | Fault(d: Dir, code: nat)              // a read or write fails for an outside reason
    | Finish(d: Dir, r: Result)             // CloseWrite returns
    | Send(d: Dir)                          // results <- err
    | Cancel                                // the context is cancelled
    | Receive                               // the select loop takes a result
    | SeeCancel                             // the select loop takes ctx.Done
    | SeeTimeout                            // the select loop takes the timer
    | Force                                 // the next of the four calls of forceClose
    | JoinReceive                           // the deferred loop takes a result
    | Return                                // the deferred loop is over

  const RESULTS_CAPACITY := 2

  function CopierOf(h: Hop, d: Dir): Copier {
    if d.Up? then h.up else h.down
  }

  function WithCopier(h: Hop, d: Dir, c: Copier): Hop {
    if d.Up? then h.(up := c) else h.(down := c)
  }

  /** The connection a direction reads from. */
  function SourceConn(h: Hop, d: Dir): Conn {
    if d.Up? then h.inbound else h.outbound
  }

  /** The connection a direction writes to. */
  function TargetConn(h: Hop, d: Dir): Conn {
    if d.Up? then h.outbound else h.inbound
  }

  function WithTargetConn(h: Hop, d: Dir, c: Conn): Hop {
    if d.Up? then h.(outbound := c) else h.(inbound := c)
  }

  function Source(n: Node, d: Dir): Wire {
    if d.Up? then n.left.up else n.right.down
  }

  function Target(n: Node, d: Dir): Wire {
    if d.Up? then n.right.up else n.left.down
  }

  function WithSource(n: Node, d: Dir, w: Wire): Node {
    if d.Up? then n.(left := n.left.(up := w)) else n.(right := n.right.(down := w))
  }

  function WithTarget(n: Node, d: Dir, w: Wire): Node {
    if d.Up? then n.(right := n.right.(up := w)) else n.(left := n.left.(down := w))
  }

  function Fresh(inKind: CloseKind, outKind: CloseKind): Hop {
    var c := Copier([], [], Copying, false);
    Hop(c, c, Conn(inKind, false, false), Conn(outKind, false, false),
        Control([], Looping, 2, false, [], 0, 0, false), false)
  }

  /** A read fails by our own doing when the source's deadline passed or it was closed. */
  predicate ReadCut(n: Node, d: Dir) {
    var c := CopierOf(n.hop, d);
    c.buf == [] && c.ahead == [] && (SourceConn(n.hop, d).past || SourceConn(n.hop, d).closed)
  }

  /** A write fails by our own doing when the target's deadline passed or its write side was closed. */
  predicate WriteCut(n: Node, d: Dir) {
    CopierOf(n.hop, d).buf != []
    && (TargetConn(n.hop, d).past || TargetConn(n.hop, d).closed || Target(n, d).fin)
  }

  /** Steps of a copier goroutine inside io.Copy and CloseWrite. */
  predicate CopierStep(a: Action) {
    a.Take? || a.CopyRead? || a.CopyWrite? || a.CopyEof? || a.Cut? || a.Fault? || a.Finish?
  }

  predicate CopierEnabled(n: Node, a: Action)
    requires CopierStep(a)
  {
    var c := CopierOf(n.hop, a.d);
    match a
    case Take(d, k) => c.phase.Copying? && 0 < k <= |Source(n, d).queue|
    case CopyRead(d, k) => c.phase.Copying? && c.buf == [] && 0 < k <= |c.ahead|
    case CopyWrite(d, k) =>
      c.phase.Copying? && 0 < k <= |c.buf| && !TargetConn(n.hop, d).closed && !Target(n, d).fin
    case CopyEof(d) =>
      c.phase.Copying? && c.buf == [] && c.ahead == [] && Source(n, d).queue == [] && Source(n, d).fin
    case Cut(d, _) => c.phase.Copying? && (ReadCut(n, d) || WriteCut(n, d))
    case Fault(d, _) => c.phase.Copying?
    case Finish(d, r) => c.phase.Closing? && (r.Ok? || r.err.CopyErr?)
  }

  /** Steps that touch the calling goroutine or its channel, except those of forceClose. */
  predicate ControlEnabled(c: Control, a: Action)
    requires !CopierStep(a) && !a.Send? && !a.Force?
  {
    match a
    case Cancel => true
    case Receive => c.main.Looping? && c.remaining > 0 && c.results != []
    case SeeCancel => c.main.Looping? && c.remaining > 0 && c.cancelled
    case SeeTimeout => c.main.Looping? && c.remaining > 0 && c.timer
    case JoinReceive => c.main.Joining? && c.remaining > 0 && c.results != []
    case Return => c.main.Joining? && c.remaining == 0
  }

  predicate Enabled(n: Node, a: Action) {
    if CopierStep(a) then CopierEnabled(n, a)
    else if a.Send? then CopierOf(n.hop, a.d).phase.Sending? && |n.hop.ctl.results| < RESULTS_CAPACITY
    else if a.Force? then n.hop.ctl.main.Forcing? && n.hop.ctl.main.step < 4
    else ControlEnabled(n.hop.ctl, a)
  }

  /** Close the connection that direction `d` writes to: its outgoing wire gets a FIN. */
  function CloseTarget(n: Node, d: Dir): Node {
    var n' := WithTarget(n, d, Target(n, d).(fin := true));
    n'.(hop := WithTargetConn(n.hop, d, TargetConn(n.hop, d).(closed := true)))
  }

  /** The effect of CloseWrite on the connection that direction `d` writes to. */
  function CloseWrite(n: Node, d: Dir, r: Result): Node {
    match TargetConn(n.hop, d).kind
    case HalfClose => if r.Ok? then WithTarget(n, d, Target(n, d).(fin := true)) else n
    case FullClose => CloseTarget(n, d)
    case NoClose => n
  }

  function SetCopier(n: Node, d: Dir, c: Copier): Node {
    n.(hop := WithCopier(n.hop, d, c))
  }

  function CopierApply(n: Node, a: Action): Node
    requires CopierStep(a) && CopierEnabled(n, a)
  {
    var c := CopierOf(n.hop, a.d);
    match a
    case Take(d, k) =>
      var w := Source(n, d);
      SetCopier(WithSource(n, d, w.(queue := w.queue[k..])), d, c.(ahead := c.ahead + w.queue[..k]))
    case CopyRead(d, k) => SetCopier(n, d, c.(ahead := c.ahead[k..], buf := c.ahead[..k]))
    case CopyWrite(d, k) =>
      var w := Target(n, d);
      SetCopier(WithTarget(n, d, w.(queue := w.queue + c.buf[..k])), d, c.(buf := c.buf[k..]))
    case CopyEof(d) => SetCopier(n, d, c.(phase := Closing, eof := true))
    case Cut(d, code) => SetCopier(n, d, c.(phase := Sending(Fail(CopyErr(code)))))
    case Fault(d, code) =>
      SetCopier(n.(hop := n.hop.(fault := true)), d, c.(phase := Sending(Fail(CopyErr(code)))))
    case Finish(d, r) =>
      var n' := SetCopier(CloseWrite(n, d, r), d, c.(phase := Sending(r)));
      n'.(hop := n'.hop.(fault := n'.hop.fault || r.Fail?))
  }

  /** results <- err */
  function Post(h: Hop, d: Dir): Hop
    requires CopierOf(h, d).phase.Sending?
  {
    var c := CopierOf(h, d);
    WithCopier(h, d, c.(phase := Done(c.phase.r))).(ctl := h.ctl.(results := h.ctl.results + [c.phase.r]))
  }

  /** The select loop's first case: count the result, stop on an error, arm the timer on the first success. */
  function LoopReceive(c: Control): Control
    requires c.results != [] && c.remaining > 0
  {
    var r := c.results[0];
    var c' := c.(results := c.results[1..], received := c.received + [r],
                 looped := c.looped + 1, remaining := c.remaining - 1);
    if r.Fail? then c'.(main := Forcing(r, 0))
    else if c'.remaining > 0 then c'.(timer := true, armed := c'.armed + 1)
    else c'.(main := Forcing(Ok, 0))
  }

  function ControlApply(c: Control, a: Action): Control
    requires !CopierStep(a) && !a.Send? && !a.Force? && ControlEnabled(c, a)
  {
    match a
    case Cancel => c.(cancelled := true)
    case Receive => LoopReceive(c)
    case SeeCancel => c.(main := Forcing(Fail(CtxErr), 0))
    case SeeTimeout => c.(main := Forcing(Fail(DrainTimeout), 0))
    case JoinReceive =>
      c.(results := c.results[1..], received := c.received + [c.results[0]], remaining := c.remaining - 1)
    case Return => c.(main := Returned(c.main.ret))
  }

  /** forceClose: both deadlines first, then both closes. */
  function ForceStep(n: Node): Node
    requires n.hop.ctl.main.Forcing? && n.hop.ctl.main.step < 4
  {
    var m := n.hop.ctl.main;
    var next := if m.step == 3 then Joining(m.ret) else Forcing(m.ret, m.step + 1);
    var h := n.hop.(ctl := n.hop.ctl.(main := next));
    if m.step == 0 then n.(hop := h.(inbound := h.inbound.(past := true)))
    else if m.step == 1 then n.(hop := h.(outbound := h.outbound.(past := true)))
    else if m.step == 2 then CloseTarget(n.(hop := h), Down)
    else CloseTarget(n.(hop := h), Up)
  }

  function Apply(n: Node, a: Action): Node
    requires Enabled(n, a)
  {
    if CopierStep(a) then CopierApply(n, a)
    else if a.Send? then n.(hop := Post(n.hop, a.d))
    else if a.Force? then ForceStep(n)
    else n.(hop := n.hop.(ctl := ControlApply(n.hop.ctl, a)))
  }

  // ----- What every step of one duplex keeps -----

  predicate CopierInv(c: Copier) {
    && (c.phase.Closing? ==> c.eof)
    && (c.phase.Copying? ==> !c.eof)
    && (c.eof ==> c.buf == [] && c.ahead == [])
    && ((c.phase.Sending? || c.phase.Done?) ==>
          (c.phase.r.Ok? ==> c.eof) && (c.phase.r.Fail? ==> c.phase.r.err.CopyErr?))
  }

  /** How many of the four calls of forceClose have been made. */
  function Forced(m: Main): nat {
    match m
    case Looping => 0
    case Forcing(_, k) => k
    case _ => 4
  }

  predicate ForceInv(m: Main, inbound: Conn, outbound: Conn) {
    && (m.Forcing? ==> m.step < 4)
    && (inbound.past <==> Forced(m) >= 1)
    && (outbound.past <==> Forced(m) >= 2)
    && (Forced(m) >= 3 ==> inbound.closed)
    && (Forced(m) >= 4 ==> outbound.closed)
  }

  /** Why the select loop was left, in terms of the results received inside it. */
  predicate ExitReason(c: Control, ret: Result)
    requires c.looped <= |c.received|
  {
    var seen := c.received[..c.looped];
    match ret
    case Ok => seen == [Ok, Ok]
    case Fail(DrainTimeout) => seen == [Ok] && c.armed == 1
    case Fail(CtxErr) => c.cancelled && (seen == [] || seen == [Ok])
    case Fail(CopyErr(code)) => seen == [ret] || seen == [Ok, ret]
  }

  predicate MainInv(c: Control) {
    && c.looped <= |c.received|
    && c.remaining + |c.received| == 2
    && (c.main.Looping? ==> c.looped == |c.received| && (c.received == [] || c.received == [Ok]))
    && (c.main.Returned? ==> c.remaining == 0)
    && (!c.main.Looping? ==> ExitReason(c, c.main.ret))
    && c.timer == (c.armed == 1)
    && c.armed == (if c.looped > 0 && c.received[0].Ok? then 1 else 0)
  }

  /** Every result posted is either received or still on the channel, in the order of posting. */
  predicate ChannelInv(up: Phase, down: Phase, c: Control) {
    var q := c.received + c.results;
    match (up, down)
    case (Done(u), Done(v)) => q == [u, v] || q == [v, u]
    case (Done(u), _) => q == [u]
    case (_, Done(v)) => q == [v]
    case _ => q == []
  }

  predicate HopInv(h: Hop) {
    && CopierInv(h.up) && CopierInv(h.down)
    && ForceInv(h.ctl.main, h.inbound, h.outbound)
    && MainInv(h.ctl)
    && ChannelInv(h.up.phase, h.down.phase, h.ctl)
  }

  lemma FreshHopInv(inKind: CloseKind, outKind: CloseKind)
    ensures HopInv(Fresh(inKind, outKind))
  {
  }

  /** A copier step leaves the other copier and the calling goroutine alone and never unforces. */
  predicate CopierFrame(h: Hop, h': Hop, d: Dir) {
    && h'.ctl == h.ctl
    && (d.Up? ==> h'.down == h.down) && (d.Down? ==> h'.up == h.up)
    && !CopierOf(h, d).phase.Done? && !CopierOf(h', d).phase.Done?
    && h'.inbound == h.inbound.(closed := h.inbound.closed || h'.inbound.closed)
    && h'.outbound == h.outbound.(closed := h.outbound.closed || h'.outbound.closed)
  }

  lemma CopierStepFrame(n: Node, a: Action)
    requires CopierStep(a) && CopierEnabled(n, a)
    ensures CopierFrame(n.hop, CopierApply(n, a).hop, a.d)
  {
  }

  lemma CopierStepKeepsCopierInv(n: Node, a: Action)
    requires CopierStep(a) && CopierEnabled(n, a) && CopierInv(CopierOf(n.hop, a.d))
    ensures CopierInv(CopierOf(CopierApply(n, a).hop, a.d))
  {
  }

  lemma FrameKeepsHopInv(h: Hop, h': Hop, d: Dir)
    requires HopInv(h) && CopierFrame(h, h', d) && CopierInv(CopierOf(h', d))
    ensures HopInv(h')
  {
  }

  lemma PostKeepsHopInv(h: Hop, d: Dir)
    requires HopInv(h) && CopierOf(h, d).phase.Sending?
    ensures HopInv(Post(h, d))
  {
    var r := CopierOf(h, d).phase.r;
    assert h.ctl.received + (h.ctl.results + [r]) == (h.ctl.received + h.ctl.results) + [r];
  }

  /** Taking the head of the channel keeps the order of posting. */
  lemma TakeKeepsOrder(c: Control)
    requires c.results != []
    ensures (c.received + [c.results[0]]) + c.results[1..] == c.received + c.results
    ensures c.results[0] == (c.received + c.results)[|c.received|]
  {
  }

  predicate PostedCopyErrors(up: Phase, down: Phase) {
    && (up.Done? && up.r.Fail? ==> up.r.err.CopyErr?)
    && (down.Done? && down.r.Fail? ==> down.r.err.CopyErr?)
  }

  lemma ReceiveKeepsMainInv(c: Control)
    requires MainInv(c) && ControlEnabled(c, Receive)
    requires c.results[0].Fail? ==> c.results[0].err.CopyErr?
    ensures MainInv(LoopReceive(c))
  {
    var c' := LoopReceive(c);
    assert c'.received[..c'.looped] == c'.received;
  }

  lemma JoinReceiveKeepsMainInv(c: Control)
    requires MainInv(c) && ControlEnabled(c, JoinReceive)
    ensures MainInv(ControlApply(c, JoinReceive))
  {
    assert (c.received + [c.results[0]])[..c.looped] == c.received[..c.looped];
  }

  lemma OtherControlKeepsMainInv(c: Control, a: Action)
    requires a.Cancel? || a.SeeCancel? || a.SeeTimeout? || a.Return?
    requires MainInv(c) && ControlEnabled(c, a)
    ensures MainInv(ControlApply(c, a))
  {
    assert c.main.Looping? ==> c.received[..c.looped] == c.received;
  }

  lemma ControlKeepsMainInv(up: Phase, down: Phase, c: Control, a: Action)
    requires !CopierStep(a) && !a.Send? && !a.Force? && ControlEnabled(c, a)
    requires MainInv(c) && ChannelInv(up, down, c) && PostedCopyErrors(up, down)
    ensures MainInv(ControlApply(c, a)) && ChannelInv(up, down, ControlApply(c, a))
  {
    if a.Receive? {
      TakeKeepsOrder(c);
      ReceiveKeepsMainInv(c);
    } else if a.JoinReceive? {
      TakeKeepsOrder(c);
      JoinReceiveKeepsMainInv(c);
    } else {
      OtherControlKeepsMainInv(c, a);
    }
  }

  lemma ControlKeepsForceInv(c: Control, inbound: Conn, outbound: Conn, a: Action)
    requires !CopierStep(a) && !a.Send? && !a.Force? && ControlEnabled(c, a)
    requires ForceInv(c.main, inbound, outbound)
    ensures ForceInv(ControlApply(c, a).main, inbound, outbound)
  {
  }

  lemma ForceKeepsHopInv(n: Node)
    requires HopInv(n.hop) && n.hop.ctl.main.Forcing?
    ensures HopInv(ForceStep(n).hop)
  {
    var h, h' := n.hop, ForceStep(n).hop;
    assert h'.up == h.up && h'.down == h.down;
    assert h'.ctl == h.ctl.(main := h'.ctl.main);
    assert ForceInv(h'.ctl.main, h'.inbound, h'.outbound);
    hide ForceStep, ForceInv, CopierInv;
  }

  lemma StepKeepsHopInv(n: Node, a: Action)
    requires HopInv(n.hop) && Enabled(n, a)
    ensures HopInv(Apply(n, a).hop)
  {
    var h := n.hop;
    if CopierStep(a) {
      CopierStepFrame(n, a);
      CopierStepKeepsCopierInv(n, a);
      FrameKeepsHopInv(h, CopierApply(n, a).hop, a.d);
    } else if a.Send? {
      PostKeepsHopInv(h, a.d);
    } else if a.Force? {
      ForceKeepsHopInv(n);
    } else {
      ControlKeepsMainInv(h.up.phase, h.down.phase, h.ctl, a);
      ControlKeepsForceInv(h.ctl, h.inbound, h.outbound, a);
    }
  }

  /** What the select of one turn of the loop takes. */
  datatype Choice = TakeResult(r: Result) | TakeCancel | TakeTimer

  /** The first of the two choices that is no success, if there is one: it decides what Run returns. */
  function Deciding(choices: seq<Choice>): Option<Choice>
    requires |choices| == 2
  {
    if choices[0] != TakeResult(Ok) then Some(choices[0])
    else if choices[1] != TakeResult(Ok) then Some(choices[1])
    else None
  }

  /** The results among the choices, up to and including the deciding one. */
  function TakenResults(choices: seq<Choice>): seq<Result>
    requires |choices| == 2
  {
    if choices[0] == TakeResult(Ok)
    then [Ok] + (if choices[1].TakeResult? then [choices[1].r] else [])
    else if choices[0].TakeResult? then [choices[0].r] else []
  }

  /**
  The calling goroutine of Run as the loop it is: `choices` are what its selects take, `later`
  the results that the deferred loop still finds. The nil timer channel of the first turn never
  fires. The state it ends in meets the invariant of the joint machine.
  */
  method RunLoop(choices: seq<Choice>, later: seq<Result>)
    returns (ret: Result, received: seq<Result>, looped: nat, armed: nat)
    requires |choices| == 2 && |later| == 2
    requires !choices[0].TakeTimer?
    requires forall i :: 0 <= i < 2 && choices[i].TakeResult? && choices[i].r.Fail? ==> choices[i].r.err.CopyErr?
    ensures |received| == 2 && looped <= 2
    ensures MainInv(Control([], Returned(ret), 0, armed == 1, received, looped, armed, TakeCancel in choices))
    ensures ret == Ok <==> choices == [TakeResult(Ok), TakeResult(Ok)]
    ensures ret == Fail(DrainTimeout) <==> choices == [TakeResult(Ok), TakeTimer]
    ensures ret == Fail(CtxErr) <==> Deciding(choices) == Some(TakeCancel)
    ensures ret.Fail? && ret.err.CopyErr? <==> Deciding(choices).Some? && Deciding(choices).value.TakeResult?
    ensures ret.Fail? && ret.err.CopyErr? ==> Deciding(choices) == Some(TakeResult(ret))
    ensures looped == |TakenResults(choices)|
    ensures received == TakenResults(choices) + later[looped..]
  {
    var remaining := 2;
    received, looped, armed, ret := [], 0, 0, Ok;
    var leave := false;
    while remaining > 0 && !leave
      invariant remaining + |received| == 2 && looped == |received|
      invariant !leave ==> ret == Ok && received == seq(looped, i => Ok) && armed == (if looped > 0 then 1 else 0)
      invariant !leave ==> forall i :: 0 <= i < looped ==> choices[i] == TakeResult(Ok)
      invariant leave ==> ret != Ok && looped <= 2
      invariant leave ==>
        var c := Control([], Joining(ret), remaining, armed == 1, received, looped, armed, TakeCancel in choices);
        ExitReason(c, ret)
      invariant leave ==> armed == (if looped > 0 && received[0].Ok? then 1 else 0)
      invariant leave ==> (ret == Fail(DrainTimeout) <==> choices == [TakeResult(Ok), TakeTimer])
      invariant leave ==> choices != [TakeResult(Ok), TakeResult(Ok)]
      invariant leave ==> received == TakenResults(choices)
      invariant leave ==> (ret == Fail(CtxErr) <==> Deciding(choices) == Some(TakeCancel))
      invariant leave ==> (ret.err.CopyErr? <==> Deciding(choices).Some? && Deciding(choices).value.TakeResult?)
      invariant leave && ret.err.CopyErr? ==> Deciding(choices) == Some(TakeResult(ret))
      decreases remaining, !leave
    {
      match choices[looped]
      case TakeResult(r) =>
        remaining := remaining - 1;
        received, looped := received + [r], looped + 1;
        if r.Fail? {
          ret, leave := r, true;
        } else if remaining > 0 {
          armed := armed + 1;
        }
      case TakeCancel =>
        ret, leave := Fail(CtxErr), true;
      case TakeTimer =>
        ret, leave := Fail(DrainTimeout), true;
    }
    ghost var seen := received;
    assert seen == TakenResults(choices);
    while remaining > 0
      invariant remaining + |received| == 2 && looped == |seen| && seen <= received
      invariant received == seen + later[looped..|received|]
    {
      received := received + [later[|received|]];
      remaining := remaining - 1;
    }
    assert received[..looped] == seen;
  }

  /**
  Run hands back control only after it has taken exactly two results, both copiers are done,
  both connections were cut and closed, and the channel is empty.
  */
  lemma ReturnedHasJoined(h: Hop)
    requires HopInv(h) && h.ctl.main.Returned?
    ensures h.ctl.remaining == 0 && h.ctl.results == []
    ensures h.up.phase.Done? && h.down.phase.Done?
    ensures h.ctl.received == [h.up.phase.r, h.down.phase.r] || h.ctl.received == [h.down.phase.r, h.up.phase.r]
    ensures h.inbound.past && h.inbound.closed && h.outbound.past && h.outbound.closed
  {
    assert |h.ctl.received + h.ctl.results| == |h.ctl.received| + |h.ctl.results| <= 2;
    assert h.ctl.received + h.ctl.results == h.ctl.received;
  }

  /** The join starts only after all four calls of forceClose. */
  lemma ForceCloseBeforeJoin(h: Hop)
    requires HopInv(h) && (h.ctl.main.Joining? || h.ctl.main.Returned?)
    ensures h.inbound.past && h.inbound.closed && h.outbound.past && h.outbound.closed
  {
  }

  /** A copier is never blocked on its send: with capacity 2 there is always room. */
  lemma SendNeverBlocks(n: Node, d: Dir)
    requires HopInv(n.hop) && CopierOf(n.hop, d).phase.Sending?
    ensures Enabled(n, Send(d))
  {
    assert |n.hop.ctl.received + n.hop.ctl.results| <= 1;
  }

  /** A nil return means that both directions copied to EOF and that both CloseWrites succeeded. */
  lemma NilReturnMeansBothEof(h: Hop)
    requires HopInv(h) && h.ctl.main == Returned(Ok)
    ensures h.up.eof && h.down.eof
    ensures h.up.phase == Done(Ok) && h.down.phase == Done(Ok)
  {
    ReturnedHasJoined(h);
    assert h.ctl.received[..h.ctl.looped] == [Ok, Ok];
    assert h.ctl.received == [Ok, Ok];
  }

  /** The timer is armed at most once, exactly when the first result was received and was a success. */
  lemma TimerArmedOnce(h: Hop)
    requires HopInv(h)
    ensures h.ctl.armed <= 1
    ensures h.ctl.armed == 1 <==> h.ctl.looped >= 1 && h.ctl.received[0] == Ok
    ensures h.ctl.main.Looping? ==> (h.ctl.timer <==> h.ctl.received == [Ok])
    ensures !h.ctl.main.Looping? && h.ctl.main.ret == Fail(DrainTimeout) ==>
              h.ctl.received[..h.ctl.looped] == [Ok]
  {
  }

  // ----- The join terminates -----

  /** Steps of the two copiers and of the joining goroutine; the rest is the outside world. */
  predicate Local(a: Action) {
    !a.Take? && !a.Cancel? && !a.Fault?
  }

  function CopierWork(c: Copier): nat {
    match c.phase
    case Copying => if c.buf == [] then 4 else 3
    case Closing => 3
    case Sending(_) => 2
    case Done(_) => 1
  }

  function JoinWork(h: Hop): nat {
    CopierWork(h.up) + CopierWork(h.down) + h.ctl.remaining + if h.ctl.main.Joining? then 1 else 0
  }

  lemma CopierStepDecreases(n: Node, a: Action)
    requires HopInv(n.hop) && n.hop.ctl.main.Joining? && CopierStep(a) && CopierEnabled(n, a)
    ensures var c, c' := CopierOf(n.hop, a.d), CopierOf(CopierApply(n, a).hop, a.d);
      CopierWork(c') <= CopierWork(c) && (Local(a) ==> CopierWork(c') < CopierWork(c))
  {
  }

  /** Once joining, no outside step adds work and every local step removes some. */
  lemma JoinStepsDecrease(n: Node, a: Action)
    requires HopInv(n.hop) && n.hop.ctl.main.Joining? && Enabled(n, a)
    ensures var h' := Apply(n, a).hop;
      && (h'.ctl.main == n.hop.ctl.main || h'.ctl.main == Returned(n.hop.ctl.main.ret))
      && JoinWork(h') <= JoinWork(n.hop)
      && (Local(a) ==> JoinWork(h') < JoinWork(n.hop))
  {
    if CopierStep(a) {
      CopierStepFrame(n, a);
      CopierStepDecreases(n, a);
    }
  }

  /** While joining, some local step is always possible: a past deadline plus close unblocks everything. */
  lemma JoinNeverStuck(n: Node)
    requires HopInv(n.hop) && n.hop.ctl.main.Joining?
    ensures exists a :: Local(a) && Enabled(n, a)
  {
    var c := n.hop.ctl;
    assert |c.received + c.results| == |c.received| + |c.results|;
    if c.remaining == 0 {
      assert Enabled(n, Return);
    } else if c.results != [] {
      assert Enabled(n, JoinReceive);
    } else {
      CopierNeverStuck(n, if n.hop.up.phase.Done? then Down else Up);
    }
  }

  lemma CopierNeverStuck(n: Node, d: Dir)
    requires HopInv(n.hop) && n.hop.ctl.main.Joining? && !CopierOf(n.hop, d).phase.Done?
    ensures exists a :: Local(a) && Enabled(n, a)
  {
    var c := CopierOf(n.hop, d);
    match c.phase
    case Copying =>
      if c.buf == [] && c.ahead != [] {
        assert Enabled(n, CopyRead(d, 1));
      } else {
        assert Enabled(n, Cut(d, 0));
      }
    case Closing => assert Enabled(n, Finish(d, Ok));
    case Sending(_) =>
      SendNeverBlocks(n, d);
  }

  /** A turn of the joint run: a step of this duplex, or the neighbours changing the two links. */
  datatype Turn = Own(a: Action) | Outside(left: Link, right: Link)

  predicate TurnEnabled(n: Node, t: Turn) {
    t.Own? ==> Enabled(n, t.a)
  }

  function TurnApply(n: Node, t: Turn): Node
    requires TurnEnabled(n, t)
  {
    match t
    case Own(a) => Apply(n, a)
    case Outside(l, r) => Node(l, n.hop, r)
  }

  predicate ValidTurns(n: Node, ts: seq<Turn>)
    decreases |ts|
  {
    ts == [] || (TurnEnabled(n, ts[0]) && ValidTurns(TurnApply(n, ts[0]), ts[1..]))
  }

  function After(n: Node, ts: seq<Turn>): Node
    requires ValidTurns(n, ts)
    decreases |ts|
  {
    if ts == [] then n else After(TurnApply(n, ts[0]), ts[1..])
  }

  function LocalTurns(ts: seq<Turn>): nat {
    if ts == [] then 0
    else (if ts[0].Own? && Local(ts[0].a) then 1 else 0) + LocalTurns(ts[1..])
  }

  /**
  The join ends: whatever the outside does in between, at most JoinWork local steps are left,
  and when none of them is possible any more, Run has returned.
  */
  lemma {:induction false} JoinTerminates(n: Node, ts: seq<Turn>)
    requires HopInv(n.hop) && n.hop.ctl.main.Joining? && ValidTurns(n, ts)
    ensures LocalTurns(ts) + JoinWork(After(n, ts).hop) <= JoinWork(n.hop) <= 11
    ensures var m := After(n, ts);
      && (m.hop.ctl.main == Returned(n.hop.ctl.main.ret) || m.hop.ctl.main == n.hop.ctl.main)
      && ((forall a :: Local(a) ==> !Enabled(m, a)) ==> m.hop.ctl.main.Returned?)
    decreases |ts|
  {
    if ts == [] {
      JoinNeverStuck(n);
    } else {
      var n' := TurnApply(n, ts[0]);
      if ts[0].Own? {
        StepKeepsHopInv(n, ts[0].a);
        JoinStepsDecrease(n, ts[0].a);
      }
      if n'.hop.ctl.main.Joining? {
        JoinTerminates(n', ts[1..]);
      } else {
        ReturnedStays(n', ts[1..]);
      }
    }
  }

  lemma {:induction false} ReturnedStays(n: Node, ts: seq<Turn>)
    requires HopInv(n.hop) && n.hop.ctl.main.Returned? && ValidTurns(n, ts)
    ensures After(n, ts).hop == n.hop.(ctl := n.hop.ctl.(cancelled := After(n, ts).hop.ctl.cancelled))
    ensures LocalTurns(ts) == 0
    decreases |ts|
  {
    if ts != [] {
      ReturnedHasJoined(n.hop);
      if ts[0].Own? {
        StepKeepsHopInv(n, ts[0].a);
      }
      ReturnedStays(TurnApply(n, ts[0]), ts[1..]);
    }
  }

  // ----- FIN propagation and independence of the two directions -----

  /** A successful copier has sent its FIN, unless its target has no way to send one. */
  predicate FinSent(n: Node, d: Dir) {
    var c := CopierOf(n.hop, d);
    (c.phase == Sending(Ok) || c.phase == Done(Ok)) && !TargetConn(n.hop, d).kind.NoClose?
    ==> Target(n, d).fin
  }

  predicate DirUnharmed(n: Node, d: Dir) {
    var c := CopierOf(n.hop, d);
    && !TargetConn(n.hop, d).closed
    && (c.phase.Sending? || c.phase.Done? ==> c.phase.r == Ok)
    && (Target(n, d).fin ==> c.eof)
  }

  predicate Gentle(h: Hop) {
    !h.fault && !h.inbound.kind.FullClose? && !h.outbound.kind.FullClose?
  }

  /**
  While the loop runs and nothing outside failed, connections that half-close stay open, no
  copier has failed, and only a finished direction has closed the wire it writes to.
  */
  predicate Unharmed(n: Node) {
    n.hop.ctl.main.Looping? && Gentle(n.hop) ==> DirUnharmed(n, Up) && DirUnharmed(n, Down)
  }

  predicate NodeInv(n: Node) {
    HopInv(n.hop) && FinSent(n, Up) && FinSent(n, Down) && Unharmed(n)
  }

  lemma CopierStepKeepsFin(n: Node, a: Action, d: Dir)
    requires CopierStep(a) && CopierEnabled(n, a) && FinSent(n, d) && CopierInv(CopierOf(n.hop, d))
    ensures FinSent(CopierApply(n, a), d)
  {
  }

  lemma CopierStepKeepsUnharmed(n: Node, a: Action, d: Dir)
    requires CopierStep(a) && CopierEnabled(n, a) && HopInv(n.hop) && n.hop.ctl.main.Looping?
    requires Gentle(CopierApply(n, a).hop)
    requires DirUnharmed(n, Up) && DirUnharmed(n, Down)
    ensures DirUnharmed(CopierApply(n, a), d)
  {
  }

  lemma CopierStepKeepsGentle(n: Node, a: Action)
    requires CopierStep(a) && CopierEnabled(n, a) && Gentle(CopierApply(n, a).hop)
    ensures Gentle(n.hop)
  {
  }

  lemma CopierStepKeepsNode(n: Node, a: Action)
    requires NodeInv(n) && CopierStep(a) && CopierEnabled(n, a)
    ensures var n' := CopierApply(n, a); FinSent(n', Up) && FinSent(n', Down) && Unharmed(n')
  {
    CopierStepKeepsFin(n, a, Up);
    CopierStepKeepsFin(n, a, Down);
    CopierStepFrame(n, a);
    var n' := CopierApply(n, a);
    if n'.hop.ctl.main.Looping? && Gentle(n'.hop) {
      CopierStepKeepsGentle(n, a);
      CopierStepKeepsUnharmed(n, a, Up);
      CopierStepKeepsUnharmed(n, a, Down);
    }
    hide CopierApply, FinSent, DirUnharmed;
  }

  lemma StepKeepsNodeInv(n: Node, a: Action)
    requires NodeInv(n) && Enabled(n, a)
    ensures NodeInv(Apply(n, a))
  {
    StepKeepsHopInv(n, a);
    hide HopInv;
    if CopierStep(a) {
      hide CopierApply, FinSent, Unharmed;
      CopierStepKeepsNode(n, a);
    } else if a.Force? {
      ForceKeepsFin(n);
      hide ForceStep, FinSent, Unharmed;
    } else {
      ControlKeepsNode(n, a);
      hide FinSent, Unharmed;
    }
  }

  /** Posting and receiving results leave the wires alone. */
  lemma ControlKeepsNode(n: Node, a: Action)
    requires FinSent(n, Up) && FinSent(n, Down) && Unharmed(n)
    requires !CopierStep(a) && !a.Force? && Enabled(n, a)
    ensures var n' := Apply(n, a); FinSent(n', Up) && FinSent(n', Down) && Unharmed(n')
  {
  }

  /** Forcing only ever adds FINs, and after it nothing is promised about the loop. */
  lemma ForceKeepsFin(n: Node)
    requires FinSent(n, Up) && FinSent(n, Down) && n.hop.ctl.main.Forcing? && n.hop.ctl.main.step < 4
    ensures FinSent(ForceStep(n), Up) && FinSent(ForceStep(n), Down) && Unharmed(ForceStep(n))
  {
  }

  /** A neighbour moves bytes on our wires and may close the wires it writes to, never ours. */
  predicate NeighbourStep(l: Link, r: Link, l': Link, r': Link) {
    l'.down.fin == l.down.fin && r'.up.fin == r.up.fin
  }

  lemma NeighbourKeepsNodeInv(n: Node, l': Link, r': Link)
    requires NodeInv(n) && NeighbourStep(n.left, n.right, l', r')
    ensures NodeInv(Node(l', n.hop, r'))
  {
  }

  /**
  With half-closing connections a FIN one way never hurts the other way before the timeout:
  while the loop runs, a direction that has not reached EOF is still copying, both of its
  connections are open, the wire it writes to is open, and it cannot fail on its own.
  */
  lemma FinLeavesReverseIntact(n: Node, d: Dir)
    requires NodeInv(n) && n.hop.ctl.main.Looping? && Gentle(n.hop)
    requires !CopierOf(n.hop, d).eof
    ensures CopierOf(n.hop, d).phase.Copying?
    ensures !SourceConn(n.hop, d).closed && !TargetConn(n.hop, d).closed && !Target(n, d).fin
    ensures forall code :: !Enabled(n, Cut(d, code))
    ensures CopierOf(n.hop, d).buf != [] ==> Enabled(n, CopyWrite(d, |CopierOf(n.hop, d).buf|))
  {
  }
}
