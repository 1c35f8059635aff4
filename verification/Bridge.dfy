/**
The relay's bridge: pairing of proxy streams with exit streams, the ceiling of 256 pairs, and
the bookkeeping in `active` and `conns`.

The class holds the two lock regions. The state machine runs any number of ServeProxy loops and
ServeExit loops with, per pair, a watcher goroutine and a copying goroutine. Proxy streams are
numbered in order of acceptance; their yamux stream ids may repeat across proxy sessions.
*/
module Bridge {
  import opened Bytes

  const MAX_STREAMS: nat := 256

  type StreamId = x: int | 0 <= x < 0x1_0000_0000

  /** The fields that Bridge.mu guards. */
  datatype Books = Books(active: set<StreamId>, conns: int)

  /** The lock region of launch: refuse at the ceiling, else count the pair. */
  function Admit(b: Books, id: StreamId): Option<Books> {
    if b.conns >= MAX_STREAMS then None else Some(Books(b.active + {id}, b.conns + 1))
  }

  /** The lock region of track. */
  function Release(b: Books, id: StreamId): Books {
    Books(b.active - {id}, b.conns - 1)
  }

  /**
  Giving a slot back undoes taking it, if and only if the id was not active before: an id that
  was already there loses its entry, although one pair of that id is left.
  */
  lemma ReleaseUndoesAdmitIff(b: Books, id: StreamId)
    requires Admit(b, id).Some?
    ensures Release(Admit(b, id).value, id).conns == b.conns
    ensures Release(Admit(b, id).value, id) == b <==> id !in b.active
  {
    var r := Release(Admit(b, id).value, id);
    if id !in b.active {
      assert r.active == b.active;
    } else {
      assert id !in r.active;
    }
  }

  class Bridge {
    var active: set<StreamId>
    var conns: int

    ghost function View(): Books
      reads this
    {
      Books(active, conns)
    }

    constructor ()
      ensures View() == Books({}, 0)
    {
      active := {};
      conns := 0;
    }

    method Launch(id: StreamId) returns (admitted: bool)
      modifies this
      ensures admitted <==> Admit(old(View()), id).Some?
      ensures View() == if admitted then Admit(old(View()), id).value else old(View())
      ensures old(conns) <= MAX_STREAMS ==> conns <= MAX_STREAMS
    {
      if conns >= MAX_STREAMS {
        return false;
      }
      active := active + {id};
      conns := conns + 1;
      return true;
    }

    method Track(id: StreamId)
      modifies this
      ensures View() == Release(old(View()), id)
    {
      active := active - {id};
      conns := conns - 1;
    }
  }

  /** A stream on an exit session: who opened it, and how often a serve loop closed it. */
  datatype ExitStream = ExitStream(byExit: bool, closes: nat)

  datatype Watcher = Watching | Woken | Ended

  datatype CopyPc = Bridging | Unwinding | Tracking

  /**
  One pair: `gone` says that one of its sessions ended or the parent context did, `child` that
  its own context was cancelled. `shadowed` records that another pair with the same stream id
  was released while this one was live.
  */
  datatype Pair = Pair(exit: nat, gone: bool, child: bool, watcher: Watcher, pc: CopyPc, shadowed: bool)

  datatype Fate =
    | InHand                   // accepted by its loop, not yet decided
    | NoExit                   // closed: no exit registered
    | OpenFailed               // closed: the exit stream could not be opened
    | AtLimit                  // closed: the ceiling was reached
    | Live(pair: Pair)
    | Over(exit: nat)          // tracked

  /**
  A proxy stream. `loop` is the ServeProxy loop, and so the proxy session, it came from;
  `closes`: how often that loop closed it; `releases`: how often its slot was given back.
  */
  datatype Stream = Stream(id: StreamId, loop: nat, fate: Fate, closes: nat, releases: nat)

  /** A ServeProxy loop, one per proxy session. */
  datatype Loop = Idle | Accepted(s: nat) | Found(s: nat) | Opened(s: nat, exit: nat)

  /** A ServeExit loop, one per exit session. */
  datatype Rejecter = Waiting | Rejecting(exit: nat)

  /** `exits` lists the streams of all exit sessions in order of opening, whoever opened them. */
  datatype State = State(
    books: Books, streams: seq<Stream>, loops: seq<Loop>, exits: seq<ExitStream>, rejecters: seq<Rejecter>)

  datatype Action =
    | NewLoop                                  // another proxy session starts to be served
    | AcceptStream(loop: nat, id: StreamId)
    | LookupNone(loop: nat)                    // registry.Current says there is no exit
    | LookupSome(loop: nat)
    | OpenFails(loop: nat)
    | OpenSucceeds(loop: nat)
    | LaunchPair(loop: nat)                    // the lock region of launch, and the goroutines it starts
    | SessionGone(s: nat)                      // either session closes, or the parent is cancelled
    | WatcherWakes(s: nat)                     // a session ended or the child context did: cancel
    | WatcherEnds(s: nat)                      // close(watcherDone)
    | CopyEnds(s: nat)                         // Duplex.Run returned; cancel
    | CopyJoins(s: nat)                        // <-watcherDone
    | TrackPair(s: nat)                        // the lock region of track
    | NewRejecter                              // another exit session starts to be served
    | ExitOpens(rejecter: nat)                 // ServeExit accepts a stream that the exit opened
    | Reject(rejecter: nat)                    // and closes it

  function Init(): State {
    State(Books({}, 0), [], [], [], [])
  }

  predicate LoopStep(a: Action) {
    || a.AcceptStream? || a.LookupNone? || a.LookupSome? || a.OpenFails? || a.OpenSucceeds? || a.LaunchPair?
  }

  predicate PairStep(a: Action) {
    a.SessionGone? || a.WatcherWakes? || a.WatcherEnds? || a.CopyEnds? || a.CopyJoins? || a.TrackPair?
  }

  predicate ExitStep(a: Action) {
    a.ExitOpens? || a.Reject?
  }

  /** The proxy's stream is in use: its session will not give the id to another one. */
  predicate InUse(x: Stream) {
    x.fate.InHand? || x.fate.Live?
  }

  /** No stream of this session is using the id. */
  predicate IdFree(ss: seq<Stream>, l: nat, id: StreamId) {
    forall i :: 0 <= i < |ss| && ss[i].loop == l && InUse(ss[i]) ==> ss[i].id != id
  }

  predicate LoopEnabled(s: State, a: Action)
    requires LoopStep(a)
  {
    a.loop < |s.loops| &&
    match a
    case AcceptStream(l, id) => s.loops[l].Idle? && IdFree(s.streams, l, id)
    case LookupNone(l) => s.loops[l].Accepted?
    case LookupSome(l) => s.loops[l].Accepted?
    case OpenFails(l) => s.loops[l].Found?
    case OpenSucceeds(l) => s.loops[l].Found?
    case LaunchPair(l) => s.loops[l].Opened?
  }

  predicate PairEnabled(s: State, a: Action)
    requires PairStep(a)
  {
    a.s < |s.streams| && s.streams[a.s].fate.Live? &&
    var p := s.streams[a.s].fate.pair;
    match a
    case SessionGone(_) => true
    case WatcherWakes(_) => p.watcher.Watching? && (p.gone || p.child)
    case WatcherEnds(_) => p.watcher.Woken?
    case CopyEnds(_) => p.pc.Bridging?
    case CopyJoins(_) => p.pc.Unwinding? && p.watcher.Ended?
    case TrackPair(_) => p.pc.Tracking?
  }

  predicate ExitEnabled(s: State, a: Action)
    requires ExitStep(a)
  {
    a.rejecter < |s.rejecters| && (s.rejecters[a.rejecter].Waiting? <==> a.ExitOpens?)
  }

  predicate Enabled(s: State, a: Action) {
    if LoopStep(a) then LoopEnabled(s, a)
    else if PairStep(a) then PairEnabled(s, a)
    else if ExitStep(a) then ExitEnabled(s, a)
    else true
  }

  function PutStream(s: State, i: nat, x: Stream): State {
    if i < |s.streams| then s.(streams := s.streams[i := x]) else s
  }

  function StreamAt(s: State, i: nat): Stream {
    if i < |s.streams| then s.streams[i] else Stream(0, 0, NoExit, 0, 0)
  }

  /** The serve loop closes the stream it holds and goes back to accepting. */
  function Refuse(s: State, l: nat, i: nat, fate: Fate): State
    requires l < |s.loops|
  {
    var x := StreamAt(s, i);
    PutStream(s.(loops := s.loops[l := Idle]), i, x.(fate := fate, closes := x.closes + 1))
  }

  function CloseExit(s: State, e: nat): State {
    if e < |s.exits| then s.(exits := s.exits[e := s.exits[e].(closes := s.exits[e].closes + 1)]) else s
  }

  function LoopApply(s: State, a: Action): State
    requires LoopStep(a) && LoopEnabled(s, a)
  {
    var l := a.loop;
    match a
    case AcceptStream(_, id) =>
      s.(streams := s.streams + [Stream(id, l, InHand, 0, 0)], loops := s.loops[l := Accepted(|s.streams|)])
    case LookupNone(_) => Refuse(s, l, s.loops[l].s, NoExit)
    case LookupSome(_) => s.(loops := s.loops[l := Found(s.loops[l].s)])
    case OpenFails(_) => Refuse(s, l, s.loops[l].s, OpenFailed)
    case OpenSucceeds(_) =>
      s.(exits := s.exits + [ExitStream(false, 0)], loops := s.loops[l := Opened(s.loops[l].s, |s.exits|)])
    case LaunchPair(_) =>
      var i := s.loops[l].s;
      var x := StreamAt(s, i);
      var b := Admit(s.books, x.id);
      if b.None? then Refuse(CloseExit(s, s.loops[l].exit), l, i, AtLimit)
      else
        var pair := Pair(s.loops[l].exit, false, false, Watching, Bridging, false);
        PutStream(s.(books := b.value, loops := s.loops[l := Idle]), i, x.(fate := Live(pair)))
  }

  /** The other live pairs with the released id lose their entry in `active`. */
  function Shadow(ss: seq<Stream>, id: StreamId): (r: seq<Stream>)
    ensures |r| == |ss|
    ensures forall i :: 0 <= i < |ss| ==>
      r[i] == if ss[i].fate.Live? && ss[i].id == id
              then ss[i].(fate := Live(ss[i].fate.pair.(shadowed := true))) else ss[i]
  {
    if ss == [] then []
    else
      [if ss[0].fate.Live? && ss[0].id == id
       then ss[0].(fate := Live(ss[0].fate.pair.(shadowed := true))) else ss[0]] + Shadow(ss[1..], id)
  }

  function WithPair(s: State, i: nat, p: Pair): State {
    PutStream(s, i, StreamAt(s, i).(fate := Live(p)))
  }

  /** What a step of a pair's goroutines, other than the last, makes of it. */
  function NextPair(p: Pair, a: Action): Pair
    requires PairStep(a) && !a.TrackPair?
  {
    match a
    case SessionGone(_) => p.(gone := true)
    case WatcherWakes(_) => p.(watcher := Woken, child := true)
    case WatcherEnds(_) => p.(watcher := Ended)
    case CopyEnds(_) => p.(pc := Unwinding, child := true)
    case CopyJoins(_) => p.(pc := Tracking)
  }

  /** A live stream after its pair was tracked. */
  function Tracked(x: Stream): Stream
    requires x.fate.Live?
  {
    x.(fate := Over(x.fate.pair.exit), releases := x.releases + 1)
  }

  function PairApply(s: State, a: Action): State
    requires PairStep(a) && PairEnabled(s, a)
  {
    var x := s.streams[a.s];
    if a.TrackPair?
    then s.(books := Release(s.books, x.id), streams := Shadow(s.streams[a.s := Tracked(x)], x.id))
    else WithPair(s, a.s, NextPair(x.fate.pair, a))
  }

  function ExitApply(s: State, a: Action): State
    requires ExitStep(a) && ExitEnabled(s, a)
  {
    var r := a.rejecter;
    if a.ExitOpens?
    then s.(exits := s.exits + [ExitStream(true, 0)], rejecters := s.rejecters[r := Rejecting(|s.exits|)])
    else CloseExit(s, s.rejecters[r].exit).(rejecters := s.rejecters[r := Waiting])
  }

  function Apply(s: State, a: Action): State
    requires Enabled(s, a)
  {
    if LoopStep(a) then LoopApply(s, a)
    else if PairStep(a) then PairApply(s, a)
    else if ExitStep(a) then ExitApply(s, a)
    else if a.NewLoop? then s.(loops := s.loops + [Idle])
    else s.(rejecters := s.rejecters + [Waiting])
  }

  // ----- The invariant -----

  function LiveCount(ss: seq<Stream>): nat {
    if ss == [] then 0 else (if ss[0].fate.Live? then 1 else 0) + LiveCount(ss[1..])
  }

  predicate IsLive(ss: seq<Stream>, i: nat) {
    i < |ss| && ss[i].fate.Live?
  }

  /** Stream i is a live pair with this id and no pair of the same id was released meanwhile. */
  predicate Counts(ss: seq<Stream>, i: nat, id: StreamId) {
    IsLive(ss, i) && ss[i].id == id && !ss[i].fate.pair.shadowed
  }

  /** The ids in `active` are those of the live pairs that are not shadowed. */
  ghost predicate ActiveExact(ss: seq<Stream>, active: set<StreamId>) {
    forall id: StreamId :: id in active <==> exists i: nat :: Counts(ss, i, id)
  }

  predicate StreamSound(x: Stream) {
    && x.closes == (if x.fate.NoExit? || x.fate.OpenFailed? || x.fate.AtLimit? then 1 else 0)
    && x.releases == (if x.fate.Over? then 1 else 0)
    && (x.fate.Live? ==> PairSound(x.fate.pair))
  }

  /** A slot is on its way back only after the watcher has ended. */
  predicate PairSound(p: Pair) {
    && (p.pc.Tracking? ==> p.watcher.Ended?)
    && (!p.pc.Bridging? || !p.watcher.Watching? ==> p.child)
  }

  function HeldBy(l: Loop): Option<nat> {
    if l.Idle? then None else Some(l.s)
  }

  predicate InHandOf(x: Stream, l: nat) {
    x.fate.InHand? && x.loop == l
  }

  /** A loop holds exactly the streams whose fate names it, at most one at a time. */
  predicate LoopsSound(s: State) {
    && (forall l :: 0 <= l < |s.loops| && HeldBy(s.loops[l]).Some? ==>
          HeldBy(s.loops[l]).value < |s.streams| && InHandOf(s.streams[HeldBy(s.loops[l]).value], l))
    && (forall i :: 0 <= i < |s.streams| && s.streams[i].fate.InHand? ==>
          s.streams[i].loop < |s.loops| && HeldBy(s.loops[s.streams[i].loop]) == Some(i))
  }

  ghost predicate Inv(s: State) {
    && s.books.conns == LiveCount(s.streams) <= MAX_STREAMS
    && ActiveExact(s.streams, s.books.active)
    && (forall i :: 0 <= i < |s.streams| ==> StreamSound(s.streams[i]))
    && LoopsSound(s)
  }

  // ----- Counting live pairs -----

  function One(x: Stream): nat {
    if x.fate.Live? then 1 else 0
  }

  lemma {:induction false} CountUpdate(ss: seq<Stream>, i: nat, x: Stream)
    requires i < |ss|
    ensures LiveCount(ss[i := x]) == LiveCount(ss) - One(ss[i]) + One(x)
    ensures LiveCount(ss) >= One(ss[i])
  {
    if i == 0 {
      assert ss[i := x][1..] == ss[1..];
    } else {
      assert ss[i := x][1..] == ss[1..][i - 1 := x];
      CountUpdate(ss[1..], i - 1, x);
    }
  }

  lemma {:induction false} CountAppend(ss: seq<Stream>, x: Stream)
    ensures LiveCount(ss + [x]) == LiveCount(ss) + One(x)
  {
    if ss != [] {
      assert (ss + [x])[1..] == ss[1..] + [x];
      CountAppend(ss[1..], x);
    }
  }

  lemma {:induction false} CountSame(ss: seq<Stream>, tt: seq<Stream>)
    requires |ss| == |tt| && forall i :: 0 <= i < |ss| ==> One(ss[i]) == One(tt[i])
    ensures LiveCount(ss) == LiveCount(tt)
  {
    if ss != [] {
      CountSame(ss[1..], tt[1..]);
    }
  }

  // ----- The set of active ids -----

  /** A stream may change as long as it does not enter, leave or move within the set of active pairs. */
  predicate SameStanding(x: Stream, y: Stream) {
    && y.id == x.id && y.fate.Live? == x.fate.Live?
    && (x.fate.Live? ==> y.fate.pair.shadowed == x.fate.pair.shadowed)
  }

  lemma ActiveSame(ss: seq<Stream>, tt: seq<Stream>, active: set<StreamId>)
    requires ActiveExact(ss, active)
    requires |ss| <= |tt| && forall i :: 0 <= i < |ss| ==> SameStanding(ss[i], tt[i])
    requires forall i :: |ss| <= i < |tt| ==> !tt[i].fate.Live?
    ensures ActiveExact(tt, active)
  {
    forall id: StreamId ensures id in active <==> exists i: nat :: Counts(tt, i, id) {
      if i: nat :| Counts(ss, i, id) {
        assert SameStanding(ss[i], tt[i]) && Counts(tt, i, id);
      }
      if i: nat :| Counts(tt, i, id) {
        assert i < |ss| && SameStanding(ss[i], tt[i]) && Counts(ss, i, id);
      }
    }
  }

  lemma ActiveLaunch(ss: seq<Stream>, active: set<StreamId>, i: nat, p: Pair)
    requires ActiveExact(ss, active) && i < |ss| && !ss[i].fate.Live? && !p.shadowed
    ensures ActiveExact(ss[i := ss[i].(fate := Live(p))], active + {ss[i].id})
  {
    var tt := ss[i := ss[i].(fate := Live(p))];
    forall id: StreamId ensures id in active + {ss[i].id} <==> exists k: nat :: Counts(tt, k, id) {
      if k: nat :| Counts(ss, k, id) {
        assert Counts(tt, k, id);
      }
      if id == ss[i].id {
        assert Counts(tt, i, id);
      }
      if k: nat :| Counts(tt, k, id) {
        assert k != i ==> Counts(ss, k, id);
      }
    }
  }

  lemma ActiveTrack(ss: seq<Stream>, active: set<StreamId>, i: nat, x: Stream)
    requires ActiveExact(ss, active) && i < |ss| && x.id == ss[i].id && x.fate.Over?
    ensures ActiveExact(Shadow(ss[i := x], x.id), active - {x.id})
  {
    var tt := Shadow(ss[i := x], x.id);
    forall id: StreamId ensures id in active - {x.id} <==> exists k: nat :: Counts(tt, k, id) {
      if k: nat :| Counts(ss, k, id) {
        assert id != x.id ==> Counts(tt, k, id);
      }
      if k: nat :| Counts(tt, k, id) {
        assert Counts(ss, k, id) && id != x.id;
      }
    }
  }

  // ----- Steps -----

  /** Streams are sound and the books agree with them. */
  ghost predicate BooksSound(b: Books, ss: seq<Stream>) {
    && b.conns == LiveCount(ss) <= MAX_STREAMS
    && ActiveExact(ss, b.active)
    && (forall i :: 0 <= i < |ss| ==> StreamSound(ss[i]))
  }

  lemma BooksPut(b: Books, ss: seq<Stream>, i: nat, x: Stream)
    requires BooksSound(b, ss) && i < |ss| && SameStanding(ss[i], x) && StreamSound(x)
    ensures BooksSound(b, ss[i := x])
  {
    CountUpdate(ss, i, x);
    ActiveSame(ss, ss[i := x], b.active);
    hide ActiveExact, LiveCount;
  }

  lemma BooksAppend(b: Books, ss: seq<Stream>, x: Stream)
    requires BooksSound(b, ss) && !x.fate.Live? && StreamSound(x)
    ensures BooksSound(b, ss + [x])
  {
    CountAppend(ss, x);
    ActiveSame(ss, ss + [x], b.active);
    hide ActiveExact, LiveCount;
  }

  lemma BooksLaunch(b: Books, ss: seq<Stream>, i: nat, p: Pair)
    requires BooksSound(b, ss) && i < |ss| && ss[i].fate.InHand? && Admit(b, ss[i].id).Some?
    requires PairSound(p) && !p.shadowed
    ensures BooksSound(Admit(b, ss[i].id).value, ss[i := ss[i].(fate := Live(p))])
  {
    CountUpdate(ss, i, ss[i].(fate := Live(p)));
    ActiveLaunch(ss, b.active, i, p);
    hide ActiveExact, LiveCount;
    assert StreamSound(ss[i]);
  }

  lemma BooksTrack(b: Books, ss: seq<Stream>, i: nat, x: Stream)
    requires BooksSound(b, ss) && i < |ss| && ss[i].fate.Live? && x.id == ss[i].id && x.fate.Over?
    requires StreamSound(x)
    ensures BooksSound(Release(b, x.id), Shadow(ss[i := x], x.id))
  {
    hide Shadow;
    var over := ss[i := x];
    CountUpdate(ss, i, x);
    CountSame(over, Shadow(over, x.id));
    ActiveTrack(ss, b.active, i, x);
    hide ActiveExact, LiveCount;
    forall k | 0 <= k < |ss| ensures StreamSound(Shadow(over, x.id)[k]) {
      assert StreamSound(ss[k]);
    }
  }

  lemma LoopKeepsBooks(s: State, a: Action)
    requires BooksSound(s.books, s.streams) && LoopsSound(s) && LoopStep(a) && LoopEnabled(s, a)
    ensures BooksSound(LoopApply(s, a).books, LoopApply(s, a).streams)
  {
    var s', l := LoopApply(s, a), a.loop;
    if a.AcceptStream? {
      BooksAppend(s.books, s.streams, Stream(a.id, l, InHand, 0, 0));
    } else if !a.LookupSome? && !a.OpenSucceeds? {
      var i := s.loops[l].s;
      assert HeldBy(s.loops[l]) == Some(i);
      assert StreamSound(s.streams[i]);
      hide BooksSound;
      if a.LaunchPair? && Admit(s.books, s.streams[i].id).Some? {
        BooksLaunch(s.books, s.streams, i, Pair(s.loops[l].exit, false, false, Watching, Bridging, false));
      } else {
        BooksPut(s.books, s.streams, i, s'.streams[i]);
      }
    }
  }

  lemma PairKeepsBooks(s: State, a: Action)
    requires BooksSound(s.books, s.streams) && PairStep(a) && PairEnabled(s, a)
    ensures BooksSound(PairApply(s, a).books, PairApply(s, a).streams)
  {
    var x := s.streams[a.s];
    assert StreamSound(x);
    hide BooksSound, Shadow;
    if a.TrackPair? {
      BooksTrack(s.books, s.streams, a.s, Tracked(x));
    } else {
      BooksPut(s.books, s.streams, a.s, x.(fate := Live(NextPair(x.fate.pair, a))));
    }
  }

  /** Every change a loop step makes to loops and streams, in the one form the next lemma needs. */
  predicate LoopChange(s: State, s': State, l: nat, i: nat) {
    && l < |s.loops| == |s'.loops| && |s.streams| <= |s'.streams| && i < |s'.streams|
    && s'.loops == s.loops[l := s'.loops[l]]
    && (forall k :: 0 <= k < |s'.streams| && k != i ==> k < |s.streams| && s'.streams[k] == s.streams[k])
    && (HeldBy(s.loops[l]) == Some(i) || (HeldBy(s.loops[l]) == None && i == |s.streams|))
    && (HeldBy(s'.loops[l]) == Some(i) || HeldBy(s'.loops[l]) == None)
    && (HeldBy(s'.loops[l]) == Some(i) <==> s'.streams[i].fate.InHand?)
    && s'.streams[i].loop == l
  }

  lemma ChangeKeepsLoops(s: State, s': State, l: nat, i: nat)
    requires LoopsSound(s) && LoopChange(s, s', l, i)
    ensures LoopsSound(s')
  {
    forall m | 0 <= m < |s'.loops| && HeldBy(s'.loops[m]).Some?
      ensures HeldBy(s'.loops[m]).value < |s'.streams| && InHandOf(s'.streams[HeldBy(s'.loops[m]).value], m)
    {
      if m != l {
        assert HeldBy(s.loops[m]).value != i;
      }
    }
  }

  lemma LoopStepChange(s: State, a: Action)
    requires LoopsSound(s) && LoopStep(a) && LoopEnabled(s, a)
    ensures LoopChange(s, LoopApply(s, a), a.loop, if a.AcceptStream? then |s.streams| else s.loops[a.loop].s)
  {
    assert HeldBy(s.loops[a.loop]).Some? ==> s.loops[a.loop].s < |s.streams|;
  }

  lemma LoopKeepsLoops(s: State, a: Action)
    requires LoopsSound(s) && LoopStep(a) && LoopEnabled(s, a)
    ensures LoopsSound(LoopApply(s, a))
  {
    LoopStepChange(s, a);
    hide LoopApply, LoopsSound;
    ChangeKeepsLoops(s, LoopApply(s, a), a.loop, if a.AcceptStream? then |s.streams| else s.loops[a.loop].s);
  }

  lemma PairKeepsLoops(s: State, a: Action)
    requires LoopsSound(s) && PairStep(a) && PairEnabled(s, a)
    ensures LoopsSound(PairApply(s, a))
  {
    PairStepChange(s, a);
    hide PairApply, PairEnabled;
  }

  /** What a pair step leaves of a stream: its origin, and whether a loop has it; none comes into use. */
  predicate Settles(x: Stream, y: Stream) {
    && y.id == x.id && y.loop == x.loop
    && (y.fate.InHand? <==> x.fate.InHand?)
    && (y.fate.Live? ==> x.fate.Live?)
  }

  ghost predicate PairChange(s: State, s': State) {
    && s' == s.(books := s'.books, streams := s'.streams) && |s'.streams| == |s.streams|
    && forall i :: 0 <= i < |s.streams| ==> Settles(s.streams[i], s'.streams[i])
  }

  lemma PairStepChange(s: State, a: Action)
    requires PairStep(a) && PairEnabled(s, a)
    ensures PairChange(s, PairApply(s, a))
  {
    hide NextPair, Shadow;
  }

  lemma StepKeepsInv(s: State, a: Action)
    requires Inv(s) && Enabled(s, a)
    ensures Inv(Apply(s, a))
  {
    assert BooksSound(s.books, s.streams);
    if LoopStep(a) {
      hide LoopApply, LoopEnabled, LoopsSound, LiveCount, ActiveExact;
      LoopKeepsBooks(s, a);
      LoopKeepsLoops(s, a);
    } else if PairStep(a) {
      hide PairApply, PairEnabled, LoopsSound, LiveCount, ActiveExact;
      PairKeepsBooks(s, a);
      PairKeepsLoops(s, a);
    }
  }

  ghost predicate ValidRun(s: State, acts: seq<Action>)
    decreases |acts|
  {
    acts == [] || (Enabled(s, acts[0]) && ValidRun(Apply(s, acts[0]), acts[1..]))
  }

  ghost function Final(s: State, acts: seq<Action>): State
    requires ValidRun(s, acts)
    decreases |acts|
  {
    if acts == [] then s else Final(Apply(s, acts[0]), acts[1..])
  }

  lemma {:induction false} RunKeepsInv(s: State, acts: seq<Action>)
    requires Inv(s) && ValidRun(s, acts)
    ensures Inv(Final(s, acts))
    decreases |acts|
  {
    hide Inv, Apply, Enabled;
    if acts != [] {
      StepKeepsInv(s, acts[0]);
      RunKeepsInv(Apply(s, acts[0]), acts[1..]);
    }
  }

  ghost predicate Reached(s: State, acts: seq<Action>) {
    ValidRun(Init(), acts) && Final(Init(), acts) == s
  }

  lemma ReachedInv(s: State, acts: seq<Action>)
    requires Reached(s, acts)
    ensures Inv(s)
  {
    assert ActiveExact([], {});
    RunKeepsInv(Init(), acts);
  }

  // ----- What the bridge promises -----

  /** conns is exactly the number of pairs launched and not yet tracked, between 0 and 256. */
  lemma ConnsIsExact(s: State, acts: seq<Action>)
    requires Reached(s, acts)
    ensures s.books.conns == LiveCount(s.streams)
    ensures 0 <= s.books.conns <= MAX_STREAMS
  {
    ReachedInv(s, acts);
  }

  ghost function LiveIds(ss: seq<Stream>): set<StreamId> {
    set i | 0 <= i < |ss| && ss[i].fate.Live? :: ss[i].id
  }

  /** active is always contained in the ids of the live pairs. */
  lemma ActiveIsContained(s: State, acts: seq<Action>)
    requires Reached(s, acts)
    ensures s.books.active <= LiveIds(s.streams)
  {
    ReachedInv(s, acts);
    forall id | id in s.books.active ensures id in LiveIds(s.streams) {
      var i: nat :| Counts(s.streams, i, id);
    }
  }

  ghost predicate Covered(ss: seq<Stream>, i: nat)
    requires IsLive(ss, i)
  {
    exists j: nat :: Counts(ss, j, ss[i].id)
  }

  lemma EqualMeansCovered(ss: seq<Stream>, active: set<StreamId>, i: nat)
    requires ActiveExact(ss, active) && active == LiveIds(ss) && IsLive(ss, i)
    ensures Covered(ss, i)
  {
    assert ss[i].id in LiveIds(ss);
  }

  lemma CoveredMeansActive(ss: seq<Stream>, active: set<StreamId>, i: nat)
    requires ActiveExact(ss, active) && IsLive(ss, i) && Covered(ss, i)
    ensures ss[i].id in active
  {
  }

  /** active equals the live ids exactly when every live pair shares its id with one that is not shadowed. */
  lemma ActiveEqualsLiveIff(s: State, acts: seq<Action>)
    requires Reached(s, acts)
    ensures s.books.active == LiveIds(s.streams) <==>
      forall i: nat :: IsLive(s.streams, i) ==> Covered(s.streams, i)
  {
    ReachedInv(s, acts);
    ActiveIsContained(s, acts);
    hide LoopsSound, LiveCount, StreamSound, ValidRun, Final, ActiveExact, Covered, Reached;
    if s.books.active == LiveIds(s.streams) {
      forall i: nat | IsLive(s.streams, i) ensures Covered(s.streams, i) {
        EqualMeansCovered(s.streams, s.books.active, i);
      }
    }
    if forall i: nat :: IsLive(s.streams, i) ==> Covered(s.streams, i) {
      forall id | id in LiveIds(s.streams) ensures id in s.books.active {
        var i :| 0 <= i < |s.streams| && s.streams[i].fate.Live? && s.streams[i].id == id;
        CoveredMeansActive(s.streams, s.books.active, i);
      }
    }
  }

  // ----- Distinct ids, over whole runs -----

  ghost predicate LiveDistinct(ss: seq<Stream>) {
    forall i: nat, j: nat :: IsLive(ss, i) && IsLive(ss, j) && ss[i].id == ss[j].id ==> i == j
  }

  /** Live ids were distinct in every state of the run. */
  ghost predicate AlwaysDistinct(s: State, acts: seq<Action>)
    requires ValidRun(s, acts)
    decreases |acts|
  {
    LiveDistinct(s.streams) && (acts == [] || AlwaysDistinct(Apply(s, acts[0]), acts[1..]))
  }

  ghost predicate NoShadow(ss: seq<Stream>) {
    forall i: nat :: IsLive(ss, i) ==> !ss[i].fate.pair.shadowed
  }

  lemma StepKeepsNoShadow(s: State, a: Action)
    requires NoShadow(s.streams) && LiveDistinct(s.streams) && Enabled(s, a)
    ensures NoShadow(Apply(s, a).streams)
  {
    var s' := Apply(s, a);
    forall i: nat | IsLive(s'.streams, i) ensures !s'.streams[i].fate.pair.shadowed {
      if i < |s.streams| && s.streams[i].fate.Live? {
        assert IsLive(s.streams, i);
        if a.TrackPair? {
          assert IsLive(s.streams, a.s);
        }
      }
    }
  }

  lemma {:induction false} DistinctRunNoShadow(s: State, acts: seq<Action>)
    requires NoShadow(s.streams) && ValidRun(s, acts) && AlwaysDistinct(s, acts)
    ensures NoShadow(Final(s, acts).streams)
    decreases |acts|
  {
    hide Apply, Enabled, NoShadow, LiveDistinct;
    if acts != [] {
      StepKeepsNoShadow(s, acts[0]);
      DistinctRunNoShadow(Apply(s, acts[0]), acts[1..]);
    }
  }

  /** While live ids have been distinct throughout, active is exactly the set of live ids. */
  lemma ActiveIsExactWhenDistinct(s: State, acts: seq<Action>)
    requires Reached(s, acts) && AlwaysDistinct(Init(), acts)
    ensures s.books.active == LiveIds(s.streams)
  {
    DistinctRunNoShadow(Init(), acts);
    ActiveEqualsLiveIff(s, acts);
    forall i: nat | IsLive(s.streams, i) ensures Covered(s.streams, i) {
      assert Counts(s.streams, i, s.streams[i].id);
    }
  }

  predicate Clash(x: Stream, y: Stream) {
    InUse(x) && InUse(y) && x.loop == y.loop && x.id == y.id
  }

  /** Every stream comes from a session that is served, and a session's streams in use have distinct ids. */
  ghost predicate SessionIds(s: State) {
    && (forall i :: 0 <= i < |s.streams| ==> s.streams[i].loop < |s.loops|)
    && (forall i, j :: 0 <= i < |s.streams| && 0 <= j < |s.streams| && Clash(s.streams[i], s.streams[j]) ==> i == j)
  }

  /** No stream changes its origin or comes into use, and no session goes away. */
  ghost predicate NoneNew(s: State, s': State) {
    && |s'.streams| == |s.streams| && |s.loops| <= |s'.loops|
    && forall i :: 0 <= i < |s.streams| ==>
         && s'.streams[i].loop == s.streams[i].loop && s'.streams[i].id == s.streams[i].id
         && (InUse(s'.streams[i]) ==> InUse(s.streams[i]))
  }

  lemma NoneNewKeepsIds(s: State, s': State)
    requires SessionIds(s) && NoneNew(s, s')
    ensures SessionIds(s')
  {
    forall i, j | 0 <= i < |s'.streams| && 0 <= j < |s'.streams| && Clash(s'.streams[i], s'.streams[j])
      ensures i == j
    {
      assert Clash(s.streams[i], s.streams[j]);
    }
  }

  lemma AcceptKeepsIds(s: State, l: nat, id: StreamId)
    requires SessionIds(s) && LoopEnabled(s, AcceptStream(l, id))
    ensures SessionIds(LoopApply(s, AcceptStream(l, id)))
  {
  }

  lemma LoopKeepsIds(s: State, a: Action)
    requires SessionIds(s) && LoopsSound(s) && LoopStep(a) && LoopEnabled(s, a) && !a.AcceptStream?
    ensures SessionIds(LoopApply(s, a)) && |LoopApply(s, a).loops| == |s.loops|
  {
    hide SessionIds;
    LoopStepChange(s, a);
    var i := s.loops[a.loop].s;
    assert HeldBy(s.loops[a.loop]) == Some(i) && InHandOf(s.streams[i], a.loop);
    assert LoopApply(s, a).streams[i].id == s.streams[i].id;
    hide LoopApply, LoopEnabled, LoopsSound;
    NoneNewKeepsIds(s, LoopApply(s, a));
  }

  lemma StepKeepsSessionIds(s: State, a: Action)
    requires Inv(s) && SessionIds(s) && Enabled(s, a)
    ensures SessionIds(Apply(s, a)) && |s.loops| <= |Apply(s, a).loops|
  {
    hide SessionIds, LiveCount, ActiveExact, LoopsSound;
    if a.AcceptStream? {
      AcceptKeepsIds(s, a.loop, a.id);
    } else if LoopStep(a) {
      hide LoopApply, LoopEnabled;
      LoopKeepsIds(s, a);
    } else if PairStep(a) {
      hide PairApply, PairEnabled;
      PairStepChange(s, a);
      NoneNewKeepsIds(s, Apply(s, a));
    } else {
      NoneNewKeepsIds(s, Apply(s, a));
    }
  }

  /** With a single proxy session the live ids are distinct throughout. */
  lemma {:induction false} OneSessionIsDistinct(s: State, acts: seq<Action>)
    requires Inv(s) && SessionIds(s) && ValidRun(s, acts) && |Final(s, acts).loops| <= 1
    ensures AlwaysDistinct(s, acts) && |s.loops| <= 1
    decreases |acts|
  {
    if acts != [] {
      StepKeepsInv(s, acts[0]);
      StepKeepsSessionIds(s, acts[0]);
      hide Inv, Apply, Enabled;
      OneSessionIsDistinct(Apply(s, acts[0]), acts[1..]);
    }
    assert forall i, j :: 0 <= i < |s.streams| && 0 <= j < |s.streams| ==> s.streams[i].loop == s.streams[j].loop;
  }

  /** So as long as one proxy session is all there ever was, active is exactly the set of live ids. */
  lemma ActiveIsExactForOneSession(s: State, acts: seq<Action>)
    requires Reached(s, acts) && |s.loops| <= 1
    ensures s.books.active == LiveIds(s.streams)
  {
    assert ActiveExact([], {});
    OneSessionIsDistinct(Init(), acts);
    ActiveIsExactWhenDistinct(s, acts);
  }

  lemma RunCons(s: State, a: Action, acts: seq<Action>)
    requires Enabled(s, a) && ValidRun(Apply(s, a), acts)
    ensures ValidRun(s, [a] + acts) && Final(s, [a] + acts) == Final(Apply(s, a), acts)
  {
    assert ([a] + acts)[0] == a && ([a] + acts)[1..] == acts;
  }

  lemma {:induction false} RunAppend(s: State, xs: seq<Action>, ys: seq<Action>)
    requires ValidRun(s, xs) && ValidRun(Final(s, xs), ys)
    ensures ValidRun(s, xs + ys) && Final(s, xs + ys) == Final(Final(s, xs), ys)
    decreases |xs|
  {
    if xs == [] {
      assert xs + ys == ys;
    } else {
      RunAppend(Apply(s, xs[0]), xs[1..], ys);
      assert xs + ys == [xs[0]] + (xs[1..] + ys);
      RunCons(s, xs[0], xs[1..] + ys);
    }
  }

  function FreshPair(n: nat): Pair {
    Pair(n, false, false, Watching, Bridging, false)
  }

  /** From an idle loop below the ceiling, a stream can be accepted, looked up, opened and launched. */
  lemma LaunchRun(s: State, l: nat, id: StreamId) returns (acts: seq<Action>)
    requires l < |s.loops| && s.loops[l].Idle? && IdFree(s.streams, l, id) && s.books.conns < MAX_STREAMS
    ensures ValidRun(s, acts)
    ensures Final(s, acts) == s.(
      books := Books(s.books.active + {id}, s.books.conns + 1),
      streams := s.streams + [Stream(id, l, Live(FreshPair(|s.exits|)), 0, 0)],
      exits := s.exits + [ExitStream(false, 0)])
  {
    var i := |s.streams|;
    var s1 := Apply(s, AcceptStream(l, id));
    var s2 := Apply(s1, LookupSome(l));
    var s3 := Apply(s2, OpenSucceeds(l));
    var s4 := Apply(s3, LaunchPair(l));
    assert s4.loops == s.loops;
    assert s4.streams == s.streams + [Stream(id, l, Live(FreshPair(|s.exits|)), 0, 0)];
    assert ValidRun(s4, []) && Final(s4, []) == s4;
    RunCons(s3, LaunchPair(l), []);
    RunCons(s2, OpenSucceeds(l), [LaunchPair(l)] + []);
    RunCons(s1, LookupSome(l), [OpenSucceeds(l)] + ([LaunchPair(l)] + []));
    acts := [AcceptStream(l, id)] + ([LookupSome(l)] + ([OpenSucceeds(l)] + ([LaunchPair(l)] + [])));
    RunCons(s, AcceptStream(l, id), [LookupSome(l)] + ([OpenSucceeds(l)] + ([LaunchPair(l)] + [])));
  }

  /** A fresh pair can end and be tracked. */
  lemma FinishRun(s: State, i: nat, n: nat) returns (acts: seq<Action>)
    requires i < |s.streams| && s.streams[i].fate == Live(FreshPair(n))
    ensures ValidRun(s, acts)
    ensures var x := s.streams[i];
      Final(s, acts) == s.(books := Release(s.books, x.id),
                           streams := Shadow(s.streams[i := Tracked(x)], x.id))
  {
    hide Shadow;
    var x, p := s.streams[i], FreshPair(n);
    var s1 := Apply(s, CopyEnds(i));
    assert s1 == WithPair(s, i, p.(pc := Unwinding, child := true));
    var s2 := Apply(s1, WatcherWakes(i));
    assert s2 == WithPair(s, i, p.(pc := Unwinding, child := true, watcher := Woken));
    var s3 := Apply(s2, WatcherEnds(i));
    assert s3 == WithPair(s, i, p.(pc := Unwinding, child := true, watcher := Ended));
    var s4 := Apply(s3, CopyJoins(i));
    assert s4 == WithPair(s, i, p.(pc := Tracking, child := true, watcher := Ended));
    acts := TrackRun(s4, i);
    assert Tracked(s4.streams[i]) == Tracked(x);
    assert s4.streams[i := Tracked(x)] == s.streams[i := Tracked(x)];
    RunCons(s3, CopyJoins(i), acts);
    acts := [CopyJoins(i)] + acts;
    RunCons(s2, WatcherEnds(i), acts);
    acts := [WatcherEnds(i)] + acts;
    RunCons(s1, WatcherWakes(i), acts);
    acts := [WatcherWakes(i)] + acts;
    RunCons(s, CopyEnds(i), acts);
    acts := [CopyEnds(i)] + acts;
  }

  lemma TrackRun(s: State, i: nat) returns (acts: seq<Action>)
    requires i < |s.streams| && s.streams[i].fate.Live? && s.streams[i].fate.pair.pc.Tracking?
    ensures ValidRun(s, acts)
    ensures var x := s.streams[i];
      Final(s, acts) == s.(books := Release(s.books, x.id),
                           streams := Shadow(s.streams[i := Tracked(x)], x.id))
  {
    hide Shadow;
    assert ValidRun(Apply(s, TrackPair(i)), []);
    RunCons(s, TrackPair(i), []);
    acts := [TrackPair(i)] + [];
  }

  /**
  Distinct live ids now are not enough: when two proxy sessions used the same stream id at the
  same time, the pair that ends first takes the other one's entry with it.
  */
  lemma ReusedIdLosesEntry() returns (acts: seq<Action>, s: State)
    ensures Reached(s, acts)
    ensures LiveDistinct(s.streams) && LiveIds(s.streams) == {5} && s.books == Books({}, 1) && |s.loops| == 2
  {
    var s00 := Apply(Init(), NewLoop);
    var s0 := Apply(s00, NewLoop);
    assert s0 == Init().(loops := [Idle, Idle]);
    hide Apply, Enabled;
    var a1 := LaunchRun(s0, 0, 5);
    var s1 := Final(s0, a1);
    var a2 := LaunchRun(s1, 1, 5);
    var s2 := Final(s1, a2);
    var a3 := FinishRun(s2, 0, 0);
    s := Final(s2, a3);
    RunAppend(s1, a2, a3);
    RunAppend(s0, a1, a2 + a3);
    RunCons(s00, NewLoop, a1 + (a2 + a3));
    RunCons(Init(), NewLoop, [NewLoop] + (a1 + (a2 + a3)));
    acts := [NewLoop] + ([NewLoop] + (a1 + (a2 + a3)));
    assert |s.streams| == 2 && s.streams[0].fate.Over? && s.streams[1].fate.Live? && s.streams[1].id == 5;
    assert IsLive(s.streams, 1);
    assert s.books.active == {};
  }

  /** `active` equals the live ids in all runs with at most n proxy sessions, if and only if n is at most 1. */
  lemma ActiveEqualsLiveForIff(n: nat)
    ensures n <= 1 <==> forall s, acts ::
      Reached(s, acts) && |s.loops| <= n ==> s.books.active == LiveIds(s.streams)
  {
    if n <= 1 {
      forall s, acts | Reached(s, acts) && |s.loops| <= n ensures s.books.active == LiveIds(s.streams) {
        ActiveIsExactForOneSession(s, acts);
      }
    } else {
      var acts, s := ReusedIdLosesEntry();
      assert Reached(s, acts) && |s.loops| <= n && 5 in LiveIds(s.streams) && 5 !in s.books.active;
    }
  }

  /**
  Where an accepted proxy stream stands: held by exactly one loop, closed once by that loop for
  one of three reasons, live, or over with its slot given back exactly once.
  */
  lemma StreamAccounted(s: State, acts: seq<Action>, i: nat)
    requires Reached(s, acts) && i < |s.streams|
    ensures var x := s.streams[i];
      && (x.fate.InHand? <==> exists l: nat :: l < |s.loops| && HeldBy(s.loops[l]) == Some(i))
      && (forall l: nat, m: nat ::
            l < |s.loops| && m < |s.loops| && HeldBy(s.loops[l]) == Some(i) == HeldBy(s.loops[m]) ==> l == m)
      && (x.closes == 1 <==> x.fate.NoExit? || x.fate.OpenFailed? || x.fate.AtLimit?)
      && (x.releases == 1 <==> x.fate.Over?)
      && x.closes + x.releases <= 1
  {
    ReachedInv(s, acts);
    assert StreamSound(s.streams[i]);
  }

  /** A slot goes back only after the pair's watcher has ended, and frees exactly one place. */
  lemma ReleaseAfterWatcher(s: State, acts: seq<Action>, i: nat)
    requires Reached(s, acts) && Enabled(s, TrackPair(i))
    ensures s.streams[i].fate.pair.watcher.Ended? && s.streams[i].fate.pair.child
    ensures s.streams[i].releases == 0 && Apply(s, TrackPair(i)).streams[i].releases == 1
    ensures Apply(s, TrackPair(i)).books.conns == s.books.conns - 1 >= 0
  {
    ReachedInv(s, acts);
    assert StreamSound(s.streams[i]);
    StepKeepsInv(s, TrackPair(i));
  }

  // ----- The slot comes back -----

  /** One of its sessions or the parent is gone, its context is cancelled, or its copy is over. */
  predicate IsEnding(p: Pair) {
    p.gone || p.child || !p.pc.Bridging?
  }

  /** Pair i is on its way out, or its slot was given back already. */
  predicate Unwinds(ss: seq<Stream>, i: nat) {
    i < |ss| && (ss[i].fate.Over? || (ss[i].fate.Live? && IsEnding(ss[i].fate.pair)))
  }

  /** How many steps of its two goroutines are left. */
  function UnwindWork(x: Stream): nat {
    if !x.fate.Live? then 0
    else
      (match x.fate.pair.watcher case Watching => 2 case Woken => 1 case Ended => 0)
      + (match x.fate.pair.pc case Bridging => 3 case Unwinding => 2 case Tracking => 1)
  }

  /**
  A step of one of the two goroutines of pair i. The copy counts as its own step once its context
  is cancelled, since Duplex.Run then returns without its peers' help.
  */
  predicate OwnStep(s: State, a: Action, i: nat) {
    || a == WatcherWakes(i) || a == WatcherEnds(i) || a == CopyJoins(i) || a == TrackPair(i)
    || (a == CopyEnds(i) && IsLive(s.streams, i) && s.streams[i].fate.pair.child)
  }

  /** The pair unwinds no less, and further if it took a step of its own. */
  predicate UnwindsOn(x: Stream, y: Stream, own: bool) {
    && (y.fate.Over? || (y.fate.Live? && IsEnding(y.fate.pair)))
    && UnwindWork(y) <= UnwindWork(x) <= 5
    && (own ==> UnwindWork(y) < UnwindWork(x))
  }

  lemma NextPairUnwinds(s: State, a: Action)
    requires PairStep(a) && PairEnabled(s, a) && !a.TrackPair? && IsEnding(s.streams[a.s].fate.pair)
    ensures var x := s.streams[a.s];
      UnwindsOn(x, x.(fate := Live(NextPair(x.fate.pair, a))), OwnStep(s, a, a.s))
  {
  }

  lemma TrackUnwinds(ss: seq<Stream>, t: nat, i: nat)
    requires t < |ss| && ss[t].fate.Live? && Unwinds(ss, i)
    ensures UnwindsOn(ss[i], Shadow(ss[t := Tracked(ss[t])], ss[t].id)[i], i == t)
  {
    hide Shadow;
  }

  lemma PairKeepsUnwinding(s: State, a: Action, i: nat)
    requires Unwinds(s.streams, i) && PairStep(a) && PairEnabled(s, a)
    ensures UnwindsOn(s.streams[i], PairApply(s, a).streams[i], OwnStep(s, a, i))
  {
    hide Shadow, NextPair, UnwindWork;
    if a.TrackPair? {
      TrackUnwinds(s.streams, a.s, i);
    } else if a.s == i {
      NextPairUnwinds(s, a);
    } else {
      SameUnwinds(s.streams[i]);
    }
  }

  lemma SameUnwinds(x: Stream)
    requires x.fate.Over? || (x.fate.Live? && IsEnding(x.fate.pair))
    ensures UnwindsOn(x, x, false)
  {
  }

  lemma StepKeepsUnwinding(s: State, a: Action, i: nat)
    requires LoopsSound(s) && Unwinds(s.streams, i) && Enabled(s, a)
    ensures i < |Apply(s, a).streams| && Unwinds(Apply(s, a).streams, i)
    ensures UnwindsOn(s.streams[i], Apply(s, a).streams[i], OwnStep(s, a, i))
  {
    hide UnwindWork;
    SameUnwinds(s.streams[i]);
    if LoopStep(a) {
      LoopStepChange(s, a);
      hide LoopApply, LoopEnabled;
    } else if PairStep(a) {
      PairStepChange(s, a);
      PairKeepsUnwinding(s, a, i);
      hide PairApply, PairEnabled;
    }
  }

  /** Its watcher wakes, its context is cancelled, its copy ends, and the slot is given back: nothing blocks. */
  lemma UnwindingNeverStuck(s: State, i: nat)
    requires Inv(s) && Unwinds(s.streams, i) && !s.streams[i].fate.Over?
    ensures exists a :: OwnStep(s, a, i) && Enabled(s, a)
  {
    hide ActiveExact, LoopsSound, LiveCount;
    assert StreamSound(s.streams[i]);
    var p := s.streams[i].fate.pair;
    var a := match p.watcher
      case Watching => WatcherWakes(i)
      case Woken => WatcherEnds(i)
      case Ended =>
        (match p.pc case Bridging => CopyEnds(i) case Unwinding => CopyJoins(i) case Tracking => TrackPair(i));
    assert OwnStep(s, a, i) && Enabled(s, a);
  }

  /** How many of the steps are pair i's own. */
  ghost function CountOwn(s: State, acts: seq<Action>, i: nat): nat
    requires ValidRun(s, acts)
    decreases |acts|
  {
    if acts == [] then 0
    else (if OwnStep(s, acts[0], i) then 1 else 0) + CountOwn(Apply(s, acts[0]), acts[1..], i)
  }

  /**
  Once a pair is on its way out the slot comes back: whatever all other goroutines do, at most
  five steps of the pair's own remain, and when none is possible the slot has been given back.
  */
  lemma {:induction false} SlotComesBack(s: State, acts: seq<Action>, i: nat)
    requires Inv(s) && Unwinds(s.streams, i) && ValidRun(s, acts)
    ensures var f := Final(s, acts);
      && Unwinds(f.streams, i)
      && CountOwn(s, acts, i) + UnwindWork(f.streams[i]) <= UnwindWork(s.streams[i]) <= 5
      && ((forall a :: OwnStep(f, a, i) ==> !Enabled(f, a)) ==>
            f.streams[i].fate.Over? && f.streams[i].releases == 1)
    decreases |acts|
  {
    assert StreamSound(s.streams[i]);
    if acts == [] {
      if !s.streams[i].fate.Over? {
        UnwindingNeverStuck(s, i);
      }
    } else {
      StepKeepsInv(s, acts[0]);
      StepKeepsUnwinding(s, acts[0], i);
      hide Inv, Apply, Enabled, UnwindWork, OwnStep;
      SlotComesBack(Apply(s, acts[0]), acts[1..], i);
    }
  }

  /** Every live pair can lose a session or its parent, and is on its way out from then on. */
  lemma SessionEndUnwinds(s: State, i: nat)
    requires IsLive(s.streams, i)
    ensures Enabled(s, SessionGone(i)) && Unwinds(Apply(s, SessionGone(i)).streams, i)
  {
  }

  // ----- Every accepted stream is decided, and how -----

  /** How a serve loop's lookup and open went. */
  datatype Way = NobodyThere | OpenBroke | OpenWorked

  /** What should become of an accepted stream. */
  function Decision(s: State, w: Way): Fate {
    match w
    case NobodyThere => NoExit
    case OpenBroke => OpenFailed
    case OpenWorked =>
      if LiveCount(s.streams) >= 256 then AtLimit else Live(Pair(|s.exits|, false, false, Watching, Bridging, false))
  }

  /** What should become of the exit streams: a new one only if the open worked, closed at once at the ceiling. */
  function ExitsAfter(s: State, w: Way): seq<ExitStream> {
    if w.OpenWorked? then s.exits + [ExitStream(false, if LiveCount(s.streams) >= 256 then 1 else 0)] else s.exits
  }

  /**
  From every reachable state a loop that is accepting can accept a stream of any id that its
  session does not use, and whichever way the lookup and the open go, it decides the stream as
  it should, closes it once or launches it, disturbs nothing else, and accepts again.
  */
  lemma StreamIsDecided(s: State, acts: seq<Action>, l: nat, id: StreamId, w: Way) returns (more: seq<Action>)
    requires Reached(s, acts) && l < |s.loops| && s.loops[l].Idle? && IdFree(s.streams, l, id)
    ensures ValidRun(s, more)
    ensures var f, fate := Final(s, more), Decision(s, w);
      && f.loops == s.loops && f.rejecters == s.rejecters && f.exits == ExitsAfter(s, w)
      && f.streams == s.streams + [Stream(id, l, fate, if fate.Live? then 0 else 1, 0)]
      && f.books == (if fate.Live? then Books(s.books.active + {id}, s.books.conns + 1) else s.books)
  {
    ConnsIsExact(s, acts);
    hide LiveCount, Reached;
    var i := |s.streams|;
    var s1 := Apply(s, AcceptStream(l, id));
    match w
    case NobodyThere =>
      var f := Apply(s1, LookupNone(l));
      assert f.loops == s.loops;
      OneStepRun(s1, LookupNone(l));
      RunCons(s, AcceptStream(l, id), [LookupNone(l)]);
      more := [AcceptStream(l, id)] + [LookupNone(l)];
    case OpenBroke =>
      more := BrokenOpenRun(s1, l, i);
      RunCons(s, AcceptStream(l, id), more);
      more := [AcceptStream(l, id)] + more;
    case OpenWorked =>
      more := OpenRun(s1, l, i);
      RunCons(s, AcceptStream(l, id), more);
      more := [AcceptStream(l, id)] + more;
  }

  lemma OneStepRun(s: State, a: Action)
    requires Enabled(s, a)
    ensures ValidRun(s, [a]) && Final(s, [a]) == Apply(s, a)
  {
    hide Apply, Enabled;
    assert ValidRun(Apply(s, a), []) && Final(Apply(s, a), []) == Apply(s, a);
    RunCons(s, a, []);
    assert [a] + [] == [a];
  }

  lemma BrokenOpenRun(s: State, l: nat, i: nat) returns (acts: seq<Action>)
    requires l < |s.loops| && s.loops[l] == Accepted(i) && i < |s.streams|
    ensures ValidRun(s, acts)
    ensures var x := s.streams[i];
      Final(s, acts) == s.(loops := s.loops[l := Idle],
                           streams := s.streams[i := x.(fate := OpenFailed, closes := x.closes + 1)])
  {
    var s1 := Apply(s, LookupSome(l));
    var f := Apply(s1, OpenFails(l));
    assert f.loops == s.loops[l := Idle];
    OneStepRun(s1, OpenFails(l));
    RunCons(s, LookupSome(l), [OpenFails(l)]);
    acts := [LookupSome(l)] + [OpenFails(l)];
  }

  lemma OpenRun(s: State, l: nat, i: nat) returns (acts: seq<Action>)
    requires l < |s.loops| && s.loops[l] == Accepted(i) && i < |s.streams|
    ensures ValidRun(s, acts)
    ensures var x, full := s.streams[i], s.books.conns >= 256;
      var y := if full then x.(fate := AtLimit, closes := x.closes + 1)
               else x.(fate := Live(Pair(|s.exits|, false, false, Watching, Bridging, false)));
      Final(s, acts) == s.(
        loops := s.loops[l := Idle], streams := s.streams[i := y],
        exits := s.exits + [ExitStream(false, if full then 1 else 0)],
        books := if full then s.books else Books(s.books.active + {x.id}, s.books.conns + 1))
  {
    var s1 := Apply(s, LookupSome(l));
    var s2 := Apply(s1, OpenSucceeds(l));
    var f := Apply(s2, LaunchPair(l));
    assert f.loops == s.loops[l := Idle];
    assert f.exits == s.exits + [ExitStream(false, if s.books.conns >= 256 then 1 else 0)];
    OneStepRun(s2, LaunchPair(l));
    RunCons(s1, OpenSucceeds(l), [LaunchPair(l)]);
    RunCons(s, LookupSome(l), [OpenSucceeds(l)] + [LaunchPair(l)]);
    acts := [LookupSome(l)] + ([OpenSucceeds(l)] + [LaunchPair(l)]);
  }

  /** A loop that holds a stream can always go on, and each of its steps brings it closer to accepting again. */
  function LoopWork(l: Loop): nat {
    match l
    case Idle => 0
    case Accepted(_) => 3
    case Found(_) => 2
    case Opened(_, _) => 1
  }

  lemma LoopMovesOn(s: State, l: nat, a: Action)
    requires l < |s.loops| && !s.loops[l].Idle?
    ensures exists b :: LoopStep(b) && b.loop == l && Enabled(s, b)
    ensures LoopStep(a) && a.loop == l && Enabled(s, a) ==> LoopWork(Apply(s, a).loops[l]) < LoopWork(s.loops[l])
    ensures (!LoopStep(a) || a.loop != l) && Enabled(s, a) ==> Apply(s, a).loops[l] == s.loops[l]
  {
    var b := match s.loops[l]
      case Accepted(_) => LookupNone(l)
      case Found(_) => OpenFails(l)
      case _ => LaunchPair(l);
    assert LoopStep(b) && b.loop == l && Enabled(s, b);
  }

  /** An exit can open a stream whenever its loop is accepting; it is closed by the loop's next step. */
  lemma RejectRun(s: State, r: nat) returns (acts: seq<Action>)
    requires r < |s.rejecters| && s.rejecters[r].Waiting?
    ensures ValidRun(s, acts) && Final(s, acts) == s.(exits := s.exits + [ExitStream(true, 1)])
  {
    var s1 := Apply(s, ExitOpens(r));
    var f := Apply(s1, Reject(r));
    assert f.rejecters == s.rejecters && f.exits == s.exits + [ExitStream(true, 1)];
    OneStepRun(s1, Reject(r));
    RunCons(s, ExitOpens(r), [Reject(r)]);
    acts := [ExitOpens(r)] + [Reject(r)];
  }

  /** A copy can end by itself at any time, and then the pair is on its way out. */
  lemma CopyEndUnwinds(s: State, i: nat)
    requires IsLive(s.streams, i) && s.streams[i].fate.pair.pc.Bridging?
    ensures Enabled(s, CopyEnds(i)) && Unwinds(Apply(s, CopyEnds(i)).streams, i)
  {
  }

  // ----- Pairing -----

  /** Where a stream of an exit session can be: with a ServeProxy loop, in a pair, or with a ServeExit loop. */
  datatype Place = ByLoop(l: nat) | ByPair(i: nat) | ByRejecter(r: nat)

  predicate Uses(s: State, p: Place, e: nat) {
    match p
    case ByLoop(l) => l < |s.loops| && s.loops[l].Opened? && s.loops[l].exit == e
    case ByPair(i) =>
      && i < |s.streams|
      && (s.streams[i].fate == Over(e) || (s.streams[i].fate.Live? && s.streams[i].fate.pair.exit == e))
    case ByRejecter(r) => r < |s.rejecters| && s.rejecters[r] == Rejecting(e)
  }

  /**
  Every exit stream is in one place or was closed once by the loop that had it, and only those
  opened by the exit are ever with a ServeExit loop, and nowhere else.
  */
  ghost predicate ExitsInv(s: State) {
    && (forall p, e: nat :: Uses(s, p, e) ==>
          e < |s.exits| && s.exits[e].closes == 0 && (s.exits[e].byExit <==> p.ByRejecter?))
    && (forall p, q, e: nat :: Uses(s, p, e) && Uses(s, q, e) ==> p == q)
    && (forall e: nat :: e < |s.exits| ==> s.exits[e].closes == 1 || exists p :: Uses(s, p, e))
  }

  lemma SameUses(s: State, s': State)
    requires ExitsInv(s) && s'.exits == s.exits && forall p, e :: Uses(s', p, e) <==> Uses(s, p, e)
    ensures ExitsInv(s')
  {
    forall e: nat | e < |s'.exits| && s'.exits[e].closes != 1 ensures exists p :: Uses(s', p, e) {
      var p :| Uses(s, p, e);
      assert Uses(s', p, e);
    }
  }

  /** A stream is opened and one place gets it. */
  lemma AddUse(s: State, s': State, p: Place)
    requires ExitsInv(s) && s'.exits == s.exits + [ExitStream(p.ByRejecter?, 0)]
    requires forall q, e :: Uses(s', q, e) <==> Uses(s, q, e) || (q == p && e == |s.exits|)
    ensures ExitsInv(s')
  {
    assert Uses(s', p, |s.exits|);
    forall e: nat | e < |s'.exits| && s'.exits[e].closes != 1 ensures exists q :: Uses(s', q, e) {
      if e < |s.exits| {
        var q :| Uses(s, q, e);
        assert Uses(s', q, e);
      }
    }
  }

  /** A loop hands its stream to a pair. */
  lemma MoveUse(s: State, s': State, p: Place, q: Place, e: nat)
    requires ExitsInv(s) && s'.exits == s.exits && Uses(s, p, e) && !p.ByRejecter? && !q.ByRejecter?
    requires forall r, f :: Uses(s', r, f) <==> (Uses(s, r, f) && !(r == p && f == e)) || (r == q && f == e)
    ensures ExitsInv(s')
  {
    assert Uses(s', q, e);
    forall f: nat | f < |s'.exits| && s'.exits[f].closes != 1 ensures exists r :: Uses(s', r, f) {
      var r :| Uses(s, r, f);
      assert f != e ==> Uses(s', r, f);
    }
  }

  /** The loop that has a stream closes it. */
  lemma CloseUse(s: State, s': State, p: Place, e: nat)
    requires ExitsInv(s) && Uses(s, p, e) && s'.exits == CloseExit(s, e).exits
    requires forall r, f :: Uses(s', r, f) <==> Uses(s, r, f) && !(r == p && f == e)
    ensures ExitsInv(s')
  {
    forall f: nat | f < |s'.exits| && s'.exits[f].closes != 1 ensures exists r :: Uses(s', r, f) {
      var r :| Uses(s, r, f);
      assert Uses(s', r, f);
    }
  }

  lemma LoopKeepsExits(s: State, a: Action)
    requires ExitsInv(s) && LoopsSound(s) && LoopStep(a) && LoopEnabled(s, a)
    ensures ExitsInv(LoopApply(s, a))
  {
    hide ExitsInv;
    var s', l := LoopApply(s, a), a.loop;
    assert HeldBy(s.loops[l]).Some? ==> InHandOf(s.streams[s.loops[l].s], l);
    if a.OpenSucceeds? {
      AddUse(s, s', ByLoop(l));
    } else if a.LaunchPair? && Admit(s.books, s.streams[s.loops[l].s].id).Some? {
      MoveUse(s, s', ByLoop(l), ByPair(s.loops[l].s), s.loops[l].exit);
    } else if a.LaunchPair? {
      CloseUse(s, s', ByLoop(l), s.loops[l].exit);
    } else {
      SameUses(s, s');
    }
  }

  lemma StepKeepsExits(s: State, a: Action)
    requires ExitsInv(s) && LoopsSound(s) && Enabled(s, a)
    ensures ExitsInv(Apply(s, a))
  {
    hide ExitsInv;
    var s' := Apply(s, a);
    if LoopStep(a) {
      LoopKeepsExits(s, a);
    } else if a.ExitOpens? {
      AddUse(s, s', ByRejecter(a.rejecter));
    } else if a.Reject? {
      CloseUse(s, s', ByRejecter(a.rejecter), s.rejecters[a.rejecter].exit);
    } else {
      SameUses(s, s');
    }
  }

  lemma {:induction false} RunKeepsExits(s: State, acts: seq<Action>)
    requires Inv(s) && ExitsInv(s) && ValidRun(s, acts)
    ensures ExitsInv(Final(s, acts))
    decreases |acts|
  {
    if acts != [] {
      StepKeepsInv(s, acts[0]);
      StepKeepsExits(s, acts[0]);
      hide Inv, ExitsInv, Apply, Enabled;
      RunKeepsExits(Apply(s, acts[0]), acts[1..]);
    }
  }

  lemma ReachedExits(s: State, acts: seq<Action>)
    requires Reached(s, acts)
    ensures ExitsInv(s)
  {
    assert ActiveExact([], {});
    RunKeepsExits(Init(), acts);
  }

  /**
  A stream that an exit opened is with exactly one ServeExit loop, or was closed exactly once.
  It is never with a ServeProxy loop and never in a pair, live or over.
  */
  lemma ReverseIsRejected(s: State, acts: seq<Action>, e: nat)
    requires Reached(s, acts) && e < |s.exits| && s.exits[e].byExit
    ensures s.exits[e].closes <= 1
    ensures s.exits[e].closes == 0 <==> exists r :: Uses(s, ByRejecter(r), e)
    ensures forall r, q :: Uses(s, ByRejecter(r), e) && Uses(s, ByRejecter(q), e) ==> r == q
    ensures forall l, i :: !Uses(s, ByLoop(l), e) && !Uses(s, ByPair(i), e)
  {
    ReachedExits(s, acts);
    if s.exits[e].closes != 1 {
      var p :| Uses(s, p, e);
      assert Uses(s, ByRejecter(p.r), e);
    }
  }

  /** Every pair's exit stream was opened by the relay, is not closed by a loop, and is no other pair's. */
  lemma PairingIsOneToOne(s: State, acts: seq<Action>, i: nat, j: nat)
    requires Reached(s, acts) && IsLive(s.streams, i) && IsLive(s.streams, j)
    ensures var e := s.streams[i].fate.pair.exit;
      && e < |s.exits| && !s.exits[e].byExit && s.exits[e].closes == 0
      && (s.streams[j].fate.pair.exit == e ==> i == j)
  {
    ReachedExits(s, acts);
    assert Uses(s, ByPair(i), s.streams[i].fate.pair.exit) && Uses(s, ByPair(j), s.streams[j].fate.pair.exit);
  }

  /** A stream that the relay opened is in exactly one place, or was closed once because of the ceiling. */
  lemma OpenedIsPlaced(s: State, acts: seq<Action>, e: nat)
    requires Reached(s, acts) && e < |s.exits| && !s.exits[e].byExit
    ensures s.exits[e].closes <= 1
    ensures s.exits[e].closes == 0 <==> exists p :: Uses(s, p, e)
    ensures forall p, q :: Uses(s, p, e) && Uses(s, q, e) ==> p == q && !p.ByRejecter?
  {
    ReachedExits(s, acts);
    if p :| Uses(s, p, e) {
      assert s.exits[e].closes == 0;
    }
  }
}
