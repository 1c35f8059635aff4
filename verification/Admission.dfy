/**
The two counting semaphores: the proxy's admission of browser connections, which refuses when
full, and the exit's bound on name lookups, which waits. Both are buffered channels; occupancy
is the number of tokens in the channel.
*/
module Admission {
  const MAX_PENDING: nat := 256

  /** The channel as a semaphore. */
  class Semaphore {
    var used: nat
    const capacity: nat

    constructor (capacity: nat)
      ensures used == 0 && this.capacity == capacity
    {
      used := 0;
      this.capacity := capacity;
    }

    /** Listener.acquire: a send that does not wait. */
    method TryAcquire() returns (ok: bool)
      modifies this
      ensures ok <==> old(used) < capacity
      ensures used == old(used) + if ok then 1 else 0
    {
      if used < capacity {
        used := used + 1;
        return true;
      }
      return false;
    }

    /** Listener.release: a receive that does not wait; `hit` is false in the default branch. */
    method Release() returns (hit: bool)
      modifies this
      ensures hit <==> old(used) > 0
      ensures used == old(used) - if hit then 1 else 0
    {
      if used > 0 {
        used := used - 1;
        return true;
      }
      return false;
    }
  }

  /**
  One goroutine. Proxy connections go New, Inside or Refused, Over. Lookups go New, Queued,
  Inside, Over, or give up from New or Queued when the base context is done.
  */
  datatype Pc = New | Queued | Inside | Refused | Over

  /** `missed` counts releases that found the channel empty. */
  datatype State = State(capacity: nat, used: nat, goroutines: seq<Pc>, baseDone: bool, missed: nat)

  datatype Action =
    | Arrive
    | Acquire(g: nat)        // proxy: the select's send case
    | Refuse(g: nat)         // proxy: the select's default case
    | Enqueue(g: nat)        // resolver: base is alive, wait for a slot
    | Enter(g: nat)          // resolver: the limiter's send goes through
    | GiveUp(g: nat)         // resolver: base is done
    | Leave(g: nat)          // either: the deferred receive
    | EndBase

  predicate At(s: State, g: nat, pc: Pc) {
    g < |s.goroutines| && s.goroutines[g] == pc
  }

  predicate Enabled(s: State, a: Action) {
    match a
    case Arrive => true
    case Acquire(g) => At(s, g, New) && s.used < s.capacity
    case Refuse(g) => At(s, g, New) && s.used >= s.capacity
    case Enqueue(g) => At(s, g, New) && !s.baseDone
    case Enter(g) => At(s, g, Queued) && s.used < s.capacity
    case GiveUp(g) => s.baseDone && (At(s, g, New) || At(s, g, Queued))
    case Leave(g) => At(s, g, Inside)
    case EndBase => true
  }

  function Set(s: State, g: nat, pc: Pc): State
    requires g < |s.goroutines|
  {
    s.(goroutines := s.goroutines[g := pc])
  }

  function Apply(s: State, a: Action): State
    requires Enabled(s, a)
  {
    match a
    case Arrive => s.(goroutines := s.goroutines + [New])
    case Acquire(g) => Set(s.(used := s.used + 1), g, Inside)
    case Refuse(g) => Set(s, g, Refused)
    case Enqueue(g) => Set(s, g, Queued)
    case Enter(g) => Set(s.(used := s.used + 1), g, Inside)
    case GiveUp(g) => Set(s, g, Over)
    case Leave(g) => Set(if s.used > 0 then s.(used := s.used - 1) else s.(missed := s.missed + 1), g, Over)
    case EndBase => s.(baseDone := true)
  }

  function Weight(pc: Pc): nat {
    if pc.Inside? then 1 else 0
  }

  /** How many goroutines hold a token. */
  function Holders(gs: seq<Pc>): nat {
    if gs == [] then 0 else Weight(gs[0]) + Holders(gs[1..])
  }

  lemma {:induction false} HoldersUpdate(gs: seq<Pc>, g: nat, pc: Pc)
    requires g < |gs|
    ensures Holders(gs[g := pc]) == Holders(gs) - Weight(gs[g]) + Weight(pc)
    ensures Holders(gs) >= Weight(gs[g])
  {
    if g == 0 {
      assert gs[g := pc][1..] == gs[1..];
    } else {
      assert gs[g := pc][1..] == gs[1..][g - 1 := pc];
      HoldersUpdate(gs[1..], g - 1, pc);
    }
  }

  lemma {:induction false} HoldersAppend(gs: seq<Pc>, pc: Pc)
    ensures Holders(gs + [pc]) == Holders(gs) + Weight(pc)
  {
    if gs != [] {
      assert (gs + [pc])[1..] == gs[1..] + [pc];
      HoldersAppend(gs[1..], pc);
    }
  }

  predicate Inv(s: State) {
    s.used == Holders(s.goroutines) <= s.capacity && s.missed == 0
  }

  lemma StepKeepsInv(s: State, a: Action)
    requires Inv(s) && Enabled(s, a)
    ensures Inv(Apply(s, a)) && Apply(s, a).capacity == s.capacity
  {
    match a
    case Arrive => HoldersAppend(s.goroutines, New);
    case EndBase =>
    case Acquire(g) => HoldersUpdate(s.goroutines, g, Inside);
    case Refuse(g) => HoldersUpdate(s.goroutines, g, Refused);
    case Enqueue(g) => HoldersUpdate(s.goroutines, g, Queued);
    case Enter(g) => HoldersUpdate(s.goroutines, g, Inside);
    case GiveUp(g) => HoldersUpdate(s.goroutines, g, Over);
    case Leave(g) => HoldersUpdate(s.goroutines, g, Over);
  }

  ghost predicate ValidRun(s: State, acts: seq<Action>)
    decreases |acts|
  {
    acts == [] || (Enabled(s, acts[0]) && ValidRun(Apply(s, acts[0]), acts[1..]))
  }

  ghost function Final(s: State, acts: seq<Action>): State
    requires ValidRun(s, acts)
    decreases |acts|
  {
    if acts == [] then s else Final(Apply(s, acts[0]), acts[1..])
  }

  lemma {:induction false} RunKeepsInv(s: State, acts: seq<Action>)
    requires Inv(s) && ValidRun(s, acts)
    ensures Inv(Final(s, acts)) && Final(s, acts).capacity == s.capacity
    decreases |acts|
  {
    if acts != [] {
      StepKeepsInv(s, acts[0]);
      RunKeepsInv(Apply(s, acts[0]), acts[1..]);
    }
  }

  /**
  Over whole runs, occupancy equals the goroutines that hold a token, never exceeds the
  capacity, and no release ever finds the channel empty.
  */
  lemma OccupancyIsExact(capacity: nat, acts: seq<Action>)
    requires ValidRun(State(capacity, 0, [], false, 0), acts)
    ensures var s := Final(State(capacity, 0, [], false, 0), acts);
      s.used == Holders(s.goroutines) <= capacity && s.missed == 0
  {
    RunKeepsInv(State(capacity, 0, [], false, 0), acts);
  }

  /** The proxy never has more than 256 admitted connections, and release always finds a token. */
  lemma ProxyAdmitsAtMost256(acts: seq<Action>)
    requires ValidRun(State(MAX_PENDING, 0, [], false, 0), acts)
    ensures var s := Final(State(MAX_PENDING, 0, [], false, 0), acts);
      Holders(s.goroutines) <= 256 && s.missed == 0
  {
    OccupancyIsExact(MAX_PENDING, acts);
  }

  // ----- Everybody gets through -----

  function Left(pc: Pc): nat {
    match pc
    case New => 3
    case Queued => 2
    case Inside => 1
    case _ => 0
  }

  function Work(gs: seq<Pc>): nat {
    if gs == [] then 0 else Left(gs[0]) + Work(gs[1..])
  }

  lemma {:induction false} WorkUpdate(gs: seq<Pc>, g: nat, pc: Pc)
    requires g < |gs|
    ensures Work(gs[g := pc]) == Work(gs) - Left(gs[g]) + Left(pc)
  {
    if g == 0 {
      assert gs[g := pc][1..] == gs[1..];
    } else {
      assert gs[g := pc][1..] == gs[1..][g - 1 := pc];
      WorkUpdate(gs[1..], g - 1, pc);
    }
  }

  lemma {:induction false} SomeHolder(gs: seq<Pc>) returns (g: nat)
    requires Holders(gs) > 0
    ensures g < |gs| && gs[g].Inside?
  {
    if gs[0].Inside? {
      g := 0;
    } else {
      g := SomeHolder(gs[1..]);
      g := g + 1;
    }
  }

  /** A goroutine acts; arrivals and the end of the base context are outside. */
  predicate OwnStep(a: Action) {
    !a.Arrive? && !a.EndBase?
  }

  /** Whoever is not through can go on, or waits for a full semaphore that somebody can leave. */
  lemma SomebodyMoves(s: State, g: nat)
    requires Inv(s) && s.capacity > 0 && g < |s.goroutines| && Left(s.goroutines[g]) > 0
    ensures exists a :: OwnStep(a) && Enabled(s, a)
  {
    match s.goroutines[g]
    case New =>
      assert OwnStep(Acquire(g)) && OwnStep(Refuse(g)) && (Enabled(s, Acquire(g)) || Enabled(s, Refuse(g)));
    case Inside => assert OwnStep(Leave(g)) && Enabled(s, Leave(g));
    case Queued =>
      if s.used < s.capacity {
        assert OwnStep(Enter(g)) && Enabled(s, Enter(g));
      } else {
        var h := SomeHolder(s.goroutines);
        assert OwnStep(Leave(h)) && Enabled(s, Leave(h));
      }
  }

  function CountArrivals(acts: seq<Action>): nat {
    if acts == [] then 0 else (if acts[0].Arrive? then 1 else 0) + CountArrivals(acts[1..])
  }

  function CountOwn(acts: seq<Action>): nat {
    if acts == [] then 0 else (if OwnStep(acts[0]) then 1 else 0) + CountOwn(acts[1..])
  }

  lemma {:induction false} WorkAppend(gs: seq<Pc>, pc: Pc)
    ensures Work(gs + [pc]) == Work(gs) + Left(pc)
  {
    if gs != [] {
      assert (gs + [pc])[1..] == gs[1..] + [pc];
      WorkAppend(gs[1..], pc);
    }
  }

  lemma StepWorks(s: State, a: Action)
    requires Enabled(s, a)
    ensures OwnStep(a) ==> Work(Apply(s, a).goroutines) < Work(s.goroutines)
    ensures !OwnStep(a) ==>
      Work(Apply(s, a).goroutines) == Work(s.goroutines) + if a.Arrive? then 3 else 0
  {
    match a
    case Arrive => WorkAppend(s.goroutines, New);
    case EndBase =>
    case Acquire(g) => WorkUpdate(s.goroutines, g, Inside);
    case Refuse(g) => WorkUpdate(s.goroutines, g, Refused);
    case Enqueue(g) => WorkUpdate(s.goroutines, g, Queued);
    case Enter(g) => WorkUpdate(s.goroutines, g, Inside);
    case GiveUp(g) => WorkUpdate(s.goroutines, g, Over);
    case Leave(g) => WorkUpdate(s.goroutines, g, Over);
  }

  /** At most three steps for each arrival, and when nobody can move everybody is through, with all tokens back. */
  lemma {:induction false} EverybodyGetsThrough(s: State, acts: seq<Action>)
    requires Inv(s) && s.capacity > 0 && ValidRun(s, acts)
    ensures var f := Final(s, acts);
      && CountOwn(acts) + Work(f.goroutines) <= Work(s.goroutines) + 3 * CountArrivals(acts)
      && ((forall a :: OwnStep(a) ==> !Enabled(f, a)) ==>
            f.used == 0 && forall g :: 0 <= g < |f.goroutines| ==> f.goroutines[g].Refused? || f.goroutines[g].Over?)
    decreases |acts|
  {
    if acts == [] {
      if g :| 0 <= g < |s.goroutines| && Left(s.goroutines[g]) > 0 {
        SomebodyMoves(s, g);
      } else if s.used > 0 {
        var g := SomeHolder(s.goroutines);
      }
    } else {
      StepKeepsInv(s, acts[0]);
      StepWorks(s, acts[0]);
      EverybodyGetsThrough(Apply(s, acts[0]), acts[1..]);
    }
  }

  /** A connection is refused only if, and a lookup waits only while, all places are taken. */
  lemma RefusedIffFull(s: State, g: nat)
    requires Inv(s) && g < |s.goroutines|
    ensures s.goroutines[g].New? ==> (Enabled(s, Refuse(g)) <==> Holders(s.goroutines) == s.capacity)
    ensures s.goroutines[g].New? ==> (Enabled(s, Acquire(g)) <==> Holders(s.goroutines) < s.capacity)
    ensures s.goroutines[g].Queued? ==> (Enabled(s, Enter(g)) <==> Holders(s.goroutines) < s.capacity)
    ensures s.goroutines[g].New? || s.goroutines[g].Queued? ==> (Enabled(s, GiveUp(g)) <==> s.baseDone)
    ensures s.goroutines[g].New? ==> (Enabled(s, Enqueue(g)) <==> !s.baseDone)
  {
  }
}
