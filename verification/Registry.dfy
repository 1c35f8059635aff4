/**
The relay's registry: at most one session per role, each holder stamped with a generation.
The functions are the meaning of one lock region each; the class updates its fields in place.
*/
module Registry {
  import opened Bytes

  datatype Mode = ModeRelay | ModeExit | ModeProxy

  /** A yamux session, by identity. */
  type Mux = nat

  const GENERATIONS: nat := 0x1_0000_0000_0000_0000

  /** uint64 increment, which wraps. */
  function NextGen(gen: nat): nat {
    (gen + 1) % GENERATIONS
  }

  datatype Slot = Slot(mux: Option<Mux>, gen: nat)
  type Slots = map<Mode, Slot>

  /** The slot of a role; a role never registered has no entry, which reads as an empty slot. */
  function SlotOf(slots: Slots, mode: Mode): Slot {
    if mode in slots then slots[mode] else Slot(None, 0)
  }

  /** A generation's place in the counter's first round: it starts at 1, and 0 comes last. */
  function Age(gen: nat): nat {
    if gen == 0 then GENERATIONS else gen
  }

  /** How often a slot has changed, as long as its counter has not gone round. */
  function SlotAge(slots: Slots, mode: Mode): nat {
    if mode in slots then Age(slots[mode].gen) else 0
  }

  function AfterRegister(slots: Slots, mode: Mode, mux: Mux): Slots {
    slots[mode := Slot(Some(mux), NextGen(SlotOf(slots, mode).gen))]
  }

  function AfterVacate(slots: Slots, mode: Mode, gen: nat): Slots {
    if mode in slots && slots[mode].gen == gen
    then slots[mode := Slot(None, NextGen(gen))]
    else slots
  }

  function CurrentOf(slots: Slots, mode: Mode): Option<(Mux, nat)> {
    var s := SlotOf(slots, mode);
    if s.mux.Some? then Some((s.mux.value, s.gen)) else None
  }

  predicate IsStale(slots: Slots, mode: Mode, gen: nat) {
    CurrentOf(slots, mode) == None || CurrentOf(slots, mode).value.1 != gen
  }

  class Registry {
    var slots: Slots

    constructor ()
      ensures slots == map[]
      ensures forall mode :: CurrentOf(slots, mode) == None
    {
      slots := map[];
    }

    /** Replaces the holder of `mode`, handing the previous one back to be closed by the caller. */
    method Register(mode: Mode, mux: Mux) returns (prev: Option<Mux>, gen: nat)
      modifies this
      ensures slots == AfterRegister(old(slots), mode, mux)
      ensures CurrentOf(slots, mode) == Some((mux, gen))
      ensures prev == (match CurrentOf(old(slots), mode) case Some(h) => Some(h.0) case None => None)
      ensures forall m :: m != mode ==> CurrentOf(slots, m) == CurrentOf(old(slots), m)
    {
      var e := Slot(None, 0);
      if mode in slots {
        e := slots[mode];
      }
      prev := e.mux;
      gen := NextGen(e.gen);
      slots := slots[mode := Slot(Some(mux), gen)];
    }

    method Current(mode: Mode) returns (mux: Mux, gen: nat, ok: bool)
      ensures ok <==> CurrentOf(slots, mode).Some?
      ensures ok ==> CurrentOf(slots, mode) == Some((mux, gen))
    {
      if mode !in slots || slots[mode].mux.None? {
        return 0, 0, false;
      }
      return slots[mode].mux.value, slots[mode].gen, true;
    }

    method Stale(mode: Mode, gen: nat) returns (r: bool)
      ensures r <==> IsStale(slots, mode, gen)
      ensures !r <==> exists mux :: CurrentOf(slots, mode) == Some((mux, gen))
    {
      if mode !in slots || slots[mode].mux.None? {
        return true;
      }
      r := slots[mode].gen != gen;
    }

    /** Drops the holder only if `gen` still owns the slot: a stale generation erases nothing. */
    method Vacate(mode: Mode, gen: nat)
      modifies this
      ensures slots == AfterVacate(old(slots), mode, gen)
      ensures !IsStale(old(slots), mode, gen) ==> CurrentOf(slots, mode) == None
      ensures IsStale(old(slots), mode, gen) ==> CurrentOf(slots, mode) == CurrentOf(old(slots), mode)
      ensures forall m :: m != mode ==> CurrentOf(slots, m) == CurrentOf(old(slots), m)
    {
      if mode !in slots || slots[mode].gen != gen {
        return;
      }
      slots := slots[mode := Slot(None, NextGen(slots[mode].gen))];
    }
  }
}
