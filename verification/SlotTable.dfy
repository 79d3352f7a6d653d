// The state the polling thread and the slot threads share, and the critical sections on it.

module SlotTable {
  type Incident = nat
  type Slot = nat
  type Thread = nat

  /** What `_cond` guards: the free slots, the attempts in flight, and the incidents attempted
      since the last timed poll. */
  datatype Table = Table(idle: seq<Slot>, inFlight: map<Incident, Thread>, recent: set<Incident>)

  /** The incidents a refill must not dispatch. */
  function Excluded(t: Table): set<Incident> { t.inFlight.Keys + t.recent }

  /** `_checkout` without waiting: the most recently freed slot. */
  function TakeSlot(t: Table): Table
    requires t.idle != []
  {
    t.(idle := t.idle[..|t.idle| - 1])
  }

  function TopSlot(t: Table): Slot
    requires t.idle != []
  {
    t.idle[|t.idle| - 1]
  }

  function ReturnSlot(t: Table, slot: Slot): Table { t.(idle := t.idle + [slot]) }

  /** The launching half of `_launch`. */
  function Register(t: Table, incident: Incident, thread: Thread): Table {
    t.(inFlight := t.inFlight[incident := thread])
  }

  /** The `finally` section of `_slot`. */
  function Release(t: Table, incident: Incident, slot: Slot): Table {
    Table(t.idle + [slot], t.inFlight - {incident}, t.recent + {incident})
  }

  function ForgetRecent(t: Table): Table { t.(recent := {}) }

  /** The object the threads share. Each method is one `with self._cond` section, or one
      operation on an event; the specification functions above give the new table. */
  class WorkerLoop {
    const capacity: nat
    var idle: seq<Slot>
    var inFlight: map<Incident, Thread>
    var recent: set<Incident>
    var wake: bool
    var stop: bool

    function View(): Table reads this { Table(idle, inFlight, recent) }

    constructor (capacity: nat)
      requires capacity > 0
      ensures this.capacity == capacity && View() == InitialTable(capacity) && !wake && !stop
    {
      this.capacity := capacity;
      idle := seq(capacity, i requires 0 <= i < capacity => capacity - 1 - i);
      inFlight, recent, wake, stop := map[], {}, false, false;
    }

    method CheckoutNow() returns (slot: Slot, taken: bool)
      modifies this`idle
      ensures taken <==> old(idle) != []
      ensures taken ==> slot == TopSlot(old(View())) && View() == TakeSlot(old(View()))
      ensures !taken ==> View() == old(View())
    {
      slot, taken := 0, idle != [];
      if taken {
        slot := idle[|idle| - 1];
        idle := idle[..|idle| - 1];
      }
    }

    method Launch(incident: Incident, slot: Slot, thread: Thread) returns (launched: bool)
      modifies this`idle, this`inFlight
      ensures launched <==> !stop
      ensures View() == if launched then Register(old(View()), incident, thread) else ReturnSlot(old(View()), slot)
    {
      if stop {
        idle := idle + [slot];
        return false;
      }
      inFlight := inFlight[incident := thread];
      return true;
    }

    method FinishSlot(incident: Incident, slot: Slot)
      modifies this`idle, this`inFlight, this`recent
      ensures View() == Release(old(View()), incident, slot)
    {
      inFlight := inFlight - {incident};
      recent := recent + {incident};
      idle := idle + [slot];
    }

    method ReadFree() returns (free: nat, excluded: set<Incident>)
      ensures free == |View().idle| && excluded == Excluded(View())
    {
      free, excluded := |idle|, inFlight.Keys + recent;
    }

    method SetWake()
      modifies this`wake
      ensures wake
    {
      wake := true;
    }

    method ClearWake()
      modifies this`wake
      ensures !wake
    {
      wake := false;
    }

    method RequestStop()
      modifies this`stop
      ensures stop
    {
      stop := true;
    }

    method ClearRecent()
      modifies this`recent
      ensures View() == ForgetRecent(old(View()))
    {
      recent := {};
    }
  }

  /** All slots idle; the list is reversed so that slot 0 is taken first. */
  function InitialTable(capacity: nat): Table {
    Table(seq(capacity, i requires 0 <= i < capacity => capacity - 1 - i), map[], {})
  }
}
