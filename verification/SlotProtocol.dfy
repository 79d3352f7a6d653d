// The worker loop as a step system: a polling thread, slot threads, and a stop request that
// may arrive at any moment. Every step is one critical section or one event operation.

module SlotProtocol {
  import opened SlotTable

  // ------------------------------------------------ states

  /** Where a slot thread is; a thread that has ended is no longer listed. */
  datatype Phase =
    | Registered   // in flight, `start()` not yet called
    | Started      // about to check `stop`
    | Attempting   // inside `resume`
    | Finishing    // about to release the slot
    | Waking       // released, about to set the wake event

  datatype Worker = Worker(incident: Incident, slot: Slot, phase: Phase)

  /** One walk of `_refill` over a claim listing: `order` is the claim order the store had. */
  datatype Walk = Walk(
    order: seq<Incident>, listing: seq<Incident>, free: nat, excluded: set<Incident>,
    budget: nat, pos: nat, launched: seq<Incident>)

  /** The polling thread's next action in `run`. */
  datatype Pc =
    | Top                                        // `while not stop`
    | Forgetting                                 // a timed poll is about to clear `_recent`
    | ClearingWake
    | Reading                                    // `_refill`'s first section
    | Listing(free: nat, excluded: set<Incident>)
    | Walking(walk: Walk)
    | Taking(walk: Walk, incident: Incident)     // `_checkout` for the entry at `pos`
    | Holding(walk: Walk, incident: Incident, slot: Slot)   // `_launch` of that entry
    | Starting(walk: Walk, thread: Thread)       // `thread.start()`
    | Waiting
    | JoinReading                                // `_join_in_flight`
    | Joining(threads: set<Thread>)
    | Returned

  /** Facts about the run so far that the code does not keep but its promises speak of. */
  datatype History = History(
    sincePoll: seq<Incident>,   // launched since `_recent` was last cleared
    carried: set<Incident>,     // in flight when `_recent` was last cleared
    released: bool,             // a slot was released since the wake event was last cleared
    launches: nat,              // attempts launched
    admitted: nat)              // attempts whose own stop check passed

  datatype State = State(
    capacity: nat, table: Table, wake: bool, stop: bool,
    pc: Pc, workers: map<Thread, Worker>, next: Thread, history: History)

  function Initial(capacity: nat): State {
    State(capacity, InitialTable(capacity), false, false, Top, map[], 0, History([], {}, false, 0, 0))
  }

  // ------------------------------------------------ steps

  /** Who moves, with the outside answers the move needs. */
  datatype Event =
    | Poll(timed: bool, refused: bool, order: seq<Incident>)
    | Slotted(thread: Thread)
    | Stop

  predicate NoDuplicates(s: seq<Incident>) {
    forall i, j :: 0 <= i < j < |s| ==> s[i] != s[j]
  }

  function Limit(free: nat, excluded: set<Incident>): nat { free + |excluded| + 2 }

  function Prefix(s: seq<Incident>, n: nat): seq<Incident> { if |s| <= n then s else s[..n] }

  function NewWalk(s: State, free: nat, excluded: set<Incident>, order: seq<Incident>): Walk {
    Walk(order, Prefix(order, Limit(free, excluded)), free, excluded,
         if s.capacity > 1 then free else |excluded| + free + 2, 0, [])
  }

  predicate Enabled(s: State, e: Event) {
    match e
    case Stop => !s.stop
    case Slotted(thread) => thread in s.workers && s.workers[thread].phase != Registered
    case Poll(timed, refused, order) =>
      // the listing names each incident at most once: one row per incident and its current Run
      && NoDuplicates(order)
      && match s.pc
         case Returned => false
         case Joining(threads) => forall t :: t in threads ==> t !in s.workers
         case Waiting => s.stop || timed || s.wake
         case _ => true
  }

  function Apply(s: State, e: Event): State
    requires Enabled(s, e)
  {
    match e
    case Stop => s.(stop := true)
    case Slotted(thread) => SlotStep(s, thread)
    case Poll(timed, refused, order) => PollStep(s, timed, refused, order)
  }

  function SlotStep(s: State, thread: Thread): State
    requires thread in s.workers && s.workers[thread].phase != Registered
  {
    var w := s.workers[thread];
    match w.phase
    case Started =>
      if s.stop then s.(workers := s.workers[thread := w.(phase := Finishing)])
      else s.(workers := s.workers[thread := w.(phase := Attempting)],
              history := s.history.(admitted := s.history.admitted + 1))
    case Attempting => s.(workers := s.workers[thread := w.(phase := Finishing)])
    case Finishing =>
      s.(table := Release(s.table, w.incident, w.slot),
         workers := s.workers[thread := w.(phase := Waking)],
         history := s.history.(released := true))
    case Waking => s.(wake := true, workers := s.workers - {thread})
  }

  function PollStep(s: State, timed: bool, refused: bool, order: seq<Incident>): State
    requires !s.pc.Returned?
  {
    match s.pc
    case Top => s.(pc := if s.stop then JoinReading else if timed then Forgetting else ClearingWake)
    case Forgetting =>
      s.(table := ForgetRecent(s.table), history := s.history.(sincePoll := [], carried := s.table.inFlight.Keys),
         pc := ClearingWake)
    case ClearingWake => s.(wake := false, history := s.history.(released := false), pc := Reading)
    case Reading =>
      s.(pc := if s.table.idle == [] then Waiting else Listing(|s.table.idle|, Excluded(s.table)))
    case Listing(free, excluded) =>
      s.(pc := if s.stop || refused then Waiting else Walking(NewWalk(s, free, excluded, order)))
    case Walking(w) => s.(pc := WalkStep(s, w))
    case Taking(w, incident) =>
      if s.table.idle == [] then s.(pc := Waiting)
      else s.(table := TakeSlot(s.table), pc := Holding(w, incident, TopSlot(s.table)))
    case Holding(w, incident, slot) => LaunchStep(s, w, incident, slot)
    case Starting(w, thread) =>
      s.(workers := if thread in s.workers then s.workers[thread := s.workers[thread].(phase := Started)] else s.workers,
         pc := Walking(w))
    case Waiting => s.(pc := Top)
    case JoinReading =>
      s.(pc := if s.table.inFlight == map[] then Returned else Joining(s.table.inFlight.Values))
    case Joining(_) => s.(pc := JoinReading)
    case Returned => s
  }

  function WalkStep(s: State, w: Walk): Pc {
    if w.pos >= |w.listing| || s.stop || w.budget == 0 then Waiting
    else if w.listing[w.pos] in w.excluded then Walking(w.(pos := w.pos + 1))
    else Taking(w.(budget := w.budget - 1), w.listing[w.pos])
  }

  function LaunchStep(s: State, w: Walk, incident: Incident, slot: Slot): State {
    if s.stop then s.(table := ReturnSlot(s.table, slot), pc := Waiting)
    else
      s.(table := Register(s.table, incident, s.next),
         workers := s.workers[s.next := Worker(incident, slot, Registered)],
         next := s.next + 1,
         history := s.history.(sincePoll := s.history.sincePoll + [incident], launches := s.history.launches + 1),
         pc := Starting(w.(pos := w.pos + 1, launched := w.launched + [incident]), s.next))
  }
}
