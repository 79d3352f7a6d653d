// The critical sections of the shared object, taken one at a time, are the steps of the protocol.

module SlotSections {
  import opened Outcomes
  import opened SlotTable
  import opened SlotProtocol
  import opened SlotInvariant
  import opened SlotTheorems

  /** The object holds what the state says. */
  ghost predicate Mirrors(loop: WorkerLoop, s: State)
    reads loop
  {
    loop.View() == s.table && loop.wake == s.wake && loop.stop == s.stop && loop.capacity == s.capacity
  }

  /** A slot thread's next section, and where it goes on by what the object says; None when it ends. */
  method SlotMove(loop: WorkerLoop, s: State, thread: Thread) returns (next: Option<Phase>)
    requires Mirrors(loop, s) && thread in s.workers && s.workers[thread].phase != Registered
    modifies loop
    ensures Mirrors(loop, SlotStep(s, thread))
    ensures var workers := SlotStep(s, thread).workers;
            if next.None? then thread !in workers else thread in workers && workers[thread].phase == next.value
  {
    var w := s.workers[thread];
    match w.phase
    case Started => next := Some(if loop.stop then Finishing else Attempting);
    case Attempting => next := Some(Finishing);
    case Finishing =>
      loop.FinishSlot(w.incident, w.slot);
      next := Some(Waking);
    case Waking =>
      loop.SetWake();
      next := None;
  }

  /** The polling thread's next section, and where it goes on by what the object answered. */
  method PollMove(loop: WorkerLoop, s: State, timed: bool, refused: bool, order: seq<Incident>) returns (next: Pc)
    requires Mirrors(loop, s) && !s.pc.Returned?
    modifies loop
    ensures Mirrors(loop, PollStep(s, timed, refused, order))
    ensures next == PollStep(s, timed, refused, order).pc
  {
    match s.pc
    case Top => next := if loop.stop then JoinReading else if timed then Forgetting else ClearingWake;
    case Forgetting =>
      loop.ClearRecent();
      next := ClearingWake;
    case ClearingWake =>
      loop.ClearWake();
      next := Reading;
    case Reading =>
      var free, excluded := loop.ReadFree();
      next := if free == 0 then Waiting else Listing(free, excluded);
    case Listing(free, excluded) =>
      next := if loop.stop || refused then Waiting else Walking(NewWalk(s, free, excluded, order));
    case Walking(w) =>
      if w.pos >= |w.listing| || loop.stop || w.budget == 0 {
        next := Waiting;
      } else if w.listing[w.pos] in w.excluded {
        next := Walking(w.(pos := w.pos + 1));
      } else {
        next := Taking(w.(budget := w.budget - 1), w.listing[w.pos]);
      }
    case Taking(w, incident) =>
      var slot, taken := loop.CheckoutNow();
      next := if taken then Holding(w, incident, slot) else Waiting;
    case Holding(w, incident, slot) =>
      var launched := loop.Launch(incident, slot, s.next);
      next := if launched then Starting(w.(pos := w.pos + 1, launched := w.launched + [incident]), s.next) else Waiting;
    case Starting(w, _) => next := Walking(w);
    case Waiting => next := Top;
    case JoinReading => next := if loop.inFlight == map[] then Returned else Joining(loop.inFlight.Values);
    case Joining(_) => next := JoinReading;
  }

  /** Any enabled move of any thread, or a stop request: the object follows the protocol. */
  method Move(loop: WorkerLoop, s: State, e: Event)
    requires Mirrors(loop, s) && Enabled(s, e)
    modifies loop
    ensures Mirrors(loop, Apply(s, e))
  {
    match e
    case Stop => loop.RequestStop();
    case Slotted(thread) =>
      var _ := SlotMove(loop, s, thread);
    case Poll(timed, refused, order) =>
      var _ := PollMove(loop, s, timed, refused, order);
  }

  lemma {:induction false} RunsOneMore(s: State, events: seq<Event>, t: State, e: Event)
    requires Runs(s, events, t) && Enabled(t, e)
    ensures Runs(s, events + [e], Apply(t, e))
    decreases |events|
  {
    if events == [] {
      assert [] + [e] == [e] && [e][1..] == [];
    } else {
      RunsOneMore(Apply(s, events[0]), events[1..], t, e);
      assert (events + [e])[1..] == events[1..] + [e];
    }
  }

  /** A whole run of the object, from its constructor through the moves that are enabled: its fields
      are those of a reachable state, so the slots it lists and records make up the capacity. */
  method Drive(capacity: nat, events: seq<Event>) returns (loop: WorkerLoop, s: State, n: nat)
    requires capacity > 0
    ensures n <= |events| && (n < |events| ==> !Enabled(s, events[n]))
    ensures Runs(Initial(capacity), events[..n], s) && Mirrors(loop, s)
    ensures |loop.idle| + |HeldSlots(s)| + |loop.inFlight| == capacity
  {
    loop := new WorkerLoop(capacity);
    s, n := Initial(capacity), 0;
    while n < |events| && Enabled(s, events[n])
      invariant n <= |events| && Runs(Initial(capacity), events[..n], s) && Mirrors(loop, s) && fresh(loop)
    {
      Move(loop, s, events[n]);
      RunsOneMore(Initial(capacity), events[..n], s, events[n]);
      assert events[..n + 1] == events[..n] + [events[n]];
      s := Apply(s, events[n]);
      n := n + 1;
    }
    SlotsConserved(capacity, events[..n], s);
  }
}
