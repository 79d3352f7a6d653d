// What every step of the worker loop keeps.

module SlotInvariant {
  import opened SlotTable
  import opened SlotProtocol

  predicate Busy(w: Worker) { w.phase != Waking }

  /** The slot the polling thread has checked out and not yet handed on. */
  function HeldSlots(s: State): set<Slot> { if s.pc.Holding? then {s.pc.slot} else {} }

  // ------------------------------------------------ the invariant, part by part

  /** Idle, held and in-flight slots make up the capacity. */
  ghost predicate Counted(s: State) {
    |s.table.idle| + |HeldSlots(s)| + |s.table.inFlight| == s.capacity
  }

  /** No slot, hence no runner, is in two places. */
  ghost predicate SlotsApart(s: State) {
    && (forall i, j :: 0 <= i < j < |s.table.idle| ==> s.table.idle[i] != s.table.idle[j])
    && (forall x :: x in s.table.idle ==> x < s.capacity && x !in HeldSlots(s))
    && (forall x :: x in HeldSlots(s) ==> x < s.capacity)
    && (forall t {:trigger s.workers[t]} :: t in s.workers && Busy(s.workers[t]) ==>
          s.workers[t].slot < s.capacity && s.workers[t].slot !in s.table.idle && s.workers[t].slot !in HeldSlots(s))
    && (forall t, u {:trigger s.workers[t], s.workers[u]} ::
          t in s.workers && u in s.workers && t != u && Busy(s.workers[t]) && Busy(s.workers[u]) ==>
          s.workers[t].slot != s.workers[u].slot)
  }

  /** In flight is exactly: some thread is busy with it, and that thread is the one recorded. */
  ghost predicate FlightsMatch(s: State) {
    && (forall t {:trigger s.workers[t]} :: t in s.workers && Busy(s.workers[t]) ==>
          s.workers[t].incident in s.table.inFlight && s.table.inFlight[s.workers[t].incident] == t)
    && (forall i {:trigger s.table.inFlight[i]} :: i in s.table.inFlight ==>
          s.table.inFlight[i] in s.workers && Busy(s.workers[s.table.inFlight[i]])
          && s.workers[s.table.inFlight[i]].incident == i)
  }

  ghost predicate ThreadsOrdered(s: State) {
    && (forall t {:trigger s.workers[t]} :: t in s.workers ==> t < s.next)
    && (forall t {:trigger s.workers[t]} :: t in s.workers && s.workers[t].phase == Registered ==>
          s.pc.Starting? && s.pc.thread == t)
    && (s.pc.Starting? ==> s.pc.thread in s.workers && s.workers[s.pc.thread].phase == Registered)
  }

  /** Between two timed polls no incident is launched twice. */
  ghost predicate OncePerPoll(s: State) {
    && NoDuplicates(s.history.sincePoll)
    && forall i {:trigger i in s.history.sincePoll} :: i in s.history.sincePoll ==> i in Excluded(s.table)
  }

  /** A slot released since the wake event was cleared has set it or is about to. */
  ghost predicate WakePending(s: State) {
    s.history.released ==> s.wake || exists t :: t in s.workers && s.workers[t].phase == Waking
  }

  ghost predicate Joined(s: State) {
    && (s.pc.JoinReading? || s.pc.Joining? || s.pc.Returned? ==> s.stop)
    && (s.pc.Joining? ==> forall i {:trigger s.table.inFlight[i]} :: i in s.table.inFlight ==> s.table.inFlight[i] in s.pc.threads)
    && (s.pc.Returned? ==> s.table.inFlight == map[])
  }

  // ------------------------------------------------ the walk over one listing

  /** The entries that may be dispatched, in order. */
  function Fresh(s: seq<Incident>, excluded: set<Incident>): seq<Incident> {
    if s == [] then []
    else Fresh(s[..|s| - 1], excluded) + if s[|s| - 1] in excluded then [] else [s[|s| - 1]]
  }

  /** The walk has handled `listing[..pos]`; `spent` more of the budget is committed. */
  ghost predicate WalkOk(s: State, w: Walk, spent: nat) {
    && NoDuplicates(w.order) && w.listing == Prefix(w.order, Limit(w.free, w.excluded))
    && w.pos <= |w.listing|
    && w.launched == Fresh(w.listing[..w.pos], w.excluded)
    && (forall i {:trigger i in Excluded(s.table)} :: i in Excluded(s.table) ==> i in w.excluded || i in w.launched)
    && w.free > 0
    && w.budget + spent + |w.launched| == (if s.capacity > 1 then w.free else |w.excluded| + w.free + 2)
  }

  ghost predicate NextEntry(w: Walk, incident: Incident) {
    w.pos < |w.listing| && w.listing[w.pos] == incident && incident !in w.excluded
  }

  /** Until its first launch a walk has a slot to take. */
  ghost predicate SlotLeft(s: State, w: Walk) { w.launched == [] ==> s.table.idle != [] }

  ghost predicate WalkKept(s: State) {
    match s.pc
    case Listing(free, excluded) =>
      free > 0 && |s.table.idle| >= free && forall i {:trigger i in Excluded(s.table)} :: i in Excluded(s.table) ==> i in excluded
    case Walking(w) => WalkOk(s, w, 0) && SlotLeft(s, w) && (s.capacity > 1 ==> |s.table.idle| >= w.budget)
    case Taking(w, incident) =>
      WalkOk(s, w, 1) && NextEntry(w, incident) && SlotLeft(s, w) && (s.capacity > 1 ==> |s.table.idle| >= w.budget + 1)
    case Holding(w, incident, _) =>
      WalkOk(s, w, 1) && NextEntry(w, incident) && (s.capacity > 1 ==> |s.table.idle| >= w.budget)
    case Starting(w, _) => WalkOk(s, w, 0) && w.launched != [] && (s.capacity > 1 ==> |s.table.idle| >= w.budget)
    case _ => true
  }

  ghost predicate Inv(s: State) {
    && Counted(s) && SlotsApart(s) && FlightsMatch(s) && ThreadsOrdered(s)
    && OncePerPoll(s) && WakePending(s) && Joined(s) && WalkKept(s)
  }

  // ------------------------------------------------ sequence facts

  lemma {:induction false} FreshMember(s: seq<Incident>, excluded: set<Incident>, i: Incident)
    ensures i in Fresh(s, excluded) <==> i in s && i !in excluded
    decreases |s|
  {
    if s != [] {
      FreshMember(s[..|s| - 1], excluded, i);
      assert s == s[..|s| - 1] + [s[|s| - 1]];
    }
  }

  lemma {:induction false} FreshSnoc(s: seq<Incident>, excluded: set<Incident>, pos: nat)
    requires pos < |s|
    ensures Fresh(s[..pos + 1], excluded) == Fresh(s[..pos], excluded) + if s[pos] in excluded then [] else [s[pos]]
  {
    assert s[..pos + 1][..pos] == s[..pos];
  }

  /** The next entry of a duplicate-free listing is neither excluded nor launched by this walk. */
  lemma {:induction false} NextIsNew(s: State, w: Walk, incident: Incident, spent: nat)
    requires WalkOk(s, w, spent) && NextEntry(w, incident)
    ensures incident !in w.launched && incident !in Excluded(s.table)
  {
    FreshMember(w.listing[..w.pos], w.excluded, incident);
    assert NoDuplicates(w.listing);
  }

  lemma {:induction false} MapGrows(m: map<Incident, Thread>, k: Incident, v: Thread)
    ensures |m[k := v]| == if k in m then |m| else |m| + 1
  {
  }

  lemma {:induction false} MapShrinks(m: map<Incident, Thread>, k: Incident)
    ensures |m - {k}| == if k in m then |m| - 1 else |m|
  {
  }

  // ------------------------------------------------ slot threads keep it

  ghost predicate SlotEnabled(s: State, t: Thread) {
    t in s.workers && s.workers[t].phase != Registered
  }

  lemma {:induction false} SlotCounted(s: State, t: Thread)
    requires Counted(s) && FlightsMatch(s) && SlotEnabled(s, t)
    ensures Counted(SlotStep(s, t))
  {
    MapShrinks(s.table.inFlight, s.workers[t].incident);
  }

  lemma {:induction false} ReleaseApart(s: State, t: Thread)
    requires SlotsApart(s) && t in s.workers && s.workers[t].phase == Finishing
    ensures SlotsApart(SlotStep(s, t))
  {
    var s' := SlotStep(s, t);
    var slot := s.workers[t].slot;
    assert Busy(s.workers[t]) && s'.table.idle == s.table.idle + [slot] && HeldSlots(s') == HeldSlots(s);
    forall u | u in s'.workers && Busy(s'.workers[u])
      ensures u in s.workers && u != t && s'.workers[u] == s.workers[u] && s.workers[u].slot != slot
    {
      assert s.workers[u].slot != s.workers[t].slot;
    }
  }

  lemma {:induction false} SlotApart(s: State, t: Thread)
    requires SlotsApart(s) && SlotEnabled(s, t)
    ensures SlotsApart(SlotStep(s, t))
  {
    if s.workers[t].phase == Finishing {
      ReleaseApart(s, t);
    } else {
      var s' := SlotStep(s, t);
      assert s'.table == s.table && HeldSlots(s') == HeldSlots(s);
      forall u | u in s'.workers && Busy(s'.workers[u])
        ensures u in s.workers && Busy(s.workers[u]) && s'.workers[u].slot == s.workers[u].slot { }
    }
  }

  lemma {:induction false} SlotFlights(s: State, t: Thread)
    requires FlightsMatch(s) && SlotEnabled(s, t)
    ensures FlightsMatch(SlotStep(s, t))
  {
    var s' := SlotStep(s, t);
    forall i | i in s'.table.inFlight
      ensures s'.table.inFlight[i] in s'.workers && Busy(s'.workers[s'.table.inFlight[i]])
              && s'.workers[s'.table.inFlight[i]].incident == i
    {
      assert i in s.table.inFlight && s'.table.inFlight[i] == s.table.inFlight[i];
    }
  }

  lemma {:induction false} SlotOrdered(s: State, t: Thread)
    requires ThreadsOrdered(s) && SlotEnabled(s, t)
    ensures ThreadsOrdered(SlotStep(s, t))
  {
  }

  lemma {:induction false} SlotExcluded(s: State, t: Thread)
    requires FlightsMatch(s) && SlotEnabled(s, t)
    ensures Excluded(SlotStep(s, t).table) == Excluded(s.table)
  {
  }

  lemma {:induction false} SlotOnce(s: State, t: Thread)
    requires FlightsMatch(s) && OncePerPoll(s) && SlotEnabled(s, t)
    ensures OncePerPoll(SlotStep(s, t))
  {
  }

  lemma {:induction false} SlotWake(s: State, t: Thread)
    requires WakePending(s) && SlotEnabled(s, t)
    ensures WakePending(SlotStep(s, t))
  {
    var s' := SlotStep(s, t);
    if s.workers[t].phase == Finishing {
      assert s'.workers[t].phase == Waking;
    } else if s'.history.released && !s'.wake {
      var u :| u in s.workers && s.workers[u].phase == Waking;
      assert s'.workers[u].phase == Waking;
    }
  }

  lemma {:induction false} SlotJoined(s: State, t: Thread)
    requires Joined(s) && SlotEnabled(s, t)
    ensures Joined(SlotStep(s, t))
  {
  }

  lemma {:induction false} SlotWalk(s: State, t: Thread)
    requires FlightsMatch(s) && WalkKept(s) && SlotEnabled(s, t)
    ensures WalkKept(SlotStep(s, t))
  {
    SlotExcluded(s, t);
    var s' := SlotStep(s, t);
    assert |s'.table.idle| >= |s.table.idle| && s'.pc == s.pc && s'.capacity == s.capacity;
  }

  // ------------------------------------------------ the polling thread keeps it

  lemma {:induction false} PollCounted(s: State, e: Event)
    requires Counted(s) && WalkKept(s) && e.Poll? && Enabled(s, e)
    ensures Counted(Apply(s, e))
  {
    if s.pc.Holding? && !s.stop {
      NextIsNew(s, s.pc.walk, s.pc.incident, 1);
      MapGrows(s.table.inFlight, s.pc.incident, s.next);
    }
  }

  lemma {:induction false} TakeApart(s: State)
    requires SlotsApart(s) && s.pc.Taking? && s.table.idle != []
    ensures SlotsApart(s.(table := TakeSlot(s.table), pc := Holding(s.pc.walk, s.pc.incident, TopSlot(s.table))))
  {
    var n := |s.table.idle| - 1;
    var rest := s.table.idle[..n];
    assert TopSlot(s.table) in s.table.idle;
    forall x | x in rest ensures x != TopSlot(s.table) && x in s.table.idle {
      var k :| 0 <= k < n && rest[k] == x;
      assert s.table.idle[k] != s.table.idle[n];
    }
  }

  lemma {:induction false} LaunchApart(s: State)
    requires SlotsApart(s) && ThreadsOrdered(s) && s.pc.Holding?
    ensures SlotsApart(LaunchStep(s, s.pc.walk, s.pc.incident, s.pc.slot))
  {
    var s' := LaunchStep(s, s.pc.walk, s.pc.incident, s.pc.slot);
    assert s.pc.slot in HeldSlots(s) && HeldSlots(s') == {};
    if !s.stop {
      forall t | t in s'.workers && t != s.next ensures t in s.workers && s'.workers[t] == s.workers[t] { }
    }
  }

  lemma {:induction false} PollApart(s: State, e: Event)
    requires SlotsApart(s) && ThreadsOrdered(s) && e.Poll? && Enabled(s, e)
    ensures SlotsApart(Apply(s, e))
  {
    if s.pc.Taking? && s.table.idle != [] {
      TakeApart(s);
    } else if s.pc.Holding? {
      LaunchApart(s);
    } else if s.pc.Starting? {
      var s' := Apply(s, e);
      forall t | t in s'.workers ensures t in s.workers && s'.workers[t].slot == s.workers[t].slot
                                         && Busy(s'.workers[t]) == Busy(s.workers[t]) { }
    } else {
      var s' := Apply(s, e);
      assert s'.workers == s.workers && s'.table.idle == s.table.idle && HeldSlots(s') == HeldSlots(s);
    }
  }

  lemma {:induction false} PollFlights(s: State, e: Event)
    requires FlightsMatch(s) && ThreadsOrdered(s) && WalkKept(s) && e.Poll? && Enabled(s, e)
    ensures FlightsMatch(Apply(s, e))
  {
    if s.pc.Holding? && !s.stop {
      NextIsNew(s, s.pc.walk, s.pc.incident, 1);
    }
  }

  lemma {:induction false} PollOrdered(s: State, e: Event)
    requires ThreadsOrdered(s) && e.Poll? && Enabled(s, e)
    ensures ThreadsOrdered(Apply(s, e))
  {
  }

  /** Only a launch and a timed poll change which incidents are excluded. */
  lemma {:induction false} PollExcluded(s: State, e: Event)
    requires e.Poll? && Enabled(s, e) && !s.pc.Forgetting?
    ensures Excluded(Apply(s, e).table) ==
            Excluded(s.table) + if s.pc.Holding? && !s.stop then {s.pc.incident} else {}
  {
  }

  lemma {:induction false} LaunchOnce(s: State)
    requires OncePerPoll(s) && WalkKept(s) && s.pc.Holding? && !s.stop
    ensures OncePerPoll(LaunchStep(s, s.pc.walk, s.pc.incident, s.pc.slot))
  {
    NextIsNew(s, s.pc.walk, s.pc.incident, 1);
    var s' := LaunchStep(s, s.pc.walk, s.pc.incident, s.pc.slot);
    var before := s.history.sincePoll;
    assert s'.history.sincePoll == before + [s.pc.incident] && s.pc.incident !in before;
    assert Excluded(s'.table) == Excluded(s.table) + {s.pc.incident};
    forall i | i in s'.history.sincePoll ensures i in Excluded(s'.table) {
      assert i in before || i == s.pc.incident;
    }
  }

  lemma {:induction false} PollOnce(s: State, e: Event)
    requires OncePerPoll(s) && WalkKept(s) && e.Poll? && Enabled(s, e)
    ensures OncePerPoll(Apply(s, e))
  {
    var s' := Apply(s, e);
    if s.pc.Forgetting? {
      assert s'.history.sincePoll == [];
    } else if s.pc.Holding? && !s.stop {
      LaunchOnce(s);
    } else {
      PollExcluded(s, e);
      assert s'.history.sincePoll == s.history.sincePoll && Excluded(s'.table) == Excluded(s.table);
    }
  }

  lemma {:induction false} PollWake(s: State, e: Event)
    requires WakePending(s) && ThreadsOrdered(s) && e.Poll? && Enabled(s, e)
    ensures WakePending(Apply(s, e))
  {
    var s' := Apply(s, e);
    if s'.history.released && !s'.wake {
      var u :| u in s.workers && s.workers[u].phase == Waking;
      assert s'.workers[u].phase == Waking;
    }
  }

  lemma {:induction false} PollJoined(s: State, e: Event)
    requires Joined(s) && e.Poll? && Enabled(s, e)
    ensures Joined(Apply(s, e))
  {
  }

  lemma {:induction false} ListWalk(s: State, order: seq<Incident>)
    requires WalkKept(s) && s.pc.Listing? && NoDuplicates(order)
    ensures var w := NewWalk(s, s.pc.free, s.pc.excluded, order);
            WalkOk(s, w, 0) && (s.capacity > 1 ==> |s.table.idle| >= w.budget)
  {
  }

  lemma {:induction false} StepWalk(s: State, w: Walk)
    requires WalkOk(s, w, 0) && SlotLeft(s, w) && (s.capacity > 1 ==> |s.table.idle| >= w.budget)
    ensures WalkKept(s.(pc := WalkStep(s, w)))
  {
    if w.pos < |w.listing| { FreshSnoc(w.listing, w.excluded, w.pos); }
  }

  lemma {:induction false} LaunchWalk(s: State)
    requires WalkKept(s) && s.pc.Holding? && !s.stop
    ensures WalkKept(LaunchStep(s, s.pc.walk, s.pc.incident, s.pc.slot))
  {
    var w := s.pc.walk;
    FreshSnoc(w.listing, w.excluded, w.pos);
    var s' := LaunchStep(s, w, s.pc.incident, s.pc.slot);
    assert Excluded(s'.table) == Excluded(s.table) + {s.pc.incident};
  }

  lemma {:induction false} PollWalk(s: State, e: Event)
    requires WalkKept(s) && e.Poll? && Enabled(s, e)
    ensures WalkKept(Apply(s, e))
  {
    match s.pc
    case Listing(_, _) => ListWalk(s, e.order);
    case Walking(w) => StepWalk(s, w);
    case Taking(w, _) => PollExcluded(s, e);
    case Holding(_, _, _) => if !s.stop { LaunchWalk(s); }
    case Starting(w, _) => PollExcluded(s, e);
    case _ =>
  }

  /** The invariant holds initially and every step of every thread keeps it. */
  lemma {:induction false} InvInitial(capacity: nat)
    ensures Inv(Initial(capacity))
  {
  }

  lemma {:induction false} InvStep(s: State, e: Event)
    requires Inv(s) && Enabled(s, e)
    ensures Inv(Apply(s, e))
  {
    match e
    case Stop =>
      assert Apply(s, e) == s.(stop := true);
    case Slotted(t) =>
      SlotCounted(s, t); SlotApart(s, t); SlotFlights(s, t); SlotOrdered(s, t);
      SlotOnce(s, t); SlotWake(s, t); SlotJoined(s, t); SlotWalk(s, t);
    case Poll(_, _, _) =>
      PollCounted(s, e); PollApart(s, e); PollFlights(s, e); PollOrdered(s, e);
      PollOnce(s, e); PollWake(s, e); PollJoined(s, e); PollWalk(s, e);
  }
}
