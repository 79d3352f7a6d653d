// What the worker loop promises, for every interleaving.

module SlotTheorems {
  import opened SlotTable
  import opened SlotProtocol
  import opened SlotInvariant

  /** `t` is reached from `s` by exactly these moves. */
  ghost predicate Runs(s: State, events: seq<Event>, t: State)
    decreases |events|
  {
    if events == [] then t == s
    else Enabled(s, events[0]) && Runs(Apply(s, events[0]), events[1..], t)
  }

  lemma {:induction false} CapacityFixed(s: State, e: Event)
    requires Enabled(s, e)
    ensures Apply(s, e).capacity == s.capacity
  {
  }

  lemma {:induction false} InvRun(s: State, events: seq<Event>, t: State)
    requires Inv(s) && Runs(s, events, t)
    ensures Inv(t) && t.capacity == s.capacity
    decreases |events|
  {
    if events != [] {
      InvStep(s, events[0]);
      CapacityFixed(s, events[0]);
      InvRun(Apply(s, events[0]), events[1..], t);
    }
  }

  // ------------------------------------------------ conservation and exclusion

  /** Slots are never lost, duplicated or shared, and no incident is in flight twice. */
  lemma {:induction false} SlotsConserved(capacity: nat, events: seq<Event>, t: State)
    requires Runs(Initial(capacity), events, t)
    ensures |t.table.idle| + |HeldSlots(t)| + |t.table.inFlight| == capacity
    ensures forall u, v :: u in t.workers && v in t.workers && u != v && Busy(t.workers[u]) && Busy(t.workers[v]) ==>
              t.workers[u].slot != t.workers[v].slot && t.workers[u].incident != t.workers[v].incident
    ensures forall u :: u in t.workers && Busy(t.workers[u]) ==>
              t.workers[u].slot !in t.table.idle && t.workers[u].slot !in HeldSlots(t)
    ensures forall i :: i in t.table.inFlight <==> exists u :: u in t.workers && Busy(t.workers[u]) && t.workers[u].incident == i
  {
    InvInitial(capacity);
    InvRun(Initial(capacity), events, t);
    forall i | i in t.table.inFlight ensures exists u :: u in t.workers && Busy(t.workers[u]) && t.workers[u].incident == i {
      var u := t.table.inFlight[i];
      assert u in t.workers && Busy(t.workers[u]);
    }
  }

  /** Each incident is launched at most once between two timed polls. */
  lemma {:induction false} LaunchedOncePerPoll(capacity: nat, events: seq<Event>, t: State)
    requires Runs(Initial(capacity), events, t)
    ensures NoDuplicates(t.history.sincePoll)
  {
    InvInitial(capacity);
    InvRun(Initial(capacity), events, t);
  }

  /** What the polling thread reads before a refill: the free slots are exactly those no attempt
      occupies, and excluded is everything in flight or launched since the last timed poll. */
  lemma {:induction false} ReadingTellsAll(capacity: nat, events: seq<Event>, s: State)
    requires Runs(Initial(capacity), events, s) && s.pc.Reading?
    ensures |s.table.idle| == capacity - |s.table.inFlight|
    ensures forall t :: t in s.workers && Busy(s.workers[t]) ==> s.workers[t].incident in Excluded(s.table)
    ensures forall i :: i in s.history.sincePoll ==> i in Excluded(s.table)
  {
    InvInitial(capacity);
    InvRun(Initial(capacity), events, s);
  }

  /** Excluded is exactly what was in flight when `_recent` was last cleared and what was launched
      since, finished or not. */
  ghost predicate ExcludedExactly(s: State) {
    Excluded(s.table) == s.history.carried + (set i | i in s.history.sincePoll)
  }

  lemma {:induction false} LaunchExcludes(s: State)
    requires ExcludedExactly(s) && s.pc.Holding?
    ensures ExcludedExactly(LaunchStep(s, s.pc.walk, s.pc.incident, s.pc.slot))
  {
    if !s.stop {
      var i, launched := s.pc.incident, s.history.sincePoll;
      var t := LaunchStep(s, s.pc.walk, i, s.pc.slot);
      assert (set x | x in launched + [i]) == (set x | x in launched) + {i};
      assert Excluded(t.table) == Excluded(s.table) + {i};
    }
  }

  lemma {:induction false} ForgetExcludes(s: State, timed: bool, refused: bool, order: seq<Incident>)
    requires s.pc.Forgetting?
    ensures ExcludedExactly(PollStep(s, timed, refused, order))
  {
    var t := PollStep(s, timed, refused, order);
    assert Excluded(t.table) == t.history.carried;
  }

  lemma {:induction false} OtherPollExcludes(s: State, timed: bool, refused: bool, order: seq<Incident>)
    requires ExcludedExactly(s) && !s.pc.Returned? && !s.pc.Forgetting? && !s.pc.Holding?
    ensures ExcludedExactly(PollStep(s, timed, refused, order))
  {
    var t := PollStep(s, timed, refused, order);
    assert Excluded(t.table) == Excluded(s.table) && t.history.carried == s.history.carried;
    assert t.history.sincePoll == s.history.sincePoll;
  }

  lemma {:induction false} ExcludedStep(s: State, e: Event)
    requires FlightsMatch(s) && ExcludedExactly(s) && Enabled(s, e)
    ensures ExcludedExactly(Apply(s, e))
  {
    match e
    case Stop =>
    case Slotted(t) =>
      SlotExcluded(s, t);
      assert SlotStep(s, t).history.sincePoll == s.history.sincePoll && SlotStep(s, t).history.carried == s.history.carried;
    case Poll(timed, refused, order) =>
      if s.pc.Holding? { LaunchExcludes(s); }
      else if s.pc.Forgetting? { ForgetExcludes(s, timed, refused, order); }
      else { OtherPollExcludes(s, timed, refused, order); }
  }

  lemma {:induction false} ExcludedRun(s: State, events: seq<Event>, t: State)
    requires Inv(s) && ExcludedExactly(s) && Runs(s, events, t)
    ensures ExcludedExactly(t)
    decreases |events|
  {
    if events != [] {
      ExcludedStep(s, events[0]);
      InvStep(s, events[0]);
      ExcludedRun(Apply(s, events[0]), events[1..], t);
    }
  }

  /** Over every run an incident is kept from dispatch only while it is in flight from before the
      last timed poll or was launched after it: every timed poll forgets the rest. */
  lemma {:induction false} OnlyRecentExcluded(capacity: nat, events: seq<Event>, t: State)
    requires Runs(Initial(capacity), events, t)
    ensures Excluded(t.table) == t.history.carried + (set i | i in t.history.sincePoll)
  {
    InvInitial(capacity);
    ExcludedRun(Initial(capacity), events, t);
  }

  // ------------------------------------------------ a poll leads to a walk

  /** The polling thread alone, this many steps. */
  function Polls(s: State, timed: bool, order: seq<Incident>, n: nat): State
    decreases n
  {
    if n == 0 || s.pc.Returned? then s else Polls(PollStep(s, timed, false, order), timed, order, n - 1)
  }

  /** A timed poll with a free slot and a served listing walks that listing from its first entry, with
      nothing excluded but what is in flight. */
  lemma {:induction false} TimedPollWalks(s: State, order: seq<Incident>)
    requires s.pc.Top? && !s.stop && s.table.idle != []
    ensures var t := Polls(s, true, order, 5);
            && t.pc.Walking? && t.pc.walk.pos == 0 && t.pc.walk.order == order && t.pc.walk.launched == []
            && t.pc.walk.free == |s.table.idle| && t.pc.walk.excluded == s.table.inFlight.Keys
            && t.table.recent == {} && t.table.idle == s.table.idle && t.table.inFlight == s.table.inFlight
  {
    var a := PollStep(s, true, false, order);
    var b := PollStep(a, true, false, order);
    var c := PollStep(b, true, false, order);
    var d := PollStep(c, true, false, order);
    assert Polls(s, true, order, 5) == Polls(a, true, order, 4) == Polls(b, true, order, 3) == Polls(c, true, order, 2);
    assert Polls(c, true, order, 2) == Polls(d, true, order, 1) == PollStep(d, true, false, order);
  }

  /** A wake between timed polls leads to a walk just so, with everything recent excluded too. */
  lemma {:induction false} WakeWalks(s: State, order: seq<Incident>)
    requires s.pc.Top? && !s.stop && s.table.idle != []
    ensures var t := Polls(s, false, order, 4);
            && t.pc.Walking? && t.pc.walk.pos == 0 && t.pc.walk.order == order && t.pc.walk.launched == []
            && t.pc.walk.free == |s.table.idle| && t.pc.walk.excluded == Excluded(s.table) && t.table == s.table
  {
    var a := PollStep(s, false, false, order);
    var b := PollStep(a, false, false, order);
    var c := PollStep(b, false, false, order);
    assert Polls(s, false, order, 4) == Polls(a, false, order, 3) == Polls(b, false, order, 2) == Polls(c, false, order, 1);
    assert Polls(c, false, order, 1) == PollStep(c, false, false, order);
  }

  /** Whatever the slot threads do meanwhile, a served listing without a stop is walked. */
  lemma {:induction false} ServedListingIsWalked(capacity: nat, events: seq<Event>, s: State, timed: bool, order: seq<Incident>)
    requires Runs(Initial(capacity), events, s) && s.pc.Listing? && !s.stop && NoDuplicates(order)
    ensures var t := PollStep(s, timed, false, order);
            && t.pc.Walking? && WalkOk(t, t.pc.walk, 0) && t.pc.walk.pos == 0 && t.pc.walk.order == order && t.table == s.table
            && t.pc.walk.free == s.pc.free > 0 && t.pc.walk.excluded == s.pc.excluded
  {
    InvInitial(capacity);
    InvRun(Initial(capacity), events, s);
    ListWalk(s, order);
  }

  // ------------------------------------------------ a refill launches the best

  lemma {:induction false} FreshConcat(a: seq<Incident>, b: seq<Incident>, excluded: set<Incident>)
    ensures Fresh(a + b, excluded) == Fresh(a, excluded) + Fresh(b, excluded)
    decreases |b|
  {
    if b == [] {
      assert a + b == a;
    } else {
      assert (a + b)[..|a + b| - 1] == a + b[..|b| - 1];
      FreshConcat(a, b[..|b| - 1], excluded);
    }
  }

  lemma {:induction false} FreshIrrelevant(s: seq<Incident>, excluded: set<Incident>, x: Incident)
    requires x !in s
    ensures Fresh(s, excluded) == Fresh(s, excluded - {x})
    decreases |s|
  {
    if s != [] {
      assert s[|s| - 1] in s;
      FreshIrrelevant(s[..|s| - 1], excluded, x);
    }
  }

  /** At most `|excluded|` entries of a duplicate-free listing are skipped. */
  lemma {:induction false} FreshLength(s: seq<Incident>, excluded: set<Incident>)
    requires NoDuplicates(s)
    ensures |Fresh(s, excluded)| + |excluded| >= |s|
    decreases |s|
  {
    if s != [] {
      var init, last := s[..|s| - 1], s[|s| - 1];
      if last in excluded {
        assert last !in init;
        FreshIrrelevant(init, excluded, last);
        FreshLength(init, excluded - {last});
      } else {
        FreshLength(init, excluded);
      }
    }
  }

  /** The listing limit never hides an incident the refill could have launched. */
  lemma {:induction false} LimitSuffices(order: seq<Incident>, free: nat, excluded: set<Incident>)
    requires NoDuplicates(order)
    ensures Prefix(Fresh(Prefix(order, Limit(free, excluded)), excluded), free) == Prefix(Fresh(order, excluded), free)
  {
    var n := Limit(free, excluded);
    if |order| > n {
      assert order == order[..n] + order[n..];
      FreshConcat(order[..n], order[n..], excluded);
      FreshLength(order[..n], excluded);
    }
  }

  /** What one walk has launched when it stops for any reason but a stop request: exactly the
      first `free` incidents of the claim order that are neither in flight nor recent. */
  lemma {:induction false} RefillLaunchesBest(capacity: nat, events: seq<Event>, s: State)
    requires Runs(Initial(capacity), events, s) && capacity > 1
    requires s.pc.Walking? && !s.stop && WalkStep(s, s.pc.walk) == Waiting
    ensures s.pc.walk.launched == Prefix(Fresh(s.pc.walk.order, s.pc.walk.excluded), s.pc.walk.free)
  {
    InvInitial(capacity);
    InvRun(Initial(capacity), events, s);
    var w := s.pc.walk;
    var rest := w.listing[w.pos..];
    assert w.listing == w.listing[..w.pos] + rest;
    FreshConcat(w.listing[..w.pos], rest, w.excluded);
    LimitSuffices(w.order, w.free, w.excluded);
  }

  /** With several slots a checkout never fails while the walk still has budget. */
  lemma {:induction false} CheckoutSucceeds(capacity: nat, events: seq<Event>, s: State)
    requires Runs(Initial(capacity), events, s) && capacity > 1 && s.pc.Taking?
    ensures s.table.idle != []
  {
    InvInitial(capacity);
    InvRun(Initial(capacity), events, s);
  }

  /** Until its first launch a walk always has a slot to take, however many slots there are. */
  lemma {:induction false} FirstCheckoutSucceeds(capacity: nat, events: seq<Event>, s: State)
    requires Runs(Initial(capacity), events, s) && s.pc.Taking? && s.pc.walk.launched == []
    ensures s.table.idle != []
  {
    InvInitial(capacity);
    InvRun(Initial(capacity), events, s);
  }

  /** A walk over a listing with anything eligible has launched when it ends without a stop, one slot
      or several. */
  lemma {:induction false} WalkLaunches(capacity: nat, events: seq<Event>, s: State)
    requires Runs(Initial(capacity), events, s)
    requires s.pc.Walking? && !s.stop && WalkStep(s, s.pc.walk) == Waiting
    ensures Fresh(s.pc.walk.order, s.pc.walk.excluded) != [] ==> s.pc.walk.launched != []
  {
    InvInitial(capacity);
    InvRun(Initial(capacity), events, s);
    var w := s.pc.walk;
    LimitSuffices(w.order, w.free, w.excluded);
    assert w.listing[..|w.listing|] == w.listing;
  }

  /** A single slot also takes the entries strictly in claim order, skipping only excluded ones. */
  lemma {:induction false} LaunchedInOrder(capacity: nat, events: seq<Event>, s: State)
    requires Runs(Initial(capacity), events, s) && s.pc.Walking?
    ensures s.pc.walk.launched <= Fresh(s.pc.walk.order, s.pc.walk.excluded)
  {
    InvInitial(capacity);
    InvRun(Initial(capacity), events, s);
    var w := s.pc.walk;
    assert w.order == w.order[..w.pos] + w.order[w.pos..];
    assert w.order[..w.pos] == w.listing[..w.pos];
    FreshConcat(w.order[..w.pos], w.order[w.pos..], w.excluded);
  }

  // ------------------------------------------------ waking and stopping

  /** No wake-up is lost: a waiting poller whose event is unset has missed no released slot,
      unless the releasing thread has yet to set the event. */
  lemma {:induction false} NoWakeLost(capacity: nat, events: seq<Event>, s: State)
    requires Runs(Initial(capacity), events, s) && s.pc.Waiting? && s.history.released
    ensures Enabled(s, Poll(false, false, [])) || exists t :: t in s.workers && s.workers[t].phase == Waking
  {
    InvInitial(capacity);
    InvRun(Initial(capacity), events, s);
  }

  /** Once `stop` is set nothing more is launched and no attempt passes its own check. */
  lemma {:induction false} NothingAfterStop(s: State, events: seq<Event>, t: State)
    requires s.stop && Runs(s, events, t)
    ensures t.stop && t.history.launches == s.history.launches && t.history.admitted == s.history.admitted
    decreases |events|
  {
    if events != [] {
      NothingAfterStop(Apply(s, events[0]), events[1..], t);
    }
  }

  /** `run` returns only after a stop, with nothing in flight and every slot idle. */
  lemma {:induction false} ReturnsIdle(capacity: nat, events: seq<Event>, s: State)
    requires Runs(Initial(capacity), events, s) && s.pc.Returned?
    ensures s.stop && s.table.inFlight == map[] && |s.table.idle| == capacity
    ensures forall t :: t in s.workers ==> s.workers[t].phase == Waking
  {
    InvInitial(capacity);
    InvRun(Initial(capacity), events, s);
  }

  // ------------------------------------------------ shutdown ends

  function PhaseWork(p: Phase): nat {
    match p case Registered => 5 case Started => 4 case Attempting => 3 case Finishing => 2 case Waking => 1
  }

  /** Slot-thread steps still to come. */
  ghost function Work(m: map<Thread, Worker>): nat
    decreases |m|
  {
    if m == map[] then 0
    else
      var t :| t in m;
      PhaseWork(m[t].phase) + Work(m - {t})
  }

  lemma {:induction false} WorkRemove(m: map<Thread, Worker>, t: Thread)
    requires t in m
    ensures Work(m) == PhaseWork(m[t].phase) + Work(m - {t})
    decreases |m|
  {
    var u :| u in m && Work(m) == PhaseWork(m[u].phase) + Work(m - {u});
    if u != t {
      assert (m - {u}).Keys == m.Keys - {u};
      assert (m - {t}).Keys == m.Keys - {t};
      WorkRemove(m - {u}, t);
      WorkRemove(m - {t}, u);
      assert m - {u} - {t} == m - {t} - {u};
    }
  }

  lemma {:induction false} WorkUpdate(m: map<Thread, Worker>, t: Thread, w: Worker)
    requires t in m
    ensures Work(m[t := w]) == Work(m) + PhaseWork(w.phase) - PhaseWork(m[t].phase)
  {
    WorkRemove(m, t);
    WorkRemove(m[t := w], t);
    assert m[t := w] - {t} == m - {t};
  }

  /** Polling-thread steps still to come once `stop` is set. */
  function PollRank(s: State): nat {
    match s.pc
    case Returned => 0
    case JoinReading => if s.table.inFlight == map[] then 1 else 3
    case Joining(_) => 2
    case Top => 4
    case Waiting => 5
    case Listing(_, _) => 6
    case Walking(_) => 6
    case Holding(_, _, _) => 6
    case Taking(_, _) => 7
    case Starting(_, _) => 7
    case Reading => 7
    case ClearingWake => 8
    case Forgetting => 9
  }

  ghost function Rank(s: State): nat { Work(s.workers) + PollRank(s) }

  lemma {:induction false} SlotWork(s: State, t: Thread)
    requires SlotEnabled(s, t)
    ensures Work(SlotStep(s, t).workers) < Work(s.workers)
  {
    var w := s.workers[t];
    if w.phase == Waking {
      WorkRemove(s.workers, t);
    } else {
      WorkUpdate(s.workers, t, SlotStep(s, t).workers[t]);
    }
  }

  lemma {:induction false} SlotPollRank(s: State, t: Thread)
    requires SlotEnabled(s, t)
    ensures PollRank(SlotStep(s, t)) <= PollRank(s)
  {
  }

  lemma {:induction false} PollRankDrops(s: State, e: Event)
    requires Joined(s) && FlightsMatch(s) && s.stop && e.Poll? && Enabled(s, e)
    ensures PollRank(Apply(s, e)) < PollRank(s)
  {
  }

  lemma {:induction false} PollWork(s: State, e: Event)
    requires ThreadsOrdered(s) && s.stop && e.Poll? && Enabled(s, e)
    ensures Work(Apply(s, e).workers) <= Work(s.workers)
  {
    if s.pc.Starting? {
      WorkUpdate(s.workers, s.pc.thread, s.workers[s.pc.thread].(phase := Started));
    } else {
      assert Apply(s, e).workers == s.workers;
    }
  }

  lemma {:induction false} RankDrops(s: State, e: Event)
    requires Inv(s) && s.stop && Enabled(s, e)
    ensures Rank(Apply(s, e)) < Rank(s)
  {
    if e.Slotted? {
      SlotWork(s, e.thread);
      SlotPollRank(s, e.thread);
    } else {
      PollWork(s, e);
      PollRankDrops(s, e);
    }
  }

  /** After a stop every run is finite: each move uses up one unit of the rank. */
  lemma {:induction false} ShutdownIsBounded(s: State, events: seq<Event>, t: State)
    requires Inv(s) && s.stop && Runs(s, events, t)
    ensures |events| + Rank(t) <= Rank(s)
    decreases |events|
  {
    if events != [] {
      InvStep(s, events[0]);
      RankDrops(s, events[0]);
      StopStays(s, events[0]);
      ShutdownIsBounded(Apply(s, events[0]), events[1..], t);
    }
  }

  lemma {:induction false} StopStays(s: State, e: Event)
    requires s.stop && Enabled(s, e)
    ensures Apply(s, e).stop
  {
  }

  /** After a stop no state is stuck before `run` has returned with every thread gone. */
  lemma {:induction false} ShutdownNeverStuck(s: State)
    requires Inv(s) && s.stop
    ensures (s.pc.Returned? && s.workers == map[]) || exists e :: Enabled(s, e)
  {
    if t :| t in s.workers && s.workers[t].phase != Registered {
      assert Enabled(s, Slotted(t));
    } else {
      assert forall t :: t in s.workers ==> s.pc.Starting?;
      assert !s.pc.Returned? ==> Enabled(s, Poll(false, false, []));
    }
  }
}
