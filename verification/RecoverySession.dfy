// A worker replaying planned tool calls under a lease, while humans and other workers move the rows.

module RecoverySession {
  import opened Outcomes
  import opened LeaseStore
  import opened FencedStore

  // ------------------------------------------------ what a stretch of events says

  /** The answer that shows the fence or the current Run had already moved on. */
  ghost predicate MovedOn(e: Event, lease: Lease) {
    match e
    case Fence(l, seen) => l == lease && !Current(seen, lease)
    case Rebuilt(seen) => seen.current != lease.run || seen.generation != lease.generation
    case _ => false
  }

  /** An error exit is excused when this lease was given back, or was refused for having moved on. */
  ghost predicate Excused(events: seq<Event>, lease: Lease, error: Error) {
    || Released(lease) in events
    || (events != [] && MovedOn(events[|events| - 1], lease) && error == ControlDenied)
  }

  /** Nothing was done in the name of any other lease. */
  ghost predicate OnlyWith(events: seq<Event>, lease: Lease) {
    forall i {:trigger events[i]} :: 0 <= i < |events| ==> With(events[i], lease)
  }

  ghost predicate With(e: Event, lease: Lease) {
    !e.Granted? && !e.GrantLost? && (e.Released? || e.Committed? ==> e.lease == lease)
  }

  /** Fence, then rows, then renewal, then the call: each of them in favour of it. */
  ghost predicate DispatchedWell(events: seq<Event>, i: nat, lease: Lease)
    requires i < |events| && events[i].Dispatched?
  {
    && 3 <= i
    && events[i - 3].Fence? && events[i - 3].lease == lease && Current(events[i - 3].seen, lease)
    && events[i - 2].Rebuilt? && Pending(events[i - 2].seen, events[i].call)
    && events[i - 2].seen.current == lease.run && events[i - 2].seen.generation == lease.generation
    && events[i - 1].Renewed? && events[i - 1].lease == lease && Current(events[i - 1].seen, lease)
  }

  ghost predicate Disciplined(events: seq<Event>, lease: Lease) {
    forall i {:trigger events[i]} :: 0 <= i < |events| && events[i].Dispatched? ==> DispatchedWell(events, i, lease)
  }

  /** The calls sent outside, in order. */
  ghost function Sent(events: seq<Event>): seq<Call> {
    if events == [] then []
    else Sent(events[..|events| - 1]) + (if events[|events| - 1].Dispatched? then [events[|events| - 1].call] else [])
  }

  lemma {:induction false} SentAppend(events: seq<Event>, e: Event)
    ensures Sent(events + [e]) == Sent(events) + (if e.Dispatched? then [e.call] else [])
  {
  }

  lemma {:induction false} NoneSent(events: seq<Event>)
    requires forall i {:trigger events[i]} :: 0 <= i < |events| ==> !events[i].Dispatched?
    ensures Sent(events) == []
  {
    if events != [] { NoneSent(events[..|events| - 1]); }
  }

  /** Neither a call outside nor a commit. */
  ghost predicate Reads(events: seq<Event>) {
    forall i {:trigger events[i]} :: 0 <= i < |events| ==> !events[i].Dispatched? && !events[i].Committed?
  }

  ghost predicate AllDistinct(calls: seq<Call>) {
    forall i, j {:trigger calls[i], calls[j]} :: 0 <= i < j < |calls| ==> calls[i] != calls[j]
  }

  /** A result that came back is adopted, kept as history, or lost with the storage. */
  ghost predicate Accounted(e: Event) {
    e.Committed? ==>
      match e.outcome
      case None => Adopted(e.after, e.lease.run, e.call)
      case Some(ControlDenied) => Rejected(e.call, e.lease) in e.after.late
      case Some(error) => error == Unavailable
  }

  ghost predicate AllAccounted(events: seq<Event>) {
    forall i {:trigger events[i]} :: 0 <= i < |events| ==> Accounted(events[i])
  }

  /** A failure to commit is the failure that is reported. */
  ghost predicate CommitErrorKept(events: seq<Event>, error: Error) {
    forall i {:trigger events[i]} :: 0 <= i < |events| && events[i].Committed? && events[i].outcome.Some? ==>
      events[i].outcome.value == error
  }

  /** No commit failed and nothing was given back. */
  ghost predicate Clean(events: seq<Event>) {
    forall i {:trigger events[i]} :: 0 <= i < |events| ==>
      !events[i].Released? && (events[i].Committed? ==> events[i].outcome == None)
  }

  ghost predicate Orderly(events: seq<Event>, lease: Lease) {
    OnlyWith(events, lease) && AllAccounted(events) && Disciplined(events, lease) && AllDistinct(Sent(events))
  }

  /** The events of one passed check: the fence held, and the rows are of its Run and generation. */
  ghost predicate Checked(check: seq<Event>, lease: Lease, db: Db) {
    && |check| == 2
    && check[0].Fence? && check[0].lease == lease && Current(check[0].seen, lease)
    && check[1] == Rebuilt(db)
    && db.current in db.runs && db.current == lease.run && db.generation == lease.generation
  }

  /** A check's rows decide every planned call: it is let through, or it has its result. */
  lemma {:induction false} CheckDecides(check: seq<Event>, lease: Lease, db: Db, item: Call)
    requires Checked(check, lease, db) && Planned(db, lease.run, lease.generation, item)
    ensures Clean(check)
    ensures item in SnapshotOf(db).pending ==> LetThrough(check, lease, item) && check[1].seen == db
    ensures item !in SnapshotOf(db).pending ==> Adopted(db, lease.run, item)
  {
  }

  /** The events of one fenced check that let a call through. */
  ghost predicate LetThrough(check: seq<Event>, lease: Lease, item: Call) {
    && |check| == 2
    && check[0].Fence? && check[0].lease == lease && Current(check[0].seen, lease)
    && check[1].Rebuilt? && Pending(check[1].seen, item)
    && check[1].seen.current == lease.run && check[1].seen.generation == lease.generation
  }

  /** The events of one attempt at a call: renewed, sent at most once, and its result accounted for. */
  ghost predicate Attempted(events: seq<Event>, lease: Lease, item: Call) {
    && OnlyWith(events, lease) && AllAccounted(events)
    && (Sent(events) == [] || Sent(events) == [item])
    && (forall i {:trigger events[i]} :: 0 <= i < |events| && events[i].Dispatched? ==> SentSecond(events, i, lease, item))
  }

  ghost predicate SentSecond(events: seq<Event>, i: nat, lease: Lease, item: Call)
    requires i < |events| && events[i].Dispatched?
  {
    i == 1 && events[1].call == item && events[0].Renewed? && events[0].lease == lease && Current(events[0].seen, lease)
  }

  lemma {:induction false} SentConcat(a: seq<Event>, b: seq<Event>)
    ensures Sent(a + b) == Sent(a) + Sent(b)
    decreases |b|
  {
    if b == [] {
      assert a + b == a;
    } else {
      var n := |b| - 1;
      SentConcat(a, b[..n]);
      assert (a + b)[..|a + b| - 1] == a + b[..n];
      assert (a + b)[|a + b| - 1] == b[n];
    }
  }

  lemma {:induction false} DisciplinedWithReads(events: seq<Event>, more: seq<Event>, lease: Lease)
    requires Disciplined(events, lease) && Reads(more)
    ensures Disciplined(events + more, lease)
  {
  }

  lemma {:induction false} OrderlyWithReads(events: seq<Event>, more: seq<Event>, lease: Lease)
    requires Orderly(events, lease) && OnlyWith(more, lease) && Reads(more)
    ensures Orderly(events + more, lease) && Sent(events + more) == Sent(events)
  {
    SentConcat(events, more);
    NoneSent(more);
    DisciplinedWithReads(events, more, lease);
  }

  lemma {:induction false} DisciplinedWithAttempt(
      events: seq<Event>, check: seq<Event>, attempt: seq<Event>, lease: Lease, item: Call)
    requires Disciplined(events, lease) && LetThrough(check, lease, item) && Attempted(attempt, lease, item)
    ensures Disciplined(events + check + attempt, lease)
  {
  }

  lemma {:induction false} OrderlyWithAttempt(
      events: seq<Event>, check: seq<Event>, attempt: seq<Event>, lease: Lease, item: Call)
    requires Orderly(events, lease) && item !in Sent(events)
    requires LetThrough(check, lease, item) && Attempted(attempt, lease, item)
    ensures Orderly(events + check + attempt, lease)
    ensures Sent(events + check + attempt) == Sent(events) + Sent(attempt)
  {
    OrderlyWithReads(events, check, lease);
    SentConcat(events + check, attempt);
    DisciplinedWithAttempt(events, check, attempt, lease, item);
    JoinedOnlyWith(events + check, attempt, lease);
  }

  lemma {:induction false} JoinedOnlyWith(a: seq<Event>, b: seq<Event>, lease: Lease)
    requires OnlyWith(a, lease) && AllAccounted(a) && OnlyWith(b, lease) && AllAccounted(b)
    ensures OnlyWith(a + b, lease) && AllAccounted(a + b)
  {
  }

  lemma {:induction false} AttemptBegins(seen: Db, lease: Lease, item: Call)
    requires Current(seen, lease)
    ensures Attempted([Renewed(lease, seen), Dispatched(item)], lease, item)
    ensures Sent([Renewed(lease, seen), Dispatched(item)]) == [item]
  {
    NoneSent([Renewed(lease, seen)]);
    SentAppend([Renewed(lease, seen)], Dispatched(item));
    assert [Renewed(lease, seen)] + [Dispatched(item)] == [Renewed(lease, seen), Dispatched(item)];
  }

  lemma {:induction false} AttemptGoesOn(events: seq<Event>, e: Event, lease: Lease, item: Call)
    requires Attempted(events, lease, item) && !e.Dispatched? && With(e, lease) && Accounted(e)
    ensures Attempted(events + [e], lease, item) && Sent(events + [e]) == Sent(events)
  {
  }

  lemma {:induction false} AttemptSettles(sofar: seq<Event>, renewal: seq<Event>, last: Event, lease: Lease, item: Call)
    requires Attempted(sofar, lease, item) && Clean(sofar)
    requires renewal == [] || (|renewal| == 1 && renewal[0].Renewed?)
    requires last.Committed? && last.lease == lease && Accounted(last)
    ensures Attempted(sofar + (renewal + [last]), lease, item) && Sent(sofar + (renewal + [last])) == Sent(sofar)
    ensures last.outcome == None ==> Clean(sofar + (renewal + [last]))
    ensures last.outcome.Some? ==> CommitErrorKept(sofar + (renewal + [last]), last.outcome.value)
  {
    if renewal == [] {
      assert sofar + renewal == sofar;
    } else {
      assert renewal == [renewal[0]];
      AttemptGoesOn(sofar, renewal[0], lease, item);
    }
    AttemptGoesOn(sofar + renewal, last, lease, item);
    assert sofar + (renewal + [last]) == sofar + renewal + [last];
    CleanJoined(sofar, renewal);
    if last.outcome == None { CleanJoined(sofar + renewal, [last]); }
    else { CommitErrorJoined(sofar + renewal, [last], last.outcome.value); }
  }

  ghost predicate AllAdopted(calls: seq<Call>, db: Db, run: nat) {
    forall k {:trigger calls[k]} :: 0 <= k < |calls| ==> Adopted(db, run, calls[k])
  }

  ghost predicate AllPlanned(calls: seq<Call>, db: Db, lease: Lease) {
    forall k {:trigger calls[k]} :: 0 <= k < |calls| ==> Planned(db, lease.run, lease.generation, calls[k])
  }

  lemma {:induction false} PlannedOn(calls: seq<Call>, a: Db, b: Db, lease: Lease)
    requires AllPlanned(calls, a, lease) && Grows(a, b)
    ensures AllPlanned(calls, b, lease)
  {
  }

  /** Only planned calls were sent, and none that already had a result. */
  ghost predicate SentFor(sent: seq<Call>, plan: seq<Call>, start: Db, run: nat) {
    forall k {:trigger sent[k]} :: 0 <= k < |sent| ==> sent[k] in plan && !Adopted(start, run, sent[k])
  }

  lemma {:induction false} AdoptedOn(calls: seq<Call>, a: Db, b: Db, run: nat)
    requires AllAdopted(calls, a, run) && Grows(a, b)
    ensures AllAdopted(calls, b, run)
  {
  }

  lemma {:induction false} ExcusedAfter(events: seq<Event>, more: seq<Event>, lease: Lease, error: Error)
    ensures Excused(more, lease, error) ==> Excused(events + more, lease, error)
    ensures Released(lease) in more ==> Released(lease) in events + more
  {
  }

  // ------------------------------------------------ one pass over the plan

  /** After `i` planned calls, from `start` to `now`, with these events. */
  ghost predicate Passed(events: seq<Event>, plan: seq<Call>, i: nat, lease: Lease, start: Db, now: Db)
    requires i <= |plan|
  {
    && Orderly(events, lease) && Clean(events) && Grows(start, now)
    && SentFor(Sent(events), plan, start, lease.run)
    && AllAdopted(plan[..i], now, lease.run) && AllAdopted(Sent(events), now, lease.run)
  }

  lemma {:induction false} NextAdopted(plan: seq<Call>, i: nat, a: Db, b: Db, run: nat)
    requires i < |plan| && AllAdopted(plan[..i], a, run) && Grows(a, b) && Adopted(b, run, plan[i])
    ensures AllAdopted(plan[..i + 1], b, run)
  {
  }

  lemma {:induction false} CleanJoined(a: seq<Event>, b: seq<Event>)
    requires Clean(a) && Clean(b)
    ensures Clean(a + b)
  {
  }

  /** A planned call found to have its result is passed over. */
  lemma {:induction false} PassOver(
      events: seq<Event>, check: seq<Event>, plan: seq<Call>, i: nat, lease: Lease, start: Db, now: Db, next: Db)
    requires i < |plan| && Passed(events, plan, i, lease, start, now) && Grows(now, next)
    requires OnlyWith(check, lease) && Reads(check) && Clean(check) && Adopted(next, lease.run, plan[i])
    ensures Passed(events + check, plan, i + 1, lease, start, next) && Sent(events + check) == Sent(events)
  {
    OrderlyWithReads(events, check, lease);
    CleanJoined(events, check);
    GrowsTrans(start, now, next);
    NextAdopted(plan, i, now, next, lease.run);
    AdoptedOn(Sent(events), now, next, lease.run);
  }

  /** A pending call has no result yet, so it was not sent before. */
  lemma {:induction false} PendingIsNew(
      events: seq<Event>, plan: seq<Call>, i: nat, lease: Lease, start: Db, now: Db, mid: Db)
    requires i < |plan| && Passed(events, plan, i, lease, start, now) && Grows(now, mid)
    requires Pending(mid, plan[i]) && mid.current == lease.run
    ensures plan[i] !in Sent(events) && !Adopted(start, lease.run, plan[i])
  {
  }

  lemma {:induction false} SendOne(
      events: seq<Event>, check: seq<Event>, attempt: seq<Event>, plan: seq<Call>, i: nat, lease: Lease, start: Db, now: Db)
    requires i < |plan| && Passed(events, plan, i, lease, start, now) && plan[i] !in Sent(events)
    requires !Adopted(start, lease.run, plan[i])
    requires LetThrough(check, lease, plan[i]) && Attempted(attempt, lease, plan[i])
    ensures Orderly(events + check + attempt, lease)
    ensures Sent(events + check + attempt) == Sent(events) + Sent(attempt)
    ensures SentFor(Sent(events + check + attempt), plan, start, lease.run)
    ensures Clean(events + check)
  {
    CleanJoined(events, check);
    OrderlyWithAttempt(events, check, attempt, lease, plan[i]);
    assert plan[i] in plan;
  }

  /** A call sent and adopted moves the pass on. */
  lemma {:induction false} PassOn(
      events: seq<Event>, check: seq<Event>, attempt: seq<Event>, plan: seq<Call>, i: nat, lease: Lease,
      start: Db, now: Db, next: Db)
    requires i < |plan| && Passed(events, plan, i, lease, start, now) && Grows(now, next) && plan[i] !in Sent(events)
    requires !Adopted(start, lease.run, plan[i])
    requires LetThrough(check, lease, plan[i]) && Attempted(attempt, lease, plan[i])
    requires Clean(attempt) && Sent(attempt) == [plan[i]] && Adopted(next, lease.run, plan[i])
    ensures Passed(events + check + attempt, plan, i + 1, lease, start, next)
    ensures |Sent(events + check + attempt)| == |Sent(events)| + 1
  {
    SendOne(events, check, attempt, plan, i, lease, start, now);
    CleanJoined(events + check, attempt);
    GrowsTrans(start, now, next);
    NextAdopted(plan, i, now, next, lease.run);
    AdoptedOn(Sent(events), now, next, lease.run);
  }

  lemma {:induction false} CommitErrorJoined(a: seq<Event>, b: seq<Event>, error: Error)
    requires Clean(a) && CommitErrorKept(b, error)
    ensures CommitErrorKept(a + b, error)
  {
  }

  /** The pass ended with an error, excused and unchanged. */
  ghost predicate Stopped(events: seq<Event>, plan: seq<Call>, lease: Lease, start: Db, now: Db, error: Error) {
    && Orderly(events, lease) && Grows(start, now) && SentFor(Sent(events), plan, start, lease.run)
    && Excused(events, lease, error) && CommitErrorKept(events, error)
  }

  lemma {:induction false} StopAtCheck(
      events: seq<Event>, check: seq<Event>, plan: seq<Call>, i: nat, lease: Lease, start: Db, now: Db, mid: Db, error: Error)
    requires i < |plan| && Passed(events, plan, i, lease, start, now) && Grows(now, mid)
    requires OnlyWith(check, lease) && Reads(check) && Excused(check, lease, error)
    ensures Stopped(events + check, plan, lease, start, mid, error)
  {
    GrowsTrans(start, now, mid);
    OrderlyWithReads(events, check, lease);
    ExcusedAfter(events, check, lease, error);
    CommitErrorJoined(events, check, error);
  }

  lemma {:induction false} StopAtAttempt(
      events: seq<Event>, check: seq<Event>, attempt: seq<Event>, plan: seq<Call>, i: nat, lease: Lease,
      start: Db, now: Db, next: Db, error: Error)
    requires i < |plan| && Passed(events, plan, i, lease, start, now) && Grows(now, next) && plan[i] !in Sent(events)
    requires !Adopted(start, lease.run, plan[i])
    requires LetThrough(check, lease, plan[i]) && Attempted(attempt, lease, plan[i])
    requires Released(lease) in attempt && CommitErrorKept(attempt, error)
    ensures Stopped(events + check + attempt, plan, lease, start, next, error)
  {
    GrowsTrans(start, now, next);
    SendOne(events, check, attempt, plan, i, lease, start, now);
    ExcusedAfter(events + check, attempt, lease, error);
    CommitErrorJoined(events + check, attempt, error);
  }

  // ------------------------------------------------ the session

  class Session {
    const plan: seq<Call>
    const lease: Lease
    const store: Store

    constructor (plan: seq<Call>, lease: Lease, store: Store)
      ensures this.plan == plan && this.lease == lease && this.store == store
    {
      this.plan, this.lease, this.store := plan, lease, store;
    }

    /** What `resume` hands out: every planned call is one of the lease's own Run and generation. */
    ghost predicate Ready()
      reads store
    {
      Sound(store.db) && AllPlanned(plan, store.db, lease)
    }

    method AbandonBestEffort()
      requires Sound(store.db)
      modifies store
      ensures Sound(store.db) && Grows(old(store.db), store.db)
      ensures store.trace == old(store.trace) + [Released(lease)]
    {
      var _, _ := store.Release(lease);
    }

    /** A Run swapped out by human control is reported as control, not as corrupt state. */
    method GiveUpRebuild(error: Error) returns (reported: Error, ghost news: seq<Event>)
      requires Sound(store.db)
      modifies store
      ensures Sound(store.db) && Grows(old(store.db), store.db)
      ensures store.trace == old(store.trace) + news
      ensures news == [Released(lease)] || news == [Released(lease), Identity(store.db)]
      ensures reported == error
           || (reported == ControlDenied && |news| == 2
               && (store.db.current != lease.run || store.db.generation != lease.generation))
    {
      AbandonBestEffort();
      ghost var mid := store.db;
      var r := store.Metadata();
      GrowsTrans(old(store.db), mid, store.db);
      news := if r.Ok? then [Released(lease), Identity(store.db)] else [Released(lease)];
      reported := if r.Ok? && (r.value.0 != lease.run || r.value.1 != lease.generation) then ControlDenied else error;
    }

    method AssertCurrent() returns (r: Reply<Snapshot>, ghost news: seq<Event>)
      requires Sound(store.db)
      modifies store
      ensures Sound(store.db) && Grows(old(store.db), store.db)
      ensures store.trace == old(store.trace) + news
      ensures OnlyWith(news, lease) && Reads(news)
      ensures r.Err? ==> Excused(news, lease, r.error)
      ensures r.Ok? ==> Checked(news, lease, store.db) && r.value == SnapshotOf(store.db)
    {
      var fenced := store.LeaseCurrent(lease);
      ghost var seen := store.db;
      if fenced.Err? {
        AbandonBestEffort();
        GrowsTrans(old(store.db), seen, store.db);
        return Err(fenced.error), [Released(lease)];
      }
      if !fenced.value { return Err(ControlDenied), [Fence(lease, seen)]; }
      var current := store.Rebuild();
      GrowsTrans(old(store.db), seen, store.db);
      if current.Err? {
        ghost var mid := store.db;
        var error, more := GiveUpRebuild(current.error);
        GrowsTrans(old(store.db), mid, store.db);
        assert ([Fence(lease, seen)] + more)[1] == Released(lease);
        return Err(error), [Fence(lease, seen)] + more;
      }
      news := [Fence(lease, seen), Rebuilt(store.db)];
      r := if current.value.generation != lease.generation || current.value.run != lease.run
           then Err(ControlDenied) else current;
    }

    /** The callback: an opaque query outside, which may fail. */
    method Execute(item: Call) returns (r: Reply<nat>)
      modifies store`trace
      ensures store.trace == old(store.trace) + [Dispatched(item)]
    {
      store.trace := store.trace + [Dispatched(item)];
      var failed: bool, value: nat := *, *;
      r := if failed then Err(ExecutorFailed) else Ok(value);
    }

    /** After the call: renew as best one can, then let the commit decide. */
    method Settle(item: Call, value: nat, ghost sofar: seq<Event>) returns (r: Reply<()>, ghost news: seq<Event>)
      requires Sound(store.db) && Planned(store.db, lease.run, lease.generation, item)
      requires Attempted(sofar, lease, item) && Clean(sofar)
      modifies store
      ensures Sound(store.db) && Grows(old(store.db), store.db)
      ensures store.trace == old(store.trace) + news
      ensures Attempted(sofar + news, lease, item) && Sent(sofar + news) == Sent(sofar)
      ensures r.Ok? ==> Adopted(store.db, lease.run, item) && Clean(sofar + news)
      ensures r.Err? ==> CommitErrorKept(sofar + news, r.error)
    {
      var again := store.Renew(lease);
      ghost var mid := store.db;
      ghost var renewal := if again.Ok? then [Renewed(lease, mid)] else [];
      ghost var at;
      r, at := store.CommitTool(lease, item, value);
      GrowsTrans(old(store.db), mid, store.db);
      assert Planned(store.db, lease.run, lease.generation, item);
      ghost var last := Committed(lease, item, store.db, if r.Err? then Some(r.error) else None);
      AttemptSettles(sofar, renewal, last, lease, item);
      news := renewal + [last];
    }

    /** Renew, call, renew again as best one can, commit. */
    method Perform(item: Call) returns (r: Reply<()>, ghost news: seq<Event>)
      requires Sound(store.db) && Planned(store.db, lease.run, lease.generation, item)
      modifies store
      ensures Sound(store.db) && Grows(old(store.db), store.db)
      ensures store.trace == old(store.trace) + news
      ensures Attempted(news, lease, item)
      ensures r.Ok? ==> Adopted(store.db, lease.run, item) && Sent(news) == [item] && Clean(news)
      ensures r.Err? ==> CommitErrorKept(news, r.error)
    {
      var renewed := store.Renew(lease);
      ghost var seen := store.db;
      if renewed.Err? { return Err(renewed.error), []; }
      var value := Execute(item);
      news := [Renewed(lease, seen), Dispatched(item)];
      AttemptBegins(seen, lease, item);
      if value.Err? { return Err(value.error), news; }
      ghost var more;
      r, more := Settle(item, value.value, news);
      GrowsTrans(old(store.db), seen, store.db);
      news := news + more;
    }

    /** One attempt; whatever fails, this lease is given back and the failure stays as it was. */
    method Attempt(item: Call) returns (r: Reply<()>, ghost news: seq<Event>)
      requires Sound(store.db) && Planned(store.db, lease.run, lease.generation, item)
      modifies store
      ensures Sound(store.db) && Grows(old(store.db), store.db)
      ensures store.trace == old(store.trace) + news
      ensures Attempted(news, lease, item)
      ensures r.Ok? ==> Adopted(store.db, lease.run, item) && Sent(news) == [item] && Clean(news)
      ensures r.Err? ==> CommitErrorKept(news, r.error) && Released(lease) in news
    {
      r, news := Perform(item);
      if r.Err? {
        ghost var mid := store.db;
        AbandonBestEffort();
        GrowsTrans(old(store.db), mid, store.db);
        AttemptGoesOn(news, Released(lease), lease, item);
        news := news + [Released(lease)];
        assert news[|news| - 1] == Released(lease);
      }
    }

    /** A call the check let through is attempted. */
    method Send(i: nat, ghost events: seq<Event>, ghost check: seq<Event>, ghost start: Db, ghost now: Db)
      returns (r: Reply<bool>, ghost news: seq<Event>)
      requires i < |plan| && Sound(store.db) && Planned(store.db, lease.run, lease.generation, plan[i])
      requires Passed(events, plan, i, lease, start, now) && Grows(now, store.db)
      requires LetThrough(check, lease, plan[i]) && check[1].seen == store.db
      modifies store
      ensures Sound(store.db) && Grows(old(store.db), store.db) && store.trace == old(store.trace) + news
      ensures r.Ok? ==> r.value && Passed(events + check + news, plan, i + 1, lease, start, store.db)
                        && |Sent(events + check + news)| == |Sent(events)| + 1
      ensures r.Err? ==> Stopped(events + check + news, plan, lease, start, store.db, r.error)
    {
      PendingIsNew(events, plan, i, lease, start, now, store.db);
      var done: Reply<()>;
      done, news := Attempt(plan[i]);
      GrowsTrans(now, old(store.db), store.db);
      if done.Err? {
        StopAtAttempt(events, check, news, plan, i, lease, start, now, store.db, done.error);
        r := Err(done.error);
      } else {
        PassOn(events, check, news, plan, i, lease, start, now, store.db);
        r := Ok(true);
      }
    }

    /** One planned call: passed over if it has its result by now, otherwise attempted. */
    method Next(i: nat, ghost events: seq<Event>, ghost start: Db) returns (r: Reply<bool>, ghost news: seq<Event>)
      requires i < |plan| && Ready() && Passed(events, plan, i, lease, start, store.db)
      modifies store
      ensures Ready() && store.trace == old(store.trace) + news
      ensures r.Ok? ==> Passed(events + news, plan, i + 1, lease, start, store.db)
                        && |Sent(events + news)| == |Sent(events)| + (if r.value then 1 else 0)
      ensures r.Err? ==> Stopped(events + news, plan, lease, start, store.db, r.error)
    {
      var current, check := AssertCurrent();
      ghost var mid := store.db;
      PlannedOn(plan, old(store.db), mid, lease);
      if current.Err? {
        StopAtCheck(events, check, plan, i, lease, start, old(store.db), store.db, current.error);
        return Err(current.error), check;
      }
      CheckDecides(check, lease, mid, plan[i]);
      if plan[i] !in current.value.pending {
        PassOver(events, check, plan, i, lease, start, old(store.db), store.db);
        return Ok(false), check;
      }
      ghost var more;
      r, more := Send(i, events, check, start, old(store.db));
      PlannedOn(plan, mid, store.db, lease);
      news := check + more;
      assert events + news == events + check + more;
    }

    /** A normal return means every planned call has an adopted result, and counts the calls sent.
        Only pending calls are sent, each once, each behind its own fence. */
    method ExecutePending() returns (r: Reply<nat>, ghost news: seq<Event>)
      requires Ready()
      modifies store
      ensures Ready() && Grows(old(store.db), store.db)
      ensures store.trace == old(store.trace) + news
      ensures Orderly(news, lease) && SentFor(Sent(news), plan, old(store.db), lease.run)
      ensures r.Ok? ==> r.value == |Sent(news)| && AllAdopted(plan, store.db, lease.run) && Clean(news)
      ensures r.Err? ==> Excused(news, lease, r.error) && CommitErrorKept(news, r.error)
    {
      var count := 0;
      news := [];
      for i := 0 to |plan|
        invariant Ready() && store.trace == old(store.trace) + news
        invariant Passed(news, plan, i, lease, old(store.db), store.db) && count == |Sent(news)|
      {
        var sent, more := Next(i, news, old(store.db));
        news := news + more;
        if sent.Err? { return Err(sent.error), news; }
        if sent.value { count := count + 1; }
      }
      assert plan[..|plan|] == plan;
      r := Ok(count);
    }

    /** Any failure gives this lease back and stays the failure it was. */
    method Publish(conclusion: nat) returns (r: Reply<bool>, ghost news: seq<Event>)
      requires Sound(store.db)
      modifies store
      ensures Sound(store.db) && Grows(old(store.db), store.db)
      ensures store.trace == old(store.trace) + news
      ensures r.Ok? ==> news == [Published(lease, None)]
      ensures r == Ok(true) ==> store.db.current == lease.run && store.db.conclusion == Some(conclusion)
      ensures r.Err? ==> news == [Published(lease, Some(r.error)), Released(lease)]
    {
      r := store.Publish(lease, conclusion);
      news := [Published(lease, if r.Err? then Some(r.error) else None)];
      if r.Err? {
        ghost var mid := store.db;
        AbandonBestEffort();
        GrowsTrans(old(store.db), mid, store.db);
        news := news + [Released(lease)];
      }
    }
  }

  lemma {:induction false} SendingMeansUnfinished(sent: seq<Call>, plan: seq<Call>, start: Db, run: nat)
    requires SentFor(sent, plan, start, run)
    ensures sent != [] ==> !AllAdopted(plan, start, run)
  {
    if sent != [] {
      var k :| 0 <= k < |plan| && plan[k] == sent[0];
    }
  }

  /** After one complete pass, a second over the same session calls nothing outside,
      whatever everybody else does to the rows during it. */
  method SecondPass(session: Session)
    returns (first: Reply<nat>, second: Reply<nat>, ghost before: seq<Event>, ghost news: seq<Event>)
    requires session.Ready()
    modifies session.store
    ensures session.store.trace == old(session.store.trace) + before + news
    ensures first.Ok? ==> first.value == |Sent(before)| && Sent(news) == [] && (second.Ok? ==> second.value == 0)
  {
    first, before := session.ExecutePending();
    ghost var mid := session.store.db;
    second, news := session.ExecutePending();
    SendingMeansUnfinished(Sent(news), session.plan, mid, session.lease.run);
  }

  // ------------------------------------------------ resuming

  /** Nothing claimed, given back or called. */
  ghost predicate Quiet(events: seq<Event>) {
    forall i {:trigger events[i]} :: 0 <= i < |events| ==>
      && !events[i].Granted? && !events[i].GrantLost? && !events[i].Released?
      && !events[i].Dispatched? && !events[i].Committed?
  }

  lemma {:induction false} QuietJoined(a: seq<Event>, b: seq<Event>)
    requires Quiet(a) && Quiet(b)
    ensures Quiet(a + b)
  {
  }

  /** The events of a failed resumption: at most one lease was granted to this worker's knowledge,
      and that one, and no other, it tried to give back. The one lease that can be left behind is one
      whose grant the worker never heard of: the claim's reply was lost and that was the end. */
  ghost predicate LeftNothing(events: seq<Event>, error: Error) {
    || Quiet(events)
    || (exists before, lease, between, after {:trigger Handed(events, before, lease, between, after)} ::
          Handed(events, before, lease, between, after))
    || (error == Unavailable && exists lease {:trigger GrantLost(lease)} :: Unheard(events, lease))
  }

  ghost predicate Unheard(events: seq<Event>, lease: Lease) {
    events != [] && Quiet(events[..|events| - 1]) && events[|events| - 1] == GrantLost(lease)
  }

  ghost predicate Handed(events: seq<Event>, before: seq<Event>, lease: Lease, between: seq<Event>, after: seq<Event>) {
    && Quiet(before) && Quiet(between) && Quiet(after)
    && events == before + [Granted(lease)] + between + [Released(lease)] + after
  }

  method Listed(calls: set<Call>) returns (list: seq<Call>)
    ensures forall c :: c in list <==> c in calls
    ensures AllDistinct(list)
  {
    list := [];
    var rest := calls;
    while rest != {}
      invariant rest <= calls && (forall c :: c in list <==> c in calls - rest) && AllDistinct(list)
      decreases |rest|
    {
      var c :| c in rest;
      assert c !in list;
      list := list + [c];
      rest := rest - {c};
    }
  }

  class Worker {
    const store: Store
    const versions: nat
    const owner: nat

    constructor (store: Store, versions: nat, owner: nat)
      ensures this.store == store && this.versions == versions && this.owner == owner
    {
      this.store, this.versions, this.owner := store, versions, owner;
    }

    /** A Run of other versions is handed to the blocked state: since a Run keeps its versions,
        the claim made for that purpose never grants a lease. */
    method GateVersions() returns (error: Option<Error>, ghost news: seq<Event>)
      requires Sound(store.db)
      modifies store
      ensures Sound(store.db) && Grows(old(store.db), store.db)
      ensures store.trace == old(store.trace) + news && Quiet(news)
      ensures error == None ==> |news| == 1 && news[0].Identity?
                                && news[0].seen.current in news[0].seen.runs
                                && news[0].seen.runs[news[0].seen.current].versions == versions
    {
      var r := store.Metadata();
      if r.Err? { return Some(r.error), []; }
      news := [Identity(store.db)];
      if r.value.2 == versions { return None, news; }
      ghost var mid := store.db;
      var claimed, lost := store.Claim(r.value.0, owner, versions);
      GrowsTrans(old(store.db), mid, store.db);
      assert claimed.Err? && lost == None by { assert RowKept(mid, store.db, r.value.0); }
      error := Some(if claimed.Err? then claimed.error else IncompatibleState);
    }

    /** Everything before a lease is asked for: the Run to claim. */
    method Choose() returns (r: Reply<nat>, ghost news: seq<Event>)
      requires Sound(store.db)
      modifies store
      ensures Sound(store.db) && Grows(old(store.db), store.db)
      ensures store.trace == old(store.trace) + news && Quiet(news)
    {
      var gate: Option<Error>;
      gate, news := GateVersions();
      ghost var mid := store.db;
      if gate.Some? { return Err(gate.value), news; }
      var plan := store.Rebuild();
      GrowsTrans(old(store.db), mid, store.db);
      if plan.Err? {
        mid := store.db;
        var again, more := GateVersions();
        GrowsTrans(old(store.db), mid, store.db);
        QuietJoined(news, more);
        return Err(if again.Some? then again.value else plan.error), news + more;
      }
      QuietJoined(news, [Rebuilt(store.db)]);
      news := news + [Rebuilt(store.db)];
      r := if plan.value.candidate then Ok(plan.value.run) else Err(ControlDenied);
    }

    /** A read that fails after the claim gives the lease back, then gates once more. */
    method Withdraw(lease: Lease, error: Error) returns (reported: Error, ghost news: seq<Event>)
      requires Sound(store.db)
      modifies store
      ensures Sound(store.db) && Grows(old(store.db), store.db)
      ensures store.trace == old(store.trace) + [Released(lease)] + news && Quiet(news)
    {
      var _, _ := store.Release(lease);
      ghost var mid := store.db;
      var gate: Option<Error>;
      gate, news := GateVersions();
      GrowsTrans(old(store.db), mid, store.db);
      reported := if gate.Some? then gate.value else error;
    }

    /** After the claim: the calls pending under it, or the lease given back. */
    method Refresh(lease: Lease) returns (r: Reply<seq<Call>>, ghost between: seq<Event>, ghost after: seq<Event>)
      requires Sound(store.db)
      modifies store
      ensures Sound(store.db) && Grows(old(store.db), store.db)
      ensures r.Err? ==> store.trace == old(store.trace) + between + [Released(lease)] + after && Quiet(between) && Quiet(after)
      ensures r.Ok? ==>
                && store.trace == old(store.trace) + [Rebuilt(store.db)]
                && store.db.current == lease.run && store.db.generation == lease.generation
                && AllDistinct(r.value) && forall c :: c in r.value <==> Pending(store.db, c)
    {
      between, after := [], [];
      var current := store.Rebuild();
      ghost var mid := store.db;
      if current.Err? {
        var error;
        error, after := Withdraw(lease, current.error);
        GrowsTrans(old(store.db), mid, store.db);
        return Err(error), between, after;
      }
      if !current.value.candidate || current.value.run != lease.run || current.value.generation != lease.generation {
        var released, _ := store.Release(lease);
        GrowsTrans(old(store.db), mid, store.db);
        return Err(if released.Err? then released.error else ControlDenied), [Rebuilt(mid)], [];
      }
      var plan := Listed(current.value.pending);
      r := Ok(plan);
    }

    /** A session whose plan is exactly what was pending under its own lease; or an error after which
        any lease granted was given back as best one could, save one whose grant was never heard of. */
    method Resume() returns (r: Reply<Session>, ghost news: seq<Event>)
      requires Sound(store.db)
      modifies store
      ensures Sound(store.db) && Grows(old(store.db), store.db)
      ensures store.trace == old(store.trace) + news
      ensures r.Err? ==> LeftNothing(news, r.error)
      ensures r.Ok? ==>
                && r.value.store == store && r.value.Ready() && r.value.lease.owner == owner
                && |news| >= 2 && Quiet(news[..|news| - 2])
                && news[|news| - 2] == Granted(r.value.lease) && news[|news| - 1] == Rebuilt(store.db)
                && store.db.current == r.value.lease.run && store.db.generation == r.value.lease.generation
                && AllDistinct(r.value.plan) && forall c :: c in r.value.plan <==> Pending(store.db, c)
    {
      var chosen, before := Choose();
      ghost var mid := store.db;
      if chosen.Err? { return Err(chosen.error), before; }
      var claimed, lost := store.Claim(chosen.value, owner, versions);
      GrowsTrans(old(store.db), mid, store.db);
      if claimed.Err? {
        news := if lost.Some? then before + [GrantLost(lost.value)] else before;
        if lost.Some? { assert Unheard(news, lost.value); }
        return Err(claimed.error), news;
      }
      mid := store.db;
      var plan, between, after := Refresh(claimed.value);
      GrowsTrans(old(store.db), mid, store.db);
      if plan.Err? {
        news := before + [Granted(claimed.value)] + between + [Released(claimed.value)] + after;
        assert Handed(news, before, claimed.value, between, after);
        return Err(plan.error), news;
      }
      news := before + [Granted(claimed.value), Rebuilt(store.db)];
      assert news[..|news| - 2] == before;
      assert AllPlanned(plan.value, store.db, claimed.value) by {
        forall k | 0 <= k < |plan.value| ensures Pending(store.db, plan.value[k]) { assert plan.value[k] in plan.value; }
      }
      var session := new Session(plan.value, claimed.value, store);
      r := Ok(session);
    }
  }
}
