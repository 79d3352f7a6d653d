// Delivery of trace rows: claim, send, settle, and a worker that may die between any two of them.

module OutboxDelivery {
  import opened Outcomes

  const MAX_ATTEMPTS: nat := 8
  const CLAIM_LEASE: nat := 30
  const BACKOFF_BASE: nat := 5
  const BACKOFF_CAP: nat := 600

  datatype Reason = MaxAttempts | Rejected | Unserializable | Backlog

  datatype State = Pending | Delivered | Dropped(reason: Reason)

  /** What a span's ids are derived from. */
  datatype Identity = Identity(run: Option<nat>, key: nat)

  datatype Row = Row(identity: Identity, state: State, attempts: nat, due: Option<int>)

  /** The `number`-th attempt at a row, as counted by the claim that made it. */
  datatype Attempt = Attempt(id: nat, number: nat)

  datatype Sending = Sending(attempt: Attempt, identity: Identity)

  // ------------------------------------------------ backoff

  function Pow2(n: nat): (p: nat)
    ensures 1 <= p
  {
    if n == 0 then 1 else 2 * Pow2(n - 1)
  }

  /** `backoff_seconds`. */
  function Backoff(failures: nat): nat {
    var delay := BACKOFF_BASE * Pow2(if failures == 0 then 0 else failures - 1);
    if delay < BACKOFF_CAP then delay else BACKOFF_CAP
  }

  function Total(n: nat): nat { if n == 0 then 0 else Total(n - 1) + Backoff(n) }

  /** The delays that are ever scheduled grow, never reach the cap and add up to 635 seconds. */
  lemma {:induction false} ScheduledBackoffs()
    ensures forall k :: 1 <= k < MAX_ATTEMPTS ==> Backoff(k) < BACKOFF_CAP
    ensures forall j, k :: 1 <= j < k < MAX_ATTEMPTS ==> Backoff(j) < Backoff(k)
    ensures Total(MAX_ATTEMPTS - 1) == 635
  {
    assert Pow2(2) == 4 && Pow2(4) == 16 && Pow2(6) == 64;
    assert Backoff(1) == 5 && Backoff(2) == 10 && Backoff(3) == 20 && Backoff(4) == 40;
    assert Backoff(5) == 80 && Backoff(6) == 160 && Backoff(7) == 320;
    assert Total(3) == 35 && Total(5) == 155;
  }

  // ------------------------------------------------ settling one batch

  datatype Claimed = Claimed(id: nat, number: nat, readable: bool)

  datatype Fate = Deliver | Drop(reason: Reason) | Retry(delay: nat)

  predicate Accepted(status: Option<nat>) { status.Some? && 200 <= status.value < 300 }

  predicate Refused(status: Option<nat>) {
    status.Some? && 400 <= status.value < 500 && status.value != 408 && status.value != 429
  }

  /** What becomes of a claimed row: whether its span and the batch could be built, and the answer. */
  function FateOf(row: Claimed, encoded: bool, status: Option<nat>): Fate {
    if !row.readable || !encoded then Drop(Unserializable)
    else if Accepted(status) then Deliver
    else if Refused(status) then Drop(Rejected)
    else if row.number >= MAX_ATTEMPTS then Drop(MaxAttempts)
    else Retry(Backoff(row.number))
  }

  /** When each fate is met. */
  lemma {:induction false} FateMeans(row: Claimed, encoded: bool, status: Option<nat>)
    ensures var fate, legible := FateOf(row, encoded, status), row.readable && encoded;
            && (fate == Drop(Unserializable) <==> !legible)
            && (fate == Deliver <==> legible && status.Some? && 200 <= status.value <= 299)
            && (fate == Drop(Rejected) <==>
                  legible && status.Some? && 400 <= status.value <= 499 && status.value !in {408, 429})
            && (fate == Drop(MaxAttempts) <==> legible && Unanswered(status) && row.number >= 8)
            && (fate == Retry(Backoff(row.number)) <==> legible && Unanswered(status) && row.number < 8)
            && (fate.Retry? ==> fate.delay == Backoff(row.number)) && fate != Drop(Backlog)
  {
  }

  /** Neither taken nor refused for good: no answer, an overload, a failing or redirecting server. */
  predicate Unanswered(status: Option<nat>) {
    status.None? || status.value < 200 || 300 <= status.value < 400 || status.value in {408, 429} || 500 <= status.value
  }

  datatype Settlement = Settlement(delivered: seq<nat>, dropped: map<Reason, seq<nat>>, retries: map<nat, nat>)

  function DroppedFor(s: Settlement, reason: Reason): seq<nat> { if reason in s.dropped then s.dropped[reason] else [] }

  /** The lists of a settlement hold exactly the rows of their fates. */
  ghost predicate Settles(s: Settlement, rows: seq<Claimed>, encoded: bool, status: Option<nat>) {
    && (forall id :: id in s.delivered <==> Has(rows, encoded, status, id, Deliver))
    && (forall id, reason :: id in DroppedFor(s, reason) <==> Has(rows, encoded, status, id, Drop(reason)))
    && (forall id :: id in s.retries ==> Has(rows, encoded, status, id, Retry(s.retries[id])))
    && (forall id, delay :: Has(rows, encoded, status, id, Retry(delay)) ==> id in s.retries && s.retries[id] == delay)
  }

  ghost predicate Has(rows: seq<Claimed>, encoded: bool, status: Option<nat>, id: nat, fate: Fate) {
    exists i :: 0 <= i < |rows| && rows[i].id == id && FateOf(rows[i], encoded, status) == fate
  }

  ghost predicate DistinctIds(rows: seq<Claimed>) {
    forall i, j {:trigger rows[i], rows[j]} :: 0 <= i < j < |rows| ==> rows[i].id != rows[j].id
  }

  /** The ids of the rows that meet a condition. */
  function Chosen(rows: seq<Claimed>, pick: Claimed -> bool): (ids: seq<nat>)
    ensures forall id :: id in ids <==> exists i :: 0 <= i < |rows| && rows[i].id == id && pick(rows[i])
  {
    if rows == [] then []
    else
      var last := rows[|rows| - 1];
      var ids := Chosen(rows[..|rows| - 1], pick);
      if pick(last) then ids + [last.id] else ids
  }

  method Retries(rows: seq<Claimed>) returns (retries: map<nat, nat>)
    requires DistinctIds(rows)
    ensures forall id :: id in retries ==> exists i :: 0 <= i < |rows| && rows[i].id == id && Retried(rows[i], retries[id])
    ensures forall i :: 0 <= i < |rows| && rows[i].readable && rows[i].number < MAX_ATTEMPTS ==>
              rows[i].id in retries && Retried(rows[i], retries[rows[i].id])
  {
    retries := map[];
    for i := 0 to |rows|
      invariant forall id :: id in retries ==> exists j :: 0 <= j < i && rows[j].id == id && Retried(rows[j], retries[id])
      invariant forall j :: 0 <= j < i && rows[j].readable && rows[j].number < MAX_ATTEMPTS ==>
                  rows[j].id in retries && Retried(rows[j], retries[rows[j].id])
    {
      if rows[i].readable && rows[i].number < MAX_ATTEMPTS {
        retries := retries[rows[i].id := Backoff(rows[i].number)];
      }
    }
  }

  predicate Retried(row: Claimed, delay: nat) { row.readable && row.number < MAX_ATTEMPTS && delay == Backoff(row.number) }

  /** `_send`, with the batch's encoding and the transport's answer given: every claimed row has one
      fate, and is settled by it and no other. */
  method Settle(rows: seq<Claimed>, encoded: bool, status: Option<nat>) returns (s: Settlement)
    requires DistinctIds(rows)
    ensures Settles(s, rows, encoded, status)
  {
    if !encoded {
      var all := Chosen(rows, (row: Claimed) => true);
      return Settlement([], map[Unserializable := all], map[]);
    }
    var unreadable := Chosen(rows, (row: Claimed) => !row.readable);
    var sent := Chosen(rows, (row: Claimed) => row.readable);
    if Accepted(status) { return Settlement(sent, map[Unserializable := unreadable], map[]); }
    if Refused(status) { return Settlement([], map[Unserializable := unreadable, Rejected := sent], map[]); }
    var exhausted := Chosen(rows, (row: Claimed) => row.readable && row.number >= MAX_ATTEMPTS);
    var retries := Retries(rows);
    s := Settlement([], map[Unserializable := unreadable, MaxAttempts := exhausted], retries);
  }

  // ------------------------------------------------ the outbox over any run

  /** `held`: claimed and not sent; `flying`: sent and not settled. */
  datatype Outbox = Outbox(
    rows: map<nat, Row>, held: set<Attempt>, flying: set<Attempt>, log: seq<Sending>, retried: set<Attempt>)

  datatype Op =
    | Enter(id: nat, identity: Identity)
    | Claim(id: nat, now: int)
    | Send(at: Attempt)
    | Finish(at: Attempt, readable: bool, encoded: bool, status: Option<nat>, now: int)
    | Crash(at: Attempt)                                     // the worker dies with this attempt
    | Trim(id: nat)

  predicate IsDue(row: Row, now: int) { row.state == Pending && (row.due.None? || row.due.value <= now) }

  /** `claim`: count the attempt and lease the row, or drop it when its attempts are used up. */
  function ClaimRow(o: Outbox, id: nat, now: int): Outbox
    requires id in o.rows
  {
    var row := o.rows[id];
    if row.attempts >= MAX_ATTEMPTS then o.(rows := o.rows[id := row.(state := Dropped(MaxAttempts))])
    else
      o.(rows := o.rows[id := row.(attempts := row.attempts + 1, due := Some(now + CLAIM_LEASE))],
         held := o.held + {Attempt(id, row.attempts + 1)})
  }

  /** The settling writes touch only rows that are still pending. */
  function Settled(row: Row, fate: Fate, now: int): Row {
    if row.state != Pending then row
    else
      match fate
      case Deliver => row.(state := Delivered)
      case Drop(reason) => row.(state := Dropped(reason))
      case Retry(delay) => row.(due := Some(now + delay))
  }

  function Do(o: Outbox, op: Op): Outbox {
    match op
    case Enter(id, identity) =>
      if id in o.rows then o else o.(rows := o.rows[id := Row(identity, Pending, 0, None)])
    case Claim(id, now) => if id in o.rows && IsDue(o.rows[id], now) then ClaimRow(o, id, now) else o
    case Send(at) =>
      if at !in o.held || at.id !in o.rows then o
      else o.(held := o.held - {at}, flying := o.flying + {at}, log := o.log + [Sending(at, o.rows[at.id].identity)])
    case Finish(at, readable, encoded, status, now) =>
      // a row that cannot be serialized is settled without having been sent
      if at.id !in o.rows || at !in (if readable && encoded then o.flying else o.held) then o
      else
        var fate := FateOf(Claimed(at.id, at.number, readable), encoded, status);
        o.(rows := o.rows[at.id := Settled(o.rows[at.id], fate, now)], held := o.held - {at}, flying := o.flying - {at},
           retried := if fate.Retry? then o.retried + {at} else o.retried)
    case Crash(at) => o.(held := o.held - {at}, flying := o.flying - {at})
    case Trim(id) =>
      if id in o.rows && o.rows[id].state == Pending then o.(rows := o.rows[id := o.rows[id].(state := Dropped(Backlog))]) else o
  }

  /** What an attempt that finishes does to its row, if nothing settled the row before: delivered when
      taken, dropped for the reason it failed, or not due again before its backoff has passed. */
  lemma {:induction false} FinishSettles(o: Outbox, at: Attempt, readable: bool, encoded: bool, status: Option<nat>, now: int)
    requires at.id in o.rows && at in (if readable && encoded then o.flying else o.held)
    ensures var b := Do(o, Finish(at, readable, encoded, status, now));
            && at.id in b.rows && at !in b.held && at !in b.flying
            && (o.rows[at.id].state != Pending ==> b.rows == o.rows)
            && (o.rows[at.id].state == Pending ==> FinishedAs(o.rows[at.id], b.rows[at.id], at, readable && encoded, status, now))
  {
  }

  ghost predicate FinishedAs(was: Row, row: Row, at: Attempt, legible: bool, status: Option<nat>, now: int) {
    && row.identity == was.identity && row.attempts == was.attempts
    && (!legible ==> row.state == Dropped(Unserializable))
    && (legible && Accepted(status) ==> row.state == Delivered)
    && (legible && Refused(status) ==> row.state == Dropped(Rejected))
    && (legible && Unanswered(status) && at.number >= 8 ==> row.state == Dropped(MaxAttempts))
    && (legible && Unanswered(status) && at.number < 8 ==>
          row.state == Pending && forall later: int :: IsDue(row, later) <==> now + Backoff(at.number) <= later)
  }

  /** What a claim does to a row: nothing unless it is due; the ninth attempt is not made but drops it;
      any other is counted, held, and keeps the row from being claimed for thirty seconds. */
  lemma {:induction false} ClaimLeases(o: Outbox, id: nat, now: int)
    requires id in o.rows
    ensures var row, b := o.rows[id], Do(o, Claim(id, now));
            && id in b.rows
            && (row.state != Pending || (row.due.Some? && now < row.due.value) ==> b == o)
            && (IsDue(row, now) && row.attempts >= 8 ==> b.rows[id].state == Dropped(MaxAttempts) && b.held == o.held)
            && (IsDue(row, now) && row.attempts < 8 ==>
                  && b.rows[id].state == Pending && b.rows[id].attempts == row.attempts + 1
                  && b.held == o.held + {Attempt(id, row.attempts + 1)}
                  && forall later: int :: IsDue(b.rows[id], later) <==> now + 30 <= later)
  {
  }

  /** The row a step is about. */
  function RowOf(op: Op): nat {
    match op
    case Enter(id, _) => id
    case Claim(id, _) => id
    case Send(at) => at.id
    case Finish(at, _, _, _, _) => at.id
    case Crash(at) => at.id
    case Trim(id) => id
  }

  /** Every other row stays as it is. */
  lemma {:induction false} OthersUntouched(o: Outbox, op: Op, id: nat)
    requires id != RowOf(op)
    ensures id in Do(o, op).rows <==> id in o.rows
    ensures id in o.rows ==> Do(o, op).rows[id] == o.rows[id]
  {
  }

  function DoAll(o: Outbox, ops: seq<Op>): Outbox
    decreases |ops|
  {
    if ops == [] then o else DoAll(Do(o, ops[0]), ops[1..])
  }

  ghost predicate Counted(o: Outbox, at: Attempt) { at.id in o.rows && 1 <= at.number <= o.rows[at.id].attempts }

  ghost predicate Sound(o: Outbox) {
    && (forall id {:trigger o.rows[id]} :: id in o.rows ==> o.rows[id].attempts <= MAX_ATTEMPTS)
    && (forall at {:trigger at in o.held} :: at in o.held ==> Counted(o, at))
    && (forall at {:trigger at in o.flying} :: at in o.flying ==> Counted(o, at))
    && (forall at {:trigger at in o.retried} :: at in o.retried ==> Counted(o, at) && at.number < MAX_ATTEMPTS)
    && SendsSound(o)
  }

  /** Every sending is a counted attempt, no longer held, under the row's identity; none is repeated. */
  ghost predicate SendsSound(o: Outbox) {
    && (forall i {:trigger o.log[i]} :: 0 <= i < |o.log| ==>
          Counted(o, o.log[i].attempt) && o.log[i].attempt !in o.held && o.log[i].identity == o.rows[o.log[i].attempt.id].identity)
    && (forall i, j {:trigger o.log[i], o.log[j]} :: 0 <= i < j < |o.log| ==> o.log[i].attempt != o.log[j].attempt)
  }

  /** Rows stay, keep their identity, only count upward, and once settled are settled for good. */
  ghost predicate Grows(a: Outbox, b: Outbox) {
    && a.log <= b.log && a.retried <= b.retried
    && forall id {:trigger Kept(a, b, id)} :: Kept(a, b, id)
  }

  ghost predicate Kept(a: Outbox, b: Outbox, id: nat) {
    id in a.rows ==>
      && id in b.rows && a.rows[id].identity == b.rows[id].identity && a.rows[id].attempts <= b.rows[id].attempts
      && (a.rows[id].state != Pending ==> b.rows[id].state == a.rows[id].state)
  }

  lemma {:induction false} DoGrows(o: Outbox, op: Op)
    ensures Grows(o, Do(o, op))
  {
  }

  lemma {:induction false} CountedStays(a: Outbox, b: Outbox, at: Attempt)
    requires Grows(a, b) && Counted(a, at)
    ensures Counted(b, at)
  {
    assert Kept(a, b, at.id);
  }

  lemma {:induction false} DoSound(o: Outbox, op: Op)
    requires Sound(o)
    ensures Sound(Do(o, op))
  {
    var b := Do(o, op);
    DoGrows(o, op);
    forall at | Counted(o, at) ensures Counted(b, at) { CountedStays(o, b, at); }
    SendsStaySound(o, op);
  }

  lemma {:induction false} SendsStaySound(o: Outbox, op: Op)
    requires Sound(o)
    ensures SendsSound(Do(o, op))
  {
    var b := Do(o, op);
    DoGrows(o, op);
    forall i | 0 <= i < |b.log|
      ensures Counted(b, b.log[i].attempt) && b.log[i].attempt !in b.held && b.log[i].identity == b.rows[b.log[i].attempt.id].identity
    {
      if i < |o.log| {
        assert b.log[i] == o.log[i];
        CountedStays(o, b, o.log[i].attempt);
        assert Kept(o, b, o.log[i].attempt.id);
      } else {
        assert op.Send? && op.at in o.held;
      }
    }
    forall i, j | 0 <= i < j < |b.log| ensures b.log[i].attempt != b.log[j].attempt {
      assert b.log[i] == o.log[i];
      if j < |o.log| { assert b.log[j] == o.log[j]; } else { assert op.Send? && op.at in o.held; }
    }
  }

  lemma {:induction false} GrowsTrans(a: Outbox, b: Outbox, c: Outbox)
    requires Grows(a, b) && Grows(b, c)
    ensures Grows(a, c)
  {
    forall id ensures Kept(a, c, id) { assert Kept(a, b, id) && Kept(b, c, id); }
  }

  /** Whatever workers, crashes and lapsed claims do: a settled row stays as it was settled. */
  lemma {:induction false} RunsAreSound(o: Outbox, ops: seq<Op>)
    requires Sound(o)
    ensures Sound(DoAll(o, ops)) && Grows(o, DoAll(o, ops))
    ensures forall id :: id in o.rows && o.rows[id].state != Pending ==>
              id in DoAll(o, ops).rows && DoAll(o, ops).rows[id].state == o.rows[id].state
    decreases |ops|
  {
    if ops != [] {
      DoSound(o, ops[0]);
      DoGrows(o, ops[0]);
      RunsAreSound(Do(o, ops[0]), ops[1..]);
      GrowsTrans(o, Do(o, ops[0]), DoAll(o, ops));
    }
    forall id | id in o.rows && o.rows[id].state != Pending
      ensures id in DoAll(o, ops).rows && DoAll(o, ops).rows[id].state == o.rows[id].state
    {
      assert Kept(o, DoAll(o, ops), id);
    }
  }

  // ------------------------------------------------ bounds

  /** Where in the log row `id` was sent. */
  function SendsOf(o: Outbox, id: nat): set<nat> { set i: nat | i < |o.log| && o.log[i].attempt.id == id }

  lemma {:induction false} ImageSize(o: Outbox, id: nat, places: set<nat>, numbers: set<nat>)
    requires SendsSound(o)
    requires forall i :: i in places ==> i < |o.log| && o.log[i].attempt.id == id && o.log[i].attempt.number in numbers
    ensures |places| <= |numbers|
    decreases places
  {
    if places != {} {
      var i :| i in places;
      var n := o.log[i].attempt.number;
      forall j | j in places - {i} ensures o.log[j].attempt.number in numbers - {n} {
        assert o.log[i].attempt != o.log[j].attempt;
      }
      ImageSize(o, id, places - {i}, numbers - {n});
    }
  }

  /** From an empty outbox, over any run, a row is sent at most eight times, always as the same span. */
  lemma {:induction false} SentAtMostEightTimes(ops: seq<Op>, id: nat)
    ensures var o := DoAll(Outbox(map[], {}, {}, [], {}), ops);
            && |SendsOf(o, id)| <= MAX_ATTEMPTS
            && forall i, j :: i in SendsOf(o, id) && j in SendsOf(o, id) ==> o.log[i].identity == o.log[j].identity
  {
    var o := DoAll(Outbox(map[], {}, {}, [], {}), ops);
    RunsAreSound(Outbox(map[], {}, {}, [], {}), ops);
    var numbers: set<nat> := {1, 2, 3, 4, 5, 6, 7, 8};
    forall i | i in SendsOf(o, id) ensures o.log[i].attempt.number in numbers { assert Counted(o, o.log[i].attempt); }
    ImageSize(o, id, SendsOf(o, id), numbers);
  }

  /** The delays scheduled for a row, up to attempt `n`. */
  function Scheduled(o: Outbox, id: nat, n: nat): nat {
    if n == 0 then 0 else Scheduled(o, id, n - 1) + (if Attempt(id, n) in o.retried then Backoff(n) else 0)
  }

  lemma {:induction false} ScheduledWithin(o: Outbox, id: nat, n: nat)
    requires Sound(o) && MAX_ATTEMPTS - 1 <= n
    ensures Scheduled(o, id, n) == Scheduled(o, id, MAX_ATTEMPTS - 1)
    decreases n
  {
    if MAX_ATTEMPTS - 1 < n { ScheduledWithin(o, id, n - 1); }
  }

  lemma {:induction false} ScheduledAtMostTotal(o: Outbox, id: nat, n: nat)
    ensures Scheduled(o, id, n) <= Total(n)
  {
    if n > 0 { ScheduledAtMostTotal(o, id, n - 1); }
  }

  /** Over any run, all the delays ever scheduled for a row add up to at most 635 seconds. */
  lemma {:induction false} DelaysAreBounded(ops: seq<Op>, id: nat, n: nat)
    ensures Scheduled(DoAll(Outbox(map[], {}, {}, [], {}), ops), id, n) <= 635
  {
    var o := DoAll(Outbox(map[], {}, {}, [], {}), ops);
    RunsAreSound(Outbox(map[], {}, {}, [], {}), ops);
    ScheduledBackoffs();
    if MAX_ATTEMPTS - 1 <= n {
      ScheduledWithin(o, id, n);
      ScheduledAtMostTotal(o, id, MAX_ATTEMPTS - 1);
    } else {
      ScheduledAtMostTotal(o, id, n);
      TotalGrows(n, MAX_ATTEMPTS - 1);
    }
  }

  lemma {:induction false} TotalGrows(m: nat, n: nat)
    requires m <= n
    ensures Total(m) <= Total(n)
    decreases n
  {
    if m < n { TotalGrows(m, n - 1); }
  }
}
