// The retention pass: scan, cleanup unit by unit under a recheck, and the report.

module Retention {
  import opened Outcomes
  import opened Connectivity
  import opened MergeGraph
  import opened CleanupUnits

  const MIN_DAYS: nat := 30

  // ------------------------------------------------ what keeps an incident

  datatype Code =
    | NotClosed | ClosedAtMissing | WithinRetention | ActiveRun | ActiveObservation
    | GenerationPending | DraftUnderReview | ActiveKnowledge

  /** The facts of one incident the reasons are read from; times are in days. */
  datatype Facts = Facts(
    closed: bool, closedAt: Option<int>, activeRun: bool, activeObservation: bool,
    generationPending: bool, underReview: bool, activeKnowledge: bool)

  /** The database rows the recheck reads, at one instant. */
  datatype Snapshot = Snapshot(pointers: set<Edge>, incidents: map<Id, Facts>, now: int)

  function When(b: bool, c: Code): seq<Code> { if b then [c] else [] }

  function StateReason(f: Facts, now: int, days: nat): seq<Code> {
    if !f.closed then [NotClosed]
    else if f.closedAt.None? then [ClosedAtMissing]
    else When(f.closedAt.value > now - days, WithinRetention)
  }

  /** `_reasons` for one incident, in the reporting order; an unknown incident has none. */
  function Reasons(s: Snapshot, days: nat, i: Id): seq<Code> {
    if i !in s.incidents then []
    else
      var f := s.incidents[i];
      StateReason(f, s.now, days)
      + When(f.activeRun, ActiveRun) + When(f.activeObservation, ActiveObservation)
      + When(f.generationPending, GenerationPending) + When(f.underReview, DraftUnderReview)
      + When(f.activeKnowledge, ActiveKnowledge)
  }

  /** Closed at least `days` ago and referred to by nothing live. */
  ghost predicate MayBeCleaned(f: Facts, now: int, days: nat) {
    && f.closed && f.closedAt.Some? && f.closedAt.value + days <= now
    && !f.activeRun && !f.activeObservation && !f.generationPending && !f.underReview && !f.activeKnowledge
  }

  /** The condition each code stands for. */
  ghost predicate Applies(f: Facts, now: int, days: nat, c: Code) {
    match c
    case NotClosed => !f.closed
    case ClosedAtMissing => f.closed && f.closedAt.None?
    case WithinRetention => f.closed && f.closedAt.Some? && now < f.closedAt.value + days
    case ActiveRun => f.activeRun
    case ActiveObservation => f.activeObservation
    case GenerationPending => f.generationPending
    case DraftUnderReview => f.underReview
    case ActiveKnowledge => f.activeKnowledge
  }

  /** The place of a code in the reporting order. */
  function PlaceOf(c: Code): nat {
    match c
    case NotClosed => 0
    case ClosedAtMissing => 1
    case WithinRetention => 2
    case ActiveRun => 3
    case ActiveObservation => 4
    case GenerationPending => 5
    case DraftUnderReview => 6
    case ActiveKnowledge => 7
  }

  /** In the reporting order, each once, and nothing from place `below` on. */
  ghost predicate InOrder(codes: seq<Code>, below: nat) {
    && (forall a, b {:trigger codes[a], codes[b]} :: 0 <= a < b < |codes| ==> PlaceOf(codes[a]) < PlaceOf(codes[b]))
    && (forall a {:trigger codes[a]} :: 0 <= a < |codes| ==> PlaceOf(codes[a]) < below)
  }

  lemma {:induction false} InOrderNext(codes: seq<Code>, below: nat, b: bool, next: Code)
    requires InOrder(codes, below) && below <= PlaceOf(next)
    ensures InOrder(codes + When(b, next), PlaceOf(next) + 1)
  {
  }

  lemma {:induction false} ReasonsInOrder(s: Snapshot, days: nat, i: Id)
    ensures InOrder(Reasons(s, days, i), 8)
  {
    if i in s.incidents {
      var f := s.incidents[i];
      var own := StateReason(f, s.now, days);
      StateReasonExactly(f, s.now, days, NotClosed);
      var run := own + When(f.activeRun, ActiveRun);
      var observed := run + When(f.activeObservation, ActiveObservation);
      var pending := observed + When(f.generationPending, GenerationPending);
      var draft := pending + When(f.underReview, DraftUnderReview);
      InOrderNext(own, 3, f.activeRun, ActiveRun);
      InOrderNext(run, 4, f.activeObservation, ActiveObservation);
      InOrderNext(observed, 5, f.generationPending, GenerationPending);
      InOrderNext(pending, 6, f.underReview, DraftUnderReview);
      InOrderNext(draft, 7, f.activeKnowledge, ActiveKnowledge);
    }
  }

  lemma {:induction false} InWhen(codes: seq<Code>, b: bool, next: Code, c: Code)
    ensures c in codes + When(b, next) <==> c in codes || (b && c == next)
  {
  }

  /** A code is a reason exactly when its condition holds, each once and in the reporting order. */
  lemma {:induction false} ReasonsExactly(s: Snapshot, days: nat, i: Id, c: Code)
    requires i in s.incidents
    ensures c in Reasons(s, days, i) <==> Applies(s.incidents[i], s.now, days, c)
    ensures InOrder(Reasons(s, days, i), 8)
  {
    var f := s.incidents[i];
    var own := StateReason(f, s.now, days);
    var run := own + When(f.activeRun, ActiveRun);
    var observed := run + When(f.activeObservation, ActiveObservation);
    var pending := observed + When(f.generationPending, GenerationPending);
    var draft := pending + When(f.underReview, DraftUnderReview);
    StateReasonExactly(f, s.now, days, c);
    InWhen(own, f.activeRun, ActiveRun, c);
    InWhen(run, f.activeObservation, ActiveObservation, c);
    InWhen(observed, f.generationPending, GenerationPending, c);
    InWhen(pending, f.underReview, DraftUnderReview, c);
    InWhen(draft, f.activeKnowledge, ActiveKnowledge, c);
    ReasonsInOrder(s, days, i);
  }

  lemma {:induction false} StateReasonExactly(f: Facts, now: int, days: nat, c: Code)
    ensures InOrder(StateReason(f, now, days), 3)
    ensures c in StateReason(f, now, days) <==> PlaceOf(c) < 3 && Applies(f, now, days, c)
  {
  }

  lemma {:induction false} NoReasonsMeansCleanable(s: Snapshot, days: nat, i: Id)
    requires i in s.incidents
    ensures Reasons(s, days, i) == [] <==> MayBeCleaned(s.incidents[i], s.now, days)
  {
  }

  // ------------------------------------------------ the plan

  datatype Plan = Plan(rows: seq<Row>, groups: map<Id, set<Id>>, reasons: map<Id, seq<Code>>)

  ghost predicate ValidPlan(plan: Plan) {
    Partitions(plan.groups) && Attributed(plan.groups, plan.rows) && plan.reasons.Keys == plan.groups.Keys
  }

  predicate Cleanable(plan: Plan, i: Id)
    requires ValidPlan(plan) && i in plan.groups
  {
    forall m :: m in plan.groups[i] ==> assert m in plan.groups; plan.reasons[m] == []
  }

  predicate Ready(plan: Plan, row: Row)
    requires ValidPlan(plan) && row in plan.rows
  {
    forall i :: i in row.incidents ==> Cleanable(plan, i)
  }

  ghost predicate AllReady(plan: Plan, rows: seq<Row>)
    requires ValidPlan(plan)
  {
    forall k {:trigger rows[k]} :: 0 <= k < |rows| ==> rows[k] in plan.rows && Ready(plan, rows[k])
  }

  lemma {:induction false} ReadyAttributed(plan: Plan, rows: seq<Row>)
    requires ValidPlan(plan) && AllReady(plan, rows)
    ensures Attributed(plan.groups, rows)
  {
  }

  /** No member of a unit of ready rows was kept by anything at the scan. */
  lemma {:induction false} ReadyUnitUnkept(plan: Plan, rows: seq<Row>, units: seq<Unit>, u: nat, x: Id)
    requires ValidPlan(plan) && AllReady(plan, rows) && Attributed(plan.groups, rows)
    requires IsUnits(plan.groups, rows, units) && u < |units| && x in units[u].members
    ensures x in plan.reasons && plan.reasons[x] == []
  {
    MemberIsPulled(plan.groups, rows, units, u, x);
    var k :| 0 <= k < |rows| && Pulls(plan.groups, rows[k], x);
    var i :| i in rows[k].incidents && i in plan.groups && x in plan.groups[i];
    assert Cleanable(plan, i);
  }

  /** `held`: reported as blocked, being in the merge group of an owner that may not be cleaned. */
  ghost predicate Held(plan: Plan, m: Id)
    requires ValidPlan(plan)
  {
    exists k, i :: 0 <= k < |plan.rows| && i in plan.rows[k].incidents && i in plan.groups
                   && !Cleanable(plan, i) && m in plan.groups[i]
  }

  /** No owner of a ready row is also reported as blocked by the scan. */
  lemma {:induction false} OwnersNotHeld(plan: Plan, row: Row, m: Id)
    requires ValidPlan(plan) && row in plan.rows && Ready(plan, row) && m in row.incidents
    ensures !Held(plan, m)
  {
  }

  // ------------------------------------------------ what the plan says of the scanned state

  /** The plan is that of the state `s`. */
  ghost predicate PlanOf(s: Snapshot, days: nat, plan: Plan) {
    && ValidPlan(plan) && IsGroups(OwnersOf(plan.rows), s.pointers, plan.groups)
    && forall m {:trigger plan.reasons[m]} :: m in plan.reasons ==> plan.reasons[m] == Reasons(s, days, m)
  }

  /** Every known incident of the merge group of `i` may be cleaned. */
  ghost predicate GroupMayGo(s: Snapshot, days: nat, i: Id) {
    forall m {:trigger Connected(s.pointers, i, m)} :: Connected(s.pointers, i, m) && m in s.incidents ==>
      MayBeCleaned(s.incidents[m], s.now, days)
  }

  ghost predicate RowMayGo(s: Snapshot, days: nat, row: Row) {
    forall i {:trigger GroupMayGo(s, days, i)} :: i in row.incidents ==> GroupMayGo(s, days, i)
  }

  lemma {:induction false} CleanableMeans(s: Snapshot, days: nat, plan: Plan, i: Id)
    requires PlanOf(s, days, plan) && i in plan.groups
    ensures Cleanable(plan, i) <==> GroupMayGo(s, days, i)
  {
    forall m | Connected(s.pointers, i, m) && m in s.incidents
      ensures m in plan.groups && (plan.reasons[m] == [] <==> MayBeCleaned(s.incidents[m], s.now, days))
    {
      assert m in plan.groups[i];
      NoReasonsMeansCleanable(s, days, m);
    }
    if GroupMayGo(s, days, i) {
      forall m | m in plan.groups[i] ensures plan.reasons[m] == [] {
        assert Connected(s.pointers, i, m);
      }
    }
  }

  /** A row is ready exactly when every known incident connected to an owner was closed long enough ago
      and nothing live refers to it. */
  lemma {:induction false} ReadyMeans(s: Snapshot, days: nat, plan: Plan, row: Row)
    requires PlanOf(s, days, plan) && row in plan.rows
    ensures Ready(plan, row) <==> RowMayGo(s, days, row)
  {
    forall i | i in row.incidents ensures i in plan.groups && (Cleanable(plan, i) <==> GroupMayGo(s, days, i)) {
      OwnerKnown(s, days, plan, row, i);
      CleanableMeans(s, days, plan, i);
    }
  }

  lemma {:induction false} OwnerKnown(s: Snapshot, days: nat, plan: Plan, row: Row, i: Id)
    requires PlanOf(s, days, plan) && row in plan.rows && i in row.incidents
    ensures i in plan.groups
  {
    var k :| 0 <= k < |plan.rows| && plan.rows[k] == row;
    ConnectedRefl(s.pointers, i);
    assert Reached(OwnersOf(plan.rows), s.pointers, i);
  }

  /** `ready` is the subsequence of the first `n` rows at exactly the places of those that may go. */
  ghost predicate Picked(s: Snapshot, days: nat, rows: seq<Row>, n: nat, ready: seq<Row>, places: seq<nat>) {
    && n <= |rows| && |places| == |ready|
    && (forall a, b {:trigger places[a], places[b]} :: 0 <= a < b < |places| ==> places[a] < places[b])
    && (forall a {:trigger places[a]} :: 0 <= a < |places| ==> places[a] < n && ready[a] == rows[places[a]])
    && (forall k {:trigger rows[k]} :: 0 <= k < n ==> (k in places <==> RowMayGo(s, days, rows[k])))
  }

  /** One more row, taken or passed over. */
  lemma {:induction false} PickedNext(s: Snapshot, days: nat, rows: seq<Row>, n: nat, ready: seq<Row>, places: seq<nat>)
    returns (places': seq<nat>)
    requires n < |rows| && Picked(s, days, rows, n, ready, places)
    ensures Picked(s, days, rows, n + 1, ready + if RowMayGo(s, days, rows[n]) then [rows[n]] else [], places')
  {
    assert n !in places;
    places' := places + if RowMayGo(s, days, rows[n]) then [n] else [];
  }

  /** The rows selected are those that may go, in the order of the scan. */
  lemma {:induction false} ReadyRowsPicked(s: Snapshot, days: nat, plan: Plan, n: nat) returns (places: seq<nat>)
    requires PlanOf(s, days, plan) && n <= |plan.rows|
    ensures Picked(s, days, plan.rows, n, ReadyRows(plan, n), places)
  {
    if n == 0 {
      places := [];
    } else {
      var fewer := ReadyRowsPicked(s, days, plan, n - 1);
      ReadyMeans(s, days, plan, plan.rows[n - 1]);
      places := PickedNext(s, days, plan.rows, n - 1, ReadyRows(plan, n - 1), fewer);
    }
  }

  /** In the merge group of an owner whose group may not go. */
  ghost predicate HeldBack(s: Snapshot, days: nat, rows: seq<Row>, m: Id) {
    exists k, i {:trigger i in rows[k].incidents, Connected(s.pointers, i, m)} ::
      0 <= k < |rows| && i in rows[k].incidents && Connected(s.pointers, i, m) && !GroupMayGo(s, days, i)
  }

  lemma {:induction false} HeldMeans(s: Snapshot, days: nat, plan: Plan, m: Id)
    requires PlanOf(s, days, plan)
    ensures Held(plan, m) <==> HeldBack(s, days, plan.rows, m)
  {
    if Held(plan, m) {
      var k, i :| 0 <= k < |plan.rows| && i in plan.rows[k].incidents && i in plan.groups
                  && !Cleanable(plan, i) && m in plan.groups[i];
      CleanableMeans(s, days, plan, i);
      assert i in plan.rows[k].incidents && Connected(s.pointers, i, m);
    }
    if HeldBack(s, days, plan.rows, m) {
      var k, i :| 0 <= k < |plan.rows| && i in plan.rows[k].incidents && Connected(s.pointers, i, m) && !GroupMayGo(s, days, i);
      OwnerKnown(s, days, plan, plan.rows[k], i);
      CleanableMeans(s, days, plan, i);
      assert m in plan.groups[i];
    }
  }

  // ------------------------------------------------ the database under other writers

  /** One row emptied, with what its transaction saw. */
  datatype Cleaning = Cleaning(key: nat, members: set<Id>, seen: Snapshot)

  /** What the recheck establishes: the unit is its own merge closure and nothing keeps a member. */
  ghost predicate Rechecked(s: Snapshot, days: nat, members: set<Id>) {
    && (forall m, x {:trigger Connected(s.pointers, m, x)} :: m in members && Connected(s.pointers, m, x) ==> x in members)
    && (forall m {:trigger m in members} :: m in members ==> Reasons(s, days, m) == [])
  }

  datatype Why = OwnReasons(codes: seq<Code>) | MergeGroupBlocked | ChangedAfterScan

  datatype Line =
    | CandidateLine(key: nat)
    | CleanedLine(key: nat)
    | FailedLine(key: nat)
    | FailedIncident(incident: Id)
    | BlockedLine(incident: Id, why: Why)
    | SummaryLine(apply: bool, days: int, candidates: nat, cleaned: nat, failed: nat, blocked: nat)

  datatype Outcome =
    | Changed                                               // the recheck failed
    | RolledBack(broken: bool)                              // the transaction failed as a whole
    | Applied(lines: seq<Line>)                             // one line per row cleaned or failed, in row order

  /** The union of the groups: with a partition, its keys. */
  function MembersOf(groups: map<Id, set<Id>>): (members: set<Id>)
    requires Partitions(groups)
    ensures members == groups.Keys
  {
    set g, m | g in groups && m in groups[g] :: m
  }

  lemma {:induction false} RecheckDecides(s: Snapshot, days: nat, members: set<Id>, groups: map<Id, set<Id>>)
    requires IsGroups(members, s.pointers, groups)
    ensures (groups.Keys == members && forall m :: m in groups ==> Reasons(s, days, m) == []) <==> Rechecked(s, days, members)
  {
    GroupsPartition(members, s.pointers, groups);
    if groups.Keys == members {
      forall m, x | m in members && Connected(s.pointers, m, x) ensures x in members {
        GroupMate(members, s.pointers, groups, m, x);
      }
    }
    if Rechecked(s, days, members) {
      forall m | m in groups ensures m in members {
        assert Reached(members, s.pointers, m);
      }
      assert groups.Keys == members;
    }
  }

  class Database {
    var state: Snapshot
    var present: set<nat>              // keys of the rows whose payload is present
    ghost var cleanings: seq<Cleaning> // every row this pass emptied

    constructor (state: Snapshot, present: set<nat>)
      ensures this.state == state && this.present == present && cleanings == []
    {
      this.state, this.present, cleanings := state, present, [];
    }

    /** Any committed work of other writers. */
    method Interfere()
      modifies this`state, this`present
    {
      state, present := *, *;
    }

    /** The recheck under the locks. */
    method Recheck(members: set<Id>, days: nat) returns (same: bool)
      ensures same <==> Rechecked(state, days, members)
    {
      var groups := MergeGroups(members, state.pointers);
      GroupsPartition(members, state.pointers, groups);
      RecheckDecides(state, days, members, groups);
      var current := MembersOf(groups);
      same := current == members && forall m :: m in current ==> Reasons(state, days, m) == [];
    }

    /** The guarded updates, row by row; a failing row leaves the others alone. */
    method CleanRows(rows: seq<Row>) returns (left: set<nat>, lines: seq<Line>)
      ensures left == Without(present, CleanedKeys(lines))
      ensures RowLines(rows, lines) && |lines| <= |rows| && Handled(rows, present, lines)
      ensures forall k :: k in CleanedKeys(lines) ==> k in present
    {
      left, lines := present, [];
      for n := 0 to |rows|
        invariant left == Without(present, CleanedKeys(lines)) && Handled(rows[..n], present, lines)
        invariant RowLines(rows, lines) && |lines| <= n
        invariant forall k :: k in CleanedKeys(lines) ==> k in present
      {
        var row, rowFails: bool := rows[n], *;
        if rowFails {
          CleanedKeysSnoc(lines, FailedLine(row.key));
          HandledNext(rows, n, present, lines, [FailedLine(row.key)]);
          lines := lines + [FailedLine(row.key)];
        } else if row.key in left {                // otherwise cleaned meanwhile
          CleanedKeysSnoc(lines, CleanedLine(row.key));
          HandledNext(rows, n, present, lines, [CleanedLine(row.key)]);
          left := left - {row.key};
          lines := lines + [CleanedLine(row.key)];
        } else {
          if row.key in CleanedKeys(lines) { CleanedKeyHasLine(lines, row.key); }
          HandledNext(rows, n, present, lines, []);
          assert lines + [] == lines;
        }
      }
      assert rows[..|rows|] == rows;
    }

    /** `_apply_unit`: one transaction that locks, rechecks and cleans row by row. */
    method ApplyUnit(unit: Unit, days: nat) returns (outcome: Outcome)
      modifies this`present, this`cleanings
      ensures !outcome.Applied? ==> present == old(present) && cleanings == old(cleanings)
      ensures outcome.Changed? ==> !Rechecked(state, days, unit.members)
      ensures outcome.Applied? ==>
        && Rechecked(state, days, unit.members)
        && RowLines(unit.rows, outcome.lines) && |outcome.lines| <= |unit.rows|
        && Handled(unit.rows, old(present), outcome.lines)
        && (forall k :: k in CleanedKeys(outcome.lines) ==> k in old(present))
        && present == Without(old(present), CleanedKeys(outcome.lines))
        && cleanings == old(cleanings) + LogOf(CleanedKeys(outcome.lines), unit.members, state)
    {
      var refused: bool, broken: bool := *, *;
      if refused { return RolledBack(broken); }    // a lock not granted
      var same := Recheck(unit.members, days);
      if !same { return Changed; }
      var left, lines := CleanRows(unit.rows);
      refused := *;
      if refused { return RolledBack(broken); }    // the commit failed
      present := left;
      cleanings := cleanings + LogOf(CleanedKeys(lines), unit.members, state);
      outcome := Applied(lines);
    }
  }

  /** The keys of the cleaned lines, in order. */
  ghost function CleanedKeys(lines: seq<Line>): seq<nat> {
    if lines == [] then []
    else
      var last := lines[|lines| - 1];
      CleanedKeys(lines[..|lines| - 1]) + if last.CleanedLine? then [last.key] else []
  }

  lemma {:induction false} CleanedKeysSnoc(lines: seq<Line>, l: Line)
    ensures CleanedKeys(lines + [l]) == CleanedKeys(lines) + if l.CleanedLine? then [l.key] else []
  {
  }

  lemma {:induction false} CleanedKeysConcat(a: seq<Line>, b: seq<Line>)
    ensures CleanedKeys(a + b) == CleanedKeys(a) + CleanedKeys(b)
    decreases |b|
  {
    if b == [] {
      assert a + b == a;
    } else {
      assert (a + b)[..|a + b| - 1] == a + b[..|b| - 1];
      CleanedKeysConcat(a, b[..|b| - 1]);
    }
  }

  lemma {:induction false} NoCleanedKeys(lines: seq<Line>)
    requires Count(IsCleaned, lines) == 0
    ensures CleanedKeys(lines) == []
    decreases |lines|
  {
    if lines != [] { NoCleanedKeys(lines[..|lines| - 1]); }
  }

  /** The rows emptied, in order. */
  ghost function KeysOf(log: seq<Cleaning>): seq<nat> { seq(|log|, i requires 0 <= i < |log| => log[i].key) }

  /** What the lines call cleaned is what was emptied since `before`, row by row. */
  ghost predicate CleanedAsTold(before: seq<Cleaning>, now: seq<Cleaning>, lines: seq<Line>) {
    KeysOf(now) == KeysOf(before) + CleanedKeys(lines)
  }

  lemma {:induction false} ToldOnward(a: seq<Cleaning>, b: seq<Cleaning>, c: seq<Cleaning>, lines: seq<Line>, more: seq<Line>)
    requires CleanedAsTold(a, b, lines) && CleanedAsTold(b, c, more)
    ensures CleanedAsTold(a, c, lines + more)
  {
    CleanedKeysConcat(lines, more);
  }

  lemma {:induction false} ToldOfUnit(before: seq<Cleaning>, members: set<Id>, seen: Snapshot, lines: seq<Line>)
    ensures CleanedAsTold(before, before + LogOf(CleanedKeys(lines), members, seen), lines)
  {
  }

  /** Every line reports one of the rows, as cleaned or as failed. */
  ghost predicate RowLines(rows: seq<Row>, lines: seq<Line>) {
    forall n {:trigger lines[n]} :: 0 <= n < |lines| ==>
      (lines[n].CleanedLine? || lines[n].FailedLine?) && HasKey(rows, lines[n].key)
  }

  /** Every row that was present is reported, as cleaned or as failed. */
  ghost predicate Handled(rows: seq<Row>, present: set<nat>, lines: seq<Line>) {
    forall n {:trigger rows[n]} :: 0 <= n < |rows| && rows[n].key in present ==> KeyReported(lines, rows[n].key)
  }

  ghost predicate KeyReported(lines: seq<Line>, key: nat) { CleanedLine(key) in lines || FailedLine(key) in lines }

  lemma {:induction false} HandledNext(rows: seq<Row>, n: nat, present: set<nat>, lines: seq<Line>, more: seq<Line>)
    requires n < |rows| && Handled(rows[..n], present, lines)
    requires rows[n].key in present ==> KeyReported(lines + more, rows[n].key)
    ensures Handled(rows[..n + 1], present, lines + more)
  {
    forall k | 0 <= k < n && rows[k].key in present ensures KeyReported(lines + more, rows[k].key) {
      assert rows[..n][k] == rows[k];
    }
  }

  lemma {:induction false} CleanedKeyHasLine(lines: seq<Line>, k: nat)
    requires k in CleanedKeys(lines)
    ensures CleanedLine(k) in lines
    decreases |lines|
  {
    var shorter := lines[..|lines| - 1];
    if k in CleanedKeys(shorter) { CleanedKeyHasLine(shorter, k); }
  }

  ghost predicate HasKey(rows: seq<Row>, key: nat) {
    exists r :: r in rows && r.key == key
  }

  lemma {:induction false} CleanedKeysAreRows(rows: seq<Row>, lines: seq<Line>, k: nat)
    requires RowLines(rows, lines) && k in CleanedKeys(lines)
    ensures HasKey(rows, k)
    decreases |lines|
  {
    var shorter := lines[..|lines| - 1];
    if k in CleanedKeys(shorter) { CleanedKeysAreRows(rows, shorter, k); }
  }

  ghost function Without(keys: set<nat>, gone: seq<nat>): set<nat> {
    set k | k in keys && k !in gone
  }

  ghost function LogOf(cleaned: seq<nat>, members: set<Id>, seen: Snapshot): seq<Cleaning> {
    seq(|cleaned|, i requires 0 <= i < |cleaned| => Cleaning(cleaned[i], members, seen))
  }

  // ------------------------------------------------ the pass and its report

  datatype Report = InvalidDays | Report(lines: seq<Line>, failed: nat)

  predicate IsCleaned(l: Line) { l.CleanedLine? }
  predicate IsFailed(l: Line) { l.FailedLine? || l.FailedIncident? }
  predicate IsBlocked(l: Line) { l.BlockedLine? }

  function Count(p: Line -> bool, lines: seq<Line>): nat {
    if lines == [] then 0
    else Count(p, lines[..|lines| - 1]) + if p(lines[|lines| - 1]) then 1 else 0
  }

  lemma {:induction false} CountConcat(p: Line -> bool, a: seq<Line>, b: seq<Line>)
    ensures Count(p, a + b) == Count(p, a) + Count(p, b)
    decreases |b|
  {
    if b == [] {
      assert a + b == a;
    } else {
      assert (a + b)[..|a + b| - 1] == a + b[..|b| - 1];
      CountConcat(p, a, b[..|b| - 1]);
    }
  }

  lemma {:induction false} CountUniform(p: Line -> bool, lines: seq<Line>, all: bool)
    requires forall k {:trigger lines[k]} :: 0 <= k < |lines| ==> p(lines[k]) == all
    ensures Count(p, lines) == if all then |lines| else 0
    decreases |lines|
  {
    if lines != [] {
      CountUniform(p, lines[..|lines| - 1], all);
    }
  }

  /** The three counters of the summary agree with the lines emitted. */
  ghost predicate Tallied(lines: seq<Line>, cleaned: nat, failed: nat, blocked: nat) {
    Count(IsCleaned, lines) == cleaned && Count(IsFailed, lines) == failed && Count(IsBlocked, lines) == blocked
  }

  lemma {:induction false} TalliedConcat(a: seq<Line>, b: seq<Line>, c: nat, f: nat, k: nat, c': nat, f': nat, k': nat)
    requires Tallied(a, c, f, k) && Tallied(b, c', f', k')
    ensures Tallied(a + b, c + c', f + f', k + k')
  {
    CountConcat(IsCleaned, a, b);
    CountConcat(IsFailed, a, b);
    CountConcat(IsBlocked, a, b);
  }

  lemma {:induction false} TalliedUniform(lines: seq<Line>, l: Line)
    requires forall k {:trigger lines[k]} :: 0 <= k < |lines| ==>
               IsCleaned(lines[k]) == IsCleaned(l) && IsFailed(lines[k]) == IsFailed(l) && IsBlocked(lines[k]) == IsBlocked(l)
    ensures Tallied(lines, if IsCleaned(l) then |lines| else 0, if IsFailed(l) then |lines| else 0, if IsBlocked(l) then |lines| else 0)
  {
    CountUniform(IsCleaned, lines, IsCleaned(l));
    CountUniform(IsFailed, lines, IsFailed(l));
    CountUniform(IsBlocked, lines, IsBlocked(l));
  }

  /** The ids of a set in ascending order. */
  method Ascending(ids: set<Id>) returns (sorted: seq<Id>)
    ensures forall x :: x in ids <==> x in sorted
    ensures forall i, j :: 0 <= i < j < |sorted| ==> sorted[i] < sorted[j]
  {
    sorted := [];
    var todo := ids;
    while todo != {}
      invariant todo <= ids
      invariant forall x {:trigger x in ids} {:trigger x in sorted} :: x in ids <==> x in sorted || x in todo
      invariant forall i, j :: 0 <= i < j < |sorted| ==> sorted[i] < sorted[j]
      invariant forall k, x {:trigger sorted[k], x in todo} :: 0 <= k < |sorted| && x in todo ==> sorted[k] < x
      decreases todo
    {
      var x := LeastId(todo);
      sorted := sorted + [x];
      todo := todo - {x};
    }
  }

  /** The rows of the plan all of whose owners may be cleaned, in order. */
  ghost function ReadyRows(plan: Plan, n: nat): seq<Row>
    requires ValidPlan(plan) && n <= |plan.rows|
  {
    if n == 0 then []
    else ReadyRows(plan, n - 1) + if Ready(plan, plan.rows[n - 1]) then [plan.rows[n - 1]] else []
  }

  method SelectReady(plan: Plan) returns (ready: seq<Row>)
    requires ValidPlan(plan)
    ensures ready == ReadyRows(plan, |plan.rows|) && AllReady(plan, ready)
  {
    ready := [];
    for n := 0 to |plan.rows|
      invariant ready == ReadyRows(plan, n) && AllReady(plan, ready)
    {
      var isReady := forall i :: i in plan.rows[n].incidents ==> Cleanable(plan, i);
      if isReady { ready := ready + [plan.rows[n]]; }
    }
  }

  function ReasonsFor(s: Snapshot, days: nat, members: set<Id>): (found: map<Id, seq<Code>>)
    ensures found.Keys == members
    ensures forall m {:trigger found[m]} :: m in found ==> found[m] == Reasons(s, days, m)
  {
    map m | m in members :: Reasons(s, days, m)
  }

  /** `_scan`: groups and reasons of every incident a present row reaches. */
  method Scan(s: Snapshot, rows: seq<Row>, days: nat) returns (plan: Plan)
    requires forall k {:trigger rows[k]} :: 0 <= k < |rows| ==> rows[k].incidents != []
    ensures plan.rows == rows && Partitions(plan.groups) && Attributed(plan.groups, rows)
    ensures plan.reasons.Keys == plan.groups.Keys
    ensures IsGroups(OwnersOf(rows), s.pointers, plan.groups)
    ensures forall m {:trigger plan.reasons[m]} :: m in plan.reasons ==> plan.reasons[m] == Reasons(s, days, m)
  {
    var owners := OwnersOf(rows);
    var groups := MergeGroups(owners, s.pointers);
    GroupsPartition(owners, s.pointers, groups);
    OwnersAttributed(rows, groups);
    var members := MembersOf(groups);
    plan := Plan(rows, groups, ReasonsFor(s, days, members));
  }

  lemma {:induction false} OwnersAttributed(rows: seq<Row>, groups: map<Id, set<Id>>)
    requires forall k {:trigger rows[k]} :: 0 <= k < |rows| ==> rows[k].incidents != []
    requires OwnersOf(rows) <= groups.Keys
    ensures Attributed(groups, rows)
  {
  }

  function OwnersOf(rows: seq<Row>): (owners: set<Id>)
    ensures forall k, i {:trigger i in rows[k].incidents} :: 0 <= k < |rows| && i in rows[k].incidents ==> i in owners
  {
    set r, i | r in rows && i in r.incidents :: i
  }

  ghost predicate GoodCleaning(c: Cleaning, days: nat, ready: seq<Row>) {
    && Rechecked(c.seen, days, c.members)
    && exists r :: r in ready && r.key == c.key && forall i :: i in r.incidents ==> i in c.members
  }

  /** Every cleaning from `from` on was rechecked and its row was ready, owners inside the unit. */
  ghost predicate GoodLog(log: seq<Cleaning>, from: nat, days: nat, ready: seq<Row>) {
    forall k {:trigger log[k]} :: from <= k < |log| ==> GoodCleaning(log[k], days, ready)
  }

  lemma {:induction false} UnitLogGood(groups: map<Id, set<Id>>, ready: seq<Row>, units: seq<Unit>, u: nat,
                                       keys: seq<nat>, seen: Snapshot, days: nat)
    requires Partitions(groups) && Attributed(groups, ready) && IsUnits(groups, ready, units) && u < |units|
    requires (forall k :: k in keys ==> HasKey(units[u].rows, k)) && Rechecked(seen, days, units[u].members)
    ensures GoodLog(LogOf(keys, units[u].members, seen), 0, days, ready)
  {
    var log := LogOf(keys, units[u].members, seen);
    forall k | 0 <= k < |log| ensures GoodCleaning(log[k], days, ready) {
      assert keys[k] in keys;
      var r :| r in units[u].rows && r.key == keys[k];
      RowsOfContains(ready, units[u].members, r);
      forall i | i in r.incidents ensures i in units[u].members {
        var n :| 0 <= n < |ready| && ready[n] == r;
        assert i in groups && i in groups[i];
        assert Pulls(groups, r, i);
        UnitHoldsOwners(groups, ready, units, u, r, i);
      }
    }
  }

  ghost predicate AllChanged(blocked: seq<Line>) {
    forall n {:trigger blocked[n]} :: 0 <= n < |blocked| ==> blocked[n].BlockedLine? && blocked[n].why == ChangedAfterScan
  }

  /** One unit's transaction: what came of it, and the rows present when it began. */
  datatype Transaction = Transaction(outcome: Outcome, present: set<nat>)

  /** The report tells what came of a unit: of each row then present, or of each incident. */
  ghost predicate Told(unit: Unit, tx: Transaction, body: seq<Line>) {
    match tx.outcome
    case Applied(lines) => Handled(unit.rows, tx.present, lines) && forall l :: l in lines ==> l in body
    case RolledBack(_) => forall i :: i in unit.members ==> FailedIncident(i) in body
    case Changed => forall r, i :: r in unit.rows && i in r.incidents ==> BlockedLine(i, ChangedAfterScan) in body
  }

  /** One transaction per unit in order, all of them unless the connection was lost, each told. */
  ghost predicate Passed(units: seq<Unit>, done: seq<Transaction>, body: seq<Line>) {
    && |done| <= |units|
    && (forall u {:trigger done[u]} :: 0 <= u < |done| ==> Told(units[u], done[u], body))
    && (forall u {:trigger done[u]} :: 0 <= u < |done| - 1 ==> done[u].outcome != RolledBack(true))
    && (|done| < |units| ==> done != [] && done[|done| - 1].outcome == RolledBack(true))
  }

  lemma {:induction false} ToldStays(unit: Unit, tx: Transaction, a: seq<Line>, b: seq<Line>)
    requires Told(unit, tx, a) && forall l :: l in a ==> l in b
    ensures Told(unit, tx, b)
  {
  }

  /** The lines one transaction adds to the report and to the blocked list. */
  method UnitLines(unit: Unit, outcome: Outcome) returns (lines: seq<Line>, blocked: seq<Line>, cleaned: nat, failed: nat)
    requires outcome.Applied? ==> RowLines(unit.rows, outcome.lines)
    ensures Tallied(lines, cleaned, failed, 0) && Tallied(blocked, 0, 0, |blocked|)
    ensures outcome.Applied? ==> lines == outcome.lines && blocked == []
    ensures !outcome.Applied? ==> cleaned == 0
    ensures outcome.Changed? ==> lines == [] && forall i ::
              BlockedLine(i, ChangedAfterScan) in blocked <==> exists r :: r in unit.rows && i in r.incidents
    ensures outcome.RolledBack? ==> blocked == [] && forall i :: i in unit.members ==> FailedIncident(i) in lines
    ensures AllChanged(blocked)
  {
    cleaned, failed := 0, 0;
    match outcome
    case RolledBack(_) =>
      var ids := Ascending(unit.members);
      lines := seq(|ids|, i requires 0 <= i < |ids| => FailedIncident(ids[i]));
      TalliedUniform(lines, FailedIncident(0));
      forall i | i in unit.members ensures FailedIncident(i) in lines {
        var n :| 0 <= n < |ids| && ids[n] == i;
        assert lines[n] == FailedIncident(i);
      }
      return lines, [], 0, |lines|;
    case Changed =>
      var ids := Ascending(OwnersOf(unit.rows));
      blocked := seq(|ids|, i requires 0 <= i < |ids| => BlockedLine(ids[i], ChangedAfterScan));
      TalliedUniform(blocked, BlockedLine(0, ChangedAfterScan));
      forall i ensures BlockedLine(i, ChangedAfterScan) in blocked <==> i in ids {
        if i in ids { var n :| 0 <= n < |ids| && ids[n] == i; assert blocked[n] == BlockedLine(i, ChangedAfterScan); }
      }
      return [], blocked, 0, 0;
    case Applied(out) =>
      for n := 0 to |out|
        invariant Tallied(out[..n], cleaned, failed, 0) && cleaned + failed == n
      {
        assert out[..n + 1][..n] == out[..n];
        if out[n].CleanedLine? { cleaned := cleaned + 1; } else { failed := failed + 1; }
      }
      assert out[..|out|] == out;
      return out, [], cleaned, failed;
  }

  /** The incidents reported as blocked by the scan. */
  function HeldSet(plan: Plan): (held: set<Id>)
    requires ValidPlan(plan)
  {
    var kept := set m | m in plan.groups && !Cleanable(plan, m);
    set r, i, m | r in plan.rows && i in r.incidents && i in kept && m in plan.groups[i] :: m
  }

  lemma {:induction false} HeldSetIsHeld(plan: Plan, m: Id)
    requires ValidPlan(plan)
    ensures m in HeldSet(plan) <==> Held(plan, m)
    ensures m in HeldSet(plan) ==> m in plan.reasons
  {
  }

  /** The scan's blocked lines stand in id order, none twice. */
  ghost predicate HeldInOrder(lines: seq<Line>) {
    forall i, j {:trigger lines[i], lines[j]} :: 0 <= i < j < |lines| && ScanBlocked(lines[i]) && ScanBlocked(lines[j]) ==>
      lines[i].incident < lines[j].incident
  }

  predicate ScanBlocked(l: Line) { l.BlockedLine? && l.why != ChangedAfterScan }

  /** The lines for everything the scan keeps, one per held incident in id order. */
  method HeldLines(held: set<Id>, reasons: map<Id, seq<Code>>) returns (blocked: seq<Line>)
    requires held <= reasons.Keys
    ensures Tallied(blocked, 0, 0, |blocked|)
    ensures forall l {:trigger l in blocked} :: l in blocked <==>
              l.BlockedLine? && l.incident in held && l.why == BlockedBy(reasons, l.incident)
    ensures HeldInOrder(blocked)
  {
    var ids := Ascending(held);
    blocked := seq(|ids|, n requires 0 <= n < |ids| && ids[n] in reasons => BlockedLine(ids[n], BlockedBy(reasons, ids[n])));
    TalliedUniform(blocked, BlockedLine(0, ChangedAfterScan));
    forall l: Line | l.BlockedLine? && l.incident in held && l.why == BlockedBy(reasons, l.incident) ensures l in blocked {
      var n :| 0 <= n < |ids| && ids[n] == l.incident;
      assert blocked[n] == l;
    }
  }

  function BlockedBy(reasons: map<Id, seq<Code>>, i: Id): Why
    requires i in reasons
  {
    if reasons[i] != [] then OwnReasons(reasons[i]) else MergeGroupBlocked
  }

  lemma {:induction false} NoneCounted(p: Line -> bool, lines: seq<Line>, l: Line)
    requires Count(p, lines) == 0 && l in lines
    ensures !p(l)
    decreases |lines|
  {
    var shorter := lines[..|lines| - 1];
    if l in shorter { NoneCounted(p, shorter, l); }
  }

  /** What the report says of the scan: a blocked line for exactly the held incidents, each with its
      own reasons or its group's. */
  ghost predicate TellsHeld(plan: Plan, body: seq<Line>)
    requires ValidPlan(plan)
  {
    forall l: Line {:trigger l in body} :: l.BlockedLine? && l.why != ChangedAfterScan ==>
      (l in body <==> Held(plan, l.incident) && l.incident in plan.reasons && l.why == BlockedBy(plan.reasons, l.incident))
  }

  /** The same of the scanned state: a blocked line for exactly the incidents held back, with what keeps
      the incident itself or, where nothing does, its group. */
  ghost predicate TellsScan(s: Snapshot, days: nat, rows: seq<Row>, body: seq<Line>) {
    forall l: Line {:trigger l in body} :: l.BlockedLine? && l.why != ChangedAfterScan ==>
      (l in body <==> HeldBack(s, days, rows, l.incident)
                      && l.why == if Reasons(s, days, l.incident) == [] then MergeGroupBlocked
                                  else OwnReasons(Reasons(s, days, l.incident)))
  }

  lemma {:induction false} ScanTold(s: Snapshot, days: nat, plan: Plan, body: seq<Line>)
    requires PlanOf(s, days, plan) && TellsHeld(plan, body)
    ensures TellsScan(s, days, plan.rows, body)
  {
    forall l: Line | l.BlockedLine? && l.why != ChangedAfterScan
      ensures l in body <==> HeldBack(s, days, plan.rows, l.incident)
                             && l.why == if Reasons(s, days, l.incident) == [] then MergeGroupBlocked
                                         else OwnReasons(Reasons(s, days, l.incident))
    {
      HeldMeans(s, days, plan, l.incident);
      HeldSetIsHeld(plan, l.incident);
    }
  }

  /** One blocked line for exactly the held incidents. */
  ghost predicate HoldsBack(plan: Plan, heldLines: seq<Line>)
    requires ValidPlan(plan)
  {
    forall l: Line {:trigger l in heldLines} :: l in heldLines <==>
      l.BlockedLine? && l.incident in HeldSet(plan) && l.incident in plan.reasons && l.why == BlockedBy(plan.reasons, l.incident)
  }

  lemma {:induction false} HeldTold(plan: Plan, lines: seq<Line>, heldLines: seq<Line>, blocked: seq<Line>)
    requires ValidPlan(plan) && Count(IsBlocked, lines) == 0 && ScanThenChanged(heldLines, blocked)
    requires HoldsBack(plan, heldLines)
    ensures TellsHeld(plan, lines + blocked)
  {
    var body := lines + blocked;
    forall l: Line | l.BlockedLine? && l.why != ChangedAfterScan
      ensures l in body <==> Held(plan, l.incident) && l.incident in plan.reasons && l.why == BlockedBy(plan.reasons, l.incident)
    {
      HeldSetIsHeld(plan, l.incident);
      if l in lines { NoneCounted(IsBlocked, lines, l); }
      assert blocked == heldLines + blocked[|heldLines|..];
      assert l in blocked <==> l in heldLines;
    }
  }

  lemma {:induction false} OrderTold(lines: seq<Line>, heldLines: seq<Line>, blocked: seq<Line>)
    requires Count(IsBlocked, lines) == 0 && ScanThenChanged(heldLines, blocked) && HeldInOrder(heldLines)
    ensures HeldInOrder(lines + blocked)
  {
    var body, n, m := lines + blocked, |lines|, |heldLines|;
    forall i | 0 <= i < n ensures !ScanBlocked(body[i]) { NoneCounted(IsBlocked, lines, lines[i]); }
    forall i | n + m <= i < |body| ensures !ScanBlocked(body[i]) { assert blocked[m..][i - n - m] == body[i]; }
    assert forall i {:trigger body[i]} :: n <= i < n + m ==> body[i] == heldLines[i - n];
  }

  /** Lines, then blocked lines: the body of the report tells the cleanings, the counts and the scan. */
  lemma {:induction false} BodyTells(before: seq<Cleaning>, now: seq<Cleaning>, s: Snapshot, days: nat, plan: Plan, lines: seq<Line>,
                                     heldLines: seq<Line>, blocked: seq<Line>, cleaned: nat, failed: nat)
    requires PlanOf(s, days, plan) && ScanThenChanged(heldLines, blocked) && CleanedAsTold(before, now, lines)
    requires Tallied(lines, cleaned, failed, 0) && Tallied(blocked, 0, 0, |blocked|)
    requires HoldsBack(plan, heldLines) && HeldInOrder(heldLines)
    ensures CleanedAsTold(before, now, lines + blocked) && TellsScan(s, days, plan.rows, lines + blocked)
    ensures HeldInOrder(lines + blocked)
    ensures Tallied(lines + blocked, cleaned, failed, |blocked|)
  {
    NoCleanedKeys(blocked);
    CleanedKeysConcat(lines, blocked);
    HeldTold(plan, lines, heldLines, blocked);
    ScanTold(s, days, plan, lines + blocked);
    OrderTold(lines, heldLines, blocked);
    TalliedConcat(lines, blocked, cleaned, failed, 0, 0, 0, |blocked|);
  }

  /** The scan, the rows it finds ready and the lines for what it keeps. */
  method Survey(s: Snapshot, rows: seq<Row>, days: nat)
    returns (plan: Plan, ready: seq<Row>, heldLines: seq<Line>, ghost places: seq<nat>)
    requires forall k {:trigger rows[k]} :: 0 <= k < |rows| ==> rows[k].incidents != []
    ensures plan.rows == rows && PlanOf(s, days, plan) && AllReady(plan, ready)
    ensures Picked(s, days, rows, |rows|, ready, places)
    ensures HoldsBack(plan, heldLines) && HeldInOrder(heldLines) && Tallied(heldLines, 0, 0, |heldLines|)
  {
    plan := Scan(s, rows, days);
    ready := SelectReady(plan);
    places := ReadyRowsPicked(s, days, plan, |rows|);
    var held := HeldSet(plan);
    forall m | m in held ensures m in plan.reasons { HeldSetIsHeld(plan, m); }
    heldLines := HeldLines(held, plan.reasons);
  }

  /** `run_retention`: the scan, then either a report or one transaction per unit, while other
      writers work between any two transactions. */
  method RunRetention(db: Database, rows: seq<Row>, days: int, apply: bool)
    returns (report: Report, ghost plan: Plan, ghost ready: seq<Row>, ghost places: seq<nat>, ghost units: seq<Unit>,
             ghost done: seq<Transaction>)
    requires forall k {:trigger rows[k]} :: 0 <= k < |rows| ==> rows[k].incidents != []
    modifies db
    ensures days < MIN_DAYS ==> report.InvalidDays? && db.cleanings == old(db.cleanings)
    ensures days >= MIN_DAYS ==>
      && report.Report? && plan.rows == rows && PlanOf(old(db.state), days, plan)
      && Picked(old(db.state), days, rows, |rows|, ready, places)
      && old(db.cleanings) <= db.cleanings && GoodLog(db.cleanings, |old(db.cleanings)|, days, ready)
      && (!apply ==> db.cleanings == old(db.cleanings) && |report.lines| > |ready|
                     && forall n {:trigger ready[n]} :: 0 <= n < |ready| ==> report.lines[n] == CandidateLine(ready[n].key))
      && report.lines != []
      && var body := report.lines[..|report.lines| - 1];
         var last := report.lines[|report.lines| - 1];
         && last.SummaryLine? && last.apply == apply && last.days == days && last.candidates == |ready|
         && Tallied(body, last.cleaned, last.failed, last.blocked) && report.failed == last.failed
         && CleanedAsTold(old(db.cleanings), db.cleanings, body) && TellsScan(old(db.state), days, rows, body) && HeldInOrder(body)
         && (apply ==> IsUnits(plan.groups, ready, units) && Passed(units, done, body))
  {
    plan, ready, places, units, done := Plan([], map[], map[]), [], [], [], [];
    if days < MIN_DAYS { return InvalidDays, plan, ready, places, units, done; }
    var scanned, todo, heldLines, chosen := Survey(db.state, rows, days);
    plan, ready, places := scanned, todo, chosen;
    var blocked := heldLines;
    db.Interfere();
    var lines: seq<Line>, cleaned, failed := [], 0, 0;
    if apply {
      lines, blocked, cleaned, failed, units, done := ApplyAll(db, scanned, todo, days, heldLines);
    } else {
      lines := seq(|todo|, n requires 0 <= n < |todo| => CandidateLine(todo[n].key));
      TalliedUniform(lines, CandidateLine(0));
      NoCleanedKeys(lines);
    }
    BodyTells(old(db.cleanings), db.cleanings, old(db.state), days, scanned, lines, heldLines, blocked, cleaned, failed);
    var body := lines + blocked;
    var all := body + [SummaryLine(apply, days, |todo|, cleaned, failed, |blocked|)];
    assert all[..|all| - 1] == body;
    report := Report(all, failed);
  }

  /** Some units done, each told and none of them lost the connection. */
  ghost predicate UnderWay(units: seq<Unit>, done: seq<Transaction>, body: seq<Line>) {
    && |done| <= |units|
    && (forall u {:trigger done[u]} :: 0 <= u < |done| ==> Told(units[u], done[u], body))
    && (forall u {:trigger done[u]} :: 0 <= u < |done| ==> done[u].outcome != RolledBack(true))
  }

  lemma {:induction false} OneMoreTold(units: seq<Unit>, done: seq<Transaction>, tx: Transaction, a: seq<Line>, b: seq<Line>)
    requires UnderWay(units, done, a) && |done| < |units| && (forall l :: l in a ==> l in b) && Told(units[|done|], tx, b)
    ensures tx.outcome != RolledBack(true) ==> UnderWay(units, done + [tx], b)
    ensures tx.outcome == RolledBack(true) ==> Passed(units, done + [tx], b)
  {
    forall u | 0 <= u < |done| ensures Told(units[u], done[u], b) { ToldStays(units[u], done[u], a, b); }
  }

  lemma {:induction false} ToldNow(unit: Unit, tx: Transaction, more: seq<Line>, blocked: seq<Line>, body: seq<Line>)
    requires forall l :: l in more || l in blocked ==> l in body
    requires tx.outcome.Applied? ==> Handled(unit.rows, tx.present, tx.outcome.lines) && more == tx.outcome.lines
    requires tx.outcome.RolledBack? ==> forall i :: i in unit.members ==> FailedIncident(i) in more
    requires tx.outcome.Changed? ==>
               forall i :: (exists r :: r in unit.rows && i in r.incidents) ==> BlockedLine(i, ChangedAfterScan) in blocked
    ensures Told(unit, tx, body)
  {
  }

  /** The blocked lines are those of the scan, then those of units that changed after it. */
  ghost predicate ScanThenChanged(heldLines: seq<Line>, blocked: seq<Line>) {
    heldLines <= blocked && AllChanged(blocked[|heldLines|..])
  }

  lemma {:induction false} MoreChanged(heldLines: seq<Line>, blocked: seq<Line>, more: seq<Line>)
    requires ScanThenChanged(heldLines, blocked) && AllChanged(more)
    ensures ScanThenChanged(heldLines, blocked + more)
  {
    assert (blocked + more)[|heldLines|..] == blocked[|heldLines|..] + more;
  }

  /** What one unit adds to the pass: its cleanings, its lines, its counts. */
  method OneUnit(db: Database, plan: Plan, ready: seq<Row>, ghost units: seq<Unit>, ghost u: nat, unit: Unit, days: nat, ghost from: nat)
    returns (outcome: Outcome, ghost present: set<nat>, lines: seq<Line>, blocked: seq<Line>, cleaned: nat, failed: nat)
    requires Partitions(plan.groups) && Attributed(plan.groups, ready) && IsUnits(plan.groups, ready, units)
    requires u < |units| && units[u] == unit
    requires from <= |db.cleanings| && GoodLog(db.cleanings, from, days, ready)
    modifies db
    ensures old(db.cleanings) <= db.cleanings && GoodLog(db.cleanings, from, days, ready)
    ensures CleanedAsTold(old(db.cleanings), db.cleanings, lines)
    ensures Tallied(lines, cleaned, failed, 0) && Tallied(blocked, 0, 0, |blocked|) && AllChanged(blocked)
    ensures forall body: seq<Line> {:trigger Told(unit, Transaction(outcome, present), body)} ::
              (forall l :: l in lines || l in blocked ==> l in body) ==> Told(unit, Transaction(outcome, present), body)
  {
    db.Interfere();
    ghost var before := db.cleanings;
    present := db.present;
    outcome := db.ApplyUnit(unit, days);
    if outcome.Applied? {
      ghost var keys := CleanedKeys(outcome.lines);
      forall k | k in keys ensures HasKey(unit.rows, k) { CleanedKeysAreRows(unit.rows, outcome.lines, k); }
      UnitLogGood(plan.groups, ready, units, u, keys, db.state, days);
      GoodLogConcat(before, LogOf(keys, unit.members, db.state), from, days, ready);
    }
    lines, blocked, cleaned, failed := UnitLines(unit, outcome);
    if outcome.Applied? { ToldOfUnit(before, unit.members, db.state, lines); } else { NoCleanedKeys(lines); }
    forall body: seq<Line> | forall l :: l in lines || l in blocked ==> l in body
      ensures Told(unit, Transaction(outcome, present), body)
    {
      ToldNow(unit, Transaction(outcome, present), lines, blocked, body);
    }
  }

  /** One transaction per unit; stops when the connection is lost. */
  method ApplyAll(db: Database, plan: Plan, ready: seq<Row>, days: nat, heldLines: seq<Line>)
    returns (lines: seq<Line>, blocked: seq<Line>, cleaned: nat, failed: nat, ghost units: seq<Unit>, ghost done: seq<Transaction>)
    requires ValidPlan(plan) && AllReady(plan, ready) && Tallied(heldLines, 0, 0, |heldLines|)
    modifies db
    ensures Tallied(lines, cleaned, failed, 0) && Tallied(blocked, 0, 0, |blocked|)
    ensures old(db.cleanings) <= db.cleanings && GoodLog(db.cleanings, |old(db.cleanings)|, days, ready)
    ensures CleanedAsTold(old(db.cleanings), db.cleanings, lines)
    ensures IsUnits(plan.groups, ready, units) && Passed(units, done, lines + blocked)
    ensures ScanThenChanged(heldLines, blocked)
  {
    ReadyAttributed(plan, ready);
    lines, blocked, cleaned, failed := [], heldLines, 0, 0;
    var todo := Units(plan.groups, ready);
    units, done := todo, [];
    for u := 0 to |todo|
      invariant Tallied(lines, cleaned, failed, 0) && Tallied(blocked, 0, 0, |blocked|)
      invariant old(db.cleanings) <= db.cleanings && GoodLog(db.cleanings, |old(db.cleanings)|, days, ready)
      invariant CleanedAsTold(old(db.cleanings), db.cleanings, lines)
      invariant |done| == u && UnderWay(units, done, lines + blocked) && ScanThenChanged(heldLines, blocked)
      modifies db
    {
      ghost var sofar := db.cleanings;
      var outcome, present, more, alsoBlocked, c, f := OneUnit(db, plan, ready, units, u, todo[u], days, |old(db.cleanings)|);
      ToldOnward(old(db.cleanings), sofar, db.cleanings, lines, more);
      TalliedConcat(lines, more, cleaned, failed, 0, c, f, 0);
      TalliedConcat(blocked, alsoBlocked, 0, 0, |blocked|, 0, 0, |alsoBlocked|);
      MoreChanged(heldLines, blocked, alsoBlocked);
      ghost var body := lines + more + (blocked + alsoBlocked);
      assert Told(units[u], Transaction(outcome, present), body);
      OneMoreTold(units, done, Transaction(outcome, present), lines + blocked, body);
      done := done + [Transaction(outcome, present)];
      lines, blocked, cleaned, failed := lines + more, blocked + alsoBlocked, cleaned + c, failed + f;
      if outcome == RolledBack(true) { return; }
    }
  }

  lemma {:induction false} GoodLogConcat(a: seq<Cleaning>, b: seq<Cleaning>, from: nat, days: nat, ready: seq<Row>)
    requires from <= |a| && GoodLog(a, from, days, ready) && GoodLog(b, 0, days, ready)
    ensures GoodLog(a + b, from, days, ready)
  {
  }
}
