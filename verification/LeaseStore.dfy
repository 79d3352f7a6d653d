// The durable rows of one incident and the fenced operations every worker and human goes through.

module LeaseStore {
  import opened Outcomes

  datatype Call = Call(step: nat, ordinal: nat)

  /** One execution attempt: a Run, who executes it, in which epoch, under which human decision. */
  datatype Lease = Lease(run: nat, owner: nat, epoch: nat, generation: nat)

  /** A committed model step with `calls` planned tool calls and the results adopted so far. */
  datatype Step = Step(generation: nat, late: bool, calls: nat, results: map<nat, nat>)

  /** A Run row. `live`: the lease has not lapsed, nor the deadline, and nothing is suspended. */
  datatype Row = Row(
    owner: Option<nat>, epoch: nat, stamp: nat, live: bool, candidate: bool, versions: nat, steps: map<nat, Step>)

  /** An adopted result: its call, the lease it was committed with, and the lease the row held then,
      which was or was not still live. */
  datatype Adoption = Adoption(call: Call, lease: Lease, holder: Lease, live: bool)

  /** A result that reached the store too late, kept as history. */
  datatype Rejected = Rejected(call: Call, lease: Lease)

  datatype Db = Db(
    current: nat, generation: nat, conclusion: Option<nat>, runs: map<nat, Row>, log: seq<Adoption>, late: seq<Rejected>)

  datatype Error = ControlDenied | UnknownIdentity | InconsistentState | IncompatibleState | LeaseActive
    | FinalStepRequired | Unavailable | ExecutorFailed

  // ------------------------------------------------ reads

  /** The fence, shared by every fenced write. */
  predicate Current(db: Db, l: Lease) {
    && l.run in db.runs
    && db.runs[l.run].owner == Some(l.owner) && db.runs[l.run].epoch == l.epoch
    && db.generation == l.generation && db.runs[l.run].live
  }

  predicate Adopted(db: Db, run: nat, c: Call) {
    run in db.runs && c.step in db.runs[run].steps && c.ordinal in db.runs[run].steps[c.step].results
  }

  /** A call some live step of this Run planned under this generation. */
  predicate Planned(db: Db, run: nat, generation: nat, c: Call) {
    && run in db.runs && c.step in db.runs[run].steps
    && var s := db.runs[run].steps[c.step];
       s.generation == generation && !s.late && c.ordinal < s.calls
  }

  /** `pending_tools`: planned under the current generation and without a result. */
  predicate Pending(db: Db, c: Call) {
    Planned(db, db.current, db.generation, c) && !Adopted(db, db.current, c)
  }

  // ------------------------------------------------ operations

  datatype Op =
    | Claim(run: nat, owner: nat, versions: nat)
    | Commit(lease: Lease, call: Call, value: nat)
    | Abandon(lease: Lease)
    | Finish(lease: Lease, conclusion: nat)                   // a published conclusion
    | Lapse(run: nat)                                         // the lease or the deadline passes
    | Suspend(run: nat)                                       // a global or target suspension, or a block
    | Control(candidate: bool)                                // a human decision
    | NewRun(run: nat, versions: nat)
    | NewStep(lease: Lease, step: nat, calls: nat)

  /** A Run a claim may touch at all: known, free, and wanted. */
  predicate Claimable(db: Db, run: nat) {
    run in db.runs && !db.runs[run].live && db.runs[run].candidate
  }

  function ClaimedLease(db: Db, run: nat, owner: nat): Lease
    requires run in db.runs
  {
    Lease(run, owner, db.runs[run].epoch + 1, db.generation)
  }

  /** `commit_tool`: adopt, ignore a duplicate, keep a rejected result as history, or refuse. */
  function CommitError(db: Db, l: Lease, c: Call): Option<Error> {
    if l.run !in db.runs || c.step !in db.runs[l.run].steps || c.ordinal >= db.runs[l.run].steps[c.step].calls
    then Some(UnknownIdentity)
    else
      var s := db.runs[l.run].steps[c.step];
      if s.generation != l.generation || s.late || !Current(db, l) then Some(ControlDenied) else None
  }

  function Adopt(db: Db, l: Lease, c: Call, value: nat): Db
    requires CommitError(db, l, c) == None
  {
    if Adopted(db, l.run, c) then db
    else
      var row := db.runs[l.run];
      var s := row.steps[c.step];
      db.(runs := db.runs[l.run := row.(steps := row.steps[c.step := s.(results := s.results[c.ordinal := value])])],
          log := db.log + [Adoption(c, l, Holder(db, l.run), row.live)])
  }

  /** Who the row says holds the Run. */
  function Holder(db: Db, run: nat): Lease
    requires run in db.runs && db.runs[run].owner.Some?
  {
    Lease(run, db.runs[run].owner.value, db.runs[run].epoch, db.generation)
  }

  function CommitTool(db: Db, l: Lease, c: Call, value: nat): Db {
    match CommitError(db, l, c)
    case None => Adopt(db, l, c, value)
    case Some(ControlDenied) => db.(late := db.late + [Rejected(c, l)])
    case Some(_) => db
  }

  /** The row still names this owner, epoch and stamp, expired or not. */
  predicate Stands(db: Db, l: Lease) {
    && l.run in db.runs && db.runs[l.run].owner == Some(l.owner) && db.runs[l.run].epoch == l.epoch
    && db.runs[l.run].stamp == l.generation
  }

  function AbandonLease(db: Db, l: Lease): Db {
    if Stands(db, l) then db.(runs := db.runs[l.run := db.runs[l.run].(owner := None, live := false)])
    else db
  }

  /** Every operation, by whichever worker or human. */
  function Do(db: Db, op: Op): Db {
    match op
    case Claim(run, owner, versions) =>
      if !Claimable(db, run) then db
      else if db.runs[run].versions != versions then db.(runs := db.runs[run := db.runs[run].(candidate := false)])
      else db.(runs := db.runs[run :=
             db.runs[run].(owner := Some(owner), epoch := db.runs[run].epoch + 1, stamp := db.generation, live := true)])
    case Commit(l, c, value) => CommitTool(db, l, c, value)
    case Abandon(l) => AbandonLease(db, l)
    case Finish(l, conclusion) =>
      if !Current(db, l) || db.current != l.run then db
      else db.(conclusion := Some(conclusion),
               runs := db.runs[l.run := db.runs[l.run].(owner := None, live := false, candidate := false)])
    case Lapse(run) =>
      if run !in db.runs then db else db.(runs := db.runs[run := db.runs[run].(live := false)])
    case Suspend(run) =>
      if run !in db.runs then db
      else db.(runs := db.runs[run := db.runs[run].(owner := None, live := false, candidate := false)])
    case Control(candidate) =>
      var d := db.(generation := db.generation + 1);
      if db.current !in db.runs then d
      else d.(runs := db.runs[db.current :=
             db.runs[db.current].(owner := None, stamp := d.generation, live := false, candidate := candidate)])
    case NewRun(run, versions) =>
      if run in db.runs then db
      else db.(current := run, generation := db.generation + 1, conclusion := None,
               runs := db.runs[run := Row(None, 0, db.generation + 1, false, true, versions, map[])])
    case NewStep(l, step, calls) =>
      if !Current(db, l) || step in db.runs[l.run].steps then db
      else db.(runs := db.runs[l.run := db.runs[l.run].(steps :=
             db.runs[l.run].steps[step := Step(db.generation, false, calls, map[])])])
  }

  function DoAll(db: Db, ops: seq<Op>): Db
    decreases |ops|
  {
    if ops == [] then db else DoAll(Do(db, ops[0]), ops[1..])
  }

  // ------------------------------------------------ what every run of operations keeps

  /** Adoptions are exactly the results stored, each call once, each under the lease the row held. */
  ghost predicate AdoptedOnce(db: Db) {
    && (forall i, j {:trigger db.log[i], db.log[j]} :: 0 <= i < j < |db.log| ==>
          db.log[i].lease.run != db.log[j].lease.run || db.log[i].call != db.log[j].call)
    && (forall i {:trigger db.log[i]} :: 0 <= i < |db.log| ==> Adopted(db, db.log[i].lease.run, db.log[i].call))
    && (forall run, c {:trigger Adopted(db, run, c)} :: Adopted(db, run, c) ==> Logged(db, run, c))
  }

  ghost predicate Logged(db: Db, run: nat, c: Call) {
    exists i :: 0 <= i < |db.log| && db.log[i].lease.run == run && db.log[i].call == c
  }

  ghost predicate AdoptedFenced(db: Db) {
    forall i {:trigger db.log[i]} :: 0 <= i < |db.log| ==> db.log[i].lease == db.log[i].holder && db.log[i].live
  }

  /** Within a Run, adoptions come in the order of their epochs. */
  ghost predicate EpochsInOrder(db: Db) {
    && (forall i {:trigger db.log[i]} :: 0 <= i < |db.log| ==>
          db.log[i].lease.run in db.runs && db.log[i].lease.epoch <= db.runs[db.log[i].lease.run].epoch)
    && (forall i, j {:trigger db.log[i], db.log[j]} :: 0 <= i < j < |db.log| && db.log[i].lease.run == db.log[j].lease.run ==>
          db.log[i].lease.epoch <= db.log[j].lease.epoch)
  }

  /** The stored result of an adopted call. */
  function ResultOf(db: Db, run: nat, c: Call): nat
    requires Adopted(db, run, c)
  {
    db.runs[run].steps[c.step].results[c.ordinal]
  }

  ghost predicate Sound(db: Db) { AdoptedOnce(db) && AdoptedFenced(db) && EpochsInOrder(db) }

  /** Nothing adopted or planned is ever dropped, and epochs never go back. */
  ghost predicate Grows(a: Db, b: Db) {
    && (forall run, g, c {:trigger Planned(b, run, g, c)} :: Planned(a, run, g, c) ==> Planned(b, run, g, c))
    && (forall run, c {:trigger Adopted(b, run, c)} :: Adopted(a, run, c) ==> Adopted(b, run, c))
    && (forall run {:trigger RowKept(a, b, run)} :: RowKept(a, b, run))
    && a.log <= b.log && a.late <= b.late
  }

  ghost predicate ResultKept(a: Db, b: Db, run: nat, c: Call)
    requires Adopted(a, run, c)
  {
    Adopted(b, run, c) && ResultOf(b, run, c) == ResultOf(a, run, c)
  }

  ghost predicate RowKept(a: Db, b: Db, run: nat) {
    run in a.runs ==>
      run in b.runs && a.runs[run].epoch <= b.runs[run].epoch && a.runs[run].versions == b.runs[run].versions
  }

  /** No operation but an adoption touches a result or the log. */
  lemma {:induction false} OthersLeaveResults(db: Db, op: Op, run: nat, c: Call)
    requires !op.Commit?
    ensures Adopted(Do(db, op), run, c) <==> Adopted(db, run, c)
    ensures Do(db, op).log == db.log && Do(db, op).late == db.late
  {
  }

  lemma {:induction false} PlansStay(db: Db, op: Op, run: nat, g: nat, c: Call)
    requires Planned(db, run, g, c)
    ensures Planned(Do(db, op), run, g, c)
  {
  }

  lemma {:induction false} OthersKeepRuns(db: Db, op: Op, run: nat)
    requires !op.Commit? && run in db.runs
    ensures run in Do(db, op).runs && db.runs[run].epoch <= Do(db, op).runs[run].epoch
    ensures Do(db, op).runs[run].versions == db.runs[run].versions
  {
  }

  lemma {:induction false} AdoptLeavesOthers(db: Db, l: Lease, c: Call, value: nat, run: nat, d: Call)
    requires CommitError(db, l, c) == None
    ensures Adopted(Adopt(db, l, c, value), run, d) <==> Adopted(db, run, d) || (run == l.run && d == c)
  {
  }

  lemma {:induction false} AdoptSound(db: Db, l: Lease, c: Call, value: nat)
    requires Sound(db) && CommitError(db, l, c) == None && !Adopted(db, l.run, c)
    ensures Sound(Adopt(db, l, c, value))
  {
    var b := Adopt(db, l, c, value);
    var n := |db.log|;
    assert b.log[n] == Adoption(c, l, Holder(db, l.run), true) && Holder(db, l.run) == l;
    forall i | 0 <= i < |b.log| ensures Adopted(b, b.log[i].lease.run, b.log[i].call) {
      if i < n { assert b.log[i] == db.log[i]; AdoptLeavesOthers(db, l, c, value, db.log[i].lease.run, db.log[i].call); }
      else { AdoptLeavesOthers(db, l, c, value, l.run, c); }
    }
    forall i, j | 0 <= i < j < |b.log| ensures b.log[i].lease.run != b.log[j].lease.run || b.log[i].call != b.log[j].call {
      assert b.log[i] == db.log[i] && Adopted(db, db.log[i].lease.run, db.log[i].call);
      if j < n { assert b.log[j] == db.log[j]; }
    }
    forall run, d | Adopted(b, run, d) ensures Logged(b, run, d) {
      AdoptLeavesOthers(db, l, c, value, run, d);
      if Adopted(db, run, d) {
        var i :| 0 <= i < |db.log| && db.log[i].lease.run == run && db.log[i].call == d;
        assert b.log[i] == db.log[i];
      } else {
        assert b.log[n].lease.run == run && b.log[n].call == d;
      }
    }
    AdoptEpochs(db, l, c, value);
  }

  lemma {:induction false} AdoptEpochs(db: Db, l: Lease, c: Call, value: nat)
    requires AdoptedFenced(db) && EpochsInOrder(db) && CommitError(db, l, c) == None && !Adopted(db, l.run, c)
    ensures AdoptedFenced(Adopt(db, l, c, value)) && EpochsInOrder(Adopt(db, l, c, value))
  {
  }

  lemma {:induction false} OthersSound(db: Db, op: Op)
    requires Sound(db) && !op.Commit?
    ensures Sound(Do(db, op))
  {
    var b := Do(db, op);
    forall run, c ensures Adopted(b, run, c) <==> Adopted(db, run, c) ensures b.log == db.log {
      OthersLeaveResults(db, op, run, c);
    }
    OthersLeaveResults(db, op, 0, Call(0, 0));
    forall i | 0 <= i < |b.log| ensures b.log[i].lease.run in b.runs && b.log[i].lease.epoch <= b.runs[b.log[i].lease.run].epoch {
      OthersKeepRuns(db, op, db.log[i].lease.run);
    }
    forall run, c | Adopted(b, run, c) ensures Logged(b, run, c) {
      assert Adopted(db, run, c);
      assert Logged(db, run, c);
    }
  }

  lemma {:induction false} DoSound(db: Db, op: Op)
    requires Sound(db)
    ensures Sound(Do(db, op))
  {
    if op.Commit? {
      if CommitError(db, op.lease, op.call) == None && !Adopted(db, op.lease.run, op.call) {
        AdoptSound(db, op.lease, op.call, op.value);
      } else {
        var b := Do(db, op);
        assert b.runs == db.runs && b.log == db.log;
        forall run, c ensures Adopted(b, run, c) == Adopted(db, run, c) && Logged(b, run, c) == Logged(db, run, c) { }
      }
    } else {
      OthersSound(db, op);
    }
  }

  lemma {:induction false} DoGrows(db: Db, op: Op)
    ensures Grows(db, Do(db, op))
  {
    var b := Do(db, op);
    forall run, g, c | Planned(db, run, g, c) ensures Planned(b, run, g, c) { PlansStay(db, op, run, g, c); }
    if op.Commit? {
      forall run, c | Adopted(db, run, c) ensures Adopted(b, run, c) {
        if CommitError(db, op.lease, op.call) == None { AdoptLeavesOthers(db, op.lease, op.call, op.value, run, c); }
      }
    } else {
      OthersLeaveResults(db, op, 0, Call(0, 0));
      forall run, c | Adopted(db, run, c) ensures Adopted(b, run, c) { OthersLeaveResults(db, op, run, c); }
      forall run ensures RowKept(db, b, run) {
        if run in db.runs { OthersKeepRuns(db, op, run); }
      }
    }
  }

  lemma {:induction false} GrowsTrans(a: Db, b: Db, c: Db)
    requires Grows(a, b) && Grows(b, c)
    ensures Grows(a, c)
  {
    forall run, d | Adopted(a, run, d) ensures Adopted(c, run, d) { assert Adopted(b, run, d); }
    forall run, g, d | Planned(a, run, g, d) ensures Planned(c, run, g, d) { assert Planned(b, run, g, d); }
    forall run ensures RowKept(a, c, run) { assert RowKept(a, b, run) && RowKept(b, c, run); }
  }

  /** Over any run of operations by any number of sessions and humans, every call is adopted at
      most once, under the lease its Run held at that moment, in epoch order, and for good. */
  lemma {:induction false} RunsAreSound(db: Db, ops: seq<Op>)
    requires Sound(db)
    ensures Sound(DoAll(db, ops)) && Grows(db, DoAll(db, ops))
    decreases |ops|
  {
    if ops != [] {
      DoSound(db, ops[0]);
      DoGrows(db, ops[0]);
      RunsAreSound(Do(db, ops[0]), ops[1..]);
      GrowsTrans(db, Do(db, ops[0]), DoAll(db, ops));
    }
  }

  /** Before anything happened. */
  lemma {:induction false} EmptyIsSound(current: nat, generation: nat)
    ensures Sound(Db(current, generation, None, map[], [], []))
  {
  }

  // ------------------------------------------------ a lease that is gone stays gone

  /** The row has reached this lease's epoch, and the incident its generation. */
  predicate Reached(db: Db, l: Lease) {
    l.run in db.runs && l.epoch <= db.runs[l.run].epoch && l.generation <= db.generation
  }

  lemma {:induction false} GoneAfter(db: Db, op: Op, l: Lease)
    requires Reached(db, l)
    ensures Reached(Do(db, op), l)
    ensures !Current(db, l) ==> !Current(Do(db, op), l)
    ensures !Stands(db, l) ==> !Stands(Do(db, op), l)
  {
  }

  /** A fence that has refused a lease never admits it again, and a lease given back never stands
      again, over any run of operations. */
  lemma {:induction false} GoneForGood(db: Db, ops: seq<Op>, l: Lease)
    requires Reached(db, l)
    ensures Reached(DoAll(db, ops), l)
    ensures !Current(db, l) ==> !Current(DoAll(db, ops), l)
    ensures !Stands(db, l) ==> !Stands(DoAll(db, ops), l)
    decreases |ops|
  {
    if ops != [] {
      GoneAfter(db, ops[0], l);
      GoneForGood(Do(db, ops[0]), ops[1..], l);
    }
  }

  // ------------------------------------------------ what each operation may and may not do

  /** A commit is accepted exactly for a call planned under the lease's generation while the lease is
      current; a known call otherwise is refused as control, an unknown one as unknown. */
  lemma {:induction false} CommitDecides(db: Db, l: Lease, c: Call)
    ensures CommitError(db, l, c) == None <==> Planned(db, l.run, l.generation, c) && Current(db, l)
    ensures CommitError(db, l, c) == Some(UnknownIdentity) <==>
              l.run !in db.runs || c.step !in db.runs[l.run].steps || c.ordinal >= db.runs[l.run].steps[c.step].calls
    ensures CommitError(db, l, c) in {None, Some(UnknownIdentity), Some(ControlDenied)}
  {
  }

  /** The first accepted commit of a call stores the value handed in; a repetition changes nothing. */
  lemma {:induction false} CommitStores(db: Db, l: Lease, c: Call, value: nat)
    requires Planned(db, l.run, l.generation, c) && Current(db, l)
    ensures Adopted(Do(db, Commit(l, c, value)), l.run, c)
    ensures !Adopted(db, l.run, c) ==> ResultOf(Do(db, Commit(l, c, value)), l.run, c) == value
    ensures Adopted(db, l.run, c) ==> Do(db, Commit(l, c, value)) == db
  {
  }

  lemma {:induction false} ResultStays(db: Db, op: Op, run: nat, c: Call)
    requires Adopted(db, run, c)
    ensures ResultKept(db, Do(db, op), run, c)
  {
  }

  /** Over any run of operations an adopted result is the one first stored. */
  lemma {:induction false} ResultForGood(db: Db, ops: seq<Op>, run: nat, c: Call)
    requires Adopted(db, run, c)
    ensures ResultKept(db, DoAll(db, ops), run, c)
    decreases |ops|
  {
    if ops != [] {
      ResultStays(db, ops[0], run, c);
      ResultForGood(Do(db, ops[0]), ops[1..], run, c);
    }
  }

  /** A refused commit adopts nothing: it is kept as history, or leaves no trace. */
  lemma {:induction false} RefusedCommit(db: Db, l: Lease, c: Call, value: nat)
    requires !(Planned(db, l.run, l.generation, c) && Current(db, l))
    ensures var b := Do(db, Commit(l, c, value));
            b.runs == db.runs && b.log == db.log && (b == db || b.late == db.late + [Rejected(c, l)])
  {
  }

  /** The operations that may end a lease: a human decision, a new Run, a lapse or suspension of its
      Run, its own release, its own conclusion. */
  predicate MayEnd(op: Op, m: Lease) {
    match op
    case Control(_) => true
    case NewRun(_, _) => true
    case Lapse(run) => run == m.run
    case Suspend(run) => run == m.run
    case Abandon(l) => l.run == m.run && l.owner == m.owner && l.epoch == m.epoch
    case Finish(l, _) => l == m
    case _ => false
  }

  /** Nothing else ends it: no claim, commit or step of anybody, and no release of another lease. */
  lemma {:induction false} CurrentStays(db: Db, op: Op, m: Lease)
    requires Current(db, m) && !MayEnd(op, m)
    ensures Current(Do(db, op), m)
  {
  }

  /** A human decision and a new Run end every lease there was on the incident; a lapse or suspension
      ends those of its Run. */
  lemma {:induction false} Revokes(db: Db, op: Op, m: Lease)
    requires m.generation <= db.generation
    requires op.Control? || (op.NewRun? && op.run !in db.runs) || ((op.Lapse? || op.Suspend?) && op.run == m.run)
    ensures !Current(Do(db, op), m)
  {
  }

  /** A claim is granted exactly on a known, free and wanted Run of the same versions; a mismatch
      leaves the Run unwanted, and anything else leaves the rows as they are. */
  lemma {:induction false} ClaimGrants(db: Db, run: nat, owner: nat, versions: nat)
    ensures var b := Do(db, Claim(run, owner, versions));
            if !(run in db.runs && !db.runs[run].live && db.runs[run].candidate) then b == db
            else if db.runs[run].versions != versions then !b.runs[run].candidate && !b.runs[run].live && b.log == db.log
            else Current(b, Lease(run, owner, db.runs[run].epoch + 1, db.generation)) && b.log == db.log
  {
  }
}
