// The store as one worker meets it: every call is a transaction, any call can fail, and everybody else moves in between.

module FencedStore {
  import opened Outcomes
  import opened LeaseStore

  type Reply<+T> = Result<T, Error>

  /** `rebuild`: the current Run, the human decision in force and the calls still outstanding. */
  datatype Snapshot = Snapshot(run: nat, generation: nat, candidate: bool, pending: set<Call>)

  /** What a worker asked of the store or of the outside world, with the rows it was answered from. */
  datatype Event =
    | Fence(lease: Lease, seen: Db)
    | Rebuilt(seen: Db)
    | Identity(seen: Db)
    | Renewed(lease: Lease, seen: Db)
    | Granted(lease: Lease)
    | GrantLost(lease: Lease)                                 // granted, but the reply never came
    | Dispatched(call: Call)
    | Committed(lease: Lease, call: Call, after: Db, outcome: Option<Error>)
    | Published(lease: Lease, outcome: Option<Error>)
    | Released(lease: Lease)                                  // `abandon` was attempted

  /** The lease is live on this Run, for this owner, and the Run is of these versions. */
  predicate GrantedTo(db: Db, l: Lease, run: nat, owner: nat, versions: nat) {
    Current(db, l) && l.run == run && l.owner == owner && db.runs[run].versions == versions
  }

  function PendingCalls(db: Db): (pending: set<Call>)
    ensures forall c {:trigger Pending(db, c)} {:trigger c in pending} :: c in pending <==> Pending(db, c)
  {
    if db.current !in db.runs then {}
    else
      var steps := db.runs[db.current].steps;
      set s, o | s in steps.Keys && 0 <= o < steps[s].calls && Pending(db, Call(s, o)) :: Call(s, o)
  }

  function SnapshotOf(db: Db): Snapshot
    requires db.current in db.runs
  {
    Snapshot(db.current, db.generation, db.runs[db.current].candidate && db.conclusion.None?, PendingCalls(db))
  }

  // ------------------------------------------------ the store, shared with everybody else

  class Store {
    var db: Db
    ghost var trace: seq<Event>

    /** Between any two transactions of a worker, anything. */
    method Interfere()
      requires Sound(db)
      modifies `db
      ensures Sound(db) && Grows(old(db), db)
    {
      var ops: seq<Op> := *;
      RunsAreSound(db, ops);
      db := DoAll(db, ops);
    }

    method LeaseCurrent(l: Lease) returns (r: Reply<bool>)
      requires Sound(db)
      modifies this
      ensures Sound(db) && Grows(old(db), db)
      ensures r.Ok? ==> trace == old(trace) + [Fence(l, db)] && r.value == Current(db, l)
      ensures r.Err? ==> trace == old(trace)
    {
      Interfere();
      var down: bool := *;
      if down { return Err(Unavailable); }
      trace := trace + [Fence(l, db)];
      r := Ok(Current(db, l));
    }

    /** `rebuild` decodes step payloads, which an unknown schema makes impossible. */
    method Rebuild() returns (r: Reply<Snapshot>)
      requires Sound(db)
      modifies this
      ensures Sound(db) && Grows(old(db), db)
      ensures r.Ok? ==> trace == old(trace) + [Rebuilt(db)] && db.current in db.runs && r.value == SnapshotOf(db)
      ensures r.Err? ==> trace == old(trace)
    {
      Interfere();
      var down: bool, corrupt: bool := *, *;
      if down { return Err(Unavailable); }
      if db.current !in db.runs || corrupt { return Err(InconsistentState); }
      trace := trace + [Rebuilt(db)];
      r := Ok(SnapshotOf(db));
    }

    /** `recovery_metadata`: the current Run, the decision in force and the Run's versions. */
    method Metadata() returns (r: Reply<(nat, nat, nat)>)
      requires Sound(db)
      modifies this
      ensures Sound(db) && Grows(old(db), db)
      ensures r.Ok? ==> trace == old(trace) + [Identity(db)] && db.current in db.runs
                        && r.value == (db.current, db.generation, db.runs[db.current].versions)
      ensures r.Err? ==> trace == old(trace)
    {
      Interfere();
      var down: bool := *;
      if down { return Err(Unavailable); }
      if db.current !in db.runs { return Err(UnknownIdentity); }
      trace := trace + [Identity(db)];
      r := Ok((db.current, db.generation, db.runs[db.current].versions));
    }

    method Renew(l: Lease) returns (r: Reply<()>)
      requires Sound(db)
      modifies this
      ensures Sound(db) && Grows(old(db), db)
      ensures r.Ok? ==> trace == old(trace) + [Renewed(l, db)] && Current(db, l)
      ensures r.Err? ==> trace == old(trace)
    {
      Interfere();
      var down: bool := *;
      if down { return Err(Unavailable); }
      if !Current(db, l) { return Err(ControlDenied); }
      trace := trace + [Renewed(l, db)];
      r := Ok(());
    }

    /** A lost connection may hide a transaction that did commit. */
    method CommitTool(l: Lease, c: Call, value: nat) returns (r: Reply<()>, ghost before: Db)
      requires Sound(db)
      modifies this
      ensures Sound(db) && Grows(old(db), db)
      ensures trace == old(trace) + [Committed(l, c, db, if r.Err? then Some(r.error) else None)]
      ensures db in {before, Do(before, Commit(l, c, value))}
      ensures r.Ok? ==> Adopted(db, l.run, c) && (Adopted(before, l.run, c) || ResultOf(db, l.run, c) == value)
      ensures r == Err(ControlDenied) ==> Rejected(c, l) in db.late
      ensures r.Err? ==> r.error in {ControlDenied, UnknownIdentity, Unavailable}
      ensures r == Err(UnknownIdentity) ==> !Planned(db, l.run, l.generation, c)
    {
      Interfere();
      var down: bool, lost: bool := *, *;
      before := db;
      r := Err(Unavailable);
      if !down {
        var error := CommitError(db, l, c);
        DoSound(db, Commit(l, c, value));
        DoGrows(db, Commit(l, c, value));
        db := Do(db, Commit(l, c, value));
        GrowsTrans(old(db), before, db);
        if !lost {
          r := if error.Some? then Err(error.value) else Ok(());
          CommitDecides(before, l, c);
          if error == None { CommitStores(before, l, c, value); }
        }
      }
      trace := trace + [Committed(l, c, db, if r.Err? then Some(r.error) else None)];
    }

    /** The write leaves every other current lease current. */
    method Release(l: Lease) returns (r: Reply<()>, ghost before: Db)
      requires Sound(db)
      modifies this
      ensures Sound(db) && Grows(old(db), db)
      ensures trace == old(trace) + [Released(l)]
      ensures r.Ok? ==> !Stands(db, l)
      ensures forall m :: Current(before, m) && (m.run != l.run || m.owner != l.owner || m.epoch != l.epoch) ==> Current(db, m)
    {
      Interfere();
      var down: bool, lost: bool := *, *;
      before := db;
      if !down {
        DoSound(db, Abandon(l));
        DoGrows(db, Abandon(l));
        db := Do(db, Abandon(l));
        GrowsTrans(old(db), before, db);
        forall m | Current(before, m) && (m.run != l.run || m.owner != l.owner || m.epoch != l.epoch) ensures Current(db, m) {
          CurrentStays(before, Abandon(l), m);
        }
      }
      r := if down || lost then Err(Unavailable) else Ok(());
      trace := trace + [Released(l)];
    }

    /** Deadlines, pauses and suspensions may refuse a Run this model would grant. A Run of other
        versions is blocked instead of granted. */
    method Claim(run: nat, owner: nat, versions: nat) returns (r: Reply<Lease>, ghost lost: Option<Lease>)
      requires Sound(db)
      modifies this
      ensures Sound(db) && Grows(old(db), db)
      ensures r.Ok? ==> lost == None && trace == old(trace) + [Granted(r.value)] && GrantedTo(db, r.value, run, owner, versions)
      ensures r.Err? && lost == None ==> trace == old(trace)
      ensures r.Err? && lost.Some? ==>
                r.error == Unavailable && trace == old(trace) + [GrantLost(lost.value)] && GrantedTo(db, lost.value, run, owner, versions)
      ensures r == Err(IncompatibleState) ==>
                run in db.runs && db.runs[run].versions != versions && !db.runs[run].candidate && !db.runs[run].live
    {
      Interfere();
      lost := None;
      var down: bool, refused: bool, unheard: bool := *, *, *;
      ghost var before := db;
      if down { return Err(Unavailable), None; }
      if run !in db.runs { return Err(UnknownIdentity), None; }
      if db.runs[run].live { return Err(LeaseActive), None; }
      if refused || !db.runs[run].candidate { return Err(ControlDenied), None; }
      var lease := ClaimedLease(db, run, owner);
      var compatible := db.runs[run].versions == versions;
      DoSound(db, LeaseStore.Claim(run, owner, versions));
      DoGrows(db, LeaseStore.Claim(run, owner, versions));
      db := Do(db, LeaseStore.Claim(run, owner, versions));
      GrowsTrans(old(db), before, db);
      if !compatible { return Err(if unheard then Unavailable else IncompatibleState), None; }
      if unheard {
        trace := trace + [GrantLost(lease)];
        return Err(Unavailable), Some(lease);
      }
      trace := trace + [Granted(lease)];
      r := Ok(lease);
    }

    /** True for the incident's conclusion, published now or before; false for one that human control
        or another Run overtook. Whether the final step carries it is an arbitrary answer, and a lost
        connection may hide a publication. */
    method Publish(l: Lease, conclusion: nat) returns (r: Reply<bool>)
      requires Sound(db)
      modifies this
      ensures Sound(db) && Grows(old(db), db)
      ensures trace == old(trace) + [Published(l, if r.Err? then Some(r.error) else None)]
      ensures r == Ok(true) ==> db.current == l.run && db.conclusion == Some(conclusion)
      ensures r == Ok(false) || r == Err(UnknownIdentity) ==> db.current != l.run || !Current(db, l)
      ensures r == Err(FinalStepRequired) ==> db.current == l.run && Current(db, l)
    {
      Interfere();
      var down: bool, adoptable: bool, known: bool, lost: bool := *, *, *, *;
      ghost var before := db;
      if down {
        r := Err(Unavailable);
      } else if db.current == l.run && db.conclusion == Some(conclusion) {
        r := Ok(true);
      } else if db.current != l.run || !Current(db, l) {
        r := if known then Ok(false) else Err(UnknownIdentity);
      } else if !adoptable {
        r := Err(FinalStepRequired);
      } else {
        DoSound(db, Finish(l, conclusion));
        DoGrows(db, Finish(l, conclusion));
        db := Do(db, Finish(l, conclusion));
        GrowsTrans(old(db), before, db);
        r := if lost then Err(Unavailable) else Ok(true);
      }
      trace := trace + [Published(l, if r.Err? then Some(r.error) else None)];
    }
  }
}
