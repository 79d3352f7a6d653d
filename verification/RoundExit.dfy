// How a live round ends: slots, closures, stop requests and evidence writes decide one exit code.

module RoundExit {
  import opened Outcomes

  /** The stored restore intent, as a reader of the lab state finds it. */
  datatype Intent = Absent | Own | Foreign | Unreadable

  /** Exit precedence: 4 over 5 over 130 and 3 over 1. */
  function Rank(code: Option<nat>): nat {
    match code
    case Some(4) => 4
    case Some(5) => 3
    case Some(130) => 2
    case Some(3) => 2
    case Some(1) => 1
    case _ => 0
  }

  predicate Outranks(code: nat, current: Option<nat>) { Rank(Some(code)) > Rank(current) }

  function Raised(code: nat, current: Option<nat>): (next: Option<nat>)
    ensures Rank(next) >= Rank(current) && Rank(next) >= Rank(Some(code))
    ensures next == current || next == Some(code)
  {
    if Outranks(code, current) then Some(code) else current
  }

  // ------------------------------------------------ one attempt

  /** Working state of an attempt; `stop` is the exit code it will stop the round with. */
  datatype Attempt = Attempt(ran: bool, injected: bool, stop: Option<nat>, interrupted: bool, evidenceFailed: bool)

  /** What leaves a slot: nothing, a stop, or an exception its own handlers do not take. */
  datatype SlotEnd = Done | Stop(code: nat) | Interrupt | EvidenceError | LabFailure

  /** How `_run_slot` ends, after its closure. */
  function Ending(a: Attempt, summaryWritten: bool): SlotEnd {
    if a.stop == Some(4) then Stop(4)
    else if !summaryWritten || a.evidenceFailed then Stop(5)
    else if a.interrupted then Stop(130)
    else if a.stop.Some? then Stop(a.stop.value)
    else Done
  }

  function CodeOf(end: SlotEnd): Option<nat> {
    match end
    case Done => None
    case Stop(code) => Some(code)
    case Interrupt => Some(130)
    case EvidenceError => Some(5)
    case LabFailure => Some(3)
  }

  /** A slot reports the highest of everything that went wrong in it, and nothing more. */
  lemma {:induction false} EndingIsHighest(a: Attempt, summaryWritten: bool)
    requires a.stop in {None, Some(1), Some(4)}
    ensures var code := CodeOf(Ending(a, summaryWritten));
            && Rank(code) >= Rank(a.stop)
            && (!summaryWritten || a.evidenceFailed ==> Rank(code) >= Rank(Some(5)))
            && (a.interrupted ==> Rank(code) >= Rank(Some(130)))
            && (code == None <==> a.stop == None && summaryWritten && !a.evidenceFailed && !a.interrupted)
            && (code == Some(4) <==> a.stop == Some(4))
  {
  }

  /** The slots of a round that ran, until one ended it, and the code that end gives the round: 130 for an
      interrupt, 5 for evidence that could not be written, 3 for a failure of the lab. */
  ghost predicate SlotsEnded(slots: nat, ends: seq<SlotEnd>, finished: seq<bool>, code: Option<nat>, ran: seq<bool>) {
    && |ends| == |finished| <= slots && |ran| == slots && finished <= ran
    && (forall k {:trigger ran[k]} :: |finished| <= k < slots ==> !ran[k])
    && (forall k {:trigger ends[k]} :: 0 <= k < |ends| - 1 ==> ends[k] == Done)
    && (code == None ==> |ends| == slots && (ends != [] ==> ends[|ends| - 1] == Done))
    && (code != None ==> ends != [] && Reports(ends[|ends| - 1], code.value))
  }

  predicate Reports(end: SlotEnd, code: nat) {
    match end
    case Done => false
    case Stop(c) => code == c
    case Interrupt => code == 130
    case EvidenceError => code == 5
    case LabFailure => code == 3
  }

  /** 4 over 5, 5 over 130 and 3, those over 1, and 1 over a round without any code. */
  lemma {:induction false} Precedence()
    ensures forall code: nat, current: nat :: Outranks(code, Some(current)) && Outranks(current, None) ==>
              || (code == 4 && current in {5, 130, 3, 1}) || (code == 5 && current in {130, 3, 1})
              || (code in {130, 3} && current == 1)
    ensures Outranks(4, Some(5)) && Outranks(5, Some(130)) && Outranks(5, Some(3)) && Outranks(130, Some(1))
    ensures Outranks(3, Some(1)) && Outranks(1, None)
  {
  }

  predicate AllRan(ran: seq<bool>) { forall k :: 0 <= k < |ran| ==> ran[k] }

  class Round {
    var intent: Intent
    var stopRequested: bool
    var exitCode: Option<nat>
    var ran: seq<bool>

    constructor (intent: Intent)
      requires intent == Absent                              // the preflight saw none
      ensures this.intent == Absent && !stopRequested && exitCode == None && ran == []
    {
      this.intent, stopRequested, exitCode, ran := intent, false, None, [];
    }

    /** Restore and stop the database server; an intent that stays behind stops the round with 4. */
    method Close(a: Attempt) returns (b: Attempt)
      requires a.stop in {None, Some(1), Some(4)}
      modifies `intent, `stopRequested
      ensures b.injected == a.injected && b.stop in {None, Some(1), Some(4)}
      ensures !a.injected ==> intent == old(intent)
      ensures old(intent) != Own ==> intent != Own
      ensures a.injected && intent == Own ==> b.stop == Some(4)
      ensures a.stop == Some(4) ==> b.stop == Some(4)
      ensures old(stopRequested) ==> stopRequested
      ensures b.ran ==> a.ran && b.stop == a.stop
      ensures b.evidenceFailed == a.evidenceFailed && (a.interrupted ==> b.interrupted)
    {
      b := a;
      if a.injected {
        var readable: bool, restored: bool, cleared: bool, interrupted: bool := *, *, *, *;
        if !readable || (intent == Own && !restored) {
          if interrupted { stopRequested := true; }
          if intent == Own && cleared { intent := Absent; }  // failed later, in the wash
          b := b.(ran := false, stop := Some(4));
        } else if intent == Own {
          intent := Absent;
        }
      }
      var stopped: bool, interrupted: bool := *, *;
      if interrupted { stopRequested := true; b := b.(interrupted := true); }
      if !stopped { b := b.(ran := false, stop := if b.stop == None then Some(1) else b.stop); }
    }

    /** `_run_slot`: whatever the guarded body does, its closure follows. */
    method RunSlot() returns (end: SlotEnd, finished: bool)
      requires intent != Own
      modifies this
      ensures exitCode == old(exitCode) && ran == old(ran)
      ensures end == Done ==> intent != Own
      ensures end.Stop? ==> end.code in {1, 4, 5, 130} && (intent == Own ==> end.code == 4)
      ensures old(stopRequested) ==> stopRequested
      ensures end == Interrupt ==> stopRequested
    {
      finished := false;
      var before: int := *;
      if before == 0 { stopRequested := true; return Interrupt, false; }
      if before == 1 { return Stop(5), false; }              // the journal could not be written
      var investigated: bool, injected: bool, foreign: bool, interrupted: bool, evidence: bool := *, *, *, *, *;
      var a := Attempt(investigated, injected, if foreign then Some(1) else None, interrupted, evidence);
      if interrupted { stopRequested := true; }
      if injected {
        var written: Intent := *;
        intent := written;
      } else if foreign {
        var seen: Intent := *;
        if seen != Own { intent := seen; }
      }
      a := Close(a);
      var later: bool, summary: bool, escape: int := *, *, *;
      if later { stopRequested := true; }
      if escape == 0 { return EvidenceError, a.ran; }
      if escape == 1 { return LabFailure, a.ran; }
      a := a.(interrupted := a.interrupted || stopRequested);
      end, finished := Ending(a, summary), a.ran;
      EndingIsHighest(a, summary);
    }

    /** The slots in turn, until one ends the round. An error that escapes a slot finds no code set
        yet, so even the unconditional 3 of a vanished reservation lowers nothing. */
    method RunSlots(slots: nat) returns (ghost ends: seq<SlotEnd>, ghost finished: seq<bool>)
      requires intent != Own && exitCode == None && ran == []
      modifies this
      ensures SlotsEnded(slots, ends, finished, exitCode, ran)
      ensures exitCode == None ==> intent != Own
      ensures exitCode != None ==> exitCode.value in {1, 3, 4, 5, 130}
      ensures old(stopRequested) ==> stopRequested
    {
      ends, finished := [], [];
      for k := 0 to slots
        invariant |ends| == |ran| == k && finished == ran && exitCode == None && intent != Own
        invariant forall j {:trigger ends[j]} :: 0 <= j < k ==> ends[j] == Done
        invariant old(stopRequested) ==> stopRequested
      {
        var end, whole := RunSlot();
        ran := ran + [whole];
        ends, finished := ends + [end], finished + [whole];
        if end != Done {
          exitCode := CodeOf(end);
          ran := ran + seq(slots - k - 1, _ => false);        // ROUND_STOPPED
          return;
        }
      }
    }

    /** The round's outputs, the retained intent and a stop requested meanwhile. */
    method WriteOutputs() returns (outputs: bool)
      requires exitCode != None ==> exitCode.value in {1, 3, 4, 5, 130}
      modifies `stopRequested, `exitCode
      ensures exitCode != None ==> exitCode.value in {1, 3, 4, 5, 130}
      ensures Rank(exitCode) >= Rank(old(exitCode))
      ensures intent in {Own, Unreadable} ==> exitCode == Some(4)
      ensures !outputs || stopRequested ==> Rank(exitCode) >= Rank(Some(130))
      ensures exitCode == None <==> old(exitCode) == None && outputs && !stopRequested && intent !in {Own, Unreadable}
      ensures old(stopRequested) ==> stopRequested
    {
      var written: bool, interrupted: bool, late: bool := *, *, *;
      outputs := written && !interrupted;
      if interrupted || late { stopRequested := true; }
      if intent in {Own, Unreadable} { exitCode := Raised(4, exitCode); }
      if stopRequested { exitCode := Raised(130, exitCode); }
      if !written && !interrupted { exitCode := Raised(5, exitCode); }
    }

    /** The outputs, the lifecycle record and the final code. Nothing after the slots lowers the
        code's rank. */
    method Conclude() returns (code: nat, outputs: bool, lifecycle: bool)
      requires exitCode != None ==> exitCode.value in {1, 3, 4, 5, 130}
      modifies `stopRequested, `exitCode
      ensures code in {0, 1, 3, 4, 5, 130} && exitCode == Some(code)
      ensures Rank(Some(code)) >= Rank(old(exitCode))
      ensures intent in {Own, Unreadable} ==> code == 4
      ensures stopRequested || !outputs || !lifecycle ==> Rank(Some(code)) >= Rank(Some(130))
      ensures code == 0 <==>
                old(exitCode) == None && AllRan(ran) && outputs && lifecycle && !stopRequested && intent !in {Own, Unreadable}
      ensures old(stopRequested) ==> stopRequested
    {
      outputs := WriteOutputs();
      if exitCode == None { exitCode := Some(if AllRan(ran) then 0 else 1); }
      var stored: bool, stopped: bool, last: bool := *, *, *;
      lifecycle := stored && !stopped;
      if stopped || last { stopRequested := true; }
      if !stored && !stopped { exitCode := Raised(5, exitCode); }
      if stopRequested { exitCode := Raised(130, exitCode); }
      code := exitCode.value;
    }

    /** `_run_round` from the active marker on. */
    method Run(slots: nat) returns (code: nat, outputs: bool, lifecycle: bool, ghost afterSlots: Option<nat>)
      requires intent == Absent && exitCode == None && ran == []
      modifies this
      ensures intent in {Own, Unreadable} ==> code == 4
      ensures code == 0 ==>
                |ran| == slots && AllRan(ran) && outputs && lifecycle && !stopRequested && intent !in {Own, Unreadable}
      ensures code in {0, 1, 3, 4, 5, 130} && Rank(Some(code)) >= Rank(afterSlots)
    {
      afterSlots := None;
      var marker: int := *;
      if marker == 0 {
        exitCode := Some(3);                                 // the reservation vanished
      } else if marker == 1 {
        stopRequested, exitCode := true, Some(130);
      } else if marker == 2 {
        exitCode := Some(1);                                 // the marker could not be written
      } else {
        var _, _ := RunSlots(slots);
        afterSlots := exitCode;
        var removed: bool, interrupted: bool := *, *;
        if interrupted {
          stopRequested := true;
          exitCode := Raised(130, exitCode);
        } else if !removed {
          exitCode := Raised(1, exitCode);
        }
      }
      code, outputs, lifecycle := Conclude();
    }
  }
}
