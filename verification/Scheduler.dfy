/**
 * Round-robin choice of the next task.
 */
module Scheduler {
  import opened Basics

  const NUM_TASKS: nat := 4096
  const VALID: bv64 := 0x01
  const RUNNABLE: bv64 := 0x02
  const BLOCKED: bv64 := 0x08

  /** A task that may be given the processor. */
  predicate Eligible(state: bv64) {
    state & (VALID | RUNNABLE | BLOCKED) == VALID | RUNNABLE
  }

  predicate IsBlocked(state: bv64) {
    state & BLOCKED != 0
  }

  lemma EligibleIs(state: bv64)
    ensures Eligible(state) <==> state & VALID != 0 && state & RUNNABLE != 0 && !IsBlocked(state)
  {}

  /** The slot off places after current, cyclically. */
  function SlotAt(current: nat, off: nat): (i: nat)
    ensures i < NUM_TASKS
  {
    (current + off) % NUM_TASKS
  }

  ghost predicate Candidate(states: seq<bv64>, i: nat)
    requires |states| == NUM_TASKS && i < NUM_TASKS
  {
    i != 0 && Eligible(states[i])
  }

  /** next is the first candidate after current, or current itself, or nothing if current is blocked. */
  ghost predicate IsChoice(states: seq<bv64>, current: nat, next: Option<nat>)
    requires |states| == NUM_TASKS && current < NUM_TASKS
  {
    if exists off :: 1 <= off < NUM_TASKS && Candidate(states, SlotAt(current, off)) then
      exists off :: 1 <= off < NUM_TASKS && Candidate(states, SlotAt(current, off))
        && next == Some(SlotAt(current, off))
        && forall o :: 1 <= o < off ==> !Candidate(states, SlotAt(current, o))
    else
      next == if IsBlocked(states[current]) then None else Some(current)
  }

  method ChooseNext(states: array<bv64>, current: nat) returns (nts: Option<nat>)
    requires states.Length == NUM_TASKS && current < NUM_TASKS
    ensures IsChoice(states[..], current, nts)
    ensures nts.None? ==> states[current] & 0x08 != 0
    ensures nts == Some(current) ==> states[current] & 0x08 == 0
    ensures nts.Some? && nts.value != current ==> 0 < nts.value < 4096 && states[nts.value] & 0x0b == 0x03
    ensures forall i :: 0 < i < 4096 && i != current && states[i] & 0x0b == 0x03 ==> nts.Some? && nts.value != current
  {
    forall i | 0 < i < 4096 && i != current && states[i] & 0x0b == 0x03
      ensures exists off :: 1 <= off < NUM_TASKS && SlotAt(current, off) == i && Candidate(states[..], i)
    {
      assert SlotAt(current, if current < i then i - current else NUM_TASKS - current + i) == i;
    }
    forall off | 1 <= off < NUM_TASKS ensures SlotAt(current, off) != current {}
    hide Eligible, SlotAt;
    if IsBlocked(states[current]) {
      nts := None;
    } else {
      nts := Some(current);
    }
    var off := 1;
    while off < NUM_TASKS
      invariant 1 <= off <= NUM_TASKS
      invariant forall o :: 1 <= o < off ==> !Candidate(states[..], SlotAt(current, o))
      invariant nts == if IsBlocked(states[current]) then None else Some(current)
    {
      var i := SlotAt(current, off);
      if i != 0 && Eligible(states[i]) {
        nts := Some(i);
        assert Candidate(states[..], SlotAt(current, off));
        return;
      }
      off := off + 1;
    }
  }

  /** The choice is unique. */
  lemma ChoiceUnique(states: seq<bv64>, current: nat, a: Option<nat>, b: Option<nat>)
    requires |states| == NUM_TASKS && current < NUM_TASKS && IsChoice(states, current, a)
    requires IsChoice(states, current, b)
    ensures a == b
  {
    hide SlotAt, Eligible;
    if exists off :: 1 <= off < NUM_TASKS && Candidate(states, SlotAt(current, off)) {
      var x :| 1 <= x < NUM_TASKS && Candidate(states, SlotAt(current, x)) && a == Some(SlotAt(current, x))
        && forall o :: 1 <= o < x ==> !Candidate(states, SlotAt(current, o));
      var y :| 1 <= y < NUM_TASKS && Candidate(states, SlotAt(current, y)) && b == Some(SlotAt(current, y))
        && forall o :: 1 <= o < y ==> !Candidate(states, SlotAt(current, o));
    }
  }

  /** Slot 0 is never newly selected. */
  lemma NeverSlotZero(states: seq<bv64>, current: nat, next: Option<nat>)
    requires |states| == NUM_TASKS && current < NUM_TASKS && IsChoice(states, current, next)
    ensures next == Some(0) ==> current == 0
  {
    hide SlotAt, Eligible;
  }

  /**
   * How many slots other than slot 0 are passed on the way from c to t, t included; a full turn if they are the same.
   */
  function Left(c: nat, t: nat): (n: nat)
    requires c < NUM_TASKS && 0 < t < NUM_TASKS
    ensures 1 <= n <= NUM_TASKS - 1
  {
    if c < t then t - c else NUM_TASKS - 1 - c + t
  }

  /** Every decision made while t is eligible selects t or comes closer to it. */
  lemma Closer(states: seq<bv64>, c: nat, next: Option<nat>, t: nat)
    requires |states| == NUM_TASKS && c < NUM_TASKS && 0 < t < NUM_TASKS && Eligible(states[t])
    requires IsChoice(states, c, next)
    ensures next.Some? && next.value < NUM_TASKS
    ensures next.value == t || Left(next.value, t) < Left(c, t)
  {
    var d := if c < t then t - c else NUM_TASKS - c + t;
    hide Eligible;
    assert SlotAt(c, d) == t;
    if c != t {
      assert Candidate(states, SlotAt(c, d));
      var off :| 1 <= off < NUM_TASKS && Candidate(states, SlotAt(c, off)) && next == Some(SlotAt(c, off))
        && forall o :: 1 <= o < off ==> !Candidate(states, SlotAt(c, o));
      assert off <= d;
    } else {
      EligibleIs(states[t]);
    }
  }

  /** A run of decisions, each from the task chosen last; states may change in any way in between. */
  ghost predicate IsRun(states: seq<seq<bv64>>, chosen: seq<nat>) {
    && |chosen| == |states| + 1
    && (forall k :: 0 <= k < |states| ==> |states[k]| == NUM_TASKS)
    && (forall k :: 0 <= k < |chosen| ==> chosen[k] < NUM_TASKS)
    && (forall k :: 0 <= k < |states| ==> IsChoice(states[k], chosen[k], Some(chosen[k + 1])))
  }

  /** A task that stays eligible is chosen within NUM_TASKS - 1 decisions, whoever runs first. */
  lemma ChosenInTime(states: seq<seq<bv64>>, chosen: seq<nat>, t: nat)
    requires IsRun(states, chosen) && 0 < t < NUM_TASKS && |states| >= NUM_TASKS - 1
    requires forall k :: 0 <= k < |states| ==> Eligible(states[k][t])
    ensures exists k :: 1 <= k <= NUM_TASKS - 1 && chosen[k] == t
  {
    var k := ChosenBy(states, chosen, t, 0, Left(chosen[0], t));
  }

  lemma {:induction false} ChosenBy(states: seq<seq<bv64>>, chosen: seq<nat>, t: nat, from: nat, n: nat)
    returns (k: nat)
    requires IsRun(states, chosen) && 0 < t < NUM_TASKS && from + n <= |states| && n == Left(chosen[from], t)
    requires forall j :: 0 <= j < |states| ==> Eligible(states[j][t])
    ensures from < k <= from + n && chosen[k] == t
    decreases n
  {
    hide Eligible, IsChoice;
    Closer(states[from], chosen[from], Some(chosen[from + 1]), t);
    if chosen[from + 1] == t {
      k := from + 1;
    } else {
      k := ChosenBy(states, chosen, t, from + 1, Left(chosen[from + 1], t));
    }
  }
}
