/**
 What may go wrong at a read or a write. In a calm call nothing does, so that a method has to do all its
 work; otherwise every write may fail, unapplied or applied unseen.
 */
module Faults {
  /** A calm call meets no fault; a lone one meets no writes of others. */
  datatype Env = Env(calm: bool, alone: bool)

  /** Whether a read or a process stops here. */
  method Strikes(calm: bool) returns (stops: bool)
    ensures calm ==> !stops
  {
    stops := *;
    stops := stops && !calm;
  }

  /** How a write ends: applied or not, and seen to have been applied or not. */
  method Outcome(calm: bool) returns (applied: bool, seen: bool)
    ensures seen ==> applied
    ensures calm ==> seen
  {
    applied, seen := *, *;
    applied := applied || calm;
    seen := (seen && applied) || calm;
  }
}
