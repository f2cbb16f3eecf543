/** The four-state action lifecycle used by the current composite actions.
    The thinker model uses it too. src/thinker.rs belongs to a newer action
    API (it imports `ActionSpawn` and `ActionCommands`, which src/action.rs
    does not define) whose `ActionState` is not part of this model; the
    thinker only asks it `is_done()`, which holds exactly for `Success` and
    `Failure` here as in the five-state enum of src/action.rs. The enum itself lives outside the files modelled here; it
    is rebuilt from its uses in src/sequence.rs (146-160, 204-228, 263-291)
    and tests/steps.rs (77-78, 123): the setters `success()`, `failure()`,
    `cancel()`, `cancel_if_executing()` and the predicates `is_done()`,
    `is_success()`, `is_failure()`, `is_executing()`. A freshly spawned action
    starts in `Executing`. */
module Lifecycle {

  datatype ActionState = Executing | Cancelled | Success | Failure
  {
    predicate IsDone() { Success? || Failure? }
    predicate IsSuccess() { Success? }
    predicate IsFailure() { Failure? }
    predicate IsExecuting() { Executing? }

    /** `cancel_if_executing`: asks a running action to wind down and leaves
        every other state alone. */
    function CancelIfExecuting(): (s: ActionState)
      ensures s.Cancelled? <==> Executing? || Cancelled?
      ensures !s.Executing?
      ensures !Executing? ==> s == this
      ensures s.IsDone() == IsDone()
    {
      if Executing? then Cancelled else this
    }
  }

  /** The state a freshly spawned action starts in. */
  const Initial: ActionState := Executing

  /** Cancelling twice is the same as cancelling once. */
  lemma CancelIfExecutingIdempotent(s: ActionState)
    ensures s.CancelIfExecuting().CancelIfExecuting() == s.CancelIfExecuting()
  {
  }

  /** `is_success` and `is_failure` exclude each other and each implies
      `is_done`, which holds for exactly those two. */
  lemma DonePredicates(s: ActionState)
    ensures !(s.IsSuccess() && s.IsFailure())
    ensures s.IsDone() <==> s.IsSuccess() || s.IsFailure()
    ensures s.IsExecuting() ==> !s.IsDone()
  {
  }
}
