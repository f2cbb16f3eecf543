/** The five-state action lifecycle of src/action.rs, used by the older
    composite actions (`Concurrently`, `Steps`), and the identity tokens
    that tell two instances of the same action template apart. */
module Action {
  import opened Ecs

  /** `ActionState`. A new state is `Requested`. Each setter below returns
      the value `*self` holds after the call. */
  datatype ActionState = Requested | Executing | Cancelled | Success | Failure
  {
    /** `request`: the state becomes `Requested`, whatever it was. */
    function Request(): (s: ActionState)
      ensures s.Requested?
    {
      Requested
    }

    /** `execute`: as written it stores `Requested`, not `Executing`. */
    function Execute(): (s: ActionState)
      ensures s.Requested? && !s.Executing?
    {
      Requested
    }

    /** `cancel`: unconditionally `Cancelled`. */
    function Cancel(): (s: ActionState)
      ensures s.Cancelled?
    {
      Cancelled
    }

    /** `done_success`: unconditionally `Success`. */
    function DoneSuccess(): (s: ActionState)
      ensures s.Success? && s.IsDone()
    {
      Success
    }

    /** `done_failure`: unconditionally `Failure`. */
    function DoneFailure(): (s: ActionState)
      ensures s.Failure? && s.IsDone()
    {
      Failure
    }

    /** `cancel_if_running`: a requested or running action is asked to
        wind down; any other state is kept. */
    function CancelIfRunning(): (s: ActionState)
      ensures s.Cancelled? <==> Requested? || Executing? || Cancelled?
      ensures !s.Requested? && !s.Executing?
      ensures !(Requested? || Executing?) ==> s == this
      ensures s.IsDone() == IsDone()
    {
      if Requested? || Executing? then Cancelled else this
    }

    predicate IsSuccess() { Success? }
    predicate IsFailure() { Failure? }
    predicate IsDone() { Success? || Failure? }

    /** Requested or Executing: the states a cancellation rewrites. */
    predicate IsRunning() { Requested? || Executing? }
  }

  /** `ActionState::default()`. */
  const Default: ActionState := Requested

  /** `cancel_if_running` twice is `cancel_if_running` once. */
  lemma CancelIfRunningIdempotent(s: ActionState)
    ensures s.CancelIfRunning().CancelIfRunning() == s.CancelIfRunning()
  {
  }

  /** `is_done` holds exactly for Success and Failure; `is_success` and
      `is_failure` exclude each other. */
  lemma DonePredicates(s: ActionState)
    ensures s.IsDone() <==> s.IsSuccess() || s.IsFailure()
    ensures !(s.IsSuccess() && s.IsFailure())
    ensures s.IsDone() ==> !s.IsRunning() && !s.Cancelled?
  {
  }

  /** `ActionId`: a token whose only meaning is its address. */
  class ActionId {
    constructor ()
    {
    }
  }

  /** `ActionInner`: a shared template paired with the identity token of
      this particular instance. Cloning copies the pointer to the token. */
  datatype ActionInner = ActionInner(id: ActionId, builder: Template)

  /** `ActionInner::new`: a fresh token on every call. */
  method NewInner(builder: Template) returns (inner: ActionInner)
    ensures fresh(inner.id)
    ensures inner.builder == builder
  {
    var id := new ActionId();
    inner := ActionInner(id, builder);
  }

  /** `id_eq`: pointer equality of the tokens; the builders play no part,
      so between two handles with the same builder it is plain equality. */
  function IdEq(a: ActionInner, b: ActionInner): (r: bool)
    ensures r <==> a.id == b.id
    ensures a == b ==> r
    ensures a.builder == b.builder ==> (r <==> a == b)
  {
    a.id == b.id
  }

  /** A clone is `id_eq` to the original; `id_eq` is reflexive and symmetric,
      and ignores the builder. */
  lemma IdEqProperties(a: ActionInner, b: ActionInner, other: Template)
    ensures IdEq(a, a)
    ensures IdEq(a, b) == IdEq(b, a)
    ensures IdEq(a, a.(builder := other))
  {
  }

  /** Two separate `new` calls are never `id_eq`, even with the same builder. */
  method TwoNewAreDistinct(builder: Template) returns (a: ActionInner, b: ActionInner)
    ensures a.builder == b.builder == builder
    ensures !IdEq(a, b)
  {
    a := NewInner(builder);
    b := NewInner(builder);
  }
}
