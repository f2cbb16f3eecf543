/** The older `Steps` composite action of src/action/steps.rs, over the
    five-state lifecycle: its steps run one at a time, each started only
    after the previous one succeeded. Despawning and spawning go through
    deferred commands, which each pass returns. */
module Steps {
  import opened Ecs
  import opened Action

  /** `StepsBuilder`: the step templates in order. */
  datatype StepsBuilder = StepsBuilder(steps: seq<Template>)
  {
    /** `step`: one more step, after the others. */
    function Step(action: Template): (b: StepsBuilder)
      ensures b.steps == steps + [action]
    {
      StepsBuilder(steps + [action])
    }
  }

  /** `Steps::build()`: no steps. */
  function Build(): (b: StepsBuilder)
    ensures b.steps == []
  {
    StepsBuilder([])
  }

  /** The live step: its handle, its template and its state. */
  datatype Child = Child(entity: Entity, template: Template, state: ActionState)

  /** What one pass does to a `Steps` node: its own state, its step index,
      its live step and the commands it issued. */
  datatype Outcome = Outcome(state: ActionState, activeIndex: nat, active: Child, cmds: seq<Command>)

  /** One pass of `steps_system` (src/action/steps.rs:85-138) on one node.
      `spawnAs` is the handle the store gives a newly spawned step. */
  function StepsPass(s: ActionState, activeIndex: nat, active: Child, steps: seq<Template>,
                     actor: Entity, spawnAs: Entity): (r: Outcome)
    requires activeIndex < |steps|
    ensures r.activeIndex < |steps|
    ensures s.IsDone() ==> r == Outcome(s, activeIndex, active, [])
    ensures s == Requested ==> r == Outcome(Executing, activeIndex, active.(state := Requested), [])
    // only a succeeded step that is not the last moves the index, by one
    ensures r.activeIndex != activeIndex ==>
      s == Executing && active.state == Success && activeIndex < |steps| - 1 &&
      r.activeIndex == activeIndex + 1 && r.state == Executing &&
      r.active == Child(spawnAs, steps[r.activeIndex], Default) &&
      r.cmds == [Despawn(active.entity), Spawn(steps[r.activeIndex], actor, spawnAs)]
    // the node turns terminal only by copying a terminal step's state
    ensures r.state.IsDone() && !s.IsDone() ==> r.state == active.state
    ensures r.state == Success && !s.IsDone() ==> s == Cancelled || activeIndex == |steps| - 1
    // a step is despawned exactly when it finished while the node was executing
    ensures r.cmds != [] <==> s == Executing && active.state.IsDone()
    ensures s == Executing && active.state == Failure ==>
      r == Outcome(Failure, activeIndex, active, [Despawn(active.entity)])
    ensures s == Executing && !active.state.IsDone() ==> r == Outcome(s, activeIndex, active, [])
    ensures s == Cancelled ==> r.cmds == [] && r.activeIndex == activeIndex && !r.active.state.IsRunning()
    ensures s == Cancelled && active.state.IsRunning() ==> r.state == Cancelled && r.active.state == Cancelled
    // a succeeded step is despawned; after the last one the node succeeds,
    // otherwise the next step is spawned for the same actor
    ensures s == Executing && active.state == Success && activeIndex == |steps| - 1 ==>
      r == Outcome(Success, activeIndex, active, [Despawn(active.entity)])
    ensures s == Executing && active.state == Success && activeIndex < |steps| - 1 ==>
      r == Outcome(Executing, activeIndex + 1, Child(spawnAs, steps[activeIndex + 1], Default),
                   [Despawn(active.entity), Spawn(steps[activeIndex + 1], actor, spawnAs)])
    // a cancelled node cancels a running step, copies a finished step's
    // outcome and waits on a cancelled one
    ensures s == Cancelled && active.state.IsRunning() ==>
      r == Outcome(Cancelled, activeIndex, active.(state := Cancelled), [])
    ensures s == Cancelled && active.state.IsDone() ==> r == Outcome(active.state, activeIndex, active, [])
    ensures s == Cancelled && active.state == Cancelled ==> r == Outcome(Cancelled, activeIndex, active, [])
  {
    match s
    case Success => Outcome(s, activeIndex, active, [])
    case Failure => Outcome(s, activeIndex, active, [])
    case Requested => Outcome(Executing, activeIndex, active.(state := Requested), [])
    case Executing =>
      (match active.state
       case Requested => Outcome(s, activeIndex, active, [])
       case Executing => Outcome(s, activeIndex, active, [])
       case Cancelled => Outcome(s, activeIndex, active, [])
       case Success =>
         if activeIndex == |steps| - 1 then
           Outcome(active.state, activeIndex, active, [Despawn(active.entity)])
         else
           var next := Child(spawnAs, steps[activeIndex + 1], Default);
           Outcome(s, activeIndex + 1, next, [Despawn(active.entity), Spawn(next.template, actor, spawnAs)])
       case Failure => Outcome(active.state, activeIndex, active, [Despawn(active.entity)]))
    case Cancelled =>
      (match active.state
       case Requested => Outcome(s, activeIndex, active.(state := Cancelled), [])
       case Executing => Outcome(s, activeIndex, active.(state := Cancelled), [])
       case Success => Outcome(active.state, activeIndex, active, [])
       case Failure => Outcome(active.state, activeIndex, active, [])
       case Cancelled => Outcome(s, activeIndex, active, []))
  }

  /** A `Steps` node: the component `Steps` together with the node's own
      `ActionState` and the state of its live step. */
  class Steps {
    const actor: Entity
    const self: Entity
    const steps: seq<Template>
    var activeIndex: nat
    var active: Child
    var state: ActionState

    ghost predicate Valid()
      reads this
    {
      activeIndex < |steps| && active.template == steps[activeIndex]
    }

    /** The node a `StepsBuilder` with at least one step spawns: the first
        step as its live child, index 0, both in the default state. */
    constructor (b: StepsBuilder, actor: Entity, self: Entity, first: Entity)
      requires |b.steps| > 0
      ensures Valid()
      ensures this.actor == actor && this.self == self && steps == b.steps
      ensures activeIndex == 0 && active == Child(first, b.steps[0], Default) && state == Default
    {
      this.actor := actor;
      this.self := self;
      steps := b.steps;
      activeIndex := 0;
      active := Child(first, b.steps[0], Default);
      state := Default;
    }

    /** One pass of `steps_system` on this node. */
    method Run(spawnAs: Entity) returns (cmds: seq<Command>)
      requires Valid()
      modifies this`activeIndex, this`active, this`state
      ensures Valid()
      ensures Outcome(state, activeIndex, active, cmds) ==
              StepsPass(old(state), old(activeIndex), old(active), steps, actor, spawnAs)
    {
      cmds := [];
      match state {
        case Success =>
        case Failure =>
        case Requested =>
          active := active.(state := Requested);
          state := Executing;
        case Executing =>
          var stepState := active.state;
          match stepState {
            case Requested =>
            case Executing =>
            case Cancelled =>
            case Success =>
              cmds := cmds + [Despawn(active.entity)];
              if activeIndex == |steps| - 1 {
                state := stepState;
              } else {
                activeIndex := activeIndex + 1;
                active := Child(spawnAs, steps[activeIndex], Default);
                cmds := cmds + [Spawn(steps[activeIndex], actor, spawnAs)];
              }
            case Failure =>
              cmds := cmds + [Despawn(active.entity)];
              state := stepState;
          }
        case Cancelled =>
          match active.state {
            case Requested => active := active.(state := Cancelled);
            case Executing => active := active.(state := Cancelled);
            case Success => state := active.state;
            case Failure => state := active.state;
            case Cancelled =>
          }
      }
    }
  }

  /** `StepsBuilder::spawn`: the node's own entity always, with a `Steps`
      component (and so a system driving it) only when there is a step. */
  method SpawnSteps(b: StepsBuilder, actor: Entity, self: Entity, first: Entity) returns (node: Steps?)
    ensures (node == null) <==> |b.steps| == 0
    ensures node != null ==>
      fresh(node) && node.Valid() && node.steps == b.steps && node.activeIndex == 0 &&
      node.active == Child(first, b.steps[0], Default) && node.state == Default
  {
    if |b.steps| == 0 {
      node := null;
    } else {
      node := new Steps(b, actor, self, first);
    }
  }
}
