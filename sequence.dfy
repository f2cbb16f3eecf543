/** The current composite actions of src/sequence.rs: a `Sequence` node in
    Join, Race or Step mode drives an ordered list of child actions using the
    four-state lifecycle. Each pass reads the node's own state and its
    children's states, rewrites some children to `Cancelled`, may make the
    node terminal and, in Step mode, replaces the single live child with the
    next step. */
module Sequence {
  import opened Ecs
  import opened Lifecycle

  datatype SequenceMode = Race | Join | Step

  /** A child action node: its handle, the template it was spawned from and
      its current state. */
  datatype Child = Child(entity: Entity, template: Template, state: ActionState)

  function Entities(cs: seq<Child>): (es: seq<Entity>)
    ensures |es| == |cs|
    ensures forall i :: 0 <= i < |cs| ==> es[i] == cs[i].entity
  {
    seq(|cs|, i requires 0 <= i < |cs| => cs[i].entity)
  }

  predicate AllSuccess(cs: seq<Child>) { forall i :: 0 <= i < |cs| ==> cs[i].state == Success }
  predicate AllFailure(cs: seq<Child>) { forall i :: 0 <= i < |cs| ==> cs[i].state == Failure }
  predicate AllDone(cs: seq<Child>) { forall i :: 0 <= i < |cs| ==> cs[i].state.IsDone() }
  predicate AnySuccess(cs: seq<Child>) { exists i :: 0 <= i < |cs| && cs[i].state == Success }
  predicate AnyFailure(cs: seq<Child>) { exists i :: 0 <= i < |cs| && cs[i].state == Failure }
  predicate NoneExecuting(cs: seq<Child>) { forall i :: 0 <= i < |cs| ==> cs[i].state != Executing }

  /** `a` and `b` hold the same nodes in the same order; only states may differ. */
  predicate SameNodes(a: seq<Child>, b: seq<Child>)
  {
    |a| == |b| &&
    forall i :: 0 <= i < |a| ==> a[i].entity == b[i].entity && a[i].template == b[i].template
  }

  /** Only running children changed, and each of them only to `Cancelled`. */
  predicate OnlyRunningCancelled(before: seq<Child>, after: seq<Child>)
  {
    SameNodes(before, after) &&
    forall i :: 0 <= i < |before| ==>
      after[i] == before[i] || (before[i].state == Executing && after[i].state == Cancelled)
  }

  function CancelChild(c: Child): Child
  {
    c.(state := c.state.CancelIfExecuting())
  }

  /** Every running child asked to wind down; every other child untouched. */
  function CancelRunning(cs: seq<Child>): (r: seq<Child>)
    ensures OnlyRunningCancelled(cs, r)
    ensures NoneExecuting(r)
    ensures forall i :: 0 <= i < |cs| && cs[i].state != Executing ==> r[i] == cs[i]
  {
    seq(|cs|, i requires 0 <= i < |cs| => CancelChild(cs[i]))
  }

  /** What one pass does to a Join or Race node: its new state and children. */
  datatype Tick = Tick(state: ActionState, children: seq<Child>)

  /** One pass of `exec_join` (src/sequence.rs:132-186), stated as what it
      decides rather than how its loops get there. */
  function JoinTick(s: ActionState, cs: seq<Child>): (r: Tick)
    ensures OnlyRunningCancelled(cs, r.children)
    ensures s.IsDone() ==> r == Tick(s, cs)
    // a Join succeeds only when all children succeeded, fails only when one failed
    ensures r.state == Success && s != Success ==> AllSuccess(cs)
    ensures r.state == Failure && s != Failure ==> AnyFailure(cs)
    ensures s == Executing && AllSuccess(cs) ==> r == Tick(Success, cs)
    ensures s == Executing && AnyFailure(cs) ==> r.state == Failure && NoneExecuting(r.children)
    ensures s == Executing && !AllSuccess(cs) && !AnyFailure(cs) ==> r == Tick(Executing, cs)
    ensures s == Cancelled ==> NoneExecuting(r.children)
    ensures s == Cancelled ==> (r.state == Cancelled <==> !AllDone(cs))
    // once every child has finished, a cancelled Join reports failure if one failed
    ensures s == Cancelled && AllDone(cs) ==> r == Tick(if AnyFailure(cs) then Failure else Success, cs)
  {
    match s
    case Executing =>
      if AllSuccess(cs) then Tick(Success, cs)
      else if AnyFailure(cs) then Tick(Failure, CancelRunning(cs))
      else Tick(Executing, cs)
    case Cancelled =>
      var next := if !AllDone(cs) then Cancelled else if AnyFailure(cs) then Failure else Success;
      Tick(next, CancelRunning(cs))
    case Success => Tick(s, cs)
    case Failure => Tick(s, cs)
  }

  /** One pass of `exec_race` (src/sequence.rs:188-242). The all-failed test
      comes first, so a Race with no children fails at once. */
  function RaceTick(s: ActionState, cs: seq<Child>): (r: Tick)
    ensures OnlyRunningCancelled(cs, r.children)
    ensures s.IsDone() ==> r == Tick(s, cs)
    // a Race succeeds only when some child succeeded, fails only when all failed
    ensures r.state == Success && s != Success ==> AnySuccess(cs)
    ensures r.state == Failure && s != Failure ==> AllFailure(cs)
    ensures s == Executing && AllFailure(cs) ==> r == Tick(Failure, cs)
    ensures s == Executing && !AllFailure(cs) && AnySuccess(cs) ==>
      r.state == Success && NoneExecuting(r.children)
    ensures s == Executing && !AllFailure(cs) && !AnySuccess(cs) ==> r == Tick(Executing, cs)
    ensures s == Cancelled ==> NoneExecuting(r.children)
    ensures s == Cancelled ==> (r.state == Cancelled <==> !AllDone(cs))
    // once every child has finished, a cancelled Race reports success if one succeeded
    ensures s == Cancelled && AllDone(cs) ==> r == Tick(if AnySuccess(cs) then Success else Failure, cs)
  {
    match s
    case Executing =>
      if AllFailure(cs) then Tick(Failure, cs)
      else if AnySuccess(cs) then Tick(Success, CancelRunning(cs))
      else Tick(Executing, cs)
    case Cancelled =>
      var next := if !AllDone(cs) then Cancelled else if AnySuccess(cs) then Success else Failure;
      Tick(next, CancelRunning(cs))
    case Success => Tick(s, cs)
    case Failure => Tick(s, cs)
  }

  /** What one pass does to a Step node. */
  datatype StepTick = StepTick(state: ActionState, activeStep: nat, children: seq<Child>)

  /** One pass of `exec_step` (src/sequence.rs:244-293) on a Step node whose
      live child is `cs[0]`. Despawning a child removes it from `children`;
      the next step is spawned as `spawnAs` and appended. */
  function StepPass(s: ActionState, activeStep: nat, steps: seq<Template>, cs: seq<Child>, spawnAs: Entity): (r: StepTick)
    requires |cs| > 0 ==> activeStep < |steps|
    ensures |cs| == 0 || s.IsDone() ==> r == StepTick(s, activeStep, cs)
    // the index only ever moves forward by one and stays in range
    ensures r.activeStep == activeStep || r.activeStep == activeStep + 1
    ensures |cs| > 0 ==> r.activeStep < |steps|
    ensures r.activeStep == activeStep + 1 ==>
      s == Executing && cs[0].state == Success && r.state == Executing &&
      r.children == cs[1..] + [Child(spawnAs, steps[r.activeStep], Initial)]
    ensures r.state == Success && s != Success ==>
      cs[0].state == Success && (s == Cancelled || activeStep == |steps| - 1)
    ensures r.state == Failure && s != Failure ==> cs[0].state == Failure
    // nothing new is spawned unless a step succeeded while the node was running
    ensures |r.children| > |cs| - 1 && r.children != cs ==> r.activeStep == activeStep + 1 || s == Cancelled
    // a running node: a running or cancelled step is waited for; a finished step is
    // despawned, and the node fails, succeeds after the last step, or starts the next
    ensures |cs| > 0 && s == Executing && !cs[0].state.IsDone() ==> r == StepTick(s, activeStep, cs)
    ensures |cs| > 0 && s == Executing && cs[0].state == Failure ==> r == StepTick(Failure, activeStep, cs[1..])
    ensures |cs| > 0 && s == Executing && cs[0].state == Success && activeStep == |steps| - 1 ==>
      r == StepTick(Success, activeStep, cs[1..])
    ensures |cs| > 0 && s == Executing && cs[0].state == Success && activeStep < |steps| - 1 ==>
      r == StepTick(Executing, activeStep + 1, cs[1..] + [Child(spawnAs, steps[activeStep + 1], Initial)])
    // a cancelled node: a running step is cancelled, a finished step's outcome is
    // copied onto the node, and a cancelled step is waited for
    ensures |cs| > 0 && s == Cancelled && cs[0].state == Executing ==>
      r == StepTick(Cancelled, activeStep, [cs[0].(state := Cancelled)] + cs[1..])
    ensures |cs| > 0 && s == Cancelled && cs[0].state.IsDone() ==> r == StepTick(cs[0].state, activeStep, cs)
    ensures |cs| > 0 && s == Cancelled && cs[0].state == Cancelled ==> r == StepTick(Cancelled, activeStep, cs)
  {
    if |cs| == 0 then StepTick(s, activeStep, cs)
    else
      var active := cs[0];
      match s
      case Executing =>
        (match active.state
         case Executing => StepTick(s, activeStep, cs)
         case Cancelled => StepTick(s, activeStep, cs)
         case Success =>
           if activeStep == |steps| - 1 then StepTick(Success, activeStep, cs[1..])
           else StepTick(s, activeStep + 1, cs[1..] + [Child(spawnAs, steps[activeStep + 1], Initial)])
         case Failure => StepTick(Failure, activeStep, cs[1..]))
      case Cancelled =>
        (match active.state
         case Executing => StepTick(s, activeStep, cs[0 := CancelChild(active)])
         case Success => StepTick(Success, activeStep, cs)
         case Failure => StepTick(Failure, activeStep, cs)
         case Cancelled => StepTick(s, activeStep, cs))
      case Success => StepTick(s, activeStep, cs)
      case Failure => StepTick(s, activeStep, cs)
  }

  /** The live child of a Step node reports success, as every step of the
      A, B, Exit chain in tests/steps.rs does once it runs. */
  function SucceedLive(cs: seq<Child>): (r: seq<Child>)
    ensures |r| == |cs|
    ensures |cs| > 0 ==> r == [cs[0].(state := Success)] + cs[1..]
  {
    if |cs| == 0 then cs else cs[0 := cs[0].(state := Success)]
  }

  /** `n` rounds in which the live step succeeds and then the Step node
      takes a pass; round `j` spawns with handle `handle + j`. */
  function Rounds(t: StepTick, steps: seq<Template>, n: nat, handle: Entity): StepTick
    requires t.activeStep < |steps|
    decreases n
  {
    if n == 0 then t
    else Rounds(StepPass(t.state, t.activeStep, steps, SucceedLive(t.children), handle), steps, n - 1, handle + 1)
  }

  /** A running Step node whose steps all succeed walks through every
      remaining step in order and ends in Success with no live child. */
  lemma {:induction false} StepChainSucceeds(steps: seq<Template>, k: nat, e: Entity, handle: Entity)
    requires k < |steps|
    ensures Rounds(StepTick(Executing, k, [Child(e, steps[k], Initial)]), steps, |steps| - k, handle)
            == StepTick(Success, |steps| - 1, [])
    decreases |steps| - k
  {
    var t := StepTick(Executing, k, [Child(e, steps[k], Initial)]);
    var r := StepPass(t.state, t.activeStep, steps, SucceedLive(t.children), handle);
    if k == |steps| - 1 {
      assert r == StepTick(Success, k, []);
    } else {
      assert r == StepTick(Executing, k + 1, [Child(handle, steps[k + 1], Initial)]);
      StepChainSucceeds(steps, k + 1, handle, handle + 1);
    }
  }

  /** The children a template list spawns, one per template, in order. */
  function SpawnAll(templates: seq<Template>, handles: seq<Entity>): (cs: seq<Child>)
    requires |handles| == |templates|
    ensures |cs| == |templates|
    ensures Entities(cs) == handles
    ensures forall i :: 0 <= i < |cs| ==> cs[i].template == templates[i] && cs[i].state == Initial
  {
    seq(|templates|, i requires 0 <= i < |templates| => Child(handles[i], templates[i], Initial))
  }

  lemma SameNodesEntities(a: seq<Child>, b: seq<Child>)
    requires |a| == |b|
    requires forall k :: 0 <= k < |a| ==> b[k] == a[k] || b[k] == CancelChild(a[k])
    ensures Entities(a) == Entities(b)
    ensures forall k :: 0 <= k < |a| ==> a[k].template == b[k].template
  {
    assert forall k :: 0 <= k < |a| ==> Entities(a)[k] == Entities(b)[k];
  }

  /** After the first loop of a Join (Race) pass that met a failing
      (succeeding) child: `index` is the last such child, and exactly the
      running children after the first such child were cancelled. */
  predicate Scanned(before: seq<Child>, after: seq<Child>, index: nat, hit: ActionState)
  {
    |after| == |before| && index < |before| && before[index].state == hit &&
    (forall k :: index < k < |before| ==> before[k].state != hit) &&
    exists first :: 0 <= first <= index && before[first].state == hit &&
      (forall k :: 0 <= k < first ==> before[k].state != hit) &&
      forall k :: 0 <= k < |before| ==>
        after[k] == if first < k then CancelChild(before[k]) else before[k]
  }

  /** A live `Sequence` node: the `Sequence` component, the node's own
      `ActionState` and its `Children`. */
  class Sequence {
    const mode: SequenceMode
    const steps: seq<Template>
    var activeStep: nat
    var state: ActionState
    var children: seq<Child>

    ghost predicate Valid()
      reads this
    {
      Distinct(Entities(children)) &&
      (mode == Step ==>
        |children| <= 1 &&
        (|steps| == 0 ==> children == [] && activeStep == 0) &&
        (|steps| > 0 ==> activeStep < |steps|) &&
        (|children| == 1 ==> children[0].template == steps[activeStep]))
    }

    /** `SequenceBuilder::spawn`: Join and Race attach one child per
        template, Step only the first; `active_step` starts at 0. */
    constructor (mode: SequenceMode, templates: seq<Template>, handles: seq<Entity>)
      requires |handles| == |templates| && Distinct(handles)
      ensures Valid()
      ensures this.mode == mode && steps == templates && activeStep == 0 && state == Initial
      ensures mode != Step ==> children == SpawnAll(templates, handles)
      ensures mode == Step ==>
        children == if |templates| == 0 then [] else [Child(handles[0], templates[0], Initial)]
    {
      this.mode := mode;
      steps := templates;
      activeStep := 0;
      state := Initial;
      if mode == Step {
        children := if |templates| == 0 then [] else [Child(handles[0], templates[0], Initial)];
      } else {
        children := SpawnAll(templates, handles);
      }
    }

    /** `exec_join`: while running, the first loop records whether all
        children succeeded and the last failing index, cancelling running
        children met after a failure; then every child before the last
        failure is cancelled and the node fails. Once cancelled, the node
        waits for every child to finish. */
    method ExecJoin()
      requires Valid() && mode == Join
      modifies this`state, this`children
      ensures Valid()
      ensures Tick(state, children) == JoinTick(old(state), old(children))
    {
      ghost var cs := children;
      match state {
        case Executing =>
          var allSuccess, failedIndex := ScanJoin();
          if allSuccess {
            state := Success;
          } else if failedIndex.Some? {
            CancelBefore(failedIndex.value);
            state := Failure;
          } else {
            assert children == cs;
          }
        case Cancelled =>
          var allDone, anyOk, anyErr := CancelAll();
          if allDone && anyErr { state := Failure; }
          if allDone && !anyErr { state := Success; }
        case Success =>
        case Failure =>
      }
    }

    /** The first loop of `exec_join`. */
    method ScanJoin() returns (allSuccess: bool, failedIndex: Option<nat>)
      requires Valid()
      modifies this`children
      ensures Valid()
      ensures allSuccess == AllSuccess(old(children))
      ensures failedIndex.None? <==> !AnyFailure(old(children))
      ensures failedIndex.None? ==> children == old(children)
      ensures failedIndex.Some? ==> Scanned(old(children), children, failedIndex.value, Failure)
    {
      ghost var cs := children;
      allSuccess := true;
      failedIndex := None;
      ghost var first: nat := |cs|;
      var i := 0;
      while i < |children|
        invariant 0 <= i <= |children| == |cs|
        invariant allSuccess <==> forall k :: 0 <= k < i ==> cs[k].state == Success
        invariant first == |cs| <==> failedIndex.None?
        invariant first < |cs| ==> cs[first].state == Failure
        invariant failedIndex.None? ==> forall k :: 0 <= k < i ==> cs[k].state != Failure
        invariant forall k :: 0 <= k < i && k < first ==> cs[k].state != Failure
        invariant failedIndex.Some? ==>
          first <= failedIndex.value < i && cs[failedIndex.value].state == Failure &&
          forall k :: failedIndex.value < k < i ==> cs[k].state != Failure
        invariant forall k :: 0 <= k < |cs| ==>
          children[k] == if first < k < i then CancelChild(cs[k]) else cs[k]
      {
        var child := children[i];
        allSuccess := allSuccess && child.state.IsSuccess();
        match child.state {
          case Failure =>
            if failedIndex.None? { first := i; }
            failedIndex := Some(i);
          case Executing =>
            if failedIndex.Some? { children := children[i := child.(state := Cancelled)]; }
          case Cancelled =>
          case Success =>
        }
        i := i + 1;
      }
      if failedIndex.None? {
        assert children == cs;
      } else {
        assert 0 <= first <= failedIndex.value && cs[first].state == Failure;
      }
      SameNodesEntities(cs, children);
    }

    /** The first loop of `exec_race`. */
    method ScanRace() returns (allFailure: bool, succeedIndex: Option<nat>)
      requires Valid()
      modifies this`children
      ensures Valid()
      ensures allFailure == AllFailure(old(children))
      ensures succeedIndex.None? <==> !AnySuccess(old(children))
      ensures succeedIndex.None? ==> children == old(children)
      ensures succeedIndex.Some? ==> Scanned(old(children), children, succeedIndex.value, Success)
    {
      ghost var cs := children;
      allFailure := true;
      succeedIndex := None;
      ghost var first: nat := |cs|;
      var i := 0;
      while i < |children|
        invariant 0 <= i <= |children| == |cs|
        invariant allFailure <==> forall k :: 0 <= k < i ==> cs[k].state == Failure
        invariant first == |cs| <==> succeedIndex.None?
        invariant first < |cs| ==> cs[first].state == Success
        invariant succeedIndex.None? ==> forall k :: 0 <= k < i ==> cs[k].state != Success
        invariant forall k :: 0 <= k < i && k < first ==> cs[k].state != Success
        invariant succeedIndex.Some? ==>
          first <= succeedIndex.value < i && cs[succeedIndex.value].state == Success &&
          forall k :: succeedIndex.value < k < i ==> cs[k].state != Success
        invariant forall k :: 0 <= k < |cs| ==>
          children[k] == if first < k < i then CancelChild(cs[k]) else cs[k]
      {
        var child := children[i];
        allFailure := allFailure && child.state.IsFailure();
        match child.state {
          case Success =>
            if succeedIndex.None? { first := i; }
            succeedIndex := Some(i);
          case Executing =>
            if succeedIndex.Some? { children := children[i := child.(state := Cancelled)]; }
          case Cancelled =>
          case Failure =>
        }
        i := i + 1;
      }
      if succeedIndex.None? {
        assert children == cs;
      } else {
        assert 0 <= first <= succeedIndex.value && cs[first].state == Success;
      }
      SameNodesEntities(cs, children);
    }

    /** The second loop of `exec_join` / `exec_race`: `cancel_if_executing`
        on every child before `index`. */
    method CancelBefore(index: nat)
      requires Valid() && index < |children|
      modifies this`children
      ensures Valid()
      ensures |children| == |old(children)|
      ensures forall k :: 0 <= k < |children| ==>
        children[k] == if k < index then CancelChild(old(children)[k]) else old(children)[k]
    {
      ghost var cs := children;
      var j := 0;
      while j < index
        invariant 0 <= j <= index < |children| == |cs|
        invariant forall k :: 0 <= k < |cs| ==>
          children[k] == if k < j then CancelChild(cs[k]) else cs[k]
      {
        children := children[j := CancelChild(children[j])];
        j := j + 1;
      }
    }

    /** The loop of a cancelled Join or Race: cancel every running child and
        report whether all were done, any succeeded, any failed. */
    method CancelAll() returns (allDone: bool, anyOk: bool, anyErr: bool)
      requires Valid()
      modifies this`children
      ensures Valid()
      ensures children == CancelRunning(old(children))
      ensures allDone == AllDone(old(children))
      ensures anyOk == AnySuccess(old(children)) && anyErr == AnyFailure(old(children))
    {
      ghost var cs := children;
      anyOk, anyErr, allDone := false, false, true;
      var i := 0;
      while i < |children|
        invariant 0 <= i <= |children| == |cs|
        invariant anyOk <==> exists k :: 0 <= k < i && cs[k].state == Success
        invariant anyErr <==> exists k :: 0 <= k < i && cs[k].state == Failure
        invariant allDone <==> forall k :: 0 <= k < i ==> cs[k].state.IsDone()
        invariant forall k :: 0 <= k < |cs| ==> children[k] == if k < i then CancelChild(cs[k]) else cs[k]
      {
        var child := children[i];
        allDone := allDone && child.state.IsDone();
        match child.state {
          case Success => anyOk := true;
          case Failure => anyErr := true;
          case Executing => children := children[i := child.(state := Cancelled)];
          case Cancelled =>
        }
        i := i + 1;
      }
      assert children == CancelRunning(cs);
    }

    /** `exec_race`: the mirror image of `exec_join`, with "all failed"
        tested before "some succeeded". */
    method ExecRace()
      requires Valid() && mode == Race
      modifies this`state, this`children
      ensures Valid()
      ensures Tick(state, children) == RaceTick(old(state), old(children))
    {
      ghost var cs := children;
      match state {
        case Executing =>
          var allFailure, succeedIndex := ScanRace();
          if allFailure {
            state := Failure;
          } else if succeedIndex.Some? {
            CancelBefore(succeedIndex.value);
            state := Success;
          }
        case Cancelled =>
          var allDone, anyOk, anyErr := CancelAll();
          if allDone && anyOk { state := Success; }
          if allDone && !anyOk { state := Failure; }
        case Success =>
        case Failure =>
      }
    }

    /** `exec_step`: drives the single live child. `spawnAs` is the handle the
        entity store gives the next step if one is spawned. */
    method ExecStep(spawnAs: Entity)
      requires Valid() && mode == Step
      requires spawnAs !in Entities(children)
      modifies this`state, this`children, this`activeStep
      ensures Valid()
      ensures StepTick(state, activeStep, children) ==
              StepPass(old(state), old(activeStep), steps, old(children), spawnAs)
    {
      if |children| == 0 {
        return;
      }
      var active := children[0];
      match state {
        case Executing =>
          match active.state {
            case Executing =>
            case Cancelled =>
            case Success =>
              children := children[1..];
              if activeStep == |steps| - 1 {
                state := Success;
              } else {
                activeStep := activeStep + 1;
                children := children + [Child(spawnAs, steps[activeStep], Initial)];
              }
            case Failure =>
              children := children[1..];
              state := Failure;
          }
        case Cancelled =>
          match active.state {
            case Executing => children := children[0 := CancelChild(active)];
            case Success => state := Success;
            case Failure => state := Failure;
            case Cancelled =>
          }
        case Success =>
        case Failure =>
      }
    }

    /** One pass of `sequence_system` over this node: dispatch on the mode. */
    method Run(spawnAs: Entity)
      requires Valid()
      requires spawnAs !in Entities(children)
      modifies this`state, this`children, this`activeStep
      ensures Valid()
      ensures mode == Join ==> Tick(state, children) == JoinTick(old(state), old(children))
      ensures mode == Race ==> Tick(state, children) == RaceTick(old(state), old(children))
      ensures mode == Step ==> StepTick(state, activeStep, children) ==
                               StepPass(old(state), old(activeStep), steps, old(children), spawnAs)
      ensures mode != Step ==> activeStep == old(activeStep)
    {
      match mode
      case Join => ExecJoin();
      case Race => ExecRace();
      case Step => ExecStep(spawnAs);
    }
  }
}
