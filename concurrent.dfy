/** The older `Concurrently` composite action of src/action/concurent.rs,
    over the five-state lifecycle: all children run side by side; in Join
    mode the node succeeds when all succeed, in Race mode when one does. */
module Concurrent {
  import opened Ecs
  import opened Action

  datatype ConcurrentMode = Race | Join

  /** `ConcurrentlyBuilder`: a mode and the child templates in push order. */
  datatype ConcurrentlyBuilder = ConcurrentlyBuilder(mode: ConcurrentMode, actions: seq<Template>)
  {
    /** `push`: one more child template, after the others. */
    function Push(action: Template): (b: ConcurrentlyBuilder)
      ensures b.mode == mode && b.actions == actions + [action]
    {
      this.(actions := actions + [action])
    }

    /** `mode`: replaces the mode and keeps the templates. */
    function WithMode(m: ConcurrentMode): (b: ConcurrentlyBuilder)
      ensures b.mode == m && b.actions == actions
    {
      this.(mode := m)
    }
  }

  /** `Concurrently::build()`: Join mode, no templates. */
  function Build(): (b: ConcurrentlyBuilder)
    ensures b.mode == Join && b.actions == []
  {
    ConcurrentlyBuilder(Join, [])
  }

  /** A child action node: its handle, its template and its state. */
  datatype Child = Child(entity: Entity, template: Template, state: ActionState)

  function Entities(cs: seq<Child>): (es: seq<Entity>)
    ensures |es| == |cs|
    ensures forall i :: 0 <= i < |cs| ==> es[i] == cs[i].entity
  {
    seq(|cs|, i requires 0 <= i < |cs| => cs[i].entity)
  }

  function Templates(cs: seq<Child>): (ts: seq<Template>)
    ensures |ts| == |cs|
    ensures forall i :: 0 <= i < |cs| ==> ts[i] == cs[i].template
  {
    seq(|cs|, i requires 0 <= i < |cs| => cs[i].template)
  }

  predicate AllIn(cs: seq<Child>, st: ActionState) { forall i :: 0 <= i < |cs| ==> cs[i].state == st }
  predicate AnyIn(cs: seq<Child>, st: ActionState) { exists i :: 0 <= i < |cs| && cs[i].state == st }
  predicate AllDone(cs: seq<Child>) { forall i :: 0 <= i < |cs| ==> cs[i].state.IsDone() }
  predicate NoneRunning(cs: seq<Child>) { forall i :: 0 <= i < |cs| ==> !cs[i].state.IsRunning() }

  /** Same nodes in the same order; only states may differ. */
  predicate SameNodes(a: seq<Child>, b: seq<Child>)
  {
    |a| == |b| &&
    forall i :: 0 <= i < |a| ==> a[i].entity == b[i].entity && a[i].template == b[i].template
  }

  /** Only running (Requested or Executing) children changed, each to Cancelled. */
  predicate OnlyRunningCancelled(before: seq<Child>, after: seq<Child>)
  {
    SameNodes(before, after) &&
    forall i :: 0 <= i < |before| ==>
      after[i] == before[i] || (before[i].state.IsRunning() && after[i].state == Cancelled)
  }

  function CancelChild(c: Child): Child
  {
    c.(state := c.state.CancelIfRunning())
  }

  function CancelRunning(cs: seq<Child>): (r: seq<Child>)
    ensures OnlyRunningCancelled(cs, r)
    ensures NoneRunning(r)
  {
    seq(|cs|, i requires 0 <= i < |cs| => CancelChild(cs[i]))
  }

  /** Every child `request`ed. */
  function RequestAll(cs: seq<Child>): (r: seq<Child>)
    ensures SameNodes(cs, r) && AllIn(r, Requested)
  {
    seq(|cs|, i requires 0 <= i < |cs| => cs[i].(state := Requested))
  }

  datatype Tick = Tick(state: ActionState, children: seq<Child>)

  /** One pass of `exec_join` (src/action/concurent.rs:116-169). */
  function JoinTick(s: ActionState, cs: seq<Child>): (r: Tick)
    ensures SameNodes(cs, r.children)
    ensures s.IsDone() ==> r == Tick(s, cs)
    ensures s == Requested ==> r == Tick(Requested, RequestAll(cs))
    ensures s != Requested ==> OnlyRunningCancelled(cs, r.children)
    // the node succeeds only when all children succeeded, fails only when one failed
    ensures r.state == Success && s != Success ==> AllIn(cs, Success)
    ensures r.state == Failure && s != Failure ==> AnyIn(cs, Failure)
    ensures s == Executing && AllIn(cs, Success) ==> r == Tick(Success, cs)
    ensures s == Executing && AnyIn(cs, Failure) ==> r.state == Failure && NoneRunning(r.children)
    ensures s == Executing && !AllIn(cs, Success) && !AnyIn(cs, Failure) ==> r == Tick(Executing, cs)
    ensures s == Cancelled ==> NoneRunning(r.children)
    ensures s == Cancelled ==> (r.state == Cancelled <==> !AllDone(cs))
    // once every child has finished, a cancelled Join reports failure if one failed
    ensures s == Cancelled && AllDone(cs) ==> r == Tick(if AnyIn(cs, Failure) then Failure else Success, cs)
  {
    match s
    case Requested => Tick(Requested.Execute(), RequestAll(cs))
    case Executing =>
      if AllIn(cs, Success) then Tick(Success, cs)
      else if AnyIn(cs, Failure) then Tick(Failure, CancelRunning(cs))
      else Tick(Executing, cs)
    case Cancelled =>
      var next := if !AllDone(cs) then Cancelled else if AnyIn(cs, Failure) then Failure else Success;
      Tick(next, CancelRunning(cs))
    case Success => Tick(s, cs)
    case Failure => Tick(s, cs)
  }

  /** One pass of `exec_race` (src/action/concurent.rs:171-224). The
      all-failed test comes first, so a Race with no children fails. */
  function RaceTick(s: ActionState, cs: seq<Child>): (r: Tick)
    ensures SameNodes(cs, r.children)
    ensures s.IsDone() ==> r == Tick(s, cs)
    ensures s == Requested ==> r == Tick(Requested, RequestAll(cs))
    ensures s != Requested ==> OnlyRunningCancelled(cs, r.children)
    // the node succeeds only when some child succeeded, fails only when all failed
    ensures r.state == Success && s != Success ==> AnyIn(cs, Success)
    ensures r.state == Failure && s != Failure ==> AllIn(cs, Failure) || (s == Cancelled && AllDone(cs))
    ensures s == Executing && AllIn(cs, Failure) ==> r == Tick(Failure, cs)
    ensures s == Executing && !AllIn(cs, Failure) && AnyIn(cs, Success) ==>
      r.state == Success && NoneRunning(r.children)
    ensures s == Executing && !AllIn(cs, Failure) && !AnyIn(cs, Success) ==> r == Tick(Executing, cs)
    ensures s == Cancelled ==> NoneRunning(r.children)
    ensures s == Cancelled ==> (r.state == Cancelled <==> !AllDone(cs))
    // once every child has finished, a cancelled Race reports success if one succeeded
    ensures s == Cancelled && AllDone(cs) ==> r == Tick(if AnyIn(cs, Success) then Success else Failure, cs)
  {
    match s
    case Requested => Tick(Requested.Execute(), RequestAll(cs))
    case Executing =>
      if AllIn(cs, Failure) then Tick(Failure, cs)
      else if AnyIn(cs, Success) then Tick(Success, CancelRunning(cs))
      else Tick(Executing, cs)
    case Cancelled =>
      var next := if !AllDone(cs) then Cancelled else if AnyIn(cs, Success) then Success else Failure;
      Tick(next, CancelRunning(cs))
    case Success => Tick(s, cs)
    case Failure => Tick(s, cs)
  }

  /** A requested `Concurrently` node stays requested however many passes
      run, since `execute` stores `Requested`; its children are re-requested
      on every pass. */
  lemma {:induction false} RequestedNeverStarts(mode: ConcurrentMode, cs: seq<Child>, passes: nat)
    ensures Passes(mode, Tick(Requested, cs), passes).state == Requested
    ensures passes > 0 ==> Passes(mode, Tick(Requested, cs), passes).children == RequestAll(cs)
    decreases passes
  {
    if passes > 0 {
      var t := PassOf(mode, Tick(Requested, cs));
      RequestedNeverStarts(mode, t.children, passes - 1);
      if passes > 1 {
        assert RequestAll(RequestAll(cs)) == RequestAll(cs);
      }
    }
  }

  function PassOf(mode: ConcurrentMode, t: Tick): Tick
  {
    match mode
    case Join => JoinTick(t.state, t.children)
    case Race => RaceTick(t.state, t.children)
  }

  /** `passes` consecutive passes of `concurrent_system` on one node. */
  function Passes(mode: ConcurrentMode, t: Tick, passes: nat): Tick
    decreases passes
  {
    if passes == 0 then t else Passes(mode, PassOf(mode, t), passes - 1)
  }

  /** A live `Concurrently` node: its mode, its own state and its children. */
  class Concurrently {
    const mode: ConcurrentMode
    var state: ActionState
    var children: seq<Child>

    ghost predicate Valid()
      reads this
    {
      Distinct(Entities(children))
    }

    /** `ConcurrentlyBuilder::spawn`: one child per template in push order,
        spawned with the default state, under a parent with the default
        state. `handles` are the entities the store hands out. */
    constructor (b: ConcurrentlyBuilder, handles: seq<Entity>)
      requires |handles| == |b.actions| && Distinct(handles)
      ensures Valid()
      ensures mode == b.mode && state == Default
      ensures Entities(children) == handles && Templates(children) == b.actions
      ensures AllIn(children, Default)
    {
      mode := b.mode;
      state := Default;
      children := seq(|b.actions|, i requires 0 <= i < |b.actions| => Child(handles[i], b.actions[i], Default));
    }

    /** One pass of `concurrent_system` on this node. */
    method Run()
      requires Valid()
      modifies this`state, this`children
      ensures Valid()
      ensures Tick(state, children) == PassOf(mode, Tick(old(state), old(children)))
    {
      match mode {
        case Join => ExecJoin();
        case Race => ExecRace();
      }
    }

    method ExecJoin()
      requires Valid()
      modifies this`state, this`children
      ensures Valid()
      ensures Tick(state, children) == JoinTick(old(state), old(children))
    {
      ghost var cs := children;
      match state {
        case Requested =>
          RequestEach();
          state := state.Execute();
        case Executing =>
          var allSuccess, failedIndex := Scan(Success, Failure);
          if allSuccess {
            state := Success;
          } else if failedIndex.Some? {
            CancelBefore(failedIndex.value);
            state := state.DoneFailure();
          }
        case Cancelled =>
          var allDone, anyErr := CancelAll(Success, Failure);
          if allDone {
            state := anyErr;
          }
        case Success =>
        case Failure =>
      }
    }

    method ExecRace()
      requires Valid()
      modifies this`state, this`children
      ensures Valid()
      ensures Tick(state, children) == RaceTick(old(state), old(children))
    {
      ghost var cs := children;
      match state {
        case Requested =>
          RequestEach();
          state := state.Execute();
        case Executing =>
          var allFailure, succeedIndex := Scan(Failure, Success);
          if allFailure {
            state := Failure;
          } else if succeedIndex.Some? {
            CancelBefore(succeedIndex.value);
            state := state.DoneSuccess();
          }
        case Cancelled =>
          var allDone, anyOk := CancelAll(Failure, Success);
          if allDone {
            state := anyOk;
          }
        case Success =>
        case Failure =>
      }
    }

    /** The Requested branch's loop: `request` on every child. */
    method RequestEach()
      requires Valid()
      modifies this`children
      ensures Valid()
      ensures children == RequestAll(old(children))
    {
      ghost var cs := children;
      var i := 0;
      while i < |children|
        invariant 0 <= i <= |children| == |cs|
        invariant forall k :: 0 <= k < |cs| ==>
          children[k] == if k < i then cs[k].(state := Requested) else cs[k]
      {
        children := children[i := children[i].(state := children[i].state.Request())];
        i := i + 1;
      }
      assert children == RequestAll(cs);
      SameNodesEntities(cs, children);
    }

    /** The Executing branch's first loop. It records whether every child is
        in state `all` and the last index of a child in state `hit`, and
        cancels running children met after a `hit` child. Join passes
        (Success, Failure), Race (Failure, Success). */
    method Scan(all: ActionState, hit: ActionState) returns (allAre: bool, hitIndex: Option<nat>)
      requires Valid() && all != hit && hit.IsDone()
      modifies this`children
      ensures Valid()
      ensures allAre == AllIn(old(children), all)
      ensures hitIndex.None? <==> !AnyIn(old(children), hit)
      ensures hitIndex.None? ==> children == old(children)
      ensures hitIndex.Some? ==> Scanned(old(children), children, hitIndex.value, hit)
    {
      ghost var cs := children;
      allAre := true;
      hitIndex := None;
      ghost var first: nat := |cs|;
      var i := 0;
      while i < |children|
        invariant 0 <= i <= |children| == |cs|
        invariant allAre <==> forall k :: 0 <= k < i ==> cs[k].state == all
        invariant first == |cs| <==> hitIndex.None?
        invariant first < |cs| ==> cs[first].state == hit
        invariant hitIndex.None? ==> forall k :: 0 <= k < i ==> cs[k].state != hit
        invariant forall k :: 0 <= k < i && k < first ==> cs[k].state != hit
        invariant hitIndex.Some? ==>
          first <= hitIndex.value < i && cs[hitIndex.value].state == hit &&
          forall k :: hitIndex.value < k < i ==> cs[k].state != hit
        invariant forall k :: 0 <= k < |cs| ==>
          children[k] == if first < k < i then CancelChild(cs[k]) else cs[k]
      {
        var child := children[i];
        allAre := allAre && child.state == all;
        if child.state == hit {
          if hitIndex.None? { first := i; }
          hitIndex := Some(i);
        } else if child.state.IsRunning() && hitIndex.Some? {
          children := children[i := child.(state := child.state.Cancel())];
        }
        i := i + 1;
      }
      if hitIndex.None? {
        assert children == cs;
      } else {
        assert 0 <= first <= hitIndex.value && cs[first].state == hit;
      }
      SameNodesEntities(cs, children);
    }

    /** The Executing branch's second loop: `cancel_if_running` on every
        child before `index`. */
    method CancelBefore(index: nat)
      requires Valid() && index < |children|
      modifies this`children
      ensures Valid()
      ensures |children| == |old(children)|
      ensures forall k :: 0 <= k < |children| ==>
        children[k] == if k < index then CancelChild(old(children)[k]) else old(children)[k]
    {
      ghost var cs := children;
      var j := 0;
      while j < index
        invariant 0 <= j <= index < |children| == |cs|
        invariant forall k :: 0 <= k < |cs| ==>
          children[k] == if k < j then CancelChild(cs[k]) else cs[k]
      {
        children := children[j := CancelChild(children[j])];
        j := j + 1;
      }
      SameNodesEntities(cs, children);
    }

    /** The Cancelled branch's loop: cancels running children and returns
        whether all were done, together with `found` if some child was in
        state `found` and `otherwise` if none was. Join passes
        (Success, Failure), Race (Failure, Success). */
    method CancelAll(otherwise: ActionState, found: ActionState) returns (allDone: bool, outcome: ActionState)
      requires Valid() && found.IsDone()
      modifies this`children
      ensures Valid()
      ensures children == CancelRunning(old(children))
      ensures allDone == AllDone(old(children))
      ensures outcome == if AnyIn(old(children), found) then found else otherwise
    {
      ghost var cs := children;
      outcome, allDone := otherwise, true;
      var i := 0;
      while i < |children|
        invariant 0 <= i <= |children| == |cs|
        invariant outcome == if exists k :: 0 <= k < i && cs[k].state == found then found else otherwise
        invariant allDone <==> forall k :: 0 <= k < i ==> cs[k].state.IsDone()
        invariant forall k :: 0 <= k < |cs| ==> children[k] == if k < i then CancelChild(cs[k]) else cs[k]
      {
        var child := children[i];
        allDone := allDone && child.state.IsDone();
        if child.state == found {
          outcome := found;
        } else if child.state.IsRunning() {
          children := children[i := child.(state := child.state.Cancel())];
        }
        i := i + 1;
      }
      assert children == CancelRunning(cs);
      SameNodesEntities(cs, children);
    }
  }

  lemma SameNodesEntities(a: seq<Child>, b: seq<Child>)
    requires SameNodes(a, b)
    ensures Entities(a) == Entities(b)
  {
    assert forall k :: 0 <= k < |a| ==> Entities(a)[k] == Entities(b)[k];
  }

  /** After the Executing branch's first loop met a `hit` child: `index` is
      the last such child, and exactly the running children after the first
      such child were cancelled. */
  predicate Scanned(before: seq<Child>, after: seq<Child>, index: nat, hit: ActionState)
  {
    |after| == |before| && index < |before| && before[index].state == hit &&
    (forall k :: index < k < |before| ==> before[k].state != hit) &&
    exists first :: 0 <= first <= index && before[first].state == hit &&
      (forall k :: 0 <= k < first ==> before[k].state != hit) &&
      forall k :: 0 <= k < |before| ==>
        after[k] == if first < k then CancelChild(before[k]) else before[k]
  }
}
