/** The thinker of src/thinker.rs: per actor, at most one current action,
    a FIFO queue of scheduled templates, and a picker over scored choices.
    One pass of `thinker_system` waits for the current action to finish,
    despawns it, and starts the next one: the front of the queue, else the
    picker's choice, else the fallback. */
module Thinker {
  import opened Ecs
  import opened Lifecycle
  import opened Pickers

  /** `ChoiceBuilder`: a scorer template (`when`) paired with an action
      template (`then`). */
  datatype ChoiceBuilder = ChoiceBuilder(scorer: Template, action: Template)

  /** `ThinkerBuilder`: a picker, an optional fallback (`idle`) and the
      choices in the order they were added. */
  datatype ThinkerBuilder = ThinkerBuilder(picker: Picker, idle: Option<Template>, choices: seq<ChoiceBuilder>)
  {
    /** `when`: one more choice, after the others. */
    function When(scorer: Template, action: Template): (b: ThinkerBuilder)
      ensures b.picker == picker && b.idle == idle && b.choices == choices + [ChoiceBuilder(scorer, action)]
    {
      this.(choices := choices + [ChoiceBuilder(scorer, action)])
    }

    /** `otherwise`: sets (or replaces) the fallback. */
    function Otherwise(otherwise: Template): (b: ThinkerBuilder)
      ensures b.picker == picker && b.choices == choices && b.idle == Some(otherwise)
    {
      this.(idle := Some(otherwise))
    }
  }

  /** `ThinkerBuilder::new`: no fallback and no choices. */
  function Build(picker: Picker): (b: ThinkerBuilder)
    ensures b.picker == picker && b.idle == None && b.choices == []
  {
    ThinkerBuilder(picker, None, [])
  }

  /** The parts of a thinker one pass changes. */
  datatype Brain = Brain(current: Option<Entity>, scheduled: seq<Template>)

  /** The parts of a thinker no pass changes. */
  datatype Config = Config(actor: Entity, picker: Picker, otherwise: Option<Template>, choices: seq<Choice>)

  /** The state of the current action can be read. */
  predicate CurrentKnown(b: Brain, states: map<Entity, ActionState>)
  {
    b.current.Some? ==> b.current.value in states
  }

  /** The current action, if any, has finished. */
  predicate Idle(b: Brain, states: map<Entity, ActionState>)
    requires CurrentKnown(b, states)
  {
    b.current.None? || states[b.current.value].IsDone()
  }

  /** The picker is consulted only when idle with an empty queue; then it
      must find every choice's score. */
  predicate CanPick(c: Config, b: Brain, states: map<Entity, ActionState>, scores: map<Entity, real>)
  {
    CurrentKnown(b, states) &&
    (Idle(b, states) && |b.scheduled| == 0 ==> AllScored(c.choices, scores))
  }

  /** The template a pass starts, by priority: queue, picker, fallback. */
  function NextAction(c: Config, scheduled: seq<Template>, scores: map<Entity, real>): (r: Option<Template>)
    requires |scheduled| == 0 ==> AllScored(c.choices, scores)
    ensures |scheduled| > 0 ==> r == Some(scheduled[0])
    ensures |scheduled| == 0 && Pick(c.picker, c.choices, scores).Some? ==>
      r == Some(c.choices[Pick(c.picker, c.choices, scores).value].action)
    ensures |scheduled| == 0 && Pick(c.picker, c.choices, scores).None? ==> r == c.otherwise
  {
    if |scheduled| > 0 then Some(scheduled[0])
    else
      match Pick(c.picker, c.choices, scores)
      case Some(i) => Some(c.choices[i].action)
      case None => c.otherwise
  }

  /** What one pass does: the new brain and the commands issued. */
  datatype Pass = Pass(brain: Brain, cmds: seq<Command>)

  /** One pass of `thinker_system` (src/thinker.rs:223-244) for one
      thinker. `spawnAs` is the handle a newly spawned action gets. */
  function ThinkPass(c: Config, b: Brain, states: map<Entity, ActionState>, scores: map<Entity, real>,
                     spawnAs: Entity): (r: Pass)
    requires CanPick(c, b, states, scores)
    // a running current action is left alone: nothing is popped, picked or spawned
    ensures !Idle(b, states) ==> r == Pass(b, [])
    // a finished current action is despawned before anything new starts
    ensures Idle(b, states) && b.current.Some? ==> |r.cmds| >= 1 && r.cmds[0] == Despawn(b.current.value)
    // the queue loses at most its front
    ensures r.brain.scheduled == b.scheduled || (|b.scheduled| > 0 && r.brain.scheduled == b.scheduled[1..])
    ensures Idle(b, states) && |b.scheduled| > 0 ==> r.brain.scheduled == b.scheduled[1..]
    // a chosen action is spawned for the actor and becomes current; otherwise there is none
    ensures Idle(b, states) ==>
      var next := NextAction(c, b.scheduled, scores);
      (next.Some? ==> r.brain.current == Some(spawnAs) && |r.cmds| >= 1 && r.cmds[|r.cmds| - 1] == Spawn(next.value, c.actor, spawnAs)) &&
      (next.None? ==> r.brain.current == None)
    // the only commands are that one despawn and that one spawn
    ensures |r.cmds| <= 2
    ensures forall i :: 0 <= i < |r.cmds| && r.cmds[i].Despawn? ==> i == 0 && Some(r.cmds[i].entity) == b.current
    // exactly: despawn the finished action if any, then spawn the next one if any
    ensures Idle(b, states) ==>
      var next := NextAction(c, b.scheduled, scores);
      r.cmds == (if b.current.Some? then [Despawn(b.current.value)] else []) +
                (if next.Some? then [Spawn(next.value, c.actor, spawnAs)] else [])
  {
    if !Idle(b, states) then Pass(b, [])
    else
      var despawn := if b.current.Some? then [Despawn(b.current.value)] else [];
      var rest := if |b.scheduled| > 0 then b.scheduled[1..] else b.scheduled;
      match NextAction(c, b.scheduled, scores)
      case Some(t) => Pass(Brain(Some(spawnAs), rest), despawn + [Spawn(t, c.actor, spawnAs)])
      case None => Pass(Brain(None, rest), despawn)
  }

  /** Passes in which every action the thinker starts finishes before the
      next pass; pass `j` spawns with handle `handle + j`. Returns the brain
      and the templates started, in order. */
  function Passes(c: Config, b: Brain, n: nat, handle: Entity): (Brain, seq<Template>)
    requires |b.scheduled| >= n
    decreases n
  {
    if n == 0 then (b, [])
    else
      var states := if b.current.Some? then map[b.current.value := Success] else map[];
      var p := ThinkPass(c, b, states, map[], handle);
      var rest := Passes(c, p.brain, n - 1, handle + 1);
      (rest.0, [p.cmds[|p.cmds| - 1].template] + rest.1)
  }

  /** The queue is first in, first out: while it is not empty, each pass
      in which the previous action has finished starts its front element. */
  lemma {:induction false} ScheduledRunInOrder(c: Config, b: Brain, n: nat, handle: Entity)
    requires |b.scheduled| >= n
    ensures Passes(c, b, n, handle).1 == b.scheduled[..n]
    ensures Passes(c, b, n, handle).0.scheduled == b.scheduled[n..]
    decreases n
  {
    if n > 0 {
      var states := if b.current.Some? then map[b.current.value := Success] else map[];
      var p := ThinkPass(c, b, states, map[], handle);
      assert p.cmds[|p.cmds| - 1] == Spawn(b.scheduled[0], c.actor, handle);
      ScheduledRunInOrder(c, p.brain, n - 1, handle + 1);
      assert b.scheduled[..n] == [b.scheduled[0]] + b.scheduled[1..][..n - 1];
      assert b.scheduled[n..] == b.scheduled[1..][n - 1..];
    }
  }

  /** The `Thinker` component of one thinker entity. */
  class Thinker {
    const actor: Entity
    const picker: Picker
    const otherwise: Option<Template>
    const choices: seq<Choice>
    var current: Option<Entity>
    var scheduled: seq<Template>

    function Cfg(): Config
      reads {}
    {
      Config(actor, picker, otherwise, choices)
    }

    /** The thinker `thinker_component_attach_system` inserts: one choice
        per choice builder, in order, each with the scorer spawned for it;
        nothing current and nothing scheduled. */
    constructor (b: ThinkerBuilder, actor: Entity, scorers: seq<Entity>)
      requires |scorers| == |b.choices|
      ensures this.actor == actor && picker == b.picker && otherwise == b.idle
      ensures |choices| == |b.choices|
      ensures forall i :: 0 <= i < |choices| ==> choices[i] == Choice(scorers[i], b.choices[i].action)
      ensures Cfg() == ConfigFor(b, actor, scorers)
      ensures current == None && scheduled == []
    {
      this.actor := actor;
      picker := b.picker;
      otherwise := b.idle;
      choices := seq(|b.choices|, i requires 0 <= i < |b.choices| => Choice(scorers[i], b.choices[i].action));
      current := None;
      scheduled := [];
    }

    /** `schedule`: appends at the back of the queue. */
    method Schedule(action: Template)
      modifies this`scheduled
      ensures scheduled == old(scheduled) + [action]
    {
      scheduled := scheduled + [action];
    }

    /** `has_scheduled`. */
    function HasScheduled(): (r: bool)
      reads this
      ensures r <==> |scheduled| > 0
    {
      !(|scheduled| == 0)
    }

    /** One pass of `thinker_system` for this thinker. It reads action
        states and scores and changes neither. */
    method Think(states: map<Entity, ActionState>, scores: map<Entity, real>, spawnAs: Entity)
      returns (cmds: seq<Command>)
      requires CanPick(Cfg(), Brain(current, scheduled), states, scores)
      modifies this`current, this`scheduled
      ensures Pass(Brain(current, scheduled), cmds) ==
              ThinkPass(Cfg(), Brain(old(current), old(scheduled)), states, scores, spawnAs)
    {
      cmds := [];
      if current.Some? {
        if states[current.value].IsDone() {
          cmds := cmds + [Despawn(current.value)];
          current := None;
        } else {
          return;
        }
      }
      var next: Option<Template> := None;
      if |scheduled| > 0 {
        next := Some(scheduled[0]);
        scheduled := scheduled[1..];
      }
      if next.None? {
        var picked := Pick(picker, choices, scores);
        if picked.Some? {
          next := Some(choices[picked.value].action);
        }
      }
      if next.None? {
        next := otherwise;
      }
      if next.Some? {
        cmds := cmds + [Spawn(next.value, actor, spawnAs)];
        current := Some(spawnAs);
      }
    }
  }

  /** An entity that may carry a `ThinkerBuilder` and a `HasThinker`. */
  datatype ActorRecord = ActorRecord(entity: Entity, builder: Option<ThinkerBuilder>, hasThinker: Option<Entity>)

  /** The configuration of the thinker built from `b` for `actor`, whose
      choice `i` is scored by the scorer spawned as `scorers[i]`. */
  function ConfigFor(b: ThinkerBuilder, actor: Entity, scorers: seq<Entity>): (c: Config)
    requires |scorers| == |b.choices|
    ensures c.actor == actor && c.picker == b.picker && c.otherwise == b.idle
    ensures |c.choices| == |b.choices|
    ensures forall i :: 0 <= i < |c.choices| ==> c.choices[i] == Choice(scorers[i], b.choices[i].action)
  {
    Config(actor, b.picker, b.idle, seq(|b.choices|, i requires 0 <= i < |b.choices| => Choice(scorers[i], b.choices[i].action)))
  }

  /** An actor the attach system equips: it carries a builder and no `HasThinker`. */
  predicate NeedsThinker(a: ActorRecord)
  {
    a.builder.Some? && a.hasThinker.None?
  }

  /** Every equipped actor has one scorer handle per choice builder. */
  predicate ScorersFit(actors: seq<ActorRecord>, scorerHandles: seq<seq<Entity>>)
  {
    |actors| == |scorerHandles| &&
    forall i :: 0 <= i < |actors| && actors[i].builder.Some? ==>
      |scorerHandles[i]| == |actors[i].builder.value.choices|
  }

  /** A thinker entity the attach system spawns: its handle and the
      configuration of the `Thinker` it carries. */
  datatype Attachment = Attachment(handle: Entity, config: Config)

  /** The thinkers attached to the first `n` actors, in actor order: one
      for each actor that needs one, under that actor's handle, and no other. */
  function Attached(actors: seq<ActorRecord>, handles: seq<Entity>, scorerHandles: seq<seq<Entity>>, n: nat): (r: seq<Attachment>)
    requires |handles| == |actors| && ScorersFit(actors, scorerHandles) && n <= |actors|
    ensures |r| <= n
    ensures forall t :: t in r <==>
      (exists i :: 0 <= i < n && NeedsThinker(actors[i]) &&
                   t == Attachment(handles[i], ConfigFor(actors[i].builder.value, actors[i].entity, scorerHandles[i])))
    decreases n
  {
    if n == 0 then []
    else
      var a := actors[n - 1];
      Attached(actors, handles, scorerHandles, n - 1) +
      (if NeedsThinker(a) then [Attachment(handles[n - 1], ConfigFor(a.builder.value, a.entity, scorerHandles[n - 1]))] else [])
  }

  /** `thinker_component_attach_system`: every actor with a builder and no
      `HasThinker` gets a thinker entity (handle `handles[i]`, with its
      scorers under `scorerHandles[i]`) and is marked `HasThinker`. Actors
      already marked are skipped. */
  method AttachSystem(actors: seq<ActorRecord>, handles: seq<Entity>, scorerHandles: seq<seq<Entity>>)
    returns (after: seq<ActorRecord>, thinkers: seq<Thinker>)
    requires |handles| == |actors| && ScorersFit(actors, scorerHandles)
    ensures |after| == |actors|
    ensures forall i :: 0 <= i < |actors| ==>
      after[i] == if NeedsThinker(actors[i]) then actors[i].(hasThinker := Some(handles[i])) else actors[i]
    // one new thinker per equipped actor, in actor order, configured from its
    // builder; the j-th one belongs to the entity Attached(...)[j].handle
    ensures |thinkers| == |Attached(actors, handles, scorerHandles, |actors|)|
    ensures forall j :: 0 <= j < |thinkers| ==>
      thinkers[j].Cfg() == Attached(actors, handles, scorerHandles, |actors|)[j].config
    ensures forall t :: t in thinkers ==> fresh(t) && t.current == None && t.scheduled == []
  {
    after := [];
    thinkers := [];
    var i := 0;
    while i < |actors|
      invariant 0 <= i <= |actors| && |after| == i
      invariant forall k :: 0 <= k < i ==>
        after[k] == if NeedsThinker(actors[k]) then actors[k].(hasThinker := Some(handles[k])) else actors[k]
      invariant |thinkers| == |Attached(actors, handles, scorerHandles, i)|
      invariant forall j :: 0 <= j < |thinkers| ==> thinkers[j].Cfg() == Attached(actors, handles, scorerHandles, i)[j].config
      invariant forall t :: t in thinkers ==> fresh(t) && t.current == None && t.scheduled == []
    {
      var a := actors[i];
      if NeedsThinker(a) {
        var t := new Thinker(a.builder.value, a.entity, scorerHandles[i]);
        thinkers := thinkers + [t];
        after := after + [a.(hasThinker := Some(handles[i]))];
      } else {
        after := after + [a];
      }
      i := i + 1;
    }
  }

  /** `thinker_component_detach_system`: an actor marked `HasThinker` that
      no longer carries a builder loses the mark, and its thinker entity is
      despawned. */
  method DetachSystem(actors: seq<ActorRecord>) returns (after: seq<ActorRecord>, despawned: seq<Entity>)
    ensures |after| == |actors|
    ensures forall i :: 0 <= i < |actors| ==>
      after[i] == if actors[i].hasThinker.Some? && actors[i].builder.None?
                  then actors[i].(hasThinker := None) else actors[i]
    ensures despawned == Detached(actors)
  {
    after := [];
    despawned := [];
    var i := 0;
    while i < |actors|
      invariant 0 <= i <= |actors| && |after| == i
      invariant forall k :: 0 <= k < i ==>
        after[k] == if actors[k].hasThinker.Some? && actors[k].builder.None?
                    then actors[k].(hasThinker := None) else actors[k]
      invariant despawned == Detached(actors[..i])
    {
      var a := actors[i];
      assert actors[..i + 1] == actors[..i] + [a];
      DetachedAppend(actors[..i], a);
      if a.hasThinker.Some? && a.builder.None? {
        despawned := despawned + [a.hasThinker.value];
        after := after + [a.(hasThinker := None)];
      } else {
        after := after + [a];
      }
      i := i + 1;
    }
    assert actors[..i] == actors;
  }

  /** The thinker entities of actors that lost their builder, in order. */
  function Detached(actors: seq<ActorRecord>): (r: seq<Entity>)
    ensures forall e :: e in r <==> exists i :: 0 <= i < |actors| && actors[i].builder.None? && actors[i].hasThinker == Some(e)
    ensures |r| <= |actors|
  {
    if |actors| == 0 then []
    else
      var a := actors[|actors| - 1];
      assert forall i :: 0 <= i < |actors| - 1 ==> actors[..|actors| - 1][i] == actors[i];
      Detached(actors[..|actors| - 1]) + (if a.hasThinker.Some? && a.builder.None? then [a.hasThinker.value] else [])
  }

  lemma DetachedAppend(actors: seq<ActorRecord>, a: ActorRecord)
    ensures Detached(actors + [a]) ==
      Detached(actors) + (if a.hasThinker.Some? && a.builder.None? then [a.hasThinker.value] else [])
  {
    assert (actors + [a])[..|actors|] == actors;
  }

  /** A node that names an actor through its `Actor` component. */
  datatype Owned = Owned(node: Entity, actor: Entity)

  /** The nodes whose actor no longer carries a `ThinkerBuilder`, in order. */
  function Orphans(nodes: seq<Owned>, builders: set<Entity>): (r: seq<Entity>)
    ensures forall e :: e in r <==> exists i :: 0 <= i < |nodes| && nodes[i].actor !in builders && nodes[i].node == e
    ensures |r| <= |nodes|
  {
    if |nodes| == 0 then []
    else
      var n := nodes[|nodes| - 1];
      var prefix := Orphans(nodes[..|nodes| - 1], builders);
      assert forall i :: 0 <= i < |nodes| - 1 ==> nodes[..|nodes| - 1][i] == nodes[i];
      prefix + (if n.actor !in builders then [n.node] else [])
  }

  /** `actor_gone_cleanup`: despawns every node whose actor is gone. */
  method ActorGoneCleanup(nodes: seq<Owned>, builders: set<Entity>) returns (despawned: seq<Entity>)
    ensures despawned == Orphans(nodes, builders)
  {
    despawned := [];
    var i := 0;
    while i < |nodes|
      invariant 0 <= i <= |nodes|
      invariant despawned == Orphans(nodes[..i], builders)
    {
      assert nodes[..i + 1][..i] == nodes[..i];
      if nodes[i].actor !in builders {
        despawned := despawned + [nodes[i].node];
      }
      i := i + 1;
    }
    assert nodes[..i] == nodes;
  }
}
