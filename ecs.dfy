/** Entity handles, action templates and deferred commands: the vocabulary the
    decision engine shares with the entity store it runs on. The store itself
    (allocation, hierarchy, queries) is not modelled; its handles are plain
    numbers and its fresh handles are handed in by callers. */
module Ecs {

  /** A handle to a node of the entity store. */
  type Entity = nat

  /** A reusable, shareable action template (an `Arc<dyn ActionSpawn>` or
      `Arc<dyn ActionBuilder>`): it is never mutated, only instantiated.
      Two templates are told apart by their key. */
  datatype Template = Template(key: nat)

  datatype Option<+T> = None | Some(value: T)

  /** A deferred mutation of the entity store, applied after the pass that
      issued it. */
  datatype Command =
    | Despawn(entity: Entity)
    | Spawn(template: Template, actor: Entity, entity: Entity)

  /** True iff no handle occurs twice in `es`. */
  predicate Distinct(es: seq<Entity>)
  {
    forall i, j :: 0 <= i < j < |es| ==> es[i] != es[j]
  }
}
