/** The current scorer family of src/scorer.rs. A scorer is an entity that
    holds a `Score` in [0, 1]; composite scorers combine their children's
    scores once per pass and write the result with the range-checked
    setter. */
module Scorer {
  import opened Ecs
  import opened Numeric

  /** `Score`: the value a scorer currently holds. */
  class Score {
    var value: real

    /** `Score::default()`. */
    constructor ()
      ensures value == 0.0
    {
      value := 0.0;
    }

    /** `set`: panics unless the value lies in [0, 1], then stores it. */
    method Set(v: real)
      requires 0.0 <= v <= 1.0
      modifies this
      ensures value == v
    {
      value := v;
    }

    /** `set_unchecked`: stores any value. */
    method SetUnchecked(v: real)
      modifies this
      ensures value == v
    {
      value := v;
    }
  }

  /** The values held by `scorers`, in order. */
  function Values(scorers: seq<Score>): (vs: seq<real>)
    reads set s | s in scorers
    ensures |vs| == |scorers|
    ensures forall i :: 0 <= i < |scorers| ==> vs[i] == scorers[i].value
  {
    seq(|scorers|, i reads set s | s in scorers requires 0 <= i < |scorers| => scorers[i].value)
  }

  /** `AllOrNothing`: the clamped sum if no child is below the threshold,
      else 0; with no children, 0. */
  function AllOrNothing(threshold: real, s: seq<real>): (r: real)
    ensures 0.0 <= r <= 1.0
    ensures (exists i :: 0 <= i < |s| && s[i] < threshold) ==> r == 0.0
    ensures (forall i :: 0 <= i < |s| ==> s[i] >= threshold) ==> r == Clamp(Sum(s), 0.0, 1.0)
    ensures |s| == 0 ==> r == 0.0
  {
    if forall i :: 0 <= i < |s| ==> s[i] >= threshold then Clamp(Sum(s), 0.0, 1.0) else 0.0
  }

  /** `SumOfScorers`: a total below the threshold becomes 0, then the
      total is clamped. */
  function SumOfScorers(threshold: real, s: seq<real>): (r: real)
    ensures 0.0 <= r <= 1.0
    ensures Sum(s) < threshold ==> r == 0.0
    ensures Sum(s) >= threshold ==> r == Clamp(Sum(s), 0.0, 1.0)
  {
    var total := if Sum(s) < threshold then 0.0 else Sum(s);
    Clamp(total, 0.0, 1.0)
  }

  /** `ProductOfScorers`: a product below the threshold becomes 0, then the
      product is clamped; the empty product is 1. */
  function ProductOfScorers(threshold: real, s: seq<real>): (r: real)
    ensures 0.0 <= r <= 1.0
    ensures Product(s) < threshold ==> r == 0.0
    ensures Product(s) >= threshold ==> r == Clamp(Product(s), 0.0, 1.0)
  {
    var p := if Product(s) < threshold then 0.0 else Product(s);
    Clamp(p, 0.0, 1.0)
  }

  /** The compensation factor for `n` factors: a product `p` below 1 is
      raised by (1 - p) * (1 - 1/n) * p. */
  function Compensate(p: real, n: nat): (q: real)
    requires p < 1.0 ==> n >= 1
    ensures p >= 1.0 ==> q == p
    // compensation never lowers a product in [0, 1) and keeps it at most 1
    ensures 0.0 <= p < 1.0 ==> p <= q <= 1.0
    // a single factor is not compensated
    ensures n == 1 ==> q == p
  {
    if p < 1.0 then
      var modFactor := 1.0 - 1.0 / (n as real);
      var makeup := (1.0 - p) * modFactor;
      ModFactorRange(n);
      CompensationBounds(p, modFactor);
      p + makeup * p
    else p
  }

  /** The compensation modifier 1 - 1/n lies in [0, 1) and is 0 for n = 1. */
  lemma ModFactorRange(n: nat)
    requires n >= 1
    ensures 0.0 <= 1.0 - 1.0 / (n as real) < 1.0
    ensures n == 1 ==> 1.0 - 1.0 / (n as real) == 0.0
  {
    assert 1.0 / (n as real) > 0.0;
    assert (n as real) * (1.0 / (n as real)) == 1.0;
  }

  /** With a modifier in [0, 1), the makeup keeps a product in [0, 1). */
  lemma CompensationBounds(p: real, m: real)
    requires 0.0 <= m < 1.0
    ensures 0.0 <= p < 1.0 ==> p <= p + (1.0 - p) * m * p <= 1.0
  {
    if 0.0 <= p < 1.0 {
      var a := 1.0 - p;
      MulNonNegative(a, m);
      MulNonNegative(a * m, p);
      MulNonNegative(a * p, 1.0 - m);
      assert a * p - a * m * p == a * p * (1.0 - m);
      MulNonNegative(a, a);
      assert p + a * p == 1.0 - a * a;
    }
  }

  /** The product of no factors is 1, so compensation needs at least one. */
  lemma EmptyProductIsOne(s: seq<real>)
    ensures Product(s) < 1.0 ==> |s| >= 1
  {
  }

  /** `CompensatedProductOfScorers`: the product, compensated for the number
      of factors when below 1, then thresholded and clamped. */
  function CompensatedProduct(threshold: real, s: seq<real>): (r: real)
    ensures 0.0 <= r <= 1.0
    ensures Compensate(Product(s), |s|) < threshold ==> r == 0.0
    ensures Compensate(Product(s), |s|) >= threshold ==> r == Clamp(Compensate(Product(s), |s|), 0.0, 1.0)
  {
    EmptyProductIsOne(s);
    var p := Compensate(Product(s), |s|);
    Clamp(if p < threshold then 0.0 else p, 0.0, 1.0)
  }

  /** Compensation only helps: with scores in [0, 1] the compensated product
      scorer never outputs less than the plain one. */
  lemma CompensatedAtLeastPlain(threshold: real, s: seq<real>)
    requires AllUnit(s)
    ensures CompensatedProduct(threshold, s) >= ProductOfScorers(threshold, s)
  {
    ProductUnit(s);
    EmptyProductIsOne(s);
    var p := Product(s);
    var q := Compensate(p, |s|);
    assert p <= q;
    if p >= threshold {
      ClampMonotone(p, q, 0.0, 1.0);
    }
  }

  /** `WinningScorer`: the largest child score (the last after sorting) if
      it reaches the threshold, else 0; with no children, 0. */
  function Winning(threshold: real, s: seq<real>): (r: real)
    ensures 0.0 <= r <= 1.0
    ensures |s| == 0 ==> r == 0.0
    ensures |s| > 0 && Max(s) < threshold ==> r == 0.0
    // with scores in range the output is the winning child's own score
    ensures AllUnit(s) && |s| > 0 && Max(s) >= threshold ==>
      (exists i :: 0 <= i < |s| && s[i] == r) && forall i :: 0 <= i < |s| ==> s[i] <= r
  {
    if |s| == 0 then 0.0
    else
      var m := Max(s);
      Clamp(if m >= threshold then m else 0.0, 0.0, 1.0)
  }

  /** `fixed_scorer_system` for one `FixedScorer`. */
  method FixedScorerSystem(fixed: real, score: Score)
    requires 0.0 <= fixed <= 1.0
    modifies score
    ensures score.value == fixed
  {
    score.Set(fixed);
  }

  /** `f32::MIN_POSITIVE`, the smallest positive normal f32: 2^-126. */
  const MinPositive: real := 1.0 / 85070591730234615865843651857942052864.0

  /** `idle_scorer_system` for one `IdleScorer`: the least valid non-zero
      score. */
  method IdleScorerSystem(score: Score)
    modifies score
    ensures score.value == MinPositive
    ensures 0.0 < score.value < 1.0
  {
    score.Set(MinPositive);
  }

  /** `all_or_nothing_system` for one scorer: sums its children's scores,
      stopping with 0 at the first one below the threshold. */
  method AllOrNothingSystem(threshold: real, children: seq<Score>, parent: Score)
    requires parent !in children
    modifies parent
    ensures parent.value == AllOrNothing(threshold, Values(children))
  {
    ghost var s := Values(children);
    var sum := 0.0;
    var i := 0;
    while i < |children|
      invariant 0 <= i <= |children|
      invariant sum == Sum(s[..i]) && forall k :: 0 <= k < i ==> s[k] >= threshold
    {
      assert s[..i + 1][..i] == s[..i];
      if children[i].value < threshold {
        sum := 0.0;
        break;
      } else {
        sum := sum + children[i].value;
      }
      i := i + 1;
    }
    if i == |children| {
      assert s[..i] == s;
    }
    parent.Set(Clamp(sum, 0.0, 1.0));
  }

  /** `sum_of_scorers_system` for one scorer. */
  method SumOfScorersSystem(threshold: real, children: seq<Score>, parent: Score)
    requires parent !in children
    modifies parent
    ensures parent.value == SumOfScorers(threshold, Values(children))
  {
    ghost var s := Values(children);
    var sum := SumValues(children);
    assert s == Values(children);
    if sum < threshold {
      sum := 0.0;
    }
    parent.Set(Clamp(sum, 0.0, 1.0));
  }

  /** The accumulation loop of the sum scorers. */
  method SumValues(children: seq<Score>) returns (sum: real)
    ensures sum == Sum(Values(children))
  {
    ghost var s := Values(children);
    sum := 0.0;
    var i := 0;
    while i < |children|
      invariant 0 <= i <= |children|
      invariant sum == Sum(s[..i])
    {
      assert s[..i + 1][..i] == s[..i];
      sum := sum + children[i].value;
      i := i + 1;
    }
    assert s[..i] == s;
  }

  /** The accumulation loop of the product scorers; also counts factors. */
  method ProductValues(children: seq<Score>) returns (product: real, count: nat)
    ensures product == Product(Values(children)) && count == |children|
  {
    ghost var s := Values(children);
    product := 1.0;
    count := 0;
    var i := 0;
    while i < |children|
      invariant 0 <= i <= |children| && count == i
      invariant product == Product(s[..i])
    {
      assert s[..i + 1][..i] == s[..i];
      product := product * children[i].value;
      count := count + 1;
      i := i + 1;
    }
    assert s[..i] == s;
  }

  /** `product_of_scorers_system` for one scorer. */
  method ProductOfScorersSystem(threshold: real, children: seq<Score>, parent: Score)
    requires parent !in children
    modifies parent
    ensures parent.value == ProductOfScorers(threshold, Values(children))
  {
    var product, _ := ProductValues(children);
    if product < threshold {
      product := 0.0;
    }
    parent.Set(Clamp(product, 0.0, 1.0));
  }

  /** `compensated_product_of_scorers_system` for one scorer. */
  method CompensatedProductSystem(threshold: real, children: seq<Score>, parent: Score)
    requires parent !in children
    modifies parent
    ensures parent.value == CompensatedProduct(threshold, Values(children))
  {
    var product, n := ProductValues(children);
    EmptyProductIsOne(Values(children));
    if product < 1.0 {
      var modFactor := 1.0 - 1.0 / (n as real);
      var makeup := (1.0 - product) * modFactor;
      product := product + makeup * product;
    }
    if product < threshold {
      product := 0.0;
    }
    parent.Set(Clamp(product, 0.0, 1.0));
  }

  /** `winning_scorer_system` for one scorer. Collecting the children's
      scores is the loop; the sort is summarised by its last element. */
  method WinningSystem(threshold: real, children: seq<Score>, parent: Score)
    requires parent !in children
    modifies parent
    ensures parent.value == Winning(threshold, Values(children))
  {
    var scores: seq<real> := [];
    var i := 0;
    while i < |children|
      invariant 0 <= i <= |children|
      invariant scores == Values(children)[..i]
    {
      scores := scores + [children[i].value];
      i := i + 1;
    }
    var winningOrZero := 0.0;
    if |scores| > 0 && Max(scores) >= threshold {
      winningOrZero := Max(scores);
    }
    parent.Set(Clamp(winningOrZero, 0.0, 1.0));
  }

  /** A scorer template: the component bundle its own entity gets and the
      templates of its children, in list order. A plain scorer has none. */
  datatype ScorerSpawn = ScorerSpawner(bundle: Template, scorers: seq<ScorerSpawn>)

  /** An entity spawned for a scorer: its handle, its `Actor`, its initial
      `Score` and its bundle. */
  datatype SpawnedScorer = SpawnedScorer(entity: Entity, actor: Entity, score: real, bundle: Template)

  datatype Push = Push(parent: Entity, child: Entity)

  /** The entities spawned, in spawn order, and the `PushChild` commands
      issued, in issue order. */
  datatype Spawned = Spawned(nodes: seq<SpawnedScorer>, pushes: seq<Push>)

  /** The children `pushes` attach under `p`, in order. */
  function ChildrenOf(pushes: seq<Push>, p: Entity): seq<Entity>
  {
    if |pushes| == 0 then []
    else ChildrenOf(pushes[..|pushes| - 1], p) +
         (if pushes[|pushes| - 1].parent == p then [pushes[|pushes| - 1].child] else [])
  }

  lemma {:induction false} ChildrenOfAppend(a: seq<Push>, b: seq<Push>, p: Entity)
    ensures ChildrenOf(a + b, p) == ChildrenOf(a, p) + ChildrenOf(b, p)
    decreases |b|
  {
    if |b| > 0 {
      assert (a + b)[..|a + b| - 1] == a + b[..|b| - 1];
      ChildrenOfAppend(a, b[..|b| - 1], p);
    } else {
      assert a + b == a;
    }
  }

  /** No push in `pushes` attaches under `p`. */
  lemma {:induction false} ChildrenOfNone(pushes: seq<Push>, p: Entity)
    requires forall i :: 0 <= i < |pushes| ==> pushes[i].parent != p
    ensures ChildrenOf(pushes, p) == []
    decreases |pushes|
  {
    if |pushes| > 0 {
      ChildrenOfNone(pushes[..|pushes| - 1], p);
    }
  }

  /** Every node of the spawn is stamped with the actor and score 0, and
      the handles are `next`, `next + 1`, ... in spawn order. */
  predicate Stamped(nodes: seq<SpawnedScorer>, actor: Entity, next: Entity)
  {
    forall i :: 0 <= i < |nodes| ==>
      nodes[i].entity == next + i && nodes[i].actor == actor && nodes[i].score == 0.0
  }

  /** Every push stays inside the handles `lo` .. `hi - 1`, and a child is
      pushed under an earlier handle. */
  predicate PushesWithin(pushes: seq<Push>, lo: Entity, hi: Entity)
  {
    forall i :: 0 <= i < |pushes| ==>
      lo <= pushes[i].parent < pushes[i].child < hi
  }

  /** What spawning a run of sibling templates produces, plus the handles of
      their roots. */
  datatype ChildSpawn = ChildSpawn(nodes: seq<SpawnedScorer>, pushes: seq<Push>, roots: seq<Entity>)

  /** Spawning the sibling templates `ts` under `parent` from handle `next`
      on: one root per template, in list order, each pushed under `parent`,
      every other push inside the spawned handles. */
  predicate SiblingsSpawned(r: ChildSpawn, ts: seq<ScorerSpawn>, parent: Entity, actor: Entity, next: Entity)
  {
    Stamped(r.nodes, actor, next) &&
    |r.roots| == |ts| &&
    (forall j :: 0 <= j < |r.roots| ==>
      next <= r.roots[j] < next + |r.nodes| && r.nodes[r.roots[j] - next].bundle == ts[j].bundle) &&
    (forall j, j' :: 0 <= j < j' < |r.roots| ==> r.roots[j] < r.roots[j']) &&
    (forall i :: 0 <= i < |r.pushes| ==>
      (r.pushes[i].parent == parent && next <= r.pushes[i].child < next + |r.nodes|) ||
      (next <= r.pushes[i].parent < r.pushes[i].child < next + |r.nodes|)) &&
    ChildrenOf(r.pushes, parent) == r.roots
  }

  /** `ScorerSpawner::spawn` (src/scorer.rs:76-84, through
      `ScorerCommands::spawn` and `push_child` at 29-39): the scorer's own
      entity first, with the actor and score 0, then each child template's
      subtree in list order, each child pushed under the scorer. */
  function Spawn(t: ScorerSpawn, actor: Entity, next: Entity): (r: Spawned)
    ensures |r.nodes| >= 1 && r.nodes[0].bundle == t.bundle
    ensures Stamped(r.nodes, actor, next)
    ensures PushesWithin(r.pushes, next, next + |r.nodes|)
    // the scorer's direct children are its templates' roots, in list order
    ensures var kids := ChildrenOf(r.pushes, next);
      |kids| == |t.scorers| &&
      (forall j :: 0 <= j < |kids| ==> next < kids[j] < next + |r.nodes| &&
                                         r.nodes[kids[j] - next].bundle == t.scorers[j].bundle) &&
      (forall j, j' :: 0 <= j < j' < |kids| ==> kids[j] < kids[j'])
    decreases t, 1
  {
    var cs := SpawnChildren(t, 0, next, actor, next + 1);
    assert t.scorers[0..] == t.scorers;
    Spawned([SpawnedScorer(next, actor, 0.0, t.bundle)] + cs.nodes, cs.pushes)
  }

  /** Spawning the child templates of `t` from index `k` on. */
  function SpawnChildren(t: ScorerSpawn, k: nat, parent: Entity, actor: Entity, next: Entity): (r: ChildSpawn)
    requires k <= |t.scorers| && parent < next
    ensures SiblingsSpawned(r, t.scorers[k..], parent, actor, next)
    decreases t, 0, |t.scorers| - k
  {
    if k == |t.scorers| then ChildSpawn([], [], [])
    else
      var c := Spawn(t.scorers[k], actor, next);
      var rest := SpawnChildren(t, k + 1, parent, actor, next + |c.nodes|);
      assert t.scorers[k..] == [t.scorers[k]] + t.scorers[k + 1..];
      AppendSibling(c, t.scorers[k], rest, t.scorers[k + 1..], parent, actor, next);
      ChildSpawn(c.nodes + rest.nodes, c.pushes + [Push(parent, next)] + rest.pushes, [next] + rest.roots)
  }

  /** A spawned subtree followed by its later siblings is a run of
      siblings one longer. */
  lemma AppendSibling(c: Spawned, t: ScorerSpawn, rest: ChildSpawn, ts: seq<ScorerSpawn>,
                      parent: Entity, actor: Entity, next: Entity)
    requires parent < next
    requires |c.nodes| >= 1 && c.nodes[0].bundle == t.bundle
    requires Stamped(c.nodes, actor, next) && PushesWithin(c.pushes, next, next + |c.nodes|)
    requires SiblingsSpawned(rest, ts, parent, actor, next + |c.nodes|)
    ensures SiblingsSpawned(ChildSpawn(c.nodes + rest.nodes, c.pushes + [Push(parent, next)] + rest.pushes,
                                       [next] + rest.roots), [t] + ts, parent, actor, next)
  {
    var r := ChildSpawn(c.nodes + rest.nodes, c.pushes + [Push(parent, next)] + rest.pushes, [next] + rest.roots);
    assert |r.nodes| == |c.nodes| + |rest.nodes|;
    StampedAppend(c.nodes, rest.nodes, actor, next);
    RootsAppend(c.nodes, t, rest.nodes, rest.roots, ts, next);
    PushesAppend(c.pushes, rest.pushes, parent, next, |c.nodes|, |rest.nodes|);
    assert ChildrenOf(r.pushes, parent) == r.roots by {
      ChildrenOfNone(c.pushes, parent);
      ChildrenOfAppend(c.pushes + [Push(parent, next)], rest.pushes, parent);
      ChildrenOfAppend(c.pushes, [Push(parent, next)], parent);
      assert ChildrenOf([Push(parent, next)], parent) == [next];
    }
  }

  lemma StampedAppend(a: seq<SpawnedScorer>, b: seq<SpawnedScorer>, actor: Entity, next: Entity)
    requires Stamped(a, actor, next) && Stamped(b, actor, next + |a|)
    ensures Stamped(a + b, actor, next)
  {
    forall i | 0 <= i < |a + b|
      ensures (a + b)[i].entity == next + i && (a + b)[i].actor == actor && (a + b)[i].score == 0.0
    {
      if i >= |a| {
        assert (a + b)[i] == b[i - |a|];
      }
    }
  }

  lemma RootsAppend(a: seq<SpawnedScorer>, t: ScorerSpawn, b: seq<SpawnedScorer>, roots: seq<Entity>,
                    ts: seq<ScorerSpawn>, next: Entity)
    requires |a| >= 1 && a[0].bundle == t.bundle && |roots| == |ts|
    requires forall j :: 0 <= j < |roots| ==>
      next + |a| <= roots[j] < next + |a| + |b| && b[roots[j] - (next + |a|)].bundle == ts[j].bundle
    requires forall j, j' :: 0 <= j < j' < |roots| ==> roots[j] < roots[j']
    ensures var rs := [next] + roots;
      (forall j :: 0 <= j < |rs| ==>
        next <= rs[j] < next + |a + b| && (a + b)[rs[j] - next].bundle == ([t] + ts)[j].bundle) &&
      (forall j, j' :: 0 <= j < j' < |rs| ==> rs[j] < rs[j'])
  {
    var rs := [next] + roots;
    forall j | 0 <= j < |rs|
      ensures next <= rs[j] < next + |a + b| && (a + b)[rs[j] - next].bundle == ([t] + ts)[j].bundle
    {
      if j > 0 {
        assert rs[j] == roots[j - 1];
        assert (a + b)[rs[j] - next] == b[roots[j - 1] - (next + |a|)];
      }
    }
    forall j, j' | 0 <= j < j' < |rs| ensures rs[j] < rs[j'] {
      assert rs[j'] == roots[j' - 1];
      if j > 0 {
        assert rs[j] == roots[j - 1];
      }
    }
  }

  lemma PushesAppend(a: seq<Push>, b: seq<Push>, parent: Entity, next: Entity, na: nat, nb: nat)
    requires PushesWithin(a, next, next + na) && na >= 1
    requires forall i :: 0 <= i < |b| ==>
      (b[i].parent == parent && next + na <= b[i].child < next + na + nb) ||
      (next + na <= b[i].parent < b[i].child < next + na + nb)
    ensures var ps := a + [Push(parent, next)] + b;
      forall i :: 0 <= i < |ps| ==>
        (ps[i].parent == parent && next <= ps[i].child < next + na + nb) ||
        (next <= ps[i].parent < ps[i].child < next + na + nb)
  {
    var ps := a + [Push(parent, next)] + b;
    forall i | 0 <= i < |ps|
      ensures (ps[i].parent == parent && next <= ps[i].child < next + na + nb) ||
              (next <= ps[i].parent < ps[i].child < next + na + nb)
    {
      if i < |a| {
        assert ps[i] == a[i];
      } else if i > |a| {
        assert ps[i] == b[i - |a| - 1];
      }
    }
  }
}
