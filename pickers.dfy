/** Pickers of src/pickers.rs: given the thinker's choices and the current
    scores, decide which choice (by index) should run next, if any. */
module Pickers {
  import opened Ecs

  /** `Choice`: the scorer entity that rates it and the action template it
      runs when picked. */
  datatype Choice = Choice(scorer: Entity, action: Template)

  /** Every choice's scorer has a score. `Choice::calculate` panics with
      "Where did the score go?" otherwise. */
  predicate AllScored(choices: seq<Choice>, scores: map<Entity, real>)
  {
    forall i :: 0 <= i < |choices| ==> choices[i].scorer in scores
  }

  /** `Choice::calculate`: the score its scorer currently holds. */
  function Calculate(c: Choice, scores: map<Entity, real>): (v: real)
    requires c.scorer in scores
    ensures v == scores[c.scorer]
  {
    scores[c.scorer]
  }

  /** The scores of all choices, in choice order. */
  function ScoresOf(choices: seq<Choice>, scores: map<Entity, real>): (s: seq<real>)
    requires AllScored(choices, scores)
    ensures |s| == |choices|
    ensures forall i :: 0 <= i < |s| ==> s[i] == Calculate(choices[i], scores)
  {
    seq(|choices|, i requires 0 <= i < |choices| => Calculate(choices[i], scores))
  }

  /** `FirstToScore::pick` on the choices' scores: `position` of the first
      score strictly above the threshold. */
  function FirstToScore(threshold: real, s: seq<real>): (r: Option<nat>)
    ensures r.Some? ==> r.value < |s| && s[r.value] > threshold
    ensures r.Some? ==> forall j :: 0 <= j < r.value ==> s[j] <= threshold
    ensures r.None? <==> forall j :: 0 <= j < |s| ==> s[j] <= threshold
  {
    if |s| == 0 then None
    else if s[0] > threshold then Some(0)
    else
      var rest := FirstToScore(threshold, s[1..]);
      assert forall j :: 1 <= j < |s| ==> s[j] == s[1..][j - 1];
      if rest.None? then None else Some(rest.value + 1)
  }

  /** `Highest::pick` as the fold it is: walking the scores left to right,
      a score replaces the pick when it is strictly above both the
      threshold and the score of the current pick. */
  function Highest(threshold: real, s: seq<real>): (r: Option<nat>)
    ensures r.None? <==> forall j :: 0 <= j < |s| ==> s[j] <= threshold
    ensures r.Some? ==> r.value < |s| && s[r.value] > threshold
    ensures r.Some? ==> forall j :: 0 <= j < |s| ==> s[j] <= s[r.value]
    // the first of several equal maxima wins
    ensures r.Some? ==> forall j :: 0 <= j < r.value ==> s[j] < s[r.value]
  {
    if |s| == 0 then None
    else
      var prev := Highest(threshold, s[..|s| - 1]);
      var best := RunningMax(threshold, s[..|s| - 1], prev);
      if s[|s| - 1] <= best then prev else Some(|s| - 1)
  }

  /** `max_score` after the fold has seen `seen` and holds `acc`: the
      threshold until something is picked, then the pick's score. */
  function RunningMax(threshold: real, seen: seq<real>, acc: Option<nat>): real
  {
    if acc.Some? && acc.value < |seen| then seen[acc.value] else threshold
  }

  /** The loop `Highest::pick` runs, with `max_score` updated in place. */
  method PickHighest(threshold: real, s: seq<real>) returns (r: Option<nat>)
    ensures r == Highest(threshold, s)
  {
    var maxScore := threshold;
    r := None;
    var i := 0;
    while i < |s|
      invariant 0 <= i <= |s|
      invariant r == Highest(threshold, s[..i])
      invariant maxScore == RunningMax(threshold, s[..i], r)
    {
      assert s[..i + 1][..i] == s[..i];
      if s[i] > maxScore {
        maxScore := s[i];
        r := Some(i);
      }
      i := i + 1;
    }
    assert s[..i] == s;
  }

  /** The two pickers the library ships. */
  datatype Picker = FirstToScorePicker(threshold: real) | HighestPicker(threshold: real)

  /** `Picker::pick`: the index of the chosen choice, if any. */
  function Pick(p: Picker, choices: seq<Choice>, scores: map<Entity, real>): (r: Option<nat>)
    requires AllScored(choices, scores)
    ensures r.Some? ==> r.value < |choices| && Calculate(choices[r.value], scores) > p.threshold
    ensures r.None? <==> forall j :: 0 <= j < |choices| ==> Calculate(choices[j], scores) <= p.threshold
  {
    var s := ScoresOf(choices, scores);
    match p
    case FirstToScorePicker(t) => FirstToScore(t, s)
    case HighestPicker(t) => Highest(t, s)
  }
}
