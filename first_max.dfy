/**
 * The "keep the best so far" scan that the query processor runs twice: once
 * over the categories' keyword counts and once over the fuzzy name scores.
 * Both loops start from a best score of 0 and replace the best candidate only
 * when a score is above a floor AND strictly greater than the best so far, so
 * the earliest of several equal maxima wins.
 */
module FirstMax {
  import opened Wrappers

  /** The state of the scan: the index of the best candidate so far, and its score. */
  datatype Pick = Pick(index: Option<nat>, score: real)

  /** The scan over `scores`, from left to right, as the source's loops perform it. */
  function Scan(scores: seq<real>, floor: real): (p: Pick)
    ensures p.index.Some? ==> p.index.value < |scores|
  {
    if scores == [] then Pick(None, 0.0)
    else
      var prev := Scan(scores[..|scores| - 1], floor);
      var s := scores[|scores| - 1];
      if s > floor && s > prev.score then Pick(Some(|scores| - 1), s) else prev
  }

  /** Scanning one more score: it becomes the best exactly when it is above the floor and the best so far. */
  lemma ScanSnoc(scores: seq<real>, v: real, floor: real)
    ensures Scan(scores + [v], floor) ==
              if v > floor && v > Scan(scores, floor).score then Pick(Some(|scores|), v) else Scan(scores, floor)
  {
    assert (scores + [v])[..|scores|] == scores;
  }

  /**
   * Index `k` holds a score above the floor that no other score exceeds,
   * and every earlier score is strictly smaller: `k` is the FIRST maximum.
   */
  ghost predicate IsFirstMaxAbove(scores: seq<real>, floor: real, k: nat)
  {
    && k < |scores|
    && scores[k] > floor
    && (forall j :: 0 <= j < |scores| ==> scores[j] <= scores[k])
    && (forall j :: 0 <= j < k ==> scores[j] < scores[k])
  }

  /**
   * What the scan computes: no candidate when no score is above the floor,
   * and otherwise the first maximum, together with its score.
   */
  lemma {:induction false} ScanIsFirstMax(scores: seq<real>, floor: real)
    requires floor >= 0.0
    ensures Scan(scores, floor).index.None? <==> forall j :: 0 <= j < |scores| ==> scores[j] <= floor
    ensures Scan(scores, floor).index.None? ==> Scan(scores, floor).score == 0.0
    ensures Scan(scores, floor).index.Some? ==>
              && IsFirstMaxAbove(scores, floor, Scan(scores, floor).index.value)
              && Scan(scores, floor).score == scores[Scan(scores, floor).index.value]
  {
    if scores != [] {
      var init := scores[..|scores| - 1];
      ScanIsFirstMax(init, floor);
      assert forall j :: 0 <= j < |init| ==> init[j] == scores[j];
    }
  }
}
