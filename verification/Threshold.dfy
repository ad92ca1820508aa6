/**
 * Choosing the operating threshold of a detector (ai/evaluation/threshold.py): the best F1 within a
 * budget of false positives. Scores, hours and F1 are exact reals.
 */
module Threshold {
  import opened Wrappers
  import opened Sorting

  datatype Sample = Sample(labels: seq<bool>, scores: seq<real>, seconds: real, budget: real)

  predicate WellFormed(d: Sample) {
    && |d.labels| == |d.scores| && d.labels != []
    && d.seconds > 0.0 && d.budget >= 0.0
    && true in d.labels && false in d.labels
  }

  /** How many vectors with a label fire at a threshold. */
  function Fired(labels: seq<bool>, scores: seq<real>, wanted: bool, t: real): nat
    requires |labels| == |scores|
  {
    if labels == [] then 0
    else Fired(labels[1..], scores[1..], wanted, t) + (if labels[0] == wanted && scores[0] >= t then 1 else 0)
  }

  function Count(labels: seq<bool>): nat {
    if labels == [] then 0 else Count(labels[1..]) + (if labels[0] then 1 else 0)
  }

  function F1(tp: nat, fp: nat, fn: nat): real {
    var denominator := 2 * tp + fp + fn;
    if denominator == 0 then 0.0 else (2 * tp) as real / denominator as real
  }

  /** The score of a threshold, any real. */
  function F1At(d: Sample, t: real): real
    requires WellFormed(d)
  {
    FiredAtMost(d.labels, d.scores, t);
    var tp, fp := Fired(d.labels, d.scores, true, t), Fired(d.labels, d.scores, false, t);
    F1(tp, fp, Count(d.labels) - tp)
  }

  /** The budget: false positives per hour. */
  predicate Feasible(d: Sample, t: real)
    requires WellFormed(d)
  {
    Fired(d.labels, d.scores, false, t) as real / (d.seconds / 3600.0) <= d.budget
  }

  lemma {:induction false} FiredAtMost(labels: seq<bool>, scores: seq<real>, t: real)
    requires |labels| == |scores|
    ensures Fired(labels, scores, true, t) <= Count(labels)
  {
    if labels != [] { FiredAtMost(labels[1..], scores[1..], t); }
  }

  /** Two thresholds that no score lies between fire the same vectors. */
  lemma {:induction false} SameFires(labels: seq<bool>, scores: seq<real>, wanted: bool, t: real, u: real)
    requires |labels| == |scores|
    requires forall s :: s in scores ==> (s >= t <==> s >= u)
    ensures Fired(labels, scores, wanted, t) == Fired(labels, scores, wanted, u)
  {
    if labels != [] {
      assert scores[0] in scores && forall s :: s in scores[1..] ==> s in scores;
      SameFires(labels[1..], scores[1..], wanted, t, u);
    }
  }

  lemma {:induction false} NothingFires(labels: seq<bool>, scores: seq<real>, wanted: bool, t: real)
    requires |labels| == |scores|
    requires forall i :: 0 <= i < |labels| && labels[i] == wanted ==> scores[i] < t
    ensures Fired(labels, scores, wanted, t) == 0
  {
    if labels != [] { NothingFires(labels[1..], scores[1..], wanted, t); }
  }

  /** The least observed score at or above a threshold. */
  lemma {:induction false} Ceiling(scores: seq<real>, t: real) returns (s: real)
    requires exists x :: x in scores && x >= t
    ensures s in scores && s >= t && forall x :: x in scores && x >= t ==> x >= s
  {
    var x :| x in scores && x >= t;
    s := x;
    var i := 0;
    while i < |scores|
      invariant 0 <= i <= |scores|
      invariant s in scores && s >= t
      invariant forall j :: 0 <= j < i && scores[j] >= t ==> scores[j] >= s
    {
      if t <= scores[i] < s { s := scores[i]; }
      i := i + 1;
    }
  }

  lemma F1Bounds(d: Sample, t: real)
    requires WellFormed(d)
    ensures F1At(d, t) >= 0.0
    ensures Fired(d.labels, d.scores, true, t) == 0 ==> F1At(d, t) == 0.0
  {
    FiredAtMost(d.labels, d.scores, t);
  }

  /** A threshold is as good as the observed score above it, or fires nothing at all. */
  lemma ObservedOrSilent(d: Sample, t: real)
    requires WellFormed(d)
    ensures (exists s :: s in d.scores && s >= t && F1At(d, s) == F1At(d, t) && (Feasible(d, s) <==> Feasible(d, t)))
            || (F1At(d, t) == 0.0 && forall x :: x in d.scores ==> x < t)
  {
    if exists x :: x in d.scores && x >= t {
      var s := Ceiling(d.scores, t);
      SameFires(d.labels, d.scores, true, t, s);
      SameFires(d.labels, d.scores, false, t, s);
    } else {
      forall i | 0 <= i < |d.scores| ensures d.scores[i] < t { assert d.scores[i] in d.scores; }
      NothingFires(d.labels, d.scores, true, t);
      F1Bounds(d, t);
    }
  }

  predicate Less(x: real, y: real) {
    x < y
  }

  /** The distinct scores in ascending order. */
  method Candidates(scores: seq<real>) returns (c: seq<real>)
    ensures Ascending(Less, c) && forall x :: x in c <==> x in scores
  {
    c := [];
    var i := 0;
    while i < |scores|
      invariant 0 <= i <= |scores|
      invariant Ascending(Less, c) && forall x :: x in c <==> x in scores[..i]
    {
      if scores[i] !in c {
        InsertAdds(Less, scores[i], c);
        InsertKeeps(Less, scores[i], c);
        c := Insert(Less, scores[i], c);
      }
      assert scores[..i + 1] == scores[..i] + [scores[i]];
      i := i + 1;
    }
    assert scores[..i] == scores;
  }

  method HighestBenign(d: Sample) returns (h: real)
    requires WellFormed(d)
    ensures h in d.scores
    ensures forall i :: 0 <= i < |d.labels| && !d.labels[i] ==> d.scores[i] <= h
    ensures exists i :: 0 <= i < |d.labels| && !d.labels[i] && d.scores[i] == h
  {
    var i :| 0 <= i < |d.labels| && !d.labels[i];
    h := d.scores[i];
    var j := 0;
    while j < |d.labels|
      invariant 0 <= j <= |d.labels|
      invariant forall k :: 0 <= k < j && !d.labels[k] ==> d.scores[k] <= h
      invariant exists k :: 0 <= k < |d.labels| && !d.labels[k] && d.scores[k] == h
    {
      if !d.labels[j] && d.scores[j] > h { h := d.scores[j]; }
      j := j + 1;
    }
  }

  const STEP: real := 1.0 / 1_000_000_000.0

  /** No observed score meets the budget. */
  predicate NoneObserved(d: Sample)
    requires WellFormed(d)
  {
    forall s :: s in d.scores ==> !Feasible(d, s)
  }

  /** Then every score is below one of a benign vector that is the highest of all, and only thresholds
      above that one meet the budget. */
  lemma OnlyAboveBenign(d: Sample, highest: real)
    requires WellFormed(d) && NoneObserved(d)
    requires forall i :: 0 <= i < |d.labels| && !d.labels[i] ==> d.scores[i] <= highest
    requires highest in d.scores
    ensures forall s :: s in d.scores ==> s <= highest
    ensures forall t :: Feasible(d, t) <==> t > highest
    ensures forall t :: Feasible(d, t) ==> F1At(d, t) == 0.0
  {
    forall s | s in d.scores ensures s <= highest {
      if s > highest {
        NothingFires(d.labels, d.scores, false, s);
      }
    }
    forall t ensures Feasible(d, t) <==> t > highest {
      if t > highest {
        NothingFires(d.labels, d.scores, false, t);
      } else {
        ObservedOrSilent(d, t);
      }
    }
    forall t | Feasible(d, t) ensures F1At(d, t) == 0.0 {
      ObservedOrSilent(d, t);
    }
  }

  /** The threshold with the best F1 within the budget, over all reals; among the observed scores that
      reach it, the highest. */
  method SelectThreshold(d: Sample) returns (r: Result<real>)
    ensures !WellFormed(d) ==> r.Raised?
    ensures WellFormed(d) && r.Ok? ==>
              && Feasible(d, r.value)
              && forall t :: Feasible(d, t) ==> F1At(d, t) <= F1At(d, r.value)
    ensures WellFormed(d) && !NoneObserved(d) ==>
              && r.Ok? && r.value in d.scores
              && forall s :: s in d.scores && Feasible(d, s) && F1At(d, s) == F1At(d, r.value) ==> s <= r.value
    ensures WellFormed(d) && (forall s :: s in d.scores ==> 0.0 <= s <= 1.0) ==>
              && (r.Raised? <==> forall t :: 0.0 <= t <= 1.0 ==> !Feasible(d, t))
              && (r.Ok? ==> 0.0 <= r.value <= 1.0)
  {
    if !WellFormed(d) { return Raised; }
    var candidates := Candidates(d.scores);
    var best: Option<(real, real)> := None;
    var i := 0;
    while i < |candidates|
      invariant 0 <= i <= |candidates|
      invariant best.None? ==> forall j :: 0 <= j < i ==> !Feasible(d, candidates[j])
      invariant best.Some? ==> && best.value.1 in d.scores && Feasible(d, best.value.1)
                               && best.value.0 == F1At(d, best.value.1)
      invariant best.Some? ==> forall j :: 0 <= j < i && Feasible(d, candidates[j]) ==>
                                 || F1At(d, candidates[j]) < best.value.0
                                 || (F1At(d, candidates[j]) == best.value.0 && candidates[j] <= best.value.1)
      invariant best.Some? ==> exists j :: 0 <= j < i && best.value.1 == candidates[j]
    {
      var t := candidates[i];
      assert t in d.scores;
      if Feasible(d, t) {
        var f1 := F1At(d, t);
        if best.None? || f1 > best.value.0 || (f1 == best.value.0 && t >= best.value.1) { best := Some((f1, t)); }
      }
      i := i + 1;
    }
    if best.Some? {
      BestOverall(d, best.value.1);
      return Ok(best.value.1);
    }
    assert NoneObserved(d) by {
      forall s | s in d.scores ensures !Feasible(d, s) { assert s in candidates; }
    }
    var highest := HighestBenign(d);
    OnlyAboveBenign(d, highest);
    if highest >= 1.0 { return Raised; }
    r := Ok(if highest + STEP < 1.0 then highest + STEP else 1.0);
    assert Feasible(d, r.value);
  }

  /** The best of the observed scores is the best of all thresholds. */
  lemma BestOverall(d: Sample, best: real)
    requires WellFormed(d)
    requires forall s :: s in d.scores && Feasible(d, s) ==> F1At(d, s) <= F1At(d, best)
    ensures forall t :: Feasible(d, t) ==> F1At(d, t) <= F1At(d, best)
  {
    forall t | Feasible(d, t) ensures F1At(d, t) <= F1At(d, best) {
      ObservedOrSilent(d, t);
      F1Bounds(d, best);
    }
  }
}
