/**
 The feature extractor of the behavioural CAPTCHA detector: a recorded
 pointer trajectory becomes four kinematic features (mean, standard deviation
 and maximum of the per-step speed, and the number of points).  A step
 between two consecutive points counts only when the timestamps strictly
 increase; every other step is skipped, not recorded as speed zero.
 */
module FeatureExtraction {
  import opened Squares
  import opened Stats

  /** One recorded sample: pixel coordinates and a timestamp in milliseconds. */
  datatype Point = Point(x: real, y: real, t: int)

  /** The four features, in the order the classifier reads them. */
  datatype FeatureVector = FeatureVector(
    avgSpeed: real,
    stdSpeed: real,
    maxSpeed: real,
    numPoints: nat)

  /** A feature row of the training table: the features and the class label
      (0 for human, 1 for bot). */
  datatype LabeledFeatures = LabeledFeatures(features: FeatureVector, classLabel: int)

  /** No step of the trajectory had a positive duration, so there is no speed
      sample and `np.max` of the empty list raises. */
  datatype ExtractError = EmptySignal

  datatype Result<T> = Ok(value: T) | Err(error: ExtractError)

  /** The step ending at index `i` has a positive duration.  `extract_features` tests
      `(t[i] - t[i-1]) / 1000 > 0`, which holds exactly when `t[i-1] < t[i]`. */
  ghost predicate ValidStep(pts: seq<Point>, i: int)
    requires 1 <= i < |pts|
  {
    pts[i - 1].t < pts[i].t
  }

  ghost predicate HasValidStep(pts: seq<Point>) {
    exists i :: 1 <= i < |pts| && ValidStep(pts, i)
  }

  /** Speed in pixels per second of the step from `p` to `q`: the Euclidean
      displacement over the elapsed time converted to seconds. */
  function StepSpeed(sqrt: SqrtFn, p: Point, q: Point): (r: real)
    requires p.t < q.t
    ensures 0.0 <= r
  {
    var dx := q.x - p.x;
    var dy := q.y - p.y;
    var dt := (q.t - p.t) as real / 1000.0;
    sqrt(Square(dx) + Square(dy)) / dt
  }

  /** Dividing by a millisecond count converted to seconds multiplies by 1000. */
  lemma PerSecond(a: real, ms: int)
    requires 0 < ms
    ensures a / (ms as real / 1000.0) == 1000.0 * a / ms as real
  {
  }

  /** The speed is a thousand times the distance over the millisecond gap. */
  lemma StepSpeedInMilliseconds(sqrt: SqrtFn, p: Point, q: Point)
    requires p.t < q.t
    ensures StepSpeed(sqrt, p, q)
         == 1000.0 * sqrt(Square(q.x - p.x) + Square(q.y - p.y)) / (q.t - p.t) as real
    ensures 0.0 <= StepSpeed(sqrt, p, q)
  {
    PerSecond(sqrt(Square(q.x - p.x) + Square(q.y - p.y)), q.t - p.t);
  }

  /** The speed list the loop over `range(1, len(data))` builds: one sample per
      valid step, appended in step order. */
  function Speeds(sqrt: SqrtFn, pts: seq<Point>): (r: seq<real>)
    ensures |pts| < 2 ==> r == []
    ensures 2 <= |pts| ==> |r| <= |pts| - 1
    ensures forall k :: 0 <= k < |r| ==> 0.0 <= r[k]
    decreases |pts|
  {
    if |pts| < 2 then []
    else
      var init := Speeds(sqrt, pts[..|pts| - 1]);
      var p, q := pts[|pts| - 2], pts[|pts| - 1];
      if p.t < q.t then init + [StepSpeed(sqrt, p, q)] else init
  }

  /** The indices `i` of the valid steps `(i-1, i)`, in increasing order; an
      independent description of which steps contribute a speed. */
  function ValidSteps(pts: seq<Point>): (r: seq<nat>)
    ensures forall k :: 0 <= k < |r| ==> 1 <= r[k] < |pts| && ValidStep(pts, r[k])
    ensures forall i :: 1 <= i < |pts| && ValidStep(pts, i) ==> i in r
    ensures forall k, l :: 0 <= k < l < |r| ==> r[k] < r[l]
    decreases |pts|
  {
    if |pts| < 2 then []
    else
      var init := ValidSteps(pts[..|pts| - 1]);
      if pts[|pts| - 2].t < pts[|pts| - 1].t then init + [|pts| - 1] else init
  }

  /** The k-th speed is the speed of the k-th valid step, so there are exactly
      as many speeds as valid steps and they appear in step order. */
  lemma {:induction false} SpeedsFollowValidSteps(sqrt: SqrtFn, pts: seq<Point>)
    ensures |Speeds(sqrt, pts)| == |ValidSteps(pts)|
    ensures forall k :: 0 <= k < |Speeds(sqrt, pts)| ==>
      var i := ValidSteps(pts)[k];
      1 <= i < |pts| && pts[i - 1].t < pts[i].t
      && Speeds(sqrt, pts)[k] == StepSpeed(sqrt, pts[i - 1], pts[i])
    decreases |pts|
  {
    if |pts| >= 2 {
      var init := pts[..|pts| - 1];
      SpeedsFollowValidSteps(sqrt, init);
      assert forall j :: 0 <= j < |init| ==> init[j] == pts[j];
    }
  }

  /** The speed list is empty exactly when no step has a positive duration. */
  lemma SpeedsEmptyIff(sqrt: SqrtFn, pts: seq<Point>)
    ensures Speeds(sqrt, pts) == [] <==> !HasValidStep(pts)
  {
    SpeedsFollowValidSteps(sqrt, pts);
    var v := ValidSteps(pts);
    if |v| > 0 {
      assert ValidStep(pts, v[0]);
    }
  }

  /** The loop of `extract_features`, step by step. */
  method CollectSpeeds(sqrt: SqrtFn, pts: seq<Point>) returns (speeds: seq<real>)
    ensures speeds == Speeds(sqrt, pts)
  {
    speeds := [];
    var i := 1;
    while i < |pts|
      invariant 1 <= i && (|pts| == 0 || i <= |pts|)
      invariant speeds == Speeds(sqrt, pts[..if |pts| == 0 then 0 else i])
    {
      var dx := pts[i].x - pts[i - 1].x;
      var dy := pts[i].y - pts[i - 1].y;
      var dt := (pts[i].t - pts[i - 1].t) as real / 1000.0;
      var prefix := pts[..i + 1];
      assert prefix[..i] == pts[..i];
      assert prefix[i - 1] == pts[i - 1] && prefix[i] == pts[i];
      if dt > 0.0 {
        var speed := sqrt(Square(dx) + Square(dy)) / dt;
        speeds := speeds + [speed];
      }
      i := i + 1;
    }
    assert pts[..|pts|] == pts;
  }

  /** `extract_features`: the four aggregates of the speed list, or
      `EmptySignal` when the list is empty. */
  function Extract(sqrt: SqrtFn, pts: seq<Point>): (r: Result<FeatureVector>)
    ensures r.Err? <==> !HasValidStep(pts)
    ensures r.Ok? ==>
      var s := Speeds(sqrt, pts);
      var f := r.value;
      && f.numPoints == |pts|
      && f.maxSpeed in s
      && (forall k :: 0 <= k < |s| ==> s[k] <= f.maxSpeed)
      && f.avgSpeed == Mean(s)
      && Min(s) <= f.avgSpeed <= f.maxSpeed
      && f.stdSpeed == sqrt(Variance(s))
      && 0.0 <= f.stdSpeed
      && (AllEqual(s) ==> f.stdSpeed == 0.0)
  {
    SpeedsEmptyIff(sqrt, pts);
    var s := Speeds(sqrt, pts);
    if |s| == 0 then Err(EmptySignal)
    else
      MeanBetweenMinAndMax(s);
      Ok(FeatureVector(Mean(s), StdDev(sqrt, s), Max(s), |pts|))
  }

  /** Fewer than two points never yield features. */
  lemma ShortTrajectoryFails(sqrt: SqrtFn, pts: seq<Point>)
    requires |pts| < 2
    ensures Extract(sqrt, pts) == Err(EmptySignal)
  {
  }

  /** `load_data` after the file has been read: the extracted features,
      unchanged, together with the given label. */
  function LoadData(sqrt: SqrtFn, raw: seq<Point>, classLabel: int): (r: Result<LabeledFeatures>)
    ensures r.Ok? <==> Extract(sqrt, raw).Ok?
    ensures r.Ok? ==> r.value.features == Extract(sqrt, raw).value && r.value.classLabel == classLabel
  {
    match Extract(sqrt, raw)
    case Ok(f) => Ok(LabeledFeatures(f, classLabel))
    case Err(e) => Err(e)
  }

  /** Every step moves by the same `(dx, dy)` over the same `dt` milliseconds. */
  ghost predicate ConstantStep(pts: seq<Point>, dx: real, dy: real, dt: int) {
    forall i :: 1 <= i < |pts| ==>
      pts[i].x - pts[i - 1].x == dx && pts[i].y - pts[i - 1].y == dy && pts[i].t - pts[i - 1].t == dt
  }

  /** A constant-velocity trajectory yields one identical speed per step. */
  lemma {:induction false} ConstantStepSpeeds(sqrt: SqrtFn, pts: seq<Point>, dx: real, dy: real, dt: int)
    requires 0 < dt && 1 <= |pts|
    requires ConstantStep(pts, dx, dy, dt)
    ensures |Speeds(sqrt, pts)| == |pts| - 1
    ensures forall k :: 0 <= k < |pts| - 1 ==>
      Speeds(sqrt, pts)[k] == 1000.0 * sqrt(Square(dx) + Square(dy)) / dt as real
    decreases |pts|
  {
    if |pts| >= 2 {
      var c := 1000.0 * sqrt(Square(dx) + Square(dy)) / dt as real;
      var init := pts[..|pts| - 1];
      var p, q := pts[|pts| - 2], pts[|pts| - 1];
      assert ConstantStep(init, dx, dy, dt) by {
        forall i | 1 <= i < |init|
          ensures init[i].x - init[i - 1].x == dx && init[i].y - init[i - 1].y == dy
            && init[i].t - init[i - 1].t == dt
        {
          assert init[i] == pts[i] && init[i - 1] == pts[i - 1];
        }
      }
      ConstantStepSpeeds(sqrt, init, dx, dy, dt);
      assert q.x - p.x == dx && q.y - p.y == dy && q.t - p.t == dt;
      StepSpeedInMilliseconds(sqrt, p, q);
      assert Speeds(sqrt, pts) == Speeds(sqrt, init) + [StepSpeed(sqrt, p, q)];
      assert StepSpeed(sqrt, p, q) == c;
    }
  }

  /** For a constant-velocity trajectory of at least two points the features
      are: mean and maximum equal to the common speed, deviation zero. */
  lemma ConstantStepFeatures(sqrt: SqrtFn, pts: seq<Point>, dx: real, dy: real, dt: int)
    requires 0 < dt && 2 <= |pts|
    requires ConstantStep(pts, dx, dy, dt)
    ensures
      var c := 1000.0 * sqrt(Square(dx) + Square(dy)) / dt as real;
      Extract(sqrt, pts) == Ok(FeatureVector(c, 0.0, c, |pts|))
  {
    var c := 1000.0 * sqrt(Square(dx) + Square(dy)) / dt as real;
    ConstantStepSpeeds(sqrt, pts, dx, dy, dt);
    var s := Speeds(sqrt, pts);
    ConstantAggregates(s, c);
    assert AllEqual(s);
  }
}
