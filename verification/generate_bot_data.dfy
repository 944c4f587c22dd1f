/**
 The synthetic bot trajectory: fifty points moving by a constant step of
 (+5, +2) pixels every 100 ms.  The coordinates start at (10, 10) but are
 incremented before each point is appended, so the first point is (15, 12).
 The generator takes no input and uses no randomness.
 */
module BotData {
  import opened Squares
  import opened Stats
  import opened FeatureExtraction

  const BotPointCount: nat := 50

  /** The closed form of the i-th generated point. */
  function BotPoint(i: nat): Point {
    Point((15 + 5 * i) as real, (12 + 2 * i) as real, 1000 + 100 * i)
  }

  function BotTrajectory(): seq<Point> {
    seq(BotPointCount, (i: int) requires 0 <= i => BotPoint(i))
  }

  /** `simulate_bot_movement`: the loop increments the coordinates, then
      appends the point stamped `1000 + i * 100`. */
  method SimulateBotMovement() returns (data: seq<Point>)
    ensures data == BotTrajectory()
  {
    data := [];
    var x, y := 10, 10;
    for i := 0 to BotPointCount
      invariant |data| == i
      invariant x == 10 + 5 * i && y == 10 + 2 * i
      invariant forall k :: 0 <= k < i ==> data[k] == BotPoint(k)
    {
      x := x + 5;
      y := y + 2;
      var t := 1000 + i * 100;
      data := data + [Point(x as real, y as real, t)];
    }
  }

  /** Shape of the trajectory: fifty points, the first at (15, 12) at time
      1000, and every step moving by (+5, +2) over 100 ms. */
  lemma BotTrajectoryShape()
    ensures |BotTrajectory()| == 50
    ensures BotTrajectory()[0] == Point(15.0, 12.0, 1000)
    ensures forall i :: 0 <= i < 50 ==>
      BotTrajectory()[i].x == (15 + 5 * i) as real
      && BotTrajectory()[i].y == (12 + 2 * i) as real
      && BotTrajectory()[i].t == 1000 + 100 * i
    ensures ConstantStep(BotTrajectory(), 5.0, 2.0, 100)
  {
  }

  /** The timestamps strictly increase, so every step of the trajectory is a
      valid speed sample. */
  lemma BotTimestampsIncrease()
    ensures forall i, j :: 0 <= i < j < |BotTrajectory()| ==> BotTrajectory()[i].t < BotTrajectory()[j].t
    ensures forall i :: 1 <= i < |BotTrajectory()| ==> ValidStep(BotTrajectory(), i)
  {
  }

  /** The speed of every bot step: sqrt(5^2 + 2^2) pixels over 0.1 s. */
  function BotSpeed(sqrt: SqrtFn): real {
    1000.0 * sqrt(29.0) / 100.0
  }

  /** Extracting features from the bot trajectory gives 49 identical speeds:
      the mean and the maximum are the common speed, the deviation is zero
      and the point count is 50. */
  lemma BotFeatures(sqrt: SqrtFn)
    ensures |Speeds(sqrt, BotTrajectory())| == 49
    ensures forall k :: 0 <= k < 49 ==> Speeds(sqrt, BotTrajectory())[k] == BotSpeed(sqrt)
    ensures Extract(sqrt, BotTrajectory()) == Ok(FeatureVector(BotSpeed(sqrt), 0.0, BotSpeed(sqrt), 50))
  {
    BotTrajectoryShape();
    assert Square(5.0) + Square(2.0) == 29.0 by {
      SquareIsProduct(5.0);
      SquareIsProduct(2.0);
    }
    ConstantStepSpeeds(sqrt, BotTrajectory(), 5.0, 2.0, 100);
    ConstantStepFeatures(sqrt, BotTrajectory(), 5.0, 2.0, 100);
  }
}
