# Behavioural CAPTCHA detector: feature extraction, modelled in Dafny

The detector decides whether a recorded pointer trajectory came from a human
or a bot. It uses four kinematic features computed from the trajectory. This
project models the two pieces of that pipeline that the repository computes
itself:

- **Feature extraction** (`extract_features.py`). The extractor walks the
  consecutive point pairs and skips every pair whose timestamps do not
  strictly increase. For each remaining pair it records the Euclidean
  displacement divided by the elapsed time in seconds. It returns the mean,
  the population standard deviation and the maximum of those speeds, plus
  the total number of points. When no pair is valid, `np.max` of the empty
  list raises, so no feature record is produced. `load_data` attaches a class
  label to the extracted features.
- **Synthetic bot trajectory** (`src/generate_bot_data.py`). This generates
  50 points with a constant step of (+5, +2) pixels every 100 ms.

Files:

- `stats.dfy` holds two modules. `Squares` defines the square of a real.
  `Stats` defines the aggregates `np.mean`, `np.std` (via the population
  variance) and `np.max`, and proves their bounds.
- `extract_features.dfy` (module `FeatureExtraction`) holds the point and
  feature records, the speed list, the extractor and `load_data`.
- `generate_bot_data.dfy` (module `BotData`) holds the bot trajectory and the
  lemma that links the two source files.

Speeds and aggregates are exact reals. Timestamps are integers in
milliseconds. The square root is a parameter `sqrt` of type `Stats.SqrtFn`.
Such a function maps 0 to 0 and maps every non-negative number to a
non-negative number; nothing else about it is assumed. A failed extraction is
`Err(EmptySignal)`.

`Squares.Square` multiplies `d` by `Same(d)`, the identity, instead of
writing `d * d`. With plain `d * d` the solver cannot use these terms in
linear reasoning. `Squares.SquareIsProduct` proves the two are equal.

## Model

| member | source | states |
|---|---|---|
| `FeatureExtraction.StepSpeed` | extract_features.py:34-40 | the speed of a pair with increasing timestamps is non-negative |
| `FeatureExtraction.StepSpeedInMilliseconds` | extract_features.py:36-40 | a pair's speed equals 1000 · sqrt(dx² + dy²) / (t[i] − t[i−1]): the conversion of the time gap to seconds is a factor of 1000 |
| `FeatureExtraction.Speeds` | extract_features.py:31-41 | fewer than two points give no speeds; otherwise there are at most n − 1 speeds; every speed is non-negative |
| `FeatureExtraction.ValidSteps` | extract_features.py:32-39 | lists, in strictly increasing order, exactly the indices i whose pair (i−1, i) has t[i−1] < t[i] |
| `FeatureExtraction.SpeedsFollowValidSteps` | extract_features.py:31-41 | the number of speeds equals the number of strictly increasing pairs; the k-th speed is the speed of the k-th such pair, so speeds appear in pair order and equal or decreasing pairs contribute nothing |
| `FeatureExtraction.SpeedsEmptyIff` | extract_features.py:31-41 | the speed list is empty if and only if no adjacent pair has strictly increasing timestamps |
| `FeatureExtraction.CollectSpeeds` | extract_features.py:31-41 | the source's loop, with the `dt > 0` test on seconds, builds exactly the speed list |
| `FeatureExtraction.Extract` | extract_features.py:11-49 | fails if and only if no pair is valid; on success `num_points` is the full input length, `max_speed` is one of the speeds and is at least every speed, `avg_speed` is the mean of the speeds (see `Stats.Mean`: times the speed count it equals their sum) and lies between the minimum and the maximum speed, `std_speed` is the root of the variance, is non-negative, and is 0 when all speeds are equal |
| `FeatureExtraction.ShortTrajectoryFails` | extract_features.py:31-47 | an input of fewer than two points yields no features (`EmptySignal`) |
| `FeatureExtraction.LoadData` | extract_features.py:51-66 | succeeds exactly when extraction does; the features are returned unchanged and the label equals the argument |
| `FeatureExtraction.ConstantStepSpeeds` | extract_features.py:31-41 | a trajectory whose every step moves by (dx, dy) over dt > 0 ms yields n − 1 speeds, all equal to 1000 · sqrt(dx² + dy²) / dt |
| `FeatureExtraction.ConstantStepFeatures` | extract_features.py:44-49 | such a trajectory's features are mean = max = the common speed, standard deviation 0, and `num_points` = n |
| `Stats.Mean` | extract_features.py:45 | the mean of a non-empty list, multiplied by its length, is the sum of its samples |
| `Stats.Max` | extract_features.py:47 | the maximum is one of the samples and is at least every sample |
| `Stats.MeanBetweenMinAndMax` | extract_features.py:45 | the mean of a non-empty list lies between its minimum and its maximum |
| `Stats.Variance` | extract_features.py:46 | the population variance is non-negative |
| `Stats.VarianceZeroIff` | extract_features.py:46 | the variance is zero if and only if all samples are equal |
| `Stats.StdDev` | extract_features.py:46 | the standard deviation is non-negative, and zero when all samples are equal |
| `Stats.ConstantAggregates` | extract_features.py:45-47 | a list of copies of c has mean c, maximum c and variance 0 |
| `BotData.SimulateBotMovement` | src/generate_bot_data.py:5-13 | the generator's loop returns exactly the 50-point closed-form trajectory; it has no input, so its result is fixed |
| `BotData.BotTrajectoryShape` | src/generate_bot_data.py:7-12 | 50 points; point i is (15 + 5i, 12 + 2i) at time 1000 + 100i; the first point is (15, 12), not (10, 10); every step is (+5, +2) over 100 ms |
| `BotData.BotTimestampsIncrease` | src/generate_bot_data.py:11 | the timestamps strictly increase, so every adjacent pair is a valid speed sample |
| `BotData.BotFeatures` | src/generate_bot_data.py:8-12 | extracting features from the generated trajectory (extract_features.py:32-48) gives 49 speeds, all equal to 1000 · sqrt(29) / 100; mean = max = that speed, deviation 0, `num_points` = 50 |

## Left out

- `src/train_model.py` (random-forest training, metrics, feature importance)
  is left out. It delegates to scikit-learn, pandas and joblib, whose code is
  not part of this model.
- `predict.py` is left out. It loads the model and the data with joblib and
  JSON, then calls scikit-learn's `predict` and `predict_proba`. Its own
  arithmetic (scaling two probabilities by 100 and taking the larger) depends
  on `predict_proba`, which is not part of this model.
- `demo.py` is left out: it only runs the other scripts as subprocesses and
  prints their output.
- The JSON write at src/generate_bot_data.py:15-16 and the `__main__` block of
  extract_features.py (CSV and DataFrame output) are I/O and are left out.
- `FeatureExtraction.LoadData` does not read a file. The parsed point list is
  its argument, and JSON errors and missing keys (a `KeyError` in the source)
  are not modelled, because a `Point` always has all three fields.
- Floating point is not modelled: coordinates, speeds and aggregates are exact
  reals. The model has no IEEE rounding and no NaN. The `RuntimeWarning` that
  `np.mean` and `np.std` give for an empty list is subsumed by the
  `EmptySignal` error that `np.max` raises.
- `FeatureExtraction.Extract`: the square root is only assumed to be
  non-negative with sqrt(0) = 0, not exact. So `std_speed` is stated to be the
  root of the variance, but its numeric value is not pinned down (for the bot
  trajectory the model gives 1000 · sqrt(29) / 100 rather than ≈ 53.85).
- `BotData.SimulateBotMovement`: the source imports `math` and `random` but
  never uses them in this function. Determinism follows from the contract,
  which fixes the result of a call with no arguments, so there is no separate
  lemma for it.
- Python's label can be any value; the model uses an integer (0 for human,
  1 for bot).
- Non-monotonic timestamps are not an error. The extractor silently skips
  pairs with equal or decreasing timestamps, and the model follows the code.
  A stricter design would reject such input as malformed.
