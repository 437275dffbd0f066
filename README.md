# Prediction smoothing for a prosthetic controller

A model of the two decision smoothers in `Post-processing/PredictionSmoothing.py`.
They sit between a classifier and a prosthetic actuator and turn a noisy stream of
per-cycle predictions into a stable discrete command.

- `SmoothProstheticController` (module `BinaryFilter`) is the binary filter.
  Each cycle it blends the new probability into a running output with a one-pole
  exponential moving average. It then applies a hysteresis rule to a 0/1 state
  (0 = closed, 1 = open): a closed controller opens only when the output rises
  above `upper`, and an open one closes only when it falls below `lower`.
- `MultiClassSmoothController` (module `MultiClassFilter`) is the multi-class filter.
  It blends a whole probability vector element-wise. It then selects the first class
  that attains the maximum, but only when that maximum exceeds `threshold`.
  Otherwise the previous class is kept (a latching, "sticky" selection).

Module `Smoothing` holds the shared filter step `Blend` and its constant-input
response `Repeat`: the exact error decay, monotone approach and convergence.
Module `Scenarios` drives both classes through concrete cycle sequences:
a binary controller opening on the fifth cycle of a steady 1.0 input,
reset idempotence, the three-class latch-then-switch sequence, and argmax tie-breaking.
Those scenario methods have no postconditions of their own. They check that the
classes' contracts are strong enough to predict every reported state.

The code validates nothing, and the model adds no validation:
- The code never enforces `lower < upper` or thresholds in [0, 1]. The model does not assume them either.
- The code never keeps the smoothed output in [0, 1]. Inputs outside [0, 1] are blended as given.
- The stability range (0, 2) for `alpha` appears only as a comment (lines 4 and 31). It is
  the hypothesis of `ErrorShrinks`, `RepeatErrorBound`, `WithinAfter` and `RepeatConverges`,
  and not an invariant of either class. The monotone-approach lemmas use the narrower
  range (0, 1] that the same comment prefers, and `OvershootAboveOne` shows why:
  for `1 < alpha < 2` each step jumps over the input.

`reset` of the binary controller sets the output to the literal 0.5, not to the
threshold midpoint the constructor uses. The model keeps that: `Scenarios.BinaryResetIsIdempotent`
shows that after a reset the output differs from the initial one whenever `u + l != 1`.

Arithmetic is exact over `real`. Python's `1 / self.n` is `1.0 / n` here.

## Model

| member | source | states |
|---|---|---|
| `Smoothing.BlendError` | Post-processing/PredictionSmoothing.py:15 | the error equation of one filter step `Blend`: the new error (output minus input) is exactly the old error times `1 - alpha`; `alpha = 1` gives the input, `alpha = 0` keeps the old output |
| `Smoothing.RepeatError` | Post-processing/PredictionSmoothing.py:14-15 | after `k` cycles of a constant input `p` the error is exactly `(1 - alpha)^k` times the initial error |
| `Smoothing.RepeatKeepsSide` | Post-processing/PredictionSmoothing.py:4 | for `alpha <= 1` the output after any number of constant-input cycles is still on the side of the input it started on (never crosses it), since `(1 - alpha)^k` is non-negative |
| `Smoothing.MarginRange` | Post-processing/PredictionSmoothing.py:4 | the stability margin `1 - abs(1 - alpha)` lies in (0, 1] exactly when `alpha` is in the stable range (0, 2) |
| `Smoothing.ErrorShrinks` | Post-processing/PredictionSmoothing.py:4 | for `0 < alpha < 2` each cycle multiplies the distance to a constant input by exactly `abs(1 - alpha)`, which is below 1 (and equals `1 - alpha` when `alpha <= 1`), so the distance strictly shrinks unless the output has reached the input |
| `Smoothing.OvershootAboveOne` | Post-processing/PredictionSmoothing.py:4 | for `1 < alpha < 2` one step takes an output below the input to above it, and one above it to below it: the response is not monotone there |
| `Smoothing.RepeatRisesToInput` | Post-processing/PredictionSmoothing.py:4 | for `0 < alpha <= 1`, starting at or below a constant input the output never decreases and never overshoots it |
| `Smoothing.RepeatFallsToInput` | Post-processing/PredictionSmoothing.py:4 | the mirror image: starting at or above the input the output never increases and never undershoots it |
| `Smoothing.RepeatErrorBound` | Post-processing/PredictionSmoothing.py:4 | for `0 < alpha < 2` the error after `k` constant-input cycles, times `1 + k * Margin(alpha)`, is at most the initial error (the decay bound the convergence proof uses) |
| `Smoothing.WithinAfter` | Post-processing/PredictionSmoothing.py:4 | for `0 < alpha < 2`, once `k * Margin(alpha) * eps` exceeds the initial error, the output after `k` constant-input cycles is within `eps` of the input |
| `Smoothing.RepeatConverges` | Post-processing/PredictionSmoothing.py:4 | stability on the whole range the comment names: for every `0 < alpha < 2` and every `eps > 0` there is a cycle from which the output stays within `eps` of a constant input |
| `BinaryFilter.NextState` | Post-processing/PredictionSmoothing.py:17-21 | closed becomes open exactly when the output is above `upper`; open becomes closed exactly when it is below `lower`; no other transition exists; inside `[lower, upper]` the state is unchanged |
| `BinaryFilter.RunStaysBinary` | Post-processing/PredictionSmoothing.py:11-21 | any sequence of cycles from state 0 or 1 ends in state 0 or 1 |
| `BinaryFilter.BandKeepsState` | Post-processing/PredictionSmoothing.py:17-21 | no chatter: if every smoothed output of a run stays in `[lower, upper]` the final state equals the initial one, whatever it was |
| `BinaryFilter.OpeningNeedsHighOutput` | Post-processing/PredictionSmoothing.py:18-19 | a run that starts closed and ends open saw some smoothed output above `upper` |
| `BinaryFilter.ClosingNeedsLowOutput` | Post-processing/PredictionSmoothing.py:20-21 | a run that starts open and ends closed saw some smoothed output below `lower` |
| `BinaryFilter.SmoothProstheticController.constructor` | Post-processing/PredictionSmoothing.py:6-11 | output starts at `(u + l) / 2`, state at 0, and `alpha`, `upper`, `lower` are the given ones (defaults 0.3, 0.9, 0.1) |
| `BinaryFilter.SmoothProstheticController.Update` | Post-processing/PredictionSmoothing.py:13-23 | the new output is `Blend(alpha, p, old output)`, the new state is `NextState` of the old state and the new output (one `Step`), the state stays 0 or 1, the returned value is the new state, and `alpha`, `upper`, `lower` are unchanged |
| `BinaryFilter.Drive` | Post-processing/PredictionSmoothing.py:13-23 | calling `update` once per input of `ps` leaves the controller in the snapshot `Run` gives for `ps`, the value returned at cycle `j` is the state of `Run` on the first `j` inputs, and the configuration is unchanged; so the `Run` lemmas hold of the object |
| `BinaryFilter.SmoothProstheticController.Reset` | Post-processing/PredictionSmoothing.py:25-27 | output becomes the literal 0.5 and state 0 regardless of history, so a second reset changes nothing; configuration unchanged |
| `MultiClassFilter.FirstMaxExists` | Post-processing/PredictionSmoothing.py:46 | every non-empty vector has an index that is the first occurrence of its maximum |
| `MultiClassFilter.FirstMaxUnique` | Post-processing/PredictionSmoothing.py:46 | that index is unique, so the selected class is a function of the smoothed vector |
| `MultiClassFilter.MaxAboveIffSomeAbove` | Post-processing/PredictionSmoothing.py:45 | the maximum exceeds the threshold exactly when some element does |
| `MultiClassFilter.SmoothVector` | Post-processing/PredictionSmoothing.py:42 | the smoothed vector has the old length and each element is `Blend` of the input element and the old element |
| `MultiClassFilter.ArgMax` | Post-processing/PredictionSmoothing.py:45-46 | the index returned holds a maximal element and every earlier element is strictly smaller (first-occurrence argmax) |
| `MultiClassFilter.MultiClassSmoothController.constructor` | Post-processing/PredictionSmoothing.py:33-38 | for `n > 0`: `n` classes, every output element `1/n`, class 0 selected, given `alpha` and `threshold` (defaults 2, 0.3, 0.9) |
| `MultiClassFilter.MultiClassSmoothController.Update` | Post-processing/PredictionSmoothing.py:40-48 | every element is blended; if some smoothed element exceeds the threshold the selected class becomes the first maximum, otherwise it is unchanged; `0 <= state < n` and the length `n` are kept; returns the new state |
| `MultiClassFilter.MultiClassSmoothController.Reset` | Post-processing/PredictionSmoothing.py:50-52 | every output element becomes `1/n` and the selected class 0 regardless of history; configuration unchanged |

## Left out

- Floating-point rounding, NaN and infinite inputs: all arithmetic is exact over `real`, including the blend and `1 / n`.
- numpy: `np.full`, vector arithmetic, `np.max` and `np.argmax` are modelled by a sequence comprehension, `SmoothVector` and `ArgMax`. numpy broadcasting is not modelled.
- MultiClassFilter.MultiClassSmoothController.Update: requires `|probVector| == n`, a case the code does not enforce. With `n > 1`, a length-1 vector is broadcast across all classes and any other length makes numpy raise. With `n == 1` the stored output of shape (1,) is broadcast to the vector's length, so the output then takes that length and the selected class can exceed `n - 1`. An empty vector leaves an empty output, and `np.max` raises on it at line 45. The model has neither the broadcasting nor an error path for these cases.
- MultiClassFilter.MultiClassSmoothController.constructor: requires `nClasses > 0`. With `n == 0` the code raises ZeroDivisionError at `1 / self.n` (line 35), and with a negative `n` `np.full` raises. The model has no error path for either.
- `np.max` followed by `np.argmax` is two scans in the code. The model does one `ArgMax` scan and compares the element it finds with the threshold. `MaxAboveIffSomeAbove` shows that this is the same test.
- Python's dynamic typing: inputs are reals and the class count an integer; the numpy integer type of the selected class is an `int`.
- Concurrent use of one instance: the code has no synchronisation and the model is sequential.
- The classifier that produces the probabilities and the actuator that consumes the state are not part of this model.
