# Utilization bar chart — a verified model

This project models the logic of the AngularJS directive `pfUtilizationBarChart`, a horizontal
bar showing how much of a total has been used. The directive's only logic is the listener it
registers with `scope.$watch('chartData', ...)`. Each time the listener runs it does three things:

1. It computes `Math.round(100 * (used / total))` and writes it into the caller's
   `chartData.percentageUsed`.
2. It sets the colour flags `isError`, `isWarn` and `isOk`. Each one is a strict comparison
   against the optional `thresholds.warning` and `thresholds.error`.
3. It turns `animate` on and schedules a zero-delay `$timeout` that turns it off again.

The model has two modules:

- `Utilization` (`utilization.dfy`) holds the pure part.
  - `Percent` is the percentage. It is exact integer arithmetic, checked against the
    real-number definition of `Math.round`: the nearest integer, with halves going up.
  - When `total` is 0, `Percent` gives the non-finite values JavaScript produces: `PosInfinity`,
    `NegInfinity` or `NotANumber`.
  - `Classify` gives the three flags. It compares the way JavaScript does, so nothing compares
    true against `NaN`.
- `UtilizationBarChart` (`utilization_bar_chart.dfy`) holds the state.
  - `ChartData` is the caller-owned object the chart writes into.
  - `Chart` is the chart's isolated scope. `OnChartDataChange` is the watch listener.
    `TimerFires` is the body of the scheduled timeout.
  - `pendingResets` counts the timeouts that are scheduled but have not run yet.
  - The invariant `Valid()` says that `animate` is never on unless a pending timeout will
    switch it off.

Two details of the code decide the model's choices:

- `Math.round` rounds halves toward +∞: −0.5 becomes 0 (JavaScript's −0), not −1. It neither rounds halves away
  from zero nor to even.
- The code never cancels a pending `$timeout`. Every recomputation schedules one more, and
  `pendingResets` counts them.

When `warning <= error`, a percentage exactly equal to `warning` or `error` sets none of the
three flags. The model keeps this gap as written, and `Classify` proves exactly when it occurs.
Nothing checks the order of the thresholds. With inverted thresholds the gap is different: for
warning 90 and error 50, a value of 90 sets isError and a value of 50 sets isOk.

The directive's doc comment gives the warning colour to a percentage that is past the warning
threshold and not past the error threshold. Read literally, that includes a value exactly
equal to `error`, but the code sets no flag for it. The same happens at the warning
threshold: the comment gives the blue colour to a percentage that is past no threshold, which
includes a value exactly equal to `warning`, but the code's strict `<` does not set isOk for
it. The HTML template is not part of this model, so
the colour the bar actually shows there is not modelled.

## Model

| member | source | states |
|---|---|---|
| `Utilization.RoundHalfUp` | src/charts/utilization-bar/utilization-bar-chart.directive.js:127 | for a positive divisor, the result k satisfies the integer form of rounding to nearest with halves up: 2dk − d ≤ 2n < 2dk + d |
| `Utilization.RatioAsQuotient` | src/charts/utilization-bar/utilization-bar-chart.directive.js:127 | `100 * (used / total)` taken exactly equals the single quotient `(100·used)/total`, and the same with both signs flipped |
| `Utilization.Percent` | src/charts/utilization-bar/utilization-bar-chart.directive.js:127 | for total ≠ 0 the result is finite and is `Math.round` of the exact value 100·(used/total): within [x − ½, x + ½); for total = 0 it is +∞ when used > 0, −∞ when used < 0, NaN when used = 0, and never otherwise |
| `Utilization.PercentUnique` | src/charts/utilization-bar/utilization-bar-chart.directive.js:127 | any integer that rounds 100·used/total in `Math.round`'s sense is the percentage `Percent` gives |
| `Utilization.PercentBounds` | src/charts/utilization-bar/utilization-bar-chart.directive.js:127 | with total > 0: used ≥ 0 gives a percentage ≥ 0, and used ≤ total gives one ≤ 100 |
| `Utilization.PercentMonotone` | src/charts/utilization-bar/utilization-bar-chart.directive.js:127 | with a fixed positive total, more used never gives a smaller percentage |
| `Utilization.PercentEndpoints` | src/charts/utilization-bar/utilization-bar-chart.directive.js:127 | nothing used is exactly 0%; everything used is exactly 100% |
| `Utilization.Above` | src/charts/utilization-bar/utilization-bar-chart.directive.js:130-135 | JavaScript's `>` between the percentage and a threshold is strict: a value equal to the threshold is never above it, and NaN never is |
| `Utilization.Below` | src/charts/utilization-bar/utilization-bar-chart.directive.js:130-135 | JavaScript's `<` between the percentage and a threshold is strict: a value equal to the threshold is never below it, and NaN never is. Below excludes above. Apart from NaN and the threshold itself, exactly one of below and above holds |
| `Utilization.ThresholdOrder` | src/charts/utilization-bar/utilization-bar-chart.directive.js:130-135 | for thresholds x ≤ y, being above y implies being above x, and being below x implies being below y. This is why isOk and isError cannot both hold when warning ≤ error |
| `Utilization.Classify` | src/charts/utilization-bar/utilization-bar-chart.directive.js:130-135 | with no thresholds, all three flags are false. For a finite percentage v: isError iff v > error, isOk iff v < warning, isWarn iff warning < v < error. NaN sets no flag; +∞ sets only isError; −∞ sets only isOk. isWarn never holds with isOk or isError. When warning ≤ error, isOk and isError never hold together, and no flag is set iff the percentage is NaN or exactly equal to warning or to error |
| `Utilization.InvertedThresholds` | src/charts/utilization-bar/utilization-bar-chart.directive.js:130-135 | thresholds are not checked for warning ≤ error; with warning 90 and error 50, a 70% value is both ok and in error, 90 is only in error and 50 is only ok, so values equal to a threshold are classified |
| `Utilization.DocumentationExample` | src/charts/utilization-bar/utilization-bar-chart.directive.js:63-101 | the documented data sets: 8 of 24, bound without thresholds, is 33% and sets no flag; with thresholds 60/85, 25 of 100 is ok, 420 of 500 is 84% and warn, 350 of 500 is warn, and 450 of 500 is 90% and error |
| `UtilizationBarChart.ChartData.constructor` | src/charts/utilization-bar/utilization-bar-chart.directive.js:14-18 | a caller's data object holds the given used and total, with no percentage written yet |
| `UtilizationBarChart.Chart.constructor` | src/charts/utilization-bar/utilization-bar-chart.directive.js:112-122 | a linked chart holds its chartData and thresholds bindings; no flag is set, animate is off and no timeout is pending, so Valid() holds |
| `UtilizationBarChart.Chart.OnChartDataChange` | src/charts/utilization-bar/utilization-bar-chart.directive.js:124-142 | undefined data changes nothing and schedules no timeout. Otherwise used and total are unchanged and percentageUsed becomes `Percent(used, total)`. The flags become `Classify` of that percentage and the thresholds. animate is on and exactly one more timeout is pending. Valid() is preserved |
| `UtilizationBarChart.Chart.TimerFires` | src/charts/utilization-bar/utilization-bar-chart.directive.js:139-141 | a pending timeout runs: animate goes off and one fewer timeout is pending. The data, thresholds and flags are unchanged, and Valid() is preserved |
| `UtilizationBarChart.SharedDataExample` | src/charts/utilization-bar/utilization-bar-chart.directive.js:41-53 | one data object (420 of 500) bound to a regular and an inline chart with thresholds 60/85: after both handlers and both timeouts run, the shared object holds 84%, both charts are warn only, neither animates and nothing is pending; used and total are unchanged |
| `UtilizationBarChart.UndefinedDataExample` | src/charts/utilization-bar/utilization-bar-chart.directive.js:124-125 | a chart whose data binding is undefined runs its handler and stays as linked: no flag set, animate off, no timeout pending |

## Left out

- Floating point: the model computes `100 * (used / total)` exactly over the integers and
  rationals. It does not model IEEE-754 rounding in the division and multiplication before
  `Math.round`, or negative zero. This can change results. In doubles, `100 * (29 / 200)` is
  14.499999999999998, so the directive shows 14, while `Percent(29, 200)` is 15. The same
  expression also overflows to ∞ once |used / total| exceeds about 1.8e306 (with total
  1, once |used| does), and integers lose precision beyond 2^53.
- Non-integer `used`, `total` and thresholds: only integers are modelled.
- JavaScript coercion of strings to numbers. The documentation example binds strings such as
  `'8'` and `'60'`; the model takes them as the numbers they denote.
- Truthiness: the flags are modelled as booleans. When `thresholds` is falsy, the source
  assigns the falsy `thresholds` value itself, and the model reads that as false.
- A thresholds object without `warning` or `error` fields is not modelled. Its comparisons
  against `undefined` would all be false.
- The `$watch` machinery is not modelled. `OnChartDataChange` is called explicitly. The real
  watch compares by reference, so changing `used` or `total` inside the same object does not
  re-run the listener.
- An undefined binding is modelled as a null reference. In JavaScript a `null` `chartData`
  passes the `typeof` test, and the handler would then throw.
- `$timeout` scheduling is modelled only as the `pendingResets` count and an explicit
  `TimerFires` step. There is no timing and no ordering of timeouts across charts.
- The `description`, `units`, `labelFormat` and `layout` bindings are left out: they are only
  passed to the HTML template. That template, and the label text it builds, are not part of
  this model.
- test/karma.conf.js is test-runner configuration with no logic and is not modelled.
