# sonar_to_scan: scan fusion in SonarManager

`SonarManager` subscribes to a laser scan (`sensor_msgs/LaserScan`) and republishes it as a
full-circle scan with the readings of several sonars folded in. For each inbound scan,
`lscCallback` does three things:

1. It builds an output scan from -PI to PI. The output copies the inbound header, angle
   increment, timing and range bounds. It has `ceil(2*PI / increment)` bins, and every
   bin starts at +infinity ("no return").
2. It writes every inbound sample `i` into output bin
   `int(((i * inc_in + angle_min_in) - angle_min_out) / inc_out)`, in index order. When
   two samples land in the same bin, the later one overwrites the earlier.
3. For every sonar, it skips the sonar if its reading is out of limits or its tf lookup
   throws. Otherwise it transforms the sonar's central ray `(range, 0, 0)` into the laser
   frame and passes it to `includePointToLaser`. That function drops a point whose bearing
   or distance is outside the scan's envelope. Otherwise it lowers bin
   `int((angle - angle_min) / increment)` to the point's distance if that is closer.

The model is in five modules:

- `Ranges` (ranges.dfy): a bin's value, `Inf | Fin(r)`, and the closest-wins update.
- `Scans` (scans.dfy): the `LaserScan` message as a value. It also holds the skeleton,
  the bin index, and `Merge`, which is `includePointToLaser` on values. The lemmas show
  that merges are idempotent, commute, and that their order does not matter. After a
  sequence of merges, every in-envelope point's bin is at most its distance, and every
  bin holds its starting value or one of those distances.
- `Reprojection` (reproject.dfy): copying the inbound samples, with last-writer-wins.
- `Fusion` (sonar_manager.dfy): sonars, tf lookups, the fused result `Fused`, and the
  imperative code. `OutputScan` is the output message: its bins are an `array<Range>`
  written in place by `IncludeInbound` and `IncludePoint`. `SonarManager.LscCallback`
  is the callback's loop over the sonars, with `continue` for skipped sonars. Each
  method's `ensures` ties `Value()` to the value-level function.
- `Scenarios` (scenarios.dfy): worked cases. One is a front-facing laser with 181
  samples at one-degree steps and one sonar looking straight ahead. A second is the same
  setup with a failed lookup. A third is a point at bearing PI.

The model uses reals for the message's float fields. `Trunc` is C++'s double-to-int
conversion, which truncates toward zero. `Ceil` is `std::ceil`. `PI` is `M_PI`.

### Preconditions the code does not check

The code divides by the angle increment and indexes `ranges` without a bounds check.
The model makes both of these preconditions, so the hazards stay visible:

- `Fits(s, p)`: the increment is positive, and a point inside the envelope has a bin
  below `|ranges|`. `UpperEdge` proves that this fails exactly when the bearing is PI
  and `2*PI / increment` is a whole number. The bin is then `|ranges|`, one past the end.
  `PointBehindIsPastLastBin` shows this for the one-degree scan: bin 360 of 360 bins.
- `InboundFits(out, input)`: every inbound sample's bin lies in `[0, |ranges|)`. This can
  fail when the inbound scan extends beyond [-PI, PI). Because of truncation toward zero,
  a sample less than one bin before -PI goes to bin 0, not -1.
  `ReprojectOverwritesCloser` shows two samples colliding in bin 0 this way.
- `CallbackFits`: both of the above, for the inbound scan and for every sonar that
  reaches `includePointToLaser`.

The inbound re-projection converts with `int(...)`, which truncates toward zero. This
differs from a floor when the quotient lies in (-1, 0): such a sample goes to bin 0, not
bin -1 (`SampleBin`), as `ReprojectOverwritesCloser` shows.

## Model

| member | source | states |
|---|---|---|
| `Ranges.Closest` | src/sonar_manager.cpp:106-107 | replacing a bin by the distance only when the bin holds something farther yields the minimum of the two |
| `Ranges.Exceeds` | src/sonar_manager.cpp:106 | the test `stored > range` holds exactly when the stored bin is not at least as close as the distance (+infinity always exceeds) |
| `Ranges.ClosestCommutes` | src/sonar_manager.cpp:106-107 | two closest-wins updates of a bin commute; repeating one changes nothing |
| `Scans.Trunc` | src/sonar_manager.cpp:48 | the double-to-int conversion is the integer next to x on the side of zero: non-negative and at most x for x >= 0, and non-positive and at least x for x < 0 |
| `Scans.Ceil` | src/sonar_manager.cpp:42 | `std::ceil` is the least integer not below x |
| `Scans.CircleBins` | src/sonar_manager.cpp:42 | the output's bin count is positive and is the fewest bins of width `inc` that cover 2*PI: (n-1)*inc < 2*PI <= n*inc |
| `Scans.Skeleton` | src/sonar_manager.cpp:31-43 | the output spans -PI..PI, copies the header, increment, time increment, scan time and range bounds, and has `CircleBins(inc)` bins, all +infinity |
| `Scans.BinIndex` | src/sonar_manager.cpp:105 | for an angle at or above angle_min, the index is non-negative and its bin's interval [min + k*inc, min + (k+1)*inc) contains the angle |
| `Scans.BinOfGridAngle` | src/sonar_manager.cpp:105 | an angle exactly angle_min + k*inc goes to bin k |
| `Scans.UpperEdge` | src/sonar_manager.cpp:103-105 | in the skeleton, an in-envelope bearing's bin is at most the bin count, and equals it exactly when the bearing is PI and 2*PI/inc is whole |
| `Scans.InEnvelope` | src/sonar_manager.cpp:103 | a point that passes the bearing and distance test never has a negative bin, so the only unchecked index is one past the last bin |
| `Scans.Merge` | src/sonar_manager.cpp:99-113 | only the point's bin can change, and it becomes min(old, range) when the point is inside the angle and range envelope; outside it the scan is unchanged; the metadata and length never change; no bin increases |
| `Scans.MergeIdempotent` | src/sonar_manager.cpp:106-107 | merging the same point twice equals merging it once |
| `Scans.MergeCommutes` | src/sonar_manager.cpp:106-107 | merging p then q equals merging q then p |
| `Scans.MergeAll` | src/sonar_manager.cpp:52-94 | merging a sequence of points keeps the scan's shape and never raises any bin |
| `Scans.MergeAllLowers` | src/sonar_manager.cpp:52-107 | after merging a sequence of points, the bin of every in-envelope point holds at most that point's distance |
| `Scans.MergeAllFrom` | src/sonar_manager.cpp:52-107 | after merging a sequence of points, every bin holds its starting value or the distance of an in-envelope point whose bin it is |
| `Scans.MergeAllPermutation` | src/sonar_manager.cpp:52-94 | merging any rearrangement of the same points gives the same scan |
| `Reprojection.SampleBin` | src/sonar_manager.cpp:48 | the output bin of inbound sample i (`InboundBin` is its use on the output scan): for a sample at or after the output's angle_min, the bin whose interval holds it; less than one bin before angle_min, bin 0 (truncation, not floor); further before, a negative bin |
| `Reprojection.Reproject` | src/sonar_manager.cpp:46-50 | writing the first n inbound samples over their bins keeps the output's metadata and length |
| `Reprojection.ReprojectUntouched` | src/sonar_manager.cpp:46-50 | a bin that no copied sample maps to keeps its value |
| `Reprojection.ReprojectLastWriter` | src/sonar_manager.cpp:46-50 | a bin holds the sample with the highest index among those mapping to it (overwrite, not minimum) |
| `Reprojection.ReprojectWritten` | src/sonar_manager.cpp:46-50 | after the copy, the bin of sample i holds sample i or a later sample, never an earlier one |
| `Reprojection.InboundBinShift` | src/sonar_manager.cpp:48 | with equal increments and the output starting no later, sample i goes to bin i + trunc((min_in - min_out)/inc) |
| `Reprojection.ReprojectKeepsEverySample` | src/sonar_manager.cpp:36-50 | with the inbound increment and an inbound start at or after -PI, distinct samples go to distinct bins and each survives in its bin |
| `Reprojection.ReprojectUniform` | src/sonar_manager.cpp:43-50 | copying all-`v` samples into all-`v` bins leaves every bin at `v` |
| `Reprojection.ReprojectOverwritesCloser` | src/sonar_manager.cpp:48-49 | samples at -0.5 and 0.5 bins both truncate to bin 0, and the bin keeps the later, farther distance |
| `Fusion.Contributions` | src/sonar_manager.cpp:52-70 | the points handed to `includePointToLaser`, in sonar order, at most one per sonar |
| `Fusion.ContributionsEnds` | src/sonar_manager.cpp:56-70 | no point when every sonar is out of limits or fails its lookup; one point per sonar when every sonar passes both |
| `Fusion.ContributionsExact` | src/sonar_manager.cpp:52-80 | a point is merged exactly when some sonar that is in limits and whose lookup succeeded yields it |
| `Fusion.WithInbound` | src/sonar_manager.cpp:31-50 | the skeleton with the inbound copy has the skeleton's metadata and length |
| `Fusion.WithInboundContents` | src/sonar_manager.cpp:31-50 | after the inbound copy, bins no sample maps to stay +infinity, and the bin of sample i holds sample i or a later one |
| `Fusion.Fused` | src/sonar_manager.cpp:30-96 | the published scan has the skeleton's metadata and length, and no bin is farther than after the inbound copy |
| `Fusion.FusedLowers` | src/sonar_manager.cpp:52-107 | closest wins: a contributing sonar whose point is in the envelope leaves its published bin at most the sonar's distance |
| `Fusion.FusedFrom` | src/sonar_manager.cpp:45-107 | every published bin holds the value the inbound copy left there or the distance of a contributing sonar whose in-envelope point falls in that bin |
| `Fusion.SkippedSonarIsIgnored` | src/sonar_manager.cpp:56-70 | inserting a sonar that is out of limits or whose lookup threw, anywhere in the list, leaves the published scan unchanged |
| `Fusion.SwapAdjacentSonars` | src/sonar_manager.cpp:52-94 | exchanging two neighbouring sonars leaves the published scan unchanged |
| `Fusion.OutputScan.constructor` | src/sonar_manager.cpp:31-43 | the new output message is the skeleton of the inbound scan, in a fresh array |
| `Fusion.OutputScan.IncludeInbound` | src/sonar_manager.cpp:45-50 | after the loop, the message is the output with every inbound sample written over its bin in index order |
| `Fusion.OutputScan.IncludePoint` | src/sonar_manager.cpp:99-113 | the message afterwards is `Merge` of the message before with the point |
| `Fusion.SonarManager.LscCallback` | src/sonar_manager.cpp:30-97 | the scan handed to publish is `Fused(input, sensors, lookups)`: skeleton, inbound copy, then the contributing sonars' points merged in sonar order |
| `Scenarios.FrontLaserFits` | src/sonar_manager.cpp:42-50 | a -PI/2..PI/2 scan at PI/180 gives 360 output bins, its samples fit, and with no returns all bins stay +infinity |
| `Scenarios.AheadPointFits` | src/sonar_manager.cpp:103-105 | bearing 0 at range 2 lies in the envelope and goes to bin 180 |
| `Scenarios.SonarAheadLandsInBin180` | src/sonar_manager.cpp:30-97 | one sonar reading 2.0 along the laser's axis makes bin 180 equal 2.0 and leaves the other 359 bins at +infinity |
| `Scenarios.FailedLookupLeavesLaser` | src/sonar_manager.cpp:63-70 | when the only sonar's lookup fails, the published scan is the copied laser scan |
| `Scenarios.PointBehindIsPastLastBin` | src/sonar_manager.cpp:103-107 | a point at bearing PI is inside the envelope, but its bin is 360 = the bin count, so it does not fit |

## Left out

- ROS publish/subscribe setup and the `publish` call (src/sonar_manager.cpp:6-10,96) are transport I/O. `LscCallback` returns the scan it would publish.
- The tf2 `lookupTransform` / `doTransform` calls and the `hypot` / `atan2` conversion (src/sonar_manager.cpp:63-79,100-101) are foreign library calls. Each sonar comes with a `Lookup`: the thrown exception, or the transformed central point in polar form. How that point depends on the reading and the transform is not modelled.
- The `sonar` class (`inLimits`, `getRange`, `getFrame`, `getTopic`, `getField`) is not part of this model, and its source is not shown. `InLimits` is assumed to mean `rangeMin <= lastRange <= rangeMax`.
- The destructor, `addSonar` and `printSensors` (src/sonar_manager.cpp:12-28) are raw-pointer bookkeeping and console output. `SonarManager` holds its sonars as a sequence given at construction.
- All `std::cout` and `ROS_WARN` logging.
- The commented-out cone expansion (src/sonar_manager.cpp:82-93) is dead code.
- Floating point: the message's float32/double rounding, NaN readings, and infinite distances from a transform. Bin indices are computed exactly over the reals, so a rounding error that moves a point across a bin boundary is not captured.
- The conversion of the bin count to `uint32_t` (src/sonar_manager.cpp:42) is not bounded. Counts that do not fit 32 bits are not modelled.
- Out-of-bounds writes (an index at or past the bin count, or below 0) are excluded by the preconditions `Fits`, `InboundFits` and `CallbackFits` rather than modelled. The code's behaviour there is undefined.
