# Light-pollution scoring and nearest-sample resolution, modelled in Dafny

This project models the computational core of a light-pollution map:

- **Scoring engine** (`src/services/lightPollutionUtils.js`): from one
  intensity value (nominally 0–100, clamped before use) it derives a Bortle
  class 1–9, a 0–100 darkness score ("area light score"), a visible-star
  estimate, a Low/Moderate/High band with its colour, and a "restored"
  intensity that simulates a reduction of artificial light without touching
  the source sample. `buildSkyMetrics` bundles these.
- **Spatial resolver** (`findNearestLightPollutionPoint` in the same file):
  keeps the catalog samples whose year is not after the selected year and
  folds over them, keeping the first sample of strictly smaller distance;
  it gives nothing when the position is unknown or no sample is eligible.
- **Mock sky report** (`src/components/SkyReport.jsx`, lines 3–33): a
  synthetic report derived from a free-text query by summing its character
  codes after trimming and lower-casing it.

Modules:

| file | module | models |
|---|---|---|
| `wrappers.dfy` | `Wrappers` | `Option`, for the source's `null` results |
| `js_math.dfy` | `JsMath` | `Math.round` and the `Math.max(lo, Math.min(hi, x))` clamp, over exact reals |
| `js_text.dfy` | `JsText` | `String.prototype.trim` and `toLowerCase` |
| `light_pollution_utils.dfy` | `LightPollutionUtils` | scoring engine and spatial resolver |
| `sky_report.dfy` | `SkyReport` | `inputToSeed`, `clamp`, `STARGAZING_SPOTS`, `buildMockReport` |

Every core function is pure, so every operation is a Dafny `function`. The
resolver is the source's `filter` (`EligiblePoints`) followed by its
`reduce` (`ReduceNearest`, a left fold whose step is `Closer`). The
haversine distance is a parameter `dist: (lat1, lon1, lat2, lon2) -> km`.
Every resolver property holds for whatever distance function is supplied.

JavaScript numbers are Dafny `real`s, and `Math.round(x)` is `floor(x + 1/2)`.
That is exact-real arithmetic. For whole-number intensities, neither
`9 - n / 12.5` nor `n * 0.6` lands on a rounding tie, so there the model and
the double-precision code agree.

## Model

| member | source | states |
|---|---|---|
| `JsMath.Round` | src/services/lightPollutionUtils.js:10 | the result is the integer within half a unit of x, halves going up |
| `JsMath.RoundOfInteger` | src/components/SkyReport.jsx:23-24 | rounding a whole number returns it unchanged |
| `JsMath.Clamp` | src/services/lightPollutionUtils.js:9 | the result lies in [lo, hi]; it is x inside the range, lo below it, hi above it |
| `LightPollutionUtils.Normalized` | src/services/lightPollutionUtils.js:27 | the clamped intensity lies in [0, 100] |
| `LightPollutionUtils.GetIntensityColor` | src/services/lightPollutionUtils.js:1-5 | green exactly when intensity <= 33, yellow exactly when 33 < intensity <= 66, red exactly when intensity > 66 |
| `LightPollutionUtils.GetIntensityLevel` | src/services/lightPollutionUtils.js:13-17 | Low exactly when intensity <= 33, Moderate exactly when 33 < intensity <= 66, High exactly when intensity > 66 |
| `LightPollutionUtils.ColorMatchesLevel` | src/services/lightPollutionUtils.js:1-17 | the colour is always the colour of the band; the band of the raw value equals the band of the clamped value |
| `LightPollutionUtils.EstimateBortleScore` | src/services/lightPollutionUtils.js:7-11 | the class is an integer in [1, 9] for every input, including negative ones and ones above 100 |
| `LightPollutionUtils.BortleBand` | src/services/lightPollutionUtils.js:7-11 | the class is b exactly when the clamped intensity lies in (12.5(8.5 - b), 12.5(9.5 - b)], so a value on a boundary goes to the higher class |
| `LightPollutionUtils.BortleMonotone` | src/services/lightPollutionUtils.js:7-11 | a higher intensity never gives a higher class |
| `LightPollutionUtils.BortleEndpoints` | src/services/lightPollutionUtils.js:7-11 | every intensity <= 0 gives class 9 and every intensity >= 100 gives class 1 |
| `LightPollutionUtils.EstimateStarsVisible` | src/services/lightPollutionUtils.js:19-23 | the estimate lies in [800, 5000] for every argument |
| `LightPollutionUtils.StarsOfClass` | src/services/lightPollutionUtils.js:19-23 | for a whole class b in 1..9 the estimate is exactly 5000 - (b - 1) * 525 |
| `LightPollutionUtils.StarsMonotone` | src/services/lightPollutionUtils.js:19-23 | a higher class never gives more stars |
| `LightPollutionUtils.StarsEndpoints` | src/services/lightPollutionUtils.js:19-23 | every class <= 1 gives 5000 stars and every class >= 9 gives 800 |
| `LightPollutionUtils.CalculateAreaLightScore` | src/services/lightPollutionUtils.js:25-29 | the score lies in [0, 100] and is within half a unit of 100 minus the clamped intensity |
| `LightPollutionUtils.AreaScoreComplement` | src/services/lightPollutionUtils.js:25-29 | for a whole intensity n in [0, 100], score + n == 100 |
| `LightPollutionUtils.AreaScoreMonotone` | src/services/lightPollutionUtils.js:25-29 | a higher intensity never gives a higher score |
| `LightPollutionUtils.GetRestoredIntensity` | src/services/lightPollutionUtils.js:31-35 | the restored intensity is never negative, for any rate; the default rate is 0.4 |
| `LightPollutionUtils.RestoredBounds` | src/services/lightPollutionUtils.js:31-35 | with a rate in [0, 1] the result is at most the rounded clamped intensity, hence at most 100 |
| `LightPollutionUtils.RestoredAtMostOriginal` | src/services/lightPollutionUtils.js:31-35 | for a whole intensity and a rate in [0, 1] the result never exceeds the clamped intensity |
| `LightPollutionUtils.RestoredExtremes` | src/services/lightPollutionUtils.js:31-35 | rate 1 gives 0 for any intensity; rate 0 gives back the clamped value of a whole intensity |
| `LightPollutionUtils.RestoredAntitone` | src/services/lightPollutionUtils.js:31-35 | a larger reduction rate never gives a larger result |
| `LightPollutionUtils.BuildSkyMetrics` | src/services/lightPollutionUtils.js:37-46 | the intensity is echoed unchanged; class in [1, 9]; score in [0, 100]; the star estimate is the one that belongs to the reported class; Low goes with class >= 6, Moderate with 4..6, High with class <= 4 |
| `LightPollutionUtils.LevelAgreesWithBortle` | src/services/lightPollutionUtils.js:7-17 | each band covers a fixed range of Bortle classes: Low >= 6, Moderate 4..6, High <= 4 |
| `LightPollutionUtils.MetricsEndpoints` | src/services/lightPollutionUtils.js:37-46 | intensity 0 gives {100, 9, 800, Low, 0}; intensity 100 gives {0, 1, 5000, High, 100} |
| `LightPollutionUtils.MetricsMonotone` | src/services/lightPollutionUtils.js:37-46 | a higher intensity never raises the score or the class, and never lowers the star estimate |
| `LightPollutionUtils.RestorationRaisesScores` | src/services/lightPollutionUtils.js:31-46 | for a whole intensity and a rate in [0, 1], the restored bundle's score and class are at least the original ones |
| `LightPollutionUtils.RestorationLosesStars` | src/services/lightPollutionUtils.js:31-46 | restoring intensity 100 at the default rate gives 60, whose bundle reports 3425 stars against 5000 before |
| `LightPollutionUtils.CorrectedBortleScore` | src/services/lightPollutionUtils.js:7-11 | the corrected class is an integer in [1, 9] |
| `LightPollutionUtils.CorrectedBortleBand` | src/services/lightPollutionUtils.js:7-11 | the corrected class is b exactly when the clamped intensity lies in [12.5(b - 1.5), 12.5(b - 0.5)) |
| `LightPollutionUtils.CorrectedBortleMonotone` | src/services/lightPollutionUtils.js:7-11 | a higher intensity never gives a lower corrected class |
| `LightPollutionUtils.CorrectedSkyMetrics` | src/services/lightPollutionUtils.js:37-46 | as for `BuildSkyMetrics`, with Low going with class <= 4, Moderate with 4..6, High with class >= 6 |
| `LightPollutionUtils.CorrectedMetricsEndpoints` | src/services/lightPollutionUtils.js:37-46 | intensity 0 gives {100, 1, 5000, Low, 0}; intensity 100 gives {0, 9, 800, High, 100} |
| `LightPollutionUtils.CorrectedMetricsMonotone` | src/services/lightPollutionUtils.js:37-46 | a higher intensity never raises the score or the star estimate and never lowers the class |
| `LightPollutionUtils.CorrectedRestorationNeverWorsens` | src/services/lightPollutionUtils.js:31-46 | for a whole intensity and a rate in [0, 1], restoring never lowers the corrected bundle's score or star estimate, never raises its class, and never moves its band up (Low stays Low, Moderate never becomes High) |
| `LightPollutionUtils.EligiblePoints` | src/services/lightPollutionUtils.js:68 | a sample is kept exactly when it is in the catalog and its year is <= the selected year |
| `LightPollutionUtils.Closer` | src/services/lightPollutionUtils.js:71-84 | after one fold step a closest sample exists; its distance is at most the previous one's and the current sample's; a previous sample at most as far as the current one is kept, so only a strictly closer sample replaces it (the `<` at :79) |
| `LightPollutionUtils.ReduceNearest` | src/services/lightPollutionUtils.js:71-84 | the fold gives nothing exactly when it starts from nothing over no sample; a result is at most as far as the start and as every folded sample; it is the start or one of the folded samples with its own distance. `ReduceBound` and `ReduceEarliest` add that, over a filtered catalog, it ends on the earliest sample strictly closer than all before it |
| `LightPollutionUtils.FindNearestLightPollutionPoint` | src/services/lightPollutionUtils.js:65-85 | gives None exactly when the position is absent or no sample has year <= selected year (an empty catalog included); otherwise an eligible catalog sample, its distance as given by `dist`, and no eligible sample is closer |
| `LightPollutionUtils.ReduceStep` | src/services/lightPollutionUtils.js:68-84 | filtering then folding consumes the catalog one sample at a time, and skips the ineligible ones |
| `LightPollutionUtils.ReduceBound` | src/services/lightPollutionUtils.js:71-84 | the fold gives nothing only from nothing over no eligible sample; otherwise its distance is at most the start's and every eligible sample's |
| `LightPollutionUtils.ReduceEarliest` | src/services/lightPollutionUtils.js:71-84 | the fold keeps its start, or it ends on an eligible sample that is strictly closer than the start and than every earlier eligible sample (the strict `<` at :79) |
| `LightPollutionUtils.NearestIsFirstMinimum` | src/services/lightPollutionUtils.js:65-85 | a present result is the earliest eligible sample in catalog order among those of least distance |
| `LightPollutionUtils.FirstNearestUnique` | src/services/lightPollutionUtils.js:79 | only one index can be the earliest eligible sample of least distance, so ties are resolved deterministically |
| `LightPollutionUtils.TwoSampleCatalog` | src/services/lightPollutionUtils.js:65-85 | catalog A(0,0) and B(10,10), both from 2000, queried at (0,0): A at distance 0 for 2025, nothing for 1999 |
| `JsText.TrimStart` | src/components/SkyReport.jsx:21 | the result is a suffix of s that does not start with white space, and everything removed is white space |
| `JsText.TrimEnd` | src/components/SkyReport.jsx:21 | the result is a prefix of s that does not end with white space, and everything removed is white space |
| `JsText.Trim` | src/components/SkyReport.jsx:21 | neither end of the result is white space; the result is empty exactly when the text is all white space |
| `JsText.TrimInfix` | src/components/SkyReport.jsx:21 | the result is the slice s[i..j] of the text, and everything before i and after j is white space, so trimming keeps the text's own characters and removes only outer white space |
| `JsText.TrimPadded` | src/components/SkyReport.jsx:21 | trimming ignores white space added before or after the text |
| `JsText.TrimIdempotent` | src/components/SkyReport.jsx:21 | trimming twice is trimming once |
| `JsText.ToLower` | src/components/SkyReport.jsx:21 | the same length; each ASCII capital A–Z becomes its small letter (code + 32), every other character is unchanged |
| `JsText.ToLowerTrim` | src/components/SkyReport.jsx:21 | lower-casing and trimming commute |
| `SkyReport.SeedFrom` | src/components/SkyReport.jsx:12-14 | the fold never drops below its starting value, and it is at least the start plus any one character's code |
| `SkyReport.InputToSeed` | src/components/SkyReport.jsx:12-14 | the seed is a natural number, 0 for the empty string, and at least the code of every character |
| `SkyReport.SeedAppend` | src/components/SkyReport.jsx:12-14 | the seed of a concatenation is the sum of the seeds |
| `SkyReport.SeedOfChar` | src/components/SkyReport.jsx:12-14 | the seed of a single character is its code |
| `SkyReport.SeedPermutation` | src/components/SkyReport.jsx:12-14 | strings with the same characters, in any order, have the same seed |
| `SkyReport.SpotsDistinct` | src/components/SkyReport.jsx:3-10 | `STARGAZING_SPOTS` holds six pairwise different names, so each index names its own spot |
| `SkyReport.NormalizeQuery` | src/components/SkyReport.jsx:21 | trimming and lower-casing may be applied in either order; the result is no longer than the query, empty exactly when the query is all white space, and holds no upper-case ASCII letter |
| `SkyReport.Clamp` | src/components/SkyReport.jsx:16-18 | the result lies in [min, max]; it is the value inside the range, min below it, max above it |
| `SkyReport.ReportOfSeed` | src/components/SkyReport.jsx:22-25 | for any seed: class = seed % 9 + 1 in [1, 9]; Milky Way visibility in [14, 95]; star estimate in [1330, 5000]; the spot is entry seed % 6 of the six spots |
| `SkyReport.BuildMockReport` | src/components/SkyReport.jsx:20-33 | with seed the code sum of the trimmed lower-cased query: class = seed % 9 + 1 in [1, 9]; Milky Way visibility in [14, 95]; star estimate in [1330, 5000]; the spot is entry seed % 6 of the six spots |
| `SkyReport.ReportIgnoresPadding` | src/components/SkyReport.jsx:21 | white space around the query does not change the report |
| `SkyReport.ReportIgnoresCase` | src/components/SkyReport.jsx:21 | queries equal up to ASCII letter case get the same report |
| `SkyReport.ReportOfAnagrams` | src/components/SkyReport.jsx:12-21 | queries whose normalized forms are anagrams get the same report |

## Left out

- `haversineDistanceKm` and `degreesToRadians` (src/services/lightPollutionUtils.js:48-63): sine, cosine, `atan2` and square root on doubles cannot be reasoned about faithfully. The distance is a function parameter. The model makes no claims about zero distance, antipodal stability or the Earth radius 6371.
- The `!Array.isArray(points)` guard (src/services/lightPollutionUtils.js:66): the catalog is typed as a sequence of samples, so it cannot be something else.
- IEEE doubles: NaN, infinities, `-0` and floating-point rounding are not modelled. Numbers are exact reals. In JavaScript a NaN intensity makes the class, the score, the restored intensity and the star estimate NaN, while `getIntensityLevel` and `getIntensityColor` (src/services/lightPollutionUtils.js:1-5, :13-17) fail both comparisons and report High and red. A NaN distance is kept when it belongs to the first eligible sample, which `!closest` at :79 accepts whatever its distance, and then no later sample replaces it, because every `<` against NaN is false; a NaN distance of a later sample never replaces the current one.
- `LightPollutionUtils.RestoredAtMostOriginal`: stated for whole-number intensities only. For a fractional intensity, rounding can exceed it (intensity 0.9 at rate 0 restores to 1). `RestoredBounds` gives the bound that holds for every real.
- `LightPollutionUtils.RestoredExtremes`: the rate-0 equality is stated for whole-number intensities only, for the same rounding reason.
- `LightPollutionUtils.AreaScoreComplement`: the exact complement is stated for whole-number intensities. For any real intensity, `CalculateAreaLightScore` states it within half a unit.
- `JsText.ToLower`: lowers the ASCII letters A–Z only. JavaScript's `toLowerCase` also lowers other Unicode letters, so `SkyReport.ReportIgnoresCase` covers ASCII case only.
- `SkyReport.InputToSeed`: sums Unicode scalar values. JavaScript's `split('')` and `charCodeAt` sum UTF-16 code units, which differ for characters outside the Basic Multilingual Plane.
- The `SkyReport` React component (src/components/SkyReport.jsx:35-97): form handling, `useState` and `useMemo` are UI.
- The callers that recompute metrics (LightScoreCard.jsx, RestoreNightToggle.jsx, MapView.jsx, GeminiInsights.jsx): they only reuse the functions modelled here. MapView's marker radius is float-valued presentation.
- The catalog provider `lightPollutionDataService.js` is not part of this model. The catalog is an input sequence.
- The network insight service, the geolocation watch, the slider, the app shell and styling config: these are I/O, asynchronous or UI code.
- The star estimate and the Bortle class disagree on which end of the scale is dark. `estimateStarsVisible` (src/services/lightPollutionUtils.js:19-23) gives the most stars to class 1, and the mock report (src/components/SkyReport.jsx:22-24) lowers its visibility and star estimate as the class rises, so both read class 1 as the darkest sky. `estimateBortleScore` gives class 9 to intensity 0. So the code's `buildSkyMetrics(0)` reports 800 stars and `buildSkyMetrics(100)` reports 5000. The model follows the code; see Findings.

## Findings

| source | as written | input that shows it | evidently intended | confidence | as-written member | corrected member |
|---|---|---|---|---|---|---|
| src/services/lightPollutionUtils.js:7-11 | `estimateBortleScore` gives class 9 to the darkest sky (intensity 0) and class 1 to the brightest. `estimateStarsVisible` (:19-23) gives 5000 stars to class 1 and 800 to class 9. `buildSkyMetrics` (:37-46) composes the two, so the star estimate rises with light pollution. | intensity 0 yields 800 stars and intensity 100 yields 5000; restoring intensity 100 at rate 0.4 drops the estimate from 5000 to 3425 | fewer stars reported as intensity rises. One reading: class 1 for the darkest sky, as the star estimate and the mock report assume; this is the corrected member. The other, equally consistent: keep class 9 at intensity 0, as the comment at :8 says the inversion is deliberate, and reverse the star estimate instead | medium; not executed | `LightPollutionUtils.MetricsEndpoints` | `LightPollutionUtils.CorrectedSkyMetrics` |

`BuildSkyMetrics` stays the faithful model of the code. `CorrectedSkyMetrics` uses `CorrectedBortleScore`, which rounds `1 + n / 12.5` on the same [1, 9] range. The properties of the corrected bundle are proved: `CorrectedMetricsEndpoints`, `CorrectedMetricsMonotone`, and `CorrectedRestorationNeverWorsens`. The last one is the restoration comparison the toggle panel is meant to show.
