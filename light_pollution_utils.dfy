/**
 * The scoring engine and the nearest-sample resolver of the light-pollution
 * map: every derived sky metric is a function of one intensity value, and the
 * resolver picks the closest catalog sample whose year is not after the
 * selected year.
 */
module LightPollutionUtils {
  import opened Wrappers
  import opened JsMath

  // ---------------------------------------------------------------------------
  // Scoring engine
  // ---------------------------------------------------------------------------

  /** The three intensity bands shown to the user. */
  datatype Level = Low | Moderate | High

  /** Colour codes of the three bands (green, yellow, red). */
  const Green: string := "#22c55e"
  const Yellow: string := "#eab308"
  const Red: string := "#ef4444"

  /** The colour that belongs to each band. */
  function LevelColor(level: Level): string
  {
    match level
    case Low => Green
    case Moderate => Yellow
    case High => Red
  }

  /** Band colour, decided on the raw (unclamped) intensity. */
  function GetIntensityColor(intensity: real): (color: string)
    ensures color == Green <==> intensity <= 33.0
    ensures color == Yellow <==> 33.0 < intensity <= 66.0
    ensures color == Red <==> 66.0 < intensity
  {
    if intensity <= 33.0 then Green
    else if intensity <= 66.0 then Yellow
    else Red
  }

  /** Band name, decided on the raw (unclamped) intensity. */
  function GetIntensityLevel(intensity: real): (level: Level)
    ensures level == Low <==> intensity <= 33.0
    ensures level == Moderate <==> 33.0 < intensity <= 66.0
    ensures level == High <==> 66.0 < intensity
  {
    if intensity <= 33.0 then Low
    else if intensity <= 66.0 then Moderate
    else High
  }

  /** The intensity clamped to its nominal domain [0, 100]. */
  function Normalized(intensity: real): (n: real)
    ensures 0.0 <= n <= 100.0
  {
    Clamp(intensity, 0.0, 100.0)
  }

  /**
   * Bortle class 1..9, inverse to intensity: rounds 9 - n / 12.5 and clamps
   * the result to [1, 9].
   */
  function EstimateBortleScore(intensity: real): (b: int)
    ensures 1 <= b <= 9
  {
    var normalized := Normalized(intensity);
    var rounded := Round(9.0 - normalized / 12.5);
    var capped := if rounded < 9 then rounded else 9;
    if 1 < capped then capped else 1
  }

  /** Estimated number of visible stars for a Bortle class clamped to [1, 9]. */
  function EstimateStarsVisible(bortleScore: real): (stars: int)
    ensures 800 <= stars <= 5000
  {
    var clamped := Clamp(bortleScore, 1.0, 9.0);
    Round(5000.0 - (clamped - 1.0) * 525.0)
  }

  /** Darkness score 0..100: the higher, the darker the sky. */
  function CalculateAreaLightScore(intensity: real): (score: int)
    ensures 0 <= score <= 100
    ensures -0.5 < score as real + Normalized(intensity) - 100.0 <= 0.5
  {
    Round(100.0 - Normalized(intensity))
  }

  /**
   * The intensity after a simulated reduction of artificial light by
   * `reductionRate`; a new value, the source sample is left as it is.
   */
  function GetRestoredIntensity(intensity: real, reductionRate: real := 0.4): (restored: int)
    ensures 0 <= restored
  {
    var normalized := Normalized(intensity);
    var rounded := Round(normalized * (1.0 - reductionRate));
    if 0 < rounded then rounded else 0
  }

  /** The metrics bundle shown for one sample. */
  datatype SkyMetrics = SkyMetrics(
    areaLightScore: int,
    bortleScore: int,
    starsVisible: int,
    intensityLevel: Level,
    intensity: real)

  /** The stars estimate that belongs to a Bortle class 1..9. */
  function StarsForClass(bortleScore: int): int
  {
    5000 - (bortleScore - 1) * 525
  }

  /**
   * All metrics of one intensity, computed together so that the star
   * estimate always belongs to the reported Bortle class.
   */
  function BuildSkyMetrics(intensity: real): (m: SkyMetrics)
    ensures m.intensity == intensity
    ensures 1 <= m.bortleScore <= 9 && 0 <= m.areaLightScore <= 100
    ensures m.starsVisible == StarsForClass(m.bortleScore)
    ensures m.intensityLevel == Low ==> m.bortleScore >= 6
    ensures m.intensityLevel == Moderate ==> 4 <= m.bortleScore <= 6
    ensures m.intensityLevel == High ==> m.bortleScore <= 4
  {
    var bortleScore := EstimateBortleScore(intensity);
    StarsOfClass(bortleScore);
    LevelAgreesWithBortle(intensity);
    SkyMetrics(
      CalculateAreaLightScore(intensity),
      bortleScore,
      EstimateStarsVisible(bortleScore as real),
      GetIntensityLevel(intensity),
      intensity)
  }

  // ---------------------------------------------------------------------------
  // Properties of the scoring engine
  // ---------------------------------------------------------------------------

  /**
   * The class boundaries: class b covers the normalized intensities in
   * (12.5 * (8.5 - b), 12.5 * (9.5 - b)], so a value exactly on a boundary
   * goes to the darker class.
   */
  lemma BortleBand(intensity: real, b: int)
    ensures EstimateBortleScore(intensity) == b <==>
      1 <= b <= 9 && 12.5 * (8.5 - b as real) < Normalized(intensity) <= 12.5 * (9.5 - b as real)
  {
    var n := Normalized(intensity);
    var x := 9.0 - n / 12.5;
    assert 1.0 <= x <= 9.0;
    assert 1 <= Round(x) <= 9;
    assert EstimateBortleScore(intensity) == Round(x);
  }

  lemma {:induction false} BortleMonotone(i1: real, i2: real)
    requires i1 <= i2
    ensures EstimateBortleScore(i1) >= EstimateBortleScore(i2)
  {
    ClampMonotone(i1, i2, 0.0, 100.0);
    var n1, n2 := Normalized(i1), Normalized(i2);
    assert 9.0 - n2 / 12.5 <= 9.0 - n1 / 12.5;
    RoundMonotone(9.0 - n2 / 12.5, 9.0 - n1 / 12.5);
    BortleBand(i1, EstimateBortleScore(i1));
    BortleBand(i2, EstimateBortleScore(i2));
  }

  lemma BortleEndpoints()
    ensures EstimateBortleScore(0.0) == 9 && EstimateBortleScore(100.0) == 1
    ensures forall i :: i <= 0.0 ==> EstimateBortleScore(i) == 9
    ensures forall i :: 100.0 <= i ==> EstimateBortleScore(i) == 1
  {
    forall i | i <= 0.0 ensures EstimateBortleScore(i) == 9 {
      BortleBand(i, 9);
    }
    forall i | 100.0 <= i ensures EstimateBortleScore(i) == 1 {
      BortleBand(i, 1);
    }
  }

  /** On a whole Bortle class the estimate is exactly 5000 - (b - 1) * 525. */
  lemma StarsOfClass(b: int)
    requires 1 <= b <= 9
    ensures EstimateStarsVisible(b as real) == StarsForClass(b)
  {
    RoundOfInteger(StarsForClass(b));
  }

  lemma {:induction false} StarsMonotone(b1: real, b2: real)
    requires b1 <= b2
    ensures EstimateStarsVisible(b1) >= EstimateStarsVisible(b2)
  {
    ClampMonotone(b1, b2, 1.0, 9.0);
    var c1, c2 := Clamp(b1, 1.0, 9.0), Clamp(b2, 1.0, 9.0);
    assert (c1 - 1.0) * 525.0 <= (c2 - 1.0) * 525.0;
    RoundMonotone(5000.0 - (c2 - 1.0) * 525.0, 5000.0 - (c1 - 1.0) * 525.0);
  }

  lemma StarsEndpoints()
    ensures EstimateStarsVisible(1.0) == 5000 && EstimateStarsVisible(9.0) == 800
    ensures forall b :: b <= 1.0 ==> EstimateStarsVisible(b) == 5000
    ensures forall b :: 9.0 <= b ==> EstimateStarsVisible(b) == 800
  {
    StarsOfClass(1);
    StarsOfClass(9);
  }

  /** For a whole intensity in [0, 100] the darkness score is its complement. */
  lemma AreaScoreComplement(n: int)
    requires 0 <= n <= 100
    ensures CalculateAreaLightScore(n as real) + n == 100
  {
    RoundOfInteger(100 - n);
  }

  lemma {:induction false} AreaScoreMonotone(i1: real, i2: real)
    requires i1 <= i2
    ensures CalculateAreaLightScore(i1) >= CalculateAreaLightScore(i2)
  {
    ClampMonotone(i1, i2, 0.0, 100.0);
    RoundMonotone(100.0 - Normalized(i2), 100.0 - Normalized(i1));
  }

  /** Band and colour use the same thresholds, on the raw or the clamped value alike. */
  lemma ColorMatchesLevel(intensity: real)
    ensures GetIntensityColor(intensity) == LevelColor(GetIntensityLevel(intensity))
    ensures GetIntensityLevel(Normalized(intensity)) == GetIntensityLevel(intensity)
  {
  }

  /** Each band covers a fixed range of Bortle classes. */
  lemma LevelAgreesWithBortle(intensity: real)
    ensures GetIntensityLevel(intensity) == Low ==> EstimateBortleScore(intensity) >= 6
    ensures GetIntensityLevel(intensity) == Moderate ==> 4 <= EstimateBortleScore(intensity) <= 6
    ensures GetIntensityLevel(intensity) == High ==> EstimateBortleScore(intensity) <= 4
  {
    var b := EstimateBortleScore(intensity);
    BortleBand(intensity, b);
  }

  /** With a reduction rate in [0, 1] the restored intensity stays in [0, 100]
    * and never exceeds the rounded original. */
  lemma {:induction false} RestoredBounds(intensity: real, reductionRate: real)
    requires 0.0 <= reductionRate <= 1.0
    ensures GetRestoredIntensity(intensity, reductionRate) <= Round(Normalized(intensity)) <= 100
  {
    var n := Normalized(intensity);
    ScaleMonotone(n, 1.0 - reductionRate, 1.0);
    RoundMonotone(n * (1.0 - reductionRate), n);
    RoundMonotone(n, 100.0);
    RoundOfInteger(100);
  }

  /** For a whole intensity, restoring never raises it above its clamped value. */
  lemma RestoredAtMostOriginal(n: int, reductionRate: real)
    requires 0.0 <= reductionRate <= 1.0
    ensures GetRestoredIntensity(n as real, reductionRate) as real <= Normalized(n as real)
  {
    RestoredBounds(n as real, reductionRate);
    var c := if n < 0 then 0 else if n > 100 then 100 else n;
    assert Normalized(n as real) == c as real;
    RoundOfInteger(c);
  }

  lemma RestoredExtremes(intensity: real, n: int)
    ensures GetRestoredIntensity(intensity, 1.0) == 0
    ensures GetRestoredIntensity(n as real, 0.0) as real == Normalized(n as real)
  {
    var c := if n < 0 then 0 else if n > 100 then 100 else n;
    assert Normalized(n as real) == c as real;
    assert c as real * (1.0 - 0.0) == c as real;
    RoundOfInteger(c);
  }

  /** A larger reduction rate never gives a larger restored intensity. */
  lemma {:induction false} RestoredAntitone(intensity: real, r1: real, r2: real)
    requires r1 <= r2
    ensures GetRestoredIntensity(intensity, r1) >= GetRestoredIntensity(intensity, r2)
  {
    var n := Normalized(intensity);
    ScaleMonotone(n, 1.0 - r2, 1.0 - r1);
    RoundMonotone(n * (1.0 - r2), n * (1.0 - r1));
  }

  /** Scaling by a non-negative factor keeps order. */
  lemma ScaleMonotone(n: real, a: real, b: real)
    requires 0.0 <= n && a <= b
    ensures n * a <= n * b
  {
    assert n * b - n * a == n * (b - a);
    assert n * (b - a) >= 0.0;
  }

  /**
   * Turning on the restoration (rate in [0, 1]) never lowers the darkness
   * score or the Bortle class of a whole-number intensity.
   */
  lemma RestorationRaisesScores(n: int, reductionRate: real)
    requires 0.0 <= reductionRate <= 1.0
    ensures var before := BuildSkyMetrics(n as real);
      var after := BuildSkyMetrics(GetRestoredIntensity(n as real, reductionRate) as real);
      after.areaLightScore >= before.areaLightScore && after.bortleScore >= before.bortleScore
  {
    var r := GetRestoredIntensity(n as real, reductionRate);
    RestoredAtMostOriginal(n, reductionRate);
    var c := Normalized(n as real);
    // Every metric reads the intensity only through its clamped value.
    assert Normalized(c) == c;
    assert EstimateBortleScore(c) == EstimateBortleScore(n as real);
    assert CalculateAreaLightScore(c) == CalculateAreaLightScore(n as real);
    BortleMonotone(r as real, c);
    AreaScoreMonotone(r as real, c);
  }

  /** The bundles of the darkest and the brightest intensity, as the code computes them. */
  lemma MetricsEndpoints()
    ensures BuildSkyMetrics(0.0) == SkyMetrics(100, 9, 800, Low, 0.0)
    ensures BuildSkyMetrics(100.0) == SkyMetrics(0, 1, 5000, High, 100.0)
  {
    BortleEndpoints();
    AreaScoreComplement(0);
    AreaScoreComplement(100);
  }

  /**
   * A brighter sky never gets a higher darkness score or Bortle class, and,
   * because the two Bortle conversions run in opposite directions, never
   * gets fewer stars either.
   */
  lemma MetricsMonotone(i1: real, i2: real)
    requires i1 <= i2
    ensures BuildSkyMetrics(i1).areaLightScore >= BuildSkyMetrics(i2).areaLightScore
    ensures BuildSkyMetrics(i1).bortleScore >= BuildSkyMetrics(i2).bortleScore
    ensures BuildSkyMetrics(i1).starsVisible <= BuildSkyMetrics(i2).starsVisible
  {
    AreaScoreMonotone(i1, i2);
    BortleMonotone(i1, i2);
  }

  /**
   * The restoration simulation, as written, lowers the star estimate: the
   * brightest sample restored at the default rate (intensity 60, class 4)
   * reports 3425 stars against 5000 before.
   */
  lemma RestorationLosesStars()
    ensures GetRestoredIntensity(100.0) == 60
    ensures BuildSkyMetrics(60.0).starsVisible == 3425
    ensures BuildSkyMetrics(100.0).starsVisible == 5000
  {
    RoundOfInteger(60);
    BortleBand(60.0, 4);
    StarsOfClass(4);
    MetricsEndpoints();
  }

  // ---------------------------------------------------------------------------
  // Bortle class on the star estimate's scale
  // ---------------------------------------------------------------------------

  /**
   * The Bortle class with 1 for the darkest sky and 9 for the brightest, the
   * direction `EstimateStarsVisible` assumes: rounds 1 + n / 12.5 and clamps
   * the result to [1, 9].
   */
  function CorrectedBortleScore(intensity: real): (b: int)
    ensures 1 <= b <= 9
  {
    var normalized := Normalized(intensity);
    var rounded := Round(1.0 + normalized / 12.5);
    var capped := if rounded < 9 then rounded else 9;
    if 1 < capped then capped else 1
  }

  /** Class b covers the normalized intensities in [12.5 * (b - 1.5), 12.5 * (b - 0.5)). */
  lemma CorrectedBortleBand(intensity: real, b: int)
    ensures CorrectedBortleScore(intensity) == b <==>
      1 <= b <= 9 && 12.5 * (b as real - 1.5) <= Normalized(intensity) < 12.5 * (b as real - 0.5)
  {
    var n := Normalized(intensity);
    var x := 1.0 + n / 12.5;
    assert 1.0 <= x <= 9.0;
    assert 1 <= Round(x) <= 9;
    assert CorrectedBortleScore(intensity) == Round(x);
  }

  lemma {:induction false} CorrectedBortleMonotone(i1: real, i2: real)
    requires i1 <= i2
    ensures CorrectedBortleScore(i1) <= CorrectedBortleScore(i2)
  {
    ClampMonotone(i1, i2, 0.0, 100.0);
    var n1, n2 := Normalized(i1), Normalized(i2);
    RoundMonotone(1.0 + n1 / 12.5, 1.0 + n2 / 12.5);
    CorrectedBortleBand(i1, CorrectedBortleScore(i1));
    CorrectedBortleBand(i2, CorrectedBortleScore(i2));
  }

  /** The bundle with the corrected class; everything else as in `BuildSkyMetrics`. */
  function CorrectedSkyMetrics(intensity: real): (m: SkyMetrics)
    ensures m.intensity == intensity
    ensures 1 <= m.bortleScore <= 9 && 0 <= m.areaLightScore <= 100
    ensures m.starsVisible == StarsForClass(m.bortleScore)
    ensures m.intensityLevel == Low ==> m.bortleScore <= 4
    ensures m.intensityLevel == Moderate ==> 4 <= m.bortleScore <= 6
    ensures m.intensityLevel == High ==> m.bortleScore >= 6
  {
    var bortleScore := CorrectedBortleScore(intensity);
    StarsOfClass(bortleScore);
    CorrectedBortleBand(intensity, bortleScore);
    SkyMetrics(
      CalculateAreaLightScore(intensity),
      bortleScore,
      EstimateStarsVisible(bortleScore as real),
      GetIntensityLevel(intensity),
      intensity)
  }

  lemma CorrectedMetricsEndpoints()
    ensures CorrectedSkyMetrics(0.0) == SkyMetrics(100, 1, 5000, Low, 0.0)
    ensures CorrectedSkyMetrics(100.0) == SkyMetrics(0, 9, 800, High, 100.0)
  {
    CorrectedBortleBand(0.0, 1);
    CorrectedBortleBand(100.0, 9);
    AreaScoreComplement(0);
    AreaScoreComplement(100);
  }

  /** With the corrected class, a brighter sky never scores better on any metric. */
  lemma CorrectedMetricsMonotone(i1: real, i2: real)
    requires i1 <= i2
    ensures CorrectedSkyMetrics(i1).areaLightScore >= CorrectedSkyMetrics(i2).areaLightScore
    ensures CorrectedSkyMetrics(i1).bortleScore <= CorrectedSkyMetrics(i2).bortleScore
    ensures CorrectedSkyMetrics(i1).starsVisible >= CorrectedSkyMetrics(i2).starsVisible
  {
    AreaScoreMonotone(i1, i2);
    CorrectedBortleMonotone(i1, i2);
  }

  /**
   * With the corrected class, the restoration (rate in [0, 1]) of a
   * whole-number intensity never makes any metric worse: the score, the
   * class, the star estimate and the band.
   */
  lemma CorrectedRestorationNeverWorsens(n: int, reductionRate: real)
    requires 0.0 <= reductionRate <= 1.0
    ensures var before := CorrectedSkyMetrics(n as real);
      var after := CorrectedSkyMetrics(GetRestoredIntensity(n as real, reductionRate) as real);
      after.areaLightScore >= before.areaLightScore
      && after.bortleScore <= before.bortleScore
      && after.starsVisible >= before.starsVisible
      && (before.intensityLevel == Low ==> after.intensityLevel == Low)
      && (before.intensityLevel == Moderate ==> after.intensityLevel != High)
      && (after.intensityLevel == High ==> before.intensityLevel == High)
  {
    var r := GetRestoredIntensity(n as real, reductionRate);
    RestoredAtMostOriginal(n, reductionRate);
    var c := Normalized(n as real);
    assert Normalized(c) == c;
    assert CorrectedSkyMetrics(c) == CorrectedSkyMetrics(n as real).(intensity := c);
    CorrectedMetricsMonotone(r as real, c);
    ColorMatchesLevel(n as real);
  }

  // ---------------------------------------------------------------------------
  // Spatial resolver
  // ---------------------------------------------------------------------------

  /** One catalog sample; the catalog is read-only input. */
  datatype Point = Point(
    id: string,
    name: string,
    latitude: real,
    longitude: real,
    year: int,
    intensity: real)

  /** The user's position in decimal degrees. */
  datatype Position = Position(latitude: real, longitude: real)

  /** The chosen sample and its distance from the position. */
  datatype Nearest = Nearest(point: Point, distanceKm: real)

  /**
   * The great-circle distance in km between (lat1, lon1) and (lat2, lon2);
   * its haversine formula is a parameter of the model.
   */
  type Distance = (real, real, real, real) -> real

  function DistanceTo(dist: Distance, position: Position, point: Point): real
  {
    dist(position.latitude, position.longitude, point.latitude, point.longitude)
  }

  /** The samples whose year is not after `selectedYear`, in catalog order. */
  function EligiblePoints(points: seq<Point>, selectedYear: int): (eligible: seq<Point>)
    ensures |eligible| <= |points|
    ensures forall p :: p in eligible <==> p in points && p.year <= selectedYear
  {
    if points == [] then []
    else if points[0].year <= selectedYear then [points[0]] + EligiblePoints(points[1..], selectedYear)
    else EligiblePoints(points[1..], selectedYear)
  }

  /** One step of the fold: a strictly closer sample replaces the current one. */
  function Closer(closest: Option<Nearest>, current: Point, position: Position, dist: Distance): (r: Option<Nearest>)
    ensures r.Some?
    ensures closest.Some? ==> r.value.distanceKm <= closest.value.distanceKm
    ensures r.value.distanceKm <= DistanceTo(dist, position, current)
    ensures closest.Some? && closest.value.distanceKm <= DistanceTo(dist, position, current) ==> r == closest
  {
    var currentDistance := DistanceTo(dist, position, current);
    if closest.None? || currentDistance < closest.value.distanceKm then Some(Nearest(current, currentDistance))
    else closest
  }

  /** The left fold over the eligible samples, starting from `closest`. */
  function ReduceNearest(eligible: seq<Point>, position: Position, dist: Distance, closest: Option<Nearest>)
    : (r: Option<Nearest>)
    ensures r.None? <==> closest.None? && eligible == []
    ensures r.Some? ==> forall p :: p in eligible ==> r.value.distanceKm <= DistanceTo(dist, position, p)
    ensures r.Some? && closest.Some? ==> r.value.distanceKm <= closest.value.distanceKm
    ensures r == closest || (r.Some? && r.value.point in eligible
      && r.value.distanceKm == DistanceTo(dist, position, r.value.point))
    decreases |eligible|
  {
    if eligible == [] then closest
    else ReduceNearest(eligible[1..], position, dist, Closer(closest, eligible[0], position, dist))
  }

  /** No eligible sample of `points` is closer than `d`. */
  ghost predicate NoneCloser(points: seq<Point>, position: Position, selectedYear: int, dist: Distance, d: real)
  {
    forall j :: 0 <= j < |points| && points[j].year <= selectedYear ==> d <= DistanceTo(dist, position, points[j])
  }

  /** `points[k]` is eligible and strictly closer than every earlier eligible sample. */
  ghost predicate EarliestAt(points: seq<Point>, position: Position, selectedYear: int, dist: Distance, k: int)
  {
    0 <= k < |points| && points[k].year <= selectedYear
    && forall j :: 0 <= j < k && points[j].year <= selectedYear ==>
         DistanceTo(dist, position, points[k]) < DistanceTo(dist, position, points[j])
  }

  /** `points[k]` is the earliest eligible sample of least distance. */
  ghost predicate IsFirstNearest(points: seq<Point>, position: Position, selectedYear: int, dist: Distance, k: int)
  {
    EarliestAt(points, position, selectedYear, dist, k)
    && NoneCloser(points, position, selectedYear, dist, DistanceTo(dist, position, points[k]))
  }

  /** The nearest sample not later than `selectedYear`, or None. */
  function FindNearestLightPollutionPoint(points: seq<Point>, position: Option<Position>, selectedYear: int, dist: Distance)
    : (r: Option<Nearest>)
    ensures r.None? <==> position.None? || forall j :: 0 <= j < |points| ==> points[j].year > selectedYear
    ensures r.Some? ==>
      r.value.point in points && r.value.point.year <= selectedYear
      && r.value.distanceKm == DistanceTo(dist, position.value, r.value.point)
      && forall p :: p in points && p.year <= selectedYear ==> r.value.distanceKm <= DistanceTo(dist, position.value, p)
  {
    if position.None? || |points| == 0 then None
    else
      var eligible := EligiblePoints(points, selectedYear);
      if |eligible| == 0 then
        assert forall j :: 0 <= j < |points| ==> points[j] !in eligible;
        None
      else
        ReduceBound(points, position.value, selectedYear, dist, None);
        ReduceEarliest(points, position.value, selectedYear, dist, None);
        ReduceNearest(eligible, position.value, dist, None)
  }

  /** The step that folding over the eligible samples of a non-empty `points` takes first. */
  lemma ReduceStep(points: seq<Point>, position: Position, selectedYear: int, dist: Distance, closest: Option<Nearest>)
    requires points != []
    ensures ReduceNearest(EligiblePoints(points, selectedYear), position, dist, closest)
      == ReduceNearest(EligiblePoints(points[1..], selectedYear), position, dist,
           if points[0].year <= selectedYear then Closer(closest, points[0], position, dist) else closest)
  {
    var e := EligiblePoints(points[1..], selectedYear);
    if points[0].year <= selectedYear {
      assert EligiblePoints(points, selectedYear) == [points[0]] + e;
      assert ([points[0]] + e)[1..] == e;
    }
  }

  /**
   * Folding over the eligible samples of `points` from `closest` gives
   * nothing only when it starts from nothing and no sample is eligible, and
   * otherwise a distance no larger than `closest`'s or any eligible sample's.
   */
  lemma {:induction false} ReduceBound(points: seq<Point>, position: Position, selectedYear: int, dist: Distance,
                                       closest: Option<Nearest>)
    ensures var r := ReduceNearest(EligiblePoints(points, selectedYear), position, dist, closest);
      (r.None? <==> closest.None? && forall j :: 0 <= j < |points| ==> points[j].year > selectedYear)
      && (r.Some? ==> NoneCloser(points, position, selectedYear, dist, r.value.distanceKm))
      && (r.Some? && closest.Some? ==> r.value.distanceKm <= closest.value.distanceKm)
    decreases |points|
  {
    if points != [] {
      var p, rest := points[0], points[1..];
      var next := if p.year <= selectedYear then Closer(closest, p, position, dist) else closest;
      ReduceStep(points, position, selectedYear, dist, closest);
      ReduceBound(rest, position, selectedYear, dist, next);
      var r := ReduceNearest(EligiblePoints(rest, selectedYear), position, dist, next);
      forall j | 0 <= j < |points| && points[j].year <= selectedYear && r.Some?
        ensures r.value.distanceKm <= DistanceTo(dist, position, points[j])
      {
        if j > 0 { assert points[j] == rest[j - 1]; }
      }
      if r.None? {
        forall j | 0 <= j < |points| ensures points[j].year > selectedYear {
          if j > 0 { assert points[j] == rest[j - 1]; }
        }
      }
    }
  }

  /**
   * Folding over the eligible samples of `points` from `closest` either keeps
   * `closest` or ends on an eligible sample, strictly closer than `closest`
   * and than every earlier eligible sample.
   */
  lemma {:induction false} ReduceEarliest(points: seq<Point>, position: Position, selectedYear: int, dist: Distance,
                                          closest: Option<Nearest>)
    ensures var r := ReduceNearest(EligiblePoints(points, selectedYear), position, dist, closest);
      r == closest || exists k :: (EarliestAt(points, position, selectedYear, dist, k)
        && r == Some(Nearest(points[k], DistanceTo(dist, position, points[k])))
        && (closest.Some? ==> r.value.distanceKm < closest.value.distanceKm))
    decreases |points|
  {
    if points != [] {
      var p, rest := points[0], points[1..];
      var next := if p.year <= selectedYear then Closer(closest, p, position, dist) else closest;
      ReduceStep(points, position, selectedYear, dist, closest);
      ReduceEarliest(rest, position, selectedYear, dist, next);
      var r := ReduceNearest(EligiblePoints(rest, selectedYear), position, dist, next);
      if r != closest {
        if r == next {
          assert EarliestAt(points, position, selectedYear, dist, 0);
        } else {
          var k' :| EarliestAt(rest, position, selectedYear, dist, k')
            && r == Some(Nearest(rest[k'], DistanceTo(dist, position, rest[k'])))
            && (next.Some? ==> r.value.distanceKm < next.value.distanceKm);
          assert points[k' + 1] == rest[k'];
          EarliestShift(points, position, selectedYear, dist, k');
        }
      }
    }
  }

  /** An earliest sample of `points[1..]` that beats an eligible `points[0]` is an earliest sample of `points`. */
  lemma EarliestShift(points: seq<Point>, position: Position, selectedYear: int, dist: Distance, k: int)
    requires points != [] && EarliestAt(points[1..], position, selectedYear, dist, k)
    requires points[0].year <= selectedYear ==>
      DistanceTo(dist, position, points[k + 1]) < DistanceTo(dist, position, points[0])
    ensures EarliestAt(points, position, selectedYear, dist, k + 1)
  {
    var rest := points[1..];
    assert points[k + 1] == rest[k];
    forall j | 0 <= j < k + 1 && points[j].year <= selectedYear
      ensures DistanceTo(dist, position, points[k + 1]) < DistanceTo(dist, position, points[j])
    {
      if j > 0 { assert points[j] == rest[j - 1]; }
    }
  }

  /** The result, when present, is the earliest eligible sample of least distance. */
  lemma NearestIsFirstMinimum(points: seq<Point>, position: Option<Position>, selectedYear: int, dist: Distance)
    ensures var r := FindNearestLightPollutionPoint(points, position, selectedYear, dist);
      r.Some? ==> exists k :: (IsFirstNearest(points, position.value, selectedYear, dist, k)
        && r.value == Nearest(points[k], DistanceTo(dist, position.value, points[k])))
  {
    if position.Some? && |points| > 0 {
      ReduceBound(points, position.value, selectedYear, dist, None);
      ReduceEarliest(points, position.value, selectedYear, dist, None);
    }
  }

  /** At most one index is the earliest eligible sample of least distance. */
  lemma FirstNearestUnique(points: seq<Point>, position: Position, selectedYear: int, dist: Distance, k1: int, k2: int)
    requires IsFirstNearest(points, position, selectedYear, dist, k1)
    requires IsFirstNearest(points, position, selectedYear, dist, k2)
    ensures k1 == k2
  {
  }

  /**
   * The two-sample catalog {A at (0, 0), B at (10, 10)}, both from 2000,
   * queried at (0, 0): A wins for 2025, nothing is eligible for 1999.
   */
  lemma TwoSampleCatalog(dist: Distance)
    requires dist(0.0, 0.0, 0.0, 0.0) == 0.0 && dist(0.0, 0.0, 10.0, 10.0) > 0.0
    ensures var a := Point("a", "A", 0.0, 0.0, 2000, 50.0);
      var b := Point("b", "B", 10.0, 10.0, 2000, 80.0);
      FindNearestLightPollutionPoint([a, b], Some(Position(0.0, 0.0)), 2025, dist) == Some(Nearest(a, 0.0))
      && FindNearestLightPollutionPoint([a, b], Some(Position(0.0, 0.0)), 1999, dist) == None
  {
    var a := Point("a", "A", 0.0, 0.0, 2000, 50.0);
    var b := Point("b", "B", 10.0, 10.0, 2000, 80.0);
    assert EligiblePoints([a, b], 2025) == [a, b];
  }
}
