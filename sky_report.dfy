/**
 * The synthetic "sky report" for a free-text location query: a seed derived
 * from the query's characters picks a Bortle class, a Milky Way visibility,
 * a star estimate and a stargazing spot. It is unrelated to the sample
 * catalog.
 */
module SkyReport {
  import opened JsMath
  import opened JsText

  /** The spots a report may recommend. */
  const StargazingSpots: seq<string> := [
    "Pine Ridge Overlook",
    "Cedar Valley Dark Park",
    "Silver Mesa Trailhead",
    "Whisper Dunes Reserve",
    "North Basin Lookout",
    "Blue Canyon Ridge"
  ]

  /** The six spots are pairwise different, so each index names its own spot. */
  lemma SpotsDistinct()
    ensures |StargazingSpots| == 6
    ensures forall i, j :: 0 <= i < j < |StargazingSpots| ==> StargazingSpots[i] != StargazingSpots[j]
  {
  }

  /** The left fold `(seed, c) => seed + code(c)` over `s`, starting from `seed`. */
  function SeedFrom(seed: int, s: string): (r: int)
    ensures r >= seed
    ensures forall i :: 0 <= i < |s| ==> seed + s[i] as int <= r
    decreases |s|
  {
    if s == [] then seed else SeedFrom(seed + s[0] as int, s[1..])
  }

  /** The sum of the character codes of `value`. */
  function InputToSeed(value: string): (seed: nat)
    ensures value == [] ==> seed == 0
    ensures forall i :: 0 <= i < |value| ==> value[i] as int <= seed
  {
    SeedFrom(0, value)
  }

  /** A fold started from `seed` adds `seed` to the fold started from 0. */
  lemma {:induction false} SeedFromOffset(seed: int, s: string)
    ensures SeedFrom(seed, s) == seed + InputToSeed(s)
    decreases |s|
  {
    if s != [] {
      SeedFromOffset(seed + s[0] as int, s[1..]);
      SeedFromOffset(s[0] as int, s[1..]);
    }
  }

  /** The seed of a concatenation is the sum of the seeds. */
  lemma {:induction false} SeedAppend(a: string, b: string)
    ensures InputToSeed(a + b) == InputToSeed(a) + InputToSeed(b)
    decreases |a|
  {
    if a == [] {
      assert a + b == b;
    } else {
      assert (a + b)[1..] == a[1..] + b;
      SeedFromOffset(a[0] as int, a[1..] + b);
      SeedFromOffset(a[0] as int, a[1..]);
      SeedAppend(a[1..], b);
    }
  }

  /** The seed of one character is its code. */
  lemma SeedOfChar(c: char)
    ensures InputToSeed([c]) == c as int
  {
    assert [c][1..] == [];
    assert SeedFrom(c as int, []) == c as int;
  }

  /** `b` without the character at `i`. */
  function Without(b: string, i: int): (r: string)
    requires 0 <= i < |b|
    ensures |r| == |b| - 1
  {
    b[..i] + b[i + 1..]
  }

  /** Taking out the character at `i` takes its code out of the seed. */
  lemma SeedRemoveAt(b: string, i: int)
    requires 0 <= i < |b|
    ensures InputToSeed(b) == b[i] as int + InputToSeed(Without(b, i))
  {
    var before, after := b[..i], b[i + 1..];
    assert b == before + [b[i]] + after;
    SeedAppend(before + [b[i]], after);
    SeedAppend(before, [b[i]]);
    SeedAppend(before, after);
    SeedOfChar(b[i]);
  }

  /** Taking out the character at `i` takes one copy of it out of the multiset. */
  lemma MultisetRemoveAt(b: string, i: int)
    requires 0 <= i < |b|
    ensures multiset(Without(b, i)) == multiset(b) - multiset{b[i]}
  {
    assert b == b[..i] + [b[i]] + b[i + 1..];
  }

  /** A position of `c` in `b`, which holds it. */
  lemma IndexOf(b: string, c: char) returns (i: int)
    requires c in multiset(b)
    ensures 0 <= i < |b| && b[i] == c
  {
    assert c in b;
    i :| 0 <= i < |b| && b[i] == c;
  }

  /** Rearranging the characters leaves the seed unchanged. */
  lemma {:induction false} SeedPermutation(a: string, b: string)
    requires multiset(a) == multiset(b)
    ensures InputToSeed(a) == InputToSeed(b)
    decreases |a|
  {
    if a == [] {
      assert |b| == |multiset(b)| == 0;
    } else {
      var i := IndexOf(b, a[0]);
      MultisetRemoveAt(a, 0);
      MultisetRemoveAt(b, i);
      SeedPermutation(Without(a, 0), Without(b, i));
      SeedRemoveAt(a, 0);
      SeedRemoveAt(b, i);
    }
  }

  /** `Math.max(min, Math.min(max, value))` on whole numbers. */
  function Clamp(value: int, min: int, max: int): (r: int)
    ensures min <= max ==> min <= r <= max
    ensures min <= value <= max ==> r == value
    ensures value < min ==> r == min
    ensures min <= max < value ==> r == max
  {
    var capped := if value < max then value else max;
    if min < capped then capped else min
  }

  /** The four values a report shows. */
  datatype MockReport = MockReport(
    bortleScore: int,
    milkyWayVisibility: int,
    starsVisibleEstimate: int,
    bestNearbySpot: string)

  /**
   * The query as the report reads it: trimmed, then lower-cased; the two
   * steps may be taken in either order.
   */
  function NormalizeQuery(query: string): (q: string)
    ensures q == Trim(ToLower(query))
    ensures |q| <= |query|
    ensures q == [] <==> AllWhitespace(query)
    ensures forall i :: 0 <= i < |q| ==> !('A' <= q[i] <= 'Z')
  {
    var q := ToLower(Trim(query));
    ToLowerTrim(query);
    assert |q| == |Trim(query)|;
    q
  }

  /**
   * The report for a seed. Its lower clamps never take effect: the Milky
   * Way visibility is at least 14 and the star estimate at least 1330.
   */
  function ReportOfSeed(seed: nat): (report: MockReport)
    ensures report.bortleScore == seed % 9 + 1
    ensures 1 <= report.bortleScore <= 9
    ensures 14 <= report.milkyWayVisibility <= 95
    ensures 1330 <= report.starsVisibleEstimate <= 5000
    ensures report.bestNearbySpot == StargazingSpots[seed % 6]
    ensures report.bestNearbySpot in StargazingSpots
  {
    var bortleScore := Clamp(seed % 9 + 1, 1, 9);
    assert bortleScore == seed % 9 + 1;
    var milkyWay := 95 - bortleScore * 9 + seed % 11;
    var stars := 5200 - bortleScore * 430 + seed % 280;
    assert 9 <= bortleScore * 9 <= 81 && 430 <= bortleScore * 430 <= 3870;
    assert 14 <= milkyWay <= 96 && 1330 <= stars;
    RoundOfInteger(milkyWay);
    RoundOfInteger(stars);
    MockReport(
      bortleScore,
      Clamp(Round(milkyWay as real), 5, 95),
      Clamp(Round(stars as real), 250, 5000),
      StargazingSpots[seed % |StargazingSpots|])
  }

  /** The report for `query`: the report of the seed of its normalized form. */
  function BuildMockReport(query: string): (report: MockReport)
    ensures var seed := InputToSeed(NormalizeQuery(query));
      report.bortleScore == seed % 9 + 1
      && 1 <= report.bortleScore <= 9
      && 14 <= report.milkyWayVisibility <= 95
      && 1330 <= report.starsVisibleEstimate <= 5000
      && report.bestNearbySpot == StargazingSpots[seed % 6]
      && report.bestNearbySpot in StargazingSpots
  {
    ReportOfSeed(InputToSeed(NormalizeQuery(query)))
  }

  /** White space around the query does not change the report. */
  lemma ReportIgnoresPadding(w1: string, query: string, w2: string)
    requires AllWhitespace(w1) && AllWhitespace(w2)
    ensures BuildMockReport(w1 + query + w2) == BuildMockReport(query)
  {
    TrimPadded(w1, query, w2);
  }

  /** Queries that differ only in letter case get the same report. */
  lemma ReportIgnoresCase(q1: string, q2: string)
    requires ToLower(q1) == ToLower(q2)
    ensures BuildMockReport(q1) == BuildMockReport(q2)
  {
    assert NormalizeQuery(q1) == NormalizeQuery(q2);
  }

  /** Queries whose normalized forms are anagrams get the same report. */
  lemma ReportOfAnagrams(q1: string, q2: string)
    requires multiset(NormalizeQuery(q1)) == multiset(NormalizeQuery(q2))
    ensures BuildMockReport(q1) == BuildMockReport(q2)
  {
    SeedPermutation(NormalizeQuery(q1), NormalizeQuery(q2));
  }
}
