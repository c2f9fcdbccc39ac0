/** Turning the two raw sharpness values of a tick into integer percentages
    relative to the larger of the two. */
module ScoreNormalizer {
  /** A raw sharpness value: a weighted sum of absolute Laplacian responses,
      hence never negative. */
  type Sharpness = r: real | 0.0 <= r

  /** The normalised scores of feed 0 (`first`) and feed 1 (`second`). */
  datatype ScorePair = ScorePair(first: int, second: int)

  function Max(a: real, b: real): real {
    if a >= b then a else b
  }

  /** `int(s / m * 100)`: the conversion truncates towards zero, which is the
      floor for a non-negative quotient. */
  function Percent(s: Sharpness, m: real): (pct: int)
    requires 0.0 < m && s <= m
    ensures 0 <= pct <= 100
    ensures pct as real <= s / m * 100.0 < pct as real + 1.0
    ensures pct == 100 <==> s == m
  {
    var q := s / m * 100.0;
    assert q <= 100.0 by { DivAtMostOne(s, m); }
    assert s < m ==> q < 100.0 by { if s < m { DivBelowOne(s, m); } }
    q.Floor
  }

  /** Both percentages, or (0, 0) when neither feed shows any sharpness. */
  function Normalize(s0: Sharpness, s1: Sharpness): (p: ScorePair)
    ensures 0 <= p.first <= 100 && 0 <= p.second <= 100
    ensures Max(s0, s1) == 0.0 ==> p == ScorePair(0, 0)
    ensures Max(s0, s1) > 0.0 ==>
      (p.first == 100 <==> s0 >= s1) && (p.second == 100 <==> s1 >= s0)
    ensures Max(s0, s1) > 0.0 ==>
      p.first as real <= s0 / Max(s0, s1) * 100.0 < p.first as real + 1.0 &&
      p.second as real <= s1 / Max(s0, s1) * 100.0 < p.second as real + 1.0
    ensures s0 <= s1 ==> p.first <= p.second
    ensures s1 <= s0 ==> p.second <= p.first
  {
    var m := Max(s0, s1);
    if m > 0.0 then
      var p := ScorePair(Percent(s0, m), Percent(s1, m));
      assert s0 <= s1 ==> p.first <= p.second by {
        if s0 <= s1 { DivMonotone(s0, s1, m); }
      }
      assert s1 <= s0 ==> p.second <= p.first by {
        if s1 <= s0 { DivMonotone(s1, s0, m); }
      }
      p
    else ScorePair(0, 0)
  }

  lemma DivAtMostOne(s: real, m: real)
    requires 0.0 < m && 0.0 <= s <= m
    ensures s / m * 100.0 <= 100.0
  {
    assert s / m <= 1.0;
  }

  lemma DivBelowOne(s: real, m: real)
    requires 0.0 < m && 0.0 <= s < m
    ensures s / m * 100.0 < 100.0
  {
    assert m / m == 1.0;
    assert s / m < m / m;
  }

  lemma DivMonotone(a: real, b: real, m: real)
    requires 0.0 < m && a <= b
    ensures a / m * 100.0 <= b / m * 100.0
  {
    assert a / m <= b / m;
  }

  /** Scaling both raw scores by the same positive factor changes neither
      percentage: only the ratio of the two scores matters. */
  lemma NormalizeScaleInvariant(s0: Sharpness, s1: Sharpness, k: real)
    requires k > 0.0
    ensures 0.0 <= k * s0 && 0.0 <= k * s1
    ensures Normalize(k * s0, k * s1) == Normalize(s0, s1)
  {
    var m := Max(s0, s1);
    var t0: Sharpness, t1: Sharpness := k * s0, k * s1;
    assert Max(t0, t1) == k * m by {
      if s0 >= s1 { assert k * s0 >= k * s1; } else { assert k * s0 < k * s1; }
    }
    if m > 0.0 {
      ScaledQuotient(s0, m, k);
      ScaledQuotient(s1, m, k);
      assert Percent(t0, k * m) == Percent(s0, m);
      assert Percent(t1, k * m) == Percent(s1, m);
    } else {
      assert t0 == 0.0 && t1 == 0.0;
    }
  }

  lemma ScaledQuotient(s: real, m: real, k: real)
    requires k > 0.0 && m > 0.0
    ensures (k * s) / (k * m) == s / m
  {
    var q := s / m;
    assert q * m == s;
    assert q * (k * m) == k * s;
  }

  /** A sharp feed 0 against a feed 1 with no detail at all reads (100, 0). */
  lemma NormalizeOneSided(s: Sharpness)
    requires s > 0.0
    ensures Normalize(s, 0.0) == ScorePair(100, 0)
    ensures Normalize(0.0, s) == ScorePair(0, 100)
  {
  }
}
