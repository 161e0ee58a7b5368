/** controllers/validate.go: the verdict on one table, from host counts and host ids. */
module Validate {
  import opened Lang

  datatype Verdict = Verdict(isValid: bool, mismatchRatio: real, mismatchCount: int, hostCount: int)

  function AtLeastOne(n: int): int {
    if n < 1 then 1 else n
  }

  function Ratio(count: int, total: int): real {
    count as real / AtLeastOne(total) as real
  }

  const COUNT_MISMATCH_THRESHOLD := 0.5

  /** Counts so far apart that the ids are not even compared. */
  predicate CountsWayOff(hbiCount: int, appCount: int) {
    Ratio(Distance64(hbiCount, appCount), hbiCount) > COUNT_MISMATCH_THRESHOLD
  }

  function CompareIds(hbiIds: seq<string>, appIds: seq<string>, appCount: int, thresholdPercent: int): Verdict {
    var inHbiOnly := Missing(hbiIds, appIds);
    var inAppOnly := Missing(appIds, hbiIds);
    var mismatchCount := |inHbiOnly| + |inAppOnly|;
    var ratio := Ratio(mismatchCount, |hbiIds|);
    Verdict(ratio * 100.0 <= thresholdPercent as real, ratio, mismatchCount, appCount)
  }

  /** The part of `validate` after the ids are fetched. */
  method JudgeIds(hbiIds: seq<string>, appIds: seq<string>, appCount: int, thresholdPercent: int) returns (verdict: Verdict)
    ensures verdict == CompareIds(hbiIds, appIds, appCount, thresholdPercent)
  {
    var inHbiOnly := Difference(hbiIds, appIds);
    var inAppOnly := Difference(appIds, hbiIds);
    var mismatchCount := |inHbiOnly| + |inAppOnly|;
    var idMismatchRatio := Ratio(mismatchCount, |hbiIds|);
    var result := idMismatchRatio * 100.0 <= thresholdPercent as real;
    verdict := Verdict(result, idMismatchRatio, mismatchCount, appCount);
  }

  /** `validate` on the results of its four queries; the id lists are not fetched when the counts are way off. */
  function Judge(hbiCount: int, appCount: int, hbiIds: seq<string>, appIds: seq<string>, thresholdPercent: int): Verdict {
    if CountsWayOff(hbiCount, appCount) then
      var countMismatch := Distance64(hbiCount, appCount);
      Verdict(false, Ratio(countMismatch, hbiCount), countMismatch, appCount)
    else CompareIds(hbiIds, appIds, appCount, thresholdPercent)
  }

  /** The verdict when counts and ids come from one snapshot of both databases. */
  function JudgeSnapshot(hbiIds: seq<string>, appIds: seq<string>, thresholdPercent: int): Verdict {
    Judge(|hbiIds|, |appIds|, hbiIds, appIds, thresholdPercent)
  }

  // ---- Arithmetic of the ratio test.

  lemma RatioBelow(count: int, total: int, percent: int)
    ensures Ratio(count, total) * 100.0 <= percent as real <==> 100 * count <= percent * AtLeastOne(total)
  {
    var c, m, p := count as real, AtLeastOne(total) as real, percent as real;
    var q := c / m;
    assert q * m == c;
    if q * 100.0 <= p {
      assert q * 100.0 * m <= p * m;
      assert (100 * count) as real == 100.0 * c;
      assert (percent * AtLeastOne(total)) as real == p * m;
    } else {
      assert q * 100.0 * m > p * m;
      assert (100 * count) as real == 100.0 * c;
      assert (percent * AtLeastOne(total)) as real == p * m;
    }
  }

  lemma WayOffIffHalf(hbiCount: int, appCount: int)
    ensures CountsWayOff(hbiCount, appCount) <==> 2 * Distance64(hbiCount, appCount) > (if hbiCount < 1 then 1 else hbiCount)
  {
    RatioBelow(Distance64(hbiCount, appCount), hbiCount, 50);
    assert Ratio(Distance64(hbiCount, appCount), hbiCount) * 100.0 <= 50 as real
      <==> Ratio(Distance64(hbiCount, appCount), hbiCount) <= 0.5;
  }

  // ---- What the id comparison decides.

  ghost function SymmetricDifference(a: seq<string>, b: seq<string>): set<string> {
    (Elements(a) - Elements(b)) + (Elements(b) - Elements(a))
  }

  /** Counts fit an int64 on both sides, and neither list repeats an id. */
  ghost predicate CleanSnapshot(hbiIds: seq<string>, appIds: seq<string>) {
    NoDuplicates(hbiIds) && NoDuplicates(appIds) && |hbiIds| < TWO_63 && |appIds| < TWO_63
  }

  lemma IdsAcceptedIff(hbiIds: seq<string>, appIds: seq<string>, appCount: int, thresholdPercent: int)
    ensures var v := CompareIds(hbiIds, appIds, appCount, thresholdPercent);
            v.isValid <==> 100 * v.mismatchCount <= thresholdPercent * (if hbiIds == [] then 1 else |hbiIds|)
  {
    var v := CompareIds(hbiIds, appIds, appCount, thresholdPercent);
    RatioBelow(v.mismatchCount, |hbiIds|, thresholdPercent);
  }

  lemma MissingBothWays(a: seq<string>, b: seq<string>)
    requires NoDuplicates(a) && NoDuplicates(b)
    ensures |Missing(a, b)| + |Missing(b, a)| == |SymmetricDifference(a, b)|
  {
    DifferenceIsSetDifference(a, b);
    DifferenceIsSetDifference(b, a);
    assert (Elements(a) - Elements(b)) !! (Elements(b) - Elements(a));
  }

  lemma MismatchIsSymmetricDifference(hbiIds: seq<string>, appIds: seq<string>, appCount: int, thresholdPercent: int)
    requires NoDuplicates(hbiIds) && NoDuplicates(appIds)
    ensures CompareIds(hbiIds, appIds, appCount, thresholdPercent).mismatchCount == |SymmetricDifference(hbiIds, appIds)|
    ensures CompareIds(hbiIds, appIds, appCount, thresholdPercent).isValid
            <==> 100 * |SymmetricDifference(hbiIds, appIds)| <= thresholdPercent * (if hbiIds == [] then 1 else |hbiIds|)
  {
    MissingBothWays(hbiIds, appIds);
    IdsAcceptedIff(hbiIds, appIds, appCount, thresholdPercent);
  }

  /** The counts cannot differ by more than the ids do. */
  lemma CountGapWithinMismatch(a: seq<string>, b: seq<string>)
    requires NoDuplicates(a) && NoDuplicates(b)
    ensures Abs(|a| - |b|) <= |SymmetricDifference(a, b)|
  {
    ElementsCount(a);
    ElementsCount(b);
    var ea, eb := Elements(a), Elements(b);
    assert ea == (ea - eb) + (ea * eb) && eb == (eb - ea) + (ea * eb);
    assert |ea| == |ea - eb| + |ea * eb| && |eb| == |eb - ea| + |ea * eb|;
    assert (ea - eb) !! (eb - ea);
    assert |SymmetricDifference(a, b)| == |ea - eb| + |eb - ea|;
  }

  lemma ProductBound(percent: int, total: int)
    requires percent <= 50 && 0 <= total
    ensures percent * total <= 50 * total
  {
    assert (50 - percent) * total >= 0;
  }

  /** Exiting early never changes the verdict as long as the threshold is at most 50%. */
  lemma EarlyExitAgrees(hbiIds: seq<string>, appIds: seq<string>, thresholdPercent: int)
    requires CleanSnapshot(hbiIds, appIds) && thresholdPercent <= 50
    ensures JudgeSnapshot(hbiIds, appIds, thresholdPercent).isValid
         == CompareIds(hbiIds, appIds, |appIds|, thresholdPercent).isValid
  {
    if CountsWayOff(|hbiIds|, |appIds|) {
      DistanceIsExact(|hbiIds|, |appIds|);
      WayOffIffHalf(|hbiIds|, |appIds|);
      CountGapWithinMismatch(hbiIds, appIds);
      MismatchIsSymmetricDifference(hbiIds, appIds, |appIds|, thresholdPercent);
      ProductBound(thresholdPercent, AtLeastOne(|hbiIds|));
    }
  }

  ghost predicate EarlyExitIsSafe(thresholdPercent: int) {
    forall hbiIds, appIds :: CleanSnapshot(hbiIds, appIds) ==>
      JudgeSnapshot(hbiIds, appIds, thresholdPercent).isValid
        == CompareIds(hbiIds, appIds, |appIds|, thresholdPercent).isValid
  }

  /** 'n' distinct ids. */
  function SampleIds(n: nat): seq<string>
    requires n <= 100
  {
    seq(n, i requires 0 <= i < n => [i as char])
  }

  /** Above 50% the early exit overrules the configured threshold: 49 of 100 hosts, none of them wrong. */
  lemma EarlyExitOverrules(thresholdPercent: int)
    requires thresholdPercent > 50
    ensures CleanSnapshot(SampleIds(100), SampleIds(49))
    ensures !JudgeSnapshot(SampleIds(100), SampleIds(49), thresholdPercent).isValid
    ensures CompareIds(SampleIds(100), SampleIds(49), 49, thresholdPercent).isValid
  {
    var hbi, app := SampleIds(100), SampleIds(49);
    forall i, j | 0 <= i < j < 100 ensures hbi[i] != hbi[j] {
      assert hbi[i][0] == i as char && hbi[j][0] == j as char;
    }
    assert app == hbi[..49];
    assert NoDuplicates(app) by {
      forall i, j | 0 <= i < j < 49 ensures app[i] != app[j] { assert app[i] == hbi[i] && app[j] == hbi[j]; }
    }
    assert Elements(app) <= Elements(hbi) by {
      forall x | x in app ensures x in hbi { var i :| 0 <= i < 49 && app[i] == x; assert hbi[i] == x; }
    }
    ElementsCount(hbi);
    ElementsCount(app);
    assert SymmetricDifference(hbi, app) == Elements(hbi) - Elements(app);
    assert Elements(hbi) == (Elements(hbi) - Elements(app)) + Elements(app);
    assert |SymmetricDifference(hbi, app)| == 51;
    HalfIsOverruled(hbi, app, thresholdPercent);
  }

  lemma HalfIsOverruled(hbiIds: seq<string>, appIds: seq<string>, thresholdPercent: int)
    requires NoDuplicates(hbiIds) && NoDuplicates(appIds) && |hbiIds| == 100 && |appIds| == 49
    requires |SymmetricDifference(hbiIds, appIds)| == 51 && thresholdPercent > 50
    ensures !JudgeSnapshot(hbiIds, appIds, thresholdPercent).isValid
    ensures CompareIds(hbiIds, appIds, 49, thresholdPercent).isValid
  {
    assert CountsWayOff(100, 49) by {
      DistanceIsExact(100, 49);
      WayOffIffHalf(100, 49);
    }
    assert hbiIds != [] && 100 * 51 <= thresholdPercent * 100;
    MismatchIsSymmetricDifference(hbiIds, appIds, 49, thresholdPercent);
  }

  /** The fast path is a refinement of the id comparison for exactly the thresholds up to 50%. */
  lemma EarlyExitSafeIff(thresholdPercent: int)
    ensures EarlyExitIsSafe(thresholdPercent) <==> thresholdPercent <= 50
  {
    if thresholdPercent <= 50 {
      forall hbiIds, appIds | CleanSnapshot(hbiIds, appIds)
        ensures JudgeSnapshot(hbiIds, appIds, thresholdPercent).isValid
             == CompareIds(hbiIds, appIds, |appIds|, thresholdPercent).isValid
      {
        EarlyExitAgrees(hbiIds, appIds, thresholdPercent);
      }
    } else {
      EarlyExitOverrules(thresholdPercent);
    }
  }

  /** With no tolerance the pipeline is valid exactly when both databases hold the same hosts. */
  lemma ZeroThresholdMeansEqual(hbiIds: seq<string>, appIds: seq<string>)
    requires CleanSnapshot(hbiIds, appIds)
    ensures JudgeSnapshot(hbiIds, appIds, 0).isValid <==> Elements(hbiIds) == Elements(appIds)
  {
    EarlyExitAgrees(hbiIds, appIds, 0);
    MismatchIsSymmetricDifference(hbiIds, appIds, |appIds|, 0);
    var sd := SymmetricDifference(hbiIds, appIds);
    if |sd| == 0 {
      assert sd == {};
      forall x ensures x in Elements(hbiIds) <==> x in Elements(appIds) { assert x !in sd; }
    }
    if Elements(hbiIds) == Elements(appIds) {
      assert sd == {};
    }
  }

  /** What a verdict reports: the rows of the table, and the mismatch relative to the inventory, by counts on an early exit. */
  lemma ReportSpelledOut(hbiCount: int, appCount: int, hbiIds: seq<string>, appIds: seq<string>, thresholdPercent: int)
    ensures var v := Judge(hbiCount, appCount, hbiIds, appIds, thresholdPercent);
            && v.hostCount == appCount
            && if CountsWayOff(hbiCount, appCount)
               then && !v.isValid && v.mismatchCount == Distance64(hbiCount, appCount)
                    && v.mismatchRatio == v.mismatchCount as real / (if hbiCount < 1 then 1 else hbiCount) as real
               else && v.mismatchCount == |Missing(hbiIds, appIds)| + |Missing(appIds, hbiIds)|
                    && v.mismatchRatio == v.mismatchCount as real / (if hbiIds == [] then 1 else |hbiIds|) as real
  {
    assert AtLeastOne(|hbiIds|) == if hbiIds == [] then 1 else |hbiIds|;
  }
}
