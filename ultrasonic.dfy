/**
 * The precision measurement of the ultrasonic distance sensor.
 *
 * A reading from the HC-SR04 driver is an `Option<real>` in millimetres
 * (`None` when the driver reports that no distance could be read). The
 * readings the hardware would deliver are passed in as a sequence; the
 * measurement takes them in order, one per sample.
 */
module DistanceSensor {
  import opened Wrappers
  import opened Sorting

  /** The unit a measurement is reported in. */
  datatype MeasureUnit = Mm | Cm | M

  /** The numeric value of each unit of the enumeration, by which the millimetre result is divided. */
  function UnitValue(unit: MeasureUnit): (r: real)
    ensures r >= 1.0
  {
    match unit
    case Mm => 1.0
    case Cm => 10.0
    case M => 100.0
  }

  /** Samples farther than this from the reference sample are treated as sensor errors. */
  const AccuracyErrorInMillimeters: real := 3000.0

  /** A measured distance: a finite value, or positive infinity for "no target". */
  datatype Distance = Finite(value: real) | PositiveInfinity

  /** The exceptions the measurement can throw. */
  datatype Fault =
    | ArraySizeOverflow  // the batch array is allocated with a negative length
    | IndexOutOfRange    // the reference sample is taken from an empty batch

  function Abs(x: real): (a: real) {
    if x < 0.0 then -x else x
  }

  /** One sample: the reading in millimetres, or 0 mm when the read failed. */
  function ReadDistanceFromSensor(reading: Option<real>): (mm: real) {
    match reading
    case Some(mm) => mm
    case None => 0.0
  }

  /** The batch of the first `n` samples, in the order they were read. */
  function Collected(readings: seq<Option<real>>, n: nat): (batch: seq<real>)
    requires n <= |readings|
    ensures |batch| == n
    ensures forall i :: 0 <= i < n && readings[i].None? ==> batch[i] == 0.0
    ensures forall i :: 0 <= i < n && readings[i].Some? ==> batch[i] == readings[i].value
  {
    seq(n, i requires 0 <= i < n => ReadDistanceFromSensor(readings[i]))
  }

  /**
   * The reference ("ethalon") sample of a sorted batch: the sample at index n / 2,
   * the median for odd n and the upper of the two middle samples for even n.
   */
  function Ethalon(sorted: seq<real>): (e: real)
    requires |sorted| > 0
  {
    sorted[|sorted| / 2]
  }

  predicate WithinAccuracy(measurement: real, ethalon: real) {
    Abs(measurement - ethalon) <= AccuracyErrorInMillimeters
  }

  /** The samples of `s` within the accuracy error of `ethalon`, in their order in `s`. */
  function Accurate(s: seq<real>, ethalon: real): (r: seq<real>)
    ensures |r| <= |s|
    ensures forall i :: 0 <= i < |r| ==> WithinAccuracy(r[i], ethalon)
  {
    if |s| == 0 then
      []
    else
      var last := s[|s| - 1];
      var front := Accurate(s[..|s| - 1], ethalon);
      if WithinAccuracy(last, ethalon) then front + [last] else front
  }

  /** Scanning one more sample keeps it exactly when it is within the accuracy error. */
  lemma AccurateStep(s: seq<real>, i: nat, ethalon: real)
    requires i < |s|
    ensures Accurate(s[..i + 1], ethalon) ==
            if WithinAccuracy(s[i], ethalon) then Accurate(s[..i], ethalon) + [s[i]] else Accurate(s[..i], ethalon)
  {
    assert s[..i + 1][..i] == s[..i];
  }

  /** Each value occurs in the accurate samples exactly as often as in `s` when it is within the accuracy error, and not at all otherwise. */
  lemma {:induction false} AccurateCounts(s: seq<real>, ethalon: real, m: real)
    ensures multiset(Accurate(s, ethalon))[m] == if WithinAccuracy(m, ethalon) then multiset(s)[m] else 0
  {
    if |s| > 0 {
      var last := s[|s| - 1];
      AccurateCounts(s[..|s| - 1], ethalon, m);
      assert s == s[..|s| - 1] + [last];
      assert multiset(s) == multiset(s[..|s| - 1]) + multiset{last};
    }
  }

  /** Filtering keeps the order: the accurate samples of an ascending batch are ascending. */
  lemma {:induction false} AccurateAscending(s: seq<real>, ethalon: real)
    requires Ascending(s)
    ensures Ascending(Accurate(s, ethalon))
  {
    if |s| > 0 {
      var front := s[..|s| - 1];
      var last := s[|s| - 1];
      AccurateAscending(front, ethalon);
      var r := Accurate(front, ethalon);
      forall i | 0 <= i < |r|
        ensures r[i] <= last
      {
        assert r[i] in multiset(r);
        AccurateCounts(front, ethalon, r[i]);
        assert r[i] in multiset(front);
        var k :| 0 <= k < |front| && front[k] == r[i];
      }
    }
  }

  function Sum(s: seq<real>): (total: real) {
    if |s| == 0 then 0.0 else Sum(s[..|s| - 1]) + s[|s| - 1]
  }

  /** The arithmetic mean, as `Enumerable.Average` computes it. */
  function Mean(s: seq<real>): (m: real)
    requires |s| > 0
  {
    Sum(s) / (|s| as real)
  }

  /** An average of exactly zero means no echo came back: it is reported as positive infinity. */
  function NoTargetAsInfinity(average: real): (d: Distance)
    ensures d == PositiveInfinity <==> average == 0.0
    ensures d.Finite? ==> d.value == average
  {
    if average == 0.0 then PositiveInfinity else Finite(average)
  }

  /** The reference sample of a non-empty batch is among its accurate samples. */
  lemma EthalonIsAccurate(sorted: seq<real>)
    requires |sorted| > 0
    ensures Ethalon(sorted) in Accurate(sorted, Ethalon(sorted))
    ensures |Accurate(sorted, Ethalon(sorted))| > 0
  {
    var e := Ethalon(sorted);
    assert WithinAccuracy(e, e);
    assert e in multiset(sorted);
    AccurateCounts(sorted, e, e);
    assert e in multiset(Accurate(sorted, e));
  }

  /**
   * What follows the sort: pick the reference, keep the accurate samples,
   * average them and map a zero average to infinity.
   */
  function AverageOfSorted(sorted: seq<real>): (d: Distance)
    requires |sorted| > 0
  {
    EthalonIsAccurate(sorted);
    NoTargetAsInfinity(Mean(Accurate(sorted, Ethalon(sorted))))
  }

  /** The millimetre result for an already collected batch. An empty batch has no reference sample. */
  function AverageExcludingError(batch: seq<real>): (d: Result<Distance, Fault>) {
    if |batch| == 0 then Failure(IndexOutOfRange)
    else Success(AverageOfSorted(Sort(batch)))
  }

  /** The millimetre result of a precision measurement of `precisionRepeats` samples. */
  function AverageDistanceExcludingError(precisionRepeats: int, readings: seq<Option<real>>): (d: Result<Distance, Fault>)
    requires precisionRepeats <= |readings|
  {
    if precisionRepeats < 0 then Failure(ArraySizeOverflow)
    else AverageExcludingError(Collected(readings, precisionRepeats))
  }

  /** Expresses a millimetre distance in `unit`; infinity stays infinity. */
  function InUnit(d: Distance, unit: MeasureUnit): (r: Distance) {
    match d
    case Finite(mm) => Finite(mm / UnitValue(unit))
    case PositiveInfinity => PositiveInfinity
  }

  /** The result of a precision measurement in `unit`. */
  function Measured(unit: MeasureUnit, precisionRepeats: int, readings: seq<Option<real>>): (d: Result<Distance, Fault>)
    requires precisionRepeats <= |readings|
  {
    match AverageDistanceExcludingError(precisionRepeats, readings)
    case Success(d) => Success(InUnit(d, unit))
    case Failure(f) => Failure(f)
  }

  /** The measurement fails exactly when it is asked for fewer than one sample, and says why. */
  lemma FailsExactlyWithoutSamples(precisionRepeats: int, readings: seq<Option<real>>)
    requires precisionRepeats <= |readings|
    ensures AverageDistanceExcludingError(precisionRepeats, readings).Failure? <==> precisionRepeats < 1
    ensures precisionRepeats < 0 ==> AverageDistanceExcludingError(precisionRepeats, readings) == Failure(ArraySizeOverflow)
    ensures precisionRepeats == 0 ==> AverageDistanceExcludingError(precisionRepeats, readings) == Failure(IndexOutOfRange)
    ensures 1 <= precisionRepeats ==> 0 <= precisionRepeats / 2 < precisionRepeats
  {
  }

  lemma {:induction false} SumBounds(s: seq<real>, lo: real, hi: real)
    requires forall i :: 0 <= i < |s| ==> lo <= s[i] <= hi
    ensures (|s| as real) * lo <= Sum(s) <= (|s| as real) * hi
  {
    if |s| > 0 {
      SumBounds(s[..|s| - 1], lo, hi);
    }
  }

  /** The mean lies between any lower and upper bound of the values averaged. */
  lemma MeanBounds(s: seq<real>, lo: real, hi: real)
    requires |s| > 0
    requires forall i :: 0 <= i < |s| ==> lo <= s[i] <= hi
    ensures lo <= Mean(s) <= hi
  {
    SumBounds(s, lo, hi);
    var n := |s| as real;
    assert Sum(s) / n >= (n * lo) / n;
    assert Sum(s) / n <= (n * hi) / n;
  }

  /** Every element of an ascending sequence lies between its first and its last. */
  lemma AscendingBetweenEnds(s: seq<real>)
    requires Ascending(s) && |s| > 0
    ensures forall i :: 0 <= i < |s| ==> s[0] <= s[i] <= s[|s| - 1]
  {
  }

  /** Every accurate sample lies within the accuracy error on either side of the reference. */
  lemma AccurateAroundEthalon(s: seq<real>, e: real)
    ensures forall i :: 0 <= i < |Accurate(s, e)| ==>
              e - AccuracyErrorInMillimeters <= Accurate(s, e)[i] <= e + AccuracyErrorInMillimeters
  {
  }

  /**
   * In a sorted batch, the average of the accurate samples lies between the
   * least and the greatest of them, and so within the accuracy error of the
   * reference sample.
   */
  lemma MeanOfAccurateNearEthalon(sorted: seq<real>)
    requires Ascending(sorted) && |sorted| > 0
    ensures |Accurate(sorted, Ethalon(sorted))| > 0
    ensures var accurate := Accurate(sorted, Ethalon(sorted));
            accurate[0] <= Mean(accurate) <= accurate[|accurate| - 1]
    ensures Abs(Mean(Accurate(sorted, Ethalon(sorted))) - Ethalon(sorted)) <= AccuracyErrorInMillimeters
  {
    var e := Ethalon(sorted);
    var accurate := Accurate(sorted, e);
    EthalonIsAccurate(sorted);
    assert accurate[0] <= Mean(accurate) <= accurate[|accurate| - 1] by {
      AccurateAscending(sorted, e);
      AscendingBetweenEnds(accurate);
      MeanBounds(accurate, accurate[0], accurate[|accurate| - 1]);
    }
    assert e - AccuracyErrorInMillimeters <= Mean(accurate) <= e + AccuracyErrorInMillimeters by {
      AccurateAroundEthalon(sorted, e);
      MeanBounds(accurate, e - AccuracyErrorInMillimeters, e + AccuracyErrorInMillimeters);
    }
  }

  /** The result of a non-empty batch is the post-sort pipeline applied to its sorted samples. */
  lemma AverageOfCollected(precisionRepeats: int, readings: seq<Option<real>>, sorted: seq<real>)
    requires 1 <= precisionRepeats <= |readings|
    requires sorted == Sort(Collected(readings, precisionRepeats))
    ensures |sorted| == precisionRepeats
    ensures AverageDistanceExcludingError(precisionRepeats, readings) == Success(AverageOfSorted(sorted))
  {
  }

  /**
   * A finite result of a precision measurement lies within the accuracy error
   * of the reference sample of the sorted batch.
   */
  lemma FiniteResultNearEthalon(precisionRepeats: int, readings: seq<Option<real>>, sorted: seq<real>, v: real)
    requires 1 <= precisionRepeats <= |readings|
    requires sorted == Sort(Collected(readings, precisionRepeats))
    requires AverageDistanceExcludingError(precisionRepeats, readings) == Success(Finite(v))
    ensures |sorted| == precisionRepeats
    ensures Abs(v - Ethalon(sorted)) <= AccuracyErrorInMillimeters
  {
    AverageOfCollected(precisionRepeats, readings, sorted);
    SortAscending(Collected(readings, precisionRepeats));
    MeanOfAccurateNearEthalon(sorted);
  }

  /** A sum of non-negative values is zero only when every value is zero. */
  lemma {:induction false} SumOfNonNegativesIsZero(s: seq<real>)
    requires forall i :: 0 <= i < |s| ==> s[i] >= 0.0
    ensures Sum(s) >= 0.0
    ensures Sum(s) == 0.0 <==> forall i :: 0 <= i < |s| ==> s[i] == 0.0
  {
    if |s| > 0 {
      SumOfNonNegativesIsZero(s[..|s| - 1]);
    }
  }

  /** Each accurate sample is one of the samples it was filtered from. */
  lemma AccurateMember(s: seq<real>, e: real, i: int)
    requires 0 <= i < |Accurate(s, e)|
    ensures Accurate(s, e)[i] in s
  {
    var accurate := Accurate(s, e);
    assert accurate[i] in multiset(accurate);
    AccurateCounts(s, e, accurate[i]);
  }

  /** A sorted batch of nothing but 0 mm samples is reported as "no target". */
  lemma ZeroSamplesNoTarget(sorted: seq<real>)
    requires |sorted| > 0
    requires forall i :: 0 <= i < |sorted| ==> sorted[i] == 0.0
    ensures AverageOfSorted(sorted) == PositiveInfinity
  {
    var accurate := Accurate(sorted, Ethalon(sorted));
    forall i | 0 <= i < |accurate|
      ensures accurate[i] == 0.0
    {
      AccurateMember(sorted, Ethalon(sorted), i);
    }
    NoTargetIffAccurateSamplesZero(sorted);
  }

  /** When every read fails, every sample is 0 mm and the result is "no target". */
  lemma AllReadsFailedIsNoTarget(precisionRepeats: int, readings: seq<Option<real>>)
    requires 1 <= precisionRepeats <= |readings|
    requires forall i :: 0 <= i < precisionRepeats ==> readings[i].None?
    ensures AverageDistanceExcludingError(precisionRepeats, readings) == Success(PositiveInfinity)
  {
    var batch := Collected(readings, precisionRepeats);
    var sorted := Sort(batch);
    SortPermutes(batch);
    forall i | 0 <= i < |sorted|
      ensures sorted[i] == 0.0
    {
      assert sorted[i] in multiset(batch);
    }
    ZeroSamplesNoTarget(sorted);
  }

  /** The mean of non-negative values is zero exactly when every value is zero. */
  lemma MeanOfNonNegativesIsZero(s: seq<real>)
    requires |s| > 0
    requires forall i :: 0 <= i < |s| ==> s[i] >= 0.0
    ensures Mean(s) == 0.0 <==> forall i :: 0 <= i < |s| ==> s[i] == 0.0
  {
    SumOfNonNegativesIsZero(s);
    var n := |s| as real;
    assert Mean(s) * n == Sum(s);
  }

  /**
   * For samples that are never negative, "no target" is reported exactly
   * when every accurate sample is 0 mm, that is, when none of them saw an echo.
   */
  lemma NoTargetIffAccurateSamplesZero(sorted: seq<real>)
    requires |sorted| > 0
    requires forall i :: 0 <= i < |sorted| ==> sorted[i] >= 0.0
    ensures AverageOfSorted(sorted) == PositiveInfinity <==>
            forall i :: 0 <= i < |Accurate(sorted, Ethalon(sorted))| ==> Accurate(sorted, Ethalon(sorted))[i] == 0.0
  {
    var accurate := Accurate(sorted, Ethalon(sorted));
    forall i | 0 <= i < |accurate|
      ensures accurate[i] >= 0.0
    {
      AccurateMember(sorted, Ethalon(sorted), i);
    }
    EthalonIsAccurate(sorted);
    MeanOfNonNegativesIsZero(accurate);
  }

  /** Sorting first makes the result independent of the order in which the samples were read. */
  lemma ReadOrderIrrelevant(batch: seq<real>, reordered: seq<real>)
    requires multiset(reordered) == multiset(batch)
    ensures AverageExcludingError(reordered) == AverageExcludingError(batch)
  {
    SortAscending(reordered);
    SortPermutes(reordered);
    SortIsTheAscendingPermutation(batch, Sort(reordered));
  }

  /** The outlier 5000 mm among 98, 100, 101 and 102 mm is excluded: the result is their mean, 100.25 mm. */
  lemma OutlierExcluded(batch: seq<real>)
    requires batch == [100.0, 102.0, 98.0, 5000.0, 101.0]
    ensures AverageExcludingError(batch) == Success(Finite(100.25))
  {
    var sorted := [98.0, 100.0, 101.0, 102.0, 5000.0];
    assert batch[4..] == [101.0] && batch[3..][1..] == batch[4..];
    assert batch[2..][1..] == batch[3..] && batch[1..][1..] == batch[2..];
    assert Sort(batch[4..]) == [101.0];
    assert Sort(batch[3..]) == [101.0, 5000.0];
    assert Sort(batch[2..]) == [98.0, 101.0, 5000.0];
    assert Sort(batch[1..]) == [98.0, 101.0, 102.0, 5000.0] by {
      assert [98.0, 101.0, 5000.0][1..] == [101.0, 5000.0] && [101.0, 5000.0][1..] == [5000.0];
      assert Insert(102.0, [5000.0]) == [102.0, 5000.0];
      assert Insert(102.0, [101.0, 5000.0]) == [101.0, 102.0, 5000.0];
    }
    assert Sort(batch) == sorted by {
      assert [98.0, 101.0, 102.0, 5000.0][1..] == [101.0, 102.0, 5000.0];
      assert Insert(100.0, [101.0, 102.0, 5000.0]) == [100.0, 101.0, 102.0, 5000.0];
    }
    ExampleAverage(sorted);
  }

  /** The post-sort pipeline on the sorted example batch: reference 101 mm, outlier dropped. */
  lemma ExampleAverage(sorted: seq<real>)
    requires sorted == [98.0, 100.0, 101.0, 102.0, 5000.0]
    ensures Ethalon(sorted) == 101.0
    ensures Accurate(sorted, 101.0) == sorted[..4]
    ensures AverageOfSorted(sorted) == Finite(100.25)
  {
    var s1, s2, s3, s4 := [98.0], [98.0, 100.0], [98.0, 100.0, 101.0], [98.0, 100.0, 101.0, 102.0];
    assert s1[..0] == [] && s2[..1] == s1 && s3[..2] == s2 && s4[..3] == s3 && sorted[..4] == s4;
    assert Accurate(s1, 101.0) == s1;
    assert Accurate(s2, 101.0) == s2;
    assert Accurate(s3, 101.0) == s3;
    assert Accurate(s4, 101.0) == s4;
    assert !WithinAccuracy(5000.0, 101.0);
    assert Sum(s1) == 98.0;
    assert Sum(s2) == 198.0;
    assert Sum(s3) == 299.0;
    assert Sum(s4) == 401.0;
  }

  /**
   * The reported value is the millimetre result divided by the unit's value
   * (1, 10 or 100); "no target" and the faults pass through unchanged.
   */
  lemma MeasuredDividesByUnit(unit: MeasureUnit, precisionRepeats: int, readings: seq<Option<real>>)
    requires precisionRepeats <= |readings|
    ensures forall v :: AverageDistanceExcludingError(precisionRepeats, readings) == Success(Finite(v)) ==>
              Measured(unit, precisionRepeats, readings) == Success(Finite(v / UnitValue(unit)))
    ensures Measured(unit, precisionRepeats, readings) == Success(PositiveInfinity) <==>
            AverageDistanceExcludingError(precisionRepeats, readings) == Success(PositiveInfinity)
    ensures Measured(unit, precisionRepeats, readings).Failure? <==>
            AverageDistanceExcludingError(precisionRepeats, readings).Failure?
    ensures AverageDistanceExcludingError(precisionRepeats, readings).Failure? ==>
            Measured(unit, precisionRepeats, readings) == AverageDistanceExcludingError(precisionRepeats, readings)
  {
  }

  /** Centimetres are a tenth of millimetres and metres, as enumerated, a hundredth; scaling back restores the value. */
  lemma UnitConversions(mm: real)
    ensures InUnit(Finite(mm), Mm) == Finite(mm)
    ensures InUnit(Finite(mm), Cm) == Finite(mm / 10.0)
    ensures InUnit(Finite(mm), M) == Finite(mm / 100.0)
    ensures InUnit(Finite(mm), Cm).value * 10.0 == mm
    ensures InUnit(Finite(mm), M).value * 10.0 == InUnit(Finite(mm), Cm).value
  {
  }

  /** A single sorted sample is its own reference and its own average. */
  lemma SingleSortedSample(v: real)
    ensures AverageOfSorted([v]) == NoTargetAsInfinity(v)
  {
    assert [v][..0] == [];
    assert Ethalon([v]) == v;
    assert Accurate([v], v) == [v] by {
      assert WithinAccuracy(v, v);
    }
    assert Mean([v]) == v by {
      assert Sum([v]) == v;
    }
  }

  /**
   * With a single sample there is nothing to filter: the result is the
   * sample in the requested unit, or "no target" when the sample is 0 mm.
   */
  lemma SingleSample(unit: MeasureUnit, readings: seq<Option<real>>)
    requires 1 <= |readings|
    ensures var v := ReadDistanceFromSensor(readings[0]);
            Measured(unit, 1, readings) == Success(if v == 0.0 then PositiveInfinity else Finite(v / UnitValue(unit)))
  {
    var v := ReadDistanceFromSensor(readings[0]);
    var batch := Collected(readings, 1);
    assert batch == [v];
    SortIsTheAscendingPermutation(batch, [v]);
    AverageOfCollected(1, readings, [v]);
    SingleSortedSample(v);
  }

  /** The sensor: its pins and the unit its measurements are reported in. */
  class UltrasonicDistanceSensor {
    const triggerPin: int
    const echoPin: int
    var defaultMeasureUnit: MeasureUnit

    constructor (triggerPin: int, echoPin: int)
      ensures this.triggerPin == triggerPin && this.echoPin == echoPin
      ensures defaultMeasureUnit == Mm
    {
      this.triggerPin := triggerPin;
      this.echoPin := echoPin;
      defaultMeasureUnit := Mm;
    }

    /** A measurement from a single sample. */
    method Measure(readings: seq<Option<real>>) returns (r: Result<Distance, Fault>)
      requires 1 <= |readings|
      ensures r == Measured(defaultMeasureUnit, 1, readings)
    {
      r := MeasureWithPrecision(1, readings);
    }

    /** A measurement averaged over `precisionRepeats` samples, in the default unit. */
    method MeasureWithPrecision(precisionRepeats: int, readings: seq<Option<real>>) returns (r: Result<Distance, Fault>)
      requires precisionRepeats <= |readings|
      ensures r == Measured(defaultMeasureUnit, precisionRepeats, readings)
    {
      var average := CalculateAverageDistanceExcludingError(precisionRepeats, readings);
      match average
      case Success(d) =>
        r := Success(InUnit(d, defaultMeasureUnit));
      case Failure(f) =>
        r := Failure(f);
    }

    method CalculateAverageDistanceExcludingError(precisionRepeats: int, readings: seq<Option<real>>)
      returns (r: Result<Distance, Fault>)
      requires precisionRepeats <= |readings|
      ensures r == AverageDistanceExcludingError(precisionRepeats, readings)
    {
      var collected := CollectMeasurments(precisionRepeats, readings);
      if collected.Failure? {
        return Failure(collected.error);
      }
      var measurements := collected.value;
      ghost var batch := measurements[..];
      SortInPlace(measurements);
      var index := measurements.Length / 2;
      if measurements.Length <= index {
        return Failure(IndexOutOfRange);
      }
      var ethalonMeasurement := measurements[index];
      ghost var sorted := measurements[..];
      AverageOfCollected(precisionRepeats, readings, sorted);
      assert ethalonMeasurement == Ethalon(sorted);

      var accurateMeasurements: seq<real> := [];
      for i := 0 to measurements.Length
        invariant measurements[..] == sorted
        invariant accurateMeasurements == Accurate(sorted[..i], ethalonMeasurement)
      {
        AccurateStep(sorted, i, ethalonMeasurement);
        if Abs(measurements[i] - ethalonMeasurement) <= AccuracyErrorInMillimeters {
          accurateMeasurements := accurateMeasurements + [measurements[i]];
        }
      }
      assert sorted[..|sorted|] == sorted;
      EthalonIsAccurate(sorted);
      var averageResult := Sum(accurateMeasurements) / (|accurateMeasurements| as real);
      assert averageResult == Mean(Accurate(sorted, Ethalon(sorted)));
      r := Success(if averageResult == 0.0 then PositiveInfinity else Finite(averageResult));
      assert r == Success(AverageOfSorted(sorted));
    }

    /** Reads `precisionRepeats` samples into a new array; a negative count fails to allocate. */
    method CollectMeasurments(precisionRepeats: int, readings: seq<Option<real>>)
      returns (r: Result<array<real>, Fault>)
      requires precisionRepeats <= |readings|
      ensures r.Failure? <==> precisionRepeats < 0
      ensures r.Failure? ==> r.error == ArraySizeOverflow
      ensures r.Success? ==> fresh(r.value) && r.value[..] == Collected(readings, precisionRepeats)
    {
      if precisionRepeats < 0 {
        return Failure(ArraySizeOverflow);
      }
      var allMeasurements := new real[precisionRepeats];
      for measurement := 0 to precisionRepeats
        invariant allMeasurements[..measurement] == Collected(readings, measurement)
      {
        allMeasurements[measurement] := ReadDistanceFromSensor(readings[measurement]);
      }
      assert allMeasurements[..] == allMeasurements[..precisionRepeats];
      r := Success(allMeasurements);
    }
  }
}
