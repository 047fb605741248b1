/**
 * The time-of-day / day-of-year Fourier features of pv_forecast/fourier.py.
 *
 * Arithmetic is over `real`; pi, sin and cos are left uninterpreted and are
 * passed in as a `Trig` value, so every statement here holds for whatever
 * values the numeric library gives them.
 */
module Fourier {
  import opened Results

  const SecondsPerHour: int := 60 * 60
  const MinutesPerHour: int := 60
  const HoursPerDay: int := 24
  const DaysPerYear: int := 365

  /** The column names of the encoded table, in their fixed order. */
  const Columns: seq<string> := ["day_sin", "day_cos", "year_sin", "year_cos", "year_x4_sin", "year_x4_cos"]

  /** The numeric library's pi, sin and cos. */
  datatype Trig = Trig(pi: real, sin: real -> real, cos: real -> real)

  /** The fields of a pandas timestamp that the encoder reads, plus its sub-second part. */
  datatype Timestamp = Timestamp(dayOfYear: nat, hour: nat, minute: nat, second: nat, nanosecond: nat)

  /** A timestamp pandas can hold: a day of a (possibly leap) year and a time of day. */
  predicate ValidTimestamp(t: Timestamp)
  {
    && 1 <= t.dayOfYear <= 366
    && t.hour < HoursPerDay
    && t.minute < MinutesPerHour
    && t.second < 60
    && t.nanosecond < 1_000_000_000
  }

  /** The encoded table: indexed by the input timestamps, one row of values per timestamp. */
  datatype Frame = Frame(index: seq<Timestamp>, columns: seq<string>, rows: seq<seq<real>>)

  /** Hours since midnight, minutes and whole seconds included. */
  function HourOfDay(t: Timestamp): real
  {
    t.hour as real + t.minute as real / MinutesPerHour as real + t.second as real / SecondsPerHour as real
  }

  /** The fraction of the day elapsed since midnight. */
  function HourOfDayFraction(t: Timestamp): (f: real)
    ensures ValidTimestamp(t) ==> 0.0 <= f < 1.0
  {
    HourOfDay(t) / HoursPerDay as real
  }

  /** `fraction_to_radians`: a fraction of a full turn, in radians. */
  function FractionToRadians(fraction: real, pi: real): (radians: real)
    ensures fraction == 0.0 ==> radians == 0.0
    ensures fraction == 1.0 ==> radians == 2.0 * pi
  {
    fraction * 2.0 * pi
  }

  /** The day of the year plus the fraction of the current day. */
  function DayOfYear(t: Timestamp): real
  {
    t.dayOfYear as real + HourOfDayFraction(t)
  }

  /** The angle of the daily cycle. */
  function DayAngle(t: Timestamp, pi: real): real
  {
    FractionToRadians(HourOfDayFraction(t), pi)
  }

  /** The angle of the yearly cycle, over a fixed year of `DaysPerYear` days. */
  function YearAngle(t: Timestamp, pi: real): real
  {
    FractionToRadians(DayOfYear(t) / DaysPerYear as real, pi)
  }

  /** One row of the table, in the order of `Columns`. */
  function EncodeRow(t: Timestamp, trig: Trig): (row: seq<real>)
    ensures |row| == |Columns|
    ensures row[0] == trig.sin(DayAngle(t, trig.pi)) && row[1] == trig.cos(DayAngle(t, trig.pi))
    ensures row[2] == trig.sin(YearAngle(t, trig.pi)) && row[3] == trig.cos(YearAngle(t, trig.pi))
    ensures row[4] == trig.sin(4.0 * YearAngle(t, trig.pi)) && row[5] == trig.cos(4.0 * YearAngle(t, trig.pi))
  {
    var day := DayAngle(t, trig.pi);
    var year := YearAngle(t, trig.pi);
    [trig.sin(day), trig.cos(day), trig.sin(year), trig.cos(year), trig.sin(year * 4.0), trig.cos(year * 4.0)]
  }

  /**
   * `fourier_encode_date_time`: one row per timestamp, in input order, indexed
   * by the input, with the six columns in their fixed order. An empty index
   * fails the function's assertion.
   */
  function FourierEncodeDateTime(dtIndex: seq<Timestamp>, trig: Trig): (r: Result<Frame>)
    ensures r.Err? <==> |dtIndex| == 0
    ensures r.Err? ==> r.error.kind == "AssertionError"
    ensures r.Ok? ==> (
      && r.value.index == dtIndex
      && r.value.columns == Columns
      && |r.value.rows| == |dtIndex|
      && forall i :: 0 <= i < |dtIndex| ==> (
        && |r.value.rows[i]| == |Columns|
        && r.value.rows[i][0] == trig.sin(DayAngle(dtIndex[i], trig.pi))
        && r.value.rows[i][1] == trig.cos(DayAngle(dtIndex[i], trig.pi))
        && r.value.rows[i][2] == trig.sin(YearAngle(dtIndex[i], trig.pi))
        && r.value.rows[i][3] == trig.cos(YearAngle(dtIndex[i], trig.pi))
        && r.value.rows[i][4] == trig.sin(4.0 * YearAngle(dtIndex[i], trig.pi))
        && r.value.rows[i][5] == trig.cos(4.0 * YearAngle(dtIndex[i], trig.pi))))
  {
    if |dtIndex| == 0 then
      Err(Exception("AssertionError", ""))
    else
      Ok(Frame(dtIndex, Columns, seq(|dtIndex|, i requires 0 <= i < |dtIndex| => EncodeRow(dtIndex[i], trig))))
  }

  // ---------------------------------------------------------------------------
  // Properties
  // ---------------------------------------------------------------------------

  /** `fraction_to_radians` is linear: 0 to 0, 1 to 2*pi, sums to sums, multiples to multiples. */
  lemma FractionToRadiansLinear(a: real, b: real, k: real, pi: real)
    ensures FractionToRadians(0.0, pi) == 0.0
    ensures FractionToRadians(1.0, pi) == 2.0 * pi
    ensures FractionToRadians(a + b, pi) == FractionToRadians(a, pi) + FractionToRadians(b, pi)
    ensures FractionToRadians(k * a, pi) == k * FractionToRadians(a, pi)
  {
  }

  /** Midnight is fraction 0 and day angle 0, so its day columns are sin(0) and cos(0). */
  lemma Midnight(t: Timestamp, trig: Trig)
    requires t.hour == 0 && t.minute == 0 && t.second == 0
    requires trig.sin(0.0) == 0.0 && trig.cos(0.0) == 1.0
    ensures HourOfDayFraction(t) == 0.0
    ensures DayAngle(t, trig.pi) == 0.0
    ensures EncodeRow(t, trig)[0] == 0.0 && EncodeRow(t, trig)[1] == 1.0
  {
  }

  /** Only hours, minutes and whole seconds matter: the sub-second part is dropped. */
  lemma SubSecondIgnored(t: Timestamp, nanosecond: nat, trig: Trig)
    ensures EncodeRow(t.(nanosecond := nanosecond), trig) == EncodeRow(t, trig)
  {
  }

  /** `(h, m, s)` strictly before `(h', m', s')` in lexicographic order. */
  predicate EarlierInDay(t: Timestamp, u: Timestamp)
  {
    || t.hour < u.hour
    || (t.hour == u.hour && t.minute < u.minute)
    || (t.hour == u.hour && t.minute == u.minute && t.second < u.second)
  }

  /** A later time of day has a strictly larger day fraction. */
  lemma DayFractionIncreasing(t: Timestamp, u: Timestamp)
    requires ValidTimestamp(t) && ValidTimestamp(u)
    requires EarlierInDay(t, u)
    ensures HourOfDayFraction(t) < HourOfDayFraction(u)
  {
  }

  /** Distinct times of day have distinct fractions, and equal times equal ones. */
  lemma DayFractionInjective(t: Timestamp, u: Timestamp)
    requires ValidTimestamp(t) && ValidTimestamp(u)
    ensures HourOfDayFraction(t) == HourOfDayFraction(u)
        <==> (t.hour, t.minute, t.second) == (u.hour, u.minute, u.second)
  {
    if EarlierInDay(t, u) {
      DayFractionIncreasing(t, u);
    } else if EarlierInDay(u, t) {
      DayFractionIncreasing(u, t);
    }
  }

  /** The day angle lies in [0, 2*pi) and grows strictly with the time of day. */
  lemma DayAngleIncreasing(t: Timestamp, u: Timestamp, pi: real)
    requires ValidTimestamp(t) && ValidTimestamp(u)
    requires pi > 0.0
    requires EarlierInDay(t, u)
    ensures 0.0 <= DayAngle(t, pi) < DayAngle(u, pi) < 2.0 * pi
  {
    DayFractionIncreasing(t, u);
    var f, g := HourOfDayFraction(t), HourOfDayFraction(u);
    FractionToRadiansLinear(0.0, 0.0, 0.0, pi);
    FractionToRadiansLinear(1.0, 0.0, 0.0, pi);
    AngleMonotone(f, g, pi);
    AngleMonotone(g, 1.0, pi);
    if 0.0 < f {
      AngleMonotone(0.0, f, pi);
    }
  }

  /** On the first minutes of a day, the day fraction is the minute count over 1440. */
  lemma MinutesAfterMidnight(t: Timestamp)
    requires t.hour == 0 && t.second == 0
    ensures HourOfDayFraction(t) == t.minute as real / 1440.0
  {
  }

  /** The year fraction: from 1/365 on 1 January at midnight to below 367/365. */
  lemma YearFractionBounds(t: Timestamp)
    requires ValidTimestamp(t)
    ensures 1.0 / 365.0 <= DayOfYear(t) / DaysPerYear as real < 367.0 / 365.0
  {
  }

  /** 1 January at midnight: day angle 0, year angle 2*pi/365 (days are counted from 1). */
  lemma NewYearMidnight(t: Timestamp, pi: real)
    requires t.dayOfYear == 1 && t.hour == 0 && t.minute == 0 && t.second == 0
    ensures DayAngle(t, pi) == 0.0
    ensures YearAngle(t, pi) == 2.0 * pi / 365.0
    ensures 4.0 * YearAngle(t, pi) == 8.0 * pi / 365.0
  {
  }

  /**
   * The year has a fixed length of 365 days, leap years included: the same
   * time 365 days later is exactly one full turn further on.
   */
  lemma FixedYearLength(t: Timestamp, pi: real)
    ensures YearAngle(t.(dayOfYear := t.dayOfYear + DaysPerYear), pi) == YearAngle(t, pi) + 2.0 * pi
  {
    var later := t.(dayOfYear := t.dayOfYear + DaysPerYear);
    assert HourOfDayFraction(later) == HourOfDayFraction(t);
    assert DayOfYear(later) / 365.0 == DayOfYear(t) / 365.0 + 1.0;
    FractionToRadiansLinear(DayOfYear(t) / 365.0, 1.0, 1.0, pi);
  }

  /** So 31 December of a leap year (day 366) lands one turn after 1 January. */
  lemma LeapDayWrapsAround(t: Timestamp, pi: real)
    requires t.dayOfYear == 366
    ensures YearAngle(t, pi) == YearAngle(t.(dayOfYear := 1), pi) + 2.0 * pi
  {
    FixedYearLength(t.(dayOfYear := 1), pi);
    assert t.(dayOfYear := 1).(dayOfYear := 1 + DaysPerYear) == t;
  }

  /** A later moment in the same year has a strictly larger year angle. */
  lemma YearAngleIncreasing(t: Timestamp, u: Timestamp, pi: real)
    requires ValidTimestamp(t) && ValidTimestamp(u)
    requires pi > 0.0
    requires t.dayOfYear < u.dayOfYear || (t.dayOfYear == u.dayOfYear && EarlierInDay(t, u))
    ensures YearAngle(t, pi) < YearAngle(u, pi)
  {
    if t.dayOfYear == u.dayOfYear {
      DayFractionIncreasing(t, u);
    }
    assert DayOfYear(t) < DayOfYear(u);
    AngleMonotone(DayOfYear(t) / DaysPerYear as real, DayOfYear(u) / DaysPerYear as real, pi);
  }

  /** The harmonic columns turn four times as fast as the yearly ones. */
  lemma QuarterlyHarmonic(t: Timestamp, pi: real)
    ensures 4.0 * YearAngle(t, pi) == FractionToRadians(4.0 * DayOfYear(t) / DaysPerYear as real, pi)
  {
    var y := DayOfYear(t) / DaysPerYear as real;
    assert 4.0 * DayOfYear(t) / DaysPerYear as real == 4.0 * y;
    FractionToRadiansLinear(y, 0.0, 4.0, pi);
  }

  /** If sin and cos lie on the unit circle, so does every sin/cos column pair of the table. */
  lemma ColumnPairsOnUnitCircle(dtIndex: seq<Timestamp>, trig: Trig, i: nat, j: nat)
    requires forall x :: trig.sin(x) * trig.sin(x) + trig.cos(x) * trig.cos(x) == 1.0
    requires i < |dtIndex|
    requires j in {0, 2, 4}
    ensures var rows := FourierEncodeDateTime(dtIndex, trig).value.rows;
      rows[i][j] * rows[i][j] + rows[i][j + 1] * rows[i][j + 1] == 1.0
  {
    var row := FourierEncodeDateTime(dtIndex, trig).value.rows[i];
    var angle := if j == 0 then DayAngle(dtIndex[i], trig.pi)
                 else if j == 2 then YearAngle(dtIndex[i], trig.pi)
                 else 4.0 * YearAngle(dtIndex[i], trig.pi);
    assert row[j] == trig.sin(angle) && row[j + 1] == trig.cos(angle);
    SquaresOf(row[j], row[j + 1], trig.sin(angle), trig.cos(angle));
  }

  // ---------------------------------------------------------------------------
  // Arithmetic helpers
  // ---------------------------------------------------------------------------

  /** A larger fraction is a larger angle. */
  lemma AngleMonotone(a: real, b: real, pi: real)
    requires a < b && pi > 0.0
    ensures FractionToRadians(a, pi) < FractionToRadians(b, pi)
  {
    assert FractionToRadians(a, pi) == 2.0 * (a * pi);
    assert FractionToRadians(b, pi) == 2.0 * (b * pi);
  }

  /** Equal pairs have equal sums of squares. */
  lemma SquaresOf(x: real, y: real, s: real, c: real)
    requires x == s && y == c
    ensures x * x + y * y == s * s + c * c
  {
  }
}
