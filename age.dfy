/**
 The age calculations of section 4.2.3 of RFC 7234 ("Calculating Age"),
 as age.go performs them in Go's int64 nanosecond arithmetic.

 `time.Time.Sub` saturates at the int64 bounds, while `*` and `+` on
 durations wrap around (module GoInt). The functions named Saturating... are the same
 calculations with every overflow clamped, as section 1.2.1 of RFC 7234
 requires of a cache whose age calculation overflows (it must then use 2^31
 or the largest positive integer it can represent); see Findings in
 README.md. The clock read by `time.Now()` is the parameter `now`.
 */
module Age {
  import opened GoInt
  import Strconv

  function Max(a: int, b: int): int {
    if a < b then b else a
  }

  /** The integer strconv.Atoi reads from the Age value; its error is discarded. */
  function AgeNumber(ageValue: string): Int64 {
    Strconv.Atoi(ageValue).value
  }

  // ---------------------------------------------------------------------
  // corrected_initial_age, as written

  /** The initial age an Age header value contributes: 0 for an empty or
      unparseable value and for "0", otherwise n seconds, wrapped to int64. */
  function InitialAge(ageValue: string): (d: Int64)
    ensures ageValue == "" || Strconv.Atoi(ageValue).err == Strconv.ErrSyntax ==> d == 0
    ensures d == Wrap64(AgeNumber(ageValue) * SECOND)
  {
    if ageValue != "" && AgeNumber(ageValue) != 0 then Wrap64(AgeNumber(ageValue) * SECOND) else 0
  }

  /** apparent_age = max(0, response_time - date_value) */
  function ApparentAge(responseTime: int, dateValue: int): (d: Int64)
    ensures d >= 0 && d >= Sub(responseTime, dateValue)
    ensures d == 0 || d == Sub(responseTime, dateValue)
  {
    var apparentAge := Sub(responseTime, dateValue);
    if apparentAge < 0 then 0 else apparentAge
  }

  /** corrected_age_value = age_value + response_delay, in wrapping int64. */
  function CorrectedAgeValue(responseTime: int, requestTime: int, ageValue: string): Int64 {
    Wrap64(InitialAge(ageValue) + Sub(responseTime, requestTime))
  }

  /** `correctedInitialAge`: the larger of the apparent age and the corrected age value. */
  function CorrectedInitialAge(responseTime: int, dateValue: int, requestTime: int, ageValue: string): (d: Int64)
    ensures d >= 0
    ensures d >= Sub(responseTime, dateValue)
    ensures d >= CorrectedAgeValue(responseTime, requestTime, ageValue)
    ensures d == ApparentAge(responseTime, dateValue) || d == CorrectedAgeValue(responseTime, requestTime, ageValue)
  {
    var apparentAge := ApparentAge(responseTime, dateValue);
    var correctedAgeValue := CorrectedAgeValue(responseTime, requestTime, ageValue);
    if apparentAge > correctedAgeValue then apparentAge else correctedAgeValue
  }

  // ---------------------------------------------------------------------
  // The reference: section 4.2.3 of RFC 7234 over unbounded integers

  /** corrected_initial_age for an Age of ageSeconds, with no bound on any value. */
  function RfcCorrectedInitialAge(responseTime: int, dateValue: int, requestTime: int, ageSeconds: int): int {
    Max(Max(0, responseTime - dateValue), ageSeconds * SECOND + (responseTime - requestTime))
  }

  /** Every intermediate value of the calculation fits in an int64. */
  predicate NoOverflow(responseTime: int, dateValue: int, requestTime: int, ageSeconds: int) {
    && InInt64(responseTime - dateValue)
    && InInt64(responseTime - requestTime)
    && InInt64(ageSeconds * SECOND)
    && InInt64(ageSeconds * SECOND + (responseTime - requestTime))
  }

  /** Without overflow, age.go computes exactly the RFC's corrected_initial_age. */
  lemma CorrectedInitialAgeIsRfc(responseTime: int, dateValue: int, requestTime: int, ageValue: string)
    requires NoOverflow(responseTime, dateValue, requestTime, AgeNumber(ageValue))
    ensures CorrectedInitialAge(responseTime, dateValue, requestTime, ageValue)
         == RfcCorrectedInitialAge(responseTime, dateValue, requestTime, AgeNumber(ageValue))
  {
  }

  /** Any well-formed numeral (optional sign, leading zeros allowed) whose seconds
      fit in a Duration contributes exactly that many seconds, negatives included. */
  lemma InitialAgeOfNumeral(ageValue: string)
    requires Strconv.WellFormedNumeral(ageValue) && InInt64(Strconv.NumeralValue(ageValue) * SECOND)
    ensures InitialAge(ageValue) == Strconv.NumeralValue(ageValue) * SECOND
  {
  }

  /** "007" and "+7" are both seven seconds. */
  lemma InitialAgeLeadingZerosAndSign()
    ensures InitialAge("007") == 7 * SECOND
    ensures InitialAge("+7") == 7 * SECOND
  {
    assert Strconv.DecimalValue("7") == 7;
    assert Strconv.DecimalValue("07") == 7;
    assert Strconv.DecimalValue("007") == 7;
    assert Strconv.Digits("+7") == "7";
    InitialAgeOfNumeral("007");
    InitialAgeOfNumeral("+7");
  }

  /** No Age contribution and a Date not before the response: only the response delay counts. */
  lemma DelayOnly(responseTime: int, dateValue: int, requestTime: int, ageValue: string)
    requires dateValue >= responseTime && InitialAge(ageValue) == 0
    ensures CorrectedInitialAge(responseTime, dateValue, requestTime, ageValue) == Max(0, Sub(responseTime, requestTime))
    ensures requestTime <= responseTime && InInt64(responseTime - requestTime) ==>
              CorrectedInitialAge(responseTime, dateValue, requestTime, ageValue) == responseTime - requestTime
  {
  }

  // ---------------------------------------------------------------------
  // corrected_initial_age with overflow clamped

  function SaturatingInitialAge(ageValue: string): Int64 {
    if ageValue != "" && AgeNumber(ageValue) != 0 then Saturate64(AgeNumber(ageValue) * SECOND) else 0
  }

  function SaturatingCorrectedInitialAge(responseTime: int, dateValue: int, requestTime: int, ageValue: string): (d: Int64)
    ensures d >= 0
    ensures d >= Sub(responseTime, dateValue)
  {
    var apparentAge := ApparentAge(responseTime, dateValue);
    var correctedAgeValue := Saturate64(SaturatingInitialAge(ageValue) + Sub(responseTime, requestTime));
    if apparentAge > correctedAgeValue then apparentAge else correctedAgeValue
  }

  /** Without overflow the clamped calculation is the RFC's, like age.go's. */
  lemma SaturatingCorrectedInitialAgeIsRfc(responseTime: int, dateValue: int, requestTime: int, ageValue: string)
    requires NoOverflow(responseTime, dateValue, requestTime, AgeNumber(ageValue))
    ensures SaturatingCorrectedInitialAge(responseTime, dateValue, requestTime, ageValue)
         == RfcCorrectedInitialAge(responseTime, dateValue, requestTime, AgeNumber(ageValue))
  {
  }

  /** A larger Age value never yields a smaller corrected initial age. */
  lemma SaturatingCorrectedInitialAgeMonotone(responseTime: int, dateValue: int, requestTime: int, age1: string, age2: string)
    requires AgeNumber(age1) <= AgeNumber(age2)
    ensures SaturatingCorrectedInitialAge(responseTime, dateValue, requestTime, age1)
         <= SaturatingCorrectedInitialAge(responseTime, dateValue, requestTime, age2)
  {
    var d := Sub(responseTime, requestTime);
    assert SaturatingInitialAge(age1) == Saturate64(AgeNumber(age1) * SECOND);
    assert SaturatingInitialAge(age2) == Saturate64(AgeNumber(age2) * SECOND);
    SaturateMonotone(AgeNumber(age1) * SECOND, AgeNumber(age2) * SECOND);
    SaturateMonotone(SaturatingInitialAge(age1) + d, SaturatingInitialAge(age2) + d);
  }

  /** Age: 1 gives one second, but Age: 9223372037 (about 292 years) wraps to a
      negative initial age and gives a corrected initial age of 0. */
  lemma InitialAgeWrapCounterexample(t: int)
    ensures CorrectedInitialAge(t, t, t, Strconv.Itoa(1)) == SECOND
    ensures CorrectedInitialAge(t, t, t, Strconv.Itoa(9223372037)) == 0
    ensures SaturatingCorrectedInitialAge(t, t, t, Strconv.Itoa(9223372037)) == MAX_INT64
  {
    Strconv.AtoiItoa(1);
    var huge := Strconv.Itoa(9223372037);
    Strconv.AtoiItoa(9223372037);
    assert AgeNumber(huge) == 9223372037;
    WrapHugeAge();
    assert InitialAge(huge) == 145224192 + MIN_INT64;
    assert Sub(t, t) == 0;
    assert CorrectedAgeValue(t, t, huge) == 145224192 + MIN_INT64;
    assert ApparentAge(t, t) == 0;
  }

  /** 9223372037 s = 9223372037000000000 ns, which is 2^64 + 145224192 above MIN_INT64. */
  lemma WrapHugeAge()
    ensures Wrap64(9223372037 * SECOND) == 145224192 + MIN_INT64
  {
    assert 9223372037 * SECOND - MIN_INT64 == TWO_TO_64 + 145224192;
  }

  // ---------------------------------------------------------------------
  // current_age and its rendering

  /** ceil(d / 1s), the whole seconds `math.Ceil(age.Seconds())` yields. */
  function CeilSeconds(d: int): (s: int)
    ensures (s - 1) * SECOND < d <= s * SECOND
  {
    -((-d) / SECOND)
  }

  lemma CeilSecondsMonotone(d1: int, d2: int)
    requires d1 <= d2
    ensures CeilSeconds(d1) <= CeilSeconds(d2)
  {
    var s1, s2 := CeilSeconds(d1), CeilSeconds(d2);
    assert (s1 - 1) * SECOND < s2 * SECOND;
  }

  /** `ageToString`: the decimal rendering of the ceiling in whole seconds, which
      parses back as exactly that ceiling. */
  function AgeToString(d: Int64): (s: string)
    ensures Strconv.Atoi(s) == Strconv.NumResult(CeilSeconds(d), Strconv.NoError)
  {
    assert InInt64(d);
    Strconv.AtoiItoa(CeilSeconds(d));
    Strconv.Itoa(CeilSeconds(d))
  }

  /** An exact multiple k seconds renders as k. */
  lemma AgeToStringWholeSeconds(k: int)
    requires InInt64(k * SECOND)
    ensures AgeToString(k * SECOND) == Strconv.Itoa(k)
  {
    var s := CeilSeconds(k * SECOND);
    assert (s - 1) * SECOND < k * SECOND <= s * SECOND;
  }

  /** resident_time = now - response_time; current_age = corrected_initial_age + resident_time,
      added in wrapping int64. */
  function CurrentAgeDuration(responseTime: int, correctedInitialAge: Int64, now: int): (d: Int64)
    ensures (d - (correctedInitialAge + Sub(now, responseTime))) % TWO_TO_64 == 0
    ensures InInt64(now - responseTime) && InInt64(correctedInitialAge + (now - responseTime))
            ==> d == correctedInitialAge + (now - responseTime)
  {
    Wrap64(correctedInitialAge + Sub(now, responseTime))
  }

  /** `currentAge`, with the clock reading passed in. */
  function CurrentAge(responseTime: int, correctedInitialAge: Int64, now: int): (age: string)
    ensures Strconv.Atoi(age).value == CeilSeconds(CurrentAgeDuration(responseTime, correctedInitialAge, now))
  {
    AgeToString(CurrentAgeDuration(responseTime, correctedInitialAge, now))
  }

  /** Without overflow, the rendered current age is ceil((corrected_initial_age + now - response_time) / 1s),
      it is non-negative once now >= response_time, and it does not decrease as now advances. */
  lemma CurrentAgeWithoutOverflow(responseTime: int, correctedInitialAge: Int64, now1: int, now2: int)
    requires now1 <= now2
    requires InInt64(now2 - responseTime) && InInt64(now1 - responseTime)
    requires InInt64(correctedInitialAge + (now1 - responseTime)) && InInt64(correctedInitialAge + (now2 - responseTime))
    ensures Strconv.Atoi(CurrentAge(responseTime, correctedInitialAge, now1)).value
         == CeilSeconds(correctedInitialAge + (now1 - responseTime))
    ensures Strconv.Atoi(CurrentAge(responseTime, correctedInitialAge, now1)).value
         <= Strconv.Atoi(CurrentAge(responseTime, correctedInitialAge, now2)).value
    ensures now1 >= responseTime && correctedInitialAge >= 0 ==>
              Strconv.Atoi(CurrentAge(responseTime, correctedInitialAge, now1)).value >= 0
  {
    CeilSecondsMonotone(correctedInitialAge + (now1 - responseTime), correctedInitialAge + (now2 - responseTime));
    if now1 >= responseTime && correctedInitialAge >= 0 {
      CeilSecondsMonotone(0, correctedInitialAge + (now1 - responseTime));
    }
  }

  /** current_age with the addition clamped. */
  function SaturatingCurrentAge(responseTime: int, correctedInitialAge: Int64, now: int): (age: string)
    ensures Strconv.Atoi(age).value == CeilSeconds(Saturate64(correctedInitialAge + Sub(now, responseTime)))
  {
    AgeToString(Saturate64(correctedInitialAge + Sub(now, responseTime)))
  }

  /** The clamped current age never decreases as now advances, and is a
      non-negative integer once now >= response_time, for every corrected initial age. */
  lemma SaturatingCurrentAgeMonotone(responseTime: int, correctedInitialAge: Int64, now1: int, now2: int)
    requires now1 <= now2
    ensures Strconv.Atoi(SaturatingCurrentAge(responseTime, correctedInitialAge, now1)).value
         <= Strconv.Atoi(SaturatingCurrentAge(responseTime, correctedInitialAge, now2)).value
    ensures now1 >= responseTime && correctedInitialAge >= 0 ==>
              Strconv.Atoi(SaturatingCurrentAge(responseTime, correctedInitialAge, now1)).value >= 0
  {
    var a1 := Saturate64(correctedInitialAge + Sub(now1, responseTime));
    var a2 := Saturate64(correctedInitialAge + Sub(now2, responseTime));
    SaturateMonotone(now1 - responseTime, now2 - responseTime);
    SaturateMonotone(correctedInitialAge + Sub(now1, responseTime), correctedInitialAge + Sub(now2, responseTime));
    CeilSecondsMonotone(a1, a2);
    if now1 >= responseTime && correctedInitialAge >= 0 {
      SaturateMonotone(0, correctedInitialAge + Sub(now1, responseTime));
      CeilSecondsMonotone(0, a1);
    }
  }

  /** A Date more than 292 years before the response saturates the apparent age to the
      largest Duration; one nanosecond later age.go's current age wraps to a negative value. */
  lemma CurrentAgeWrapCounterexample(t: int)
    ensures CorrectedInitialAge(t, t - TWO_TO_63, t, "") == MAX_INT64
    ensures Strconv.Atoi(CurrentAge(t, MAX_INT64, t)).value == 9223372037
    ensures Strconv.Atoi(CurrentAge(t, MAX_INT64, t + 1)).value == -9223372036
    ensures Strconv.Atoi(SaturatingCurrentAge(t, MAX_INT64, t + 1)).value == 9223372037
  {
    assert Sub(t, t - TWO_TO_63) == MAX_INT64;
    assert CorrectedAgeValue(t, t, "") == 0;
    assert CurrentAgeDuration(t, MAX_INT64, t) == MAX_INT64;
    assert CeilSeconds(MAX_INT64) == 9223372037;
    assert Wrap64(MAX_INT64 + 1) == MIN_INT64;
    assert CurrentAgeDuration(t, MAX_INT64, t + 1) == MIN_INT64;
    assert CeilSeconds(MIN_INT64) == -9223372036;
  }
}
