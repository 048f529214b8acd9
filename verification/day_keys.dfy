/**
 * Calendar-day keys. The store files a markup under the key
 * `new Date(date).toISOString().split('T')[0]`: the UTC calendar day of the
 * given date, written `YYYY-MM-DD`. This module covers the two string shapes
 * the application hands to that expression: a day key itself (what the forms
 * and the dashboard pass) and a `toISOString` timestamp (what the store writes
 * into records). Any other string is treated as one the date parser rejects,
 * in which case `toISOString` throws.
 */
module DayKeys {
  import opened Values

  predicate IsDigit(c: char)
  {
    '0' <= c <= '9'
  }

  predicate AllDigits(s: string)
  {
    forall i :: 0 <= i < |s| ==> IsDigit(s[i])
  }

  /** The number a string of decimal digits denotes. */
  function DecimalValue(s: string): nat
    requires AllDigits(s)
  {
    if s == [] then 0 else 10 * DecimalValue(s[..|s| - 1]) + (s[|s| - 1] as int - '0' as int)
  }

  predicate IsLeapYear(year: nat)
  {
    year % 4 == 0 && (year % 100 != 0 || year % 400 == 0)
  }

  function DaysInMonth(year: nat, month: nat): nat
    requires 1 <= month <= 12
  {
    if month == 2 then (if IsLeapYear(year) then 29 else 28)
    else if month == 4 || month == 6 || month == 9 || month == 11 then 30
    else 31
  }

  /** `YYYY-MM-DD` naming a real day of the (proleptic Gregorian) calendar. */
  predicate IsDayKey(s: string)
  {
    && |s| == 10
    && s[4] == '-' && s[7] == '-'
    && AllDigits(s[..4]) && AllDigits(s[5..7]) && AllDigits(s[8..])
    && 1 <= DecimalValue(s[5..7]) <= 12
    && 1 <= DecimalValue(s[8..]) <= DaysInMonth(DecimalValue(s[..4]), DecimalValue(s[5..7]))
  }

  /** The shape `toISOString` produces: `YYYY-MM-DDTHH:mm:ss.sssZ`. */
  predicate IsIsoTimestamp(s: string)
  {
    && |s| == 24
    && IsDayKey(s[..10])
    && s[10] == 'T' && s[13] == ':' && s[16] == ':' && s[19] == '.' && s[23] == 'Z'
    && AllDigits(s[11..13]) && AllDigits(s[14..16]) && AllDigits(s[17..19]) && AllDigits(s[20..23])
    && DecimalValue(s[11..13]) <= 23 && DecimalValue(s[14..16]) <= 59 && DecimalValue(s[17..19]) <= 59
  }

  /** `new Date(date).toISOString().split('T')[0]`; `None` where the
      conversion throws a RangeError. */
  function UtcDayKey(date: string): (key: Option<string>)
    ensures key.Some? ==> IsDayKey(key.value) && key.value <= date
    ensures key.Some? <==> IsDayKey(date) || IsIsoTimestamp(date)
  {
    if IsDayKey(date) then Some(date)
    else if IsIsoTimestamp(date) then Some(date[..10])
    else None
  }

  /** A well-formed day key is its own key: a day picked in the forms and
      passed to the store lands in the bucket of that very day. */
  lemma DayKeyIsFixedPoint(day: string)
    requires IsDayKey(day)
    ensures UtcDayKey(day) == Some(day)
  {
  }

  /** The key of a store-written timestamp is its date part. */
  lemma TimestampKeyIsDatePart(stamp: string)
    requires IsIsoTimestamp(stamp)
    ensures UtcDayKey(stamp) == Some(stamp[..10])
  {
  }

  /** Normalising a key again gives the same key. */
  lemma UtcDayKeyIdempotent(date: string)
    requires UtcDayKey(date).Some?
    ensures UtcDayKey(UtcDayKey(date).value) == UtcDayKey(date)
  {
  }

  lemma DecimalValues()
    ensures DecimalValue("02") == 2 && DecimalValue("29") == 29 && DecimalValue("30") == 30
    ensures DecimalValue("2023") == 2023 && DecimalValue("2024") == 2024
  {
    assert "02"[..1] == "0" && "29"[..1] == "2" && "30"[..1] == "3";
    assert "2024"[..3] == "202" && "2023"[..3] == "202";
    assert "202"[..2] == "20" && "20"[..1] == "2";
  }

  /** The leap-day rule: 2024-02-29 names a day. */
  lemma LeapDayIsDayKey()
    ensures IsDayKey("2024-02-29")
  {
    DecimalValues();
    assert "2024-02-29"[..4] == "2024" && "2024-02-29"[5..7] == "02" && "2024-02-29"[8..] == "29";
  }

  /** The leap-day rule: 2023-02-29 and 2024-02-30 do not name days, so the
      strict parser modelled here rejects them and yields no key. */
  lemma NonDaysHaveNoKey()
    ensures !IsDayKey("2023-02-29") && UtcDayKey("2023-02-29") == None
    ensures !IsDayKey("2024-02-30") && UtcDayKey("2024-02-30") == None
  {
    DecimalValues();
    assert "2023-02-29"[..4] == "2023";
    assert "2023-02-29"[5..7] == "02";
    assert "2023-02-29"[8..] == "29";
    assert "2024-02-30"[..4] == "2024";
    assert "2024-02-30"[5..7] == "02";
    assert "2024-02-30"[8..] == "30";
  }
}
