/** Shard boundary timestamps: the `%Y-%m-%dT%H:%M:%SZ` wire format read into a six-field value, and its order. */
module Timestamps {
  import opened Wrappers
  import opened Text

  /** A UTC instant at second precision; fields in the order they are compared. */
  datatype Timestamp = Timestamp(year: nat, month: nat, day: nat, hour: nat, minute: nat, second: nat)

  predicate IsLeapYear(y: nat) {
    y % 4 == 0 && (y % 100 != 0 || y % 400 == 0)
  }

  function DaysInMonth(y: nat, m: nat): nat
    requires 1 <= m <= 12
  {
    if m == 2 then (if IsLeapYear(y) then 29 else 28)
    else if m == 4 || m == 6 || m == 9 || m == 11 then 30
    else 31
  }

  /** The values a Python `datetime` accepts: years 1 to 9999, a real calendar day, and a time of day. */
  predicate Valid(t: Timestamp) {
    && 1 <= t.year <= 9999
    && 1 <= t.month <= 12
    && 1 <= t.day <= DaysInMonth(t.year, t.month)
    && t.hour < 24 && t.minute < 60 && t.second < 60
  }

  /** `a < b` on datetimes: lexicographic on (year, month, day, hour, minute, second). */
  predicate Before(a: Timestamp, b: Timestamp) {
    || a.year < b.year
    || (a.year == b.year && a.month < b.month)
    || (a.year == b.year && a.month == b.month && a.day < b.day)
    || (a.year == b.year && a.month == b.month && a.day == b.day && a.hour < b.hour)
    || (a.year == b.year && a.month == b.month && a.day == b.day && a.hour == b.hour && a.minute < b.minute)
    || (a.year == b.year && a.month == b.month && a.day == b.day && a.hour == b.hour && a.minute == b.minute
        && a.second < b.second)
  }

  /** `Before` is a strict total order, so a running minimum and maximum are well defined. */
  lemma BeforeStrictTotalOrder(a: Timestamp, b: Timestamp)
    ensures !Before(a, a)
    ensures a == b || Before(a, b) || Before(b, a)
    ensures !(Before(a, b) && Before(b, a))
  {
  }

  lemma BeforeTransitive(a: Timestamp, b: Timestamp, c: Timestamp)
    requires Before(a, b) && Before(b, c)
    ensures Before(a, c)
  {
  }

  /** `datetime.strptime(s, "%Y-%m-%dT%H:%M:%SZ")` on fixed-width fields: `None` is the `ValueError`. */
  function ParseTimestamp(s: string): Option<Timestamp> {
    if |s| != 20 || s[4] != '-' || s[7] != '-' || s[10] != 'T' || s[13] != ':' || s[16] != ':' || s[19] != 'Z'
    then None
    else if !(AllDigits(s[0..4]) && AllDigits(s[5..7]) && AllDigits(s[8..10])
              && AllDigits(s[11..13]) && AllDigits(s[14..16]) && AllDigits(s[17..19]))
    then None
    else
      var t := Timestamp(ParseNat(s[0..4]), ParseNat(s[5..7]), ParseNat(s[8..10]),
                         ParseNat(s[11..13]), ParseNat(s[14..16]), ParseNat(s[17..19]));
      if Valid(t) then Some(t) else None
  }

  /** The wire rendering of a timestamp, zero-padded in every field. */
  function FormatTimestamp(t: Timestamp): (s: string)
    ensures |s| == 20
  {
    Digits(t.year, 4) + "-" + Digits(t.month, 2) + "-" + Digits(t.day, 2) + "T"
    + Digits(t.hour, 2) + ":" + Digits(t.minute, 2) + ":" + Digits(t.second, 2) + "Z"
  }

  /** Every valid timestamp is read back from its rendering. */
  lemma ParseFormat(t: Timestamp)
    requires Valid(t)
    ensures ParseTimestamp(FormatTimestamp(t)) == Some(t)
  {
    var s := FormatTimestamp(t);
    assert s[0..4] == Digits(t.year, 4);
    assert s[5..7] == Digits(t.month, 2);
    assert s[8..10] == Digits(t.day, 2);
    assert s[11..13] == Digits(t.hour, 2);
    assert s[14..16] == Digits(t.minute, 2);
    assert s[17..19] == Digits(t.second, 2);
    ParseDigits(t.year, 4);
    ParseDigits(t.month, 2);
    ParseDigits(t.day, 2);
    ParseDigits(t.hour, 2);
    ParseDigits(t.minute, 2);
    ParseDigits(t.second, 2);
  }

  /** The parse accepts nothing but renderings: an accepted string is exactly the rendering of a valid timestamp. */
  lemma FormatParse(s: string, t: Timestamp)
    requires ParseTimestamp(s) == Some(t)
    ensures Valid(t) && FormatTimestamp(t) == s
  {
    DigitsParse(s[0..4]);
    DigitsParse(s[5..7]);
    DigitsParse(s[8..10]);
    DigitsParse(s[11..13]);
    DigitsParse(s[14..16]);
    DigitsParse(s[17..19]);
    assert s == s[0..4] + [s[4]] + s[5..7] + [s[7]] + s[8..10] + [s[10]]
              + s[11..13] + [s[13]] + s[14..16] + [s[16]] + s[17..19] + [s[19]];
  }
}
