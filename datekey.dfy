/**
 * `getLocalDateKey` (to-do.js and dashboard.js define the same function): the `YYYY-MM-DD`
 * key of a local calendar date under which the completion logs are filed.
 */
module DateKey {
  import opened Collections
  import opened Text
  import opened Calendar

  /** The year as `String` writes it, `-`, the month number (index + 1) and the day, each padded to two digits. */
  function LocalDateKey(d: Date): (key: string)
    requires ValidDate(d)
  {
    JoinKey(IntToString(d.year), d.month + 1, d.day)
  }

  /** `${year}-${month}-${day}` with the month and day numbers padded to two digits. */
  function JoinKey(ys: string, m: nat, day: nat): string {
    ys + "-" + PadStart2(NatToString(m)) + "-" + PadStart2(NatToString(day))
  }

  /** Reads a year written by `String`: digits, with a minus sign in front for years before year 0. */
  function ParseYear(s: string): Option<int> {
    if |s| > 1 && s[0] == '-' && AllDigits(s[1..]) then
      var v: int := DigitsValue(s[1..]);
      Some(-v)
    else if s != [] && AllDigits(s) then Some(DigitsValue(s))
    else None
  }

  /** Reads a key back: the year before the second-to-last `-`, two-digit month and day after it. */
  function ParseDateKey(key: string): (r: Option<Date>)
    ensures r.Some? ==> |key| >= 7 && key[|key| - 3] == '-' && key[|key| - 6] == '-'
  {
    var n := |key|;
    if n < 7 || key[n - 3] != '-' || key[n - 6] != '-' then None
    else if !AllDigits(key[n - 5..n - 3]) || !AllDigits(key[n - 2..]) then None
    else match ParseYear(key[..n - 6])
      case None => None
      case Some(y) => Some(Date(y, DigitsValue(key[n - 5..n - 3]) - 1, DigitsValue(key[n - 2..])))
  }

  /** `ParseYear` undoes `String` on years. */
  lemma ParseYearOfIntToString(y: int)
    ensures ParseYear(IntToString(y)) == Some(y)
  {
    if y < 0 {
      var t := NatToString(-y);
      var s := IntToString(y);
      assert s == "-" + t;
      assert s[1..] == t;
      NatToStringValue(-y);
      var v: int := DigitsValue(t);
      assert ParseYear(s) == Some(-v);
    } else {
      var s := NatToString(y);
      assert IsDigit(s[0]);
      NatToStringValue(y);
      assert ParseYear(s) == Some(DigitsValue(s));
    }
  }

  /** Where the pieces of `year-MM-DD` sit, counted from the end of the key. */
  lemma KeyPieces(ys: string, ms: string, ds: string)
    requires |ms| == 2 && |ds| == 2
    ensures var key := ys + "-" + ms + "-" + ds;
            |key| == |ys| + 6 && key[..|key| - 6] == ys && key[|key| - 6] == '-'
            && key[|key| - 5..|key| - 3] == ms && key[|key| - 3] == '-' && key[|key| - 2..] == ds
  {
  }

  /** A date's key reads back as that date: the key loses nothing. */
  lemma ParseLocalDateKey(d: Date)
    requires ValidDate(d)
    ensures ParseDateKey(LocalDateKey(d)) == Some(d)
  {
    ParseYearOfIntToString(d.year);
    ParsePaddedKey(IntToString(d.year), d.year, d.month + 1, d.day);
  }

  /** A key built from a readable year and two padded numbers below 100 reads back as those numbers. */
  lemma ParsePaddedKey(ys: string, y: int, m: nat, day: nat)
    requires ParseYear(ys) == Some(y) && m < 100 && day < 100
    ensures ParseDateKey(JoinKey(ys, m, day)) == Some(Date(y, m - 1, day))
  {
    var ms := PadStart2(NatToString(m));
    var ds := PadStart2(NatToString(day));
    PadStart2Value(m);
    PadStart2Value(day);
    ParseKeyPieces(ys, ms, ds, y);
    assert JoinKey(ys, m, day) == ys + "-" + ms + "-" + ds;
  }

  /** `ParseDateKey` on a key assembled from a readable year and two two-digit pieces. */
  lemma ParseKeyPieces(ys: string, ms: string, ds: string, y: int)
    requires |ms| == 2 && |ds| == 2 && AllDigits(ms) && AllDigits(ds)
    requires ParseYear(ys) == Some(y)
    ensures ParseDateKey(ys + "-" + ms + "-" + ds) == Some(Date(y, DigitsValue(ms) - 1, DigitsValue(ds)))
  {
    KeyPieces(ys, ms, ds);
  }

  /** Different dates never share a key, so one day's log entry is never filed under another day. */
  lemma LocalDateKeyInjective(a: Date, b: Date)
    requires ValidDate(a) && ValidDate(b)
    requires LocalDateKey(a) == LocalDateKey(b)
    ensures a == b
  {
    ParseLocalDateKey(a);
    ParseLocalDateKey(b);
  }

  /** A worked key: 15 October 2026 (month index 9) files under "2026-10-15". */
  lemma KeyExample()
    ensures LocalDateKey(Date(2026, 9, 15)) == "2026-10-15"
  {
    assert NatToString(2) == "2";
    assert NatToString(20) == "20";
    assert NatToString(202) == "202";
    assert IntToString(2026) == "2026";
    assert NatToString(10) == "10";
    assert NatToString(15) == "15";
  }
}
