/**
 * The checkout timestamp. The store reads the wall clock once per
 * checkout; here the clock reading is a value handed in by the caller, and
 * this module formats it with the two `DateTimeFormatter` patterns the
 * store uses: `yyyy-MM-dd HH:mm:ss` on the receipt and `yyyyMMddHHmm` in
 * the receipt's file name.
 */
module Clock {
  import opened Text

  datatype DateTime = DateTime(year: int, month: int, day: int, hour: int, minute: int, second: int)

  /** A local date-time of the common era, as a clock reading produces. */
  predicate Valid(t: DateTime)
  {
    && 1 <= t.year
    && 1 <= t.month <= 12
    && 1 <= t.day <= 31
    && 0 <= t.hour <= 23
    && 0 <= t.minute <= 59
    && 0 <= t.second <= 59
  }

  /**
   * Pattern letters `yyyy`: the year of era with at least four digits; a
   * year that needs more than four digits gets a leading '+'.
   */
  function FormatYear(y: nat): (s: string)
    ensures y <= 9999 ==> |s| == 4 && AllDigits(s) && DecVal(s) == y
  {
    if y <= 9999 then
      ZeroPadWidth(y, 4);
      ZeroPadValue(y, 4);
      ZeroPad(y, 4)
    else "+" + NatToDec(y)
  }

  /** A two-letter field (`MM`, `dd`, `HH`, `mm`, `ss`) of a value below 100. */
  function Two(v: nat): (s: string)
    requires v < 100
    ensures |s| == 2 && AllDigits(s) && DecVal(s) == v
  {
    ZeroPadWidth(v, 2);
    ZeroPadValue(v, 2);
    ZeroPad(v, 2)
  }

  /** Pattern `yyyyMMddHHmm`, the stem of a receipt's file name. */
  function FileStamp(t: DateTime): (s: string)
    requires Valid(t)
    ensures |s| == |FormatYear(t.year)| + 8
    ensures t.year <= 9999 ==> |s| == 12
  {
    FormatYear(t.year) + Two(t.month) + Two(t.day) + Two(t.hour) + Two(t.minute)
  }

  /** Pattern `yyyy-MM-dd HH:mm:ss`, the date line of a receipt. */
  function LongDate(t: DateTime): (s: string)
    requires Valid(t)
    ensures |s| == |FormatYear(t.year)| + 15
    ensures t.year <= 9999 ==> |s| == 19
  {
    FormatYear(t.year) + "-" + Two(t.month) + "-" + Two(t.day)
      + " " + Two(t.hour) + ":" + Two(t.minute) + ":" + Two(t.second)
  }

  /**
   * The stamp is the year followed by eight digits, and each field reads
   * back from its columns: the stamp loses nothing but the seconds. For a
   * four-digit year it is twelve digits.
   */
  lemma {:induction false} FileStampFields(t: DateTime)
    requires Valid(t)
    ensures var s, n := FileStamp(t), |FormatYear(t.year)|;
      && |s| == n + 8 && s[..n] == FormatYear(t.year)
      && ReadsAs(s[n..n + 2], t.month) && ReadsAs(s[n + 2..n + 4], t.day)
      && ReadsAs(s[n + 4..n + 6], t.hour) && ReadsAs(s[n + 6..n + 8], t.minute)
      && (t.year <= 9999 ==> n == 4 && |s| == 12 && AllDigits(s) && ReadsAs(s[..n], t.year))
  {
    var y, mo, d, h, mi := FormatYear(t.year), Two(t.month), Two(t.day), Two(t.hour), Two(t.minute);
    StampColumns(y, mo, d, h, mi);
  }

  /** Where the five fields sit in a stamp. */
  lemma StampColumns(y: string, mo: string, d: string, h: string, mi: string)
    requires |mo| == 2 && |d| == 2 && |h| == 2 && |mi| == 2
    ensures var s, n := y + mo + d + h + mi, |y|;
      && |s| == n + 8 && s[..n] == y && s[n..n + 2] == mo && s[n + 2..n + 4] == d
      && s[n + 4..n + 6] == h && s[n + 6..n + 8] == mi
      && (AllDigits(y) && AllDigits(mo) && AllDigits(d) && AllDigits(h) && AllDigits(mi) ==> AllDigits(s))
  {
    var s, n := y + mo + d + h + mi, |y|;
    assert s[..n] == y;
    assert s[n..n + 2] == mo;
    assert s[n + 2..n + 4] == d;
    assert s[n + 4..n + 6] == h;
    assert s[n + 6..n + 8] == mi;
  }

  /** Different years never print alike. */
  lemma {:induction false} FormatYearInjective(y: nat, z: nat)
    requires FormatYear(y) == FormatYear(z)
    ensures y == z
  {
    YearSign(y);
    YearSign(z);
    if y > 9999 && z > 9999 {
      assert FormatYear(y)[1..] == NatToDec(y);
      assert FormatYear(z)[1..] == NatToDec(z);
      DecValNatToDec(y);
      DecValNatToDec(z);
    }
  }

  /** A year prints with a leading '+' exactly when it has more than four digits. */
  lemma YearSign(y: nat)
    ensures FormatYear(y)[0] == '+' <==> y > 9999
  {
    if y <= 9999 {
      assert IsDigit(FormatYear(y)[0]);
    }
  }

  /** Two clock readings give the same stamp exactly when they fall in the same minute. */
  lemma {:induction false} FileStampSameMinute(t: DateTime, u: DateTime)
    requires Valid(t) && Valid(u)
    ensures FileStamp(t) == FileStamp(u) <==>
      (t.year, t.month, t.day, t.hour, t.minute) == (u.year, u.month, u.day, u.hour, u.minute)
  {
    if FileStamp(t) == FileStamp(u) {
      StampGivesMinute(t, u);
    }
  }

  /** Equal stamps come from the same year, month, day, hour and minute. */
  lemma StampGivesMinute(t: DateTime, u: DateTime)
    requires Valid(t) && Valid(u) && FileStamp(t) == FileStamp(u)
    ensures t.year == u.year && t.month == u.month && t.day == u.day && t.hour == u.hour && t.minute == u.minute
  {
    var y, mo, d, h, mi := FormatYear(t.year), Two(t.month), Two(t.day), Two(t.hour), Two(t.minute);
    var y', mo', d', h', mi' := FormatYear(u.year), Two(u.month), Two(u.day), Two(u.hour), Two(u.minute);
    StampPiecesEqual(y, mo, d, h, mi, y', mo', d', h', mi');
    FormatYearInjective(t.year, u.year);
  }

  /** Stamps of equally long years split back into the same five pieces. */
  lemma StampPiecesEqual(y: string, mo: string, d: string, h: string, mi: string,
                         y': string, mo': string, d': string, h': string, mi': string)
    requires |mo| == |d| == |h| == |mi| == |mo'| == |d'| == |h'| == |mi'| == 2 && |y| == |y'|
    requires y + mo + d + h + mi == y' + mo' + d' + h' + mi'
    ensures y == y' && mo == mo' && d == d' && h == h' && mi == mi'
  {
    StampColumns(y, mo, d, h, mi);
    StampColumns(y', mo', d', h', mi');
  }

  /**
   * The receipt's date line is the year, then the other five fields with
   * their separators in fixed columns after it: leaving the separators and
   * the seconds out gives the file stamp. For a four-digit year the line
   * is 19 characters.
   */
  lemma {:induction false} LongDateLayout(t: DateTime)
    requires Valid(t)
    ensures var s, n := LongDate(t), |FormatYear(t.year)|;
      && |s| == n + 15
      && s[n] == '-' && s[n + 3] == '-' && s[n + 6] == ' ' && s[n + 9] == ':' && s[n + 12] == ':'
      && s[..n] + s[n + 1..n + 3] + s[n + 4..n + 6] + s[n + 7..n + 9] + s[n + 10..n + 12] == FileStamp(t)
      && ReadsAs(s[n + 13..n + 15], t.second)
      && (t.year <= 9999 ==> |s| == 19)
  {
    DateColumns(FormatYear(t.year), Two(t.month), Two(t.day), Two(t.hour), Two(t.minute), Two(t.second));
  }

  /** Where the six fields and the separators sit in a date line. */
  lemma DateColumns(y: string, mo: string, d: string, h: string, mi: string, sec: string)
    requires |mo| == 2 && |d| == 2 && |h| == 2 && |mi| == 2 && |sec| == 2
    ensures var s, n := y + "-" + mo + "-" + d + " " + h + ":" + mi + ":" + sec, |y|;
      && |s| == n + 15
      && s[n] == '-' && s[n + 3] == '-' && s[n + 6] == ' ' && s[n + 9] == ':' && s[n + 12] == ':'
      && s[..n] == y && s[n + 1..n + 3] == mo && s[n + 4..n + 6] == d
      && s[n + 7..n + 9] == h && s[n + 10..n + 12] == mi && s[n + 13..n + 15] == sec
  {
    var s, n := y + "-" + mo + "-" + d + " " + h + ":" + mi + ":" + sec, |y|;
    assert s[..n] == y;
    assert s[n + 1..n + 3] == mo;
    assert s[n + 4..n + 6] == d;
    assert s[n + 7..n + 9] == h;
    assert s[n + 10..n + 12] == mi;
    assert s[n + 13..n + 15] == sec;
  }

  /** The date line is a single line of text. */
  lemma LongDateSingleLine(t: DateTime)
    requires Valid(t)
    ensures '\n' !in LongDate(t)
  {
    var y := FormatYear(t.year);
    assert '\n' !in y by {
      if t.year > 9999 {
        assert y == "+" + NatToDec(t.year);
      }
    }
  }
}
