/**
 * Money as a whole number of cents. The store prints the amounts of the
 * receipt and of its item lines with `%.2f`; on cents that rendering is
 * exact: an optional '-', the whole units without leading zeros, a '.',
 * and exactly two digits of cents.
 */
module Money {
  import opened Wrappers
  import opened Text

  /** The sign `%.2f` prints in front of an amount: '-' for a negative one, nothing otherwise. */
  function SignText(negative: bool): string
  {
    if negative then "-" else ""
  }

  /** `%.2f` of an amount held as cents, e.g. 1998 -> "19.98", 2 -> "0.02", -150 -> "-1.50". */
  function FormatCents(c: int): (r: string)
    ensures |r| >= 4 && r[|r| - 3] == '.'
    ensures AllDigits(r[|r| - 2..])
    ensures (r[0] == '-') <==> c < 0
    ensures IsDigit(r[0]) || r[0] == '-'
    ensures var u := r[(if c < 0 then 1 else 0)..|r| - 3];
      |u| >= 1 && AllDigits(u) && (u[0] == '0' ==> |u| == 1)
  {
    var a := if c < 0 then -c else c;
    ZeroPadWidth(a % 100, 2);
    var sign, units, cents := SignText(c < 0), NatToDec(a / 100), ZeroPad(a % 100, 2);
    assert (sign + units + "." + cents)[|sign|..|sign| + |units|] == units;
    sign + units + "." + cents
  }

  /** Reads back an amount printed as `[-]units.cc`; anything else is refused. */
  function ParseCents(s: string): (r: Option<int>)
  {
    var neg := |s| > 0 && s[0] == '-';
    match ParseUnsigned(if neg then s[1..] else s)
    case None => None
    case Some(v) => Some(if neg then -(v as int) else v as int)
  }

  /** Reads `units.cc` without a sign. */
  function ParseUnsigned(body: string): (r: Option<nat>)
  {
    if |body| >= 4 && body[|body| - 3] == '.'
       && AllDigits(body[..|body| - 3]) && AllDigits(body[|body| - 2..])
    then Some(DecVal(body[..|body| - 3]) * 100 + DecVal(body[|body| - 2..]))
    else None
  }

  /** The reader accepts every `[-]units.cc` text and returns its value. */
  lemma {:induction false} ParseCentsReads(neg: bool, units: string, cents: string, value: int)
    requires |units| >= 1 && AllDigits(units)
    requires |cents| == 2 && AllDigits(cents)
    requires var v := DecVal(units) * 100 + DecVal(cents); value == if neg then -v else v
    ensures ParseCents(SignText(neg) + units + "." + cents) == Some(value)
  {
    var sign, body := SignText(neg), units + "." + cents;
    var v := DecVal(units) * 100 + DecVal(cents);
    UnsignedReads(units, cents, body);
    SignedReads(neg, body, v);
    SignedText(sign, units, cents);
  }

  /** Without a sign, `units.cc` reads as units × 100 + cc. */
  lemma UnsignedReads(units: string, cents: string, body: string)
    requires |units| >= 1 && AllDigits(units)
    requires |cents| == 2 && AllDigits(cents)
    requires body == units + "." + cents
    ensures ParseUnsigned(body) == Some(DecVal(units) * 100 + DecVal(cents)) && body[0] != '-'
  {
    AmountSlices(units, cents);
    assert body[0] != '-' by {
      assert IsDigit(units[0]);
    }
    var u, c := body[..|body| - 3], body[|body| - 2..];
    assert u == units && c == cents;
  }

  /** A leading minus sign negates what an unsigned amount reads as. */
  lemma SignedReads(neg: bool, body: string, v: nat)
    requires ParseUnsigned(body) == Some(v) && body != [] && body[0] != '-'
    ensures ParseCents(SignText(neg) + body) == Some(if neg then -(v as int) else v as int)
  {
    if neg {
      var s := "-" + body;
      assert SignText(neg) + body == s;
      assert s[0] == '-' && s[1..] == body;
      assert ParseCents(s) == Some(-(v as int));
    } else {
      assert SignText(neg) + body == body;
      assert ParseCents(body) == Some(v as int);
    }
  }

  lemma SignedText(sign: string, units: string, cents: string)
    ensures sign + units + "." + cents == sign + (units + "." + cents)
  {
  }

  /** Where the units, the point and the cents sit in `units.cc`. */
  lemma AmountSlices(units: string, cents: string)
    requires |units| >= 1 && |cents| == 2
    ensures var body := units + "." + cents;
      && |body| == |units| + 3 && body[0] == units[0] && body[|body| - 3] == '.'
      && body[..|body| - 3] == units && body[|body| - 2..] == cents
  {
    var body := units + "." + cents;
    assert body[..|body| - 3] == units;
    assert body[|body| - 2..] == cents;
  }

  /** Every printed amount reads back as the amount that was printed: no cent is lost. */
  lemma {:induction false} FormatCentsRoundTrip(c: int)
    ensures ParseCents(FormatCents(c)) == Some(c)
  {
    var a := if c < 0 then -c else c;
    var text := SignText(c < 0) + NatToDec(a / 100) + "." + ZeroPad(a % 100, 2);
    AmountTextReads(c);
    assert FormatCents(c) == text;
  }

  /** The pieces `FormatCents` joins read back as the amount. */
  lemma AmountTextReads(c: int)
    ensures var a := if c < 0 then -c else c;
      ParseCents(SignText(c < 0) + NatToDec(a / 100) + "." + ZeroPad(a % 100, 2)) == Some(c)
  {
    var a := if c < 0 then -c else c;
    var units, cents := NatToDec(a / 100), ZeroPad(a % 100, 2);
    assert |cents| == 2 && AllDigits(cents) by {
      ZeroPadWidth(a % 100, 2);
    }
    assert DecVal(units) * 100 + DecVal(cents) == a by {
      DecValNatToDec(a / 100);
      ZeroPadValue(a % 100, 2);
      SplitHundreds(a);
    }
    ParseCentsReads(c < 0, units, cents, c);
  }

  /** A nonnegative amount prints as its whole units, '.', and its two cent digits. */
  lemma FormatCentsPieces(c: nat)
    ensures FormatCents(c) == NatToDec(c / 100) + "." + ZeroPad(c % 100, 2)
  {
  }

  /** Whole units and cents make up the amount. */
  lemma SplitHundreds(a: nat)
    ensures (a / 100) * 100 + a % 100 == a
  {
  }

  /** A printed amount is a single line of text. */
  lemma {:induction false} FormatCentsSingleLine(c: int)
    ensures '\n' !in FormatCents(c)
  {
    var a := if c < 0 then -c else c;
    var units, cents := NatToDec(a / 100), ZeroPad(a % 100, 2);
    assert '\n' !in units && '\n' !in cents;
    assert FormatCents(c) == SignText(c < 0) + units + "." + cents;
  }
}
