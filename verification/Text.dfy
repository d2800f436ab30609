/**
 * Character-level text helpers shared by the store: decimal digits,
 * zero padding (the two cent digits of `%.2f` and the fixed-width
 * `DateTimeFormatter` fields), left justification (`%-30s`), and
 * `String.trim()`.
 */
module Text {

  predicate IsDigit(c: char) { '0' <= c <= '9' }

  predicate AllDigits(s: string) { forall i :: 0 <= i < |s| ==> IsDigit(s[i]) }

  function DigitChar(d: nat): (c: char)
    requires d < 10
    ensures IsDigit(c)
  {
    (('0' as int) + d) as char
  }

  function DigitValue(c: char): (d: nat)
    requires IsDigit(c)
    ensures d < 10
  {
    (c as int) - ('0' as int)
  }

  function Pow10(n: nat): (p: nat)
    ensures p >= 1
  {
    if n == 0 then 1 else 10 * Pow10(n - 1)
  }

  /** Decimal rendering of a natural number without leading zeros. */
  function NatToDec(n: nat): (s: string)
    ensures |s| >= 1 && AllDigits(s)
    ensures s[0] == '0' ==> n == 0 && |s| == 1
    decreases n
  {
    if n < 10 then [DigitChar(n)]
    else
      var front := NatToDec(n / 10);
      assert (front + [DigitChar(n % 10)])[0] == front[0];
      front + [DigitChar(n % 10)]
  }

  /** `f` is a field of decimal digits that denotes `v`. */
  predicate ReadsAs(f: string, v: int)
  {
    AllDigits(f) && DecVal(f) == v
  }

  /** Text `t` holds field `f` from position `i` on. */
  predicate WrittenAt(t: string, i: nat, f: string)
  {
    i + |f| <= |t| && t[i..i + |f|] == f
  }

  /** The value of a string of decimal digits, most significant first. */
  function DecVal(s: string): nat
    requires AllDigits(s)
  {
    if s == [] then 0 else DecVal(s[..|s| - 1]) * 10 + DigitValue(s[|s| - 1])
  }

  /** Decimal rendering of an integer, with a leading '-' when negative (Java's `%d`). */
  function IntToDec(i: int): (s: string)
    ensures |s| >= 1 && IsDigit(s[|s| - 1]) && (IsDigit(s[0]) || s[0] == '-')
    ensures i >= 0 ==> ReadsAs(s, i) && (s[0] == '0' ==> |s| == 1)
    ensures i < 0 ==> |s| >= 2 && s[0] == '-' && ReadsAs(s[1..], -i) && s[1] != '0'
  {
    DecValNatToDec(if i < 0 then -i else i);
    if i < 0 then
      var d := NatToDec(-i);
      assert ("-" + d)[1..] == d;
      "-" + d
    else NatToDec(i)
  }

  function Zeros(k: nat): (s: string)
    ensures |s| == k && AllDigits(s)
  {
    if k == 0 then "" else Zeros(k - 1) + "0"
  }

  function Spaces(k: nat): (s: string)
    ensures |s| == k && forall i :: 0 <= i < k ==> s[i] == ' '
  {
    if k == 0 then "" else Spaces(k - 1) + " "
  }

  /** A natural number printed with at least `w` digits, padded on the left with zeros. */
  function ZeroPad(n: nat, w: nat): (s: string)
    ensures AllDigits(s) && |s| >= w
  {
    var d := NatToDec(n);
    if |d| < w then Zeros(w - |d|) + d else d
  }

  /** `s` left-justified in a field of width `w`, as `%-ws` does (never truncated). */
  function PadRight(s: string, w: nat): (r: string)
    ensures |r| == if |s| < w then w else |s|
    ensures r[..|s|] == s
    ensures forall i :: |s| <= i < |r| ==> r[i] == ' '
  {
    if |s| < w then s + Spaces(w - |s|) else s
  }

  /** Padding adds only spaces, so it starts no new line. */
  lemma PadRightSingleLine(s: string, w: nat)
    requires '\n' !in s
    ensures '\n' !in PadRight(s, w)
  {
    var r := PadRight(s, w);
    forall i | 0 <= i < |r| ensures r[i] != '\n' {
      if i < |s| {
        assert r[i] == r[..|s|][i];
      }
    }
  }

  /** The characters Java's `String.trim()` removes: every code point up to U+0020. */
  predicate IsBlank(c: char) { c <= ' ' }

  predicate AllBlank(s: string) { forall i :: 0 <= i < |s| ==> IsBlank(s[i]) }

  function TrimStart(s: string): (r: string)
    ensures r == [] || !IsBlank(r[0])
    ensures |r| <= |s| && r == s[|s| - |r|..]
    ensures AllBlank(s[..|s| - |r|])
  {
    if s != [] && IsBlank(s[0]) then
      var r := TrimStart(s[1..]);
      assert s[..|s| - |r|] == [s[0]] + s[1..][..|s| - 1 - |r|];
      r
    else s
  }

  function TrimEnd(s: string): (r: string)
    ensures r == [] || !IsBlank(r[|r| - 1])
    ensures |r| <= |s| && r == s[..|r|]
    ensures AllBlank(s[|r|..])
  {
    if s != [] && IsBlank(s[|s| - 1]) then
      var r := TrimEnd(s[..|s| - 1]);
      assert s[|r|..] == s[..|s| - 1][|r|..] + [s[|s| - 1]];
      r
    else s
  }

  /** Java's `String.trim()`: drops leading and trailing blanks. */
  function Trim(s: string): (r: string)
    ensures r == [] || (!IsBlank(r[0]) && !IsBlank(r[|r| - 1]))
  {
    TrimEnd(TrimStart(s))
  }

  /**
   * `s` cut at every occurrence of `sep`, keeping every piece, empty ones
   * included: k separators always give k + 1 pieces.
   */
  function Pieces(s: string, sep: char): (r: seq<string>)
    ensures |r| >= 1
    ensures forall i :: 0 <= i < |r| ==> sep !in r[i]
  {
    if s == [] then [""]
    else
      var rest := Pieces(s[1..], sep);
      if s[0] == sep then [""] + rest else [[s[0]] + rest[0]] + rest[1..]
  }

  /** The pieces put back together with `sep` between neighbours. */
  function Join(fs: seq<string>, sep: char): string
  {
    if fs == [] then "" else if |fs| == 1 then fs[0] else fs[0] + [sep] + Join(fs[1..], sep)
  }

  /** `k` copies of the character `c`. */
  function Repeat(c: char, k: nat): (s: string)
    ensures |s| == k && forall i :: 0 <= i < k ==> s[i] == c
  {
    if k == 0 then "" else Repeat(c, k - 1) + [c]
  }

  /** Each line followed by a newline, as a text file holds them. */
  function Unlines(ls: seq<string>): string
  {
    if ls == [] then "" else ls[0] + "\n" + Unlines(ls[1..])
  }

  // ---------------------------------------------------------------------
  // Lemmas

  lemma {:induction false} NatToDecLength(n: nat, w: nat)
    requires w >= 1 && n < Pow10(w)
    ensures |NatToDec(n)| <= w
    decreases w
  {
    if n >= 10 {
      assert w >= 2;
      NatToDecLength(n / 10, w - 1);
    }
  }

  lemma {:induction false} DecValNatToDec(n: nat)
    ensures DecVal(NatToDec(n)) == n
    decreases n
  {
    var s := NatToDec(n);
    if n >= 10 {
      assert s[..|s| - 1] == NatToDec(n / 10);
      DecValNatToDec(n / 10);
    }
  }

  lemma {:induction false} DecValConcat(a: string, b: string)
    requires AllDigits(a) && AllDigits(b)
    ensures AllDigits(a + b)
    ensures DecVal(a + b) == DecVal(a) * Pow10(|b|) + DecVal(b)
    decreases |b|
  {
    assert AllDigits(a + b);
    if b == [] {
      assert a + b == a;
    } else {
      var b' := b[..|b| - 1];
      DecValConcat(a, b');
      var x, p, y, d := DecVal(a), Pow10(|b'|), DecVal(b'), DigitValue(b[|b| - 1]);
      assert DecVal(a + b) == (x * p + y) * 10 + d by {
        assert (a + b)[..|a + b| - 1] == a + b' && (a + b)[|a + b| - 1] == b[|b| - 1];
      }
      assert Pow10(|b|) == p * 10 && DecVal(b) == y * 10 + d;
      ShiftDigit(x, p, y, d);
    }
  }

  /** Appending a digit `d` to `x` shifted by `p`, followed by `y`. */
  lemma ShiftDigit(x: int, p: int, y: int, d: int)
    ensures (x * p + y) * 10 + d == x * (p * 10) + (y * 10 + d)
  {
    assert (x * p) * 10 == x * (p * 10);
  }

  lemma {:induction false} DecValZeros(k: nat)
    ensures DecVal(Zeros(k)) == 0
  {
    if k > 0 {
      assert Zeros(k)[..k - 1] == Zeros(k - 1);
      DecValZeros(k - 1);
    }
  }

  /** A number below 10^w is printed with exactly w digits. */
  lemma {:induction false} ZeroPadWidth(n: nat, w: nat)
    requires w >= 1 && n < Pow10(w)
    ensures |ZeroPad(n, w)| == w
  {
    NatToDecLength(n, w);
  }

  /** Zero padding never changes the value read back from the digits. */
  lemma {:induction false} ZeroPadValue(n: nat, w: nat)
    ensures DecVal(ZeroPad(n, w)) == n
  {
    var d := NatToDec(n);
    DecValNatToDec(n);
    if |d| < w {
      var z := Zeros(w - |d|);
      DecValConcat(z, d);
      DecValZeros(w - |d|);
      assert DecVal(z) * Pow10(|d|) == 0;
      assert ZeroPad(n, w) == z + d;
    }
  }

  /** `trim` only removes blanks: the input is the result with blanks around it. */
  lemma {:induction false} TrimRemovesOnlyBlanks(s: string) returns (lead: string, trail: string)
    ensures s == lead + Trim(s) + trail
    ensures AllBlank(lead) && AllBlank(trail)
  {
    var t := TrimStart(s);
    var r := TrimEnd(t);
    lead, trail := s[..|s| - |t|], t[|r|..];
    SliceAround(s, |s| - |t|);
    SliceAround(t, |r|);
    Surround(lead, r, trail);
  }

  /** A text is its prefix followed by the matching suffix. */
  lemma SliceAround(s: string, k: nat)
    requires k <= |s|
    ensures s[..k] + s[k..] == s
  {
  }

  /** Putting `a` before `b + c` is putting `a + b` before `c`. */
  lemma Surround(a: string, b: string, c: string)
    ensures a + (b + c) == a + b + c
  {
  }

  /** Trimming a padded field gives back the field, when it neither starts nor ends with a blank. */
  lemma TrimPadded(x: string, w: nat)
    requires x != [] && !IsBlank(x[0]) && !IsBlank(x[|x| - 1])
    ensures Trim(PadRight(x, w)) == x
  {
    var p := PadRight(x, w);
    assert TrimStart(p) == p by {
      assert p[0] == p[..|x|][0];
    }
    if |x| < w {
      TrimEndSpaces(x, w - |x|);
    }
  }

  /** Trailing spaces are all that `TrimEnd` removes from a text that ends in a non-blank. */
  lemma {:induction false} TrimEndSpaces(x: string, k: nat)
    requires x == [] || !IsBlank(x[|x| - 1])
    ensures TrimEnd(x + Spaces(k)) == x
  {
    if k == 0 {
      assert x + Spaces(0) == x;
    } else {
      var s := x + Spaces(k);
      assert s[|s| - 1] == ' ';
      assert s[..|s| - 1] == x + Spaces(k - 1);
      TrimEndSpaces(x, k - 1);
    }
  }

  /** Where each of five consecutive fields sits in their concatenation. */
  lemma FiveParts(a: string, b: string, c: string, d: string, e: string)
    ensures var s, i, j, k, l := a + b + c + d + e, |a|, |a| + |b|, |a| + |b| + |c|, |a| + |b| + |c| + |d|;
      && |s| == l + |e|
      && s[..i] == a && s[i..j] == b && s[j..k] == c && s[k..l] == d && s[l..] == e
  {
    var s, i, j, k, l := a + b + c + d + e, |a|, |a| + |b|, |a| + |b| + |c|, |a| + |b| + |c| + |d|;
    assert s[..i] == a;
    assert s[i..j] == b;
    assert s[j..k] == c;
    assert s[k..l] == d;
    assert s[l..] == e;
  }

  /** Cutting a text and joining the pieces gives the text back. */
  lemma {:induction false} JoinPieces(s: string, sep: char)
    ensures Join(Pieces(s, sep), sep) == s
  {
    if s != [] {
      var rest := Pieces(s[1..], sep);
      JoinPieces(s[1..], sep);
      if s[0] == sep {
        assert Pieces(s, sep) == [""] + rest;
        assert ([""] + rest)[1..] == rest;
        assert s == [sep] + s[1..];
      } else {
        var r := Pieces(s, sep);
        if |rest| == 1 {
          assert r == [[s[0]] + rest[0]];
        } else {
          assert r[1..] == rest[1..];
          assert Join(rest, sep) == rest[0] + [sep] + Join(rest[1..], sep);
        }
        assert s == [s[0]] + s[1..];
      }
    }
  }

  lemma {:induction false} PiecesWithoutSep(a: string, sep: char)
    requires sep !in a
    ensures Pieces(a, sep) == [a]
  {
    if a != [] {
      PiecesWithoutSep(a[1..], sep);
      assert a == [a[0]] + a[1..];
    }
  }

  lemma {:induction false} PiecesAfterSep(a: string, b: string, sep: char)
    requires sep !in a
    ensures Pieces(a + [sep] + b, sep) == [a] + Pieces(b, sep)
  {
    var s := a + [sep] + b;
    if a == [] {
      assert s[1..] == b;
    } else {
      assert s[1..] == a[1..] + [sep] + b;
      PiecesAfterSep(a[1..], b, sep);
      assert [a[0]] + a[1..] == a;
    }
  }

  /** Joining pieces that hold no separator and cutting again gives the pieces back. */
  lemma {:induction false} PiecesJoin(fs: seq<string>, sep: char)
    requires |fs| >= 1 && forall i :: 0 <= i < |fs| ==> sep !in fs[i]
    ensures Pieces(Join(fs, sep), sep) == fs
  {
    if |fs| == 1 {
      PiecesWithoutSep(fs[0], sep);
    } else {
      PiecesJoin(fs[1..], sep);
      PiecesAfterSep(fs[0], Join(fs[1..], sep), sep);
      assert [fs[0]] + fs[1..] == fs;
    }
  }

  lemma {:induction false} JoinSnoc(fs: seq<string>, x: string, sep: char)
    requires |fs| >= 1
    ensures Join(fs + [x], sep) == Join(fs, sep) + [sep] + x
  {
    if |fs| == 1 {
      assert fs + [x] == [fs[0], x];
      assert [fs[0], x][1..] == [x];
    } else {
      assert (fs + [x])[1..] == fs[1..] + [x];
      JoinSnoc(fs[1..], x, sep);
    }
  }

  /** Empty pieces at the end of the list become bare separators at the end of the text. */
  lemma {:induction false} JoinTrailingEmpty(fs: seq<string>, k: nat, sep: char)
    requires |fs| >= 1
    ensures Join(fs + seq(k, _ => ""), sep) == Join(fs, sep) + Repeat(sep, k)
  {
    if k > 0 {
      var e := seq(k - 1, _ => "");
      assert fs + seq(k, _ => "") == (fs + e) + [""];
      JoinSnoc(fs + e, "", sep);
      JoinTrailingEmpty(fs, k - 1, sep);
      assert Repeat(sep, k) == Repeat(sep, k - 1) + [sep];
    } else {
      assert fs + seq(k, _ => "") == fs;
    }
  }

  lemma {:induction false} UnlinesAppend(a: seq<string>, b: seq<string>)
    ensures Unlines(a + b) == Unlines(a) + Unlines(b)
    decreases |a|
  {
    if a == [] {
      assert a + b == b;
    } else {
      assert (a + b)[1..] == a[1..] + b;
      UnlinesAppend(a[1..], b);
    }
  }

  /** Lines without a newline in them are exactly the pieces of the text between newlines. */
  lemma {:induction false} PiecesUnlines(ls: seq<string>)
    requires forall i :: 0 <= i < |ls| ==> '\n' !in ls[i]
    ensures Pieces(Unlines(ls), '\n') == ls + [""]
    decreases |ls|
  {
    if ls != [] {
      PiecesUnlines(ls[1..]);
      PiecesAfterSep(ls[0], Unlines(ls[1..]), '\n');
      assert ls[0] + "\n" + Unlines(ls[1..]) == ls[0] + ['\n'] + Unlines(ls[1..]);
      assert [ls[0]] + (ls[1..] + [""]) == ls + [""];
    }
  }

  lemma {:induction false} Unlines4(a: string, b: string, c: string, d: string)
    ensures Unlines([a, b, c, d]) == a + "\n" + b + "\n" + c + "\n" + d + "\n"
  {
    var l := [a, b, c, d];
    assert l[1..] == [b, c, d];
    assert l[1..][1..] == [c, d];
    assert l[1..][1..][1..] == [d];
    assert l[1..][1..][1..][1..] == [];
    calc {
      Unlines(l);
      a + "\n" + Unlines([b, c, d]);
      a + "\n" + (b + "\n" + Unlines([c, d]));
      a + "\n" + (b + "\n" + (c + "\n" + Unlines([d])));
      a + "\n" + (b + "\n" + (c + "\n" + (d + "\n" + Unlines([]))));
      { assert Unlines([]) == ""; }
      a + "\n" + b + "\n" + c + "\n" + d + "\n";
    }
  }
}
