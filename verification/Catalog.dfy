/**
 * The product catalog: one `sku|name|price|department` record per line
 * after a header line, loaded into a map keyed by SKU. A record is kept
 * only if the line splits into exactly four fields and the price parses;
 * a later record for the same SKU replaces an earlier one.
 *
 * Prices are whole cents. The number parser is not modelled: it is the
 * parameter `parsePrice`, a partial function from the price field's text
 * to cents.
 */
module Catalog {
  import opened Wrappers
  import opened Text

  datatype Product = Product(sku: string, name: string, price: int, department: string)

  /** The two diagnostics the loader prints for a line it skips. */
  datatype LineError = MalformedLine | InvalidPrice

  /** Every product is filed under its own SKU. */
  predicate WellKeyed(m: map<string, Product>)
  {
    forall k :: k in m ==> m[k].sku == k
  }

  /** Drops the empty fields at the end of the list, as `String.split` does. */
  function StripTrailingEmpty(fs: seq<string>): (r: seq<string>)
    ensures |r| <= |fs| && r == fs[..|r|]
    ensures r == [] || r[|r| - 1] != ""
    ensures forall i :: |r| <= i < |fs| ==> fs[i] == ""
  {
    if fs != [] && fs[|fs| - 1] == "" then StripTrailingEmpty(fs[..|fs| - 1]) else fs
  }

  /**
   * Java's `line.split("\\|")`: a line without a bar is its own single
   * field; otherwise the line is cut at every bar and the empty fields at
   * the end are dropped, so `a|b|1|` has three fields and `|||` none.
   */
  function SplitBars(line: string): (r: seq<string>)
    ensures '|' !in line ==> r == [line]
    ensures forall i :: 0 <= i < |r| ==> '|' !in r[i]
  {
    if '|' !in line then [line] else StripTrailingEmpty(Pieces(line, '|'))
  }

  /** One catalog line read into a product, or the reason it is skipped. */
  function ParseRecord(line: string, parsePrice: string -> Option<int>): (r: Result<Product, LineError>)
    ensures r.Failure? && r.error == MalformedLine <==> |SplitBars(line)| != 4
    ensures r.Failure? && r.error == InvalidPrice <==>
      |SplitBars(line)| == 4 && parsePrice(SplitBars(line)[2]).None?
    ensures r.Success? ==> r.value.sku == SplitBars(line)[0]
  {
    var parts := SplitBars(line);
    if |parts| != 4 then Failure(MalformedLine)
    else match parsePrice(parts[2])
      case None => Failure(InvalidPrice)
      case Some(price) => Success(Product(parts[0], parts[1], price, parts[3]))
  }

  /** The lines after the header; a source without even a header has none. */
  function RecordLines(lines: seq<string>): seq<string>
  {
    if lines == [] then [] else lines[1..]
  }

  /** The catalog after putting the records of `lines`, in order, into `inv`. */
  function LoadRecords(inv: map<string, Product>, lines: seq<string>, parsePrice: string -> Option<int>)
    : (r: map<string, Product>)
    ensures WellKeyed(inv) ==> WellKeyed(r)
    ensures inv.Keys <= r.Keys
  {
    if lines == [] then inv
    else PutRecord(LoadRecords(inv, lines[..|lines| - 1], parsePrice), lines[|lines| - 1], parsePrice)
  }

  /** One step of loading: a kept line is put under its SKU, replacing any earlier product. */
  function PutRecord(inv: map<string, Product>, line: string, parsePrice: string -> Option<int>)
    : (r: map<string, Product>)
    ensures WellKeyed(inv) ==> WellKeyed(r)
    ensures inv.Keys <= r.Keys
  {
    match ParseRecord(line, parsePrice)
    case Success(p) => inv[p.sku := p]
    case Failure(_) => inv
  }

  /** The last record in `lines` that is kept and has SKU `k`, if any. */
  function LastRecordFor(lines: seq<string>, k: string, parsePrice: string -> Option<int>): Option<Product>
  {
    if lines == [] then None
    else match ParseRecord(lines[|lines| - 1], parsePrice)
      case Success(p) =>
        if p.sku == k then Some(p) else LastRecordFor(lines[..|lines| - 1], k, parsePrice)
      case Failure(_) => LastRecordFor(lines[..|lines| - 1], k, parsePrice)
  }

  /** The catalog as a mutable object, like the store's static inventory map. */
  class Inventory {
    var products: map<string, Product>

    ghost predicate Valid()
      reads this
    {
      WellKeyed(products)
    }

    constructor ()
      ensures Valid() && products == map[]
    {
      products := map[];
    }

    /**
     * Reads the catalog source line by line: the first line is the header
     * and is skipped; each later line is split on bars and put into the
     * catalog when it has four fields and a price that parses.
     */
    method LoadInventory(lines: seq<string>, parsePrice: string -> Option<int>)
      requires Valid()
      modifies this
      ensures Valid()
      ensures products == LoadRecords(old(products), RecordLines(lines), parsePrice)
    {
      if |lines| == 0 {
        return;
      }
      var i := 1;
      while i < |lines|
        invariant 1 <= i <= |lines|
        invariant products == LoadRecords(old(products), lines[1..i], parsePrice)
      {
        PutLine(lines[i], parsePrice);
        LoadSnoc(old(products), lines[1..i], lines[i], parsePrice);
        SliceSnoc(lines, 1, i);
        i := i + 1;
      }
      assert lines[1..i] == RecordLines(lines);
    }

    /**
     * One catalog line: split on bars, and put into the catalog under its
     * SKU when it has four fields and a price that parses.
     */
    method PutLine(line: string, parsePrice: string -> Option<int>)
      requires Valid()
      modifies this
      ensures Valid()
      ensures products == PutRecord(old(products), line, parsePrice)
    {
      var parts := SplitBars(line);
      if |parts| == 4 {
        match parsePrice(parts[2]) {
          case Some(price) =>
            products := products[parts[0] := Product(parts[0], parts[1], price, parts[3])];
          case None =>
        }
      }
    }
  }

  // ---------------------------------------------------------------------
  // Lemmas

  lemma {:induction false} StripTrailingEmptyAfter(fs: seq<string>, k: nat)
    requires fs != [] && fs[|fs| - 1] != ""
    ensures StripTrailingEmpty(fs + seq(k, _ => "")) == fs
  {
    if k > 0 {
      var shorter := fs + seq(k - 1, _ => "");
      assert (fs + seq(k, _ => ""))[..|fs| + k - 1] == shorter;
      StripTrailingEmptyAfter(fs, k - 1);
    } else {
      assert fs + seq(k, _ => "") == fs;
    }
  }

  lemma {:induction false} BarInJoin(fs: seq<string>)
    requires |fs| >= 2
    ensures '|' in Join(fs, '|')
  {
    assert Join(fs, '|')[|fs[0]|] == '|';
  }

  /**
   * The split loses nothing but bars at the end of the line: joining the
   * fields with bars and appending `k` bars gives the line back.
   */
  lemma {:induction false} SplitBarsLosesOnlyTrailingBars(line: string) returns (k: nat)
    ensures line == Join(SplitBars(line), '|') + Repeat('|', k)
  {
    if '|' !in line {
      k := 0;
      return;
    }
    var p := Pieces(line, '|');
    var r := StripTrailingEmpty(p);
    k := |p| - |r|;
    JoinPieces(line, '|');
    if r == [] {
      // every piece is empty: the line is nothing but bars
      k := |p| - 1;
      JoinTrailingEmpty([""], k, '|');
      assert p == [""] + seq(k, _ => "");
    } else {
      JoinTrailingEmpty(r, k, '|');
      assert p == r + seq(k, _ => "");
    }
  }

  /** A record line with four bar-free fields, the last non-empty, splits back into exactly those fields. */
  lemma {:induction false} SplitBarsOfFields(fs: seq<string>, k: nat)
    requires |fs| >= 1 && fs[|fs| - 1] != ""
    requires forall i :: 0 <= i < |fs| ==> '|' !in fs[i]
    ensures SplitBars(Join(fs, '|') + Repeat('|', k)) == fs
  {
    var line := Join(fs, '|') + Repeat('|', k);
    if |fs| == 1 && k == 0 {
      assert line == fs[0];
    } else {
      var padded := fs + seq(k, _ => "");
      JoinTrailingEmpty(fs, k, '|');
      assert forall i :: 0 <= i < |padded| ==> '|' !in padded[i];
      PiecesJoin(padded, '|');
      if |fs| >= 2 {
        BarInJoin(fs);
        assert line[..|Join(fs, '|')|] == Join(fs, '|');
      } else {
        assert line[|line| - 1] == '|';
      }
      assert '|' in line;
      StripTrailingEmptyAfter(fs, k);
    }
  }

  /**
   * Writing a product as `sku|name|price|department` (with any number of
   * bars after it) and loading the line gives the product back, provided
   * no field holds a bar, the department is not empty and the price text
   * parses to the product's price.
   */
  lemma {:induction false} ParseRecordRoundTrip(
    p: Product, priceText: string, k: nat, parsePrice: string -> Option<int>)
    requires '|' !in p.sku && '|' !in p.name && '|' !in priceText && '|' !in p.department
    requires p.department != ""
    requires parsePrice(priceText) == Some(p.price)
    ensures ParseRecord(Join([p.sku, p.name, priceText, p.department], '|') + Repeat('|', k), parsePrice)
      == Success(p)
  {
    SplitBarsOfFields([p.sku, p.name, priceText, p.department], k);
  }

  /**
   * Conversely, every line that is kept is such a record: its fields are
   * the product's, with the price text that parsed, and bars after it.
   */
  lemma {:induction false} AcceptedLineIsRecord(line: string, parsePrice: string -> Option<int>)
    returns (priceText: string, k: nat)
    requires ParseRecord(line, parsePrice).Success?
    ensures var p := ParseRecord(line, parsePrice).value;
      && line == Join([p.sku, p.name, priceText, p.department], '|') + Repeat('|', k)
      && parsePrice(priceText) == Some(p.price)
  {
    var parts := SplitBars(line);
    k := SplitBarsLosesOnlyTrailingBars(line);
    priceText := parts[2];
    assert parts == [parts[0], parts[1], parts[2], parts[3]];
  }

  /** An empty department is lost by the split, so such a line is skipped as malformed. */
  lemma {:induction false} EmptyDepartmentIsMalformed(
    sku: string, name: string, priceText: string, parsePrice: string -> Option<int>)
    requires '|' !in sku && '|' !in name && '|' !in priceText
    ensures ParseRecord(Join([sku, name, priceText, ""], '|'), parsePrice) == Failure(MalformedLine)
  {
    var fs := [sku, name, priceText, ""];
    var line := Join(fs, '|');
    PiecesJoin(fs, '|');
    BarInJoin(fs);
    assert |StripTrailingEmpty(fs)| < 4;
  }

  /** A skipped line changes nothing, and loading carries on with the lines after it. */
  lemma {:induction false} RejectedLineSkipped(
    inv: map<string, Product>, before: seq<string>, bad: string, after: seq<string>,
    parsePrice: string -> Option<int>)
    requires ParseRecord(bad, parsePrice).Failure?
    ensures LoadRecords(inv, before + [bad] + after, parsePrice)
         == LoadRecords(inv, before + after, parsePrice)
    decreases |after|
  {
    if after == [] {
      SkipLast(inv, before, bad, parsePrice);
    } else {
      var last := after[|after| - 1];
      var init := after[..|after| - 1];
      assert after == init + [last];
      RejectedLineSkipped(inv, before, bad, init, parsePrice);
      SnocBoth(inv, before, bad, init, last, parsePrice);
    }
  }

  /** A rejected line at the end changes nothing. */
  lemma SkipLast(inv: map<string, Product>, before: seq<string>, bad: string, parsePrice: string -> Option<int>)
    requires ParseRecord(bad, parsePrice).Failure?
    ensures LoadRecords(inv, before + [bad] + [], parsePrice) == LoadRecords(inv, before + [], parsePrice)
  {
    assert before + [bad] + [] == before + [bad];
    assert before + [] == before;
    LoadSnoc(inv, before, bad, parsePrice);
  }

  /** Loading one line after `init`, with or without a line `bad` before `init`. */
  lemma SnocBoth(inv: map<string, Product>, before: seq<string>, bad: string, init: seq<string>, last: string,
    parsePrice: string -> Option<int>)
    ensures LoadRecords(inv, before + [bad] + (init + [last]), parsePrice)
      == PutRecord(LoadRecords(inv, before + [bad] + init, parsePrice), last, parsePrice)
    ensures LoadRecords(inv, before + (init + [last]), parsePrice)
      == PutRecord(LoadRecords(inv, before + init, parsePrice), last, parsePrice)
  {
    assert before + [bad] + (init + [last]) == (before + [bad] + init) + [last];
    LoadSnoc(inv, before + [bad] + init, last, parsePrice);
    assert before + (init + [last]) == (before + init) + [last];
    LoadSnoc(inv, before + init, last, parsePrice);
  }

  /** A catalog of a header and one well-formed line holds exactly that line's product. */
  lemma LoadSingleRecord(header: string, line: string, p: Product, parsePrice: string -> Option<int>)
    requires ParseRecord(line, parsePrice) == Success(p)
    ensures LoadRecords(map[], RecordLines([header, line]), parsePrice) == map[p.sku := p]
  {
    assert RecordLines([header, line]) == [] + [line];
    LoadSnoc(map[], [], line, parsePrice);
  }

  /** A slice extended by the next element. */
  lemma SliceSnoc(s: seq<string>, i: nat, j: nat)
    requires i <= j < |s|
    ensures s[i..j] + [s[j]] == s[i..j + 1]
  {
  }

  /** Loading one more line is one more step. */
  lemma LoadSnoc(inv: map<string, Product>, lines: seq<string>, line: string, parsePrice: string -> Option<int>)
    ensures LoadRecords(inv, lines + [line], parsePrice) == PutRecord(LoadRecords(inv, lines, parsePrice), line, parsePrice)
  {
    assert (lines + [line])[..|lines|] == lines;
  }

  /**
   * The last duplicate wins: after loading, SKU `k` is present exactly when
   * some kept record has that SKU or it was there before, and it maps to the
   * last kept record with that SKU.
   */
  lemma {:induction false} LastRecordWins(
    inv: map<string, Product>, lines: seq<string>, k: string, parsePrice: string -> Option<int>)
    ensures var r := LoadRecords(inv, lines, parsePrice);
      var last := LastRecordFor(lines, k, parsePrice);
      && (k in r <==> last.Some? || k in inv)
      && (last.Some? ==> r[k] == last.value)
      && (last.None? && k in inv ==> r[k] == inv[k])
  {
    if lines != [] {
      LastRecordWins(inv, lines[..|lines| - 1], k, parsePrice);
    }
  }
}
