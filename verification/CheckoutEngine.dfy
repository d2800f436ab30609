/**
 * Checkout: refuse an empty cart; otherwise total the cart, take cash
 * tenders until one covers the total, build the sales receipt, save it
 * under a name made from the checkout minute, and empty the cart whether
 * or not the save worked.
 *
 * The cashier's keyboard is the sequence `tenders` (amounts in cents, in
 * the order they are typed); the clock reading is `now`; the receipts
 * folder is the map `files` from path to contents, and whether writing
 * fails is the parameter `writeFails`.
 */
module CheckoutEngine {
  import opened Wrappers
  import opened Text
  import opened Money
  import opened Clock
  import opened Catalog
  import opened Carts

  /** The index of the first tender that covers `total`, if any. */
  function FirstSufficient(tenders: seq<int>, total: int): (r: Option<nat>)
    ensures r.Some? ==>
      && r.value < |tenders| && tenders[r.value] >= total
      && forall j :: 0 <= j < r.value ==> tenders[j] < total
    ensures r.None? ==> forall j :: 0 <= j < |tenders| ==> tenders[j] < total
  {
    if tenders == [] then None
    else if tenders[0] >= total then Some(0)
    else match FirstSufficient(tenders[1..], total)
      case None => None
      case Some(i) => Some(i + 1)
  }

  datatype Settlement = Settlement(paid: int, change: int, attempt: nat)

  /**
   * Reads a tender and, while it is below the total, reads another: the
   * accepted payment is the first tender that covers the total, and the
   * change is what it exceeds the total by. If the input runs out first
   * there is no settlement.
   */
  method SettlePayment(tenders: seq<int>, total: int) returns (s: Option<Settlement>)
    ensures s.None? <==> FirstSufficient(tenders, total).None?
    ensures s.Some? ==>
      && s.value.attempt == FirstSufficient(tenders, total).value
      && s.value.paid == tenders[s.value.attempt] >= total
      && s.value.change == s.value.paid - total
      && s.value.change >= 0
  {
    if |tenders| == 0 {
      return None;
    }
    var i := 0;
    var paid := tenders[0];
    while paid < total
      invariant 0 <= i < |tenders| && paid == tenders[i]
      invariant forall j :: 0 <= j < i ==> tenders[j] < total
      decreases |tenders| - i
    {
      if i + 1 == |tenders| {
        return None;
      }
      i := i + 1;
      paid := tenders[i];
    }
    s := Some(Settlement(paid, paid - total, i));
  }

  /** A completed sale as the receipt records it. */
  datatype Receipt = Receipt(date: DateTime, lines: seq<CartItem>, total: int, paid: int, change: int)

  /** The texts of the item lines, in receipt order. */
  function ItemTexts(lines: seq<CartItem>): (ts: seq<string>)
    ensures |ts| == |lines|
    ensures forall i :: 0 <= i < |lines| ==> ts[i] == ItemText(lines[i])
  {
    seq(|lines|, i requires 0 <= i < |lines| => ItemText(lines[i]))
  }

  /** The item section: each line's text followed by a newline. */
  function ItemLines(lines: seq<CartItem>): string
  {
    Unlines(ItemTexts(lines))
  }

  /** The receipt text, appended piece by piece as the store builds it. */
  function ReceiptText(r: Receipt): (s: string)
    requires Valid(r.date)
    ensures |s| > 0 && s[|s| - 1] == '\n'
  {
    "=== Sales Receipt ===\n"
      + "Date: " + LongDate(r.date) + "\n\n"
      + "Items:\n"
      + ItemLines(r.lines)
      + "\nTotal: $" + FormatCents(r.total) + "\n"
      + "Paid:  $" + FormatCents(r.paid) + "\n"
      + "Change:$" + FormatCents(r.change) + "\n"
  }

  /** The receipt's lines: header, date, blank, `Items:`, one per item, blank, and the three amounts. */
  function ReceiptLines(r: Receipt): (ls: seq<string>)
    requires Valid(r.date)
    ensures |ls| == |r.lines| + 8
  {
    LayoutLines(LongDate(r.date), ItemTexts(r.lines), FormatCents(r.total), FormatCents(r.paid), FormatCents(r.change))
  }

  /** Pattern `Receipts/yyyyMMddHHmm.txt`. */
  function ReceiptFileName(t: DateTime): (f: string)
    requires Valid(t)
    ensures |f| == |FileStamp(t)| + 13
    ensures f[..9] == "Receipts/" && f[9..|f| - 4] == FileStamp(t) && f[|f| - 4..] == ".txt"
  {
    "Receipts/" + FileStamp(t) + ".txt"
  }

  /**
   * Writes the receipt under its file name; a failed write is only
   * reported, and then nothing is recorded.
   */
  function SaveReceiptToFile(files: map<string, string>, text: string, t: DateTime, writeFails: bool)
    : (r: (map<string, string>, bool))
    requires Valid(t)
    ensures r.1 == !writeFails
    ensures writeFails ==> r.0 == files
    ensures !writeFails ==>
      && r.0.Keys == files.Keys + {ReceiptFileName(t)}
      && r.0[ReceiptFileName(t)] == text
      && forall f :: f in files && f != ReceiptFileName(t) ==> r.0[f] == files[f]
  {
    if writeFails then (files, false) else (files[ReceiptFileName(t) := text], true)
  }

  /**
   * Receipts are named by the minute: a second sale in the same minute
   * replaces the first one's file, and sales in different minutes keep
   * both files.
   */
  lemma SameMinuteOverwrites(files: map<string, string>, first: string, second: string, t: DateTime, u: DateTime)
    requires Valid(t) && Valid(u)
    ensures var after := SaveReceiptToFile(SaveReceiptToFile(files, first, t, false).0, second, u, false).0;
      && ((t.year, t.month, t.day, t.hour, t.minute) == (u.year, u.month, u.day, u.hour, u.minute) ==>
            after == SaveReceiptToFile(files, second, u, false).0)
      && ((t.year, t.month, t.day, t.hour, t.minute) != (u.year, u.month, u.day, u.hour, u.minute) ==>
            after[ReceiptFileName(t)] == first && after[ReceiptFileName(u)] == second)
  {
    FileStampSameMinute(t, u);
    assert ReceiptFileName(t) == ReceiptFileName(u) <==> FileStamp(t) == FileStamp(u) by {
      var pre := "Receipts/";
      if ReceiptFileName(t) == ReceiptFileName(u) {
        assert FileStamp(t) == ReceiptFileName(t)[|pre|..|ReceiptFileName(t)| - 4];
        assert FileStamp(u) == ReceiptFileName(u)[|pre|..|ReceiptFileName(u)| - 4];
      }
    }
  }

  datatype CheckoutOutcome =
    | EmptyCart
    | PaymentNotReceived
    | Completed(receipt: Receipt, fileName: string, saved: bool)

  /**
   * `rc` records a completed sale of the cart `m` paid from `tenders` at
   * time `now`: the accepted payment is the first tender that covers the
   * cart total, the change is what it exceeds the total by, and the
   * receipt lists each line of the cart exactly once, summing to the total.
   */
  ghost predicate SettlesCart(rc: Receipt, m: map<string, CartItem>, tenders: seq<int>, now: DateTime)
  {
    var accepted := FirstSufficient(tenders, CartTotal(m));
    && accepted.Some?
    && rc.date == now
    && rc.total == CartTotal(m)
    && rc.paid == tenders[accepted.value]
    && rc.change == rc.paid - rc.total
    && rc.change >= 0
    && |rc.lines| == |m|
    && (forall l :: l in rc.lines ==> l in m.Values)
    && (forall k :: k in m ==> m[k] in rc.lines)
    && SumLines(rc.lines) == rc.total
  }

  /** The whole checkout of the store's cart. */
  method Checkout(cart: Cart, tenders: seq<int>, now: DateTime, files: map<string, string>, writeFails: bool)
    returns (outcome: CheckoutOutcome, files': map<string, string>)
    requires cart.Valid() && Valid(now)
    modifies cart
    ensures cart.Valid()
    // an empty cart is refused and nothing changes
    ensures old(cart.items) == map[] ==>
      outcome == EmptyCart && cart.items == old(cart.items) && files' == files
    // the input ran out before a tender covered the total: nothing changes
    ensures old(cart.items) != map[] && FirstSufficient(tenders, CartTotal(old(cart.items))).None? ==>
      outcome == PaymentNotReceived && cart.items == old(cart.items) && files' == files
    // otherwise the sale completes and the cart is emptied, saved or not
    ensures old(cart.items) != map[] && FirstSufficient(tenders, CartTotal(old(cart.items))).Some? ==>
      outcome.Completed? && cart.items == map[]
    ensures outcome.Completed? ==>
      && SettlesCart(outcome.receipt, old(cart.items), tenders, now)
      && outcome.fileName == ReceiptFileName(now)
      && (files', outcome.saved) == SaveReceiptToFile(files, ReceiptText(outcome.receipt), now, writeFails)
  {
    var empty := cart.IsEmpty();
    if empty {
      return EmptyCart, files;
    }
    var settled := Settle(cart, tenders, now);
    if settled.None? {
      return PaymentNotReceived, files;
    }
    var receipt := settled.value;
    var saving := SaveReceiptToFile(files, ReceiptText(receipt), now, writeFails);
    files' := saving.0;
    cart.Clear();
    outcome := Completed(receipt, ReceiptFileName(now), saving.1);
  }

  /**
   * The payment and the receipt of a non-empty cart: the cart's total,
   * the first tender that covers it, the change and one line per item.
   */
  method Settle(cart: Cart, tenders: seq<int>, now: DateTime) returns (settled: Option<Receipt>)
    requires cart.Valid() && cart.items != map[]
    ensures settled.None? <==> FirstSufficient(tenders, CartTotal(cart.items)).None?
    ensures settled.Some? ==> SettlesCart(settled.value, cart.items, tenders, now)
  {
    var total := cart.Total();
    var payment := SettlePayment(tenders, total);
    if payment.None? {
      return None;
    }
    var order := cart.Entries();
    var lines := LinesOf(cart.items, order);
    EnumeratedLines(cart.items, order);
    settled := Some(Receipt(now, lines, total, payment.value.paid, payment.value.change));
  }

  // ---------------------------------------------------------------------
  // The receipt's layout

  /** No line of `ls` holds a newline. */
  predicate NoNewlines(ls: seq<string>)
  {
    forall i :: 0 <= i < |ls| ==> '\n' !in ls[i]
  }

  /** An item line is one line when the product's name is. */
  lemma ItemTextSingleLine(item: CartItem)
    requires '\n' !in item.product.name
    ensures '\n' !in ItemText(item)
  {
    var name, q, c := item.product.name, IntToDec(item.quantity), FormatCents(LineTotal(item));
    assert '\n' !in q;
    FormatCentsSingleLine(LineTotal(item));
    PadRightSingleLine(name, 30);
    PadRightSingleLine(q, 3);
    PadRightSingleLine(c, 10);
  }

  /** The receipt's lines with its variable texts left open. */
  function LayoutLines(date: string, items: seq<string>, total: string, paid: string, change: string): (ls: seq<string>)
    ensures |ls| == |items| + 8
  {
    ["=== Sales Receipt ===", "Date: " + date, "", "Items:"] + items
      + ["", "Total: $" + total, "Paid:  $" + paid, "Change:$" + change]
  }

  /** Where each part of the receipt sits among its lines. */
  lemma LayoutPositions(date: string, items: seq<string>, total: string, paid: string, change: string)
    ensures var ls := LayoutLines(date, items, total, paid, change);
      var n := |items|;
      && ls[0] == "=== Sales Receipt ===" && ls[1] == "Date: " + date && ls[2] == "" && ls[3] == "Items:"
      && ls[4..n + 4] == items && ls[n + 4] == ""
      && ls[n + 5] == "Total: $" + total && ls[n + 6] == "Paid:  $" + paid && ls[n + 7] == "Change:$" + change
  {
    var ls := LayoutLines(date, items, total, paid, change);
    var n := |items|;
    assert ls[4..n + 4] == items;
  }

  /** The lines have no newline when none of the variable texts has one. */
  lemma LayoutSingleLines(date: string, items: seq<string>, total: string, paid: string, change: string)
    requires '\n' !in date && '\n' !in total && '\n' !in paid && '\n' !in change
    requires NoNewlines(items)
    ensures NoNewlines(LayoutLines(date, items, total, paid, change))
  {
    var ls := LayoutLines(date, items, total, paid, change);
    var n := |items|;
    forall i | 0 <= i < |ls| ensures '\n' !in ls[i] {
      if 4 <= i < n + 4 {
        assert ls[i] == items[i - 4];
      }
    }
  }

  /** Item texts hold no newline when no product name does. */
  lemma ItemTextsSingleLine(lines: seq<CartItem>)
    requires forall i :: 0 <= i < |lines| ==> '\n' !in lines[i].product.name
    ensures NoNewlines(ItemTexts(lines))
  {
    var items := ItemTexts(lines);
    forall i | 0 <= i < |items| ensures '\n' !in items[i] {
      ItemTextSingleLine(lines[i]);
    }
  }

  /** The receipt's appends, with its variable parts left open, are the receipt's lines. */
  lemma ReceiptShape(date: string, items: string, total: string, paid: string, change: string)
    ensures "=== Sales Receipt ===\n" + "Date: " + date + "\n\n" + "Items:\n" + items
      + "\nTotal: $" + total + "\n" + "Paid:  $" + paid + "\n" + "Change:$" + change + "\n"
      == Unlines(["=== Sales Receipt ===", "Date: " + date, "", "Items:"]) + items
       + Unlines(["", "Total: $" + total, "Paid:  $" + paid, "Change:$" + change])
  {
    var head := "=== Sales Receipt ===\n" + "Date: " + date + "\n\n" + "Items:\n";
    HeadShape(date);
    var foot := "\nTotal: $" + total + "\n" + "Paid:  $" + paid + "\n" + "Change:$" + change + "\n";
    FootShape(total, paid, change);
    var text := "=== Sales Receipt ===\n" + "Date: " + date + "\n\n" + "Items:\n" + items
      + "\nTotal: $" + total + "\n" + "Paid:  $" + paid + "\n" + "Change:$" + change + "\n";
    assert text == head + items + foot;
  }

  lemma HeadShape(date: string)
    ensures "=== Sales Receipt ===\n" + "Date: " + date + "\n\n" + "Items:\n"
      == Unlines(["=== Sales Receipt ===", "Date: " + date, "", "Items:"])
  {
    Unlines4("=== Sales Receipt ===", "Date: " + date, "", "Items:");
  }

  lemma FootShape(total: string, paid: string, change: string)
    ensures "\nTotal: $" + total + "\n" + "Paid:  $" + paid + "\n" + "Change:$" + change + "\n"
      == Unlines(["", "Total: $" + total, "Paid:  $" + paid, "Change:$" + change])
  {
    Unlines4("", "Total: $" + total, "Paid:  $" + paid, "Change:$" + change);
  }

  /** The receipt text, as appended piece by piece, is its lines each ended by a newline. */
  lemma {:induction false} ReceiptTextIsLines(r: Receipt)
    requires Valid(r.date)
    ensures ReceiptText(r) == Unlines(ReceiptLines(r))
  {
    var head := ["=== Sales Receipt ===", "Date: " + LongDate(r.date), "", "Items:"];
    var items := ItemTexts(r.lines);
    var foot := ["", "Total: $" + FormatCents(r.total), "Paid:  $" + FormatCents(r.paid),
      "Change:$" + FormatCents(r.change)];
    assert ReceiptLines(r) == head + items + foot;
    UnlinesAppend(head + items, foot);
    UnlinesAppend(head, items);
    ReceiptShape(LongDate(r.date), ItemLines(r.lines),
      FormatCents(r.total), FormatCents(r.paid), FormatCents(r.change));
  }

  lemma ReceiptLinesSingle(r: Receipt)
    requires Valid(r.date)
    requires forall i :: 0 <= i < |r.lines| ==> '\n' !in r.lines[i].product.name
    ensures NoNewlines(ReceiptLines(r))
  {
    LongDateSingleLine(r.date);
    ItemTextsSingleLine(r.lines);
    FormatCentsSingleLine(r.total);
    FormatCentsSingleLine(r.paid);
    FormatCentsSingleLine(r.change);
    LayoutSingleLines(LongDate(r.date), ItemTexts(r.lines), FormatCents(r.total), FormatCents(r.paid), FormatCents(r.change));
  }

  /** `line` is an amount line: the eight-character `caption`, then an amount that reads back as `c`. */
  predicate AmountReads(line: string, caption: string, c: int)
  {
    |line| >= 8 && line[..8] == caption && ParseCents(line[8..]) == Some(c)
  }

  /**
   * `ls` reads as a receipt: the header, then `Items:` as the fourth line,
   * the item lines from the fifth on, and after a blank line the Total,
   * Paid and Change lines with their amounts.
   */
  predicate ReadsAsReceipt(ls: seq<string>, items: seq<string>, total: int, paid: int, change: int)
  {
    var n := |items|;
    && |ls| == n + 9
    && ls[0] == "=== Sales Receipt ===" && ls[3] == "Items:"
    && ls[4..n + 4] == items && ls[n + 4] == ""
    && AmountReads(ls[n + 5], "Total: $", total)
    && AmountReads(ls[n + 6], "Paid:  $", paid)
    && AmountReads(ls[n + 7], "Change:$", change)
  }

  /**
   * When no product name holds a newline, cutting the receipt at its
   * newlines gives exactly its lines (and the empty rest after the last
   * newline), and those read as a receipt of the item lines whose three
   * amounts read back as the exact total, payment and change.
   */
  lemma {:induction false} ReceiptLayout(r: Receipt)
    requires Valid(r.date)
    requires forall i :: 0 <= i < |r.lines| ==> '\n' !in r.lines[i].product.name
    ensures Pieces(ReceiptText(r), '\n') == ReceiptLines(r) + [""]
    ensures ReadsAsReceipt(Pieces(ReceiptText(r), '\n'), ItemTexts(r.lines), r.total, r.paid, r.change)
  {
    var lines := ReceiptLines(r);
    assert Pieces(ReceiptText(r), '\n') == lines + [""] by {
      ReceiptLinesSingle(r);
      ReceiptTextIsLines(r);
      PiecesUnlines(lines);
    }
    LayoutRead(lines + [""], LongDate(r.date), ItemTexts(r.lines), r.total, r.paid, r.change);
  }

  /** The lines of a receipt, cut at its newlines, read as that receipt. */
  lemma LayoutRead(ls: seq<string>, date: string, items: seq<string>, total: int, paid: int, change: int)
    requires ls == LayoutLines(date, items, FormatCents(total), FormatCents(paid), FormatCents(change)) + [""]
    ensures ReadsAsReceipt(ls, items, total, paid, change)
  {
    var t, p, c := FormatCents(total), FormatCents(paid), FormatCents(change);
    var lines := LayoutLines(date, items, t, p, c);
    var n := |items|;
    LayoutPositions(date, items, t, p, c);
    assert ls[4..n + 4] == lines[4..n + 4];
    AmountLine("Total: $", t, total);
    AmountLine("Paid:  $", p, paid);
    AmountLine("Change:$", c, change);
  }

  lemma AmountLine(caption: string, amount: string, c: int)
    requires |caption| == 8 && amount == FormatCents(c)
    ensures AmountReads(caption + amount, caption, c)
  {
    assert (caption + amount)[8..] == amount;
    FormatCentsRoundTrip(c);
  }

  // ---------------------------------------------------------------------
  // A worked sale

  /** The catalog line `SKU1|Widget|9.99|Home`. */
  function WidgetRecord(): string
  {
    Join(["SKU1", "Widget", "9.99", "Home"], '|')
  }

  /** The catalog file with a header and one Widget line at 9.99 loads that one product. */
  lemma WidgetCatalog(parsePrice: string -> Option<int>)
    requires parsePrice("9.99") == Some(999)
    ensures LoadRecords(map[], RecordLines(["SKU|Name|Price|Department", WidgetRecord()]), parsePrice)
      == map["SKU1" := Product("SKU1", "Widget", 999, "Home")]
  {
    WidgetLine(parsePrice);
    LoadSingleRecord("SKU|Name|Price|Department", WidgetRecord(),
      Product("SKU1", "Widget", 999, "Home"), parsePrice);
  }

  lemma WidgetLine(parsePrice: string -> Option<int>)
    requires parsePrice("9.99") == Some(999)
    ensures ParseRecord(WidgetRecord(), parsePrice) == Success(Product("SKU1", "Widget", 999, "Home"))
  {
    assert '|' !in "SKU1" && '|' !in "Widget" && '|' !in "9.99" && '|' !in "Home";
    ParseRecordRoundTrip(Product("SKU1", "Widget", 999, "Home"), "9.99", 0, parsePrice);
    assert WidgetRecord() + Repeat('|', 0) == WidgetRecord();
  }

  /** Adding the Widget twice gives one line of quantity 2 and a total of 19.98. */
  lemma WidgetCart(w: Product)
    requires w == Product("SKU1", "Widget", 999, "Home")
    ensures var cart := AddLine(AddLine(map[], "SKU1", w), "SKU1", w);
      cart == map["SKU1" := CartItem(w, 2)] && CartTotal(cart) == 1998
  {
    RepeatedAdds(map[], "SKU1", w, 2);
    assert AddTimes(map[], "SKU1", w, 1) == AddLine(map[], "SKU1", w);
    assert AddTimes(map[], "SKU1", w, 2) == AddLine(AddLine(map[], "SKU1", w), "SKU1", w);
  }

  /** 1998 cents print as 19.98 and 2 cents as 0.02. */
  lemma WidgetAmounts()
    ensures FormatCents(1998) == "19.98" && FormatCents(2000) == "20.00" && FormatCents(2) == "0.02"
  {
    WidgetTotalText();
    WidgetPaidText();
    WidgetChangeText();
  }

  lemma WidgetTotalText()
    ensures FormatCents(1998) == "19.98"
  {
    assert NatToDec(19) == "19" by {
      assert NatToDec(1) == "1";
    }
    assert ZeroPad(98, 2) == "98" by {
      assert NatToDec(98) == "98" by {
        assert NatToDec(9) == "9";
      }
    }
    FormatCentsPieces(1998);
  }

  lemma WidgetPaidText()
    ensures FormatCents(2000) == "20.00"
  {
    assert NatToDec(20) == "20" by {
      assert NatToDec(2) == "2";
    }
    assert ZeroPad(0, 2) == "00" by {
      assert NatToDec(0) == "0";
      assert Zeros(1) == "0";
    }
    FormatCentsPieces(2000);
  }

  lemma WidgetChangeText()
    ensures FormatCents(2) == "0.02"
  {
    assert NatToDec(0) == "0";
    assert ZeroPad(2, 2) == "02" by {
      assert NatToDec(2) == "2";
      assert Zeros(1) == "0";
    }
    FormatCentsPieces(2);
  }

  /**
   * A catalog with one product at 9.99, the product added twice, and a
   * tender of 20.00: the total is 19.98 and the change 0.02.
   */
  lemma WidgetSale(parsePrice: string -> Option<int>)
    requires parsePrice("9.99") == Some(999)
    ensures var inv := LoadRecords(map[], RecordLines(["SKU|Name|Price|Department", WidgetRecord()]), parsePrice);
      && "SKU1" in inv
      && var cart := AddLine(AddLine(map[], "SKU1", inv["SKU1"]), "SKU1", inv["SKU1"]);
      && cart == map["SKU1" := CartItem(inv["SKU1"], 2)]
      && CartTotal(cart) == 1998
      && FirstSufficient([2000], CartTotal(cart)) == Some(0)
      && FormatCents(CartTotal(cart)) == "19.98"
      && FormatCents(2000) == "20.00"
      && FormatCents(2000 - CartTotal(cart)) == "0.02"
  {
    WidgetCatalog(parsePrice);
    WidgetCart(Product("SKU1", "Widget", 999, "Home"));
    WidgetAmounts();
  }
}
