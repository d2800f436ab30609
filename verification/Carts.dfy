/**
 * The shopping cart: a map from SKU to a line item holding the product and
 * a quantity. The first add of a SKU creates its line with quantity 1;
 * each later add raises that quantity by one. The cart total is the sum of
 * price × quantity over the lines.
 */
module Carts {
  import opened Text
  import opened Money
  import opened Catalog
  import opened Wrappers

  /** Bounds of Java's 32-bit `int`, the type of a line's quantity. */
  const INT_MAX: int := 0x7fff_ffff
  const INT_MIN: int := -0x8000_0000

  predicate IsInt(x: int) { INT_MIN <= x <= INT_MAX }

  /** Java's `x++` on an `int`: one more, except that the largest int wraps to the smallest. */
  function IncInt(x: int): (r: int)
    requires IsInt(x)
    ensures IsInt(r)
    ensures x < INT_MAX ==> r == x + 1
    ensures x == INT_MAX ==> r == INT_MIN
    ensures (r - (x + 1)) % 0x1_0000_0000 == 0
  {
    if x == INT_MAX then INT_MIN else x + 1
  }

  datatype CartItem = CartItem(product: Product, quantity: int)

  /** A line item as first created: one unit of the product, costing its unit price. */
  function NewCartItem(p: Product): (item: CartItem)
    ensures item.product == p && item.quantity == 1
    ensures LineTotal(item) == p.price
  {
    CartItem(p, 1)
  }

  /** The line's price: unit price times quantity, in cents. */
  function LineTotal(item: CartItem): (total: int)
    ensures item.product.price >= 0 && item.quantity >= 0 ==> total >= 0
  {
    item.product.price * item.quantity
  }

  /** The line as the store prints it: `%-30s x%-3d $%-10.2f` of name, quantity and line total. */
  function ItemText(item: CartItem): (t: string)
    ensures |t| >= |item.product.name| + 17 && t[..|item.product.name|] == item.product.name
  {
    var name := PadRight(item.product.name, 30);
    var t := name + " x" + PadRight(IntToDec(item.quantity), 3)
      + " $" + PadRight(FormatCents(LineTotal(item)), 10);
    assert t[..|item.product.name|] == name[..|item.product.name|];
    t
  }

  /**
   * The columns of an item line: after the padded name come ` x`, the
   * quantity padded to three columns, ` $` and the amount padded to ten
   * columns (`ItemFieldsRead` says what those two fields read back as).
   */
  lemma ItemTextReads(item: CartItem)
    ensures var t, a := ItemText(item), |PadRight(item.product.name, 30)|;
      var k := a + 2 + |PadRight(IntToDec(item.quantity), 3)|;
      && |t| >= k + 2
      && t[a] == ' ' && t[a + 1] == 'x' && WrittenAt(t, a + 2, PadRight(IntToDec(item.quantity), 3))
      && t[k] == ' ' && t[k + 1] == '$' && t[k + 2..] == PadRight(FormatCents(LineTotal(item)), 10)
  {
    var name := PadRight(item.product.name, 30);
    var q, am := PadRight(IntToDec(item.quantity), 3), PadRight(FormatCents(LineTotal(item)), 10);
    ItemColumns(ItemText(item), name, q, am);
  }

  /**
   * The padded quantity field trims back to the printed quantity, and the
   * padded amount field trims to an amount that reads back as exactly the
   * number of cents printed.
   */
  lemma ItemFieldsRead(quantity: int, cents: int)
    ensures Trim(PadRight(IntToDec(quantity), 3)) == IntToDec(quantity)
    ensures ParseCents(Trim(PadRight(FormatCents(cents), 10))) == Some(cents)
  {
    assert Trim(PadRight(IntToDec(quantity), 3)) == IntToDec(quantity) by {
      TrimPadded(IntToDec(quantity), 3);
    }
    var amount := FormatCents(cents);
    assert Trim(PadRight(amount, 10)) == amount by {
      assert amount[|amount| - 1] == amount[|amount| - 2..][1];
      TrimPadded(amount, 10);
    }
    FormatCentsRoundTrip(cents);
  }

  /** The columns of a text `t` made as `name x<q> $<am>`, for any three fields. */
  lemma ItemColumns(t: string, name: string, q: string, am: string)
    requires t == name + " x" + q + " $" + am
    ensures var a, k := |name|, |name| + 2 + |q|;
      && |t| == k + 2 + |am|
      && t[a] == ' ' && t[a + 1] == 'x' && WrittenAt(t, a + 2, q)
      && t[k] == ' ' && t[k + 1] == '$' && t[k + 2..] == am
  {
    var a, k := |name|, |name| + 2 + |q|;
    FiveParts(name, " x", q, " $", am);
    assert t[a..a + 2][0] == ' ' && t[k..k + 2][1] == '$';
  }

  /** Every line is filed under its product's SKU and its quantity is a Java `int`. */
  predicate WellFormedCart(m: map<string, CartItem>)
  {
    forall k :: k in m ==> m[k].product.sku == k && IsInt(m[k].quantity)
  }

  /**
   * Adding product `p`, found in the inventory under `sku`: an existing
   * line's quantity goes up by one, otherwise a new line with quantity 1
   * appears; no other line changes.
   */
  function AddLine(m: map<string, CartItem>, sku: string, p: Product): (r: map<string, CartItem>)
    requires sku in m ==> IsInt(m[sku].quantity)
    ensures r.Keys == m.Keys + {sku}
    ensures forall k :: k in m && k != sku ==> r[k] == m[k]
    ensures sku in m ==> r[sku].product == m[sku].product
    ensures sku in m && m[sku].quantity < INT_MAX ==> r[sku].quantity == m[sku].quantity + 1
    ensures sku in m && m[sku].quantity == INT_MAX ==> r[sku].quantity == INT_MIN
    ensures sku !in m ==> r[sku] == CartItem(p, 1)
  {
    if sku in m then m[sku := m[sku].(quantity := IncInt(m[sku].quantity))]
    else m[sku := NewCartItem(p)]
  }

  /** `n` adds of the same product. */
  function AddTimes(m: map<string, CartItem>, sku: string, p: Product, n: nat): (r: map<string, CartItem>)
    requires WellFormedCart(m) && p.sku == sku
    ensures WellFormedCart(r)
  {
    if n == 0 then m else AddLine(AddTimes(m, sku, p, n - 1), sku, p)
  }

  /** The sum of the line totals of a sequence of lines. */
  function SumLines(lines: seq<CartItem>): int
  {
    if lines == [] then 0 else SumLines(lines[..|lines| - 1]) + LineTotal(lines[|lines| - 1])
  }

  /** The sum of the line totals over the SKUs in `ks`, taken in no particular order. */
  ghost function SumOver(m: map<string, CartItem>, ks: set<string>): int
    requires ks <= m.Keys
    decreases ks
  {
    if ks == {} then 0 else var k :| k in ks; LineTotal(m[k]) + SumOver(m, ks - {k})
  }

  /** The cart total: the sum over all lines of price × quantity. */
  ghost function CartTotal(m: map<string, CartItem>): int
  {
    SumOver(m, m.Keys)
  }

  /** The lines of `m`, visited in the order `order` names their SKUs. */
  function LinesOf(m: map<string, CartItem>, order: seq<string>): (lines: seq<CartItem>)
    requires forall i :: 0 <= i < |order| ==> order[i] in m
    ensures |lines| == |order|
    ensures forall i :: 0 <= i < |order| ==> lines[i] == m[order[i]]
  {
    if order == [] then [] else LinesOf(m, order[..|order| - 1]) + [m[order[|order| - 1]]]
  }

  /** `order` visits every key of `keys` exactly once: one iteration order of a hash map. */
  predicate IsEnumeration(order: seq<string>, keys: set<string>)
  {
    && (forall i, j :: 0 <= i < j < |order| ==> order[i] != order[j])
    && (forall i :: 0 <= i < |order| ==> order[i] in keys)
    && (forall k :: k in keys ==> k in order)
  }

  /** What an add-to-cart request leads to. */
  datatype AddOutcome = Added(name: string) | InvalidSku | NothingChosen

  /** The store's cart, a map the store updates in place. */
  class Cart {
    var items: map<string, CartItem>

    ghost predicate Valid()
      reads this
    {
      WellFormedCart(items)
    }

    constructor ()
      ensures Valid() && items == map[]
    {
      items := map[];
    }

    /**
     * The add-to-cart step of the product listing: the typed SKU is
     * trimmed; an empty entry does nothing, an entry that is not in the
     * inventory is refused, and a known SKU is added.
     */
    method Add(input: string, inventory: map<string, Product>) returns (outcome: AddOutcome)
      requires Valid() && WellKeyed(inventory)
      modifies this
      ensures Valid()
      ensures Trim(input) == "" ==> outcome == NothingChosen && items == old(items)
      ensures Trim(input) != "" && Trim(input) !in inventory ==>
        outcome == InvalidSku && items == old(items)
      ensures Trim(input) != "" && Trim(input) in inventory ==>
        && outcome == Added(inventory[Trim(input)].name)
        && items == AddLine(old(items), Trim(input), inventory[Trim(input)])
    {
      var sku := Trim(input);
      if sku != "" && sku in inventory {
        var selected := inventory[sku];
        if sku in items {
          items := items[sku := items[sku].(quantity := IncInt(items[sku].quantity))];
        } else {
          items := items[sku := NewCartItem(selected)];
        }
        outcome := Added(selected.name);
      } else if sku != "" {
        outcome := InvalidSku;
      } else {
        outcome := NothingChosen;
      }
    }

    /** The SKUs in the order an iteration over the map visits them (any order, each once). */
    method Entries() returns (order: seq<string>)
      ensures IsEnumeration(order, items.Keys)
    {
      order := [];
      var left := items.Keys;
      while left != {}
        invariant forall i, j :: 0 <= i < j < |order| ==> order[i] != order[j]
        invariant forall k :: k in order ==> k in items.Keys && k !in left
        invariant forall k :: k in items.Keys ==> k in order || k in left
        invariant left <= items.Keys
        decreases left
      {
        var k :| k in left;
        order := order + [k];
        left := left - {k};
      }
    }

    /** Sums price × quantity over the lines, visiting them in map order. */
    method Total() returns (total: int)
      ensures total == CartTotal(items)
    {
      var order := Entries();
      ghost var lines := LinesOf(items, order);
      total := 0;
      var i := 0;
      while i < |order|
        invariant 0 <= i <= |order|
        invariant total == SumLines(lines[..i])
      {
        assert lines[..i + 1][..i] == lines[..i];
        total := total + LineTotal(items[order[i]]);
        i := i + 1;
      }
      assert lines[..i] == lines;
      EnumerationTotal(items, order, items.Keys);
    }

    method IsEmpty() returns (empty: bool)
      ensures empty <==> items == map[]
    {
      empty := |items| == 0;
    }

    method Clear()
      modifies this
      ensures Valid() && items == map[]
    {
      items := map[];
    }
  }

  // ---------------------------------------------------------------------
  // Lemmas about the total

  /** Any line can be taken out of the sum first. */
  lemma {:induction false} SumOverRemove(m: map<string, CartItem>, ks: set<string>, k: string)
    requires ks <= m.Keys && k in ks
    ensures SumOver(m, ks) == LineTotal(m[k]) + SumOver(m, ks - {k})
    decreases ks
  {
    var j :| j in ks && SumOver(m, ks) == LineTotal(m[j]) + SumOver(m, ks - {j});
    if j != k {
      SumOverRemove(m, ks - {j}, k);
      SumOverRemove(m, ks - {k}, j);
      assert ks - {j} - {k} == ks - {k} - {j};
    }
  }

  /** The sum over `ks` only looks at the lines filed under `ks`. */
  lemma {:induction false} SumOverAgree(m: map<string, CartItem>, m': map<string, CartItem>, ks: set<string>)
    requires ks <= m.Keys && ks <= m'.Keys
    requires forall k :: k in ks ==> m[k] == m'[k]
    ensures SumOver(m, ks) == SumOver(m', ks)
    decreases ks
  {
    if ks != {} {
      var k :| k in ks;
      SumOverRemove(m, ks, k);
      SumOverRemove(m', ks, k);
      SumOverAgree(m, m', ks - {k});
    }
  }

  /** Summing the lines in any iteration order gives the cart total. */
  lemma {:induction false} EnumerationTotal(m: map<string, CartItem>, order: seq<string>, ks: set<string>)
    requires ks <= m.Keys && IsEnumeration(order, ks)
    ensures SumLines(LinesOf(m, order)) == SumOver(m, ks)
    decreases |order|
  {
    if order == [] {
      assert ks == {};
    } else {
      var last := order[|order| - 1];
      var init := order[..|order| - 1];
      assert last !in init by {
        forall i | 0 <= i < |init| ensures init[i] != last { assert order[i] == init[i]; }
      }
      assert IsEnumeration(init, ks - {last}) by {
        forall k | k in ks - {last} ensures k in init {
          assert k in order;
          var i :| 0 <= i < |order| && order[i] == k;
          assert i < |order| - 1;
          assert init[i] == k;
        }
      }
      EnumerationTotal(m, init, ks - {last});
      SumOverRemove(m, ks, last);
      assert LinesOf(m, order)[..|order| - 1] == LinesOf(m, init);
    }
  }

  /** With no negative price and no negative quantity the total is not negative. */
  lemma {:induction false} SumOverNonnegative(m: map<string, CartItem>, ks: set<string>)
    requires ks <= m.Keys
    requires forall k :: k in ks ==> m[k].product.price >= 0 && m[k].quantity >= 0
    ensures SumOver(m, ks) >= 0
    decreases ks
  {
    if ks != {} {
      var k :| k in ks;
      SumOverRemove(m, ks, k);
      SumOverNonnegative(m, ks - {k});
    }
  }

  /** Adding a product raises the total by the unit price of its line (short of the `int` wrap). */
  lemma {:induction false} AddLineTotal(m: map<string, CartItem>, sku: string, p: Product)
    requires WellFormedCart(m)
    requires sku in m ==> m[sku].quantity < INT_MAX
    ensures var price := if sku in m then m[sku].product.price else p.price;
      CartTotal(AddLine(m, sku, p)) == CartTotal(m) + price
  {
    var r := AddLine(m, sku, p);
    var rest := m.Keys - {sku};
    assert r.Keys - {sku} == rest;
    assert CartTotal(r) == LineTotal(r[sku]) + SumOver(m, rest) by {
      SumOverRemove(r, r.Keys, sku);
      SumOverAgree(m, r, rest);
    }
    if sku in m {
      assert CartTotal(m) == LineTotal(m[sku]) + SumOver(m, rest) by {
        SumOverRemove(m, m.Keys, sku);
      }
      var q, price := m[sku].quantity, m[sku].product.price;
      assert r[sku] == m[sku].(quantity := q + 1);
      OneMoreUnit(m[sku]);
    } else {
      assert m.Keys == rest;
    }
  }

  /** One more unit on a line adds the unit price to the line total. */
  lemma OneMoreUnit(item: CartItem)
    ensures LineTotal(item.(quantity := item.quantity + 1)) == LineTotal(item) + item.product.price
  {
    var x, q := item.product.price, item.quantity;
    assert x * (q + 1) == x * q + x;
  }

  /**
   * `n` adds of one SKU to a cart without it give a single line with
   * quantity `n` (for `n` up to the largest `int`) and raise the total
   * by `n` × price; every other line is left alone.
   */
  lemma {:induction false} RepeatedAdds(m: map<string, CartItem>, sku: string, p: Product, n: nat)
    requires WellFormedCart(m) && p.sku == sku && sku !in m
    requires n <= INT_MAX
    ensures var r := AddTimes(m, sku, p, n);
      && (n > 0 ==> r == m[sku := CartItem(p, n)])
      && CartTotal(r) == CartTotal(m) + n * p.price
  {
    if n > 0 {
      RepeatedAdds(m, sku, p, n - 1);
      var before := AddTimes(m, sku, p, n - 1);
      var after := AddTimes(m, sku, p, n);
      RepeatedAddStep(m, sku, p, n);
      var t0, t1, t2 := CartTotal(m), CartTotal(before), CartTotal(after);
      var a, b := (n - 1) * p.price, n * p.price;
      MulSucc(n, p.price);
      assert t1 == t0 + a;
      assert t2 == t1 + p.price;
      assert a + p.price == b;
    }
  }

  /** The `n`-th add of a SKU that was not in the cart takes its line from quantity `n - 1` to `n`. */
  lemma RepeatedAddStep(m: map<string, CartItem>, sku: string, p: Product, n: nat)
    requires WellFormedCart(m) && p.sku == sku && sku !in m
    requires 0 < n <= INT_MAX
    requires n > 1 ==> AddTimes(m, sku, p, n - 1) == m[sku := CartItem(p, n - 1)]
    ensures AddTimes(m, sku, p, n) == m[sku := CartItem(p, n)]
    ensures CartTotal(AddTimes(m, sku, p, n)) == CartTotal(AddTimes(m, sku, p, n - 1)) + p.price
  {
    var before := AddTimes(m, sku, p, n - 1);
    var after := AddTimes(m, sku, p, n);
    assert after == AddLine(before, sku, p);
    assert sku in before ==> before[sku] == CartItem(p, n - 1) by {
      if n == 1 {
        assert before == m;
      }
    }
    assert after == m[sku := CartItem(p, n)] by {
      if n == 1 {
        assert before == m;
      } else {
        assert after == before[sku := CartItem(p, n)];
        UpdateTwice(m, sku, CartItem(p, n - 1), CartItem(p, n));
      }
    }
    AddLineTotal(before, sku, p);
  }

  /** A second update of the same key replaces the first. */
  lemma UpdateTwice(m: map<string, CartItem>, k: string, a: CartItem, b: CartItem)
    ensures m[k := a][k := b] == m[k := b]
  {
  }

  /** One more copy of `x`. */
  lemma MulSucc(n: int, x: int)
    ensures (n - 1) * x + x == n * x
  {
  }

  /** An iteration order has one entry per line of the cart. */
  lemma {:induction false} EnumerationSize(order: seq<string>, ks: set<string>)
    requires IsEnumeration(order, ks)
    ensures |order| == |ks|
    decreases |order|
  {
    if order == [] {
      assert ks == {};
    } else {
      var last := order[|order| - 1];
      var init := order[..|order| - 1];
      assert last !in init by {
        forall i | 0 <= i < |init| ensures init[i] != last { assert order[i] == init[i]; }
      }
      assert IsEnumeration(init, ks - {last}) by {
        forall k | k in ks - {last} ensures k in init {
          var i :| 0 <= i < |order| && order[i] == k;
          assert i < |order| - 1 && init[i] == k;
        }
      }
      EnumerationSize(init, ks - {last});
    }
  }

  /** Listing the lines in an iteration order lists every line of the cart and nothing else. */
  lemma EnumeratedMembers(m: map<string, CartItem>, order: seq<string>)
    requires IsEnumeration(order, m.Keys)
    ensures var lines := LinesOf(m, order);
      && (forall l :: l in lines ==> l in m.Values)
      && (forall k :: k in m ==> m[k] in lines)
  {
    var lines := LinesOf(m, order);
    forall k | k in m ensures m[k] in lines {
      var i :| 0 <= i < |order| && order[i] == k;
      assert lines[i] == m[k];
    }
    forall l | l in lines ensures l in m.Values {
      var i :| 0 <= i < |lines| && lines[i] == l;
      assert order[i] in m;
    }
  }

  /**
   * Listing the lines in any iteration order lists each line of the cart
   * exactly once, so the listed line totals add up to the cart total.
   */
  lemma {:induction false} EnumeratedLines(m: map<string, CartItem>, order: seq<string>)
    requires IsEnumeration(order, m.Keys)
    ensures var lines := LinesOf(m, order);
      && |lines| == |m|
      && (forall l :: l in lines ==> l in m.Values)
      && (forall k :: k in m ==> m[k] in lines)
      && SumLines(lines) == CartTotal(m)
  {
    var lines := LinesOf(m, order);
    assert SumLines(lines) == CartTotal(m) by {
      EnumerationTotal(m, order, m.Keys);
    }
    assert |lines| == |m| by {
      EnumerationSize(order, m.Keys);
      assert |m| == |m.Keys|;
    }
    EnumeratedMembers(m, order);
  }
}
