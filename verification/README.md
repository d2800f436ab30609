# Online store checkout — a Dafny model

This project models the core of OnlineStoreApp, a console shop written in Java. The model covers:

- loading the product catalog from a bar-separated text file;
- the shopping cart: add a SKU, compute the total, clear;
- checkout: refuse an empty cart, take cash until it covers the total, give change, build the sales receipt, save it under a name made from the checkout minute, and empty the cart.

The repository holds two drafts of the same program, `OnlineStoreApp.java` and `src/OnlineStoreApp.java`. Their catalog loader, line items, checkout and receipt saving are the same code, so one model serves both. The table below cites whichever draft shows the modelled lines.

Money is a whole number of cents throughout. The store keeps prices as `double`. The receipt and the item lines print amounts with `%.2f` (`Money.FormatCents`). The console prompt for an insufficient payment prints the raw `double` instead; that prompt is not modelled.

## Modules

- `Wrappers`: `Option` and `Result`.
- `Text`: Java text operations on `seq<char>`:
  - `trim`;
  - padding;
  - decimal digits;
  - cutting at a separator (`Pieces`) and the inverse (`Join`);
  - newline-terminated lines (`Unlines`).
- `Money`: `%.2f` of an amount in cents (`FormatCents`) and a reader for it (`ParseCents`, with `ParseUnsigned` for the part after the sign).
- `Clock`: a clock reading and the two `DateTimeFormatter` patterns the store uses:
  - `yyyy-MM-dd HH:mm:ss` for the receipt date;
  - `yyyyMMddHHmm` for the file name.
- `Catalog`:
  - `Product`;
  - `String.split("\\|")` (`SplitBars`);
  - the per-line filter (`ParseRecord`);
  - the fold over the file's lines (`LoadRecords`);
  - the `Inventory` class whose `LoadInventory` loop fills its map one line at a time (`PutLine`).
- `Carts`:
  - `CartItem`;
  - Java `int` increment;
  - the add step as a function on the cart map (`AddLine`);
  - the cart total;
  - the `Cart` class with `Add`, `Entries`, `Total`, `IsEmpty` and `Clear`.
- `CheckoutEngine`:
  - the payment loop;
  - the receipt and its text;
  - the receipt file name and the save;
  - the `Checkout` method and its payment-and-receipt step (`Settle`);
  - a worked sale.

## External inputs as parameters

- **Clock.** The clock reading is the parameter `now`.
- **Cash input.** The cashier's successive cash entries are the sequence `tenders`. If it runs out before one covers the total, the outcome is `PaymentNotReceived` and nothing changes. In the program, reading past the end of input throws.
- **Receipts folder.** The folder is a map from path to contents. Whether the write fails is the parameter `writeFails`.
- **Price parsing.** `Double.parseDouble` on the price field is the parameter `parsePrice: string -> Option<int>`, which gives cents or refuses the text.
- **Catalog file.** The file's contents are handed in as its sequence of lines.

## Where the code and its intended behaviour differ (the model follows the code)

- **Negative prices.** A cart total is meant never to be negative. The code accepts whatever price `parseDouble` reads, including negative ones. Nonnegativity therefore holds only for nonnegative prices (`Carts.SumOverNonnegative`).
- **Clearing the cart.** The checkout steps listed in the comment at `src/OnlineStoreApp.java:72-80` end with clearing the cart after the receipt, which reads as clearing it after a successful checkout. The code clears it after every completed payment, whether or not the receipt was saved (`CheckoutEngine.Checkout`).
- **Same-minute receipts.** Receipt file names have minute precision. A second sale in the same minute overwrites the first receipt's file (`CheckoutEngine.SameMinuteOverwrites`).
- **Repeated adds.** Adding a SKU n times is meant to give quantity n and a line total of n × price. In the code that holds only for n ≤ 2^31 − 1: `quantity++` on a Java `int` wraps, so one more add to a line at the maximum int gives the minimum int, and the cart total falls by 2^32 × price minus price instead of rising (`Carts.AddLineTotal`, `Carts.RepeatedAdds` and `Carts.IncInt`).
- **Empty fields.** Java's split drops trailing empty fields. A line with an empty department, such as `A|Widget|1.00|`, has three fields and is skipped as malformed (`Catalog.EmptyDepartmentIsMalformed`).
- **The `src` draft can never check out.** Its menu has no add path: the display and cart options at `src/OnlineStoreApp.java:159-160` are commented out. Its cart therefore stays empty, and its check-out always takes the refusal branch.

## Model

| member | source | states |
|---|---|---|
| Text.Trim | OnlineStoreApp.java:109 | The trimmed SKU entry is empty or starts and ends with a non-blank character (blank = any char up to space). |
| Text.TrimRemovesOnlyBlanks | OnlineStoreApp.java:109 | Trimming removes only blanks: the input is blanks, then the trimmed text, then blanks. |
| Money.FormatCents | OnlineStoreApp.java:175-177 | The printed amount ends in '.' and two digits, starts with '-' exactly when it is negative, and its whole units are digits without a leading zero (a lone `0` below one unit). |
| Money.FormatCentsRoundTrip | src/OnlineStoreApp.java:120-122 | Reading a printed amount back gives exactly the amount: `%.2f` of whole cents loses nothing. |
| Money.ParseCentsReads | src/OnlineStoreApp.java:120-122 | Every text of the form `[-]units.cc` reads back as units × 100 + cc, negated when the sign is there. |
| Clock.FileStamp | src/OnlineStoreApp.java:138 | The `yyyyMMddHHmm` stamp is the year text and eight more characters, 12 characters in all for a four-digit year. |
| Clock.FileStampFields | src/OnlineStoreApp.java:138 | The stamp is the year text followed by month, day, hour and minute, each two digits that read back as that field. For a four-digit year it is 12 digits and the first four read back as the year. |
| Clock.FileStampSameMinute | OnlineStoreApp.java:193 | Two clock readings give the same stamp if and only if they fall in the same minute. |
| Clock.LongDate | OnlineStoreApp.java:162-163 | The `yyyy-MM-dd HH:mm:ss` date is the year text and fifteen more characters, 19 in all for a four-digit year. |
| Clock.LongDateLayout | OnlineStoreApp.java:161-163 | After the year text come '-', '-', ' ', ':', ':' in fixed columns. With those separators removed, the date up to the minute is exactly the file stamp, and the last two digits read back as the seconds. For a four-digit year it is 19 characters. |
| Catalog.SplitBars | OnlineStoreApp.java:56 | A line with no bar is one field, and no field contains a bar. |
| Catalog.StripTrailingEmpty | OnlineStoreApp.java:56 | Java's split keeps a prefix of the pieces that does not end in an empty field; everything it drops is empty. |
| Catalog.ParseRecord | OnlineStoreApp.java:56-66 | A line is malformed if and only if it does not split into 4 fields. It has an invalid price if and only if it has 4 fields and the price does not parse. A kept product's SKU is the first field. |
| Catalog.LoadRecords | src/OnlineStoreApp.java:56-68 | Loading lines never loses a SKU already in the catalog, and keeps every product filed under its own SKU. |
| Catalog.PutRecord | OnlineStoreApp.java:56-66 | One line never removes a SKU from the catalog and keeps every product filed under its own SKU. |
| Catalog.Inventory.LoadInventory | OnlineStoreApp.java:52-69 | The loop skips the header line and leaves the catalog equal to the fold of the per-line filter over the remaining lines. |
| Catalog.Inventory.PutLine | OnlineStoreApp.java:56-66 | One line leaves the catalog as the per-line filter says: the product is put under its SKU only when the line has 4 fields and its price parses; otherwise nothing changes. |
| Catalog.Inventory.constructor | OnlineStoreApp.java:43 | The catalog starts empty. |
| Catalog.SplitBarsLosesOnlyTrailingBars | OnlineStoreApp.java:56 | The split loses nothing but trailing bars: the fields joined with bars, plus k bars, give the line back. |
| Catalog.SplitBarsOfFields | src/OnlineStoreApp.java:57-58 | Bar-free fields whose last one is non-empty, joined with bars (with any trailing bars), split back into exactly those fields. |
| Catalog.ParseRecordRoundTrip | src/OnlineStoreApp.java:57-61 | Writing a product as `sku\|name\|price\|department` and loading that line gives the product back, given bar-free fields, a non-empty department and a price that parses. |
| Catalog.AcceptedLineIsRecord | OnlineStoreApp.java:56-60 | Conversely, every kept line is the product's four fields joined by bars, plus trailing bars, and its price text parses to the product's price. |
| Catalog.EmptyDepartmentIsMalformed | OnlineStoreApp.java:56-57 | A record whose department is empty is skipped as malformed. |
| Catalog.RejectedLineSkipped | src/OnlineStoreApp.java:62-67 | A malformed line or a bad price leaves the catalog as if the line were absent. |
| Catalog.LastRecordWins | OnlineStoreApp.java:60 | After loading, a SKU is present if and only if a kept line has it or it was there before. It maps to the last kept line with that SKU. |
| Catalog.LoadSingleRecord | src/OnlineStoreApp.java:55-62 | A header plus one accepted line loads exactly that line's product and nothing else. |
| Carts.IncInt | OnlineStoreApp.java:113 | `quantity++` on a Java int stays within int range, adds one below the maximum int, wraps the maximum to the minimum int, and always equals x + 1 modulo 2^32. |
| Carts.AddLine | OnlineStoreApp.java:112-116 | Adding a SKU changes only its line: an existing line keeps its product and its quantity goes up by one (a quantity at the maximum int wraps to the minimum int), and a new line is the product with quantity 1. |
| Carts.NewCartItem | OnlineStoreApp.java:28-31 | A new line holds the product with quantity 1, so its line total is the unit price. |
| Carts.LineTotal | OnlineStoreApp.java:33-35 | A line total is nonnegative when its price and quantity are. |
| Carts.ItemText | OnlineStoreApp.java:37-39 | An item line starts with the product name and runs at least 17 characters past it. |
| Carts.ItemTextReads | OnlineStoreApp.java:37-39 | After the name padded to 30 come ` x`, the quantity padded to 3 columns, ` $` and the line total padded to 10 columns, in those positions. |
| Carts.ItemFieldsRead | OnlineStoreApp.java:38 | The padded quantity field trims back to the quantity's `%d` text, and the padded amount field trims to text that reads back as exactly the line total. |
| Text.IntToDec | OnlineStoreApp.java:38 | The `%d` text of a quantity: a nonnegative number is digits without a leading zero that read back as the number; a negative one is '-' and the digits of its magnitude. |
| Carts.Cart.Add | OnlineStoreApp.java:108-120 | The typed SKU is trimmed. An empty entry does nothing. An unknown SKU is refused with the cart unchanged. A known SKU is added as in `AddLine`, and the product name is reported. |
| Carts.Cart.constructor | OnlineStoreApp.java:44 | The cart starts empty. |
| Carts.Cart.Entries | OnlineStoreApp.java:129 | Iteration over the cart visits every SKU exactly once, in no promised order. |
| Carts.Cart.Total | OnlineStoreApp.java:128-133 | The running sum over the lines, in map order, equals the cart total. |
| Carts.Cart.IsEmpty | OnlineStoreApp.java:125 | Reports exactly whether the cart has no lines. |
| Carts.Cart.Clear | OnlineStoreApp.java:184 | The cart has no lines afterwards. |
| Carts.EnumerationTotal | src/OnlineStoreApp.java:91-94 | Summing line totals in any visiting order gives the same total. |
| Carts.SumOverNonnegative | OnlineStoreApp.java:143-149 | With nonnegative prices and quantities the total is nonnegative. |
| Carts.AddLineTotal | src/OnlineStoreApp.java:34-36 | For a line short of the int maximum (or a new line), one add raises the total by exactly the unit price of the added product. |
| Carts.OneMoreUnit | OnlineStoreApp.java:33-35 | One more unit on a line adds exactly the unit price to its line total. |
| Carts.RepeatedAdds | OnlineStoreApp.java:110-116 | Adding a new SKU n times, for n up to the int maximum, gives one line with quantity n, and the total rises by n × price. |
| Carts.EnumeratedLines | OnlineStoreApp.java:171-173 | The lines visited in map order are exactly the cart's lines, one per SKU, and they sum to the cart total. |
| CheckoutEngine.FirstSufficient | OnlineStoreApp.java:154-159 | The accepted tender is the first one that is at least the total, and every earlier tender was below it. If there is none, every tender was below the total. |
| CheckoutEngine.SettlePayment | src/OnlineStoreApp.java:99-105 | The loop accepts exactly the tender `FirstSufficient` names (or none), and the change is paid − total ≥ 0. |
| CheckoutEngine.Settle | src/OnlineStoreApp.java:88-122 | For a non-empty cart there is no receipt exactly when no tender covers the cart total. Otherwise the receipt holds the date, the cart's lines (each once), their sum as the total, the first sufficient tender and change = paid − total ≥ 0. |
| CheckoutEngine.ReceiptText | OnlineStoreApp.java:166-177 | The receipt text ends with a newline. Its lines are given by `ReceiptTextIsLines` and `ReceiptLayout`. |
| CheckoutEngine.ReceiptFileName | OnlineStoreApp.java:193 | The file name is `Receipts/`, then the stamp, then `.txt`, and nothing else. |
| CheckoutEngine.SaveReceiptToFile | OnlineStoreApp.java:188-201 | A failed write changes no file and reports failure. A successful write stores the text under `Receipts/yyyyMMddHHmm.txt` and leaves every other file alone. |
| CheckoutEngine.SameMinuteOverwrites | src/OnlineStoreApp.java:138-140 | Two sales in the same minute leave only the second receipt. Sales in different minutes keep both. |
| CheckoutEngine.Checkout | OnlineStoreApp.java:137-186 | An empty cart is refused and nothing changes. If no tender covers the total, nothing changes. Otherwise the receipt holds the date, the cart's lines (each once), their sum as the total, the first sufficient tender and the change; the save is attempted; the cart is empty afterwards. |
| CheckoutEngine.ItemTextSingleLine | OnlineStoreApp.java:37-39 | An item's text has no newline when the product name has none. |
| CheckoutEngine.LayoutPositions | src/OnlineStoreApp.java:112-122 | The receipt lines in order: header, date, blank, `Items:`, the items, blank, Total, Paid, Change. |
| CheckoutEngine.ReceiptTextIsLines | OnlineStoreApp.java:166-177 | The appended receipt text is exactly its lines, each followed by a newline. |
| CheckoutEngine.ReceiptLinesSingle | src/OnlineStoreApp.java:111-122 | No receipt line contains a newline when no product name does. |
| CheckoutEngine.ReceiptLayout | OnlineStoreApp.java:166-177 | Cutting the receipt at newlines gives its lines and an empty rest: the `=== Sales Receipt ===` header first, `Items:` at line 3, the n item lines at lines 4 to n+3, a blank line, then lines captioned `Total: $`, `Paid:  $` and `Change:$` whose amounts read back as exactly the total, paid and change. |
| CheckoutEngine.WidgetCatalog | src/OnlineStoreApp.java:53-68 | A header plus `SKU1\|Widget\|9.99\|Home` loads exactly that product at 999 cents. |
| CheckoutEngine.WidgetLine | OnlineStoreApp.java:56-60 | The line `SKU1\|Widget\|9.99\|Home` is kept as the product SKU1 at 999 cents in department Home. |
| CheckoutEngine.WidgetCart | OnlineStoreApp.java:110-116 | Adding it twice gives one line of quantity 2 and a total of 1998 cents. |
| CheckoutEngine.WidgetAmounts | OnlineStoreApp.java:175-177 | 1998 cents print as `19.98`, 2000 cents as `20.00` and 2 cents as `0.02`. |
| CheckoutEngine.WidgetSale | OnlineStoreApp.java:137-177 | The whole sale: load, add twice, tender 20.00 accepted, and the receipt amounts print as total `19.98`, paid `20.00` and change `0.02`. |

## Left out

- Console I/O, the menus and their prompts and messages (`homeScreen`, `displayProducts` listing, `displayCart` printing, the "Receipt saved" and error messages) are not modelled; only the state changes and the returned outcomes are.
- `Product.toString` is not modelled. It only formats the product listing on the console.
- File I/O is not modelled. The catalog file is given as its lines. The receipts folder is a map. A failed write is assumed to leave no partial file. The `mkdirs` of the folder is not modelled.
- `FileNotFoundException`/`IOException` from opening or reading the catalog file is not modelled. The program would stop.
- `NumberFormatException` from a cash entry that is not a number is not modelled. Tenders are already amounts.
- `Double.parseDouble` and `double` arithmetic are not modelled. Prices are parsed by the `parsePrice` parameter into cents, and totals, change and `%.2f` work on exact cents. Binary rounding of `double` sums is therefore not captured.
- Text.PadRight: pads by the number of Unicode characters. Java's `%-30s`, `%-3d` and `%-10.2f` pad by `String.length()`, which counts UTF-16 code units, so a name with characters outside the Basic Multilingual Plane gets one more space per such character in the model than in Java.
- Money.FormatCents: prints '.' as the decimal point. Java's `%.2f` uses the default locale, which may print a different separator; the model fixes a locale whose separator is '.'.
- Clock.Valid allows day 31 in every month and does not model years before 1 CE. The clock reading is trusted as the parameter `now`.
- `Checkout.java` is not part of this model. It relies on a `cart` object and a `scanner` that no file of the program declares, and what it adds is a yes/no prompt and a file write.
- HashMap iteration order is not modelled. `Carts.Cart.Entries` returns some order with each SKU once, and every property proved holds for any order.
- The line items are values in the cart map. Java's in-place `quantity++` on the shared `CartItem` object is a map update; no other reference to a line exists in the program.
- CheckoutEngine.ReceiptLayout: stated only for product names without a newline. A name containing one would add lines to the receipt.
