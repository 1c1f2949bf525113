/**
 * The cart page's state machine. The widget's dialogs become parameters:
 * `tempPrice` is the unknown-product dialog (`None` when cancelled, else the
 * price it was accepted with), `confirmed` the answer to a Yes/No question,
 * and `selected` the barcode in the selected table row (`None` when no row
 * is selected).
 */
module CartPage {

  import opened Wrappers
  import opened Text
  import opened Pricing
  import opened Catalog
  import opened CartLines

  /**
   * `_resolve_unknown_product`: a one-off product under a placeholder name
   * at the price typed into the dialog, or nothing when the dialog is
   * cancelled.
   */
  function ResolveUnknown(barcode: string, tempPrice: Option<int>): (r: Option<Product>)
    ensures r.Some? <==> tempPrice.Some?
    ensures r.Some? ==> r.value.barcode == barcode && r.value.price == tempPrice.value
    ensures r.Some? ==> r.value.name == PlaceholderName(barcode)
  {
    match tempPrice
    case None => None
    case Some(p) => Some(Product(barcode, PlaceholderName(barcode), p))
  }

  /**
   * The lines after `_add_by_barcode(barcode)`, given what the catalog
   * lookup returned: the cart is left alone exactly when the lookup missed
   * and the dialog was cancelled.
   */
  function AfterAdd(lines: seq<CartItem>, hit: Option<Product>, barcode: string, tempPrice: Option<int>): (r: seq<CartItem>)
    ensures r == lines <==> hit.None? && tempPrice.None?
  {
    var product := if hit.Some? then hit else ResolveUnknown(barcode, tempPrice);
    match product
    case None => lines
    case Some(p) => AddOne(lines, barcode, p.name, p.price)
  }

  /**
   * Adding by barcode always asks the catalog first. A miss followed by a
   * cancelled dialog leaves the cart exactly as it was, even when the
   * barcode already has a line. Otherwise the barcode's line gains one unit
   * and keeps its name and price; a barcode without a line gets a new
   * one-unit line at the end, with the catalog's name and price, or with
   * the placeholder name and the dialog's price. No other line changes,
   * and every line still has at least one unit.
   */
  lemma AddByBarcodeEffect(t: Table, clock: nat, lines: seq<CartItem>, barcode: string, tempPrice: Option<int>)
    requires TableOk(t, clock) && ValidLines(lines)
    requires tempPrice.Some? ==> InSpinRange(tempPrice.value)
    ensures var r := AfterAdd(lines, Lookup(t, barcode), barcode, tempPrice);
      && ValidLines(r)
      && (barcode !in t && tempPrice.None? ==> r == lines)
      && (barcode in t || tempPrice.Some? ==>
            && (forall x | x != barcode :: LineOf(r, x) == LineOf(lines, x))
            && LineOf(r, barcode) == Some(
                 match LineOf(lines, barcode)
                 case Some(l) => l.(quantity := l.quantity + 1)
                 case None =>
                   if barcode in t then CartItem(barcode, t[barcode].name, t[barcode].price, 1)
                   else CartItem(barcode, PlaceholderName(barcode), tempPrice.value, 1))
            && KeyOrder(r) == if LineOf(lines, barcode).Some? then KeyOrder(lines) else KeyOrder(lines) + [barcode])
  {
    var hit := Lookup(t, barcode);
    if barcode in t {
      AddOneEffect(lines, barcode, t[barcode].name, t[barcode].price);
    } else if tempPrice.Some? {
      AddOneEffect(lines, barcode, PlaceholderName(barcode), tempPrice.value);
    }
  }

  /** What the checkout dialog reports: nothing for an empty cart, else the two totals and whether it was paid. */
  datatype CheckoutOutcome = EmptyCart | Summary(totalQuantity: int, totalAmount: int, paid: bool)

  class CartPage {
    var lines: seq<CartItem>

    ghost predicate Valid()
      reads this
    {
      ValidLines(lines)
    }

    constructor ()
      ensures Valid() && lines == []
    {
      lines := [];
    }

    /** `_add_by_barcode`. */
    method AddByBarcode(db: Database, barcode: string, tempPrice: Option<int>)
      requires Valid() && db.Valid()
      requires tempPrice.Some? ==> InSpinRange(tempPrice.value)
      modifies this
      ensures Valid()
      ensures lines == AfterAdd(old(lines), Lookup(db.table, barcode), barcode, tempPrice)
    {
      ghost var before := lines;
      AddByBarcodeEffect(db.table, db.clock, lines, barcode, tempPrice);
      var product := Lookup(db.table, barcode);
      if product.None? {
        product := ResolveUnknown(barcode, tempPrice);
        if product.None? {
          return;
        }
      }
      var found := Find(lines, barcode);
      if found.Some? {
        var i := found.value;
        lines := lines[i := lines[i].(quantity := lines[i].quantity + 1)];
      } else {
        lines := lines + [CartItem(barcode, product.value.name, product.value.price, 1)];
      }
      assert lines == AfterAdd(before, Lookup(db.table, barcode), barcode, tempPrice);
    }

    /** The two sums `_render_table` shows under the table, accumulated row by row. */
    method RenderTotals() returns (totalQuantity: int, totalAmount: int)
      ensures totalQuantity == TotalQuantity(lines) && totalAmount == TotalAmount(lines)
    {
      totalQuantity, totalAmount := 0, 0;
      var row := 0;
      while row < |lines|
        invariant 0 <= row <= |lines|
        invariant totalQuantity == TotalQuantity(lines[..row])
        invariant totalAmount == TotalAmount(lines[..row])
      {
        assert lines[..row + 1][..row] == lines[..row];
        totalQuantity := totalQuantity + lines[row].quantity;
        totalAmount := totalAmount + Subtotal(lines[row]);
        row := row + 1;
      }
      assert lines[..row] == lines;
    }

    /** `_clear_cart`: the question is asked only for a non-empty cart, and Yes empties it. */
    method ClearCart(confirmed: bool) returns (asked: bool)
      requires Valid()
      modifies this
      ensures Valid()
      ensures asked <==> old(lines) != []
      ensures lines == if asked && confirmed then [] else old(lines)
    {
      if lines == [] {
        return false;
      }
      asked := true;
      if confirmed {
        lines := [];
      }
    }

    /** `_decrease_selected_item`: without a selected row only a hint is shown. */
    method DecreaseSelected(selected: Option<string>) returns (hinted: bool)
      requires Valid()
      modifies this
      ensures Valid()
      ensures hinted <==> selected.None?
      ensures lines == if selected.None? then old(lines) else Decremented(old(lines), selected.value)
    {
      if selected.None? {
        return true;
      }
      hinted := false;
      var barcode := selected.value;
      DecrementEffect(lines, barcode);
      var found := Find(lines, barcode);
      if found.None? {
        return;
      }
      var i := found.value;
      var quantity := lines[i].quantity - 1;
      if quantity <= 0 {
        lines := lines[..i] + lines[i + 1..];
      } else {
        lines := lines[i := lines[i].(quantity := quantity)];
      }
    }

    /** `_remove_selected_item`: without a selected row only a hint is shown. */
    method RemoveSelected(selected: Option<string>) returns (hinted: bool)
      requires Valid()
      modifies this
      ensures Valid()
      ensures hinted <==> selected.None?
      ensures lines == if selected.None? then old(lines) else Removed(old(lines), selected.value)
    {
      if selected.None? {
        return true;
      }
      hinted := false;
      var barcode := selected.value;
      RemoveEffect(lines, barcode);
      var found := Find(lines, barcode);
      if found.Some? {
        var i := found.value;
        lines := lines[..i] + lines[i + 1..];
      }
    }

    /**
     * `_checkout`: an empty cart is refused and stays as it is. Otherwise the
     * totals are put to the operator, at least one unit and a positive
     * amount, and a Yes empties the cart.
     */
    method Checkout(confirmed: bool) returns (outcome: CheckoutOutcome)
      requires Valid()
      modifies this
      ensures Valid()
      ensures old(lines) == [] ==> outcome == EmptyCart && lines == old(lines)
      ensures old(lines) != [] ==>
        && outcome == Summary(TotalQuantity(old(lines)), TotalAmount(old(lines)), confirmed)
        && outcome.totalQuantity >= 1 && outcome.totalAmount > 0
        && lines == if confirmed then [] else old(lines)
    {
      if lines == [] {
        return EmptyCart;
      }
      TotalsBounds(lines);
      outcome := Summary(TotalQuantity(lines), TotalAmount(lines), confirmed);
      if confirmed {
        lines := [];
      }
    }

    /** `_on_scan_submitted`: the stripped scan is the barcode; a blank scan is ignored. */
    method OnScanSubmitted(db: Database, text: string, tempPrice: Option<int>)
      requires Valid() && db.Valid()
      requires tempPrice.Some? ==> InSpinRange(tempPrice.value)
      modifies this
      ensures Valid()
      ensures lines == if Strip(text) == [] then old(lines)
                       else AfterAdd(old(lines), Lookup(db.table, Strip(text)), Strip(text), tempPrice)
    {
      var barcode := Strip(text);
      if barcode == [] {
        return;
      }
      AddByBarcode(db, barcode, tempPrice);
    }

    /**
     * `_on_manual_submitted`: a blank entry is ignored; otherwise the barcode
     * is read from the entry, which may be a whole suggestion line.
     */
    method OnManualSubmitted(db: Database, text: string, tempPrice: Option<int>)
      requires Valid() && db.Valid()
      requires tempPrice.Some? ==> InSpinRange(tempPrice.value)
      modifies this
      ensures Valid()
      ensures lines == if Strip(text) == [] then old(lines)
                       else AfterAdd(old(lines), Lookup(db.table, ExtractBarcode(text)), ExtractBarcode(text), tempPrice)
    {
      var entry := Strip(text);
      if entry == [] {
        return;
      }
      var barcode := Strip(BeforeSeparator(entry));
      AddByBarcode(db, barcode, tempPrice);
    }
  }
}
