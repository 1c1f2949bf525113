/**
 * The inventory page: a form of barcode, name and price that writes one
 * product into the catalog, and that fills itself in from the catalog when
 * the operator finishes typing a barcode that is already stored.
 */
module InventoryPage {

  import opened Wrappers
  import opened Text
  import opened Pricing
  import opened Catalog

  /**
   * The form as `save_product` reads it: a refusal, or the fields to store.
   * `BarcodeAmbiguous` is produced only by the corrected reading
   * `ReadFormListed`.
   */
  datatype FormInput = BarcodeMissing | BarcodeAmbiguous | NameMissing | Ready(barcode: string, name: string)

  /**
   * Reading the form: the barcode is cut out of the barcode field (which may
   * hold a whole suggestion line) and the name is stripped. A blank barcode
   * field is refused first, then a blank name, so what is stored is never
   * empty.
   */
  function ReadForm(barcodeText: string, nameText: string): (r: FormInput)
    ensures r.BarcodeMissing? <==> Strip(barcodeText) == []
    ensures !r.BarcodeAmbiguous?
    ensures r.NameMissing? <==> Strip(barcodeText) != [] && Strip(nameText) == []
    ensures r.Ready? ==>
      && r.barcode == ExtractBarcode(barcodeText) && r.name == Strip(nameText)
      && r.barcode != [] && r.name != []
  {
    var barcode := ExtractBarcode(barcodeText);
    var name := Strip(nameText);
    if barcode == [] then BarcodeMissing
    else if name == [] then NameMissing
    else Ready(barcode, name)
  }

  /**
   * A barcode that ends in `" |"` is stored as typed, but the suggestion line
   * built from it is cut at its own last two characters when it is read
   * back, so the product cannot be picked from the completer.
   */
  lemma SuggestionMisread()
    ensures ReadForm("x |", "n") == Ready("x |", "n")
    ensures ExtractBarcode("x |" + Separator + "n | \U{A5}1.00") == "x"
  {
    UntouchedByStrip("x |");
    assert BeforeSeparator("x |") == "x |";
    var line := "x |" + Separator + "n | \U{A5}1.00";
    UntouchedByStrip(line);
    assert SeparatorAt(line, 1);
    assert BeforeSeparator(line) == "x";
    UntouchedByStrip("x");
  }

  /**
   * The form reading with the refusal the suggestion lines need: a barcode
   * ending in `" |"` is refused. Every other form is read exactly as
   * `ReadForm` reads it.
   */
  function ReadFormListed(barcodeText: string, nameText: string): (r: FormInput)
    ensures r.Ready? ==> r == ReadForm(barcodeText, nameText) && !EndsInBar(r.barcode)
    ensures var form := ReadForm(barcodeText, nameText);
      form.Ready? && !EndsInBar(form.barcode) ==> r == form
    ensures r.BarcodeAmbiguous? <==> EndsInBar(ExtractBarcode(barcodeText))
  {
    var barcode := ExtractBarcode(barcodeText);
    var name := Strip(nameText);
    if barcode == [] then BarcodeMissing
    else if EndsInBar(barcode) then BarcodeAmbiguous
    else if name == [] then NameMissing
    else Ready(barcode, name)
  }

  /**
   * Every barcode the corrected reading accepts comes back out of any
   * suggestion line built from it.
   */
  lemma ListedReadsBack(barcodeText: string, nameText: string, rest: string)
    requires ReadFormListed(barcodeText, nameText).Ready?
    requires rest != [] && !IsSpace(rest[|rest| - 1])
    ensures var b := ReadFormListed(barcodeText, nameText).barcode;
      ExtractBarcode(b + Separator + rest) == b
  {
    var b := ReadFormListed(barcodeText, nameText).barcode;
    UntouchedByStrip(b);
    ExtractFromSuggestion(b, rest);
  }

  /** The message `save_product` ends with. */
  datatype SaveOutcome = MissingBarcode | MissingName | Inserted | Overwritten

  class InventoryPage {
    const db: Database
    var barcodeText: string
    var nameText: string
    /** The price spin box, in cents. */
    var price: int

    /** The spin box never holds a price outside its range. */
    ghost predicate Valid()
      reads this
    {
      InSpinRange(price)
    }

    /** A fresh page: empty fields and the default price. */
    constructor (database: Database)
      ensures Valid() && db == database
      ensures barcodeText == [] && nameText == [] && price == DefaultPrice
    {
      db := database;
      barcodeText, nameText, price := [], [], DefaultPrice;
    }

    /** Typing into the price spin box: the widget keeps the value inside its range. */
    method SetPrice(value: int)
      requires Valid()
      modifies this
      ensures Valid()
      ensures price == SpinBoxValue(value)
      ensures barcodeText == old(barcodeText) && nameText == old(nameText)
    {
      price := SpinBoxValue(value);
    }

    /**
     * `save_product`. A refused form changes nothing. Otherwise the product
     * is written, which always succeeds because the spin box never shows a
     * price below one cent; the message says whether the barcode was
     * already stored; and the form is reset.
     */
    method SaveProduct() returns (outcome: SaveOutcome)
      requires Valid() && db.Valid()
      modifies this, db
      ensures Valid() && db.Valid()
      ensures var form := ReadForm(old(barcodeText), old(nameText));
        && (form.BarcodeMissing? ==> outcome == MissingBarcode)
        && (form.NameMissing? ==> outcome == MissingName)
        && (!form.Ready? ==>
              && barcodeText == old(barcodeText) && nameText == old(nameText) && price == old(price)
              && db.table == old(db.table) && db.clock == old(db.clock))
        && (form.Ready? ==>
              && outcome == (if form.barcode in old(db.table) then Overwritten else Inserted)
              && db.table == Put(old(db.table), old(db.clock), form.barcode, form.name, old(price))
              && db.clock == old(db.clock) + 1
              && barcodeText == [] && nameText == [] && price == DefaultPrice)
    {
      var form := ReadForm(barcodeText, nameText);
      if form.BarcodeMissing? {
        return MissingBarcode;
      }
      if form.NameMissing? {
        return MissingName;
      }
      var existed := Lookup(db.table, form.barcode).Some?;
      var ok := db.UpsertProduct(form.barcode, form.name, price);
      outcome := if existed then Overwritten else Inserted;
      barcodeText, nameText, price := [], [], DefaultPrice;
    }

    /**
     * `_on_barcode_editing_finished`. A blank field is left alone. Otherwise
     * the field is replaced by the barcode read out of it, and when the
     * catalog holds that barcode the name and price fields show the stored
     * product, the price as the spin box can show it.
     */
    method OnBarcodeEditingFinished()
      requires Valid() && db.Valid()
      modifies this
      ensures Valid()
      ensures Strip(old(barcodeText)) == [] ==>
        barcodeText == old(barcodeText) && nameText == old(nameText) && price == old(price)
      ensures Strip(old(barcodeText)) != [] ==>
        var barcode := ExtractBarcode(old(barcodeText));
        && barcodeText == barcode
        && (barcode in db.table ==> nameText == db.table[barcode].name && price == SpinBoxValue(db.table[barcode].price))
        && (barcode !in db.table ==> nameText == old(nameText) && price == old(price))
    {
      var text := Strip(barcodeText);
      if text == [] {
        return;
      }
      var barcode := Strip(BeforeSeparator(text));
      var product := Lookup(db.table, barcode);
      barcodeText := barcode;
      if product.None? {
        return;
      }
      nameText := product.value.name;
      price := SpinBoxValue(product.value.price);
    }
  }

  /**
   * Saving and reopening agree: after a form is saved, typing its barcode
   * back into the barcode field reads the same barcode, the catalog returns
   * exactly the saved name and price, the spin box shows that price
   * unclamped, and saving the refilled form writes the same product again.
   */
  lemma SaveThenReopen(t: Table, now: nat, barcodeText: string, nameText: string, price: int)
    requires ReadForm(barcodeText, nameText).Ready? && InSpinRange(price)
    ensures var form := ReadForm(barcodeText, nameText);
      var saved := Put(t, now, form.barcode, form.name, price);
      && Strip(form.barcode) != []
      && ExtractBarcode(form.barcode) == form.barcode
      && Lookup(saved, form.barcode) == Some(Product(form.barcode, form.name, price))
      && SpinBoxValue(saved[form.barcode].price) == price
      && ReadForm(form.barcode, saved[form.barcode].name) == form
  {
    var form := ReadForm(barcodeText, nameText);
    ExtractBarcodeIdempotent(barcodeText);
    UntouchedByStrip(form.barcode);
    UntouchedByStrip(form.name);
  }
}
