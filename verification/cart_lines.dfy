/**
 * The cart's contents as values: the lines of the insertion-ordered
 * `cart_items` dictionary, each line carrying its own barcode (the key it
 * is filed under), and the two sums shown under the table and at checkout.
 */
module CartLines {

  import opened Wrappers

  /** A cart line: name and unit price are taken when the line is created and never refreshed. */
  datatype CartItem = CartItem(barcode: string, name: string, price: int, quantity: int)

  /** `price * quantity`: a line holding at least one unit at a positive price is worth something. */
  function Subtotal(item: CartItem): (r: int)
    ensures item.quantity >= 1 && item.price > 0 ==> r > 0
  {
    item.price * item.quantity
  }

  /** The two per-line values the cart adds up. */
  datatype Measure = Units | Amount

  function Value(item: CartItem, m: Measure): int {
    match m
    case Units => item.quantity
    case Amount => Subtotal(item)
  }

  /**
   * The sum of `m` over the lines, accumulated from the first line to the
   * last.
   */
  function Total(lines: seq<CartItem>, m: Measure): (r: int)
  {
    if lines == [] then 0 else Total(lines[..|lines| - 1], m) + Value(lines[|lines| - 1], m)
  }

  function TotalQuantity(lines: seq<CartItem>): int {
    Total(lines, Units)
  }

  function TotalAmount(lines: seq<CartItem>): int {
    Total(lines, Amount)
  }

  /**
   * The dictionary's guarantees as the cart uses it: one line per barcode,
   * and every line holds at least one unit at a positive price.
   */
  ghost predicate ValidLines(lines: seq<CartItem>) {
    && (forall i | 0 <= i < |lines| :: lines[i].quantity >= 1 && lines[i].price > 0)
    && (forall i, j | 0 <= i < j < |lines| :: lines[i].barcode != lines[j].barcode)
  }

  /** The dictionary's keys, in insertion order. */
  function KeyOrder(lines: seq<CartItem>): (keys: seq<string>)
    ensures |keys| == |lines| && forall i | 0 <= i < |lines| :: keys[i] == lines[i].barcode
  {
    seq(|lines|, i requires 0 <= i < |lines| => lines[i].barcode)
  }

  /** The position of the first line filed under `barcode`. */
  function Find(lines: seq<CartItem>, barcode: string): (r: Option<nat>)
    ensures r.Some? ==> r.value < |lines| && lines[r.value].barcode == barcode
    ensures r.Some? ==> forall j | 0 <= j < r.value :: lines[j].barcode != barcode
    ensures r.None? ==> forall j | 0 <= j < |lines| :: lines[j].barcode != barcode
  {
    if lines == [] then None
    else if lines[0].barcode == barcode then Some(0)
    else
      match Find(lines[1..], barcode)
      case None => None
      case Some(i) => Some(i + 1)
  }

  /** `cart_items.get(barcode)`: a line filed under the barcode, or `None` when there is none. */
  function LineOf(lines: seq<CartItem>, barcode: string): (r: Option<CartItem>)
    ensures r.Some? ==> r.value.barcode == barcode && r.value in lines
    ensures r.None? <==> forall i | 0 <= i < |lines| :: lines[i].barcode != barcode
  {
    match Find(lines, barcode)
    case None => None
    case Some(i) => Some(lines[i])
  }

  /** Lines with the same keys in the same order are found at the same places. */
  lemma FindSameKeys(a: seq<CartItem>, b: seq<CartItem>, barcode: string)
    requires KeyOrder(a) == KeyOrder(b)
    ensures Find(a, barcode) == Find(b, barcode)
  {
    assert forall i | 0 <= i < |a| :: a[i].barcode == KeyOrder(a)[i] == b[i].barcode;
    match Find(a, barcode)
    case None =>
    case Some(i) =>
      var fb := Find(b, barcode);
      assert fb.Some? && fb.value == i by {
        assert b[i].barcode == barcode;
      }
  }

  /** `Find` reports the first position holding the barcode. */
  lemma FindAt(lines: seq<CartItem>, barcode: string, i: nat)
    requires i < |lines| && lines[i].barcode == barcode
    requires forall j | 0 <= j < i :: lines[j].barcode != barcode
    ensures Find(lines, barcode) == Some(i)
  {
    var f := Find(lines, barcode);
    assert f.Some?;
    assert !(f.value < i);
    assert !(f.value > i);
  }

  /** The first line filed under a barcode, in lines with distinct barcodes, is the only one. */
  lemma FindUnique(lines: seq<CartItem>, i: nat)
    requires ValidLines(lines) && i < |lines|
    ensures Find(lines, lines[i].barcode) == Some(i)
  {
    FindAt(lines, lines[i].barcode, i);
  }

  /** `keys` with every occurrence of `barcode` dropped. */
  function Without(keys: seq<string>, barcode: string): (r: seq<string>)
    ensures forall x :: x in r <==> x in keys && x != barcode
  {
    if keys == [] then []
    else (if keys[0] == barcode then [] else [keys[0]]) + Without(keys[1..], barcode)
  }

  lemma {:induction false} WithoutAbsent(keys: seq<string>, barcode: string)
    requires barcode !in keys
    ensures Without(keys, barcode) == keys
  {
    if keys != [] {
      assert barcode !in keys[1..];
      WithoutAbsent(keys[1..], barcode);
      assert keys == [keys[0]] + keys[1..];
    }
  }

  /** Dropping the one line of a barcode from distinct keys is cutting out its position. */
  lemma {:induction false} WithoutAt(keys: seq<string>, i: nat)
    requires i < |keys|
    requires forall a, b | 0 <= a < b < |keys| :: keys[a] != keys[b]
    ensures Without(keys, keys[i]) == keys[..i] + keys[i + 1..]
  {
    var rest := keys[1..];
    if i == 0 {
      assert keys[0] !in rest;
      WithoutAbsent(rest, keys[0]);
    } else {
      assert keys[i] == rest[i - 1];
      WithoutAt(rest, i - 1);
      assert keys[..i] + keys[i + 1..] == [keys[0]] + (rest[..i - 1] + rest[i..]);
    }
  }

  /**
   * One more unit of `barcode`: the existing line counts up, or a new line is
   * appended. The cart always changes, and at most one line is added: a
   * one-unit line with the given name and price.
   */
  function AddOne(lines: seq<CartItem>, barcode: string, name: string, price: int): (r: seq<CartItem>)
    ensures r != lines
    ensures |lines| <= |r| <= |lines| + 1
    ensures |r| > |lines| ==> r[|lines|] == CartItem(barcode, name, price, 1)
  {
    match Find(lines, barcode)
    case Some(i) =>
      var r := lines[i := lines[i].(quantity := lines[i].quantity + 1)];
      assert r[i] != lines[i];
      r
    case None =>
      lines + [CartItem(barcode, name, price, 1)]
  }

  /**
   * One unit of `barcode` fewer; a line that drops to zero units is deleted.
   * At most one line goes, and every line of another barcode is kept as it
   * was.
   */
  function Decremented(lines: seq<CartItem>, barcode: string): (r: seq<CartItem>)
    ensures |r| <= |lines| <= |r| + 1
    ensures forall i | 0 <= i < |r| :: r[i].barcode == barcode || r[i] in lines
  {
    match Find(lines, barcode)
    case None => lines
    case Some(i) =>
      var q := lines[i].quantity - 1;
      if q <= 0 then lines[..i] + lines[i + 1..] else lines[i := lines[i].(quantity := q)]
  }

  /**
   * The line of `barcode` deleted, whatever its quantity: at most one line
   * goes, and every line left was in the cart.
   */
  function Removed(lines: seq<CartItem>, barcode: string): (r: seq<CartItem>)
    ensures |r| <= |lines| <= |r| + 1
    ensures forall i | 0 <= i < |r| :: r[i] in lines
  {
    match Find(lines, barcode)
    case None => lines
    case Some(i) => lines[..i] + lines[i + 1..]
  }

  lemma {:induction false} TotalUpdate(lines: seq<CartItem>, i: nat, x: CartItem, m: Measure)
    requires i < |lines|
    ensures Total(lines[i := x], m) == Total(lines, m) - Value(lines[i], m) + Value(x, m)
    decreases |lines|
  {
    var n := |lines| - 1;
    if i == n {
      assert lines[i := x][..n] == lines[..n];
    } else {
      assert lines[i := x][..n] == lines[..n][i := x];
      TotalUpdate(lines[..n], i, x, m);
    }
  }

  lemma {:induction false} TotalErase(lines: seq<CartItem>, i: nat, m: Measure)
    requires i < |lines|
    ensures Total(lines[..i] + lines[i + 1..], m) == Total(lines, m) - Value(lines[i], m)
    decreases |lines|
  {
    var n := |lines| - 1;
    var e := lines[..i] + lines[i + 1..];
    if i == n {
      assert e == lines[..n];
    } else {
      assert e[..|e| - 1] == lines[..n][..i] + lines[..n][i + 1..];
      assert e[|e| - 1] == lines[n];
      TotalErase(lines[..n], i, m);
    }
  }

  lemma TotalAppend(lines: seq<CartItem>, x: CartItem, m: Measure)
    ensures Total(lines + [x], m) == Total(lines, m) + Value(x, m)
  {
    assert (lines + [x])[..|lines|] == lines;
  }

  /**
   * In a valid cart the total quantity is at least the number of lines, so
   * the cart is empty exactly when it holds no units, and a non-empty
   * cart's total amount is positive.
   */
  lemma {:induction false} TotalsBounds(lines: seq<CartItem>)
    requires ValidLines(lines)
    ensures TotalQuantity(lines) >= |lines|
    ensures lines == [] <==> TotalQuantity(lines) == 0
    ensures lines != [] ==> TotalAmount(lines) > 0
    ensures TotalAmount(lines) >= 0
    decreases |lines|
  {
    if lines != [] {
      var n := |lines| - 1;
      assert ValidLines(lines[..n]);
      TotalsBounds(lines[..n]);
      var l := lines[n];
      assert Subtotal(l) == l.price * (l.quantity - 1) + l.price;
      assert l.price * (l.quantity - 1) >= 0;
    }
  }

  /**
   * Adding a unit of `barcode`: an existing line keeps its name and price
   * and gains one unit; otherwise a one-unit line with the given name and
   * price is appended. No other line changes, and the key order changes
   * only by the new key at the end.
   */
  lemma AddOneEffect(lines: seq<CartItem>, barcode: string, name: string, price: int)
    ensures var r := AddOne(lines, barcode, name, price);
      && LineOf(r, barcode) == Some(match LineOf(lines, barcode)
                                    case Some(l) => l.(quantity := l.quantity + 1)
                                    case None => CartItem(barcode, name, price, 1))
      && (forall x | x != barcode :: LineOf(r, x) == LineOf(lines, x))
      && KeyOrder(r) == (if LineOf(lines, barcode).Some? then KeyOrder(lines) else KeyOrder(lines) + [barcode])
    ensures ValidLines(lines) && price > 0 ==> ValidLines(AddOne(lines, barcode, name, price))
  {
    var r := AddOne(lines, barcode, name, price);
    match Find(lines, barcode)
    case Some(i) =>
      assert KeyOrder(r) == KeyOrder(lines);
      forall x ensures Find(r, x) == Find(lines, x) {
        FindSameKeys(r, lines, x);
      }
    case None =>
      assert KeyOrder(r) == KeyOrder(lines) + [barcode];
      FindAt(r, barcode, |lines|);
      forall x | x != barcode ensures Find(r, x) == Find(lines, x) {
        var f := Find(lines, x);
        if f.Some? {
          FindAt(r, x, f.value);
        } else {
          assert forall j | 0 <= j < |r| :: r[j].barcode != x;
        }
      }
  }

  /** Adding a unit adds one to the total quantity and the line's unit price to the total amount. */
  lemma AddOneTotals(lines: seq<CartItem>, barcode: string, name: string, price: int)
    ensures var r := AddOne(lines, barcode, name, price);
      var unit := match LineOf(lines, barcode) case Some(l) => l.price case None => price;
      TotalQuantity(r) == TotalQuantity(lines) + 1 && TotalAmount(r) == TotalAmount(lines) + unit
  {
    match Find(lines, barcode)
    case Some(i) =>
      var l := lines[i];
      var l' := l.(quantity := l.quantity + 1);
      TotalUpdate(lines, i, l', Units);
      TotalUpdate(lines, i, l', Amount);
      assert Subtotal(l') == Subtotal(l) + l.price;
    case None =>
      TotalAppend(lines, CartItem(barcode, name, price, 1), Units);
      TotalAppend(lines, CartItem(barcode, name, price, 1), Amount);
  }

  /**
   * Decreasing a barcode the cart does not hold changes nothing. Otherwise
   * its line loses one unit, and a line at one unit disappears; the other
   * lines and their order are untouched, and every line keeps at least one
   * unit.
   */
  lemma DecrementEffect(lines: seq<CartItem>, barcode: string)
    requires ValidLines(lines)
    ensures var r := Decremented(lines, barcode);
      && ValidLines(r)
      && (LineOf(lines, barcode).None? ==> r == lines)
      && (forall x | x != barcode :: LineOf(r, x) == LineOf(lines, x))
      && (match LineOf(lines, barcode)
          case None => true
          case Some(l) =>
            if l.quantity == 1 then LineOf(r, barcode).None? && KeyOrder(r) == Without(KeyOrder(lines), barcode)
            else LineOf(r, barcode) == Some(l.(quantity := l.quantity - 1)) && KeyOrder(r) == KeyOrder(lines))
  {
    var r := Decremented(lines, barcode);
    match Find(lines, barcode)
    case None =>
    case Some(i) =>
      if lines[i].quantity == 1 {
        EraseEffect(lines, i);
      } else {
        assert KeyOrder(r) == KeyOrder(lines);
        forall x ensures Find(r, x) == Find(lines, x) {
          FindSameKeys(r, lines, x);
        }
      }
  }

  /** The position in `lines` of the `j`-th line left after cutting out position `i`. */
  function Skip(j: nat, i: nat): nat {
    if j < i then j else j + 1
  }

  /** Every line left after cutting out position `i`, and where it stood. */
  lemma ErasePositions(lines: seq<CartItem>, i: nat)
    requires i < |lines|
    ensures var r := lines[..i] + lines[i + 1..];
      |r| == |lines| - 1 && forall j | 0 <= j < |r| :: r[j] == lines[Skip(j, i)]
  {
  }

  /** Cutting a line out of a valid cart removes exactly that barcode and keeps the rest in order. */
  lemma EraseEffect(lines: seq<CartItem>, i: nat)
    requires ValidLines(lines) && i < |lines|
    ensures var r := lines[..i] + lines[i + 1..]; var b := lines[i].barcode;
      && ValidLines(r)
      && LineOf(r, b).None?
      && (forall x | x != b :: LineOf(r, x) == LineOf(lines, x))
      && KeyOrder(r) == Without(KeyOrder(lines), b)
  {
    var r := lines[..i] + lines[i + 1..];
    var b := lines[i].barcode;
    ErasePositions(lines, i);
    assert ValidLines(r) by {
      forall j, k | 0 <= j < k < |r| ensures r[j].barcode != r[k].barcode {
        assert Skip(j, i) < Skip(k, i);
      }
    }
    EraseKeys(lines, i);
    forall x | x != b ensures LineOf(r, x) == LineOf(lines, x) {
      EraseLookup(lines, i, x);
    }
  }

  lemma EraseKeys(lines: seq<CartItem>, i: nat)
    requires ValidLines(lines) && i < |lines|
    ensures var r := lines[..i] + lines[i + 1..];
      KeyOrder(r) == Without(KeyOrder(lines), lines[i].barcode) && LineOf(r, lines[i].barcode).None?
  {
    var r := lines[..i] + lines[i + 1..];
    ErasePositions(lines, i);
    assert KeyOrder(r) == KeyOrder(lines)[..i] + KeyOrder(lines)[i + 1..];
    WithoutAt(KeyOrder(lines), i);
    assert forall j | 0 <= j < |r| :: r[j].barcode != lines[i].barcode;
  }

  lemma EraseLookup(lines: seq<CartItem>, i: nat, x: string)
    requires ValidLines(lines) && i < |lines| && x != lines[i].barcode
    ensures LineOf(lines[..i] + lines[i + 1..], x) == LineOf(lines, x)
  {
    var r := lines[..i] + lines[i + 1..];
    ErasePositions(lines, i);
    match Find(lines, x)
    case None =>
      assert forall j | 0 <= j < |r| :: r[j].barcode != x;
    case Some(k) =>
      var k' := if k < i then k else k - 1;
      assert Skip(k', i) == k;
      assert forall j | 0 <= j < k' :: r[j].barcode != x by {
        forall j | 0 <= j < k' ensures r[j].barcode != x {
          assert Skip(j, i) < k;
        }
      }
      FindAt(r, x, k');
  }

  /** Deleting a one-unit line takes one unit and its price off the totals. */
  lemma EraseUnitTotals(lines: seq<CartItem>, i: nat)
    requires i < |lines| && lines[i].quantity == 1
    ensures var r := lines[..i] + lines[i + 1..];
      TotalQuantity(r) == TotalQuantity(lines) - 1 && TotalAmount(r) == TotalAmount(lines) - lines[i].price
  {
    TotalErase(lines, i, Units);
    TotalErase(lines, i, Amount);
    assert Subtotal(lines[i]) == lines[i].price * 1;
  }

  /** Taking one unit off a line takes one unit and its price off the totals. */
  lemma LowerUnitTotals(lines: seq<CartItem>, i: nat)
    requires i < |lines|
    ensures var r := lines[i := lines[i].(quantity := lines[i].quantity - 1)];
      TotalQuantity(r) == TotalQuantity(lines) - 1 && TotalAmount(r) == TotalAmount(lines) - lines[i].price
  {
    var l := lines[i];
    var l' := l.(quantity := l.quantity - 1);
    TotalUpdate(lines, i, l', Units);
    TotalUpdate(lines, i, l', Amount);
    assert Subtotal(l') == l.price * l.quantity - l.price;
  }

  /** Decreasing a barcode the cart holds removes one unit and one unit price from the totals. */
  lemma DecrementTotals(lines: seq<CartItem>, barcode: string)
    requires ValidLines(lines) && LineOf(lines, barcode).Some?
    ensures var r := Decremented(lines, barcode); var l := LineOf(lines, barcode).value;
      TotalQuantity(r) == TotalQuantity(lines) - 1 && TotalAmount(r) == TotalAmount(lines) - l.price
  {
    var i := Find(lines, barcode).value;
    assert LineOf(lines, barcode).value == lines[i];
    if lines[i].quantity == 1 {
      assert Decremented(lines, barcode) == lines[..i] + lines[i + 1..];
      EraseUnitTotals(lines, i);
    } else {
      assert Decremented(lines, barcode) == lines[i := lines[i].(quantity := lines[i].quantity - 1)];
      LowerUnitTotals(lines, i);
    }
  }

  /**
   * Removing a barcode the cart does not hold changes nothing; otherwise its
   * line disappears and the rest keep their contents and order.
   */
  lemma RemoveEffect(lines: seq<CartItem>, barcode: string)
    requires ValidLines(lines)
    ensures var r := Removed(lines, barcode);
      && ValidLines(r)
      && (LineOf(lines, barcode).None? ==> r == lines)
      && LineOf(r, barcode).None?
      && (forall x | x != barcode :: LineOf(r, x) == LineOf(lines, x))
      && KeyOrder(r) == Without(KeyOrder(lines), barcode)
  {
    match Find(lines, barcode)
    case None =>
      assert barcode !in KeyOrder(lines);
      WithoutAbsent(KeyOrder(lines), barcode);
    case Some(i) =>
      EraseEffect(lines, i);
  }

  /** Removing a line takes its quantity and its subtotal off the totals. */
  lemma RemoveTotals(lines: seq<CartItem>, barcode: string)
    requires LineOf(lines, barcode).Some?
    ensures var r := Removed(lines, barcode); var l := LineOf(lines, barcode).value;
      TotalQuantity(r) == TotalQuantity(lines) - l.quantity && TotalAmount(r) == TotalAmount(lines) - Subtotal(l)
  {
    var i := Find(lines, barcode).value;
    TotalErase(lines, i, Units);
    TotalErase(lines, i, Amount);
  }

  /**
   * The same barcode added twice to an empty cart makes one line of two
   * units at the first add's name and price, however the second add found
   * it, and the total amount is twice that price.
   */
  lemma AddTwiceFromEmpty(barcode: string, name: string, price: int, name2: string, price2: int)
    ensures var r := AddOne(AddOne([], barcode, name, price), barcode, name2, price2);
      r == [CartItem(barcode, name, price, 2)] && TotalQuantity(r) == 2 && TotalAmount(r) == 2 * price
  {
    var once := AddOne([], barcode, name, price);
    assert once == [CartItem(barcode, name, price, 1)];
    assert Find(once, barcode) == Some(0);
    var r := AddOne(once, barcode, name2, price2);
    assert r == [CartItem(barcode, name, price, 2)];
    assert r[..0] == [];
    assert TotalQuantity(r) == Total(r[..0], Units) + 2;
    assert TotalAmount(r) == Total(r[..0], Amount) + price * 2;
  }
}
