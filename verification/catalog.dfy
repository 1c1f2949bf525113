/**
 * The catalog store: the single `products` table, keyed by barcode, with
 * upsert semantics. The `updated_at` column is a logical clock that every
 * successful write advances, so the row written last is always the newest.
 */
module Catalog {

  import opened Wrappers

  /** The non-key columns of a `products` row. */
  datatype Row = Row(name: string, price: int, updatedAt: nat)

  /** The table: at most one row per barcode, because barcode is the primary key. */
  type Table = map<string, Row>

  /** What a lookup or a search returns: `barcode, name, price`. */
  datatype Product = Product(barcode: string, name: string, price: int)

  /**
   * The table's own guarantees: the `CHECK(price > 0)` constraint, and every
   * timestamp older than the clock.
   */
  ghost predicate TableOk(t: Table, clock: nat) {
    forall b | b in t :: t[b].price > 0 && t[b].updatedAt < clock
  }

  /** The product stored under `barcode`, if any. */
  function AsProduct(t: Table, barcode: string): Product
    requires barcode in t
  {
    Product(barcode, t[barcode].name, t[barcode].price)
  }

  /**
   * `get_product_by_barcode`: an exact-match lookup. A miss is `None`, a hit
   * is the stored row under the barcode asked for.
   */
  function Lookup(t: Table, barcode: string): (r: Option<Product>)
    ensures r.Some? <==> barcode in t
    ensures r.Some? ==> r.value.barcode == barcode && r.value.name == t[barcode].name && r.value.price == t[barcode].price
  {
    if barcode in t then Some(AsProduct(t, barcode)) else None
  }

  /**
   * The table after an `INSERT ... ON CONFLICT(barcode) DO UPDATE` that the
   * price check lets through: the row for `barcode` is created or fully
   * replaced and stamped `now`, and no other row changes.
   */
  function Put(t: Table, now: nat, barcode: string, name: string, price: int): (r: Table)
    ensures Lookup(r, barcode) == Some(Product(barcode, name, price))
    ensures forall b | b != barcode :: Lookup(r, b) == Lookup(t, b)
    ensures r.Keys == t.Keys + {barcode}
    ensures barcode in r && r[barcode].updatedAt == now
    ensures forall b | b in t && b != barcode :: b in r && r[b] == t[b]
    ensures TableOk(t, now) && price > 0 ==> TableOk(r, now + 1)
    ensures TableOk(t, now) ==> forall b | b in r && b != barcode :: r[b].updatedAt < r[barcode].updatedAt
  {
    t[barcode := Row(name, price, now)]
  }

  /**
   * The database handle. Failures of the file system are not modelled; the
   * one failure a write can meet here is the price check.
   */
  class Database {
    var table: Table
    var clock: nat

    ghost predicate Valid()
      reads this
    {
      TableOk(table, clock)
    }

    /** `init_schema` on a store that already holds the rows `existing`. */
    constructor Open(existing: Table, clock: nat)
      requires TableOk(existing, clock)
      ensures Valid() && table == existing && this.clock == clock
    {
      table := existing;
      this.clock := clock;
    }

    /**
     * `upsert_product`: a write with a non-positive price violates the
     * table's check constraint and leaves the store as it was; any other
     * write inserts or overwrites the row and refreshes its timestamp.
     */
    method UpsertProduct(barcode: string, name: string, price: int) returns (ok: bool)
      requires Valid()
      modifies this
      ensures Valid()
      ensures ok <==> price > 0
      ensures ok ==> table == Put(old(table), old(clock), barcode, name, price) && clock == old(clock) + 1
      ensures !ok ==> table == old(table) && clock == old(clock)
    {
      if price <= 0 {
        return false;
      }
      table := Put(table, clock, barcode, name, price);
      clock := clock + 1;
      return true;
    }
  }

  /** Only the last of two writes to one barcode can be observed. */
  lemma LastWriteWins(t: Table, now: nat, barcode: string, name1: string, price1: int, name2: string, price2: int)
    ensures Put(Put(t, now, barcode, name1, price1), now + 1, barcode, name2, price2)
         == Put(t, now + 1, barcode, name2, price2)
  {
  }
}
