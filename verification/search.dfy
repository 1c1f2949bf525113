/**
 * `search_products`: newest-first listing for a blank query; for any other
 * query, the rows whose barcode starts with it or whose name contains it
 * (SQLite `LIKE`), barcode matches first, newest first within each group,
 * cut to `limit` rows.
 */
module CatalogSearch {

  import opened Text
  import opened SqlLike
  import opened Catalog

  /** `b` is one of the rows `keys` updated last. */
  ghost predicate IsNewest(t: Table, keys: set<string>, b: string)
    requires keys <= t.Keys
  {
    b in keys && forall k | k in keys :: t[k].updatedAt <= t[b].updatedAt
  }

  /** One of the rows `keys` updated last; among rows with equal timestamps, any one. */
  ghost function Newest(t: Table, keys: set<string>): (b: string)
    requires keys != {} && keys <= t.Keys
    ensures IsNewest(t, keys, b)
  {
    NewestExists(t, keys);
    var b :| IsNewest(t, keys, b);
    b
  }

  lemma {:induction false} NewestExists(t: Table, keys: set<string>)
    requires keys != {} && keys <= t.Keys
    ensures exists b :: IsNewest(t, keys, b)
    decreases keys
  {
    var a :| a in keys;
    var rest := keys - {a};
    if rest == {} {
      assert keys == {a} by {
        assert keys == rest + {a};
      }
      assert IsNewest(t, keys, a);
    } else {
      NewestExists(t, rest);
      var c :| IsNewest(t, rest, c);
      if t[a].updatedAt >= t[c].updatedAt {
        assert IsNewest(t, keys, a);
      } else {
        assert IsNewest(t, keys, c);
      }
    }
  }

  /** The rows `keys` in `ORDER BY updated_at DESC` order. */
  ghost function ByRecency(t: Table, keys: set<string>): (r: seq<string>)
    requires keys <= t.Keys
    ensures forall i | 0 <= i < |r| :: r[i] in keys
    decreases keys
  {
    if keys == {} then []
    else
      var b := Newest(t, keys);
      [b] + ByRecency(t, keys - {b})
  }

  predicate Distinct(s: seq<string>) {
    forall i, j | 0 <= i < j < |s| :: s[i] != s[j]
  }

  /** `s` lists the rows newest first. */
  ghost predicate NewestFirst(t: Table, s: seq<string>) {
    forall i, j | 0 <= i < j < |s| :: s[i] in t && s[j] in t ==> t[s[i]].updatedAt >= t[s[j]].updatedAt
  }

  lemma {:induction false} ByRecencyFacts(t: Table, keys: set<string>)
    requires keys <= t.Keys
    ensures forall x :: x in ByRecency(t, keys) <==> x in keys
    ensures Distinct(ByRecency(t, keys))
    ensures NewestFirst(t, ByRecency(t, keys))
    decreases keys
  {
    if keys != {} {
      var b := Newest(t, keys);
      var rest := ByRecency(t, keys - {b});
      ByRecencyFacts(t, keys - {b});
      var r := [b] + rest;
      assert ByRecency(t, keys) == r;
      forall i, j | 0 <= i < j < |r| ensures r[i] != r[j] && t[r[i]].updatedAt >= t[r[j]].updatedAt {
        assert r[j] == rest[j - 1];
        if i > 0 {
          assert r[i] == rest[i - 1];
        }
      }
      forall x | x in keys ensures x in r {
        if x != b {
          assert x in rest;
        }
      }
    }
  }

  /**
   * The sort class of a row for the stripped query `q`: 0 for a barcode
   * prefix match (every row, when `q` is empty), 1 for a name-only match,
   * 2 for a row the query does not return.
   */
  function Rank(t: Table, q: string, b: string): nat
    requires b in t
  {
    if q == [] || Like(q + "%", b) then 0
    else if Like("%" + q + "%", t[b].name) then 1
    else 2
  }

  /**
   * For a query without wildcards, class 0 is "the barcode starts with the
   * query" and class 1 is "the name, but not the barcode, contains it",
   * ASCII letters compared without case.
   */
  lemma RankMeaning(t: Table, q: string, b: string)
    requires b in t && q != [] && Literal(q)
    ensures Rank(t, q, b) == 0 <==> FoldedAt(q, b, 0)
    ensures Rank(t, q, b) == 1 <==> !FoldedAt(q, b, 0) && exists at :: FoldedAt(q, t[b].name, at)
  {
    LikePrefix(q, b);
    LikeContains(q, t[b].name);
  }

  /** `a` may stand before `b` in a result: lower class first, then newer first. */
  ghost predicate Precedes(t: Table, q: string, a: string, b: string)
    requires a in t && b in t
  {
    Rank(t, q, a) < Rank(t, q, b) || (Rank(t, q, a) == Rank(t, q, b) && t[a].updatedAt >= t[b].updatedAt)
  }

  /** The rows of `s` in class `k`, in the order of `s`. */
  function Select(t: Table, q: string, s: seq<string>, k: nat): (r: seq<string>)
    requires forall i | 0 <= i < |s| :: s[i] in t
    ensures forall i | 0 <= i < |r| :: r[i] in t && Rank(t, q, r[i]) == k
  {
    if s == [] then []
    else (if Rank(t, q, s[0]) == k then [s[0]] else []) + Select(t, q, s[1..], k)
  }

  lemma {:induction false} SelectFacts(t: Table, q: string, s: seq<string>, k: nat)
    requires forall i | 0 <= i < |s| :: s[i] in t
    requires Distinct(s) && NewestFirst(t, s)
    ensures forall x :: x in Select(t, q, s, k) <==> x in s && Rank(t, q, x) == k
    ensures Distinct(Select(t, q, s, k)) && NewestFirst(t, Select(t, q, s, k))
  {
    if s != [] {
      var rest := Select(t, q, s[1..], k);
      assert Distinct(s[1..]) && NewestFirst(t, s[1..]) by {
        forall i, j | 0 <= i < j < |s| - 1 ensures s[1..][i] != s[1..][j] && t[s[1..][i]].updatedAt >= t[s[1..][j]].updatedAt {
          assert s[1..][i] == s[i + 1] && s[1..][j] == s[j + 1];
        }
      }
      SelectFacts(t, q, s[1..], k);
      if Rank(t, q, s[0]) == k {
        var r := [s[0]] + rest;
        assert Select(t, q, s, k) == r;
        forall j | 0 <= j < |rest| ensures s[0] != rest[j] && t[s[0]].updatedAt >= t[rest[j]].updatedAt {
          var m :| 0 <= m < |s[1..]| && s[1..][m] == rest[j];
          assert s[m + 1] == rest[j];
        }
        forall i, j | 0 <= i < j < |r| ensures r[i] != r[j] && t[r[i]].updatedAt >= t[r[j]].updatedAt {
          assert r[j] == rest[j - 1];
          if i > 0 {
            assert r[i] == rest[i - 1];
          }
        }
      } else {
        assert Select(t, q, s, k) == rest;
      }
    }
  }

  /** Every row the stripped query `q` returns, in result order, before the limit. */
  ghost function Hits(t: Table, q: string): (r: seq<string>)
    ensures forall i | 0 <= i < |r| :: r[i] in t
  {
    var order := ByRecency(t, t.Keys);
    if q == [] then order else Select(t, q, order, 0) + Select(t, q, order, 1)
  }

  /** `LIMIT limit`: SQLite reads a negative limit as no limit at all. */
  function Take<T>(s: seq<T>, limit: int): (r: seq<T>)
    ensures |r| <= |s| && forall i | 0 <= i < |r| :: r[i] == s[i]
    ensures limit >= 0 ==> |r| <= limit
    ensures |r| < |s| ==> |r| == limit
  {
    if 0 <= limit < |s| then s[..limit] else s
  }

  function Products(t: Table, bs: seq<string>): (r: seq<Product>)
    requires forall i | 0 <= i < |bs| :: bs[i] in t
    ensures |r| == |bs| && forall i | 0 <= i < |r| :: r[i] == AsProduct(t, bs[i])
  {
    seq(|bs|, i requires 0 <= i < |bs| => AsProduct(t, bs[i]))
  }

  /**
   * `search_products(query, limit)`: at most `limit` products (any number
   * for a negative limit), each exactly as stored.
   */
  ghost function Search(t: Table, query: string, limit: int): (r: seq<Product>)
    ensures limit >= 0 ==> |r| <= limit
    ensures forall i | 0 <= i < |r| :: r[i].barcode in t && r[i] == AsProduct(t, r[i].barcode)
  {
    var hits := Hits(t, Strip(query));
    Products(t, Take(hits, limit))
  }

  /** The unlimited result holds exactly the matching rows (every row for a blank query). */
  lemma HitsMembers(t: Table, q: string)
    ensures forall x :: x in Hits(t, q) <==> x in t && Rank(t, q, x) <= 1
  {
    var order := ByRecency(t, t.Keys);
    ByRecencyFacts(t, t.Keys);
    if q != [] {
      var a := Select(t, q, order, 0);
      var b := Select(t, q, order, 1);
      SelectFacts(t, q, order, 0);
      SelectFacts(t, q, order, 1);
      assert Hits(t, q) == a + b;
    }
  }

  /**
   * Class-0 rows followed by class-1 rows, each part duplicate-free and
   * newest first, make a duplicate-free sequence in result order.
   */
  lemma ClassesInOrder(t: Table, q: string, a: seq<string>, b: seq<string>)
    requires forall i | 0 <= i < |a| :: a[i] in t && Rank(t, q, a[i]) == 0
    requires forall i | 0 <= i < |b| :: b[i] in t && Rank(t, q, b[i]) == 1
    requires Distinct(a) && NewestFirst(t, a) && Distinct(b) && NewestFirst(t, b)
    ensures var h := a + b;
      forall i, j | 0 <= i < j < |h| :: h[i] != h[j] && Precedes(t, q, h[i], h[j])
  {
    var h := a + b;
    forall i, j | 0 <= i < j < |h| ensures h[i] != h[j] && Precedes(t, q, h[i], h[j]) {
      if j < |a| {
        assert h[i] == a[i] && h[j] == a[j];
      } else if i >= |a| {
        assert h[i] == b[i - |a|] && h[j] == b[j - |a|];
      } else {
        assert h[i] == a[i] && h[j] == b[j - |a|];
      }
    }
  }

  /** No row comes twice in the unlimited result, and it is in result order. */
  lemma HitsOrder(t: Table, q: string)
    ensures Distinct(Hits(t, q))
    ensures forall i, j | 0 <= i < j < |Hits(t, q)| :: Precedes(t, q, Hits(t, q)[i], Hits(t, q)[j])
  {
    var order := ByRecency(t, t.Keys);
    ByRecencyFacts(t, t.Keys);
    if q != [] {
      var a := Select(t, q, order, 0);
      var b := Select(t, q, order, 1);
      SelectFacts(t, q, order, 0);
      SelectFacts(t, q, order, 1);
      ClassesInOrder(t, q, a, b);
      assert Hits(t, q) == a + b;
    }
  }

  /** The unlimited result holds exactly the matching rows, once each, in result order. */
  lemma HitsFacts(t: Table, q: string)
    ensures forall x :: x in Hits(t, q) <==> x in t && Rank(t, q, x) <= 1
    ensures Distinct(Hits(t, q))
    ensures forall i, j | 0 <= i < j < |Hits(t, q)| :: Precedes(t, q, Hits(t, q)[i], Hits(t, q)[j])
  {
    HitsMembers(t, q);
    HitsOrder(t, q);
  }

  /**
   * Every row a search returns is a stored row, unchanged, that the query
   * matches; no row comes twice; and the result is in result order: barcode
   * matches before name-only matches, newest first within each.
   */
  lemma SearchSound(t: Table, query: string, limit: int)
    ensures var q := Strip(query); var r := Search(t, query, limit);
      && (forall i | 0 <= i < |r| :: r[i].barcode in t && r[i] == AsProduct(t, r[i].barcode) && Rank(t, q, r[i].barcode) <= 1)
      && (forall i, j | 0 <= i < j < |r| :: r[i].barcode != r[j].barcode && Precedes(t, q, r[i].barcode, r[j].barcode))
  {
    var q := Strip(query);
    var h := Hits(t, q);
    HitsFacts(t, q);
    var cut := Take(h, limit);
    var r := Search(t, query, limit);
    assert r == Products(t, cut);
    forall i | 0 <= i < |r| ensures r[i].barcode == h[i] && r[i] == AsProduct(t, h[i]) && Rank(t, q, h[i]) <= 1 {
      assert h[i] in h;
    }
  }

  /**
   * The result has at most `limit` rows (any number for a negative limit),
   * and a matching row is missing from it only when the result is full and
   * every row in it precedes the missing one.
   */
  lemma SearchComplete(t: Table, query: string, limit: int)
    ensures limit >= 0 ==> |Search(t, query, limit)| <= limit
    ensures var q := Strip(query); var r := Search(t, query, limit);
      forall b | b in t && Rank(t, q, b) <= 1 && (forall i | 0 <= i < |r| :: r[i].barcode != b) ::
        0 <= limit == |r| && forall i | 0 <= i < |r| :: Precedes(t, q, r[i].barcode, b)
  {
    var q := Strip(query);
    var h := Hits(t, q);
    HitsFacts(t, q);
    var r := Search(t, query, limit);
    var cut := Take(h, limit);
    assert r == Products(t, cut);
    forall b | b in t && Rank(t, q, b) <= 1 && (forall i | 0 <= i < |r| :: r[i].barcode != b)
      ensures 0 <= limit == |r| && forall i | 0 <= i < |r| :: Precedes(t, q, r[i].barcode, b)
    {
      var m :| 0 <= m < |h| && h[m] == b;
      assert forall i | 0 <= i < |r| :: r[i].barcode == cut[i];
      assert m >= |cut|;
      forall i | 0 <= i < |r| ensures Precedes(t, q, r[i].barcode, b) {
        assert r[i].barcode == h[i];
      }
    }
  }

  /**
   * A product just written comes first in every search that finds it by its
   * barcode, in particular in the newest-first listing of a blank query.
   */
  lemma UpsertedComesFirst(t: Table, now: nat, barcode: string, name: string, price: int, query: string, limit: int)
    requires TableOk(t, now) && price > 0 && limit != 0
    requires Rank(Put(t, now, barcode, name, price), Strip(query), barcode) == 0
    ensures var r := Search(Put(t, now, barcode, name, price), query, limit);
      |r| > 0 && r[0] == Product(barcode, name, price)
  {
    var t' := Put(t, now, barcode, name, price);
    var q := Strip(query);
    var h := Hits(t', q);
    HitsFacts(t', q);
    assert barcode in h;
    var m :| 0 <= m < |h| && h[m] == barcode;
    assert Precedes(t', q, h[0], h[m]) || m == 0;
    assert t'[h[0]].updatedAt < t'[barcode].updatedAt || h[0] == barcode;
    assert h[0] == barcode;
    var r := Search(t', query, limit);
    assert r == Products(t', Take(h, limit));
    assert r[0] == AsProduct(t', h[0]);
  }
}
