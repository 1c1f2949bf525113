/**
 * The string handling shared by the cart and inventory pages: Python's
 * `str.strip()`, the barcode taken from a `"barcode | name | ¥price"`
 * suggestion line, and the placeholder name of a product missing from the
 * catalog.
 */
module Text {

  /** The characters Python's `str.isspace` (and so `str.strip()`) treats as whitespace. */
  predicate IsSpace(c: char) {
    || ('\t' <= c <= '\r')
    || ('\U{1C}' <= c <= ' ')
    || c == '\U{85}' || c == '\U{A0}' || c == '\U{1680}'
    || ('\U{2000}' <= c <= '\U{200A}')
    || c == '\U{2028}' || c == '\U{2029}' || c == '\U{202F}' || c == '\U{205F}' || c == '\U{3000}'
  }

  predicate AllSpace(s: string) {
    forall i | 0 <= i < |s| :: IsSpace(s[i])
  }

  /** `s` with its leading whitespace removed. */
  function TrimStart(s: string): (r: string)
    ensures |r| <= |s|
    ensures r == [] || !IsSpace(r[0])
  {
    if s != [] && IsSpace(s[0]) then TrimStart(s[1..]) else s
  }

  /** Trimming the front removes a run of whitespace and keeps the rest as it was. */
  lemma {:induction false} TrimStartDrops(s: string)
    ensures var r := TrimStart(s);
      && r == s[|s| - |r|..]
      && forall i | 0 <= i < |s| - |r| :: IsSpace(s[i])
    decreases |s|
  {
    if s != [] && IsSpace(s[0]) {
      var r := TrimStart(s);
      TrimStartDrops(s[1..]);
      assert s[1..][|s| - 1 - |r|..] == s[|s| - |r|..];
      forall i | 0 <= i < |s| - |r| ensures IsSpace(s[i]) {
        if i > 0 {
          assert s[i] == s[1..][i - 1];
        }
      }
    }
  }

  /** `s` with its trailing whitespace removed. */
  function TrimEnd(s: string): (r: string)
    ensures |r| <= |s|
    ensures r == [] || !IsSpace(r[|r| - 1])
  {
    if s != [] && IsSpace(s[|s| - 1]) then TrimEnd(s[..|s| - 1]) else s
  }

  /** Trimming the back removes a run of whitespace and keeps the rest as it was. */
  lemma {:induction false} TrimEndDrops(s: string)
    ensures var r := TrimEnd(s);
      && r == s[..|r|]
      && forall i | |r| <= i < |s| :: IsSpace(s[i])
    decreases |s|
  {
    if s != [] && IsSpace(s[|s| - 1]) {
      var r := TrimEnd(s);
      TrimEndDrops(s[..|s| - 1]);
      assert s[..|s| - 1][..|r|] == s[..|r|];
      forall i | |r| <= i < |s| ensures IsSpace(s[i]) {
        if i < |s| - 1 {
          assert s[i] == s[..|s| - 1][i];
        }
      }
    }
  }

  /** Python's `s.strip()`: `s` without its leading and trailing whitespace. */
  function Strip(s: string): (r: string)
    ensures r == [] <==> AllSpace(s)
    ensures r != [] ==> !IsSpace(r[0]) && !IsSpace(r[|r| - 1])
  {
    var t := TrimStart(s);
    TrimStartDrops(s);
    TrimEndDrops(t);
    assert AllSpace(s) ==> t == [] by {
      if t != [] {
        assert t[0] == s[|s| - |t|];
      }
    }
    assert AllSpace(t) ==> t == [];
    TrimEnd(t)
  }

  /**
   * The strip of `s` is the slice of `s` between its leading and trailing
   * whitespace: only whitespace stands before it and only whitespace after.
   */
  lemma StripSlice(s: string)
    ensures var lo := |s| - |TrimStart(s)|;
      && lo + |Strip(s)| <= |s|
      && Strip(s) == s[lo..lo + |Strip(s)|]
      && AllSpace(s[..lo])
      && AllSpace(s[lo + |Strip(s)|..])
  {
    var t := TrimStart(s);
    TrimStartDrops(s);
    TrimEndDrops(t);
    var lo := |s| - |t|;
    var hi := lo + |Strip(s)|;
    assert t[..|Strip(s)|] == s[lo..hi];
    forall i | 0 <= i < |s[..lo]| ensures IsSpace(s[..lo][i]) {
      assert s[..lo][i] == s[i];
    }
    forall i | 0 <= i < |s[hi..]| ensures IsSpace(s[hi..][i]) {
      assert s[hi..][i] == s[hi + i] == t[|Strip(s)| + i];
    }
  }

  /** Stripping twice is stripping once. */
  lemma StripIdempotent(s: string)
    ensures Strip(Strip(s)) == Strip(s)
  {
    var r := Strip(s);
    if r != [] {
      UntouchedByStrip(r);
    }
  }

  /** A string that neither starts nor ends with whitespace is its own strip. */
  lemma UntouchedByStrip(s: string)
    requires s != [] ==> !IsSpace(s[0]) && !IsSpace(s[|s| - 1])
    ensures Strip(s) == s
  {
    var t := TrimStart(s);
    if s != [] {
      assert |s| - |t| == 0;
    }
    assert t == s;
    var r := TrimEnd(t);
    if s != [] {
      assert |r| == |s|;
    }
  }

  const Separator: string := " | "

  /** True when the separator `" | "` occurs in `s` starting at index `k`. */
  predicate SeparatorAt(s: string, k: int) {
    0 <= k && k + |Separator| <= |s| && s[k..k + |Separator|] == Separator
  }

  /** Python's `s.split(" | ", 1)[0]`: the text before the first separator, or all of `s`. */
  function BeforeSeparator(s: string): (r: string)
    ensures |r| <= |s| && r == s[..|r|]
    ensures |r| == |s| || SeparatorAt(s, |r|)
    ensures forall k | 0 <= k < |r| :: !SeparatorAt(s, k)
  {
    if |s| < |Separator| then
      s
    else if s[..|Separator|] == Separator then
      []
    else
      var r := [s[0]] + BeforeSeparator(s[1..]);
      assert forall k | 1 <= k <= |s| - |Separator| :: SeparatorAt(s, k) == SeparatorAt(s[1..], k - 1);
      r
  }

  /** The separator occurs nowhere in `s`. */
  predicate NoSeparator(s: string) {
    forall k | 0 <= k < |s| :: !SeparatorAt(s, k)
  }

  /** The text before the first separator holds no separator. */
  lemma BeforeSeparatorClean(s: string)
    ensures NoSeparator(BeforeSeparator(s))
  {
    var r := BeforeSeparator(s);
    forall k | 0 <= k < |r| ensures !SeparatorAt(r, k) {
      assert !SeparatorAt(s, k);
      if k + |Separator| <= |r| {
        assert r[k..k + |Separator|] == s[..|r|][k..k + |Separator|] == s[k..k + |Separator|];
      }
    }
  }

  /** A slice of a text without separators has none either. */
  lemma SliceClean(s: string, lo: int, hi: int)
    requires NoSeparator(s) && 0 <= lo <= hi <= |s|
    ensures NoSeparator(s[lo..hi])
  {
    var r := s[lo..hi];
    forall k | 0 <= k < |r| ensures !SeparatorAt(r, k) {
      assert !SeparatorAt(s, lo + k);
      if k + |Separator| <= |r| {
        var here, there := r[k..k + |Separator|], s[lo + k..lo + k + |Separator|];
        forall i | 0 <= i < |here| ensures here[i] == there[i] {
          assert here[i] == r[k + i] == s[lo + k + i];
        }
        assert here == there;
      }
    }
  }

  /**
   * The barcode the pages read out of an entry field: the stripped text, cut
   * at the first separator, stripped again. It is empty exactly when the
   * field is blank (the separator starts with a space, so it cannot stand at
   * the start of a stripped text); otherwise it has no whitespace at either
   * end. It never holds the separator.
   */
  function ExtractBarcode(text: string): (barcode: string)
    ensures barcode == [] <==> Strip(text) == []
    ensures barcode != [] ==> !IsSpace(barcode[0]) && !IsSpace(barcode[|barcode| - 1])
    ensures NoSeparator(barcode)
  {
    var u := Strip(text);
    var b := BeforeSeparator(u);
    assert u != [] ==> !AllSpace(b) by {
      if u != [] {
        assert !SeparatorAt(u, 0);
        assert b != [] && b[0] == u[0];
      }
    }
    StripSlice(b);
    BeforeSeparatorClean(u);
    var lo := |b| - |TrimStart(b)|;
    SliceClean(b, lo, lo + |Strip(b)|);
    Strip(b)
  }

  /**
   * A barcode read out of a field reads back as itself: it has no
   * whitespace at either end and no separator inside, so the same field
   * holding only that barcode yields it unchanged.
   */
  lemma ExtractBarcodeIdempotent(text: string)
    ensures ExtractBarcode(ExtractBarcode(text)) == ExtractBarcode(text)
  {
    var r := ExtractBarcode(text);
    UntouchedByStrip(r);
    assert BeforeSeparator(r) == r;
  }

  /** `s` ends in a space followed by a bar, the first two characters of the separator. */
  predicate EndsInBar(s: string) {
    |s| >= 2 && s[|s| - 2] == ' ' && s[|s| - 1] == '|'
  }

  /**
   * Reading a suggestion line `barcode + " | " + rest` back gives the
   * barcode it was built from, for any barcode a field can yield (non-empty,
   * its own strip, no separator inside) that does not end in `" |"`, and
   * any tail that does not end in whitespace.
   */
  lemma ExtractFromSuggestion(barcode: string, rest: string)
    requires barcode != [] && Strip(barcode) == barcode && NoSeparator(barcode) && !EndsInBar(barcode)
    requires rest != [] && !IsSpace(rest[|rest| - 1])
    ensures ExtractBarcode(barcode + Separator + rest) == barcode
  {
    var s := barcode + Separator + rest;
    var n := |barcode|;
    assert !IsSpace(barcode[0]) && !IsSpace(barcode[n - 1]);
    UntouchedByStrip(s);
    var b := BeforeSeparator(s);
    assert SeparatorAt(s, n) by {
      assert s[n..n + |Separator|] == Separator;
    }
    forall k | 0 <= k < n ensures !SeparatorAt(s, k) {
      if k + |Separator| <= |s| {
        var w := s[k..k + |Separator|];
        if k + |Separator| <= n {
          assert !SeparatorAt(barcode, k);
          assert barcode[k..k + |Separator|] == w;
        } else if k == n - 2 {
          assert w[0] == barcode[n - 2] && w[1] == barcode[n - 1];
        } else {
          assert w[0] == barcode[n - 1];
        }
      }
    }
    assert |b| == n;
    assert b == s[..n] == barcode;
    UntouchedByStrip(barcode);
  }

  /** The Chinese label "temporary product-" that starts every placeholder name. */
  const PlaceholderPrefix: string := "\U{4E34}\U{65F6}\U{5546}\U{54C1}-"

  /**
   * The name of a product added to the cart without a catalog entry: the
   * label followed by the last four characters of the barcode, or by the
   * whole barcode when it is shorter than four.
   */
  function PlaceholderName(barcode: string): (name: string)
    ensures |name| >= 5 && name[..5] == PlaceholderPrefix
    ensures |barcode| >= 4 ==> |name| == 9 && name[5..] == barcode[|barcode| - 4..]
    ensures |barcode| < 4 ==> name[5..] == barcode
  {
    PlaceholderPrefix + (if |barcode| >= 4 then barcode[|barcode| - 4..] else barcode)
  }
}
