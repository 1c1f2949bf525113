/**
 * SQLite's `LIKE` operator as the catalog search uses it: no ESCAPE clause,
 * `%` matches any run of characters, `_` matches one character, and letters
 * are compared without regard to case only in the ASCII range (SQLite's
 * default, without the ICU extension).
 */
module SqlLike {

  /** ASCII upper-case letters fold to lower case; every other character is itself. */
  function Fold(c: char): char {
    if 'A' <= c <= 'Z' then (c as int + 32) as char else c
  }

  /**
   * `s LIKE p`. A pattern without wildcards matches exactly the texts of its
   * own length that equal it with ASCII letters folded.
   */
  function Like(p: string, s: string): (r: bool)
    ensures Literal(p) ==> (r <==> |s| == |p| && FoldedAt(p, s, 0))
    decreases |p| + |s|
  {
    if p == [] then s == []
    else if p[0] == '%' then Like(p[1..], s) || (s != [] && Like(p, s[1..]))
    else if s == [] then false
    else if p[0] == '_' then Like(p[1..], s[1..])
    else
      assert Literal(p) ==> Literal(p[1..]) by {
        if Literal(p) {
          forall i | 0 <= i < |p| - 1 ensures p[1..][i] != '%' && p[1..][i] != '_' {
            assert p[1..][i] == p[i + 1];
          }
        }
      }
      assert |s| == |p| ==> (FoldedAt(p, s, 0) <==> Fold(p[0]) == Fold(s[0]) && FoldedAt(p[1..], s[1..], 0)) by {
        if |s| == |p| && Fold(p[0]) == Fold(s[0]) && FoldedAt(p[1..], s[1..], 0) {
          forall i | 0 <= i < |p| ensures Fold(p[i]) == Fold(s[i]) {
            if i > 0 {
              assert p[i] == p[1..][i - 1] && s[i] == s[1..][i - 1];
            }
          }
        }
        if |s| == |p| && FoldedAt(p, s, 0) {
          forall i | 0 <= i < |p| - 1 ensures Fold(p[1..][i]) == Fold(s[1..][i]) {
            assert p[1..][i] == p[i + 1] && s[1..][i] == s[i + 1];
          }
        }
      }
      Fold(p[0]) == Fold(s[0]) && Like(p[1..], s[1..])
  }

  /** A query without the wildcard characters `%` and `_`. */
  predicate Literal(q: string) {
    forall i | 0 <= i < |q| :: q[i] != '%' && q[i] != '_'
  }

  /** `q` equals `s` at offset `at`, letters compared ASCII-case-insensitively. */
  predicate FoldedAt(q: string, s: string, at: int) {
    0 <= at && at + |q| <= |s| && forall i | 0 <= i < |q| :: Fold(q[i]) == Fold(s[at + i])
  }

  /** A trailing `%` matches everything. */
  lemma {:induction false} PercentMatchesAll(s: string)
    ensures Like("%", s)
  {
    if s != [] {
      PercentMatchesAll(s[1..]);
    }
  }

  /** `s LIKE q || '%'` holds exactly when `s` starts with `q` (ASCII case folded). */
  lemma {:induction false} LikePrefix(q: string, s: string)
    requires Literal(q)
    ensures Like(q + "%", s) <==> FoldedAt(q, s, 0)
    decreases |q|
  {
    if q == [] {
      assert q + "%" == "%";
      PercentMatchesAll(s);
    } else {
      assert (q + "%")[1..] == q[1..] + "%";
      assert Literal(q[1..]);
      if s != [] {
        LikePrefix(q[1..], s[1..]);
        assert FoldedAt(q, s, 0) <==> Fold(q[0]) == Fold(s[0]) && FoldedAt(q[1..], s[1..], 0) by {
          if Fold(q[0]) == Fold(s[0]) && FoldedAt(q[1..], s[1..], 0) {
            forall i | 0 <= i < |q| ensures Fold(q[i]) == Fold(s[i]) {
              if i > 0 {
                assert q[i] == q[1..][i - 1] && s[i] == s[1..][i - 1];
              }
            }
          }
          if FoldedAt(q, s, 0) {
            forall i | 0 <= i < |q| - 1 ensures Fold(q[1..][i]) == Fold(s[1..][0 + i]) {
              assert q[1..][i] == q[i + 1];
            }
          }
        }
      }
    }
  }

  /** `s LIKE '%' || q || '%'` holds exactly when `q` occurs somewhere in `s` (ASCII case folded). */
  lemma {:induction false} LikeContains(q: string, s: string)
    requires Literal(q)
    ensures Like("%" + q + "%", s) <==> exists at :: FoldedAt(q, s, at)
    decreases |s|
  {
    var p := "%" + q + "%";
    assert p[1..] == q + "%";
    LikePrefix(q, s);
    if s == [] {
      assert Like(p, s) == Like(q + "%", s);
      assert forall at | FoldedAt(q, s, at) :: at == 0;
    } else {
      LikeContains(q, s[1..]);
      assert Like(p, s) == (Like(q + "%", s) || Like(p, s[1..]));
      if at :| FoldedAt(q, s[1..], at) {
        assert FoldedAt(q, s, at + 1);
      }
      if at :| FoldedAt(q, s, at) && at > 0 {
        assert FoldedAt(q, s[1..], at - 1);
      }
    }
  }
}
