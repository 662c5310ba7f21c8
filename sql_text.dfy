/**
 * The three pieces of SQLite's text semantics the holiday queries use: comparison of
 * two texts (BINARY collation), SUBSTR(x, 1, n) and LIKE.
 */
module SqlText {

  /**
   * BINARY collation: texts compare character by character, and a proper prefix comes
   * first. (SQLite compares UTF-8 bytes; UTF-8 keeps the order of code points.)
   */
  predicate TextLess(a: string, b: string)
  {
    if a == [] then b != []
    else if b == [] then false
    else a[0] < b[0] || (a[0] == b[0] && TextLess(a[1..], b[1..]))
  }

  predicate TextLessEq(a: string, b: string)
  {
    a == b || TextLess(a, b)
  }

  /** `x BETWEEN lo AND hi`: lo <= x and x <= hi, both ends included. */
  predicate Between(x: string, lo: string, hi: string)
  {
    TextLessEq(lo, x) && TextLessEq(x, hi)
  }

  lemma {:induction false} TextLessIrreflexive(a: string)
    ensures !TextLess(a, a)
    decreases |a|
  {
    if a != [] {
      TextLessIrreflexive(a[1..]);
    }
  }

  lemma {:induction false} TextLessTransitive(a: string, b: string, c: string)
    requires TextLess(a, b) && TextLess(b, c)
    ensures TextLess(a, c)
    decreases |a|
  {
    if a != [] && a[0] == b[0] && b[0] == c[0] {
      TextLessTransitive(a[1..], b[1..], c[1..]);
    }
  }

  /** Any two texts are equal or ordered one way or the other. */
  lemma {:induction false} TextLessTotal(a: string, b: string)
    ensures a == b || TextLess(a, b) || TextLess(b, a)
    decreases |a|
  {
    if a != [] && b != [] && a[0] == b[0] {
      TextLessTotal(a[1..], b[1..]);
      if a[1..] == b[1..] {
        assert a == [a[0]] + a[1..] && b == [b[0]] + b[1..];
      }
    }
  }

  /**
   * Texts that start with parts of the same length compare by their first parts, and
   * by what follows when those are equal.
   */
  lemma {:induction false} TextLessConcat(a1: string, a2: string, b1: string, b2: string)
    requires |a1| == |b1|
    ensures TextLess(a1 + a2, b1 + b2) <==> TextLess(a1, b1) || (a1 == b1 && TextLess(a2, b2))
    decreases |a1|
  {
    if a1 != [] {
      assert (a1 + a2)[0] == a1[0] && (b1 + b2)[0] == b1[0];
      assert (a1 + a2)[1..] == a1[1..] + a2 && (b1 + b2)[1..] == b1[1..] + b2;
      TextLessConcat(a1[1..], a2, b1[1..], b2);
      if a1[0] == b1[0] && a1[1..] == b1[1..] {
        assert a1 == [a1[0]] + a1[1..] && b1 == [b1[0]] + b1[1..];
      }
      if a1 == b1 {
        assert a1[1..] == b1[1..];
      }
    } else {
      assert a1 + a2 == a2 && b1 + b2 == b2;
    }
  }

  /** SUBSTR(s, 1, n): the first n characters of s, or all of s when it is shorter. */
  function Prefix(s: string, n: nat): (r: string)
    ensures |r| <= n && r <= s
    ensures |s| >= n ==> |r| == n
  {
    if |s| <= n then s else s[..n]
  }

  // ---------------------------------------------------------------------------
  // LIKE

  /** LIKE compares ASCII letters without regard to case; no other character is folded. */
  function FoldCase(c: char): (f: char)
    ensures 'A' <= c <= 'Z' ==> 'a' <= f <= 'z'
    ensures !('A' <= c <= 'Z') ==> f == c
  {
    if 'A' <= c <= 'Z' then (c as int - 'A' as int + 'a' as int) as char else c
  }

  /** One pattern character against one text character: `_` matches anything. */
  predicate CharLike(p: char, c: char)
  {
    p == '_' || FoldCase(p) == FoldCase(c)
  }

  /** `s LIKE p` with no ESCAPE clause: `%` matches any sequence of characters, `_` any one character. */
  predicate Like(s: string, p: string)
    decreases |s| + |p|
  {
    if p == [] then s == []
    else if p[0] == '%' then Like(s, p[1..]) || (s != [] && Like(s[1..], p))
    else s != [] && CharLike(p[0], s[0]) && Like(s[1..], p[1..])
  }

  /** A pattern that holds no wildcard. */
  predicate Plain(q: string)
  {
    forall i :: 0 <= i < |q| ==> q[i] != '%' && q[i] != '_'
  }

  /** The characters of `a` are those of `q` up to the case of ASCII letters. */
  predicate SameFolded(a: string, q: string)
  {
    |a| == |q| && forall i :: 0 <= i < |a| ==> FoldCase(a[i]) == FoldCase(q[i])
  }

  /** `q` occurs in `s` at some position, up to the case of ASCII letters. */
  predicate ContainsFolded(s: string, q: string)
  {
    exists k :: 0 <= k <= |s| - |q| && OccursAt(s, q, k)
  }

  /** `q` occurs in `s` at position k, up to the case of ASCII letters. */
  predicate OccursAt(s: string, q: string, k: int)
  {
    0 <= k <= |s| - |q| && SameFolded(s[k..k + |q|], q)
  }

  /**
   * `s LIKE '%' || q || '%'` for a wildcard-free q holds exactly when q occurs in s, with
   * ASCII letters matched regardless of case.
   */
  lemma LikeInfix(s: string, q: string)
    requires Plain(q)
    ensures Like(s, "%" + q + "%") <==> ContainsFolded(s, q)
  {
    var r := q + "%";
    assert "%" + q + "%" == "%" + r;
    LikeLeadingPercent(s, r);
    if Like(s, "%" + r) {
      var k :| 0 <= k <= |s| && Like(s[k..], r);
      LikePrefix(s[k..], q);
      assert s[k..][..|q|] == s[k..k + |q|];
      assert OccursAt(s, q, k);
    }
    if ContainsFolded(s, q) {
      var k :| 0 <= k <= |s| - |q| && OccursAt(s, q, k);
      assert SameFolded(s[k..k + |q|], q);
      assert s[k..][..|q|] == s[k..k + |q|];
      LikePrefix(s[k..], q);
      assert 0 <= k <= |s| && Like(s[k..], r);
    }
  }

  /** A leading `%` lets the rest of the pattern match any suffix of the text. */
  lemma {:induction false} LikeLeadingPercent(s: string, r: string)
    ensures Like(s, "%" + r) <==> exists k :: 0 <= k <= |s| && Like(s[k..], r)
    decreases |s|
  {
    var p := "%" + r;
    assert p[0] == '%' && p[1..] == r;
    assert s[0..] == s;
    if s != [] {
      LikeLeadingPercent(s[1..], r);
      if exists k :: 0 <= k <= |s[1..]| && Like(s[1..][k..], r) {
        var k :| 0 <= k <= |s[1..]| && Like(s[1..][k..], r);
        assert s[k + 1..] == s[1..][k..];
      }
      if exists k :: 0 <= k <= |s| && Like(s[k..], r) {
        var k :| 0 <= k <= |s| && Like(s[k..], r);
        if k > 0 {
          assert s[1..][k - 1..] == s[k..];
        }
      }
    }
  }

  /** A trailing `%` after a wildcard-free q: the text starts with q, up to case. */
  lemma {:induction false} LikePrefix(s: string, q: string)
    requires Plain(q)
    ensures Like(s, q + "%") <==> |q| <= |s| && SameFolded(s[..|q|], q)
    decreases |q|
  {
    var p := q + "%";
    if q == [] {
      assert p == "%";
      LikeAnything(s);
    } else {
      assert p[0] == q[0] && p[1..] == q[1..] + "%";
      assert Plain(q[1..]) by {
        forall i | 0 <= i < |q[1..]| ensures q[1..][i] != '%' && q[1..][i] != '_' {
          assert q[1..][i] == q[i + 1];
        }
      }
      assert q[0] != '%' && q[0] != '_';
      if s != [] {
        LikePrefix(s[1..], q[1..]);
        if |q| <= |s| {
          assert s[1..][..|q[1..]|] == s[..|q|][1..];
          SameFoldedCons(s[..|q|], q);
        }
      }
    }
  }

  /** `%` alone matches every text. */
  lemma {:induction false} LikeAnything(s: string)
    ensures Like(s, "%")
    decreases |s|
  {
    assert "%"[1..] == [];
    if s != [] {
      LikeAnything(s[1..]);
    }
  }

  lemma SameFoldedCons(a: string, q: string)
    requires |a| == |q| > 0
    ensures SameFolded(a, q) <==> FoldCase(a[0]) == FoldCase(q[0]) && SameFolded(a[1..], q[1..])
  {
    if FoldCase(a[0]) == FoldCase(q[0]) && SameFolded(a[1..], q[1..]) {
      forall i | 0 <= i < |a| ensures FoldCase(a[i]) == FoldCase(q[i]) {
        if i > 0 {
          assert a[1..][i - 1] == a[i] && q[1..][i - 1] == q[i];
        }
      }
    }
    if SameFolded(a, q) {
      forall i | 0 <= i < |a[1..]| ensures FoldCase(a[1..][i]) == FoldCase(q[1..][i]) {
        assert a[1..][i] == a[i + 1] && q[1..][i] == q[i + 1];
      }
    }
  }

  /** For a q without ASCII letters, matching up to case is plain equality. */
  lemma SameFoldedIsEqual(a: string, q: string)
    requires forall i :: 0 <= i < |q| ==> !('A' <= q[i] <= 'Z') && !('a' <= q[i] <= 'z')
    ensures SameFolded(a, q) <==> a == q
  {
    if SameFolded(a, q) {
      forall i | 0 <= i < |a| ensures a[i] == q[i] {
        assert FoldCase(a[i]) == FoldCase(q[i]);
      }
    }
  }
}
