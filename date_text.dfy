/**
 * Dates written as zero-padded "YYYY-MM-DD" text, the form the holiday table stores and
 * is queried with, and why comparing such texts as strings compares the dates.
 */
module DateText {
  import opened Calendar
  import opened SqlText

  function Pow10(w: nat): (p: nat)
    ensures p >= 1
  {
    if w == 0 then 1 else 10 * Pow10(w - 1)
  }

  function DigitChar(v: nat): char
    requires v < 10
  {
    ('0' as int + v) as char
  }

  /** n written in decimal with exactly w digits, padded with leading zeros. */
  function Digits(n: nat, w: nat): (s: string)
    ensures |s| == w
  {
    if w == 0 then [] else Digits(n / 10, w - 1) + [DigitChar(n % 10)]
  }

  /** A date within years 0..9999, as "YYYY-MM-DD" with the month counted from 1. */
  predicate Writable(d: Date)
  {
    ValidDate(d) && 0 <= d.year <= 9999
  }

  function Format(d: Date): (s: string)
    requires Writable(d)
    ensures |s| == 10 && s[4] == '-' && s[7] == '-'
  {
    Digits(d.year, 4) + ("-" + (Digits(d.month + 1, 2) + ("-" + Digits(d.day, 2))))
  }

  /** Same-width decimal texts compare as the numbers they write, and are equal only for equal numbers. */
  lemma {:induction false} DigitsOrder(n: nat, m: nat, w: nat)
    requires n < Pow10(w) && m < Pow10(w)
    ensures TextLess(Digits(n, w), Digits(m, w)) <==> n < m
    ensures Digits(n, w) == Digits(m, w) <==> n == m
  {
    if w == 0 {
      assert n == 0 && m == 0;
    } else {
      var a1, b1 := Digits(n / 10, w - 1), Digits(m / 10, w - 1);
      var a2, b2 := [DigitChar(n % 10)], [DigitChar(m % 10)];
      DigitsOrder(n / 10, m / 10, w - 1);
      TextLessConcat(a1, a2, b1, b2);
      assert TextLess(a2, b2) <==> n % 10 < m % 10 by {
        assert a2[1..] == [] && b2[1..] == [];
      }
      assert a1 + a2 == b1 + b2 <==> a1 == b1 && a2 == b2 by {
        if a1 + a2 == b1 + b2 {
          assert (a1 + a2)[..w - 1] == a1 && (b1 + b2)[..w - 1] == b1;
          assert (a1 + a2)[w - 1] == a2[0] && (b1 + b2)[w - 1] == b2[0];
        }
      }
      assert n == 10 * (n / 10) + n % 10 && m == 10 * (m / 10) + m % 10;
    }
  }

  /** A separator followed by texts of equal length compares as those texts. */
  lemma DashThen(a: string, b: string)
    ensures TextLess("-" + a, "-" + b) <==> TextLess(a, b)
    ensures "-" + a == "-" + b <==> a == b
  {
    assert ("-" + a)[1..] == a && ("-" + b)[1..] == b;
  }

  /** Texts joined by "-" whose first parts have equal widths compare by the first parts, then the second. */
  lemma DashJoinOrder(p1: string, p2: string, q1: string, q2: string)
    requires |p1| == |q1|
    ensures TextLess(p1 + ("-" + p2), q1 + ("-" + q2)) <==> TextLess(p1, q1) || (p1 == q1 && TextLess(p2, q2))
    ensures p1 + ("-" + p2) == q1 + ("-" + q2) <==> p1 == q1 && p2 == q2
  {
    DashThen(p2, q2);
    TextLessConcat(p1, "-" + p2, q1, "-" + q2);
    ConcatEqual(p1, "-" + p2, q1, "-" + q2);
  }

  /**
   * For writable dates, the text order SQLite uses is the calendar order, and the
   * texts are equal exactly for equal dates.
   */
  lemma FormatOrder(a: Date, b: Date)
    requires Writable(a) && Writable(b)
    ensures TextLess(Format(a), Format(b)) <==> DateBefore(a, b)
    ensures Format(a) == Format(b) <==> a == b
  {
    WritableFits(a);
    WritableFits(b);
    var ya, ma, da := Digits(a.year, 4), Digits(a.month + 1, 2), Digits(a.day, 2);
    var yb, mb, db := Digits(b.year, 4), Digits(b.month + 1, 2), Digits(b.day, 2);
    DigitsOrder(a.year, b.year, 4);
    DigitsOrder(a.month + 1, b.month + 1, 2);
    DigitsOrder(a.day, b.day, 2);
    DashJoinOrder(ma, da, mb, db);
    DashJoinOrder(ya, ma + ("-" + da), yb, mb + ("-" + db));
  }

  lemma WritableFits(d: Date)
    requires Writable(d)
    ensures d.year < Pow10(4) && d.month + 1 < Pow10(2) && d.day < Pow10(2)
  {
    assert Pow10(2) == 100 && Pow10(4) == 10000;
  }

  lemma ConcatEqual(a1: string, a2: string, b1: string, b2: string)
    requires |a1| == |b1|
    ensures a1 + a2 == b1 + b2 <==> a1 == b1 && a2 == b2
  {
    if a1 + a2 == b1 + b2 {
      assert (a1 + a2)[..|a1|] == a1 && (b1 + b2)[..|b1|] == b1;
      assert (a1 + a2)[|a1|..] == a2 && (b1 + b2)[|b1|..] == b2;
    }
  }

  /** The same, as BETWEEN sees it: lo <= x as texts iff lo is not after x as dates. */
  lemma FormatLessEq(a: Date, b: Date)
    requires Writable(a) && Writable(b)
    ensures TextLessEq(Format(a), Format(b)) <==> DayNumber(a) <= DayNumber(b)
  {
    FormatOrder(a, b);
    DayNumberMonotone(a, b);
    if DayNumber(a) == DayNumber(b) {
      DayNumberInjective(a, b);
    }
  }

  /** SUBSTR(date, 1, 4) of a written date is its year. */
  lemma YearOfFormat(d: Date)
    requires Writable(d)
    ensures Prefix(Format(d), 4) == Digits(d.year, 4)
  {
  }
}
