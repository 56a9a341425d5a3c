/** The string order the model uses for `String.prototype.localeCompare`
    on the keys the app sorts: code-unit lexicographic order. It agrees
    with locale collation on zero-padded `HH:MM` times and `YYYY-MM-DD`
    date keys, where it is chronological order, but not on strings in
    general (collation ignores case at first and orders `:` before
    digits, so `"1:00"` and `"10:00"` compare the other way). */
module Order {
  import opened Sorting

  /** `a` sorts no later than `b`. */
  predicate LexLe(a: string, b: string) {
    |a| == 0 || (|b| > 0 && (a[0] < b[0] || (a[0] == b[0] && LexLe(a[1..], b[1..]))))
  }

  /** `a` sorts no earlier than `b` (newest-first order on date keys). */
  predicate LexGe(a: string, b: string) {
    LexLe(b, a)
  }

  lemma {:induction false} LexLeTotal(a: string, b: string)
    ensures LexLe(a, b) || LexLe(b, a)
  {
    if |a| > 0 && |b| > 0 && a[0] == b[0] {
      LexLeTotal(a[1..], b[1..]);
    }
  }

  lemma {:induction false} LexLeTransitive(a: string, b: string, c: string)
    requires LexLe(a, b) && LexLe(b, c)
    ensures LexLe(a, c)
  {
    if |a| > 0 && a[0] == b[0] && b[0] == c[0] {
      LexLeTransitive(a[1..], b[1..], c[1..]);
    }
  }

  lemma LexLeIsTotalPreorder()
    ensures TotalPreorder(LexLe)
  {
    forall a, b ensures LexLe(a, b) || LexLe(b, a) {
      LexLeTotal(a, b);
    }
    forall a, b, c | LexLe(a, b) && LexLe(b, c) ensures LexLe(a, c) {
      LexLeTransitive(a, b, c);
    }
  }

  lemma LexGeIsTotalPreorder()
    ensures TotalPreorder(LexGe)
  {
    forall a, b ensures LexGe(a, b) || LexGe(b, a) {
      LexLeTotal(a, b);
    }
    forall a, b, c | LexGe(a, b) && LexGe(b, c) ensures LexGe(a, c) {
      LexLeTransitive(c, b, a);
    }
  }

  predicate IsDigit(c: char) {
    '0' <= c <= '9'
  }

  function DigitValue(c: char): nat
    requires IsDigit(c)
  {
    (c as int) - ('0' as int)
  }

  /** A zero-padded 24-hour time of day `HH:MM`, the value of an
      `<input type="time">`. */
  predicate IsClockTime(t: string) {
    && |t| == 5
    && IsDigit(t[0]) && IsDigit(t[1]) && t[2] == ':' && IsDigit(t[3]) && IsDigit(t[4])
    && DigitValue(t[0]) * 10 + DigitValue(t[1]) < 24
    && DigitValue(t[3]) * 10 + DigitValue(t[4]) < 60
  }

  /** Minutes since midnight of a clock time. */
  function Minutes(t: string): (m: nat)
    requires IsClockTime(t)
    ensures m < 24 * 60
  {
    (DigitValue(t[0]) * 10 + DigitValue(t[1])) * 60 + DigitValue(t[3]) * 10 + DigitValue(t[4])
  }

  lemma {:induction false} MulLe(a: nat, b: nat, c: nat)
    requires a <= b
    ensures a * c <= b * c
  {
    if c > 0 {
      MulLe(a, b, c - 1);
      assert a * c == a * (c - 1) + a;
      assert b * c == b * (c - 1) + b;
    }
  }

  /** Two-digit numbers compare like their digit pairs. */
  lemma PairOrder(x1: nat, x0: nat, y1: nat, y0: nat, base: nat)
    requires x0 < base && y0 < base
    ensures x1 * base + x0 <= y1 * base + y0 <==> x1 < y1 || (x1 == y1 && x0 <= y0)
  {
    if x1 < y1 {
      MulLe(x1 + 1, y1, base);
      assert (x1 + 1) * base == x1 * base + base;
    } else if x1 > y1 {
      MulLe(y1 + 1, x1, base);
      assert (y1 + 1) * base == y1 * base + base;
    }
  }

  /** One step of the lexicographic comparison. */
  lemma LexLeStep(a: string, b: string)
    requires |a| > 0 && |b| > 0
    ensures LexLe(a, b) <==> a[0] < b[0] || (a[0] == b[0] && LexLe(a[1..], b[1..]))
  {
  }

  /** Lexicographic order on two strings of length five, written out. */
  lemma LexLeFive(a: string, b: string)
    requires |a| == 5 && |b| == 5
    ensures LexLe(a, b) <==>
      a[0] < b[0] || (a[0] == b[0] &&
      (a[1] < b[1] || (a[1] == b[1] &&
      (a[2] < b[2] || (a[2] == b[2] &&
      (a[3] < b[3] || (a[3] == b[3] && a[4] <= b[4])))))))
  {
    LexLeStep(a, b);
    LexLeStep(a[1..], b[1..]);
    LexLeStep(a[2..], b[2..]);
    LexLeStep(a[3..], b[3..]);
    LexLeStep(a[4..], b[4..]);
    assert a[1..][1..] == a[2..] && b[1..][1..] == b[2..];
    assert a[2..][1..] == a[3..] && b[2..][1..] == b[3..];
    assert a[3..][1..] == a[4..] && b[3..][1..] == b[4..];
    assert |a[4..][1..]| == 0 && |b[4..][1..]| == 0;
  }

  /** Lexicographic order on `HH:MM` strings is chronological order, which
      is why sorting by `localeCompare` orders a day's doses by time. */
  lemma ClockOrderIsChronological(a: string, b: string)
    requires IsClockTime(a) && IsClockTime(b)
    ensures LexLe(a, b) <==> Minutes(a) <= Minutes(b)
  {
    LexLeFive(a, b);
    var ha, hb := DigitValue(a[0]) * 10 + DigitValue(a[1]), DigitValue(b[0]) * 10 + DigitValue(b[1]);
    var ma, mb := DigitValue(a[3]) * 10 + DigitValue(a[4]), DigitValue(b[3]) * 10 + DigitValue(b[4]);
    PairOrder(ha, ma, hb, mb, 60);
    PairOrder(DigitValue(a[0]), DigitValue(a[1]), DigitValue(b[0]), DigitValue(b[1]), 10);
    PairOrder(DigitValue(a[3]), DigitValue(a[4]), DigitValue(b[3]), DigitValue(b[4]), 10);
  }

  /** A clock time never contains the `-` separator of schedule ids. */
  lemma ClockTimeHasNoDash(t: string)
    requires IsClockTime(t)
    ensures '-' !in t
  {
  }
}
