/** Python's ordering of strings: code point by code point, a proper prefix first. */
module Lex {
  import opened Digits

  predicate LexLe(a: string, b: string)
    decreases |a|
  {
    |a| == 0 || (|b| > 0 && (a[0] < b[0] || (a[0] == b[0] && LexLe(a[1..], b[1..]))))
  }

  lemma {:induction false} LexLeRefl(a: string)
    ensures LexLe(a, a)
  {
    if |a| > 0 { LexLeRefl(a[1..]); }
  }

  lemma {:induction false} LexLeTotal(a: string, b: string)
    ensures LexLe(a, b) || LexLe(b, a)
  {
    if |a| > 0 && |b| > 0 && a[0] == b[0] { LexLeTotal(a[1..], b[1..]); }
  }

  lemma {:induction false} LexLeTrans(a: string, b: string, c: string)
    requires LexLe(a, b) && LexLe(b, c)
    ensures LexLe(a, c)
  {
    if |a| > 0 && a[0] == b[0] && b[0] == c[0] { LexLeTrans(a[1..], b[1..], c[1..]); }
  }

  lemma {:induction false} LexLeAntisym(a: string, b: string)
    requires LexLe(a, b) && LexLe(b, a)
    ensures a == b
  {
    if |a| > 0 {
      LexLeAntisym(a[1..], b[1..]);
      assert a == [a[0]] + a[1..] && b == [b[0]] + b[1..];
    }
  }

  /** Comparing two strings that begin with prefixes of one length compares the prefixes first. */
  lemma {:induction false} LexLePrefix(p: string, q: string, r: string, s: string)
    requires |p| == |q| && LexLe(p + r, q + s)
    ensures LexLe(p, q)
  {
    if |p| > 0 && p[0] == q[0] {
      assert (p + r)[1..] == p[1..] + r && (q + s)[1..] == q[1..] + s;
      LexLePrefix(p[1..], q[1..], r, s);
    }
  }

  /** A common prefix does not decide a comparison. */
  lemma {:induction false} LexLeCancel(p: string, r: string, s: string)
    requires LexLe(p + r, p + s)
    ensures LexLe(r, s)
  {
    if |p| > 0 {
      assert (p + r)[1..] == p[1..] + r && (p + s)[1..] == p[1..] + s;
      LexLeCancel(p[1..], r, s);
    } else {
      assert p + r == r && p + s == s;
    }
  }

  /** Padded renderings of one width compare as the numbers do. */
  lemma {:induction false} PadMonotone(x: nat, y: nat, w: nat)
    requires x < Pow10(w) && y < Pow10(w)
    requires LexLe(Pad(x, w), Pad(y, w))
    ensures x <= y
  {
    if w > 0 {
      var a, b := Pad(x / 10, w - 1), Pad(y / 10, w - 1);
      var cx, cy := DigitChar(x % 10), DigitChar(y % 10);
      assert Pad(x, w) == a + [cx] && Pad(y, w) == b + [cy];
      LexLePrefix(a, b, [cx], [cy]);
      PadMonotone(x / 10, y / 10, w - 1);
      if x / 10 == y / 10 {
        LexLeCancel(a, [cx], [cy]);
        assert cx <= cy;
      }
    }
  }
}
