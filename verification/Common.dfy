/** Small shared vocabulary: optional values, rounding, and the string order used by sorted identifiers. */
module Common {
  datatype Option<+T> = None | Some(value: T)

  function Max(a: real, b: real): real {
    if a < b then b else a
  }

  function Min(a: real, b: real): real {
    if a < b then a else b
  }

  /** The nearest integer, ties to even. */
  function Nearest(x: real): (n: int)
    ensures n as real - 0.5 <= x <= n as real + 0.5
    ensures x == n as real - 0.5 || x == n as real + 0.5 ==> n % 2 == 0
  {
    var below := x.Floor;
    var rest := x - below as real;
    if rest < 0.5 || (rest == 0.5 && below % 2 == 0) then below else below + 1
  }

  /** Division by a positive number keeps sums and order. */
  lemma SharesAdd(x: real, y: real, n: real)
    requires n > 0.0
    ensures x / n + y / n == (x + y) / n
    ensures x <= y <==> x / n <= y / n
    ensures x < y <==> x / n < y / n
  {
  }

  /** Lexicographic order by code point, as `sorted` and `ORDER BY` compare text. */
  predicate Less(a: string, b: string) {
    if |b| == 0 then false
    else if |a| == 0 then true
    else if a[0] != b[0] then a[0] < b[0]
    else Less(a[1..], b[1..])
  }

  /** The first position where two texts differ decides. */
  lemma {:induction false} FirstDifferenceDecides(a: string, b: string, i: nat)
    requires i < |a| && i < |b| && a[..i] == b[..i] && a[i] != b[i]
    ensures Less(a, b) <==> a[i] < b[i]
  {
    if i > 0 {
      assert a[0] == a[..i][0] == b[..i][0] == b[0];
      assert a[1..][..i - 1] == a[..i][1..] && b[1..][..i - 1] == b[..i][1..];
      FirstDifferenceDecides(a[1..], b[1..], i - 1);
    }
  }

  /** A text comes after each of its proper prefixes. */
  lemma {:induction false} PrefixComesFirst(a: string, b: string)
    requires a < b
    ensures Less(a, b) && !Less(b, a)
  {
    if a != "" {
      PrefixComesFirst(a[1..], b[1..]);
    }
  }

  lemma {:induction false} LessIrreflexive(a: string)
    ensures !Less(a, a)
  {
    if |a| > 0 {
      LessIrreflexive(a[1..]);
    }
  }

  lemma {:induction false} LessTransitive(a: string, b: string, c: string)
    requires Less(a, b) && Less(b, c)
    ensures Less(a, c)
  {
    if |a| > 0 && a[0] == b[0] && b[0] == c[0] {
      LessTransitive(a[1..], b[1..], c[1..]);
    }
  }

  lemma {:induction false} LessTotal(a: string, b: string)
    ensures Less(a, b) || a == b || Less(b, a)
  {
    if |a| > 0 && |b| > 0 && a[0] == b[0] {
      LessTotal(a[1..], b[1..]);
      assert a == [a[0]] + a[1..] && b == [b[0]] + b[1..];
    }
  }

  lemma LessAsymmetric(a: string, b: string)
    requires Less(a, b)
    ensures !Less(b, a)
  {
  }

  /** `s` is the first of `all` in sorted order. */
  ghost predicate IsFirst(s: string, all: set<string>) {
    s in all && forall t :: t in all && t != s ==> Less(s, t)
  }

  /** `sorted(all)[0]`. */
  method First(all: set<string>) returns (first: string)
    requires all != {}
    ensures IsFirst(first, all)
  {
    first :| first in all;
    var rest := all - {first};
    while rest != {}
      invariant rest <= all && first in all - rest
      invariant forall t :: t in all - rest && t != first ==> Less(first, t)
      decreases rest
    {
      var t :| t in rest;
      LessTotal(first, t);
      if Less(t, first) {
        forall u | u in all - rest && u != first ensures Less(t, u) {
          LessTransitive(t, first, u);
        }
        first := t;
      }
      rest := rest - {t};
    }
  }
}
