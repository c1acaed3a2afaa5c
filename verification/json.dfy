/**
 * The part of Drupal's `Json::encode` the cache key depends on: a PHP list of
 * integers is written as a JSON array of decimal numerals, `[400,700,800]`.
 * The encoding is injective, which is what keeps two exclusion lists from
 * sharing a cache entry.
 */
module Json {
  import opened Seqs

  /** The ASCII digit for `d`. */
  function Digit(d: int): char
    requires 0 <= d < 10
  {
    ('0' as int + d) as char
  }

  predicate IsDigit(c: char) {
    '0' <= c <= '9'
  }

  /** The decimal numeral of `n`, most significant digit first, no leading zeros. */
  function NatToString(n: nat): (s: string)
    ensures 1 <= |s|
    ensures n < 10 <==> |s| == 1
    ensures forall i :: 0 <= i < |s| ==> IsDigit(s[i])
  {
    if n < 10 then [Digit(n)] else NatToString(n / 10) + [Digit(n % 10)]
  }

  /** The JSON numeral of an integer: a minus sign before negative values. */
  function IntToString(n: int): (s: string)
    ensures 1 <= |s|
    ensures ',' !in s
    ensures n < 0 <==> s[0] == '-'
  {
    if n < 0 then "-" + NatToString(-n) else NatToString(n)
  }

  /** The numerals of `xs` separated by commas, without surrounding brackets. */
  function JoinInts(xs: seq<int>): (s: string)
    ensures |xs| == 0 <==> |s| == 0
    ensures |xs| <= 1 <==> ',' !in s
  {
    if |xs| == 0 then ""
    else if |xs| == 1 then IntToString(xs[0])
    else
      CommaAfter(IntToString(xs[0]), JoinInts(xs[1..]));
      IntToString(xs[0]) + "," + JoinInts(xs[1..])
  }

  /** `Json::encode` of a PHP list of integers. */
  function EncodeInts(xs: seq<int>): (s: string)
    ensures |s| >= 2 && s[0] == '[' && s[|s| - 1] == ']'
  {
    "[" + JoinInts(xs) + "]"
  }

  lemma {:induction false} NatToStringInjective(n: nat, m: nat)
    requires NatToString(n) == NatToString(m)
    ensures n == m
    decreases n
  {
    var s := NatToString(n);
    if n >= 10 {
      assert m >= 10;
      assert s == NatToString(n / 10) + [Digit(n % 10)];
      assert s == NatToString(m / 10) + [Digit(m % 10)];
      assert s[|s| - 1] == Digit(n % 10) == Digit(m % 10);
      assert NatToString(n / 10) == s[..|s| - 1] == NatToString(m / 10);
      NatToStringInjective(n / 10, m / 10);
    } else {
      assert m < 10;
      assert s[0] == Digit(n) == Digit(m);
    }
  }

  lemma IntToStringInjective(n: int, m: int)
    requires IntToString(n) == IntToString(m)
    ensures n == m
  {
    var s := IntToString(n);
    if n < 0 {
      assert m < 0;
      assert NatToString(-n) == s[1..] == NatToString(-m);
      NatToStringInjective(-n, -m);
    } else {
      assert m >= 0;
      NatToStringInjective(n, m);
    }
  }

  lemma CommaAfter(a: string, x: string)
    ensures (a + "," + x)[|a|] == ','
  {
  }

  /** Two strings that each continue with a comma right after a comma-free head split at the same place. */
  lemma SplitAtFirstComma(a: string, x: string, b: string, y: string)
    requires ',' !in a && ',' !in b
    requires a + "," + x == b + "," + y
    ensures a == b && x == y
  {
    var s := a + "," + x;
    if |a| < |b| {
      CommaAfter(a, x);
      assert false;
    } else if |b| < |a| {
      CommaAfter(b, y);
      assert false;
    }
    assert a == s[..|a|] == b;
    assert x == s[|a| + 1..] == y;
  }

  lemma {:induction false} JoinIntsInjective(xs: seq<int>, ys: seq<int>)
    requires JoinInts(xs) == JoinInts(ys)
    ensures xs == ys
    decreases |xs|
  {
    if |xs| == 0 {
      assert |ys| == 0;
    } else if |xs| == 1 {
      if |ys| >= 2 {
        assert false;
      }
      IntToStringInjective(xs[0], ys[0]);
    } else {
      if |ys| == 1 {
        assert false;
      }
      SplitAtFirstComma(IntToString(xs[0]), JoinInts(xs[1..]), IntToString(ys[0]), JoinInts(ys[1..]));
      IntToStringInjective(xs[0], ys[0]);
      JoinIntsInjective(xs[1..], ys[1..]);
      SplitFirst(xs);
      SplitFirst(ys);
    }
  }

  /** Distinct integer lists, including reorderings of the same elements, encode differently. */
  lemma EncodeIntsInjective(xs: seq<int>, ys: seq<int>)
    ensures EncodeInts(xs) == EncodeInts(ys) <==> xs == ys
  {
    if EncodeInts(xs) == EncodeInts(ys) {
      var s := EncodeInts(xs);
      assert JoinInts(xs) == s[1..|s| - 1] == JoinInts(ys);
      JoinIntsInjective(xs, ys);
    }
  }
}
