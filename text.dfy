/**
 * The few JavaScript built-ins the chord code leans on, stated over
 * Dafny sequences: `indexOf`, `split`, `join`, the truncating `%`
 * operator and the decimal rendering of an integer in a template string.
 */
module JsText {

  /** `s.indexOf(x)`: the first position of `x`, or -1 when it is absent. */
  function IndexOf<T(==)>(s: seq<T>, x: T): (i: int)
    ensures -1 <= i < |s|
  {
    if |s| == 0 then -1
    else if s[0] == x then 0
    else
      var j := IndexOf(s[1..], x);
      if j < 0 then -1 else j + 1
  }

  /** IndexOf gives -1 exactly when `x` is absent, and otherwise the first position holding `x`. */
  lemma {:induction false} IndexOfSpec<T>(s: seq<T>, x: T)
    ensures IndexOf(s, x) == -1 <==> x !in s
    ensures 0 <= IndexOf(s, x) ==> s[IndexOf(s, x)] == x && x !in s[..IndexOf(s, x)]
  {
    if |s| > 0 && s[0] != x {
      IndexOfSpec(s[1..], x);
      var j := IndexOf(s[1..], x);
      if j >= 0 {
        assert s[1..][..j] == s[1..1 + j];
        assert s[..j + 1] == [s[0]] + s[1..][..j];
      } else {
        assert s == [s[0]] + s[1..];
      }
    }
  }

  /** The position IndexOf returns holds `x`: the part of its contract most callers need. */
  lemma {:induction false} IndexOfHolds<T>(s: seq<T>, x: T)
    requires 0 <= IndexOf(s, x)
    ensures s[IndexOf(s, x)] == x
  {
    if |s| > 0 && s[0] != x {
      IndexOfHolds(s[1..], x);
    }
  }

  lemma DropAppend<T>(a: seq<T>, b: seq<T>, j: int)
    requires 0 <= j <= |b|
    ensures (a + b)[|a| + j..] == b[j..]
  {
  }

  lemma IndexOfAppend<T>(a: seq<T>, b: seq<T>, x: T)
    requires x !in a
    ensures IndexOf(a + b, x) == if x in b then |a| + IndexOf(b, x) else -1
  {
    IndexOfSpec(a + b, x);
    IndexOfSpec(b, x);
    var i := IndexOf(a + b, x);
    if x in b {
      var j := IndexOf(b, x);
      assert (a + b)[|a| + j] == x;
      assert (a + b)[..|a| + j] == a + b[..j];
    }
  }

  /** `parts.join(sep)` for a one-character separator. */
  function Join(parts: seq<string>, sep: char): string
  {
    if |parts| == 0 then ""
    else if |parts| == 1 then parts[0]
    else parts[0] + [sep] + Join(parts[1..], sep)
  }

  /** `parts.join('')`. */
  function Concat(parts: seq<string>): string
  {
    if parts == [] then "" else parts[0] + Concat(parts[1..])
  }

  /** Joining two lists of pieces end to end joins their texts end to end. */
  lemma {:induction false} ConcatAppend(a: seq<string>, b: seq<string>)
    ensures Concat(a + b) == Concat(a) + Concat(b)
    decreases |a|
  {
    if a != [] {
      assert (a + b)[1..] == a[1..] + b;
      ConcatAppend(a[1..], b);
    } else {
      assert a + b == b;
    }
  }

  /** `s.split(sep)` for a one-character separator: always at least one part, none holding `sep`. */
  function Split(s: string, sep: char): (parts: seq<string>)
    ensures |parts| >= 1
    ensures forall k :: 0 <= k < |parts| ==> sep !in parts[k]
    decreases |s|
  {
    IndexOfSpec(s, sep);
    var i := IndexOf(s, sep);
    if i < 0 then [s] else [s[..i]] + Split(s[i + 1..], sep)
  }

  /** Appending `tail` to the last of the joined parts is appending it to the whole join. */
  lemma {:induction false} JoinExtendLast(parts: seq<string>, sep: char, tail: string)
    requires |parts| >= 1
    ensures Join(parts[..|parts| - 1] + [parts[|parts| - 1] + tail], sep) == Join(parts, sep) + tail
  {
    if |parts| > 1 {
      var p' := parts[1..];
      JoinExtendLast(p', sep, tail);
      assert (parts[..|parts| - 1] + [parts[|parts| - 1] + tail])[1..]
          == p'[..|p'| - 1] + [p'[|p'| - 1] + tail];
    }
  }

  /**
   * Splitting a join (followed by a separator-free tail) gives the parts back,
   * the tail glued to the last part.
   */
  lemma {:induction false} SplitJoinTail(parts: seq<string>, sep: char, tail: string)
    requires |parts| >= 1
    requires forall k :: 0 <= k < |parts| ==> sep !in parts[k]
    requires sep !in tail
    ensures Split(Join(parts, sep) + tail, sep) == parts[..|parts| - 1] + [parts[|parts| - 1] + tail]
    decreases |parts|
  {
    if |parts| == 1 {
      assert Join(parts, sep) + tail == parts[0] + tail;
      assert sep !in parts[0] + tail;
      IndexOfSpec(parts[0] + tail, sep);
    } else {
      var p' := parts[1..];
      var rest := Join(p', sep) + tail;
      assert Join(parts, sep) + tail == parts[0] + [sep] + rest by {
        assert Join(parts, sep) == parts[0] + [sep] + Join(p', sep);
      }
      SplitAtFirst(parts[0], sep, rest);
      assert forall k :: 0 <= k < |p'| ==> sep !in p'[k] by {
        forall k | 0 <= k < |p'| ensures sep !in p'[k] {
          assert p'[k] == parts[k + 1];
        }
      }
      SplitJoinTail(p', sep, tail);
      assert [parts[0]] + (p'[..|p'| - 1] + [p'[|p'| - 1] + tail])
          == parts[..|parts| - 1] + [parts[|parts| - 1] + tail] by {
        assert parts[..|parts| - 1] == [parts[0]] + p'[..|p'| - 1];
        assert parts[|parts| - 1] == p'[|p'| - 1];
      }
    }
  }

  lemma SplitAtFirst(head: string, sep: char, rest: string)
    requires sep !in head
    ensures Split(head + [sep] + rest, sep) == [head] + Split(rest, sep)
  {
    var s := head + [sep] + rest;
    IndexOfAppend(head, [sep] + rest, sep);
    assert head + [sep] + rest == head + ([sep] + rest);
    assert s[..|head|] == head;
    assert s[|head| + 1..] == rest;
  }

  lemma SplitJoin(parts: seq<string>, sep: char)
    requires |parts| >= 1
    requires forall k :: 0 <= k < |parts| ==> sep !in parts[k]
    ensures Split(Join(parts, sep), sep) == parts
  {
    SplitJoinTail(parts, sep, "");
    assert Join(parts, sep) + "" == Join(parts, sep);
    assert parts[|parts| - 1] + "" == parts[|parts| - 1];
    assert parts[..|parts| - 1] + [parts[|parts| - 1]] == parts;
  }

  /** A character occurring in a join is the separator or occurs in one of the parts. */
  lemma {:induction false} InJoin(parts: seq<string>, sep: char, c: char)
    requires c in Join(parts, sep)
    ensures c == sep || exists k :: 0 <= k < |parts| && c in parts[k]
  {
    if |parts| > 1 {
      if c !in parts[0] && c != sep {
        InJoin(parts[1..], sep, c);
        var k :| 0 <= k < |parts[1..]| && c in parts[1..][k];
        assert c in parts[k + 1];
      }
    }
  }

  /**
   * JavaScript's `a % b` for an integer `a` and positive `b`: the remainder
   * truncates toward zero, so it takes the sign of the dividend.
   */
  function JsRem(a: int, b: int): (r: int)
    requires b > 0
    ensures -b < r < b
    ensures a >= 0 ==> r == a % b
    ensures a < 0 ==> r == if a % b == 0 then 0 else a % b - b
  {
    if a >= 0 then a % b
    else
      NegativeRem(a, b);
      -((-a) % b)
  }

  /** The Euclidean remainder of a negative dividend, from that of its negation. */
  lemma NegativeRem(a: int, b: int)
    requires a < 0 && b > 0
    ensures a % b == if (-a) % b == 0 then 0 else b - (-a) % b
  {
    var q, m := (-a) / b, (-a) % b;
    assert -a == q * b + m;
    if m == 0 {
      assert a == (-q) * b;
      ModOfMultiple(a, b, -q, 0);
    } else {
      assert a == (-q - 1) * b + (b - m);
      ModOfMultiple(a, b, -q - 1, b - m);
    }
  }

  lemma ModOfMultiple(a: int, b: int, q: int, r: int)
    requires b > 0 && 0 <= r < b && a == q * b + r
    ensures a % b == r
  {
    var q', r' := a / b, a % b;
    assert (q - q') * b == r' - r by {
      assert q' * b + r' == q * b + r;
      assert (q - q') * b == q * b - q' * b;
    }
    if q' < q {
      MultipleAtLeast(q - q', b);
    } else if q' > q {
      MultipleAtLeast(q' - q, b);
    }
  }

  lemma MultipleAtLeast(k: int, b: int)
    requires k >= 1 && b > 0
    ensures k * b >= b
  {
    assert k * b == (k - 1) * b + b;
    assert (k - 1) * b >= 0;
  }

  function DigitChar(d: nat): char
    requires d < 10
  {
    "0123456789"[d]
  }

  predicate IsDigit(c: char)
  {
    '0' <= c <= '9'
  }

  function DigitValue(c: char): nat
    requires IsDigit(c)
  {
    (c as int) - ('0' as int)
  }

  /** The decimal digits of `n`, most significant first, without leading zeros. */
  function NatToDecimal(n: nat): (s: string)
    ensures |s| >= 1
    ensures forall k :: 0 <= k < |s| ==> IsDigit(s[k])
    ensures n > 0 ==> s[0] != '0'
  {
    if n < 10 then [DigitChar(n)] else NatToDecimal(n / 10) + [DigitChar(n % 10)]
  }

  /** An optional minus sign followed by at least one decimal digit. */
  predicate DecimalText(s: string)
  {
    && |s| >= 1
    && (s[0] == '-' ==> |s| >= 2)
    && forall k :: (if s[0] == '-' then 1 else 0) <= k < |s| ==> IsDigit(s[k])
  }

  /** `${n}` for an integer: a minus sign before the digits of a negative number. */
  function IntToDecimal(n: int): (s: string)
    ensures DecimalText(s)
    ensures s[0] == '-' <==> n < 0
  {
    if n < 0 then "-" + NatToDecimal(-n) else NatToDecimal(n)
  }

  /** The value of a string of decimal digits. */
  function DigitsValue(s: string): nat
    requires forall k :: 0 <= k < |s| ==> IsDigit(s[k])
  {
    if |s| == 0 then 0 else DigitsValue(s[..|s| - 1]) * 10 + DigitValue(s[|s| - 1])
  }

  /** Reads back an optionally signed decimal integer; the inverse of IntToDecimal. */
  function ParseDecimal(s: string): (r: int)
    requires DecimalText(s)
  {
    if s[0] == '-' then -(DigitsValue(s[1..]) as int) else DigitsValue(s)
  }

  lemma {:induction false} NatToDecimalValue(n: nat)
    ensures DigitsValue(NatToDecimal(n)) == n
  {
    if n >= 10 {
      var p, c := NatToDecimal(n / 10), DigitChar(n % 10);
      NatToDecimalValue(n / 10);
      assert NatToDecimal(n) == p + [c];
      assert (p + [c])[..|p|] == p;
    }
  }

  lemma DecimalRoundTrip(n: int)
    ensures ParseDecimal(IntToDecimal(n)) == n
  {
    if n < 0 {
      SignedValue(NatToDecimal(-n), -n);
    } else {
      NatToDecimalValue(n);
    }
  }

  lemma SignedValue(d: string, m: nat)
    requires d == NatToDecimal(m)
    ensures DecimalText("-" + d) && ParseDecimal("-" + d) == -(m as int)
  {
    NatToDecimalValue(m);
    assert ("-" + d)[1..] == d;
  }
}
