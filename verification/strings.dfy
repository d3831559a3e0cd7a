/**
 * Text helpers used by the address parser and the template renderer:
 * decimal digit strings and splitting/joining on a separator character,
 * with the semantics of Python's `int`, `str` and `str.split`/`str.join`.
 */
module Strings {

  predicate IsDigit(c: char) {
    '0' <= c <= '9'
  }

  predicate AllDigits(s: string) {
    forall i :: 0 <= i < |s| ==> IsDigit(s[i])
  }

  /** Value of a string of decimal digits, most significant digit first. */
  function DigitsValue(s: string): nat
    requires AllDigits(s)
  {
    if s == [] then 0 else 10 * DigitsValue(s[..|s| - 1]) + (s[|s| - 1] as int - '0' as int)
  }

  /** A digit string without superfluous leading zeros. */
  predicate Canonical(s: string) {
    |s| >= 1 && AllDigits(s) && (|s| > 1 ==> s[0] != '0')
  }

  /** The decimal form of n, as Python's `str(n)` writes it. */
  function Decimal(n: nat): (r: string)
    ensures Canonical(r)
    ensures DigitsValue(r) == n
    ensures n < 10 ==> |r| == 1
    ensures n < 1000 ==> |r| <= 3
  {
    if n < 10 then [('0' as int + n) as char]
    else Decimal(n / 10) + [('0' as int + n % 10) as char]
  }

  lemma {:induction false} DigitsValueBound(s: string)
    requires AllDigits(s) && |s| >= 1 && s[0] != '0'
    ensures DigitsValue(s) >= Pow10(|s| - 1)
  {
    if |s| > 1 {
      DigitsValueBound(s[..|s| - 1]);
    }
  }

  function Pow10(k: nat): (r: nat)
    ensures r >= 1
  {
    if k == 0 then 1 else 10 * Pow10(k - 1)
  }

  /** Canonical digit strings are exactly the decimal forms: reading then writing is the identity. */
  lemma {:induction false} DecimalOfValue(s: string)
    requires Canonical(s)
    ensures Decimal(DigitsValue(s)) == s
  {
    if |s| > 1 {
      var init, c := s[..|s| - 1], s[|s| - 1];
      var d := c as int - '0' as int;
      var q, n := DigitsValue(init), DigitsValue(s);
      assert n == 10 * q + d;
      assert q >= 1 by {
        assert init[0] == s[0];
        DigitsValueBound(init);
      }
      assert Decimal(n) == Decimal(q) + [c] by {
        DivMod10(q, d);
        assert ('0' as int + d) as char == c;
      }
      assert Decimal(q) == init by {
        assert init[0] == s[0];
        DecimalOfValue(init);
      }
      assert s == init + [c];
    }
  }

  lemma DivMod10(q: nat, d: int)
    requires 0 <= d < 10
    ensures (10 * q + d) / 10 == q && (10 * q + d) % 10 == d
  {
  }

  /** `sep.join(parts)` */
  function Join(parts: seq<string>, sep: char): string
    requires |parts| >= 1
  {
    if |parts| == 1 then parts[0] else parts[0] + [sep] + Join(parts[1..], sep)
  }

  /** Joining four pieces, written out. */
  lemma Join4(p0: string, p1: string, p2: string, p3: string, sep: char)
    ensures Join([p0, p1, p2, p3], sep) == p0 + [sep] + p1 + [sep] + p2 + [sep] + p3
  {
    var ps := [p0, p1, p2, p3];
    assert ps[1..] == [p1, p2, p3];
    assert ps[1..][1..] == [p2, p3];
    assert ps[1..][1..][1..] == [p3];
    assert Join([p2, p3], sep) == p2 + [sep] + p3;
    assert Join([p1, p2, p3], sep) == p1 + [sep] + (p2 + [sep] + p3);
  }

  /** `s.split(sep)`: the maximal separator-free pieces, empty ones included. */
  function Split(s: string, sep: char): (r: seq<string>)
    ensures |r| >= 1
    ensures forall i :: 0 <= i < |r| ==> sep !in r[i]
    ensures Join(r, sep) == s
  {
    if s == [] then [[]]
    else
      var rest := Split(s[1..], sep);
      if s[0] == sep then
        assert [sep] + Join(rest, sep) == s;
        [[]] + rest
      else
        assert ([[s[0]] + rest[0]] + rest[1..])[1..] == rest[1..];
        [[s[0]] + rest[0]] + rest[1..]
  }

  lemma {:induction false} SplitSepFree(x: string, sep: char)
    requires sep !in x
    ensures Split(x, sep) == [x]
  {
    if x != [] {
      SplitSepFree(x[1..], sep);
    }
  }

  lemma {:induction false} SplitCons(x: string, sep: char, y: string)
    requires sep !in x
    ensures Split(x + [sep] + y, sep) == [x] + Split(y, sep)
  {
    var s := x + [sep] + y;
    if x == [] {
      assert s[1..] == y;
    } else {
      assert s[1..] == x[1..] + [sep] + y;
      SplitCons(x[1..], sep, y);
      assert [x[0]] + x[1..] == x;
    }
  }

  /** Splitting undoes joining, when no piece contains the separator. */
  lemma {:induction false} SplitJoin(parts: seq<string>, sep: char)
    requires |parts| >= 1
    requires forall i :: 0 <= i < |parts| ==> sep !in parts[i]
    ensures Split(Join(parts, sep), sep) == parts
  {
    if |parts| == 1 {
      SplitSepFree(parts[0], sep);
    } else {
      SplitJoin(parts[1..], sep);
      SplitCons(parts[0], sep, Join(parts[1..], sep));
      assert [parts[0]] + parts[1..] == parts;
    }
  }

  /** Every character of a join is the separator or a character of some piece. */
  lemma {:induction false} JoinAlphabet(parts: seq<string>, sep: char, ok: char -> bool)
    requires |parts| >= 1 && ok(sep)
    requires forall i, k :: 0 <= i < |parts| && 0 <= k < |parts[i]| ==> ok(parts[i][k])
    ensures forall k :: 0 <= k < |Join(parts, sep)| ==> ok(Join(parts, sep)[k])
  {
    if |parts| > 1 {
      JoinAlphabet(parts[1..], sep, ok);
      var tail := Join(parts[1..], sep);
      forall k | 0 <= k < |Join(parts, sep)|
        ensures ok(Join(parts, sep)[k])
      {
        if k >= |parts[0]| + 1 {
          assert Join(parts, sep)[k] == tail[k - |parts[0]| - 1];
        }
      }
    }
  }
}
