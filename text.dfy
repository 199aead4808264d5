/**
 * String operations the uploader relies on, stated on `seq<char>`:
 * JavaScript's `startsWith`, `split` on one separator character, and the
 * decimal text of a non-negative integer (the `${n}` of a template literal).
 */
module Text {

  /** `s.startsWith(prefix)` */
  predicate StartsWith(s: string, prefix: string) {
    |prefix| <= |s| && s[..|prefix|] == prefix
  }

  predicate EndsWith(s: string, suffix: string) {
    |suffix| <= |s| && s[|s| - |suffix|..] == suffix
  }

  /** The inverse of `Split`: the fields separated by one `sep` each. */
  function Join(fields: seq<string>, sep: char): string
    decreases |fields|
  {
    if |fields| == 0 then []
    else if |fields| == 1 then fields[0]
    else fields[0] + [sep] + Join(fields[1..], sep)
  }

  /**
   * `s.split(sep)` for a one-character separator: the maximal runs between
   * separators, so there is always at least one field (possibly empty) and
   * joining the fields back gives `s`.
   */
  function Split(s: string, sep: char): (fields: seq<string>)
    ensures |fields| >= 1
    ensures forall i :: 0 <= i < |fields| ==> sep !in fields[i]
    ensures Join(fields, sep) == s
    decreases |s|
  {
    if s == [] then [[]]
    else
      var rest := Split(s[1..], sep);
      if s[0] == sep then
        assert s == [sep] + s[1..];
        [[]] + rest
      else
        var fields := [[s[0]] + rest[0]] + rest[1..];
        assert fields[1..] == rest[1..];
        assert Join(fields, sep) == [s[0]] + Join(rest, sep) by {
          if |rest| > 1 {
            assert Join(rest, sep) == rest[0] + [sep] + Join(rest[1..], sep);
          }
        }
        assert s == [s[0]] + s[1..];
        fields
  }

  /** Prefixing a separator-free text and a separator adds exactly one field in front. */
  lemma {:induction false} SplitAfterField(a: string, sep: char, b: string)
    requires sep !in a
    ensures Split(a + [sep] + b, sep) == [a] + Split(b, sep)
    decreases |a|
  {
    var s := a + [sep] + b;
    if a == [] {
      assert s[0] == sep && s[1..] == b;
    } else {
      assert s[0] == a[0] && s[1..] == a[1..] + [sep] + b;
      SplitAfterField(a[1..], sep, b);
      assert [a[0]] + a[1..] == a;
    }
  }

  /** A text without the separator is one field. */
  lemma {:induction false} SplitWithoutSeparator(s: string, sep: char)
    requires sep !in s
    ensures Split(s, sep) == [s]
    decreases |s|
  {
    if s != [] {
      SplitWithoutSeparator(s[1..], sep);
      assert [s[0]] + s[1..] == s;
    }
  }

  /** Splitting what `Join` built gives back the fields: the two are inverse. */
  lemma {:induction false} SplitJoin(fields: seq<string>, sep: char)
    requires |fields| >= 1
    requires forall i :: 0 <= i < |fields| ==> sep !in fields[i]
    ensures Split(Join(fields, sep), sep) == fields
    decreases |fields|
  {
    if |fields| == 1 {
      SplitWithoutSeparator(fields[0], sep);
    } else {
      assert sep !in fields[0];
      SplitJoin(fields[1..], sep);
      SplitAfterField(fields[0], sep, Join(fields[1..], sep));
      assert [fields[0]] + fields[1..] == fields;
    }
  }

  /**
   * The first field of `s.split(sep)` is the one separator-free prefix of `s`
   * that reaches either the end of `s` or a separator.
   */
  lemma FirstField(s: string, sep: char, x: string)
    requires sep !in x
    ensures Split(s, sep)[0] == x <==> StartsWith(s, x) && (|s| == |x| || s[|x|] == sep)
  {
    var fs := Split(s, sep);
    var f := fs[0];
    assert StartsWith(s, f) && (|s| == |f| || s[|f|] == sep) by {
      if |fs| > 1 {
        assert s == f + [sep] + Join(fs[1..], sep);
        assert s[..|f|] == f;
      }
    }
    if StartsWith(s, x) && (|s| == |x| || s[|x|] == sep) {
      FirstSeparatorUnique(s, sep, f, x);
    }
  }

  lemma FirstSeparatorUnique(s: string, sep: char, f: string, x: string)
    requires sep !in f && sep !in x
    requires StartsWith(s, f) && (|s| == |f| || s[|f|] == sep)
    requires StartsWith(s, x) && (|s| == |x| || s[|x|] == sep)
    ensures f == x
  {
    assert f == s[..|f|];
  }

  /**
   * When a separator-free `a1` and `a2` are each followed by text that is empty
   * or starts with the separator, equal concatenations split the same way.
   */
  lemma SplitAtSeparator(a1: string, b1: string, a2: string, b2: string, sep: char)
    requires sep !in a1 && sep !in a2
    requires b1 == [] || b1[0] == sep
    requires b2 == [] || b2[0] == sep
    requires a1 + b1 == a2 + b2
    ensures a1 == a2 && b1 == b2
  {
    var s := a1 + b1;
    assert s[..|a1|] == a1;
    assert s[..|a2|] == a2;
    FirstSeparatorUnique(s, sep, a1, a2);
  }

  // Decimal text of naturals, as JavaScript's String(n) writes them.

  predicate IsDigit(c: char) {
    '0' <= c <= '9'
  }

  predicate AllDigits(s: string) {
    forall i :: 0 <= i < |s| ==> IsDigit(s[i])
  }

  function DigitChar(d: nat): char
    requires d < 10
  {
    ('0' as int + d) as char
  }

  /** The value denoted by a string of decimal digits. */
  function DecimalValue(s: string): nat
    requires AllDigits(s)
    decreases |s|
  {
    if s == [] then 0
    else DecimalValue(s[..|s| - 1]) * 10 + (s[|s| - 1] as int - '0' as int)
  }

  /** A decimal numeral as `String` writes one: digits only, and no leading zero unless it is "0". */
  predicate IsNumeral(s: string) {
    |s| >= 1 && AllDigits(s) && (s[0] == '0' ==> |s| == 1)
  }

  /** `String(n)`: the numeral that denotes `n`. */
  function DecimalString(n: nat): (s: string)
    ensures IsNumeral(s)
    ensures DecimalValue(s) == n
    decreases n
  {
    if n < 10 then [DigitChar(n)]
    else
      var s := DecimalString(n / 10) + [DigitChar(n % 10)];
      assert s[..|s| - 1] == DecimalString(n / 10);
      s
  }

  /** A numeral other than "0" denotes a positive number. */
  lemma {:induction false} NumeralPositive(s: string)
    requires IsNumeral(s) && s[0] != '0'
    ensures DecimalValue(s) > 0
    decreases |s|
  {
    if |s| > 1 {
      var t := s[..|s| - 1];
      assert t[0] == s[0];
      NumeralPositive(t);
    }
  }

  /** Each number has exactly one numeral: any numeral is `String` of its value. */
  lemma {:induction false} NumeralUnique(s: string)
    requires IsNumeral(s)
    ensures s == DecimalString(DecimalValue(s))
    decreases |s|
  {
    if |s| > 1 {
      var t := s[..|s| - 1];
      assert t[0] == s[0];
      NumeralPositive(t);
      NumeralUnique(t);
      var k, d := DecimalValue(t), s[|s| - 1] as int - '0' as int;
      assert DecimalValue(s) == k * 10 + d;
      assert (k * 10 + d) / 10 == k && (k * 10 + d) % 10 == d;
      assert DigitChar(d) == s[|s| - 1];
      assert s == t + [s[|s| - 1]];
    }
  }
}
