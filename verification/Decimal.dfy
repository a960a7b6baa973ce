/** Decimal numerals: how JavaScript's `String(n)` and Python's `d` format print
    a non-negative integer, left padding with zeros, and reading both back. */
module Decimal {
  import opened Wrappers

  predicate IsDigit(c: char) {
    '0' <= c <= '9'
  }

  predicate AllDigits(s: string) {
    forall i :: 0 <= i < |s| ==> IsDigit(s[i])
  }

  function DigitChar(d: nat): (c: char)
    requires d < 10
    ensures IsDigit(c)
  {
    ('0' as int + d) as char
  }

  function DigitValue(c: char): nat
    requires IsDigit(c)
  {
    c as int - '0' as int
  }

  /** `String(n)`: no sign, no leading zero. */
  function Print(n: nat): (s: string)
    ensures s != [] && AllDigits(s)
  {
    if n < 10 then [DigitChar(n)] else Print(n / 10) + [DigitChar(n % 10)]
  }

  /** The number a run of digits stands for; leading zeros are allowed. */
  function Value(s: string): nat
    requires AllDigits(s)
  {
    if s == [] then 0 else 10 * Value(s[..|s| - 1]) + DigitValue(s[|s| - 1])
  }

  function Read(s: string): Option<nat> {
    if s != [] && AllDigits(s) then Some(Value(s)) else None
  }

  /** `s.padStart(width, '0')`, and Python's `:0<width>d`. */
  function PadStart(s: string, width: nat): (p: string)
    ensures AllDigits(s) ==> AllDigits(p)
    ensures |p| == if |s| < width then width else |s|
    decreases width - |s|
  {
    if |s| >= width then s else PadStart("0" + s, width)
  }

  lemma {:induction false} ValueOfPrint(n: nat)
    ensures Value(Print(n)) == n
  {
    if n >= 10 {
      ValueOfPrint(n / 10);
      var s := Print(n);
      assert s[..|s| - 1] == Print(n / 10);
    } else {
      assert Print(n)[..0] == "";
    }
  }

  lemma {:induction false} LeadingZero(s: string)
    requires AllDigits(s)
    ensures Value("0" + s) == Value(s)
  {
    var z := "0" + s;
    if s == [] {
      assert z[..0] == "";
    } else {
      assert z[..|z| - 1] == "0" + s[..|s| - 1];
      LeadingZero(s[..|s| - 1]);
    }
  }

  lemma {:induction false} ValueOfPadded(s: string, width: nat)
    requires AllDigits(s)
    ensures Value(PadStart(s, width)) == Value(s)
    decreases width - |s|
  {
    if |s| < width {
      LeadingZero(s);
      ValueOfPadded("0" + s, width);
    }
  }

  /** Padded or not, a printed number is read back unchanged. */
  lemma ReadPadded(n: nat, width: nat)
    ensures Read(PadStart(Print(n), width)) == Some(n)
    ensures Read(Print(n)) == Some(n)
  {
    ValueOfPrint(n);
    ValueOfPadded(Print(n), width);
  }

  lemma PaddedInjective(m: nat, n: nat, width: nat)
    requires PadStart(Print(m), width) == PadStart(Print(n), width)
    ensures m == n
  {
    ReadPadded(m, width);
    ReadPadded(n, width);
  }

  /** A number below 100 padded to two digits has exactly two. */
  lemma TwoDigits(n: nat)
    requires n < 100
    ensures |PadStart(Print(n), 2)| == 2
  {
    if n >= 10 {
      assert Print(n / 10) == [DigitChar(n / 10)];
    }
  }

  /** Cuts a string at every `sep`; always at least one field. */
  function Fields(s: string, sep: char): (fs: seq<string>)
    ensures fs != []
  {
    if s == [] then [""]
    else
      var rest := Fields(s[1..], sep);
      if s[0] == sep then [""] + rest else [[s[0]] + rest[0]] + rest[1..]
  }

  lemma {:induction false} FieldsNoSep(s: string, sep: char)
    requires sep !in s
    ensures Fields(s, sep) == [s]
  {
    if s != [] {
      FieldsNoSep(s[1..], sep);
      assert [s[0]] + s[1..] == s;
    }
  }

  lemma {:induction false} FieldsCons(a: string, sep: char, rest: string)
    requires sep !in a
    ensures Fields(a + [sep] + rest, sep) == [a] + Fields(rest, sep)
  {
    var s := a + [sep] + rest;
    if a == [] {
      assert s[1..] == rest;
    } else {
      assert s[1..] == a[1..] + [sep] + rest;
      FieldsCons(a[1..], sep, rest);
      assert [a[0]] + a[1..] == a;
    }
  }

  /** One more character in front of some fields. */
  function PutFront(c: char, sep: char, fs: seq<string>): seq<string>
    requires fs != []
  {
    if c == sep then [""] + fs else [[c] + fs[0]] + fs[1..]
  }

  lemma PutFrontAppend(c: char, sep: char, u: seq<string>, v: seq<string>)
    requires u != []
    ensures PutFront(c, sep, u + v) == PutFront(c, sep, u) + v
  {
    assert (u + v)[0] == u[0] && (u + v)[1..] == u[1..] + v;
  }

  /** A separator between two texts cuts there, whatever is in them. */
  lemma {:induction false} FieldsJoin(a: string, sep: char, b: string)
    ensures Fields(a + [sep] + b, sep) == Fields(a, sep) + Fields(b, sep)
  {
    var s := a + [sep] + b;
    if a == [] {
      assert s[1..] == b;
    } else {
      assert s[0] == a[0] && s[1..] == a[1..] + [sep] + b;
      FieldsJoin(a[1..], sep, b);
      PutFrontAppend(a[0], sep, Fields(a[1..], sep), Fields(b, sep));
      assert Fields(a, sep) == PutFront(a[0], sep, Fields(a[1..], sep));
      assert Fields(s, sep) == PutFront(s[0], sep, Fields(s[1..], sep));
    }
  }

  lemma DigitsHaveNoSep(s: string, sep: char)
    requires AllDigits(s) && !IsDigit(sep)
    ensures sep !in s
  {
  }
}
