/** Numbers as text: the `%d`, `%u`, `%ld` printers and the `strtol` family of readers.
    The readers here are unbounded.  Wherever the program reads a number it also rejects what
    lies outside a range well inside `long`, so the readers' own overflow reports change no
    outcome. */
module Text {

  const INT_MAX: nat := 0x7fff_ffff

  predicate IsDigit(c: char) { '0' <= c <= '9' }

  /** ASCII white space: tab to carriage return, and the blank. */
  predicate IsSpace(c: char) { '\t' <= c <= '\r' || c == ' ' }

  function DigitValue(c: char): nat
    requires IsDigit(c)
  {
    c as nat - '0' as nat
  }

  function DigitChar(d: nat): (c: char)
    requires d < 10
    ensures IsDigit(c) && DigitValue(c) == d
  {
    ('0' as nat + d) as char
  }

  function Decimal(n: nat): (s: string)
    ensures |s| > 0 && forall i :: 0 <= i < |s| ==> IsDigit(s[i])
  {
    if n < 10 then [DigitChar(n)] else Decimal(n / 10) + [DigitChar(n % 10)]
  }

  function SkipSpace(s: string): string {
    if s != [] && IsSpace(s[0]) then SkipSpace(s[1..]) else s
  }

  datatype Scan = NoMatch | Number(value: int, rest: string)

  /** Reads on through the leading digits of `s`. */
  function Digits(s: string, value: nat): Scan {
    if s != [] && IsDigit(s[0]) then Digits(s[1..], 10 * value + DigitValue(s[0])) else Number(value, s)
  }

  function Unsigned(s: string): Scan {
    if s != [] && IsDigit(s[0]) then Digits(s, 0) else NoMatch
  }

  /** White space, an optional sign, digits; `rest` is where `endptr` points. */
  function ScanInt(s: string): Scan {
    var t := SkipSpace(s);
    if t != [] && t[0] == '-' then
      match Unsigned(t[1..])
      case NoMatch => NoMatch
      case Number(v, rest) => Number(-v, rest)
    else if t != [] && t[0] == '+' then Unsigned(t[1..])
    else Unsigned(t)
  }

  predicate StartsWithDigit(s: string) { s != [] && IsDigit(s[0]) }

  lemma {:induction false} DigitsOfDecimal(n: nat, rest: string)
    ensures Digits(Decimal(n) + rest, 0) == Digits(rest, n)
  {
    if n < 10 {
      assert (Decimal(n) + rest)[1..] == rest;
    } else {
      var tail := [DigitChar(n % 10)] + rest;
      assert Decimal(n) + rest == Decimal(n / 10) + tail;
      DigitsOfDecimal(n / 10, tail);
      assert tail[1..] == rest;
    }
  }

  /** Reading undoes printing, and stops exactly where the number ends. */
  lemma ScanDecimal(n: nat, rest: string)
    requires !StartsWithDigit(rest)
    ensures ScanInt(Decimal(n) + rest) == Number(n, rest)
  {
    var s := Decimal(n) + rest;
    assert s[0] == Decimal(n)[0];
    DigitsOfDecimal(n, rest);
  }

  lemma DecimalInjective(a: nat, b: nat)
    requires Decimal(a) == Decimal(b)
    ensures a == b
  {
    ScanDecimal(a, []);
    ScanDecimal(b, []);
    assert Decimal(a) + [] == Decimal(b) + [];
  }

  function Pow10(k: nat): nat { if k == 0 then 1 else 10 * Pow10(k - 1) }

  lemma {:induction false} DecimalLength(n: nat, k: nat)
    requires k > 0 && n < Pow10(k)
    ensures |Decimal(n)| <= k
  {
    if n >= 10 {
      DecimalLength(n / 10, k - 1);
    }
  }

  lemma {:induction false} DigitsMonotone(s: string, value: nat)
    ensures Digits(s, value).Number? && Digits(s, value).value >= value
  {
    if s != [] && IsDigit(s[0]) {
      DigitsMonotone(s[1..], 10 * value + DigitValue(s[0]));
    }
  }

  // ---- which texts are numbers ----------------------------------------------------------

  /** What is skipped is the leading white space, all of it and nothing else. */
  lemma {:induction false} SkipSpaceMeans(s: string)
    ensures var t := SkipSpace(s);
            && |t| <= |s| && t == s[|s| - |t|..] && (forall i :: 0 <= i < |s| - |t| ==> IsSpace(s[i]))
            && (t != "" ==> !IsSpace(t[0]))
  {
    if s != [] && IsSpace(s[0]) {
      SkipSpaceMeans(s[1..]);
      assert forall i :: 1 <= i < |s| ==> s[i] == s[1..][i - 1];
    }
  }

  predicate AllDigits(s: string) { forall i :: 0 <= i < |s| ==> IsDigit(s[i]) }

  predicate Signed(s: string) { s != "" && (s[0] == '-' || s[0] == '+') }

  /** The text after white space and a sign. */
  function Magnitude(s: string): string {
    var t := SkipSpace(s);
    if Signed(t) then t[1..] else t
  }

  predicate Negative(s: string) { SkipSpace(s) != "" && SkipSpace(s)[0] == '-' }

  lemma {:induction false} DigitsWhole(s: string, value: nat)
    ensures var r := Digits(s, value);
            && r.Number? && (r.rest == "" <==> AllDigits(s))
            && (AllDigits(s) ==> (r.value == 0 <==> value == 0 && forall i :: 0 <= i < |s| ==> s[i] == '0'))
  {
    if s != [] {
      assert forall i :: 1 <= i < |s| ==> s[i] == s[1..][i - 1];
      if IsDigit(s[0]) {
        DigitsWhole(s[1..], 10 * value + DigitValue(s[0]));
        assert AllDigits(s) <==> AllDigits(s[1..]);
      }
    }
  }

  /** Exactly which texts are read as a number to their end: white space, at most one sign, and
      digits; and which of them are below zero. */
  lemma WholeNumberIff(s: string)
    ensures var r, m := ScanInt(s), Magnitude(s);
            && (r.Number? && r.rest == "" <==> m != "" && AllDigits(m))
            && (m != "" && AllDigits(m) ==> (r.value < 0 <==> Negative(s) && exists i :: 0 <= i < |m| && m[i] != '0'))
  {
    DigitsWhole(Magnitude(s), 0);
    DigitsMonotone(Magnitude(s), 0);
  }

  /** A sign in front of a number. */
  lemma ScanSigned(n: nat, rest: string)
    requires !StartsWithDigit(rest)
    ensures ScanInt("-" + (Decimal(n) + rest)) == Number(-(n as int), rest)
    ensures ScanInt("+" + (Decimal(n) + rest)) == Number(n, rest)
  {
    ScanDecimal(n, rest);
    var s := Decimal(n) + rest;
    assert IsDigit(s[0]) && SkipSpace(s) == s;
    assert ("-" + s)[1..] == s && ("+" + s)[1..] == s;
  }

  // ---- several numbers ------------------------------------------------------------------

  /** `"%d %d ... %d"`. */
  function Spaced(ns: seq<nat>): (s: string)
    ensures ns != [] ==> StartsWithDigit(s)
    ensures forall i :: 0 <= i < |s| ==> IsDigit(s[i]) || s[i] == ' '
  {
    if ns == [] then "" else if |ns| == 1 then Decimal(ns[0]) else Decimal(ns[0]) + (" " + Spaced(ns[1..]))
  }

  /** `sscanf` with `k` numeric conversions: the values and the unread rest, or a mismatch. */
  datatype ScanAll = Mismatch | Numbers(values: seq<int>, rest: string)

  function ScanNumbers(s: string, k: nat): ScanAll
    decreases k
  {
    if k == 0 then Numbers([], s)
    else match ScanInt(s)
      case NoMatch => Mismatch
      case Number(v, rest) =>
        match ScanNumbers(rest, k - 1)
        case Mismatch => Mismatch
        case Numbers(vs, left) => Numbers([v] + vs, left)
  }

  lemma SkipOneSpace(s: string, k: nat)
    requires k > 0
    ensures ScanNumbers(" " + s, k) == ScanNumbers(s, k)
  {
    assert (" " + s)[1..] == s;
    assert SkipSpace(" " + s) == SkipSpace(s);
  }

  lemma {:induction false} ScanSpaced(ns: seq<nat>, rest: string)
    requires ns != [] && !StartsWithDigit(rest)
    ensures ScanNumbers(Spaced(ns) + rest, |ns|) == Numbers(ns, rest)
  {
    if |ns| == 1 {
      ScanDecimal(ns[0], rest);
      assert ScanNumbers(rest, 0) == Numbers([], rest);
      assert [ns[0]] + [] == ns;
    } else {
      var more := Spaced(ns[1..]) + rest;
      assert Spaced(ns) + rest == Decimal(ns[0]) + (" " + more);
      ScanDecimal(ns[0], " " + more);
      SkipOneSpace(more, |ns| - 1);
      ScanSpaced(ns[1..], rest);
      assert [ns[0]] + ns[1..] == ns;
    }
  }

  lemma {:induction false} SpacedLength(ns: seq<nat>, k: nat)
    requires k > 0 && forall i :: 0 <= i < |ns| ==> ns[i] < Pow10(k)
    ensures |Spaced(ns)| <= |ns| * (k + 1)
  {
    if ns != [] {
      DecimalLength(ns[0], k);
      SpacedLength(ns[1..], k);
      assert |ns| * (k + 1) == |ns[1..]| * (k + 1) + (k + 1);
    }
  }
}
