/** Conversions between numbers and text, as Python's `'%d'`, `'{:02d}'`,
    `'{:04x}'` formats and its `int(str)` constructor perform them, and the
    few string operations the core uses (`split`, `lstrip`, `lower`). */
module Text {
  import opened Base

  // ---------------------------------------------------------------------
  // Decimal digits

  predicate IsDigit(c: char) { '0' <= c <= '9' }

  predicate AllDigits(s: string) { forall i :: 0 <= i < |s| ==> IsDigit(s[i]) }

  function DigitChar(d: nat): (c: char)
    requires d < 10
    ensures IsDigit(c) && c as int - '0' as int == d
  {
    (d + '0' as int) as char
  }

  function DigitValue(c: char): nat
    requires IsDigit(c)
  {
    c as int - '0' as int
  }

  /** Python's `'%d' % n` for a non-negative n: the shortest decimal numeral. */
  function NatToDecimal(n: nat): (s: string)
    ensures 1 <= |s| && AllDigits(s)
    ensures s[0] == '0' ==> n == 0
    ensures n < 10 <==> |s| == 1
  {
    if n < 10 then [DigitChar(n)] else NatToDecimal(n / 10) + [DigitChar(n % 10)]
  }

  /** The number a string of decimal digits denotes (leading zeros allowed). */
  function DecimalValue(s: string): nat
    requires AllDigits(s)
  {
    if s == [] then 0 else 10 * DecimalValue(s[..|s| - 1]) + DigitValue(s[|s| - 1])
  }

  lemma {:induction false} DecimalRoundTrip(n: nat)
    ensures DecimalValue(NatToDecimal(n)) == n
  {
    if n >= 10 {
      var s := NatToDecimal(n);
      assert s[..|s| - 1] == NatToDecimal(n / 10);
      DecimalRoundTrip(n / 10);
    }
  }

  lemma {:induction false} LeadingZero(s: string)
    requires AllDigits(s)
    ensures AllDigits("0" + s) && DecimalValue("0" + s) == DecimalValue(s)
  {
    var t := "0" + s;
    if s != [] {
      assert t[..|t| - 1] == "0" + s[..|s| - 1];
      LeadingZero(s[..|s| - 1]);
    }
  }

  /** Python's `'%d' % i` and `'{:d}'.format(i)`. */
  function IntToDecimal(i: int): string
  {
    if i < 0 then "-" + NatToDecimal(-i) else NatToDecimal(i)
  }

  /** The text of `i` is a run of digits denoting `|i|`, after a '-' when
      `i` is negative. */
  lemma IntToDecimalValue(i: int)
    ensures var s := IntToDecimal(i);
      && (i >= 0 ==> AllDigits(s) && DecimalValue(s) == i)
      && (i < 0 ==> |s| >= 2 && s[0] == '-' && AllDigits(s[1..]) && DecimalValue(s[1..]) == -i)
  {
    if i < 0 {
      DecimalRoundTrip(-i);
      assert IntToDecimal(i)[1..] == NatToDecimal(-i);
    } else {
      DecimalRoundTrip(i);
    }
  }

  /** Python's `'{:02d}'.format(i)`: zero-padded to at least two characters. */
  function Pad2(i: int): (s: string)
    ensures |s| >= 2
    ensures i >= 0 ==> AllDigits(s) && DecimalValue(s) == i
    ensures i >= 10 ==> s == NatToDecimal(i)
    ensures i < 0 ==> s == "-" + NatToDecimal(-i)
  {
    if 0 <= i < 10 then
      DecimalRoundTrip(i);
      LeadingZero(NatToDecimal(i));
      "0" + NatToDecimal(i)
    else
      DecimalRoundTrip(if i < 0 then -i else i);
      IntToDecimal(i)
  }

  // ---------------------------------------------------------------------
  // Hexadecimal digits

  function HexDigit(d: nat): (c: char)
    requires d < 16
  {
    if d < 10 then (d + '0' as int) as char else (d - 10 + 'a' as int) as char
  }

  predicate IsLowerHex(c: char) { '0' <= c <= '9' || 'a' <= c <= 'f' }

  function HexValue(c: char): nat
    requires IsLowerHex(c)
  {
    if c <= '9' then c as int - '0' as int else c as int - 'a' as int + 10
  }

  /** Python's `'{:04x}'.format(r)` for a 16-bit value. */
  function Hex4(r: nat): (s: string)
    requires r < 0x1_0000
    ensures |s| == 4 && forall i :: 0 <= i < 4 ==> IsLowerHex(s[i])
    ensures 4096 * HexValue(s[0]) + 256 * HexValue(s[1]) + 16 * HexValue(s[2]) + HexValue(s[3]) == r
  {
    var q1, d0 := r / 16, r % 16;
    var q2, d1 := q1 / 16, q1 % 16;
    var d3, d2 := q2 / 16, q2 % 16;
    HexDigitValue(d0); HexDigitValue(d1); HexDigitValue(d2); HexDigitValue(d3);
    [HexDigit(d3), HexDigit(d2), HexDigit(d1), HexDigit(d0)]
  }

  lemma HexDigitValue(d: nat)
    requires d < 16
    ensures IsLowerHex(HexDigit(d)) && HexValue(HexDigit(d)) == d
  {
  }

  // ---------------------------------------------------------------------
  // Python's int(str)

  /** Characters that `int()` strips around its argument (`str.isspace`). */
  predicate IsSpace(c: char) {
    var k := c as int;
    if k <= 32 then 9 <= k <= 13 || 28 <= k
    else if k < 0x85 then false
    else (k == 0x85 || k == 0xA0 || k == 0x1680 || 0x2000 <= k <= 0x200A
          || k == 0x2028 || k == 0x2029 || k == 0x202F || k == 0x205F || k == 0x3000)
  }

  lemma DigitIsNotSpace(c: char)
    requires IsDigit(c)
    ensures !IsSpace(c)
  {
  }

  function StripLeft(s: string): (r: string)
    ensures |r| <= |s| && r == s[|s| - |r|..]
    ensures r != [] ==> !IsSpace(r[0])
  {
    if s != [] && IsSpace(s[0]) then StripLeft(s[1..]) else s
  }

  function StripRight(s: string): (r: string)
    ensures |r| <= |s| && r == s[..|r|]
    ensures r != [] ==> !IsSpace(r[|r| - 1])
  {
    if s != [] && IsSpace(s[|s| - 1]) then StripRight(s[..|s| - 1]) else s
  }

  /** Digits with single underscores between them, as `int()` accepts. */
  predicate IsDigitGroups(s: string) {
    && |s| > 0
    && IsDigit(s[0]) && IsDigit(s[|s| - 1])
    && (forall i :: 0 <= i < |s| ==> IsDigit(s[i]) || s[i] == '_')
    && (forall i :: 0 <= i < |s| - 1 ==> !(s[i] == '_' && s[i + 1] == '_'))
  }

  function DropUnderscores(s: string): (r: string)
    requires forall i :: 0 <= i < |s| ==> IsDigit(s[i]) || s[i] == '_'
    ensures AllDigits(r)
    ensures AllDigits(s) ==> r == s
  {
    if s == [] then []
    else (if s[0] == '_' then [] else [s[0]]) + DropUnderscores(s[1..])
  }

  /** The default of `sys.get_int_max_str_digits()`: `int()` refuses to
      convert a decimal string of more digits than this. */
  const IntMaxStrDigits := 4300

  /** Python's `int(s)` on a string: `None` where it raises ValueError.
      Decimal digits outside ASCII are not modelled. */
  function ParseInt(s: string): Option<int> {
    ParseStripped(StripRight(StripLeft(s)))
  }

  /** `int()` on text with the surrounding white space removed: an
      optional sign, then digit groups of at most `IntMaxStrDigits`
      digits in all. */
  function ParseStripped(t: string): Option<int> {
    var neg := |t| > 0 && t[0] == '-';
    var body := if |t| > 0 && (t[0] == '-' || t[0] == '+') then t[1..] else t;
    if !IsDigitGroups(body) || |DropUnderscores(body)| > IntMaxStrDigits then None
    else
      var v := DecimalValue(DropUnderscores(body));
      Some(if neg then -(v as int) else v)
  }

  lemma ParseStrippedDigits(t: string)
    requires |t| > 0 && AllDigits(t)
    ensures ParseStripped(t) == if |t| <= IntMaxStrDigits then Some(DecimalValue(t) as int) else None
  {
    DigitsAreGroups(t);
  }

  lemma DigitsAreGroups(s: string)
    requires |s| > 0 && AllDigits(s)
    ensures IsDigitGroups(s)
  {
  }

  lemma StripDigits(s: string)
    requires |s| > 0 && AllDigits(s)
    ensures StripRight(StripLeft(s)) == s
  {
    assert StripLeft(s) == s by { DigitIsNotSpace(s[0]); }
    DigitIsNotSpace(s[|s| - 1]);
  }

  // ---------------------------------------------------------------------
  // str.split, str.lstrip, str.lower, str.startswith

  /** `s.split(c)[0]`: everything before the first `c`. */
  function BeforeFirst(s: string, c: char): (r: string)
    ensures c !in r
    ensures r <= s
    ensures |r| < |s| ==> s[|r|] == c
  {
    if s == [] || s[0] == c then [] else [s[0]] + BeforeFirst(s[1..], c)
  }

  /** `s.partition(c)[2]`: everything after the first `c`, if there is one. */
  function AfterFirst(s: string, c: char): (r: Option<string>)
    ensures r.Some? <==> c in s
    ensures r.Some? ==> s == BeforeFirst(s, c) + [c] + r.value
  {
    if s == [] then None
    else if s[0] == c then Some(s[1..])
    else match AfterFirst(s[1..], c)
      case None => None
      case Some(t) => Some(t)
  }

  lemma {:induction false} SplitJoined(x: string, c: char, y: string)
    requires c !in x
    ensures BeforeFirst(x + [c] + y, c) == x
    ensures AfterFirst(x + [c] + y, c) == Some(y)
  {
    if x != [] {
      assert (x + [c] + y)[1..] == x[1..] + [c] + y;
      SplitJoined(x[1..], c, y);
    } else {
      assert (x + [c] + y)[1..] == y;
    }
  }

  /** `s.lstrip(c)`: all leading copies of `c` removed. */
  function LStrip(s: string, c: char): (r: string)
    ensures |r| <= |s| && r == s[|s| - |r|..]
    ensures r != [] ==> r[0] != c
    ensures forall i :: 0 <= i < |s| - |r| ==> s[i] == c
  {
    if s != [] && s[0] == c then LStrip(s[1..], c) else s
  }

  /** `str.lower()` on ASCII letters; other characters are left alone. */
  function LowerAscii(s: string): (r: string)
    ensures |r| == |s|
    ensures forall i :: 0 <= i < |s| ==> r[i] == LowerChar(s[i])
  {
    if s == [] then [] else [LowerChar(s[0])] + LowerAscii(s[1..])
  }

  function LowerChar(c: char): char {
    if 'A' <= c <= 'Z' then (c as int - 'A' as int + 'a' as int) as char else c
  }

  lemma LowerAsciiIdempotent(s: string)
    ensures LowerAscii(LowerAscii(s)) == LowerAscii(s)
  {
    var once := LowerAscii(s);
    assert forall i :: 0 <= i < |s| ==> LowerChar(once[i]) == once[i];
  }
}
