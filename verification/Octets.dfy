/** Octet strings, the searches the HTTP code makes in them, and its numerals.

An octet is a `char`. Nothing below depends on the character range ending at
255, so every statement covers all octet strings.
*/
module Octets {

  datatype Option<+T> = None | Some(value: T)

  /** First value that a 64-bit unsigned integer cannot hold. */
  const TWO_64: nat := 0x1_0000_0000_0000_0000
  const SIZE_MAX: nat := TWO_64 - 1

  /** 64-bit unsigned subtraction and addition, wrap-around included. */
  function Sub64(a: nat, b: nat): (r: nat)
    ensures b <= a < TWO_64 ==> r == a - b
  {
    (a - b) % TWO_64
  }

  function Add64(a: nat, b: nat): (r: nat)
    ensures a + b < TWO_64 ==> r == a + b
  {
    (a + b) % TWO_64
  }

  const CRLF: string := "\r\n"

  /** Index of the first `c` in `s`; `|s|` plays the part of `npos`. */
  function Find(s: string, c: char): (i: nat)
    ensures i <= |s|
    ensures i < |s| ==> s[i] == c
    ensures c !in s[..i]
  {
    if s == "" || s[0] == c then
      0
    else
      var i := 1 + Find(s[1..], c);
      assert s[..i] == [s[0]] + s[1..][..i - 1];
      i
  }

  /** The three postconditions of `Find` leave only one answer. */
  lemma {:induction false} FindUnique(s: string, c: char, i: nat)
    requires i <= |s|
    requires i < |s| ==> s[i] == c
    requires c !in s[..i]
    ensures Find(s, c) == i
  {
  }

  lemma {:induction false} FindAppend(a: string, b: string, c: char)
    ensures Find(a + b, c) == if c in a then Find(a, c) else |a| + Find(b, c)
  {
    var i := if c in a then Find(a, c) else |a| + Find(b, c);
    if c in a {
      assert a[..|a|] == a;
      assert (a + b)[..i] == a[..i];
    } else {
      assert (a + b)[..i] == a + b[..Find(b, c)];
    }
    FindUnique(a + b, c, i);
  }

  /** Concatenation of the reads, or pieces, of a transfer. */
  function Concat(pieces: seq<string>): (s: string)
  {
    if pieces == [] then "" else pieces[0] + Concat(pieces[1..])
  }

  lemma {:induction false} ConcatAppend(a: seq<string>, b: seq<string>)
    ensures Concat(a + b) == Concat(a) + Concat(b)
  {
    if a == [] {
      assert a + b == b;
    } else {
      assert (a + b)[1..] == a[1..] + b;
      ConcatAppend(a[1..], b);
    }
  }

  // ── numerals ────────────────────────────────────────────────────────────────

  type Base = b: nat | b == 10 || b == 16 witness 10

  /** Value of a digit character as `std::from_chars` reads it, or 16 for a
      character that is no digit in any base used here. */
  function DigitValue(c: char): (d: nat)
    ensures d <= 16
  {
    if '0' <= c <= '9' then c as int - '0' as int
    else if 'a' <= c <= 'f' then c as int - 'a' as int + 10
    else if 'A' <= c <= 'F' then c as int - 'A' as int + 10
    else 16
  }

  predicate AllDigits(s: string, base: Base)
  {
    forall i :: 0 <= i < |s| ==> DigitValue(s[i]) < base
  }

  function NumeralValue(s: string, base: Base): (n: nat)
  {
    if s == "" then 0 else NumeralValue(s[..|s| - 1], base) * base + DigitValue(s[|s| - 1])
  }

  /** `number` and `parse_integer`: the whole text must be digits, at least one,
      and the value must fit 64 bits. */
  function ParseNumber(s: string, base: Base): (n: Option<nat>)
    ensures n.Some? ==> n.value < TWO_64
  {
    if s != "" && AllDigits(s, base) && NumeralValue(s, base) < TWO_64
    then Some(NumeralValue(s, base)) else None
  }

  function DigitChar(d: nat): (c: char)
    requires d < 16
    ensures DigitValue(c) == d
    ensures '0' <= c <= '9' || 'a' <= c <= 'f'
  {
    ['0', '1', '2', '3', '4', '5', '6', '7', '8', '9', 'a', 'b', 'c', 'd', 'e', 'f'][d]
  }

  /** Shortest numeral of `n`: `std::to_string` in base 10, `to_hex` in base 16. */
  function Numeral(n: nat, base: Base): (s: string)
    ensures s != ""
    ensures forall i :: 0 <= i < |s| ==> '0' <= s[i] <= '9' || 'a' <= s[i] <= 'f'
    ensures AllDigits(s, base)
    decreases n
  {
    if n < base then [DigitChar(n)] else Numeral(n / base, base) + [DigitChar(n % base)]
  }

  lemma {:induction false} NumeralRoundTrip(n: nat, base: Base)
    ensures NumeralValue(Numeral(n, base), base) == n
    ensures n < TWO_64 ==> ParseNumber(Numeral(n, base), base) == Some(n)
    decreases n
  {
    hide DigitValue, DigitChar;
    var s := Numeral(n, base);
    if n < base {
      assert s[..|s| - 1] == "";
    } else {
      var q := n / base;
      NumeralRoundTrip(q, base);
      assert s[..|s| - 1] == Numeral(q, base);
      assert n == q * base + n % base by { DivisionIdentity(n, base); }
    }
  }

  lemma DivisionIdentity(n: nat, base: Base)
    ensures n / base * base + n % base == n
  {
    if base == 10 { assert n / 10 * 10 + n % 10 == n; }
  }

  lemma {:induction false} NumeralLength(n: nat, base: Base, k: nat)
    requires n < Power(base, k) && k >= 1
    ensures |Numeral(n, base)| <= k
    decreases k
  {
    if n >= base {
      assert k > 1 by { assert Power(base, 1) == base * Power(base, 0); }
      assert n / base < Power(base, k - 1);
      NumeralLength(n / base, base, k - 1);
    }
  }

  function Power(b: nat, k: nat): (p: nat)
  {
    if k == 0 then 1 else b * Power(b, k - 1)
  }

  lemma SixteenHexDigits()
    ensures Power(16, 16) == TWO_64
  {
    assert Power(16, 2) == 0x100;
    assert Power(16, 4) == 0x1_0000;
    assert Power(16, 6) == 0x100_0000;
    assert Power(16, 8) == 0x1_0000_0000;
    assert Power(16, 10) == 0x100_0000_0000;
    assert Power(16, 12) == 0x1_0000_0000_0000;
    assert Power(16, 14) == 0x100_0000_0000_0000;
  }

  // ── which texts spell a number ──────────────────────────────────────────────

  function LowerDigit(c: char): (r: char)
  {
    if 'A' <= c <= 'F' then (c as int - 'A' as int + 'a' as int) as char else c
  }

  function Lowered(s: string): (r: string)
    ensures |r| == |s| && forall i :: 0 <= i < |s| ==> r[i] == LowerDigit(s[i])
  {
    seq(|s|, i requires 0 <= i < |s| => LowerDigit(s[i]))
  }

  /** `k` zeros, then the numeral of `n` in digits of either case. */
  predicate Spells(s: string, k: nat, n: nat, base: Base)
  {
    k <= |s| && (forall i :: 0 <= i < k ==> s[i] == '0') && Lowered(s[k..]) == Numeral(n, base)
  }

  lemma LowerSame(c: char)
    ensures DigitValue(LowerDigit(c)) == DigitValue(c)
    ensures DigitValue(c) < 16 ==> LowerDigit(c) == DigitChar(DigitValue(c))
    ensures DigitValue(c) == 0 <==> c == '0'
  {
  }

  lemma {:induction false} LoweredValue(s: string, base: Base)
    ensures NumeralValue(Lowered(s), base) == NumeralValue(s, base)
    ensures AllDigits(Lowered(s), base) <==> AllDigits(s, base)
  {
    hide DigitValue, LowerDigit;
    forall i | 0 <= i < |s| ensures DigitValue(Lowered(s)[i]) == DigitValue(s[i]) {
      LowerSame(s[i]);
    }
    if s != "" {
      var n := |s| - 1;
      LoweredValue(s[..n], base);
      assert Lowered(s)[..n] == Lowered(s[..n]);
      LowerSame(s[n]);
    }
  }

  lemma {:induction false} ZerosCountNothing(s: string, k: nat, base: Base)
    requires k <= |s| && forall i :: 0 <= i < k ==> s[i] == '0'
    ensures NumeralValue(s, base) == NumeralValue(s[k..], base)
  {
    if |s| > k {
      var n := |s| - 1;
      ZerosCountNothing(s[..n], k, base);
      assert s[..n][k..] == s[k..][..n - k] && s[k..][n - k] == s[n];
    } else if s != "" {
      assert s[|s| - 1] == '0';
      assert NumeralValue(s[|s|..], base) == 0;
      ZerosCountNothing(s[..|s| - 1], |s| - 1, base);
      assert s[..|s| - 1][|s| - 1..] == "";
    }
  }

  /** Digits without a needless zero in front are the numeral of their value. */
  lemma {:induction false} CanonicalNumeral(s: string, base: Base)
    requires s != "" && AllDigits(s, base) && (|s| == 1 || s[0] != '0')
    ensures Lowered(s) == Numeral(NumeralValue(s, base), base)
    ensures s[0] != '0' ==> NumeralValue(s, base) >= 1
  {
    hide DigitValue, DigitChar, LowerDigit;
    var n := |s| - 1;
    var d := DigitValue(s[n]);
    LowerSame(s[n]);
    if n == 0 {
      assert s[..0] == "";
      assert NumeralValue(s, base) == d;
      assert Lowered(s) == [LowerDigit(s[0])];
    } else {
      var v := NumeralValue(s[..n], base);
      CanonicalNumeral(s[..n], base);
      assert Lowered(s) == Lowered(s[..n]) + [LowerDigit(s[n])];
      assert (v * base + d) / base == v && (v * base + d) % base == d by { DigitOff(v, d, base); }
      assert v * base + d >= base by { if base == 10 { assert v * 10 >= 10; } else { assert v * 16 >= 16; } }
    }
  }

  lemma DigitOff(v: nat, d: nat, base: Base)
    requires d < base
    ensures (v * base + d) / base == v && (v * base + d) % base == d
  {
    if base == 10 { assert (v * 10 + d) / 10 == v; } else { assert (v * 16 + d) / 16 == v; }
  }

  function LeadingZeros(s: string): (k: nat)
    ensures k <= |s| && (forall i :: 0 <= i < k ==> s[i] == '0') && (k < |s| ==> s[k] != '0')
  {
    if s == "" || s[0] != '0' then 0
    else
      var k := 1 + LeadingZeros(s[1..]);
      assert forall i :: 1 <= i < |s| ==> s[i] == s[1..][i - 1];
      k
  }

  /** A text reads as `n` exactly if it spells `n` and `n` fits 64 bits: leading
      zeros and either case are fine, signs, blanks and longer numbers are not. */
  lemma {:induction false} ParsesExactly(s: string, base: Base, n: nat)
    ensures ParseNumber(s, base) == Some(n) <==> n < TWO_64 && exists k: nat :: Spells(s, k, n, base)
  {
    hide Numeral, LeadingZeros, Lowered, DigitValue;
    if ParseNumber(s, base) == Some(n) {
      var zeros := LeadingZeros(s);
      var k := if zeros == |s| then |s| - 1 else zeros;
      ZerosCountNothing(s, k, base);
      assert |s[k..]| == 1 || s[k..][0] != '0';
      CanonicalNumeral(s[k..], base);
      assert Spells(s, k, n, base);
    }
    if n < TWO_64 && exists k: nat :: Spells(s, k, n, base) {
      var k: nat :| Spells(s, k, n, base);
      ZerosCountNothing(s, k, base);
      LoweredValue(s[k..], base);
      NumeralRoundTrip(n, base);
      assert |s[k..]| > 0;
      LowerSame('0');
      forall i | 0 <= i < |s| ensures DigitValue(s[i]) < base {
        assert i >= k ==> s[i] == s[k..][i - k];
      }
    }
  }
}
