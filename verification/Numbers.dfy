/** Numbers as text: itoa, strrev, atoi_s and the %#x conversion of lib.c. */
module Numbers {
  import opened Machine
  import opened Arithmetic
  import opened FileSystem

  const MINUS: Byte := 45
  const ZERO: Byte := 48

  /** "0123456789ABCDEFGHIJKLMNOPQRSTUVWXYZ"[d] */
  function Char(d: int): (c: Byte)
    requires 0 <= d < 36
    ensures c != 0
  {
    if d < 10 then ZERO + d else 65 + d - 10
  }

  /** The digit a character stands for. */
  function Digit(c: Byte): (d: int)
    ensures -1 <= d < 36
    ensures d >= 0 ==> Char(d) == c
  {
    if 48 <= c <= 57 then (var x: int := c; x - 48) else if 65 <= c <= 90 then (var x: int := c; x - 55) else -1
  }

  predicate IsNumeral(s: seq<Byte>, radix: nat) { forall i :: 0 <= i < |s| ==> 0 <= Digit(s[i]) < radix }

  /** What a numeral stands for. */
  function Eval(s: seq<Byte>, radix: nat): (v: nat)
    requires IsNumeral(s, radix)
  {
    if s == [] then 0 else Eval(s[..|s| - 1], radix) * radix + Digit(s[|s| - 1])
  }

  /** The shortest numeral of v. */
  function Numeral(v: nat, radix: nat): (r: seq<Byte>)
    requires 2 <= radix <= 36
    ensures r != [] && 0 !in r
  {
    if v < radix then [Char(v)] else Smaller(v, radix); Numeral(v / radix, radix) + [Char(v % radix)]
  }

  lemma Smaller(v: nat, radix: nat)
    requires 2 <= radix && radix <= v
    ensures 0 < v / radix < v
  {
    Parts(v, radix);
    var q := v / radix;
    if q <= 0 { MulMono(q, 0, radix); }
    MulMono(2, radix, q);
    assert q * radix == radix * q;
  }

  /** The numeral evaluates to the number, in every radix. */
  lemma {:induction false} NumeralEvaluates(v: nat, radix: nat)
    requires 2 <= radix <= 36
    ensures IsNumeral(Numeral(v, radix), radix) && Eval(Numeral(v, radix), radix) == v
    decreases v
  {
    var s := Numeral(v, radix);
    if v < radix {
      assert s[..0] == [];
    } else {
      Smaller(v, radix);
      NumeralEvaluates(v / radix, radix);
      Parts(v, radix);
      assert s[..|s| - 1] == Numeral(v / radix, radix);
    }
  }

  /** ... and has no leading zero. */
  lemma {:induction false} NumeralIsShortest(v: nat, radix: nat)
    requires 2 <= radix <= 36 && v > 0
    ensures Digit(Numeral(v, radix)[0]) > 0
    decreases v
  {
    if v >= radix {
      Smaller(v, radix);
      NumeralIsShortest(v / radix, radix);
    }
  }

  // ---------------------------------------------------------------- itoa

  function Reversed(s: seq<Byte>): (r: seq<Byte>)
    ensures |r| == |s| && forall i :: 0 <= i < |s| ==> r[i] == s[|s| - 1 - i]
  {
    seq(|s|, i requires 0 <= i < |s| => s[|s| - 1 - i])
  }

  /** strrev, on the n characters from index at on. */
  method StrRev(s: array<Byte>, at: nat, n: nat)
    requires at + n <= s.Length
    modifies s
    ensures s[at..at + n] == Reversed(old(s[at..at + n]))
    ensures forall j :: 0 <= j < s.Length && !(at <= j < at + n) ==> s[j] == old(s[j])
  {
    ghost var m := s[..];
    var beg, end := 0, n - 1;
    while beg < end
      invariant 0 <= beg <= end + 1 && beg + end == n - 1
      invariant forall j :: at <= j < at + beg ==> s[j] == m[at + at + n - 1 - j]
      invariant forall j :: at + end < j < at + n ==> s[j] == m[at + at + n - 1 - j]
      invariant forall j :: at + beg <= j <= at + end ==> s[j] == m[j]
      invariant forall j :: 0 <= j < s.Length && !(at <= j < at + n) ==> s[j] == m[j]
    {
      var tmp := s[at + end];
      s[at + end] := s[at + beg];
      s[at + beg] := tmp;
      beg, end := beg + 1, end - 1;
    }
    PartReversed(m, s[..], at, n);
    assert s[..][at..at + n] == s[at..at + n] && m[at..at + n] == old(s[at..at + n]);
  }

  lemma PartReversed(m: seq<Byte>, r: seq<Byte>, at: nat, n: nat)
    requires at + n <= |m| == |r| && forall j :: at <= j < at + n ==> r[j] == m[at + at + n - 1 - j]
    ensures r[at..at + n] == Reversed(m[at..at + n])
  {
  }

  /** What is still to be put in front of the digits already written. */
  ghost function Rest(v: nat, radix: nat): seq<Byte>
    requires 2 <= radix <= 36
  {
    if v == 0 then [] else Numeral(v, radix)
  }

  lemma RestStep(v: nat, radix: nat)
    requires 2 <= radix <= 36 && v > 0
    ensures v / radix < v && Rest(v, radix) == Rest(v / radix, radix) + [Char(v % radix)]
  {
    if v >= radix { Smaller(v, radix); } else { DivUnique(v, radix, 0, v); }
  }

  lemma Prepend(a: seq<Byte>, c: Byte, s: seq<Byte>)
    ensures a + Reversed(s + [c]) == (a + [c]) + Reversed(s)
  {
    assert Reversed(s + [c]) == [c] + Reversed(s);
  }

  /** The loop of itoa: the digits, lowest place first. */
  method WriteDigits(value: U32, buf: array<Byte>, at: nat, radix: nat) returns (n: nat)
    requires 2 <= radix <= 36 && value > 0 && at + |Numeral(value, radix)| < buf.Length
    modifies buf
    ensures n == |Numeral(value, radix)| && Numeral(value, radix) == Reversed(buf[at..at + n])
    ensures forall j :: 0 <= j < buf.Length && !(at <= j < at + n) ==> buf[j] == old(buf[j])
  {
    ghost var text := Numeral(value, radix);
    n := 0;
    var v := value;
    while v > 0
      invariant 0 <= v && n + |Rest(v, radix)| == |text|
      invariant text == Rest(v, radix) + Reversed(buf[at..at + n])
      invariant forall j :: 0 <= j < buf.Length && !(at <= j < at + n) ==> buf[j] == old(buf[j])
    {
      ghost var s := buf[at..at + n];
      DigitStep(text, v, radix, s);
      var c := Char(v % radix);
      buf[at + n] := c;
      assert buf[at..at + n + 1] == s + [c];
      n := n + 1;
      v := v / radix;
    }
  }

  lemma DigitStep(text: seq<Byte>, v: nat, radix: nat, s: seq<Byte>)
    requires 2 <= radix <= 36 && v > 0 && text == Rest(v, radix) + Reversed(s)
    ensures v / radix < v && |Rest(v / radix, radix)| + 1 == |Rest(v, radix)|
    ensures text == Rest(v / radix, radix) + Reversed(s + [Char(v % radix)])
  {
    RestStep(v, radix);
    Prepend(Rest(v / radix, radix), Char(v % radix), s);
  }

  lemma TextAt(buf: seq<Byte>, at: nat, text: seq<Byte>)
    requires at + |text| < |buf| && buf[at..at + |text|] == text && buf[at + |text|] == 0 && 0 !in text
    ensures CString(buf[at..]) == text
  {
    assert buf[at..][..|text|] == text;
    CStringUnique(buf[at..], |text|);
  }

  /** itoa, at index at of a buffer with room for the numeral and its NUL. */
  method Itoa(value: U32, buf: array<Byte>, at: nat, radix: nat)
    requires 2 <= radix <= 36 && at + |Numeral(value, radix)| < buf.Length
    modifies buf
    ensures CString(buf[at..]) == Numeral(value, radix)
    ensures forall j :: 0 <= j < buf.Length && !(at <= j <= at + |Numeral(value, radix)|) ==> buf[j] == old(buf[j])
  {
    if value == 0 {
      buf[at] := ZERO;
      buf[at + 1] := 0;
      TextAt(buf[..], at, [ZERO]);
      assert buf[..][at..] == buf[at..];
      return;
    }
    var n := WriteDigits(value, buf, at, radix);
    ghost var digits := buf[at..at + n];
    buf[at + n] := 0;
    assert buf[at..at + n] == digits;
    StrRev(buf, at, n);
    TextAt(buf[..], at, Numeral(value, radix));
    assert buf[..][at..] == buf[at..];
  }

  // ---------------------------------------------------------------- %#x

  /** A number below radix to the k has at most k digits. */
  lemma {:induction false} HexLength(v: nat, k: nat)
    requires k > 0 && v < Pow16(k)
    ensures |Numeral(v, 16)| <= k
    decreases k
  {
    if v >= 16 {
      HexLength(v / 16, k - 1);
    }
  }

  function Pow16(k: nat): (r: nat) { if k == 0 then 1 else 16 * Pow16(k - 1) }

  lemma HexFits(v: U32)
    ensures |Numeral(v, 16)| <= 8
  {
    assert Pow16(4) == 0x1_0000;
    assert Pow16(8) == WORD;
    HexLength(v, 8);
  }

  /** Leading zeros change nothing. */
  lemma {:induction false} LeadingZeros(k: nat, s: seq<Byte>, radix: nat)
    requires IsNumeral(s, radix) && radix >= 1
    ensures IsNumeral(seq(k, _ => ZERO) + s, radix) && Eval(seq(k, _ => ZERO) + s, radix) == Eval(s, radix)
    decreases k + |s|
  {
    var z := seq(k, _ => ZERO);
    if s != [] {
      LeadingZeros(k, s[..|s| - 1], radix);
      assert (z + s)[..|z + s| - 1] == z + s[..|s| - 1];
    } else if k > 0 {
      LeadingZeros(k - 1, [], radix);
      assert (z + s)[..k - 1] == seq(k - 1, _ => ZERO) + [];
    }
  }

  /** The %#x branch of printf: always eight digits, always the right value. */
  method PrintHex(v: U32) returns (text: seq<Byte>)
    ensures |text| == 8 && IsNumeral(text, 16) && Eval(text, 16) == v
  {
    HexFits(v);
    var buf := new Byte[64](_ => 0);
    Itoa(v, buf, 8, 16);
    ghost var digits := Numeral(v, 16);
    assert buf[8..8 + |digits|] == digits && buf[8 + |digits|] == 0 by {
      assert CString(buf[8..]) == digits;
    }
    var start := 0;
    while buf[8 + start] != 0
      invariant 0 <= start <= |digits|
      decreases |digits| - start
    {
      start := start + 1;
    }
    assert start == |digits|;
    var i := start;
    while i < 8
      invariant start <= i <= 8
      invariant forall j :: start <= j < i ==> buf[j] == ZERO
      invariant buf[8..8 + start] == digits
    {
      buf[i] := ZERO;
      i := i + 1;
    }
    text := buf[start..8 + start];
    assert text == seq(8 - start, _ => ZERO) + digits;
    NumeralEvaluates(v, 16);
    LeadingZeros(8 - start, digits, 16);
  }

  // ---------------------------------------------------------------- atoi_s

  /** x as a 32-bit signed integer. */
  function Signed(x: int): (r: int)
    ensures -0x8000_0000 <= r < 0x8000_0000
    ensures (r - x) % WORD == 0
  {
    (x + 0x8000_0000) % WORD - 0x8000_0000
  }

  lemma SignedUnique(x: int, r: int, k: int)
    requires -0x8000_0000 <= r < 0x8000_0000 && x == r + k * WORD
    ensures Signed(x) == r
  {
  }

  /** Multiplying and adding in 32 bits is multiplying and adding, in 32 bits. */
  lemma SignedStep(x: int, m: int, d: int)
    ensures Signed(Signed(x) * m + d) == Signed(x * m + d)
  {
    var k := (x - Signed(x)) / WORD;
    assert x == Signed(x) + k * WORD;
    var r := Signed(Signed(x) * m + d);
    var k' := (Signed(x) * m + d - r) / WORD;
    assert Signed(x) * m + d == r + k' * WORD;
    assert x * m == Signed(x) * m + k * m * WORD;
    SignedUnique(x * m + d, r, k' + k * m);
  }

  /** What atoi_s answers: None unless the string is an optional minus and decimal digits (perhaps
      none after a minus); then the number, reduced to 32 bits. */
  function Atoi(s: seq<Byte>): Option<int> {
    if s == [] then None
    else if s[0] == MINUS then (if IsNumeral(s[1..], 10) then Some(Signed(-1 * Eval(s[1..], 10))) else None)
    else if IsNumeral(s, 10) then Some(Signed(Eval(s, 10))) else None
  }

  lemma NextDigit(t: seq<Byte>, i: nat)
    requires i < |t| && IsNumeral(t[..i], 10) && 0 <= Digit(t[i]) < 10
    ensures IsNumeral(t[..i + 1], 10)
    ensures Signed(Signed(Signed(Eval(t[..i], 10)) * 10) + Digit(t[i])) == Signed(Eval(t[..i + 1], 10))
  {
    var v := Eval(t[..i], 10);
    assert t[..i + 1][..i] == t[..i];
    SignedStep(v, 10, 0);
    SignedStep(v * 10, 1, Digit(t[i]));
  }

  /** The loop of atoi_s, over the digits from index from on. */
  method ReadDigits(str: seq<Byte>, from: nat) returns (ok: bool, res: int)
    requires from <= |CString(str)| < |str|
    ensures ok <==> IsNumeral(CString(str)[from..], 10)
    ensures ok ==> res == Signed(Eval(CString(str)[from..], 10))
  {
    ghost var t := CString(str)[from..];
    res := 0;
    var i := 0;
    while str[from + i] != 0
      invariant 0 <= i <= |t|
      invariant IsNumeral(t[..i], 10) && res == Signed(Eval(t[..i], 10))
      decreases |t| - i
    {
      assert i < |t| && t[i] == str[from + i];
      var c: int := str[from + i];
      if c < 48 || c > 57 {
        assert !(0 <= Digit(t[i]) < 10);
        return false, 0;
      }
      NextDigit(t, i);
      res := Signed(res * 10);
      res := Signed(res + (c - 48));
      i := i + 1;
    }
    assert t[..i] == t;
    return true, res;
  }

  /** atoi_s. */
  method AtoiS(str: seq<Byte>) returns (r: Option<int>)
    requires 0 in str
    ensures r == Atoi(CString(str))
  {
    if str[0] == 0 { return None; }
    var sign, from := 1, 0;
    if str[0] == MINUS { sign, from := -1, 1; }
    var ok, res := ReadDigits(str, from);
    assert CString(str)[0..] == CString(str);
    if !ok { return None; }
    SignedStep(Eval(CString(str)[from..], 10), sign, 0);
    return Some(Signed(res * sign));
  }

  /** Printing and reading back: right exactly for the numbers a signed word can hold. */
  lemma AtoiItoa(v: U32)
    ensures Atoi(Numeral(v, 10)) == Some(v) <==> v < 0x8000_0000
  {
    NumeralEvaluates(v, 10);
    assert Numeral(v, 10)[0] != MINUS by { assert Digit(MINUS) == -1; }
    if v < 0x8000_0000 { SignedUnique(v, v, 0); }
  }

  /** 48879 in hexadecimal is BEEF: capital letters, highest digit first. */
  lemma HexExample(v: nat)
    requires v == 0xBEEF
    ensures Numeral(v, 16) == [66, 69, 69, 70]
  {
    assert v / 16 == 0xBEE && v % 16 == 15;
    assert 0xBEE / 16 == 0xBE && 0xBEE % 16 == 14;
    assert 0xBE / 16 == 11 && 0xBE % 16 == 14;
    var w := v / 16;
    var x := w / 16;
    assert Numeral(x / 16, 16) == [66];
    assert Numeral(x, 16) == [66] + [69];
    assert Numeral(w, 16) == [66, 69] + [69];
    assert Numeral(v, 16) == [66, 69, 69] + [70];
  }

  /** The first number that does not read back. */
  lemma FirstWrap()
    ensures Atoi(Numeral(0x8000_0000, 10)) == Some(-0x8000_0000)
  {
    NumeralEvaluates(0x8000_0000, 10);
    assert Numeral(0x8000_0000, 10)[0] != MINUS by { assert Digit(MINUS) == -1; }
    SignedUnique(0x8000_0000, -0x8000_0000, 1);
  }

  /** A minus sign alone is taken for zero; every other string that is accepted has a digit. */
  lemma LoneMinus(s: seq<Byte>)
    ensures Atoi([MINUS]) == Some(0)
    ensures Atoi(s).Some? && (forall i :: 0 <= i < |s| ==> !(0 <= Digit(s[i]) < 10)) <==> s == [MINUS]
  {
    assert [MINUS][1..] == [];
    if |s| > 1 { assert s[1..][0] == s[1]; }
  }

  /** And %d, which prints a minus and the numeral of the negated number, for all negative numbers. */
  lemma AtoiNegative(v: int)
    requires -0x8000_0000 <= v < 0
    ensures Atoi([MINUS] + Numeral(-v, 10)) == Some(v)
  {
    NumeralEvaluates(-v, 10);
    assert ([MINUS] + Numeral(-v, 10))[1..] == Numeral(-v, 10);
    SignedUnique(v, v, 0);
  }
}
