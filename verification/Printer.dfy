/** The text of a number: what printf-stdarg.c writes for it, and how it reads back. */
module Numerals {

  /** int and unsigned int have 32 bits. */
  const WORD := 0x1_0000_0000
  newtype Int32 = i: int | -0x8000_0000 <= i < 0x8000_0000

  function Unsigned(i: Int32): nat {
    if i < 0 then i as int + WORD else i as nat
  }

  predicate IsLetterBase(letbase: char) { letbase == 'a' || letbase == 'A' }

  /** t + letbase - '0' - 10, for digits from ten on. */
  function DigitChar(t: nat, letbase: char): char
    requires t < 36 && IsLetterBase(letbase)
  {
    if t >= 10 then ((t - 10) + letbase as int) as char else (t + '0' as int) as char
  }

  function DigitValue(c: char): nat {
    if '0' <= c <= '9' then (c - '0') as nat
    else if 'a' <= c <= 'z' then (c - 'a') as nat + 10
    else if 'A' <= c <= 'Z' then (c - 'A') as nat + 10
    else 0
  }

  /** u / b and u % b, by subtraction: all that is needed of them is Division. */
  function Quotient(u: nat, b: nat): (q: nat)
    requires b > 0
    ensures q <= u && (b >= 2 && u > 0 ==> q < u)
  {
    if u < b then 0 else 1 + Quotient(u - b, b)
  }

  function Remainder(u: nat, b: nat): (r: nat)
    requires b > 0
    ensures r < b
  {
    if u < b then u else Remainder(u - b, b)
  }

  lemma {:induction false} Division(u: nat, b: nat)
    requires b > 0
    ensures Quotient(u, b) * b + Remainder(u, b) == u
    decreases u
  {
    if u >= b {
      Division(u - b, b);
      OneMore(Quotient(u - b, b), b);
    }
  }

  lemma OneMore(x: nat, b: nat)
    ensures (1 + x) * b == b + x * b
  {
  }

  lemma DivisionIs(u: nat, b: nat)
    requires b > 0
    ensures Quotient(u, b) == u / b && Remainder(u, b) == u % b
  {
    Division(u, b);
    DivisionUnique(b, Quotient(u, b), Remainder(u, b), u / b, u % b);
  }

  lemma DivisionUnique(b: nat, q: nat, r: nat, q': nat, r': nat)
    requires q * b + r == q' * b + r' && r < b && r' < b
    ensures q == q' && r == r'
  {
    NextMultiple(q, q', b);
    NextMultiple(q', q, b);
  }

  lemma NextMultiple(x: nat, y: nat, b: nat)
    ensures x < y ==> x * b + b <= y * b
  {
    assert x < y ==> (y - x - 1) * b >= 0;
  }

  /** The digits of u, most significant first; none for zero. */
  function Digits(u: nat, b: nat, letbase: char): string
    requires 2 <= b <= 36 && IsLetterBase(letbase)
  {
    if u == 0 then "" else Digits(Quotient(u, b), b, letbase) + [DigitChar(Remainder(u, b), letbase)]
  }

  function Value(s: string, b: nat): nat {
    if s == "" then 0 else Value(s[..|s| - 1], b) * b + DigitValue(s[|s| - 1])
  }

  function Power(b: nat, k: nat): nat {
    if k == 0 then 1 else b * Power(b, k - 1)
  }

  predicate AllDigits(s: string) {
    forall c :: c in s ==> '0' <= c <= '9' || 'a' <= c <= 'z' || 'A' <= c <= 'Z'
  }

  lemma {:induction false} DigitsReadBack(u: nat, b: nat, letbase: char)
    requires 2 <= b <= 36 && IsLetterBase(letbase)
    ensures Value(Digits(u, b, letbase), b) == u && AllDigits(Digits(u, b, letbase))
  {
    if u > 0 {
      var q, r := Quotient(u, b), Remainder(u, b);
      DigitsReadBack(q, b, letbase);
      ValueOfLast(Digits(q, b, letbase), DigitChar(r, letbase), b);
      DigitReadsBack(r, letbase);
      Division(u, b);
    }
  }

  lemma DigitReadsBack(t: nat, letbase: char)
    requires t < 36 && IsLetterBase(letbase)
    ensures DigitValue(DigitChar(t, letbase)) == t && AllDigits([DigitChar(t, letbase)])
  {
  }

  lemma ValueOfLast(s: string, c: char, b: nat)
    ensures Value(s + [c], b) == Value(s, b) * b + DigitValue(c)
  {
    assert (s + [c])[..|s|] == s;
  }

  /** u has at most k digits exactly when it is less than b to the k. */
  lemma {:induction false} DigitsFit(u: nat, b: nat, letbase: char, k: nat)
    requires 2 <= b <= 36 && IsLetterBase(letbase)
    ensures |Digits(u, b, letbase)| <= k <==> u < Power(b, k)
    decreases k
  {
    if k > 0 {
      DigitsFit(Quotient(u, b), b, letbase, k - 1);
      Division(u, b);
      QuotientBelow(u, b, Quotient(u, b), Remainder(u, b), Power(b, k - 1));
    }
  }

  lemma QuotientBelow(u: nat, b: nat, q: nat, r: nat, p: nat)
    requires b > 0 && q * b + r == u && r < b
    ensures q < p <==> u < b * p
  {
    if q < p { assert (q + 1) * b <= p * b; } else { assert p * b <= q * b; }
  }

  /** The text of i before padding. */
  function Natural(i: Int32, b: nat, sg: bool, letbase: char): string
    requires 2 <= b <= 36 && IsLetterBase(letbase)
  {
    if i == 0 then "0"
    else if Negative(i, b, sg) then "-" + Digits(-(i as int), b, letbase)
    else Digits(Unsigned(i), b, letbase)
  }

  predicate Negative(i: Int32, b: nat, sg: bool) {
    sg && b == 10 && i < 0
  }

  function Repeat(c: char, n: int): string {
    if n <= 0 then "" else [c] + Repeat(c, n - 1)
  }

  /** pad: with zeros instead of spaces, on the right instead of the left. */
  function Padded(s: string, width: int, right: bool, zero: bool): string {
    var pad := Repeat(if width > 0 && zero then '0' else ' ', width - |s|);
    if right then s + pad else pad + s
  }

  function Formatted(i: Int32, b: nat, sg: bool, width: nat, right: bool, zero: bool, letbase: char): string
    requires 2 <= b <= 36 && IsLetterBase(letbase)
  {
    if Negative(i, b, sg) && width > 0 && zero then
      "-" + Padded(Digits(-(i as int), b, letbase), width - 1, right, zero)
    else Padded(Natural(i, b, sg, letbase), width, right, zero)
  }

  lemma RepeatLength(c: char, n: int)
    ensures |Repeat(c, n)| == if n <= 0 then 0 else n
  {
  }

  /** The field is as wide as asked for, or as the number needs. */
  lemma FormattedLength(i: Int32, b: nat, sg: bool, width: nat, right: bool, zero: bool, letbase: char)
    requires 2 <= b <= 36 && IsLetterBase(letbase)
    ensures var n := |Natural(i, b, sg, letbase)|;
      |Formatted(i, b, sg, width, right, zero, letbase)| == if width > n then width else n
  {
    RepeatLength(if width > 0 && zero then '0' else ' ', width - |Natural(i, b, sg, letbase)|);
    if Negative(i, b, sg) && width > 0 && zero {
      RepeatLength('0', width - 1 - |Digits(-(i as int), b, letbase)|);
      RepeatLength(' ', width - 1 - |Digits(-(i as int), b, letbase)|);
    }
  }

  // ----- Reading back -----

  function SkipSpaces(s: string): string {
    if s != "" && s[0] == ' ' then SkipSpaces(s[1..]) else s
  }

  function DropSpaces(s: string): string {
    if s != "" && s[|s| - 1] == ' ' then DropSpaces(s[..|s| - 1]) else s
  }

  /** The number a reader takes the text for: blanks around it do not count. */
  function Read(text: string, b: nat): int {
    var s := DropSpaces(SkipSpaces(text));
    if s != "" && s[0] == '-' then 0 - Value(s[1..], b) else Value(s, b)
  }

  predicate NoSpaces(s: string) {
    forall c :: c in s ==> c != ' '
  }

  lemma {:induction false} SpacesBefore(n: int, s: string)
    requires NoSpaces(s)
    ensures SkipSpaces(Repeat(' ', n) + s) == s
  {
    if n > 0 {
      assert (Repeat(' ', n) + s)[1..] == Repeat(' ', n - 1) + s;
      SpacesBefore(n - 1, s);
    } else {
      assert Repeat(' ', n) + s == s;
      assert s != "" ==> s[0] in s;
    }
  }

  lemma {:induction false} SpacesBehind(n: int, s: string)
    requires NoSpaces(s)
    ensures DropSpaces(s + Repeat(' ', n)) == s
  {
    if n > 0 {
      RepeatTurns(' ', n);
      assert (s + Repeat(' ', n))[..|s + Repeat(' ', n)| - 1] == s + Repeat(' ', n - 1);
      SpacesBehind(n - 1, s);
    } else {
      assert s + Repeat(' ', n) == s;
      assert s != "" ==> s[|s| - 1] in s;
    }
  }

  lemma {:induction false} RepeatTurns(c: char, n: int)
    requires n > 0
    ensures Repeat(c, n) == Repeat(c, n - 1) + [c]
  {
    if n > 1 { RepeatTurns(c, n - 1); }
  }

  lemma {:induction false} ZerosBefore(n: int, s: string, b: nat)
    ensures Value(Repeat('0', n) + s, b) == Value(s, b)
    decreases |s|
  {
    var t := Repeat('0', n) + s;
    if s == "" {
      assert t == Repeat('0', n);
      ZerosAlone(n, b);
    } else {
      assert t[..|t| - 1] == Repeat('0', n) + s[..|s| - 1];
      ZerosBefore(n, s[..|s| - 1], b);
    }
  }

  lemma {:induction false} ZerosAlone(n: int, b: nat)
    ensures Value(Repeat('0', n), b) == 0
    decreases n
  {
    if n > 0 {
      RepeatTurns('0', n);
      var t := Repeat('0', n);
      assert t[..|t| - 1] == Repeat('0', n - 1);
      ZerosAlone(n - 1, b);
    }
  }

  /** A number with n zeros behind it. */
  function Shifted(v: int, b: nat, n: nat): int {
    if n == 0 then v else Shifted(v, b, n - 1) * b
  }

  /** Zeros behind a number make it larger. */
  lemma {:induction false} ZerosBehind(n: nat, s: string, b: nat)
    ensures Value(s + Repeat('0', n), b) == Shifted(Value(s, b), b, n)
    decreases n
  {
    if n == 0 {
      assert s + Repeat('0', n) == s;
    } else {
      RepeatTurns('0', n);
      assert s + Repeat('0', n) == s + Repeat('0', n - 1) + ['0'];
      ValueOfLast(s + Repeat('0', n - 1), '0', b);
      ZerosBehind(n - 1, s, b);
    }
  }

  /** What the field is to say: the number with its sign, or as an unsigned one. */
  function Worth(i: Int32, b: nat, sg: bool): int {
    if sg && b == 10 then i as int else Unsigned(i)
  }

  /** The number a text without blanks stands for. */
  function Meaning(s: string, b: nat): int {
    if s != "" && s[0] == '-' then 0 - Value(s[1..], b) else Value(s, b)
  }

  lemma ReadTrims(n: int, s: string, b: nat)
    requires NoSpaces(s)
    ensures Read(Repeat(' ', n) + s, b) == Meaning(s, b) && Read(s + Repeat(' ', n), b) == Meaning(s, b)
  {
    assert s + Repeat(' ', 0) == s && Repeat(' ', 0) + s == s;
    SpacesBefore(n, s);
    SpacesBehind(0, s);
    SpacesBehind(n, s);
    if s == "" {
      assert Repeat(' ', n) + s == s + Repeat(' ', n);
    } else {
      assert s[0] in s && (s + Repeat(' ', n))[0] == s[0];
    }
  }

  lemma PositiveText(u: nat, b: nat, letbase: char)
    requires 2 <= b <= 36 && IsLetterBase(letbase) && u > 0
    ensures var s := Digits(u, b, letbase); s != "" && AllDigits(s) && Value(s, b) == u && Meaning(s, b) == u
  {
    DigitsReadBack(u, b, letbase);
    assert Digits(u, b, letbase)[0] in Digits(u, b, letbase);
  }

  lemma NaturalReadsBack(i: Int32, b: nat, sg: bool, letbase: char)
    requires 2 <= b <= 36 && IsLetterBase(letbase)
    ensures var s := Natural(i, b, sg, letbase);
      NoSpaces(s) && s != "" && Meaning(s, b) == Worth(i, b, sg)
  {
    var s := Natural(i, b, sg, letbase);
    if i == 0 {
      ValueOfLast("", '0', b);
      assert "" + ['0'] == s;
    } else if Negative(i, b, sg) {
      PositiveText(-(i as int), b, letbase);
      assert s[1..] == Digits(-(i as int), b, letbase);
    } else {
      PositiveText(Unsigned(i), b, letbase);
    }
  }

  lemma DigitsRead(s: string, b: nat)
    requires AllDigits(s) && s != ""
    ensures Read(s, b) == Value(s, b)
  {
    ReadPlain(s, b);
    assert s[0] in s;
  }

  /** Zeros in front change nothing, zeros behind multiply. */
  lemma ZerosRead(s: string, n: nat, b: nat)
    requires AllDigits(s) && s != ""
    ensures Read(Repeat('0', n) + s, b) == Value(s, b) && Read(s + Repeat('0', n), b) == Shifted(Value(s, b), b, n)
  {
    RepeatOnly('0', n);
    DigitsRead(Repeat('0', n) + s, b);
    DigitsRead(s + Repeat('0', n), b);
    ZerosBefore(n, s, b);
    ZerosBehind(n, s, b);
  }

  lemma {:induction false} RepeatOnly(c: char, n: int)
    ensures forall d :: d in Repeat(c, n) ==> d == c
  {
    if n > 0 { RepeatOnly(c, n - 1); }
  }

  /** How many zeros the field puts behind the number: the one combination of flags that is not the standard's. */
  function ZerosAfter(i: Int32, b: nat, sg: bool, width: nat, right: bool, zero: bool, letbase: char): nat
    requires 2 <= b <= 36 && IsLetterBase(letbase)
  {
    var n := |Natural(i, b, sg, letbase)|;
    if right && zero && width > n then width - n else 0
  }

  /** The field reads back as the number, with its sign or without, times what zeros behind it amount to. */
  lemma FormattedReads(i: Int32, b: nat, sg: bool, width: nat, right: bool, zero: bool, letbase: char)
    requires 2 <= b <= 36 && IsLetterBase(letbase)
    ensures Read(Formatted(i, b, sg, width, right, zero, letbase), b)
         == Shifted(Worth(i, b, sg), b, ZerosAfter(i, b, sg, width, right, zero, letbase))
  {
    var n := |Natural(i, b, sg, letbase)|;
    if width <= n {
      UnpaddedReads(i, b, sg, width, right, zero, letbase);
    } else if !zero {
      NaturalReadsBack(i, b, sg, letbase);
      ReadTrims(width - n, Natural(i, b, sg, letbase), b);
    } else if Negative(i, b, sg) {
      NegativeReads(i, b, sg, width, right, letbase);
    } else {
      ZeroPaddedReads(i, b, sg, width, right, letbase);
    }
  }

  lemma UnpaddedReads(i: Int32, b: nat, sg: bool, width: nat, right: bool, zero: bool, letbase: char)
    requires 2 <= b <= 36 && IsLetterBase(letbase) && width <= |Natural(i, b, sg, letbase)|
    ensures Read(Formatted(i, b, sg, width, right, zero, letbase), b) == Worth(i, b, sg)
  {
    Unpadded(i, b, sg, width, right, zero, letbase);
    NaturalReadsBack(i, b, sg, letbase);
    ReadPlain(Natural(i, b, sg, letbase), b);
  }

  lemma Unpadded(i: Int32, b: nat, sg: bool, width: nat, right: bool, zero: bool, letbase: char)
    requires 2 <= b <= 36 && IsLetterBase(letbase) && width <= |Natural(i, b, sg, letbase)|
    ensures Formatted(i, b, sg, width, right, zero, letbase) == Natural(i, b, sg, letbase)
  {
    if Negative(i, b, sg) { NothingPadded(Digits(-(i as int), b, letbase), width - 1, right, zero); }
    NothingPadded(Natural(i, b, sg, letbase), width, right, zero);
  }

  lemma NegativeReads(i: Int32, b: nat, sg: bool, width: nat, right: bool, letbase: char)
    requires 2 <= b <= 36 && IsLetterBase(letbase) && Negative(i, b, sg) && width > |Natural(i, b, sg, letbase)|
    ensures Read(Formatted(i, b, sg, width, right, true, letbase), b)
         == Shifted(i as int, b, ZerosAfter(i, b, sg, width, right, true, letbase))
  {
    var u: nat := -(i as int);
    var digits := Digits(u, b, letbase);
    PositiveText(u, b, letbase);
    NegativeZeros(digits, width - 1 - |digits|, right, b);
    Opposite(u, b, if right then width - 1 - |digits| else 0);
  }

  lemma {:induction false} Opposite(v: int, b: nat, n: nat)
    ensures Shifted(-v, b, n) == -Shifted(v, b, n)
  {
    if n > 0 {
      Opposite(v, b, n - 1);
      assert -Shifted(v, b, n - 1) * b == -(Shifted(v, b, n - 1) * b);
    }
  }

  lemma ZeroPaddedReads(i: Int32, b: nat, sg: bool, width: nat, right: bool, letbase: char)
    requires 2 <= b <= 36 && IsLetterBase(letbase) && !Negative(i, b, sg) && width > |Natural(i, b, sg, letbase)|
    ensures Read(Formatted(i, b, sg, width, right, true, letbase), b)
         == Shifted(Unsigned(i), b, ZerosAfter(i, b, sg, width, right, true, letbase))
  {
    var s := Natural(i, b, sg, letbase);
    NotNegative(i, b, sg, letbase);
    ZerosRead(s, width - |s|, b);
  }

  lemma NotNegative(i: Int32, b: nat, sg: bool, letbase: char)
    requires 2 <= b <= 36 && IsLetterBase(letbase) && !Negative(i, b, sg)
    ensures var s := Natural(i, b, sg, letbase); AllDigits(s) && s != "" && Value(s, b) == Unsigned(i)
  {
    if i == 0 {
      ValueOfLast("", '0', b);
      assert "" + ['0'] == "0";
    } else {
      PositiveText(Unsigned(i), b, letbase);
    }
  }

  lemma NothingPadded(s: string, width: int, right: bool, zero: bool)
    requires width <= |s|
    ensures Padded(s, width, right, zero) == s
  {
  }

  lemma ReadPlain(s: string, b: nat)
    requires NoSpaces(s)
    ensures Read(s, b) == Meaning(s, b)
  {
    ReadTrims(0, s, b);
    assert Repeat(' ', 0) + s == s;
  }

  lemma NegativeZeros(digits: string, n: nat, right: bool, b: nat)
    requires AllDigits(digits) && digits != "" && n > 0
    ensures Read("-" + Padded(digits, n + |digits|, right, true), b) ==
      0 - Shifted(Value(digits, b), b, if right then n else 0)
  {
    var text := "-" + Padded(digits, n + |digits|, right, true);
    RepeatOnly('0', n);
    ZerosBefore(n, digits, b);
    ZerosBehind(n, digits, b);
    assert text[1..] == Padded(digits, n + |digits|, right, true);
    ReadPlain(text, b);
  }

  /** So it reads back exactly, unless there are such zeros and the number is not zero. */
  lemma ReadsBackIff(i: Int32, b: nat, sg: bool, width: nat, right: bool, zero: bool, letbase: char)
    requires 2 <= b <= 36 && IsLetterBase(letbase)
    ensures Read(Formatted(i, b, sg, width, right, zero, letbase), b) == Worth(i, b, sg)
       <==> i == 0 || !right || !zero || width <= |Natural(i, b, sg, letbase)|
  {
    var v := Worth(i, b, sg);
    var k := ZerosAfter(i, b, sg, width, right, zero, letbase);
    FormattedReads(i, b, sg, width, right, zero, letbase);
    if k > 0 { ShiftedMoves(v, b, k); }
  }

  /** Zeros behind a number change it, unless it is zero. */
  lemma {:induction false} ShiftedMoves(v: int, b: nat, n: nat)
    requires b >= 2 && n > 0
    ensures if v > 0 then Shifted(v, b, n) > v else if v < 0 then Shifted(v, b, n) < v else Shifted(v, b, n) == 0
  {
    if n > 1 { ShiftedMoves(v, b, n - 1); }
    TimesGrows(Shifted(v, b, n - 1), b);
  }

  lemma TimesGrows(x: int, b: nat)
    requires b >= 2
    ensures if x > 0 then x * b > x else if x < 0 then x * b < x else x * b == 0
  {
    if x > 0 { assert x * b >= x * 2; }
    if x < 0 { assert x * b <= x * 2; }
  }

  // ----- Room in the digit buffer -----

  /** print_buf has room for eleven characters and the terminator: enough for every 32-bit number exactly if the base is
      at least eight. */
  const PRINT_BUF_LEN := 12

  lemma DigitBufferIff(b: nat, letbase: char)
    requires 2 <= b <= 36 && IsLetterBase(letbase)
    ensures (forall u :: 0 <= u < WORD ==> |Digits(u, b, letbase)| <= PRINT_BUF_LEN - 1) <==> b >= 8
  {
    PowerMonotone(b, 8, 11);
    assert Power(8, 11) == 0x2_0000_0000;
    assert Power(7, 11) < WORD;
    if b >= 8 {
      forall u | 0 <= u < WORD ensures |Digits(u, b, letbase)| <= 11 { DigitsFit(u, b, letbase, 11); }
    } else {
      PowerMonotone(7, b, 11);
      DigitsFit(WORD - 1, b, letbase, 11);
    }
  }

  lemma {:induction false} PowerMonotone(b: nat, c: nat, k: nat)
    ensures b >= c ==> Power(b, k) >= Power(c, k)
  {
    if k > 0 && b >= c {
      PowerMonotone(b, c, k - 1);
      Grows(b, c, Power(b, k - 1), Power(c, k - 1));
    }
  }

  lemma Grows(b: nat, c: nat, x: nat, y: nat)
    requires b >= c && x >= y
    ensures b * x >= c * y
  {
  }

  /** With its sign, a decimal number needs eleven characters at most. */
  lemma NaturalFits(i: Int32, b: nat, sg: bool, letbase: char)
    requires 8 <= b <= 36 && IsLetterBase(letbase)
    ensures |Natural(i, b, sg, letbase)| < PRINT_BUF_LEN
    ensures Negative(i, b, sg) ==> |Digits(-(i as int), b, letbase)| <= 10
  {
    DigitBufferIff(b, letbase);
    assert Power(10, 10) == 10_000_000_000;
    if Negative(i, b, sg) {
      DigitsFit(-(i as int), b, letbase, 10);
    } else {
      assert |Digits(Unsigned(i), b, letbase)| <= PRINT_BUF_LEN - 1;
    }
  }
}
