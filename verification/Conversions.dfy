/** The conversions of printf-stdarg.c, for a reader of the format string and of the text. */
module Conversions {
  import opened Wrappers
  import opened Numerals
  import opened Printf

  // ----- The text of an argument -----

  predicate Blank(c: char) { c == ' ' || c == '-' }
  predicate DecimalDigit(c: char) { '0' <= c <= '9' }
  predicate LowerHexDigit(c: char) { '0' <= c <= '9' || 'a' <= c <= 'f' }
  predicate UpperHexDigit(c: char) { '0' <= c <= '9' || 'A' <= c <= 'F' }

  /** A d reads back as the int, a u, x or X as the unsigned int of the same bits, in tens or sixteens; unless zeros go
      behind a number that is not zero. */
  lemma IntReadsBack(spec: Spec, i: Int32)
    requires spec.kind in "duxX"
    ensures var text := Converted(spec, Int(i));
      var value := if spec.kind == 'd' || i >= 0 then i as int else i as int + 0x1_0000_0000;
      var plain := |Converted(spec.(width := 0), Int(i))|;
      && (Read(text, if spec.kind in "xX" then 16 else 10) == value <==>
            i == 0 || !spec.right || !spec.zero || spec.width <= plain)
      && |text| == if spec.width > plain then spec.width else plain
  {
    var b, sg, letbase := if spec.kind in "xX" then 16 else 10, spec.kind == 'd', if spec.kind == 'X' then 'A' else 'a';
    ReadsBackIff(i, b, sg, spec.width, spec.right, spec.zero, letbase);
    FormattedLength(i, b, sg, spec.width, spec.right, spec.zero, letbase);
    FormattedLength(i, b, sg, 0, spec.right, spec.zero, letbase);
  }

  /** Only d writes a sign; x writes small letters, X capital ones. */
  lemma IntCharacters(spec: Spec, i: Int32, c: char)
    requires spec.kind in "duxX" && c in Converted(spec, Int(i))
    ensures match spec.kind
      case 'd' => DecimalDigit(c) || c == ' ' || (c == '-' && i < 0)
      case 'u' => DecimalDigit(c) || c == ' '
      case 'x' => LowerHexDigit(c) || c == ' '
      case _ => UpperHexDigit(c) || c == ' '
  {
    var b, sg, letbase := if spec.kind in "xX" then 16 else 10, spec.kind == 'd', if spec.kind == 'X' then 'A' else 'a';
    var u := if sg && i < 0 then -(i as int) else Unsigned(i);
    RepeatOnly('0', spec.width);
    PaddingOnly(Natural(i, b, sg, letbase), spec.width, spec.right, spec.zero);
    PaddingOnly(Digits(u, b, letbase), spec.width - 1, spec.right, spec.zero);
    if c in Digits(u, b, letbase) { DigitsOf(u, b, letbase, c); }
  }

  lemma PaddingOnly(s: string, width: int, right: bool, zero: bool)
    ensures forall c :: c in Padded(s, width, right, zero) ==> c in s || c == if zero then '0' else ' '
  {
    RepeatOnly(if width > 0 && zero then '0' else ' ', width - |s|);
    if width <= 0 { RepeatLength(if width > 0 && zero then '0' else ' ', width - |s|); }
  }

  lemma {:induction false} DigitsOf(u: nat, b: nat, letbase: char, c: char)
    requires 2 <= b <= 36 && IsLetterBase(letbase) && c in Digits(u, b, letbase)
    ensures exists t :: 0 <= t < b && c == DigitChar(t, letbase)
  {
    if c in Digits(Quotient(u, b), b, letbase) { DigitsOf(Quotient(u, b), b, letbase, c); }
  }

  /** A string, or "(null)", or the one character a c asks for, stands at the end that the minus sign asks for; the rest
      of the width is blanks, or zeros. */
  lemma TextPadded(spec: Spec, arg: Arg)
    requires (spec.kind == 's' && arg.Str?) || (spec.kind == 'c' && arg.Int?)
    ensures var text := Converted(spec, arg);
      var s := if arg.Str? then (if arg.s.Some? then arg.s.value else "(null)")
               else if arg.i as int % 256 == 0 then "" else [(arg.i as int % 256) as char];
      && |text| == (if spec.width > |s| then spec.width else |s|)
      && (if spec.right then text[..|s|] == s else text[|text| - |s|..] == s)
      && forall k :: (if spec.right then |s| <= k < |text| else 0 <= k < |text| - |s|) ==>
           text[k] == if spec.zero then '0' else ' '
  {
    var s := if arg.Str? then (if arg.s.Some? then arg.s.value else "(null)") else CharText(arg.i);
    PaddedText(s, spec.width, spec.right, spec.zero);
  }

  lemma PaddedText(s: string, width: nat, right: bool, zero: bool)
    ensures var text := Padded(s, width, right, zero);
      && |text| == (if width > |s| then width else |s|)
      && (if right then text[..|s|] == s else text[|text| - |s|..] == s)
      && forall k :: (if right then |s| <= k < |text| else 0 <= k < |text| - |s|) ==>
           text[k] == if zero then '0' else ' '
  {
    var padchar, n := if width > 0 && zero then '0' else ' ', width - |s|;
    var pad, text := Repeat(padchar, n), Padded(s, width, right, zero);
    RepeatLength(padchar, n);
    RepeatOnly(padchar, n);
    assert text == if right then s + pad else pad + s;
    assert forall k :: 0 <= k < |pad| ==> pad[k] in pad;
  }

  // ----- The conversion specification -----

  /** A specification as it is written: a minus sign, zeros, a width, a letter. */
  function SpecText(right: bool, zeros: nat, width: string, kind: char): string {
    (if right then "-" else "") + Repeat('0', zeros) + width + [kind]
  }

  predicate IsWidth(width: string) {
    (forall c :: c in width ==> IsDigit(c)) && (width != "" ==> width[0] != '0')
  }

  /** Whatever is written is read: the flags, the width in tens, the letter, and where the specification ends. */
  lemma SpecReadsBack(before: string, right: bool, zeros: nat, width: string, kind: char, behind: string)
    requires IsWidth(width) && !IsDigit(kind) && (kind == '-' ==> right || zeros > 0 || width != "")
    ensures var f, i := before + SpecText(right, zeros, width, kind) + behind, |before|;
      && Letter(f, i) < |f| && ReadSpec(f, i) == Spec(right, zeros > 0, Value(width, 10), kind, |f| - |behind|)
  {
    var f, i := before + SpecText(right, zeros, width, kind) + behind, |before|;
    var j := if right then i + 1 else i;
    var rest := Repeat('0', zeros) + width + [kind] + behind;
    SignThen(before, right, zeros, width, kind, behind);
    if !right { NoSign(zeros, width, kind, behind); }
    FlagRead(f, before, right, rest);
    ReadsRest(f, j, zeros, width, kind, behind);
    ReadAs(f, i, j, zeros, |f| - |behind| - 1);
  }

  lemma SignThen(before: string, right: bool, zeros: nat, width: string, kind: char, behind: string)
    ensures before + SpecText(right, zeros, width, kind) + behind
         == before + (if right then "-" else "") + (Repeat('0', zeros) + width + [kind] + behind)
  {
  }

  lemma ReadAs(f: string, i: nat, j: nat, zeros: nat, n: nat)
    requires i <= j <= |f| && Zeros(f, i).0 == j && SkipZeros(f, j) == j + zeros
    requires n < |f| && SkipDigits(f, j + zeros) == n
    ensures Letter(f, i) == n && ReadSpec(f, i) == Spec(j > i, zeros > 0, Width(f, j + zeros, 0), f[n], n + 1)
  {
  }

  lemma NoSign(zeros: nat, width: string, kind: char, behind: string)
    requires IsWidth(width) && (kind == '-' ==> zeros > 0 || width != "")
    ensures (Repeat('0', zeros) + width + [kind] + behind)[0] != '-'
  {
    if zeros == 0 && width != "" { assert width[0] in width; }
  }

  /** What is behind the sign. */
  lemma ReadsRest(f: string, j: nat, zeros: nat, width: string, kind: char, behind: string)
    requires IsWidth(width) && !IsDigit(kind) && j <= |f|
    requires f[j..] == Repeat('0', zeros) + width + [kind] + behind
    ensures var k, n := SkipZeros(f, j), |f| - |behind| - 1;
      n >= 0 && k == j + zeros && SkipDigits(f, k) == n && f[n] == kind && Width(f, k, 0) == Value(width, 10)
  {
    var k, rest := j + zeros, width + ([kind] + behind);
    RepeatLength('0', zeros);
    assert f[j..] == Repeat('0', zeros) + rest;
    ZerosThen(f, j, zeros, rest);
    if width != "" { assert width[0] in width; }
    SkipsZeros(f, j, zeros);
    ReadsWidth(f, k, width, [kind] + behind);
    assert f[k..][|width|] == kind;
  }

  lemma ZerosThen(f: string, j: nat, zeros: nat, rest: string)
    requires j <= |f| && f[j..] == Repeat('0', zeros) + rest && |Repeat('0', zeros)| == zeros && rest != ""
    ensures j + zeros < |f| && f[j..j + zeros] == Repeat('0', zeros) && f[j + zeros..] == rest
    ensures f[j + zeros] == rest[0]
  {
    assert f[j..][zeros] == rest[0];
    assert f[j..][..zeros] == f[j..j + zeros] && f[j..][zeros..] == f[j + zeros..];
  }

  lemma FlagRead(f: string, before: string, right: bool, rest: string)
    requires f == before + (if right then "-" else "") + rest && (right || (rest != "" ==> rest[0] != '-'))
    ensures var j := if right then |before| + 1 else |before|;
      Zeros(f, |before|).0 == j && f[j..] == rest
  {
    assert right ==> f[|before|] == '-';
    assert !right && rest != "" ==> f[|before|] == rest[0];
  }

  lemma {:induction false} SkipsZeros(f: string, j: nat, zeros: nat)
    requires j + zeros < |f| && f[j + zeros] != '0' && f[j..j + zeros] == Repeat('0', zeros)
    ensures SkipZeros(f, j) == j + zeros
    decreases zeros
  {
    if zeros > 0 {
      assert f[j] == f[j..j + zeros][0] == '0';
      assert f[j + 1..j + zeros] == f[j..j + zeros][1..] == Repeat('0', zeros - 1);
      SkipsZeros(f, j + 1, zeros - 1);
    }
  }

  lemma ReadsWidth(f: string, i: nat, width: string, rest: string)
    requires i <= |f| && f[i..] == width + rest && (forall c :: c in width ==> IsDigit(c))
    requires rest != "" && !IsDigit(rest[0])
    ensures SkipDigits(f, i) == i + |width| && Width(f, i, 0) == Value(width, 10)
  {
    var n := |width|;
    assert forall k :: 0 <= k < n ==> f[i + k] == width[k] && width[k] in width;
    assert f[i + n] == f[i..][n] == rest[0];
    ReadsSome(f, i, width, n);
    assert width[..n] == width;
  }

  /** After k digits the reader has the number they make. */
  lemma {:induction false} ReadsSome(f: string, i: nat, width: string, k: nat)
    requires k <= |width| && i + |width| <= |f|
    requires forall j :: 0 <= j < k ==> f[i + j] == width[j] && IsDigit(width[j])
    ensures SkipDigits(f, i) == SkipDigits(f, i + k) && Width(f, i, 0) == Width(f, i + k, Value(width[..k], 10))
    decreases k
  {
    if k > 0 {
      ReadsSome(f, i, width, k - 1);
      assert width[..k] == width[..k - 1] + [width[k - 1]];
      ValueOfLast(width[..k - 1], width[k - 1], 10);
      assert f[i + (k - 1)] == width[k - 1];
    }
  }

  // ----- Formats -----

  predicate NoPercent(s: string) {
    forall c :: c in s ==> c != '%'
  }

  lemma CharCopied(f: string, i: nat, args: seq<Arg>)
    requires i < |f| && f[i] != '%' && WellFormed(f, i + 1, args)
    ensures WellFormed(f, i, args) && Render(f, i, args) == [f[i]] + Render(f, i + 1, args)
  {
  }

  lemma Regroup(a: string, b: string, c: string)
    ensures a + (b + c) == (a + b) + c
  {
  }

  lemma OneMoreChar(f: string, i: nat, j: nat)
    requires i < j <= |f| && NoPercent(f[i..j])
    ensures f[i] != '%' && NoPercent(f[i + 1..j]) && f[i..j] == [f[i]] + f[i + 1..j]
  {
    assert f[i..j] == [f[i]] + f[i + 1..j];
    assert f[i] in f[i..j];
    var rest := f[i + 1..j];
    forall c | c in rest ensures c != '%' { assert c in f[i..j]; }
  }

  /** Text without percent signs is copied. */
  lemma {:induction false} TextCopied(f: string, i: nat, j: nat, args: seq<Arg>)
    requires i <= j <= |f| && NoPercent(f[i..j]) && WellFormed(f, j, args)
    ensures WellFormed(f, i, args) && Render(f, i, args) == f[i..j] + Render(f, j, args)
    decreases j - i
  {
    if i == j {
      assert f[i..j] == "";
    } else {
      OneMoreChar(f, i, j);
      TextCopied(f, i + 1, j, args);
      CharCopied(f, i, args);
      Regroup([f[i]], f[i + 1..j], Render(f, j, args));
    }
  }

  /** One conversion in a text without other percent signs: the converted argument takes the place of its specification,
      or nothing does if the letter is not a conversion; and an argument is used only by a conversion. */
  lemma OneConversion(before: string, right: bool, zeros: nat, width: string, kind: char, behind: string, arg: Arg)
    requires NoPercent(before) && NoPercent(behind) && IsWidth(width) && !IsDigit(kind)
    requires kind == '-' ==> right || zeros > 0 || width != ""
    requires kind == '%' ==> right || zeros > 0 || width != ""
    requires if TakesInt(kind) then arg.Int? else kind == 's' ==> StringArg(arg)
    ensures var f := before + "%" + SpecText(right, zeros, width, kind) + behind;
      var spec := Spec(right, zeros > 0, Value(width, 10), kind, |f| - |behind|);
      var text := if kind in "duxXcs" then Converted(spec, arg) else "";
      WellFormed(f, 0, [arg]) && Render(f, 0, [arg]) == before + (text + behind)
  {
    var spec := SpecText(right, zeros, width, kind);
    var f := before + "%" + spec + behind;
    SpecReadsBack(before + "%", right, zeros, width, kind, behind);
    SpecFirst(right, zeros, width, kind);
    InText(before, spec, behind);
    Around(f, |before|, |f| - |behind|, arg);
  }

  lemma InText(before: string, spec: string, behind: string)
    requires spec != ""
    ensures var f, i := before + "%" + spec + behind, |before|;
      f[0..i] == before && f[i] == '%' && f[i + 1] == spec[0] && f[|f| - |behind|..|f|] == behind
  {
  }

  /** The text around a specification. */
  lemma Around(f: string, i: nat, k: nat, arg: Arg)
    requires i + 1 < k <= |f| && NoPercent(f[0..i]) && NoPercent(f[k..|f|]) && f[i] == '%' && f[i + 1] != '%'
    requires Letter(f, i + 1) < |f| && ReadSpec(f, i + 1).next == k
    requires var kind := ReadSpec(f, i + 1).kind; if TakesInt(kind) then arg.Int? else kind == 's' ==> StringArg(arg)
    ensures var read := ReadSpec(f, i + 1);
      WellFormed(f, 0, [arg]) && Render(f, 0, [arg])
        == f[0..i] + ((if TakesInt(read.kind) || read.kind == 's' then Converted(read, arg) else "") + f[k..|f|])
  {
    TextCopied(f, k, |f|, []);
    TextCopied(f, k, |f|, [arg]);
    SpecRendered(f, i, arg, f[k..|f|]);
    TextCopied(f, 0, i, [arg]);
  }

  lemma SpecFirst(right: bool, zeros: nat, width: string, kind: char)
    requires IsWidth(width) && (kind == '%' ==> right || zeros > 0 || width != "")
    ensures SpecText(right, zeros, width, kind)[0] != '%'
  {
    if !right && zeros == 0 && width != "" { assert width[0] in width; }
  }

  lemma SpecRendered(f: string, i: nat, arg: Arg, behind: string)
    requires i + 1 < |f| && f[i] == '%' && f[i + 1] != '%' && Letter(f, i + 1) < |f|
    requires var kind := ReadSpec(f, i + 1).kind; if TakesInt(kind) then arg.Int? else kind == 's' ==> StringArg(arg)
    requires var k := ReadSpec(f, i + 1).next;
      && WellFormed(f, k, []) && Render(f, k, []) == behind && WellFormed(f, k, [arg]) && Render(f, k, [arg]) == behind
    ensures var spec := ReadSpec(f, i + 1);
      WellFormed(f, i, [arg]) &&
      Render(f, i, [arg]) == (if TakesInt(spec.kind) || spec.kind == 's' then Converted(spec, arg) else "") + behind
  {
    assert [arg][1..] == [];
  }

  /** A percent sign at the end stands for nothing. */
  lemma LonePercent(before: string, args: seq<Arg>)
    requires NoPercent(before)
    ensures var f := before + "%"; WellFormed(f, 0, args) && Render(f, 0, args) == before
  {
    var f, i := before + "%", |before|;
    assert f[0..i] == before && before + "" == before;
    TextCopied(f, 0, i, args);
  }

  /** Two percent signs stand for one. */
  lemma PercentSign(before: string, behind: string, args: seq<Arg>)
    requires NoPercent(before) && NoPercent(behind)
    ensures var f := before + "%%" + behind;
      WellFormed(f, 0, args) && Render(f, 0, args) == before + "%" + behind
  {
    var f, i := before + "%%" + behind, |before|;
    assert f[0..i] == before && f[i + 2..|f|] == behind;
    TextCopied(f, i + 2, |f|, args);
    TextCopied(f, 0, i, args);
  }
}
