/** printf-stdarg.c: sprintf into a buffer whose size it does not know. */
module Printf {
  import opened Wrappers
  import opened Numerals

  /** An argument: an int, or a pointer to a string that may be NULL. */
  datatype Arg = Int(i: Int32) | Str(s: Option<string>)

  // ----- What a format means -----

  /** A conversion specification, and the position behind its letter. */
  datatype Spec = Spec(right: bool, zero: bool, width: nat, kind: char, next: nat)

  predicate IsDigit(c: char) { '0' <= c <= '9' }

  function SkipZeros(f: string, i: nat): (j: nat)
    requires i <= |f|
    ensures i <= j <= |f|
    decreases |f| - i
  {
    if i < |f| && f[i] == '0' then SkipZeros(f, i + 1) else i
  }

  function SkipDigits(f: string, i: nat): (j: nat)
    requires i <= |f|
    ensures i <= j <= |f|
    decreases |f| - i
  {
    if i < |f| && IsDigit(f[i]) then SkipDigits(f, i + 1) else i
  }

  function Width(f: string, i: nat, width: nat): nat
    requires i <= |f|
    decreases |f| - i
  {
    if i < |f| && IsDigit(f[i]) then Width(f, i + 1, width * 10 + (f[i] - '0') as nat) else width
  }

  /** The letter of the specification that begins behind position i. */
  function Letter(f: string, i: nat): (j: nat)
    requires i <= |f|
    ensures i <= j <= |f|
  {
    SkipDigits(f, Zeros(f, i).1)
  }

  /** Whether there is a minus sign, and where the width begins. */
  function Zeros(f: string, i: nat): (r: (nat, nat))
    requires i <= |f|
    ensures i <= r.0 <= r.1 <= |f|
  {
    var j := if i < |f| && f[i] == '-' then i + 1 else i;
    (j, SkipZeros(f, j))
  }

  function ReadSpec(f: string, i: nat): (r: Spec)
    requires i <= |f| && Letter(f, i) < |f|
    ensures i < r.next <= |f|
  {
    var (j, k) := Zeros(f, i);
    Spec(j > i, k > j, Width(f, k, 0), f[Letter(f, i)], Letter(f, i) + 1)
  }

  predicate TakesInt(kind: char) {
    kind == 'd' || kind == 'x' || kind == 'X' || kind == 'u' || kind == 'c'
  }

  /** The specifications are complete, and have arguments of the type they take: what C asks of the caller. */
  predicate WellFormed(f: string, i: nat, args: seq<Arg>)
    requires i <= |f|
    decreases |f| - i
  {
    if i == |f| then true
    else if f[i] != '%' then WellFormed(f, i + 1, args)
    else if i + 1 == |f| then true
    else if f[i + 1] == '%' then WellFormed(f, i + 2, args)
    else
      Letter(f, i + 1) < |f| &&
      var spec := ReadSpec(f, i + 1);
      if TakesInt(spec.kind) then args != [] && args[0].Int? && WellFormed(f, spec.next, args[1..])
      else if spec.kind == 's' then args != [] && StringArg(args[0]) && WellFormed(f, spec.next, args[1..])
      else WellFormed(f, spec.next, args)
  }

  predicate StringArg(arg: Arg) {
    arg.Str? && (arg.s.Some? ==> '\0' !in arg.s.value)
  }

  function Converted(spec: Spec, arg: Arg): string
    requires if TakesInt(spec.kind) then arg.Int? else spec.kind == 's' && arg.Str?
  {
    match spec.kind
    case 'd' => Formatted(arg.i, 10, true, spec.width, spec.right, spec.zero, 'a')
    case 'x' => Formatted(arg.i, 16, false, spec.width, spec.right, spec.zero, 'a')
    case 'X' => Formatted(arg.i, 16, false, spec.width, spec.right, spec.zero, 'A')
    case 'u' => Formatted(arg.i, 10, false, spec.width, spec.right, spec.zero, 'a')
    case 'c' => Padded(CharText(arg.i), spec.width, spec.right, spec.zero)
    case _ => Padded(if arg.s.Some? then arg.s.value else "(null)", spec.width, spec.right, spec.zero)
  }

  /** The character the int is cast to, as a string: none for the terminator. */
  function CharText(i: Int32): string {
    if i as int % 256 == 0 then "" else [(i as int % 256) as char]
  }

  /** The text of format f from position i on. */
  function Render(f: string, i: nat, args: seq<Arg>): string
    requires i <= |f| && WellFormed(f, i, args)
    decreases |f| - i
  {
    if i == |f| then ""
    else if f[i] != '%' then [f[i]] + Render(f, i + 1, args)
    else if i + 1 == |f| then ""
    else if f[i + 1] == '%' then ['%'] + Render(f, i + 2, args)
    else
      var spec := ReadSpec(f, i + 1);
      if TakesInt(spec.kind) || spec.kind == 's' then Converted(spec, args[0]) + Render(f, spec.next, args[1..])
      else Render(f, spec.next, args)
  }

  // ----- The functions -----

  /** The buffer, and the place in it that *out points at. */
  class Out {
    const buf: array<char>
    var at: nat

    constructor (buf: array<char>)
      ensures this.buf == buf && at == 0
    {
      this.buf, at := buf, 0;
    }

    /** n more characters fit. */
    ghost predicate Room(n: nat)
      reads this
    {
      at + n <= buf.Length
    }
  }

  /** A buffer with text written at a place in it, and nothing else. */
  function Written(buf: string, at: nat, text: string): string
    requires at + |text| <= |buf|
  {
    buf[..at] + text + buf[at + |text|..]
  }

  lemma WrittenTwice(buf: string, at: nat, a: string, b: string)
    requires at + |a| + |b| <= |buf|
    ensures Written(Written(buf, at, a), at + |a|, b) == Written(buf, at, a + b)
  {
    var once := Written(buf, at, a);
    assert once[..at + |a|] == buf[..at] + a;
    assert once[at + |a| + |b|..] == buf[at + |a + b|..];
  }

  lemma WrittenNothing(buf: string, at: nat)
    requires at <= |buf|
    ensures Written(buf, at, "") == buf
  {
  }

  method PrintChar(out: Out, c: char)
    requires out.Room(1)
    modifies out`at, out.buf
    ensures out.buf[..] == Written(old(out.buf[..]), old(out.at), [c]) && out.at == old(out.at) + 1
  {
    out.buf[out.at] := c;
    out.at := out.at + 1;
  }

  /** One of the two padding loops of prints. */
  method PrintPad(out: Out, padchar: char, width: int) returns (pc: nat)
    requires out.Room(|Repeat(padchar, width)|)
    modifies out`at, out.buf
    ensures var text := Repeat(padchar, width);
      out.buf[..] == Written(old(out.buf[..]), old(out.at), text) && out.at == old(out.at) + |text| && pc == |text|
  {
    var left := width;
    pc := 0;
    ghost var was, start := out.buf[..], out.at;
    RepeatLength(padchar, width);
    WrittenNothing(was, start);
    while left > 0
      invariant left <= width && (width > 0 ==> left >= 0) && pc == (if width > 0 then width - left else 0)
        && out.at == start + pc
      invariant |Repeat(padchar, pc)| == pc && out.buf[..] == Written(was, start, Repeat(padchar, pc))
      invariant left <= 0 ==> Repeat(padchar, pc) == Repeat(padchar, width)
    {
      PrintChar(out, padchar);
      WrittenTwice(was, start, Repeat(padchar, pc), [padchar]);
      RepeatTurns(padchar, pc + 1);
      RepeatLength(padchar, pc + 1);
      left, pc := left - 1, pc + 1;
    }
  }

  /** The loop of prints over the string itself. */
  method PrintText(out: Out, text: string) returns (pc: nat)
    requires out.Room(|text|)
    modifies out`at, out.buf
    ensures out.buf[..] == Written(old(out.buf[..]), old(out.at), text) && out.at == old(out.at) + |text|
      && pc == |text|
  {
    pc := 0;
    ghost var was, start := out.buf[..], out.at;
    WrittenNothing(was, start);
    while pc < |text|
      invariant pc <= |text| && out.at == start + pc
      invariant out.buf[..] == Written(was, start, text[..pc])
    {
      PrintChar(out, text[pc]);
      WrittenTwice(was, start, text[..pc], [text[pc]]);
      assert text[..pc + 1] == text[..pc] + [text[pc]];
      pc := pc + 1;
    }
    assert text[..pc] == text;
  }

  /** prints: the string, padded to the width; the count is of the characters written. */
  method Prints(out: Out, text: string, width: int, right: bool, zero: bool) returns (pc: nat)
    requires '\0' !in text && out.Room(|Padded(text, width, right, zero)|)
    modifies out`at, out.buf
    ensures var r := Padded(text, width, right, zero);
      out.buf[..] == Written(old(out.buf[..]), old(out.at), r) && out.at == old(out.at) + |r| && pc == |r|
  {
    var padchar, left := ' ', width;
    if width > 0 {
      if |text| >= width { left := 0; } else { left := width - |text|; }
      if zero { padchar := '0'; }
    }
    PadsSame(text, width, zero, padchar, left);
    pc := PrintParts(out, text, left, right, padchar);
  }

  /** The three loops of prints. */
  method PrintParts(out: Out, text: string, width: int, right: bool, padchar: char) returns (pc: nat)
    requires out.Room(|text| + |Repeat(padchar, width)|)
    modifies out`at, out.buf
    ensures var r := if right then text + Repeat(padchar, width) else Repeat(padchar, width) + text;
      out.buf[..] == Written(old(out.buf[..]), old(out.at), r) && out.at == old(out.at) + |r| && pc == |r|
  {
    var left, n := width, 0;
    if !right {
      n := PrintPad(out, padchar, left);
      left := 0;
    }
    ghost var was, start := old(out.buf[..]), old(out.at);
    ghost var lead := if right then "" else Repeat(padchar, width);
    WrittenNothing(was, start);
    assert out.buf[..] == Written(was, start, lead) && out.at == start + |lead| && n == |lead|;
    var m := PrintBehind(out, text, Repeat(padchar, left), left, padchar);
    WrittenTwice(was, start, lead, text + Repeat(padchar, left));
    assert text + "" == text && "" + (text + Repeat(padchar, left)) == text + Repeat(padchar, left);
    pc := n + m;
  }

  /** The last two loops of prints. */
  method PrintBehind(out: Out, text: string, ghost tail: string, width: int, padchar: char) returns (pc: nat)
    requires tail == Repeat(padchar, width) && out.Room(|text + tail|)
    modifies out`at, out.buf
    ensures out.buf[..] == Written(old(out.buf[..]), old(out.at), text + tail)
    ensures out.at == old(out.at) + |text + tail| && pc == |text + tail|
  {
    ghost var was, start := out.buf[..], out.at;
    pc := PrintText(out, text);
    var m := PrintPad(out, padchar, width);
    WrittenTwice(was, start, text, tail);
    pc := pc + m;
  }

  lemma PadsSame(text: string, width: int, zero: bool, padchar: char, left: int)
    requires padchar == if width > 0 && zero then '0' else ' '
    requires left == if width > 0 then (if |text| >= width then 0 else width - |text|) else width
    ensures Repeat(padchar, left) == Repeat(if width > 0 && zero then '0' else ' ', width - |text|)
  {
  }

  /** The digits of u at the end of the digit buffer, which is filled from its end; the place of the first. */
  method PrintDigits(print_buf: array<char>, u: nat, b: nat, letbase: char) returns (s: nat)
    requires print_buf.Length == PRINT_BUF_LEN && 2 <= b <= 36 && IsLetterBase(letbase)
    requires |Digits(u, b, letbase)| < PRINT_BUF_LEN
    modifies print_buf
    ensures s == PRINT_BUF_LEN - 1 - |Digits(u, b, letbase)|
    ensures print_buf[s..PRINT_BUF_LEN - 1] == Digits(u, b, letbase) && print_buf[PRINT_BUF_LEN - 1] == '\0'
  {
    s := PRINT_BUF_LEN - 1;
    print_buf[s] := '\0';
    var left := u;
    assert print_buf[s..PRINT_BUF_LEN - 1] == "";
    while left > 0
      invariant s == PRINT_BUF_LEN - 1 - |Digits(u, b, letbase)| + |Digits(left, b, letbase)|
      invariant s < PRINT_BUF_LEN && print_buf[PRINT_BUF_LEN - 1] == '\0'
      invariant Digits(left, b, letbase) + print_buf[s..PRINT_BUF_LEN - 1] == Digits(u, b, letbase)
    {
      ghost var tail := print_buf[s..PRINT_BUF_LEN - 1];
      LastDigit(left, b, letbase);
      var c;
      c, left := NextDigit(left, b, letbase);
      s := s - 1;
      print_buf[s] := c;
      assert print_buf[s..PRINT_BUF_LEN - 1] == [c] + tail;
    }
  }

  /** One digit off the number. */
  method NextDigit(u: nat, b: nat, letbase: char) returns (c: char, q: nat)
    requires u > 0 && 2 <= b <= 36 && IsLetterBase(letbase)
    ensures Digits(u, b, letbase) == Digits(q, b, letbase) + [c] && q < u
  {
    DivisionIs(u, b);
    c := DigitOf(u % b, letbase);
    q := u / b;
  }

  method DigitOf(t: nat, letbase: char) returns (c: char)
    requires t < 36 && IsLetterBase(letbase)
    ensures c == DigitChar(t, letbase)
  {
    var n := t;
    if n >= 10 { n := n + letbase as int - '0' as int - 10; }
    c := (n + '0' as int) as char;
  }

  lemma LastDigit(u: nat, b: nat, letbase: char)
    requires u > 0 && 2 <= b <= 36 && IsLetterBase(letbase)
    ensures |Digits(u, b, letbase)| > 0
  {
  }

  /** printi */
  method Printi(out: Out, i: Int32, b: nat, sg: bool, width: nat, right: bool, zero: bool, letbase: char)
      returns (pc: nat)
    requires 8 <= b <= 36 && IsLetterBase(letbase)
    requires out.Room(|Formatted(i, b, sg, width, right, zero, letbase)|)
    modifies out`at, out.buf
    ensures var r := Formatted(i, b, sg, width, right, zero, letbase);
      out.buf[..] == Written(old(out.buf[..]), old(out.at), r) && out.at == old(out.at) + |r| && pc == |r|
  {
    NaturalFits(i, b, sg, letbase);
    var print_buf := new char[PRINT_BUF_LEN];
    if i == 0 {
      print_buf[0], print_buf[1] := '0', '\0';
      assert print_buf[..1] == "0";
      pc := Prints(out, print_buf[..1], width, right, zero);
    } else if Negative(i, b, sg) {
      NegativeText(i, b, sg, width, right, zero, letbase);
      pc := PrintNegative(out, print_buf, -(i as int), b, width, right, zero, letbase);
    } else {
      pc := PrintPositive(out, print_buf, Unsigned(i), b, width, right, zero, letbase);
    }
  }

  lemma NegativeText(i: Int32, b: nat, sg: bool, width: nat, right: bool, zero: bool, letbase: char)
    requires 2 <= b <= 36 && IsLetterBase(letbase) && Negative(i, b, sg)
    ensures Formatted(i, b, sg, width, right, zero, letbase) == Signed(-(i as int), b, width, right, zero, letbase)
  {
  }

  method PrintPositive(out: Out, print_buf: array<char>, u: nat, b: nat, width: nat, right: bool, zero: bool,
      letbase: char)
      returns (pc: nat)
    requires 2 <= b <= 36 && IsLetterBase(letbase) && |Digits(u, b, letbase)| < PRINT_BUF_LEN
    requires print_buf.Length == PRINT_BUF_LEN && print_buf != out.buf
    requires out.Room(|Padded(Digits(u, b, letbase), width, right, zero)|)
    modifies out`at, out.buf, print_buf
    ensures var r := Padded(Digits(u, b, letbase), width, right, zero);
      out.buf[..] == Written(old(out.buf[..]), old(out.at), r) && out.at == old(out.at) + |r| && pc == |r|
  {
    NoTerminator(u, b, letbase);
    var s := PrintDigits(print_buf, u, b, letbase);
    pc := Prints(out, print_buf[s..PRINT_BUF_LEN - 1], width, right, zero);
  }

  lemma NoTerminator(u: nat, b: nat, letbase: char)
    requires 2 <= b <= 36 && IsLetterBase(letbase)
    ensures '\0' !in Digits(u, b, letbase)
  {
    DigitsReadBack(u, b, letbase);
  }

  /** The minus sign goes in front of the zeros, or else into the digit buffer. */
  method PrintNegative(out: Out, print_buf: array<char>, u: nat, b: nat, width: nat, right: bool, zero: bool,
      letbase: char)
      returns (pc: nat)
    requires 2 <= b <= 36 && IsLetterBase(letbase) && |Digits(u, b, letbase)| <= 10
    requires print_buf.Length == PRINT_BUF_LEN && print_buf != out.buf
    requires out.Room(|Signed(u, b, width, right, zero, letbase)|)
    modifies out`at, out.buf, print_buf
    ensures var r := Signed(u, b, width, right, zero, letbase);
      out.buf[..] == Written(old(out.buf[..]), old(out.at), r) && out.at == old(out.at) + |r| && pc == |r|
  {
    ghost var was, start, digits := out.buf[..], out.at, Digits(u, b, letbase);
    NoTerminator(u, b, letbase);
    var s := PrintDigits(print_buf, u, b, letbase);
    if width > 0 && zero {
      PrintChar(out, '-');
      pc := Prints(out, print_buf[s..PRINT_BUF_LEN - 1], width - 1, right, zero);
      WrittenTwice(was, start, "-", Padded(digits, width - 1, right, zero));
      pc := pc + 1;
    } else {
      s := s - 1;
      print_buf[s] := '-';
      assert print_buf[s..PRINT_BUF_LEN - 1] == "-" + digits;
      pc := Prints(out, print_buf[s..PRINT_BUF_LEN - 1], width, right, zero);
    }
  }

  function Signed(u: nat, b: nat, width: nat, right: bool, zero: bool, letbase: char): string
    requires 2 <= b <= 36 && IsLetterBase(letbase)
  {
    if width > 0 && zero then "-" + Padded(Digits(u, b, letbase), width - 1, right, zero)
    else Padded("-" + Digits(u, b, letbase), width, right, zero)
  }

  /** The part of print that reads a conversion specification. */
  method ParseSpec(format: string, i: nat) returns (spec: Spec)
    requires i <= |format| && Letter(format, i) < |format|
    ensures spec == ReadSpec(format, i)
  {
    var p, right, zero := i, false, false;
    if format[p] == '-' {
      p, right := p + 1, true;
    }
    ghost var j := p;
    while p < |format| && format[p] == '0'
      invariant j <= p <= |format| && (zero <==> p > j)
      invariant SkipZeros(format, p) == SkipZeros(format, j)
    {
      p, zero := p + 1, true;
    }
    ghost var k := p;
    var width: nat := 0;
    while p < |format| && IsDigit(format[p])
      invariant k <= p <= |format|
      invariant SkipDigits(format, p) == SkipDigits(format, k) && Width(format, p, width) == Width(format, k, 0)
    {
      width := width * 10 + (format[p] - '0') as nat;
      p := p + 1;
    }
    spec := Spec(right, zero, width, format[p], p + 1);
  }

  /** One converted argument. */
  method PrintArg(out: Out, spec: Spec, arg: Arg) returns (pc: nat)
    requires if TakesInt(spec.kind) then arg.Int? else spec.kind == 's' && StringArg(arg)
    requires out.Room(|Converted(spec, arg)|)
    modifies out`at, out.buf
    ensures var r := Converted(spec, arg);
      out.buf[..] == Written(old(out.buf[..]), old(out.at), r) && out.at == old(out.at) + |r| && pc == |r|
  {
    if spec.kind == 's' {
      pc := Prints(out, if arg.s.Some? then arg.s.value else "(null)", spec.width, spec.right, spec.zero);
    } else if spec.kind == 'd' {
      pc := Printi(out, arg.i, 10, true, spec.width, spec.right, spec.zero, 'a');
    } else if spec.kind == 'x' {
      pc := Printi(out, arg.i, 16, false, spec.width, spec.right, spec.zero, 'a');
    } else if spec.kind == 'X' {
      pc := Printi(out, arg.i, 16, false, spec.width, spec.right, spec.zero, 'A');
    } else if spec.kind == 'u' {
      pc := Printi(out, arg.i, 10, false, spec.width, spec.right, spec.zero, 'a');
    } else {
      pc := Prints(out, CharText(arg.i), spec.width, spec.right, spec.zero);
    }
  }

  /** sprintf, and snprintf whatever its count: the text of the format and a terminator, for which there has to be room;
      the count returned is of the characters of the text. */
  method Sprintf(out: Out, format: string, args: seq<Arg>) returns (pc: nat)
    requires WellFormed(format, 0, args) && out.Room(|Render(format, 0, args)| + 1)
    modifies out`at, out.buf
    ensures var r := Render(format, 0, args);
      out.buf[..] == Written(old(out.buf[..]), old(out.at), r + ['\0']) && out.at == old(out.at) + |r| && pc == |r|
  {
    ghost var was, start := out.buf[..], out.at;
    pc := Print(out, format, args);
    Terminate(out);
    WrittenTwice(was, start, Render(format, 0, args), ['\0']);
  }

  /** The loop of print. */
  method Print(out: Out, format: string, args: seq<Arg>) returns (pc: nat)
    requires WellFormed(format, 0, args) && out.Room(|Render(format, 0, args)|)
    modifies out`at, out.buf
    ensures var r := Render(format, 0, args);
      out.buf[..] == Written(old(out.buf[..]), old(out.at), r) && out.at == old(out.at) + |r| && pc == |r|
  {
    ghost var was, start, all, done := out.buf[..], out.at, Render(format, 0, args), "";
    WrittenNothing(was, start);
    var i, rest := 0, args;
    pc := 0;
    while i < |format|
      invariant i <= |format| && ToRender(format, i, rest, done, all) && HasWritten(out, was, start, done)
        && pc == |done|
      decreases |format| - i
    {
      pc, i, rest, done := PrintNext(out, format, i, rest, pc, was, start, done, all);
    }
    NothingLeft(format, rest, done);
  }

  ghost predicate ToRender(format: string, i: nat, args: seq<Arg>, done: string, all: string)
    requires i <= |format|
  {
    WellFormed(format, i, args) && done + Render(format, i, args) == all
  }

  ghost predicate HasWritten(out: Out, was: string, start: nat, text: string)
    reads out, out.buf
  {
    start + |text| <= |was| && out.buf[..] == Written(was, start, text) && out.at == start + |text|
  }

  method PrintNext(out: Out, format: string, i: nat, args: seq<Arg>, pc: nat,
                   ghost was: string, ghost start: nat, ghost done: string, ghost all: string)
      returns (pc': nat, next: nat, rest: seq<Arg>, ghost done': string)
    requires i < |format| && ToRender(format, i, args, done, all) && HasWritten(out, was, start, done)
    requires pc == |done| && start + |all| <= |was| == out.buf.Length
    modifies out`at, out.buf
    ensures i < next <= |format| && ToRender(format, next, rest, done', all) && HasWritten(out, was, start, done')
    ensures pc' == |done'|
  {
    ghost var text;
    pc', next, rest, text := PrintOne(out, format, i, args);
    WrittenOn(was, start, done, text, Render(format, next, rest), all);
    pc', done' := pc + pc', done + text;
  }

  lemma WrittenOn(buf: string, at: nat, done: string, text: string, left: string, all: string)
    requires done + (text + left) == all && at + |all| <= |buf|
    ensures Written(Written(buf, at, done), at + |done|, text) == Written(buf, at, done + text)
      && done + text + left == all
  {
    WrittenTwice(buf, at, done, text);
  }

  lemma NothingLeft(format: string, args: seq<Arg>, done: string)
    ensures done + Render(format, |format|, args) == done
  {
  }

  /** **out = '\0' */
  method Terminate(out: Out)
    requires out.Room(1)
    modifies out.buf
    ensures out.buf[..] == Written(old(out.buf[..]), out.at, ['\0'])
  {
    out.buf[out.at] := '\0';
  }

  /** One turn of the loop of print: a character, or a conversion, and the arguments that are left. */
  method PrintOne(out: Out, format: string, i: nat, args: seq<Arg>)
      returns (pc: nat, next: nat, rest: seq<Arg>, ghost text: string)
    requires i < |format| && WellFormed(format, i, args) && out.Room(|Render(format, i, args)|)
    modifies out`at, out.buf
    ensures i < next <= |format| && WellFormed(format, next, rest)
    ensures Render(format, i, args) == text + Render(format, next, rest) && pc == |text|
    ensures out.buf[..] == Written(old(out.buf[..]), old(out.at), text) && out.at == old(out.at) + pc
  {
    pc, next, rest, text := 0, i + 1, args, "";
    if format[i] != '%' {
      text, pc := [format[i]], 1;
      PrintChar(out, format[i]);
    } else if i + 1 == |format| {
      WrittenNothing(out.buf[..], out.at);
    } else if format[i + 1] == '%' {
      text, pc, next := ['%'], 1, i + 2;
      PrintChar(out, '%');
    } else {
      var spec := ParseSpec(format, i + 1);
      next := spec.next;
      if TakesInt(spec.kind) || spec.kind == 's' {
        text, rest := Converted(spec, args[0]), args[1..];
        pc := PrintArg(out, spec, args[0]);
      } else {
        WrittenNothing(out.buf[..], out.at);
      }
    }
  }
}
