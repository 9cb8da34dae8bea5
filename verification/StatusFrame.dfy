/** net_values.c: the status frame that the remote terminal unit sends, and what can be read from it. */
module StatusFrame {
  import opened Wrappers
  import opened Numerals
  import opened Printf

  newtype Uint16 = x: int | 0 <= x < 0x1_0000
  newtype Uint32 = x: int | 0 <= x < 0x1_0000_0000
  newtype Int16 = x: int | -0x8000 <= x < 0x8000

  /** struct mot_pap and struct lift, as far as the frame is about them. */
  datatype Motor = Motor(posAct: Uint16, freq: Uint32, cwLimit: Uint16, ccwLimit: Uint16, stalled: bool)
  datatype Lift = Lift(upLimit: bool, downLimit: bool)

  /** What the frame carries: the frequencies cut to 16 bits, the server status to 8. */
  datatype Status = Status(
    resActArm: int, velActArm: int, resActPole: int, velActPole: int,
    cwLimitArm: bool, ccwLimitArm: bool, cwLimitPole: bool, ccwLimitPole: bool,
    limitUp: bool, limitDown: bool, stallAlm: bool, status: int)

  predicate InRange(s: Status) {
    && 0 <= s.resActArm < 0x1_0000 && 0 <= s.velActArm < 0x1_0000
    && 0 <= s.resActPole < 0x1_0000 && 0 <= s.velActPole < 0x1_0000 && 0 <= s.status < 0x100
  }

  function StatusOf(arm: Motor, pole: Motor, lift: Lift, iServerStatus: Int16): (s: Status)
    ensures InRange(s)
  {
    Status(arm.posAct as int, arm.freq as int % 0x1_0000, pole.posAct as int, pole.freq as int % 0x1_0000,
           arm.cwLimit != 0, arm.ccwLimit != 0, pole.cwLimit != 0, pole.ccwLimit != 0,
           lift.upLimit, lift.downLimit, arm.stalled || pole.stalled, iServerStatus as int % 0x100)
  }

  /** The words for a flag that is set, and one that is not. */
  const LIMIT_WORDS: seq<(string, string)> := [
    ("ACW_LIM;", "ACW_RUN;"), ("ACC_LIM;", "ACC_RUN;"), ("PCW_LIM;", "PCW_RUN;"), ("PCC_LIM;", "PCC_RUN;"),
    ("LUP_LIM;", "LUP_RUN;"), ("LDW_LIM;", "LDW_RUN;"), ("STL_ALM;", "STL_RUN;")]

  function FlagWord(k: nat, flag: bool): (w: string)
    requires k < 7
    ensures |w| == 8 && '\0' !in w && NoSpaces(w)
  {
    if flag then LIMIT_WORDS[k].0 else LIMIT_WORDS[k].1
  }

  function Flags(s: Status): seq<bool> {
    [s.cwLimitArm, s.ccwLimitArm, s.cwLimitPole, s.ccwLimitPole, s.limitUp, s.limitDown, s.stallAlm]
  }

  function FlagsOf(arm: Motor, pole: Motor, lift: Lift): seq<bool> {
    [arm.cwLimit != 0, arm.ccwLimit != 0, pole.cwLimit != 0, pole.ccwLimit != 0,
     lift.upLimit, lift.downLimit, arm.stalled || pole.stalled]
  }

  function Decimal(n: int): string
    requires 0 <= n < 0x1_0000
  {
    Natural(n as Int32, 10, true, 'a')
  }

  /** The twelve words of the frame. */
  function Words(s: Status): (w: seq<string>)
    requires InRange(s)
    ensures |w| == 12
  {
    [Decimal(s.resActArm), Decimal(s.velActArm), Decimal(s.resActPole), Decimal(s.velActPole)]
      + seq(7, k requires 0 <= k < 7 => FlagWord(k, Flags(s)[k])) + [Decimal(s.status)]
  }

  /** Every word with a blank behind it. */
  function Joined(words: seq<string>): string {
    if words == [] then "" else words[0] + " " + Joined(words[1..])
  }

  function Frame(s: Status): string
    requires InRange(s)
  {
    Joined(Words(s))
  }

  // ----- What a receiver reads -----

  /** The words of a text, each ended by a blank. */
  function Split(text: string, word: string): seq<string>
    decreases |text|
  {
    if text == "" then []
    else if text[0] == ' ' then [word] + Split(text[1..], "")
    else Split(text[1..], word + [text[0]])
  }

  /** The receiver has words of its own, and takes no others. */
  function Decode(text: string): Option<Status> {
    var w := Split(text, "");
    if |w| != 12 || !KnownWords(w) then None
    else Some(Status(Read(w[0], 10), Read(w[1], 10), Read(w[2], 10), Read(w[3], 10),
      w[4] == "ACW_LIM;", w[5] == "ACC_LIM;", w[6] == "PCW_LIM;", w[7] == "PCC_LIM;",
      w[8] == "LUP_LIM;", w[9] == "LDW_LIM;", w[10] == "STL_ALM;", Read(w[11], 10)))
  }

  predicate KnownWords(w: seq<string>)
    requires |w| == 12
  {
    && w[4] in ["ACW_LIM;", "ACW_RUN;"] && w[5] in ["ACC_LIM;", "ACC_RUN;"]
    && w[6] in ["PCW_LIM;", "PCW_RUN;"] && w[7] in ["PCC_LIM;", "PCC_RUN;"]
    && w[8] in ["LUP_LIM;", "LUP_RUN;"] && w[9] in ["LDW_LIM;", "LDW_RUN;"]
    && w[10] in ["STL_ALM;", "STL_RUN;"]
  }

  lemma {:induction false} SplitWord(word: string, read: string, rest: string)
    requires NoSpaces(word)
    ensures Split(word + " " + rest, read) == [read + word] + Split(rest, "")
    decreases |word|
  {
    var text := word + " " + rest;
    if word == "" {
      assert text[1..] == rest;
      assert read + word == read;
    } else {
      assert word[0] in word && forall c :: c in word[1..] ==> c in word;
      assert text[1..] == word[1..] + " " + rest;
      SplitWord(word[1..], read + [word[0]], rest);
      assert read + [word[0]] + word[1..] == read + word;
    }
  }

  lemma {:induction false} SplitJoined(words: seq<string>)
    requires forall k :: 0 <= k < |words| ==> NoSpaces(words[k])
    ensures Split(Joined(words), "") == words
    decreases |words|
  {
    if words != [] {
      SplitWord(words[0], "", Joined(words[1..]));
      SplitJoined(words[1..]);
      assert "" + words[0] == words[0];
      assert words[0] + " " + Joined(words[1..]) == Joined(words);
    }
  }

  lemma DecimalReads(n: int)
    requires 0 <= n < 0x1_0000
    ensures NoSpaces(Decimal(n)) && Read(Decimal(n), 10) == n && |Decimal(n)| <= 5
    ensures n < 0x100 ==> |Decimal(n)| <= 3
  {
    NaturalReadsBack(n as Int32, 10, true, 'a');
    ReadPlain(Decimal(n), 10);
    DigitsFit(n, 10, 'a', 5);
    DigitsFit(n, 10, 'a', 3);
    assert Power(10, 5) == 100_000 && Power(10, 3) == 1000;
  }

  /** The frame decodes to exactly the values it was made from, so it determines them. */
  lemma FrameDecodes(s: Status)
    requires InRange(s)
    ensures Decode(Frame(s)) == Some(s)
  {
    var w := Words(s);
    DecimalReads(s.resActArm);
    DecimalReads(s.velActArm);
    DecimalReads(s.resActPole);
    DecimalReads(s.velActPole);
    DecimalReads(s.status);
    forall k | 0 <= k < 12 ensures NoSpaces(w[k]) {
      if 4 <= k < 11 { assert w[k] == FlagWord(k - 4, Flags(s)[k - 4]); }
    }
    SplitJoined(w);
    WordsTell(s);
  }

  /** The word of each flag. */
  lemma FlagWords(flag: bool)
    ensures FlagWord(0, flag) == (if flag then "ACW_LIM;" else "ACW_RUN;")
    ensures FlagWord(1, flag) == (if flag then "ACC_LIM;" else "ACC_RUN;")
    ensures FlagWord(2, flag) == (if flag then "PCW_LIM;" else "PCW_RUN;")
    ensures FlagWord(3, flag) == (if flag then "PCC_LIM;" else "PCC_RUN;")
    ensures FlagWord(4, flag) == (if flag then "LUP_LIM;" else "LUP_RUN;")
    ensures FlagWord(5, flag) == (if flag then "LDW_LIM;" else "LDW_RUN;")
    ensures FlagWord(6, flag) == (if flag then "STL_ALM;" else "STL_RUN;")
  {
  }

  /** The words of a frame, in their order. */
  lemma FrameWords(s: Status)
    requires InRange(s)
    ensures var w := Words(s);
      && w[0] == Decimal(s.resActArm) && w[1] == Decimal(s.velActArm)
      && w[2] == Decimal(s.resActPole) && w[3] == Decimal(s.velActPole)
      && w[4] == (if s.cwLimitArm then "ACW_LIM;" else "ACW_RUN;")
      && w[5] == (if s.ccwLimitArm then "ACC_LIM;" else "ACC_RUN;")
      && w[6] == (if s.cwLimitPole then "PCW_LIM;" else "PCW_RUN;")
      && w[7] == (if s.ccwLimitPole then "PCC_LIM;" else "PCC_RUN;")
      && w[8] == (if s.limitUp then "LUP_LIM;" else "LUP_RUN;")
      && w[9] == (if s.limitDown then "LDW_LIM;" else "LDW_RUN;")
      && w[10] == (if s.stallAlm then "STL_ALM;" else "STL_RUN;") && w[11] == Decimal(s.status)
  {
    FlagWords(true);
    FlagWords(false);
    FlagsInWords(s);
    var w, flags := Words(s), Flags(s);
    assert w[4] == FlagWord(0, flags[0]) && w[5] == FlagWord(1, flags[1]) && w[6] == FlagWord(2, flags[2]);
    assert w[7] == FlagWord(3, flags[3]) && w[8] == FlagWord(4, flags[4]) && w[9] == FlagWord(5, flags[5]);
    assert w[10] == FlagWord(6, flags[6]);
  }

  lemma FlagsInWords(s: Status)
    requires InRange(s)
    ensures forall k :: 0 <= k < 7 ==> Words(s)[k + 4] == FlagWord(k, Flags(s)[k])
    ensures forall j :: 4 <= j < 11 ==> Words(s)[j] == FlagWord(j - 4, Flags(s)[j - 4])
  {
  }

  lemma WordsTell(s: Status)
    requires InRange(s)
    ensures var w := Words(s);
      && KnownWords(w)
      && (w[4] == "ACW_LIM;" <==> s.cwLimitArm) && (w[5] == "ACC_LIM;" <==> s.ccwLimitArm)
      && (w[6] == "PCW_LIM;" <==> s.cwLimitPole) && (w[7] == "PCC_LIM;" <==> s.ccwLimitPole)
      && (w[8] == "LUP_LIM;" <==> s.limitUp) && (w[9] == "LDW_LIM;" <==> s.limitDown)
      && (w[10] == "STL_ALM;" <==> s.stallAlm)
  {
    FrameWords(s);
    assert "ACW_LIM;"[4] != "ACW_RUN;"[4] && "ACC_LIM;"[4] != "ACC_RUN;"[4] && "PCW_LIM;"[4] != "PCW_RUN;"[4];
    assert "PCC_LIM;"[4] != "PCC_RUN;"[4] && "LUP_LIM;"[4] != "LUP_RUN;"[4] && "LDW_LIM;"[4] != "LDW_RUN;"[4];
    assert "STL_ALM;"[4] != "STL_RUN;"[4];
  }

  /** The text of a frame: the axes, their limits, the lift and the rest. */
  lemma FrameText(s: Status)
    requires InRange(s)
    ensures Frame(s) ==
      Four(Decimal(s.resActArm), Decimal(s.velActArm), Decimal(s.resActPole), Decimal(s.velActPole)) + (
      Four(if s.cwLimitArm then "ACW_LIM;" else "ACW_RUN;", if s.ccwLimitArm then "ACC_LIM;" else "ACC_RUN;",
           if s.cwLimitPole then "PCW_LIM;" else "PCW_RUN;", if s.ccwLimitPole then "PCC_LIM;" else "PCC_RUN;") +
      Four(if s.limitUp then "LUP_LIM;" else "LUP_RUN;", if s.limitDown then "LDW_LIM;" else "LDW_RUN;",
           if s.stallAlm then "STL_ALM;" else "STL_RUN;", Decimal(s.status)))
  {
    FrameWords(s);
    JoinedTwelve(Words(s));
  }

  /** Four words, a blank behind each. */
  function Four(a: string, b: string, c: string, d: string): string {
    a + " " + b + " " + c + " " + d + " "
  }

  lemma JoinedTwelve(w: seq<string>)
    requires |w| == 12
    ensures Joined(w) == Four(w[0], w[1], w[2], w[3]) + (Four(w[4], w[5], w[6], w[7]) + Four(w[8], w[9], w[10], w[11]))
  {
    var a, b, c := [w[0], w[1], w[2], w[3]], [w[4], w[5], w[6], w[7]], [w[8], w[9], w[10], w[11]];
    assert w == a + (b + c);
    JoinedConcat(b, c);
    JoinedConcat(a, b + c);
    JoinedFour(w[0], w[1], w[2], w[3]);
    JoinedFour(w[4], w[5], w[6], w[7]);
    JoinedFour(w[8], w[9], w[10], w[11]);
  }

  lemma JoinedFour(a: string, b: string, c: string, d: string)
    ensures Joined([a, b, c, d]) == Four(a, b, c, d)
  {
    assert [a, b, c, d][1..] == [b, c, d] && [b, c, d][1..] == [c, d] && [c, d][1..] == [d] && [d][1..] == [];
    assert Joined([d]) == d + " ";
    assert Joined([c, d]) == c + " " + d + " ";
    assert Joined([b, c, d]) == b + " " + c + " " + d + " ";
  }

  /** 91 characters at most: four numbers of five digits, seven words of eight characters, one number of three digits,
      twelve blanks. */
  lemma FrameLength(s: Status)
    requires InRange(s)
    ensures |Frame(s)| <= 91
  {
    var w := Words(s);
    DecimalReads(s.resActArm);
    DecimalReads(s.velActArm);
    DecimalReads(s.resActPole);
    DecimalReads(s.velActPole);
    DecimalReads(s.status);
    JoinedLength(w[11..], 3);
    JoinedLength(w[4..11], 8);
    JoinedLength(w[..4], 5);
    JoinedConcat(w[4..11], w[11..]);
    JoinedConcat(w[..4], w[4..11] + w[11..]);
    assert w == w[..4] + (w[4..11] + w[11..]);
  }

  lemma {:induction false} JoinedLength(words: seq<string>, n: nat)
    requires forall k :: 0 <= k < |words| ==> |words[k]| <= n
    ensures |Joined(words)| <= |words| * (n + 1)
  {
    if words != [] {
      JoinedLength(words[1..], n);
      assert |words| * (n + 1) == (|words| - 1) * (n + 1) + (n + 1);
    }
  }

  lemma {:induction false} JoinedConcat(a: seq<string>, b: seq<string>)
    ensures Joined(a + b) == Joined(a) + Joined(b)
  {
    if a == [] {
      assert a + b == b;
    } else {
      JoinedConcat(a[1..], b);
      assert (a + b)[1..] == a[1..] + b;
    }
  }

  // ----- The frame is what the format string makes of the values -----

  const NUMBERS := "%d %d %d %d "
  const TEXTS := "%s %s %s %s %s %s %s "
  const LAST := "%d "
  const FORMAT := NUMBERS + TEXTS + LAST

  /** A word of the format string: a conversion without flags, and a blank. */
  lemma RenderWord(f: string, i: nat, args: seq<Arg>)
    requires i + 3 <= |f| && f[i] == '%' && (f[i + 1] == 'd' || f[i + 1] == 's') && f[i + 2] == ' ' && args != []
    requires if f[i + 1] == 'd' then args[0].Int? else StringArg(args[0]) && args[0].s.Some?
    requires WellFormed(f, i + 3, args[1..])
    ensures WellFormed(f, i, args) && Render(f, i, args) == WordOf(args[0]) + " " + Render(f, i + 3, args[1..])
  {
    PlainSpec(f, i + 1);
    BlankRenders(f, i + 2, args[1..]);
    PlainArg(f[i + 1], i + 2, args[0]);
    assert WordOf(args[0]) + (" " + Render(f, i + 3, args[1..])) == WordOf(args[0]) + " " + Render(f, i + 3, args[1..]);
  }

  lemma PlainSpec(f: string, i: nat)
    requires i < |f| && (f[i] == 'd' || f[i] == 's')
    ensures Letter(f, i) == i && ReadSpec(f, i) == Spec(false, false, 0, f[i], i + 1)
  {
    assert SkipZeros(f, i) == i && SkipDigits(f, i) == i;
  }

  lemma BlankRenders(f: string, i: nat, args: seq<Arg>)
    requires i < |f| && f[i] == ' ' && WellFormed(f, i + 1, args)
    ensures WellFormed(f, i, args) && Render(f, i, args) == " " + Render(f, i + 1, args)
  {
  }

  lemma PlainArg(kind: char, next: nat, arg: Arg)
    requires if kind == 'd' then arg.Int? else kind == 's' && arg.Str? && arg.s.Some?
    ensures Converted(Spec(false, false, 0, kind, next), arg) == WordOf(arg)
  {
    NothingPadded(WordOf(arg), 0, false, false);
  }

  function WordOf(arg: Arg): string {
    match arg
    case Int(i) => Natural(i, 10, true, 'a')
    case Str(s) => if s.Some? then s.value else ""
  }

  function WordsOf(args: seq<Arg>): seq<string> {
    if args == [] then [] else [WordOf(args[0])] + WordsOf(args[1..])
  }

  predicate Fits(k: nat, arg: Arg)
    requires k < 12
  {
    if k < 4 || k == 11 then arg.Int? else StringArg(arg) && arg.s.Some?
  }

  predicate FrameFormat(f: string) {
    |f| == 36 && forall k :: 0 <= k < 12 ==> FormatWord(f, k)
  }

  predicate FormatWord(f: string, k: nat)
    requires |f| == 36 && k < 12
  {
    WordAt(f, 3 * k, if k < 4 || k == 11 then 'd' else 's')
  }

  predicate WordAt(f: string, i: nat, kind: char)
    requires i + 3 <= |f|
  {
    f[i] == '%' && f[i + 1] == kind && f[i + 2] == ' '
  }

  lemma NumberWords(k: nat)
    requires k < 4
    ensures |NUMBERS| == 12 && WordAt(NUMBERS, 3 * k, 'd')
  {
  }

  lemma TextWords(k: nat)
    requires k < 7
    ensures |TEXTS| == 21 && WordAt(TEXTS, 3 * k, 's')
  {
  }

  lemma InParts(a: string, b: string, c: string)
    requires |a| == 12 && |b| == 21 && |c| == 3 && WordAt(c, 0, 'd')
    requires (forall k :: 0 <= k < 4 ==> WordAt(a, 3 * k, 'd')) && forall k :: 0 <= k < 7 ==> WordAt(b, 3 * k, 's')
    ensures FrameFormat(a + b + c)
  {
    var f := a + b + c;
    forall k | 0 <= k < 12 ensures FormatWord(f, k) {
      if k < 4 {
        assert WordAt(a, 3 * k, 'd');
      } else if k < 11 {
        assert WordAt(b, 3 * (k - 4), 's');
      }
    }
  }

  lemma FormatIsFrameFormat()
    ensures FrameFormat(FORMAT)
  {
    forall k | 0 <= k < 4 ensures |NUMBERS| == 12 && WordAt(NUMBERS, 3 * k, 'd') { NumberWords(k); }
    forall k | 0 <= k < 7 ensures |TEXTS| == 21 && WordAt(TEXTS, 3 * k, 's') { TextWords(k); }
    NumberWords(0);
    TextWords(0);
    InParts(NUMBERS, TEXTS, LAST);
  }

  lemma RestFits(k: nat, args: seq<Arg>)
    requires args != [] && k + |args| == 12 && forall j :: 0 <= j < |args| ==> Fits(k + j, args[j])
    ensures forall j :: 0 <= j < |args[1..]| ==> Fits(k + 1 + j, args[1..][j])
  {
    forall j | 0 <= j < |args[1..]| ensures Fits(k + 1 + j, args[1..][j]) {
      var next := j + 1;
      assert Fits(k + next, args[next]);
    }
  }

  lemma {:induction false} RenderFrom(f: string, k: nat, args: seq<Arg>)
    requires FrameFormat(f) && k + |args| == 12 && forall j :: 0 <= j < |args| ==> Fits(k + j, args[j])
    ensures WellFormed(f, 3 * k, args) && Render(f, 3 * k, args) == Joined(WordsOf(args))
    decreases |args|
  {
    if args != [] {
      assert FormatWord(f, k);
      assert Fits(k + 0, args[0]);
      RestFits(k, args);
      RenderFrom(f, k + 1, args[1..]);
      RenderWord(f, 3 * k, args);
    }
  }

  function ArgsOf(s: Status): (args: seq<Arg>)
    requires InRange(s)
    ensures |args| == 12
  {
    [Int(s.resActArm as Int32), Int(s.velActArm as Int32), Int(s.resActPole as Int32), Int(s.velActPole as Int32)]
      + seq(7, k requires 0 <= k < 7 => Str(Some(FlagWord(k, Flags(s)[k])))) + [Int(s.status as Int32)]
  }

  lemma FlagsAt(s: Status)
    requires InRange(s)
    ensures forall k :: 0 <= k < 7 ==> ArgsOf(s)[k + 4] == Str(Some(FlagWord(k, Flags(s)[k])))
  {
  }

  lemma RendersFrame(s: Status)
    requires InRange(s)
    ensures WellFormed(FORMAT, 0, ArgsOf(s)) && Render(FORMAT, 0, ArgsOf(s)) == Frame(s)
  {
    var args, words := ArgsOf(s), Words(s);
    forall j | 0 <= j < 12 ensures Fits(0 + j, args[j]) {}
    FormatIsFrameFormat();
    RenderFrom(FORMAT, 0, args);
    WordsAt(args);
    assert WordsOf(args) == words by {
      forall j | 0 <= j < 12 ensures WordsOf(args)[j] == words[j] {}
    }
  }

  lemma {:induction false} WordsAt(args: seq<Arg>)
    ensures |WordsOf(args)| == |args| && forall j :: 0 <= j < |args| ==> WordsOf(args)[j] == WordOf(args[j])
  {
    if args != [] { WordsAt(args[1..]); }
  }

  // ----- RTUData_t -----

  /** RTU_NETVAR_SIZE, and the size of the text buffer. */
  const NETVAR_SIZE := 9
  const BUFFER_SIZE := 100

  class RTUData {
    var resActArm: Uint16
    var resActPole: Uint16
    var velActArm: Uint16
    var velActPole: Uint16
    const cwLimitArm: array<char>
    const ccwLimitArm: array<char>
    const cwLimitPole: array<char>
    const ccwLimitPole: array<char>
    const limitUp: array<char>
    const limitDown: array<char>
    const stallAlm: array<char>
    var status: int
    const buffer: array<char>

    ghost function FlagTexts(): (r: seq<array<char>>)
      ensures |r| == 7
    {
      [cwLimitArm, ccwLimitArm, cwLimitPole, ccwLimitPole, limitUp, limitDown, stallAlm]
    }

    /** The members of the structure are separate, and as long as it declares them. */
    ghost predicate Valid() {
      && buffer.Length == BUFFER_SIZE
      && (forall k :: 0 <= k < 7 ==> FlagTexts()[k].Length == NETVAR_SIZE && FlagTexts()[k] != buffer)
      && forall j, k :: 0 <= j < k < 7 ==> FlagTexts()[j] != FlagTexts()[k]
    }

    constructor ()
      ensures Valid()
    {
      resActArm, resActPole, velActArm, velActPole, status := 0, 0, 0, 0, 0;
      cwLimitArm, ccwLimitArm := new char[NETVAR_SIZE], new char[NETVAR_SIZE];
      cwLimitPole, ccwLimitPole := new char[NETVAR_SIZE], new char[NETVAR_SIZE];
      limitUp, limitDown, stallAlm := new char[NETVAR_SIZE], new char[NETVAR_SIZE], new char[NETVAR_SIZE];
      buffer := new char[BUFFER_SIZE];
    }

    ghost predicate FlagsAre(s: Status, n: nat)
      requires Valid() && n <= 7
      reads FlagTexts()
    {
      forall k :: 0 <= k < n ==> FlagTexts()[k][..] == FlagWord(k, Flags(s)[k]) + ['\0']
    }

    /** sprintf of one of the two words of the k-th flag. */
    method SetFlag(text: array<char>, k: nat, flag: bool, ghost s: Status)
      requires Valid() && k < 7 && text == FlagTexts()[k] && flag == Flags(s)[k] && FlagsAre(s, k)
      modifies text
      ensures FlagsAre(s, k + 1)
    {
      var word := FlagWord(k, flag);
      WriteString(text, word);
      forall j | 0 <= j < k ensures FlagTexts()[j][..] == old(FlagTexts()[j][..]) {
        assert FlagTexts()[j] != FlagTexts()[k];
      }
    }

    method SetFlags(arm: Motor, pole: Motor, lift: Lift, ghost s: Status)
      requires Valid() && FlagsOf(arm, pole, lift) == Flags(s)
      modifies cwLimitArm, ccwLimitArm, cwLimitPole, ccwLimitPole, limitUp, limitDown, stallAlm
      ensures FlagsAre(s, 7) && buffer[..] == old(buffer[..])
    {
      Separate();
      SetAxisFlags(arm, pole, s);
      SetTwoFlags(limitUp, limitDown, 4, lift.upLimit, lift.downLimit, s);
      SetFlag(stallAlm, 6, arm.stalled || pole.stalled, s);
    }

    method SetAxisFlags(arm: Motor, pole: Motor, ghost s: Status)
      requires Valid() && Flags(s)[0] == (arm.cwLimit != 0) && Flags(s)[1] == (arm.ccwLimit != 0)
      requires Flags(s)[2] == (pole.cwLimit != 0) && Flags(s)[3] == (pole.ccwLimit != 0)
      modifies cwLimitArm, ccwLimitArm, cwLimitPole, ccwLimitPole
      ensures FlagsAre(s, 4)
    {
      SetTwoFlags(cwLimitArm, ccwLimitArm, 0, arm.cwLimit != 0, arm.ccwLimit != 0, s);
      SetTwoFlags(cwLimitPole, ccwLimitPole, 2, pole.cwLimit != 0, pole.ccwLimit != 0, s);
    }

    method SetTwoFlags(first: array<char>, second: array<char>, k: nat, flag1: bool, flag2: bool, ghost s: Status)
      requires Valid() && k < 6 && first == FlagTexts()[k] && second == FlagTexts()[k + 1]
      requires flag1 == Flags(s)[k] && flag2 == Flags(s)[k + 1] && FlagsAre(s, k)
      modifies first, second
      ensures FlagsAre(s, k + 2)
    {
      SetFlag(first, k, flag1, s);
      SetFlag(second, k + 1, flag2, s);
    }

    lemma Separate()
      requires Valid()
      ensures buffer !in [cwLimitArm, ccwLimitArm, cwLimitPole, ccwLimitPole, limitUp, limitDown, stallAlm]
    {
      assert FlagTexts() == [cwLimitArm, ccwLimitArm, cwLimitPole, ccwLimitPole, limitUp, limitDown, stallAlm];
    }

    /** The members that are numbers, cut to their widths. */
    method SetNumbers(arm: Motor, pole: Motor, iServerStatus: Int16)
      modifies this
      ensures resActArm == arm.posAct && resActPole == pole.posAct
      ensures velActArm as int == arm.freq as int % 0x1_0000 && velActPole as int == pole.freq as int % 0x1_0000
      ensures status == iServerStatus as int % 0x100
    {
      resActArm, resActPole := arm.posAct, pole.posAct;
      velActArm, velActPole := (arm.freq as int % 0x1_0000) as Uint16, (pole.freq as int % 0x1_0000) as Uint16;
      if iServerStatus != 0 { status := iServerStatus as int % 0x100; } else { status := 0; }
    }

    /** NetValuesToSendFromRTU. The frame and its terminator end inside the buffer, and a receiver that decodes it gets
        back every value. */
    method NetValuesToSendFromRTU(iServerStatus: Int16, arm: Motor, pole: Motor, lift: Lift)
      requires Valid()
      modifies this, buffer, cwLimitArm, ccwLimitArm, cwLimitPole, ccwLimitPole, limitUp, limitDown, stallAlm
      ensures resActArm == arm.posAct && resActPole == pole.posAct && status == iServerStatus as int % 0x100
      ensures velActArm as int == arm.freq as int % 0x1_0000 && velActPole as int == pole.freq as int % 0x1_0000
      ensures cwLimitArm[..] == (if arm.cwLimit != 0 then "ACW_LIM;" else "ACW_RUN;") + ['\0']
      ensures ccwLimitArm[..] == (if arm.ccwLimit != 0 then "ACC_LIM;" else "ACC_RUN;") + ['\0']
      ensures cwLimitPole[..] == (if pole.cwLimit != 0 then "PCW_LIM;" else "PCW_RUN;") + ['\0']
      ensures ccwLimitPole[..] == (if pole.ccwLimit != 0 then "PCC_LIM;" else "PCC_RUN;") + ['\0']
      ensures limitUp[..] == (if lift.upLimit then "LUP_LIM;" else "LUP_RUN;") + ['\0']
      ensures limitDown[..] == (if lift.downLimit then "LDW_LIM;" else "LDW_RUN;") + ['\0']
      ensures stallAlm[..] == (if arm.stalled || pole.stalled then "STL_ALM;" else "STL_RUN;") + ['\0']
      ensures var s := StatusOf(arm, pole, lift, iServerStatus); var frame := Frame(s);
        && NumbersAre(s) && FlagsAre(s, 7) && |frame| + 1 <= 92 <= buffer.Length
        && buffer[..] == Written(old(buffer[..]), 0, frame + ['\0'])
        && Decode(frame) == Some(s)
    {
      ghost var s := StatusOf(arm, pole, lift, iServerStatus);
      MembersAndFrame(arm, pole, lift, iServerStatus, s);
      FrameLength(s);
      FrameDecodes(s);
      TextsAre(arm, pole, lift, s);
    }

    method MembersAndFrame(arm: Motor, pole: Motor, lift: Lift, iServerStatus: Int16, ghost s: Status)
      requires Valid() && s == StatusOf(arm, pole, lift, iServerStatus)
      modifies this, buffer, cwLimitArm, ccwLimitArm, cwLimitPole, ccwLimitPole, limitUp, limitDown, stallAlm
      ensures NumbersAre(s) && FlagsAre(s, 7) && |Frame(s)| + 1 <= buffer.Length
      ensures buffer[..] == Written(old(buffer[..]), 0, Frame(s) + ['\0'])
    {
      SetMembers(arm, pole, lift, iServerStatus, s);
      WriteFrame(s);
    }

    lemma TextsAre(arm: Motor, pole: Motor, lift: Lift, s: Status)
      requires Valid() && FlagsAre(s, 7) && Flags(s) == FlagsOf(arm, pole, lift)
      ensures cwLimitArm[..] == (if arm.cwLimit != 0 then "ACW_LIM;" else "ACW_RUN;") + ['\0']
      ensures ccwLimitArm[..] == (if arm.ccwLimit != 0 then "ACC_LIM;" else "ACC_RUN;") + ['\0']
      ensures cwLimitPole[..] == (if pole.cwLimit != 0 then "PCW_LIM;" else "PCW_RUN;") + ['\0']
      ensures ccwLimitPole[..] == (if pole.ccwLimit != 0 then "PCC_LIM;" else "PCC_RUN;") + ['\0']
      ensures limitUp[..] == (if lift.upLimit then "LUP_LIM;" else "LUP_RUN;") + ['\0']
      ensures limitDown[..] == (if lift.downLimit then "LDW_LIM;" else "LDW_RUN;") + ['\0']
      ensures stallAlm[..] == (if arm.stalled || pole.stalled then "STL_ALM;" else "STL_RUN;") + ['\0']
    {
      FlagWords(true);
      FlagWords(false);
      forall k | 0 <= k < 7 ensures FlagTexts()[k][..] == FlagWord(k, Flags(s)[k]) + ['\0'] {}
      assert FlagTexts()[0] == cwLimitArm && FlagTexts()[1] == ccwLimitArm && FlagTexts()[2] == cwLimitPole;
      assert FlagTexts()[3] == ccwLimitPole && FlagTexts()[4] == limitUp && FlagTexts()[5] == limitDown;
      assert FlagTexts()[6] == stallAlm;
    }

    /** Every member but the text buffer. */
    method SetMembers(arm: Motor, pole: Motor, lift: Lift, iServerStatus: Int16, ghost s: Status)
      requires Valid() && s == StatusOf(arm, pole, lift, iServerStatus)
      modifies this, cwLimitArm, ccwLimitArm, cwLimitPole, ccwLimitPole, limitUp, limitDown, stallAlm
      ensures NumbersAre(s) && FlagsAre(s, 7) && buffer[..] == old(buffer[..])
    {
      SetNumbers(arm, pole, iServerStatus);
      SetFlags(arm, pole, lift, s);
    }

    ghost predicate NumbersAre(s: Status)
      reads this
    {
      && s.resActArm == resActArm as int && s.velActArm == velActArm as int && s.resActPole == resActPole as int
      && s.velActPole == velActPole as int && s.status == status
    }

    /** The snprintf, whose size argument does nothing. */
    method WriteFrame(ghost s: Status)
      requires Valid() && InRange(s) && FlagsAre(s, 7)
      requires NumbersAre(s)
      modifies buffer
      ensures |Frame(s)| + 1 <= buffer.Length
      ensures buffer[..] == Written(old(buffer[..]), 0, Frame(s) + ['\0'])
    {
      var args := Args();
      FlagArgs(s, args);
      FrameLength(s);
      RendersFrame(s);
      var out := new Out(buffer);
      var _ := Sprintf(out, FORMAT, args);
    }

    /** The arguments of the snprintf: the numbers, and the strings in the members. */
    function Args(): (args: seq<Arg>)
      requires 0 <= status < 0x100
      reads this, cwLimitArm, ccwLimitArm, cwLimitPole, ccwLimitPole, limitUp, limitDown, stallAlm
      ensures |args| == 12
    {
      [Int(resActArm as Int32), Int(velActArm as Int32), Int(resActPole as Int32), Int(velActPole as Int32),
       Str(Some(CString(cwLimitArm[..]))), Str(Some(CString(ccwLimitArm[..]))),
       Str(Some(CString(cwLimitPole[..]))), Str(Some(CString(ccwLimitPole[..]))),
       Str(Some(CString(limitUp[..]))), Str(Some(CString(limitDown[..]))),
       Str(Some(CString(stallAlm[..]))), Int(status as Int32)]
    }

    lemma FlagStrings(s: Status)
      requires Valid() && InRange(s) && FlagsAre(s, 7)
      ensures forall k :: 0 <= k < 7 ==> CString(FlagTexts()[k][..]) == FlagWord(k, Flags(s)[k])
    {
      forall k | 0 <= k < 7 ensures CString(FlagTexts()[k][..]) == FlagWord(k, Flags(s)[k]) {
        CStringOf(FlagWord(k, Flags(s)[k]));
      }
    }

    lemma FlagArgs(s: Status, args: seq<Arg>)
      requires Valid() && InRange(s) && FlagsAre(s, 7) && 0 <= status < 0x100 && args == Args()
      requires NumbersAre(s)
      ensures args == ArgsOf(s)
    {
      FlagStrings(s);
      assert forall k :: 0 <= k < 7 ==> args[k + 4] == Str(Some(CString(FlagTexts()[k][..])));
      FlagsAt(s);
      forall j | 0 <= j < 12 ensures args[j] == ArgsOf(s)[j] {
        if 4 <= j < 11 { assert args[(j - 4) + 4] == ArgsOf(s)[(j - 4) + 4]; }
      }
    }
  }

  /** The characters before the terminator. */
  function CString(a: string): string {
    if a == "" || a[0] == '\0' then "" else [a[0]] + CString(a[1..])
  }

  lemma {:induction false} CStringOf(word: string)
    requires '\0' !in word
    ensures CString(word + ['\0']) == word
  {
    if word != "" {
      assert (word + ['\0'])[1..] == word[1..] + ['\0'];
      CStringOf(word[1..]);
    }
  }

  /** sprintf( text, "%s", word ) into an array that word and its terminator just fill. */
  method WriteString(text: array<char>, word: string)
    requires '\0' !in word && text.Length == |word| + 1
    modifies text
    ensures text[..] == word + ['\0']
  {
    StringRenders(word);
    var out := new Out(text);
    var _ := Sprintf(out, "%s", [Str(Some(word))]);
  }

  lemma StringRenders(word: string)
    requires '\0' !in word
    ensures var args := [Str(Some(word))];
      WellFormed("%s", 0, args) && Render("%s", 0, args) == word
  {
    var args := [Str(Some(word))];
    PlainSpec("%s", 1);
    PlainArg('s', 2, args[0]);
    assert args[1..] == [];
  }
}
