/** The encoder: the closed set of commands a caller can send, and their
    serialisation into one 8-byte HID feature report. */
module Messages {
  import opened Bytes
  import opened Optional
  import opened Colors
  import opened Leds
  import opened Durations
  import opened Frames

  /** A command to the device, over the library's color type `C`. Durations
      are whole milliseconds. */
  datatype Message<C> =
    | Off
    | Fade(color: C, duration: nat, led: LedNum)
    | Immediate(color: C)
    | SetLinePattern(color: C, duration: nat, pos: byte)
    | SetLedNum(led: LedNum)
    | PlayLoop(on: bool, startPos: byte, endPos: byte, loopCount: byte)

  /** `Off` is encoded through `Immediate`, so it ranks one above the others. */
  function Rank<C>(m: Message<C>): nat
  {
    if m.Off? then 1 else 0
  }

  /** What a message asks of the device, as the frame parser reads it. */
  function Meaning<C>(m: Message<C>, ops: ColorOps<C>): Command
  {
    match m
    case Off => SetColorNow(ops.rgb(ops.three(0, 0, 0)))
    case Fade(color, duration, led) => FadeTo(ops.rgb(color), Pack(duration), led)
    case Immediate(color) => SetColorNow(ops.rgb(color))
    case SetLinePattern(color, duration, pos) => WriteLine(ops.rgb(color), Pack(duration), pos)
    case SetLedNum(led) => SelectLed(led)
    case PlayLoop(on, startPos, endPos, loopCount) => Play(on, startPos, endPos, loopCount)
  }

  /** The frame written to the device for `m`. Every message encodes, to
      exactly 8 bytes starting with the report id, and the device reads the
      frame back as precisely the command the message means. */
  function Buffer<C>(m: Message<C>, ops: ColorOps<C>): (frame: seq<byte>)
    ensures |frame| == FrameLength && frame[0] == ReportId
    ensures Parse(frame) == Some(Meaning(m, ops))
    decreases Rank(m)
  {
    match m
    case Off => Buffer(Immediate(ops.three(0, 0, 0)), ops)
    case Fade(color, duration, led) =>
      var Rgb(r, g, b) := ops.rgb(color);
      var t := Ticks(duration);
      [ReportId, FadeCommandAction, r, g, b, TimeHi(t), TimeLo(t), AsU8(led)]
    case Immediate(color) =>
      var Rgb(r, g, b) := ops.rgb(color);
      [ReportId, ImmediateCommandAction, r, g, b, 0, 0, 0]
    case SetLinePattern(color, duration, pos) =>
      var Rgb(r, g, b) := ops.rgb(color);
      var t := Ticks(duration);
      [ReportId, SetLinePatternAction, r, g, b, TimeHi(t), TimeLo(t), pos]
    case SetLedNum(led) => [ReportId, SetLedNumAction, AsU8(led), 0, 0, 0, 0, 0]
    case PlayLoop(on, startPos, endPos, loopCount) =>
      var onByte: byte := if on then 1 else 0;
      [ReportId, PlayLoopAction, onByte, startPos, endPos, loopCount, 0, 0]
  }

  /** A message built from a color name: set that color at once. */
  function FromStr<C>(ops: ColorOps<C>, s: string): (m: Message<C>)
    ensures Meaning(m, ops) == SetColorNow(ops.rgb(ops.named(s)))
  {
    Immediate(ops.named(s))
  }

  /** Two messages are sent as the same frame exactly when they mean the same
      command to the device. */
  lemma BufferEqualIffMeaningEqual<C>(m1: Message<C>, m2: Message<C>, ops: ColorOps<C>)
    ensures Buffer(m1, ops) == Buffer(m2, ops) <==> Meaning(m1, ops) == Meaning(m2, ops)
  {
  }

  /** `Off` is sent as exactly the frame of `Immediate` black: the immediate
      opcode and eight bytes otherwise zero, except the report id. */
  lemma OffIsImmediateBlack<C>(ops: ColorOps<C>, black: C)
    requires ThreeIsVerbatim(ops, 0, 0, 0)
    requires ops.rgb(black) == Black
    ensures Buffer(Off, ops) == [ReportId, ImmediateCommandAction, 0, 0, 0, 0, 0, 0]
    ensures Buffer(Off, ops) == Buffer(Immediate(black), ops)
  {
  }

  /** `Immediate` sends the color's three channels after the opcode and pads
      with zeros. */
  lemma ImmediateLayout<C>(color: C, ops: ColorOps<C>)
    ensures var f := Buffer(Immediate(color), ops);
      f[1] == ImmediateCommandAction
      && Rgb(f[2], f[3], f[4]) == ops.rgb(color)
      && f[5] == f[6] == f[7] == 0
  {
  }

  /** `Fade` sends opcode 'c', the color, the two time bytes of its duration and
      the LED selector. */
  lemma FadeLayout<C>(color: C, ms: nat, led: LedNum, ops: ColorOps<C>)
    ensures var f := Buffer(Fade(color, ms, led), ops);
      f[1] == FadeCommandAction
      && Rgb(f[2], f[3], f[4]) == ops.rgb(color)
      && TimePair(f[5], f[6]) == Pack(ms)
      && f[7] == AsU8(led) && f[7] <= 2
  {
  }

  /** `SetLinePattern` sends opcode 80, the color, the two time bytes of its
      duration and the pattern position as given. */
  lemma SetLinePatternLayout<C>(color: C, ms: nat, pos: byte, ops: ColorOps<C>)
    ensures var f := Buffer(SetLinePattern(color, ms, pos), ops);
      f[1] == SetLinePatternAction
      && Rgb(f[2], f[3], f[4]) == ops.rgb(color)
      && TimePair(f[5], f[6]) == Pack(ms)
      && f[7] == pos
  {
  }

  /** `Fade` and `SetLinePattern` of the same color and duration agree on bytes
      0 and 2..6 and differ in the opcode; the last byte is the LED selector in
      one and the raw position in the other. */
  lemma FadeAgreesWithLinePattern<C>(color: C, ms: nat, led: LedNum, pos: byte, ops: ColorOps<C>)
    ensures var fade := Buffer(Fade(color, ms, led), ops);
      var line := Buffer(SetLinePattern(color, ms, pos), ops);
      fade[0] == line[0] && fade[2..7] == line[2..7]
      && fade[1] != line[1]
      && fade[7] == AsU8(led) && line[7] == pos
  {
  }

  /** `SetLedNum` sends opcode 108, the selector byte, and zeros. */
  lemma SetLedNumLayout<C>(led: LedNum, ops: ColorOps<C>)
    ensures var f := Buffer(SetLedNum(led), ops);
      f[1] == SetLedNumAction && f[2] == AsU8(led)
      && f[3..] == [0, 0, 0, 0, 0]
  {
  }

  /** `PlayLoop` sends opcode 112, 1 or 0 for `on`, the three positions and
      count as given, and two zeros. */
  lemma PlayLoopLayout<C>(on: bool, startPos: byte, endPos: byte, loopCount: byte, ops: ColorOps<C>)
    ensures var f := Buffer(PlayLoop(on, startPos, endPos, loopCount), ops);
      f[1] == PlayLoopAction
      && (f[2] == 1 <==> on) && f[2] <= 1
      && f[3] == startPos && f[4] == endPos && f[5] == loopCount
      && f[6] == f[7] == 0
  {
  }

  /** Distinct `PlayLoop` messages are sent as distinct frames. */
  lemma PlayLoopInjective<C>(m1: Message<C>, m2: Message<C>, ops: ColorOps<C>)
    requires m1.PlayLoop? && m2.PlayLoop?
    ensures Buffer(m1, ops) == Buffer(m2, ops) <==> m1 == m2
  {
  }

  /** A message built from a name sets that name's color at once: the immediate
      opcode, the color's channels, and a zero tail. */
  lemma FromStrLayout<C>(ops: ColorOps<C>, s: string)
    ensures var f := Buffer(FromStr(ops, s), ops);
      f[1] == ImmediateCommandAction
      && Rgb(f[2], f[3], f[4]) == ops.rgb(ops.named(s))
      && f[5..] == [0, 0, 0]
  {
  }

  /** The four names the library's own tests pin, given that the name lookup
      resolves them to those colors. */
  lemma FromStrPinnedNames<C>(ops: ColorOps<C>)
    requires ops.rgb(ops.named("red")) == Rgb(0xff, 0, 0)
    requires ops.rgb(ops.named("green")) == Rgb(0, 0xff, 0)
    requires ops.rgb(ops.named("blue")) == Rgb(0, 0, 0xff)
    requires ops.rgb(ops.named("off")) == Black
    ensures Buffer(FromStr(ops, "red"), ops)[2..5] == [0xff, 0, 0]
    ensures Buffer(FromStr(ops, "green"), ops)[2..5] == [0, 0xff, 0]
    ensures Buffer(FromStr(ops, "blue"), ops)[2..5] == [0, 0, 0xff]
    ensures Buffer(FromStr(ops, "off"), ops)[2..5] == [0, 0, 0]
  {
  }

  /** Two whole frames: a fade of (10, 20, 30) over 100 ms on LED 1, and a
      playback of positions 0..5 three times. */
  lemma EndToEndFrames<C>(ops: ColorOps<C>)
    requires ThreeIsVerbatim(ops, 10, 20, 30)
    ensures Buffer(Fade(ops.three(10, 20, 30), 100, Led1), ops)
         == [0x01, 0x63, 10, 20, 30, 0, 10, 1]
    ensures Buffer(PlayLoop(true, 0, 5, 3), ops) == [0x01, 0x70, 1, 0, 5, 3, 0, 0]
  {
  }
}
