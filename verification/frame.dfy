/** The 8-byte HID feature report of the blink(1) command protocol, read from
    the device's side: which frames are well-formed commands, and what they ask
    for. `Parse` is the decoder that the contract of `Messages.Buffer` is
    stated against. */
module Frames {
  import opened Bytes
  import opened Optional
  import opened Colors
  import opened Leds
  import opened Durations

  const FrameLength: nat := 8

  /** Byte 0 of every frame: the HID report id. */
  const ReportId: byte := 0x01

  /** 'c': fade to a color. */
  const FadeCommandAction: byte := 0x63
  /** 'n': set a color at once. */
  const ImmediateCommandAction: byte := 0x6e
  /** 'P': write a color and time into a pattern line. */
  const SetLinePatternAction: byte := 80
  /** 'l': select the LED later pattern lines use. */
  const SetLedNumAction: byte := 108
  /** 'p': start or stop pattern playback. */
  const PlayLoopAction: byte := 112

  /** What a well-formed frame asks the device to do. */
  datatype Command =
    | SetColorNow(rgb: Rgb)
    | FadeTo(rgb: Rgb, time: TimePair, led: LedNum)
    | WriteLine(rgb: Rgb, time: TimePair, pos: byte)
    | SelectLed(led: LedNum)
    | Play(on: bool, startPos: byte, endPos: byte, loopCount: byte)

  /** Every byte of `f` from index `i` on is zero: the padding after a payload. */
  predicate ZeroFrom(f: seq<byte>, i: nat)
    requires i <= |f|
  {
    forall k :: i <= k < |f| ==> f[k] == 0
  }

  /** Reads a frame. A frame is a command when it is 8 bytes long, starts with
      the report id, carries a known opcode in byte 1, has zeros wherever its
      command has no field, a selector byte of 0..2 and a playback flag of 0 or 1. */
  function Parse(f: seq<byte>): (c: Option<Command>)
    ensures c.Some? ==> |f| == FrameLength && f[0] == ReportId
  {
    if |f| != FrameLength || f[0] != ReportId then None
    else
      var rgb := Rgb(f[2], f[3], f[4]);
      var time := TimePair(f[5], f[6]);
      if f[1] == ImmediateCommandAction then
        if ZeroFrom(f, 5) then Some(SetColorNow(rgb)) else None
      else if f[1] == FadeCommandAction then
        match FromU8(f[7])
        case Some(led) => Some(FadeTo(rgb, time, led))
        case None => None
      else if f[1] == SetLinePatternAction then
        Some(WriteLine(rgb, time, f[7]))
      else if f[1] == SetLedNumAction then
        match FromU8(f[2])
        case Some(led) => if ZeroFrom(f, 3) then Some(SelectLed(led)) else None
        case None => None
      else if f[1] == PlayLoopAction then
        if f[2] <= 1 && ZeroFrom(f, 6) then Some(Play(f[2] == 1, f[3], f[4], f[5])) else None
      else None
  }

  /** The parser reads every byte of a frame: two frames it accepts as the same
      command are the same frame. */
  lemma ParseInjective(f1: seq<byte>, f2: seq<byte>)
    requires Parse(f1).Some? && Parse(f1) == Parse(f2)
    ensures f1 == f2
  {
  }
}
