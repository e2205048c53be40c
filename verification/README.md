# blink(1) message encoder

A Dafny model of the command encoder of `blinkrs`, a Rust library that drives
the blink(1) USB notification light. A caller builds a `Message` -- turn off,
fade, set a color at once, write a pattern line, select the LED for pattern
lines, start or stop pattern playback -- and `Message::buffer` serialises it
into one 8-byte HID feature report following the blink(1) HID command
protocol. The encoder is pure and total; the model proves it so, and pins
every byte of every command.

Files (one module each):

- `bytes.dfy` (`Bytes`): `u8`/`u16` as newtypes and Rust's wrapping `as u16` cast.
- `optional.dfy` (`Optional`): `Option`.
- `color.dfy` (`Colors`): the resolved `Rgb` triple and `ColorOps`, the three
  color operations the encoder uses (`Color::rgb`, `Color::Three`, `Color::from`).
  The color type is a type parameter `C`: its palette is not part of this model.
- `led.dfy` (`Leds`): `LedNum` and its protocol byte.
- `duration.dfy` (`Durations`): packing a duration in milliseconds into the
  high and low time bytes.
- `frame.dfy` (`Frames`): the protocol constants and `Parse`, the device-side
  reading of an 8-byte frame into the command it carries. `Parse` is the
  decoder that the contract of `Messages.Buffer` is stated against; it is not
  a function of the library.
- `message.dfy` (`Messages`): `Message`, `Buffer` (`Message::buffer`),
  `FromStr` (`From<&str> for Message`) and the per-command layout lemmas.

Design points:

- `Off` is encoded, as in the library, by encoding `Immediate` of the
  explicit triple (0, 0, 0); `Buffer` recurses once for it.
- The duration is a whole number of milliseconds (`Duration::as_millis`).
  Ticks are `ms / 10` cut to 16 bits by `as u16`, which wraps modulo 65536.
  The `unwrap_or(0)` in `checked_div(10).unwrap_or(0) as u16` may read as a
  fallback to 0 on overflow, but the overflow happens in the cast, which wraps;
  the model wraps (`Durations.TicksWrap`, `Durations.TicksWrapNotSaturate`).
  `checked_div(10)`, `checked_shr(8)` and `checked_rem(0xff)` can never fail on
  these operands, so their `unwrap_or(0)` fallbacks are unreachable and absent.
- The low time byte is the tick count modulo 255, not 256, exactly as
  written. `Durations.PackExact` states precisely which tick counts the two
  time bytes still carry faithfully, and `Durations.PackCollides` shows two
  durations that collide.
- Each time byte fits a `u8` without truncation (`hi <= 255`, `lo <= 254`), so
  the `as u8` casts on them lose nothing.
- The opcode constants `FADE_COMMAND_ACTION` and `IMMEDIATE_COMMAND_ACTION`
  live in `src/constants.rs`, which is not part of this model; they are declared
  as the blink(1) command bytes 'c' (0x63) and 'n' (0x6e).

## Model

| member | source | states |
|---|---|---|
| Leds.AsU8 | src/message.rs:19-25 | the selector byte is at most 2 and reads back as the same selector |
| Leds.FromU8 | src/message.rs:19-25 | a byte names a selector exactly when it is 0, 1 or 2 |
| Leds.FromU8Sound | src/message.rs:19-25 | every selector read from a byte is the one `as_u8` writes as that byte |
| Leds.AsU8Injective | src/message.rs:19-25 | two selectors get the same byte if and only if they are the same selector |
| Bytes.AsU16 | src/message.rs:67 | `as u16` gives the value below 2^16 congruent to its input, and the input itself below 2^16 |
| Durations.Ticks | src/message.rs:67 | ticks are `ms / 10` below 655360 ms and agree with `ms / 10` modulo 2^16 everywhere |
| Durations.TimeHi | src/message.rs:68 | the high byte `ticks >> 8` places the tick count within its 256-wide band |
| Durations.TimeLo | src/message.rs:69 | the low byte is at most 254 and congruent to the tick count modulo 255 |
| Durations.Pack | src/message.rs:67-69 | with `t = (ms / 10) mod 2^16`, the high byte is the 256-wide band holding `t` and the low byte is at most 254 and congruent to `t` modulo 255 |
| Durations.TicksWrap | src/message.rs:67 | a duration 2^16 ticks longer packs to the same ticks: the cast wraps |
| Durations.TicksWrapNotSaturate | src/message.rs:67 | 655350 ms gives 65535 ticks and 655360 ms gives 0, not a saturated 65535 |
| Durations.PackExamples | src/message.rs:67-69 | 0 ms packs as (0, 0) and 100 ms as (0, 10) |
| Durations.PackExact | src/message.rs:68-69 | the time bytes read as `256 * hi + lo` equal the tick count if and only if its low eight bits are below 255 and its high byte is 0 or 255 |
| Durations.PackCollides | src/message.rs:69 | tick counts 0 and 255 differ yet pack to the same time bytes |
| Frames.ParseInjective | src/message.rs:61-97 | each command frame is determined by the command it carries: no byte of it is ignored |
| Messages.Buffer | src/message.rs:61-97 | every message encodes, to 8 bytes with byte 0 equal to 0x01, and the frame reads back as exactly the command the message means |
| Messages.BufferEqualIffMeaningEqual | src/message.rs:61-97 | two messages give the same frame if and only if they mean the same command |
| Messages.OffIsImmediateBlack | src/message.rs:63 | given that `Color::Three(0, 0, 0)` resolves to (0, 0, 0), `Off` is `[0x01, 'n', 0, 0, 0, 0, 0, 0]`, the frame of `Immediate` of any color that resolves to black |
| Messages.ImmediateLayout | src/message.rs:72-75 | `Immediate` carries 'n', the color's r, g, b in bytes 2..4 and zeros in bytes 5..7 |
| Messages.FadeLayout | src/message.rs:64-71 | `Fade` carries 'c', the color, the packed duration in bytes 5..6 and the selector byte (at most 2) last |
| Messages.SetLinePatternLayout | src/message.rs:76-85 | `SetLinePattern` carries 80, the color, the packed duration in bytes 5..6 and the raw position last |
| Messages.FadeAgreesWithLinePattern | src/message.rs:64-85 | for one color and duration the two frames agree on bytes 0 and 2..6 and differ in the opcode; byte 7 is the selector in one, the position in the other |
| Messages.SetLedNumLayout | src/message.rs:86 | `SetLedNum` carries 108, the selector byte, and zeros in bytes 3..7 |
| Messages.PlayLoopLayout | src/message.rs:87-96 | `PlayLoop` carries 112, 1 if on and 0 if not, start, end and count verbatim, and zeros in bytes 6..7 |
| Messages.PlayLoopInjective | src/message.rs:87-96 | two `PlayLoop` messages give the same frame if and only if they are equal |
| Messages.FromStr | src/message.rs:101-105 | a message built from a name means setting that name's color at once |
| Messages.FromStrLayout | src/message.rs:101-105 | its frame carries 'n', the named color's channels, and a zero tail |
| Messages.FromStrPinnedNames | src/message.rs:111-133 | with "red", "green", "blue", "off" resolving to ff0000, 00ff00, 0000ff, 000000, bytes 2..4 of their frames are those triples |
| Messages.EndToEndFrames | src/message.rs:64-96 | given that `Color::Three(10, 20, 30)` resolves to (10, 20, 30), a fade of that color over 100 ms on LED 1 encodes to `[0x01, 0x63, 10, 20, 30, 0, 10, 1]`; a playback of 0..5 three times encodes to `[0x01, 0x70, 1, 0, 5, 3, 0, 0]` |

## Left out

- `src/lib.rs`: device enumeration, the vendor/product filter, opening a handle, detaching the kernel driver, the HID SET_REPORT control transfer and summing bytes written over devices are USB I/O through a foreign library, with no logic of their own to verify.
- `src/error.rs`: the error enum wrapping the USB library's errors and its description strings; the encoder cannot fail, so nothing in the model produces an error.
- Color-name resolution (`Color::from`, `Color::rgb`) and the palette: `src/color.rs` is not part of this model. Colors are a type parameter reached through `ColorOps`; the four test-pinned names appear as preconditions of `Messages.FromStrPinnedNames`, not as facts about a palette.
- Messages.OffIsImmediateBlack: assumes, through the precondition `Colors.ThreeIsVerbatim(ops, 0, 0, 0)`, that `Color::Three(0, 0, 0).rgb()` is (0, 0, 0); `src/color.rs` is not part of this model, so the explicit-triple constructor is not proved to return its channels verbatim, and without that the bytes of `Off` are only those of whatever `Color::Three(0, 0, 0)` resolves to.
- Messages.EndToEndFrames: assumes in the same way, through `Colors.ThreeIsVerbatim(ops, 10, 20, 30)`, that `Color::Three(10, 20, 30).rgb()` is (10, 20, 30).
- `src/constants.rs` is not part of this model; its two opcode constants are declared from the blink(1) command set.
- The device-side "sticky LED" state that `SetLedNum` sets for later pattern lines is hardware behaviour, not encoder state.
- The upper bound of a Rust `Duration` (about 2^64 seconds) is not modelled: durations are unbounded naturals, a superset of the values the library can pass.
- Determinism of encoding is not stated as a lemma: `Buffer` is a mathematical function, so encoding the same message twice gives the same frame by construction.
