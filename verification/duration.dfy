/** Packing of a fade duration into the two time bytes of a frame.

    The duration is a whole number of milliseconds (what `Duration::as_millis`
    yields; sub-millisecond parts are floored away). The device counts in ticks
    of 10 ms held in 16 bits; the tick count is sent as a high byte, the count
    shifted right by 8, and a low byte, the count modulo 255 (not 256). */
module Durations {
  import opened Bytes

  const MillisPerTick: nat := 10

  /** The low time byte is taken modulo this divisor. */
  const LowDivisor: nat := 0xff

  /** The two time bytes of a Fade or SetLinePattern frame. */
  datatype TimePair = TimePair(hi: byte, lo: byte)

  /** Whole ticks in `ms`, cut to 16 bits by wrapping. */
  function Ticks(ms: nat): (t: u16)
    ensures ms < MillisPerTick * U16Modulus ==> t as int == ms / MillisPerTick
    ensures (ms / MillisPerTick - t as int) % U16Modulus == 0
  {
    AsU16(ms / MillisPerTick)
  }

  /** `ticks >> 8`: the high byte, so that the tick count lies in
      [256 * hi, 256 * hi + 255]. */
  function TimeHi(t: u16): (hi: byte)
    ensures 256 * hi as int <= t as int < 256 * (hi as int + 1)
  {
    (t as int / 256) as byte
  }

  /** `ticks % 0xff`: the low byte, at most 254 and congruent to the tick count
      modulo 255. */
  function TimeLo(t: u16): (lo: byte)
    ensures lo as int < LowDivisor
    ensures (t as int - lo as int) % LowDivisor == 0
  {
    (t as int % LowDivisor) as byte
  }

  /** Both time bytes for a duration of `ms` milliseconds: with `t` the whole
      ticks in `ms` wrapped to 16 bits, `hi` is the 256-wide band holding `t`
      and `lo` the residue of `t` modulo 255. */
  function Pack(ms: nat): (p: TimePair)
    ensures p.lo as int < LowDivisor
    ensures var t := (ms / MillisPerTick) % U16Modulus;
      256 * p.hi as int <= t < 256 * (p.hi as int + 1)
      && (t - p.lo as int) % LowDivisor == 0
  {
    var t := Ticks(ms);
    TimePair(TimeHi(t), TimeLo(t))
  }

  /** The tick count a pair of time bytes reads as, taking `lo` as the low 8 bits. */
  function Unpack(p: TimePair): (t: nat)
    ensures t < U16Modulus
    ensures t / 256 == p.hi as int && t % 256 == p.lo as int
  {
    256 * p.hi as int + p.lo as int
  }

  /** The tick count wraps every 655360 ms: a duration and one 2^16 ticks longer
      pack identically, so long durations are not clamped to the largest count. */
  lemma TicksWrap(ms: nat)
    ensures Ticks(ms + MillisPerTick * U16Modulus) == Ticks(ms)
  {
  }

  /** The first durations past the 16-bit range wrap to zero ticks rather than
      saturating at 65535. */
  lemma TicksWrapNotSaturate()
    ensures Ticks(655350) == 65535
    ensures Ticks(655360) == 0
    ensures Pack(655360) == TimePair(0, 0)
  {
  }

  /** The pinned durations: 0 ms packs as (0, 0) and 100 ms as (0, 10). */
  lemma PackExamples()
    ensures Pack(0) == TimePair(0, 0)
    ensures Pack(100) == TimePair(0, 10)
  {
  }

  /** The time bytes read back as the tick count exactly when the low eight bits
      of the count are below 255 and the high byte is 0 or 255; everywhere else
      the modulo-255 low byte differs from the count's low eight bits. */
  lemma PackExact(t: u16)
    ensures Unpack(TimePair(TimeHi(t), TimeLo(t))) == t as int
        <==> t as int % 256 < 255 && (t as int / 256 == 0 || t as int / 256 == 255)
  {
  }

  /** Two durations whose tick counts differ (0 and 255) pack to the same bytes:
      the modulo-255 low byte loses information. */
  lemma PackCollides()
    ensures Ticks(0) != Ticks(2550)
    ensures Pack(0) == Pack(2550)
  {
  }
}
