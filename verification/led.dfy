/** The LED selector of multi-LED devices and its protocol byte. */
module Leds {
  import opened Bytes
  import opened Optional

  /** Which LED a command applies to: both, the first, or the second. */
  datatype LedNum = All | Led1 | Led2

  /** The byte the protocol uses for each selector. */
  function AsU8(led: LedNum): (b: byte)
    ensures b <= 2
    ensures FromU8(b) == Some(led)
  {
    match led
    case All => 0
    case Led1 => 1
    case Led2 => 2
  }

  /** The device-side reading of a selector byte; only 0, 1 and 2 name an LED. */
  function FromU8(b: byte): (r: Option<LedNum>)
    ensures r.Some? <==> b <= 2
  {
    if b == 0 then Some(All)
    else if b == 1 then Some(Led1)
    else if b == 2 then Some(Led2)
    else None
  }

  /** Reading a byte back never invents a selector: whatever `FromU8` accepts is
      exactly the byte `AsU8` writes for it. */
  lemma FromU8Sound(b: byte, led: LedNum)
    requires FromU8(b) == Some(led)
    ensures AsU8(led) == b
  {
  }

  /** Distinct selectors are sent as distinct bytes. */
  lemma AsU8Injective(a: LedNum, b: LedNum)
    ensures AsU8(a) == AsU8(b) <==> a == b
  {
  }
}
