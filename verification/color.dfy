/** What the encoder needs of a color. The color type itself (its palette and the
    name lookup) is not part of this model: the encoder reaches a color only
    through the three operations gathered in `ColorOps`. */
module Colors {
  import opened Bytes

  /** A resolved color: one byte per channel. */
  datatype Rgb = Rgb(r: byte, g: byte, b: byte)

  const Black := Rgb(0, 0, 0)

  /** The color operations of the library, over its color type `C`:
      `rgb` is `Color::rgb`, `three` is the explicit-triple constructor
      `Color::Three`, and `named` is `Color::from(&str)`. */
  datatype ColorOps<!C> = ColorOps(
    rgb: C -> Rgb,
    three: (byte, byte, byte) -> C,
    named: string -> C
  )

  /** The explicit-triple constructor resolves to its own three channels. */
  predicate ThreeIsVerbatim<C>(ops: ColorOps<C>, r: byte, g: byte, b: byte)
  {
    ops.rgb(ops.three(r, g, b)) == Rgb(r, g, b)
  }
}
