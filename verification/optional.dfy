/** The result of a reading that may reject its input, such as `Frames.Parse`
    of a frame or `Leds.FromU8` of a selector byte: `None` when rejected. */
module Optional {

  datatype Option<+T> = None | Some(value: T)
}
