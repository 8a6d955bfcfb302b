/** Geometry records that every entity carries (src/draw.rs). Coordinates are
    pixels with the origin at the top-left corner of the window. */
module Draw {
  /** A screen position; the source stores both coordinates as u32. */
  datatype Position = Position(x: nat, y: nat)

  /** A size in pixels. Height comes first, as in `Size::set(height, width)`. */
  datatype Size = Size(height: nat, width: nat)
}
