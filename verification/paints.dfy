/**
 * The host's paint records, as the plugin reads them. Channels enter as
 * bytes already rounded by `BeautifyColor`; a gradient stop's position enters
 * as the text JavaScript renders for it.
 */
module Paints {
  import opened Hex

  /** `SolidPaint.color`: red, green and blue, no alpha. */
  datatype Rgb = Rgb(r: Byte, g: Byte, b: Byte)

  /** `ColorStop.color`: red, green, blue and alpha. */
  datatype Rgba = Rgba(r: Byte, g: Byte, b: Byte, a: Byte)

  datatype GradientStop = GradientStop(color: Rgba, position: string)

  /** The paint types the host knows besides `SOLID` and `GRADIENT_LINEAR`. */
  datatype OtherKind = GradientRadial | GradientAngular | GradientDiamond | Image | Video

  /** A paint: its `type` tag, the fields the plugin reads, and its `blendMode` name. */
  datatype Paint =
    | Solid(color: Rgb, opacity: Byte, blendMode: string)
    | GradientLinear(stops: seq<GradientStop>, blendMode: string)
    | Other(kind: OtherKind, blendMode: string)

  datatype PaintStyle = PaintStyle(name: string, paints: seq<Paint>)

  /** `figma.editorType`: the plugin branches on whether it runs in Figma. */
  datatype Editor = Figma | OtherEditor
}
