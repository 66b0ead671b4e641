/** The 2D drawing context, seen only through the calls the controller makes on it.
    Pixels are never inspected: a captured or decoded image is an opaque value, and
    every call on the context is recorded as one Command in a log. */
module Canvas {

  /** Pixels returned by getImageData, or a decoded image file; never looked into. */
  type ImageData(==, !new)

  /** One call on the drawing context. Coordinates are canvas-local offsets. */
  datatype Command =
    | BeginPath
    | MoveTo(x: int, y: int)
    | LineTo(x: int, y: int)
    | Stroke
      /** Clears the box with corner (x, y) and signed extent (w, h). */
    | ClearRect(x: int, y: int, w: int, h: int)
      /** Outlines the box with corner (x, y) and signed extent (w, h). */
    | StrokeRect(x: int, y: int, w: int, h: int)
      /** A full circle (angles 0 to 2*pi) of radius sqrt(radiusSquared) around (cx, cy). */
    | Arc(cx: int, cy: int, radiusSquared: int)
      /** Writes a captured image back at the origin, replacing what is there. */
    | PutImageData(image: ImageData)
      /** Draws a decoded image at the origin. */
    | DrawImage(image: ImageData)
}
