/** Values shared by both front-ends: a pointer sample and an optional value. */
module Base {

  /** A pointer sample in surface-local pixels. The source records `f64`/`f32`
      pairs; the model keeps whole-number coordinates so that no floating-point
      formatting or rounding enters it. */
  datatype Point = Point(x: int, y: int)

  datatype Option<T> = None | Some(value: T)
}
