/**
 * Pixel buffers as the capture code sees them: a numpy array is identified by the
 * object it is (`id`), its shape and its element type. Pixel contents are never
 * inspected by the modelled logic and are left out.
 */
module Frames {

  /** numpy element types that occur in the program (`np.uint8` is the default). */
  datatype DType = UInt8 | Other(name: string)

  /** `frame.shape`: (height, width, channels); a grayscale frame has `channels == 1`. */
  datatype Shape = Shape(height: nat, width: nat, channels: nat)

  /** A buffer object: `id` stands for Python object identity. */
  datatype Frame = Frame(id: nat, shape: Shape, dtype: DType)
}
