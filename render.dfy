/**
 * The presentation side, reduced to what the game's logic can observe: a
 * frame is the ordered list of draw calls issued into it, and a texture is
 * a movable sprite whose `Draw` records one call at its current position.
 * Pixels, shaders and the GPU are not modelled.
 */
module Render {

  /** One draw call issued into a frame. */
  datatype DrawCall =
    | Clear(red: real, green: real, blue: real, alpha: real)  // `frame.clear_color(r, g, b, a)`
    | Textured(x: real, y: real)                               // a texture drawn with its lower-left corner at (x, y)
    | Layer(name: string)                                      // whatever an unmodelled layer draws, as one opaque entry

  /** A frame under composition: the draw calls issued into it so far, in order. */
  type Frame = seq<DrawCall>

  /**
   * A sprite texture.  Its source module is not part of this model: only its
   * position is state, the dimensions are fixed once it is loaded.
   */
  class Texture {
    var x: real
    var y: real
    const width: real
    const height: real

    constructor (x: real, y: real, width: real, height: real)
      ensures this.x == x && this.y == y
      ensures this.width == width && this.height == height
    {
      this.x, this.y := x, y;
      this.width, this.height := width, height;
    }

    /** `set_pos`: moves the texture, nothing else. */
    method SetPos(x: real, y: real)
      modifies this
      ensures this.x == x && this.y == y
    {
      this.x, this.y := x, y;
    }

    /** `draw`: threads the frame through, adding one call at the current position. */
    method Draw(frame: Frame) returns (f: Frame)
      ensures f == frame + [Textured(x, y)]
    {
      f := frame + [Textured(x, y)];
    }
  }
}
