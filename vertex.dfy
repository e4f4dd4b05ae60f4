/** The vertex record a mesh is made of, and the float vectors inside it. */
module Vertices {

  /**
    An `f32` held as its IEEE-754 bit pattern. The loaders only move floats from
    the text into vertices, so the model never interprets one.
   */
  newtype F32 = bits: int | 0 <= bits < 0x1_0000_0000

  /** The bit pattern of `0.0`, the value every component starts at before it is read. */
  const Zero: F32 := 0

  datatype Vec2 = Vec2(x: F32, y: F32)

  datatype Vec3 = Vec3(x: F32, y: F32, z: F32)

  /** One vertex of a triangle list: position, texture coordinate and normal. */
  datatype Vertex = Vertex(position: Vec3, uv: Vec2, normal: Vec3)
}
