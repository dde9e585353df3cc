/** Engine-side value types that the OpenGL ES shader-program wrapper consumes:
    colours, vectors, matrices, light descriptions and texture environments.
    Their declarations live in the engine's platform-independent headers; only
    the members the wrapper reads are modelled. Floating-point quantities are
    mathematical reals that are only passed through or negated. */
module Pddi {

  /** The maximum number of hardware lights (PDDI_MAX_LIGHTS). */
  const MaxLights: nat := 8

  type Byte = x: int | 0 <= x < 256

  /** A packed 8-bit-per-channel colour (pddiColour). */
  datatype Colour = Colour(red: Byte, green: Byte, blue: Byte, alpha: Byte)

  datatype Vector = Vector(x: real, y: real, z: real)

  /** A homogeneous four-component vector, as uploaded with glUniform4fv. */
  datatype Vec4 = Vec4(x: real, y: real, z: real, w: real)

  /** A 4x4 transform. Inversion and transposition are not computed: the
      normal matrix is kept as the symbolic inverse-transpose of its source. */
  datatype Matrix = Elements(m: seq<real>) | InverseTransposeOf(source: Matrix)

  datatype LightType = Directional | Point | Spot

  /** The members of pddiLight that the wrapper reads. */
  datatype Light = Light(
    kind: LightType,
    enabled: bool,
    worldDirection: Vector,
    worldPosition: Vector,
    colour: Colour,
    attenA: real, attenB: real, attenC: real)

  /** pddiCompareMode. */
  datatype CompareMode = Never | Always | Less | LessEqual | Greater | GreaterEqual | Equal | NotEqual

  /** The members of pglTextureEnv that the wrapper reads. */
  datatype TextureEnv = TextureEnv(
    lit: bool,
    ambient: Colour,
    emissive: Colour,
    diffuse: Colour,
    specular: Colour,
    shininess: real,
    alphaTest: bool,
    alphaCompareMode: CompareMode,
    alphaRef: real)
}
