/**
 * The WebGL2 constants the engine passes to the device, as symbols.
 * Their numeric values play no part in any decision the engine makes,
 * except for `NONE`, which stands for the literal `0`.
 */
module Gl {

  datatype GlEnum =
    | NONE
    // element (pixel component / attribute component) types
    | FLOAT | INT | BOOL | UNSIGNED_BYTE | UNSIGNED_SHORT
    // data formats
    | RGBA | RGB | RGBA_INTEGER | RGB_INTEGER
    // sized internal formats
    | RGBA8 | RGB8 | RGBA16UI | RGB16UI | RGBA32F | RGB32F
}
