/** Value types shared by the canvas, the window and the sample: C#'s fixed-width
    integers, colours, points, rectangles, input events and the failure wrappers. */
module Basics {

  const TWO_32: int := 0x1_0000_0000
  const INT32_MIN: int := -0x8000_0000
  const INT32_MAX: int := 0x7FFF_FFFF

  /** C# `int`. */
  type int32 = x: int | INT32_MIN <= x <= INT32_MAX
  /** C# `uint`. */
  type uint32 = x: int | 0 <= x < TWO_32
  /** C# `byte`. */
  type byte = x: int | 0 <= x < 256

  /** C#'s unchecked conversion to `int` (and unchecked `int` arithmetic): keep the
      low 32 bits and read them as two's complement. */
  function Wrap32(n: int): (r: int32)
    ensures INT32_MIN <= n <= INT32_MAX ==> r == n
    ensures (r - n) % TWO_32 == 0
  {
    var low := n % TWO_32;
    if low <= INT32_MAX then low else low - TWO_32
  }

  /** C#'s unchecked `uint` arithmetic: the result modulo 2^32. */
  function WrapU32(n: int): (r: uint32)
    ensures 0 <= n < TWO_32 ==> r == n
    ensures (r - n) % TWO_32 == 0
  {
    n % TWO_32
  }

  function Min(a: int, b: int): (r: int)
    ensures r <= a && r <= b && (r == a || r == b)
  {
    if a > b then b else a
  }

  function Last<T>(s: seq<T>): T
    requires s != []
  {
    s[|s| - 1]
  }

  function DropLast<T>(s: seq<T>): seq<T>
    requires s != []
  {
    s[..|s| - 1]
  }

  /** DotSDL's 32-bit ARGB colour (one byte per channel). */
  datatype Color = Color(r: byte, g: byte, b: byte, a: byte)

  /** The value of a freshly allocated `Color` in C# (every channel 0). */
  const DefaultColor: Color := Color(0, 0, 0, 0)

  datatype Point = Point(x: int32, y: int32)

  datatype Rectangle = Rectangle(position: Point, size: Point)

  datatype Option<T> = None | Some(value: T)

  datatype Result<T, E> = Ok(value: T) | Err(error: E)

  /** The keys the model distinguishes; every other key code is `OtherKey`. */
  datatype Keycode = Escape | W | A | S | D | Up | Down | Left | Right | OtherKey(code: int)

  datatype ButtonState = Pressed | Released

  /** The window events DotSDL reacts to; the rest (shown, moved, resized, ...) are `OtherWindowEvent`. */
  datatype WindowEventType = Close | Minimized | Restored | OtherWindowEvent(code: int)

  /** One event taken from the native event queue for a window. */
  datatype Event =
    | KeyboardEvent(state: ButtonState, keycode: Keycode)
    | WindowEvent(kind: WindowEventType)
}
