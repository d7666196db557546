/** Values shared by every module: optional values for Go's nil-able pointers, the way a call
    can end, and the 32- and 64-bit integer arithmetic of Go. */
module Wrappers {

  datatype Option<+T> = None | Some(value: T) {
    function GetOr(default: T): T {
      match this
      case Some(v) => v
      case None => default
    }
  }

  /** A set that is not empty has an element. */
  lemma SomeElement<T>(s: set<T>) returns (x: T)
    requires s != {}
    ensures x in s
  {
    x :| x in s;
  }

  lemma Associate<T>(a: seq<T>, b: seq<T>, c: seq<T>)
    ensures a + b + c == a + (b + c)
  {
  }

  /** How a Go function returns: normally, with an error value, or by panicking. */
  datatype Fault = NoFault | Failed | Panicked

  const MAX_INT32: int := 0x7fff_ffff
  const MAX_INT64: int := 0x7fff_ffff_ffff_ffff

  type int32 = x: int | -MAX_INT32 - 1 <= x <= MAX_INT32

  predicate IsInt32(x: int) {
    -MAX_INT32 - 1 <= x <= MAX_INT32
  }

  predicate IsInt64(x: int) {
    -MAX_INT64 - 1 <= x <= MAX_INT64
  }

  /** Two's complement wrap-around, as Go's int32 arithmetic does it. */
  function WrapInt32(x: int): int {
    (x + 0x8000_0000) % 0x1_0000_0000 - 0x8000_0000
  }

  lemma NoWrap(x: int)
    requires IsInt32(x)
    ensures WrapInt32(x) == x
  {
  }

  /** Two's complement wrap-around, as Go's int64 arithmetic does it. */
  function WrapInt64(x: int): int {
    (x + 0x8000_0000_0000_0000) % 0x1_0000_0000_0000_0000 - 0x8000_0000_0000_0000
  }

  lemma NoWrap64(x: int)
    requires IsInt64(x)
    ensures WrapInt64(x) == x
  {
  }

  /** Go's integer division, which truncates towards zero. */
  function TruncDiv(x: int, y: int): int
    requires y > 0
  {
    if x >= 0 then x / y else -((-x) / y)
  }
}
