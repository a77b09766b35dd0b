/** The fixed settings and the input buffers of the shared data store
    (SourceCode/data/DataCenter.cpp). Only the keys and the mouse button the
    core reads are kept; every other slot of the key and button arrays is
    never consulted by the modelled code. */
module DataCenter {

  /** Frames per second of the tick timer. */
  const Fps: real := 60.0
  const WindowWidth: int := 1024
  const WindowHeight: int := 1024
  const GameFieldLength: int := 600

  /** The held state of the keys the core reads. */
  datatype Keys = Keys(w: bool, a: bool, s: bool, d: bool, p: bool, space: bool)

  /** Every key released: the state both key buffers start in. */
  const NoKeys: Keys := Keys(false, false, false, false, false, false)

  /** True exactly on the tick a control goes from released to held. */
  predicate RisingEdge(now: bool, before: bool)
  {
    now && !before
  }

  /** C++ `int` division by 2, which truncates toward zero. */
  function Half(n: int): (h: int)
    ensures n >= 0 ==> h == n / 2
    ensures n < 0 ==> h == -((-n) / 2)
    ensures -1 <= n - 2 * h <= 1
  {
    if n >= 0 then n / 2 else -((-n) / 2)
  }
}
