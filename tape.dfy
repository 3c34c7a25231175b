/** The tape: unsigned 8-bit cells, their wrap-around arithmetic, and the
    page-quantised growth that keeps the data pointer inside the tape. */
module Tape {

  /** Go's `byte` (uint8). */
  newtype byte = b: int | 0 <= b < 256

  /** Size of one tape page; the tape starts with exactly one page of zeros. */
  const PageSize: nat := 1024

  /** `Data[DataPointer]++` on a uint8: 255 wraps to 0. */
  function Inc(b: byte): (r: byte)
    ensures r as int == (b as int + 1) % 256
  {
    if b == 255 then 0 else b + 1
  }

  /** `Data[DataPointer]--` on a uint8: 0 wraps to 255. */
  function Dec(b: byte): (r: byte)
    ensures r as int == (b as int - 1) % 256
  {
    if b == 0 then 255 else b - 1
  }

  /** A cell moved `d` steps around the 256-value ring. */
  function Shift(b: byte, d: int): byte
  {
    ((b as int + d) % 256) as byte
  }

  lemma IncDecInverse(b: byte)
    ensures Dec(Inc(b)) == b && Inc(Dec(b)) == b
    ensures Inc(255) == 0 && Dec(0) == 255
  {
  }

  /** Steps around the ring add up. */
  lemma ShiftShift(b: byte, d: int, e: int)
    ensures Shift(Shift(b, d), e) == Shift(b, d + e)
  {
    var x := b as int + d;
    assert x % 256 + e == x + e - (x / 256) * 256;
    ModShift(x + e, -(x / 256));
  }

  lemma ModShift(x: int, k: int)
    ensures (x + k * 256) % 256 == x % 256
  {
  }

  function Zeros(n: nat): (r: seq<byte>)
    ensures |r| == n && forall i :: 0 <= i < n ==> r[i] == 0
  {
    seq(n, _ => 0)
  }

  /** `ensureDataSize`: when the pointer has run off the end, append zero
      cells so that the tape length becomes the page boundary above the
      pointer plus one. */
  function Grow(data: seq<byte>, pointer: nat): (r: seq<byte>)
    // the pointer always indexes a cell afterwards
    ensures pointer < |r|
    // the tape never shrinks and keeps its old cells
    ensures |data| <= |r| && r[..|data|] == data
    // new cells are zero
    ensures forall i :: |data| <= i < |r| ==> r[i] == 0
    // nothing happens while the pointer is already inside the tape
    ensures pointer < |data| ==> r == data
    // growth is page-quantised: the new length is one past the first page
    // boundary strictly above the pointer
    ensures pointer >= |data| ==> (|r| - 1) % PageSize == 0 && pointer < |r| - 1 <= pointer + PageSize
  {
    if pointer >= |data| then
      var nextPagedSize := (1 + pointer / PageSize) * PageSize;
      data + Zeros(1 + nextPagedSize - |data|)
    else
      data
  }

  /** The page-quantisation stated in Grow's contract pins a grown length
      `n` down to the exact formula of the source. */
  lemma GrowLength(pointer: nat, n: int)
    requires (n - 1) % PageSize == 0 && pointer < n - 1 <= pointer + PageSize
    ensures n == (1 + pointer / PageSize) * PageSize + 1
  {
    var q := (n - 1) / PageSize;
    assert n - 1 == q * PageSize;
    assert pointer == (pointer / PageSize) * PageSize + pointer % PageSize;
  }
}
