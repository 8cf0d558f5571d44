/** The random source `gener_alea`, reduced to its success path: a raw 32-bit word read from
    the entropy device, taken as unsigned and reduced modulo the requested bound. */
module Alea {

  /** The range of `(unsigned int) alea`. */
  newtype uint32 = x: int | 0 <= x < 0x1_0000_0000

  /** The sequence of raw words the device delivers: `rng(i)` is the word of the i-th read.
      Every consumer threads a cursor (the index of the next unread word) through its calls. */
  type Stream = nat -> uint32

  /** `gener_alea(n)`: the raw word reduced modulo `n`. */
  function Draw(raw: uint32, n: int): (r: int)
    requires n >= 1
    ensures 0 <= r < n
  {
    raw as int % n
  }
}
