/** Bytes, the fixed-size message block and the C integer width that both sides share. */
module Bytes {

  newtype Byte = b: int | 0 <= b < 256

  const BUFFER_SIZE: nat := 1024
  const NUL: Byte := 0

  /** A `char buffer[BUFFER_SIZE]`. */
  type Block = s: seq<Byte> | |s| == BUFFER_SIZE witness seq(BUFFER_SIZE, _ => NUL)

  /** What `memset(buffer, 0, BUFFER_SIZE)` leaves. */
  function Zeros(): Block {
    seq(BUFFER_SIZE, _ => NUL)
  }

  const SIZE_T_MODULUS: nat := 0x1_0000_0000_0000_0000

  /** `std::chrono::milliseconds::rep`, a 64-bit count. */
  type Count = n: int | -0x8000_0000_0000_0000 <= n < 0x8000_0000_0000_0000

  /** The value a 32-bit two's complement `int` keeps of a mathematical result. */
  function ToInt32(n: int): int {
    (n + 0x8000_0000) % 0x1_0000_0000 - 0x8000_0000
  }

  /** `buffer` with `bytes` stored from `position` on. */
  function Store(buffer: Block, position: nat, bytes: seq<Byte>): Block
    requires position + |bytes| <= BUFFER_SIZE
  {
    buffer[..position] + bytes + buffer[position + |bytes|..]
  }

  /** The same where `bytes` may reach behind the buffer: what falls there is not part of it. */
  function StoreWithin(buffer: Block, position: nat, bytes: seq<Byte>): Block {
    if position + |bytes| <= BUFFER_SIZE then Store(buffer, position, bytes)
    else if position < BUFFER_SIZE then buffer[..position] + bytes[..BUFFER_SIZE - position]
    else buffer
  }

  /** Writing on from where it stopped, a writer has always written the start of its block. */
  lemma PrefixGrows(sent: seq<Byte>, block: Block, n: nat)
    requires sent <= block && |sent| + n <= BUFFER_SIZE
    ensures sent + block[|sent|..|sent| + n] <= block
  {
  }
}
