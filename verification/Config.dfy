/** PCI configuration space: bytes, little-endian registers, and the register
    numbers of lib/header.h that the other modules use. */
module Config {

  type Byte = b: int | 0 <= b < 0x100
  type U16 = w: int | 0 <= w < 0x1_0000
  const TWO32 := 0x1_0000_0000
  type U32 = l: int | 0 <= l < TWO32

  const VENDOR_ID := 0x00
  const STATUS := 0x06
  const HEADER_TYPE := 0x0e
  const CAPABILITY_LIST := 0x34
  const SECONDARY_BUS := 0x19

  const HEADER_BRIDGE := 1
  const HEADER_CARDBUS := 2

  function Word(b0: Byte, b1: Byte): U16 {
    b0 + b1 * 0x100
  }

  function Long(b0: Byte, b1: Byte, b2: Byte, b3: Byte): U32 {
    b0 + b1 * 0x100 + b2 * 0x1_0000 + b3 * 0x100_0000
  }

  /** Byte k of a register is its digit k in base 256. */
  lemma LongDigits(b0: Byte, b1: Byte, b2: Byte, b3: Byte)
    ensures var l := Long(b0, b1, b2, b3);
            && l % 0x100 == b0 && l / 0x100 % 0x100 == b1 && l / 0x1_0000 % 0x100 == b2 && l / 0x100_0000 == b3
    ensures Word(b0, b1) % 0x100 == b0 && Word(b0, b1) / 0x100 == b1
    ensures Long(b0, b1, b2, b3) == Word(b0, b1) + Word(b2, b3) * 0x1_0000
  {
    var l := Long(b0, b1, b2, b3);
    assert l / 0x100_0000 == b3 && l / 0x1_0000 == b2 + b3 * 0x100 && l / 0x100 == b1 + b2 * 0x100 + b3 * 0x1_0000;
  }

  /** x & ~3 */
  function Align4(x: nat): (a: nat)
    ensures a <= x && a % 4 == 0
  {
    x / 4 * 4
  }

  predicate IsBridgeHeader(ht: nat) {
    ht == HEADER_BRIDGE || ht == HEADER_CARDBUS
  }
}
