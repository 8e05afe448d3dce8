/** Fixed-width unsigned integers. Every assignment to one of these types is an
    obligation that the value fits: no operation of the models wraps unless it says so. */
module Words {
  const BYTE := 0x100
  const HALF := 0x1_0000
  const WORD := 0x1_0000_0000

  type u8 = x: int | 0 <= x < 0x100
  type u16 = x: int | 0 <= x < 0x1_0000
  type u32 = x: int | 0 <= x < 0x1_0000_0000
}
