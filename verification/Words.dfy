// Machine words and the small vocabulary every module shares.
module Words {

  // A pointer that may be RT_NULL.
  datatype Ptr = Null | At(addr: nat)

  const WORD: nat := 0x1_0000_0000

  type u32 = n: int | 0 <= n < 0x1_0000_0000

  // RT_ALIGN(size, 4), computed in 32 bits: the addition wraps.
  function Align4(size: u32): u32 {
    (size + 3) % 0x1_0000_0000 / 4 * 4
  }

  // The next multiple of 4, unless the addition wraps: then it is 0.
  lemma AlignMeans(size: u32)
    ensures Align4(size) % 4 == 0
    ensures if size <= 0xFFFF_FFFC then size <= Align4(size) < size + 4 else Align4(size) == 0
  {
  }

  // RT_ALIGN(size, RT_MM_PAGE_SIZE), computed in 32 bits.
  function AlignPage(size: u32): u32 {
    (size + 4095) % 0x1_0000_0000 / 4096 * 4096
  }
}
