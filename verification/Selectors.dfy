/** The FS selector values and the C integer conversions they pass through
    (include/os2sel.h, GCC versions). */
module Selectors {

  /** What fits in a segment register. */
  type Selector = s: int | 0 <= s < 0x1_0000

  /** Selector of the OS/2 thread information block: `Dos32TIB`, and the constant
      that RestoreOS2FS loads. */
  const OS2_SEL: Selector := 0x150b

  /** C conversion to a 16-bit signed `short`. */
  function ToShort(v: int): (r: int)
    ensures -0x8000 <= r < 0x8000
  {
    var w := v % 0x1_0000;
    if w < 0x8000 then w else w - 0x1_0000
  }

  /** C conversion to a 16-bit `unsigned short` / `USHORT`. */
  function ToUShort(v: int): (r: Selector)
    ensures 0 <= v < 0x1_0000 ==> r == v
  {
    v % 0x1_0000
  }

  /** Both conversions are exact modulo 65536. */
  lemma ConversionsAreCongruent(v: int)
    ensures (v - ToShort(v)) % 0x1_0000 == 0 && (v - ToUShort(v)) % 0x1_0000 == 0
  {
  }

  /** A selector saved through the `short` that RestoreOS2FS returns and the `USHORT`
      that receives it comes back unchanged, also for selectors of 0x8000 and above,
      whose `short` is negative. */
  lemma SelectorSurvivesShort(sel: Selector)
    ensures ToUShort(ToShort(sel)) == sel
    ensures ToShort(sel) < 0 <==> 0x8000 <= sel
  {
  }
}
