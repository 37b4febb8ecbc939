/** 16-bit samples as integers in range, with the wrap-around of a C cast made explicit. */
module Fixed16 {
  type int16 = x: int | -32768 <= x <= 32767

  datatype Cs16 = Cs16(i: int16, q: int16)

  // A cast to int16_t keeps the low 16 bits.
  function ToInt16(v: int): (r: int16)
    ensures (r - v) % 65536 == 0
    ensures -32768 <= v <= 32767 ==> r == v
  {
    (v + 32768) % 65536 - 32768
  }

  // One component of a complex sample: the kernels treat i and q alike.
  function Part(c: Cs16, quad: bool): int16 { if quad then c.q else c.i }

  predicate InInt32(v: int) { -0x8000_0000 <= v <= 0x7FFF_FFFF }
}
