/** Bytes of C strings, with `char` signed. */
module Bytes {

  type byte = bv8

  /** A char as the 32-bit operand it is promoted to. */
  function SignExtend(b: byte): bv32 {
    if b & 0x80 == 0 then b as bv32 else (b as bv32) | 0xFFFF_FF00
  }

  /** Two's complement: counted from -128 up, the bytes and the words they stand for run alike. */
  lemma SignExtendMeaning(b: byte)
    ensures SignExtend(b) + 0x80 == (b + 0x80) as bv32
  {
  }
}
