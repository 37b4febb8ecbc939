/** The firmware image checksum: a table-driven CRC against the bitwise reflected CRC-32 of
    Appendix B of the USB Device Firmware Upgrade specification 1.1. */
module DfuCrc {
  type Byte = bv8

  function Xor(a: bv32, b: bv32): bv32 { a ^ b }

  function Half(x: bv32): bv32 { x >> 1 }

  predicate Odd(x: bv32) { x & 1 == 1 }

  function LowByte(x: bv32): Byte { (x & 0xFF) as bv8 }

  function Rest(x: bv32): bv32 { x >> 8 }

  function Wide(b: Byte): bv32 { b as bv32 }

  // ---------- the bitwise definition ----------

  // One bit: shift right, subtracting the polynomial when a one falls out.
  function Bit(crc: bv32): bv32 {
    if Odd(crc) then Xor(Half(crc), 0xEDB8_8320) else Half(crc)
  }

  function Bits8(crc: bv32): bv32 {
    Bit(Bit(Bit(Bit(Bit(Bit(Bit(Bit(crc))))))))
  }

  // One message byte.
  function ByteStep(crc: bv32, b: Byte): bv32 { Bits8(Xor(crc, Wide(b))) }

  function Feed(crc: bv32, bytes: seq<Byte>): bv32 {
    if bytes == [] then crc else ByteStep(Feed(crc, bytes[..|bytes| - 1]), bytes[|bytes| - 1])
  }

  // All ones to start with; no final inversion.
  function Crc(bytes: seq<Byte>): bv32 { Feed(0xFFFF_FFFF, bytes) }

  // ---------- the table, sixteen entries a row ----------

  function Row0(l: bv8): bv32 {
    if l == 0 then 0x00000000 else if l == 1 then 0x77073096 else if l == 2 then 0xee0e612c else
    if l == 3 then 0x990951ba else if l == 4 then 0x076dc419 else if l == 5 then 0x706af48f else
    if l == 6 then 0xe963a535 else if l == 7 then 0x9e6495a3 else if l == 8 then 0x0edb8832 else
    if l == 9 then 0x79dcb8a4 else if l == 10 then 0xe0d5e91e else if l == 11 then 0x97d2d988 else
    if l == 12 then 0x09b64c2b else if l == 13 then 0x7eb17cbd else if l == 14 then 0xe7b82d07 else
    0x90bf1d91
  }

  function Row1(l: bv8): bv32 {
    if l == 0 then 0x1db71064 else if l == 1 then 0x6ab020f2 else if l == 2 then 0xf3b97148 else
    if l == 3 then 0x84be41de else if l == 4 then 0x1adad47d else if l == 5 then 0x6ddde4eb else
    if l == 6 then 0xf4d4b551 else if l == 7 then 0x83d385c7 else if l == 8 then 0x136c9856 else
    if l == 9 then 0x646ba8c0 else if l == 10 then 0xfd62f97a else if l == 11 then 0x8a65c9ec else
    if l == 12 then 0x14015c4f else if l == 13 then 0x63066cd9 else if l == 14 then 0xfa0f3d63 else
    0x8d080df5
  }

  function Row2(l: bv8): bv32 {
    if l == 0 then 0x3b6e20c8 else if l == 1 then 0x4c69105e else if l == 2 then 0xd56041e4 else
    if l == 3 then 0xa2677172 else if l == 4 then 0x3c03e4d1 else if l == 5 then 0x4b04d447 else
    if l == 6 then 0xd20d85fd else if l == 7 then 0xa50ab56b else if l == 8 then 0x35b5a8fa else
    if l == 9 then 0x42b2986c else if l == 10 then 0xdbbbc9d6 else if l == 11 then 0xacbcf940 else
    if l == 12 then 0x32d86ce3 else if l == 13 then 0x45df5c75 else if l == 14 then 0xdcd60dcf else
    0xabd13d59
  }

  function Row3(l: bv8): bv32 {
    if l == 0 then 0x26d930ac else if l == 1 then 0x51de003a else if l == 2 then 0xc8d75180 else
    if l == 3 then 0xbfd06116 else if l == 4 then 0x21b4f4b5 else if l == 5 then 0x56b3c423 else
    if l == 6 then 0xcfba9599 else if l == 7 then 0xb8bda50f else if l == 8 then 0x2802b89e else
    if l == 9 then 0x5f058808 else if l == 10 then 0xc60cd9b2 else if l == 11 then 0xb10be924 else
    if l == 12 then 0x2f6f7c87 else if l == 13 then 0x58684c11 else if l == 14 then 0xc1611dab else
    0xb6662d3d
  }

  function Row4(l: bv8): bv32 {
    if l == 0 then 0x76dc4190 else if l == 1 then 0x01db7106 else if l == 2 then 0x98d220bc else
    if l == 3 then 0xefd5102a else if l == 4 then 0x71b18589 else if l == 5 then 0x06b6b51f else
    if l == 6 then 0x9fbfe4a5 else if l == 7 then 0xe8b8d433 else if l == 8 then 0x7807c9a2 else
    if l == 9 then 0x0f00f934 else if l == 10 then 0x9609a88e else if l == 11 then 0xe10e9818 else
    if l == 12 then 0x7f6a0dbb else if l == 13 then 0x086d3d2d else if l == 14 then 0x91646c97 else
    0xe6635c01
  }

  function Row5(l: bv8): bv32 {
    if l == 0 then 0x6b6b51f4 else if l == 1 then 0x1c6c6162 else if l == 2 then 0x856530d8 else
    if l == 3 then 0xf262004e else if l == 4 then 0x6c0695ed else if l == 5 then 0x1b01a57b else
    if l == 6 then 0x8208f4c1 else if l == 7 then 0xf50fc457 else if l == 8 then 0x65b0d9c6 else
    if l == 9 then 0x12b7e950 else if l == 10 then 0x8bbeb8ea else if l == 11 then 0xfcb9887c else
    if l == 12 then 0x62dd1ddf else if l == 13 then 0x15da2d49 else if l == 14 then 0x8cd37cf3 else
    0xfbd44c65
  }

  function Row6(l: bv8): bv32 {
    if l == 0 then 0x4db26158 else if l == 1 then 0x3ab551ce else if l == 2 then 0xa3bc0074 else
    if l == 3 then 0xd4bb30e2 else if l == 4 then 0x4adfa541 else if l == 5 then 0x3dd895d7 else
    if l == 6 then 0xa4d1c46d else if l == 7 then 0xd3d6f4fb else if l == 8 then 0x4369e96a else
    if l == 9 then 0x346ed9fc else if l == 10 then 0xad678846 else if l == 11 then 0xda60b8d0 else
    if l == 12 then 0x44042d73 else if l == 13 then 0x33031de5 else if l == 14 then 0xaa0a4c5f else
    0xdd0d7cc9
  }

  function Row7(l: bv8): bv32 {
    if l == 0 then 0x5005713c else if l == 1 then 0x270241aa else if l == 2 then 0xbe0b1010 else
    if l == 3 then 0xc90c2086 else if l == 4 then 0x5768b525 else if l == 5 then 0x206f85b3 else
    if l == 6 then 0xb966d409 else if l == 7 then 0xce61e49f else if l == 8 then 0x5edef90e else
    if l == 9 then 0x29d9c998 else if l == 10 then 0xb0d09822 else if l == 11 then 0xc7d7a8b4 else
    if l == 12 then 0x59b33d17 else if l == 13 then 0x2eb40d81 else if l == 14 then 0xb7bd5c3b else
    0xc0ba6cad
  }

  function Row8(l: bv8): bv32 {
    if l == 0 then 0xedb88320 else if l == 1 then 0x9abfb3b6 else if l == 2 then 0x03b6e20c else
    if l == 3 then 0x74b1d29a else if l == 4 then 0xead54739 else if l == 5 then 0x9dd277af else
    if l == 6 then 0x04db2615 else if l == 7 then 0x73dc1683 else if l == 8 then 0xe3630b12 else
    if l == 9 then 0x94643b84 else if l == 10 then 0x0d6d6a3e else if l == 11 then 0x7a6a5aa8 else
    if l == 12 then 0xe40ecf0b else if l == 13 then 0x9309ff9d else if l == 14 then 0x0a00ae27 else
    0x7d079eb1
  }

  function Row9(l: bv8): bv32 {
    if l == 0 then 0xf00f9344 else if l == 1 then 0x8708a3d2 else if l == 2 then 0x1e01f268 else
    if l == 3 then 0x6906c2fe else if l == 4 then 0xf762575d else if l == 5 then 0x806567cb else
    if l == 6 then 0x196c3671 else if l == 7 then 0x6e6b06e7 else if l == 8 then 0xfed41b76 else
    if l == 9 then 0x89d32be0 else if l == 10 then 0x10da7a5a else if l == 11 then 0x67dd4acc else
    if l == 12 then 0xf9b9df6f else if l == 13 then 0x8ebeeff9 else if l == 14 then 0x17b7be43 else
    0x60b08ed5
  }

  function Row10(l: bv8): bv32 {
    if l == 0 then 0xd6d6a3e8 else if l == 1 then 0xa1d1937e else if l == 2 then 0x38d8c2c4 else
    if l == 3 then 0x4fdff252 else if l == 4 then 0xd1bb67f1 else if l == 5 then 0xa6bc5767 else
    if l == 6 then 0x3fb506dd else if l == 7 then 0x48b2364b else if l == 8 then 0xd80d2bda else
    if l == 9 then 0xaf0a1b4c else if l == 10 then 0x36034af6 else if l == 11 then 0x41047a60 else
    if l == 12 then 0xdf60efc3 else if l == 13 then 0xa867df55 else if l == 14 then 0x316e8eef else
    0x4669be79
  }

  function Row11(l: bv8): bv32 {
    if l == 0 then 0xcb61b38c else if l == 1 then 0xbc66831a else if l == 2 then 0x256fd2a0 else
    if l == 3 then 0x5268e236 else if l == 4 then 0xcc0c7795 else if l == 5 then 0xbb0b4703 else
    if l == 6 then 0x220216b9 else if l == 7 then 0x5505262f else if l == 8 then 0xc5ba3bbe else
    if l == 9 then 0xb2bd0b28 else if l == 10 then 0x2bb45a92 else if l == 11 then 0x5cb36a04 else
    if l == 12 then 0xc2d7ffa7 else if l == 13 then 0xb5d0cf31 else if l == 14 then 0x2cd99e8b else
    0x5bdeae1d
  }

  function Row12(l: bv8): bv32 {
    if l == 0 then 0x9b64c2b0 else if l == 1 then 0xec63f226 else if l == 2 then 0x756aa39c else
    if l == 3 then 0x026d930a else if l == 4 then 0x9c0906a9 else if l == 5 then 0xeb0e363f else
    if l == 6 then 0x72076785 else if l == 7 then 0x05005713 else if l == 8 then 0x95bf4a82 else
    if l == 9 then 0xe2b87a14 else if l == 10 then 0x7bb12bae else if l == 11 then 0x0cb61b38 else
    if l == 12 then 0x92d28e9b else if l == 13 then 0xe5d5be0d else if l == 14 then 0x7cdcefb7 else
    0x0bdbdf21
  }

  function Row13(l: bv8): bv32 {
    if l == 0 then 0x86d3d2d4 else if l == 1 then 0xf1d4e242 else if l == 2 then 0x68ddb3f8 else
    if l == 3 then 0x1fda836e else if l == 4 then 0x81be16cd else if l == 5 then 0xf6b9265b else
    if l == 6 then 0x6fb077e1 else if l == 7 then 0x18b74777 else if l == 8 then 0x88085ae6 else
    if l == 9 then 0xff0f6a70 else if l == 10 then 0x66063bca else if l == 11 then 0x11010b5c else
    if l == 12 then 0x8f659eff else if l == 13 then 0xf862ae69 else if l == 14 then 0x616bffd3 else
    0x166ccf45
  }

  function Row14(l: bv8): bv32 {
    if l == 0 then 0xa00ae278 else if l == 1 then 0xd70dd2ee else if l == 2 then 0x4e048354 else
    if l == 3 then 0x3903b3c2 else if l == 4 then 0xa7672661 else if l == 5 then 0xd06016f7 else
    if l == 6 then 0x4969474d else if l == 7 then 0x3e6e77db else if l == 8 then 0xaed16a4a else
    if l == 9 then 0xd9d65adc else if l == 10 then 0x40df0b66 else if l == 11 then 0x37d83bf0 else
    if l == 12 then 0xa9bcae53 else if l == 13 then 0xdebb9ec5 else if l == 14 then 0x47b2cf7f else
    0x30b5ffe9
  }

  function Row15(l: bv8): bv32 {
    if l == 0 then 0xbdbdf21c else if l == 1 then 0xcabac28a else if l == 2 then 0x53b39330 else
    if l == 3 then 0x24b4a3a6 else if l == 4 then 0xbad03605 else if l == 5 then 0xcdd70693 else
    if l == 6 then 0x54de5729 else if l == 7 then 0x23d967bf else if l == 8 then 0xb3667a2e else
    if l == 9 then 0xc4614ab8 else if l == 10 then 0x5d681b02 else if l == 11 then 0x2a6f2b94 else
    if l == 12 then 0xb40bbe37 else if l == 13 then 0xc30c8ea1 else if l == 14 then 0x5a05df1b else
    0x2d02ef8d
  }

  function Top(x: Byte): bv8 { x >> 4 }

  function Bottom(x: Byte): bv8 { x & 0xF }

  function Row(h: bv8, l: bv8): bv32 {
    if h == 0 then Row0(l) else
    if h == 1 then Row1(l) else
    if h == 2 then Row2(l) else
    if h == 3 then Row3(l) else
    if h == 4 then Row4(l) else
    if h == 5 then Row5(l) else
    if h == 6 then Row6(l) else
    if h == 7 then Row7(l) else
    if h == 8 then Row8(l) else
    if h == 9 then Row9(l) else
    if h == 10 then Row10(l) else
    if h == 11 then Row11(l) else
    if h == 12 then Row12(l) else
    if h == 13 then Row13(l) else
    if h == 14 then Row14(l) else Row15(l)
  }

  function Table(x: Byte): bv32 { Row(Top(x), Bottom(x)) }

  // The first row, entry by entry.
  lemma Row0Correct(l: bv8)
    requires l < 16
    ensures Row0(l) == Bits8(Wide(l))
  {
    SixteenRows(l);
    if l == 0 { assert Bits8(0) == Row0(0); }
    if l == 1 { assert Bits8(1) == Row0(1); }
    if l == 2 { assert Bits8(2) == Row0(2); }
    if l == 3 { assert Bits8(3) == Row0(3); }
    if l == 4 { assert Bits8(4) == Row0(4); }
    if l == 5 { assert Bits8(5) == Row0(5); }
    if l == 6 { assert Bits8(6) == Row0(6); }
    if l == 7 { assert Bits8(7) == Row0(7); }
    if l == 8 { assert Bits8(8) == Row0(8); }
    if l == 9 { assert Bits8(9) == Row0(9); }
    if l == 10 { assert Bits8(10) == Row0(10); }
    if l == 11 { assert Bits8(11) == Row0(11); }
    if l == 12 { assert Bits8(12) == Row0(12); }
    if l == 13 { assert Bits8(13) == Row0(13); }
    if l == 14 { assert Bits8(14) == Row0(14); }
    if l == 15 { assert Bits8(15) == Row0(15); }
  }

  // The first entry of every row.
  lemma RowStart(h: bv8)
    requires h < 16
    ensures Bits8(Wide(h << 4)) == Row(h, 0)
  {
    SixteenRows(h);
    if h == 0 { assert Bits8(0x00) == Row0(0); }
    if h == 1 { assert Bits8(0x10) == Row1(0); }
    if h == 2 { assert Bits8(0x20) == Row2(0); }
    if h == 3 { assert Bits8(0x30) == Row3(0); }
    if h == 4 { assert Bits8(0x40) == Row4(0); }
    if h == 5 { assert Bits8(0x50) == Row5(0); }
    if h == 6 { assert Bits8(0x60) == Row6(0); }
    if h == 7 { assert Bits8(0x70) == Row7(0); }
    if h == 8 { assert Bits8(0x80) == Row8(0); }
    if h == 9 { assert Bits8(0x90) == Row9(0); }
    if h == 10 { assert Bits8(0xA0) == Row10(0); }
    if h == 11 { assert Bits8(0xB0) == Row11(0); }
    if h == 12 { assert Bits8(0xC0) == Row12(0); }
    if h == 13 { assert Bits8(0xD0) == Row13(0); }
    if h == 14 { assert Bits8(0xE0) == Row14(0); }
    if h == 15 { assert Bits8(0xF0) == Row15(0); }
  }

  lemma WideNibbles(h: bv8, l: bv8)
    requires h < 16 && l < 16
    ensures Wide((h << 4) | l) == Xor(Wide(h << 4), Wide(l))
  {
  }

  // Every other row is its first entry combined with the first row.
  lemma FromRow0(h: bv8, l: bv8)
    requires h < 16 && l < 16
    ensures Bits8(Wide((h << 4) | l)) == Xor(Bits8(Wide(h << 4)), Row0(l))
  {
    hide Bits8, Wide, Xor, Row0;
    WideNibbles(h, l);
    Bits8Linear(Wide(h << 4), Wide(l));
    Row0Correct(l);
  }

  lemma Row0Shifted(l: bv8)
    requires l < 16
    ensures Row0(l) == Xor(Row0(0), Row0(l))
  {
  }

  lemma Row1Shifted(l: bv8)
    requires l < 16
    ensures Row1(l) == Xor(Row1(0), Row0(l))
  {
  }

  lemma Row2Shifted(l: bv8)
    requires l < 16
    ensures Row2(l) == Xor(Row2(0), Row0(l))
  {
  }

  lemma Row3Shifted(l: bv8)
    requires l < 16
    ensures Row3(l) == Xor(Row3(0), Row0(l))
  {
  }

  lemma Row4Shifted(l: bv8)
    requires l < 16
    ensures Row4(l) == Xor(Row4(0), Row0(l))
  {
  }

  lemma Row5Shifted(l: bv8)
    requires l < 16
    ensures Row5(l) == Xor(Row5(0), Row0(l))
  {
  }

  lemma Row6Shifted(l: bv8)
    requires l < 16
    ensures Row6(l) == Xor(Row6(0), Row0(l))
  {
  }

  lemma Row7Shifted(l: bv8)
    requires l < 16
    ensures Row7(l) == Xor(Row7(0), Row0(l))
  {
  }

  lemma Row8Shifted(l: bv8)
    requires l < 16
    ensures Row8(l) == Xor(Row8(0), Row0(l))
  {
  }

  lemma Row9Shifted(l: bv8)
    requires l < 16
    ensures Row9(l) == Xor(Row9(0), Row0(l))
  {
  }

  lemma Row10Shifted(l: bv8)
    requires l < 16
    ensures Row10(l) == Xor(Row10(0), Row0(l))
  {
  }

  lemma Row11Shifted(l: bv8)
    requires l < 16
    ensures Row11(l) == Xor(Row11(0), Row0(l))
  {
  }

  lemma Row12Shifted(l: bv8)
    requires l < 16
    ensures Row12(l) == Xor(Row12(0), Row0(l))
  {
  }

  lemma Row13Shifted(l: bv8)
    requires l < 16
    ensures Row13(l) == Xor(Row13(0), Row0(l))
  {
  }

  lemma Row14Shifted(l: bv8)
    requires l < 16
    ensures Row14(l) == Xor(Row14(0), Row0(l))
  {
  }

  lemma Row15Shifted(l: bv8)
    requires l < 16
    ensures Row15(l) == Xor(Row15(0), Row0(l))
  {
  }

  lemma Nibbles(x: Byte)
    ensures Top(x) < 16 && Bottom(x) < 16 && (Top(x) << 4) | Bottom(x) == x
  {
  }

  lemma SixteenRows(h: bv8)
    requires h < 16
    ensures h == 0 || h == 1 || h == 2 || h == 3 || h == 4 || h == 5 || h == 6 || h == 7 ||
            h == 8 || h == 9 || h == 10 || h == 11 || h == 12 || h == 13 || h == 14 || h == 15
  {
  }

  lemma RowShifted(h: bv8, l: bv8)
    requires h < 16 && l < 16
    ensures Row(h, l) == Xor(Row(h, 0), Row0(l))
  {
    hide Xor, Row0, Row1, Row2, Row3, Row4, Row5, Row6, Row7, Row8, Row9, Row10, Row11, Row12, Row13, Row14, Row15;
    SixteenRows(h);
    if h == 0 { Row0Shifted(l); }
    if h == 1 { Row1Shifted(l); }
    if h == 2 { Row2Shifted(l); }
    if h == 3 { Row3Shifted(l); }
    if h == 4 { Row4Shifted(l); }
    if h == 5 { Row5Shifted(l); }
    if h == 6 { Row6Shifted(l); }
    if h == 7 { Row7Shifted(l); }
    if h == 8 { Row8Shifted(l); }
    if h == 9 { Row9Shifted(l); }
    if h == 10 { Row10Shifted(l); }
    if h == 11 { Row11Shifted(l); }
    if h == 12 { Row12Shifted(l); }
    if h == 13 { Row13Shifted(l); }
    if h == 14 { Row14Shifted(l); }
    if h == 15 { Row15Shifted(l); }
  }

  lemma RowCorrect(h: bv8, l: bv8)
    requires h < 16 && l < 16
    ensures Row(h, l) == Bits8(Wide((h << 4) | l))
  {
    hide Bits8, Wide, Xor, Row, Row0;
    FromRow0(h, l);
    RowStart(h);
    RowShifted(h, l);
  }

  /** Each of the 256 entries is the bitwise CRC of its index. */
  lemma TableCorrect(x: Byte)
    ensures Table(x) == Bits8(Wide(x))
  {
    hide Bits8, Row, Wide, Top, Bottom;
    Nibbles(x);
    RowCorrect(Top(x), Bottom(x));
  }

  // ---------- linearity ----------

  lemma XorAlgebra(a: bv32, b: bv32, c: bv32)
    ensures Xor(a, b) == Xor(b, a)
    ensures Xor(Xor(a, b), c) == Xor(a, Xor(b, c))
  {
  }

  lemma XorUndo(a: bv32, b: bv32)
    ensures Xor(Xor(a, b), b) == a
  {
  }

  lemma XorNothing(a: bv32)
    ensures Xor(a, 0) == a && Xor(0, a) == a && Xor(a, a) == 0
  {
  }

  lemma XorSelf(a: bv32, b: bv32)
    ensures Xor(a, b) == 0 <==> a == b
    ensures Xor(a, 0) == a && Xor(Xor(a, b), b) == a
  {
    hide Xor;
    XorUndo(a, b);
    XorNothing(a);
    XorNothing(b);
  }

  lemma XorHalf(a: bv32, b: bv32)
    ensures Half(Xor(a, b)) == Xor(Half(a), Half(b))
    ensures Odd(Xor(a, b)) <==> Odd(a) != Odd(b)
  {
  }

  lemma BitLinear(a: bv32, b: bv32)
    ensures Bit(Xor(a, b)) == Xor(Bit(a), Bit(b))
  {
    hide Xor, Half, Odd;
    var h, k := Half(a), Half(b);
    var p: bv32 := 0xEDB8_8320;
    XorHalf(a, b);
    XorAlgebra(h, k, p);
    XorAlgebra(h, p, k);
    XorAlgebra(k, p, h);
    XorAlgebra(h, p, Xor(k, p));
    XorAlgebra(p, k, p);
    XorAlgebra(k, p, p);
    XorSelf(k, p);
    XorAlgebra(p, Xor(k, p), p);
  }

  lemma Bits8Linear(a: bv32, b: bv32)
    ensures Bits8(Xor(a, b)) == Xor(Bits8(a), Bits8(b))
  {
    hide Bit, Xor;
    var a1, b1 := Bit(a), Bit(b);
    var a2, b2 := Bit(a1), Bit(b1);
    var a3, b3 := Bit(a2), Bit(b2);
    var a4, b4 := Bit(a3), Bit(b3);
    var a5, b5 := Bit(a4), Bit(b4);
    var a6, b6 := Bit(a5), Bit(b5);
    var a7, b7 := Bit(a6), Bit(b6);
    BitLinear(a, b);
    BitLinear(a1, b1);
    BitLinear(a2, b2);
    BitLinear(a3, b3);
    BitLinear(a4, b4);
    BitLinear(a5, b5);
    BitLinear(a6, b6);
    BitLinear(a7, b7);
  }

  // Everything but the low byte.
  function High(x: bv32): bv32 { x & 0xFFFF_FF00 }

  lemma HighBitsShift(x: bv32)
    ensures Bits8(High(x)) == Rest(x)
  {
  }

  lemma SplitLow(x: bv32)
    ensures x == Xor(Wide(LowByte(x)), High(x))
  {
  }

  // The low byte goes through the polynomial, the rest moves down.
  lemma LowThenShift(x: bv32)
    ensures Bits8(x) == Xor(Bits8(Wide(LowByte(x))), Rest(x))
  {
    hide Bits8, Xor, Wide, LowByte, High, Rest;
    SplitLow(x);
    Bits8Linear(Wide(LowByte(x)), High(x));
    HighBitsShift(x);
  }

  lemma RestOfXor(crc: bv32, b: Byte)
    ensures Rest(Xor(crc, Wide(b))) == Rest(crc)
  {
  }

  /** One table step is eight bit steps. */
  lemma TableStep(crc: bv32, b: Byte)
    ensures Xor(Table(LowByte(Xor(crc, Wide(b)))), Rest(crc)) == ByteStep(crc, b)
  {
    hide Bits8, Table, Xor, Wide, LowByte, Rest;
    RestOfXor(crc, b);
    TableCorrect(LowByte(Xor(crc, Wide(b))));
    LowThenShift(Xor(crc, Wide(b)));
  }

  /** The table-driven loop computes the bitwise CRC of every buffer. */
  method CalcDfuCrc(buf: array<Byte>, len: nat) returns (crc: bv32)
    requires len <= buf.Length
    ensures crc == Crc(buf[..len])
  {
    hide Table, ByteStep, Xor, Wide, LowByte, Rest;
    crc := 0xFFFF_FFFF;
    for i := 0 to len
      invariant crc == Crc(buf[..i])
    {
      assert buf[..i + 1][..i] == buf[..i];
      TableStep(crc, buf[i]);
      crc := Xor(Table(LowByte(Xor(crc, Wide(buf[i])))), Rest(crc));
    }
  }

  // ---------- the steps lose nothing ----------

  lemma BitZero(x: bv32)
    ensures Bit(x) == 0 <==> x == 0
  {
  }

  lemma Bits8Zero(x: bv32)
    ensures Bits8(x) == 0 <==> x == 0
  {
    hide Bit;
    var x1 := Bit(x);
    var x2 := Bit(x1);
    var x3 := Bit(x2);
    var x4 := Bit(x3);
    var x5 := Bit(x4);
    var x6 := Bit(x5);
    var x7 := Bit(x6);
    BitZero(x);
    BitZero(x1);
    BitZero(x2);
    BitZero(x3);
    BitZero(x4);
    BitZero(x5);
    BitZero(x6);
    BitZero(x7);
  }

  lemma Bits8Injective(a: bv32, b: bv32)
    requires Bits8(a) == Bits8(b)
    ensures a == b
  {
    hide Bits8, Xor;
    Bits8Linear(a, b);
    XorSelf(Bits8(a), Bits8(b));
    Bits8Zero(Xor(a, b));
    XorSelf(a, b);
  }

  lemma XorCancel(a: bv32, b: bv32, c: bv32)
    ensures Xor(a, c) == Xor(b, c) <==> a == b
    ensures Xor(c, a) == Xor(c, b) <==> a == b
  {
    hide Xor;
    XorUndo(a, c);
    XorUndo(b, c);
    XorAlgebra(a, c, c);
    XorAlgebra(b, c, c);
  }

  lemma WideByte(a: Byte, b: Byte)
    ensures Wide(a) == Wide(b) <==> a == b
  {
  }

  // Equal results need equal states for equal bytes, and equal bytes for equal states.
  lemma ByteStepInjective(s: bv32, t: bv32, a: Byte, b: Byte)
    requires ByteStep(s, a) == ByteStep(t, b)
    ensures a == b ==> s == t
    ensures s == t ==> a == b
  {
    hide Bits8, Xor, Wide;
    Bits8Injective(Xor(s, Wide(a)), Xor(t, Wide(b)));
    XorCancel(s, t, Wide(a));
    XorCancel(Wide(a), Wide(b), s);
    WideByte(a, b);
  }

  lemma {:induction false} FeedConcat(crc: bv32, x: seq<Byte>, y: seq<Byte>)
    ensures Feed(crc, x + y) == Feed(Feed(crc, x), y)
    decreases |y|
  {
    hide ByteStep;
    if y == [] {
      assert x + y == x;
    } else {
      assert (x + y)[..|x + y| - 1] == x + y[..|y| - 1];
      FeedConcat(crc, x, y[..|y| - 1]);
    }
  }

  // A difference in the state survives any equal bytes.
  lemma {:induction false} FeedInjective(s: bv32, t: bv32, bytes: seq<Byte>)
    requires Feed(s, bytes) == Feed(t, bytes)
    ensures s == t
    decreases |bytes|
  {
    hide ByteStep;
    if bytes != [] {
      var front := bytes[..|bytes| - 1];
      ByteStepInjective(Feed(s, front), Feed(t, front), bytes[|bytes| - 1], bytes[|bytes| - 1]);
      FeedInjective(s, t, front);
    }
  }

  /** Two buffers that differ in exactly one byte never have the same CRC. */
  lemma OneByteDetected(x: seq<Byte>, a: Byte, b: Byte, y: seq<Byte>)
    requires a != b
    ensures Crc(x + [a] + y) != Crc(x + [b] + y)
  {
    hide ByteStep, Feed;
    if Crc(x + [a] + y) == Crc(x + [b] + y) {
      FeedConcat(0xFFFF_FFFF, x + [a], y);
      FeedConcat(0xFFFF_FFFF, x + [b], y);
      FeedInjective(Feed(0xFFFF_FFFF, x + [a]), Feed(0xFFFF_FFFF, x + [b]), y);
      FeedOne(0xFFFF_FFFF, x, a);
      FeedOne(0xFFFF_FFFF, x, b);
      ByteStepInjective(Feed(0xFFFF_FFFF, x), Feed(0xFFFF_FFFF, x), a, b);
    }
  }

  lemma FeedOne(crc: bv32, x: seq<Byte>, b: Byte)
    ensures Feed(crc, x + [b]) == ByteStep(Feed(crc, x), b)
  {
    assert (x + [b])[..|x|] == x;
  }

  // ---------- the checksum in the suffix ----------

  function ByteOf(w: bv32, k: bv32): Byte
    requires k <= 24
  {
    ((w >> k) & 0xFF) as bv8
  }

  function LittleEndian(w: bv32): (r: seq<Byte>)
    ensures |r| == 4
  {
    [ByteOf(w, 0), ByteOf(w, 8), ByteOf(w, 16), ByteOf(w, 24)]
  }

  function FromLittleEndian(b: seq<Byte>): bv32
    requires |b| == 4
  {
    (b[0] as bv32) | ((b[1] as bv32) << 8) | ((b[2] as bv32) << 16) | ((b[3] as bv32) << 24)
  }

  // Four message bytes at once: the word is absorbed before thirty-two bit steps.
  function Bits32(x: bv32): bv32 { Bits8(Bits8(Bits8(Bits8(x)))) }

  // Bits of a word beyond its low byte can be added before or after a byte step.
  lemma Absorb(s: bv32, w: bv32)
    ensures Bits8(Xor(s, w)) == Xor(ByteStep(s, LowByte(w)), Rest(w))
  {
    hide Bits8, Xor, Wide, LowByte, High, Rest;
    SplitLow(w);
    XorAlgebra(s, Wide(LowByte(w)), High(w));
    Bits8Linear(Xor(s, Wide(LowByte(w))), High(w));
    HighBitsShift(w);
  }

  lemma WordBytes(w: bv32)
    ensures LittleEndian(w) == [LowByte(w), LowByte(Rest(w)), LowByte(Rest(Rest(w))), LowByte(Rest(Rest(Rest(w))))]
    ensures Rest(Rest(Rest(Rest(w)))) == 0
  {
  }

  lemma FeedNothing(s: bv32)
    ensures Feed(s, []) == s
  {
  }

  lemma FeedFour(s: bv32, b0: Byte, b1: Byte, b2: Byte, b3: Byte)
    ensures Feed(s, [b0, b1, b2, b3]) == ByteStep(ByteStep(ByteStep(ByteStep(s, b0), b1), b2), b3)
  {
    hide ByteStep, Feed;
    FeedNothing(s);
    FeedOne(s, [], b0);
    FeedOne(s, [b0], b1);
    FeedOne(s, [b0, b1], b2);
    FeedOne(s, [b0, b1, b2], b3);
    assert [] + [b0] == [b0] && [b0] + [b1] == [b0, b1] && [b0, b1] + [b2] == [b0, b1, b2];
    assert [b0, b1, b2] + [b3] == [b0, b1, b2, b3];
  }

  lemma FeedWord(s: bv32, w: bv32)
    ensures Feed(s, LittleEndian(w)) == Bits32(Xor(s, w))
  {
    hide Bits8, Xor, LowByte, Rest, ByteStep, LittleEndian, Feed;
    var w1, s1 := Rest(w), ByteStep(s, LowByte(w));
    var w2, s2 := Rest(w1), ByteStep(s1, LowByte(w1));
    var w3, s3 := Rest(w2), ByteStep(s2, LowByte(w2));
    var s4 := ByteStep(s3, LowByte(w3));
    Absorb(s, w);
    Absorb(s1, w1);
    Absorb(s2, w2);
    Absorb(s3, w3);
    WordBytes(w);
    XorNothing(s4);
    FeedFour(s, LowByte(w), LowByte(w1), LowByte(w2), LowByte(w3));
  }

  lemma LittleEndianRoundTrip(b: seq<Byte>)
    requires |b| == 4
    ensures LittleEndian(FromLittleEndian(b)) == b
  {
  }

  /** Appending a checksum in little-endian order drives the state to zero exactly when it
      is the right one. */
  lemma AppendedCrcIff(bytes: seq<Byte>, w: bv32)
    ensures Crc(bytes + LittleEndian(w)) == 0 <==> w == Crc(bytes)
  {
    hide Bits8, Xor, Feed, LittleEndian;
    var s := Crc(bytes);
    FeedConcat(0xFFFF_FFFF, bytes, LittleEndian(w));
    FeedWord(s, w);
    var x := Xor(s, w);
    Bits8Zero(x);
    Bits8Zero(Bits8(x));
    Bits8Zero(Bits8(Bits8(x)));
    Bits8Zero(Bits8(Bits8(Bits8(x))));
    XorSelf(s, w);
  }

  /** Two buffers that differ only inside a window of four bytes never have the same CRC. */
  lemma BurstDetected(x: seq<Byte>, v: bv32, w: bv32, y: seq<Byte>)
    requires v != w
    ensures Crc(x + LittleEndian(v) + y) != Crc(x + LittleEndian(w) + y)
  {
    hide Bits8, Xor, Feed, LittleEndian;
    if Crc(x + LittleEndian(v) + y) == Crc(x + LittleEndian(w) + y) {
      var s := Crc(x);
      FeedConcat(0xFFFF_FFFF, x + LittleEndian(v), y);
      FeedConcat(0xFFFF_FFFF, x + LittleEndian(w), y);
      FeedInjective(Feed(0xFFFF_FFFF, x + LittleEndian(v)), Feed(0xFFFF_FFFF, x + LittleEndian(w)), y);
      FeedConcat(0xFFFF_FFFF, x, LittleEndian(v));
      FeedConcat(0xFFFF_FFFF, x, LittleEndian(w));
      FeedWord(s, v);
      FeedWord(s, w);
      Bits32Injective(Xor(s, v), Xor(s, w));
      XorCancel(v, w, s);
    }
  }

  lemma Bits32Injective(a: bv32, b: bv32)
    requires Bits32(a) == Bits32(b)
    ensures a == b
  {
    hide Bits8;
    Bits8Injective(Bits8(Bits8(Bits8(a))), Bits8(Bits8(Bits8(b))));
    Bits8Injective(Bits8(Bits8(a)), Bits8(Bits8(b)));
    Bits8Injective(Bits8(a), Bits8(b));
    Bits8Injective(a, b);
  }

  /** The reader's check of the suffix passes exactly when the CRC of the whole image,
      checksum included, is zero. */
  method SuffixCrcMatches(image: array<Byte>) returns (ok: bool)
    requires image.Length >= 4
    ensures ok <==> Crc(image[..]) == 0
  {
    hide FromLittleEndian, LittleEndian, Feed;
    var n := image.Length - 4;
    var suffixCrc := FromLittleEndian(image[n..]);
    var expectedCrc := CalcDfuCrc(image, n);
    AppendedCrcIff(image[..n], suffixCrc);
    LittleEndianRoundTrip(image[n..]);
    assert image[..n] + image[n..] == image[..];
    ok := suffixCrc == expectedCrc;
  }

  lemma FirstDigits()
    ensures ByteStep(0xFFFF_FFFF, 0x31) == 0x7C23_1048
    ensures ByteStep(0x7C23_1048, 0x32) == 0xB0AC_BB32
    ensures ByteStep(0xB0AC_BB32, 0x33) == 0x77B7_9C2D
  {
  }

  lemma MiddleDigits()
    ensures ByteStep(0x77B7_9C2D, 0x34) == 0x641C_1F5C
    ensures ByteStep(0x641C_1F5C, 0x35) == 0x340A_C5E3
    ensures ByteStep(0x340A_C5E3, 0x36) == 0xF68D_2C9E
  {
  }

  lemma LastDigits()
    ensures ByteStep(0xF68D_2C9E, 0x37) == 0xAFFC_9660
    ensures ByteStep(0xAFFC_9660, 0x38) == 0x651F_2550
    ensures ByteStep(0x651F_2550, 0x39) == 0x340B_C6D9
  {
  }

  /** The known answer for the digits 1 to 9, before the final inversion that CRC-32 has and a
      DFU suffix does not. */
  lemma KnownAnswer()
    ensures Crc([0x31, 0x32, 0x33, 0x34, 0x35, 0x36, 0x37, 0x38, 0x39]) == 0x340B_C6D9
  {
    hide ByteStep, Feed;
    FirstDigits();
    MiddleDigits();
    LastDigits();
    var a: seq<Byte>, b: seq<Byte>, c: seq<Byte> := [0x31, 0x32, 0x33, 0x34], [0x35, 0x36, 0x37, 0x38], [0x39];
    FeedConcat(0xFFFF_FFFF, a + b, c);
    FeedConcat(0xFFFF_FFFF, a, b);
    FeedFour(0xFFFF_FFFF, 0x31, 0x32, 0x33, 0x34);
    FeedFour(Feed(0xFFFF_FFFF, a), 0x35, 0x36, 0x37, 0x38);
    FeedSingle(Feed(0xFFFF_FFFF, a + b), 0x39);
    assert a + b + c == [0x31, 0x32, 0x33, 0x34, 0x35, 0x36, 0x37, 0x38, 0x39];
  }

  lemma FeedSingle(s: bv32, b: Byte)
    ensures Feed(s, [b]) == ByteStep(s, b)
  {
    FeedOne(s, [], b);
    FeedNothing(s);
    assert [] + [b] == [b];
  }
}
