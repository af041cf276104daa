/** The stream cipher of CRYPT sessions: section 6.1 of PKWARE's APPNOTE.TXT. */
module Crypt {
  import opened Frames
  import C = StreamCipher

  // ---- CRC-32 ----

  function Table0(n: bv8): bv32 {
    if n == 0 then 0x00000000 else if n == 1 then 0x77073096 else if n == 2 then 0xee0e612c else
    if n == 3 then 0x990951ba else
    if n == 4 then 0x076dc419 else if n == 5 then 0x706af48f else if n == 6 then 0xe963a535 else
    if n == 7 then 0x9e6495a3 else
    if n == 8 then 0x0edb8832 else if n == 9 then 0x79dcb8a4 else if n == 10 then 0xe0d5e91e else
    if n == 11 then 0x97d2d988 else
    if n == 12 then 0x09b64c2b else if n == 13 then 0x7eb17cbd else if n == 14 then 0xe7b82d07 else 0x90bf1d91
  }

  function Table1(n: bv8): bv32 {
    if n == 0 then 0x1db71064 else if n == 1 then 0x6ab020f2 else if n == 2 then 0xf3b97148 else
    if n == 3 then 0x84be41de else
    if n == 4 then 0x1adad47d else if n == 5 then 0x6ddde4eb else if n == 6 then 0xf4d4b551 else
    if n == 7 then 0x83d385c7 else
    if n == 8 then 0x136c9856 else if n == 9 then 0x646ba8c0 else if n == 10 then 0xfd62f97a else
    if n == 11 then 0x8a65c9ec else
    if n == 12 then 0x14015c4f else if n == 13 then 0x63066cd9 else if n == 14 then 0xfa0f3d63 else 0x8d080df5
  }

  function Table2(n: bv8): bv32 {
    if n == 0 then 0x3b6e20c8 else if n == 1 then 0x4c69105e else if n == 2 then 0xd56041e4 else
    if n == 3 then 0xa2677172 else
    if n == 4 then 0x3c03e4d1 else if n == 5 then 0x4b04d447 else if n == 6 then 0xd20d85fd else
    if n == 7 then 0xa50ab56b else
    if n == 8 then 0x35b5a8fa else if n == 9 then 0x42b2986c else if n == 10 then 0xdbbbc9d6 else
    if n == 11 then 0xacbcf940 else
    if n == 12 then 0x32d86ce3 else if n == 13 then 0x45df5c75 else if n == 14 then 0xdcd60dcf else 0xabd13d59
  }

  function Table3(n: bv8): bv32 {
    if n == 0 then 0x26d930ac else if n == 1 then 0x51de003a else if n == 2 then 0xc8d75180 else
    if n == 3 then 0xbfd06116 else
    if n == 4 then 0x21b4f4b5 else if n == 5 then 0x56b3c423 else if n == 6 then 0xcfba9599 else
    if n == 7 then 0xb8bda50f else
    if n == 8 then 0x2802b89e else if n == 9 then 0x5f058808 else if n == 10 then 0xc60cd9b2 else
    if n == 11 then 0xb10be924 else
    if n == 12 then 0x2f6f7c87 else if n == 13 then 0x58684c11 else if n == 14 then 0xc1611dab else 0xb6662d3d
  }

  function Table4(n: bv8): bv32 {
    if n == 0 then 0x76dc4190 else if n == 1 then 0x01db7106 else if n == 2 then 0x98d220bc else
    if n == 3 then 0xefd5102a else
    if n == 4 then 0x71b18589 else if n == 5 then 0x06b6b51f else if n == 6 then 0x9fbfe4a5 else
    if n == 7 then 0xe8b8d433 else
    if n == 8 then 0x7807c9a2 else if n == 9 then 0x0f00f934 else if n == 10 then 0x9609a88e else
    if n == 11 then 0xe10e9818 else
    if n == 12 then 0x7f6a0dbb else if n == 13 then 0x086d3d2d else if n == 14 then 0x91646c97 else 0xe6635c01
  }

  function Table5(n: bv8): bv32 {
    if n == 0 then 0x6b6b51f4 else if n == 1 then 0x1c6c6162 else if n == 2 then 0x856530d8 else
    if n == 3 then 0xf262004e else
    if n == 4 then 0x6c0695ed else if n == 5 then 0x1b01a57b else if n == 6 then 0x8208f4c1 else
    if n == 7 then 0xf50fc457 else
    if n == 8 then 0x65b0d9c6 else if n == 9 then 0x12b7e950 else if n == 10 then 0x8bbeb8ea else
    if n == 11 then 0xfcb9887c else
    if n == 12 then 0x62dd1ddf else if n == 13 then 0x15da2d49 else if n == 14 then 0x8cd37cf3 else 0xfbd44c65
  }

  function Table6(n: bv8): bv32 {
    if n == 0 then 0x4db26158 else if n == 1 then 0x3ab551ce else if n == 2 then 0xa3bc0074 else
    if n == 3 then 0xd4bb30e2 else
    if n == 4 then 0x4adfa541 else if n == 5 then 0x3dd895d7 else if n == 6 then 0xa4d1c46d else
    if n == 7 then 0xd3d6f4fb else
    if n == 8 then 0x4369e96a else if n == 9 then 0x346ed9fc else if n == 10 then 0xad678846 else
    if n == 11 then 0xda60b8d0 else
    if n == 12 then 0x44042d73 else if n == 13 then 0x33031de5 else if n == 14 then 0xaa0a4c5f else 0xdd0d7cc9
  }

  function Table7(n: bv8): bv32 {
    if n == 0 then 0x5005713c else if n == 1 then 0x270241aa else if n == 2 then 0xbe0b1010 else
    if n == 3 then 0xc90c2086 else
    if n == 4 then 0x5768b525 else if n == 5 then 0x206f85b3 else if n == 6 then 0xb966d409 else
    if n == 7 then 0xce61e49f else
    if n == 8 then 0x5edef90e else if n == 9 then 0x29d9c998 else if n == 10 then 0xb0d09822 else
    if n == 11 then 0xc7d7a8b4 else
    if n == 12 then 0x59b33d17 else if n == 13 then 0x2eb40d81 else if n == 14 then 0xb7bd5c3b else 0xc0ba6cad
  }

  function Table8(n: bv8): bv32 {
    if n == 0 then 0xedb88320 else if n == 1 then 0x9abfb3b6 else if n == 2 then 0x03b6e20c else
    if n == 3 then 0x74b1d29a else
    if n == 4 then 0xead54739 else if n == 5 then 0x9dd277af else if n == 6 then 0x04db2615 else
    if n == 7 then 0x73dc1683 else
    if n == 8 then 0xe3630b12 else if n == 9 then 0x94643b84 else if n == 10 then 0x0d6d6a3e else
    if n == 11 then 0x7a6a5aa8 else
    if n == 12 then 0xe40ecf0b else if n == 13 then 0x9309ff9d else if n == 14 then 0x0a00ae27 else 0x7d079eb1
  }

  function Table9(n: bv8): bv32 {
    if n == 0 then 0xf00f9344 else if n == 1 then 0x8708a3d2 else if n == 2 then 0x1e01f268 else
    if n == 3 then 0x6906c2fe else
    if n == 4 then 0xf762575d else if n == 5 then 0x806567cb else if n == 6 then 0x196c3671 else
    if n == 7 then 0x6e6b06e7 else
    if n == 8 then 0xfed41b76 else if n == 9 then 0x89d32be0 else if n == 10 then 0x10da7a5a else
    if n == 11 then 0x67dd4acc else
    if n == 12 then 0xf9b9df6f else if n == 13 then 0x8ebeeff9 else if n == 14 then 0x17b7be43 else 0x60b08ed5
  }

  function TableA(n: bv8): bv32 {
    if n == 0 then 0xd6d6a3e8 else if n == 1 then 0xa1d1937e else if n == 2 then 0x38d8c2c4 else
    if n == 3 then 0x4fdff252 else
    if n == 4 then 0xd1bb67f1 else if n == 5 then 0xa6bc5767 else if n == 6 then 0x3fb506dd else
    if n == 7 then 0x48b2364b else
    if n == 8 then 0xd80d2bda else if n == 9 then 0xaf0a1b4c else if n == 10 then 0x36034af6 else
    if n == 11 then 0x41047a60 else
    if n == 12 then 0xdf60efc3 else if n == 13 then 0xa867df55 else if n == 14 then 0x316e8eef else 0x4669be79
  }

  function TableB(n: bv8): bv32 {
    if n == 0 then 0xcb61b38c else if n == 1 then 0xbc66831a else if n == 2 then 0x256fd2a0 else
    if n == 3 then 0x5268e236 else
    if n == 4 then 0xcc0c7795 else if n == 5 then 0xbb0b4703 else if n == 6 then 0x220216b9 else
    if n == 7 then 0x5505262f else
    if n == 8 then 0xc5ba3bbe else if n == 9 then 0xb2bd0b28 else if n == 10 then 0x2bb45a92 else
    if n == 11 then 0x5cb36a04 else
    if n == 12 then 0xc2d7ffa7 else if n == 13 then 0xb5d0cf31 else if n == 14 then 0x2cd99e8b else 0x5bdeae1d
  }

  function TableC(n: bv8): bv32 {
    if n == 0 then 0x9b64c2b0 else if n == 1 then 0xec63f226 else if n == 2 then 0x756aa39c else
    if n == 3 then 0x026d930a else
    if n == 4 then 0x9c0906a9 else if n == 5 then 0xeb0e363f else if n == 6 then 0x72076785 else
    if n == 7 then 0x05005713 else
    if n == 8 then 0x95bf4a82 else if n == 9 then 0xe2b87a14 else if n == 10 then 0x7bb12bae else
    if n == 11 then 0x0cb61b38 else
    if n == 12 then 0x92d28e9b else if n == 13 then 0xe5d5be0d else if n == 14 then 0x7cdcefb7 else 0x0bdbdf21
  }

  function TableD(n: bv8): bv32 {
    if n == 0 then 0x86d3d2d4 else if n == 1 then 0xf1d4e242 else if n == 2 then 0x68ddb3f8 else
    if n == 3 then 0x1fda836e else
    if n == 4 then 0x81be16cd else if n == 5 then 0xf6b9265b else if n == 6 then 0x6fb077e1 else
    if n == 7 then 0x18b74777 else
    if n == 8 then 0x88085ae6 else if n == 9 then 0xff0f6a70 else if n == 10 then 0x66063bca else
    if n == 11 then 0x11010b5c else
    if n == 12 then 0x8f659eff else if n == 13 then 0xf862ae69 else if n == 14 then 0x616bffd3 else 0x166ccf45
  }

  function TableE(n: bv8): bv32 {
    if n == 0 then 0xa00ae278 else if n == 1 then 0xd70dd2ee else if n == 2 then 0x4e048354 else
    if n == 3 then 0x3903b3c2 else
    if n == 4 then 0xa7672661 else if n == 5 then 0xd06016f7 else if n == 6 then 0x4969474d else
    if n == 7 then 0x3e6e77db else
    if n == 8 then 0xaed16a4a else if n == 9 then 0xd9d65adc else if n == 10 then 0x40df0b66 else
    if n == 11 then 0x37d83bf0 else
    if n == 12 then 0xa9bcae53 else if n == 13 then 0xdebb9ec5 else if n == 14 then 0x47b2cf7f else 0x30b5ffe9
  }

  function TableF(n: bv8): bv32 {
    if n == 0 then 0xbdbdf21c else if n == 1 then 0xcabac28a else if n == 2 then 0x53b39330 else
    if n == 3 then 0x24b4a3a6 else
    if n == 4 then 0xbad03605 else if n == 5 then 0xcdd70693 else if n == 6 then 0x54de5729 else
    if n == 7 then 0x23d967bf else
    if n == 8 then 0xb3667a2e else if n == 9 then 0xc4614ab8 else if n == 10 then 0x5d681b02 else
    if n == 11 then 0x2a6f2b94 else
    if n == 12 then 0xb40bbe37 else if n == 13 then 0xc30c8ea1 else if n == 14 then 0x5a05df1b else 0x2d02ef8d
  }

  /** crc_32_tab, in rows of 16. */
  function Table(b: bv8): bv32 {
    var row, n := b >> 4, b & 15;
    if row == 0 then Table0(n) else if row == 1 then Table1(n) else if row == 2 then Table2(n) else
    if row == 3 then Table3(n) else
    if row == 4 then Table4(n) else if row == 5 then Table5(n) else if row == 6 then Table6(n) else
    if row == 7 then Table7(n) else
    if row == 8 then Table8(n) else if row == 9 then Table9(n) else if row == 10 then TableA(n) else
    if row == 11 then TableB(n) else
    if row == 12 then TableC(n) else if row == 13 then TableD(n) else if row == 14 then TableE(n) else TableF(n)
  }

  /** One bit of the reflected division by the polynomial 0xedb88320. */
  function Shift(c: bv32): bv32 { if c & 1 == 1 then 0xedb88320 ^ (c >> 1) else c >> 1 }

  function Division(b: bv8): bv32 {
    Shift(Shift(Shift(Shift(Shift(Shift(Shift(Shift(b as bv32))))))))
  }

  lemma Row0(b: bv8)
    requires b >> 4 == 0
    ensures Table0(b & 15) == Division(b)
  {
    assert b == 0x00 | (b & 15);
  }

  lemma Row1(b: bv8)
    requires b >> 4 == 1
    ensures Table1(b & 15) == Division(b)
  {
    assert b == 0x10 | (b & 15);
  }

  lemma Row2(b: bv8)
    requires b >> 4 == 2
    ensures Table2(b & 15) == Division(b)
  {
    assert b == 0x20 | (b & 15);
  }

  lemma Row3(b: bv8)
    requires b >> 4 == 3
    ensures Table3(b & 15) == Division(b)
  {
    assert b == 0x30 | (b & 15);
  }

  lemma Row4(b: bv8)
    requires b >> 4 == 4
    ensures Table4(b & 15) == Division(b)
  {
    assert b == 0x40 | (b & 15);
  }

  lemma Row5(b: bv8)
    requires b >> 4 == 5
    ensures Table5(b & 15) == Division(b)
  {
    assert b == 0x50 | (b & 15);
  }

  lemma Row6(b: bv8)
    requires b >> 4 == 6
    ensures Table6(b & 15) == Division(b)
  {
    assert b == 0x60 | (b & 15);
  }

  lemma Row7(b: bv8)
    requires b >> 4 == 7
    ensures Table7(b & 15) == Division(b)
  {
    assert b == 0x70 | (b & 15);
  }

  lemma Row8(b: bv8)
    requires b >> 4 == 8
    ensures Table8(b & 15) == Division(b)
  {
    assert b == 0x80 | (b & 15);
  }

  lemma Row9(b: bv8)
    requires b >> 4 == 9
    ensures Table9(b & 15) == Division(b)
  {
    assert b == 0x90 | (b & 15);
  }

  lemma RowA(b: bv8)
    requires b >> 4 == 10
    ensures TableA(b & 15) == Division(b)
  {
    assert b == 0xa0 | (b & 15);
  }

  lemma RowB(b: bv8)
    requires b >> 4 == 11
    ensures TableB(b & 15) == Division(b)
  {
    assert b == 0xb0 | (b & 15);
  }

  lemma RowC(b: bv8)
    requires b >> 4 == 12
    ensures TableC(b & 15) == Division(b)
  {
    assert b == 0xc0 | (b & 15);
  }

  lemma RowD(b: bv8)
    requires b >> 4 == 13
    ensures TableD(b & 15) == Division(b)
  {
    assert b == 0xd0 | (b & 15);
  }

  lemma RowE(b: bv8)
    requires b >> 4 == 14
    ensures TableE(b & 15) == Division(b)
  {
    assert b == 0xe0 | (b & 15);
  }

  lemma RowF(b: bv8)
    requires b >> 4 == 15
    ensures TableF(b & 15) == Division(b)
  {
    assert b == 0xf0 | (b & 15);
  }

  /** Each entry of the table is the remainder of its index. */
  lemma TableDivides(b: bv8)
    ensures Table(b) == Division(b)
  {
    var row := b >> 4;
    if row < 8 {
      match row
      case 0 => Row0(b);
      case 1 => Row1(b);
      case 2 => Row2(b);
      case 3 => Row3(b);
      case 4 => Row4(b);
      case 5 => Row5(b);
      case 6 => Row6(b);
      case _ => Row7(b);
    } else {
      match row
      case 8 => Row8(b);
      case 9 => Row9(b);
      case 10 => RowA(b);
      case 11 => RowB(b);
      case 12 => RowC(b);
      case 13 => RowD(b);
      case 14 => RowE(b);
      case _ => RowF(b);
    }
  }

  // ---- the keys ----

  /** keys[3], in words of any width. */
  datatype Keys<W> = Keys(k0: W, k1: W, k2: W)

  /** What the program computes with an unsigned long: the macro CRC32, the step of keys[1], the byte that keys[1] is
      shifted to, and the byte that keys[2] gives. */
  datatype Long<!W> = Long(crc: (W, Byte) -> W, next: (W, W) -> W, top: W -> Byte, pad: W -> Byte)

  /** update_keys */
  function Update<W>(o: Long<W>, k: Keys<W>, c: Byte): Keys<W> {
    var k0 := o.crc(k.k0, c);
    var k1 := o.next(k.k1, k0);
    Keys(k0, k1, o.crc(k.k2, o.top(k1)))
  }

  function Xor(x: Byte, p: Byte): Byte { x ^ p }

  function Zip<W>(o: Long<W>): C.Cipher<Keys<W>, Byte> {
    C.Cipher((k: Keys<W>) => o.pad(k.k2), Xor, (k: Keys<W>, c: Byte) => Update(o, k, c))
  }

  /** decrypt_byte works on an unsigned int. */
  function PadOf(t: bv32): Byte { (((t * (t ^ 1)) >> 8) & 0xff) as Byte }

  function Crc32(c: bv32, b: Byte): bv32 { Table(((c & 0xff) as bv8) ^ b) ^ (c >> 8) }

  function Next32(k1: bv32, k0: bv32): bv32 { (k1 + (k0 & 0xff)) * 134775813 + 1 }

  function Top32(k1: bv32): Byte { (k1 >> 24) as bv8 }

  function Pad32(k2: bv32): Byte { PadOf((k2 & 0xffff) | 2) }

  /** An unsigned long of 32 bits; it wraps around. */
  function Long32(): Long<bv32> { Long(Crc32, Next32, Top32, Pad32) }

  function Crc64(c: bv64, b: Byte): bv64 { (Table(((c & 0xff) as bv8) ^ b) as bv64) ^ (c >> 8) }

  function Next64(k1: bv64, k0: bv64): bv64 { (k1 + (k0 & 0xff)) * 134775813 + 1 }

  /** The shifted key is cut to an int, of which only the lowest byte is used. */
  function Top64(k1: bv64): Byte { ((k1 >> 24) & 0xff) as bv8 }

  function Pad64(k2: bv64): Byte { PadOf(((k2 & 0xffff) as bv32) | 2) }

  function Long64(): Long<bv64> { Long(Crc64, Next64, Top64, Pad64) }

  // ---- the width of an unsigned long ----

  /** Two widths agree: under `same` in keys[0] and keys[2], and under `half` in keys[1]. */
  ghost predicate Agree<V(!new), W(!new)>(o: Long<V>, p: Long<W>, same: (V, W) -> bool, half: (V, W) -> bool) {
    && (forall v, w, b {:trigger o.crc(v, b), p.crc(w, b)} :: same(v, w) ==> same(o.crc(v, b), p.crc(w, b)))
    && (forall v, w, x, y {:trigger o.next(v, x), p.next(w, y)} ::
          half(v, w) && same(x, y) ==> half(o.next(v, x), p.next(w, y)))
    && (forall v, w :: half(v, w) ==> o.top(v) == p.top(w))
    && (forall v, w :: same(v, w) ==> o.pad(v) == p.pad(w))
  }

  lemma AgreeSimulate<V(!new), W(!new)>(o: Long<V>, p: Long<W>, same: (V, W) -> bool, half: (V, W) -> bool, k: Keys<V>,
      l: Keys<W>, xs: seq<Byte>)
    requires Agree(o, p, same, half) && same(k.k0, l.k0) && half(k.k1, l.k1) && same(k.k2, l.k2)
    ensures C.Encrypt(Zip(o), k, xs) == C.Encrypt(Zip(p), l, xs)
    ensures C.Decrypt(Zip(o), k, xs) == C.Decrypt(Zip(p), l, xs)
  {
    var r := (k: Keys<V>, l: Keys<W>) => same(k.k0, l.k0) && half(k.k1, l.k1) && same(k.k2, l.k2);
    forall k, l | r(k, l) ensures Zip(o).pad(k) == Zip(p).pad(l) {
      assert o.pad(k.k2) == p.pad(l.k2);
    }
    forall k, l, x | r(k, l) ensures r(Zip(o).up(k, x), Zip(p).up(l, x)) {
    }
    C.Simulate(Zip(o), Zip(p), r, k, l, xs);
  }

  /** keys[0] and keys[2] never grow beyond 32 bits. */
  predicate Fits(v: bv32, w: bv64) { w == v as bv64 }

  /** Of keys[1] only the lower half is seen. */
  predicate Half(v: bv32, w: bv64) { v == (w & 0xffff_ffff) as bv32 }

  lemma CrcSame(v: bv32, b: Byte)
    ensures Crc64(v as bv64, b) == Crc32(v, b) as bv64
  {
    assert ((v as bv64) & 0xff) as bv8 == (v & 0xff) as bv8;
  }

  lemma NextSame(z: bv64, w: bv64, x: bv32)
    requires z == (w + ((x as bv64) & 0xff)) * 134775813 + 1
    ensures (z & 0xffff_ffff) as bv32 == ((w & 0xffff_ffff) as bv32 + (x & 0xff)) * 134775813 + 1
  {
  }

  lemma TopSame(w: bv64)
    ensures ((w >> 24) & 0xff) as bv8 == ((w & 0xffff_ffff) as bv32 >> 24) as bv8
  {
  }

  lemma PadSame(v: bv32)
    ensures (((v as bv64) & 0xffff) as bv32) | 2 == (v & 0xffff) | 2
  {
  }

  lemma CrcAgrees()
    ensures forall v, w, b {:trigger Crc32(v, b), Crc64(w, b)} :: Fits(v, w) ==> Fits(Crc32(v, b), Crc64(w, b))
  {
    forall v, w, b | Fits(v, w) ensures Fits(Crc32(v, b), Crc64(w, b)) { CrcSame(v, b); }
  }

  lemma NextAgrees(v: bv32, w: bv64, x: bv32)
    requires Half(v, w)
    ensures Half(Next32(v, x), Next64(w, x as bv64))
  {
    NextSame(Next64(w, x as bv64), w, x);
  }

  lemma WidthsAgree()
    ensures Agree(Long32(), Long64(), Fits, Half)
  {
    CrcAgrees();
    forall v, w, x, y | Half(v, w) && Fits(x, y) ensures Half(Next32(v, x), Next64(w, y)) { NextAgrees(v, w, x); }
    forall v, w | Half(v, w) ensures Top32(v) == Top64(w) { TopSame(w); }
    forall v, w | Fits(v, w) ensures Pad32(v) == Pad64(w) { PadSame(v); }
  }

  // ---- the cipher ----

  type K = Keys<bv32>

  function Start(): K { Keys(305419896, 591751049, 878082192) }

  /** On every platform the same bytes, whether unsigned long has 32 or 64 bits. */
  lemma AnyWidth(k: K, l: Keys<bv64>, xs: seq<Byte>)
    requires Fits(k.k0, l.k0) && Half(k.k1, l.k1) && Fits(k.k2, l.k2)
    ensures C.Encrypt(Zip(Long32()), k, xs) == C.Encrypt(Zip(Long64()), l, xs)
    ensures C.Decrypt(Zip(Long32()), k, xs) == C.Decrypt(Zip(Long64()), l, xs)
  {
    WidthsAgree();
    AgreeSimulate(Long32(), Long64(), Fits, Half, k, l, xs);
  }

  lemma StartSame()
    ensures Fits(Start().k0, 305419896) && Half(Start().k1, 591751049) && Fits(Start().k2, 878082192)
  {
  }

  function Step(k: K, c: Byte): K { Update(Long32(), k, c) }

  function Pad(k: K): Byte { Pad32(k.k2) }

  /** The keys after the plain text `xs`. */
  function After(k: K, xs: seq<Byte>): K { C.After(Zip(Long32()), k, xs) }

  function Encrypt(k: K, xs: seq<Byte>): seq<Byte> { C.Encrypt(Zip(Long32()), k, xs) }

  function Decrypt(k: K, ys: seq<Byte>): seq<Byte> { C.Decrypt(Zip(Long32()), k, ys) }

  lemma XorTwice()
    ensures C.Undoes(Zip(Long32()))
  {
    forall x: Byte, p: Byte ensures Xor(Xor(x, p), p) == x { }
  }

  lemma RoundTrip(k: K, xs: seq<Byte>)
    ensures Decrypt(k, Encrypt(k, xs)) == xs
  {
    XorTwice();
    C.RoundTrip(Zip(Long32()), k, xs);
  }

  /** Chunks do not matter. */
  lemma EncryptSplit(k: K, xs: seq<Byte>, ys: seq<Byte>)
    ensures Encrypt(k, xs + ys) == Encrypt(k, xs) + Encrypt(After(k, xs), ys)
    ensures After(k, xs + ys) == After(After(k, xs), ys)
  {
    C.EncryptSplit(Zip(Long32()), k, xs, ys);
    C.AfterSplit(Zip(Long32()), k, xs, ys);
  }

  lemma DecryptSplit(k: K, xs: seq<Byte>, ys: seq<Byte>)
    ensures Decrypt(k, xs + ys) == Decrypt(k, xs) + Decrypt(After(k, Decrypt(k, xs)), ys)
  {
    var ps := Decrypt(k, xs);
    var qs := Decrypt(After(k, ps), ys);
    XorTwice();
    C.RoundTripBack(Zip(Long32()), k, xs);
    C.RoundTripBack(Zip(Long32()), After(k, ps), ys);
    EncryptSplit(k, ps, qs);
    RoundTrip(k, ps + qs);
  }

  // ---- login ----

  const DASH: Byte := 45

  /** init_keys */
  function Init(password: seq<Byte>): K { After(Start(), password) }

  /** complete_login: the keys of the direction from the caller, and of the one to the caller. */
  function FromCaller(password: seq<Byte>): K { Init(password) }

  function ToCaller(password: seq<Byte>): K { After(Init([DASH]), password) }

  /** The keys of the second direction are those of the password with a dash in front of it. */
  lemma SecondDirection(password: seq<Byte>)
    ensures ToCaller(password) == Init([DASH] + password)
  {
    C.AfterSplit(Zip(Long32()), Start(), [DASH], password);
  }

  // ---- in place ----

  /** One more byte. */
  lemma EncryptOne(k: K, xs: seq<Byte>, i: nat)
    requires i < |xs|
    ensures Encrypt(k, xs[..i + 1]) == Encrypt(k, xs[..i]) + [Xor(xs[i], Pad(After(k, xs[..i])))]
    ensures After(k, xs[..i + 1]) == Step(After(k, xs[..i]), xs[i])
  {
    assert xs[..i + 1] == xs[..i] + [xs[i]];
    C.EncryptOne(Zip(Long32()), k, xs[..i], xs[i]);
  }

  lemma DecryptOne(k: K, ys: seq<Byte>, i: nat)
    requires i < |ys|
    ensures var xs := Decrypt(k, ys[..i]);
      var x := Xor(ys[i], Pad(After(k, xs)));
      Decrypt(k, ys[..i + 1]) == xs + [x] && After(k, xs + [x]) == Step(After(k, xs), x)
  {
    XorTwice();
    assert ys[..i + 1] == ys[..i] + [ys[i]];
    C.DecryptOne(Zip(Long32()), k, ys[..i], ys[i]);
  }

  /** The keys of one direction of a session, and the loops over its buffers. */
  class Stream {
    var keys: K

    constructor (k: K)
      ensures keys == k
    {
      keys := k;
    }

    /** encrypt_buf, one byte. */
    method EncryptByte(buf: array<Byte>, i: nat)
      requires i < buf.Length
      modifies this, buf
      ensures buf[i] == Xor(old(buf[i]), Pad(old(keys))) && keys == Step(old(keys), old(buf[i]))
      ensures forall j :: 0 <= j < buf.Length && j != i ==> buf[j] == old(buf[j])
    {
      var t := Pad(keys);
      keys := Step(keys, buf[i]);
      buf[i] := Xor(buf[i], t);
    }

    /** One round of the loop. */
    method EncryptAt(buf: array<Byte>, from: nat, i: nat, ghost k0: K, ghost all: seq<Byte>)
      requires from + i < buf.Length && i < |all| && buf[from + i] == all[i]
      requires keys == After(k0, all[..i]) && buf[from..from + i] == Encrypt(k0, all[..i])
      modifies this, buf
      ensures keys == After(k0, all[..i + 1]) && buf[from..from + i + 1] == Encrypt(k0, all[..i + 1])
      ensures forall j :: 0 <= j < buf.Length && j != from + i ==> buf[j] == old(buf[j])
    {
      EncryptOne(k0, all, i);
      ghost var done := buf[from..from + i];
      EncryptByte(buf, from + i);
      assert buf[from..from + i + 1] == done + [buf[from + i]];
    }

    /** encrypt_buf */
    method EncryptBuf(buf: array<Byte>, from: nat, size: nat)
      requires from + size <= buf.Length
      modifies this, buf
      ensures buf[from..from + size] == Encrypt(old(keys), old(buf[from..from + size]))
      ensures keys == After(old(keys), old(buf[from..from + size]))
      ensures forall j :: 0 <= j < buf.Length && !(from <= j < from + size) ==> buf[j] == old(buf[j])
    {
      ghost var all := buf[from..from + size];
      var i := 0;
      while i < size
        invariant i <= size
        invariant keys == After(old(keys), all[..i])
        invariant buf[from..from + i] == Encrypt(old(keys), all[..i])
        invariant forall j :: from + i <= j < from + size ==> buf[j] == all[j - from]
        invariant forall j :: 0 <= j < buf.Length && !(from <= j < from + size) ==> buf[j] == old(buf[j])
      {
        EncryptAt(buf, from, i, old(keys), all);
        i := i + 1;
      }
      assert all[..size] == all;
    }

    /** decrypt_buf, one byte. */
    method DecryptByte(buf: array<Byte>, i: nat)
      requires i < buf.Length
      modifies this, buf
      ensures buf[i] == Xor(old(buf[i]), Pad(old(keys))) && keys == Step(old(keys), buf[i])
      ensures forall j :: 0 <= j < buf.Length && j != i ==> buf[j] == old(buf[j])
    {
      var x := Xor(buf[i], Pad(keys));
      buf[i] := x;
      keys := Step(keys, x);
    }

    /** One round of the loop. */
    method DecryptAt(buf: array<Byte>, from: nat, i: nat, ghost k0: K, ghost all: seq<Byte>)
      requires from + i < buf.Length && i < |all| && buf[from + i] == all[i]
      requires buf[from..from + i] == Decrypt(k0, all[..i]) && keys == After(k0, buf[from..from + i])
      modifies this, buf
      ensures buf[from..from + i + 1] == Decrypt(k0, all[..i + 1]) && keys == After(k0, buf[from..from + i + 1])
      ensures forall j :: 0 <= j < buf.Length && j != from + i ==> buf[j] == old(buf[j])
    {
      DecryptOne(k0, all, i);
      ghost var done := buf[from..from + i];
      DecryptByte(buf, from + i);
      assert buf[from..from + i + 1] == done + [buf[from + i]];
    }

    /** decrypt_buf */
    method DecryptBuf(buf: array<Byte>, from: nat, size: nat)
      requires from + size <= buf.Length
      modifies this, buf
      ensures buf[from..from + size] == Decrypt(old(keys), old(buf[from..from + size]))
      ensures keys == After(old(keys), buf[from..from + size])
      ensures forall j :: 0 <= j < buf.Length && !(from <= j < from + size) ==> buf[j] == old(buf[j])
    {
      ghost var all := buf[from..from + size];
      var i := 0;
      while i < size
        invariant i <= size
        invariant buf[from..from + i] == Decrypt(old(keys), all[..i])
        invariant keys == After(old(keys), buf[from..from + i])
        invariant forall j :: from + i <= j < from + size ==> buf[j] == all[j - from]
        invariant forall j :: 0 <= j < buf.Length && !(from <= j < from + size) ==> buf[j] == old(buf[j])
      {
        DecryptAt(buf, from, i, old(keys), all);
        i := i + 1;
      }
      assert all[..size] == all;
    }
  }
}
