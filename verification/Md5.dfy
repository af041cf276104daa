/** MD5 as sections 3.1 to 3.5 of RFC 1321 define it, and HMAC of section 2 of RFC 2104 over it. */
module Md5 {
  // ---- words ----

  const WORD: nat := 0x1_0000_0000

  type Word = n: nat | n < WORD

  /** unsigned char */
  type Octet = n: nat | n < 0x100

  function Add(a: nat, b: nat): Word { (a + b) % WORD }

  /** A word of four bytes, the lowest first. */
  function Word4(b: seq<Octet>): Word
    requires |b| == 4
  {
    var n0: nat, n1: nat, n2: nat, n3: nat := b[0], b[1], b[2], b[3];
    n0 + 0x100 * n1 + 0x1_0000 * n2 + 0x100_0000 * n3
  }

  function Bytes4(w: Word): seq<Octet> {
    [w % 0x100, w / 0x100 % 0x100, w / 0x1_0000 % 0x100, w / 0x100_0000 % 0x100]
  }

  // ---- the four rounds ----

  function F(x: bv32, y: bv32, z: bv32): bv32 { (x & y) | (!x & z) }

  function G(x: bv32, y: bv32, z: bv32): bv32 { (x & z) | (y & !z) }

  function H(x: bv32, y: bv32, z: bv32): bv32 { x ^ y ^ z }

  function I(x: bv32, y: bv32, z: bv32): bv32 { y ^ (x | !z) }

  function RotateLeft(x: bv32, n: nat): bv32
    requires 0 < n < 32
  {
    (x << n) | (x >> (32 - n))
  }

  /** One operation: the round, four words, a word of the block, a shift and a constant. */
  type Op = (nat, Word, Word, Word, Word, Word, nat, Word) -> Word

  /** FF, GG, HH and II. */
  function Operation(round: nat, a: Word, b: Word, c: Word, d: Word, x: Word, s: nat, t: Word): Word {
    var y, z, w := b as bv32, c as bv32, d as bv32;
    var f := if round == 0 then F(y, z, w) else if round == 1 then G(y, z, w)
      else if round == 2 then H(y, z, w) else I(y, z, w);
    var sum := Add(Add(Add(a, f as nat), x), t);
    Add(if 0 < s < 32 then RotateLeft(sum as bv32, s) as nat else sum, b)
  }

  /** The table T of section 3.4. */
  function T(i: nat): Word {
    if i == 0 then 0xd76aa478 else if i == 1 then 0xe8c7b756 else if i == 2 then 0x242070db else
    if i == 3 then 0xc1bdceee else
    if i == 4 then 0xf57c0faf else if i == 5 then 0x4787c62a else if i == 6 then 0xa8304613 else
    if i == 7 then 0xfd469501 else
    if i == 8 then 0x698098d8 else if i == 9 then 0x8b44f7af else if i == 10 then 0xffff5bb1 else
    if i == 11 then 0x895cd7be else
    if i == 12 then 0x6b901122 else if i == 13 then 0xfd987193 else if i == 14 then 0xa679438e else
    if i == 15 then 0x49b40821 else
    if i == 16 then 0xf61e2562 else if i == 17 then 0xc040b340 else if i == 18 then 0x265e5a51 else
    if i == 19 then 0xe9b6c7aa else
    if i == 20 then 0xd62f105d else if i == 21 then 0x02441453 else if i == 22 then 0xd8a1e681 else
    if i == 23 then 0xe7d3fbc8 else
    if i == 24 then 0x21e1cde6 else if i == 25 then 0xc33707d6 else if i == 26 then 0xf4d50d87 else
    if i == 27 then 0x455a14ed else
    if i == 28 then 0xa9e3e905 else if i == 29 then 0xfcefa3f8 else if i == 30 then 0x676f02d9 else
    if i == 31 then 0x8d2a4c8a else
    if i == 32 then 0xfffa3942 else if i == 33 then 0x8771f681 else if i == 34 then 0x6d9d6122 else
    if i == 35 then 0xfde5380c else
    if i == 36 then 0xa4beea44 else if i == 37 then 0x4bdecfa9 else if i == 38 then 0xf6bb4b60 else
    if i == 39 then 0xbebfbc70 else
    if i == 40 then 0x289b7ec6 else if i == 41 then 0xeaa127fa else if i == 42 then 0xd4ef3085 else
    if i == 43 then 0x04881d05 else
    if i == 44 then 0xd9d4d039 else if i == 45 then 0xe6db99e5 else if i == 46 then 0x1fa27cf8 else
    if i == 47 then 0xc4ac5665 else
    if i == 48 then 0xf4292244 else if i == 49 then 0x432aff97 else if i == 50 then 0xab9423a7 else
    if i == 51 then 0xfc93a039 else
    if i == 52 then 0x655b59c3 else if i == 53 then 0x8f0ccc92 else if i == 54 then 0xffeff47d else
    if i == 55 then 0x85845dd1 else
    if i == 56 then 0x6fa87e4f else if i == 57 then 0xfe2ce6e0 else if i == 58 then 0xa3014314 else
    if i == 59 then 0x4e0811a1 else
    if i == 60 then 0xf7537e82 else if i == 61 then 0xbd3af235 else if i == 62 then 0x2ad7d2bb else 0xeb86d391
  }

  /** Which word of the block, and which shift, belongs to operation `i`. */
  function Index(i: nat): (k: nat)
    ensures k < 16
  {
    if i < 16 then i % 16 else if i < 32 then (1 + 5 * i) % 16 else if i < 48 then (5 + 3 * i) % 16 else 7 * i % 16
  }

  function Shift(i: nat): nat {
    var j := i % 4;
    if i < 16 then (if j == 0 then 7 else if j == 1 then 12 else if j == 2 then 17 else 22)
    else if i < 32 then (if j == 0 then 5 else if j == 1 then 9 else if j == 2 then 14 else 20)
    else if i < 48 then (if j == 0 then 4 else if j == 1 then 11 else if j == 2 then 16 else 23)
    else if j == 0 then 6 else if j == 1 then 10 else if j == 2 then 15 else 21
  }

  datatype St = St(a: Word, b: Word, c: Word, d: Word)

  /** Operation `i`, on the words in the roles that they have then. */
  function StepAt(op: Op, i: nat, st: St, x: seq<Word>): St
    requires |x| == 16
  {
    St(st.d, op(i / 16, st.a, st.b, st.c, st.d, x[Index(i)], Shift(i), T(i)), st.b, st.c)
  }

  /** Operations `i` to `i + n`. */
  function Steps(op: Op, i: nat, n: nat, st: St, x: seq<Word>): St
    requires |x| == 16
    decreases n
  {
    if n == 0 then st else Steps(op, i + 1, n - 1, StepAt(op, i, st, x), x)
  }

  function Four(op: Op, i: nat, st: St, x: seq<Word>): St
    requires |x| == 16
  {
    StepAt(op, i + 3, StepAt(op, i + 2, StepAt(op, i + 1, StepAt(op, i, st, x), x), x), x)
  }

  lemma FourSteps(op: Op, i: nat, n: nat, st: St, x: seq<Word>)
    requires |x| == 16
    ensures Steps(op, i, n + 4, st, x) == Steps(op, i + 4, n, Four(op, i, st, x), x)
  {
    var s1 := StepAt(op, i, st, x);
    var s2 := StepAt(op, i + 1, s1, x);
    var s3 := StepAt(op, i + 2, s2, x);
    assert Steps(op, i + 1, n + 3, s1, x) == Steps(op, i + 2, n + 2, s2, x);
    assert Steps(op, i + 3, n + 1, s3, x) == Steps(op, i + 4, n, StepAt(op, i + 3, s3, x), x);
  }

  lemma FourFours(op: Op, i: nat, st: St, x: seq<Word>)
    requires |x| == 16
    ensures Steps(op, i, 16, st, x) == Four(op, i + 12, Four(op, i + 8, Four(op, i + 4, Four(op, i, st, x), x), x), x)
  {
    var s1 := Four(op, i, st, x);
    var s2 := Four(op, i + 4, s1, x);
    var s3 := Four(op, i + 8, s2, x);
    FourSteps(op, i, 12, st, x);
    FourSteps(op, i + 4, 8, s1, x);
    FourSteps(op, i + 8, 4, s2, x);
    FourSteps(op, i + 12, 0, s3, x);
  }

  /** Round 1 of MD5Transform. */
  method Round1(op: Op, st: St, x: seq<Word>) returns (r: St)
    requires |x| == 16
    ensures r == Steps(op, 0, 16, st, x)
  {
    var a, b, c, d := st.a, st.b, st.c, st.d;
    ghost var s0 := St(a, b, c, d);
    a := op(0, a, b, c, d, x[0], 7, 0xd76aa478);
    d := op(0, d, a, b, c, x[1], 12, 0xe8c7b756);
    c := op(0, c, d, a, b, x[2], 17, 0x242070db);
    b := op(0, b, c, d, a, x[3], 22, 0xc1bdceee);
    assert St(a, b, c, d) == Four(op, 0, s0, x);
    ghost var s1 := St(a, b, c, d);
    a := op(0, a, b, c, d, x[4], 7, 0xf57c0faf);
    d := op(0, d, a, b, c, x[5], 12, 0x4787c62a);
    c := op(0, c, d, a, b, x[6], 17, 0xa8304613);
    b := op(0, b, c, d, a, x[7], 22, 0xfd469501);
    assert St(a, b, c, d) == Four(op, 4, s1, x);
    ghost var s2 := St(a, b, c, d);
    a := op(0, a, b, c, d, x[8], 7, 0x698098d8);
    d := op(0, d, a, b, c, x[9], 12, 0x8b44f7af);
    c := op(0, c, d, a, b, x[10], 17, 0xffff5bb1);
    b := op(0, b, c, d, a, x[11], 22, 0x895cd7be);
    assert St(a, b, c, d) == Four(op, 8, s2, x);
    ghost var s3 := St(a, b, c, d);
    a := op(0, a, b, c, d, x[12], 7, 0x6b901122);
    d := op(0, d, a, b, c, x[13], 12, 0xfd987193);
    c := op(0, c, d, a, b, x[14], 17, 0xa679438e);
    b := op(0, b, c, d, a, x[15], 22, 0x49b40821);
    assert St(a, b, c, d) == Four(op, 12, s3, x);
    FourFours(op, 0, st, x);
    r := St(a, b, c, d);
  }

  /** Round 2 of MD5Transform. */
  method Round2(op: Op, st: St, x: seq<Word>) returns (r: St)
    requires |x| == 16
    ensures r == Steps(op, 16, 16, st, x)
  {
    var a, b, c, d := st.a, st.b, st.c, st.d;
    ghost var s0 := St(a, b, c, d);
    a := op(1, a, b, c, d, x[1], 5, 0xf61e2562);
    d := op(1, d, a, b, c, x[6], 9, 0xc040b340);
    c := op(1, c, d, a, b, x[11], 14, 0x265e5a51);
    b := op(1, b, c, d, a, x[0], 20, 0xe9b6c7aa);
    assert St(a, b, c, d) == Four(op, 16, s0, x);
    ghost var s1 := St(a, b, c, d);
    a := op(1, a, b, c, d, x[5], 5, 0xd62f105d);
    d := op(1, d, a, b, c, x[10], 9, 0x02441453);
    c := op(1, c, d, a, b, x[15], 14, 0xd8a1e681);
    b := op(1, b, c, d, a, x[4], 20, 0xe7d3fbc8);
    assert St(a, b, c, d) == Four(op, 20, s1, x);
    ghost var s2 := St(a, b, c, d);
    a := op(1, a, b, c, d, x[9], 5, 0x21e1cde6);
    d := op(1, d, a, b, c, x[14], 9, 0xc33707d6);
    c := op(1, c, d, a, b, x[3], 14, 0xf4d50d87);
    b := op(1, b, c, d, a, x[8], 20, 0x455a14ed);
    assert St(a, b, c, d) == Four(op, 24, s2, x);
    ghost var s3 := St(a, b, c, d);
    a := op(1, a, b, c, d, x[13], 5, 0xa9e3e905);
    d := op(1, d, a, b, c, x[2], 9, 0xfcefa3f8);
    c := op(1, c, d, a, b, x[7], 14, 0x676f02d9);
    b := op(1, b, c, d, a, x[12], 20, 0x8d2a4c8a);
    assert St(a, b, c, d) == Four(op, 28, s3, x);
    FourFours(op, 16, st, x);
    r := St(a, b, c, d);
  }

  /** Round 3 of MD5Transform. */
  method Round3(op: Op, st: St, x: seq<Word>) returns (r: St)
    requires |x| == 16
    ensures r == Steps(op, 32, 16, st, x)
  {
    var a, b, c, d := st.a, st.b, st.c, st.d;
    ghost var s0 := St(a, b, c, d);
    a := op(2, a, b, c, d, x[5], 4, 0xfffa3942);
    d := op(2, d, a, b, c, x[8], 11, 0x8771f681);
    c := op(2, c, d, a, b, x[11], 16, 0x6d9d6122);
    b := op(2, b, c, d, a, x[14], 23, 0xfde5380c);
    assert St(a, b, c, d) == Four(op, 32, s0, x);
    ghost var s1 := St(a, b, c, d);
    a := op(2, a, b, c, d, x[1], 4, 0xa4beea44);
    d := op(2, d, a, b, c, x[4], 11, 0x4bdecfa9);
    c := op(2, c, d, a, b, x[7], 16, 0xf6bb4b60);
    b := op(2, b, c, d, a, x[10], 23, 0xbebfbc70);
    assert St(a, b, c, d) == Four(op, 36, s1, x);
    ghost var s2 := St(a, b, c, d);
    a := op(2, a, b, c, d, x[13], 4, 0x289b7ec6);
    d := op(2, d, a, b, c, x[0], 11, 0xeaa127fa);
    c := op(2, c, d, a, b, x[3], 16, 0xd4ef3085);
    b := op(2, b, c, d, a, x[6], 23, 0x04881d05);
    assert St(a, b, c, d) == Four(op, 40, s2, x);
    ghost var s3 := St(a, b, c, d);
    a := op(2, a, b, c, d, x[9], 4, 0xd9d4d039);
    d := op(2, d, a, b, c, x[12], 11, 0xe6db99e5);
    c := op(2, c, d, a, b, x[15], 16, 0x1fa27cf8);
    b := op(2, b, c, d, a, x[2], 23, 0xc4ac5665);
    assert St(a, b, c, d) == Four(op, 44, s3, x);
    FourFours(op, 32, st, x);
    r := St(a, b, c, d);
  }

  /** Round 4 of MD5Transform. */
  method Round4(op: Op, st: St, x: seq<Word>) returns (r: St)
    requires |x| == 16
    ensures r == Steps(op, 48, 16, st, x)
  {
    var a, b, c, d := st.a, st.b, st.c, st.d;
    ghost var s0 := St(a, b, c, d);
    a := op(3, a, b, c, d, x[0], 6, 0xf4292244);
    d := op(3, d, a, b, c, x[7], 10, 0x432aff97);
    c := op(3, c, d, a, b, x[14], 15, 0xab9423a7);
    b := op(3, b, c, d, a, x[5], 21, 0xfc93a039);
    assert St(a, b, c, d) == Four(op, 48, s0, x);
    ghost var s1 := St(a, b, c, d);
    a := op(3, a, b, c, d, x[12], 6, 0x655b59c3);
    d := op(3, d, a, b, c, x[3], 10, 0x8f0ccc92);
    c := op(3, c, d, a, b, x[10], 15, 0xffeff47d);
    b := op(3, b, c, d, a, x[1], 21, 0x85845dd1);
    assert St(a, b, c, d) == Four(op, 52, s1, x);
    ghost var s2 := St(a, b, c, d);
    a := op(3, a, b, c, d, x[8], 6, 0x6fa87e4f);
    d := op(3, d, a, b, c, x[15], 10, 0xfe2ce6e0);
    c := op(3, c, d, a, b, x[6], 15, 0xa3014314);
    b := op(3, b, c, d, a, x[13], 21, 0x4e0811a1);
    assert St(a, b, c, d) == Four(op, 56, s2, x);
    ghost var s3 := St(a, b, c, d);
    a := op(3, a, b, c, d, x[4], 6, 0xf7537e82);
    d := op(3, d, a, b, c, x[11], 10, 0xbd3af235);
    c := op(3, c, d, a, b, x[2], 15, 0x2ad7d2bb);
    b := op(3, b, c, d, a, x[9], 21, 0xeb86d391);
    assert St(a, b, c, d) == Four(op, 60, s3, x);
    FourFours(op, 48, st, x);
    r := St(a, b, c, d);
  }

  // ---- blocks ----

  /** Decode */
  function Words(block: seq<Octet>): (x: seq<Word>)
    requires |block| % 4 == 0
    ensures |x| == |block| / 4
    decreases |block|
  {
    if block == [] then [] else [Word4(block[..4])] + Words(block[4..])
  }

  /** Encode */
  function Bytes(ws: seq<Word>): (b: seq<Octet>)
    ensures |b| == 4 * |ws|
  {
    if ws == [] then [] else Bytes4(ws[0]) + Bytes(ws[1..])
  }

  const BLOCK: nat := 64

  function Sum(s: St, t: St): St { St(Add(s.a, t.a), Add(s.b, t.b), Add(s.c, t.c), Add(s.d, t.d)) }

  /** The four rounds: each takes every word of the block once. */
  function Rounds(op: Op, st: St, x: seq<Word>): St
    requires |x| == 16
  {
    Steps(op, 0, 4 * |x|, st, x)
  }

  /** Section 3.4 on one block. */
  function Compress(op: Op, st: St, block: seq<Octet>): St
    requires |block| == BLOCK
  {
    Sum(st, Rounds(op, st, Words(block)))
  }

  /** Section 3.4 on one block, as a function value. */
  function Compressing(op: Op): (St, seq<Octet>) -> St {
    (st: St, block: seq<Octet>) => if |block| == BLOCK then Compress(op, st, block) else st
  }

  /** Whole blocks, one after the other. */
  function Fold<A, B>(f: (A, seq<B>) -> A, a: A, bytes: seq<B>): A
    requires |bytes| % BLOCK == 0
    decreases |bytes|
  {
    if bytes == [] then a else Fold(f, f(a, bytes[..BLOCK]), bytes[BLOCK..])
  }

  lemma {:induction false} FoldPush<A, B>(f: (A, seq<B>) -> A, a: A, xs: seq<B>, block: seq<B>)
    requires |xs| % BLOCK == 0 && |block| == BLOCK
    ensures |xs + block| % BLOCK == 0 && Fold(f, a, xs + block) == f(Fold(f, a, xs), block)
    decreases |xs|
  {
    if xs == [] {
      assert xs + block == block && block[..BLOCK] == block && block[BLOCK..] == [];
    } else {
      FoldPush(f, f(a, xs[..BLOCK]), xs[BLOCK..], block);
      assert (xs + block)[..BLOCK] == xs[..BLOCK] && (xs + block)[BLOCK..] == xs[BLOCK..] + block;
    }
  }

  /** Section 3.3 */
  const INIT := St(0x67452301, 0xefcdab89, 0x98badcfe, 0x10325476)

  /** `n` zero bytes. */
  function Zeros(n: nat): (z: seq<Octet>)
    ensures |z| == n && forall i :: 0 <= i < n ==> z[i] == 0
  {
    seq(n, _ => 0)
  }

  /** Section 3.1: a one bit, and zero bits up to 56 bytes modulo 64. */
  function Padding(length: nat): (p: seq<Octet>)
    ensures (length + |p|) % BLOCK == 56 && 1 <= |p| <= BLOCK
  {
    var index := length % BLOCK;
    [0x80] + Zeros(if index < 56 then 55 - index else 119 - index)
  }

  /** Section 3.2: the number of bits modulo 2^64, the low word first. */
  function Bits(length: nat): (b: seq<Octet>)
    ensures |b| == 8
  {
    var n := 8 * length % (WORD * WORD);
    Bytes([n % WORD, n / WORD])
  }

  lemma WholeBlocks(n: nat)
    requires n % BLOCK == 56
    ensures (n + 8) % BLOCK == 0
  {
  }

  function Padded(m: seq<Octet>): (p: seq<Octet>)
    ensures |p| % BLOCK == 0
  {
    var n := |m| + |Padding(|m|)|;
    assert n % BLOCK == 56;
    WholeBlocks(n);
    m + Padding(|m|) + Bits(|m|)
  }

  /** Section 3.5 */
  function Output(st: St): (b: seq<Octet>)
    ensures |b| == 16
  {
    Bytes([st.a, st.b, st.c, st.d])
  }

  function Digest(op: Op, m: seq<Octet>): (b: seq<Octet>)
    ensures |b| == 16
  {
    Output(Fold(Compressing(op), INIT, Padded(m)))
  }

  // ---- the count of bits ----

  /** count[1] and count[0] hold 8 times the length modulo 2^64. */
  predicate Counts(lo: Word, hi: Word, length: nat) {
    hi * WORD + lo == 8 * length % (WORD * WORD)
  }

  lemma CountIndex(lo: Word, hi: Word, length: nat)
    requires Counts(lo, hi, length)
    ensures lo / 8 % BLOCK == length % BLOCK
  {
    var q := 8 * length / (WORD * WORD);
    var r := WORD / 8 * (q * WORD + hi);
    assert 8 * length == (WORD * WORD) * q + (hi * WORD + lo);
    assert lo == 8 * (length - r);
    assert length == lo / 8 + BLOCK * (WORD / 512 * (q * WORD + hi));
  }

  /** The words of the count after `n` more bytes: the carry of the low word, and what shifting `n` by three loses. */
  function LowCount(lo: Word, n: nat): Word { Add(lo, 8 * n % WORD) }

  function HighCount(lo: Word, hi: Word, n: nat): Word {
    Add(Add(hi, if LowCount(lo, n) < 8 * n % WORD then 1 else 0), n / 0x2000_0000)
  }

  lemma CountMore(lo: Word, hi: Word, length: nat, n: nat)
    requires Counts(lo, hi, length) && n < WORD
    ensures Counts(LowCount(lo, n), HighCount(lo, hi, n), length + n)
  {
    var low := 8 * n % WORD;
    var top := n / 0x2000_0000;
    assert 8 * n == top * WORD + low;
    var c := if lo + low >= WORD then 1 else 0;
    assert LowCount(lo, n) == lo + low - c * WORD;
    assert LowCount(lo, n) < low <==> c == 1;
    var sum := hi + c + top;
    assert HighCount(lo, hi, n) == sum % WORD by { ModAdd(hi + c, top); }
    var q := 8 * length / (WORD * WORD);
    assert 8 * (length + n) == WORD * WORD * q + sum * WORD + LowCount(lo, n);
    ModHigh(q, sum, LowCount(lo, n));
  }

  lemma ModAdd(a: nat, b: nat)
    ensures (a % WORD + b) % WORD == (a + b) % WORD
  {
  }

  lemma ModHigh(q: nat, sum: nat, lo: Word)
    ensures (WORD * WORD * q + sum * WORD + lo) % (WORD * WORD) == sum % WORD * WORD + lo
  {
    var t := q + sum / WORD;
    var r := sum % WORD * WORD + lo;
    assert WORD * WORD * q + sum * WORD + lo == WORD * WORD * t + r && r < WORD * WORD;
    ModUnique(WORD * WORD, t, r);
  }

  lemma AwayFromZero(m: nat, k: int)
    ensures k >= 1 ==> m * k >= m
    ensures k <= -1 ==> m * k <= 0 - m
  {
  }

  lemma ModUnique(m: nat, t: nat, r: nat)
    requires r < m
    ensures (m * t + r) % m == r
  {
    var x := m * t + r;
    AwayFromZero(m, x / m - t);
    assert x == m * (x / m) + x % m;
    assert m * (x / m - t) == r - x % m;
  }

  lemma WholeAt(n: nat, p: nat)
    requires p <= n < p + BLOCK && p % BLOCK == 0
    ensures n % BLOCK == n - p
  {
    assert p == BLOCK * (p / BLOCK);
    ModUnique(BLOCK, p / BLOCK, n - p);
  }

  lemma FoldMore<A, B>(f: (A, seq<B>) -> A, a: A, all: seq<B>, p: nat)
    requires p % BLOCK == 0 && p + BLOCK <= |all|
    ensures (p + BLOCK) % BLOCK == 0 && Fold(f, a, all[..p + BLOCK]) == f(Fold(f, a, all[..p]), all[p..p + BLOCK])
  {
    assert all[..p + BLOCK] == all[..p] + all[p..p + BLOCK];
    FoldPush(f, a, all[..p], all[p..p + BLOCK]);
  }

  predicate Fits(n: nat, length: nat) { n % BLOCK == 0 && n + BLOCK <= length }

  /** The function gives what Fold makes of each number of blocks. */
  ghost predicate Chains<A, B>(f: (A, seq<B>) -> A, h: nat -> A, all: seq<B>) {
    forall n: nat {:trigger Fits(n, |all|)} :: Fits(n, |all|) ==> h(n + BLOCK) == f(h(n), all[n..n + BLOCK])
  }

  ghost function Prefixes<A, B>(f: (A, seq<B>) -> A, a: A, all: seq<B>): nat -> A {
    (n: nat) => if n <= |all| && n % BLOCK == 0 then Fold(f, a, all[..n]) else a
  }

  lemma PrefixesChain<A, B>(f: (A, seq<B>) -> A, a: A, all: seq<B>)
    ensures Chains(f, Prefixes(f, a, all), all)
  {
    forall n: nat | Fits(n, |all|)
      ensures Prefixes(f, a, all)(n + BLOCK) == f(Prefixes(f, a, all)(n), all[n..n + BLOCK]) {
      FoldMore(f, a, all, n);
    }
  }

  /** Such a function, which agrees with what was hashed before. */
  lemma HashOf<A, B>(f: (A, seq<B>) -> A, a: A, done: seq<B>, data: seq<B>, p: nat) returns (h: nat -> A)
    requires p <= |done| && p % BLOCK == 0
    ensures Chains(f, h, done + data) && h(p) == Fold(f, a, done[..p])
    ensures forall n: nat {:trigger h(n)} ::
      n <= |done + data| && n % BLOCK == 0 ==> h(n) == Fold(f, a, (done + data)[..n])
  {
    h := Prefixes(f, a, done + data);
    PrefixesChain(f, a, done + data);
    assert (done + data)[..p] == done[..p];
  }

  lemma SliceOf<B>(all: seq<B>, from: nat, data: seq<B>, i: nat, j: nat)
    requires from + |data| == |all| && all[from..] == data && i <= j <= |data|
    ensures data[i..j] == all[from + i..from + j]
  {
  }

  lemma RestOf<B>(done: seq<B>, data: seq<B>, i: nat)
    requires i <= |data|
    ensures (done + data)[|done| + i..] == data[i..]
  {
  }

  /** The block that begins with the end of `done` and ends with the beginning of `data`. */
  lemma Joined<B>(done: seq<B>, p: nat, data: seq<B>, n: nat)
    requires p <= |done| && n <= |data|
    ensures var all := done + data;
      all[p..|done| + n] == done[p..] + data[..n] && all[..p] == done[..p] && all[|done|..] == data
  {
  }

  // ---- the context ----

  /** MD5_memcpy */
  method Copy(output: array<Octet>, at: nat, input: seq<Octet>)
    requires at + |input| <= output.Length
    modifies output
    ensures output[at..at + |input|] == input
    ensures forall j :: 0 <= j < output.Length && !(at <= j < at + |input|) ==> output[j] == old(output[j])
  {
    var i := 0;
    while i < |input|
      invariant i <= |input| && output[at..at + i] == input[..i]
      invariant forall j :: 0 <= j < output.Length && !(at <= j < at + i) ==> output[j] == old(output[j])
    {
      output[at + i] := input[i];
      i := i + 1;
    }
    assert input[..|input|] == input;
  }

  lemma {:induction false} WordsPush(xs: seq<Octet>, y: seq<Octet>)
    requires |xs| % 4 == 0 && |y| == 4
    ensures |xs + y| % 4 == 0 && Words(xs + y) == Words(xs) + [Word4(y)]
    decreases |xs|
  {
    if xs == [] {
      assert xs + y == y && y[..4] == y && y[4..] == [];
    } else {
      WordsPush(xs[4..], y);
      assert (xs + y)[..4] == xs[..4] && (xs + y)[4..] == xs[4..] + y;
    }
  }

  /** Decode */
  method Decode(input: seq<Octet>) returns (output: array<Word>)
    requires |input| % 4 == 0
    ensures fresh(output) && output[..] == Words(input)
  {
    output := new Word[|input| / 4](_ => 0);
    var i := 0;
    while 4 * i < |input|
      invariant 4 * i <= |input| && output[..i] == Words(input[..4 * i])
    {
      output[i] := Word4(input[4 * i..4 * i + 4]);
      assert input[..4 * i + 4] == input[..4 * i] + input[4 * i..4 * i + 4];
      WordsPush(input[..4 * i], input[4 * i..4 * i + 4]);
      i := i + 1;
    }
    assert input[..4 * i] == input && output[..i] == output[..];
  }

  lemma {:induction false} BytesPush(ws: seq<Word>, w: Word)
    ensures Bytes(ws + [w]) == Bytes(ws) + Bytes4(w)
  {
    if ws == [] {
      assert ws + [w] == [w] && [w][1..] == [];
    } else {
      BytesPush(ws[1..], w);
      assert (ws + [w])[1..] == ws[1..] + [w];
    }
  }

  method PutWord(output: array<Octet>, j: nat, w: Word)
    requires j + 4 <= output.Length
    modifies output
    ensures output[j..j + 4] == Bytes4(w) && output[..j] == old(output[..j])
  {
    output[j] := w % 0x100;
    output[j + 1] := w / 0x100 % 0x100;
    output[j + 2] := w / 0x1_0000 % 0x100;
    output[j + 3] := w / 0x100_0000 % 0x100;
  }

  /** Encode */
  method Encode(input: seq<Word>) returns (output: array<Octet>)
    ensures fresh(output) && output[..] == Bytes(input)
  {
    output := new Octet[4 * |input|](_ => 0);
    var i, j := 0, 0;
    while i < |input|
      invariant i <= |input| && j == 4 * i && output[..j] == Bytes(input[..i])
    {
      assert input[..i + 1] == input[..i] + [input[i]];
      BytesPush(input[..i], input[i]);
      PutWord(output, j, input[i]);
      assert output[..j + 4] == output[..j] + output[j..j + 4];
      i, j := i + 1, j + 4;
    }
    assert input[..i] == input && output[..j] == output[..];
  }

  /** MD5_CTX */
  class Context {
    const op: Op
    const state: array<Word>
    const count: array<Word>
    const buffer: array<Octet>
    ghost var input: seq<Octet>          // everything hashed so far
    ghost var whole: nat                 // how much of it is in whole blocks

    ghost predicate Shape() {
      state.Length == 4 && count.Length == 2 && buffer.Length == BLOCK && state != count
    }

    function State(): St
      requires Shape()
      reads state
    {
      St(state[0], state[1], state[2], state[3])
    }

    /** `all` is hashed up to `p`, the rest is in the buffer. */
    ghost predicate Holds(all: seq<Octet>, p: nat)
      requires Shape()
      reads state, buffer
    {
      && p <= |all| < p + BLOCK && p % BLOCK == 0
      && State() == Fold(Compressing(op), INIT, all[..p]) && buffer[..|all| - p] == all[p..]
    }

    ghost predicate Valid()
      reads this, state, count, buffer
    {
      Shape() && Counts(count[0], count[1], |input|) && Holds(input, whole)
    }

    /** MD5Init */
    constructor (op: Op)
      ensures Valid() && input == [] && this.op == op && fresh(state) && fresh(count) && fresh(buffer)
    {
      this.op := op;
      state := new Word[4][0x67452301, 0xefcdab89, 0x98badcfe, 0x10325476];
      count := new Word[2][0, 0];
      buffer := new Octet[BLOCK](_ => 0);
      input, whole := [], 0;
    }

    /** The four rounds. */
    method FourRounds(st: St, x: seq<Word>) returns (r: St)
      requires |x| == 16
      ensures r == Rounds(op, st, x)
    {
      r := Round1(op, st, x);
      r := Round2(op, r, x);
      r := Round3(op, r, x);
      r := Round4(op, r, x);
      AllSteps(op, st, x);
    }

    /** MD5Transform */
    method Transform(block: seq<Octet>)
      requires Shape() && |block| == BLOCK
      modifies state
      ensures State() == Compressing(op)(old(State()), block)
    {
      var x := Decode(block);
      var r := FourRounds(State(), x[..]);
      state[0], state[1], state[2], state[3] :=
        Add(state[0], r.a), Add(state[1], r.b), Add(state[2], r.c), Add(state[3], r.d);
    }

    /** Update the number of bits: the low word carries into the high one. */
    method AddCount(n: nat)
      requires Shape() && n < WORD
      modifies count
      ensures count[0] == LowCount(old(count[0]), n) && count[1] == HighCount(old(count[0]), old(count[1]), n)
    {
      var bits := 8 * n % WORD;
      count[0] := Add(count[0], bits);
      if count[0] < bits {
        count[1] := Add(count[1], 1);
      }
      count[1] := Add(count[1], n / 0x2000_0000);
    }

    method OneBlock(data: seq<Octet>, i: nat, ghost all: seq<Octet>, ghost from: nat, ghost h: nat -> St)
      requires Shape() && from + |data| == |all| && all[from..] == data && Chains(Compressing(op), h, all)
      requires i + BLOCK <= |data| && (from + i) % BLOCK == 0 && State() == h(from + i)
      modifies state
      ensures State() == h(from + i + BLOCK)
    {
      SliceOf(all, from, data, i, i + BLOCK);
      assert Fits(from + i, |all|);
      Transform(data[i..i + BLOCK]);
    }

    /** Transform whole blocks of `data` from `start` on; `all` is the whole input, in which the data begins at
        `from`. */
    method Blocks(data: seq<Octet>, start: nat, ghost all: seq<Octet>, ghost from: nat, ghost h: nat -> St)
      returns (i: nat)
      requires Shape() && from + |data| == |all| && all[from..] == data && Chains(Compressing(op), h, all)
      requires start <= |data| && (from + start) % BLOCK == 0 && State() == h(from + start)
      modifies state
      ensures start <= i <= |data| && |data| < i + BLOCK && (from + i) % BLOCK == 0
      ensures State() == h(from + i)
    {
      i := start;
      while i + 63 < |data|
        invariant start <= i <= |data| && (from + i) % BLOCK == 0 && State() == h(from + i)
      {
        OneBlock(data, i, all, from, h);
        i := i + BLOCK;
      }
    }

    method FillBuffer(ghost done: seq<Octet>, ghost p: nat, data: seq<Octet>, index: nat)
      requires Shape() && p <= |done| < p + BLOCK && buffer[..|done| - p] == done[p..] && index == |done| - p
      requires |data| >= BLOCK - index
      modifies buffer
      ensures buffer[..] == done[p..] + data[..BLOCK - index]
    {
      Copy(buffer, index, data[..BLOCK - index]);
      assert buffer[..] == buffer[..index] + buffer[index..BLOCK];
    }

    method BufferBlock(ghost done: seq<Octet>, ghost p: nat, data: seq<Octet>, index: nat, ghost h: nat -> St)
      requires Shape() && p <= |done| < p + BLOCK && buffer[..|done| - p] == done[p..] && index == |done| - p
      requires |data| >= BLOCK - index
      requires Chains(Compressing(op), h, done + data) && p % BLOCK == 0 && State() == h(p)
      modifies state, buffer
      ensures State() == h(p + BLOCK)
    {
      Joined(done, p, data, BLOCK - index);
      assert Fits(p, |done + data|);
      FillBuffer(done, p, data, index);
      Transform(buffer[..]);
    }

    /** Fill the buffer, and transform it and the whole blocks that follow. `done` is what was hashed before. */
    method FirstBlocks(ghost done: seq<Octet>, ghost p: nat, data: seq<Octet>, index: nat, ghost h: nat -> St)
      returns (i: nat)
      requires Shape() && p <= |done| < p + BLOCK && buffer[..|done| - p] == done[p..] && index == |done| - p
      requires |data| >= BLOCK - index
      requires Chains(Compressing(op), h, done + data) && p % BLOCK == 0 && State() == h(p)
      modifies state, buffer
      ensures i <= |data| && |data| < i + BLOCK && (|done| + i) % BLOCK == 0 && State() == h(|done| + i)
    {
      BufferBlock(done, p, data, index, h);
      assert (done + data)[|done|..] == data;
      i := Blocks(data, BLOCK - index, done + data, |done|, h);
    }

    /** The data after the whole blocks goes into the buffer. */
    method KeepRest(data: seq<Octet>, i: nat, index: nat, ghost all: seq<Octet>, ghost p: nat)
      requires Shape() && i <= |data| && p + index <= |all| < p + BLOCK && p % BLOCK == 0
      requires State() == Fold(Compressing(op), INIT, all[..p])
      requires buffer[..index] == all[p..p + index] && all[p + index..] == data[i..]
      modifies buffer
      ensures Holds(all, p)
    {
      Copy(buffer, index, data[i..]);
      ghost var n := |all| - p;
      assert n == index + |data[i..]|;
      assert buffer[..n] == buffer[..index] + buffer[index..n];
      assert all[p..] == all[p..p + index] + all[p + index..];
    }

    method HashBlocks(data: seq<Octet>, index: nat, ghost done: seq<Octet>, ghost p: nat) returns (i: nat)
      requires Shape() && Holds(done, p) && index == |done| - p && |data| >= BLOCK - index
      modifies state, buffer
      ensures i <= |data| && |data| < i + BLOCK && (|done| + i) % BLOCK == 0
      ensures State() == Fold(Compressing(op), INIT, (done + data)[..|done| + i])
    {
      ghost var h := HashOf(Compressing(op), INIT, done, data, p);
      i := FirstBlocks(done, p, data, index, h);
    }

    /** `q` is where the data that is not hashed begins. */
    method HashUpTo(data: seq<Octet>, index: nat, ghost done: seq<Octet>, ghost p: nat)
      returns (i: nat, ghost q: nat)
      requires Shape() && Holds(done, p) && index == |done| - p && |data| >= BLOCK - index
      modifies state, buffer
      ensures i <= |data| && q <= |done + data| < q + BLOCK && q % BLOCK == 0
      ensures State() == Fold(Compressing(op), INIT, (done + data)[..q]) && (done + data)[q..] == data[i..]
    {
      i := HashBlocks(data, index, done, p);
      q := |done| + i;
      RestOf(done, data, i);
    }

    /** MD5Update with enough data for a block. */
    method AbsorbBlocks(data: seq<Octet>, index: nat, ghost done: seq<Octet>, ghost p: nat) returns (ghost q: nat)
      requires Shape() && Holds(done, p) && index == |done| - p && |data| >= BLOCK - index
      modifies state, buffer
      ensures Holds(done + data, q)
    {
      var i;
      i, q := HashUpTo(data, index, done, p);
      KeepRest(data, i, 0, done + data, q);
    }

    method AbsorbLittle(data: seq<Octet>, index: nat, ghost done: seq<Octet>, ghost p: nat)
      requires Shape() && Holds(done, p) && index == |done| - p && |data| < BLOCK - index
      modifies buffer
      ensures Holds(done + data, p)
    {
      ghost var all := done + data;
      assert all[..p] == done[..p] && all[p..p + index] == done[p..] && all[p + index..] == data[0..];
      KeepRest(data, 0, index, all, p);
    }

    /** What MD5Update does with the data. */
    method Absorb(data: seq<Octet>, index: nat, ghost done: seq<Octet>, ghost p: nat) returns (ghost q: nat)
      requires Shape() && Holds(done, p) && index == |done| - p
      modifies state, buffer
      ensures Holds(done + data, q)
    {
      if |data| >= BLOCK - index {
        q := AbsorbBlocks(data, index, done, p);
      } else {
        q := p;
        AbsorbLittle(data, index, done, p);
      }
    }

    /** The index in the buffer is read off the old count, and the new count belongs to the longer input. */
    lemma Counted(lo: Word, hi: Word, length: nat, p: nat, n: nat)
      requires Counts(lo, hi, length) && n < WORD && p <= length < p + BLOCK && p % BLOCK == 0
      ensures lo / 8 % BLOCK == length - p && Counts(LowCount(lo, n), HighCount(lo, hi, n), length + n)
    {
      CountIndex(lo, hi, length);
      WholeAt(length, p);
      CountMore(lo, hi, length, n);
    }

    /** Where the buffer ends, and the count of the longer input. */
    method Advance(n: nat, ghost all: seq<Octet>) returns (index: nat)
      requires Valid() && n < WORD && |all| == |input| + n
      modifies count
      ensures Shape() && Counts(count[0], count[1], |all|) && Holds(input, whole) && index == |input| - whole
    {
      Counted(count[0], count[1], |input|, whole, n);
      index := count[0] / 8 % BLOCK;
      AddCount(n);
    }

    method CountAndAbsorb(data: seq<Octet>) returns (ghost q: nat)
      requires Valid() && |data| < WORD
      modifies state, count, buffer
      ensures Counts(count[0], count[1], |input + data|) && Holds(input + data, q)
    {
      ghost var all := input + data;
      var index := Advance(|data|, all);
      q := Absorb(data, index, input, whole);
    }

    /** MD5Update */
    method Update(data: seq<Octet>)
      requires Valid() && |data| < WORD
      modifies this`input, this`whole, state, count, buffer
      ensures Valid() && input == old(input) + data
    {
      ghost var q := CountAndAbsorb(data);
      input, whole := input + data, q;
    }

    /** MD5_memset, over the whole context. */
    method Wipe()
      requires Shape()
      modifies state, count, buffer
      ensures (forall i :: 0 <= i < 4 ==> state[i] == 0) && count[0] == count[1] == 0
      ensures forall i :: 0 <= i < BLOCK ==> buffer[i] == 0
    {
      forall i | 0 <= i < 4 { state[i] := 0; }
      count[0], count[1] := 0, 0;
      forall i | 0 <= i < BLOCK { buffer[i] := 0; }
    }

    /** Pad the input, and append the length that it had. */
    method Pad()
      requires Valid()
      modifies this`input, this`whole, state, count, buffer
      ensures Valid() && input == Padded(old(input))
    {
      ghost var m := input;
      CountIndex(count[0], count[1], |m|);
      BitsAre(count[0], count[1], |m|);
      var bits := Encode([count[0], count[1]]);
      var index := count[0] / 8 % BLOCK;
      var padLen := if index < 56 then 56 - index else 120 - index;
      assert PADDING[..padLen] == Padding(|m|);
      Update(PADDING[..padLen]);
      Update(bits[..]);
    }

    /** MD5Final */
    method Final() returns (digest: array<Octet>)
      requires Valid()
      modifies this`input, this`whole, state, count, buffer
      ensures fresh(digest) && digest[..] == Digest(op, old(input))
    {
      Pad();
      WholeAt(|input|, whole);
      assert input[..|input|] == input;
      digest := Encode([state[0], state[1], state[2], state[3]]);
      Wipe();
    }
  }

  const PADDING: seq<Octet> := [0x80] + Zeros(63)

  lemma BitsAre(lo: Word, hi: Word, length: nat)
    requires Counts(lo, hi, length)
    ensures Bytes([lo, hi]) == Bits(length)
  {
    var n := 8 * length % (WORD * WORD);
    assert n % WORD == lo && n / WORD == hi;
  }

  /** The digest of RFC 1321. */
  function Md5Sum(m: seq<Octet>): seq<Octet> { Digest(Operation, m) }

  // ---- any split of the input ----

  function Concat(parts: seq<seq<Octet>>): seq<Octet> {
    if parts == [] then [] else parts[0] + Concat(parts[1..])
  }

  lemma {:induction false} ConcatPush(parts: seq<seq<Octet>>, part: seq<Octet>)
    ensures Concat(parts + [part]) == Concat(parts) + part
  {
    if parts == [] {
      assert [part][1..] == [] && part + [] == part && parts + [part] == [part];
    } else {
      ConcatPush(parts[1..], part);
      assert (parts + [part])[1..] == parts[1..] + [part];
    }
  }

  lemma ConcatNext(parts: seq<seq<Octet>>, i: nat)
    requires i < |parts|
    ensures Concat(parts[..i + 1]) == Concat(parts[..i]) + parts[i]
  {
    assert parts[..i + 1] == parts[..i] + [parts[i]];
    ConcatPush(parts[..i], parts[i]);
  }

  /** However the input is split among the calls of MD5Update, the digest is that of the whole. */
  method Hash(op: Op, parts: seq<seq<Octet>>) returns (digest: array<Octet>)
    requires forall p :: p in parts ==> |p| < WORD
    ensures fresh(digest) && digest[..] == Digest(op, Concat(parts))
  {
    var c := new Context(op);
    var i := 0;
    while i < |parts|
      invariant i <= |parts| && c.op == op && c.Valid() && c.input == Concat(parts[..i])
      invariant fresh(c) && fresh(c.state) && fresh(c.count) && fresh(c.buffer)
    {
      ConcatNext(parts, i);
      c.Update(parts[i]);
      i := i + 1;
    }
    assert parts[..i] == parts;
    digest := c.Final();
  }

  /** The same for the operations of MD5 themselves. */
  method Md5Of(parts: seq<seq<Octet>>) returns (digest: array<Octet>)
    requires forall p :: p in parts ==> |p| < WORD
    ensures fresh(digest) && digest[..] == Md5Sum(Concat(parts))
  {
    digest := Hash(Operation, parts);
  }

  // ---- HMAC ----

  function XorOctet(x: Octet, p: Octet): Octet { ((x as bv8) ^ (p as bv8)) as nat }

  type Mix = (Octet, Octet) -> Octet

  const IPAD: Octet := 0x36
  const OPAD: Octet := 0x5c

  function Each(mix: Mix, k: seq<Octet>, p: Octet): (r: seq<Octet>)
    ensures |r| == |k| && forall i :: 0 <= i < |k| ==> r[i] == mix(k[i], p)
  {
    seq(|k|, i requires 0 <= i < |k| => mix(k[i], p))
  }

  /** Section 2 of RFC 2104: the key of 64 bytes. */
  function Key(op: Op, key: seq<Octet>): (k: seq<Octet>)
    ensures |k| == BLOCK
  {
    var k := if |key| > BLOCK then Digest(op, key) else key;
    k + Zeros(BLOCK - |k|)
  }

  /** Section 2 of RFC 2104 */
  function Hmac(op: Op, mix: Mix, text: seq<Octet>, key: seq<Octet>): seq<Octet> {
    var k := Key(op, key);
    Digest(op, Each(mix, k, OPAD) + Digest(op, Each(mix, k, IPAD) + text))
  }

  function HmacSum(text: seq<Octet>, key: seq<Octet>): seq<Octet> { Hmac(Operation, XorOctet, text, key) }

  /** One of the two passes. */
  method Pass(op: Op, pad: seq<Octet>, data: seq<Octet>) returns (digest: array<Octet>)
    requires |pad| < WORD && |data| < WORD
    ensures fresh(digest) && digest[..] == Digest(op, pad + data)
  {
    var c := new Context(op);
    c.Update(pad);
    assert c.input == pad;
    c.Update(data);
    digest := c.Final();
  }

  /** The pads: the key, zeros, and the exclusive or with a byte. */
  method MakePad(mix: Mix, key: seq<Octet>, with: Octet) returns (pad: array<Octet>)
    requires |key| <= BLOCK
    ensures fresh(pad) && pad[..] == Each(mix, key + Zeros(BLOCK - |key|), with)
  {
    pad := new Octet[BLOCK](_ => 0);
    Copy(pad, 0, key);
    assert pad[..] == key + Zeros(BLOCK - |key|) by { assert pad[..|key|] == pad[0..0 + |key|]; }
    ghost var k := pad[..];
    var i := 0;
    while i < BLOCK
      invariant i <= BLOCK
      invariant forall j :: 0 <= j < i ==> pad[j] == mix(k[j], with)
      invariant forall j :: i <= j < BLOCK ==> pad[j] == k[j]
    {
      pad[i] := mix(pad[i], with);
      i := i + 1;
    }
  }

  /** hmac_md5 */
  method HmacMd5(op: Op, mix: Mix, text: seq<Octet>, key: seq<Octet>) returns (digest: array<Octet>)
    requires |text| < WORD && |key| < WORD
    ensures fresh(digest) && digest[..] == Hmac(op, mix, text, key)
  {
    var k := key;
    if |k| > BLOCK {
      var c := new Context(op);
      c.Update(key);
      assert [] + key == key;
      var tk := c.Final();
      k := tk[..];
    }
    var ipad := MakePad(mix, k, IPAD);
    var opad := MakePad(mix, k, OPAD);
    var inner := Pass(op, ipad[..], text);
    digest := Pass(op, opad[..], inner[..]);
  }

  /** hmac_md5 for the operations of MD5 and the exclusive or. */
  method HmacOf(text: seq<Octet>, key: seq<Octet>) returns (digest: array<Octet>)
    requires |text| < WORD && |key| < WORD
    ensures fresh(digest) && digest[..] == HmacSum(text, key)
  {
    digest := HmacMd5(Operation, XorOctet, text, key);
  }

  lemma {:induction false} StepsSplit(op: Op, i: nat, m: nat, n: nat, st: St, x: seq<Word>)
    requires |x| == 16
    ensures Steps(op, i, m + n, st, x) == Steps(op, i + m, n, Steps(op, i, m, st, x), x)
    decreases m
  {
    if m > 0 {
      StepsSplit(op, i + 1, m - 1, n, StepAt(op, i, st, x), x);
    }
  }

  lemma AllSteps(op: Op, st: St, x: seq<Word>)
    requires |x| == 16
    ensures Steps(op, 0, 64, st, x) ==
      Steps(op, 48, 16, Steps(op, 32, 16, Steps(op, 16, 16, Steps(op, 0, 16, st, x), x), x), x)
  {
    StepsSplit(op, 0, 16, 48, st, x);
    var s1 := Steps(op, 0, 16, st, x);
    StepsSplit(op, 16, 16, 32, s1, x);
    StepsSplit(op, 32, 16, 16, Steps(op, 16, 16, s1, x), x);
  }
}
