/** Frames on the wire: what two peers write and read, block by block, in clear text up to the end of the login and as
    one encrypted stream after it. */
module Wire {
  import opened Options
  import opened Frames
  import C = StreamCipher
  import Octets

  const MAX_BLKSIZE: nat := 0x7fff
  const BLK_HDR_SIZE: nat := 2

  /** A message (its command byte first) or a data block. */
  datatype Block = Block(msg: bool, body: seq<Byte>)

  // ---- headers ----

  /** mkhdr: the size, with the top bit set for a message. */
  function Mark(size: nat, msg: bool): nat { if msg && size / 0x8000 % 2 == 0 then size + 0x8000 else size }

  function High(u: nat): Byte { (u / 0x100 % 0x100) as Byte }

  function LowByte(u: nat): Byte { (u % 0x100) as Byte }

  function Header(size: nat, msg: bool): (h: seq<Byte>)
    ensures |h| == BLK_HDR_SIZE
  {
    [High(Mark(size, msg)), LowByte(Mark(size, msg))]
  }

  predicate IsMsg(high: Byte) { high as nat / 0x80 == 1 }

  function SizeOf(high: Byte, low: Byte): nat { high as nat % 0x80 * 0x100 + low as nat }

  lemma Digits(size: nat, msg: bool)
    requires size <= MAX_BLKSIZE
    ensures var u := Mark(size, msg);
      && (u / 0x100 % 0x100 / 0x80 == 1 <==> msg)
      && u / 0x100 % 0x100 % 0x80 * 0x100 + u % 0x100 == size
  {
  }

  lemma HeaderBack(size: nat, msg: bool)
    requires size <= MAX_BLKSIZE
    ensures var h := Header(size, msg); IsMsg(h[0]) == msg && SizeOf(h[0], h[1]) == size
  {
    var u := Mark(size, msg);
    Digits(size, msg);
    Octets.ByteBack(u / 0x100 % 0x100);
    Octets.ByteBack(u % 0x100);
  }

  function Encode(b: Block): seq<Byte> { Header(|b.body|, b.msg) + b.body }

  function Flat(bs: seq<Block>): seq<Byte> {
    if bs == [] then [] else Encode(bs[0]) + Flat(bs[1..])
  }

  lemma {:induction false} FlatSplit(xs: seq<Block>, ys: seq<Block>)
    ensures Flat(xs + ys) == Flat(xs) + Flat(ys)
  {
    if xs == [] {
      assert xs + ys == ys;
    } else {
      FlatSplit(xs[1..], ys);
      assert (xs + ys)[1..] == xs[1..] + ys;
    }
  }

  /** What is on the wire: the first `login` blocks in clear text, the others encrypted under one key stream. */
  function Coded<K>(c: C.Cipher<K, Byte>, k: K, login: nat, bs: seq<Block>): seq<Byte> {
    if |bs| <= login then Flat(bs) else Flat(bs[..login]) + C.Encrypt(c, k, Flat(bs[login..]))
  }

  lemma FlatPush(bs: seq<Block>, b: Block)
    ensures Flat(bs + [b]) == Flat(bs) + Encode(b)
  {
    FlatSplit(bs, [b]);
    assert [b][1..] == [] && Encode(b) + [] == Encode(b);
  }

  lemma EncryptPush<K>(c: C.Cipher<K, Byte>, k: K, bs: seq<Block>, b: Block)
    ensures var keys := C.After(c, k, Flat(bs));
      && C.Encrypt(c, k, Flat(bs + [b])) == C.Encrypt(c, k, Flat(bs)) + C.Encrypt(c, keys, Encode(b))
      && C.After(c, k, Flat(bs + [b])) == C.After(c, keys, Encode(b))
  {
    FlatPush(bs, b);
    C.EncryptSplit(c, k, Flat(bs), Encode(b));
    C.AfterSplit(c, k, Flat(bs), Encode(b));
  }

  lemma PushSlices<T>(bs: seq<T>, b: T, n: nat)
    requires n <= |bs|
    ensures (bs + [b])[n..] == bs[n..] + [b] && (bs + [b])[..n] == bs[..n]
  {
  }

  lemma CodedIs<K>(c: C.Cipher<K, Byte>, k: K, login: nat, bs: seq<Block>)
    requires |bs| >= login
    ensures Coded(c, k, login, bs) == Flat(bs[..login]) + C.Encrypt(c, k, Flat(bs[login..]))
  {
    if |bs| == login {
      assert bs[..login] == bs && bs[login..] == [];
      assert Flat(bs) + [] == Flat(bs);
    }
  }

  lemma CodedPush<K>(c: C.Cipher<K, Byte>, k: K, login: nat, bs: seq<Block>, b: Block)
    ensures |bs| < login ==> Coded(c, k, login, bs + [b]) == Coded(c, k, login, bs) + Encode(b)
    ensures |bs| >= login ==>
      Coded(c, k, login, bs + [b]) == Coded(c, k, login, bs) + C.Encrypt(c, C.After(c, k, Flat(bs[login..])), Encode(b))
    ensures |bs| >= login ==>
      C.After(c, k, Flat((bs + [b])[login..])) ==
      C.After(c, C.After(c, k, Flat(bs[login..])), Encode(b))
  {
    if |bs| < login {
      FlatPush(bs, b);
    } else {
      CodedIs(c, k, login, bs);
      CodedIs(c, k, login, bs + [b]);
      PushSlices(bs, b, login);
      EncryptPush(c, k, bs[login..], b);
    }
  }

  // ---- the receiver, byte by byte ----

  datatype Rx<K> = Rx(
    got: seq<Block>,                     // blocks delivered
    part: seq<Byte>,                     // clear text of the block, or of the header, so far
    size: Option<(bool, nat)>,           // the header, once it is complete
    crypt: bool, k: K)

  /** A block is complete; after the block that ends the login the rest is encrypted. */
  function Deliver<K>(login: nat, k0: K, rx: Rx<K>, b: Block): Rx<K> {
    var got := rx.got + [b];
    if |got| == login then Rx(got, [], None, true, k0) else Rx(got, [], None, rx.crypt, rx.k)
  }

  function Complete<K>(login: nat, k0: K, rx: Rx<K>): Rx<K> {
    if rx.size.None? then
      if |rx.part| != BLK_HDR_SIZE then rx
      else
        var msg, n := IsMsg(rx.part[0]), SizeOf(rx.part[0], rx.part[1]);
        if n == 0 then Deliver(login, k0, rx, Block(msg, [])) else rx.(part := [], size := Some((msg, n)))
    else if |rx.part| == rx.size.value.1 then Deliver(login, k0, rx, Block(rx.size.value.0, rx.part))
    else rx
  }

  function Clear<K>(c: C.Cipher<K, Byte>, rx: Rx<K>, y: Byte): Rx<K> {
    if rx.crypt then
      var x := c.mix(y, c.pad(rx.k));
      rx.(part := rx.part + [x], k := c.up(rx.k, x))
    else rx.(part := rx.part + [y])
  }

  function Feed<K>(c: C.Cipher<K, Byte>, login: nat, k0: K, rx: Rx<K>, ys: seq<Byte>): Rx<K>
    decreases |ys|
  {
    if ys == [] then rx else Feed(c, login, k0, Complete(login, k0, Clear(c, rx, ys[0])), ys[1..])
  }

  /** However the reads split the stream, the receiver ends up alike. */
  lemma {:induction false} FeedSplit<K>(c: C.Cipher<K, Byte>, login: nat, k0: K, rx: Rx<K>, xs: seq<Byte>,
      ys: seq<Byte>)
    ensures Feed(c, login, k0, rx, xs + ys) == Feed(c, login, k0, Feed(c, login, k0, rx, xs), ys)
    decreases |xs|
  {
    if xs == [] {
      assert xs + ys == ys;
    } else {
      FeedSplit(c, login, k0, Complete(login, k0, Clear(c, rx, xs[0])), xs[1..], ys);
      assert (xs + ys)[1..] == xs[1..] + ys;
    }
  }

  /** The bytes that `xs` is on the wire, for a receiver in state `rx`. */
  function OnWire<K>(c: C.Cipher<K, Byte>, rx: Rx<K>, xs: seq<Byte>): seq<Byte> {
    if rx.crypt then C.Encrypt(c, rx.k, xs) else xs
  }

  function KeyAfter<K>(c: C.Cipher<K, Byte>, rx: Rx<K>, xs: seq<Byte>): K {
    if rx.crypt then C.After(c, rx.k, xs) else rx.k
  }

  /** What is still missing before something is complete. */
  function Missing<K>(rx: Rx<K>): int {
    (if rx.size.None? then BLK_HDR_SIZE else rx.size.value.1) - |rx.part|
  }

  /** Bytes that stay within the header or the block: they are decrypted and gathered. */
  lemma {:induction false} Gather<K>(c: C.Cipher<K, Byte>, login: nat, k0: K, rx: Rx<K>, xs: seq<Byte>)
    requires C.Undoes(c) && 0 < |xs| <= Missing(rx)
    ensures Feed(c, login, k0, rx, OnWire(c, rx, xs)) ==
      Complete(login, k0, rx.(part := rx.part + xs, k := KeyAfter(c, rx, xs)))
    decreases |xs|
  {
    var ys := OnWire(c, rx, xs);
    var r1 := Clear(c, rx, ys[0]);
    assert r1.part == rx.part + [xs[0]] && (rx.crypt ==> r1.k == c.up(rx.k, xs[0]));
    if |xs| == 1 {
      assert xs == [xs[0]] && ys[1..] == [] && xs[1..] == [];
      if rx.crypt { assert C.After(c, c.up(rx.k, xs[0]), []) == c.up(rx.k, xs[0]); }
    } else {
      assert Complete(login, k0, r1) == r1;
      assert ys[1..] == OnWire(c, r1, xs[1..]);
      Gather(c, login, k0, r1, xs[1..]);
      assert rx.part + [xs[0]] + xs[1..] == rx.part + xs;
    }
  }

  /** Between blocks. */
  predicate Between<K>(rx: Rx<K>) { rx.part == [] && rx.size.None? }

  /** The header of a block that has a body. */
  function Opened<K>(c: C.Cipher<K, Byte>, rx: Rx<K>, b: Block): Rx<K> {
    var h := Header(|b.body|, b.msg);
    rx.(part := [], size := Some((b.msg, |b.body|)), k := KeyAfter(c, rx, h))
  }

  lemma OneHeader<K>(c: C.Cipher<K, Byte>, login: nat, k0: K, rx: Rx<K>, b: Block)
    requires C.Undoes(c) && Between(rx) && |b.body| <= MAX_BLKSIZE
    ensures var h := Header(|b.body|, b.msg);
      Feed(c, login, k0, rx, OnWire(c, rx, h)) ==
        if b.body == [] then Deliver(login, k0, rx.(k := KeyAfter(c, rx, h)), b) else Opened(c, rx, b)
  {
    var h := Header(|b.body|, b.msg);
    HeaderBack(|b.body|, b.msg);
    Gather(c, login, k0, rx, h);
    assert rx.part + h == h;
  }

  lemma OneBody<K>(c: C.Cipher<K, Byte>, login: nat, k0: K, rx: Rx<K>, b: Block)
    requires C.Undoes(c) && Between(rx) && 0 < |b.body| <= MAX_BLKSIZE
    ensures var r := Opened(c, rx, b);
      Feed(c, login, k0, r, OnWire(c, r, b.body)) == Deliver(login, k0, rx.(k := KeyAfter(c, r, b.body)), b)
  {
    var r := Opened(c, rx, b);
    Gather(c, login, k0, r, b.body);
    assert r.part + b.body == b.body;
  }

  /** One whole block, wherever it is cut. */
  lemma OneBlock<K>(c: C.Cipher<K, Byte>, login: nat, k0: K, rx: Rx<K>, b: Block)
    requires C.Undoes(c) && Between(rx) && |b.body| <= MAX_BLKSIZE
    ensures Feed(c, login, k0, rx, OnWire(c, rx, Encode(b))) ==
      Deliver(login, k0, rx.(k := KeyAfter(c, rx, Encode(b))), b)
  {
    var h, r := Header(|b.body|, b.msg), Opened(c, rx, b);
    OneHeader(c, login, k0, rx, b);
    if b.body == [] {
      assert Encode(b) == h;
    } else {
      if rx.crypt {
        C.EncryptSplit(c, rx.k, h, b.body);
        C.AfterSplit(c, rx.k, h, b.body);
      }
      FeedSplit(c, login, k0, rx, OnWire(c, rx, h), OnWire(c, r, b.body));
      OneBody(c, login, k0, rx, b);
    }
  }

  // ---- the whole stream ----

  function First<K>(k: K): Rx<K> { Rx([], [], None, false, k) }

  predicate Short(bs: seq<Block>) { forall b :: b in bs ==> |b.body| <= MAX_BLKSIZE }

  /** The receiver gets the blocks that were queued, in order and once each, and stays in step with the cipher. */
  lemma {:induction false} AllBlocks<K>(c: C.Cipher<K, Byte>, login: nat, k0: K, bs: seq<Block>)
    requires C.Undoes(c) && login > 0 && Short(bs)
    ensures var rx := Feed(c, login, k0, First(k0), Coded(c, k0, login, bs));
      && rx.got == bs && Between(rx) && rx.crypt == (|bs| >= login)
      && (rx.crypt ==> rx.k == C.After(c, k0, Flat(bs[login..])))
  {
    if bs != [] {
      var n := |bs| - 1;
      var fs, b := bs[..n], bs[n];
      assert bs == fs + [b];
      AllBlocks(c, login, k0, fs);
      CodedPush(c, k0, login, fs, b);
      var rx := Feed(c, login, k0, First(k0), Coded(c, k0, login, fs));
      assert Coded(c, k0, login, bs) == Coded(c, k0, login, fs) + OnWire(c, rx, Encode(b));
      FeedSplit(c, login, k0, First(k0), Coded(c, k0, login, fs), OnWire(c, rx, Encode(b)));
      OneBlock(c, login, k0, rx, b);
      if |bs| == login { assert bs[login..] == []; }
    }
  }

  lemma {:induction false} GotGrows<K>(c: C.Cipher<K, Byte>, login: nat, k0: K, rx: Rx<K>, ys: seq<Byte>)
    ensures rx.got <= Feed(c, login, k0, rx, ys).got
    decreases |ys|
  {
    if ys != [] {
      var r1 := Complete(login, k0, Clear(c, rx, ys[0]));
      assert rx.got <= r1.got;
      GotGrows(c, login, k0, r1, ys[1..]);
    }
  }

  function Taken<K>(rx: Rx<K>): nat { |Flat(rx.got)| + (if rx.size.Some? then BLK_HDR_SIZE else 0) + |rx.part| }

  /** Every byte is in a delivered block or in the one being gathered. */
  ghost predicate Steady<K>(rx: Rx<K>) {
    if rx.size.None? then |rx.part| < BLK_HDR_SIZE else |rx.part| < rx.size.value.1
  }

  lemma OneByte<K>(c: C.Cipher<K, Byte>, login: nat, k0: K, rx: Rx<K>, y: Byte)
    requires Steady(rx)
    ensures var r1 := Complete(login, k0, Clear(c, rx, y)); Steady(r1) && Taken(r1) == Taken(rx) + 1
  {
    var r0 := Clear(c, rx, y);
    var b := if rx.size.None? then Block(IsMsg(r0.part[0]), []) else Block(rx.size.value.0, r0.part);
    FlatSplit(rx.got, [b]);
    assert Flat([b]) == Encode(b) by { assert [b][1..] == [] && Encode(b) + [] == Encode(b); }
  }

  lemma {:induction false} NothingLost<K>(c: C.Cipher<K, Byte>, login: nat, k0: K, rx: Rx<K>, ys: seq<Byte>)
    requires Steady(rx)
    ensures Steady(Feed(c, login, k0, rx, ys)) && Taken(Feed(c, login, k0, rx, ys)) == Taken(rx) + |ys|
    decreases |ys|
  {
    if ys != [] {
      OneByte(c, login, k0, rx, ys[0]);
      NothingLost(c, login, k0, Complete(login, k0, Clear(c, rx, ys[0])), ys[1..]);
    }
  }

  lemma CodedSize<K>(c: C.Cipher<K, Byte>, k: K, login: nat, bs: seq<Block>)
    ensures |Coded(c, k, login, bs)| == |Flat(bs)|
  {
    if |bs| > login {
      assert bs == bs[..login] + bs[login..];
      FlatSplit(bs[..login], bs[login..]);
    }
  }

  lemma CodedPrefix<K>(c: C.Cipher<K, Byte>, k: K, login: nat, bs: seq<Block>, n: nat)
    requires n <= |bs|
    ensures Coded(c, k, login, bs[..n]) <= Coded(c, k, login, bs) && |Coded(c, k, login, bs[..n])| == |Flat(bs[..n])|
    decreases |bs| - n
  {
    CodedSize(c, k, login, bs[..n]);
    if n < |bs| {
      assert bs[..n + 1] == bs[..n] + [bs[n]];
      CodedPush(c, k, login, bs[..n], bs[n]);
      CodedPrefix(c, k, login, bs, n + 1);
    } else {
      assert bs[..n] == bs;
    }
  }

  lemma Shorter<T>(a: seq<T>, b: seq<T>, c: seq<T>)
    requires a <= c && b <= c && |a| <= |b|
    ensures b == a + b[|a|..]
  {
    assert a == c[..|a|] && b == c[..|b|];
  }

  lemma AtLeast<K>(c: C.Cipher<K, Byte>, login: nat, k0: K, bs: seq<Block>, ys: seq<Byte>, n: nat)
    requires C.Undoes(c) && login > 0 && Short(bs) && ys <= Coded(c, k0, login, bs) && n <= |bs|
    requires |Flat(bs[..n])| <= |ys|
    ensures bs[..n] <= Feed(c, login, k0, First(k0), ys).got
  {
    CodedPrefix(c, k0, login, bs, n);
    var zs := Coded(c, k0, login, bs[..n]);
    Shorter(zs, ys, Coded(c, k0, login, bs));
    FedAtLeast(c, login, k0, bs[..n], zs, ys[|zs|..]);
  }

  lemma FedAtLeast<K>(c: C.Cipher<K, Byte>, login: nat, k0: K, fs: seq<Block>, zs: seq<Byte>, rest: seq<Byte>)
    requires C.Undoes(c) && login > 0 && Short(fs) && zs == Coded(c, k0, login, fs)
    ensures fs <= Feed(c, login, k0, First(k0), zs + rest).got
  {
    AllBlocks(c, login, k0, fs);
    FeedSplit(c, login, k0, First(k0), zs, rest);
    GotGrows(c, login, k0, Feed(c, login, k0, First(k0), zs), rest);
  }

  lemma AtMost<K>(c: C.Cipher<K, Byte>, login: nat, k0: K, bs: seq<Block>, ys: seq<Byte>)
    requires C.Undoes(c) && login > 0 && Short(bs) && ys <= Coded(c, k0, login, bs)
    ensures Feed(c, login, k0, First(k0), ys).got <= bs
  {
    var rest := Coded(c, k0, login, bs)[|ys|..];
    assert Coded(c, k0, login, bs) == ys + rest;
    AllBlocks(c, login, k0, bs);
    FeedSplit(c, login, k0, First(k0), ys, rest);
    GotGrows(c, login, k0, Feed(c, login, k0, First(k0), ys), rest);
  }

  lemma NoMore(bs: seq<Block>, got: seq<Block>, n: nat, size: nat)
    requires n <= |bs| && bs[..n] <= got <= bs && |Flat(got)| <= size && (n < |bs| ==> size < |Flat(bs[..n + 1])|)
    ensures got == bs[..n]
  {
    if |got| > n {
      assert got == bs[..n + 1] + got[n + 1..];
      FlatSplit(bs[..n + 1], got[n + 1..]);
    }
  }

  /** At any point of the stream: exactly the blocks that are complete were delivered. */
  lemma SomeBlocks<K>(c: C.Cipher<K, Byte>, login: nat, k0: K, bs: seq<Block>, ys: seq<Byte>, n: nat)
    requires C.Undoes(c) && login > 0 && Short(bs) && ys <= Coded(c, k0, login, bs) && n <= |bs|
    requires |Flat(bs[..n])| <= |ys| && (n < |bs| ==> |ys| < |Flat(bs[..n + 1])|)
    ensures Feed(c, login, k0, First(k0), ys).got == bs[..n]
  {
    var got := Feed(c, login, k0, First(k0), ys).got;
    AtLeast(c, login, k0, bs, ys, n);
    AtMost(c, login, k0, bs, ys);
    NothingLost(c, login, k0, First(k0), ys);
    NoMore(bs, got, n, |ys|);
  }
}
