/** The frames of a session as blocks on the wire: msg_sendf prints the arguments of a message, parse_args splits them
    again. The tag on an M_FILE is not sent. */
module Messages {
  import opened Options
  import opened Frames
  import opened Numbers
  import opened Wire
  import Octets
  import B = WireBuffers
  import C = Crypt

  const M_FILE: Byte := 3
  const M_EOB: Byte := 5
  const M_GOT: Byte := 6
  const M_ERR: Byte := 7
  const M_GET: Byte := 9
  const M_SKIP: Byte := 10

  // ---- text ----

  predicate IsSpace(c: char) { c in {' ', '\t', '\n', '\U{000B}', '\U{000C}', '\r'} }

  /** A word of characters of one byte each. */
  predicate IsWord(w: string) { w != "" && forall i :: 0 <= i < |w| ==> !IsSpace(w[i]) && 0 < w[i] as int < 0x100 }

  predicate AllWords(ws: seq<string>) { forall i :: 0 <= i < |ws| ==> IsWord(ws[i]) }

  function ToByte(c: char): Byte { (c as int % 0x100) as Byte }

  function Bytes(s: string): seq<Byte> { seq(|s|, i requires 0 <= i < |s| => ToByte(s[i])) }

  function Text(b: seq<Byte>): string { seq(|b|, i requires 0 <= i < |b| => b[i] as nat as char) }

  lemma TextBack(s: string)
    requires forall i :: 0 <= i < |s| ==> s[i] as int < 0x100
    ensures Text(Bytes(s)) == s
  {
    forall i | 0 <= i < |s| ensures Text(Bytes(s))[i] == s[i] {
      Octets.ByteBack(s[i] as int);
    }
  }

  /** The length of the word that a text begins with. */
  function WordLen(s: string): (n: nat)
    ensures n <= |s|
  {
    if s == "" || IsSpace(s[0]) then 0 else 1 + WordLen(s[1..])
  }

  function SkipSpace(s: string): (r: string)
    ensures |r| <= |s| && (r != "" ==> !IsSpace(r[0]))
  {
    if s != "" && IsSpace(s[0]) then SkipSpace(s[1..]) else s
  }

  /** parse_args: the first `n` words, None if there are not so many. */
  function Words(s: string, n: nat): (r: Option<seq<string>>)
    ensures r.Some? ==> |r.value| == n
    decreases n
  {
    if n == 0 then Some([]) else
    var t := SkipSpace(s);
    if t == "" then None else
    var w := WordLen(t);
    var r := Words(t[w..], n - 1);
    if r.None? then None else Some([t[..w]] + r.value)
  }

  function Line(ws: seq<string>): string {
    if ws == [] then "" else if |ws| == 1 then ws[0] else ws[0] + " " + Line(ws[1..])
  }

  lemma {:induction false} WordEnds(w: string, s: string)
    requires IsWord(w) && (s == "" || IsSpace(s[0]))
    ensures WordLen(w + s) == |w|
    decreases |w|
  {
    if |w| == 1 {
      assert (w + s)[1..] == s;
    } else {
      assert (w + s)[1..] == w[1..] + s;
      WordEnds(w[1..], s);
    }
  }

  lemma OneWord(w: string, rest: string, n: nat)
    requires IsWord(w) && (rest == "" || IsSpace(rest[0])) && n > 0
    ensures var r := Words(rest, n - 1);
      Words(w + rest, n) == Words(" " + (w + rest), n) == if r.None? then None else Some([w] + r.value)
  {
    var s := w + rest;
    WordEnds(w, rest);
    assert s[..|w|] == w && s[|w|..] == rest;
    assert (" " + s)[1..] == s && SkipSpace(s) == s;
  }

  lemma {:induction false} WordsBack(ws: seq<string>)
    requires AllWords(ws)
    ensures Words(Line(ws), |ws|) == Some(ws)
    ensures ws != [] ==> Words(" " + Line(ws), |ws|) == Some(ws)
  {
    if |ws| == 1 {
      OneWord(ws[0], "", 1);
      assert ws[0] + "" == ws[0] && [ws[0]] + [] == ws;
    } else if ws != [] {
      WordsBack(ws[1..]);
      OneWord(ws[0], " " + Line(ws[1..]), |ws|);
      assert Line(ws) == ws[0] + (" " + Line(ws[1..]));
      assert ws == [ws[0]] + ws[1..];
    }
  }

  lemma {:induction false} LineBytes(ws: seq<string>)
    requires AllWords(ws)
    ensures forall i :: 0 <= i < |Line(ws)| ==> Line(ws)[i] as int < 0x100
  {
    if |ws| > 1 {
      LineBytes(ws[1..]);
    }
  }

  // ---- numbers ----

  function DigitsLen(s: string): (n: nat)
    ensures n <= |s|
  {
    if s == "" || !IsDigit(false, s[0]) then 0 else 1 + DigitsLen(s[1..])
  }

  /** strtoumax, on what is printed: the digits that a word begins with. */
  function Number(s: string): nat {
    var n := Read(false, s[..DigitsLen(s)]);
    if n < 0 then 0 else n
  }

  lemma {:induction false} AllAre(s: string)
    requires AllDigits(false, s)
    ensures DigitsLen(s) == |s|
  {
    if s != "" {
      AllAre(s[1..]);
    }
  }

  lemma DigitIs(c: char)
    requires IsDigit(false, c)
    ensures !IsSpace(c)
    ensures 0 < c as int < 0x100
  {
    assert '0' <= c <= '9';
  }

  lemma NumberBack(n: nat)
    ensures Number(Show(false, n)) == n && IsWord(Show(false, n))
  {
    var t := Show(false, n);
    ReadShow(false, n);
    AllAre(t);
    assert t[..|t|] == t;
    forall i | 0 <= i < |t| ensures !IsSpace(t[i]) && 0 < t[i] as int < 0x100 {
      assert IsDigit(false, t[i]);
      DigitIs(t[i]);
    }
  }

  // ---- messages ----

  function KeyWords(k: Key): seq<string>
    requires k.time >= 0
  {
    [k.name, Show(false, k.size), Show(false, k.time)]
  }

  function OffsetWord(off: int): string { if off < 0 then "-1" else Show(false, off) }

  /** Netnames are quoted, so that they are words; a time is not negative. */
  predicate Sendable(f: Frame) {
    && (f.MFile? || f.MGet? || f.MGot? || f.MSkip? ==> IsWord(f.k.name) && f.k.time >= 0)
    && (f.MFile? ==> f.off >= -1)
  }

  function Message(t: Byte, ws: seq<string>): Block { Block(true, [t] + Bytes(Line(ws))) }

  function Encode(f: Frame): Block
    requires Sendable(f)
  {
    match f
    case MFile(k, off, _) => Message(M_FILE, KeyWords(k) + [OffsetWord(off)])
    case MGet(k, at) => Message(M_GET, KeyWords(k) + [Show(false, at)])
    case MGot(k) => Message(M_GOT, KeyWords(k))
    case MSkip(k) => Message(M_SKIP, KeyWords(k))
    case MEob => Message(M_EOB, [])
    case MErr => Message(M_ERR, [])
    case Data(bytes) => Block(false, bytes)
  }

  function KeyOf(ws: seq<string>): Key
    requires |ws| >= 3
  {
    Key(ws[0], Number(ws[1]), Number(ws[2]))
  }

  /** What recv_block dispatches; None is a message without effect in a session, or one that drops it. */
  function Decode(b: Block): Option<Frame> {
    if !b.msg then Some(Data(b.body))
    else if b.body == [] then None
    else
      var t := b.body[0];
      var s := Text(b.body[1..]);
      if t == M_EOB then Some(MEob)
      else if t == M_ERR then Some(MErr)
      else if t == M_FILE || t == M_GET then
        var ws := Words(s, 4);
        if ws.None? then None
        else if t == M_GET then Some(MGet(KeyOf(ws.value), Number(ws.value[3])))
        else Some(MFile(KeyOf(ws.value), if ws.value[3] == "-1" then -1 else Number(ws.value[3]), false))
      else if t == M_GOT || t == M_SKIP then
        var ws := Words(s, 3);
        if ws.None? then None
        else if t == M_GOT then Some(MGot(KeyOf(ws.value))) else Some(MSkip(KeyOf(ws.value)))
      else None
  }

  /** The frame without the tag that only the model knows. */
  function Untagged(f: Frame): Frame { if f.MFile? then f.(farewell := false) else f }

  lemma MessageBack(t: Byte, ws: seq<string>)
    requires AllWords(ws)
    ensures var b := Message(t, ws).body; b != [] && b[0] == t && Words(Text(b[1..]), |ws|) == Some(ws)
  {
    assert ([t] + Bytes(Line(ws)))[1..] == Bytes(Line(ws));
    LineBytes(ws);
    TextBack(Line(ws));
    WordsBack(ws);
  }

  lemma KeyBack(k: Key, more: seq<string>)
    requires IsWord(k.name) && k.time >= 0 && AllWords(more)
    ensures |KeyWords(k) + more| == 3 + |more| && AllWords(KeyWords(k) + more)
    ensures KeyOf(KeyWords(k) + more) == k
  {
    NumberBack(k.size);
    NumberBack(k.time);
  }

  lemma OffsetBack(off: int)
    requires off >= -1
    ensures IsWord(OffsetWord(off)) && (OffsetWord(off) == "-1" <==> off == -1)
    ensures off >= 0 ==> Number(OffsetWord(off)) == off
  {
    if off >= 0 {
      NumberBack(off);
      ReadShow(false, off);
      assert OffsetWord(off)[0] != '-' by { assert IsDigit(false, OffsetWord(off)[0]); }
    }
  }

  lemma FileBack(k: Key, off: int, w: bool)
    requires Sendable(MFile(k, off, w))
    ensures Decode(Encode(MFile(k, off, w))) == Some(MFile(k, off, false))
  {
    OffsetBack(off);
    KeyBack(k, [OffsetWord(off)]);
    MessageBack(M_FILE, KeyWords(k) + [OffsetWord(off)]);
  }

  lemma GetBack(k: Key, at: nat)
    requires Sendable(MGet(k, at))
    ensures Decode(Encode(MGet(k, at))) == Some(MGet(k, at))
  {
    NumberBack(at);
    KeyBack(k, [Show(false, at)]);
    MessageBack(M_GET, KeyWords(k) + [Show(false, at)]);
  }

  lemma GotBack(k: Key)
    requires Sendable(MGot(k))
    ensures Decode(Encode(MGot(k))) == Some(MGot(k))
  {
    KeyBack(k, []);
    assert KeyWords(k) + [] == KeyWords(k);
    MessageBack(M_GOT, KeyWords(k));
  }

  lemma SkipBack(k: Key)
    requires Sendable(MSkip(k))
    ensures Decode(Encode(MSkip(k))) == Some(MSkip(k))
  {
    KeyBack(k, []);
    assert KeyWords(k) + [] == KeyWords(k);
    MessageBack(M_SKIP, KeyWords(k));
  }

  /** Every frame that a peer sends is read back by the other. */
  lemma DecodeEncode(f: Frame)
    requires Sendable(f)
    ensures Decode(Encode(f)) == Some(Untagged(f))
  {
    match f
    case MFile(k, off, w) => FileBack(k, off, w);
    case MGet(k, at) => GetBack(k, at);
    case MGot(k) => GotBack(k);
    case MSkip(k) => SkipBack(k);
    case _ =>
  }

  // ---- the channel ----

  function Blocks(fs: seq<Frame>): seq<Block>
    requires forall f :: f in fs ==> Sendable(f)
  {
    seq(|fs|, i requires 0 <= i < |fs| => Encode(fs[i]))
  }

  function Received(bs: seq<Block>): seq<Option<Frame>> { seq(|bs|, i requires 0 <= i < |bs| => Decode(bs[i])) }

  function Sent(fs: seq<Frame>): seq<Option<Frame>> { seq(|fs|, i requires 0 <= i < |fs| => Some(Untagged(fs[i]))) }

  lemma ReceivedBack(fs: seq<Frame>)
    requires forall f :: f in fs ==> Sendable(f)
    ensures Received(Blocks(fs)) == Sent(fs)
  {
    forall i | 0 <= i < |fs| ensures Received(Blocks(fs))[i] == Sent(fs)[i] {
      assert fs[i] in fs;
      DecodeEncode(fs[i]);
    }
  }

  lemma Cut<T>(pre: seq<T>, bs: seq<T>, n: nat)
    requires n <= |bs|
    ensures (pre + bs)[..|pre| + n][..|pre|] == pre && (pre + bs)[..|pre| + n][|pre|..] == bs[..n]
  {
  }

  lemma BlocksArrive(login: nat, k0: C.K, pre: seq<Block>, bs: seq<Block>, out: seq<Byte>, crypt: bool, keys: C.K,
      arrived: seq<Byte>, n: nat)
    requires login > 0 && Short(pre + bs) && B.InStep(login, k0, pre + bs, out, crypt, keys) && arrived <= out
    requires n <= |bs| && |Flat((pre + bs)[..|pre| + n])| <= |arrived|
    requires n < |bs| ==> |arrived| < |Flat((pre + bs)[..|pre| + n + 1])|
    ensures var got := Feed(B.Z(), login, k0, First(k0), arrived).got;
      |got| == |pre| + n && got[..|pre|] == pre && got[|pre|..] == bs[..n]
  {
    Cut(pre, bs, n);
    B.EndToEnd(login, k0, pre + bs, out, crypt, keys, arrived, |pre| + n);
  }

  /** The channel of a session: behind the blocks `pre` of the login a peer has queued `fs`, and `arrived` is what has
      arrived of its stream, encrypted or not. The other peer has dispatched the first frames of `fs`, in order, exactly
      those whose blocks are complete. */
  lemma FramesArrive(login: nat, k0: C.K, pre: seq<Block>, fs: seq<Frame>, out: seq<Byte>, crypt: bool, keys: C.K,
      arrived: seq<Byte>, n: nat)
    requires login > 0 && (forall f :: f in fs ==> Sendable(f)) && Short(pre + Blocks(fs))
    requires B.InStep(login, k0, pre + Blocks(fs), out, crypt, keys) && arrived <= out
    requires n <= |fs| && |Flat((pre + Blocks(fs))[..|pre| + n])| <= |arrived|
    requires n < |fs| ==> |arrived| < |Flat((pre + Blocks(fs))[..|pre| + n + 1])|
    ensures var got := Feed(B.Z(), login, k0, First(k0), arrived).got;
      |got| == |pre| + n && got[..|pre|] == pre && Received(got[|pre|..]) == Sent(fs[..n])
  {
    assert Blocks(fs)[..n] == Blocks(fs[..n]) && forall f :: f in fs[..n] ==> f in fs;
    ReceivedBack(fs[..n]);
    BlocksArrive(login, k0, pre, Blocks(fs), out, crypt, keys, arrived, n);
  }
}
