/** Stream ciphers whose keys are updated with the plain text. */
module StreamCipher {

  /** A cipher: the byte that the keys give, how it is mixed in, and how a byte of plain text changes the keys. */
  datatype Cipher<!K, !B> = Cipher(pad: K -> B, mix: (B, B) -> B, up: (K, B) -> K)

  ghost predicate Undoes<K, B(!new)>(c: Cipher<K, B>) {
    forall x, p :: c.mix(c.mix(x, p), p) == x
  }

  /** The keys after the plain text `xs`. */
  function After<K, B>(c: Cipher<K, B>, k: K, xs: seq<B>): K
    decreases |xs|
  {
    if xs == [] then k else After(c, c.up(k, xs[0]), xs[1..])
  }

  function Encrypt<K, B>(c: Cipher<K, B>, k: K, xs: seq<B>): (ys: seq<B>)
    ensures |ys| == |xs|
    decreases |xs|
  {
    if xs == [] then [] else [c.mix(xs[0], c.pad(k))] + Encrypt(c, c.up(k, xs[0]), xs[1..])
  }

  function Decrypt<K, B>(c: Cipher<K, B>, k: K, ys: seq<B>): (xs: seq<B>)
    ensures |xs| == |ys|
    decreases |ys|
  {
    if ys == [] then [] else
    var x := c.mix(ys[0], c.pad(k));
    [x] + Decrypt(c, c.up(k, x), ys[1..])
  }

  lemma {:induction false} RoundTrip<K, B(!new)>(c: Cipher<K, B>, k: K, xs: seq<B>)
    requires Undoes(c)
    ensures Decrypt(c, k, Encrypt(c, k, xs)) == xs
    decreases |xs|
  {
    if xs != [] {
      var ys := Encrypt(c, k, xs);
      RoundTrip(c, c.up(k, xs[0]), xs[1..]);
      assert c.mix(ys[0], c.pad(k)) == xs[0];
      assert ys[1..] == Encrypt(c, c.up(k, xs[0]), xs[1..]);
    }
  }

  lemma {:induction false} RoundTripBack<K, B(!new)>(c: Cipher<K, B>, k: K, ys: seq<B>)
    requires Undoes(c)
    ensures Encrypt(c, k, Decrypt(c, k, ys)) == ys
    decreases |ys|
  {
    if ys != [] {
      var xs := Decrypt(c, k, ys);
      RoundTripBack(c, c.up(k, xs[0]), ys[1..]);
      assert c.mix(xs[0], c.pad(k)) == ys[0];
      assert xs[1..] == Decrypt(c, c.up(k, xs[0]), ys[1..]);
    }
  }

  lemma {:induction false} AfterSplit<K, B>(c: Cipher<K, B>, k: K, xs: seq<B>, ys: seq<B>)
    ensures After(c, k, xs + ys) == After(c, After(c, k, xs), ys)
    decreases |xs|
  {
    if xs == [] {
      assert xs + ys == ys;
    } else {
      AfterSplit(c, c.up(k, xs[0]), xs[1..], ys);
      assert (xs + ys)[1..] == xs[1..] + ys;
    }
  }

  /** Chunks do not matter: a text may be encrypted in pieces, with the keys that the piece before leaves. */
  lemma {:induction false} EncryptSplit<K, B>(c: Cipher<K, B>, k: K, xs: seq<B>, ys: seq<B>)
    ensures Encrypt(c, k, xs + ys) == Encrypt(c, k, xs) + Encrypt(c, After(c, k, xs), ys)
    decreases |xs|
  {
    if xs == [] {
      assert xs + ys == ys;
    } else {
      EncryptSplit(c, c.up(k, xs[0]), xs[1..], ys);
      assert (xs + ys)[1..] == xs[1..] + ys;
    }
  }

  lemma EncryptOne<K, B>(c: Cipher<K, B>, k: K, xs: seq<B>, x: B)
    ensures Encrypt(c, k, xs + [x]) == Encrypt(c, k, xs) + [c.mix(x, c.pad(After(c, k, xs)))]
    ensures After(c, k, xs + [x]) == c.up(After(c, k, xs), x)
  {
    EncryptSplit(c, k, xs, [x]);
    AfterSplit(c, k, xs, [x]);
    var k1 := After(c, k, xs);
    assert [x][1..] == [];
    assert Encrypt(c, c.up(k1, x), []) == [];
  }

  lemma DecryptOne<K, B(!new)>(c: Cipher<K, B>, k: K, ys: seq<B>, y: B)
    requires Undoes(c)
    ensures var xs := Decrypt(c, k, ys);
      var x := c.mix(y, c.pad(After(c, k, xs)));
      Decrypt(c, k, ys + [y]) == xs + [x] && After(c, k, xs + [x]) == c.up(After(c, k, xs), x)
  {
    var xs := Decrypt(c, k, ys);
    var x := c.mix(y, c.pad(After(c, k, xs)));
    RoundTripBack(c, k, ys);
    EncryptOne(c, k, xs, x);
    RoundTrip(c, k, xs + [x]);
  }

  /** Two ciphers whose keys stay related encrypt alike. */
  ghost predicate Simulates<K(!new), L(!new), B(!new)>(c: Cipher<K, B>, d: Cipher<L, B>, r: (K, L) -> bool) {
    && c.mix == d.mix
    && (forall k, l :: r(k, l) ==> c.pad(k) == d.pad(l))
    && (forall k, l, x {:trigger c.up(k, x), d.up(l, x)} :: r(k, l) ==> r(c.up(k, x), d.up(l, x)))
  }

  lemma {:induction false} Simulate<K(!new), L(!new), B(!new)>(c: Cipher<K, B>, d: Cipher<L, B>, r: (K, L) -> bool,
      k: K, l: L, xs: seq<B>)
    requires Simulates(c, d, r) && r(k, l)
    ensures Encrypt(c, k, xs) == Encrypt(d, l, xs)
    ensures Decrypt(c, k, xs) == Decrypt(d, l, xs)
    decreases |xs|
  {
    if xs != [] {
      Simulate(c, d, r, c.up(k, xs[0]), d.up(l, xs[0]), xs[1..]);
      var x := c.mix(xs[0], c.pad(k));
      Simulate(c, d, r, c.up(k, x), d.up(l, x), xs[1..]);
    }
  }
}
