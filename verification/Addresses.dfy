/** FTN addresses as text and as names of files in an outbound. */
module Addresses {
  import opened Options
  import opened Numbers

  const MAX_DOMAIN := 32
  const TOKENS := 10

  /** -1 stands for a part that is not given, and "" for no domain. */
  datatype Addr = Addr(z: int, net: int, node: int, p: int, domain: string)

  predicate Is4D(a: Addr) { a.z >= 0 && a.net >= 0 && a.node >= 0 && a.p >= 0 }

  // ---- domains ----

  function LowerChar(c: char): char { if 'A' <= c <= 'Z' then (c as int + 32) as char else c }

  /** STRICMP finds no difference. */
  predicate SameName(a: string, b: string) {
    |a| == |b| && forall i :: 0 <= i < |a| ==> LowerChar(a[i]) == LowerChar(b[i])
  }

  /** `alias4` is the name of the domain that this one is another name of. */
  datatype Domain = Domain(name: string, alias4: Option<string>, zone: nat, path: string, dir: string)

  /** get_domain_info */
  function Lookup(name: string, ds: seq<Domain>): Option<Domain> {
    if ds == [] then None else if SameName(ds[0].name, name) then Some(ds[0]) else Lookup(name, ds[1..])
  }

  method GetDomainInfo(name: string, ds: seq<Domain>) returns (d: Option<Domain>)
    ensures d == Lookup(name, ds)
  {
    var i := 0;
    assert ds[0..] == ds;
    while i < |ds|
      invariant i <= |ds| && Lookup(name, ds) == Lookup(name, ds[i..])
    {
      assert ds[i..][1..] == ds[i + 1..];
      if SameName(ds[i].name, name) {
        return Some(ds[i]);
      }
      i := i + 1;
    }
    return None;
  }

  /** The name that parse_ftnaddress puts in the place of a domain. */
  function Canonical(name: string, ds: seq<Domain>): string {
    var d := Lookup(name, ds);
    if d.None? then name else if d.value.alias4.Some? then d.value.alias4.value else d.value.name
  }

  // ---- tokens ----

  datatype Token = Null | Sep(c: char) | Num(n: int) | Word(s: string)

  predicate IsSep(c: char) { c in ":/.@" }

  predicate IsAlpha(c: char) { 'a' <= c <= 'z' || 'A' <= c <= 'Z' }

  predicate InWord(c: char) { c == '.' || c == '-' || c == '_' || IsAlpha(c) || IsDigit(false, c) }

  /** The number that the text goes on with, `n` being its value so far; and the text after it. */
  function Number(s: string, n: int): (r: (int, string))
    ensures |r.1| <= |s|
  {
    if s != "" && IsDigit(false, s[0]) then Number(s[1..], n * 10 + DigitOf(false, s[0])) else (n, s)
  }

  /** The same for a word that can have `left` characters more. */
  function Name(s: string, word: string, left: nat): (r: (string, string))
    ensures |r.1| <= |s|
  {
    if left > 0 && s != "" && InWord(s[0]) then Name(s[1..], word + [s[0]], left - 1) else (word, s)
  }

  /** gettoken: None for a character that no token begins with; and the text that is left. */
  function Lex(s: string): (r: (Option<Token>, string))
    ensures |r.1| <= |s|
  {
    if s == "" then (Some(Null), s)
    else if IsSep(s[0]) then (Some(Sep(s[0])), s[1..])
    else if IsDigit(false, s[0]) then (Some(Num(Number(s, 0).0)), Number(s, 0).1)
    else if IsAlpha(s[0]) then (Some(Word(Name(s, "", MAX_DOMAIN).0)), Name(s, "", MAX_DOMAIN).1)
    else (None, s)
  }

  function Tokens(s: string, n: nat): (r: Option<seq<Token>>)
    ensures r.Some? ==> |r.value| == n
    decreases n
  {
    if n == 0 then Some([]) else
    var (t, rest) := Lex(s);
    if t.None? then None else
    var r := Tokens(rest, n - 1);
    if r.None? then None else Some([t.value] + r.value)
  }

  lemma ReadOne(t: string, c: char)
    ensures Read(false, t + [c]) == Read(false, t) * 10 + DigitOf(false, c)
  {
    assert (t + [c])[..|t|] == t;
  }

  lemma {:induction false} NumberIs(before: string, t: string, rest: string)
    requires AllDigits(false, t) && (rest != "" ==> !IsDigit(false, rest[0]))
    ensures Number(t + rest, Read(false, before)) == (Read(false, before + t), rest)
    decreases |t|
  {
    if t == "" {
      assert t + rest == rest && before + t == before;
    } else {
      ReadOne(before, t[0]);
      NumberIs(before + [t[0]], t[1..], rest);
      assert (t + rest)[1..] == t[1..] + rest && before + [t[0]] + t[1..] == before + t;
    }
  }

  lemma {:induction false} NameIs(before: string, w: string, left: nat)
    requires (forall i :: 0 <= i < |w| ==> InWord(w[i])) && |w| <= left
    ensures Name(w, before, left) == (before + w, "")
    decreases |w|
  {
    if w == "" {
      assert before + w == before;
    } else {
      NameIs(before + [w[0]], w[1..], left - 1);
      assert before + [w[0]] + w[1..] == before + w;
    }
  }

  /** When a word ends with the text, all of the text is a word. */
  lemma {:induction false} NameAll(before: string, s: string, left: nat)
    requires Name(s, before, left).1 == ""
    ensures |s| <= left && forall i :: 0 <= i < |s| ==> InWord(s[i])
    decreases |s|
  {
    if s != "" {
      NameAll(before + [s[0]], s[1..], left - 1);
      assert forall i :: 0 < i < |s| ==> s[i] == s[1..][i - 1];
    }
  }

  lemma LexNum(n: nat, rest: string)
    requires rest != "" ==> !IsDigit(false, rest[0])
    ensures Lex(Show(false, n) + rest) == (Some(Num(n)), rest)
  {
    ReadShow(false, n);
    var t := Show(false, n);
    NumberIs("", t, rest);
    assert "" + t == t;
    assert IsDigit(false, t[0]) && (t + rest)[0] == t[0];
  }

  function Cons(ts: seq<Token>, r: Option<seq<Token>>): Option<seq<Token>> {
    if r.None? then None else Some(ts + r.value)
  }

  lemma ConsCons(a: seq<Token>, b: seq<Token>, r: Option<seq<Token>>)
    ensures Cons(a, Cons(b, r)) == Cons(a + b, r)
  {
    if r.Some? { assert a + (b + r.value) == (a + b) + r.value; }
  }

  lemma NumFirst(n: nat, rest: string, k: nat)
    requires k > 0 && (rest != "" ==> !IsDigit(false, rest[0]))
    ensures Tokens(Show(false, n) + rest, k) == Cons([Num(n)], Tokens(rest, k - 1))
  {
    LexNum(n, rest);
  }

  lemma SepFirst(c: char, rest: string, k: nat)
    requires k > 0 && IsSep(c)
    ensures Tokens([c] + rest, k) == Cons([Sep(c)], Tokens(rest, k - 1))
  {
    assert ([c] + rest)[1..] == rest;
  }

  /** A number and a separator. */
  lemma NumSepFirst(n: nat, c: char, rest: string, k: nat)
    requires k > 1 && IsSep(c)
    ensures Tokens(Show(false, n) + ([c] + rest), k) == Cons([Num(n), Sep(c)], Tokens(rest, k - 2))
  {
    var u := [c] + rest;
    assert Tokens(Show(false, n) + u, k) == Cons([Num(n)], Tokens(u, k - 1)) by { NumFirst(n, u, k); }
    assert Tokens(u, k - 1) == Cons([Sep(c)], Tokens(rest, k - 2)) by { SepFirst(c, rest, k - 1); }
    ConsCons([Num(n)], [Sep(c)], Tokens(rest, k - 2));
    assert [Num(n)] + [Sep(c)] == [Num(n), Sep(c)];
  }

  // ---- parse_ftnaddress ----

  /** The parts that the tokens stand for. */
  function ParseTokens(t: seq<Token>, ds: seq<Domain>): Option<Addr>
    requires |t| == TOKENS
  {
    var (z, i) := if t[0].Num? && t[1] == Sep(':') then (t[0].n, 2) else (-1, 0);
    var (net, j) := if t[i].Num? && t[i + 1] == Sep('/') then (t[i].n, i + 1) else (-1, i);
    ParseNode(t, z, net, if t[j] == Sep('/') then j + 1 else j, ds)
  }

  function ParseNode(t: seq<Token>, z: int, net: int, i: nat, ds: seq<Domain>): Option<Addr>
    requires |t| == TOKENS && i <= 4
  {
    if !t[i].Num? && t[i] != Sep('.') then None else
    var (node, j) := if t[i].Num? then (t[i].n, i + 1) else (-1, i);
    if t[j] == Sep('.') && !t[j + 1].Num? then None else
    var (p, k) := if t[j] == Sep('.') then (t[j + 1].n, j + 2) else (-1, j);
    ParseDomain(t, Addr(z, net, node, p, ""), k, ds)
  }

  function ParseDomain(t: seq<Token>, a: Addr, i: nat, ds: seq<Domain>): Option<Addr>
    requires |t| == TOKENS && i <= 7
  {
    if t[i] == Sep('@') && !t[i + 1].Word? then None else
    var (domain, j) := if t[i] == Sep('@') then (Canonical(t[i + 1].s, ds), i + 2) else ("", i);
    if t[j] != Null || (a.node == -1 && a.p == -1) || (domain != "" && a.z == -1)
       || (a.z != -1 && a.net == -1) || (a.net != -1 && a.node == -1) then None
    else Some(a.(domain := domain, p := if a.p == -1 then 0 else a.p))
  }

  function Parse(s: string, ds: seq<Domain>): Option<Addr> {
    var t := Tokens(s, TOKENS);
    if t.None? then None else ParseTokens(t.value, ds)
  }

  // ---- xftnaddress_to_str ----

  function Int(n: int): string { if n < 0 then "-" + Show(false, -n) else Show(false, n) }

  function Print(a: Addr, forcePoint: bool): string {
    (if a.z != -1 then Int(a.z) + ":" else "") + (if a.net != -1 then Int(a.net) else "")
    + (if a.node != -1 then "/" + Int(a.node) else "")
    + (if a.p != 0 || a.node == -1 || forcePoint then "." + Int(a.p) else "")
    + (if a.domain != "" then "@" + a.domain else "")
  }

  /** A domain that gettoken takes as one word. */
  predicate IsWord(w: string) {
    w != "" && IsAlpha(w[0]) && |w| <= MAX_DOMAIN && forall i :: 0 <= i < |w| ==> InWord(w[i])
  }

  /** The end of a printed address. */
  function DomainPart(a: Addr): string { if a.domain != "" then "@" + a.domain else "" }

  /** What follows the node in a printed address. */
  function Tail(a: Addr, point: bool): string
    requires Is4D(a)
  {
    if point then "." + (Show(false, a.p) + DomainPart(a)) else DomainPart(a)
  }

  lemma PrintIs(a: Addr, forcePoint: bool)
    requires Is4D(a)
    ensures Print(a, forcePoint)
      == Show(false, a.z) + (":" + (Show(false, a.net) +
          ("/" + (Show(false, a.node) + Tail(a, a.p != 0 || forcePoint)))))
  {
    var z, net, node := Show(false, a.z), Show(false, a.net), Show(false, a.node);
    var point := if a.p != 0 || forcePoint then "." + Show(false, a.p) else "";
    assert point + DomainPart(a) == Tail(a, a.p != 0 || forcePoint);
    Regroup(z, net, node, point, DomainPart(a));
  }

  lemma Regroup(z: string, net: string, node: string, point: string, domain: string)
    ensures (z + ":") + net + ("/" + node) + point + domain == z + (":" + (net + ("/" + (node + (point + domain)))))
  {
  }

  function Head(a: Addr): seq<Token> { [Num(a.z), Sep(':'), Num(a.net), Sep('/'), Num(a.node)] }

  lemma HeadTokens(a: Addr, u: string, n: nat)
    requires Is4D(a) && n >= 5 && (u != "" ==> !IsDigit(false, u[0]))
    ensures Tokens(Show(false, a.z) + (":" + (Show(false, a.net) + ("/" + (Show(false, a.node) + u)))), n)
      == Cons(Head(a), Tokens(u, n - 5))
  {
    var v := Show(false, a.node) + u;
    var w := Show(false, a.net) + ("/" + v);
    assert Tokens(v, n - 4) == Cons([Num(a.node)], Tokens(u, n - 5)) by { NumFirst(a.node, u, n - 4); }
    assert Tokens(w, n - 2) == Cons([Num(a.net), Sep('/')], Tokens(v, n - 4)) by { NumSepFirst(a.net, '/', v, n - 2); }
    assert Tokens(Show(false, a.z) + (":" + w), n) == Cons([Num(a.z), Sep(':')], Tokens(w, n - 2)) by {
      NumSepFirst(a.z, ':', w, n);
    }
    HeadIs(a, Tokens(u, n - 5));
  }

  lemma HeadIs(a: Addr, r: Option<seq<Token>>)
    requires Is4D(a)
    ensures Cons([Num(a.z), Sep(':')], Cons([Num(a.net), Sep('/')], Cons([Num(a.node)], r))) == Cons(Head(a), r)
  {
    ConsCons([Num(a.net), Sep('/')], [Num(a.node)], r);
    ConsCons([Num(a.z), Sep(':')], [Num(a.net), Sep('/')] + [Num(a.node)], r);
    assert [Num(a.z), Sep(':')] + ([Num(a.net), Sep('/')] + [Num(a.node)]) == Head(a);
  }

  function Point(a: Addr, point: bool): seq<Token> { if point then [Sep('.'), Num(a.p)] else [] }

  lemma TailTokens(a: Addr, point: bool, n: nat)
    requires Is4D(a) && n >= 2
    ensures Tokens(Tail(a, point), n) == Cons(Point(a, point), Tokens(DomainPart(a), if point then n - 2 else n))
  {
    var d := DomainPart(a);
    if point {
      var r := Tokens(d, n - 2);
      assert Tokens(Show(false, a.p) + d, n - 1) == Cons([Num(a.p)], r) by { NumFirst(a.p, d, n - 1); }
      assert Tokens(Tail(a, point), n) == Cons([Sep('.')], Tokens(Show(false, a.p) + d, n - 1)) by {
        SepFirst('.', Show(false, a.p) + d, n);
      }
      ConsCons([Sep('.')], [Num(a.p)], r);
      assert [Sep('.')] + [Num(a.p)] == Point(a, point);
    } else if Tokens(d, n).Some? {
      assert [] + Tokens(d, n).value == Tokens(d, n).value;
    }
  }

  /** Tokens of a domain: one word and nothing more, or something that no address ends with. */
  lemma DomainTokens(d: string, k: nat)
    requires d != "" && k >= 3
    ensures var r := Tokens("@" + d, k);
      if IsWord(d) then r.Some? && r.value[..3] == [Sep('@'), Word(d), Null]
      else r.None? || (r.value[0] == Sep('@') && (!r.value[1].Word? || r.value[2] != Null))
  {
    SepFirst('@', d, k);
    if IsAlpha(d[0]) {
      if IsWord(d) {
        NameIs("", d, MAX_DOMAIN);
        assert "" + d == d;
        Nulls(k - 2);
      } else if Name(d, "", MAX_DOMAIN).1 == "" {
        NameAll("", d, MAX_DOMAIN);
        assert false;
      }
      var (t, rest) := Lex(d);
      assert Tokens(d, k - 1) == Cons([t.value], Tokens(rest, k - 2));
      NotNull(rest, k - 2);
    }
  }

  lemma NotNull(s: string, k: nat)
    requires k > 0
    ensures s != "" && Tokens(s, k).Some? ==> Tokens(s, k).value[0] != Null
  {
  }

  lemma {:induction false} Nulls(k: nat)
    ensures Tokens("", k).Some? && forall i :: 0 <= i < k ==> Tokens("", k).value[i] == Null
  {
    if k > 0 {
      Nulls(k - 1);
    }
  }

  lemma PrintTokens(a: Addr, forcePoint: bool, n: nat)
    requires Is4D(a) && n >= 7
    ensures var point := a.p != 0 || forcePoint;
      Tokens(Print(a, forcePoint), n) == Cons(Head(a) + Point(a, point),
        Tokens(DomainPart(a), if point then n - 7 else n - 5))
  {
    var point := a.p != 0 || forcePoint;
    var u := Tail(a, point);
    var r := Tokens(DomainPart(a), if point then n - 7 else n - 5);
    assert Tokens(Print(a, forcePoint), n) == Cons(Head(a), Tokens(u, n - 5)) by {
      PrintIs(a, forcePoint);
      HeadTokens(a, u, n);
    }
    assert Tokens(u, n - 5) == Cons(Point(a, point), r) by { TailTokens(a, point, n - 5); }
    ConsCons(Head(a), Point(a, point), r);
  }

  /** The tokens of an address, as far as its domain. */
  lemma ParsedIs(a: Addr, point: bool, r: seq<Token>, ds: seq<Domain>)
    requires Is4D(a) && |r| == (if point then 3 else 5) && r[0] in {Sep('@'), Null}
    ensures var t := Head(a) + Point(a, point) + r;
      |t| == TOKENS && ParseTokens(t, ds)
        == ParseDomain(t, Addr(a.z, a.net, a.node, if point then a.p else -1, ""), if point then 7 else 5, ds)
  {
    var t := Head(a) + Point(a, point) + r;
    assert t[0] == Num(a.z) && t[1] == Sep(':') && t[2] == Num(a.net) && t[3] == Sep('/') && t[4] == Num(a.node);
    if point {
      assert t[5] == Sep('.') && t[6] == Num(a.p) && t[7] == r[0];
    } else {
      assert t[5] == r[0];
    }
  }

  /** The parts of an address when its last tokens are `r`. */
  lemma EndIs(a: Addr, point: bool, r: seq<Token>, ds: seq<Domain>)
    requires Is4D(a) && (a.p == 0 || point) && |r| == (if point then 3 else 5) && r[0] in {Sep('@'), Null}
    ensures var t := Head(a) + Point(a, point) + r;
      |t| == TOKENS && ParseTokens(t, ds) ==
        if r[0] == Null then Some(a.(domain := ""))
        else if r[1].Word? && r[2] == Null then Some(a.(domain := Canonical(r[1].s, ds)))
        else None
  {
    ParsedIs(a, point, r, ds);
    var t := Head(a) + Point(a, point) + r;
    var i := if point then 7 else 5;
    assert t[i] == r[0] && t[i + 1] == r[1] && t[i + 2] == r[2];
  }

  /** Tokens that can stand for the end of a printed address. */
  predicate EndTokens(domain: string, r: Option<seq<Token>>, k: nat)
    requires k >= 3
  {
    (r.Some? ==> |r.value| == k) &&
    if domain == "" then r.Some? && r.value[0] == Null
    else if IsWord(domain) then r.Some? && r.value[0] == Sep('@') && r.value[1] == Word(domain) && r.value[2] == Null
    else r.None? || (r.value[0] == Sep('@') && (!r.value[1].Word? || r.value[2] != Null))
  }

  lemma EndTokensAre(a: Addr, k: nat)
    requires k >= 3
    ensures EndTokens(a.domain, Tokens(DomainPart(a), k), k)
  {
    if a.domain == "" {
      Nulls(k);
    } else {
      DomainTokens(a.domain, k);
    }
  }

  lemma FromTokens(a: Addr, point: bool, r: Option<seq<Token>>, ds: seq<Domain>)
    requires Is4D(a) && (a.p == 0 || point) && EndTokens(a.domain, r, if point then 3 else 5)
    ensures var all := Cons(Head(a) + Point(a, point), r);
      && (all.Some? ==> |all.value| == TOKENS)
      && (all.Some? && ParseTokens(all.value, ds) == Some(a)
          <==> a.domain == "" || (IsWord(a.domain) && Canonical(a.domain, ds) == a.domain))
  {
    if r.Some? {
      EndIs(a, point, r.value, ds);
    }
  }

  /** parse_ftnaddress gives the printed address back if and only if it has no domain, or one that is a word of at
      most 32 characters and is not another name, or another spelling, of a configured one. */
  lemma RoundTrip(a: Addr, forcePoint: bool, ds: seq<Domain>)
    requires Is4D(a)
    ensures Parse(Print(a, forcePoint), ds) == Some(a)
      <==> a.domain == "" || (IsWord(a.domain) && Canonical(a.domain, ds) == a.domain)
  {
    var point := a.p != 0 || forcePoint;
    var k := if point then 3 else 5;
    var all, r := Tokens(Print(a, forcePoint), TOKENS), Tokens(DomainPart(a), k);
    assert all == Cons(Head(a) + Point(a, point), r) by { PrintTokens(a, forcePoint, TOKENS); }
    assert EndTokens(a.domain, r, k) by { EndTokensAre(a, k); }
    FromTokens(a, point, r, ds);
  }

  // ---- the functions themselves ----

  /** gettoken; `s` is what the pointer of the caller points at afterwards. */
  method GetToken(s0: string) returns (t: Option<Token>, s: string)
    ensures (t, s) == Lex(s0)
  {
    s := s0;
    if s == "" {
      return Some(Null), s;
    } else if s[0] in ":/.@" {
      return Some(Sep(s[0])), s[1..];
    } else if IsDigit(false, s[0]) {
      var n := 0;
      while s != "" && IsDigit(false, s[0])
        invariant Number(s, n) == Number(s0, 0)
        decreases |s|
      {
        n := n * 10 + DigitOf(false, s[0]);
        s := s[1..];
      }
      return Some(Num(n)), s;
    } else if IsAlpha(s[0]) {
      var i, word := 0, "";
      while i < MAX_DOMAIN && s != "" && InWord(s[0])
        invariant i <= MAX_DOMAIN && Name(s, word, MAX_DOMAIN - i) == Name(s0, "", MAX_DOMAIN)
        decreases |s|
      {
        word := word + [s[0]];
        s := s[1..];
        i := i + 1;
      }
      return Some(Word(word)), s;
    } else {
      return None, s;
    }
  }

  lemma NextToken(all: Option<seq<Token>>, token: seq<Token>, s: string, n: nat)
    requires n > 0 && all == Cons(token, Tokens(s, n))
    ensures var (t, rest) := Lex(s); if t.None? then all.None? else all == Cons(token + [t.value], Tokens(rest, n - 1))
  {
    var (t, rest) := Lex(s);
    if t.Some? { ConsCons(token, [t.value], Tokens(rest, n - 1)); }
  }

  method GetTokens(s0: string, n: nat) returns (token: seq<Token>, ok: bool)
    ensures var r := Tokens(s0, n); ok == r.Some? && (ok ==> token == r.value)
  {
    var s := s0;
    token := [];
    ghost var all := Tokens(s, n);
    if all.Some? { assert [] + all.value == all.value; }
    var i := 0;
    while i < n
      invariant i <= n && |token| == i
      invariant all == Cons(token, Tokens(s, n - i))
    {
      NextToken(all, token, s, n - i);
      var t, rest := GetToken(s);
      if t.None? {
        return token, false;
      }
      token, s := token + [t.value], rest;
      i := i + 1;
    }
    ok := true;
  }

  /** parse_ftnaddress, from the domain on. */
  method DomainOf(token: seq<Token>, fa0: Addr, i0: nat, ds: seq<Domain>) returns (fa: Addr, ok: bool)
    requires |token| == TOKENS && i0 <= 7 && fa0.domain == ""
    ensures var r := ParseDomain(token, fa0, i0, ds); ok == r.Some? && (ok ==> fa == r.value)
  {
    fa := fa0;
    var i := i0;
    if token[i] == Sep('@') {
      if !token[i + 1].Word? {
        return fa, false;
      }
      var d := GetDomainInfo(token[i + 1].s, ds);
      fa := fa.(domain := if d.None? then token[i + 1].s
        else if d.value.alias4.Some? then d.value.alias4.value else d.value.name);
      i := i + 2;
    }
    if token[i] != Null || (fa.node == -1 && fa.p == -1) || (fa.domain != "" && fa.z == -1)
       || (fa.z != -1 && fa.net == -1) || (fa.net != -1 && fa.node == -1) {
      return fa, false;
    }
    if fa.p == -1 {
      fa := fa.(p := 0);
    }
    ok := true;
  }

  /** ... from the node on. */
  method NodeOf(token: seq<Token>, fa0: Addr, i0: nat, ds: seq<Domain>) returns (fa: Addr, ok: bool)
    requires |token| == TOKENS && i0 <= 4 && fa0.node == -1 && fa0.p == -1 && fa0.domain == ""
    ensures var r := ParseNode(token, fa0.z, fa0.net, i0, ds); ok == r.Some? && (ok ==> fa == r.value)
  {
    fa := fa0;
    var i := i0;
    if token[i].Num? {
      fa := fa.(node := token[i].n);
      i := i + 1;
    } else if token[i] != Sep('.') {
      return fa, false;
    }
    if token[i] == Sep('.') {
      if !token[i + 1].Num? {
        return fa, false;
      }
      fa := fa.(p := token[i + 1].n);
      i := i + 2;
    }
    fa, ok := DomainOf(token, fa, i, ds);
  }

  method AddressOf(token: seq<Token>, ds: seq<Domain>) returns (fa: Addr, ok: bool)
    requires |token| == TOKENS
    ensures var r := ParseTokens(token, ds); ok == r.Some? && (ok ==> fa == r.value)
  {
    fa := Addr(-1, -1, -1, -1, "");
    var i := 0;
    if token[i].Num? && token[i + 1] == Sep(':') {
      fa := fa.(z := token[i].n);
      i := i + 2;
    }
    if token[i].Num? && token[i + 1] == Sep('/') {
      fa := fa.(net := token[i].n);
      i := i + 1;
    }
    if token[i] == Sep('/') {
      i := i + 1;
    }
    fa, ok := NodeOf(token, fa, i, ds);
  }

  /** parse_ftnaddress */
  method ParseFtnaddress(s: string, ds: seq<Domain>) returns (fa: Addr, ok: bool)
    ensures var r := Parse(s, ds); ok == r.Some? && (ok ==> fa == r.value)
  {
    fa := Addr(-1, -1, -1, -1, "");
    var token;
    token, ok := GetTokens(s, TOKENS);
    if ok {
      fa, ok := AddressOf(token, ds);
    }
  }

  /** xftnaddress_to_str */
  method XftnaddressToStr(fa: Addr, forcePoint: bool) returns (s: string)
    ensures s == Print(fa, forcePoint)
  {
    s := if fa.z != -1 then Int(fa.z) + ":" else "";
    s := s + if fa.net != -1 then Int(fa.net) else "";
    s := s + if fa.node != -1 then "/" + Int(fa.node) else "";
    s := s + if fa.p != 0 || fa.node == -1 || forcePoint then "." + Int(fa.p) else "";
    s := s + if fa.domain != "" then "@" + fa.domain else "";
  }
}
