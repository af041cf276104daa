/** File name masks: the two matchers of the repository against one relation between a pattern and a name. */
module Glob {
  import opened Options

  /** `Exact` is an escaped character, which is compared with its case, as are those of a set; `Open` is a set whose
      end is sought behind the end of the pattern. */
  datatype Token = Lit(c: char) | Exact(c: char) | Any | Star | Set(neg: bool, ranges: seq<(char, char)>) | Open

  /** toupper; only the end of a string maps to the end of a string. */
  ghost predicate Upper(up: char -> char) {
    up('\0') == '\0' && forall c :: up(c) == '\0' ==> c == '\0'
  }

  predicate Fits(up: char -> char, t: Token, piece: string) {
    match t
    case Star => true
    case Any => |piece| == 1
    case Lit(c) => |piece| == 1 && up(piece[0]) == up(c)
    case Exact(c) => |piece| == 1 && piece[0] == c
    case Set(neg, ranges) => |piece| == 1 && InRanges(ranges, piece[0]) != neg
    case Open => false
  }

  predicate InRanges(ranges: seq<(char, char)>, c: char) {
    exists i :: 0 <= i < |ranges| && ranges[i].0 <= c <= ranges[i].1
  }

  function Flatten(pieces: seq<string>): string {
    if pieces == [] then "" else pieces[0] + Flatten(pieces[1..])
  }

  /** The name falls into pieces, one for each token. */
  ghost predicate Cuts(up: char -> char, ts: seq<Token>, s: string, pieces: seq<string>) {
    && |pieces| == |ts| && Flatten(pieces) == s
    && forall i :: 0 <= i < |ts| ==> Fits(up, ts[i], pieces[i])
  }

  ghost predicate Matches(up: char -> char, ts: seq<Token>, s: string) {
    exists pieces :: Cuts(up, ts, s, pieces)
  }

  // ---- one token at a time ----

  lemma MatchEnd(up: char -> char, s: string)
    ensures Matches(up, [], s) <==> s == ""
  {
    if s == "" { assert Cuts(up, [], s, []); }
  }

  lemma MatchOne(up: char -> char, t: Token, ts: seq<Token>, s: string)
    requires t != Star
    ensures Matches(up, [t] + ts, s) <==> s != "" && Fits(up, t, s[..1]) && Matches(up, ts, s[1..])
  {
    var tts := [t] + ts;
    if Matches(up, tts, s) {
      var pieces :| Cuts(up, tts, s, pieces);
      assert Fits(up, tts[0], pieces[0]);
      assert s[..1] == pieces[0] && s[1..] == Flatten(pieces[1..]);
      Rest(up, t, ts, s, pieces);
    }
    if s != "" && Fits(up, t, s[..1]) && Matches(up, ts, s[1..]) {
      var pieces :| Cuts(up, ts, s[1..], pieces);
      Prefixed(up, t, ts, s[..1], s[1..], pieces);
      assert s[..1] + s[1..] == s;
    }
  }

  lemma Rest(up: char -> char, t: Token, ts: seq<Token>, s: string, pieces: seq<string>)
    requires Cuts(up, [t] + ts, s, pieces)
    ensures Cuts(up, ts, Flatten(pieces[1..]), pieces[1..])
  {
    forall i | 0 <= i < |ts| ensures Fits(up, ts[i], pieces[1..][i]) {
      assert ([t] + ts)[i + 1] == ts[i];
    }
  }

  lemma Prefixed(up: char -> char, t: Token, ts: seq<Token>, a: string, s: string, pieces: seq<string>)
    requires Fits(up, t, a) && Cuts(up, ts, s, pieces)
    ensures Matches(up, [t] + ts, a + s)
  {
    var all := [a] + pieces;
    assert all[1..] == pieces;
    assert Cuts(up, [t] + ts, a + s, all);
  }

  lemma MatchStar(up: char -> char, ts: seq<Token>, s: string)
    ensures Matches(up, [Star] + ts, s) <==> exists k :: 0 <= k <= |s| && Matches(up, ts, s[k..])
  {
    if Matches(up, [Star] + ts, s) {
      var pieces :| Cuts(up, [Star] + ts, s, pieces);
      Rest(up, Star, ts, s, pieces);
      var k := |pieces[0]|;
      assert s[k..] == Flatten(pieces[1..]);
    }
    if k :| 0 <= k <= |s| && Matches(up, ts, s[k..]) {
      var pieces :| Cuts(up, ts, s[k..], pieces);
      Prefixed(up, Star, ts, s[..k], s[k..], pieces);
      assert s[..k] + s[k..] == s;
    }
  }

  // ---- patterns ----

  /** The character at a position of a C string. */
  function At(s: string, i: nat): char { if i < |s| then s[i] else '\0' }

  predicate CString(s: string) { '\0' !in s }

  const UNCLOSED := -1
  const BEHIND := -2

  /** Behind the character at `i`; an escape takes two. */
  function Behind(pat: string, i: nat): nat { if At(pat, i) == '\\' then i + 2 else i + 1 }

  /** The bracket that closes a set, from the character at `i` on. */
  function SetEnd(pat: string, i: nat): (e: int)
    requires i <= |pat|
    ensures e == UNCLOSED || e == BEHIND || (i < e < |pat| && pat[e] == ']')
    decreases |pat| - i
  {
    if i == |pat| then UNCLOSED else
    var j := Behind(pat, i);
    if j > |pat| then BEHIND else if At(pat, j) == ']' then j else SetEnd(pat, j)
  }

  /** The member at `i`, and where the next one begins. */
  function Member(pat: string, i: nat): (nat, (char, char)) {
    var j := if At(pat, i) == '\\' then i + 1 else i;
    if At(pat, j + 1) == '-' && At(pat, j + 2) != ']' then
      var h := if At(pat, j + 2) == '\\' then j + 3 else j + 2; (h + 1, (At(pat, j), At(pat, h)))
    else
      (j + 1, (At(pat, j), At(pat, j)))
  }

  /** The members of a set: characters, and ranges of characters. */
  function Ranges(pat: string, i: nat, e: nat): seq<(char, char)>
    decreases e - i
  {
    if i >= e then [] else [Member(pat, i).1] + Ranges(pat, Member(pat, i).0, e)
  }

  /** Where the first member of the set at `p` is. */
  function SetStart(pat: string, p: nat): nat
    requires p < |pat|
  {
    if At(pat, p + 1) == '!' then p + 2 else p + 1
  }

  /** The first token from `p` on, and where the next one begins. */
  function First(escapes: bool, pat: string, p: nat): (r: (nat, Token))
    requires p < |pat|
    ensures p < r.0 <= |pat|
  {
    var c := pat[p];
    if c == '?' then (p + 1, Any)
    else if c == '*' then (p + 1, Star)
    else if escapes && c == '\\' then (if p + 1 < |pat| then p + 2 else p + 1, Exact(At(pat, p + 1)))
    else if escapes && c == '[' then
      var i := SetStart(pat, p);
      var e := SetEnd(pat, i);
      if e == UNCLOSED then (p + 1, Lit(c))
      else if e == BEHIND then (|pat|, Open)
      else (e + 1, Set(i == p + 2, Ranges(pat, i, e)))
    else (p + 1, Lit(c))
  }

  /** The tokens of the pattern from `p` on; wildmatch knows no escapes and no sets. */
  function Tokens(escapes: bool, pat: string, p: nat): seq<Token>
    requires p <= |pat|
    decreases |pat| - p
  {
    if p == |pat| then [] else var (n, t) := First(escapes, pat, p); [t] + Tokens(escapes, pat, n)
  }

  /** With these tokens xpmatch can run on behind the end of the name or of the pattern. */
  predicate Loose(t: Token) { t == Exact('\0') || t == Open || (t.Set? && t.neg) }

  predicate Firm(ts: seq<Token>) { forall i :: 0 <= i < |ts| ==> !Loose(ts[i]) }

  /** The pattern from `p` on matches the name from `q` on. */
  ghost predicate From(up: char -> char, escapes: bool, pat: string, p: nat, s: string, q: nat)
    requires p <= |pat| && q <= |s|
  {
    Matches(up, Tokens(escapes, pat, p), s[q..])
  }

  /** ... from `q` or a later position on. */
  ghost predicate Later(up: char -> char, escapes: bool, pat: string, p: nat, s: string, q: nat)
    requires p <= |pat|
  {
    exists k: nat :: q <= k <= |s| && From(up, escapes, pat, p, s, k)
  }

  /** The first token of the pattern from `p` on, when it is not a star. */
  lemma FromOne(up: char -> char, escapes: bool, pat: string, p: nat, s: string, q: nat)
    requires p < |pat| && q <= |s| && pat[p] != '*'
    ensures var (n, t) := First(escapes, pat, p);
      && (From(up, escapes, pat, p, s, q) <==>
          q < |s| && Fits(up, t, [s[q]]) && From(up, escapes, pat, n, s, q + 1))
      && (Firm(Tokens(escapes, pat, p)) ==> !Loose(t) && Firm(Tokens(escapes, pat, n)))
  {
    var (n, t) := First(escapes, pat, p);
    var ts := Tokens(escapes, pat, n);
    MatchOne(up, t, ts, s[q..]);
    if q < |s| {
      assert s[q..][1..] == s[q + 1..] && s[q..][..1] == [s[q]];
    }
    FirmRest(t, ts);
  }

  lemma FirmRest(t: Token, ts: seq<Token>)
    ensures Firm([t] + ts) <==> !Loose(t) && Firm(ts)
  {
    assert forall i :: 0 <= i < |ts| ==> ([t] + ts)[i + 1] == ts[i];
    assert ([t] + ts)[0] == t;
  }

  lemma FromStar(up: char -> char, escapes: bool, pat: string, p: nat, s: string, q: nat)
    requires p < |pat| && q <= |s| && pat[p] == '*'
    ensures From(up, escapes, pat, p, s, q) <==> Later(up, escapes, pat, p + 1, s, q)
    ensures Firm(Tokens(escapes, pat, p)) ==> Firm(Tokens(escapes, pat, p + 1))
  {
    var ts := Tokens(escapes, pat, p + 1);
    FirmRest(Star, ts);
    MatchStar(up, ts, s[q..]);
    if k :| 0 <= k <= |s[q..]| && Matches(up, ts, s[q..][k..]) {
      assert s[q..][k..] == s[q + k..];
      assert From(up, escapes, pat, p + 1, s, q + k);
    }
    if Later(up, escapes, pat, p + 1, s, q) {
      var p1 := p + 1;
      var k :| q <= k <= |s| && From(up, escapes, pat, p1, s, k);
      assert s[q..][k - q..] == s[k..];
    }
  }

  lemma FromEnd(up: char -> char, escapes: bool, pat: string, s: string, q: nat)
    requires q <= |s|
    ensures From(up, escapes, pat, |pat|, s, q) <==> q == |s|
  {
    MatchEnd(up, s[q..]);
  }

  // ---- pmatch.c ----

  /** What xpmatch compares with: without `ncase`, the characters themselves. */
  function Fold(up: char -> char, ncase: bool): char -> char { if ncase then up else (c: char) => c }

  /** Where the set ends whose first member is at `i`. */
  method FindEnd(pat: string, i: nat) returns (e: int)
    requires i <= |pat|
    ensures e == SetEnd(pat, i)
  {
    var endp := i;
    while true
      invariant endp <= |pat| && SetEnd(pat, endp) == SetEnd(pat, i)
      decreases |pat| - endp
    {
      if endp == |pat| {
        return UNCLOSED;
      }
      endp := if pat[endp] == '\\' then endp + 2 else endp + 1;
      if endp > |pat| {
        return BEHIND;
      }
      if At(pat, endp) == ']' {
        return endp;
      }
    }
  }

  lemma Inside(pat: string, i: nat, e: nat)
    requires i <= |pat| && SetEnd(pat, i) == e
    ensures var n := Behind(pat, i);
      i < n <= e && i < |pat| && (if At(pat, n) == ']' then n == e else SetEnd(pat, n) == e)
  {
  }

  /** A member, and the range that it may begin, end before the bracket that closes the set. */
  lemma MemberEnds(pat: string, i: nat, e: nat)
    requires CString(pat) && i <= |pat| && SetEnd(pat, i) == e
    ensures var n := Member(pat, i).0;
      i < n <= e && (if At(pat, n) == ']' then n == e else SetEnd(pat, n) == e)
  {
    Inside(pat, i, e);
    var j := Behind(pat, i);
    if At(pat, j) == '-' && At(pat, j + 1) != ']' {
      Inside(pat, j, e);
      Inside(pat, j + 1, e);
    }
  }

  /** One round of the loop over the members. */
  method OneMember(pat: string, i: nat, chr: char) returns (hit: bool, n: nat)
    requires i < |pat| && Member(pat, i).0 <= |pat|
    ensures n == Member(pat, i).0
    ensures var r := Member(pat, i).1; hit <==> r.0 <= chr <= r.1
  {
    var p := i;
    if pat[p] == '\\' {
      p := p + 1;
    }
    var c := pat[p];
    p := p + 1;
    if At(pat, p) == '-' && At(pat, p + 1) != ']' {
      p := p + 1;
      if At(pat, p) == '\\' {
        p := p + 1;
      }
      return c <= chr <= At(pat, p), p + 1;
    }
    return chr == c, p;
  }

  /** Whether `chr` is in the set whose first member is at `i`. */
  method InSet(pat: string, i: nat, e: nat, chr: char) returns (found: bool)
    requires CString(pat) && i <= |pat| && SetEnd(pat, i) == e
    ensures found <==> InRanges(Ranges(pat, i, e), chr)
  {
    var p := i;
    found := false;
    var more := true;
    while more
      invariant i <= p <= e && (if more then SetEnd(pat, p) == e else p == e)
      invariant InRanges(Ranges(pat, i, e), chr) <==> found || InRanges(Ranges(pat, p, e), chr)
      decreases e - p, more
    {
      MemberEnds(pat, p, e);
      InMore(Member(pat, p).1, Ranges(pat, Member(pat, p).0, e), chr);
      var hit, n := OneMember(pat, p, chr);
      if hit {
        found := true;
      }
      p := n;
      more := At(pat, p) != ']';
    }
  }

  lemma InMore(r: (char, char), rs: seq<(char, char)>, c: char)
    ensures InRanges([r] + rs, c) <==> r.0 <= c <= r.1 || InRanges(rs, c)
  {
    var all := [r] + rs;
    if r.0 <= c <= r.1 { assert all[0].0 <= c <= all[0].1; }
    if i :| 0 <= i < |rs| && rs[i].0 <= c <= rs[i].1 { assert all[i + 1].0 <= c <= all[i + 1].1; }
  }

  /** No set has the character that ends a string. */
  lemma {:induction false} NoNul(pat: string, i: nat, e: nat)
    requires CString(pat) && i <= |pat| && (i == e || SetEnd(pat, i) == e)
    ensures !InRanges(Ranges(pat, i, e), '\0')
    decreases e - i
  {
    if i < e {
      MemberEnds(pat, i, e);
      var (n, r) := Member(pat, i);
      NoNul(pat, n, e);
      InMore(r, Ranges(pat, n, e), '\0');
    }
  }

  /** What xpmatch does with the token at `p`, which is no star; None when it runs on behind a string. */
  method OneToken(up: char -> char, pat: string, p: nat, s: string, q: nat, ncase: bool)
    returns (r: Option<bool>, n: nat)
    requires Upper(up) && CString(pat) && CString(s) && p < |pat| && q <= |s| && pat[p] != '*'
    ensures var (m, t) := First(true, pat, p);
      && n == m && (r.None? <==> Loose(t) && (q == |s| || t == Open))
      && (r.Some? ==> (r.value <==> q < |s| && Fits(Fold(up, ncase), t, [s[q]])))
  {
    var c := pat[p];
    n := p + 1;
    if c == '\\' {
      if p + 1 < |pat| { n := p + 2; }
      if At(s, q) != At(pat, p + 1) {
        return Some(false), n;
      }
      return if q < |s| then Some(true) else None, n;
    } else if c == '?' {
      return Some(At(s, q) != '\0'), n;
    } else if c == '[' {
      var i := if At(pat, p + 1) == '!' then p + 2 else p + 1;
      var e := FindEnd(pat, i);
      if e == BEHIND {
        return None, |pat|;
      }
      if e != UNCLOSED {
        var found := InSet(pat, i, e, At(s, q));
        NoNul(pat, i, e);
        if found == (i == p + 2) {
          return Some(false), e + 1;
        }
        return if q < |s| then Some(true) else None, e + 1;
      }
    }
    return Some(if ncase then up(At(s, q)) == up(c) else At(s, q) == c), n;
  }

  /** xpmatch from position `p0` of the pattern and `q0` of the string. */
  method Xpmatch(up: char -> char, pat: string, p0: nat, s: string, q0: nat, ncase: bool) returns (r: Option<bool>)
    requires Upper(up) && CString(pat) && CString(s) && p0 <= |pat| && q0 <= |s|
    ensures r.Some? ==> (r.value <==> From(Fold(up, ncase), true, pat, p0, s, q0))
    ensures Firm(Tokens(true, pat, p0)) ==> r.Some?
    decreases |pat| - p0, 0
  {
    ghost var fold := Fold(up, ncase);
    var p, q := p0, q0;
    while p < |pat|
      invariant p0 <= p <= |pat| && 0 <= q <= |s|
      invariant From(fold, true, pat, p0, s, q0) <==> From(fold, true, pat, p, s, q)
      invariant Firm(Tokens(true, pat, p0)) ==> Firm(Tokens(true, pat, p))
      decreases |pat| - p
    {
      if pat[p] == '*' {
        FromStar(fold, true, pat, p, s, q);
        r := XpmatchStar(up, pat, p + 1, s, q, ncase);
        return;
      }
      FromOne(fold, true, pat, p, s, q);
      r, p := OneToken(up, pat, p, s, q, ncase);
      if r != Some(true) {
        return;
      }
      q := q + 1;
    }
    FromEnd(fold, true, pat, s, q);
    r := Some(At(s, q) == '\0');
  }

  /** The case of a star before position `p`. */
  method XpmatchStar(up: char -> char, pat: string, p: nat, s: string, q0: nat, ncase: bool)
    returns (r: Option<bool>)
    requires Upper(up) && CString(pat) && CString(s) && p <= |pat| && q0 <= |s|
    ensures r.Some? ==> (r.value <==> Later(Fold(up, ncase), true, pat, p, s, q0))
    ensures Firm(Tokens(true, pat, p)) ==> r.Some?
    decreases |pat| - p, 1
  {
    ghost var fold := Fold(up, ncase);
    var q := q0;
    var c := At(pat, p);
    if c != '\\' && c != '?' && c != '*' && c != '[' {
      while At(s, q) != c
        invariant q0 <= q <= |s|
        invariant forall k :: q0 <= k < q ==> !From(fold, true, pat, p, s, k)
        decreases |s| - q
      {
        if ncase && up(At(s, q)) == up(c) {
          break;
        }
        NotHere(fold, pat, p, s, q);
        if At(s, q) == '\0' {
          return Some(false);
        }
        q := q + 1;
      }
    }
    while true
      invariant q0 <= q <= |s|
      invariant forall k :: q0 <= k < q ==> !From(fold, true, pat, p, s, k)
      decreases |s| - q
    {
      r := Xpmatch(up, pat, p, s, q, ncase);
      if r != Some(false) || At(s, q) == '\0' {
        return;
      }
      q := q + 1;
    }
  }

  /** An ordinary character, or the end of the pattern, does not match a different one. */
  lemma NotHere(fold: char -> char, pat: string, p: nat, s: string, q: nat)
    requires CString(s) && p <= |pat| && q <= |s|
    requires At(pat, p) !in {'\\', '?', '*', '['} && fold(At(s, q)) != fold(At(pat, p))
    ensures !From(fold, true, pat, p, s, q)
  {
    if p == |pat| {
      FromEnd(fold, true, pat, s, q);
    } else {
      FromOne(fold, true, pat, p, s, q);
    }
  }

  // ---- misc/portable.c ----

  method Wildmatch(up: char -> char, pat: string, p0: nat, s: string, q0: nat) returns (r: bool)
    requires Upper(up) && CString(pat) && CString(s) && p0 <= |pat| && q0 <= |s|
    ensures r <==> From(up, false, pat, p0, s, q0)
    decreases |pat| - p0, 1
  {
    var p, q := p0, q0;
    while At(pat, p) != '\0'
      invariant p0 <= p <= |pat| && 0 <= q <= |s|
      invariant From(up, false, pat, p0, s, q0) <==> From(up, false, pat, p, s, q)
      decreases |pat| - p
    {
      if pat[p] == '*' {
        r := WildmatchStar(up, pat, p, s, q);
        return;
      }
      FromOne(up, false, pat, p, s, q);
      if pat[p] == '?' {
        if At(s, q) == '\0' {
          return false;
        }
      } else if up(pat[p]) != up(At(s, q)) {
        return false;
      }
      p := p + 1;
      q := q + 1;
    }
    FromEnd(up, false, pat, s, q);
    r := At(s, q) == '\0';
  }

  method WildmatchStar(up: char -> char, pat: string, p0: nat, s: string, q0: nat) returns (r: bool)
    requires Upper(up) && CString(pat) && CString(s) && p0 < |pat| && q0 <= |s|
    requires pat[p0] == '*'
    ensures r <==> From(up, false, pat, p0, s, q0)
    decreases |pat| - p0, 0
  {
    var p := p0 + 1;
    FromStar(up, false, pat, p0, s, q0);
    while At(pat, p) == '*'
      invariant p0 < p <= |pat|
      invariant From(up, false, pat, p0, s, q0) <==> Later(up, false, pat, p, s, q0)
      decreases |pat| - p
    {
      OneStarMore(up, pat, p, s, q0);
      p := p + 1;
    }
    if At(pat, p) == '\0' {
      FromEnd(up, false, pat, s, |s|);
      return true;
    }
    var q := q0;
    while At(s, q) != '\0'
      invariant q0 <= q <= |s|
      invariant forall k :: q0 <= k < q ==> !From(up, false, pat, p, s, k)
      decreases |s| - q
    {
      r := Wildmatch(up, pat, p, s, q);
      if r {
        return;
      }
      q := q + 1;
    }
    // what is left of the pattern needs a character
    FromOne(up, false, pat, p, s, |s|);
    return false;
  }

  lemma OneStarMore(up: char -> char, pat: string, p: nat, s: string, q: nat)
    requires p < |pat| && q <= |s| && pat[p] == '*'
    ensures Later(up, false, pat, p, s, q) <==> Later(up, false, pat, p + 1, s, q)
  {
    var p1 := p + 1;
    if Later(up, false, pat, p, s, q) {
      var k: nat :| q <= k <= |s| && From(up, false, pat, p, s, k);
      FromStar(up, false, pat, p, s, k);
      var j: nat :| k <= j <= |s| && From(up, false, pat, p1, s, j);
    }
    if Later(up, false, pat, p1, s, q) {
      var k: nat :| q <= k <= |s| && From(up, false, pat, p1, s, k);
      FromStar(up, false, pat, p, s, k);
    }
  }

  // ---- the two agree ----

  lemma {:induction false} NoEscapes(pat: string, p: nat)
    requires CString(pat) && p <= |pat| && '\\' !in pat && '[' !in pat
    ensures Tokens(true, pat, p) == Tokens(false, pat, p) && Firm(Tokens(true, pat, p))
    decreases |pat| - p
  {
    if p < |pat| {
      assert pat[p] in pat;
      NoEscapes(pat, p + 1);
      FirmRest(First(true, pat, p).1, Tokens(true, pat, p + 1));
    }
  }

  /** On patterns of literals, question marks and stars the two matchers answer the same. */
  method Agree(up: char -> char, pat: string, s: string) returns (a: Option<bool>, b: bool)
    requires Upper(up) && CString(pat) && CString(s) && '\\' !in pat && '[' !in pat
    ensures a == Some(b)
    ensures b <==> Matches(up, Tokens(false, pat, 0), s)
  {
    NoEscapes(pat, 0);
    assert s[0..] == s;
    a := Xpmatch(up, pat, 0, s, 0, true);
    b := Wildmatch(up, pat, 0, s, 0);
  }
}
