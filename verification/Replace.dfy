/** ed(): replaces every occurrence of one string in another, ignoring case, in the buffer that holds it. */
module Replace {

  // ---- what it computes ----

  /** `a` occurs at the start of `s`. `lower` is tolower. */
  ghost predicate Starts(lower: char -> char, s: string, a: string) {
    |a| <= |s| && forall k :: 0 <= k < |a| ==> lower(s[k]) == lower(a[k])
  }

  /** From left to right; what has been put in is not looked at again. */
  ghost function ReplaceAll(lower: char -> char, s: string, a: string, b: string): string
    requires a != ""
    decreases |s|
  {
    if s == "" then ""
    else if Starts(lower, s, a) then b + ReplaceAll(lower, s[|a|..], a, b)
    else s[..1] + ReplaceAll(lower, s[1..], a, b)
  }

  lemma {:induction false} NoRoom(lower: char -> char, s: string, a: string, b: string)
    requires |s| < |a|
    ensures ReplaceAll(lower, s, a, b) == s
  {
    if s != "" {
      NoRoom(lower, s[1..], a, b);
    }
  }

  // ---- the same without recursion over the text ----

  /** gaps[0] hits[0] gaps[1] hits[1] ... gaps[n] */
  function Weave(gaps: seq<string>, hits: seq<string>): string
    requires |gaps| == |hits| + 1
  {
    if hits == [] then gaps[0] else gaps[0] + (hits[0] + Weave(gaps[1..], hits[1..]))
  }

  /** The text falls into occurrences and the gaps between them, and no occurrence begins in a gap: so each one taken
      is the leftmost after the one before it. */
  ghost predicate Leftmost(lower: char -> char, s: string, a: string, gaps: seq<string>, hits: seq<string>)
    decreases |hits|
  {
    && |gaps| == |hits| + 1
    && s == Weave(gaps, hits)
    && (forall i :: 0 <= i < |gaps[0]| ==> !Starts(lower, s[i..], a))
    && (hits != [] ==>
          && |hits[0]| == |a| && Starts(lower, hits[0], a)
          && Leftmost(lower, Weave(gaps[1..], hits[1..]), a, gaps[1..], hits[1..]))
  }

  function Copies(b: string, n: nat): (r: seq<string>)
    ensures |r| == n
  {
    seq(n, i => b)
  }

  lemma {:induction false} SkipGap(lower: char -> char, s: string, n: nat, a: string, b: string)
    requires a != "" && n <= |s| && forall i :: 0 <= i < n ==> !Starts(lower, s[i..], a)
    ensures ReplaceAll(lower, s, a, b) == s[..n] + ReplaceAll(lower, s[n..], a, b)
  {
    if n == 0 {
      assert s[0..] == s;
    } else {
      assert s[0..] == s;
      forall i | 0 <= i < n - 1 ensures !Starts(lower, s[1..][i..], a) {
        assert s[1..][i..] == s[i + 1..];
      }
      SkipGap(lower, s[1..], n - 1, a, b);
      assert s[1..][n - 1..] == s[n..] && s[..n] == s[..1] + s[1..][..n - 1];
    }
  }

  /** ReplaceAll puts `b` in the place of each of the leftmost, non-overlapping occurrences. */
  lemma {:induction false} ReplaceAllIs(lower: char -> char, s: string, a: string, b: string, gaps: seq<string>,
      hits: seq<string>)
    requires a != "" && Leftmost(lower, s, a, gaps, hits)
    ensures ReplaceAll(lower, s, a, b) == Weave(gaps, Copies(b, |hits|))
    decreases |hits|
  {
    var n := |gaps[0]|;
    assert s[..n] == gaps[0];
    SkipGap(lower, s, n, a, b);
    if hits == [] {
      assert s[n..] == "";
    } else {
      var rest := Weave(gaps[1..], hits[1..]);
      assert s[n..] == hits[0] + rest;
      assert Starts(lower, s[n..], a) by {
        assert forall k :: 0 <= k < |a| ==> s[n..][k] == hits[0][k];
      }
      assert s[n..][|a|..] == rest;
      ReplaceAllIs(lower, rest, a, b, gaps[1..], hits[1..]);
      assert Copies(b, |hits|)[1..] == Copies(b, |hits| - 1);
    }
  }

  lemma DividesHit(lower: char -> char, s: string, a: string, gaps: seq<string>, hits: seq<string>)
    requires a != "" && Starts(lower, s, a) && Leftmost(lower, s[|a|..], a, gaps, hits)
    ensures Leftmost(lower, s, a, [""] + gaps, [s[..|a|]] + hits)
  {
    assert ([""] + gaps)[1..] == gaps && ([s[..|a|]] + hits)[1..] == hits;
    assert s == "" + (s[..|a|] + s[|a|..]);
  }

  lemma DividesMiss(lower: char -> char, s: string, a: string, gaps: seq<string>, hits: seq<string>)
    requires s != "" && !Starts(lower, s, a) && Leftmost(lower, s[1..], a, gaps, hits)
    ensures Leftmost(lower, s, a, gaps[0 := s[..1] + gaps[0]], hits)
  {
    var wider := gaps[0 := s[..1] + gaps[0]];
    assert wider[1..] == gaps[1..];
    assert s == Weave(wider, hits) by {
      assert s == s[..1] + s[1..];
      if hits != [] {
        Regroup(s[..1], gaps[0], hits[0] + Weave(gaps[1..], hits[1..]));
      }
    }
    forall i | 0 <= i < |wider[0]| ensures !Starts(lower, s[i..], a) {
      if i == 0 {
        assert s[0..] == s;
      } else {
        assert s[i..] == s[1..][i - 1..];
      }
    }
  }

  lemma Regroup(x: string, y: string, z: string)
    ensures (x + y) + z == x + (y + z)
  {
  }

  /** There is always such a division of the text. */
  lemma {:induction false} AlwaysDivides(lower: char -> char, s: string, a: string)
    returns (gaps: seq<string>, hits: seq<string>)
    requires a != ""
    ensures Leftmost(lower, s, a, gaps, hits)
    decreases |s|
  {
    if s == "" {
      return [""], [];
    }
    if Starts(lower, s, a) {
      gaps, hits := AlwaysDivides(lower, s[|a|..], a);
      DividesHit(lower, s, a, gaps, hits);
      gaps, hits := [""] + gaps, [s[..|a|]] + hits;
    } else {
      gaps, hits := AlwaysDivides(lower, s[1..], a);
      DividesMiss(lower, s, a, gaps, hits);
      gaps := gaps[0 := s[..1] + gaps[0]];
    }
  }

  // ---- tools.c ----

  method Memmove(r: array<char>, dst: nat, src: nat, n: nat)
    requires dst + n <= r.Length && src + n <= r.Length
    modifies r
    ensures r[..] == old(r[..dst] + r[src..src + n] + r[dst + n..])
  {
    forall k | 0 <= k < n {
      r[dst + k] := r[src + k];
    }
  }

  method Memcpy(r: array<char>, dst: nat, b: string)
    requires dst + |b| <= r.Length
    modifies r
    ensures r[..] == old(r[..dst]) + b + old(r[dst + |b|..])
  {
    forall k | 0 <= k < |b| {
      r[dst + k] := b[k];
    }
  }

  method Realloc(r: array<char>, sz: nat) returns (t: array<char>)
    requires r.Length <= sz
    ensures fresh(t) && t.Length == sz && r[..] <= t[..]
  {
    t := new char[sz];
    forall k | 0 <= k < r.Length {
      t[k] := r[k];
    }
  }

  /** A buffer holds the C string `s`. */
  ghost predicate Holds(r: array<char>, s: string)
    reads r
  {
    Stored(r[..], s)
  }

  ghost predicate Stored(v: string, s: string) { '\0' !in s && s + ['\0'] <= v }

  lemma StoredAt(v: string, s: string, k: nat)
    requires Stored(v, s) && k <= |s|
    ensures k < |v| && v[k] == (if k < |s| then s[k] else '\0') && (v[k] == '\0' <==> k == |s|)
  {
    assert v[k] == (s + ['\0'])[k];
  }

  /** What memmove and memcpy make of a buffer. */
  lemma Spliced(v: string, s: string, i: nat, n: nat, b: string)
    requires Stored(v, s) && '\0' !in b && i + n <= |s| && |s| - n + |b| < |v|
    ensures var w := v[..i + |b|] + v[i + n..|s| + 1] + v[|s| + 1 - n + |b|..];
      |w| == |v| && Stored(w[..i] + b + w[i + |b|..], s[..i] + b + s[i + n..])
  {
    var w := v[..i + |b|] + v[i + n..|s| + 1] + v[|s| + 1 - n + |b|..];
    var x, y := w[..i] + b + w[i + |b|..], s[..i] + b + s[i + n..] + ['\0'];
    assert x == w[..i] + b + (v[i + n..|s| + 1] + v[|s| + 1 - n + |b|..]);
    assert s + ['\0'] == v[..|s| + 1];
    assert v[i + n..|s| + 1] == v[..|s| + 1][i + n..] == s[i + n..] + ['\0'];
    assert w[..i] == v[..i] == v[..|s| + 1][..i] == s[..i];
    assert x == y + v[|s| + 1 - n + |b|..];
  }

  /** memmove, when the lengths differ, and memcpy. */
  method Overwrite(r: array<char>, ghost v: string, sr: nat, i: nat, lenA: nat, b: string)
    requires r[..] == v && sr < |v| && i + lenA <= sr && sr - lenA + |b| < |v|
    modifies r
    ensures var w := v[..i + |b|] + v[i + lenA..sr + 1] + v[sr + 1 - lenA + |b|..];
      r[..] == w[..i] + b + w[i + |b|..]
  {
    ghost var w := v[..i + |b|] + v[i + lenA..sr + 1] + v[sr + 1 - lenA + |b|..];
    if lenA != |b| {
      Memmove(r, i + |b|, i + lenA, sr - i - lenA + 1);
    }
    assert r[..] == w;
    Memcpy(r, i, b);
    assert r[..] == w[..i] + b + w[i + |b|..];
  }

  method Grow(r0: array<char>, ghost s: string, need: nat, more: nat) returns (r: array<char>)
    requires Holds(r0, s) && need < r0.Length + more
    ensures r == r0 || fresh(r)
    ensures r.Length == if need >= r0.Length then r0.Length + more else r0.Length
    ensures Holds(r, s) && need < r.Length
  {
    r := r0;
    if need >= r.Length {
      r := Realloc(r0, r0.Length + more);
    }
  }

  /** The occurrence at `i` gives way to `b`: the buffer grows when it must, and nothing is written beyond its size. */
  method Put(r0: array<char>, ghost s: string, sr: nat, i: nat, lenA: nat, b: string) returns (r: array<char>)
    requires sr == |s| && Holds(r0, s) && '\0' !in b && i + lenA <= sr
    modifies r0
    ensures r == r0 || fresh(r)
    ensures r.Length == if sr - lenA + |b| >= r0.Length then r0.Length + (if |b| < 64 then 64 else |b|) else r0.Length
    ensures Holds(r, s[..i] + b + s[i + lenA..])
  {
    StoredAt(r0[..], s, sr);
    r := Grow(r0, s, sr - lenA + |b|, if |b| < 64 then 64 else |b|);
    Spliced(r[..], s, i, lenA, b);
    Overwrite(r, r[..], sr, i, lenA, b);
  }

  method Strlen(r: array<char>, ghost s: string) returns (n: nat)
    requires Holds(r, s)
    ensures n == |s|
  {
    n := 0;
    StoredAt(r[..], s, n);
    while r[n] != '\0'
      invariant n <= |s| && n < r.Length && (r[n] == '\0' <==> n == |s|)
      decreases |s| - n
    {
      n := n + 1;
      StoredAt(r[..], s, n);
    }
  }

  /** The buffer holds `now`; everything before `at` is done, and the text at `at` begins with `j` characters of the
      pattern. */
  ghost predicate Scan(lower: char -> char, all: string, now: string, at: int, j: nat, a: string, b: string) {
    && 0 <= at && at + j <= |now| && j < |a|
    && all == now[..at] + ReplaceAll(lower, now[at..], a, b)
    && Starts(lower, now[at..], a[..j])
  }

  lemma ScanMiss(lower: char -> char, all: string, now: string, at: int, j: nat, a: string, b: string)
    requires Scan(lower, all, now, at, j, a, b) && at + j < |now| && lower(now[at + j]) != lower(a[j])
    ensures Scan(lower, all, now, at + 1, 0, a, b)
  {
    var rest := now[at..];
    assert rest[j] == now[at + j];
    assert ReplaceAll(lower, rest, a, b) == rest[..1] + ReplaceAll(lower, rest[1..], a, b);
    assert now[..at + 1] == now[..at] + rest[..1] && now[at + 1..] == rest[1..];
  }

  lemma ScanMore(lower: char -> char, all: string, now: string, at: int, j: nat, a: string, b: string)
    requires Scan(lower, all, now, at, j, a, b) && at + j < |now| && lower(now[at + j]) == lower(a[j]) && j + 1 < |a|
    ensures Scan(lower, all, now, at, j + 1, a, b)
  {
    assert forall k :: 0 <= k < j ==> a[..j + 1][k] == a[..j][k];
  }

  lemma ScanHit(lower: char -> char, all: string, now: string, at: int, j: nat, a: string, b: string)
    requires Scan(lower, all, now, at, j, a, b) && at + j < |now| && lower(now[at + j]) == lower(a[j]) && j + 1 == |a|
    ensures Scan(lower, all, now[..at] + b + now[at + |a|..], at + |b|, 0, a, b)
    ensures |now[..at] + b + now[at + |a|..]| == |now| + |b| - |a|
  {
    var rest, next := now[at..], now[..at] + b + now[at + |a|..];
    assert forall k :: 0 <= k < j ==> a[k] == a[..j][k];
    assert ReplaceAll(lower, rest, a, b) == b + ReplaceAll(lower, rest[|a|..], a, b);
    assert next[..at + |b|] == now[..at] + b && next[at + |b|..] == rest[|a|..];
  }

  lemma ScanEnd(lower: char -> char, all: string, now: string, at: int, j: nat, a: string, b: string)
    requires Scan(lower, all, now, at, j, a, b) && at + j == |now|
    ensures now == all
  {
    NoRoom(lower, now[at..], a, b);
  }

  /** The pattern ends at `i`: the occurrence, which begins at `at`, gives way to `b`. */
  method Hit(lower: char -> char, r0: array<char>, ghost all: string, ghost now: string, at: nat, sr: nat, a: string,
      b: string) returns (r: array<char>, ghost next: string)
    requires Holds(r0, now) && sr == |now| && '\0' !in b && a != "" && at + |a| <= sr
    requires Scan(lower, all, now, at, |a| - 1, a, b) && lower(now[at + |a| - 1]) == lower(a[|a| - 1])
    modifies r0
    ensures r == r0 || fresh(r)
    ensures Holds(r, next) && |next| == sr + |b| - |a| && Scan(lower, all, next, at + |b|, 0, a, b)
  {
    r := Put(r0, now, sr, at, |a|, b);
    next := now[..at] + b + now[at + |a|..];
    ScanHit(lower, all, now, at, |a| - 1, a, b);
  }

  /** One round of the loop of ed(); the text at `at` begins with `j0` characters of the pattern. */
  method Round(lower: char -> char, r0: array<char>, ghost all: string, ghost now: string, i0: nat, j0: nat, sr0: nat,
      a: string, b: string, ghost at: nat)
    returns (r: array<char>, i: int, j: nat, sr: nat, ghost next: string, ghost at': nat)
    requires Holds(r0, now) && sr0 == |now| && i0 < sr0 && '\0' !in b
    requires i0 == at + j0 && Scan(lower, all, now, at, j0, a, b)
    modifies r0
    ensures r == r0 || fresh(r)
    ensures Holds(r, next) && sr == |next| && i <= sr
    ensures i == at' + j && Scan(lower, all, next, at', j, a, b)
    ensures |next| - at' < |now| - at || (|next| - at' == |now| - at && j == j0 + 1)
  {
    r, i, j, sr, next, at' := r0, i0, j0, sr0, now, at;
    StoredAt(r[..], now, i);
    if lower(r[i]) != lower(a[j]) {
      ScanMiss(lower, all, now, at, j0, a, b);
      i := i - j;
      j, at' := 0, at + 1;
    } else {
      j := j + 1;
      if j < |a| {
        ScanMore(lower, all, now, at, j0, a, b);
      } else {
        i := i - (|a| - 1);
        r, next := Hit(lower, r, all, now, i, sr, a, b);
        j, at' := 0, at + |b|;
        i := i + |b| - 1;
        sr := sr + |b| - |a|;
      }
    }
    i := i + 1;
  }

  /** ed() for a pattern that is not empty. */
  method Edit(lower: char -> char, r0: array<char>, ghost s: string, a: string, b: string) returns (r: array<char>)
    requires Holds(r0, s) && a != "" && '\0' !in b
    modifies r0
    ensures r == r0 || fresh(r)
    ensures Holds(r, ReplaceAll(lower, s, a, b))
  {
    ghost var all := ReplaceAll(lower, s, a, b);
    r := r0;
    var sr := Strlen(r, s);
    var i: int, j: nat := 0, 0;
    ghost var now, at := s, 0;
    assert s[0..] == s;
    while i < sr
      invariant r == r0 || fresh(r)
      invariant Holds(r, now) && sr == |now| && i <= sr
      invariant i == at + j && at >= 0 && Scan(lower, all, now, at, j, a, b)
      decreases |now| - at, |a| - j
    {
      r, i, j, sr, now, at := Round(lower, r, all, now, i, j, sr, a, b, at);
    }
    ScanEnd(lower, all, now, at, j, a, b);
  }

  /** ed(): in the buffer of the caller when its size is given, else in a copy. Without a pattern the text stays as
      it is. */
  method Ed(lower: char -> char, text: array<char>, ghost s: string, a: string, b: string, sized: bool)
    returns (r: array<char>)
    requires Holds(text, s) && '\0' !in b
    modifies text
    ensures Holds(r, if a == "" then s else ReplaceAll(lower, s, a, b))
    ensures a == "" ==> r == text
    ensures a == "" || !sized ==> text[..] == old(text[..])
    ensures a != "" && !sized ==> fresh(r)
    ensures r == text || fresh(r)
  {
    if a == "" {
      return text;
    }
    if sized {
      r := Edit(lower, text, s, a, b);
    } else {
      var n := Strlen(text, s);
      var copy := new char[n + 1];
      forall k | 0 <= k <= n {
        copy[k] := text[k];
      }
      assert copy[..] == text[..n + 1] == s + ['\0'];
      r := Edit(lower, copy, s, a, b);
    }
  }
}
