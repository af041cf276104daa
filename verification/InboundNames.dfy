/** The names that are tried for a received file when its own name is taken, and the two loops that try them. */
module InboundNames {
  import opened Options
  import opened Numbers

  datatype Style = Postfix | Extension | Body

  const MAX_INB_RENAME := 10000

  // ---- digits ----

  /** Body counts in hexadecimal, Extension with all letters. */
  function Radix(style: Style): nat { if style == Body then 16 else 36 }

  function DigitValue(c: char): int {
    if '0' <= c <= '9' then c as int - '0' as int
    else if 'a' <= c <= 'z' then c as int - 'a' as int + 10
    else -1
  }

  predicate InRadix(style: Style, c: char) { 0 <= DigitValue(c) < Radix(style) }

  predicate Digits(style: Style, d: string) { forall i :: 0 <= i < |d| ==> InRadix(style, d[i]) }

  function Value(style: Style, d: string): int {
    if d == "" then 0 else Value(style, d[..|d| - 1]) * Radix(style) + DigitValue(d[|d| - 1])
  }

  /** The highest digit. */
  predicate IsTop(style: Style, c: char) { (style == Extension && c == 'z') || (style == Body && c == 'f') }

  /** One more, with the same number of digits; None when all of them are the highest. */
  function Inc(style: Style, d: string): Option<string>
    requires Digits(style, d)
  {
    if d == "" then None else
    var front, c := d[..|d| - 1], d[|d| - 1];
    if IsTop(style, c) then
      var r := Inc(style, front);
      if r.None? then None else Some(r.value + "0")
    else Some(front + [if c == '9' then 'a' else (c as int + 1) as char])
  }

  /** The last digit is one more, or it is the highest one and carries. */
  lemma LastStep(style: Style, v: int, c: char)
    requires style != Postfix && InRadix(style, c)
    ensures if IsTop(style, c) then (v + 1) * Radix(style) == v * Radix(style) + DigitValue(c) + 1
      else var n := if c == '9' then 'a' else (c as int + 1) as char;
        InRadix(style, n) && DigitValue(n) == DigitValue(c) + 1
  {
    if style == Body {
      assert Radix(style) == 16;
    } else {
      assert Radix(style) == 36;
    }
  }

  lemma {:induction false} IncValue(style: Style, d: string)
    requires style != Postfix && Digits(style, d)
    ensures Inc(style, d).Some? ==> var e := Inc(style, d).value;
      |e| == |d| && Digits(style, e) && Value(style, e) == Value(style, d) + 1
  {
    if d != "" && Inc(style, d).Some? {
      var front, c, e := d[..|d| - 1], d[|d| - 1], Inc(style, d).value;
      IncValue(style, front);
      LastStep(style, Value(style, front), c);
      if IsTop(style, c) {
        assert e[..|d| - 1] == Inc(style, front).value && e[|d| - 1] == '0';
      } else {
        assert e[..|d| - 1] == front;
      }
    }
  }

  /** When nothing can be added the number is the highest of its width. */
  lemma {:induction false} IncNone(style: Style, d: string, e: string)
    requires style != Postfix && Digits(style, d) && Inc(style, d).None? && |e| == |d| && Digits(style, e)
    ensures Value(style, e) <= Value(style, d)
  {
    if d != "" {
      IncNone(style, d[..|d| - 1], e[..|d| - 1]);
      assert IsTop(style, d[|d| - 1]) && InRadix(style, e[|d| - 1]);
    }
  }

  lemma LastDigit(style: Style, a: int, x: int, b: int, y: int)
    requires a * Radix(style) + x == b * Radix(style) + y && 0 <= x < Radix(style) && 0 <= y < Radix(style)
    ensures a == b && x == y
  {
  }

  lemma {:induction false} ValueOnce(style: Style, d: string, e: string)
    requires |d| == |e| && Digits(style, d) && Digits(style, e) && Value(style, d) == Value(style, e)
    ensures d == e
  {
    if d != "" {
      var n := |d| - 1;
      assert InRadix(style, d[n]) && InRadix(style, e[n]);
      LastDigit(style, Value(style, d[..n]), DigitValue(d[n]), Value(style, e[..n]), DigitValue(e[n]));
      ValueOnce(style, d[..n], e[..n]);
      assert d[n] == e[n];
      assert d == d[..n] + [d[n]] && e == e[..n] + [e[n]];
    }
  }

  lemma {:induction false} ZeroValue(style: Style, d: string)
    requires Digits(style, d)
    ensures Value(style, d) >= 0 && Value(style, Zeros(|d|)) == 0
  {
    if d != "" {
      ZeroValue(style, d[..|d| - 1]);
      assert Zeros(|d|)[..|d| - 1] == Zeros(|d| - 1);
    }
  }

  // ---- the order of the names ----

  /** The name as it came; with .`n` behind it; with the last characters of its body or extension replaced by `d`. */
  datatype Pos = Plain | Numbered(n: nat) | Counted(d: string)

  /** `full` is the length of the body or of the extension. */
  predicate Valid(style: Style, full: nat, p: Pos) {
    match p
    case Plain => true
    case Numbered(n) => style == Postfix && 1 <= n <= MAX_INB_RENAME + 1
    case Counted(d) => style != Postfix && 1 <= |d| <= full && Digits(style, d)
  }

  function NextPos(style: Style, full: nat, p: Pos): Option<Pos>
    requires Valid(style, full, p)
  {
    match p
    case Plain => if style == Postfix then Some(Numbered(1)) else if full == 0 then None else Some(Counted("0"))
    case Numbered(n) => if n > MAX_INB_RENAME then None else Some(Numbered(n + 1))
    case Counted(d) =>
      var e := Inc(style, d);
      if e.Some? then Some(Counted(e.value)) else if |d| < full then Some(Counted(Zeros(|d| + 1))) else None
  }

  predicate Before(style: Style, p: Pos, q: Pos) {
    match (p, q)
    case (Plain, _) => q != Plain
    case (Numbered(m), Numbered(n)) => m < n
    case (Counted(d), Counted(e)) => |d| < |e| || (|d| == |e| && Value(style, d) < Value(style, e))
    case _ => false
  }

  /** Nothing is between a number and the next one of its width, or the first one of the next width. */
  lemma NextCounted(style: Style, full: nat, d: string, r: string)
    requires Valid(style, full, Counted(d)) && Valid(style, full, Counted(r)) && Before(style, Counted(d), Counted(r))
    ensures var q := NextPos(style, full, Counted(d));
      q.Some? && (Counted(r) == q.value || Before(style, q.value, Counted(r)))
  {
    IncValue(style, d);
    ZeroValue(style, r);
    if |r| == |d| {
      var e := Inc(style, d);
      if e.None? { IncNone(style, d, r); }
      if Value(style, r) == Value(style, e.value) { ValueOnce(style, r, e.value); }
    } else if |r| == |d| + 1 && Value(style, r) == 0 {
      ValueOnce(style, r, Zeros(|d| + 1));
    }
  }

  lemma FirstCounted(style: Style, full: nat, r: string)
    requires Valid(style, full, Counted(r))
    ensures Valid(style, full, Counted("0")) && (r == "0" || Before(style, Counted("0"), Counted(r)))
  {
    assert Zeros(1) == "0";
    ZeroValue(style, r);
    ZeroValue(style, "0");
    if |r| == 1 && Value(style, r) == 0 { ValueOnce(style, r, "0"); }
  }

  /** Each step goes up, and leaves no name out. */
  lemma NextIsNext(style: Style, full: nat, p: Pos, r: Pos)
    requires Valid(style, full, p) && Valid(style, full, r)
    ensures var q := NextPos(style, full, p);
      && (q.Some? ==> Valid(style, full, q.value) && Before(style, p, q.value))
      && (Before(style, p, r) ==> q.Some? && (r == q.value || Before(style, q.value, r)))
  {
    match p
    case Plain => if r.Counted? { FirstCounted(style, full, r.d); }
    case Numbered(n) =>
    case Counted(d) =>
      IncValue(style, d);
      if Before(style, p, r) { NextCounted(style, full, d, r.d); }
  }

  // ---- the names ----

  predicate Stop(c: char) { c == '.' || c == '/' }

  /** `s0` is where the part that may change ends: the end of the name, or the dot of its extension. The last character
      of the part changes whatever it is, also the dot or the separator before an empty one; from there on it reaches
      to the dot or the separator before it. */
  ghost predicate Shape(style: Style, base: string, s0: nat, full: nat) {
    && full <= s0 <= |base| && '\0' !in base
    && (if style == Body then s0 < |base| && base[s0] == '.' else s0 == |base|)
    && (style != Postfix ==>
          && 1 <= full < s0 && Stop(base[s0 - full - 1])
          && forall k :: s0 - full <= k < s0 - 1 ==> !Stop(base[k]))
  }

  function NameAt(base: string, s0: nat, p: Pos): string
    requires s0 <= |base| && (p.Counted? ==> |p.d| <= s0)
  {
    match p
    case Plain => base
    case Numbered(n) => base + "." + Show(false, n)
    case Counted(d) => base[..s0 - |d|] + d + base[s0..]
  }

  function StartAt(s0: nat, p: Pos): int { if p.Counted? then s0 - |p.d| else s0 }

  function At(s: string, i: nat): char { if i < |s| then s[i] else '\0' }

  predicate IsAlnum(c: char) { '0' <= c <= '9' || 'a' <= c <= 'z' || 'A' <= c <= 'Z' }

  /** Inc from the first `k` digits, when the others are the highest. */
  ghost predicate Carried(style: Style, d: string, k: nat)
    requires k <= |d| && Digits(style, d)
  {
    Inc(style, d) == if Inc(style, d[..k]).None? then None else Some(Inc(style, d[..k]).value + Zeros(|d| - k))
  }

  lemma CarryOn(style: Style, d: string, k: nat)
    requires 0 < k <= |d| && Digits(style, d) && Carried(style, d, k) && IsTop(style, d[k - 1])
    ensures Carried(style, d, k - 1)
  {
    assert d[..k][..k - 1] == d[..k - 1];
    var r := Inc(style, d[..k - 1]);
    assert "0" + Zeros(|d| - k) == Zeros(|d| - k + 1);
    if r.Some? { assert r.value + "0" + Zeros(|d| - k) == r.value + ("0" + Zeros(|d| - k)); }
  }

  lemma CarryStops(style: Style, d: string, k: nat)
    requires 0 < k <= |d| && Digits(style, d) && Carried(style, d, k) && !IsTop(style, d[k - 1])
    ensures Inc(style, d)
      == Some(d[..k - 1] + [if d[k - 1] == '9' then 'a' else (d[k - 1] as int + 1) as char] + Zeros(|d| - k))
  {
    assert d[..k][..k - 1] == d[..k - 1];
  }

  /** The buffer when all but the first `k` digits have been set to zero. */
  function Partly(base: string, s0: nat, d: string, k: nat): string
    requires |d| <= s0 <= |base| && k <= |d|
  {
    base[..s0 - |d|] + d[..k] + Zeros(|d| - k) + base[s0..]
  }

  lemma CarryStart(style: Style, base: string, s0: nat, d: string)
    requires |d| <= s0 <= |base| && Digits(style, d)
    ensures Carried(style, d, |d|) && Partly(base, s0, d, |d|) == NameAt(base, s0, Counted(d))
  {
    assert d[..|d|] == d && Zeros(0) == "";
    if Inc(style, d).Some? { assert Inc(style, d).value + "" == Inc(style, d).value; }
    assert d + "" == d && base[..s0 - |d|] + d + "" == base[..s0 - |d|] + d;
  }

  /** Writing over the last of the first `k` digits. */
  lemma PartlyAt(base: string, s0: nat, d: string, k: nat)
    requires |d| <= s0 <= |base| && 0 < k <= |d|
    ensures var p, t := s0 - |d| + k - 1, Partly(base, s0, d, k);
      && p < |t| && t[p] == d[k - 1]
      && t[p := '0'] == Partly(base, s0, d, k - 1)
      && forall c :: t[p := c] == base[..s0 - |d|] + (d[..k - 1] + [c] + Zeros(|d| - k)) + base[s0..]
    ensures s0 - |d| < s0 - |d| + k - 1 ==> Partly(base, s0, d, k - 1)[s0 - |d| + k - 2] == d[k - 2]
    ensures k == 1 && s0 > |d| ==> Partly(base, s0, d, 0)[s0 - |d| - 1] == base[s0 - |d| - 1]
  {
  }

  lemma DigitBefore(style: Style, base: string, s0: nat, d: string, k: nat)
    requires |d| <= s0 <= |base| && k <= |d| && Digits(style, d)
    ensures k > 0 ==> !Stop(Partly(base, s0, d, k)[s0 - |d| + k - 1])
  {
    if k > 0 {
      assert InRadix(style, d[k - 1]);
      assert Partly(base, s0, d, k)[s0 - |d| + k - 1] == d[k - 1];
    }
  }

  /** What counting up the digits `d` must end with. */
  ghost predicate Counts(style: Style, base: string, s0: nat, full: nat, d: string, fname: string, s: nat, ok: bool)
    requires s0 <= |base| && full <= s0 && Valid(style, full, Counted(d))
  {
    var q := NextPos(style, full, Counted(d));
    && (ok <==> q.Some?)
    && (ok ==> Valid(style, full, q.value) && fname == NameAt(base, s0, q.value) && s == StartAt(s0, q.value))
  }

  /** The carry has gone through all digits: the name ends here or has one digit more. */
  lemma CarryOut(style: Style, base: string, s0: nat, full: nat, d: string)
    requires style != Postfix && Shape(style, base, s0, full) && Valid(style, full, Counted(d)) && Carried(style, d, 0)
    ensures var t := Partly(base, s0, d, 0);
      && (|d| == full ==> Stop(t[s0 - |d| - 1]) && forall u, s :: Counts(style, base, s0, full, d, u, s, false))
      && (|d| < full ==> !Stop(t[s0 - |d| - 1]))
      && (|d| < full ==> Counts(style, base, s0, full, d, t[s0 - |d| - 1 := '0'], s0 - |d| - 1, true))
  {
    assert d[..0] == "";
    assert Inc(style, d).None?;
    if |d| < full {
      NextIsNext(style, full, Counted(d), Plain);
      assert Partly(base, s0, d, 0)[s0 - |d| - 1 := '0'] == NameAt(base, s0, Counted(Zeros(|d| + 1)));
    }
  }

  lemma IncKeeps(style: Style, base: string, s0: nat, full: nat, d: string)
    requires style != Postfix && Shape(style, base, s0, full) && Valid(style, full, Counted(d)) && Inc(style, d).Some?
    ensures |Inc(style, d).value| == |d| && Valid(style, full, Counted(Inc(style, d).value))
  {
    IncValue(style, d);
  }

  /** The pointer is at the end or at a dot as long as the name has not been changed. */
  lemma Unchanged(style: Style, base: string, s0: nat, full: nat, p: Pos)
    requires style != Postfix && Shape(style, base, s0, full) && Valid(style, full, p)
    ensures p == Plain <==> At(NameAt(base, s0, p), StartAt(s0, p)) == (if style == Extension then '\0' else '.')
  {
    if p.Counted? {
      assert NameAt(base, s0, p)[s0 - |p.d|] == p.d[0];
      assert InRadix(style, p.d[0]);
    }
  }

  // ---- atoi ----

  predicate IsSpace(c: char) { c in {' ', '\t', '\n', '\U{000B}', '\U{000C}', '\r'} }

  /** How many digits a string begins with. */
  function Leading(t: string): (n: nat)
    ensures n <= |t|
  {
    if t == "" || !IsDigit(false, t[0]) then 0 else 1 + Leading(t[1..])
  }

  function Atoi(t: string): int {
    if t == "" then 0
    else if IsSpace(t[0]) then Atoi(t[1..])
    else if t[0] == '-' then -Read(false, t[1..][..Leading(t[1..])])
    else if t[0] == '+' then Read(false, t[1..][..Leading(t[1..])])
    else Read(false, t[..Leading(t)])
  }

  lemma {:induction false} LeadingAll(t: string)
    requires AllDigits(false, t)
    ensures Leading(t) == |t|
  {
    if t != "" {
      LeadingAll(t[1..]);
    }
  }

  lemma AtoiDigits(t: string)
    requires t != "" && AllDigits(false, t)
    ensures Atoi(t) == Read(false, t)
  {
    LeadingAll(t);
    assert IsDigit(false, t[0]);
    assert t[..|t|] == t;
  }

  lemma AtoiShow(n: nat)
    ensures Atoi(Show(false, n)) == n
  {
    ReadShow(false, n);
    AtoiDigits(Show(false, n));
  }

  /** The next name in the style Postfix, with the pointer at `s`: a dot and a number, or the number behind the
      character at `s` counted up. */
  function NextName(fname: string, s: nat): Option<string>
    requires s <= |fname|
  {
    if s == |fname| then Some(fname + ".1") else
    var num := Atoi(fname[s + 1..]);
    if num <= 0 || num > MAX_INB_RENAME then None else Some(fname[..s + 1] + Show(false, num + 1))
  }

  /** With the pointer at the end of the name that came, the names are numbered from 1. */
  lemma NumberedNext(base: string, p: Pos)
    requires Valid(Postfix, 0, p)
    ensures var q := NextPos(Postfix, 0, p);
      NextName(NameAt(base, |base|, p), |base|) == if q.None? then None else Some(NameAt(base, |base|, q.value))
  {
    if p == Plain {
      assert Show(false, 1) == "1" && base + ".1" == base + "." + "1";
    } else {
      var name := NameAt(base, |base|, p);
      assert name[..|base| + 1] == base + "." && name[|base| + 1..] == Show(false, p.n);
      AtoiShow(p.n);
    }
  }

  lemma ShowNoNul(n: nat)
    ensures '\0' !in Show(false, n)
  {
    ReadShow(false, n);
    var t := Show(false, n);
    forall i | 0 <= i < |t| ensures t[i] != '\0' {
      assert IsDigit(false, t[i]);
    }
  }

  lemma NoNul(base: string, p: Pos)
    requires Valid(Postfix, 0, p)
    ensures '\0' !in NameAt(base, |base|, p)[|base|..]
  {
    if p.Numbered? {
      assert NameAt(base, |base|, p)[|base|..] == "." + Show(false, p.n);
      ShowNoNul(p.n);
    }
  }

  /** A name in a buffer, and the pointer that the callers pass along with it. */
  class RealName {
    var fname: string
    var s: nat

    constructor (fname: string, s: nat)
      ensures this.fname == fname && this.s == s
    {
      this.fname, this.s := fname, s;
    }

    /** The style Postfix. */
    method NextNumber() returns (ok: bool)
      requires s <= |fname| && '\0' !in fname[s..]
      modifies this`fname
      ensures ok <==> NextName(old(fname), s).Some?
      ensures ok ==> fname == NextName(old(fname), s).value
    {
      assert s < |fname| ==> fname[s] in fname[s..];
      if At(fname, s) == '\0' {
        fname := fname + ".1";
        return true;
      }
      var num := Atoi(fname[s + 1..]);
      if num <= 0 || num > MAX_INB_RENAME {
        return false;
      }
      fname := fname[..s + 1] + Show(false, num + 1);
      return true;
    }

    /** The first change in the other styles. */
    method FirstDigit(style: Style, ghost base: string, ghost s0: nat)
      requires 0 < s0 <= |base| && fname == base && s == s0
      modifies this
      ensures fname == NameAt(base, s0, Counted("0")) && s == s0 - 1
    {
      s := s - 1;
      fname := fname[s := '0'];
    }

    /** next_inb_filename: from the name at one position to the name at the next, and false at the last. */
    method NextInbFilename(style: Style, ghost base: string, ghost s0: nat, ghost full: nat, ghost p: Pos)
      returns (ok: bool)
      requires Shape(style, base, s0, full) && Valid(style, full, p)
      requires fname == NameAt(base, s0, p) && s == StartAt(s0, p)
      modifies this
      ensures ok <==> NextPos(style, full, p).Some?
      ensures ok ==>
        var q := NextPos(style, full, p).value;
        Valid(style, full, q) && fname == NameAt(base, s0, q) && s == StartAt(s0, q)
    {
      NextIsNext(style, full, p, p);
      if style == Postfix {
        NoNul(base, p);
        NumberedNext(base, p);
        ok := NextNumber();
        return;
      }
      Unchanged(style, base, s0, full, p);
      if (style == Extension && At(fname, s) == '\0') || (style == Body && At(fname, s) == '.') {
        FirstDigit(style, base, s0);
        return true;
      }
      ok := Count(style, base, s0, full, p.d);
    }

    /** The rest of next_inb_filename: the digits at `s` count up. */
    method Count(style: Style, ghost base: string, ghost s0: nat, ghost full: nat, ghost d: string) returns (ok: bool)
      requires style != Postfix && Shape(style, base, s0, full) && Valid(style, full, Counted(d))
      requires fname == NameAt(base, s0, Counted(d)) && s == s0 - |d|
      modifies this
      ensures Counts(style, base, s0, full, d, fname, s, ok)
    {
      var p := LastOfDigits(style, base, s0, d);
      ghost var k := |d|;
      CarryStart(style, base, s0, d);
      var more := true;
      ok := false;
      while more
        invariant more ==> 0 < k <= |d| && p == s0 - |d| + k - 1 && s == s0 - |d|
        invariant more ==> fname == Partly(base, s0, d, k) && Carried(style, d, k)
        invariant !more ==> Counts(style, base, s0, full, d, fname, s, ok)
        decreases more, k
      {
        more, ok := Round(style, base, s0, full, d, k, p);
        if more {
          k, p := k - 1, p - 1;
        }
      }
    }

    /** One round of its loop: the first `k` digits are still to be counted up. */
    method Round(style: Style, ghost base: string, ghost s0: nat, ghost full: nat, ghost d: string, ghost k: nat,
        p: nat)
      returns (more: bool, ok: bool)
      requires style != Postfix && Shape(style, base, s0, full) && Valid(style, full, Counted(d))
      requires 0 < k <= |d| && p == s0 - |d| + k - 1 && s == s0 - |d|
      requires fname == Partly(base, s0, d, k) && Carried(style, d, k)
      modifies this
      ensures more ==> k > 1 && s == old(s) && fname == Partly(base, s0, d, k - 1) && Carried(style, d, k - 1)
      ensures !more ==> Counts(style, base, s0, full, d, fname, s, ok)
    {
      PartlyAt(base, s0, d, k);
      if fname[p] == '9' {
        fname := fname[p := 'a'];
      } else if (style == Extension && fname[p] == 'z') || (style == Body && fname[p] == 'f') {
        CarryOn(style, d, k);
        fname := fname[p := '0'];
        more, ok := Carry(style, base, s0, full, d, k - 1, p - 1);
        return;
      } else {
        fname := fname[p := (fname[p] as int + 1) as char];
      }
      CarryStops(style, d, k);
      IncKeeps(style, base, s0, full, d);
      return false, true;
    }

    /** The digit before is at `p`, or the name is at its end, or it gets one digit more. */
    method Carry(style: Style, ghost base: string, ghost s0: nat, ghost full: nat, ghost d: string, ghost k: nat,
        p: nat)
      returns (more: bool, ok: bool)
      requires style != Postfix && Shape(style, base, s0, full) && Valid(style, full, Counted(d))
      requires k < |d| && p == s0 - |d| + k - 1 && s == s0 - |d|
      requires fname == Partly(base, s0, d, k) && Carried(style, d, k)
      modifies this
      ensures more ==> k > 0 && s == old(s) && fname == old(fname)
      ensures !more ==> Counts(style, base, s0, full, d, fname, s, ok)
    {
      DigitBefore(style, base, s0, d, k);
      if k == 0 { CarryOut(style, base, s0, full, d); }
      if fname[p] == '/' || fname[p] == '.' {
        return false, false;
      }
      if p + 1 != s {
        return true, true;
      }
      s := p;
      fname := fname[s := '0'];
      return false, true;
    }

    method LastOfDigits(style: Style, ghost base: string, ghost s0: nat, ghost d: string) returns (p: nat)
      requires s0 <= |base| && 1 <= |d| <= s0 && Digits(style, d)
      requires if style == Body then s0 < |base| && base[s0] == '.' else s0 == |base|
      requires fname == NameAt(base, s0, Counted(d)) && s == s0 - |d|
      ensures p == s0 - 1
    {
      forall k | s <= k < s0 ensures IsAlnum(fname[k]) {
        assert fname[k] == d[k - s] && InRadix(style, d[k - s]);
      }
      p := s;
      while IsAlnum(At(fname, p + 1))
        invariant s <= p < s0
        decreases s0 - p
      {
        p := p + 1;
      }
    }
  }

  // ---- the loops that try the names ----

  datatype Stat = Stat(size: nat, time: int)

  function Even(t: int): int { t - t % 2 }

  predicate Same(st: Stat, size: nat, time: int) { st.size == size && Even(st.time) == Even(time) }

  /** Every name up to the one at `p` is taken. */
  ghost predicate TakenBelow(files: map<string, Stat>, style: Style, base: string, s0: nat, full: nat, p: Pos)
    requires full <= s0 <= |base|
  {
    forall q :: Valid(style, full, q) && Before(style, q, p) ==> NameAt(base, s0, q) in files
  }

  ghost predicate NoneBelow(files: map<string, Stat>, style: Style, base: string, s0: nat, full: nat, p: Pos,
      size: nat, time: int)
    requires full <= s0 <= |base|
  {
    forall q :: Valid(style, full, q) && Before(style, q, p) && NameAt(base, s0, q) in files ==>
      !Same(files[NameAt(base, s0, q)], size, time)
  }

  /** A file that could be the one offered, under a name that is reached: all names before it are taken. */
  ghost predicate Present(files: map<string, Stat>, style: Style, base: string, s0: nat, full: nat, size: nat,
      time: int)
    requires full <= s0 <= |base|
  {
    exists p :: Valid(style, full, p) && PresentAt(files, style, base, s0, full, p, size, time)
  }

  ghost predicate PresentAt(files: map<string, Stat>, style: Style, base: string, s0: nat, full: nat, p: Pos,
      size: nat, time: int)
    requires full <= s0 <= |base| && Valid(style, full, p)
  {
    && TakenBelow(files, style, base, s0, full, p)
    && NameAt(base, s0, p) in files && Same(files[NameAt(base, s0, p)], size, time)
  }

  /** One name further in the order. */
  lemma Further(files: map<string, Stat>, style: Style, base: string, s0: nat, full: nat, p: Pos, size: nat, time: int)
    requires full <= s0 <= |base| && Valid(style, full, p) && TakenBelow(files, style, base, s0, full, p)
    requires NameAt(base, s0, p) in files
    requires NoneBelow(files, style, base, s0, full, p, size, time) && !Same(files[NameAt(base, s0, p)], size, time)
    ensures var q := NextPos(style, full, p);
      && (q.Some? ==>
            && TakenBelow(files, style, base, s0, full, q.value)
            && NoneBelow(files, style, base, s0, full, q.value, size, time))
      && (q.None? ==>
            && !Present(files, style, base, s0, full, size, time)
            && forall r :: Valid(style, full, r) ==> NameAt(base, s0, r) in files)
  {
    forall r | Valid(style, full, r) ensures r == p || Before(style, r, p) || Before(style, p, r) {
      Trichotomy(style, full, p, r);
    }
    forall r | Valid(style, full, r)
      ensures Before(style, p, r) ==>
        var q := NextPos(style, full, p); q.Some? && (r == q.value || Before(style, q.value, r))
    {
      NextIsNext(style, full, p, r);
    }
    var q := NextPos(style, full, p);
    if q.Some? {
      forall r | Valid(style, full, r) && Before(style, r, q.value) ensures r == p || Before(style, r, p) {
        if Before(style, p, r) { NotBoth(style, r, q.value); }
      }
    }
  }

  lemma Trichotomy(style: Style, full: nat, p: Pos, r: Pos)
    requires Valid(style, full, p) && Valid(style, full, r)
    ensures r == p || Before(style, r, p) || Before(style, p, r)
  {
    if p.Counted? && r.Counted? && |p.d| == |r.d| && Value(style, p.d) == Value(style, r.d) {
      ValueOnce(style, p.d, r.d);
    }
  }

  lemma NotBoth(style: Style, p: Pos, q: Pos)
    requires Before(style, p, q)
    ensures p != q && !Before(style, q, p)
  {
  }

  /** How many steps are left, as a pair that goes down. */
  function Left(style: Style, full: nat, p: Pos): (int, int)
    requires Valid(style, full, p)
  {
    match p
    case Plain => (full + 2, MAX_INB_RENAME + 2)
    case Numbered(n) => (0, MAX_INB_RENAME + 1 - n)
    case Counted(d) => (full - |d|, Value(style, Tops(style, |d|)) - Value(style, d))
  }

  function Tops(style: Style, n: nat): (d: string)
    ensures |d| == n && forall i :: 0 <= i < n ==> d[i] == if style == Body then 'f' else 'z'
  {
    seq(n, i => if style == Body then 'f' else 'z')
  }

  lemma {:induction false} BelowTops(style: Style, d: string)
    requires style != Postfix && Digits(style, d)
    ensures Value(style, d) <= Value(style, Tops(style, |d|))
  {
    if d != "" {
      var n := |d| - 1;
      BelowTops(style, d[..n]);
      assert Tops(style, |d|)[..n] == Tops(style, n);
      assert InRadix(style, d[n]);
    }
  }

  lemma LeftDown(style: Style, full: nat, p: Pos)
    requires Valid(style, full, p) && NextPos(style, full, p).Some?
    ensures var q := NextPos(style, full, p).value;
      && Valid(style, full, q)
      && Left(style, full, q).1 >= 0 && Left(style, full, q).0 >= 0 && Left(style, full, p).0 >= 0
      && Left(style, full, p).1 >= 0
      && (Left(style, full, q).0 < Left(style, full, p).0 ||
          (Left(style, full, q).0 == Left(style, full, p).0 && Left(style, full, q).1 < Left(style, full, p).1))
  {
    NextIsNext(style, full, p, Plain);
    var q := NextPos(style, full, p).value;
    if p.Counted? { BelowTops(style, p.d); IncValue(style, p.d); }
    if q.Counted? { BelowTops(style, q.d); }
  }

  /** inb_test: whether the inbound has the file already, under its name or one of those it would have been renamed
      to. The loop ends. */
  method InbTest(files: map<string, Stat>, style: Style, base: string, s0: nat, ghost full: nat, size: nat, time: int)
    returns (found: bool, fp: string)
    requires Shape(style, base, s0, full)
    ensures found <==> Present(files, style, base, s0, full, size, time)
    ensures found ==> fp in files && Same(files[fp], size, time)
  {
    var name := new RealName(base, s0);
    ghost var p := Plain;
    while name.fname in files
      invariant fresh(name) && Valid(style, full, p) && name.fname == NameAt(base, s0, p) && name.s == StartAt(s0, p)
      invariant TakenBelow(files, style, base, s0, full, p) && NoneBelow(files, style, base, s0, full, p, size, time)
      decreases Left(style, full, p).0, Left(style, full, p).1
    {
      if Same(files[name.fname], size, time) {
        assert PresentAt(files, style, base, s0, full, p, size, time);
        return true, name.fname;
      }
      Further(files, style, base, s0, full, p, size, time);
      var ok := name.NextInbFilename(style, base, s0, full, p);
      if !ok {
        return false, name.fname;
      }
      LeftDown(style, full, p);
      p := NextPos(style, full, p).value;
    }
    found, fp := false, name.fname;
    Gap(files, style, base, s0, full, p, size, time);
  }

  /** Behind a free name nothing is found any more. */
  lemma Gap(files: map<string, Stat>, style: Style, base: string, s0: nat, full: nat, p: Pos, size: nat, time: int)
    requires full <= s0 <= |base| && Valid(style, full, p) && NameAt(base, s0, p) !in files
    requires NoneBelow(files, style, base, s0, full, p, size, time)
    ensures !Present(files, style, base, s0, full, size, time)
  {
    forall r | Valid(style, full, r) ensures !PresentAt(files, style, base, s0, full, r, size, time) {
      Trichotomy(style, full, p, r);
    }
  }

  /** The first name that is free. */
  ghost predicate FreeName(files: map<string, Stat>, style: Style, base: string, s0: nat, full: nat, p: Pos)
    requires full <= s0 <= |base|
  {
    Valid(style, full, p) && NameAt(base, s0, p) !in files && TakenBelow(files, style, base, s0, full, p)
  }

  ghost predicate NamedFree(files: map<string, Stat>, style: Style, base: string, s0: nat, full: nat, name: string)
    requires full <= s0 <= |base|
  {
    exists p :: FreeName(files, style, base, s0, full, p) && name == NameAt(base, s0, p)
  }

  /** The renaming loop of inb_done: the file gets the first free name and nothing is overwritten; it gets none, and
      in the style Extension the caller goes on in another style, only when every name is taken. */
  method RenameLoop(files: map<string, Stat>, style: Style, base: string, s0: nat, ghost full: nat)
    returns (realName: Option<string>)
    requires Shape(style, base, s0, full)
    ensures realName.Some? ==> NamedFree(files, style, base, s0, full, realName.value)
    ensures realName.None? ==> forall p :: Valid(style, full, p) ==> NameAt(base, s0, p) in files
  {
    var name := new RealName(base, s0);
    ghost var p := Plain;
    while name.fname in files
      invariant fresh(name) && Valid(style, full, p) && name.fname == NameAt(base, s0, p) && name.s == StartAt(s0, p)
      invariant TakenBelow(files, style, base, s0, full, p)
      decreases Left(style, full, p).0, Left(style, full, p).1
    {
      Taken(files, style, base, s0, full, p);
      var ok := name.NextInbFilename(style, base, s0, full, p);
      if !ok {
        return None;
      }
      LeftDown(style, full, p);
      p := NextPos(style, full, p).value;
    }
    return Some(name.fname);
  }

  /** The name with the number behind the first character of the netname, which begins at `n0`. */
  function Renumbered(base: string, n0: nat, n: nat): string
    requires n0 < |base|
  {
    base[..n0 + 1] + Show(false, n)
  }

  ghost predicate FreeNumber(files: map<string, Stat>, base: string, n0: nat, n: nat)
    requires n0 < |base|
  {
    && 0 < Atoi(base[n0 + 1..]) < n <= MAX_INB_RENAME + 1 && Renumbered(base, n0, n) !in files
    && forall m :: Atoi(base[n0 + 1..]) < m < n ==> Renumbered(base, n0, m) in files
  }

  ghost predicate NumberedFree(files: map<string, Stat>, base: string, n0: nat, name: string)
    requires n0 < |base|
  {
    exists n :: FreeNumber(files, base, n0, n) && name == Renumbered(base, n0, n)
  }

  /** The change to the style Postfix leaves the pointer at the start of the netname, not at its end: a name that is
      not empty gets another one if and only if a number from 1 to 10000 follows its first character, and a greater
      number is free; what stands behind the number is lost. */
  method PostfixRetry(files: map<string, Stat>, base: string, n0: nat) returns (realName: Option<string>)
    requires n0 < |base| && '\0' !in base && base in files
    ensures realName.Some? <==> exists n :: FreeNumber(files, base, n0, n)
    ensures realName.Some? ==> NumberedFree(files, base, n0, realName.value)
  {
    var name := new RealName(base, n0);
    ghost var num := Atoi(base[n0 + 1..]);
    ghost var k := num;
    while name.fname in files
      invariant fresh(name) && name.s == n0 && num <= k
      invariant if k == num then name.fname == base
        else 0 < num && k <= MAX_INB_RENAME + 1 && name.fname == Renumbered(base, n0, k)
      invariant forall n :: num < n < k ==> Renumbered(base, n0, n) in files
      decreases MAX_INB_RENAME + 2 - k
    {
      NumberAt(base, n0, name.fname, k);
      var ok := name.NextNumber();
      if !ok {
        return None;
      }
      k := k + 1;
    }
    assert FreeNumber(files, base, n0, k);
    return Some(name.fname);
  }

  /** What the name reads as, and that it has no end before its end. */
  lemma NumberAt(base: string, n0: nat, fname: string, k: int)
    requires n0 < |base| && '\0' !in base
    requires (fname == base && k == Atoi(base[n0 + 1..])) || (k > 0 && fname == Renumbered(base, n0, k))
    ensures n0 < |fname| && '\0' !in fname[n0..] && Atoi(fname[n0 + 1..]) == k && fname[..n0 + 1] == base[..n0 + 1]
  {
    if fname == base && k == Atoi(base[n0 + 1..]) {
      assert forall c :: c in fname[n0..] ==> c in base;
    } else {
      AtoiShow(k);
      ShowNoNul(k);
      assert fname[n0 + 1..] == Show(false, k) && fname[n0..] == [base[n0]] + Show(false, k);
    }
  }

  /** The names of inb_done: those of the style, and from the style Extension on those of the style Postfix. */
  method InbDone(files: map<string, Stat>, style: Style, base: string, n0: nat, s0: nat, ghost full: nat)
    returns (realName: Option<string>)
    requires Shape(style, base, s0, full) && n0 <= |base|
    ensures realName.Some? ==> realName.value !in files
    ensures realName.Some? ==>
      || NamedFree(files, style, base, s0, full, realName.value)
      || (style == Extension && n0 == |base| && NamedFree(files, Postfix, base, |base|, 0, realName.value))
      || (style == Extension && n0 < |base| && NumberedFree(files, base, n0, realName.value))
    ensures realName.None? ==> forall name :: !NamedFree(files, style, base, s0, full, name)
    ensures realName.None? && style == Extension ==>
      forall name :: if n0 == |base| then !NamedFree(files, Postfix, base, |base|, 0, name)
        else !NumberedFree(files, base, n0, name)
  {
    realName := RenameLoop(files, style, base, s0, full);
    if realName.None? && style == Extension {
      assert NameAt(base, s0, Plain) in files;
      if n0 == |base| {
        realName := RenameLoop(files, Postfix, base, |base|, 0);
      } else {
        realName := PostfixRetry(files, base, n0);
      }
    }
  }

  /** When the second character of the netname begins no number, as in most names, the change of style gives none. */
  lemma NoNumber(files: map<string, Stat>, base: string, n0: nat, n: nat)
    requires n0 + 1 < |base| && !IsSpace(base[n0 + 1]) && base[n0 + 1] !in {'-', '+'} && !IsDigit(false, base[n0 + 1])
    ensures !FreeNumber(files, base, n0, n)
  {
    assert base[n0 + 1..][0] == base[n0 + 1];
  }

  lemma Taken(files: map<string, Stat>, style: Style, base: string, s0: nat, full: nat, p: Pos)
    requires full <= s0 <= |base| && Valid(style, full, p) && TakenBelow(files, style, base, s0, full, p)
    requires NameAt(base, s0, p) in files
    ensures var q := NextPos(style, full, p);
      && (q.Some? ==> TakenBelow(files, style, base, s0, full, q.value))
      && (q.None? ==> forall r :: Valid(style, full, r) ==> NameAt(base, s0, r) in files)
  {
    var all := map f | f in files :: Stat(0, 0);
    Further(all, style, base, s0, full, p, 1, 0);
  }
}
