/** Numbers as digits: printf and scanf for %i and %x. */
module Numbers {

  function Base(hex: bool): nat { if hex then 16 else 10 }

  function Digit(d: nat): char
    requires d < 16
  {
    if d < 10 then (d + '0' as int) as char else (d - 10 + 'a' as int) as char
  }

  /** -1 for what is not a digit. */
  function DigitOf(hex: bool, c: char): int {
    if '0' <= c <= '9' then c as int - '0' as int
    else if hex && 'a' <= c <= 'f' then c as int - 'a' as int + 10
    else if hex && 'A' <= c <= 'F' then c as int - 'A' as int + 10
    else -1
  }

  predicate IsDigit(hex: bool, c: char) { DigitOf(hex, c) >= 0 }

  predicate AllDigits(hex: bool, t: string) { forall i :: 0 <= i < |t| ==> IsDigit(hex, t[i]) }

  function Show(hex: bool, n: nat): string {
    (if n < Base(hex) then "" else Show(hex, n / Base(hex))) + [Digit(n % Base(hex))]
  }

  function Read(hex: bool, t: string): int {
    if t == "" then 0 else Read(hex, t[..|t| - 1]) * Base(hex) + DigitOf(hex, t[|t| - 1])
  }

  lemma {:induction false} ReadShow(hex: bool, n: nat)
    ensures Read(hex, Show(hex, n)) == n && Show(hex, n) != "" && AllDigits(hex, Show(hex, n))
  {
    var t := Show(hex, n);
    var d := Digit(n % Base(hex));
    assert DigitOf(hex, d) == n % Base(hex);
    if n >= Base(hex) {
      ReadShow(hex, n / Base(hex));
      assert t[..|t| - 1] == Show(hex, n / Base(hex));
    } else {
      assert t[..0] == "";
    }
  }

  // ---- a fixed width ----

  function Power(hex: bool, w: nat): nat { if w == 0 then 1 else Base(hex) * Power(hex, w - 1) }

  function Zeros(n: nat): (d: string)
    ensures |d| == n && forall i :: 0 <= i < n ==> d[i] == '0'
  {
    seq(n, i => '0')
  }

  /** %0wx: at least `w` digits. */
  function Pad(hex: bool, w: nat, n: nat): string {
    var t := Show(hex, n);
    if |t| < w then Zeros(w - |t|) + t else t
  }

  lemma {:induction false} ReadZeros(hex: bool, k: nat, t: string)
    ensures Read(hex, Zeros(k) + t) == Read(hex, t)
    decreases k + |t|
  {
    var z := Zeros(k) + t;
    if t != "" {
      assert z[..|z| - 1] == Zeros(k) + t[..|t| - 1];
      ReadZeros(hex, k, t[..|t| - 1]);
    } else if k > 0 {
      assert z[..|z| - 1] == Zeros(k - 1) + "";
      ReadZeros(hex, k - 1, "");
    } else {
      assert z == "";
    }
  }

  lemma {:induction false} ShowLength(hex: bool, n: nat, w: nat)
    requires w > 0
    ensures |Show(hex, n)| <= w <==> n < Power(hex, w)
    decreases w
  {
    if w > 1 && n >= Base(hex) {
      ShowLength(hex, n / Base(hex), w - 1);
    } else if n < Base(hex) {
      PowerGrows(hex, w);
    } else {
      assert Power(hex, 1) == Base(hex) * Power(hex, 0);
      assert |Show(hex, n / Base(hex))| >= 1;
    }
  }

  lemma {:induction false} PowerGrows(hex: bool, w: nat)
    requires w > 0
    ensures Power(hex, w) >= Base(hex)
  {
    if w > 1 {
      PowerGrows(hex, w - 1);
    }
  }

  /** What is printed with a width is read back; it has exactly that width if and only if the number fits. */
  lemma ReadPad(hex: bool, w: nat, n: nat)
    requires w > 0
    ensures var t := Pad(hex, w, n);
      Read(hex, t) == n && AllDigits(hex, t) && |t| >= w && (|t| == w <==> n < Power(hex, w))
  {
    ReadShow(hex, n);
    ShowLength(hex, n, w);
    var t := Show(hex, n);
    if |t| < w {
      ReadZeros(hex, w - |t|, t);
    }
  }
}
