/**
 * The rendering of a checksum as text in `_adler32`:
 *   hex(v & 0xFFFFFFFF).lower().replace("l", "").replace("x", "0000")[-8:]
 * Each Python string operation is modelled on its own, on the strings it
 * can meet here, and `Render` composes them in the source's order.
 */
module ChecksumHex {
  import Adler

  predicate IsHexDigit(c: char)
  {
    '0' <= c <= '9' || 'a' <= c <= 'f'
  }

  predicate AllHexDigits(s: string)
  {
    forall i :: 0 <= i < |s| ==> IsHexDigit(s[i])
  }

  function DigitChar(n: nat): (c: char)
    requires n < 16
    ensures IsHexDigit(c)
  {
    if n < 10 then ('0' as int + n) as char else ('a' as int + n - 10) as char
  }

  function DigitValue(c: char): (n: nat)
    requires IsHexDigit(c)
    ensures n < 16
  {
    if c <= '9' then c as int - '0' as int else c as int - 'a' as int + 10
  }

  /** The number a string of hex digits denotes, most significant digit first. */
  function HexValue(s: string): nat
    requires AllHexDigits(s)
  {
    if s == [] then 0 else HexValue(s[..|s| - 1]) * 16 + DigitValue(s[|s| - 1])
  }

  function Pow16(k: nat): nat
  {
    if k == 0 then 1 else 16 * Pow16(k - 1)
  }

  /**
   * The digits Python's `hex` writes after "0x": lower case, no leading zero
   * except for the single digit of 0.
   */
  function Digits(n: nat): (r: string)
    ensures 1 <= |r|
    ensures AllHexDigits(r) && HexValue(r) == n
    ensures r[0] == '0' ==> n == 0
    decreases n
  {
    if n < 16 then [DigitChar(n)]
    else
      var r := Digits(n / 16) + [DigitChar(n % 16)];
      assert r[..|r| - 1] == Digits(n / 16);
      r
  }

  /** Python's `hex(n)` for a non-negative `n`. */
  function Hex(n: nat): (r: string)
    ensures |r| >= 3 && r[..2] == "0x"
    ensures AllHexDigits(r[2..]) && HexValue(r[2..]) == n
  {
    assert ("0x" + Digits(n))[2..] == Digits(n);
    "0x" + Digits(n)
  }

  /** `str.lower()` on ASCII text: capitals become small letters, the rest stays. */
  function Lower(s: string): (r: string)
    ensures |r| == |s|
    ensures forall i :: 0 <= i < |r| ==> !('A' <= r[i] <= 'Z')
    ensures forall i :: 0 <= i < |s| && !('A' <= s[i] <= 'Z') ==> r[i] == s[i]
  {
    if s == [] then [] else
      var c := s[0];
      [if 'A' <= c <= 'Z' then (c as int + 32) as char else c] + Lower(s[1..])
  }

  /** `s.replace(c, repl)` for a one-character pattern: every occurrence, left to right. */
  function Replace(s: string, c: char, repl: string): (r: string)
    ensures c !in repl ==> c !in r
  {
    if s == [] then [] else (if s[0] == c then repl else [s[0]]) + Replace(s[1..], c, repl)
  }

  /**
   * `s[-k:]`: the last `k` characters, or all of `s` when it is shorter.
   * Since `-0 == 0`, `s[-0:]` is all of `s`.
   */
  function Last(s: string, k: nat): (r: string)
    ensures |r| == if k == 0 || |s| < k then |s| else k
    ensures s[|s| - |r|..] == r
  {
    if k == 0 || |s| < k then s else s[|s| - k..]
  }

  /**
   * The checksum text `_adler32` returns for the integer `v`;
   * `v & 0xFFFFFFFF` on a non-negative `v` is `v % Adler.WORD`.
   */
  function Render(v: nat): (r: string)
    ensures |r| <= 8
  {
    Last(Replace(Replace(Lower(Hex(v % Adler.WORD)), 'l', ""), 'x', "0000"), 8)
  }

  // ---------------------------------------------------------------------------
  // Lemmas
  // ---------------------------------------------------------------------------

  /** `lower` leaves text without capitals unchanged. */
  lemma {:induction false} LowerNoCapitals(s: string)
    requires forall i :: 0 <= i < |s| ==> !('A' <= s[i] <= 'Z')
    ensures Lower(s) == s
  {
    if s != [] {
      LowerNoCapitals(s[1..]);
    }
  }

  /** `replace` of a character that does not occur leaves the text unchanged. */
  lemma {:induction false} ReplaceAbsent(s: string, c: char, repl: string)
    requires c !in s
    ensures Replace(s, c, repl) == s
  {
    if s != [] {
      ReplaceAbsent(s[1..], c, repl);
    }
  }

  /** Leading zeros do not change the number a digit string denotes. */
  lemma {:induction false} LeadingZeros(z: string, s: string)
    requires forall i :: 0 <= i < |z| ==> z[i] == '0'
    requires AllHexDigits(s)
    ensures AllHexDigits(z + s) && HexValue(z + s) == HexValue(s)
    decreases |s|, |z|
  {
    if s == [] {
      assert z + s == z;
      if z != [] {
        LeadingZeros(z[..|z| - 1], []);
        assert z[..|z| - 1] + [] == z[..|z| - 1];
      }
    } else {
      LeadingZeros(z, s[..|s| - 1]);
      assert (z + s)[..|z + s| - 1] == z + s[..|s| - 1];
    }
  }

  /** `n` has at most `k` hex digits exactly when it is below 16^k. */
  lemma {:induction false} DigitsLength(n: nat, k: nat)
    requires k >= 1
    ensures |Digits(n)| <= k <==> n < Pow16(k)
    decreases n
  {
    if n < 16 {
      PowAtLeast16(k);
    } else if k == 1 {
    } else {
      DigitsLength(n / 16, k - 1);
    }
  }

  lemma {:induction false} PowAtLeast16(k: nat)
    requires k >= 1
    ensures Pow16(k) >= 16
  {
    if k > 1 {
      PowAtLeast16(k - 1);
    }
  }

  /**
   * After `lower` and the two replacements the text is "00000" followed by
   * the hex digits of the masked value: "0x" became "0" + "0000".
   */
  lemma Padded(v: nat)
    ensures Replace(Replace(Lower(Hex(v % Adler.WORD)), 'l', ""), 'x', "0000")
            == "00000" + Digits(v % Adler.WORD)
  {
    PaddedDigits(Digits(v % Adler.WORD));
  }

  lemma PaddedDigits(d: string)
    requires AllHexDigits(d)
    ensures Replace(Replace(Lower("0x" + d), 'l', ""), 'x', "0000") == "00000" + d
  {
    var h := "0x" + d;
    assert forall i :: 2 <= i < |h| ==> h[i] == d[i - 2];
    assert forall i :: 0 <= i < |h| ==> !('A' <= h[i] <= 'Z') && h[i] != 'l';
    LowerNoCapitals(h);
    ReplaceAbsent(h, 'l', "");
    ExpandPrefix(d);
  }

  /** `.replace("x", "0000")` turns the prefix "0x" into five zeros. */
  lemma ExpandPrefix(d: string)
    requires AllHexDigits(d)
    ensures Replace("0x" + d, 'x', "0000") == "00000" + d
  {
    var h := "0x" + d;
    var t := "x" + d;
    assert h[0] == '0' && h[1..] == t;
    assert Replace(h, 'x', "0000") == "0" + Replace(t, 'x', "0000");
    assert t[0] == 'x' && t[1..] == d;
    assert Replace(t, 'x', "0000") == "0000" + Replace(d, 'x', "0000");
    assert forall i :: 0 <= i < |d| ==> d[i] != 'x';
    ReplaceAbsent(d, 'x', "0000");
  }

  /**
   * What `_adler32` returns: only the characters 0-9a-f; read as hex it is
   * the value masked to 32 bits; it is 8 characters long once the masked
   * value reaches 0x100, and 6 or 7 characters (five zeros and the one or two
   * significant digits) below that.
   */
  lemma RenderSpec(v: nat)
    ensures var r, m := Render(v), v % Adler.WORD;
            && AllHexDigits(r)
            && HexValue(r) == m
            && |r| == (if m < 16 then 6 else if m < 256 then 7 else 8)
  {
    var m := v % Adler.WORD;
    var d := Digits(m);
    Padded(v);
    DigitsLength(m, 1);
    DigitsLength(m, 2);
    DigitsLength(m, 8);
    assert Pow16(2) == 256;
    assert Pow16(8) == Adler.WORD;
    SliceOfPadded(d);
  }

  /** `[-8:]` of five zeros and at most eight digits keeps every digit. */
  lemma SliceOfPadded(d: string)
    requires AllHexDigits(d) && |d| <= 8
    ensures var r := Last("00000" + d, 8);
            && AllHexDigits(r)
            && HexValue(r) == HexValue(d)
            && |r| == if |d| >= 3 then 8 else 5 + |d|
  {
    var p := "00000" + d;
    if |p| >= 8 {
      var zeros := p[|p| - 8..|p| - |d|];
      assert p[|p| - 8..] == zeros + d;
      assert forall i :: 0 <= i < |zeros| ==> zeros[i] == '0';
      LeadingZeros(zeros, d);
    } else {
      LeadingZeros("00000", d);
    }
  }

  /** The checksum of an empty file, 1, renders as six characters. */
  lemma RenderOne()
    ensures Render(1) == "000001"
  {
    Padded(1);
    assert 1 % Adler.WORD == 1;
    assert Digits(1) == "1";
    var p := "00000" + "1";
    assert |p| == 6 && Last(p, 8) == p;
  }
}
