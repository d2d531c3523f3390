/** The Kotlin string operations the helpers rely on: `isBlank`, `startsWith`,
    `contains` (with and without `ignoreCase`), `substringAfter`, and the
    decimal rendering done by string templates and `String.format("%d")`. */
module Text {
  import opened Seqs

  /** Kotlin `Char.isWhitespace` on the JVM: `Character.isWhitespace` or
      `Character.isSpaceChar`. */
  predicate IsWhitespace(c: char)
  {
    var n := c as int;
    n == 0x20 || 0x09 <= n <= 0x0D || 0x1C <= n <= 0x1F || n == 0xA0 || n == 0x1680 ||
    0x2000 <= n <= 0x200A || n == 0x2028 || n == 0x2029 || n == 0x202F || n == 0x205F || n == 0x3000
  }

  /** Kotlin `isBlank`: empty or whitespace only. */
  predicate IsBlank(s: string): (b: bool)
    ensures b <==> forall i :: 0 <= i < |s| ==> IsWhitespace(s[i])
  {
    |s| == 0 || (IsWhitespace(s[0]) && IsBlank(s[1..]))
  }

  /** The string shows something: some character is not whitespace. */
  predicate HasVisible(s: string)
  {
    exists i :: 0 <= i < |s| && !IsWhitespace(s[i])
  }

  /** Kotlin `startsWith`. */
  predicate StartsWith(s: string, prefix: string)
  {
    |prefix| <= |s| && s[..|prefix|] == prefix
  }

  /** `t` occurs in `s` at offset `i`. */
  predicate OccursAt(s: string, t: string, i: int)
  {
    0 <= i <= |s| - |t| && s[i..i + |t|] == t
  }

  lemma {:induction false} OccursAtTail(s: string, t: string)
    requires |s| > 0
    ensures forall i :: i >= 0 ==> (OccursAt(s[1..], t, i) <==> OccursAt(s, t, i + 1))
  {
    forall i | i >= 0 ensures OccursAt(s[1..], t, i) <==> OccursAt(s, t, i + 1) {
      if 0 <= i <= |s| - 1 - |t| {
        assert s[1..][i..i + |t|] == s[i + 1..i + 1 + |t|];
      }
    }
  }

  /** Kotlin `contains(other)`: `other` occurs in `s` at some offset. */
  predicate Contains(s: string, t: string): (b: bool)
    ensures b <==> exists i :: OccursAt(s, t, i)
    decreases |s|
  {
    if StartsWith(s, t) then
      assert OccursAt(s, t, 0);
      true
    else if |s| == 0 then
      false
    else
      OccursAtTail(s, t);
      assert !OccursAt(s, t, 0);
      assert forall i :: OccursAt(s, t, i) ==> i >= 1 && OccursAt(s[1..], t, i - 1);
      Contains(s[1..], t)
  }

  /** Case folding used by `ignoreCase = true`, for ASCII letters and the
      letters of the Latin-1 supplement (accented Spanish letters included). */
  function LowerChar(c: char): (d: char)
    ensures 'A' <= c <= 'Z' ==> d as int == c as int + 32
    ensures !('A' <= c <= 'Z') && !(0xC0 <= c as int <= 0xDE && c as int != 0xD7) ==> d == c
  {
    if 'A' <= c <= 'Z' || (0xC0 <= c as int <= 0xDE && c as int != 0xD7) then (c as int + 32) as char else c
  }

  function Lower(s: string): (r: string)
    ensures |r| == |s|
    ensures forall i :: 0 <= i < |s| ==> r[i] == LowerChar(s[i])
  {
    seq(|s|, i requires 0 <= i < |s| => LowerChar(s[i]))
  }

  /** Folding twice is folding once. */
  lemma {:induction false} LowerIdempotent(s: string)
    ensures Lower(Lower(s)) == Lower(s)
  {
    forall i | 0 <= i < |s| ensures LowerChar(LowerChar(s[i])) == LowerChar(s[i]) {
    }
  }

  /** Kotlin `contains(other, ignoreCase = true)`. */
  predicate ContainsIgnoreCase(s: string, t: string)
  {
    Contains(Lower(s), Lower(t))
  }

  /** Every string contains the empty string, whatever the case folding. */
  lemma {:induction false} ContainsEmpty(s: string)
    ensures ContainsIgnoreCase(s, "")
  {
    assert Lower(s)[0..0] == "";
  }

  /** Kotlin `substringAfter(d)` for a one-character delimiter: the text after
      the first `d`, or the whole string when there is none. */
  function SubstringAfter(s: string, d: char): (r: string)
    ensures d !in s ==> r == s
    ensures d in s ==> |r| < |s| && s == s[..|s| - |r| - 1] + [d] + r && d !in s[..|s| - |r| - 1]
  {
    var i := IndexOf(s, d);
    if i == |s| then s
    else
      assert s == s[..i] + [d] + s[i + 1..];
      assert forall k :: 0 <= k < i ==> s[..i][k] == s[k];
      s[i + 1..]
  }

  /** What follows the first `d` of `prefix + [d] + rest` when `prefix` has no `d`. */
  lemma {:induction false} SubstringAfterSplit(prefix: string, d: char, rest: string)
    requires d !in prefix
    ensures SubstringAfter(prefix + [d] + rest, d) == rest
  {
    var s := prefix + [d] + rest;
    assert s[|prefix|] == d;
    assert s[..|prefix|] == prefix;
  }

  predicate IsDigit(c: char)
  {
    '0' <= c <= '9'
  }

  function DigitValue(c: char): (d: nat)
    requires IsDigit(c)
    ensures d < 10
  {
    c as int - '0' as int
  }

  function DigitChar(d: nat): (c: char)
    requires d < 10
    ensures IsDigit(c) && DigitValue(c) == d
  {
    ('0' as int + d) as char
  }

  /** Decimal rendering of a natural number, as `"$n"` and `%d` print it: at
      least one digit, and no leading zero unless the number is zero. */
  function NatToString(n: nat): (r: string)
    ensures |r| >= 1
    ensures forall i :: 0 <= i < |r| ==> IsDigit(r[i])
    ensures r[0] == '0' ==> n == 0
  {
    if n < 10 then [DigitChar(n)] else NatToString(n / 10) + [DigitChar(n % 10)]
  }

  /** The value of a string of decimal digits. */
  function ParseNat(s: string): nat
    requires forall i :: 0 <= i < |s| ==> IsDigit(s[i])
  {
    if |s| == 0 then 0 else ParseNat(s[..|s| - 1]) * 10 + DigitValue(s[|s| - 1])
  }

  /** Reading back a rendered number gives the number. */
  lemma {:induction false} ParseNatToString(n: nat)
    ensures ParseNat(NatToString(n)) == n
    decreases n
  {
    if n >= 10 {
      ParseNatToString(n / 10);
      var s := NatToString(n);
      assert s[..|s| - 1] == NatToString(n / 10);
    }
  }
}
