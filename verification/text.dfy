/**
 The two properties of .NET strings that the title validation depends on:
 `string.IsNullOrWhiteSpace` and `string.Length`, which counts UTF-16 code units.
 A Dafny `char` is a Unicode scalar value, so a character outside the Basic
 Multilingual Plane is one `char` here but two code units (a surrogate pair) in C#.
 */
module Text {
  import opened Wrappers

  /** `char.IsWhiteSpace`: the Unicode categories Zs, Zl and Zp together with the
      control characters U+0009..U+000D and U+0085. */
  predicate IsWs(c: char) {
    || ('\U{9}' <= c <= '\U{D}')
    || c == ' '
    || c == '\U{85}'
    || c == '\U{A0}'
    || c == '\U{1680}'
    || ('\U{2000}' <= c <= '\U{200A}')
    || c == '\U{2028}'
    || c == '\U{2029}'
    || c == '\U{202F}'
    || c == '\U{205F}'
    || c == '\U{3000}'
  }

  /** `string.IsNullOrWhiteSpace`: null, empty, or made of white space only. */
  predicate IsNullOrWhiteSpace(s: Option<string>) {
    s.None? || forall i :: 0 <= i < |s.value| ==> IsWs(s.value[i])
  }

  /** A character of the Basic Multilingual Plane: one UTF-16 code unit. */
  predicate InBmp(c: char) {
    c as int < 0x1_0000
  }

  /** The number of UTF-16 code units that encode `c`. */
  function Utf16Units(c: char): (n: nat)
    ensures n == 1 || n == 2
    ensures n == 1 <==> InBmp(c)
  {
    if InBmp(c) then 1 else 2
  }

  /** `string.Length` of the C# string holding `s`: one unit per BMP character,
      two per supplementary character. */
  function Utf16Length(s: string): (n: nat)
    ensures |s| <= n <= 2 * |s|
    ensures n == 0 <==> s == []
  {
    if s == [] then 0 else Utf16Units(s[0]) + Utf16Length(s[1..])
  }

  lemma {:induction false} Utf16LengthAppend(a: string, b: string)
    ensures Utf16Length(a + b) == Utf16Length(a) + Utf16Length(b)
    decreases |a|
  {
    if a == [] {
      assert a + b == b;
    } else {
      assert (a + b)[1..] == a[1..] + b;
      Utf16LengthAppend(a[1..], b);
    }
  }

  /** When every character is in the BMP, the C# length is the character count. */
  lemma {:induction false} Utf16LengthOfBmp(s: string)
    requires forall i :: 0 <= i < |s| ==> InBmp(s[i])
    ensures Utf16Length(s) == |s|
    decreases |s|
  {
    if s != [] {
      Utf16LengthOfBmp(s[1..]);
    }
  }

  /** A string of `n` copies of `c`. */
  function Repeat(c: char, n: nat): (s: string)
    ensures |s| == n
    ensures forall i :: 0 <= i < n ==> s[i] == c
  {
    if n == 0 then [] else [c] + Repeat(c, n - 1)
  }

  /** `n` copies of `c` take `n` times the code units of one. */
  lemma {:induction false} Utf16LengthRepeat(c: char, n: nat)
    ensures Utf16Length(Repeat(c, n)) == n * Utf16Units(c)
    decreases n
  {
    if n > 0 {
      assert Repeat(c, n)[1..] == Repeat(c, n - 1);
      Utf16LengthRepeat(c, n - 1);
    }
  }

  /** A run of a non-white-space character is not blank. */
  lemma RepeatNotBlank(c: char, n: nat)
    requires n > 0 && !IsWs(c)
    ensures !IsNullOrWhiteSpace(Some(Repeat(c, n)))
  {
    assert Repeat(c, n)[0] == c;
  }
}
