/**
 * The lodash string helpers that `TimeFlow` relies on, on strings of plain
 * characters (one `char` per symbol): `repeat`, `truncate` (no separator),
 * `pad` and `padEnd` with the default space filler.
 */
module Lodash {

  function Max(a: int, b: int): int { if a < b then b else a }

  /** `repeat(c, n)`: `n` copies of `c`. */
  function Repeat(c: char, n: nat): (r: string)
    ensures |r| == n
  {
    seq(n, _ => c)
  }

  /**
   * `truncate(s, {length, omission})`: a string that fits is returned as is;
   * otherwise the first `length - |omission|` characters are kept and the
   * omission appended, or the omission alone when no character would be kept.
   */
  function Truncate(s: string, length: int, omission: string): (r: string)
    ensures |s| <= length ==> r == s
    ensures length < |s| ==> |r| == if length - |omission| < 1 then |omission| else length
  {
    if |s| <= length then s
    else if length - |omission| < 1 then omission
    else s[..length - |omission|] + omission
  }

  /** `pad(s, length)`: centre `s` in spaces, the smaller half of the padding on the left. */
  function Pad(s: string, length: int): (r: string)
    ensures |r| == Max(|s|, length)
  {
    if length <= |s| then s
    else
      var left := (length - |s|) / 2;
      Repeat(' ', left) + s + Repeat(' ', length - |s| - left)
  }

  /** `padEnd(s, length)`: `s` followed by enough spaces to reach `length`. */
  function PadEnd(s: string, length: int): (r: string)
    ensures |r| == Max(|s|, length)
  {
    if length <= |s| then s else s + Repeat(' ', length - |s|)
  }

  /** `pad` centres the string: the floor half of the padding before it, the ceiling half after it. */
  lemma PadCentres(s: string, length: int)
    ensures var r, left := Pad(s, length), (Max(|s|, length) - |s|) / 2;
      && r[left..left + |s|] == s
      && (forall i :: 0 <= i < left ==> r[i] == ' ')
      && (forall i :: left + |s| <= i < |r| ==> r[i] == ' ')
  {
  }

  /** `padEnd` keeps the string and fills the rest with spaces. */
  lemma PadEndFills(s: string, length: int)
    ensures PadEnd(s, length)[..|s|] == s
    ensures forall i :: |s| <= i < |PadEnd(s, length)| ==> PadEnd(s, length)[i] == ' '
  {
  }
}
