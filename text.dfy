/**
 * JavaScript's rendering of integers as decimal text (`${n}`) and
 * `Array.prototype.join`, with the facts the timeline layout needs.
 */
module Text {

  predicate IsDigit(c: char) { '0' <= c <= '9' }

  function DigitChar(d: nat): (c: char)
    requires d < 10
    ensures IsDigit(c) && c as int - '0' as int == d
  {
    (d + '0' as int) as char
  }

  function Pow10(k: nat): (r: nat)
    ensures r >= 1
  {
    if k == 0 then 1 else 10 * Pow10(k - 1)
  }

  /** Decimal text of a natural number: digits only, no leading zero. */
  function NatText(n: nat): (r: string)
    ensures |r| >= 1
    ensures forall i :: 0 <= i < |r| ==> IsDigit(r[i])
    ensures |r| > 1 ==> r[0] != '0'
  {
    if n < 10 then [DigitChar(n)] else NatText(n / 10) + [DigitChar(n % 10)]
  }

  /** Decimal text of an integer, with a leading '-' for negative numbers. */
  function IntText(n: int): (r: string)
    ensures |r| >= 1
    ensures (r[0] == '-') <==> n < 0
  {
    if n < 0 then "-" + NatText(-n) else NatText(n)
  }

  function DigitValue(c: char): nat
    requires IsDigit(c)
  {
    c as int - '0' as int
  }

  /** The number that a string of digits denotes. */
  function DigitsValue(s: string): nat
    requires forall i :: 0 <= i < |s| ==> IsDigit(s[i])
  {
    if s == [] then 0 else 10 * DigitsValue(s[..|s| - 1]) + DigitValue(s[|s| - 1])
  }

  /** Reading the decimal text back gives the number. */
  lemma {:induction false} NatTextRoundTrip(n: nat)
    ensures DigitsValue(NatText(n)) == n
  {
    if n >= 10 {
      var r := NatText(n);
      assert r[..|r| - 1] == NatText(n / 10);
      NatTextRoundTrip(n / 10);
    }
  }

  /** Distinct numbers have distinct decimal texts. */
  lemma NatTextInjective(m: nat, n: nat)
    requires NatText(m) == NatText(n)
    ensures m == n
  {
    NatTextRoundTrip(m);
    NatTextRoundTrip(n);
  }

  /** A number below 10^k takes at most k digits. */
  lemma {:induction false} NatTextWidth(n: nat, k: nat)
    requires 1 <= k && n < Pow10(k)
    ensures |NatText(n)| <= k
  {
    if n >= 10 {
      NatTextWidth(n / 10, k - 1);
    }
  }

  /** `parts.join(sep)`. */
  function Join(parts: seq<string>, sep: string): string
  {
    if |parts| == 0 then ""
    else if |parts| == 1 then parts[0]
    else parts[0] + sep + Join(parts[1..], sep)
  }

  /** `k` steps of `off`: the column where part k of a join of equal-width parts starts. */
  function Stride(k: nat, off: nat): nat
  {
    if k == 0 then 0 else Stride(k - 1, off) + off
  }

  /** A stride is the product of the count and the step. */
  lemma {:induction false} StrideIsProduct(k: nat, off: nat)
    ensures Stride(k, off) == k * off
  {
    if k > 0 {
      StrideIsProduct(k - 1, off);
    }
  }

  /** One more step goes at least one step further. */
  lemma {:induction false} StrideMono(k: nat, n: nat, off: nat)
    requires k < n
    ensures Stride(k, off) + off <= Stride(n, off)
  {
    if k + 1 < n {
      StrideMono(k, n - 1, off);
    }
  }

  /** Joining n parts of width w takes n * w characters plus n - 1 separators. */
  lemma {:induction false} JoinLength(parts: seq<string>, sep: string, w: nat)
    requires |parts| >= 1
    requires forall i :: 0 <= i < |parts| ==> |parts[i]| == w
    ensures |Join(parts, sep)| + |sep| == Stride(|parts|, w + |sep|)
  {
    if |parts| > 1 {
      JoinLength(parts[1..], sep, w);
      StrideFromFront(|parts| - 1, w + |sep|);
    }
  }

  /** A stride of k + 1 steps is one step followed by a stride of k. */
  lemma {:induction false} StrideFromFront(k: nat, off: nat)
    ensures Stride(k + 1, off) == off + Stride(k, off)
  {
    if k > 0 {
      StrideFromFront(k - 1, off);
    }
  }

  /** In a join of parts of width w, part k starts after k parts and k separators. */
  lemma {:induction false} JoinAt(parts: seq<string>, sep: string, w: nat, k: nat)
    requires k < |parts|
    requires forall i :: 0 <= i < |parts| ==> |parts[i]| == w
    ensures |Join(parts, sep)| + |sep| == Stride(|parts|, w + |sep|)
    ensures Stride(k, w + |sep|) + w <= |Join(parts, sep)|
    ensures Join(parts, sep)[Stride(k, w + |sep|)..Stride(k, w + |sep|) + w] == parts[k]
  {
    var off := w + |sep|;
    JoinLength(parts, sep, w);
    StrideMono(k, |parts|, off);
    if k == 0 {
      assert |parts| > 1 ==> Join(parts, sep) == parts[0] + (sep + Join(parts[1..], sep));
    } else {
      JoinAt(parts[1..], sep, w, k - 1);
      var a := Stride(k - 1, off);
      JoinShift(parts, sep, a, w);
      StrideFromFront(k - 1, off);
    }
  }

  /** A slice of the join of the tail reappears in the whole join, shifted by the first part and one separator. */
  lemma JoinShift(parts: seq<string>, sep: string, a: nat, w: nat)
    requires |parts| > 1
    requires a + w <= |Join(parts[1..], sep)|
    ensures |parts[0]| + |sep| + a + w <= |Join(parts, sep)|
    ensures Join(parts, sep)[|parts[0]| + |sep| + a..|parts[0]| + |sep| + a + w] == Join(parts[1..], sep)[a..a + w]
  {
    var head := parts[0] + sep;
    assert Join(parts, sep) == head + Join(parts[1..], sep);
    SliceAfterPrefix(head, Join(parts[1..], sep), |head| + a, |head| + a + w);
  }

  /** The same, inside a text that puts `head` before the join and `tail` after it. */
  lemma FramedJoinAt(head: string, parts: seq<string>, sep: string, tail: string, w: nat, k: nat)
    requires k < |parts|
    requires forall i :: 0 <= i < |parts| ==> |parts[i]| == w
    ensures var text, at := head + Join(parts, sep) + tail, |head| + Stride(k, w + |sep|);
      && |text| + |sep| == |head| + Stride(|parts|, w + |sep|) + |tail|
      && at + w <= |text|
      && text[at..at + w] == parts[k]
  {
    var joined := Join(parts, sep);
    JoinAt(parts, sep, w, k);
    var a := Stride(k, w + |sep|);
    assert head + joined + tail == head + (joined + tail);
    SliceAfterPrefix(head, joined + tail, |head| + a, |head| + a + w);
    assert (joined + tail)[a..a + w] == joined[a..a + w];
  }

  lemma SliceAfterPrefix(p: string, t: string, a: int, b: int)
    requires |p| <= a <= b <= |p| + |t|
    ensures (p + t)[a..b] == t[a - |p|..b - |p|]
  {
  }
}
