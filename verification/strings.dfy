/**
 * The two string helpers the tree printer relies on: Go's `strings.Repeat`
 * and the printer's own `lpad`.
 */
module Strings {

  /** `n` copies of `s`, one after the other (Go's `strings.Repeat`; the count is never negative here). */
  function Repeat(s: string, n: nat): string
  {
    if n == 0 then "" else Repeat(s, n - 1) + s
  }

  lemma {:induction false} RepeatLength(s: string, n: nat)
    ensures |Repeat(s, n)| == n * |s|
  {
    if n > 0 {
      RepeatLength(s, n - 1);
      assert (n - 1) * |s| + |s| == n * |s|;
    }
  }

  /** Copy number `j` of `s` is the `j`-th block of `|s|` characters of `Repeat(s, n)`. */
  lemma {:induction false} RepeatBlock(s: string, n: nat, j: nat)
    requires j < n
    ensures |Repeat(s, n)| == n * |s| && j * |s| + |s| <= n * |s|
    ensures Repeat(s, n)[j * |s| .. j * |s| + |s|] == s
  {
    RepeatLength(s, n);
    var w := |s|;
    var p := Repeat(s, n - 1);
    RepeatLength(s, n - 1);
    assert Repeat(s, n) == p + s;
    assert (n - 1) * w + w == n * w;
    if j < n - 1 {
      RepeatBlock(s, n - 1, j);
      assert (p + s)[j * w .. j * w + w] == p[j * w .. j * w + w];
    } else {
      assert j * w == |p|;
      assert (p + s)[|p| .. |p| + w] == s;
    }
  }

  /** `lpad(s, padChar, n)`: `n` copies of `padChar` in front of `s`. */
  function Lpad(s: string, padChar: string, n: nat): string
  {
    Repeat(padChar, n) + s
  }

  /** With a one-character pad, `lpad` puts exactly `n` pad characters in front of `s` and leaves `s` as it is. */
  lemma LpadShape(s: string, pad: char, n: nat)
    ensures |Lpad(s, [pad], n)| == n + |s|
    ensures forall i :: 0 <= i < n ==> Lpad(s, [pad], n)[i] == pad
    ensures Lpad(s, [pad], n)[n..] == s
  {
    var r := Lpad(s, [pad], n);
    RepeatLength([pad], n);
    assert r == Repeat([pad], n) + s;
    forall i | 0 <= i < n
      ensures r[i] == pad
    {
      RepeatBlock([pad], n, i);
      assert Repeat([pad], n)[i .. i + 1] == [pad];
      assert r[i] == Repeat([pad], n)[i];
    }
  }
}
