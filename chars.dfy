// C characters, NUL-terminated strings and 32-bit words, as the kernel
// monitor and the console filter see them.

module Chars {

  /** A C `char`: a signed byte, as gcc uses for plain `char` on x86. */
  newtype SChar = x: int | -128 <= x < 128

  /** A `uint32_t` value. */
  type u32 = x: int | 0 <= x < 0x1_0000_0000

  const U32: int := 0x1_0000_0000

  /** The value a store of `v` into a `char` object leaves there (gcc wraps modulo 256). */
  function Trunc8(v: int): (c: SChar)
    ensures (c as int - v) % 256 == 0
    ensures -128 <= v < 128 ==> c as int == v
  {
    ((v + 128) % 256 - 128) as SChar
  }

  /** Some byte at index `i` or later is NUL: a C string starting at `i` ends inside `b`. */
  predicate Terminated(b: seq<SChar>, i: int)
  {
    exists j :: 0 <= i <= j < |b| && b[j] == 0
  }

  /** The index of the NUL that ends the C string starting at `i`. */
  function StrEnd(b: seq<SChar>, i: nat): (e: nat)
    requires Terminated(b, i)
    ensures i <= e < |b| && b[e] == 0
    ensures forall j :: i <= j < e ==> b[j] != 0
    decreases |b| - i
  {
    if b[i] == 0 then i
    else
      assert Terminated(b, i + 1);
      StrEnd(b, i + 1)
  }

  /** The C string starting at `i`, without its terminating NUL. */
  function CStr(b: seq<SChar>, i: nat): (s: seq<SChar>)
    requires Terminated(b, i)
    ensures 0 !in s
    ensures i + |s| < |b| && b[i + |s|] == 0 && s == b[i..i + |s|]
  {
    b[i..StrEnd(b, i)]
  }

  /** Bytes `s` free of NUL and followed by a NUL at `i` form the C string starting at `i`. */
  lemma CStrAt(b: seq<SChar>, i: nat, s: seq<SChar>)
    requires i + |s| < |b| && b[i..i + |s|] == s && 0 !in s && b[i + |s|] == 0
    ensures Terminated(b, i) && CStr(b, i) == s
  {
    assert Terminated(b, i);
  }

  /** A string starting with a non-NUL byte is at least one byte long, so index `i + 1` is in bounds. */
  lemma {:induction false} NonEmptyString(b: seq<SChar>, i: nat)
    requires Terminated(b, i) && i < |b| && b[i] != 0
    ensures i + 1 < |b| && Terminated(b, i + 1) && StrEnd(b, i + 1) == StrEnd(b, i)
  {
  }

  /** Replacing bytes by NUL, or leaving them alone, keeps every string terminated. */
  lemma TerminatedKept(b: seq<SChar>, b': seq<SChar>, i: int)
    requires |b'| == |b| && Terminated(b, i)
    requires forall j :: 0 <= j < |b| && b[j] == 0 ==> b'[j] == 0
    ensures Terminated(b', i)
  {
    var j :| 0 <= i <= j < |b| && b[j] == 0;
    assert b'[j] == 0;
  }

  function DigitChar(d: int): (c: SChar)
    requires 0 <= d < 10
    ensures 48 <= c <= 57 && c as int - 48 == d
  {
    (48 + d) as SChar
  }

  /** The decimal text of `n` (what printf's %d prints for a non-negative value). */
  function Decimal(n: nat): (s: seq<SChar>)
    ensures |s| > 0
    ensures forall k :: 0 <= k < |s| ==> 48 <= s[k] <= 57
    decreases n
  {
    if n < 10 then [DigitChar(n)] else Decimal(n / 10) + [DigitChar(n % 10)]
  }
}
