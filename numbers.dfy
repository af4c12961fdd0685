// The monitor's two number parsers: `xtoi`, a lenient hexadecimal parser
// that rewrites its argument in place, and `stoi`, a decimal parser.

module Numbers {
  import opened Chars

  /** The byte xtoi stores in place of `c`, and then adds as a digit:
      'a'..'f' and 'A'..'F' become 10..15, every other byte becomes c - '0'
      (stored into a char, so truncated to a signed byte). */
  function XtoiDigit(c: SChar): (d: SChar)
    ensures 97 <= c <= 102 ==> d as int == c as int - 97 + 10
    ensures 65 <= c <= 70 ==> d as int == c as int - 65 + 10
    ensures 48 <= c <= 57 ==> d as int == c as int - 48
    ensures !(97 <= c <= 102 || 65 <= c <= 70) && -80 <= c ==> d as int == c as int - 48
  {
    if 97 <= c <= 102 then (c as int - 97 + 10) as SChar
    else if 65 <= c <= 70 then (c as int - 65 + 10) as SChar
    else Trunc8(c as int - 48)
  }

  /** Base-16 fold of the stored digits, in uint32 arithmetic. */
  function HexFold(body: seq<SChar>): (r: u32)
  {
    if body == [] then 0
    else (HexFold(body[..|body| - 1]) * 16 + XtoiDigit(body[|body| - 1]) as int) % U32
  }

  /** Where xtoi starts reading: two bytes past `at`; the string from there must end in the buffer. */
  predicate XtoiSafe(b: seq<SChar>, at: nat)
  {
    at + 2 <= |b| && Terminated(b, at + 2)
  }

  /** The value xtoi returns for the argument at `at`. */
  function XtoiValue(b: seq<SChar>, at: nat): u32
    requires XtoiSafe(b, at)
  {
    HexFold(CStr(b, at + 2))
  }

  /** The buffer after xtoi: every byte of the parsed body replaced by its digit value. */
  function XtoiRewrite(b: seq<SChar>, at: nat): (b': seq<SChar>)
    requires XtoiSafe(b, at)
    ensures |b'| == |b|
    ensures forall j :: 0 <= j < |b| && b[j] == 0 ==> b'[j] == 0
    ensures forall j :: 0 <= j < |b| && !(at + 2 <= j < StrEnd(b, at + 2)) ==> b'[j] == b[j]
  {
    var e := StrEnd(b, at + 2);
    seq(|b|, j requires 0 <= j < |b| => if at + 2 <= j < e then XtoiDigit(b[j]) else b[j])
  }

  /** One more byte of the body: the fold advances by one digit. */
  lemma HexFoldStep(b: seq<SChar>, from: nat, p: nat)
    requires from <= p < |b|
    ensures HexFold(b[from..p + 1]) == (HexFold(b[from..p]) * 16 + XtoiDigit(b[p]) as int) % U32
  {
    assert b[from..p + 1][..p - from] == b[from..p];
  }

  /** `cur` is `b0` with the bytes in [from, p) replaced by their digit values. */
  ghost predicate RewrittenUpTo(cur: seq<SChar>, b0: seq<SChar>, from: nat, p: nat)
  {
    |cur| == |b0| && forall j :: 0 <= j < |b0| ==> cur[j] == if from <= j < p then XtoiDigit(b0[j]) else b0[j]
  }

  /** Rewriting the byte at `p` extends the rewritten range by one. */
  lemma RewriteStep(cur: seq<SChar>, b0: seq<SChar>, from: nat, p: nat)
    requires RewrittenUpTo(cur, b0, from, p) && from <= p < |b0|
    ensures RewrittenUpTo(cur[p := XtoiDigit(cur[p])], b0, from, p + 1)
  {
  }

  /** kern/monitor.c `xtoi`: skips two bytes without looking at them (the "0x"),
      then folds the rest of the string in base 16, overwriting each byte with
      its digit value. */
  method Xtoi(buf: array<SChar>, at: nat) returns (res: u32)
    requires XtoiSafe(buf[..], at)
    modifies buf
    ensures res == XtoiValue(old(buf[..]), at)
    ensures buf[..] == XtoiRewrite(old(buf[..]), at)
  {
    ghost var b0 := buf[..];
    ghost var e := StrEnd(b0, at + 2);
    res := 0;
    var p := at + 2;
    while buf[p] != 0
      invariant at + 2 <= p <= e
      invariant res == HexFold(b0[at + 2..p])
      invariant RewrittenUpTo(buf[..], b0, at + 2, p)
      decreases e - p
    {
      assert buf[..][p] == b0[p];
      RewriteStep(buf[..], b0, at + 2, p);
      HexFoldStep(b0, at + 2, p);
      buf[p] := XtoiDigit(buf[p]);
      res := (res * 16 + buf[p] as int) % U32;
      p := p + 1;
    }
    assert p == e by {
      assert buf[..][p] == b0[p];
    }
    assert XtoiValue(b0, at) == res;
    XtoiRewriteMatches(b0, at, buf[..]);
  }

  /** The buffer once the whole body is rewritten is XtoiRewrite's. */
  lemma XtoiRewriteMatches(b0: seq<SChar>, at: nat, b: seq<SChar>)
    requires XtoiSafe(b0, at) && RewrittenUpTo(b, b0, at + 2, StrEnd(b0, at + 2))
    ensures b == XtoiRewrite(b0, at)
  {
  }

  /** A lower- or upper-case hexadecimal digit character for `d`. */
  function HexChar(d: int, upper: bool): (c: SChar)
    requires 0 <= d < 16
    ensures c >= 48
  {
    if d < 10 then (48 + d) as SChar
    else if upper then (65 + d - 10) as SChar
    else (97 + d - 10) as SChar
  }

  /** The low `k` hexadecimal digits of `v`, most significant first (printf's %x, zero-padded). */
  function HexDigits(v: nat, k: nat, upper: bool): (s: seq<SChar>)
    ensures |s| == k
    ensures forall j :: 0 <= j < k ==> s[j] >= 48
  {
    if k == 0 then [] else HexDigits(v / 16, k - 1, upper) + [HexChar(v % 16, upper)]
  }

  function Pow16(k: nat): (p: nat)
    ensures p >= 1
  {
    if k == 0 then 1 else 16 * Pow16(k - 1)
  }

  /** xtoi inverts hexadecimal printing: folding the `k` hex digits of `v`
      gives `v` back, for either letter case, whenever `v` fits in `k` digits
      and `k` is at most 8 (so uint32 arithmetic never wraps). */
  lemma {:induction false} HexFoldRoundTrip(v: nat, k: nat, upper: bool)
    requires Pow16(k) <= U32 && v < Pow16(k)
    ensures HexFold(HexDigits(v, k, upper)) == v
  {
    if k > 0 {
      var s := HexDigits(v, k, upper);
      assert s[..k - 1] == HexDigits(v / 16, k - 1, upper);
      HexFoldRoundTrip(v / 16, k - 1, upper);
      assert XtoiDigit(s[k - 1]) as int == v % 16;
    }
  }

  /** The round trip for a whole command argument: the text "0x" followed by
      the eight hex digits of any 32-bit value parses back to that value. */
  lemma XtoiParsesHex(v: u32, upper: bool, b: seq<SChar>)
    requires b == [48, 120] + HexDigits(v, 8, upper) + [0]
    ensures XtoiSafe(b, 0) && XtoiValue(b, 0) == v
  {
    assert Terminated(b, 2) by { assert b[10] == 0; }
    var digits := HexDigits(v, 8, upper);
    assert CStr(b, 2) == digits by {
      assert forall j :: 2 <= j < 10 ==> b[j] == digits[j - 2];
    }
    assert Pow16(8) == U32 by {
      assert Pow16(2) == 256;
      assert Pow16(4) == 65536 by { assert Pow16(3) == 4096; }
      assert Pow16(6) == 0x100_0000 by { assert Pow16(5) == 0x10_0000; }
      assert Pow16(7) == 0x1000_0000;
    }
    HexFoldRoundTrip(v, 8, upper);
  }

  /** Base-10 fold as stoi computes it: every byte counts as c - '0'. */
  function DecFold(s: seq<SChar>): int
  {
    if s == [] then 0 else DecFold(s[..|s| - 1]) * 10 + (s[|s| - 1] as int - 48)
  }

  /** kern/monitor.c `stoi`: reads the string at `at` up to its NUL. */
  method Stoi(buf: array<SChar>, at: nat) returns (res: int)
    requires Terminated(buf[..], at)
    ensures res == DecFold(CStr(buf[..], at))
  {
    ghost var e := StrEnd(buf[..], at);
    res := 0;
    var p := at;
    while buf[p] != 0
      invariant at <= p <= e
      invariant res == DecFold(buf[at..p])
      decreases e - p
    {
      assert buf[at..p + 1][..p - at] == buf[at..p];
      res := res * 10 + buf[p] as int - 48;
      p := p + 1;
    }
  }

  /** stoi inverts decimal printing. */
  lemma {:induction false} StoiParsesDecimal(n: nat)
    ensures DecFold(Decimal(n)) == n
    decreases n
  {
    if n >= 10 {
      var s := Decimal(n);
      assert s[..|s| - 1] == Decimal(n / 10);
      StoiParsesDecimal(n / 10);
    }
  }
}
