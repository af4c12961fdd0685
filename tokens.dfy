// The monitor's line tokenizer: runcmd splits a command line in place,
// writing NUL over whitespace and recording where each argument starts.

module Tokens {
  import opened Chars

  /** WHITESPACE, the separators runcmd looks up with strchr. */
  const WHITESPACE: seq<SChar> := [9, 13, 10, 32]

  /** The bytes strchr finds in WHITESPACE once the scan has checked that
      the byte is not the NUL that ends the line: tab, carriage return,
      newline and space. */
  predicate IsSpace(c: SChar): (r: bool)
    ensures r <==> c != 0 && c in WHITESPACE
  {
    c == 9 || c == 13 || c == 10 || c == 32
  }

  const MAXARGS: nat := 16

  /** The end of the run of non-space bytes that starts at `i`. */
  function RunEnd(s: seq<SChar>, i: nat): (e: nat)
    requires i <= |s|
    ensures i <= e <= |s|
    ensures e == |s| || IsSpace(s[e])
    ensures forall j :: i <= j < e ==> !IsSpace(s[j])
    decreases |s| - i
  {
    if i == |s| || IsSpace(s[i]) then i else RunEnd(s, i + 1)
  }

  /** Where the arguments of `s[i..]` start, in order. */
  function Starts(s: seq<SChar>, i: nat): (r: seq<nat>)
    requires i <= |s|
    ensures forall k :: 0 <= k < |r| ==> i <= r[k] < |s|
    decreases |s| - i
  {
    if i == |s| then []
    else if IsSpace(s[i]) then Starts(s, i + 1)
    else [i] + Starts(s, RunEnd(s, i))
  }

  /** The argument starting at `t`. */
  function Token(s: seq<SChar>, t: nat): seq<SChar>
    requires t <= |s|
  {
    s[t..RunEnd(s, t)]
  }

  /** A byte that begins an argument of `s[i..]`: not a space, and first or preceded by a space. */
  predicate IsTokenStart(s: seq<SChar>, i: nat, j: int)
  {
    i <= j < |s| && !IsSpace(s[j]) && (j == i || IsSpace(s[j - 1]))
  }

  /** The arguments are exactly the maximal runs of non-space bytes:
      an index is listed iff it starts such a run, the list is strictly
      increasing, and each argument is non-empty, space-free and ends at a
      space or at the end of the line. */
  lemma {:induction false} StartsAreTokenStarts(s: seq<SChar>, i: nat)
    requires i <= |s|
    ensures forall j :: j in Starts(s, i) <==> IsTokenStart(s, i, j)
    ensures forall a, b :: 0 <= a < b < |Starts(s, i)| ==> Starts(s, i)[a] < Starts(s, i)[b]
    ensures forall a :: 0 <= a < |Starts(s, i)| ==> i <= Starts(s, i)[a] < RunEnd(s, Starts(s, i)[a])
    decreases |s| - i
  {
    if i < |s| {
      if IsSpace(s[i]) {
        StartsAreTokenStarts(s, i + 1);
      } else {
        var e := RunEnd(s, i);
        StartsAreTokenStarts(s, e);
        forall j ensures j in Starts(s, i) <==> IsTokenStart(s, i, j) {
          if i < j < e {
            assert !IsSpace(s[j - 1]);
          }
        }
      }
    }
  }

  /** The line as runcmd leaves it once it has scanned up to `p`: every space before `p` is NUL. */
  function Blank(b: seq<SChar>, p: int): (b': seq<SChar>)
    ensures |b'| == |b|
  {
    seq(|b|, j requires 0 <= j < |b| => if j < p && IsSpace(b[j]) then 0 else b[j])
  }

  /** The command line held by a buffer: its bytes up to the first NUL. */
  function Line(b: seq<SChar>): (s: seq<SChar>)
    requires Terminated(b, 0)
  {
    CStr(b, 0)
  }

  /** What the tokenizer returns: all argument starts when there are at most
      MAXARGS - 1 of them; otherwise the first MAXARGS - 1. */
  function Argv(s: seq<SChar>): seq<nat>
  {
    var r := Starts(s, 0);
    if |r| < MAXARGS then r else r[..MAXARGS - 1]
  }

  /** Where the scan stops: the end of the line, or the start of the 16th argument. */
  function ScanEnd(s: seq<SChar>): nat
  {
    var r := Starts(s, 0);
    if |r| < MAXARGS then |s| else r[MAXARGS - 1]
  }

  /** `cur` is `b0` with every space before `p` replaced by NUL. */
  ghost predicate BlankedBefore(cur: seq<SChar>, b0: seq<SChar>, p: int)
  {
    |cur| == |b0| && forall j :: 0 <= j < |b0| ==> cur[j] == if j < p && IsSpace(b0[j]) then 0 else b0[j]
  }

  /** A buffer blanked before `p` is the value Blank describes. */
  lemma BlankedBeforeIsBlank(cur: seq<SChar>, b0: seq<SChar>, p: int)
    requires BlankedBefore(cur, b0, p)
    ensures cur == Blank(b0, p)
  {
  }

  /** A run of non-space bytes from `i` that stops at a space or at the end, at `e`, ends at `e`. */
  lemma {:induction false} RunEndAt(s: seq<SChar>, i: nat, e: nat)
    requires i <= e <= |s| && (e == |s| || IsSpace(s[e]))
    requires forall j :: i <= j < e ==> !IsSpace(s[j])
    ensures RunEnd(s, i) == e
    decreases e - i
  {
    if i < e {
      RunEndAt(s, i + 1, e);
    }
  }

  /** At a non-space byte an argument starts, and the list goes on after its end. */
  lemma StartsAtArgument(s: seq<SChar>, p: nat)
    requires p < |s| && !IsSpace(s[p])
    ensures Starts(s, p) == [p] + Starts(s, RunEnd(s, p))
  {
  }

  /** The inner "gobble whitespace" loop of runcmd: NUL over each space from `p` on. */
  method SkipSpaces(buf: array<SChar>, p0: nat, ghost b0: seq<SChar>) returns (p: nat)
    requires Terminated(b0, 0) && p0 <= |Line(b0)|
    requires BlankedBefore(buf[..], b0, p0)
    modifies buf
    ensures p0 <= p <= |Line(b0)|
    ensures Starts(Line(b0), p) == Starts(Line(b0), p0)
    ensures p == |Line(b0)| || !IsSpace(Line(b0)[p])
    ensures BlankedBefore(buf[..], b0, p)
  {
    ghost var s := Line(b0);
    p := p0;
    while buf[p] != 0 && IsSpace(buf[p])
      invariant p0 <= p <= |s|
      invariant Starts(s, p) == Starts(s, p0)
      invariant forall j :: 0 <= j < buf.Length ==> buf[j] == if j < p && IsSpace(b0[j]) then 0 else b0[j]
      decreases |s| - p
    {
      buf[p] := 0;
      p := p + 1;
    }
  }

  /** The inner "scan past next arg" loop of runcmd: moves to the end of the argument at `p0`. */
  method SkipArgument(buf: array<SChar>, p0: nat, ghost b0: seq<SChar>) returns (p: nat)
    requires Terminated(b0, 0) && p0 <= |Line(b0)|
    requires BlankedBefore(buf[..], b0, p0)
    ensures p == RunEnd(Line(b0), p0)
    ensures BlankedBefore(buf[..], b0, p)
  {
    ghost var s := Line(b0);
    p := p0;
    while buf[p] != 0 && !IsSpace(buf[p])
      invariant p0 <= p <= RunEnd(s, p0)
      invariant BlankedBefore(buf[..], b0, p)
      decreases |s| - p
    {
      p := p + 1;
    }
  }

  /** The loop of kern/monitor.c `runcmd` that parses the buffer into arguments. */
  method Tokenize(buf: array<SChar>) returns (argv: seq<nat>, ok: bool)
    requires Terminated(buf[..], 0)
    modifies buf
    ensures var s := Line(old(buf[..]));
      && ok == (|Starts(s, 0)| < MAXARGS)
      && argv == Argv(s)
      && buf[..] == Blank(old(buf[..]), ScanEnd(s))
  {
    ghost var b0 := buf[..];
    ghost var s := Line(b0);
    var p := 0;
    argv := [];
    while true
      invariant p <= |s|
      invariant Starts(s, 0) == argv + Starts(s, p)
      invariant |argv| < MAXARGS
      invariant BlankedBefore(buf[..], b0, p)
      decreases |s| - p
    {
      p := SkipSpaces(buf, p, b0);
      if buf[p] == 0 {
        break;
      }
      StartsAtArgument(s, p);
      if |argv| == MAXARGS - 1 {
        ok := false;
        BlankedBeforeIsBlank(buf[..], b0, p);
        return;
      }
      assert argv + ([p] + Starts(s, RunEnd(s, p))) == (argv + [p]) + Starts(s, RunEnd(s, p));
      argv := argv + [p];
      p := SkipArgument(buf, p, b0);
    }
    ok := true;
    assert argv + [] == argv;
    BlankedBeforeIsBlank(buf[..], b0, |s|);
  }

  /** After the scan, each argument is a C string of its own: the NUL that
      ends it is where its run of non-space bytes ends. */
  lemma TokenIsCString(b: seq<SChar>, t: nat)
    requires Terminated(b, 0)
    requires t in Starts(Line(b), 0)
    ensures Terminated(Blank(b, |Line(b)|), t)
    ensures CStr(Blank(b, |Line(b)|), t) == Token(Line(b), t)
  {
    var s := Line(b);
    var bb := Blank(b, |s|);
    StartsAreTokenStarts(s, 0);
    var e := RunEnd(s, t);
    assert bb[e] == 0;
    assert Terminated(bb, t);
    assert forall j :: t <= j < e ==> bb[j] == s[j] != 0;
    assert StrEnd(bb, t) == e;
  }
}
