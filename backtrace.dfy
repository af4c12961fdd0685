// What mon_backtrace prints: the saved-frame-pointer chain of the stack,
// one frame line and one source line per frame.

module Backtrace {
  import opened Chars
  import opened Messages

  /** Stack memory: the 32-bit word stored at each readable address. */
  type Memory = map<int, u32>

  /** What debuginfo_eip reports for an instruction address. */
  datatype DebugInfo = DebugInfo(file: string, line: int, fnName: string, fnNameLen: int, fnAddr: u32)

  /** The addresses debuginfo_eip resolves; any other address makes it fail. */
  type Symbols = map<u32, DebugInfo>

  /** The six words the frame line prints: the return address ebp[1] and
      five argument words ebp[2..6], all read before anything of the frame is printed. */
  predicate FrameWordsReadable(mem: Memory, ebp: int)
  {
    && ebp + 4 in mem && ebp + 8 in mem && ebp + 12 in mem
    && ebp + 16 in mem && ebp + 20 in mem && ebp + 24 in mem
  }

  /** A frame the walk passes through: its six printed words, and the saved
      frame pointer ebp[0] that it reads after printing the frame's two lines. */
  predicate FrameReadable(mem: Memory, ebp: int)
  {
    FrameWordsReadable(mem, ebp) && ebp in mem
  }

  /** The walk from `ebp` passes exactly `n` frames: each of the `n` frames
      is non-zero and readable and links to the next, and the last link is
      either 0 (the outermost frame, where the loop stops) or a frame whose
      words cannot all be read. */
  predicate ChainOfLength(mem: Memory, ebp: u32, n: nat)
    decreases n
  {
    if n == 0 then ebp == 0 || !FrameReadable(mem, ebp)
    else ebp != 0 && FrameReadable(mem, ebp) && ChainOfLength(mem, mem[ebp], n - 1)
  }

  /** A chain has one length: the number of frames the walk visits is fixed by memory. */
  lemma {:induction false} ChainLengthUnique(mem: Memory, ebp: u32, n1: nat, n2: nat)
    requires ChainOfLength(mem, ebp, n1) && ChainOfLength(mem, ebp, n2)
    ensures n1 == n2
    decreases n1
  {
    if n1 > 0 && n2 > 0 {
      ChainLengthUnique(mem, mem[ebp], n1 - 1, n2 - 1);
    }
  }

  /** The `k`-th frame pointer of the chain: `ebp` itself, then each saved
      link in turn; the rest of the chain from there has `n - k` frames. */
  function Link(mem: Memory, ebp: u32, n: nat, k: nat): (f: u32)
    requires ChainOfLength(mem, ebp, n) && k <= n
    ensures ChainOfLength(mem, f, n - k)
    decreases k
  {
    if k == 0 then ebp
    else Link(mem, mem[ebp], n - 1, k - 1)
  }

  /** The function name as "%.*s" prints it: at most `len` characters, and
      the whole name when `len` is negative (a negative precision counts as none). */
  function NamePrefix(name: string, len: int): (r: string)
    ensures |r| <= |name| && r == name[..|r|]
    ensures 0 <= len <= |name| ==> |r| == len
    ensures (len < 0 || len >= |name|) ==> r == name
  {
    if len < 0 || len >= |name| then name else name[..len]
  }

  /** The two lines printed for the frame at `ebp`: the frame itself, then
      where its return address lies, or "Unkown position" when the lookup fails. */
  function FrameReport(mem: Memory, syms: Symbols, ebp: int): (r: seq<Msg>)
    requires FrameWordsReadable(mem, ebp) && 0 <= ebp < U32
    ensures |r| == 2
  {
    var eip := mem[ebp + 4];
    [FrameLine(ebp, eip, [mem[ebp + 8], mem[ebp + 12], mem[ebp + 16], mem[ebp + 20], mem[ebp + 24]])]
    + if eip in syms then
        var info := syms[eip];
        [SourceLine(info.file, info.line, NamePrefix(info.fnName, info.fnNameLen), (eip - info.fnAddr) % U32)]
      else [UnknownPosition]
  }

  /** The lines of a walk, and whether it stopped at a frame it could not read. */
  datatype Trace = Trace(msgs: seq<Msg>, faulted: bool)

  /** The loop of kern/monitor.c `mon_backtrace` from the frame at `ebp`: a
      frame whose printed words cannot be read faults before printing, and a
      frame whose saved frame pointer cannot be read faults once its two
      lines are printed. */
  function TraceFrom(mem: Memory, syms: Symbols, ebp: u32, n: nat): Trace
    requires ChainOfLength(mem, ebp, n)
    decreases n
  {
    if ebp == 0 then Trace([], false)
    else if !FrameWordsReadable(mem, ebp) then Trace([], true)
    else if ebp !in mem then Trace(FrameReport(mem, syms, ebp), true)
    else
      var t := TraceFrom(mem, syms, mem[ebp], n - 1);
      Trace(FrameReport(mem, syms, ebp) + t.msgs, t.faulted)
  }

  /** What the walk prints at the link where the chain ends: nothing at a
      zero link or where the printed words cannot be read, and the frame's
      two lines where only its saved frame pointer cannot. */
  function EndReport(mem: Memory, syms: Symbols, f: u32): (r: seq<Msg>)
    ensures |r| == 0 || |r| == 2
  {
    if f != 0 && FrameWordsReadable(mem, f) then FrameReport(mem, syms, f) else []
  }

  /** The walk reports two lines per frame of the chain and then what
      EndReport prints at the last link, and it faults exactly when that last
      link is not 0. */
  lemma {:induction false} TraceLength(mem: Memory, syms: Symbols, ebp: u32, n: nat)
    requires ChainOfLength(mem, ebp, n)
    ensures var t, last := TraceFrom(mem, syms, ebp, n), Link(mem, ebp, n, n);
      && |t.msgs| == 2 * n + |EndReport(mem, syms, last)|
      && t.msgs[2 * n..] == EndReport(mem, syms, last)
      && (t.faulted <==> last != 0)
    decreases n
  {
    if n > 0 {
      var next := mem[ebp];
      var r := TraceFrom(mem, syms, next, n - 1);
      TraceLength(mem, syms, next, n - 1);
      assert Link(mem, ebp, n, n) == Link(mem, next, n - 1, n - 1);
      var head := FrameReport(mem, syms, ebp);
      assert TraceFrom(mem, syms, ebp, n).msgs == head + r.msgs;
      assert (head + r.msgs)[2 * n..] == r.msgs[2 * (n - 1)..];
    }
  }

  /** Two lines in front of `rest` move each pair of its lines two places on. */
  lemma PairAfterHead(head: seq<Msg>, rest: seq<Msg>, i: nat)
    requires |head| == 2 && i + 2 <= |rest|
    ensures (head + rest)[i + 2..i + 4] == rest[i..i + 2]
  {
  }

  /** Lines 2k and 2k+1 of the walk report frame `k`, from its own frame pointer. */
  lemma {:induction false} TraceFrameAt(mem: Memory, syms: Symbols, ebp: u32, n: nat, k: nat)
    requires ChainOfLength(mem, ebp, n) && k < n
    ensures var t := TraceFrom(mem, syms, ebp, n);
      2 * k + 2 <= |t.msgs| && t.msgs[2 * k..2 * k + 2] == FrameReport(mem, syms, Link(mem, ebp, n, k))
    decreases k
  {
    TraceLength(mem, syms, ebp, n);
    var next := mem[ebp];
    var r := TraceFrom(mem, syms, next, n - 1);
    var head := FrameReport(mem, syms, ebp);
    assert TraceFrom(mem, syms, ebp, n).msgs == head + r.msgs;
    if k > 0 {
      assert Link(mem, ebp, n, k) == Link(mem, next, n - 1, k - 1);
      TraceFrameAt(mem, syms, next, n - 1, k - 1);
      PairAfterHead(head, r.msgs, 2 * (k - 1));
    } else {
      assert (head + r.msgs)[0..2] == head;
    }
  }

  /** The walk reports every frame of the chain in order, two lines each,
      frame `k` from its own frame pointer, and a frame whose lookup fails
      still lets the walk go on; it ends normally at a zero link, and at a
      last link it cannot follow it prints that frame's lines if their words
      can be read and then faults. */
  lemma TraceReportsEveryFrame(mem: Memory, syms: Symbols, ebp: u32, n: nat)
    requires ChainOfLength(mem, ebp, n)
    ensures var t, last := TraceFrom(mem, syms, ebp, n), Link(mem, ebp, n, n);
      && |t.msgs| == 2 * n + |EndReport(mem, syms, last)|
      && (forall k :: 0 <= k < n ==> t.msgs[2 * k..2 * k + 2] == FrameReport(mem, syms, Link(mem, ebp, n, k)))
      && t.msgs[2 * n..] == EndReport(mem, syms, last)
      && (t.faulted <==> last != 0)
  {
    TraceLength(mem, syms, ebp, n);
    forall k | 0 <= k < n
      ensures TraceFrom(mem, syms, ebp, n).msgs[2 * k..2 * k + 2] == FrameReport(mem, syms, Link(mem, ebp, n, k))
    {
      TraceFrameAt(mem, syms, ebp, n, k);
    }
  }
}
