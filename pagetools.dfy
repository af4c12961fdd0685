// The page-table logic of the monitor's `showmappings` and `setm`
// commands and of `print_permission`, over an abstract page directory and
// an abstract page-table-entry locator.

module PageTools {
  import opened Chars
  import opened Mmu
  import opened Messages

  /** The page directory: the 1024 entries of kern_pgdir. */
  type PageDir = d: seq<bv32> | |d| == NPDENTRIES witness seq(NPDENTRIES, _ => 0)

  /** What pgdir_walk(kern_pgdir, va, 1) yields, by page number va / PGSIZE:
      the page-table entry, or no entry when the walk fails (out of memory). */
  type PteMap = map<int, bv32>

  /** kern/monitor.c `print_permission`: "|PTE_P", "|PTE_W", "|PTE_U" for each set bit, then "|\n". */
  function PermText(e: bv32): string
  {
    FlagsText(e & PTE_P != 0, e & PTE_W != 0, e & PTE_U != 0)
  }

  /** The breakdown for the three flags, in the order print_permission tests them. */
  function FlagsText(p: bool, w: bool, u: bool): string
  {
    (if p then "|PTE_P" else "") + (if w then "|PTE_W" else "") + (if u then "|PTE_U" else "") + "|\n"
  }

  /** Different flags give different text: "W" and "U" each appear only in their own
      flag's word, and the sixth character is 'P' only when PTE_P is listed. */
  lemma FlagsTextInjective(p1: bool, w1: bool, u1: bool, p2: bool, w2: bool, u2: bool)
    requires FlagsText(p1, w1, u1) == FlagsText(p2, w2, u2)
    ensures p1 == p2 && w1 == w2 && u1 == u2
  {
    var s1, s2 := FlagsText(p1, w1, u1), FlagsText(p2, w2, u2);
    assert w1 <==> 'W' in s1;
    assert w2 <==> 'W' in s2;
    assert u1 <==> 'U' in s1;
    assert u2 <==> 'U' in s2;
  }

  /** Two entries agree on their low three bits exactly when they agree on each of P, W and U. */
  lemma LowBits(e1: bv32, e2: bv32)
    ensures e1 & 7 == e2 & 7 <==> (e1 & PTE_P == e2 & PTE_P && e1 & PTE_W == e2 & PTE_W && e1 & PTE_U == e2 & PTE_U)
  {
  }

  /** The permission breakdown is faithful: two entries print the same
      breakdown exactly when their present, writable and user bits agree. */
  lemma PermTextShowsBits(e1: bv32, e2: bv32)
    ensures PermText(e1) == PermText(e2) <==> e1 & 7 == e2 & 7
  {
    LowBits(e1, e2);
    if PermText(e1) == PermText(e2) {
      FlagsTextInjective(e1 & PTE_P != 0, e1 & PTE_W != 0, e1 & PTE_U != 0,
                         e2 & PTE_P != 0, e2 & PTE_W != 0, e2 & PTE_U != 0);
    }
  }

  /** The permission bit named by setm's third argument: 'p', 'w' or 'u', and none for any other byte. */
  function PermOf(letter: SChar): (perm: bv32)
    ensures perm == 0 || perm == PTE_P || perm == PTE_W || perm == PTE_U
    ensures perm == 0 <==> !(letter == 112 || letter == 119 || letter == 117)
  {
    if letter == 112 then PTE_P        // 'p'
    else if letter == 119 then PTE_W   // 'w'
    else if letter == 117 then PTE_U   // 'u'
    else 0
  }

  /** The entry setm leaves: with `clear` (the mode byte is '0') the bit named
      by `letter` is cleared, otherwise it is set. */
  function SetmEntry(e: bv32, clear: bool, letter: SChar): bv32
  {
    if clear then e & !PermOf(letter) else e | PermOf(letter)
  }

  lemma MaskFacts(e: bv32, p: bv32)
    ensures (e & !p) & !p == e & !p
    ensures (e | p) & !p == e & !p
  {
  }

  lemma ZeroMask(e: bv32)
    ensures e & !0 == e && e | 0 == e
  {
  }

  /** setm changes no bit other than the one it names. */
  lemma SetmKeepsOtherBits(e: bv32, clear: bool, letter: SChar)
    ensures SetmEntry(e, clear, letter) & !PermOf(letter) == e & !PermOf(letter)
  {
    MaskFacts(e, PermOf(letter));
  }

  /** A clear leaves the named bit 0. */
  lemma SetmClears(e: bv32, letter: SChar)
    ensures SetmEntry(e, true, letter) & PermOf(letter) == 0
  {
  }

  /** A set leaves the named bit 1. */
  lemma SetmSets(e: bv32, letter: SChar)
    ensures SetmEntry(e, false, letter) & PermOf(letter) == PermOf(letter)
  {
  }

  /** A letter other than 'p', 'w' and 'u' names no bit, and the entry is left as it was. */
  lemma SetmUnknownLetter(e: bv32, clear: bool, letter: SChar)
    requires !(letter == 112 || letter == 119 || letter == 117)
    ensures SetmEntry(e, clear, letter) == e
  {
    ZeroMask(e);
  }

  /** Repeating a setm with the same arguments changes nothing more: set and clear are idempotent. */
  lemma SetmIdempotent(e: bv32, clear: bool, letter: SChar)
    ensures SetmEntry(SetmEntry(e, clear, letter), clear, letter) == SetmEntry(e, clear, letter)
  {
  }

  /** Setting a bit that was clear and then clearing it restores the entry. */
  lemma SetThenClearRestores(e: bv32, letter: SChar)
    requires e & PermOf(letter) == 0
    ensures SetmEntry(SetmEntry(e, false, letter), true, letter) == e
  {
  }

  /** Clearing a bit that was set and then setting it restores the entry. */
  lemma ClearThenSetRestores(e: bv32, letter: SChar)
    requires e & PermOf(letter) == PermOf(letter)
    ensures SetmEntry(SetmEntry(e, true, letter), false, letter) == e
  {
  }

  /** How far showmappings advances from `va`: a whole 4 MiB page when the
      directory entry has PTE_PS (present or not), otherwise one 4 KiB page. */
  function StepAt(pgdir: PageDir, va: u32): (step: int)
    ensures step == PGSIZE || step == PTSIZE
  {
    if pgdir[PDX(va)] & PTE_PS != 0 then PTSIZE else PGSIZE
  }

  /** The line showmappings prints for `va` given the entry that maps it,
      a 4 MiB directory entry when `large`, a 4 KiB table entry otherwise. */
  function EntryReport(va: u32, e: bv32, large: bool): Msg
  {
    if e & PTE_P != 0 then
      var size: bv32 := if large then 0x40_0000 else 0x1000;
      MappingLine(va, (va + (if large then PTSIZE else PGSIZE)) % U32, PteAddr(e), PteAddr(e) + size, PermText(e))
    else NotMapped(va)
  }

  /** The line printed for `va`, or None when pgdir_walk fails there (the kernel panics). */
  function ReportAt(pgdir: PageDir, ptes: PteMap, va: u32): Option<Msg>
  {
    var pde := pgdir[PDX(va)];
    if pde & PTE_PS != 0 then Some(EntryReport(va, pde, true))
    else if va / PGSIZE in ptes then Some(EntryReport(va, ptes[va / PGSIZE], false))
    else None
  }

  datatype Option<T> = None | Some(value: T)

  /** How the showmappings loop ends: its condition `begin < end` fails, the
      page-table walk fails (the kernel panics), or the uint32 running address
      wraps past 2^32 to an address below 4 MiB, near 0 and in general below
      the start of the range, from where the source walks on and the model
      follows no further. */
  datatype WalkEnd = Covered | WalkPanic | Wrap

  /** The lines of a walk, and how it ended. */
  datatype Walked = Walked(msgs: seq<Msg>, ending: WalkEnd)

  /** The loop of kern/monitor.c `showmappings`, from `begin` while it is below
      `end`: a report per visited address, stopping at a failing page-table
      walk, and at the report whose step carries the address past 2^32. */
  function Walk(pgdir: PageDir, ptes: PteMap, begin: u32, end: u32): Walked
    decreases end - begin
  {
    if begin >= end then Walked([], Covered)
    else match ReportAt(pgdir, ptes, begin)
      case None => Walked([], WalkPanic)
      case Some(m) =>
        var next := begin + StepAt(pgdir, begin);
        if next >= U32 then Walked([m], Wrap)
        else
          var w := Walk(pgdir, ptes, next, end);
          Walked([m] + w.msgs, w.ending)
  }

  /** One iteration seen from the loop: after `done`, printing the report at
      `va` and moving on to an address below 2^32 leaves the same lines and
      the same ending to come. */
  lemma WalkAdvance(pgdir: PageDir, ptes: PteMap, va: u32, end: u32, done: seq<Msg>, line: Msg)
    requires va < end && ReportAt(pgdir, ptes, va) == Some(line) && va + StepAt(pgdir, va) < U32
    ensures var rest := Walk(pgdir, ptes, va + StepAt(pgdir, va), end);
      && done + Walk(pgdir, ptes, va, end).msgs == (done + [line]) + rest.msgs
      && Walk(pgdir, ptes, va, end).ending == rest.ending
  {
    var rest := Walk(pgdir, ptes, va + StepAt(pgdir, va), end);
    assert Walk(pgdir, ptes, va, end).msgs == [line] + rest.msgs;
    assert done + ([line] + rest.msgs) == (done + [line]) + rest.msgs;
  }

  /** Where pgdir_walk fails, the walk prints nothing more and panics. */
  lemma WalkStops(pgdir: PageDir, ptes: PteMap, va: u32, end: u32)
    requires va < end && ReportAt(pgdir, ptes, va).None?
    ensures Walk(pgdir, ptes, va, end) == Walked([], WalkPanic)
  {
  }

  /** Where the step carries the address past 2^32, the walk prints that
      report and wraps. */
  lemma WalkWraps(pgdir: PageDir, ptes: PteMap, va: u32, end: u32, line: Msg)
    requires va < end && ReportAt(pgdir, ptes, va) == Some(line) && va + StepAt(pgdir, va) >= U32
    ensures Walk(pgdir, ptes, va, end) == Walked([line], Wrap)
  {
  }

  /** `setm 0x1000 1 w` followed by `showmappings 0x1000 0x2000`, on the page
      tables: once setm has set 'w' in the present entry of page 1 (a 4 KiB
      page), the walk of [0x1000, 0x2000) reports page 1 alone, mapped to
      the frame of the new entry with the new entry's breakdown. */
  lemma SetWritableThenWalk(pgdir: PageDir, ptes: PteMap)
    requires pgdir[0] & PTE_PS == 0 && 1 in ptes && ptes[1] & PTE_P != 0
    ensures var e' := SetmEntry(ptes[1], false, 119);
      Walk(pgdir, ptes[1 := e'], 0x1000, 0x2000)
      == Walked([MappingLine(0x1000, 0x2000, PteAddr(e'), PteAddr(e') + 0x1000, PermText(e'))], Covered)
  {
    var e' := SetmEntry(ptes[1], false, 119);
    assert e' & PTE_P != 0 by { SetWritableBits(ptes[1]); }
    SmallPageWalk(pgdir, ptes, e');
  }

  /** Setting 'w' adds PTE_W and nothing else: the frame stays, and the
      breakdown lists PTE_W beside the entry's own P and U flags. */
  lemma SetWritableBits(e: bv32)
    ensures SetmEntry(e, false, 119) == e | PTE_W
    ensures PteAddr(e | PTE_W) == PteAddr(e)
    ensures PermText(e | PTE_W) == FlagsText(e & PTE_P != 0, true, e & PTE_U != 0)
    ensures (e | PTE_W) & PTE_P == e & PTE_P
  {
  }

  /** With a present entry `e` for the 4 KiB page 1, the walk of [0x1000, 0x2000)
      reports that page alone. */
  lemma SmallPageWalk(pgdir: PageDir, ptes: PteMap, e: bv32)
    requires pgdir[0] & PTE_PS == 0 && e & PTE_P != 0
    ensures Walk(pgdir, ptes[1 := e], 0x1000, 0x2000)
         == Walked([MappingLine(0x1000, 0x2000, PteAddr(e), PteAddr(e) + 0x1000, PermText(e))], Covered)
  {
    var ptes' := ptes[1 := e];
    assert PDX(0x1000) == 0 && StepAt(pgdir, 0x1000) == PGSIZE;
    assert ReportAt(pgdir, ptes', 0x1000) == Some(EntryReport(0x1000, e, false));
    assert Walk(pgdir, ptes', 0x2000, 0x2000) == Walked([], Covered);
  }

  /** The addresses the loop would visit from `va` while it is below `end`,
      one step at a time, with an address that does not wrap. */
  function Visits(pgdir: PageDir, va: nat, end: u32): (r: seq<u32>)
    ensures forall k :: 0 <= k < |r| ==> va <= r[k] < end
    decreases end - va
  {
    if va >= end then [] else [va] + Visits(pgdir, va + StepAt(pgdir, va), end)
  }

  /** The visited addresses start at `va`, stay in [va, end), each is the
      previous one plus the step its directory entry selects, and the last
      step reaches `end`; a range that is already empty visits nothing. */
  lemma {:induction false} VisitsShape(pgdir: PageDir, va: nat, end: u32)
    ensures var v := Visits(pgdir, va, end);
      && (|v| == 0 <==> va >= end)
      && (|v| > 0 ==> v[0] == va && v[|v| - 1] + StepAt(pgdir, v[|v| - 1]) >= end)
      && (forall k :: 0 <= k < |v| ==> va <= v[k] < end)
      && (forall k :: 0 <= k < |v| - 1 ==> v[k + 1] == v[k] + StepAt(pgdir, v[k]))
    decreases end - va
  {
    if va < end {
      VisitsShape(pgdir, va + StepAt(pgdir, va), end);
    }
  }

  /** The visited addresses strictly increase. */
  lemma VisitsIncrease(pgdir: PageDir, va: nat, end: u32)
    ensures var v := Visits(pgdir, va, end);
      forall a, b :: 0 <= a < b < |v| ==> v[a] < v[b]
  {
    var v := Visits(pgdir, va, end);
    VisitsShape(pgdir, va, end);
    forall a, b | 0 <= a < b < |v|
      ensures v[a] < v[b]
    {
      var k := a;
      while k < b
        invariant a <= k <= b && v[a] <= v[k] && (k > a ==> v[a] < v[k])
      {
        k := k + 1;
      }
    }
  }

  /** The walk prints the report of each visited address in order, and no
      more lines than there are visits. */
  lemma {:induction false} WalkFollowsVisits(pgdir: PageDir, ptes: PteMap, va: u32, end: u32)
    ensures var w, v := Walk(pgdir, ptes, va, end), Visits(pgdir, va, end);
      && |w.msgs| <= |v|
      && (forall k :: 0 <= k < |w.msgs| ==> ReportAt(pgdir, ptes, v[k]) == Some(w.msgs[k]))
    decreases end - va
  {
    if va < end && ReportAt(pgdir, ptes, va).Some? {
      var next := va + StepAt(pgdir, va);
      var m := ReportAt(pgdir, ptes, va).value;
      assert Visits(pgdir, va, end) == [va] + Visits(pgdir, next, end);
      if next < U32 {
        var rest := Walk(pgdir, ptes, next, end);
        assert Walk(pgdir, ptes, va, end) == Walked([m] + rest.msgs, rest.ending);
        WalkFollowsVisits(pgdir, ptes, next, end);
      }
    }
  }

  /** The walk panics exactly when it stops short of the visits, and then at
      a visited address whose page-table walk fails; otherwise it reports
      every visit and wraps exactly when the step from the last visit passes 2^32. */
  lemma {:induction false} WalkEnding(pgdir: PageDir, ptes: PteMap, va: u32, end: u32)
    ensures var w, v := Walk(pgdir, ptes, va, end), Visits(pgdir, va, end);
      && |w.msgs| <= |v|
      && (w.ending == WalkPanic <==> |w.msgs| < |v|)
      && (w.ending == WalkPanic ==> ReportAt(pgdir, ptes, v[|w.msgs|]) == None)
      && (w.ending == Wrap <==> |w.msgs| == |v| > 0 && v[|v| - 1] + StepAt(pgdir, v[|v| - 1]) >= U32)
    decreases end - va
  {
    WalkFollowsVisits(pgdir, ptes, va, end);
    if va < end && ReportAt(pgdir, ptes, va).Some? {
      var next := va + StepAt(pgdir, va);
      var m := ReportAt(pgdir, ptes, va).value;
      assert Visits(pgdir, va, end) == [va] + Visits(pgdir, next, end);
      if next < U32 {
        var rest := Walk(pgdir, ptes, next, end);
        assert Walk(pgdir, ptes, va, end) == Walked([m] + rest.msgs, rest.ending);
        WalkEnding(pgdir, ptes, next, end);
      } else {
        assert Visits(pgdir, next, end) == [];
      }
    }
  }

  /** A range that ends at least 4 MiB below 2^32 never wraps: the loop
      ends once the range is covered or a page-table walk fails. */
  lemma NoWrapBelowTop(pgdir: PageDir, ptes: PteMap, begin: u32, end: u32)
    requires end + PTSIZE <= U32
    ensures Walk(pgdir, ptes, begin, end).ending != Wrap
  {
    WalkEnding(pgdir, ptes, begin, end);
    VisitsShape(pgdir, begin, end);
  }

  /** A present 4 MiB directory entry is reported as one line spanning its whole page. */
  lemma LargePageLine(pgdir: PageDir, ptes: PteMap, va: u32)
    requires pgdir[PDX(va)] & PTE_PS != 0 && pgdir[PDX(va)] & PTE_P != 0
    ensures var pde := pgdir[PDX(va)];
      && StepAt(pgdir, va) == PTSIZE
      && ReportAt(pgdir, ptes, va)
        == Some(MappingLine(va, (va + PTSIZE) % U32, PteAddr(pde), PteAddr(pde) + 0x40_0000, PermText(pde)))
  {
  }

  /** A range inside one present 4 MiB page, starting at its base, is shown
      as a single line spanning the whole page; for the topmost page the
      step then wraps the address. */
  lemma OneLargePage(pgdir: PageDir, ptes: PteMap, begin: u32, end: u32)
    requires begin % PTSIZE == 0 && begin < end <= begin + PTSIZE
    requires pgdir[PDX(begin)] & PTE_PS != 0 && pgdir[PDX(begin)] & PTE_P != 0
    ensures var pde := pgdir[PDX(begin)];
      Walk(pgdir, ptes, begin, end)
        == Walked([MappingLine(begin, (begin + PTSIZE) % U32, PteAddr(pde), PteAddr(pde) + 0x40_0000, PermText(pde))],
                  if begin + PTSIZE >= U32 then Wrap else Covered)
  {
    LargePageLine(pgdir, ptes, begin);
    var line := ReportAt(pgdir, ptes, begin).value;
    if begin + PTSIZE < U32 {
      var none: seq<Msg> := [];
      assert Walk(pgdir, ptes, begin + PTSIZE, end) == Walked(none, Covered);
      assert [line] + none == [line];
    }
  }

  /** Over a range mapped only through page tables that the locator can
      reach, showmappings prints one line per 4 KiB step, the size of the
      range divided by PGSIZE rounded up, and does not panic. */
  lemma {:induction false} SmallPagesCount(pgdir: PageDir, ptes: PteMap, begin: u32, end: u32)
    requires forall va: u32 :: begin <= va < end ==> pgdir[PDX(va)] & PTE_PS == 0 && va / PGSIZE in ptes
    ensures Walk(pgdir, ptes, begin, end).ending != WalkPanic
    ensures |Walk(pgdir, ptes, begin, end).msgs| == if begin >= end then 0 else (end - begin + PGSIZE - 1) / PGSIZE
    decreases end - begin
  {
    if begin < end {
      assert pgdir[PDX(begin)] & PTE_PS == 0 && begin / PGSIZE in ptes;
      if begin + PGSIZE < U32 {
        SmallPagesCount(pgdir, ptes, begin + PGSIZE, end);
      }
    }
  }

  /** The running address as the source advances it: a uint32 addition,
      which wraps past 2^32 to an address below the step. */
  function WrappingNext(va: u32, step: int): (r: u32)
    requires 0 <= step < U32
    ensures va + step < U32 ==> r == va + step
    ensures va + step >= U32 ==> r == va + step - U32 && r < step
  {
    (va + step) % U32
  }

  /** The source's address after `k` 4 KiB steps from `b`: b + k * PGSIZE
      as long as that stays below 2^32. */
  function WrappingVisit(b: u32, k: nat): (r: u32)
    ensures b + k * PGSIZE < U32 ==> r == b + k * PGSIZE
  {
    if k == 0 then b else WrappingNext(WrappingVisit(b, k - 1), PGSIZE)
  }

  lemma {:induction false} WrappingVisitAligned(b: u32, k: nat)
    requires b % PGSIZE == 0
    ensures WrappingVisit(b, k) % PGSIZE == 0
  {
    if k > 0 {
      WrappingVisitAligned(b, k - 1);
      var v := WrappingVisit(b, k - 1);
      var x := v + PGSIZE;
      assert x % U32 == x || x % U32 == x - U32;
    }
  }

  /** The source's loop can run forever: with `showmappings 0xfffff000 0xffffffff`
      over 4 KiB pages, the uint32 running address wraps from 0xfffff000 to 0
      and every address it ever takes is below the end, so `begin < end` never fails. */
  lemma WrappingWalkNeverEnds(k: nat)
    ensures WrappingVisit(0xFFFF_F000, k) < 0xFFFF_FFFF
  {
    WrappingVisitAligned(0xFFFF_F000, k);
  }
}
