// The kernel monitor of kern/monitor.c: the command table, the five
// command handlers, runcmd's dispatch and the read-eval loop, over the
// state the commands read and change.

module Monitor {
  import opened Chars
  import opened Mmu
  import opened Messages
  import opened Numbers
  import opened Tokens
  import opened PageTools
  import opened Backtrace

  /** The bytes of an ASCII string literal. */
  function Ascii(s: string): (r: seq<SChar>)
    requires forall i :: 0 <= i < |s| ==> s[i] as int < 128
    ensures |r| == |s| && forall i :: 0 <= i < |s| ==> r[i] as int == s[i] as int
  {
    seq(|s|, i requires 0 <= i < |s| => s[i] as int as SChar)
  }

  datatype Handler = HelpCommand | KerninfoCommand | BacktraceCommand | ShowmappingsCommand | SetmCommand

  datatype Command = Command(name: seq<SChar>, desc: string, handler: Handler)

  /** The `commands` table, in its order. */
  const COMMANDS: seq<Command> := [
    Command(Ascii("help"), "Display this list of commands", HelpCommand),
    Command(Ascii("kerninfo"), "Display information about the kernel", KerninfoCommand),
    Command(Ascii("backtrace"), "Display information about the stack", BacktraceCommand),
    Command(Ascii("showmappings"), "Display physical page mappings and corresponding permission bits", ShowmappingsCommand),
    Command(Ascii("setm"), "Set or clear the permission bits in a particular page", SetmCommand)
  ]

  /** The first entry of the table at index `i` or later whose name is `name`. */
  function LookupFrom(name: seq<SChar>, i: nat): (r: Option<nat>)
    requires i <= |COMMANDS|
    ensures r.Some? ==> i <= r.value < |COMMANDS| && COMMANDS[r.value].name == name
                        && forall j :: i <= j < r.value ==> COMMANDS[j].name != name
    ensures r.None? ==> forall j :: i <= j < |COMMANDS| ==> COMMANDS[j].name != name
    decreases |COMMANDS| - i
  {
    if i == |COMMANDS| then None
    else if COMMANDS[i].name == name then Some(i)
    else LookupFrom(name, i + 1)
  }

  /** The table entry runcmd runs for a command name: the first with that name, if any. */
  function Lookup(name: seq<SChar>): Option<nat>
  {
    LookupFrom(name, 0)
  }

  /** No two commands share a name, so the first match is the only match. */
  lemma LookupUnique(name: seq<SChar>, i: nat)
    requires i < |COMMANDS| && COMMANDS[i].name == name
    ensures Lookup(name) == Some(i)
  {
    assert COMMANDS[0].name[0] == 104 && COMMANDS[1].name[0] == 107 && COMMANDS[2].name[0] == 98;
    assert COMMANDS[3].name[0] == 115 && COMMANDS[4].name[0] == 115;
    assert COMMANDS[3].name[1] == 104 && COMMANDS[4].name[1] == 101;
  }

  /** The linker symbols mon_kerninfo prints. */
  datatype Layout = Layout(start: u32, entry: u32, etext: u32, edata: u32, end: u32)

  /** ROUNDUP(size, 1024) / 1024: the size in KiB, rounded up. */
  function FootprintKB(size: nat): (kb: nat)
    ensures kb * 1024 >= size
    ensures kb == 0 || (kb - 1) * 1024 < size
  {
    (size + 1023) / 1024
  }

  /** Every argument is a non-empty C string inside the buffer. */
  predicate ArgvOk(b: seq<SChar>, argv: seq<nat>)
  {
    forall k :: 0 <= k < |argv| ==> argv[k] + 1 < |b| && b[argv[k]] != 0 && Terminated(b, argv[k])
  }

  /** After a successful tokenization every argument is a non-empty C string
      of the blanked buffer, and it spells the argument's token. */
  lemma TokensAreArgs(b0: seq<SChar>, argv: seq<nat>)
    requires Terminated(b0, 0) && argv == Starts(Line(b0), 0)
    ensures ArgvOk(Blank(b0, |Line(b0)|), argv)
    ensures forall k :: 0 <= k < |argv| ==> CStr(Blank(b0, |Line(b0)|), argv[k]) == Token(Line(b0), argv[k])
  {
    var s := Line(b0);
    var b := Blank(b0, |s|);
    StartsAreTokenStarts(s, 0);
    forall k | 0 <= k < |argv|
      ensures argv[k] + 1 < |b| && b[argv[k]] != 0 && Terminated(b, argv[k])
      ensures CStr(b, argv[k]) == Token(s, argv[k])
    {
      TokenIsCString(b0, argv[k]);
      assert |Token(s, argv[k])| > 0;
    }
  }

  /** The lines mon_help prints: one per command, in table order. */
  function HelpText(): (r: seq<Msg>)
    ensures |r| == |COMMANDS|
    ensures forall i :: 0 <= i < |COMMANDS| ==> r[i] == HelpLine(COMMANDS[i].name, COMMANDS[i].desc)
  {
    seq(|COMMANDS|, i requires 0 <= i < |COMMANDS| => HelpLine(COMMANDS[i].name, COMMANDS[i].desc))
  }

  /** What showmappings' walk means for the monitor: a covered range returns
      0, a failing page-table walk panics, and a wrapped address never lets
      the command return normally. */
  function WalkOutcome(e: WalkEnd): (o: Outcome)
    ensures o.Returned? <==> e == Covered
    ensures o.Returned? ==> o.code == 0
  {
    match e
    case Covered => Returned(0)
    case WalkPanic => Panicked
    case Wrap => Wrapped
  }

  /** What a command can change that the next one sees: the page-table
      entries, everything printed so far, and the line buffer. */
  datatype Effects = Effects(ptes: PteMap, output: seq<Msg>, buf: seq<SChar>)

  /** The handler runcmd calls for the line in `b`: the first command of
      the table named by the first of at most 15 arguments, if any. */
  ghost function Selected(b: seq<SChar>): (r: seq<Handler>)
    requires Terminated(b, 0)
    ensures |r| <= 1
  {
    var s := Line(b);
    var toks := Starts(s, 0);
    if 0 < |toks| < MAXARGS && Lookup(Token(s, toks[0])).Some? then [COMMANDS[Lookup(Token(s, toks[0])).value].handler]
    else []
  }

  // A worked session: `setm 0x1000 1 w`, then `showmappings 0x1000 0x2000`.
  // The lemmas below read each line as runcmd does; Kernel.SetmThenShowMappings
  // puts the two turns together.

  /** The line `setm 0x1000 1 w`. */
  const SETM_EXAMPLE: seq<SChar> := [115, 101, 116, 109, 32, 48, 120, 49, 48, 48, 48, 32, 49, 32, 119]

  /** The line `showmappings 0x1000 0x2000`. */
  const SHOWMAPPINGS_EXAMPLE: seq<SChar> :=
    [115, 104, 111, 119, 109, 97, 112, 112, 105, 110, 103, 115, 32, 48, 120, 49, 48, 48, 48, 32, 48, 120, 50, 48, 48, 48]

  /** A buffer holding `line` and its NUL, followed by any bytes. */
  predicate Holds(b: seq<SChar>, line: seq<SChar>)
  {
    |line| < |b| && b[..|line|] == line && b[|line|] == 0
  }

  /** A buffer holding a line without NUL holds it as its C string. */
  lemma HoldsLine(b: seq<SChar>, line: seq<SChar>)
    requires Holds(b, line) && 0 !in line
    ensures Terminated(b, 0) && Line(b) == line
  {
    CStrAt(b, 0, line);
  }

  /** The arguments of `setm 0x1000 1 w` run over [0, 4), [5, 11), [12, 13) and [14, 15). */
  lemma SetmExampleRun(i: nat)
    requires i == 0 || i == 5 || i == 12 || i == 14
    ensures RunEnd(SETM_EXAMPLE, i) == if i == 0 then 4 else if i == 5 then 11 else i + 1
  {
    if i == 0 {
      RunEndAt(SETM_EXAMPLE, 0, 4);
    } else if i == 5 {
      RunEndAt(SETM_EXAMPLE, 5, 11);
    } else {
      RunEndAt(SETM_EXAMPLE, i, i + 1);
    }
  }

  /** `setm 0x1000 1 w` splits into four arguments, at 0, 5, 12 and 14. */
  lemma SetmExampleTokens()
    ensures Starts(SETM_EXAMPLE, 0) == [0, 5, 12, 14] && ScanEnd(SETM_EXAMPLE) == 15
  {
    SetmExampleRun(0);
    SetmExampleRun(5);
    SetmExampleRun(12);
    SetmExampleRun(14);
    StartsAtArgument(SETM_EXAMPLE, 14);
    StartsAtArgument(SETM_EXAMPLE, 12);
    StartsAtArgument(SETM_EXAMPLE, 5);
    StartsAtArgument(SETM_EXAMPLE, 0);
  }

  /** The first argument of `setm 0x1000 1 w` spells the table's `setm`. */
  lemma SetmExampleName()
    ensures SETM_EXAMPLE[..4] == COMMANDS[4].name
  {
    var n := COMMANDS[4].name;
    assert n == Ascii("setm");
    assert n[0] == 115 && n[1] == 101 && n[2] == 116 && n[3] == 109;
  }

  /** The first argument of `setm 0x1000 1 w` names the table's `setm`. */
  lemma SetmExampleCommand()
    ensures Lookup(Token(SETM_EXAMPLE, 0)) == Some(4) && COMMANDS[4].handler == SetmCommand
  {
    SetmExampleRun(0);
    SetmExampleName();
    assert Token(SETM_EXAMPLE, 0) == COMMANDS[4].name;
    LookupUnique(Token(SETM_EXAMPLE, 0), 4);
  }

  /** The arguments of `showmappings 0x1000 0x2000` run over [0, 12), [13, 19) and [20, 26). */
  lemma ShowMappingsExampleRun(i: nat)
    requires i == 0 || i == 13 || i == 20
    ensures RunEnd(SHOWMAPPINGS_EXAMPLE, i) == if i == 0 then 12 else if i == 13 then 19 else 26
  {
    if i == 0 {
      RunEndAt(SHOWMAPPINGS_EXAMPLE, 0, 12);
    } else if i == 13 {
      RunEndAt(SHOWMAPPINGS_EXAMPLE, 13, 19);
    } else {
      RunEndAt(SHOWMAPPINGS_EXAMPLE, 20, 26);
    }
  }

  /** `showmappings 0x1000 0x2000` splits into three arguments, at 0, 13 and 20. */
  lemma ShowMappingsExampleTokens()
    ensures Starts(SHOWMAPPINGS_EXAMPLE, 0) == [0, 13, 20] && ScanEnd(SHOWMAPPINGS_EXAMPLE) == 26
  {
    ShowMappingsExampleRun(0);
    ShowMappingsExampleRun(13);
    ShowMappingsExampleRun(20);
    StartsAtArgument(SHOWMAPPINGS_EXAMPLE, 20);
    StartsAtArgument(SHOWMAPPINGS_EXAMPLE, 13);
    StartsAtArgument(SHOWMAPPINGS_EXAMPLE, 0);
  }

  /** The first argument of `showmappings 0x1000 0x2000` spells the table's `showmappings`. */
  lemma ShowMappingsExampleName()
    ensures SHOWMAPPINGS_EXAMPLE[..12] == COMMANDS[3].name
  {
    var n := COMMANDS[3].name;
    assert n == Ascii("showmappings");
    assert n[0] == 115 && n[1] == 104 && n[2] == 111 && n[3] == 119 && n[4] == 109 && n[5] == 97;
    assert n[6] == 112 && n[7] == 112 && n[8] == 105 && n[9] == 110 && n[10] == 103 && n[11] == 115;
  }

  /** The first argument of `showmappings 0x1000 0x2000` names the table's `showmappings`. */
  lemma ShowMappingsExampleCommand()
    ensures Lookup(Token(SHOWMAPPINGS_EXAMPLE, 0)) == Some(3) && COMMANDS[3].handler == ShowmappingsCommand
  {
    ShowMappingsExampleRun(0);
    ShowMappingsExampleName();
    assert Token(SHOWMAPPINGS_EXAMPLE, 0) == COMMANDS[3].name;
    LookupUnique(Token(SHOWMAPPINGS_EXAMPLE, 0), 3);
  }

  /** The buffer of `setm 0x1000 1 w` once runcmd has blanked its spaces. */
  lemma SetmExampleBlank(b: seq<SChar>)
    requires Holds(b, SETM_EXAMPLE)
    ensures var bb := Blank(b, 15);
      && bb[7..11] == [49, 48, 48, 48] && bb[11] == 0 && bb[12] == 49
      && bb[13] == 0 && bb[14] == 119 && bb[15] == 0
  {
    var bb := Blank(b, 15);
    assert forall j :: 0 <= j < 15 ==> b[j] == SETM_EXAMPLE[j];
    assert bb[7..11] == [49, 48, 48, 48];
  }

  /** A buffer holding `setm 0x1000 1 w` is a line of four arguments that names setm. */
  lemma SetmExampleLine(b: seq<SChar>)
    requires Holds(b, SETM_EXAMPLE)
    ensures Terminated(b, 0) && Starts(Line(b), 0) == [0, 5, 12, 14] && |Line(b)| == 15
    ensures Lookup(Token(Line(b), 0)) == Some(4) && COMMANDS[4].handler == SetmCommand
  {
    HoldsLine(b, SETM_EXAMPLE);
    SetmExampleTokens();
    SetmExampleCommand();
  }

  /** A buffer holding `showmappings 0x1000 0x2000` is a line of three arguments that names showmappings. */
  lemma ShowMappingsExampleLine(b: seq<SChar>)
    requires Holds(b, SHOWMAPPINGS_EXAMPLE)
    ensures Terminated(b, 0) && Starts(Line(b), 0) == [0, 13, 20] && |Line(b)| == 26
    ensures Lookup(Token(Line(b), 0)) == Some(3) && COMMANDS[3].handler == ShowmappingsCommand
  {
    HoldsLine(b, SHOWMAPPINGS_EXAMPLE);
    ShowMappingsExampleTokens();
    ShowMappingsExampleCommand();
  }

  /** What setm finds in the blanked buffer of `setm 0x1000 1 w`: a
      one-byte mode '1' and letter 'w', and an address that xtoi parses as
      0x1000. */
  lemma SetmExampleArgs(b: seq<SChar>)
    requires Holds(b, SETM_EXAMPLE)
    ensures var bb := Blank(b, 15);
      && bb[15] == 0 && bb[13] == 0
      && XtoiSafe(bb, 5) && XtoiValue(bb, 5) == 0x1000
      && XtoiRewrite(bb, 5)[12] == 49 && XtoiRewrite(bb, 5)[14] == 119
  {
    SetmExampleBlank(b);
    var bb := Blank(b, 15);
    CStrAt(bb, 7, [49, 48, 48, 48]);
    HexFoldFour(49);
  }

  /** The buffer of `showmappings 0x1000 0x2000` once runcmd has blanked its spaces. */
  lemma ShowMappingsExampleBlank(b: seq<SChar>)
    requires Holds(b, SHOWMAPPINGS_EXAMPLE)
    ensures var bb := Blank(b, 26);
      && bb[15..19] == [49, 48, 48, 48] && bb[19] == 0
      && bb[22..26] == [50, 48, 48, 48] && bb[26] == 0
  {
    var bb := Blank(b, 26);
    assert forall j :: 0 <= j < 26 ==> b[j] == SHOWMAPPINGS_EXAMPLE[j];
    assert bb[15..19] == [49, 48, 48, 48];
    assert bb[22..26] == [50, 48, 48, 48];
  }

  /** What showmappings finds in the blanked buffer of `showmappings 0x1000
      0x2000`: a begin address that xtoi parses as 0x1000 and, once that is
      rewritten, an end address it parses as 0x2000. */
  lemma ShowMappingsExampleArgs(b: seq<SChar>)
    requires Holds(b, SHOWMAPPINGS_EXAMPLE)
    ensures var bb := Blank(b, 26);
      && XtoiSafe(bb, 13) && XtoiValue(bb, 13) == 0x1000
      && XtoiSafe(XtoiRewrite(bb, 13), 20) && XtoiValue(XtoiRewrite(bb, 13), 20) == 0x2000
  {
    ShowMappingsExampleBlank(b);
    var bb := Blank(b, 26);
    CStrAt(bb, 15, [49, 48, 48, 48]);
    HexFoldFour(49);
    var b1 := XtoiRewrite(bb, 13);
    assert b1[22..26] == bb[22..26] && b1[26] == 0;
    CStrAt(b1, 22, [50, 48, 48, 48]);
    HexFoldFour(50);
  }

  /** A digit followed by three zeros is that digit times 0x1000. */
  lemma HexFoldFour(c: SChar)
    requires 48 <= c <= 57
    ensures HexFold([c, 48, 48, 48]) == (c as int - 48) * 0x1000
  {
    assert XtoiDigit(c) as int == c as int - 48 && XtoiDigit(48) == 0;
    assert [c][..0] == [];
    assert HexFold([c]) == c as int - 48;
    assert [c, 48][..1] == [c];
    assert HexFold([c, 48]) == (c as int - 48) * 0x10;
    assert [c, 48, 48][..2] == [c, 48];
    assert HexFold([c, 48, 48]) == (c as int - 48) * 0x100;
    assert [c, 48, 48, 48][..3] == [c, 48, 48];
  }

  /** The state the monitor's commands read and change: the page tables,
      the stack that mon_backtrace walks, the symbol table, the kernel's
      layout, and everything printed so far. */
  class Kernel {
    const pgdir: PageDir
    var ptes: PteMap
    const stack: Memory
    const frame: u32            // what read_ebp() returns in mon_backtrace
    ghost const depth: nat      // the number of frames the walk visits
    const syms: Symbols
    const layout: Layout
    var output: seq<Msg>
    ghost var invoked: seq<Handler>

    /** The stack's frame chain ends after `depth` frames, at a zero link or
        at a frame that cannot be read, and the linker places `end` after `entry`. */
    ghost predicate Valid()
    {
      ChainOfLength(stack, frame, depth) && layout.entry <= layout.end
    }

    /** What showmappings does with the arguments `argv` of the line
        buffer: a usage line without arguments, undefined behaviour without
        an end address or with an address xtoi would read past the buffer,
        and otherwise the range line, then the walk from the begin address
        to the end address; the page tables never change. */
    ghost predicate ShowMappingsDone(argv: seq<nat>, pre: Effects, o: Outcome, post: Effects)
    {
      && post.ptes == pre.ptes
      && (|argv| == 1 ==> o == Returned(0) && post == pre.(output := pre.output + [ShowMappingsUsage]))
      && (|argv| == 2 ==> o == Undefined)
      && (|argv| >= 3 ==>
            if !XtoiSafe(pre.buf, argv[1]) then o == Undefined
            else
              var b1 := XtoiRewrite(pre.buf, argv[1]);
              var begin := XtoiValue(pre.buf, argv[1]);
              if !XtoiSafe(b1, argv[2]) then o == Undefined
              else
                var end := XtoiValue(b1, argv[2]);
                var w := Walk(pgdir, pre.ptes, begin, end);
                && post.buf == XtoiRewrite(b1, argv[2])
                && post.output == pre.output + [RangeLine(begin, end)] + w.msgs
                && o == WalkOutcome(w.ending))
    }

    /** What setm does with the arguments `argv` of the line buffer:
        undefined behaviour with one or two arguments, a usage line without
        arguments or when the mode or the letter is longer than one byte,
        and otherwise the address parsed by xtoi, whose page-table entry is
        printed before and after setting (mode other than '0') or clearing
        (mode '0') the bit the letter names; a page without an entry is
        undefined behaviour once its header is printed. */
    ghost predicate SetmDone(argv: seq<nat>, pre: Effects, o: Outcome, post: Effects)
    {
      && ArgvOk(pre.buf, argv)
      && (|argv| == 2 || |argv| == 3 ==> o == Undefined)
      && (|argv| == 1 || (|argv| >= 4 && (pre.buf[argv[3] + 1] != 0 || pre.buf[argv[2] + 1] != 0)) ==>
            o == Returned(0) && post == pre.(output := pre.output + [SetmUsage]))
      && (|argv| >= 4 && pre.buf[argv[3] + 1] == 0 && pre.buf[argv[2] + 1] == 0 ==>
            if !XtoiSafe(pre.buf, argv[1]) then o == Undefined
            else
              var b1 := XtoiRewrite(pre.buf, argv[1]);
              var addr := XtoiValue(pre.buf, argv[1]);
              var page := addr / PGSIZE;
              && (page !in pre.ptes ==> o == Undefined && post == Effects(pre.ptes, pre.output + [SetmHeader(addr, false)], b1))
              && (page in pre.ptes ==>
                    var e := pre.ptes[page];
                    var e' := SetmEntry(e, b1[argv[2]] == 48, b1[argv[3]]);
                    && o == Returned(0)
                    && post == Effects(pre.ptes[page := e'],
                                       pre.output + [SetmHeader(addr, false), Permission(PermText(e)),
                                                     SetmHeader(addr, true), Permission(PermText(e'))],
                                       b1)))
    }

    /** What handler `h` does: mon_help and mon_kerninfo print their lines
        and return 0, mon_backtrace prints the walk of the frame chain (and
        has undefined behaviour where it faults), showmappings and setm as
        above; only setm changes the page tables, and only they touch the
        line buffer. */
    ghost predicate Done(h: Handler, argv: seq<nat>, pre: Effects, o: Outcome, post: Effects)
      requires Valid()
    {
      match h
      case HelpCommand => o == Returned(0) && post == pre.(output := pre.output + HelpText())
      case KerninfoCommand =>
        o == Returned(0)
        && post == pre.(output := pre.output + [KernInfo(layout.start, layout.entry, layout.etext, layout.edata, layout.end,
                                                         FootprintKB(layout.end - layout.entry))])
      case BacktraceCommand =>
        var t := TraceFrom(stack, syms, frame, depth);
        o == (if t.faulted then Undefined else Returned(0)) && post == pre.(output := pre.output + [StackHeader] + t.msgs)
      case ShowmappingsCommand => ShowMappingsDone(argv, pre, o, post)
      case SetmCommand => SetmDone(argv, pre, o, post)
    }

    /** What runcmd does with the NUL-terminated line in `pre.buf`: it blanks
        the separators its scan passes, then prints "Too many arguments" for
        16 or more arguments, does nothing more for an empty line, prints
        "Unknown command" for a name that is not in the table, and otherwise
        does what the first command of that name does on the blanked buffer;
        whenever it returns, it returns 0. */
    ghost predicate RuncmdDone(pre: Effects, o: Outcome, post: Effects)
      requires Valid() && Terminated(pre.buf, 0)
    {
      var s := Line(pre.buf);
      var toks := Starts(s, 0);
      var blanked := pre.(buf := Blank(pre.buf, ScanEnd(s)));
      && (o.Returned? ==> o.code == 0)
      && (|toks| >= MAXARGS ==> o == Returned(0) && post == blanked.(output := pre.output + [TooManyArgs]))
      && (|toks| == 0 ==> o == Returned(0) && post == blanked)
      && (0 < |toks| < MAXARGS ==>
            var name := Token(s, toks[0]);
            match Lookup(name)
            case None => o == Returned(0) && post == blanked.(output := pre.output + [UnknownCommand(name)])
            case Some(i) => Done(COMMANDS[i].handler, toks, blanked, o, post))
    }

    constructor(pgdir: PageDir, ptes: PteMap, stack: Memory, frame: u32, ghost depth: nat, syms: Symbols, layout: Layout)
      requires ChainOfLength(stack, frame, depth) && layout.entry <= layout.end
      ensures Valid()
      ensures this.pgdir == pgdir && this.ptes == ptes && this.stack == stack && this.frame == frame
      ensures this.depth == depth && this.syms == syms && this.layout == layout
      ensures output == [] && invoked == []
    {
      this.pgdir := pgdir;
      this.ptes := ptes;
      this.stack := stack;
      this.frame := frame;
      this.depth := depth;
      this.syms := syms;
      this.layout := layout;
      output := [];
      invoked := [];
    }

    /** kern/monitor.c `mon_help`: one line per command, in table order. */
    method MonHelp() returns (o: Outcome)
      modifies this
      ensures o == Returned(0)
      ensures output == old(output) + HelpText()
      ensures ptes == old(ptes) && invoked == old(invoked)
    {
      var i := 0;
      while i < |COMMANDS|
        invariant 0 <= i <= |COMMANDS|
        invariant output == old(output) + HelpText()[..i]
        invariant ptes == old(ptes) && invoked == old(invoked)
      {
        output := output + [HelpLine(COMMANDS[i].name, COMMANDS[i].desc)];
        assert HelpText()[..i + 1] == HelpText()[..i] + [HelpText()[i]];
        i := i + 1;
      }
      assert HelpText()[..|COMMANDS|] == HelpText();
      o := Returned(0);
    }

    /** kern/monitor.c `mon_kerninfo`: the linker symbols and the footprint in KiB. */
    method MonKerninfo() returns (o: Outcome)
      requires Valid()
      modifies this
      ensures o == Returned(0)
      ensures output == old(output) + [KernInfo(layout.start, layout.entry, layout.etext, layout.edata, layout.end,
                                                FootprintKB(layout.end - layout.entry))]
      ensures ptes == old(ptes) && invoked == old(invoked)
    {
      var size := layout.end - layout.entry;
      output := output + [KernInfo(layout.start, layout.entry, layout.etext, layout.edata, layout.end, (size + 1023) / 1024)];
      o := Returned(0);
    }

    /** kern/monitor.c `mon_backtrace`: follows the saved frame pointers from
        read_ebp() until the zero link, printing each frame and where its
        return address lies; reading a word of the stack that is not there
        is undefined behaviour, before the frame's lines for its printed
        words and after them for its saved frame pointer. */
    method MonBacktrace() returns (o: Outcome)
      requires Valid()
      modifies this
      ensures var t := TraceFrom(stack, syms, frame, depth);
        && output == old(output) + [StackHeader] + t.msgs
        && o == (if t.faulted then Undefined else Returned(0))
      ensures ptes == old(ptes) && invoked == old(invoked)
    {
      ghost var whole := TraceFrom(stack, syms, frame, depth);
      ghost var done: seq<Msg> := [];
      output := output + [StackHeader];
      var ebp := frame;
      ghost var n := depth;
      while ebp != 0
        invariant ChainOfLength(stack, ebp, n)
        invariant output == old(output) + [StackHeader] + done
        invariant whole.msgs == done + TraceFrom(stack, syms, ebp, n).msgs
        invariant whole.faulted == TraceFrom(stack, syms, ebp, n).faulted
        invariant ptes == old(ptes) && invoked == old(invoked)
        decreases n
      {
        if !FrameWordsReadable(stack, ebp) {
          assert done + [] == done;
          return Undefined;
        }
        var lines := FrameReport(stack, syms, ebp);
        output := output + lines;
        done := done + lines;
        if ebp !in stack {
          return Undefined;
        }
        ebp := stack[ebp];
        n := n - 1;
      }
      o := Returned(0);
    }

    /** kern/monitor.c `showmappings`: parses the two addresses with xtoi and
        reports each page from `begin` while the running address is below
        `end`, stepping 4 MiB over a PTE_PS directory entry and 4 KiB
        otherwise; a failing page-table walk panics. */
    method ShowMappings(buf: array<SChar>, argv: seq<nat>) returns (o: Outcome)
      requires 1 <= |argv| && ArgvOk(buf[..], argv)
      modifies this, buf
      ensures invoked == old(invoked) && old(output) <= output
      ensures ShowMappingsDone(argv, Effects(old(ptes), old(output), old(buf[..])), o, Effects(ptes, output, buf[..]))
    {
      if |argv| == 1 {
        output := output + [ShowMappingsUsage];
        return Returned(0);
      }
      if |argv| == 2 || !XtoiSafe(buf[..], argv[1]) {
        return Undefined;
      }
      var begin := Xtoi(buf, argv[1]);
      if !XtoiSafe(buf[..], argv[2]) {
        return Undefined;
      }
      var end := Xtoi(buf, argv[2]);
      output := output + [RangeLine(begin, end)];
      var ending := ReportRange(begin, end);
      o := WalkOutcome(ending);
    }

    /** The loop of kern/monitor.c `showmappings`: one report per page while
        the running address is below `end`, stepping 4 MiB over a PTE_PS
        directory entry (present or not) and 4 KiB otherwise, a panic where
        the page-table walk fails, and a stop where the uint32 address wraps. */
    method ReportRange(begin: u32, end: u32) returns (ending: WalkEnd)
      modifies this
      ensures var w := Walk(pgdir, ptes, begin, end);
        output == old(output) + w.msgs && ending == w.ending
      ensures ptes == old(ptes) && invoked == old(invoked)
    {
      ghost var whole := Walk(pgdir, ptes, begin, end);
      ghost var done: seq<Msg> := [];
      var va: u32 := begin;
      while va < end
        invariant output == old(output) + done
        invariant whole.msgs == done + Walk(pgdir, ptes, va, end).msgs
        invariant whole.ending == Walk(pgdir, ptes, va, end).ending
        invariant ptes == old(ptes) && invoked == old(invoked)
        decreases end - va
      {
        var line := ReportAt(pgdir, ptes, va);
        var step := StepAt(pgdir, va);
        if line.None? {
          WalkStops(pgdir, ptes, va, end);
          assert done + [] == done;
          return WalkPanic;
        }
        output := output + [line.value];
        if va + step >= U32 {
          WalkWraps(pgdir, ptes, va, end, line.value);
          return Wrap;
        }
        WalkAdvance(pgdir, ptes, va, end, done, line.value);
        done := done + [line.value];
        va := va + step;
      }
      ending := Covered;
    }

    /** kern/monitor.c `setm`: with a one-byte mode and a one-byte letter,
        parses the address with xtoi, prints the entry's permissions, sets
        or clears the named bit, and prints them again. */
    method Setm(buf: array<SChar>, argv: seq<nat>) returns (o: Outcome)
      requires 1 <= |argv| && ArgvOk(buf[..], argv)
      modifies this, buf
      ensures invoked == old(invoked) && old(output) <= output
      ensures SetmDone(argv, Effects(old(ptes), old(output), old(buf[..])), o, Effects(ptes, output, buf[..]))
    {
      if |argv| == 2 || |argv| == 3 {
        return Undefined;
      }
      if |argv| == 1 || buf[argv[3] + 1] != 0 || buf[argv[2] + 1] != 0 {
        output := output + [SetmUsage];
        return Returned(0);
      }
      if !XtoiSafe(buf[..], argv[1]) {
        return Undefined;
      }
      var addr := Xtoi(buf, argv[1]);
      var page := addr / PGSIZE;
      if page !in ptes {
        output := output + [SetmHeader(addr, false)];
        return Undefined;
      }
      var e := ptes[page];
      var e' := SetmEntry(e, buf[argv[2]] == 48, buf[argv[3]]);
      ptes := ptes[page := e'];
      output := output + [SetmHeader(addr, false), Permission(PermText(e)), SetmHeader(addr, true), Permission(PermText(e'))];
      o := Returned(0);
    }

    /** Runs one handler of the table on the arguments `argv` of the line buffer. */
    method Dispatch(h: Handler, buf: array<SChar>, argv: seq<nat>) returns (o: Outcome)
      requires Valid() && 1 <= |argv| && ArgvOk(buf[..], argv)
      modifies this, buf
      ensures invoked == old(invoked) && old(output) <= output
      ensures o.Returned? ==> o.code == 0
      ensures Done(h, argv, Effects(old(ptes), old(output), old(buf[..])), o, Effects(ptes, output, buf[..]))
    {
      match h
      case HelpCommand => o := MonHelp();
      case KerninfoCommand => o := MonKerninfo();
      case BacktraceCommand => o := MonBacktrace();
      case ShowmappingsCommand => o := ShowMappings(buf, argv);
      case SetmCommand => o := Setm(buf, argv);
    }

    /** kern/monitor.c `runcmd`: splits the line in place into at most 15
        arguments, then runs the first command of the table whose name is
        the first argument, on the blanked buffer and its arguments; it
        does what RuncmdDone says and records the handler it calls. */
    method Runcmd(buf: array<SChar>) returns (o: Outcome)
      requires Valid() && Terminated(buf[..], 0)
      modifies this, buf
      ensures old(output) <= output
      ensures invoked == old(invoked) + Selected(old(buf[..]))
      ensures RuncmdDone(Effects(old(ptes), old(output), old(buf[..])), o, Effects(ptes, output, buf[..]))
    {
      ghost var pre := Effects(ptes, output, buf[..]);
      ghost var b0 := buf[..];
      ghost var s := Line(b0);
      var argv, ok := Tokenize(buf);
      if !ok {
        output := output + [TooManyArgs];
        assert Selected(b0) == [];
        RuncmdRefuses(pre, Effects(ptes, output, buf[..]));
        return Returned(0);
      }
      if |argv| == 0 {
        assert Selected(b0) == [];
        RuncmdRefuses(pre, Effects(ptes, output, buf[..]));
        return Returned(0);
      }
      TokensAreArgs(b0, argv);
      ghost var name := Token(s, argv[0]);
      var i := 0;
      while i < |COMMANDS|
        invariant 0 <= i <= |COMMANDS|
        invariant Lookup(name) == LookupFrom(name, i)
        invariant buf[..] == Blank(b0, ScanEnd(s))
        invariant output == old(output) && invoked == old(invoked) && ptes == old(ptes)
      {
        if CStr(buf[..], argv[0]) == COMMANDS[i].name {
          assert Lookup(name) == Some(i);
          assert Selected(b0) == [COMMANDS[i].handler];
          invoked := invoked + [COMMANDS[i].handler];
          ghost var mid := Effects(ptes, output, buf[..]);
          assert mid == pre.(buf := Blank(b0, ScanEnd(s)));
          o := Dispatch(COMMANDS[i].handler, buf, argv);
          RuncmdDispatches(pre, i, argv, mid, o, Effects(ptes, output, buf[..]));
          return;
        }
        i := i + 1;
      }
      output := output + [UnknownCommand(CStr(buf[..], argv[0]))];
      o := Returned(0);
      assert Selected(b0) == [];
      RuncmdRefuses(pre, Effects(ptes, output, buf[..]));
    }

    /** The cases of RuncmdDone where no command runs. */
    lemma RuncmdRefuses(pre: Effects, post: Effects)
      requires Valid() && Terminated(pre.buf, 0)
      requires var s := Line(pre.buf); var toks := Starts(s, 0); var b := Blank(pre.buf, ScanEnd(s));
        || (|toks| >= MAXARGS && post == Effects(pre.ptes, pre.output + [TooManyArgs], b))
        || (|toks| == 0 && post == pre.(buf := b))
        || (0 < |toks| < MAXARGS && Lookup(Token(s, toks[0])).None?
            && post == Effects(pre.ptes, pre.output + [UnknownCommand(Token(s, toks[0]))], b))
      ensures RuncmdDone(pre, Returned(0), post)
    {
    }

    /** The case of RuncmdDone where the command at index `i` runs. */
    lemma RuncmdDispatches(pre: Effects, i: nat, argv: seq<nat>, mid: Effects, o: Outcome, post: Effects)
      requires Valid() && Terminated(pre.buf, 0)
      requires var s := Line(pre.buf);
        && argv == Starts(s, 0) && 0 < |argv| < MAXARGS && Lookup(Token(s, argv[0])) == Some(i)
        && mid == pre.(buf := Blank(pre.buf, ScanEnd(s)))
      requires Done(COMMANDS[i].handler, argv, mid, o, post)
      requires o.Returned? ==> o.code == 0
      ensures RuncmdDone(pre, o, post)
    {
    }

    /** What one turn of the loop does with the line readline returned:
        runcmd on it, or nothing for NULL. */
    ghost predicate LineDone(line: Option<seq<SChar>>, pre: Effects, o: Outcome, post: Effects)
      requires Valid() && (line.Some? ==> Terminated(line.value, 0))
    {
      match line
      case None => post == pre && o == Returned(0)
      case Some(b) => RuncmdDone(pre.(buf := b), o, post)
    }

    /** The record of the first |outs| lines the loop has handled: line k
        found the state states[k] and left states[k + 1], and outs[k] is
        what runcmd returned for it. */
    ghost predicate Ran(lines: seq<Option<seq<SChar>>>, states: seq<Effects>, outs: seq<Outcome>)
      requires Valid() && |outs| <= |lines| && |states| == |outs| + 1
      requires forall k :: 0 <= k < |lines| && lines[k].Some? ==> Terminated(lines[k].value, 0)
    {
      forall k :: 0 <= k < |outs| ==> LineDone(lines[k], states[k], outs[k], states[k + 1])
    }

    /** Handling one more line extends the record. */
    lemma RanStep(lines: seq<Option<seq<SChar>>>, states: seq<Effects>, outs: seq<Outcome>, o: Outcome, post: Effects)
      requires Valid() && |outs| < |lines| && |states| == |outs| + 1
      requires forall k :: 0 <= k < |lines| && lines[k].Some? ==> Terminated(lines[k].value, 0)
      requires Ran(lines, states, outs)
      requires LineDone(lines[|outs|], states[|outs|], o, post)
      ensures Ran(lines, states + [post], outs + [o])
    {
      var states', outs' := states + [post], outs + [o];
      forall k | 0 <= k < |outs'|
        ensures LineDone(lines[k], states'[k], outs'[k], states'[k + 1])
      {
        assert states'[k] == states[k] && outs'[k] == (if k < |outs| then outs[k] else o);
        assert states'[k + 1] == (if k < |outs| then states[k + 1] else post);
      }
    }

    /** One turn of the loop: the line readline returned, copied into the
        buffer and run, or nothing for NULL; the record grows by that line. */
    method RunLine(buf: array<SChar>, lines: seq<Option<seq<SChar>>>, i: nat, ghost states: seq<Effects>, ghost outs: seq<Outcome>)
      returns (o: Outcome, ghost post: Effects)
      requires Valid() && i == |outs| < |lines| && |states| == |outs| + 1
      requires forall k :: 0 <= k < |lines| && lines[k].Some? ==>
                 |lines[k].value| == buf.Length && Terminated(lines[k].value, 0)
      requires Ran(lines, states, outs) && states[|outs|] == Effects(ptes, output, buf[..])
      modifies this, buf
      ensures post == Effects(ptes, output, buf[..]) && old(output) <= output
      ensures Ran(lines, states + [post], outs + [o])
      ensures o.Returned? ==> o.code == 0
      ensures !o.Returned? ==> lines[|outs|].Some?
    {
      var line := lines[i];
      if line.Some? {
        forall j | 0 <= j < buf.Length {
          buf[j] := line.value[j];
        }
        assert buf[..] == line.value;
        o := Runcmd(buf);
      } else {
        o := Returned(0);
      }
      post := Effects(ptes, output, buf[..]);
      RanStep(lines, states, outs, o, post);
    }

    /** kern/monitor.c `monitor`: greets, then reads and runs one line after
        another. readline is a parameter: `lines` holds what each call
        leaves in the buffer, or None where it returns NULL. The ghost
        `states` and `outs` record what each line found and left and what
        runcmd returned for it (0 for a NULL line, which runs nothing). The
        loop is left only when a command returns a negative value, which no
        command does: it runs every line unless one panics, has undefined
        behaviour or wraps showmappings' address. */
    method MonitorLoop(buf: array<SChar>, lines: seq<Option<seq<SChar>>>)
      returns (ran: nat, last: Outcome, ghost states: seq<Effects>, ghost outs: seq<Outcome>)
      requires Valid()
      requires forall k :: 0 <= k < |lines| && lines[k].Some? ==>
                 |lines[k].value| == buf.Length && Terminated(lines[k].value, 0)
      modifies this, buf
      ensures ran <= |lines| && |outs| == ran && |states| == ran + 1
      ensures states[0] == Effects(old(ptes), old(output) + [Welcome], old(buf[..]))
      ensures states[ran] == Effects(ptes, output, buf[..])
      ensures old(output) + [Welcome] <= output
      ensures forall k :: 0 <= k < ran ==> LineDone(lines[k], states[k], outs[k], states[k + 1])
      ensures forall k :: 0 <= k < ran - 1 ==> outs[k] == Returned(0)
      ensures ran == 0 ==> last == Returned(0)
      ensures ran > 0 ==> last == outs[ran - 1]
      ensures ran < |lines| ==> !last.Returned?
      ensures last.Returned? ==> ran == |lines| && last.code == 0
      ensures !last.Returned? ==> 0 < ran && lines[ran - 1].Some?
    {
      output := output + [Welcome];
      ran := 0;
      last := Returned(0);
      states := [Effects(ptes, output, buf[..])];
      outs := [];
      while ran < |lines| && last.Returned? && last.code >= 0
        invariant ran <= |lines| && |outs| == ran && |states| == ran + 1
        invariant states[0] == Effects(old(ptes), old(output) + [Welcome], old(buf[..]))
        invariant states[ran] == Effects(ptes, output, buf[..])
        invariant old(output) + [Welcome] <= output
        invariant Ran(lines, states, outs)
        invariant forall k :: 0 <= k < ran - 1 ==> outs[k] == Returned(0)
        invariant ran == 0 ==> last == Returned(0)
        invariant ran > 0 ==> last == outs[ran - 1]
        invariant last.Returned? ==> last.code == 0
        invariant !last.Returned? ==> 0 < ran && lines[ran - 1].Some?
      {
        assert forall k :: 0 <= k < ran ==> outs[k] == Returned(0);
        ghost var post;
        last, post := RunLine(buf, lines, ran, states, outs);
        outs := outs + [last];
        states := states + [post];
        ran := ran + 1;
      }
    }

    /** A line of fewer than 16 arguments, at `argv`, whose first names a
        command with handler `h`, runs `h` on those arguments and the line
        with its `n` bytes blanked. */
    lemma RuncmdRunsCommand(b: seq<SChar>, pre: Effects, o: Outcome, post: Effects, argv: seq<nat>, n: nat, h: Handler)
      requires Valid() && Terminated(b, 0) && LineDone(Some(b), pre, o, post)
      requires Starts(Line(b), 0) == argv && |Line(b)| == n && 0 < |argv| < MAXARGS
      requires var i := Lookup(Token(Line(b), argv[0])); i.Some? && COMMANDS[i.value].handler == h
      ensures Done(h, argv, pre.(buf := Blank(b, n)), o, post)
    {
    }

    /** A buffer holding `setm 0x1000 1 w` runs setm on its four arguments. */
    lemma SetmExampleDispatch(b: seq<SChar>, pre: Effects, o: Outcome, post: Effects)
      requires Valid() && Holds(b, SETM_EXAMPLE) && LineDone(Some(b), pre, o, post)
      ensures SetmDone([0, 5, 12, 14], pre.(buf := Blank(b, 15)), o, post)
    {
      SetmExampleLine(b);
      RuncmdRunsCommand(b, pre, o, post, [0, 5, 12, 14], 15, SetmCommand);
    }

    /** setm on arguments that name the address 0x1000, the mode '1' and the letter 'w'. */
    lemma SetmSetsWritable(pre: Effects, o: Outcome, post: Effects)
      requires SetmDone([0, 5, 12, 14], pre, o, post) && |pre.buf| > 15
      requires pre.buf[15] == 0 && pre.buf[13] == 0 && XtoiSafe(pre.buf, 5) && XtoiValue(pre.buf, 5) == 0x1000
      requires XtoiRewrite(pre.buf, 5)[12] == 49 && XtoiRewrite(pre.buf, 5)[14] == 119
      ensures 1 !in pre.ptes ==> o == Undefined && post.output == pre.output + [SetmHeader(0x1000, false)]
      ensures 1 in pre.ptes ==>
        var e := pre.ptes[1];
        var e' := SetmEntry(e, false, 119);
        && o == Returned(0)
        && post.ptes == pre.ptes[1 := e']
        && post.output == pre.output + [SetmHeader(0x1000, false), Permission(PermText(e)),
                                        SetmHeader(0x1000, true), Permission(PermText(e'))]
    {
    }

    /** One turn of the loop on a buffer holding `setm 0x1000 1 w`: with an
        entry for page 1, setm prints it before and after setting PTE_W and
        returns 0; without one, it prints the header and has undefined
        behaviour. */
    lemma SetmExampleTurn(b: seq<SChar>, pre: Effects, o: Outcome, post: Effects)
      requires Valid() && Holds(b, SETM_EXAMPLE) && LineDone(Some(b), pre, o, post)
      ensures 1 !in pre.ptes ==> o == Undefined && post.output == pre.output + [SetmHeader(0x1000, false)]
      ensures 1 in pre.ptes ==>
        var e := pre.ptes[1];
        var e' := SetmEntry(e, false, 119);
        && o == Returned(0)
        && post.ptes == pre.ptes[1 := e']
        && post.output == pre.output + [SetmHeader(0x1000, false), Permission(PermText(e)),
                                        SetmHeader(0x1000, true), Permission(PermText(e'))]
    {
      SetmExampleDispatch(b, pre, o, post);
      SetmExampleArgs(b);
      SetmSetsWritable(pre.(buf := Blank(b, 15)), o, post);
    }

    /** A buffer holding `showmappings 0x1000 0x2000` runs showmappings on its three arguments. */
    lemma ShowMappingsExampleDispatch(b: seq<SChar>, pre: Effects, o: Outcome, post: Effects)
      requires Valid() && Holds(b, SHOWMAPPINGS_EXAMPLE) && LineDone(Some(b), pre, o, post)
      ensures ShowMappingsDone([0, 13, 20], pre.(buf := Blank(b, 26)), o, post)
    {
      ShowMappingsExampleLine(b);
      RuncmdRunsCommand(b, pre, o, post, [0, 13, 20], 26, ShowmappingsCommand);
    }

    /** showmappings on arguments that name 0x1000 and 0x2000 walks that range. */
    lemma ShowMappingsWalksRange(pre: Effects, o: Outcome, post: Effects)
      requires ShowMappingsDone([0, 13, 20], pre, o, post)
      requires XtoiSafe(pre.buf, 13) && XtoiValue(pre.buf, 13) == 0x1000
      requires XtoiSafe(XtoiRewrite(pre.buf, 13), 20) && XtoiValue(XtoiRewrite(pre.buf, 13), 20) == 0x2000
      ensures var w := Walk(pgdir, pre.ptes, 0x1000, 0x2000);
        && post.ptes == pre.ptes
        && post.output == pre.output + [RangeLine(0x1000, 0x2000)] + w.msgs
        && o == WalkOutcome(w.ending)
    {
    }

    /** One turn of the loop on a buffer holding `showmappings 0x1000
        0x2000`: the page tables stay, the range line is printed, then the
        walk of [0x1000, 0x2000), and the walk's ending decides the outcome. */
    lemma ShowMappingsExampleTurn(b: seq<SChar>, pre: Effects, o: Outcome, post: Effects)
      requires Valid() && Holds(b, SHOWMAPPINGS_EXAMPLE) && LineDone(Some(b), pre, o, post)
      ensures var w := Walk(pgdir, pre.ptes, 0x1000, 0x2000);
        && post.ptes == pre.ptes
        && post.output == pre.output + [RangeLine(0x1000, 0x2000)] + w.msgs
        && o == WalkOutcome(w.ending)
    {
      ShowMappingsExampleDispatch(b, pre, o, post);
      ShowMappingsExampleArgs(b);
      ShowMappingsWalksRange(pre.(buf := Blank(b, 26)), o, post);
    }

    /** `setm 0x1000 1 w` and then `showmappings 0x1000 0x2000`, two turns
        of the loop: when page 1 is a present 4 KiB page, both commands
        return 0, and showmappings prints the range and a single line for
        0x1000, at the frame of the entry setm left, whose breakdown lists
        PTE_W. */
    lemma SetmThenShowMappings(b1: seq<SChar>, b2: seq<SChar>, s0: Effects, o1: Outcome, s1: Effects, o2: Outcome, s2: Effects)
      requires Valid() && pgdir[0] & PTE_PS == 0 && 1 in s0.ptes && s0.ptes[1] & PTE_P != 0
      requires Holds(b1, SETM_EXAMPLE) && LineDone(Some(b1), s0, o1, s1)
      requires Holds(b2, SHOWMAPPINGS_EXAMPLE) && LineDone(Some(b2), s1, o2, s2)
      ensures o1 == Returned(0) && o2 == Returned(0)
      ensures var e' := SetmEntry(s0.ptes[1], false, 119);
        && s2.ptes == s1.ptes == s0.ptes[1 := e']
        && s2.output == s1.output + [RangeLine(0x1000, 0x2000),
                                     MappingLine(0x1000, 0x2000, PteAddr(e'), PteAddr(e') + 0x1000, PermText(e'))]
      ensures PermText(SetmEntry(s0.ptes[1], false, 119)) == FlagsText(true, true, s0.ptes[1] & PTE_U != 0)
    {
      SetmExampleTurn(b1, s0, o1, s1);
      ShowMappingsExampleTurn(b2, s1, o2, s2);
      SetWritableThenWalk(pgdir, s0.ptes);
      SetWritableBits(s0.ptes[1]);
    }
  }
}
