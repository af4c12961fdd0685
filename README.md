# JOS kernel monitor and console colour filter, in Dafny

This project models two parts of the JOS teaching kernel and proves properties about them.

- **The kernel monitor (`kern/monitor.c`).** This is the interactive command interpreter. `runcmd` splits a line in place into at most 15 arguments and runs the first command of the table whose name matches. The commands are:
  - `help`;
  - `kerninfo`;
  - `backtrace`, which walks the saved-frame-pointer chain;
  - `showmappings`, which reports the page mappings of a range, in 4 KiB or 4 MiB steps;
  - `setm`, which sets or clears one permission bit of a page-table entry.

  The two number parsers `xtoi` and `stoi`, and `print_permission`, are modelled as well.
- **The ANSI colour filter of `kern/printf.c`.** `putch` is a four-state machine (normal, start, escaping, overflow) over global state. It forwards plain characters to the console. It collects the parameters of an escape sequence in a 100-byte buffer. When a letter arrives it hands the buffer to `ansi_control`, which updates the foreground and background colours through `parse_ansi`, `apply_color` and the `ansi2cga` table.

Each file is modelled in the form of its source.
- **Monitor state.** The monitor's state is the class `Monitor.Kernel`. It holds the page directory, the page-table entries that `pgdir_walk` locates, the stack memory, the symbol table and the printed output. Its commands are methods with loops, and each loop is proved against a specification function:
  - the scans of `Tokens.Tokenize` (`SkipSpaces`, `SkipArgument`) against `Tokens.Starts` and `Tokens.RunEnd`;
  - the table search in `Monitor.Kernel.Runcmd` against `Monitor.LookupFrom`;
  - `Monitor.Kernel.MonHelp` against `Monitor.HelpText`;
  - `Monitor.Kernel.MonBacktrace` against `Backtrace.TraceFrom`;
  - `Monitor.Kernel.ReportRange` against `PageTools.Walk`;
  - `Numbers.Xtoi` against `Numbers.HexFold`, and `Numbers.Stoi` against `Numbers.DecFold`;
  - `Monitor.Kernel.MonitorLoop` against `Monitor.Kernel.LineDone`, one turn per line, kept as the record `Monitor.Kernel.Ran`.
- **Console filter state.** The filter's globals are the class `Printf.Console`. The 100-byte `ansi_fmt` is a Dafny `array`. Everything the filter hands to `cputchar` is a ghost sequence. Its methods are proved against the pure machine in module `Ansi`: `Putch` against `Step` and the loop of `Vcprintf` against `Run`, both over a `Filter` value; the loop of `AnsiControl` against `Control`; and the loop of `Printf.ParseAnsiBytes` against `ParseAnsi`.
- **Printed output.** What the monitor prints is kept as a sequence of `Messages.Msg` records. Most records are one printed line: a frame, a mapping with its permissions, a help line. `Welcome` stands for the two greeting lines and `KernInfo` for the seven lines of kerninfo, and in setm a `SetmHeader` record and the `Permission` record after it make up one line together.
- **Undefined behaviour.** A command that reads through a pointer it does not own ends in the outcome `Undefined`. Such pointers include a NULL page-table entry, a missing `argv` slot and an unreadable stack frame.
- **Wrapped address.** `showmappings` keeps its running address in a `uint32_t`. When a step carries it past 2^32 the command ends in the outcome `Wrapped`: the source then goes on from the wrapped address `va + step - 2^32`, which is below 4 MiB, near 0 and in general below the start of the range, and the model follows it no further.

The 32-bit paging constants are those of section 4.3 of the Intel 64 and IA-32 Architectures Software Developer's Manual, Volume 3A:
- `PTE_P = 0x1`, `PTE_W = 0x2`, `PTE_U = 0x4`, `PTE_PS = 0x80`;
- `PGSIZE = 4096`, `PTSIZE = 4 MiB`;
- `PDX(va) = va >> 22`.

`inc/mmu.h` is not part of this model.

The model follows the code as written. In three places the code behaves differently from what a reader of its interface would expect:
- **Sequence ending in `m`.** In the SGR control function of ECMA-48 (section 8.3.117), `ESC [ 31 m` selects a red foreground and parameter 0 restores the default rendition. In the code, the last segment of a sequence (the one that no `;` ends) is never applied in full, so `"\033[31m"` leaves the colours as they were (`Ansi.LastCodeIgnored`, `Ansi.RedExample`). There is also no code-0 reset: `apply_color` (kern/printf.c:25-28) ignores every code outside 30..49.
- **setm letters.** setm's usage string `[p|w|u]` (kern/monitor.c:145) names three letters. The code only checks that the mode and the letter are one byte long (kern/monitor.c:144), and an unknown letter names no bit (`PageTools.SetmUnknownLetter`).
- **Escape parameters.** The start case of `putch` has no `break` (kern/printf.c:55-60), so the `[` that opens a sequence falls into the escaping case and is stored in `ansi_fmt`. `parse_ansi` later skips it because it is not a digit.

## Model

| member | source | states |
|---|---|---|
| Numbers.XtoiDigit | kern/monitor.c:82-86 | 'a'..'f' and 'A'..'F' become 10..15, '0'..'9' become 0..9, and any other byte c becomes c - '0' stored into a char |
| Numbers.HexFold | kern/monitor.c:81-89 | the value xtoi accumulates: res = res * 16 + digit over the body, in uint32 arithmetic modulo 2^32 |
| Numbers.XtoiValue | kern/monitor.c:78-91 | xtoi of the argument at a given start: the fold of the string after its first two bytes |
| Numbers.XtoiRewrite | kern/monitor.c:80-89 | the buffer after xtoi has the same length and keeps every NUL; only the bytes of the parsed body change |
| Numbers.Xtoi | kern/monitor.c:78-91 | skips two bytes unchecked, returns the base-16 fold modulo 2^32 of the rest of the string, and leaves the buffer with every body byte replaced by its digit value and nothing else changed |
| Numbers.HexFoldRoundTrip | kern/monitor.c:81-89 | folding the k hex digits of v (either letter case, k at most 8) gives v back |
| Numbers.XtoiParsesHex | kern/monitor.c:78-91 | "0x" followed by the eight hex digits of any 32-bit value parses back to that value |
| Numbers.Stoi | kern/monitor.c:92-99 | returns the base-10 fold of the string, each byte counting as c - '0' |
| Numbers.DecFold | kern/monitor.c:92-99 | the value stoi accumulates: res = res * 10 + (c - '0') over the string |
| Numbers.StoiParsesDecimal | kern/monitor.c:92-99 | stoi of the decimal text of n is n |
| Mmu.PDX | kern/monitor.c:118 | the directory index is below 1024 and selects the 4 MiB region holding va |
| Mmu.PteAddr | kern/monitor.c:122 | PTE_ADDR clears the low 12 bits and keeps all the others |
| Tokens.RunEnd | kern/monitor.c:193-194 | the argument scan stops at the first whitespace byte or the end of the line, and every byte before it is non-space |
| Tokens.IsSpace | kern/monitor.c:167 | strchr(WHITESPACE, c) for a byte the scan has checked is not NUL (kern/monitor.c:182, 193): tab, carriage return, newline or space |
| Tokens.Starts | kern/monitor.c:180-195 | the argument starts the scan finds: each non-space byte after a run of whitespace or at the beginning of the line |
| Tokens.Blank | kern/monitor.c:182-183 | the buffer with every whitespace byte before a given point turned into NUL |
| Tokens.Argv | kern/monitor.c:178-196 | the argv runcmd keeps: all argument starts, or the first 15 when there are more |
| Tokens.ScanEnd | kern/monitor.c:184-188 | how far the scan gets: the end of the line, or the start of the 16th argument where it gives up |
| Tokens.StartsAreTokenStarts | kern/monitor.c:180-195 | an index is an argument start exactly when it begins a maximal run of non-whitespace bytes; the starts are strictly increasing and each argument is non-empty |
| Tokens.SkipSpaces | kern/monitor.c:182-183 | the whitespace loop writes NUL over each space it passes, stops at a non-space byte or the end, and does not change which arguments remain |
| Tokens.SkipArgument | kern/monitor.c:193-194 | the argument loop moves exactly to the end of the run of non-space bytes and changes no byte |
| Tokens.Tokenize | kern/monitor.c:178-196 | returns all argument starts when there are at most 15, else the first 15 with failure; the buffer has every whitespace byte before the stop point turned into NUL and is otherwise unchanged |
| Tokens.TokenIsCString | kern/monitor.c:182-196 | after the scan each argument is a NUL-terminated string that spells its token |
| Tokens.RunEndAt | kern/monitor.c:193-194 | a run of non-space bytes from i that ends at whitespace or at the end of the line is exactly the stretch the argument loop skips |
| Monitor.TokensAreArgs | kern/monitor.c:178-196 | every argument of a completed scan is a non-empty C string of the rewritten buffer equal to its token |
| Monitor.LookupFrom | kern/monitor.c:201-204 | the command found is the first table entry with that name, and no entry matches when none is found |
| Monitor.Lookup | kern/monitor.c:201-204 | the entry of the command table (kern/monitor.c:24-30, COMMANDS) that runcmd runs for a name: the first with that name, if any |
| Monitor.Selected | kern/monitor.c:198-204 | the handler runcmd calls for a line: at most one, the first table entry named by the first of at most 15 arguments |
| Monitor.LookupUnique | kern/monitor.c:24-30 | the table names are distinct, so an entry's name finds exactly that entry |
| Monitor.FootprintKB | kern/monitor.c:55-56 | ROUNDUP(size, 1024) / 1024 is the least number of KiB covering size |
| Monitor.HelpText | kern/monitor.c:37-39 | one help line per command of the table, in table order |
| Monitor.WalkOutcome | kern/monitor.c:117-141 | showmappings returns 0 exactly when its walk covers the range; a failing page-table walk panics and a wrapped address never returns |
| Monitor.Kernel.ShowMappingsDone | kern/monitor.c:108-141 | the effect of showmappings on the page tables, the output and the line buffer, case by case on the arguments |
| Monitor.Kernel.SetmDone | kern/monitor.c:143-163 | the effect of setm on the page tables, the output and the line buffer, case by case on the arguments |
| Monitor.Kernel.Done | kern/monitor.c:34-163 | the effect of each of the five handlers: help and kerninfo print and return 0, backtrace prints the frame walk, showmappings and setm as above |
| Monitor.Kernel.constructor | kern/monitor.c:209-212 | the monitor is entered with the page tables, stack, symbols and layout as given, nothing printed, and a frame chain of the given length |
| Monitor.Kernel.MonHelp | kern/monitor.c:34-42 | prints exactly the help text, one "name - desc" line per command of the table in table order, and returns 0 |
| Monitor.Kernel.MonKerninfo | kern/monitor.c:44-58 | prints the linker symbols and the footprint in KiB and returns 0 |
| Monitor.Kernel.MonBacktrace | kern/monitor.c:60-77 | prints the header and then exactly the lines of the frame-chain walk; it returns 0 at a zero link, is undefined before printing a frame whose six printed words cannot be read, and is undefined after printing a frame whose saved frame pointer cannot be read |
| Monitor.Kernel.ShowMappings | kern/monitor.c:108-141 | does what ShowMappingsDone says: usage and 0 with one argument, undefined with two, otherwise both bounds parsed with xtoi, the range line and the walk's lines, with the walk's ending as outcome; the page tables never change |
| Monitor.Kernel.ReportRange | kern/monitor.c:117-139 | the loop prints exactly the lines of the walk from begin to end, one report per visited page through ReportAt and StepAt, and ends as the walk does: covered, panicked, or wrapped past 2^32 |
| Monitor.Kernel.Setm | kern/monitor.c:143-163 | does what SetmDone says: usage and no change for one argument or a mode or letter longer than one byte; undefined for two or three arguments; otherwise prints the permissions before and after and stores the entry with only the named bit set or cleared |
| Monitor.Kernel.Dispatch | kern/monitor.c:203 | runs the selected handler: the new page tables, output and buffer are exactly what Done prescribes for that handler, and a returned value is 0 |
| Monitor.Kernel.Runcmd | kern/monitor.c:170-207 | does what RuncmdDone says, with the whitespace its scan passes turned into NUL in every case, and records the one handler it calls, if any, in `invoked` |
| Monitor.Kernel.RuncmdDone | kern/monitor.c:170-207 | what runcmd does with a line: 16 or more arguments print "Too many arguments" and run nothing; an empty line runs nothing; an unknown name prints "Unknown command"; otherwise the first command of that name runs on the argument starts and the blanked buffer with the effect Done prescribes; the buffer is blanked up to where the scan stopped; a returned value is 0 |
| Monitor.Kernel.MonitorLoop | kern/monitor.c:209-224 | greets, then handles the lines in order, returning the state each line found and left and what runcmd returned for it: a NULL line runs nothing, any other is copied into the buffer and run with the effect RuncmdDone prescribes; every line before the last returned 0, and the loop stops before the end of the lines only after a line that panics, is undefined or wraps, since no command returns a negative value |
| Monitor.Kernel.LineDone | kern/monitor.c:218-221 | one turn of the loop: nothing for a NULL line, runcmd's effect (RuncmdDone) on the line otherwise |
| Monitor.Kernel.Ran | kern/monitor.c:217-222 | the record of the turns so far: turn k goes from state k to state k + 1 as LineDone says |
| Monitor.Kernel.RunLine | kern/monitor.c:218-221 | one turn: the record grows by what LineDone says of this line, nothing printed is lost, and a returned value is 0 |
| Monitor.HoldsLine | kern/monitor.c:219-221 | a buffer that holds a NUL-free line is terminated, and the C string it holds is that line |
| Monitor.SetmExampleRun | kern/monitor.c:193-194 | in `setm 0x1000 1 w` the argument loop stops after `setm` at 4, after `0x1000` at 11, and after `1` and `w` one byte on |
| Monitor.SetmExampleTokens | kern/monitor.c:178-196 | the scan of `setm 0x1000 1 w` finds the argument starts 0, 5, 12 and 14 and stops at the end of the line, 15 |
| Monitor.SetmExampleName | kern/monitor.c:24-30 | the first four bytes of `setm 0x1000 1 w` spell the name of command table entry 4 |
| Monitor.SetmExampleCommand | kern/monitor.c:201-204 | the first argument of `setm 0x1000 1 w` selects entry 4 of the table, whose handler is setm |
| Monitor.SetmExampleLine | kern/monitor.c:178-204 | a buffer holding `setm 0x1000 1 w` has four arguments at 0, 5, 12 and 14, a 15-byte line, and runs setm |
| Monitor.SetmExampleBlank | kern/monitor.c:182-183 | after the scan of `setm 0x1000 1 w` the arguments `1000` (after its `0x`), `1` and `w` are each followed by a NUL |
| Monitor.SetmExampleArgs | kern/monitor.c:144-148 | in the scanned buffer the mode and letter are one byte each, the mode is `1`, the letter is `w`, and xtoi of the address argument reads 0x1000 |
| Monitor.HexFoldFour | kern/monitor.c:81-89 | xtoi of a digit followed by three zeros is that digit times 0x1000 |
| Monitor.ShowMappingsExampleRun | kern/monitor.c:193-194 | in `showmappings 0x1000 0x2000` the argument loop stops after `showmappings` at 12, after `0x1000` at 19 and after `0x2000` at 26 |
| Monitor.ShowMappingsExampleTokens | kern/monitor.c:178-196 | the scan of `showmappings 0x1000 0x2000` finds the argument starts 0, 13 and 20 and stops at the end of the line, 26 |
| Monitor.ShowMappingsExampleName | kern/monitor.c:24-30 | the first twelve bytes of `showmappings 0x1000 0x2000` spell the name of command table entry 3 |
| Monitor.ShowMappingsExampleCommand | kern/monitor.c:201-204 | the first argument of `showmappings 0x1000 0x2000` selects entry 3 of the table, whose handler is showmappings |
| Monitor.ShowMappingsExampleLine | kern/monitor.c:178-204 | a buffer holding `showmappings 0x1000 0x2000` has three arguments at 0, 13 and 20, a 26-byte line, and runs showmappings |
| Monitor.ShowMappingsExampleBlank | kern/monitor.c:182-183 | after the scan of `showmappings 0x1000 0x2000` the digits `1000` and `2000` of its two bounds are each followed by a NUL |
| Monitor.ShowMappingsExampleArgs | kern/monitor.c:113 | xtoi reads 0x1000 for the first bound and, in the buffer after that call, 0x2000 for the second |
| Monitor.Kernel.RuncmdRunsCommand | kern/monitor.c:198-204 | a turn on a line of fewer than 16 arguments whose first names a command has exactly the effect that command's handler has on those arguments and the blanked buffer |
| Monitor.Kernel.SetmExampleDispatch | kern/monitor.c:170-207 | a turn on `setm 0x1000 1 w` has the effect of setm on the arguments 0, 5, 12 and 14 and the buffer blanked up to 15 |
| Monitor.Kernel.SetmSetsWritable | kern/monitor.c:143-163 | setm with address 0x1000, mode `1` and letter `w`: with no entry for page 1 it prints the first header and is undefined; otherwise it prints the permissions before and after, stores the entry with PTE_W set, and returns 0 |
| Monitor.Kernel.SetmExampleTurn | kern/monitor.c:143-221 | one turn of the loop on `setm 0x1000 1 w`: undefined after the first header when page 1 has no entry; otherwise page 1's entry gains PTE_W, the before and after permissions are printed, and it returns 0 |
| Monitor.Kernel.ShowMappingsExampleDispatch | kern/monitor.c:170-207 | a turn on `showmappings 0x1000 0x2000` has the effect of showmappings on the arguments 0, 13 and 20 and the buffer blanked up to 26 |
| Monitor.Kernel.ShowMappingsWalksRange | kern/monitor.c:108-141 | showmappings with bounds 0x1000 and 0x2000 leaves the page tables alone, prints the range line and the walk of [0x1000, 0x2000), and ends as that walk does |
| Monitor.Kernel.ShowMappingsExampleTurn | kern/monitor.c:108-221 | one turn of the loop on `showmappings 0x1000 0x2000`: the page tables are unchanged, the range line and the walk's lines are printed, and the outcome is the walk's |
| Monitor.Kernel.SetmThenShowMappings | kern/monitor.c:108-221 | `setm 0x1000 1 w` and then `showmappings 0x1000 0x2000`, with page 1 present in a 4 KiB table: both return 0, page 1's entry gains PTE_W, and the second turn prints the range line and one line for page 1 whose permissions include PTE_W |
| PageTools.PermTextShowsBits | kern/monitor.c:100-105 | two entries print the same permission breakdown exactly when their P, W and U bits agree |
| PageTools.PermText | kern/monitor.c:100-105 | the text print_permission prints: a bar and the name of each of PTE_P, PTE_W and PTE_U that is set, in that order, then a closing bar |
| PageTools.PermOf | kern/monitor.c:152-155 | 'p', 'w' and 'u' name PTE_P, PTE_W and PTE_U; any other letter names no bit |
| PageTools.SetmEntry | kern/monitor.c:152-159 | the entry setm stores: the named bit cleared when the mode is '0', set otherwise |
| PageTools.SetmKeepsOtherBits | kern/monitor.c:156-159 | setm changes no bit other than the named one |
| PageTools.SetmClears | kern/monitor.c:156-157 | a clear leaves the named bit 0 |
| PageTools.SetmSets | kern/monitor.c:158-159 | a set leaves the named bit 1 |
| PageTools.SetmUnknownLetter | kern/monitor.c:152-159 | an unrecognised letter leaves the entry unchanged |
| PageTools.SetmIdempotent | kern/monitor.c:156-159 | setting twice or clearing twice is the same as once |
| PageTools.SetThenClearRestores | kern/monitor.c:156-159 | setting a clear bit and then clearing it restores the entry |
| PageTools.ClearThenSetRestores | kern/monitor.c:156-159 | clearing a set bit and then setting it restores the entry |
| PageTools.StepAt | kern/monitor.c:119-137 | the walk advances by PTSIZE or by PGSIZE |
| PageTools.EntryReport | kern/monitor.c:120-137 | the line for one address: virtual and physical ranges of the page size and the permissions when the entry is present, "page not exist" otherwise |
| PageTools.ReportAt | kern/monitor.c:118-137 | a PTE_PS directory entry is reported itself, any other address through the entry pgdir_walk locates, and None where it locates none |
| PageTools.Walk | kern/monitor.c:117-139 | the loop as written: a report per visited address while below end, stopping at a failing pgdir_walk and at the step that carries the uint32 address past 2^32 |
| PageTools.Visits | kern/monitor.c:113-137 | the addresses the loop visits from begin while below end, with an address that does not wrap: each lies in [begin, end) |
| PageTools.VisitsShape | kern/monitor.c:117-138 | the visited addresses start at begin, stay inside [begin, end), each is the previous plus its step, and the last step reaches end |
| PageTools.VisitsIncrease | kern/monitor.c:117-138 | the visited addresses strictly increase |
| PageTools.WalkFollowsVisits | kern/monitor.c:117-139 | the walk prints the report of each visited address in order, and no more lines than there are visits |
| PageTools.WalkEnding | kern/monitor.c:117-139 | the walk panics exactly when it stops short of the visits, at an address where pgdir_walk fails; otherwise it reports every visit and wraps exactly when the step from the last visit passes 2^32 |
| PageTools.NoWrapBelowTop | kern/monitor.c:117-139 | a range that ends at least 4 MiB below 2^32 never wraps |
| PageTools.LargePageLine | kern/monitor.c:119-124 | a present 4 MiB entry is reported as one line whose virtual and physical ranges each span 4 MiB |
| PageTools.OneLargePage | kern/monitor.c:117-127 | a range inside one present 4 MiB page, starting at its base, prints a single line; for the topmost page the step then wraps the address |
| PageTools.SmallPagesCount | kern/monitor.c:128-138 | over 4 KiB-mapped memory the walk prints one line per page, the size of the range divided by PGSIZE rounded up, and does not panic |
| PageTools.WrappingNext | kern/monitor.c:137 | `begin += step` on a uint32: the plain sum below 2^32, and past it the sum minus 2^32, an address below the step |
| PageTools.WrappingVisit | kern/monitor.c:137 | the uint32 address after k 4 KiB steps from b: b + k * PGSIZE as long as that stays below 2^32 |
| PageTools.WrappingVisitAligned | kern/monitor.c:137 | 4 KiB steps from a page-aligned address stay page-aligned, across the wrap too |
| PageTools.WrappingWalkNeverEnds | kern/monitor.c:117-137 | with the uint32 running address, stepping from 0xfffff000 towards 0xffffffff wraps to 0 and never reaches the end |
| PageTools.SetWritableBits | kern/monitor.c:152-159 | setm with mode '1' and letter 'w' stores the entry with PTE_W set: the frame address and the present bit are those of the old entry, and the printed breakdown has P and U as before and W set |
| PageTools.SmallPageWalk | kern/monitor.c:117-139 | when page 1 is mapped through a 4 KiB page table by a present entry, the walk of [0x1000, 0x2000) prints exactly one line, page 1 mapped to that entry's frame with that entry's permissions, and covers the range |
| PageTools.SetWritableThenWalk | kern/monitor.c:117-163 | after setm has set 'w' in the present entry of page 1, the walk of [0x1000, 0x2000) prints exactly one line: page 1 mapped to the frame of the new entry, with the new entry's permissions |
| Backtrace.ChainLengthUnique | kern/monitor.c:67-74 | the number of frames the walk visits is fixed by memory: a chain has exactly one length |
| Backtrace.FrameWordsReadable | kern/monitor.c:68-70 | the six words the frame line prints: ebp[1] to ebp[6] |
| Backtrace.FrameReadable | kern/monitor.c:68-74 | a frame the walk passes: its six printed words ebp[1] to ebp[6], then its saved frame pointer ebp[0], read after the frame's lines are printed |
| Backtrace.ChainOfLength | kern/monitor.c:67-75 | the walk visits exactly n frames: n non-zero frames whose seven words can be read, each linking to the next, then a zero link or a frame that cannot be read in full |
| Backtrace.Link | kern/monitor.c:74 | the k-th frame pointer of a chain of length n starts a chain of length n - k, so the first n are non-zero readable frames |
| Backtrace.NamePrefix | kern/monitor.c:71 | "%.*s" prints a prefix of the name: exactly the given length when that is in range, and the whole name when it is negative or too long |
| Backtrace.FrameReport | kern/monitor.c:68-73 | each frame whose six printed words can be read prints two lines: the frame line, then its source position or "Unkown position" |
| Backtrace.TraceFrom | kern/monitor.c:67-75 | the loop as written: two lines per frame until the zero link; a frame whose printed words cannot be read faults before printing, and one whose saved frame pointer cannot be read faults after its two lines |
| Backtrace.EndReport | kern/monitor.c:67-75 | what the walk prints at the link where the chain ends: nothing at a zero link or where the printed words cannot be read, and that frame's two lines where only its saved frame pointer cannot |
| Backtrace.TraceLength | kern/monitor.c:67-75 | the walk prints two lines per frame of the chain and then what EndReport gives for the last link, and faults exactly when that last link is non-zero |
| Backtrace.TraceFrameAt | kern/monitor.c:67-75 | lines 2k and 2k+1 report frame k from its own frame pointer |
| Backtrace.TraceReportsEveryFrame | kern/monitor.c:67-75 | the walk prints every frame in order, frame k from its own frame pointer, a failed symbol lookup does not stop it, it ends with EndReport of the last link, and it faults exactly at a non-zero last link |
| Ansi.ParseAnsiReadsDigits | kern/printf.c:15-24 | parse_ansi is the decimal value of the digits in its range; every other byte is skipped |
| Ansi.ParseAnsiDecimal | kern/printf.c:15-24 | parse_ansi of the decimal text of n is n |
| Ansi.ParseAnsi | kern/printf.c:15-24 | res = res * 10 + (c - '0') over the digits of the range, skipping every other byte |
| Ansi.IsChar | kern/printf.c:13 | ischar: an ASCII letter, upper or lower case |
| Ansi.IsDigit | kern/printf.c:14 | isdigit: an ASCII digit |
| Ansi.Ansi2CgaSwapsRedAndBlue | kern/printf.c:10 | the ansi2cga table (ANSI2CGA) swaps the red and blue bits of a 4-bit colour; it maps 0..15 into 0..15 and is its own inverse |
| Ansi.ApplyColor | kern/printf.c:25-28 | colours stay palette indices; only codes 30..39 change the foreground and only 40..49 the background |
| Ansi.ApplyColorRemaps | kern/printf.c:26-27 | code 30+k sets the foreground to ansi2cga[k] and 40+k the background, leaving the other layer alone |
| Ansi.ControlLoop | kern/printf.c:32-40 | the loop of ansi_control keeps the colours palette indices |
| Ansi.Control | kern/printf.c:29-43 | ansi_control keeps the colours palette indices and changes nothing unless the command is 'm' |
| Ansi.LoopInsideSegment | kern/printf.c:32-40 | inside one segment the loop applies the remaining proper prefixes, then the segment itself if a ';' ends it |
| Ansi.ControlBySegments | kern/printf.c:29-43 | ansi_control applies each ';'-terminated segment after its proper prefixes; the final segment only has its proper prefixes applied |
| Ansi.Store | kern/printf.c:67-69 | storing a parameter keeps the index within 0..99 and the buffer at 100 bytes |
| Ansi.Sealed | kern/printf.c:63 | the buffer handed to ansi_control is NUL-terminated |
| Ansi.Escape | kern/printf.c:61-70 | the escaping case keeps the filter's state well-formed |
| Ansi.Step | kern/printf.c:45-75 | every putch step keeps the index in 0..99, so writes stay inside ansi_fmt[100], and keeps the colours in 0..15 |
| Ansi.Run | kern/printf.c:77-84 | feeding any string keeps the filter's state well-formed |
| Ansi.RunAppend | kern/printf.c:82 | feeding two strings in turn is feeding their concatenation, and the console sees both outputs in order |
| Ansi.PlainTextPassesThrough | kern/printf.c:51-54 | from normal, text without ESC reaches the console unchanged and leaves the filter as it was |
| Ansi.QuietInsideSequence | kern/printf.c:61-73 | in escaping and overflow nothing reaches the console, and the colours change only when 'm' ends a sequence |
| Ansi.OverflowOnlyWhenFullKept | kern/printf.c:67-68 | every step keeps the invariant that overflow holds only with the index at 99 |
| Ansi.ParametersAccumulate | kern/printf.c:69 | inside a sequence non-letters are appended to the buffer one by one and nothing is forwarded |
| Ansi.OpenSequence | kern/printf.c:52-69 | ESC '[' from rest enters escaping with '[' stored in the first byte |
| Ansi.SealedParameters | kern/printf.c:63-64 | ansi_control receives exactly the stored bytes when none is NUL |
| Ansi.SequenceApplies | kern/printf.c:50-70 | a whole sequence ESC '[' p L forwards nothing, returns to normal with index 0, and applies ansi_control to '[' and p |
| Ansi.SequenceThenText | kern/printf.c:50-70 | a sequence followed by plain text forwards exactly the text |
| Ansi.LastCodeIgnored | kern/printf.c:32-40 | "\033[31m" leaves the colours unchanged |
| Ansi.ZeroCodeIgnored | kern/printf.c:25-40 | "\033[0m" changes nothing |
| Ansi.SemicolonAppliesCode | kern/printf.c:33-36 | "\033[31;m" sets the foreground to CGA red (4) |
| Ansi.RedExample | kern/printf.c:29-75 | "\033[31mRED\033[0m" forwards exactly R, E, D and leaves the colours as they were |
| Ansi.LongSequenceOverflows | kern/printf.c:67-68 | ESC '[' and 99 non-letters put the filter in overflow with the index at 99, forwarding nothing |
| Ansi.OverflowDiscards | kern/printf.c:71-73 | in overflow non-letters are dropped and change nothing |
| Ansi.FullBufferOverflowsAtOnce | kern/printf.c:56-68 | with the index left at 99, ESC '[' overflows at once |
| Ansi.SequenceAfterOverflowIgnored | kern/printf.c:65-73 | after an overflow the next sequence, however short, changes no colour |
| Ansi.FalseStartRepeatsEscape | kern/printf.c:55-69 | ESC '1' '2' forwards ESC '1' ESC '2': the false start stays in start |
| Ansi.ApplyCodes | kern/printf.c:29-43 | the corrected reading keeps the colours palette indices |
| Ansi.ApplyCodesReadsEveryCode | kern/printf.c:29-43 | the corrected reading of decimal codes separated by ';' applies exactly those codes, in order |
| Ansi.StepFixed | kern/printf.c:45-75 | the corrected step keeps the filter's state well-formed |
| Ansi.RunFixed | kern/printf.c:77-84 | feeding the corrected machine keeps its state well-formed |
| Ansi.RunFixedAppend | kern/printf.c:82 | the corrected machine run on a concatenation is the two runs in turn |
| Ansi.FixedPlainText | kern/printf.c:51-54 | text without ESC passes through the corrected machine unchanged |
| Ansi.FixedStoresAlike | kern/printf.c:69 | parameter characters are stored by the corrected machine as by the original |
| Ansi.FixedRecoversFalseStart | kern/printf.c:55-60 | in the corrected machine, whose start case has the missing `break` and sets `state = normal`, a false start is forwarded once behind ESC and the text after it passes through |
| Ansi.FixedOpenSequence | kern/printf.c:52-56 | ESC '[' enters escaping in the corrected machine with nothing stored |
| Ansi.FixedParametersThenM | kern/printf.c:61-66 | parameters then 'm' apply each written code once in the corrected machine |
| Ansi.FixedSequenceApplies | kern/printf.c:50-70 | a whole sequence ESC '[' p 'm' forwards nothing and applies each code in p once |
| Ansi.FixedOverflowRecovers | kern/printf.c:65-73 | in the corrected machine the letter that ends an overflow resets the index, and the next sequence is read in full |
| Ansi.FixedSequenceThenText | kern/printf.c:50-70 | a corrected sequence followed by plain text forwards exactly the text |
| Ansi.RedAndZeroCodes | kern/printf.c:25-28 | the stored codes "31" and "0" read as red and as nothing |
| Ansi.FixedRedExample | kern/printf.c:29-75 | "\033[31mRED\033[0m" in the corrected machine forwards R, E, D and ends with CGA red as the foreground |
| Printf.ParseAnsiBytes | kern/printf.c:15-24 | the loop of parse_ansi returns the decimal value of the digits in [start, end) |
| Printf.Console.constructor | kern/printf.c:9-12 | the globals start as the machine's INITIAL state: normal, an all-zero buffer, index 0, foreground 7 and background 0 |
| Printf.Console.ApplyColor | kern/printf.c:25-28 | apply_color updates the colour fields as the function ApplyColor does and touches nothing else |
| Printf.Console.AnsiControl | kern/printf.c:29-43 | the loop over the buffer leaves the colours that Control computes from the stored string |
| Printf.Console.EscapingCase | kern/printf.c:61-70 | the escaping case updates the globals as Escape does and forwards nothing |
| Printf.Console.Putch | kern/printf.c:45-75 | putch updates the globals as Step does and appends Step's output to the console; the count behind cnt is outside its frame |
| Printf.Console.Vcprintf | kern/printf.c:77-84 | feeding a string updates the globals as Run does, appends Run's output to the console, and returns 0 |

## Left out

- vprintfmt and cprintf are not part of this model: `Printf.Console.Vcprintf` takes the characters vprintfmt would produce, and the varargs formatting is not modelled.
- cputchar is the ghost `screen` sequence of `Printf.Console`; the console hardware and its use of the colours are not modelled.
- readline is a parameter of `Monitor.Kernel.MonitorLoop`: a sequence of lines, None where readline returns NULL.
- Monitor.Kernel.MonitorLoop: each line is an image of the whole line buffer, so the bytes after its NUL, which xtoi can read, are chosen by the caller rather than left over from the previous line as readline leaves them.
- read_ebp is the `frame` field of `Monitor.Kernel`, and the stack is a map from address to word.
- debuginfo_eip is a map from instruction address to debug info: an address outside the map is a failed lookup.
- pgdir_walk is a map from page number to entry: a missing page is a failed walk. Its allocation side effects with create=1 are not modelled, and the panic message is the outcome `Panicked`.
- The monitor prints structured records (`Messages.Msg`), not the exact characters of its format strings.
- Monitor.Kernel.MonKerninfo: records the linker symbols, not the physical columns, which are those symbols minus KERNBASE.
- Numbers.Stoi: uses unbounded integers, so it does not model the overflow of C int.
- Ansi.ParseAnsi: uses unbounded integers, so it does not model the overflow of C int.
- Backtrace.FrameReport: the argument words at ebp+8..ebp+24 are read at the unbounded address ebp+k; the 32-bit wrap of that address is not modelled.
- Monitor.Kernel.ReportRange: where a step carries the uint32 running address past 2^32 the loop returns `Wrapped` after printing that page's line. The source goes on from the wrapped address, which is below 4 MiB and in general below the start of the range, and the lines it prints after that are not modelled.
- PageTools.Walk: stops at the wrap with the ending `Wrap`, as `Monitor.Kernel.ReportRange` does; the rest of the source's walk, which goes on from an address below 4 MiB, is not modelled (see Findings).
- Monitor.Kernel.MonBacktrace: a frame chain that loops back on itself through readable frames is excluded by `Monitor.Kernel.Valid`, which requires the chain to end after `depth` frames. On such a stack the source prints frames forever, and the model does not follow it.
- The corrected ANSI machine (`Ansi.StepFixed`) fixes the three defects listed under Findings. It keeps apply_color as it is, so code 0 still resets nothing.
- user/breakpoint.c only triggers a breakpoint and prints, so it is not part of this model.
- The printf globals have a single writer, so concurrency is not modelled.

## Findings

| source | as written | input that shows it | evidently intended | confidence | as-written member | corrected member |
|---|---|---|---|---|---|---|
| kern/monitor.c:113-137 | the running address `begin` is a uint32, so `begin += PGSIZE` wraps to 0 past the top of the address space and `begin < end` holds again | `showmappings 0xfffff000 0xffffffff` over 4 KiB pages | the loop ends once the range is covered | not executed | PageTools.WrappingWalkNeverEnds | PageTools.VisitsShape |
| kern/printf.c:32-40 | the last segment of the parameters, which no ';' ends, is never applied in full; only its proper prefixes are | "\033[31m" leaves the foreground unchanged | every code of the sequence is applied once, so the foreground becomes red | not executed | Ansi.LastCodeIgnored | Ansi.ApplyCodesReadsEveryCode |
| kern/printf.c:55-60 | the missing `break` lets a false start fall into the escaping case, which keeps the state at start and stores the character | ESC '1' '2' forwards ESC '1' ESC '2' | a false start is forwarded once and the filter returns to normal: the corrected start case has the `break` and also sets `state = normal`, which lines 57-59 never do | not executed | Ansi.FalseStartRepeatsEscape | Ansi.FixedRecoversFalseStart |
| kern/printf.c:67-73 | on overflow ansi_fmt_ptr stays at 99 and the letter that ends the overflow does not reset it | any sequence after an overflow, e.g. "\033[31;m", changes no colour | the next sequence is read from an empty buffer | not executed | Ansi.SequenceAfterOverflowIgnored | Ansi.FixedOverflowRecovers |
