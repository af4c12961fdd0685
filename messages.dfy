// What the monitor's commands print, as records that mostly stand for one
// printed line each, and how a command ends.

module Messages {
  import opened Chars

  datatype Msg =
    | Welcome                                      // the two greeting lines of monitor()
    | HelpLine(name: seq<SChar>, desc: string)     // "%s - %s\n"
    | KernInfo(start: u32, entry: u32, etext: u32, edata: u32, end: u32, footprintKB: int)  // physical columns are these minus KERNBASE
    | StackHeader                                  // "Stack backtrace:\n"
    | FrameLine(ebp: u32, eip: u32, args: seq<u32>)
    | SourceLine(file: string, line: int, fn: string, offset: u32)
    | UnknownPosition                              // "\tUnkown position\n"
    | ShowMappingsUsage
    | RangeLine(begin: u32, end: u32)              // "begin: %x, end: %x\n"
    | MappingLine(va: u32, vaEnd: u32, pa: bv32, paEnd: bv32, perm: string)
    | NotMapped(va: u32)                           // "page not exist: %x\n"
    | SetmUsage
    | SetmHeader(addr: u32, after: bool)           // "Page of %x before/after setm: "
    | Permission(perm: string)                     // print_permission
    | TooManyArgs                                  // "Too many arguments (max 16)\n"
    | UnknownCommand(name: seq<SChar>)

  /** How a command ends: it returns a value, the kernel panics, the C
      code reads through a pointer it does not own (a NULL page-table entry,
      a missing argv slot, bytes past the end of the line, an unreadable
      stack frame), whose behaviour is undefined and not modelled further,
      or showmappings' uint32 address wraps past 2^32, after which the loop
      goes on from an address below 4 MiB (va + step - 2^32), near 0 and in
      general below the start of the range; the model follows it no further. */
  datatype Outcome = Returned(code: int) | Panicked | Undefined | Wrapped
}
