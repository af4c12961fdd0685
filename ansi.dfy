// The colour filter of kern/printf.c as functions: the character classes,
// parse_ansi, the ANSI-to-CGA remap, apply_color, ansi_control and one
// step of putch's four-state machine.

module Ansi {
  import opened Chars

  const ESC: int := 0x1B

  /** kern/printf.c `ischar`: an ASCII letter. */
  predicate IsChar(ch: int)
  {
    (0x41 <= ch <= 0x5A) || (0x61 <= ch <= 0x7A)
  }

  /** kern/printf.c `isdigit`: an ASCII decimal digit. */
  predicate IsDigit(ch: int)
  {
    0x30 <= ch <= 0x39
  }

  /** kern/printf.c `parse_ansi`: the decimal value of the digits of `s`,
      read left to right; every other byte is skipped. */
  function ParseAnsi(s: seq<SChar>): (r: nat)
  {
    if s == [] then 0
    else
      var c := s[|s| - 1] as int;
      if IsDigit(c) then ParseAnsi(s[..|s| - 1]) * 10 + (c - 0x30) else ParseAnsi(s[..|s| - 1])
  }

  /** The digits of `s`, in order. */
  function DigitsOf(s: seq<SChar>): (d: seq<SChar>)
    ensures forall k :: 0 <= k < |d| ==> IsDigit(d[k] as int)
  {
    if s == [] then []
    else if IsDigit(s[|s| - 1] as int) then DigitsOf(s[..|s| - 1]) + [s[|s| - 1]]
    else DigitsOf(s[..|s| - 1])
  }

  /** The decimal value of a string of digits, most significant first. */
  function DecimalValue(d: seq<SChar>): nat
    requires forall k :: 0 <= k < |d| ==> IsDigit(d[k] as int)
  {
    if d == [] then 0
    else
      assert IsDigit(d[|d| - 1] as int);
      DecimalValue(d[..|d| - 1]) * 10 + (d[|d| - 1] as int - 0x30)
  }

  /** parse_ansi reads exactly the digits of its range: the other bytes do not count. */
  lemma {:induction false} ParseAnsiReadsDigits(s: seq<SChar>)
    ensures ParseAnsi(s) == DecimalValue(DigitsOf(s))
  {
    if s != [] {
      var d := DigitsOf(s[..|s| - 1]);
      ParseAnsiReadsDigits(s[..|s| - 1]);
      if IsDigit(s[|s| - 1] as int) {
        assert (d + [s[|s| - 1]])[..|d|] == d;
      }
    }
  }

  /** parse_ansi inverts printing a number in decimal. */
  lemma {:induction false} ParseAnsiDecimal(n: nat)
    ensures ParseAnsi(Decimal(n)) == n
    decreases n
  {
    if n >= 10 {
      var s := Decimal(n);
      assert s[..|s| - 1] == Decimal(n / 10);
      ParseAnsiDecimal(n / 10);
    }
  }

  /** kern/printf.c `ansi2cga`: the CGA palette index of each ANSI colour. */
  const ANSI2CGA: seq<int> := [0, 4, 2, 6, 1, 5, 3, 7, 8, 12, 10, 14, 9, 13, 11, 15]

  /** The table swaps the red and blue bits (1 and 4) of a 4-bit colour and
      keeps green and intensity: it is a permutation of 0..15 and its own inverse. */
  lemma Ansi2CgaSwapsRedAndBlue(i: int)
    requires 0 <= i < 16
    ensures 0 <= ANSI2CGA[i] < 16
    ensures ANSI2CGA[i] == (i / 8) * 8 + (i / 2 % 2) * 2 + (i % 2) * 4 + (i / 4 % 2)
    ensures ANSI2CGA[ANSI2CGA[i]] == i
  {
    if i < 4 {
      assert i == 0 || i == 1 || i == 2 || i == 3;
    } else if i < 8 {
      assert i == 4 || i == 5 || i == 6 || i == 7;
    } else if i < 12 {
      assert i == 8 || i == 9 || i == 10 || i == 11;
    } else {
      assert i == 12 || i == 13 || i == 14 || i == 15;
    }
  }

  /** The foreground and background colour indices. */
  datatype Colors = Colors(fg: int, bg: int)

  predicate ColorsOk(c: Colors)
  {
    0 <= c.fg < 16 && 0 <= c.bg < 16
  }

  /** The colours at boot: light grey on black. */
  const INITIAL_COLORS: Colors := Colors(7, 0)

  /** kern/printf.c `apply_color`: codes 30..39 pick the foreground and
      40..49 the background, through ansi2cga; any other code changes nothing. */
  function ApplyColor(c: Colors, code: int): (r: Colors)
    ensures ColorsOk(c) ==> ColorsOk(r)
    ensures r.fg != c.fg ==> 30 <= code < 40
    ensures r.bg != c.bg ==> 40 <= code < 50
  {
    if 30 <= code < 40 then c.(fg := ANSI2CGA[code - 30])
    else if 40 <= code < 50 then c.(bg := ANSI2CGA[code - 40])
    else c
  }

  /** The ANSI colour a code names comes out as its CGA index, for either layer. */
  lemma ApplyColorRemaps(c: Colors, k: int)
    requires 0 <= k < 10
    ensures ApplyColor(c, 30 + k).fg == ANSI2CGA[k] && ApplyColor(c, 30 + k).bg == c.bg
    ensures ApplyColor(c, 40 + k).bg == ANSI2CGA[k] && ApplyColor(c, 40 + k).fg == c.fg
  {
  }

  /** The loop of kern/printf.c `ansi_control` for cmd 'm', from position
      `back` of the parameter string `s`, with the current segment starting at `fs`:
      a ';' applies the segment before it and starts a new one, and then, if the
      segment is not empty, the part of it before `back` is applied as well. */
  function ControlLoop(s: seq<SChar>, fs: nat, back: nat, c: Colors): (r: Colors)
    requires fs <= back <= |s|
    ensures ColorsOk(c) ==> ColorsOk(r)
    decreases |s| - back
  {
    if back == |s| then c
    else
      var c1 := if s[back] == 59 then ApplyColor(c, ParseAnsi(s[fs..back])) else c;
      var fs1 := if s[back] == 59 then back + 1 else fs;
      var c2 := if fs1 < back then ApplyColor(c1, ParseAnsi(s[fs1..back])) else c1;
      ControlLoop(s, fs1, back + 1, c2)
  }

  /** kern/printf.c `ansi_control` on the NUL-terminated parameter string `s`
      and the terminating letter `cmd`: only 'm' has an effect. */
  function Control(s: seq<SChar>, cmd: SChar, c: Colors): (r: Colors)
    ensures ColorsOk(c) ==> ColorsOk(r)
    ensures cmd != 109 ==> r == c
  {
    if cmd == 109 then ControlLoop(s, 0, 0, c) else c
  }

  /** Every proper non-empty prefix of `seg` applied in turn, from length `k` on. */
  function ApplyPrefixes(c: Colors, seg: seq<SChar>, k: nat): Colors
    decreases |seg| - k
  {
    if k >= |seg| then c else ApplyPrefixes(ApplyColor(c, ParseAnsi(seg[..k])), seg, k + 1)
  }

  /** The index of the first ';' of `s` at or after `i`, or |s|. */
  function NextSemi(s: seq<SChar>, i: nat): (j: nat)
    requires i <= |s|
    ensures i <= j <= |s| && (j < |s| ==> s[j] == 59)
    ensures forall k :: i <= k < j ==> s[k] != 59
    decreases |s| - i
  {
    if i == |s| || s[i] == 59 then i else NextSemi(s, i + 1)
  }

  /** What ansi_control does, segment by segment: each ';'-terminated segment
      has its proper prefixes applied and then itself; the final segment,
      which no ';' ends, only has its proper prefixes applied. */
  function BySegments(s: seq<SChar>, fs: nat, c: Colors): Colors
    requires fs <= |s|
    decreases |s| - fs
  {
    var j := NextSemi(s, fs);
    var seg := s[fs..j];
    var c1 := ApplyPrefixes(c, seg, 1);
    if j == |s| then c1 else BySegments(s, j + 1, ApplyColor(c1, ParseAnsi(seg)))
  }

  /** Inside one segment the loop applies the remaining proper prefixes. */
  lemma {:induction false} LoopInsideSegment(s: seq<SChar>, fs: nat, back: nat, c: Colors)
    requires fs <= |s| && fs <= back <= NextSemi(s, fs)
    ensures var j := NextSemi(s, fs);
      ControlLoop(s, fs, back, c) == (
        var c1 := ApplyPrefixes(c, s[fs..j], if back == fs then 1 else back - fs);
        if j == |s| then c1
        else ControlLoop(s, j + 1, j + 1, ApplyColor(c1, ParseAnsi(s[fs..j]))))
    decreases |s| - back
  {
    var j := NextSemi(s, fs);
    if back == |s| {
    } else if s[back] == 59 {
      assert back == j;
    } else {
      assert back < j;
      LoopInsideSegment(s, fs, back + 1, if fs < back then ApplyColor(c, ParseAnsi(s[fs..back])) else c);
      if fs < back {
        assert s[fs..j][..back - fs] == s[fs..back];
      }
    }
  }

  /** The loop of ansi_control is the segment-by-segment reading. */
  lemma {:induction false} ControlBySegments(s: seq<SChar>, fs: nat, c: Colors)
    requires fs <= |s|
    ensures ControlLoop(s, fs, fs, c) == BySegments(s, fs, c)
    decreases |s| - fs
  {
    var j := NextSemi(s, fs);
    var c1 := ApplyPrefixes(c, s[fs..j], 1);
    assert BySegments(s, fs, c) == if j == |s| then c1 else BySegments(s, j + 1, ApplyColor(c1, ParseAnsi(s[fs..j])));
    LoopInsideSegment(s, fs, fs, c);
    if j < |s| {
      ControlBySegments(s, j + 1, ApplyColor(c1, ParseAnsi(s[fs..j])));
    }
  }

  /** The states of putch's machine. */
  datatype AnsiState = Normal | Start | Escaping | Overflow

  /** The filter's globals: `state`, `ansi_fmt` (100 bytes), `ansi_fmt_ptr`
      and the two colours. */
  datatype Filter = Filter(state: AnsiState, fmt: seq<SChar>, ptr: int, colors: Colors)

  /** The buffer has its 100 bytes, the write index stays inside it, and the colours are palette indices. */
  predicate FilterOk(f: Filter)
  {
    |f.fmt| == 100 && 0 <= f.ptr <= 99 && ColorsOk(f.colors)
  }

  /** The filter at boot: state normal, an all-zero buffer, index 0, light grey on black. */
  const INITIAL: Filter := Filter(Normal, seq(100, _ => 0), 0, INITIAL_COLORS)

  /** A parameter character in the `escaping` case: with the index at 99
      the state turns to overflow and the character is dropped (the index
      stays at 99); otherwise it is stored and the index advances. */
  function Store(f: Filter, ch: int): (r: Filter)
    requires FilterOk(f)
    ensures FilterOk(r)
  {
    if f.ptr == 99 then f.(state := Overflow)
    else f.(fmt := f.fmt[f.ptr := Trunc8(ch)], ptr := f.ptr + 1)
  }

  /** The buffer NUL-terminated at the write index. */
  function Sealed(f: Filter): (b: seq<SChar>)
    requires FilterOk(f)
    ensures |b| == 100 && Terminated(b, 0)
  {
    var b := f.fmt[f.ptr := 0];
    assert b[f.ptr] == 0;
    b
  }

  /** The `escaping` case of putch: a letter ends the sequence (the buffer
      is NUL-terminated at the index and handed to ansi_control, the index
      goes back to 0 and the state to normal); anything else is a parameter character. */
  function Escape(f: Filter, ch: int): (r: Filter)
    requires FilterOk(f)
    ensures FilterOk(r)
  {
    if IsChar(ch) then
      var b := Sealed(f);
      Filter(Normal, b, 0, Control(CStr(b, 0), Trunc8(ch), f.colors))
    else Store(f, ch)
  }

  /** kern/printf.c `putch` on one character: the new globals and what goes
      to cputchar. The `start` case falls through into the `escaping` case. */
  function Step(f: Filter, ch: int): (r: (Filter, seq<int>))
    requires FilterOk(f)
    ensures FilterOk(r.0)
  {
    match f.state
    case Normal => if ch == ESC then (f.(state := Start), []) else (f, [ch])
    case Start =>
      if ch == 91 then (Escape(f.(state := Escaping), ch), [])
      else (Escape(f, ch), [ESC, ch])
    case Escaping => (Escape(f, ch), [])
    case Overflow => (if IsChar(ch) then f.(state := Normal) else f, [])
  }

  /** putch over a string of characters: the final globals and everything sent to cputchar. */
  function Run(f: Filter, chars: seq<int>): (r: (Filter, seq<int>))
    requires FilterOk(f)
    ensures FilterOk(r.0)
    decreases |chars|
  {
    if chars == [] then (f, [])
    else
      var s := Step(f, chars[0]);
      var rest := Run(s.0, chars[1..]);
      (rest.0, s.1 + rest.1)
  }

  /** One character, then the rest. */
  lemma RunFirst(f: Filter, chars: seq<int>)
    requires FilterOk(f) && chars != []
    ensures var st := Step(f, chars[0]); var rest := Run(st.0, chars[1..]);
      Run(f, chars) == (rest.0, st.1 + rest.1)
  {
  }

  /** A single character is a single step. */
  lemma RunSingle(f: Filter, ch: int)
    requires FilterOk(f)
    ensures Run(f, [ch]) == Step(f, ch)
  {
    RunFirst(f, [ch]);
    assert [ch][1..] == [];
    assert Step(f, ch).1 + [] == Step(f, ch).1;
  }

  /** In overflow a letter returns to normal and anything else is dropped; nothing else changes. */
  lemma OverflowStep(f: Filter, ch: int)
    requires FilterOk(f) && f.state == Overflow
    ensures Step(f, ch) == (if IsChar(ch) then f.(state := Normal) else f, [])
  {
  }

  /** Running two strings in turn is running their concatenation. */
  lemma {:induction false} RunAppend(f: Filter, a: seq<int>, b: seq<int>)
    requires FilterOk(f)
    ensures var ra := Run(f, a); var rb := Run(ra.0, b);
      Run(f, a + b) == (rb.0, ra.1 + rb.1)
    decreases |a|
  {
    if a != [] {
      var st := Step(f, a[0]);
      assert (a + b)[0] == a[0] && (a + b)[1..] == a[1..] + b;
      RunAppend(st.0, a[1..], b);
      var ra' := Run(st.0, a[1..]);
      var rb := Run(ra'.0, b);
      assert Run(f, a + b) == (rb.0, st.1 + (ra'.1 + rb.1));
      assert Run(f, a) == (ra'.0, st.1 + ra'.1);
      assert st.1 + (ra'.1 + rb.1) == (st.1 + ra'.1) + rb.1;
    } else {
      assert a + b == b;
      assert [] + Run(f, b).1 == Run(f, b).1;
    }
  }

  /** Outside a sequence, text without an escape character reaches the console unchanged and leaves the filter as it was. */
  lemma {:induction false} PlainTextPassesThrough(f: Filter, text: seq<int>)
    requires FilterOk(f) && f.state == Normal
    requires forall k :: 0 <= k < |text| ==> text[k] != ESC
    ensures Run(f, text) == (f, text)
    decreases |text|
  {
    if text != [] {
      PlainTextPassesThrough(f, text[1..]);
      assert [text[0]] + text[1..] == text;
    }
  }

  /** Inside a sequence and in overflow nothing reaches the console, and the
      colours change only when a letter 'm' ends a sequence. */
  lemma QuietInsideSequence(f: Filter, ch: int)
    requires FilterOk(f) && (f.state == Escaping || f.state == Overflow)
    ensures Step(f, ch).1 == []
    ensures Step(f, ch).0.colors != f.colors ==> f.state == Escaping && ch == 109
  {
  }

  /** Once in overflow the index is 99: the machine only gets there from a full buffer. */
  predicate OverflowOnlyWhenFull(f: Filter)
  {
    f.state == Overflow ==> f.ptr == 99
  }

  lemma OverflowOnlyWhenFullKept(f: Filter, ch: int)
    requires FilterOk(f) && OverflowOnlyWhenFull(f)
    ensures OverflowOnlyWhenFull(Step(f, ch).0)
  {
  }

  /** The characters `chars` as stored into the `char` buffer. */
  function Stored(chars: seq<int>): (s: seq<SChar>)
    ensures |s| == |chars|
  {
    seq(|chars|, k requires 0 <= k < |chars| => Trunc8(chars[k]))
  }

  /** Inside a sequence, characters that are not letters are appended to the
      buffer one by one while it has room, and nothing reaches the console. */
  lemma {:induction false} ParametersAccumulate(f: Filter, ds: seq<int>)
    requires FilterOk(f) && f.state == Escaping
    requires forall k :: 0 <= k < |ds| ==> !IsChar(ds[k])
    requires f.ptr + |ds| <= 99
    ensures Run(f, ds) == (f.(fmt := f.fmt[..f.ptr] + Stored(ds) + f.fmt[f.ptr + |ds|..], ptr := f.ptr + |ds|), [])
    decreases |ds|
  {
    if ds == [] {
      assert Stored(ds) == [];
      assert f.fmt[..f.ptr] + [] + f.fmt[f.ptr..] == f.fmt;
    } else {
      var g := f.(fmt := f.fmt[f.ptr := Trunc8(ds[0])], ptr := f.ptr + 1);
      assert Step(f, ds[0]) == (g, []);
      RunFirst(f, ds);
      ParametersAccumulate(g, ds[1..]);
      assert g.fmt[..g.ptr] == f.fmt[..f.ptr] + [Trunc8(ds[0])];
      assert Stored(ds) == [Trunc8(ds[0])] + Stored(ds[1..]);
      assert g.fmt[g.ptr + |ds[1..]|..] == f.fmt[f.ptr + |ds|..];
      assert g.fmt[..g.ptr] + Stored(ds[1..]) + g.fmt[g.ptr + |ds[1..]|..]
          == f.fmt[..f.ptr] + Stored(ds) + f.fmt[f.ptr + |ds|..];
      assert Step(f, ds[0]).1 + Run(g, ds[1..]).1 == [];
    }
  }

  /** Parameter characters that survive the store into a `char` and are not NUL. */
  predicate PlainParameters(p: seq<int>)
  {
    forall k :: 0 <= k < |p| ==> !IsChar(p[k]) && 0 < p[k] < 128
  }

  /** The filter right after ESC '[' from rest: escaping, with '[' in the first byte of the buffer. */
  lemma OpenSequence(f: Filter)
    requires FilterOk(f) && f.state == Normal && f.ptr == 0
    ensures Run(f, [ESC, 91]) == (f.(state := Escaping, fmt := f.fmt[0 := 91], ptr := 1), [])
  {
    var g := f.(state := Start);
    var h := f.(state := Escaping, fmt := f.fmt[0 := 91], ptr := 1);
    assert Trunc8(91) == 91;
    assert Step(f, ESC) == (g, []);
    assert Step(g, 91) == (h, []);
    assert [ESC, 91][1..] == [91];
    RunFirst(f, [ESC, 91]);
    RunFirst(g, [91]);
    assert [91][1..] == [];
    assert Run(g, [91]) == (h, [] + []);
    assert Run(f, [ESC, 91]) == (h, [] + ([] + []));
    var none: seq<int> := [];
    assert none + (none + none) == none;
  }

  /** The string ansi_control receives when a sequence ends: the bytes
      stored so far, when none of them is NUL. */
  lemma SealedParameters(f: Filter)
    requires FilterOk(f)
    requires forall k :: 0 <= k < f.ptr ==> f.fmt[k] != 0
    ensures CStr(Sealed(f), 0) == f.fmt[..f.ptr]
  {
    var b := Sealed(f);
    var s := CStr(b, 0);
    assert b[f.ptr] == 0;
    assert StrEnd(b, 0) <= f.ptr;
    if |s| < f.ptr {
      assert false;
    }
    assert s == b[0..f.ptr] == f.fmt[..f.ptr];
  }

  /** Plain parameters are stored as they are, and none of them is NUL. */
  lemma StoredPlain(p: seq<int>)
    requires PlainParameters(p)
    ensures forall k :: 0 <= k < |p| ==> Stored(p)[k] as int == p[k] && Stored(p)[k] != 0
  {
  }

  /** A whole sequence ESC '[' p L, from rest: nothing reaches the console,
      the filter is back at rest, and the colours are what ansi_control makes
      of the '[' and the parameters, under the letter L. */
  lemma SequenceApplies(f: Filter, p: seq<int>, letter: int)
    requires FilterOk(f) && f.state == Normal && f.ptr == 0
    requires |p| <= 98 && PlainParameters(p) && IsChar(letter)
    ensures var r := Run(f, [ESC, 91] + p + [letter]);
      && r.1 == []
      && r.0.state == Normal && r.0.ptr == 0
      && r.0.colors == Control([91] + Stored(p), Trunc8(letter), f.colors)
  {
    var g := f.(state := Escaping, fmt := f.fmt[0 := 91], ptr := 1);
    OpenSequence(f);
    RunAppend(f, [ESC, 91], p + [letter]);
    assert [ESC, 91] + p + [letter] == [ESC, 91] + (p + [letter]);
    RunAppend(g, p, [letter]);
    ParametersAccumulate(g, p);
    var h := g.(fmt := g.fmt[..1] + Stored(p) + g.fmt[1 + |p|..], ptr := 1 + |p|);
    assert h.fmt[..h.ptr] == [91] + Stored(p);
    StoredPlain(p);
    assert forall k :: 1 <= k < h.ptr ==> h.fmt[k] == Stored(p)[k - 1];
    SealedParameters(h);
    assert Run(h, [letter]) == (Escape(h, letter), []);
  }

  /** "\033[31m" leaves the colours alone: only the proper prefixes "[" and
      "[3" of the last segment are applied, never "[31" itself. */
  lemma LastCodeIgnored(c: Colors)
    ensures Control([91, 51, 49], 109, c) == c
  {
    var s: seq<SChar> := [91, 51, 49];
    assert ParseAnsi(s[0..1]) == 0;
    assert ParseAnsi(s[0..2]) == 3 by { assert s[0..2][..1] == [91]; }
  }

  /** "\033[0m" changes nothing: code 0 is not a colour and is never applied in full anyway. */
  lemma ZeroCodeIgnored(c: Colors)
    ensures Control([91, 48], 109, c) == c
  {
    var s: seq<SChar> := [91, 48];
    assert ParseAnsi(s[0..1]) == 0;
  }

  /** "\033[31;m" does select red: the ';' applies the segment before it. */
  lemma SemicolonAppliesCode(c: Colors)
    ensures Control([91, 51, 49, 59], 109, c) == c.(fg := 4)
  {
    var s: seq<SChar> := [91, 51, 49, 59];
    assert ParseAnsi(s[0..1]) == 0;
    assert ParseAnsi(s[0..2]) == 3 by { assert s[0..2][..1] == [91]; }
    assert ParseAnsi(s[0..3]) == 31 by { assert s[0..3][..2] == s[0..2]; }
  }

  /** A whole sequence followed by plain text: the text alone reaches the console. */
  lemma SequenceThenText(f: Filter, p: seq<int>, letter: int, text: seq<int>)
    requires FilterOk(f) && f.state == Normal && f.ptr == 0
    requires |p| <= 98 && PlainParameters(p) && IsChar(letter)
    requires forall k :: 0 <= k < |text| ==> text[k] != ESC
    ensures var r := Run(f, [ESC, 91] + p + [letter] + text);
      && r.1 == text
      && r.0.state == Normal && r.0.ptr == 0
      && r.0.colors == Control([91] + Stored(p), Trunc8(letter), f.colors)
  {
    var a := [ESC, 91] + p + [letter];
    SequenceApplies(f, p, letter);
    RunAppend(f, a, text);
    PlainTextPassesThrough(Run(f, a).0, text);
  }

  /** "\033[31mRED\033[0m": exactly R, E, D reach the console and the
      colours end where they started, from any filter at rest. */
  lemma RedExample(f: Filter)
    requires FilterOk(f) && f.state == Normal && f.ptr == 0
    ensures var r := Run(f, [ESC, 91, 51, 49, 109, 82, 69, 68, ESC, 91, 48, 109]);
      r.1 == [82, 69, 68] && r.0.colors == f.colors
  {
    var a := [ESC, 91] + [51, 49] + [109] + [82, 69, 68];
    var c := [ESC, 91] + [48] + [109];
    assert [ESC, 91, 51, 49, 109, 82, 69, 68, ESC, 91, 48, 109] == a + c;
    assert [91] + Stored([51, 49]) == [91, 51, 49] && [91] + Stored([48]) == [91, 48];
    SequenceThenText(f, [51, 49], 109, [82, 69, 68]);
    LastCodeIgnored(f.colors);
    var f1 := Run(f, a).0;
    RunAppend(f, a, c);
    SequenceApplies(f1, [48], 109);
    ZeroCodeIgnored(f1.colors);
    assert [82, 69, 68] + [] == [82, 69, 68];
  }


  /** A sequence longer than the buffer: after ESC '[' and 99 characters that are not
      letters the filter is in overflow with the index at 99, and nothing was forwarded. */
  lemma LongSequenceOverflows(f: Filter, ds: seq<int>)
    requires FilterOk(f) && f.state == Normal && f.ptr == 0
    requires |ds| == 99 && forall k :: 0 <= k < |ds| ==> !IsChar(ds[k])
    ensures var r := Run(f, [ESC, 91] + ds);
      r.1 == [] && r.0.state == Overflow && r.0.ptr == 99 && r.0.colors == f.colors
  {
    var g := f.(state := Escaping, fmt := f.fmt[0 := 91], ptr := 1);
    OpenSequence(f);
    RunAppend(f, [ESC, 91], ds);
    assert ds == ds[..98] + ds[98..];
    RunAppend(g, ds[..98], ds[98..]);
    ParametersAccumulate(g, ds[..98]);
  }

  /** In overflow, characters that are not letters are dropped and change nothing. */
  lemma {:induction false} OverflowDiscards(f: Filter, ds: seq<int>)
    requires FilterOk(f) && f.state == Overflow
    requires forall k :: 0 <= k < |ds| ==> !IsChar(ds[k])
    ensures Run(f, ds) == (f, [])
    decreases |ds|
  {
    if ds != [] {
      OverflowStep(f, ds[0]);
      OverflowDiscards(f, ds[1..]);
      RunFirst(f, ds);
      assert Step(f, ds[0]).1 + Run(f, ds[1..]).1 == [];
    }
  }

  /** With the index left at 99, ESC '[' overflows at once. */
  lemma FullBufferOverflowsAtOnce(g: Filter)
    requires FilterOk(g) && g.state == Normal && g.ptr == 99
    ensures Run(g, [ESC, 91]) == (g.(state := Overflow), [])
  {
    var h := g.(state := Start);
    assert Step(g, ESC) == (h, []);
    assert Step(h, 91) == (g.(state := Overflow), []);
    assert [ESC, 91][1..] == [91];
    RunFirst(g, [ESC, 91]);
    RunFirst(h, [91]);
    assert [91][1..] == [];
    assert Run(h, [91]) == (g.(state := Overflow), [] + []);
    assert Run(g, [ESC, 91]) == (g.(state := Overflow), [] + ([] + []));
    var none: seq<int> := [];
    assert none + (none + none) == none;
  }

  /** After an overflow the index is never reset: the letter that ends it
      leaves the index at 99, so the next sequence overflows at its '[' and its
      colour codes are dropped, however short it is. */
  lemma SequenceAfterOverflowIgnored(f: Filter, letter: int, p: seq<int>, end: int)
    requires FilterOk(f) && f.state == Overflow && OverflowOnlyWhenFull(f)
    requires IsChar(letter) && IsChar(end) && forall k :: 0 <= k < |p| ==> !IsChar(p[k])
    ensures var r := Run(f, [letter, ESC, 91] + p + [end]);
      r.1 == [] && r.0.colors == f.colors && r.0.ptr == 99
  {
    var g := f.(state := Normal);
    var tail := p + [end];
    RunSingle(f, letter);
    OverflowStep(f, letter);
    FullBufferOverflowsAtOnce(g);
    OverflowDiscards(f, p);
    RunSingle(f, end);
    OverflowStep(f, end);
    RunAppend(f, p, [end]);
    RunAppend(g, [ESC, 91], tail);
    assert [letter, ESC, 91] + p + [end] == [letter] + ([ESC, 91] + tail);
    RunAppend(f, [letter], [ESC, 91] + tail);
  }

  /** A false start: after ESC, a character other than '[' is forwarded
      behind an ESC but the state stays at start, so every following
      character is forwarded behind another ESC until a letter arrives. */
  lemma FalseStartRepeatsEscape()
    ensures Run(INITIAL, [ESC, 49, 50]).1 == [ESC, 49, ESC, 50]
  {
    var f1 := INITIAL.(state := Start);
    var f2 := Store(f1, 49);
    assert Step(INITIAL, ESC) == (f1, []);
    assert Step(f1, 49) == (f2, [ESC, 49]);
    assert f2.state == Start;
    assert Run(INITIAL, [ESC, 49, 50]).1 == [] + Run(f1, [49, 50]).1;
    assert [49, 50][1..] == [50];
  }

  // The corrected machine. It makes three fixes:
  // - the start case gets its `break` plus `state = normal`, so a false start
  //   returns to normal and '[' is not stored;
  // - the last ';'-separated segment is applied in full, like every other;
  // - the letter that ends an overflow resets the index.

  /** Each ';'-separated segment of `s` parsed and applied once, in order. */
  function ApplyCodes(s: seq<SChar>, c: Colors): (r: Colors)
    ensures ColorsOk(c) ==> ColorsOk(r)
    decreases |s|
  {
    var j := NextSemi(s, 0);
    var c1 := ApplyColor(c, ParseAnsi(s[..j]));
    if j == |s| then c1 else ApplyCodes(s[j + 1..], c1)
  }

  /** Codes written as sequence parameters: in decimal, separated by ';'. */
  function Codes(ns: seq<nat>): seq<SChar>
    requires ns != []
    decreases |ns|
  {
    if |ns| == 1 then Decimal(ns[0]) else Decimal(ns[0]) + [59] + Codes(ns[1..])
  }

  /** apply_color on each code in turn. */
  function ApplyAll(c: Colors, ns: seq<nat>): Colors
    decreases |ns|
  {
    if ns == [] then c else ApplyAll(ApplyColor(c, ns[0]), ns[1..])
  }

  /** The corrected reading applies exactly the codes that were written, in order. */
  lemma {:induction false} ApplyCodesReadsEveryCode(ns: seq<nat>, c: Colors)
    requires ns != []
    ensures ApplyCodes(Codes(ns), c) == ApplyAll(c, ns)
    decreases |ns|
  {
    var d := Decimal(ns[0]);
    var s := Codes(ns);
    var j := NextSemi(s, 0);
    ParseAnsiDecimal(ns[0]);
    if |ns| == 1 {
      assert s == d;
      if j < |s| {
        assert false;
      }
      assert s[..j] == d;
    } else {
      assert s == d + [59] + Codes(ns[1..]);
      assert s[|d|] == 59;
      assert j <= |d|;
      if j < |d| {
        assert false;
      }
      assert s[..j] == d;
      assert s[j + 1..] == Codes(ns[1..]);
      ApplyCodesReadsEveryCode(ns[1..], ApplyColor(c, ns[0]));
    }
  }

  /** putch on one character, with the defects corrected: the start case
      ends with a `break` and also sets the state back to normal (the source's
      start case never assigns it), the escaping case applies every code, and
      the letter that ends an overflow resets the index. */
  function StepFixed(f: Filter, ch: int): (r: (Filter, seq<int>))
    requires FilterOk(f)
    ensures FilterOk(r.0)
  {
    match f.state
    case Normal => if ch == ESC then (f.(state := Start), []) else (f, [ch])
    case Start => if ch == 91 then (f.(state := Escaping), []) else (f.(state := Normal), [ESC, ch])
    case Escaping =>
      if IsChar(ch) then
        var b := Sealed(f);
        (Filter(Normal, b, 0, if Trunc8(ch) == 109 then ApplyCodes(CStr(b, 0), f.colors) else f.colors), [])
      else (Store(f, ch), [])
    case Overflow => (if IsChar(ch) then f.(state := Normal, ptr := 0) else f, [])
  }

  function RunFixed(f: Filter, chars: seq<int>): (r: (Filter, seq<int>))
    requires FilterOk(f)
    ensures FilterOk(r.0)
    decreases |chars|
  {
    if chars == [] then (f, [])
    else
      var s := StepFixed(f, chars[0]);
      var rest := RunFixed(s.0, chars[1..]);
      (rest.0, s.1 + rest.1)
  }

  lemma RunFixedFirst(f: Filter, chars: seq<int>)
    requires FilterOk(f) && chars != []
    ensures var st := StepFixed(f, chars[0]); var rest := RunFixed(st.0, chars[1..]);
      RunFixed(f, chars) == (rest.0, st.1 + rest.1)
  {
  }

  lemma RunFixedSingle(f: Filter, ch: int)
    requires FilterOk(f)
    ensures RunFixed(f, [ch]) == StepFixed(f, ch)
  {
    RunFixedFirst(f, [ch]);
    assert [ch][1..] == [];
    assert StepFixed(f, ch).1 + [] == StepFixed(f, ch).1;
  }

  lemma {:induction false} RunFixedAppend(f: Filter, a: seq<int>, b: seq<int>)
    requires FilterOk(f)
    ensures var ra := RunFixed(f, a); var rb := RunFixed(ra.0, b);
      RunFixed(f, a + b) == (rb.0, ra.1 + rb.1)
    decreases |a|
  {
    if a != [] {
      var st := StepFixed(f, a[0]);
      assert (a + b)[0] == a[0] && (a + b)[1..] == a[1..] + b;
      RunFixedAppend(st.0, a[1..], b);
      var ra' := RunFixed(st.0, a[1..]);
      var rb := RunFixed(ra'.0, b);
      assert RunFixed(f, a + b) == (rb.0, st.1 + (ra'.1 + rb.1));
      assert RunFixed(f, a) == (ra'.0, st.1 + ra'.1);
      assert st.1 + (ra'.1 + rb.1) == (st.1 + ra'.1) + rb.1;
    } else {
      assert a + b == b;
      assert [] + RunFixed(f, b).1 == RunFixed(f, b).1;
    }
  }

  /** Text without an escape character passes through the corrected machine too. */
  lemma {:induction false} FixedPlainText(f: Filter, text: seq<int>)
    requires FilterOk(f) && f.state == Normal
    requires forall k :: 0 <= k < |text| ==> text[k] != ESC
    ensures RunFixed(f, text) == (f, text)
    decreases |text|
  {
    if text != [] {
      FixedPlainText(f, text[1..]);
      RunFixedFirst(f, text);
      assert [text[0]] + text[1..] == text;
    }
  }

  /** Parameter characters are stored by both machines alike. */
  lemma {:induction false} FixedStoresAlike(f: Filter, ds: seq<int>)
    requires FilterOk(f) && f.state == Escaping
    requires forall k :: 0 <= k < |ds| ==> !IsChar(ds[k])
    requires f.ptr + |ds| <= 99
    ensures RunFixed(f, ds) == Run(f, ds)
    decreases |ds|
  {
    if ds != [] {
      RunFirst(f, ds);
      RunFixedFirst(f, ds);
      FixedStoresAlike(Store(f, ds[0]), ds[1..]);
    }
  }

  /** A false start is forwarded behind one ESC and the machine is back to
      normal, as the restored `break` together with `state = normal` makes it:
      the text after it reaches the console unchanged. */
  lemma FixedRecoversFalseStart(f: Filter, c: int, text: seq<int>)
    requires FilterOk(f) && f.state == Start && c != 91
    requires forall k :: 0 <= k < |text| ==> text[k] != ESC
    ensures RunFixed(f, [c] + text) == (f.(state := Normal), [ESC, c] + text)
  {
    var g := f.(state := Normal);
    assert StepFixed(f, c) == (g, [ESC, c]);
    RunFixedFirst(f, [c] + text);
    assert ([c] + text)[1..] == text;
    FixedPlainText(g, text);
  }

  /** ESC '[' in the corrected machine, from rest: escaping, with nothing stored. */
  lemma FixedOpenSequence(f: Filter)
    requires FilterOk(f) && f.state == Normal
    ensures RunFixed(f, [ESC, 91]) == (f.(state := Escaping), [])
  {
    var g := f.(state := Escaping);
    var h := f.(state := Start);
    assert StepFixed(f, ESC) == (h, []);
    assert StepFixed(h, 91) == (g, []);
    RunFixedFirst(f, [ESC, 91]);
    assert [ESC, 91][1..] == [91];
    RunFixedSingle(h, 91);
    var none: seq<int> := [];
    assert none + none == none;
  }

  /** Parameters and the letter 'm', in the corrected machine: the codes in p are applied once each. */
  lemma FixedParametersThenM(g: Filter, p: seq<int>)
    requires FilterOk(g) && g.state == Escaping && g.ptr == 0
    requires |p| <= 99 && PlainParameters(p)
    ensures var r := RunFixed(g, p + [109]);
      && r.1 == []
      && r.0.state == Normal && r.0.ptr == 0
      && r.0.colors == ApplyCodes(Stored(p), g.colors)
  {
    FixedStoresAlike(g, p);
    ParametersAccumulate(g, p);
    var h := g.(fmt := g.fmt[..0] + Stored(p) + g.fmt[|p|..], ptr := |p|);
    assert RunFixed(g, p) == (h, []);
    assert h.fmt[..h.ptr] == Stored(p);
    StoredPlain(p);
    SealedParameters(h);
    var done := Filter(Normal, Sealed(h), 0, ApplyCodes(Stored(p), g.colors));
    assert StepFixed(h, 109) == (done, []);
    RunFixedSingle(h, 109);
    RunFixedAppend(g, p, [109]);
  }

  /** A whole sequence ESC '[' p 'm' in the corrected machine, from rest:
      nothing is forwarded and the codes in p are applied once each. */
  lemma FixedSequenceApplies(f: Filter, p: seq<int>)
    requires FilterOk(f) && f.state == Normal && f.ptr == 0
    requires |p| <= 99 && PlainParameters(p)
    ensures var r := RunFixed(f, [ESC, 91] + p + [109]);
      && r.1 == []
      && r.0.state == Normal && r.0.ptr == 0
      && r.0.colors == ApplyCodes(Stored(p), f.colors)
  {
    FixedOpenSequence(f);
    FixedParametersThenM(f.(state := Escaping), p);
    RunFixedAppend(f, [ESC, 91], p + [109]);
    assert [ESC, 91] + p + [109] == [ESC, 91] + (p + [109]);
  }


  /** The letter that ends an overflow resets the index, so the next sequence is read in full. */
  lemma FixedOverflowRecovers(f: Filter, letter: int, p: seq<int>)
    requires FilterOk(f) && f.state == Overflow && IsChar(letter)
    requires |p| <= 99 && PlainParameters(p)
    ensures var r := RunFixed(f, [letter, ESC, 91] + p + [109]);
      r.1 == [] && r.0.colors == ApplyCodes(Stored(p), f.colors)
  {
    var g := f.(state := Normal, ptr := 0);
    var rest := [ESC, 91] + p + [109];
    assert [letter, ESC, 91] + p + [109] == [letter] + rest;
    assert StepFixed(f, letter) == (g, []);
    RunFixedSingle(f, letter);
    RunFixedAppend(f, [letter], rest);
    FixedSequenceApplies(g, p);
  }

  /** A whole sequence followed by plain text, in the corrected machine. */
  lemma FixedSequenceThenText(f: Filter, p: seq<int>, text: seq<int>)
    requires FilterOk(f) && f.state == Normal && f.ptr == 0
    requires |p| <= 99 && PlainParameters(p)
    requires forall k :: 0 <= k < |text| ==> text[k] != ESC
    ensures var r := RunFixed(f, [ESC, 91] + p + [109] + text);
      && r.1 == text
      && r.0.state == Normal && r.0.ptr == 0
      && r.0.colors == ApplyCodes(Stored(p), f.colors)
  {
    var a := [ESC, 91] + p + [109];
    FixedSequenceApplies(f, p);
    RunFixedAppend(f, a, text);
    FixedPlainText(RunFixed(f, a).0, text);
  }

  /** The stored parameters "31" and "0" read as the codes 31 and 0: red, and nothing. */
  lemma RedAndZeroCodes(c: Colors)
    ensures ApplyCodes(Stored([51, 49]), c) == c.(fg := 4)
    ensures ApplyCodes(Stored([48]), c) == c
  {
    assert Decimal(31) == Decimal(3) + [DigitChar(1)];
    assert Stored([51, 49]) == Codes([31]);
    assert Stored([48]) == Codes([0]);
    ApplyCodesReadsEveryCode([31], c);
    ApplyCodesReadsEveryCode([0], c);
  }

  /** "\033[31mRED\033[0m" in the corrected machine: R, E, D reach the console
      and the foreground becomes CGA red; code 0 is outside 30..49 and changes nothing. */
  lemma FixedRedExample(f: Filter)
    requires FilterOk(f) && f.state == Normal && f.ptr == 0
    ensures var r := RunFixed(f, [ESC, 91, 51, 49, 109, 82, 69, 68, ESC, 91, 48, 109]);
      r.1 == [82, 69, 68] && r.0.colors == f.colors.(fg := 4)
  {
    var a := [ESC, 91] + [51, 49] + [109] + [82, 69, 68];
    var c := [ESC, 91] + [48] + [109];
    assert [ESC, 91, 51, 49, 109, 82, 69, 68, ESC, 91, 48, 109] == a + c;
    RedAndZeroCodes(f.colors);
    FixedSequenceThenText(f, [51, 49], [82, 69, 68]);
    var r1 := RunFixed(f, a);
    assert r1.1 == [82, 69, 68] && r1.0.state == Normal && r1.0.ptr == 0 && r1.0.colors == f.colors.(fg := 4);
    RedAndZeroCodes(r1.0.colors);
    FixedSequenceApplies(r1.0, [48]);
    var r2 := RunFixed(r1.0, c);
    assert r2.1 == [] && r2.0.colors == r1.0.colors;
    RunFixedAppend(f, a, c);
    assert r1.1 + r2.1 == [82, 69, 68];
  }
}
