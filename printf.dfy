// The console filter of kern/printf.c as it runs: the globals `state`,
// `ansi_fmt`, `ansi_fmt_ptr`, `fg_color` and `bg_color` as the fields of one
// object, and putch, ansi_control, apply_color and parse_ansi as methods
// proved against the functions of module Ansi.

module Printf {
  import opened Chars
  import opened Ansi

  /** kern/printf.c `parse_ansi` over the bytes b[start..end]. */
  method ParseAnsiBytes(b: array<SChar>, start: int, end: int) returns (res: int)
    requires 0 <= start <= end <= b.Length
    ensures res == Ansi.ParseAnsi(b[start..end])
    ensures res == DecimalValue(DigitsOf(b[start..end]))
  {
    res := 0;
    var p := start;
    while p < end
      invariant start <= p <= end
      invariant res == Ansi.ParseAnsi(b[start..p])
    {
      assert b[start..p + 1][..p - start] == b[start..p];
      if IsDigit(b[p] as int) {
        res := res * 10;
        res := res + (b[p] as int - 0x30);
      }
      p := p + 1;
    }
    ParseAnsiReadsDigits(b[start..end]);
  }

  /** The filter's globals, and everything handed to cputchar so far. */
  class Console {
    var state: AnsiState
    const fmt: array<SChar>
    var ptr: int
    var fg: int
    var bg: int
    ghost var screen: seq<int>

    /** The globals as a value of the filter's functional model. */
    ghost function View(): Filter
      reads this, fmt
    {
      Filter(state, fmt[..], ptr, Colors(fg, bg))
    }

    /** The buffer has 100 bytes, the index stays inside it, the colours are palette indices. */
    ghost predicate Valid()
      reads this, fmt
    {
      FilterOk(View())
    }

    /** The globals as the kernel image starts with them. */
    constructor()
      ensures Valid() && View() == INITIAL && screen == []
    {
      state := Normal;
      fmt := new SChar[100](_ => 0);
      ptr := 0;
      fg := 7;
      bg := 0;
      screen := [];
      new;
      assert fmt[..] == seq(100, _ => 0);
    }

    /** kern/printf.c `apply_color`. */
    method ApplyColor(code: int)
      requires Valid()
      modifies this
      ensures Valid()
      ensures Colors(fg, bg) == Ansi.ApplyColor(old(Colors(fg, bg)), code)
      ensures state == old(state) && ptr == old(ptr) && screen == old(screen)
    {
      if 30 <= code < 40 {
        fg := ANSI2CGA[code - 30];
      } else if 40 <= code < 50 {
        bg := ANSI2CGA[code - 40];
      }
    }

    /** kern/printf.c `ansi_control` on the string in the buffer. */
    method AnsiControl(cmd: SChar)
      requires Valid() && Terminated(fmt[..], 0)
      modifies this
      ensures Valid()
      ensures Colors(fg, bg) == Control(CStr(fmt[..], 0), cmd, old(Colors(fg, bg)))
      ensures state == old(state) && ptr == old(ptr) && screen == old(screen)
    {
      if cmd == 109 {
        ghost var s := CStr(fmt[..], 0);
        var fs := 0;
        var back := 0;
        while fmt[back] != 0
          invariant 0 <= fs <= back <= |s|
          invariant Valid() && state == old(state) && ptr == old(ptr) && screen == old(screen)
          invariant ControlLoop(s, fs, back, Colors(fg, bg)) == Control(s, cmd, old(Colors(fg, bg)))
          decreases |s| - back
        {
          assert fmt[..][fs..back] == s[fs..back];
          if fmt[back] == 59 {
            var code := ParseAnsiBytes(fmt, fs, back);
            ApplyColor(code);
            fs := back + 1;
          }
          if fs < back {
            assert fmt[..][fs..back] == s[fs..back];
            var code := ParseAnsiBytes(fmt, fs, back);
            ApplyColor(code);
          }
          back := back + 1;
        }
      }
    }

    /** The `escaping` case of putch, which the `start` case falls into. */
    method EscapingCase(ch: int)
      requires Valid()
      modifies this, fmt
      ensures Valid() && View() == Escape(old(View()), ch) && screen == old(screen)
    {
      if IsChar(ch) {
        fmt[ptr] := 0;
        assert fmt[..] == Sealed(old(View()));
        AnsiControl(Trunc8(ch));
        ptr := 0;
        state := Normal;
      } else if ptr == 99 {
        state := Overflow;
      } else {
        fmt[ptr] := Trunc8(ch);
        ptr := ptr + 1;
      }
    }

    /** kern/printf.c `putch`: one step of the machine. The count behind
        `cnt` is not touched, since `*cnt++` only advances the local
        pointer; `cnt` is outside the frame, which is what says so. */
    method Putch(ch: int, cnt: array<int>)
      requires Valid()
      modifies this, fmt
      ensures Valid()
      ensures View() == Step(old(View()), ch).0
      ensures screen == old(screen) + Step(old(View()), ch).1
    {
      match state
      case Normal =>
        if ch == ESC {
          state := Start;
        } else {
          screen := screen + [ch];
        }
      case Start =>
        if ch == 91 {
          state := Escaping;
        } else {
          screen := screen + [ESC, ch];
        }
        EscapingCase(ch);
      case Escaping =>
        EscapingCase(ch);
      case Overflow =>
        if IsChar(ch) {
          state := Normal;
        }
    }

    /** kern/printf.c `vcprintf` on the characters vprintfmt produces: each
        goes through putch, and the count it returns stays 0. */
    method Vcprintf(chars: seq<int>) returns (count: int)
      requires Valid()
      modifies this, fmt
      ensures Valid()
      ensures count == 0
      ensures View() == Run(old(View()), chars).0
      ensures screen == old(screen) + Run(old(View()), chars).1
    {
      var cnt := new int[1];
      cnt[0] := 0;
      ghost var v0 := View();
      var i := 0;
      while i < |chars|
        invariant 0 <= i <= |chars|
        invariant Valid() && cnt[0] == 0
        invariant View() == Run(v0, chars[..i]).0
        invariant screen == old(screen) + Run(v0, chars[..i]).1
      {
        ghost var before := View();
        Putch(chars[i], cnt);
        RunAppend(v0, chars[..i], [chars[i]]);
        RunFirst(before, [chars[i]]);
        assert chars[..i + 1] == chars[..i] + [chars[i]];
        assert [chars[i]][1..] == [];
        i := i + 1;
      }
      assert chars[..i] == chars;
      count := cnt[0];
    }
  }
}
