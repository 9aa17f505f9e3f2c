/**
 The command line in a report file: dump_argument and the loop around it in cmdutils.c.

 Arguments are byte strings without NUL, written as characters of one byte each. The printed line is
 shown to be uniquely decodable, by a decoder that knows only the quoting rules.
 */
module ReportLine {
  import opened Common

  /** A C string: bytes other than NUL. */
  predicate IsArgument(a: string) { forall i :: 0 <= i < |a| ==> IsByte(a[i]) }

  predicate IsByte(c: char) { 0 < c as int < 0x100 }

  predicate AreArguments(argv: seq<string>) { forall i :: 0 <= i < |argv| ==> IsArgument(argv[i]) }

  // ---------------------------------------------------------------------------------------------
  // Printing

  /** Characters that need no quoting. */
  predicate Plain(c: char) {
    '+' <= c <= ':' || '@' <= c <= 'Z' || c == '_' || 'a' <= c <= 'z'
  }

  predicate AllPlain(a: string) { forall i :: 0 <= i < |a| ==> Plain(a[i]) }

  predicate NeedsBackslash(c: char) { c == '\\' || c == '"' || c == '$' || c == '`' }

  function HexDigit(n: int): char
    requires 0 <= n < 16
  {
    "0123456789abcdef"[n]
  }

  /** One character inside quotes; other bytes are printed as \\x and two digits. */
  function Escaped(c: char): string
    requires IsByte(c)
  {
    if NeedsBackslash(c) then ['\\', c]
    else if c < ' ' || c > '~' then ['\\', 'x', HexDigit(c as int / 16), HexDigit(c as int % 16)]
    else [c]
  }

  function EscapedAll(a: string): string
    requires IsArgument(a)
  {
    if a == [] then [] else EscapedAll(a[..|a| - 1]) + Escaped(a[|a| - 1])
  }

  function Dumped(a: string): string
    requires IsArgument(a)
  {
    if AllPlain(a) then a else ['"'] + EscapedAll(a) + ['"']
  }

  /** The report line: arguments separated by blanks, ended by a newline. */
  function Line(argv: seq<string>): string
    requires AreArguments(argv)
  {
    if argv == [] then [] else Dumped(argv[0]) + [if |argv| > 1 then ' ' else '\n'] + Line(argv[1..])
  }

  class Report {
    var file: string

    constructor ()
      ensures file == []
    {
      file := [];
    }

    method DumpQuoted(c: char)
      requires IsByte(c)
      modifies this
      ensures file == old(file) + Escaped(c)
    {
      if c == '\\' || c == '"' || c == '$' || c == '`' {
        file := file + ['\\', c];
      } else if c < ' ' || c > '~' {
        file := file + ['\\', 'x', HexDigit(c as int / 16), HexDigit(c as int % 16)];
      } else {
        file := file + [c];
      }
    }

    /** The second loop, with its quotes. */
    method DumpEscaped(a: string)
      requires IsArgument(a)
      modifies this
      ensures file == old(file) + (['"'] + EscapedAll(a) + ['"'])
    {
      file := file + ['"'];
      var p := 0;
      while p < |a|
        invariant 0 <= p <= |a| && file == old(file) + ['"'] + EscapedAll(a[..p])
      {
        assert a[..p + 1][..p] == a[..p];
        DumpQuoted(a[p]);
        p := p + 1;
      }
      assert a[..p] == a;
      file := file + ['"'];
    }

    method DumpArgument(a: string)
      requires IsArgument(a)
      modifies this
      ensures file == old(file) + Dumped(a)
    {
      var p := 0;
      while p < |a| && Plain(a[p])
        invariant 0 <= p <= |a| && AllPlain(a[..p])
      {
        p := p + 1;
      }
      if p == |a| {
        assert a[..p] == a;
        file := file + a;
        return;
      }
      assert !AllPlain(a);
      DumpEscaped(a);
    }

    /** The loop of parse_loglevel. */
    method DumpCommandLine(argv: seq<string>)
      requires AreArguments(argv)
      modifies this
      ensures file == old(file) + Line(argv)
    {
      var i := 0;
      while i < |argv|
        invariant 0 <= i <= |argv| && file + Line(argv[i..]) == old(file) + Line(argv)
      {
        assert argv[i..][1..] == argv[i + 1..];
        DumpArgument(argv[i]);
        file := file + [if i < |argv| - 1 then ' ' else '\n'];
        i := i + 1;
      }
    }
  }

  // ---------------------------------------------------------------------------------------------
  // Decoding

  function DigitValue(c: char): Option<int> {
    if '0' <= c <= '9' then Some(c as int - '0' as int)
    else if 'a' <= c <= 'f' then Some(c as int - 'a' as int + 10)
    else None
  }

  /** The text of an argument and what follows it. */
  datatype Decoded = Decoded(text: string, rest: string) | Bad

  function Before(c: char, d: Decoded): (e: Decoded)
    ensures d.Decoded? ==> e.Decoded? && e.rest == d.rest
  {
    if d.Decoded? then d.(text := [c] + d.text) else Bad
  }

  /** Inside quotes, up to the closing one. */
  function Unquote(s: string): (d: Decoded)
    ensures d.Decoded? ==> |d.rest| < |s|
  {
    if s == [] then Bad
    else if s[0] == '"' then Decoded([], s[1..])
    else if s[0] != '\\' then Before(s[0], Unquote(s[1..]))
    else if |s| < 2 then Bad
    else if s[1] != 'x' then Before(s[1], Unquote(s[2..]))
    else if |s| < 4 || DigitValue(s[2]).None? || DigitValue(s[3]).None? then Bad
    else Before((DigitValue(s[2]).value * 16 + DigitValue(s[3]).value) as char, Unquote(s[4..]))
  }

  /** Without quotes, up to a blank or newline. */
  function Bare(s: string): (d: Decoded)
    ensures d.Decoded? ==> |d.rest| <= |s|
  {
    if s == [] || s[0] == ' ' || s[0] == '\n' then Decoded([], s) else Before(s[0], Bare(s[1..]))
  }

  function ReadArgument(s: string): Decoded {
    if s != [] && s[0] == '"' then Unquote(s[1..]) else Bare(s)
  }

  /** A whole line: arguments separated by single blanks, up to the newline. */
  function ReadLine(s: string): Option<seq<string>>
    decreases |s|
  {
    var d := ReadArgument(s);
    if d.Bad? || d.rest == [] then None
    else if d.rest[0] == '\n' then (if |d.rest| == 1 then Some([d.text]) else None)
    else if d.rest[0] != ' ' then None
    else match ReadLine(d.rest[1..]) case Some(rest) => Some([d.text] + rest) case None => None
  }

  lemma HexRoundTrip(c: char)
    requires IsByte(c)
    ensures var h, l := HexDigit(c as int / 16), HexDigit(c as int % 16);
      DigitValue(h) == Some(c as int / 16) && DigitValue(l) == Some(c as int % 16)
  {
  }

  lemma {:induction false} UnquoteOne(c: char, s: string)
    requires IsByte(c)
    ensures Unquote(Escaped(c) + s) == Before(c, Unquote(s))
  {
    HexRoundTrip(c);
    var e := Escaped(c);
    assert (e + s)[|e|..] == s;
  }

  lemma {:induction false} EscapedCons(a: string)
    requires IsArgument(a)
    requires a != []
    ensures EscapedAll(a) == Escaped(a[0]) + EscapedAll(a[1..])
  {
    if |a| > 1 {
      var front, middle, end := a[..|a| - 1], a[1..|a| - 1], Escaped(a[|a| - 1]);
      EscapedCons(front);
      assert front[1..] == middle == a[1..][..|a| - 2];
      Regroup(Escaped(a[0]), EscapedAll(middle), end);
    } else {
      assert a[..0] == [] && a[1..] == [];
    }
  }

  lemma {:induction false} UnquoteAll(a: string, s: string)
    requires IsArgument(a)
    ensures Unquote(EscapedAll(a) + ['"'] + s) == Decoded(a, s)
  {
    if a != [] {
      EscapedCons(a);
      UnquoteAll(a[1..], s);
      assert EscapedAll(a) + ['"'] + s == Escaped(a[0]) + (EscapedAll(a[1..]) + ['"'] + s);
      UnquoteOne(a[0], EscapedAll(a[1..]) + ['"'] + s);
      assert [a[0]] + a[1..] == a;
    } else {
      assert ([] + ['"'] + s)[1..] == s;
    }
  }

  lemma {:induction false} BareAll(a: string, s: string)
    requires AllPlain(a) && s != [] && (s[0] == ' ' || s[0] == '\n')
    ensures Bare(a + s) == Decoded(a, s)
  {
    if a != [] {
      BareAll(a[1..], s);
      assert (a + s)[1..] == a[1..] + s;
      assert [a[0]] + a[1..] == a;
    } else {
      assert [] + s == s;
    }
  }

  lemma ArgumentDecodes(a: string, s: string)
    requires IsArgument(a)
    requires s != [] && (s[0] == ' ' || s[0] == '\n')
    ensures ReadArgument(Dumped(a) + s) == Decoded(a, s)
  {
    if AllPlain(a) {
      BareAll(a, s);
      assert (a + s)[0] == if a == [] then s[0] else a[0];
    } else {
      QuotedDecodes(a, s);
    }
  }

  lemma QuotedDecodes(a: string, s: string)
    requires IsArgument(a) && !AllPlain(a)
    ensures ReadArgument(Dumped(a) + s) == Decoded(a, s)
  {
    var inner := EscapedAll(a) + ['"'] + s;
    UnquoteAll(a, s);
    assert Dumped(a) + s == ['"'] + inner;
    assert (['"'] + inner)[1..] == inner;
  }

  /** The decoder recovers the exact argument list, empty arguments included. */
  lemma {:induction false} LineDecodes(argv: seq<string>)
    requires AreArguments(argv) && argv != []
    ensures ReadLine(Line(argv)) == Some(argv)
    decreases |argv|
  {
    var rest := [if |argv| > 1 then ' ' else '\n'] + Line(argv[1..]);
    assert Line(argv) == Dumped(argv[0]) + rest;
    ArgumentDecodes(argv[0], rest);
    assert rest[1..] == Line(argv[1..]);
    if |argv| > 1 {
      LineDecodes(argv[1..]);
      assert [argv[0]] + argv[1..] == argv;
    } else {
      assert argv == [argv[0]];
    }
  }

  /** A report line holds printable characters only, but for the single newline that ends it. */
  predicate Printable(s: string) { forall i :: 0 <= i < |s| ==> ' ' <= s[i] <= '~' }

  lemma {:induction false} EscapedPrintable(a: string)
    requires IsArgument(a)
    ensures Printable(EscapedAll(a))
  {
    if a == [] {
    } else {
      EscapedPrintable(a[..|a| - 1]);
      HexRoundTrip(a[|a| - 1]);
    }
  }

  /** The line without its newline. */
  function Body(argv: seq<string>): string
    requires AreArguments(argv)
  {
    if argv == [] then [] else Dumped(argv[0]) + (if |argv| > 1 then [' '] + Body(argv[1..]) else [])
  }

  lemma {:induction false} LinePrintable(argv: seq<string>)
    requires AreArguments(argv) && argv != []
    ensures Line(argv) == Body(argv) + ['\n'] && Printable(Body(argv))
    decreases |argv|
  {
    EscapedPrintable(argv[0]);
    var head := Dumped(argv[0]);
    assert Printable(head);
    if |argv| > 1 {
      LinePrintable(argv[1..]);
      var body := Body(argv[1..]);
      Regroup(head, [' '], body);
      Regroup(head + [' '], body, ['\n']);
    } else {
      assert head + ['\n'] + [] == (head + []) + ['\n'];
    }
  }
}
