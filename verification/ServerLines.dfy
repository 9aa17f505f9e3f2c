/** What a line of an ffserver configuration file reads as, letter by letter. */
module ServerLines {
  import opened Common
  import opened ServerConfig

  predicate Blanks(s: string) { forall i :: 0 <= i < |s| ==> IsSpace(s[i]) }

  /** A word that is neither quoted nor cut by white space. */
  predicate Bare(s: string) { |s| > 0 && !IsQuote(s[0]) && forall i :: 0 <= i < |s| ==> !IsSpace(s[i]) }

  /** Nothing, or white space and more. */
  predicate Behind(s: string) { |s| > 0 ==> IsSpace(s[0]) }

  /** The same letters but for the case of A to Z. */
  predicate SameLetters(a: string, b: string) {
    && |a| == |b|
    && forall i :: 0 <= i < |a| ==>
      || a[i] == b[i]
      || ('A' <= a[i] <= 'Z' && b[i] as int == a[i] as int + 32)
      || ('A' <= b[i] <= 'Z' && a[i] as int == b[i] as int + 32)
  }

  lemma SameWordIff(a: string, b: string)
    ensures SameWord(a, b) <==> SameLetters(a, b)
  {
    assert forall i :: 0 <= i < |a| && |a| == |b| ==>
      (Lower(a[i]) == Lower(b[i]) <==>
        || a[i] == b[i]
        || ('A' <= a[i] <= 'Z' && b[i] as int == a[i] as int + 32)
        || ('A' <= b[i] <= 'Z' && a[i] as int == b[i] as int + 32));
  }

  // ---------------------------------------------------------------------------------------------
  // The name in a tag

  /** The name is what stands before the last closing bracket; without one, a stream's name is all of it. */
  predicate NameIn(arg: string, kind: Kind, name: Option<string>) {
    if '>' in arg then
      && name.Some? && |name.value| < |arg| && name.value == arg[..|name.value|] && arg[|name.value|] == '>'
      && '>' !in arg[|name.value| + 1..]
    else name == if kind.Stream? then Some(arg) else None
  }

  lemma {:induction false} LastBracketIs(s: string)
    ensures match LastBracket(s)
      case Some(n) => n < |s| && s[n] == '>' && '>' !in s[n + 1..]
      case None => '>' !in s
  {
    if |s| == 0 || s[|s| - 1] == '>' {
    } else {
      var n := |s| - 1;
      LastBracketIs(s[..n]);
      assert s == s[..n] + [s[n]];
      match LastBracket(s[..n])
      case Some(k) => assert s[k + 1..] == s[..n][k + 1..] + [s[n]];
      case None =>
    }
  }

  lemma TagNameIs(kind: Kind, arg: string)
    ensures NameIn(arg, kind, TagName(kind, arg))
  {
    LastBracketIs(arg);
  }

  // ---------------------------------------------------------------------------------------------
  // Lines

  lemma {:induction false} SkipBlanks(blanks: string, s: string)
    requires Blanks(blanks) && (|s| > 0 ==> !IsSpace(s[0]))
    ensures SkipSpaces(blanks + s) == s
  {
    if |blanks| == 0 {
      assert blanks + s == s;
    } else {
      SkipBlanks(blanks[1..], s);
      assert (blanks + s)[1..] == blanks[1..] + s;
    }
  }

  lemma WordBehind(size: nat, blanks: string, word: string, rest: string)
    requires Blanks(blanks) && Bare(word) && |word| < size && Behind(rest)
    ensures GetArg(size, blanks + word + rest) == (word, rest)
  {
    BareReadBack(size, word, rest);
    SkipBlanks(blanks, word + rest);
    SkipBlanks("", word + rest);
    assert blanks + word + rest == blanks + (word + rest) && "" + (word + rest) == word + rest;
  }

  lemma NothingBehind(size: nat, blanks: string)
    requires Blanks(blanks) && size > 0
    ensures GetArg(size, blanks).0 == ""
  {
    SkipBlanks(blanks, "");
    assert blanks + "" == blanks;
  }

  /** What a command word stands for. */
  predicate Stands(word: string, arg: string, c: Command) {
    && (SameLetters(word, "<Feed") ==> c.Opens? && c.kind.Feed? && NameIn(arg, Feed, c.name))
    && (SameLetters(word, "<Stream") ==> c.Opens? && c.kind.Stream? && NameIn(arg, Stream, c.name))
    && (SameLetters(word, "<Redirect") ==> c.Opens? && c.kind.Redirect? && NameIn(arg, Redirect, c.name))
    && (SameLetters(word, "</Feed>") ==> c == Closes(Feed))
    && (SameLetters(word, "</Stream>") ==> c == Closes(Stream))
    && (SameLetters(word, "</Redirect>") ==> c == Closes(Redirect))
    && (SameLetters(word, "URL") ==> c == Url(arg))
    && (c == Directive <==> !IsSectionWord(word))
    && c != Blank
  }

  predicate IsSectionWord(word: string) {
    || SameLetters(word, "<Feed") || SameLetters(word, "<Stream") || SameLetters(word, "<Redirect")
    || SameLetters(word, "</Feed>") || SameLetters(word, "</Stream>") || SameLetters(word, "</Redirect>")
    || SameLetters(word, "URL")
  }

  /** No two of these words are the same. */
  lemma OneWord(word: string)
    ensures !(SameLetters(word, "<Stream") && SameLetters(word, "</Feed>"))
    ensures !(SameLetters(word, "<Redirect") && SameLetters(word, "</Stream>"))
  {
    if SameLetters(word, "<Stream") { assert word[1] == 'S' || word[1] == 's'; }
    if SameLetters(word, "<Redirect") { assert word[1] == 'R' || word[1] == 'r'; }
    if SameLetters(word, "</Feed>") { assert word[1] == '/'; }
    if SameLetters(word, "</Stream>") { assert word[1] == '/'; }
  }

  lemma ChosenStands(word: string, arg: string)
    ensures Stands(word, arg, Chosen(word, arg))
  {
    SameWordIff(word, "<Feed");
    SameWordIff(word, "<Stream");
    SameWordIff(word, "<Redirect");
    SameWordIff(word, "</Feed>");
    SameWordIff(word, "</Stream>");
    SameWordIff(word, "</Redirect>");
    SameWordIff(word, "URL");
    OneWord(word);
    TagNameIs(Feed, arg);
    TagNameIs(Stream, arg);
    TagNameIs(Redirect, arg);
  }

  lemma CommandIs(line: string, p: string, word: string, rest: string, arg: string)
    requires SkipSpaces(line) == p && |p| > 0 && p[0] != '#'
    requires GetArg(CMD_SIZE, p) == (word, rest) && GetArg(NAME_SIZE, rest).0 == arg
    ensures Stands(word, arg, CommandOf(line))
  {
    ChosenStands(word, arg);
  }

  /** A word that starts a line. */
  lemma FirstWord(lead: string, word: string, rest: string)
    requires Blanks(lead) && Bare(word) && |word| < CMD_SIZE && Behind(rest)
    ensures SkipSpaces(lead + word + rest) == word + rest && GetArg(CMD_SIZE, word + rest) == (word, rest)
  {
    assert lead + word + rest == lead + (word + rest);
    SkipBlanks(lead, word + rest);
    WordBehind(CMD_SIZE, "", word, rest);
    assert "" + word + rest == word + rest;
  }

  /** White space, a word, white space, an argument: the command the word stands for. What follows is not read. */
  lemma LineMeans(lead: string, word: string, blanks: string, arg: string, rest: string)
    requires Blanks(lead) && Blanks(blanks) && |blanks| > 0 && Behind(rest)
    requires Bare(word) && |word| < CMD_SIZE && word[0] != '#' && Bare(arg) && |arg| < NAME_SIZE
    ensures Stands(word, arg, CommandOf(lead + word + (blanks + arg + rest)))
  {
    var behind := blanks + arg + rest;
    FirstWord(lead, word, behind);
    WordBehind(NAME_SIZE, blanks, arg, rest);
    CommandIs(lead + word + behind, word + behind, word, behind, arg);
  }

  /** A word alone is read with an empty argument. */
  lemma WordAloneMeans(lead: string, word: string, blanks: string)
    requires Blanks(lead) && Blanks(blanks) && Bare(word) && |word| < CMD_SIZE && word[0] != '#'
    ensures Stands(word, "", CommandOf(lead + word + blanks))
  {
    FirstWord(lead, word, blanks);
    NothingBehind(NAME_SIZE, blanks);
    CommandIs(lead + word + blanks, word + blanks, word, blanks, "");
  }

  /** White space alone, or a comment behind it, asks for nothing. */
  lemma BlankMeans(lead: string, rest: string)
    requires Blanks(lead) && (|rest| > 0 ==> rest[0] == '#')
    ensures CommandOf(lead + rest) == Blank
  {
    SkipBlanks(lead, rest);
  }

  // ---------------------------------------------------------------------------------------------
  // Names that clash

  /** No section has the name, or for a feed none that does not stand before every feed. */
  predicate NameIsFree(before: seq<Entry>, kind: Kind, name: string) {
    match kind
    case Stream => forall j :: 0 <= j < |before| ==> before[j].name != name
    case Feed => forall i, j :: 0 <= i <= j < |before| && before[i].kind.Feed? ==> before[j].name != name
    case Redirect => true
  }

  lemma {:induction false} NoNameClashes(entries: seq<Entry>, name: string)
    ensures NameClashes(entries, name) == 0 <==> forall j :: 0 <= j < |entries| ==> entries[j].name != name
  {
    if |entries| == 0 {
    } else {
      NoNameClashes(entries[1..], name);
      assert forall j :: 1 <= j < |entries| ==> entries[j] == entries[1..][j - 1];
    }
  }

  lemma {:induction false} NoFeedClashes(entries: seq<Entry>, name: string)
    ensures FeedClashes(entries, name) == 0 <==> NameIsFree(entries, Feed, name)
  {
    if |entries| == 0 {
    } else if entries[0].kind.Feed? {
      NoNameClashes(entries, name);
    } else {
      var rest := entries[1..];
      NoFeedClashes(rest, name);
      assert forall j :: 1 <= j < |entries| ==> entries[j] == rest[j - 1];
      if NameIsFree(entries, Feed, name) {
        forall i, j | 0 <= i <= j < |rest| && rest[i].kind.Feed? ensures rest[j].name != name {
          assert entries[i + 1].kind.Feed? && entries[j + 1].name != name;
        }
      }
    }
  }

  /** An opening tag reports no clash exactly if its name is free. */
  lemma ClashFreeIff(before: seq<Entry>, kind: Kind, name: string)
    ensures Clashes(before, Entry(kind, name)) == 0 <==> NameIsFree(before, kind, name)
  {
    NoNameClashes(before, name);
    NoFeedClashes(before, name);
  }
}
