/**
 The section structure of an ffserver configuration file: ffserver_get_arg, ffserver_parse_ffconfig and
 the opening and closing arms of the section parsers in ffserver_config.c.

 What the other directives do is an oracle: how many errors a line reports, and whether it ends the parse.
 */
module ServerConfig {
  import opened Common

  // ---------------------------------------------------------------------------------------------
  // Words

  predicate IsSpace(c: char) { c == ' ' || 9 <= c as int <= 13 }

  function SkipSpaces(s: string): (t: string)
    ensures |t| <= |s| && (t != [] ==> !IsSpace(t[0]))
  {
    if s != [] && IsSpace(s[0]) then SkipSpaces(s[1..]) else s
  }

  predicate IsQuote(c: char) { c == '"' || c == '\'' }

  /** Where a word ends: at its closing quote, or at white space. */
  predicate Ends(quote: Option<char>, c: char) {
    if quote.Some? then c == quote.value else IsSpace(c)
  }

  /** The length of the word at the start of s. */
  function Extent(quote: Option<char>, s: string): (n: nat)
    ensures n <= |s| && (n < |s| ==> Ends(quote, s[n])) && forall i :: 0 <= i < n ==> !Ends(quote, s[i])
  {
    if s == [] || Ends(quote, s[0]) then 0 else 1 + Extent(quote, s[1..])
  }

  /** The word, cut to the buffer, and what follows it. */
  function GetArg(size: nat, s: string): (string, string)
    requires size > 0
  {
    var t := SkipSpaces(s);
    if t != [] && IsQuote(t[0]) then
      var u, n := t[1..], Extent(Some(t[0]), t[1..]);
      (u[..Min(n, size - 1)], if n < |u| then u[n + 1..] else u[n..])
    else
      var n := Extent(None, t);
      (t[..Min(n, size - 1)], t[n..])
  }

  /** ffserver_get_arg. */
  method ReadArg(size: nat, s: string) returns (buf: string, rest: string)
    requires size > 0
    ensures (buf, rest) == GetArg(size, s)
  {
    var p := s;
    while p != [] && IsSpace(p[0])
      invariant SkipSpaces(p) == SkipSpaces(s)
      decreases |p|
    {
      p := p[1..];
    }
    var quote: Option<char> := None;
    if p != [] && IsQuote(p[0]) {
      quote := Some(p[0]);
      p := p[1..];
    }
    buf, p := ReadWord(size, quote, p);
    if quote.Some? && p != [] { p := p[1..]; }
    rest := p;
  }

  /** Its second loop, up to the end of the word. */
  method ReadWord(size: nat, quote: Option<char>, u: string) returns (buf: string, p: string)
    requires size > 0
    ensures var n := Extent(quote, u); buf == u[..Min(n, size - 1)] && p == u[n..]
  {
    p, buf := u, "";
    ghost var n := 0;
    while p != [] && !Ends(quote, p[0])
      invariant n <= |u| && p == u[n..] && |buf| == Min(n, size - 1) && buf == u[..|buf|]
      invariant n + Extent(quote, p) == Extent(quote, u)
      decreases |p|
    {
      if |buf| < size - 1 { buf := buf + [p[0]]; }
      p := p[1..];
      n := n + 1;
    }
  }

  lemma {:induction false} ExtentOf(quote: Option<char>, word: string, rest: string)
    requires forall i :: 0 <= i < |word| ==> !Ends(quote, word[i])
    requires rest == [] || Ends(quote, rest[0])
    ensures Extent(quote, word + rest) == |word|
  {
    if word != [] {
      ExtentOf(quote, word[1..], rest);
      assert (word + rest)[1..] == word[1..] + rest;
    } else {
      assert word + rest == rest;
    }
  }

  /** A quoted word is read back whole, blanks and all, unless it holds its own quote or fills the buffer. */
  lemma QuotedReadBack(size: nat, quote: char, word: string, rest: string)
    requires |word| < size && IsQuote(quote) && quote !in word
    ensures GetArg(size, [quote] + word + [quote] + rest) == (word, rest)
  {
    var s := [quote] + word + [quote] + rest;
    var u := word + ([quote] + rest);
    assert !IsSpace(quote) && SkipSpaces(s) == s && s[1..] == u;
    ExtentOf(Some(quote), word, [quote] + rest);
    assert u[..|word|] == word && u[|word| + 1..] == rest;
  }

  /** So is a bare word: no blanks, no quote in front. */
  lemma BareReadBack(size: nat, word: string, rest: string)
    requires 0 < |word| < size && !IsQuote(word[0]) && forall i :: 0 <= i < |word| ==> !IsSpace(word[i])
    requires rest == [] || IsSpace(rest[0])
    ensures GetArg(size, word + rest) == (word, rest)
  {
    ExtentOf(None, word, rest);
    assert SkipSpaces(word + rest) == word + rest;
    assert (word + rest)[|word|..] == rest;
  }

  // ---------------------------------------------------------------------------------------------
  // Commands

  datatype Kind = Feed | Stream | Redirect

  /** What a line asks for. A name is missing when the tag has no closing bracket where one is required. */
  datatype Command =
    | Blank
    | Opens(kind: Kind, name: Option<string>)
    | Closes(kind: Kind)
    | Url(arg: string)
    | Directive

  function Lower(c: char): char { if 'A' <= c <= 'Z' then (c as int + 32) as char else c }

  predicate SameWord(a: string, b: string) {
    |a| == |b| && forall i :: 0 <= i < |a| ==> Lower(a[i]) == Lower(b[i])
  }

  /** strrchr(name, '>'), and the name cut there. */
  function LastBracket(name: string): Option<nat> {
    if name == [] then None
    else if name[|name| - 1] == '>' then Some(|name| - 1)
    else LastBracket(name[..|name| - 1])
  }

  function TagName(kind: Kind, name: string): Option<string> {
    match LastBracket(name)
    case Some(n) => if n <= |name| then Some(name[..n]) else None
    case None => if kind.Stream? then Some(name) else None
  }

  const CMD_SIZE := 64
  const NAME_SIZE := 1024

  /** The command that a word with its argument stands for. */
  function Chosen(word: string, arg: string): Command {
    if SameWord(word, "<Feed") then Opens(Feed, TagName(Feed, arg))
    else if SameWord(word, "<Stream") then Opens(Stream, TagName(Stream, arg))
    else if SameWord(word, "<Redirect") then Opens(Redirect, TagName(Redirect, arg))
    else if SameWord(word, "</Feed>") then Closes(Feed)
    else if SameWord(word, "</Stream>") then Closes(Stream)
    else if SameWord(word, "</Redirect>") then Closes(Redirect)
    else if SameWord(word, "URL") then Url(arg)
    else Directive
  }

  function CommandOf(line: string): Command {
    var p := SkipSpaces(line);
    if p == [] || p[0] == '#' then Blank
    else
      var (word, rest) := GetArg(CMD_SIZE, p);
      Chosen(word, GetArg(NAME_SIZE, rest).0)
  }

  // ---------------------------------------------------------------------------------------------
  // The parse as transitions

  /** A section as it stands in the stream list. */
  datatype Entry = Entry(kind: Kind, name: string)

  /** What a directive on a line does: errors reported, and an error code that ends the parse. */
  datatype Effect = Effect(errors: nat, fatal: Option<int>)

  datatype Status = Going | Fatal(code: int) | Crashed

  /** tagErrors are the errors of the section structure, otherErrors all others; hasUrl is the open redirect's. */
  datatype State = State(
    open: Option<Kind>, entries: seq<Entry>, hasUrl: bool, tagErrors: nat, otherErrors: nat, status: Status)

  const START := State(None, [], false, 0, 0, Going)

  /** Entries of that name from the first feed on: the duplicate check for feeds walks the stream list from there. */
  function FeedClashes(entries: seq<Entry>, name: string): nat {
    if entries == [] then 0
    else if entries[0].kind.Feed? then NameClashes(entries, name)
    else FeedClashes(entries[1..], name)
  }

  function NameClashes(entries: seq<Entry>, name: string): nat {
    if entries == [] then 0
    else (if entries[0].name == name then 1 else 0) + NameClashes(entries[1..], name)
  }

  /** What the duplicate check for feeds is for: the feeds of that name. */
  function FeedsNamed(entries: seq<Entry>, name: string): nat {
    if |entries| == 0 then 0
    else (if entries[0].kind.Feed? && entries[0].name == name then 1 else 0) + FeedsNamed(entries[1..], name)
  }

  /** Entry j, not a feed, has that name and stands behind a feed. */
  predicate Mistaken(entries: seq<Entry>, name: string, i: int, j: int) {
    0 <= i < j < |entries| && entries[i].kind.Feed? && !entries[j].kind.Feed? && entries[j].name == name
  }

  lemma {:induction false} NamesAndFeeds(entries: seq<Entry>, name: string)
    ensures NameClashes(entries, name) >= FeedsNamed(entries, name)
    ensures NameClashes(entries, name) == FeedsNamed(entries, name) <==>
      forall j :: 0 <= j < |entries| && entries[j].name == name ==> entries[j].kind.Feed?
  {
    if |entries| == 0 {
    } else {
      var rest := entries[1..];
      NamesAndFeeds(rest, name);
      assert forall j :: 0 <= j < |rest| ==> rest[j] == entries[j + 1];
      assert (forall j :: 0 <= j < |entries| && entries[j].name == name ==> entries[j].kind.Feed?) <==>
        (entries[0].name == name ==> entries[0].kind.Feed?) &&
        (forall j :: 0 <= j < |rest| && rest[j].name == name ==> rest[j].kind.Feed?) by {
        assert forall j :: 1 <= j < |entries| ==> entries[j] == rest[j - 1];
      }
    }
  }

  /** The check for feeds counts wrongly exactly when a stream or redirect of that name stands behind a feed. */
  lemma {:induction false} FeedClashesWrongIff(entries: seq<Entry>, name: string)
    ensures FeedClashes(entries, name) != FeedsNamed(entries, name) <==> exists i, j :: Mistaken(entries, name, i, j)
  {
    if |entries| == 0 {
    } else if entries[0].kind.Feed? {
      NamesAndFeeds(entries, name);
      assert forall j :: 0 <= j < |entries| && entries[j].name == name && !entries[j].kind.Feed? ==>
        Mistaken(entries, name, 0, j);
    } else {
      var rest := entries[1..];
      FeedClashesWrongIff(rest, name);
      assert forall i, j :: Mistaken(rest, name, i, j) ==> Mistaken(entries, name, i + 1, j + 1);
      assert forall i, j :: Mistaken(entries, name, i, j) ==> Mistaken(rest, name, i - 1, j - 1);
    }
  }

  /** With a feed a and a stream b, a new feed b is refused although no feed has that name. */
  lemma FeedClashesWitness()
    ensures var entries := [Entry(Feed, "a"), Entry(Stream, "b")];
      FeedClashes(entries, "b") == 1 && FeedsNamed(entries, "b") == 0
  {
    var entries := [Entry(Feed, "a"), Entry(Stream, "b")];
    assert entries[1..] == [Entry(Stream, "b")] && [Entry(Stream, "b")][1..] == [];
  }

  function Clashes(entries: seq<Entry>, e: Entry): nat {
    match e.kind
    case Feed => FeedClashes(entries, e.name)
    case Stream => NameClashes(entries, e.name)
    case Redirect => 0
  }

  function Step(s: State, cmd: Command, effect: Effect): State {
    if !s.status.Going? then s
    else
      match cmd
      case Blank => s
      case Opens(kind, name) =>
        if s.open.Some? then s.(tagErrors := s.tagErrors + 1)
        else if name.None? then s.(status := Crashed)
        else
          var e := Entry(kind, name.value);
          s.(open := Some(kind), entries := s.entries + [e], hasUrl := false,
             otherErrors := s.otherErrors + Clashes(s.entries, e))
      case Closes(kind) =>
        if s.open != Some(kind) then s.(tagErrors := s.tagErrors + 1)
        else
          var errors := match kind
            case Feed => 0
            case Stream => effect.errors
            case Redirect => if s.hasUrl then 0 else 1;
          s.(open := None, hasUrl := false, otherErrors := s.otherErrors + errors)
      case Url(arg) =>
        if s.open == Some(Redirect) then s.(hasUrl := arg != []) else Applied(s, effect)
      case Directive =>
        if s.open == Some(Redirect) then s.(otherErrors := s.otherErrors + 1) else Applied(s, effect)
  }

  /** A directive outside any section, in a feed, or in a stream; outside, its return value is ignored. */
  function Applied(s: State, effect: Effect): State {
    s.(otherErrors := s.otherErrors + effect.errors,
       status := if s.open.Some? && effect.fatal.Some? then Fatal(effect.fatal.value) else Going)
  }

  /** The state after the lines from i on; a line's effect may depend on its number. */
  function ParseFrom(lines: seq<string>, effects: nat -> Effect, i: nat, s: State): State
    requires i <= |lines|
    decreases |lines| - i
  {
    if i == |lines| then s else ParseFrom(lines, effects, i + 1, Step(s, CommandOf(lines[i]), effects(i)))
  }

  /** The error for a section left open. */
  function Ended(s: State): State {
    if !s.status.Crashed? && s.open.Some? then s.(tagErrors := s.tagErrors + 1) else s
  }

  datatype Verdict = Accepted | HasErrors | Stopped(code: int) | Crash

  function VerdictOf(s: State): Verdict {
    match s.status
    case Crashed => Crash
    case Fatal(code) => Stopped(code)
    case Going => if s.tagErrors + s.otherErrors > 0 then HasErrors else Accepted
  }

  function Parsed(lines: seq<string>, effects: nat -> Effect): State {
    Ended(ParseFrom(lines, effects, 0, START))
  }

  // ---------------------------------------------------------------------------------------------
  // The code

  /** FFServerStream: a section and its place in the two lists. The ghost positions keep the nodes apart. */
  class Section {
    const kind: Kind
    const name: string
    ghost const position: nat
    ghost const feedPosition: nat
    var next: Section?
    var nextFeed: Section?

    constructor (kind: Kind, name: string, ghost position: nat, ghost feedPosition: nat)
      ensures this.kind == kind && this.name == name && next == null && nextFeed == null
      ensures this.position == position && this.feedPosition == feedPosition
    {
      this.kind, this.name, this.position, this.feedPosition := kind, name, position, feedPosition;
      next, nextFeed := null, null;
    }
  }

  function EntryOf(node: Section): Entry { Entry(node.kind, node.name) }

  /** The stream list as values. */
  ghost predicate AllIn(nodes: seq<Section>, repr: set<Section>) { forall i :: 0 <= i < |nodes| ==> nodes[i] in repr }

  lemma AllInSnoc(nodes: seq<Section>, repr: set<Section>, node: Section)
    requires AllIn(nodes, repr)
    ensures AllIn(nodes, repr + {node}) && AllIn(nodes + [node], repr + {node})
  {
  }

  lemma DescribesSnoc(entries: seq<Entry>, nodes: seq<Section>, node: Section)
    requires Describes(entries, nodes)
    ensures Describes(entries + [EntryOf(node)], nodes + [node])
  {
  }

  predicate Describes(entries: seq<Entry>, nodes: seq<Section>) {
    |entries| == |nodes| && forall i :: 0 <= i < |nodes| ==> entries[i] == EntryOf(nodes[i])
  }

  /** The feeds among them, in order. */
  function FeedsOf(nodes: seq<Section>): seq<Section> {
    if nodes == [] then []
    else FeedsOf(nodes[..|nodes| - 1]) + (if nodes[|nodes| - 1].kind.Feed? then [nodes[|nodes| - 1]] else [])
  }

  /** FFServerConfig's two lists with the tail pointers of ffserver_parse_ffconfig; a null tail stands for the head. */
  class Lists {
    var firstStream: Section?
    var firstFeed: Section?
    var lastStream: Section?
    var lastFeed: Section?
    ghost var nodes: seq<Section>
    ghost var feeds: seq<Section>
    ghost var entries: seq<Entry>
    ghost var repr: set<Section>

    ghost predicate StreamsLinked()
      reads this`firstStream, this`lastStream, this`nodes, nodes`next
    {
      && (forall i :: 0 <= i < |nodes| ==> nodes[i].position == i)
      && (forall i :: 0 <= i < |nodes| - 1 ==> nodes[i].next == nodes[i + 1])
      && (nodes == [] ==> firstStream == null && lastStream == null)
      && (nodes != [] ==> firstStream == nodes[0] && lastStream == nodes[|nodes| - 1] && lastStream.next == null)
    }

    ghost predicate FeedsLinked()
      reads this`firstFeed, this`lastFeed, this`feeds, feeds`nextFeed
    {
      && (forall i :: 0 <= i < |feeds| ==> feeds[i].feedPosition == i)
      && (forall i :: 0 <= i < |feeds| - 1 ==> feeds[i].nextFeed == feeds[i + 1])
      && (feeds == [] ==> firstFeed == null && lastFeed == null)
      && (feeds != [] ==> firstFeed == feeds[0] && lastFeed == feeds[|feeds| - 1] && lastFeed.nextFeed == null)
    }

    ghost predicate Linked()
      reads this`firstStream, this`lastStream, this`nodes, nodes`next
      reads this`firstFeed, this`lastFeed, this`feeds, feeds`nextFeed
    {
      StreamsLinked() && FeedsLinked() && feeds == FeedsOf(nodes)
    }

    ghost predicate Valid()
      reads this, repr
    {
      AllIn(nodes, repr) && AllIn(feeds, repr) && Linked() && Describes(entries, nodes)
    }

    constructor ()
      ensures Valid() && entries == [] && repr == {}
    {
      firstStream, firstFeed, lastStream, lastFeed := null, null, null, null;
      nodes, feeds, entries, repr := [], [], [], {};
    }

    /** *last_stream = node; last_stream = &node->next. */
    method AppendStream(node: Section)
      requires StreamsLinked() && node !in nodes && node.next == null && node.position == |nodes|
      modifies this`firstStream, this`lastStream, this`nodes, nodes`next
      ensures StreamsLinked() && nodes == old(nodes) + [node]
    {
      if lastStream == null { firstStream := node; } else { lastStream.next := node; }
      lastStream := node;
      nodes := nodes + [node];
    }

    /** *last_feed = node; last_feed = &node->next_feed. */
    method AppendFeed(node: Section)
      requires FeedsLinked() && node !in feeds && node.nextFeed == null && node.feedPosition == |feeds|
      modifies this`firstFeed, this`lastFeed, this`feeds, feeds`nextFeed
      ensures FeedsLinked() && feeds == old(feeds) + [node]
    {
      if lastFeed == null { firstFeed := node; } else { lastFeed.nextFeed := node; }
      lastFeed := node;
      feeds := feeds + [node];
    }

    /** "add in stream list", and for a feed "in stream & feed list". */
    method Append(node: Section)
      requires Linked() && node.position == |nodes| && node.feedPosition == |feeds|
      requires node.next == null && node.nextFeed == null
      modifies this`firstStream, this`lastStream, this`nodes, nodes`next
      modifies this`firstFeed, this`lastFeed, this`feeds, feeds`nextFeed
      ensures Linked() && nodes == old(nodes) + [node]
      ensures feeds == old(feeds) + if node.kind == Feed then [node] else []
    {
      FeedsSnoc(nodes, node);
      AppendStream(node);
      if node.kind == Feed { AppendFeed(node); }
    }

    /** The same, keeping the ghost accounts. */
    method Register(node: Section)
      requires Valid() && node.position == |nodes| && node.feedPosition == |feeds|
      requires node.next == null && node.nextFeed == null
      modifies this, repr
      ensures Valid() && entries == old(entries) + [EntryOf(node)] && repr == old(repr) + {node}
    {
      AllInSnoc(nodes, repr, node);
      AllInSnoc(feeds, repr, node);
      DescribesSnoc(entries, nodes, node);
      Append(node);
      repr, entries := repr + {node}, entries + [EntryOf(node)];
    }

    /** Make the section and put it in the lists. */
    method Add(kind: Kind, name: string) returns (node: Section)
      requires Valid()
      modifies this, repr
      ensures Valid() && entries == old(entries) + [Entry(kind, name)] && repr == old(repr) + {node} && fresh(node)
    {
      node := new Section(kind, name, |nodes|, |feeds|);
      Register(node);
    }
  }

  lemma FeedsSnoc(nodes: seq<Section>, node: Section)
    ensures FeedsOf(nodes + [node]) == FeedsOf(nodes) + if node.kind == Feed then [node] else []
  {
    assert (nodes + [node])[..|nodes|] == nodes;
  }

  // ---------------------------------------------------------------------------------------------
  // The line loop

  lemma {:induction false} NameClashesFrom(entries: seq<Entry>, k: nat, name: string)
    requires k < |entries|
    ensures NameClashes(entries[k..], name) ==
      (if entries[k].name == name then 1 else 0) + NameClashes(entries[k + 1..], name)
  {
    assert entries[k..][1..] == entries[k + 1..];
  }

  /** The first feed of the feed list is the first feed of the stream list. */
  lemma {:induction false} FirstFeedAt(nodes: seq<Section>) returns (k: nat)
    ensures k <= |nodes| && forall i :: 0 <= i < k ==> !nodes[i].kind.Feed?
    ensures k < |nodes| ==> nodes[k].kind.Feed? && FeedsOf(nodes) != [] && FeedsOf(nodes)[0] == nodes[k]
    ensures k == |nodes| ==> FeedsOf(nodes) == []
  {
    if nodes == [] {
      k := 0;
    } else {
      k := FirstFeedAt(nodes[..|nodes| - 1]);
      if k == |nodes| - 1 && !nodes[k].kind.Feed? { k := |nodes|; }
    }
  }

  lemma {:induction false} FeedClashesFrom(entries: seq<Entry>, k: nat, name: string)
    requires k <= |entries| && (forall i :: 0 <= i < k ==> !entries[i].kind.Feed?)
      && (k < |entries| ==> entries[k].kind.Feed?)
    ensures FeedClashes(entries, name) == NameClashes(entries[k..], name)
  {
    if k > 0 {
      FeedClashesFrom(entries[1..], k - 1, name);
      assert entries[1..][k - 1..] == entries[k..];
    } else {
      assert entries[0..] == entries;
    }
  }

  /** The locals of ffserver_parse_ffconfig; url is the open redirect's feed_filename. */
  class Parser {
    const lists: Lists
    var feed: Section?
    var stream: Section?
    var redirect: Section?
    var url: string
    var errors: nat
    ghost var tagErrors: nat

    /** At most one section is open. */
    ghost predicate OneOpen()
      reads this
    {
      && (feed != null ==> stream == null && redirect == null)
      && (stream != null ==> redirect == null)
      && (redirect == null ==> url == [])
      && tagErrors <= errors
    }

    ghost predicate Valid()
      reads this, lists, lists.repr
    {
      OneOpen() && lists.Valid()
    }

    function OpenKind(): Option<Kind>
      reads this
    {
      if feed != null then Some(Feed) else if stream != null then Some(Stream)
      else if redirect != null then Some(Redirect) else None
    }

    ghost function View(status: Status): State
      reads this, lists`entries
    {
      State(OpenKind(), lists.entries, url != [], tagErrors,
            if tagErrors <= errors then errors - tagErrors else 0, status)
    }

    constructor ()
      ensures Valid() && View(Going) == START && fresh(lists) && lists.repr == {}
    {
      lists := new Lists();
      feed, stream, redirect, url, errors, tagErrors := null, null, null, [], 0, 0;
    }

    /** A loop that compares the names of the sections from s on. */
    method CountFrom(s: Section?, ghost k: nat, name: string) returns (clashes: nat)
      requires lists.StreamsLinked() && Describes(lists.entries, lists.nodes) && k <= |lists.nodes|
      requires s == if k < |lists.nodes| then lists.nodes[k] else null
      ensures clashes == NameClashes(lists.entries[k..], name)
    {
      clashes := 0;
      var p := s;
      ghost var j, entries := k, lists.entries;
      while p != null
        invariant k <= j <= |lists.nodes| && p == if j < |lists.nodes| then lists.nodes[j] else null
        invariant clashes + NameClashes(entries[j..], name) == NameClashes(entries[k..], name)
        decreases |lists.nodes| - j
      {
        NameClashesFrom(entries, j, name);
        assert entries[j] == EntryOf(p);
        if p.name == name { clashes := clashes + 1; }
        p := p.next;
        j := j + 1;
      }
    }

    /** The search for the name among the registered sections, as each kind does it. */
    method CountClashes(kind: Kind, name: string) returns (clashes: nat)
      requires lists.Linked() && Describes(lists.entries, lists.nodes)
      ensures clashes == Clashes(lists.entries, Entry(kind, name))
    {
      ghost var entries := lists.entries;
      assert entries[0..] == entries;
      match kind {
        case Feed =>
          ghost var k := FirstFeedAt(lists.nodes);
          FeedClashesFrom(entries, k, name);
          clashes := CountFrom(lists.firstFeed, k, name);
        case Stream => clashes := CountFrom(lists.firstStream, 0, name);
        case Redirect => clashes := 0;
      }
    }

    /** A tag that has no place here. */
    method Misplaced()
      requires Valid()
      modifies this`errors, this`tagErrors
      ensures Valid() && errors == old(errors) + 1 && tagErrors == old(tagErrors) + 1
    {
      errors, tagErrors := errors + 1, tagErrors + 1;
    }

    /** A closing arm. */
    method CloseSection(kind: Kind, effect: Effect)
      requires OneOpen() && OpenKind() == Some(kind)
      modifies this`feed, this`stream, this`redirect, this`url, this`errors
      ensures OneOpen() && View(Going) == Step(old(View(Going)), Closes(kind), effect)
    {
      match kind {
        case Feed => feed := null;
        case Stream =>
          errors := errors + effect.errors;
          stream := null;
        case Redirect =>
          if url == [] { errors := errors + 1; }
          redirect, url := null, [];
      }
    }

    method CloseOrRefuse(kind: Kind, effect: Effect)
      requires OneOpen()
      modifies this`feed, this`stream, this`redirect, this`url, this`errors, this`tagErrors
      ensures OneOpen() && View(Going) == Step(old(View(Going)), Closes(kind), effect)
    {
      if OpenKind() == Some(kind) {
        CloseSection(kind, effect);
      } else {
        errors, tagErrors := errors + 1, tagErrors + 1;
      }
    }

    /** A closing tag. */
    method CloseTag(kind: Kind, effect: Effect)
      requires Valid()
      modifies this`feed, this`stream, this`redirect, this`url, this`errors, this`tagErrors
      ensures Valid() && View(Going) == Step(old(View(Going)), Closes(kind), effect)
    {
      CloseOrRefuse(kind, effect);
    }

    method UrlOrDirective(cmd: Command, effect: Effect) returns (status: Status)
      requires OneOpen() && (cmd.Url? || cmd.Directive?)
      modifies this`url, this`errors
      ensures OneOpen() && View(status) == Step(old(View(Going)), cmd, effect)
    {
      status := Going;
      if OpenKind() == Some(Redirect) {
        if cmd.Url? { url := cmd.arg; } else { errors := errors + 1; }
      } else {
        errors := errors + effect.errors;
        if OpenKind().Some? && effect.fatal.Some? { status := Fatal(effect.fatal.value); }
      }
    }

    /** Any other line. */
    method PlainLine(cmd: Command, effect: Effect) returns (status: Status)
      requires Valid() && (cmd.Url? || cmd.Directive?)
      modifies this`url, this`errors
      ensures Valid() && View(status) == Step(old(View(Going)), cmd, effect)
    {
      status := UrlOrDirective(cmd, effect);
    }

    /** *pfeed = feed, or the like for the other kinds. */
    method PointAt(kind: Kind, node: Section, clashes: nat)
      requires Valid() && OpenKind() == None
      modifies this`feed, this`stream, this`redirect, this`errors
      ensures Valid() && OpenKind() == Some(kind) && errors == old(errors) + clashes
    {
      errors := errors + clashes;
      if kind == Feed { feed := node; } else if kind == Stream { stream := node; } else { redirect := node; }
    }

    /** An opening arm: report clashes, make the section, append it to the lists and point at it. */
    method OpenSection(kind: Kind, name: string)
      requires Valid() && OpenKind() == None
      modifies this, lists, lists.repr
      ensures Valid() && OpenKind() == Some(kind) && url == [] && tagErrors == old(tagErrors)
      ensures errors == old(errors) + Clashes(old(lists.entries), Entry(kind, name))
      ensures lists.entries == old(lists.entries) + [Entry(kind, name)] && fresh(lists.repr - old(lists.repr))
    {
      var clashes := CountClashes(kind, name);
      var node := lists.Add(kind, name);
      PointAt(kind, node, clashes);
    }

    /** An opening tag. */
    method OpenTag(kind: Kind, name: Option<string>, effect: Effect) returns (status: Status)
      requires Valid()
      modifies this, lists, lists.repr
      ensures Valid() && View(status) == Step(old(View(Going)), Opens(kind, name), effect)
      ensures fresh(lists.repr - old(lists.repr))
    {
      status := Going;
      if stream != null || feed != null || redirect != null {
        Misplaced();
      } else if name.None? {
        status := Crashed;
      } else {
        OpenSection(kind, name.value);
      }
    }

    /** The word that starts a line, and the argument after it. */
    method ReadCommand(line: string) returns (cmd: Command)
      ensures cmd == CommandOf(line)
    {
      var p := SkipSpaces(line);
      if p == [] || p[0] == '#' { return Blank; }
      var word, rest := ReadArg(CMD_SIZE, p);
      var arg, _ := ReadArg(NAME_SIZE, rest);
      if SameWord(word, "<Feed") { return Opens(Feed, TagName(Feed, arg)); }
      if SameWord(word, "<Stream") { return Opens(Stream, TagName(Stream, arg)); }
      if SameWord(word, "<Redirect") { return Opens(Redirect, TagName(Redirect, arg)); }
      if SameWord(word, "</Feed>") { return Closes(Feed); }
      if SameWord(word, "</Stream>") { return Closes(Stream); }
      if SameWord(word, "</Redirect>") { return Closes(Redirect); }
      return if SameWord(word, "URL") then Url(arg) else Directive;
    }

    /** One turn of the line loop. */
    method HandleLine(line: string, effect: Effect) returns (status: Status)
      requires Valid()
      modifies this, lists, lists.repr
      ensures Valid() && View(status) == Step(old(View(Going)), CommandOf(line), effect)
      ensures fresh(lists.repr - old(lists.repr))
    {
      var cmd := ReadCommand(line);
      status := Execute(cmd, effect);
    }

    /** The dispatch to the section parsers. */
    method Execute(cmd: Command, effect: Effect) returns (status: Status)
      requires Valid()
      modifies this, lists, lists.repr
      ensures Valid() && View(status) == Step(old(View(Going)), cmd, effect)
      ensures fresh(lists.repr - old(lists.repr))
    {
      status := Going;
      match cmd {
        case Blank =>
        case Opens(kind, name) => status := OpenTag(kind, name, effect);
        case Closes(kind) => CloseTag(kind, effect);
        case _ => status := PlainLine(cmd, effect);
      }
    }

    /** The loop over the lines of the file. */
    method ParseLines(lines: seq<string>, effects: nat -> Effect) returns (status: Status)
      requires Valid()
      modifies this, lists, lists.repr
      ensures Valid() && View(status) == ParseFrom(lines, effects, 0, old(View(Going)))
      ensures fresh(lists.repr - old(lists.repr))
    {
      var i := 0;
      status := Going;
      while i < |lines| && status == Going
        invariant i <= |lines| && Valid() && fresh(lists.repr - old(lists.repr))
        invariant ParseFrom(lines, effects, i, View(status)) == ParseFrom(lines, effects, 0, old(View(Going)))
      {
        status := HandleLine(lines[i], effects(i));
        i := i + 1;
      }
      StaysStopped(lines, effects, i, View(status));
    }

    /** The end of ffserver_parse_ffconfig: a section left open, and the return value. */
    method Finish(status: Status) returns (verdict: Verdict)
      requires OneOpen()
      modifies this`errors, this`tagErrors
      ensures verdict == VerdictOf(Ended(old(View(status))))
    {
      if status == Crashed { return Crash; }
      if stream != null || feed != null || redirect != null { errors, tagErrors := errors + 1, tagErrors + 1; }
      if status.Fatal? { return Stopped(status.code); }
      return if errors > 0 then HasErrors else Accepted;
    }
  }

  /** ffserver_parse_ffconfig on the lines of the file. */
  method ParseConfig(lines: seq<string>, effects: nat -> Effect) returns (p: Parser, verdict: Verdict)
    ensures p.lists.Valid() && p.lists.entries == Parsed(lines, effects).entries
    ensures verdict == VerdictOf(Parsed(lines, effects))
  {
    p := new Parser();
    var status := p.ParseLines(lines, effects);
    verdict := p.Finish(status);
  }

  lemma {:induction false} StaysStopped(lines: seq<string>, effects: nat -> Effect, i: nat, s: State)
    requires i <= |lines| && (i == |lines| || !s.status.Going?)
    ensures ParseFrom(lines, effects, i, s) == s
    decreases |lines| - i
  {
    if i >= |lines| {
    } else {
      StaysStopped(lines, effects, i + 1, s);
    }
  }

  // ---------------------------------------------------------------------------------------------
  // Runs over the commands alone

  function Commands(lines: seq<string>, i: nat): (cmds: seq<Command>)
    requires i <= |lines|
    ensures |cmds| == |lines| - i
    decreases |lines| - i
  {
    if i == |lines| then [] else [CommandOf(lines[i])] + Commands(lines, i + 1)
  }

  function RunFrom(cmds: seq<Command>, effects: nat -> Effect, at: nat, s: State): State
    decreases |cmds|
  {
    if |cmds| == 0 then s else RunFrom(cmds[1..], effects, at + 1, Step(s, cmds[0], effects(at)))
  }

  /** A parse is a run over the commands of its lines. */
  lemma {:induction false} ParseIsRun(lines: seq<string>, effects: nat -> Effect, i: nat, s: State)
    requires i <= |lines|
    ensures ParseFrom(lines, effects, i, s) == RunFrom(Commands(lines, i), effects, i, s)
    decreases |lines| - i
  {
    if i == |lines| {
    } else {
      var cmds := Commands(lines, i);
      assert cmds[0] == CommandOf(lines[i]) && cmds[1..] == Commands(lines, i + 1);
      ParseIsRun(lines, effects, i + 1, Step(s, CommandOf(lines[i]), effects(i)));
    }
  }

  lemma {:induction false} RunSplit(a: seq<Command>, b: seq<Command>, effects: nat -> Effect, at: nat, s: State)
    ensures RunFrom(a + b, effects, at, s) == RunFrom(b, effects, at + |a|, RunFrom(a, effects, at, s))
    decreases |a|
  {
    if |a| == 0 {
      assert a + b == b;
    } else {
      assert (a + b)[0] == a[0] && (a + b)[1..] == a[1..] + b;
      RunSplit(a[1..], b, effects, at + 1, Step(s, a[0], effects(at)));
    }
  }

  lemma {:induction false} RunStopped(cmds: seq<Command>, effects: nat -> Effect, at: nat, s: State)
    requires !s.status.Going?
    ensures RunFrom(cmds, effects, at, s) == s
    decreases |cmds|
  {
    if |cmds| == 0 {
    } else {
      RunStopped(cmds[1..], effects, at + 1, s);
    }
  }

  lemma RunOne(cmd: Command, effects: nat -> Effect, at: nat, s: State)
    ensures RunFrom([cmd], effects, at, s) == Step(s, cmd, effects(at))
  {
    assert [cmd][1..] == [];
  }

  lemma RunCons(cmd: Command, rest: seq<Command>, effects: nat -> Effect, at: nat, s: State)
    ensures RunFrom([cmd] + rest, effects, at, s) == RunFrom(rest, effects, at + 1, Step(s, cmd, effects(at)))
  {
    assert ([cmd] + rest)[1..] == rest;
  }

  lemma RunLast(front: seq<Command>, cmd: Command, effects: nat -> Effect, at: nat, s: State)
    ensures RunFrom(front + [cmd], effects, at, s) == Step(RunFrom(front, effects, at, s), cmd, effects(at + |front|))
  {
    RunSplit(front, [cmd], effects, at, s);
    RunOne(cmd, effects, at + |front|, RunFrom(front, effects, at, s));
  }

  /** One more command of a run. */
  lemma RunSnoc(cmds: seq<Command>, effects: nat -> Effect, i: nat, s: State)
    requires i < |cmds|
    ensures RunFrom(cmds[..i + 1], effects, 0, s) == Step(RunFrom(cmds[..i], effects, 0, s), cmds[i], effects(i))
  {
    assert cmds[..i + 1] == cmds[..i] + [cmds[i]];
    RunLast(cmds[..i], cmds[i], effects, 0, s);
  }

  // ---------------------------------------------------------------------------------------------
  // Which files crash the parser, or end it early

  function OpenNext(open: Option<Kind>, cmd: Command): Option<Kind> {
    match cmd
    case Opens(kind, _) => if open.None? then Some(kind) else open
    case Closes(kind) => if open == Some(kind) then None else open
    case _ => open
  }

  /** The section open after some commands. */
  function OpenAfter(cmds: seq<Command>): Option<Kind> {
    if |cmds| == 0 then None else OpenNext(OpenAfter(cmds[..|cmds| - 1]), cmds[|cmds| - 1])
  }

  /** Command i opens a section whose tag has no closing bracket: strrchr has returned NULL. */
  predicate Crashes(cmds: seq<Command>, i: nat)
    requires i < |cmds|
  {
    cmds[i].Opens? && cmds[i].name.None? && OpenAfter(cmds[..i]).None?
  }

  /** Command i is a directive that ends the parse with an error code. */
  predicate EndsParse(cmds: seq<Command>, effects: nat -> Effect, i: nat)
    requires i < |cmds|
  {
    && (cmds[i].Url? || cmds[i].Directive?) && effects(i).fatal.Some?
    && (OpenAfter(cmds[..i]) == Some(Feed) || OpenAfter(cmds[..i]) == Some(Stream))
  }

  ghost predicate Uncut(cmds: seq<Command>, effects: nat -> Effect, n: nat)
    requires n <= |cmds|
  {
    forall j :: 0 <= j < n ==> !Crashes(cmds, j) && !EndsParse(cmds, effects, j)
  }

  predicate CutsWhenOpen(open: Option<Kind>, cmd: Command, effect: Effect) {
    || (cmd.Opens? && cmd.name.None? && open.None?)
    || ((cmd.Url? || cmd.Directive?) && effect.fatal.Some? && (open == Some(Feed) || open == Some(Stream)))
  }

  lemma StepGoes(s: State, cmd: Command, effect: Effect)
    ensures !s.status.Going? ==> Step(s, cmd, effect) == s
    ensures s.status.Going? ==> (Step(s, cmd, effect).status.Going? <==> !CutsWhenOpen(s.open, cmd, effect))
    ensures s.status.Going? && !CutsWhenOpen(s.open, cmd, effect) ==> Step(s, cmd, effect).open == OpenNext(s.open, cmd)
  {
    match s.open
    case None =>
    case Some(kind) => assert kind == Feed || kind == Stream || kind == Redirect;
  }

  /** A parse goes on over n commands exactly when none of them crashes or ends it; then the fold tells what is open. */
  lemma {:induction false} GoingIff(cmds: seq<Command>, effects: nat -> Effect, n: nat)
    requires n <= |cmds|
    ensures var t := RunFrom(cmds[..n], effects, 0, START);
      (t.status.Going? <==> Uncut(cmds, effects, n)) && (t.status.Going? ==> t.open == OpenAfter(cmds[..n]))
    decreases n
  {
    if n == 0 {
      assert cmds[..0] == [];
    } else {
      GoingIff(cmds, effects, n - 1);
      RunSnoc(cmds, effects, n - 1, START);
      assert cmds[..n][..n - 1] == cmds[..n - 1] && cmds[..n][n - 1] == cmds[n - 1];
      var t, cmd := RunFrom(cmds[..n - 1], effects, 0, START), cmds[n - 1];
      StepGoes(t, cmd, effects(n - 1));
      assert CutsWhenOpen(OpenAfter(cmds[..n - 1]), cmd, effects(n - 1)) <==>
        Crashes(cmds, n - 1) || EndsParse(cmds, effects, n - 1);
      assert Uncut(cmds, effects, n) <==>
        Uncut(cmds, effects, n - 1) && !Crashes(cmds, n - 1) && !EndsParse(cmds, effects, n - 1);
    }
  }

  /** What the first command that cuts the parse makes of it is what the whole parse ends as. */
  lemma {:induction false} CutAt(cmds: seq<Command>, effects: nat -> Effect, i: nat)
    requires i < |cmds| && Uncut(cmds, effects, i)
    ensures Crashes(cmds, i) ==> RunFrom(cmds, effects, 0, START).status == Crashed
    ensures EndsParse(cmds, effects, i) ==> RunFrom(cmds, effects, 0, START).status == Fatal(effects(i).fatal.value)
  {
    GoingIff(cmds, effects, i);
    RunSnoc(cmds, effects, i, START);
    assert cmds == cmds[..i + 1] + cmds[i + 1..];
    RunSplit(cmds[..i + 1], cmds[i + 1..], effects, 0, START);
    var t := RunFrom(cmds[..i + 1], effects, 0, START);
    if !t.status.Going? { RunStopped(cmds[i + 1..], effects, i + 1, t); }
  }

  /** The first command that cuts the parse, or their number. */
  lemma {:induction false} FirstCut(cmds: seq<Command>, effects: nat -> Effect, n: nat) returns (i: nat)
    requires n <= |cmds|
    ensures i <= n && Uncut(cmds, effects, i) && (i < n ==> Crashes(cmds, i) || EndsParse(cmds, effects, i))
    decreases n
  {
    if n == 0 {
      i := 0;
    } else {
      i := FirstCut(cmds, effects, n - 1);
      if i == n - 1 && !Crashes(cmds, i) && !EndsParse(cmds, effects, i) { i := n; }
    }
  }

  /** How a parse ends, for every file: which commands make it crash, and which end it with an error code. */
  lemma CutIff(cmds: seq<Command>, effects: nat -> Effect)
    ensures var status := RunFrom(cmds, effects, 0, START).status;
      && (status == Crashed <==> exists i :: 0 <= i < |cmds| && Crashes(cmds, i) && Uncut(cmds, effects, i))
      && (forall code :: status == Fatal(code) <==>
            exists i :: 0 <= i < |cmds| && EndsParse(cmds, effects, i) && effects(i).fatal == Some(code)
                        && Uncut(cmds, effects, i))
      && (status == Going <==> Uncut(cmds, effects, |cmds|))
  {
    var i := FirstCut(cmds, effects, |cmds|);
    GoingIff(cmds, effects, |cmds|);
    assert cmds[..|cmds|] == cmds;
    if i < |cmds| { CutAt(cmds, effects, i); }
    forall k | 0 <= k < |cmds| && Uncut(cmds, effects, k)
      ensures Crashes(cmds, k) || EndsParse(cmds, effects, k) ==> k == i
    {
    }
  }

  /** It crashes exactly at an unbracketed opening tag outside any section, if nothing ended the parse before. */
  lemma CrashIff(lines: seq<string>, effects: nat -> Effect)
    ensures var cmds := Commands(lines, 0);
      (VerdictOf(Parsed(lines, effects)) == Crash)
      <==> (exists i :: 0 <= i < |cmds| && Crashes(cmds, i) && Uncut(cmds, effects, i))
  {
    ParseIsRun(lines, effects, 0, START);
    CutIff(Commands(lines, 0), effects);
  }

  /** The name it reads, without a closing bracket. */
  lemma UnclosedName()
    ensures GetArg(NAME_SIZE, " a").0 == "a" && LastBracket("a") == None
  {
    assert SkipSpaces(" a") == "a" by { assert " a"[1..] == "a"; }
    ExtentOf(None, "a", "");
    assert "a" + "" == "a" && "a"[..0] == [];
  }

  lemma UnclosedCommand()
    ensures SkipSpaces("<Feed a") == "<Feed a" && GetArg(CMD_SIZE, "<Feed a") == ("<Feed", " a")
  {
    BareReadBack(CMD_SIZE, "<Feed", " a");
    assert "<Feed" + " a" == "<Feed a";
  }

  /** A line that does it: "<Feed a". */
  lemma UnclosedTag()
    ensures CommandOf("<Feed a") == Opens(Feed, None)
  {
    UnclosedCommand();
    UnclosedName();
  }

  /** A file that starts with such a line crashes the parser. */
  lemma CrashWitness(lines: seq<string>, effects: nat -> Effect, kind: Kind)
    requires |lines| > 0 && CommandOf(lines[0]) == Opens(kind, None)
    ensures VerdictOf(Parsed(lines, effects)) == Crash
  {
    var s := Step(START, Opens(kind, None), effects(0));
    StaysStopped(lines, effects, 1, s);
  }

  // ---------------------------------------------------------------------------------------------
  // Which files are accepted

  predicate IsTag(cmd: Command) { cmd.Opens? || cmd.Closes? }

  predicate NoTags(cmds: seq<Command>) { forall i :: 0 <= i < |cmds| ==> !IsTag(cmds[i]) }

  /** A piece of a well-formed file: a line outside any section, or a whole section. */
  datatype Part = Line(cmd: Command) | Block(kind: Kind, name: Option<string>, inside: seq<Command>)

  predicate ProperPart(p: Part) {
    match p
    case Line(cmd) => !IsTag(cmd)
    case Block(_, _, inside) => NoTags(inside)
  }

  function Spelled(p: Part): (cmds: seq<Command>)
    ensures |cmds| == if p.Line? then 1 else |p.inside| + 2
  {
    match p
    case Line(cmd) => [cmd]
    case Block(kind, name, inside) => [Opens(kind, name)] + inside + [Closes(kind)]
  }

  function SpelledAll(parts: seq<Part>): seq<Command> {
    if |parts| == 0 then [] else Spelled(parts[0]) + SpelledAll(parts[1..])
  }

  predicate Proper(parts: seq<Part>) { forall i :: 0 <= i < |parts| ==> ProperPart(parts[i]) }

  ghost predicate WellBracketed(cmds: seq<Command>) {
    exists parts: seq<Part> :: Proper(parts) && SpelledAll(parts) == cmds
  }

  /** The structural errors of a file, with that section open at its start. */
  function TagErrors(cmds: seq<Command>, open: Option<Kind>): nat {
    if |cmds| == 0 then (if open.Some? then 1 else 0)
    else
      match cmds[0]
      case Opens(kind, _) => if open.Some? then 1 + TagErrors(cmds[1..], open) else TagErrors(cmds[1..], Some(kind))
      case Closes(kind) => if open == Some(kind) then TagErrors(cmds[1..], None) else 1 + TagErrors(cmds[1..], open)
      case _ => TagErrors(cmds[1..], open)
  }

  lemma {:induction false} InsideHasNoErrors(inside: seq<Command>, kind: Kind, rest: seq<Command>)
    requires NoTags(inside)
    ensures TagErrors(inside + [Closes(kind)] + rest, Some(kind)) == TagErrors(rest, None)
  {
    var all := inside + [Closes(kind)] + rest;
    if |inside| == 0 {
      assert all[1..] == rest;
    } else {
      InsideHasNoErrors(inside[1..], kind, rest);
      assert all[0] == inside[0] && !IsTag(inside[0]);
      assert all[1..] == inside[1..] + [Closes(kind)] + rest;
    }
  }

  /** A part has none of its own. */
  lemma PartHasNoErrors(p: Part, rest: seq<Command>)
    requires ProperPart(p)
    ensures TagErrors(Spelled(p) + rest, None) == TagErrors(rest, None)
  {
    match p
    case Line(cmd) =>
      assert ([cmd] + rest)[0] == cmd && ([cmd] + rest)[1..] == rest;
    case Block(kind, name, inside) =>
      var all, tail := Spelled(p) + rest, inside + [Closes(kind)] + rest;
      assert all == [Opens(kind, name)] + tail && all[1..] == tail;
      InsideHasNoErrors(inside, kind, rest);
  }

  lemma {:induction false} ProperHasNoErrors(parts: seq<Part>)
    requires Proper(parts)
    ensures TagErrors(SpelledAll(parts), None) == 0
  {
    if |parts| == 0 {
    } else {
      assert ProperPart(parts[0]) && Proper(parts[1..]);
      ProperHasNoErrors(parts[1..]);
      PartHasNoErrors(parts[0], SpelledAll(parts[1..]));
    }
  }

  /** An open section without errors closes. */
  lemma {:induction false} SectionCloses(cmds: seq<Command>, kind: Kind)
    returns (inside: seq<Command>, rest: seq<Command>)
    requires TagErrors(cmds, Some(kind)) == 0
    ensures NoTags(inside) && cmds == inside + [Closes(kind)] + rest && TagErrors(rest, None) == 0
  {
    if cmds[0] == Closes(kind) {
      inside, rest := [], cmds[1..];
    } else {
      inside, rest := SectionCloses(cmds[1..], kind);
      inside := [cmds[0]] + inside;
    }
  }

  lemma PartsCons(first: Part, more: seq<Part>)
    requires ProperPart(first) && Proper(more)
    ensures Proper([first] + more) && SpelledAll([first] + more) == Spelled(first) + SpelledAll(more)
  {
    assert ([first] + more)[1..] == more;
  }

  /** A section that opens the file is a part, and what follows it has no errors either. */
  lemma FirstBlock(cmds: seq<Command>) returns (first: Part, rest: seq<Command>)
    requires |cmds| > 0 && cmds[0].Opens? && TagErrors(cmds, None) == 0
    ensures ProperPart(first) && cmds == Spelled(first) + rest && |rest| < |cmds| && TagErrors(rest, None) == 0
  {
    var inside;
    inside, rest := SectionCloses(cmds[1..], cmds[0].kind);
    first := Block(cmds[0].kind, cmds[0].name, inside);
    Regroup([cmds[0]], inside + [Closes(cmds[0].kind)], rest);
    assert cmds == [cmds[0]] + cmds[1..];
  }

  lemma {:induction false} NoErrorsIsProper(cmds: seq<Command>) returns (parts: seq<Part>)
    requires TagErrors(cmds, None) == 0
    ensures Proper(parts) && SpelledAll(parts) == cmds
    decreases |cmds|
  {
    if |cmds| == 0 {
      parts := [];
    } else if cmds[0].Opens? {
      var first, rest := FirstBlock(cmds);
      var more := NoErrorsIsProper(rest);
      PartsCons(first, more);
      parts := [first] + more;
    } else {
      var more := NoErrorsIsProper(cmds[1..]);
      PartsCons(Line(cmds[0]), more);
      parts := [Line(cmds[0])] + more;
    }
  }

  /** No structural errors are counted exactly for the well-bracketed files. */
  lemma NoErrorsIffBracketed(cmds: seq<Command>)
    ensures TagErrors(cmds, None) == 0 <==> WellBracketed(cmds)
  {
    if TagErrors(cmds, None) == 0 { var _ := NoErrorsIsProper(cmds); }
    if WellBracketed(cmds) {
      var parts: seq<Part> :| Proper(parts) && SpelledAll(parts) == cmds;
      ProperHasNoErrors(parts);
    }
  }

  lemma StepCounts(s: State, cmd: Command, effect: Effect, rest: seq<Command>)
    requires s.status.Going? && Step(s, cmd, effect).status.Going?
    ensures var s' := Step(s, cmd, effect);
      && s'.tagErrors + TagErrors(rest, s'.open) == s.tagErrors + TagErrors([cmd] + rest, s.open)
      && s.tagErrors <= s'.tagErrors
  {
    assert ([cmd] + rest)[1..] == rest;
  }

  /** A parse that is not cut short counts exactly the structural errors. */
  lemma {:induction false} RunCounts(cmds: seq<Command>, effects: nat -> Effect, at: nat, s: State)
    requires s.status.Going?
    ensures var t := RunFrom(cmds, effects, at, s);
      t.status.Going? ==> Ended(t).tagErrors == s.tagErrors + TagErrors(cmds, s.open)
    decreases |cmds|
  {
    if |cmds| == 0 {
    } else {
      var s' := Step(s, cmds[0], effects(at));
      assert cmds == [cmds[0]] + cmds[1..];
      if s'.status.Going? {
        StepCounts(s, cmds[0], effects(at), cmds[1..]);
        RunCounts(cmds[1..], effects, at + 1, s');
      } else {
        RunStopped(cmds[1..], effects, at + 1, s');
      }
    }
  }

  // ---------------------------------------------------------------------------------------------
  // All other errors, part by part

  /** The last URL given in a redirect. */
  function LastUrl(inside: seq<Command>): string {
    if |inside| == 0 then []
    else if inside[|inside| - 1].Url? then inside[|inside| - 1].arg
    else LastUrl(inside[..|inside| - 1])
  }

  /** A line inside a section is in order: a redirect knows only URL, and elsewhere a directive must not fail. */
  predicate InOrder(kind: Kind, cmd: Command, effect: Effect) {
    cmd.Blank? || (if kind.Redirect? then cmd.Url? else effect == Effect(0, None))
  }

  predicate AllInOrder(kind: Kind, inside: seq<Command>, effects: nat -> Effect, at: nat) {
    forall k :: 0 <= k < |inside| ==> InOrder(kind, inside[k], effects(at + k))
  }

  /** A part that starts at that line, after those sections, is in order. */
  predicate Sound(p: Part, effects: nat -> Effect, at: nat, before: seq<Entry>) {
    match p
    case Line(cmd) => cmd.Blank? || effects(at).errors == 0
    case Block(kind, name, inside) =>
      && name.Some? && Clashes(before, Entry(kind, name.value)) == 0
      && AllInOrder(kind, inside, effects, at + 1)
      && (kind.Stream? ==> effects(at + 1 + |inside|).errors == 0)
      && (kind.Redirect? ==> LastUrl(inside) != [])
  }

  function OwnSection(p: Part): seq<Entry> {
    if p.Block? && p.name.Some? then [Entry(p.kind, p.name.value)] else []
  }

  /** The sections of a file, in order. */
  function SectionsOf(parts: seq<Part>): seq<Entry> {
    if |parts| == 0 then [] else OwnSection(parts[0]) + SectionsOf(parts[1..])
  }

  predicate AllSound(parts: seq<Part>, effects: nat -> Effect, at: nat, before: seq<Entry>)
    decreases |parts|
  {
    |parts| > 0 ==>
      && Sound(parts[0], effects, at, before)
      && AllSound(parts[1..], effects, at + |Spelled(parts[0])|, before + OwnSection(parts[0]))
  }

  /** A state with nothing against the file so far. */
  predicate Clean(s: State, open: Option<Kind>, entries: seq<Entry>) {
    s.status.Going? && s.open == open && s.entries == entries && s.otherErrors == 0
  }

  /** Errors only add up, and a parse cut short stays so. */
  lemma {:induction false} NeverCleanAgain(cmds: seq<Command>, effects: nat -> Effect, at: nat, s: State)
    ensures RunFrom(cmds, effects, at, s).otherErrors >= s.otherErrors
    ensures !s.status.Going? ==> !RunFrom(cmds, effects, at, s).status.Going?
    decreases |cmds|
  {
    if |cmds| == 0 {
    } else {
      NeverCleanAgain(cmds[1..], effects, at + 1, Step(s, cmds[0], effects(at)));
    }
  }

  lemma InOrderSnoc(kind: Kind, inside: seq<Command>, effects: nat -> Effect, at: nat)
    requires |inside| > 0
    ensures var n := |inside| - 1;
      AllInOrder(kind, inside, effects, at) <==>
        AllInOrder(kind, inside[..n], effects, at) && InOrder(kind, inside[n], effects(at + n))
  {
    var n := |inside| - 1;
    assert forall k :: 0 <= k < n ==> inside[k] == inside[..n][k];
  }

  /** One line inside a section, once the run has come that far. */
  lemma InsideStep(kind: Kind, t: State, cmd: Command, effect: Effect)
    requires !IsTag(cmd)
    ensures var u := Step(t, cmd, effect);
      && (!t.status.Going? ==> !u.status.Going?) && u.otherErrors >= t.otherErrors
      && (t.status.Going? && t.open == Some(kind) ==>
            && (u.status.Going? && u.otherErrors == t.otherErrors <==> InOrder(kind, cmd, effect))
            && u.entries == t.entries && (u.status.Going? ==> u.open == Some(kind))
            && (u.status.Going? ==> u.hasUrl == if kind.Redirect? && cmd.Url? then cmd.arg != [] else t.hasUrl))
  {
  }

  /** What the lines of a section make of the state it began with. */
  predicate LeftBy(kind: Kind, inOrder: bool, lastUrl: string, entries: seq<Entry>, t: State) {
    && (t.status.Going? && t.otherErrors == 0 <==> inOrder)
    && (t.status.Going? ==>
          t.open == Some(kind) && t.entries == entries && t.hasUrl == (kind.Redirect? && |lastUrl| > 0))
  }

  lemma OneMoreLine(kind: Kind, inOrder: bool, lastUrl: string, entries: seq<Entry>, t: State, cmd: Command,
                    effect: Effect)
    requires LeftBy(kind, inOrder, lastUrl, entries, t) && !IsTag(cmd)
    ensures LeftBy(kind, inOrder && InOrder(kind, cmd, effect), if cmd.Url? then cmd.arg else lastUrl, entries,
                   Step(t, cmd, effect))
  {
    InsideStep(kind, t, cmd, effect);
  }

  /** The lines of a section leave the state clean exactly when all are in order. */
  lemma {:induction false} InsideClean(kind: Kind, inside: seq<Command>, effects: nat -> Effect, at: nat, s: State)
    requires NoTags(inside) && Clean(s, Some(kind), s.entries) && !s.hasUrl
    ensures
      LeftBy(kind, AllInOrder(kind, inside, effects, at), LastUrl(inside), s.entries, RunFrom(inside, effects, at, s))
    decreases |inside|
  {
    var n := |inside|;
    if n == 0 {
    } else {
      var front, last := inside[..n - 1], inside[n - 1];
      assert inside == front + [last] && !IsTag(last);
      InsideClean(kind, front, effects, at, s);
      RunLast(front, last, effects, at, s);
      InOrderSnoc(kind, inside, effects, at);
      OneMoreLine(kind, AllInOrder(kind, front, effects, at), LastUrl(front), s.entries,
                  RunFrom(front, effects, at, s), last, effects(at + n - 1));
    }
  }

  /** What opens a section and what closes it. */
  lemma BlockEnds(kind: Kind, name: Option<string>, s: State, opening: Effect)
    requires Clean(s, None, s.entries)
    ensures var t := Step(s, Opens(kind, name), opening);
      && (t.status.Going? && t.otherErrors == 0 <==> name.Some? && Clashes(s.entries, Entry(kind, name.value)) == 0)
      && (t.status.Going? ==> t.open == Some(kind) && !t.hasUrl && t.entries == s.entries + [Entry(kind, name.value)])
  {
  }

  lemma BlockCloses(kind: Kind, s: State, effect: Effect)
    requires s.status.Going? && s.open == Some(kind)
    ensures var t := Step(s, Closes(kind), effect);
      && t.status.Going? && t.open == None && t.entries == s.entries
      && (t.otherErrors == 0 <==>
            s.otherErrors == 0 && (kind.Stream? ==> effect.errors == 0) && (kind.Redirect? ==> s.hasUrl))
  {
  }

  /** A run through a section, stop by stop. */
  lemma {:induction false} BlockRun(kind: Kind, name: Option<string>, inside: seq<Command>, effects: nat -> Effect,
                                    at: nat, s: State)
    ensures var begun := Step(s, Opens(kind, name), effects(at)); var middle := RunFrom(inside, effects, at + 1, begun);
      RunFrom(Spelled(Block(kind, name, inside)), effects, at, s)
      == Step(middle, Closes(kind), effects(at + 1 + |inside|))
  {
    Regroup([Opens(kind, name)], inside, [Closes(kind)]);
    RunCons(Opens(kind, name), inside + [Closes(kind)], effects, at, s);
    RunLast(inside, Closes(kind), effects, at + 1, Step(s, Opens(kind, name), effects(at)));
  }

  lemma StepNeverCleans(s: State, cmd: Command, effect: Effect)
    ensures Step(s, cmd, effect).otherErrors >= s.otherErrors
    ensures !s.status.Going? ==> !Step(s, cmd, effect).status.Going?
  {
  }

  /** A section in order, from what its lines amount to. */
  predicate SoundBlock(kind: Kind, name: Option<string>, inOrder: bool, lastUrl: string, before: seq<Entry>,
                       closing: Effect)
  {
    && name.Some? && Clashes(before, Entry(kind, name.value)) == 0 && inOrder
    && (kind.Stream? ==> closing.errors == 0) && (kind.Redirect? ==> |lastUrl| > 0)
  }

  /** What opening, lines and closing make of a clean state together. */
  lemma BlockEffect(kind: Kind, name: Option<string>, inOrder: bool, lastUrl: string, s: State, begun: State,
                    middle: State, opening: Effect, closing: Effect)
    requires Clean(s, None, s.entries) && begun == Step(s, Opens(kind, name), opening)
    requires begun.status.Going? && begun.otherErrors == 0 ==> LeftBy(kind, inOrder, lastUrl, begun.entries, middle)
    requires middle.otherErrors >= begun.otherErrors && (!begun.status.Going? ==> !middle.status.Going?)
    ensures var t := Step(middle, Closes(kind), closing);
      && (SoundBlock(kind, name, inOrder, lastUrl, s.entries, closing) ==>
            Clean(t, None, s.entries + [Entry(kind, name.value)]))
      && (!SoundBlock(kind, name, inOrder, lastUrl, s.entries, closing) ==> !t.status.Going? || t.otherErrors > 0)
  {
    BlockEnds(kind, name, s, opening);
    StepNeverCleans(middle, Closes(kind), closing);
    if middle.status.Going? && begun.otherErrors == 0 { BlockCloses(kind, middle, closing); }
  }

  lemma SoundIs(kind: Kind, name: Option<string>, inside: seq<Command>, effects: nat -> Effect, at: nat,
                before: seq<Entry>)
    ensures Sound(Block(kind, name, inside), effects, at, before) <==>
      SoundBlock(kind, name, AllInOrder(kind, inside, effects, at + 1), LastUrl(inside), before,
                 effects(at + 1 + |inside|))
  {
  }

  /** The lines in between, once the section is open. */
  lemma MiddleOf(kind: Kind, inside: seq<Command>, effects: nat -> Effect, at: nat, s: State, begun: State,
                 name: Option<string>)
    requires NoTags(inside) && Clean(s, None, s.entries) && begun == Step(s, Opens(kind, name), effects(at))
    ensures var middle := RunFrom(inside, effects, at + 1, begun);
      && (begun.status.Going? && begun.otherErrors == 0 ==>
            LeftBy(kind, AllInOrder(kind, inside, effects, at + 1), LastUrl(inside), begun.entries, middle))
      && middle.otherErrors >= begun.otherErrors && (!begun.status.Going? ==> !middle.status.Going?)
  {
    BlockEnds(kind, name, s, effects(at));
    NeverCleanAgain(inside, effects, at + 1, begun);
    if begun.status.Going? && begun.otherErrors == 0 { InsideClean(kind, inside, effects, at + 1, begun); }
  }

  /** The state is clean, with those sections, exactly when what was run is in order. */
  predicate CleanIff(sound: bool, t: State, entries: seq<Entry>) {
    (sound ==> Clean(t, None, entries)) && (!sound ==> !t.status.Going? || t.otherErrors > 0)
  }

  /** A part leaves the state clean exactly when it is in order. */
  lemma BlockClean(kind: Kind, name: Option<string>, inside: seq<Command>, effects: nat -> Effect, at: nat, s: State)
    requires NoTags(inside) && Clean(s, None, s.entries)
    ensures var p := Block(kind, name, inside);
      CleanIff(Sound(p, effects, at, s.entries), RunFrom(Spelled(p), effects, at, s), s.entries + OwnSection(p))
  {
    var begun := Step(s, Opens(kind, name), effects(at));
    MiddleOf(kind, inside, effects, at, s, begun, name);
    BlockEffect(kind, name, AllInOrder(kind, inside, effects, at + 1), LastUrl(inside), s, begun,
                RunFrom(inside, effects, at + 1, begun), effects(at), effects(at + 1 + |inside|));
    SoundIs(kind, name, inside, effects, at, s.entries);
    BlockRun(kind, name, inside, effects, at, s);
  }

  lemma PartClean(p: Part, effects: nat -> Effect, at: nat, s: State)
    requires ProperPart(p) && Clean(s, None, s.entries)
    ensures CleanIff(Sound(p, effects, at, s.entries), RunFrom(Spelled(p), effects, at, s), s.entries + OwnSection(p))
  {
    match p
    case Line(cmd) =>
      RunOne(cmd, effects, at, s);
      assert s.entries + [] == s.entries;
    case Block(kind, name, inside) =>
      BlockClean(kind, name, inside, effects, at, s);
  }

  lemma {:induction false} PartsClean(parts: seq<Part>, effects: nat -> Effect, at: nat, s: State)
    requires Proper(parts) && Clean(s, None, s.entries)
    ensures CleanIff(AllSound(parts, effects, at, s.entries), RunFrom(SpelledAll(parts), effects, at, s),
                     s.entries + SectionsOf(parts))
    decreases |parts|
  {
    if |parts| == 0 {
      assert s.entries + [] == s.entries;
    } else {
      var first, rest := Spelled(parts[0]), SpelledAll(parts[1..]);
      var t := RunFrom(first, effects, at, s);
      assert ProperPart(parts[0]) && Proper(parts[1..]);
      RunSplit(first, rest, effects, at, s);
      PartClean(parts[0], effects, at, s);
      if Sound(parts[0], effects, at, s.entries) {
        PartsClean(parts[1..], effects, at + |first|, t);
        Regroup(s.entries, OwnSection(parts[0]), SectionsOf(parts[1..]));
      } else {
        NeverCleanAgain(rest, effects, at + |first|, t);
      }
    }
  }

  /**
   The return value is 0 if and only if the file is a sequence of plain lines and closed, unnested sections
   in each of which nothing is amiss: the section has a name no earlier one clashes with, its lines are in
   order, its closing succeeds, and a redirect has a URL.
   */
  lemma AcceptedIff(lines: seq<string>, effects: nat -> Effect)
    ensures var cmds := Commands(lines, 0);
      (VerdictOf(Parsed(lines, effects)) == Accepted)
      <==> (exists parts: seq<Part> :: Proper(parts) && SpelledAll(parts) == cmds && AllSound(parts, effects, 0, []))
  {
    var cmds := Commands(lines, 0);
    ParseIsRun(lines, effects, 0, START);
    RunCounts(cmds, effects, 0, START);
    if VerdictOf(Parsed(lines, effects)) == Accepted {
      var parts := NoErrorsIsProper(cmds);
      PartsClean(parts, effects, 0, START);
    }
    if exists parts: seq<Part> :: Proper(parts) && SpelledAll(parts) == cmds && AllSound(parts, effects, 0, []) {
      var parts: seq<Part> :| Proper(parts) && SpelledAll(parts) == cmds && AllSound(parts, effects, 0, []);
      PartsClean(parts, effects, 0, START);
      ProperHasNoErrors(parts);
    }
  }

  /** However an accepted file is taken apart, the stream list holds its sections, in order. */
  lemma AcceptedLists(lines: seq<string>, effects: nat -> Effect, parts: seq<Part>)
    requires VerdictOf(Parsed(lines, effects)) == Accepted && Proper(parts) && SpelledAll(parts) == Commands(lines, 0)
    ensures Parsed(lines, effects).entries == SectionsOf(parts)
  {
    ParseIsRun(lines, effects, 0, START);
    RunCounts(Commands(lines, 0), effects, 0, START);
    PartsClean(parts, effects, 0, START);
    assert [] + SectionsOf(parts) == SectionsOf(parts);
  }
}
