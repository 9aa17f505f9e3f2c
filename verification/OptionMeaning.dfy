/**
 What each word of a command line means to split_commandline: separator, option with its value, AVOption, file
 name or error. The meanings are stated on the option table itself, not on the search through it.
 */
module OptionMeaning {
  import opened Common
  import opened CommandLine

  // ---------------------------------------------------------------------------------------------
  // Names in the tables

  /** The key is that name, or that name with a colon and a stream specifier. */
  predicate Names(name: string, key: string) {
    && ':' !in name && name <= key
    && (|name| < |key| ==> key[|name|] == ':')
  }

  /** The first definition that the key names. */
  predicate Defines(options: seq<OptionDef>, d: nat, key: string) {
    && d < |options| && Names(options[d].name, key)
    && forall j :: 0 <= j < d ==> !Names(options[j].name, key)
  }

  predicate Undefined(options: seq<OptionDef>, key: string) {
    forall j :: 0 <= j < |options| ==> !Names(options[j].name, key)
  }

  /** The first separator of that name. */
  predicate Separates(separators: seq<Option<string>>, g: nat, key: string) {
    && g < |separators| && separators[g] == Some(key)
    && forall j :: 0 <= j < g ==> separators[j] != Some(key)
  }

  predicate NoSeparator(separators: seq<Option<string>>, key: string) { Some(key) !in separators }

  lemma {:induction false} UpToColonNames(name: string, key: string)
    ensures Names(name, key) <==> name == UpToColon(key)
  {
    if |key| == 0 || key[0] == ':' {
      assert name <= key ==> |name| == 0 || name[0] == key[0];
    } else {
      var rest := key[1..];
      if |name| > 0 {
        UpToColonNames(name[1..], rest);
        assert name == [name[0]] + name[1..] && key == [key[0]] + rest;
        assert name <= key <==> name[0] == key[0] && name[1..] <= rest;
        assert ':' in name <==> name[0] == ':' || ':' in name[1..];
      }
    }
  }

  lemma {:induction false} FindDefines(options: seq<OptionDef>, key: string)
    ensures match Find(options, key)
      case Some(def) => exists d: nat :: Defines(options, d, key) && options[d] == def
      case None => Undefined(options, key)
  {
    if |options| == 0 {
    } else {
      UpToColonNames(options[0].name, key);
      if options[0].name == UpToColon(key) {
        assert Defines(options, 0, key);
      } else {
        FindDefines(options[1..], key);
        match Find(options[1..], key)
        case Some(def) =>
          var d: nat :| Defines(options[1..], d, key) && options[1..][d] == def;
          DefinesLater(options, d, key);
        case None =>
          assert forall j :: 1 <= j < |options| ==> options[j] == options[1..][j - 1];
      }
    }
  }

  lemma DefinesLater(options: seq<OptionDef>, d: nat, key: string)
    requires |options| > 0 && Defines(options[1..], d, key) && !Names(options[0].name, key)
    ensures Defines(options, d + 1, key) && options[d + 1] == options[1..][d]
  {
    assert forall j :: 1 <= j < d + 1 ==> options[j] == options[1..][j - 1];
  }

  lemma {:induction false} MatchSeparates(separators: seq<Option<string>>, from: nat, key: string)
    requires forall j :: 0 <= j < from && j < |separators| ==> separators[j] != Some(key)
    ensures match Match(separators, from, key)
      case Some(g) => Separates(separators, g, key)
      case None => NoSeparator(separators, key)
    decreases |separators| - from
  {
    if from >= |separators| || separators[from] == Some(key) {
    } else {
      MatchSeparates(separators, from + 1, key);
    }
  }

  // ---------------------------------------------------------------------------------------------
  // The meaning of a word

  /** An option by its own name: its value is the next word, or "1" for one that takes none. */
  ghost predicate PlainOption(env: Env, key: string, next: Option<string>, opt: Opt, ownArg: bool) {
    && opt.key == key && NoSeparator(env.separators, key)
    && (exists d: nat :: Defines(env.options, d, key) && env.options[d] == opt.def)
    && (if opt.def.exits then opt.val == next && ownArg == next.Some?
        else if opt.def.hasArg then next.Some? && opt.val == next && ownArg
        else opt.val == Some("1") && !ownArg)
  }

  /** With the next word as its value the key is no AVOption. */
  predicate NoAvOption(env: Env, key: string, next: Option<string>) {
    next.Some? ==> env.classify(key, next.value).NotFound?
  }

  /** A boolean option with "no" before its name: its value is "0". */
  ghost predicate NegatedOption(env: Env, key: string, next: Option<string>, opt: Opt, ownArg: bool) {
    && opt.key == key && NoSeparator(env.separators, key) && Undefined(env.options, key) && NoAvOption(env, key, next)
    && "no" <= key && (exists d: nat :: Defines(env.options, d, key[2..]) && env.options[d] == opt.def)
    && opt.def.isBool && opt.val == Some("0") && !ownArg
  }

  /** A word behind a dash, as an item. */
  ghost predicate OptionMeans(env: Env, key: string, next: Option<string>, item: Item) {
    match item
    case Separator(name, g, arg) => name == key && Separates(env.separators, g, key) && next == Some(arg)
    case AnOption(opt, ownArg) => PlainOption(env, key, next, opt, ownArg) || NegatedOption(env, key, next, opt, ownArg)
    case AvOption(setting) =>
      && NoSeparator(env.separators, key) && Undefined(env.options, key) && next == Some(setting.val)
      && setting.key == key && env.classify(key, setting.val) == Routed(setting.route)
    case _ => false
  }

  /** And as an error. */
  ghost predicate OptionFails(env: Env, key: string, next: Option<string>, e: Error) {
    match e
    case MissingArgument(opt) =>
      && opt == key && next.None?
      && (Some(key) in env.separators
          || exists d: nat :: Defines(env.options, d, key) && env.options[d].hasArg && !env.options[d].exits)
    case AvError(code) =>
      && NoSeparator(env.separators, key) && Undefined(env.options, key)
      && next.Some? && env.classify(key, next.value) == Rejected(code)
    case Unrecognized(opt) =>
      && opt == key && NoSeparator(env.separators, key) && Undefined(env.options, key) && NoAvOption(env, key, next)
      && !("no" <= key && exists d: nat :: Defines(env.options, d, key[2..]) && env.options[d].isBool)
  }

  /** Two definitions cannot both be the first. */
  lemma DefinedOnce(options: seq<OptionDef>, c: nat, d: nat, key: string)
    requires Defines(options, c, key) && Defines(options, d, key)
    ensures c == d
  {
  }

  lemma NegatedMeans(env: Env, key: string, next: Option<string>)
    requires NoSeparator(env.separators, key) && Undefined(env.options, key) && NoAvOption(env, key, next)
    ensures match ReadNegated(env, key)
      case Success((item, used)) => item.AnOption? && NegatedOption(env, key, next, item.opt, item.ownArg)
      case Failure(e) => OptionFails(env, key, next, e)
  {
    if "no" <= key {
      FindDefines(env.options, key[2..]);
      forall c: nat, d: nat | Defines(env.options, c, key[2..]) && Defines(env.options, d, key[2..]) ensures c == d {
        DefinedOnce(env.options, c, d, key[2..]);
      }
    }
  }

  /** The option is read as what it means, and fails when it should. */
  lemma ReadMeans(env: Env, key: string, next: Option<string>)
    ensures match ReadOption(env, key, next)
      case Success((item, used)) => OptionMeans(env, key, next, item)
      case Failure(e) => OptionFails(env, key, next, e)
  {
    MatchSeparates(env.separators, 0, key);
    FindDefines(env.options, key);
    if Match(env.separators, 0, key).None? && Find(env.options, key).None? && NoAvOption(env, key, next) {
      NegatedMeans(env, key, next);
    }
  }

  // ---------------------------------------------------------------------------------------------
  // The meaning of a command line

  /** What the word at that place means; afterDashes says that the word before was "--". */
  ghost predicate WordMeans(env: Env, argv: seq<string>, at: nat, afterDashes: bool, item: Item)
    requires at < |argv|
  {
    var word := argv[at];
    if word == "--" then item == Dashes
    else if afterDashes || |word| < 2 || word[0] != '-' then item == FileName(word)
    else OptionMeans(env, word[1..], NextWord(argv, at), item)
  }

  function NextWord(argv: seq<string>, at: nat): Option<string> {
    if at + 1 < |argv| then Some(argv[at + 1]) else None
  }

  /** The word at that place makes the command line wrong. */
  ghost predicate WordFails(env: Env, argv: seq<string>, at: nat, afterDashes: bool, e: Error)
    requires at < |argv|
  {
    && !afterDashes && argv[at] != "--" && |argv[at]| >= 2 && argv[at][0] == '-'
    && OptionFails(env, argv[at][1..], NextWord(argv, at), e)
  }

  /** Items that are, in order and without a gap, the meanings of the words from i up to the returned place. */
  ghost predicate ItemsMean(env: Env, argv: seq<string>, i: nat, afterDashes: bool, items: seq<Item>, end: nat)
    decreases |items|
  {
    if |items| == 0 then end == i
    else
      && i < |argv| && WordMeans(env, argv, i, afterDashes, items[0])
      && ItemsMean(env, argv, i + |Spelling(items[0])|, items[0].Dashes?, items[1..], end)
  }

  lemma WordRead(env: Env, argv: seq<string>, i: nat, afterDashes: bool)
    requires i < |argv|
    ensures match Read(env, argv, i, afterDashes)
      case Success((item, used)) => WordMeans(env, argv, i, afterDashes, item) && used == |Spelling(item)|
      case Failure(e) => WordFails(env, argv, i, afterDashes, e)
  {
    if argv[i] != "--" && |argv[i]| >= 2 && argv[i][0] == '-' && !afterDashes {
      ReadMeans(env, argv[i][1..], NextWord(argv, i));
    }
    if Read(env, argv, i, afterDashes).Success? { ItemSpelled(env, argv, i, afterDashes); }
  }

  /** A command line that is accepted is the sequence of the meanings of its words. */
  lemma {:induction false} AcceptedMeans(env: Env, argv: seq<string>, i: nat, afterDashes: bool)
    requires env.separators != [] && i <= |argv| && Items(env, argv, i, afterDashes).Success?
    ensures ItemsMean(env, argv, i, afterDashes, Items(env, argv, i, afterDashes).value, |argv|)
    decreases |argv| - i
  {
    if i >= |argv| {
    } else {
      WordRead(env, argv, i, afterDashes);
      ItemSpelled(env, argv, i, afterDashes);
      var (item, used) := Read(env, argv, i, afterDashes).value;
      AcceptedMeans(env, argv, i + used, item.Dashes?);
      MeansCons(env, argv, i, afterDashes, item, Items(env, argv, i + used, item.Dashes?).value, |argv|);
    }
  }

  lemma MeansCons(env: Env, argv: seq<string>, i: nat, afterDashes: bool, item: Item, rest: seq<Item>, end: nat)
    requires i < |argv| && WordMeans(env, argv, i, afterDashes, item)
    requires ItemsMean(env, argv, i + |Spelling(item)|, item.Dashes?, rest, end)
    ensures ItemsMean(env, argv, i, afterDashes, [item] + rest, end)
    ensures LastDashes([item] + rest, afterDashes) == LastDashes(rest, item.Dashes?)
  {
    assert ([item] + rest)[1..] == rest;
  }

  function LastDashes(items: seq<Item>, afterDashes: bool): bool {
    if |items| == 0 then afterDashes else items[|items| - 1].Dashes?
  }

  /** The error is that of this word or of the words behind its item. */
  lemma RefusedLater(env: Env, argv: seq<string>, i: nat, afterDashes: bool, e: Error)
    requires env.separators != [] && i <= |argv| && Items(env, argv, i, afterDashes) == Failure(e)
    ensures i < |argv|
    ensures match Read(env, argv, i, afterDashes)
      case Failure(own) => own == e && WordFails(env, argv, i, afterDashes, e)
      case Success((item, used)) =>
        && WordMeans(env, argv, i, afterDashes, item) && used == |Spelling(item)| > 0 && i + used <= |argv|
        && Items(env, argv, i + used, item.Dashes?) == Failure(e)
  {
    WordRead(env, argv, i, afterDashes);
    if Read(env, argv, i, afterDashes).Success? { ItemSpelled(env, argv, i, afterDashes); }
  }

  /** One that is refused has words with a meaning up to one that is wrong, and the error is that word's. */
  lemma {:induction false} RefusedMeans(env: Env, argv: seq<string>, i: nat, afterDashes: bool, e: Error)
    returns (items: seq<Item>, at: nat)
    requires env.separators != [] && i <= |argv| && Items(env, argv, i, afterDashes) == Failure(e)
    ensures ItemsMean(env, argv, i, afterDashes, items, at) && at < |argv|
    ensures WordFails(env, argv, at, LastDashes(items, afterDashes), e)
    decreases |argv| - i
  {
    RefusedLater(env, argv, i, afterDashes, e);
    var read := Read(env, argv, i, afterDashes);
    if read.Failure? {
      items, at := [], i;
    } else {
      var (item, used) := read.value;
      items, at := RefusedMeans(env, argv, i + used, item.Dashes?, e);
      MeansCons(env, argv, i, afterDashes, item, items, at);
      items := [item] + items;
    }
  }

  /** A word has one meaning, or is wrong, not both. */
  lemma OneMeaning(env: Env, argv: seq<string>, at: nat, afterDashes: bool, item: Item, other: Item)
    requires at < |argv| && WordMeans(env, argv, at, afterDashes, item) && WordMeans(env, argv, at, afterDashes, other)
    ensures item == other
  {
    forall key, c: nat, d: nat | Defines(env.options, c, key) && Defines(env.options, d, key) ensures c == d {
      DefinedOnce(env.options, c, d, key);
    }
  }

  lemma NoMeaning(env: Env, argv: seq<string>, at: nat, afterDashes: bool, item: Item, e: Error)
    requires at < |argv| && WordMeans(env, argv, at, afterDashes, item)
    ensures !WordFails(env, argv, at, afterDashes, e)
  {
    forall key, c: nat, d: nat | Defines(env.options, c, key) && Defines(env.options, d, key) ensures c == d {
      DefinedOnce(env.options, c, d, key);
    }
  }
}
