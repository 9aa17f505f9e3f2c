/**
 Splitting a command line into option groups: split_commandline and its helpers in cmdutils.c.

 Options collect until a separator, an output file name or an option such as -i, closes their group.
 The AVOption tables are a classifier; a dictionary is the ordered list of av_dict_set calls made on it.
 */
module CommandLine {
  import opened Common

  /** OptionDef; perFile stands for any of OPT_PERFILE, OPT_SPEC and OPT_OFFSET. */
  datatype OptionDef = OptionDef(name: string, exits: bool, hasArg: bool, isBool: bool, perFile: bool)

  /** Option; the value is NULL for an exiting option at the end of the command line. */
  datatype Opt = Opt(def: OptionDef, key: string, val: Option<string>)

  /** Which of the five dictionaries an AVOption goes to. */
  datatype Route = Route(codec: bool, format: bool, sws: bool, swr: bool, resample: bool)

  datatype Setting = Setting(key: string, val: string, route: Route)

  /** opt_default: stored in some dictionaries, AVERROR_OPTION_NOT_FOUND, or another error. */
  datatype Verdict = Routed(route: Route) | NotFound | Rejected(code: int)

  /** The option table, the separators of the group definitions, and the AVOption classifier. */
  datatype Env = Env(options: seq<OptionDef>, separators: seq<Option<string>>, classify: (string, string) -> Verdict)

  /** OptionGroup: the argument of its separator, its options and its dictionary entries. */
  datatype Group = Group(arg: string, opts: seq<Opt>, settings: seq<Setting>)

  datatype Error = MissingArgument(opt: string) | Unrecognized(opt: string) | AvError(code: int)

  /** init_opts presets the scaler flags. */
  const PRESET: seq<Setting> := [Setting("flags", "bicubic", Route(false, false, true, false, false))]

  // ---------------------------------------------------------------------------------------------
  // Reading one item

  /** One reading of the loop; ownArg says that the value came from the command line. */
  datatype Item =
    | Dashes
    | FileName(arg: string)
    | Separator(name: string, group: nat, arg: string)
    | AnOption(opt: Opt, ownArg: bool)
    | AvOption(setting: Setting)

  function UpToColon(s: string): string {
    if s == [] || s[0] == ':' then [] else [s[0]] + UpToColon(s[1..])
  }

  /** find_option: the first definition whose name is the part before a colon. */
  function Find(options: seq<OptionDef>, name: string): Option<OptionDef> {
    if options == [] then None
    else if options[0].name == UpToColon(name) then Some(options[0])
    else Find(options[1..], name)
  }

  /** match_group_separator. */
  function Match(separators: seq<Option<string>>, from: nat, opt: string): (g: Option<nat>)
    ensures g.Some? ==> from <= g.value < |separators| && separators[g.value] == Some(opt)
    decreases |separators| - from
  {
    if from >= |separators| then None
    else if separators[from] == Some(opt) then Some(from)
    else Match(separators, from + 1, opt)
  }

  /** The item at i, and how many words it takes; afterDashes says that the word before was "--". */
  function Read(env: Env, argv: seq<string>, i: nat, afterDashes: bool): Result<(Item, nat), Error>
    requires i < |argv|
  {
    var word := argv[i];
    if word == "--" then Success((Dashes, 1))
    else if |word| < 2 || word[0] != '-' || afterDashes then Success((FileName(word), 1))
    else ReadOption(env, word[1..], if i + 1 < |argv| then Some(argv[i + 1]) else None)
  }

  function ReadOption(env: Env, opt: string, arg: Option<string>): (r: Result<(Item, nat), Error>)
    ensures r.Success? ==> 1 <= r.value.1 <= (if arg.Some? then 2 else 1) && !r.value.0.Dashes? && !r.value.0.FileName?
    ensures r.Success? && r.value.0.Separator? ==> r.value.0.group < |env.separators|
  {
    match Match(env.separators, 0, opt)
    case Some(g) => if arg.None? then Failure(MissingArgument(opt)) else Success((Separator(opt, g, arg.value), 2))
    case None =>
      match Find(env.options, opt)
      case Some(def) =>
        if def.exits then Success((AnOption(Opt(def, opt, arg), arg.Some?), if arg.Some? then 2 else 1))
        else if def.hasArg then
          if arg.None? then Failure(MissingArgument(opt)) else Success((AnOption(Opt(def, opt, arg), true), 2))
        else Success((AnOption(Opt(def, opt, Some("1")), false), 1))
      case None =>
        match (if arg.Some? then env.classify(opt, arg.value) else NotFound)
        case Routed(route) =>
          if arg.Some? then Success((AvOption(Setting(opt, arg.value, route)), 2)) else ReadNegated(env, opt)
        case Rejected(code) => Failure(AvError(code))
        case NotFound => ReadNegated(env, opt)
  }

  /** boolean -nofoo options. */
  function ReadNegated(env: Env, opt: string): (r: Result<(Item, nat), Error>)
    ensures r.Success? ==> r.value.1 == 1 && r.value.0.AnOption?
  {
    var def := if "no" <= opt then Find(env.options, opt[2..]) else None;
    if def.Some? && def.value.isBool then Success((AnOption(Opt(def.value, opt, Some("0")), false), 1))
    else Failure(Unrecognized(opt))
  }

  /** All items from word i on. */
  function Items(env: Env, argv: seq<string>, i: nat, afterDashes: bool): (r: Result<seq<Item>, Error>)
    requires env.separators != []
    ensures r.Success? ==> GroupsExist(r.value, |env.separators|)
    decreases |argv| - i
  {
    if i >= |argv| then Success([])
    else
      match Read(env, argv, i, afterDashes)
      case Failure(e) => Failure(e)
      case Success((item, used)) =>
        match Items(env, argv, i + used, item.Dashes?)
        case Failure(e) => Failure(e)
        case Success(rest) => Success([item] + rest)
  }

  // ---------------------------------------------------------------------------------------------
  // Collecting items

  /** OptionParseContext, with the global dictionaries of the group being read. */
  datatype Context = Context(globals: seq<Opt>, groups: seq<seq<Group>>, cur: seq<Opt>, settings: seq<Setting>)

  function Start(nbGroups: nat): Context {
    Context([], seq(nbGroups, i => []), [], PRESET)
  }

  /** finish_group. */
  function Finish(c: Context, g: nat, arg: string): Context
    requires g < |c.groups|
  {
    c.(groups := c.groups[g := c.groups[g] + [Group(arg, c.cur, c.settings)]], cur := [], settings := PRESET)
  }

  function GroupOf(item: Item): nat { if item.Separator? then item.group else 0 }

  predicate Closes(item: Item) { item.FileName? || item.Separator? }

  function Collect(c: Context, item: Item): Context
    requires Closes(item) ==> GroupOf(item) < |c.groups|
  {
    match item
    case Dashes => c
    case FileName(arg) => Finish(c, 0, arg)
    case Separator(_, g, arg) => Finish(c, g, arg)
    case AnOption(opt, _) => if opt.def.perFile then c.(cur := c.cur + [opt]) else c.(globals := c.globals + [opt])
    case AvOption(s) => c.(settings := c.settings + [s])
  }

  predicate GroupsExist(items: seq<Item>, nbGroups: nat) {
    forall i :: 0 <= i < |items| && Closes(items[i]) ==> GroupOf(items[i]) < nbGroups
  }

  function CollectAll(items: seq<Item>, nbGroups: nat): (c: Context)
    requires GroupsExist(items, nbGroups)
    ensures |c.groups| == nbGroups
  {
    if items == [] then Start(nbGroups)
    else Collect(CollectAll(items[..|items| - 1], nbGroups), items[|items| - 1])
  }

  /** Reading and collecting in one pass, as the loop does. */
  function Split(env: Env, argv: seq<string>, i: nat, afterDashes: bool, c: Context): Result<Context, Error>
    requires env.separators != [] && |c.groups| == |env.separators|
    decreases |argv| - i
  {
    if i >= |argv| then Success(c)
    else
      match Read(env, argv, i, afterDashes)
      case Failure(e) => Failure(e)
      case Success((item, used)) => Split(env, argv, i + used, item.Dashes?, Collect(c, item))
  }

  function CollectOn(c: Context, items: seq<Item>): (d: Context)
    requires GroupsExist(items, |c.groups|)
    ensures |d.groups| == |c.groups|
    decreases |items|
  {
    if items == [] then c else CollectOn(Collect(c, items[0]), items[1..])
  }

  lemma {:induction false} SplitReads(env: Env, argv: seq<string>, i: nat, afterDashes: bool, c: Context)
    requires env.separators != [] && |c.groups| == |env.separators|
    ensures match Items(env, argv, i, afterDashes)
      case Failure(e) => Split(env, argv, i, afterDashes, c) == Failure(e)
      case Success(items) => Split(env, argv, i, afterDashes, c) == Success(CollectOn(c, items))
    decreases |argv| - i
  {
    if i >= |argv| || Read(env, argv, i, afterDashes).Failure? {
    } else {
      var (item, used) := Read(env, argv, i, afterDashes).value;
      SplitReads(env, argv, i + used, item.Dashes?, Collect(c, item));
      var rest := Items(env, argv, i + used, item.Dashes?);
      if rest.Success? { assert ([item] + rest.value)[1..] == rest.value; }
    }
  }

  lemma {:induction false} CollectOnIsCollectAll(done: seq<Item>, items: seq<Item>, nbGroups: nat)
    requires GroupsExist(done + items, nbGroups) && GroupsExist(done, nbGroups) && GroupsExist(items, nbGroups)
    ensures CollectOn(CollectAll(done, nbGroups), items) == CollectAll(done + items, nbGroups)
    decreases |items|
  {
    if items == [] {
      assert done + items == done;
    } else {
      var next := done + [items[0]];
      assert next[..|done|] == done && next + items[1..] == done + items;
      CollectOnIsCollectAll(next, items[1..], nbGroups);
    }
  }

  lemma SplitIsCollect(env: Env, argv: seq<string>)
    requires env.separators != []
    ensures match Items(env, argv, 1, false)
      case Failure(e) => Split(env, argv, 1, false, Start(|env.separators|)) == Failure(e)
      case Success(items) =>
        Split(env, argv, 1, false, Start(|env.separators|)) == Success(CollectAll(items, |env.separators|))
  {
    SplitReads(env, argv, 1, false, Start(|env.separators|));
    var items := Items(env, argv, 1, false);
    if items.Success? {
      assert [] + items.value == items.value;
      CollectOnIsCollectAll([], items.value, |env.separators|);
    }
  }

  // ---------------------------------------------------------------------------------------------
  // The code

  class ParseContext {
    var globals: seq<Opt>
    var groups: seq<seq<Group>>
    var cur: seq<Opt>
    var settings: seq<Setting>

    /** init_parse_context. */
    constructor (nbGroups: nat)
      ensures State() == Start(nbGroups)
    {
      globals, groups, cur, settings := [], seq(nbGroups, i => []), [], PRESET;
    }

    function State(): Context
      reads this
    {
      Context(globals, groups, cur, settings)
    }

    method FinishGroup(g: nat, arg: string)
      requires g < |groups|
      modifies this
      ensures State() == Finish(old(State()), g, arg)
    {
      groups := groups[g := groups[g] + [Group(arg, cur, settings)]];
      cur, settings := [], PRESET;
    }

    method AddOpt(opt: Opt)
      modifies this
      ensures State() == Collect(old(State()), AnOption(opt, false)) == Collect(old(State()), AnOption(opt, true))
    {
      if opt.def.perFile { cur := cur + [opt]; } else { globals := globals + [opt]; }
    }

    /** The loop body past the unnamed separators; argv[optindex - 1] is "-" + opt. */
    method HandleOption(env: Env, opt: string, arg: Option<string>) returns (used: nat, error: Option<Error>)
      requires |groups| == |env.separators|
      modifies this
      ensures match ReadOption(env, opt, arg)
        case Failure(e) => error == Some(e)
        case Success((item, n)) => error.None? && used == n && State() == Collect(old(State()), item)
    {
      used, error := 1, None;
      var g := Match(env.separators, 0, opt);
      if g.Some? {
        if arg.None? { return 1, Some(MissingArgument(opt)); }
        FinishGroup(g.value, arg.value);
        return 2, None;
      }
      var po := Find(env.options, opt);
      if po.Some? {
        if po.value.exits {
          AddOpt(Opt(po.value, opt, arg));
          return if arg.Some? then 2 else 1, None;
        } else if po.value.hasArg {
          if arg.None? { return 1, Some(MissingArgument(opt)); }
          AddOpt(Opt(po.value, opt, arg));
          return 2, None;
        }
        AddOpt(Opt(po.value, opt, Some("1")));
        return 1, None;
      }
      if arg.Some? {
        var verdict := env.classify(opt, arg.value);
        if verdict.Routed? {
          settings := settings + [Setting(opt, arg.value, verdict.route)];
          return 2, None;
        } else if verdict.Rejected? {
          return 1, Some(AvError(verdict.code));
        }
      }
      if |opt| >= 2 && opt[0] == 'n' && opt[1] == 'o' {
        po := Find(env.options, opt[2..]);
        if po.Some? && po.value.isBool {
          AddOpt(Opt(po.value, opt, Some("0")));
          return 1, None;
        }
      }
      return 1, Some(Unrecognized(opt));
    }

    /** split_commandline; argv[0] is the program. */
    method SplitCommandline(env: Env, argv: seq<string>) returns (error: Option<Error>)
      requires State() == Start(|env.separators|) && env.separators != []
      modifies this
      ensures match Items(env, argv, 1, false)
        case Failure(e) => error == Some(e)
        case Success(items) => error.None? && State() == CollectAll(items, |env.separators|)
    {
      SplitIsCollect(env, argv);
      var optindex, dashdash := 1, -2;
      while optindex < |argv|
        invariant 1 <= optindex && dashdash <= optindex && |groups| == |env.separators|
        invariant Split(env, argv, optindex, dashdash == optindex, State()) == Split(env, argv, 1, false, old(State()))
        decreases |argv| - optindex
      {
        var opt := argv[optindex];
        optindex := optindex + 1;
        if |opt| == 2 && opt[0] == '-' && opt[1] == '-' {
          dashdash := optindex;
        } else if |opt| < 2 || opt[0] != '-' || dashdash + 1 == optindex {
          FinishGroup(0, opt);
        } else {
          var used;
          used, error := HandleOption(env, opt[1..], if optindex < |argv| then Some(argv[optindex]) else None);
          if error.Some? { return; }
          optindex := optindex + used - 1;
        }
      }
      error := None;
    }
  }

  // ---------------------------------------------------------------------------------------------
  // Every word is used once

  /** The words an item was read from. */
  function Spelling(item: Item): seq<string> {
    match item
    case Dashes => ["--"]
    case FileName(arg) => [arg]
    case Separator(name, _, arg) => ["-" + name, arg]
    case AnOption(opt, ownArg) => if ownArg && opt.val.Some? then ["-" + opt.key, opt.val.value] else ["-" + opt.key]
    case AvOption(s) => ["-" + s.key, s.val]
  }

  function Spell(items: seq<Item>): seq<string> {
    if items == [] then [] else Spelling(items[0]) + Spell(items[1..])
  }

  lemma ItemSpelled(env: Env, argv: seq<string>, i: nat, afterDashes: bool)
    requires i < |argv| && Read(env, argv, i, afterDashes).Success?
    ensures var (item, used) := Read(env, argv, i, afterDashes).value;
      i + used <= |argv| && Spelling(item) == argv[i..i + used]
  {
    var word := argv[i];
    if word != "--" && |word| >= 2 && word[0] == '-' && !afterDashes {
      assert "-" + word[1..] == word;
    }
  }

  /** On success the items, spelled out, are the command line: every word belongs to exactly one item. */
  lemma {:induction false} EveryWordUsed(env: Env, argv: seq<string>, i: nat, afterDashes: bool)
    requires env.separators != [] && i <= |argv|
    ensures Items(env, argv, i, afterDashes).Success? ==> Spell(Items(env, argv, i, afterDashes).value) == argv[i..]
    decreases |argv| - i
  {
    if i >= |argv| || Items(env, argv, i, afterDashes).Failure? {
    } else {
      ItemSpelled(env, argv, i, afterDashes);
      var (item, used) := Read(env, argv, i, afterDashes).value;
      EveryWordUsed(env, argv, i + used, item.Dashes?);
      assert argv[i..] == argv[i..i + used] + argv[i + used..];
    }
  }

  // ---------------------------------------------------------------------------------------------
  // Groups are segments of the command line

  /** What an item adds to the group being read, to the globals, and to the dictionaries. */
  function OwnOpt(item: Item): seq<Opt> { if item.AnOption? && item.opt.def.perFile then [item.opt] else [] }
  function OwnGlobal(item: Item): seq<Opt> { if item.AnOption? && !item.opt.def.perFile then [item.opt] else [] }
  function OwnSetting(item: Item): seq<Setting> { if item.AvOption? then [item.setting] else [] }

  function PerFile(items: seq<Item>): seq<Opt> {
    if items == [] then [] else PerFile(items[..|items| - 1]) + OwnOpt(items[|items| - 1])
  }

  function Globals(items: seq<Item>): seq<Opt> {
    if items == [] then [] else Globals(items[..|items| - 1]) + OwnGlobal(items[|items| - 1])
  }

  function Settings(items: seq<Item>): seq<Setting> {
    if items == [] then [] else Settings(items[..|items| - 1]) + OwnSetting(items[|items| - 1])
  }

  lemma Snoc(items: seq<Item>, item: Item)
    ensures PerFile(items + [item]) == PerFile(items) + OwnOpt(item)
    ensures Globals(items + [item]) == Globals(items) + OwnGlobal(item)
    ensures Settings(items + [item]) == Settings(items) + OwnSetting(item)
  {
    assert (items + [item])[..|items|] == items;
  }

  /** Where the group still open at the end begins: just after the last separator. */
  function Open(items: seq<Item>): (p: nat)
    ensures p <= |items|
  {
    if items == [] then 0
    else if Closes(items[|items| - 1]) then |items|
    else Open(items[..|items| - 1])
  }

  /** How many groups of kind g are closed. */
  function Closed(items: seq<Item>, g: nat): nat {
    if items == [] then 0
    else
      var last := items[|items| - 1];
      Closed(items[..|items| - 1], g) + (if Closes(last) && GroupOf(last) == g then 1 else 0)
  }

  /** The group that the separator at p closes: everything since the separator before it. */
  function Segment(items: seq<Item>, p: nat): Group
    requires p < |items| && Closes(items[p])
  {
    var from := Open(items[..p]);
    Group(items[p].arg, PerFile(items[from..p]), PRESET + Settings(items[from..p]))
  }

  /** The parts of the context that are still growing. */
  ghost predicate OpenPart(items: seq<Item>, c: Context) {
    && c.globals == Globals(items)
    && c.cur == PerFile(items[Open(items)..])
    && c.settings == PRESET + Settings(items[Open(items)..])
  }

  /** The group closed at p is where it belongs: among those of its kind, after the ones closed earlier. */
  ghost predicate InPlace(items: seq<Item>, c: Context, p: nat)
    requires p < |items| && Closes(items[p])
  {
    var g, r := GroupOf(items[p]), Closed(items[..p], GroupOf(items[p]));
    g < |c.groups| && r < |c.groups[g]| && c.groups[g][r] == Segment(items, p)
  }

  predicate AllCounted(items: seq<Item>, c: Context) {
    forall g :: 0 <= g < |c.groups| ==> |c.groups[g]| == Closed(items, g)
  }

  ghost predicate AllInPlace(items: seq<Item>, c: Context) {
    forall p :: 0 <= p < |items| && Closes(items[p]) ==> InPlace(items, c, p)
  }

  ghost predicate Segmented(items: seq<Item>, c: Context) {
    && OpenPart(items, c)
    && AllCounted(items, c)
    && AllInPlace(items, c)
  }

  /** A separator starts a new open segment, any other item lengthens the one there is. */
  lemma OpenGrows(front: seq<Item>, item: Item)
    ensures var items := front + [item];
      items[Open(items)..] == if Closes(item) then [] else front[Open(front)..] + [item]
  {
    assert (front + [item])[..|front|] == front;
  }

  /** Collecting an item adds to each growing part what the item owns. */
  lemma CollectAdds(c: Context, item: Item)
    requires Closes(item) ==> GroupOf(item) < |c.groups|
    ensures Collect(c, item).globals == c.globals + OwnGlobal(item)
    ensures Collect(c, item).cur == if Closes(item) then [] else c.cur + OwnOpt(item)
    ensures Collect(c, item).settings == if Closes(item) then PRESET else c.settings + OwnSetting(item)
  {
  }

  lemma OpenPartKept(front: seq<Item>, c: Context, item: Item)
    requires OpenPart(front, c) && (Closes(item) ==> GroupOf(item) < |c.groups|)
    ensures OpenPart(front + [item], Collect(c, item))
  {
    OpenGrows(front, item);
    CollectAdds(c, item);
    Snoc(front, item);
    if Closes(item) {
      assert PRESET + [] == PRESET;
    } else {
      var own := front[Open(front)..];
      Snoc(own, item);
      Regroup(PRESET, Settings(own), OwnSetting(item));
    }
  }

  /** Appending an item does not disturb the segments before it. */
  lemma SegmentsBefore(front: seq<Item>, item: Item, p: nat)
    requires p < |front| && Closes(front[p])
    ensures var items := front + [item];
      items[..p] == front[..p] && Segment(items, p) == Segment(front, p)
  {
    var items := front + [item];
    assert items[..p] == front[..p];
    var from := Open(front[..p]);
    assert items[from..p] == front[from..p];
  }

  lemma CountsKept(front: seq<Item>, c: Context, item: Item)
    requires AllCounted(front, c) && (Closes(item) ==> GroupOf(item) < |c.groups|)
    ensures AllCounted(front + [item], Collect(c, item))
  {
    assert (front + [item])[..|front|] == front;
  }

  /** A closed group stays where it is. */
  lemma StaysInPlace(front: seq<Item>, c: Context, item: Item, p: nat)
    requires p < |front| && Closes(front[p]) && InPlace(front, c, p) && (Closes(item) ==> GroupOf(item) < |c.groups|)
    ensures InPlace(front + [item], Collect(c, item), p)
  {
    SegmentsBefore(front, item, p);
  }

  /** The group a separator closes is the open one, and comes last among those of its kind. */
  lemma NewInPlace(front: seq<Item>, c: Context, item: Item)
    requires OpenPart(front, c) && AllCounted(front, c) && Closes(item) && GroupOf(item) < |c.groups|
    ensures InPlace(front + [item], Collect(c, item), |front|)
  {
    var items := front + [item];
    assert items[..|front|] == front && items[Open(front)..|front|] == front[Open(front)..];
  }

  lemma PlacesKept(front: seq<Item>, c: Context, item: Item)
    requires OpenPart(front, c) && AllCounted(front, c) && AllInPlace(front, c)
    requires Closes(item) ==> GroupOf(item) < |c.groups|
    ensures AllInPlace(front + [item], Collect(c, item))
  {
    forall p | 0 <= p < |front + [item]| && Closes((front + [item])[p])
      ensures InPlace(front + [item], Collect(c, item), p)
    {
      if p < |front| { StaysInPlace(front, c, item, p); } else { NewInPlace(front, c, item); }
    }
  }

  lemma CollectSegments(front: seq<Item>, c: Context, item: Item)
    requires Segmented(front, c) && (Closes(item) ==> GroupOf(item) < |c.groups|)
    ensures Segmented(front + [item], Collect(c, item))
  {
    OpenPartKept(front, c, item);
    CountsKept(front, c, item);
    PlacesKept(front, c, item);
  }

  /** Each group holds exactly the per-file options and AVOptions between its separator and the one before. */
  lemma {:induction false} GroupsAreSegments(items: seq<Item>, nbGroups: nat)
    requires GroupsExist(items, nbGroups)
    ensures Segmented(items, CollectAll(items, nbGroups))
  {
    if items == [] {
    } else {
      var front, item := items[..|items| - 1], items[|items| - 1];
      GroupsAreSegments(front, nbGroups);
      assert front + [item] == items;
      CollectSegments(front, CollectAll(front, nbGroups), item);
    }
  }

  /** The first separator after position k. */
  predicate FirstAfter(items: seq<Item>, k: nat, p: nat) {
    k < p < |items| && Closes(items[p]) && forall q :: k < q < p ==> !Closes(items[q])
  }

  lemma {:induction false} OpenIsLast(items: seq<Item>)
    ensures Open(items) > 0 ==> Closes(items[Open(items) - 1])
    ensures forall q :: Open(items) <= q < |items| ==> !Closes(items[q])
  {
    if items == [] || Closes(items[|items| - 1]) {
    } else {
      OpenIsLast(items[..|items| - 1]);
    }
  }

  /** An option belongs to exactly one group: that of the first separator after it, or none if there is none. */
  lemma {:induction false} BelongsToNextSeparator(items: seq<Item>, k: nat, p: nat)
    requires k < |items| && !Closes(items[k]) && p < |items| && Closes(items[p])
    ensures Open(items[..p]) <= k < p <==> FirstAfter(items, k, p)
    ensures Open(items) <= k <==> forall q :: k < q < |items| ==> !Closes(items[q])
  {
    OpenIsLast(items[..p]);
    OpenIsLast(items);
    var from := Open(items[..p]);
    assert from > 0 ==> Closes(items[from - 1]);
  }
}
