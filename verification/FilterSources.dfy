/**
 Which frames a buffer source gets: whether they have the format it was made for, when a new one is attached,
 and when ifilter_send_frame mixes formats.
 */
module FilterSources {
  import opened Common
  import opened FilterInput

  /** The parameters agree as far as they matter for that kind of stream. */
  predicate Agree(kind: Kind, a: Params, b: Params) {
    && a.format == b.format && a.hw == b.hw
    && (kind.Video? ==> a.width == b.width && a.height == b.height)
    && (kind.Audio? ==> a.rate == b.rate && a.channels == b.channels && a.layout == b.layout)
  }

  /** The frames that the buffer source attached last was given. */
  function Since(s: Input): seq<Frame> { if s.mark <= |s.handed| then Frames(s.handed[s.mark..]) else [] }

  lemma SinceSnoc(s: Input, t: Input, x: Delivery)
    requires s.mark <= |s.handed| && t.mark == s.mark && t.handed == s.handed + [x]
    ensures Since(t) == Since(s) + match x case Plain(f, _) => [f] case AtEnd(_) => []
  {
    FramesSnoc(s.handed[s.mark..], x);
    assert t.handed[t.mark..] == s.handed[s.mark..] + [x];
  }

  // ---------------------------------------------------------------------------------------------
  // Configuring

  /** While a graph is configured a source gets the frames that waited for it, from the queue. */
  predicate Drawn(s: Input) { s.mark <= |s.handed| && Since(s) + s.queue == s.waited }

  predicate AllDrawn(inputs: seq<Input>) { forall i :: 0 <= i < |inputs| ==> Drawn(inputs[i]) }

  lemma PoppedDrawn(s: Input, ok: bool)
    requires Drawn(s) && |s.queue| > 0
    ensures Drawn(Popped(s, ok))
  {
    SinceSnoc(s, Popped(s, ok), Plain(s.queue[0], ok));
    assert s.queue == [s.queue[0]] + s.queue[1..];
    Regroup(Since(s), [s.queue[0]], s.queue[1..]);
  }

  lemma {:induction false} DrainDrawn(s: Input, fails: nat -> bool, k: nat)
    requires Drawn(s)
    ensures Drawn(Drain(s, fails, k).0)
    decreases |s.queue|
  {
    if |s.queue| == 0 {
    } else {
      PoppedDrawn(s, !fails(k));
      if !fails(k) { DrainDrawn(Popped(s, true), fails, k + 1); }
    }
  }

  lemma {:induction false} DrainFromDrawn(inputs: seq<Input>, i: nat, fails: nat -> bool, k: nat)
    requires AllDrawn(inputs)
    ensures AllDrawn(DrainFrom(inputs, i, fails, k).0)
    decreases |inputs| - i
  {
    if i >= |inputs| {
    } else {
      DrainDrawn(inputs[i], fails, k);
      var (s, next, ok) := Drain(inputs[i], fails, k);
      if ok { DrainFromDrawn(inputs[i := s], i + 1, fails, next); }
    }
  }

  lemma FinishDrawn(s: Input, fails: nat -> bool, k: nat)
    requires Drawn(s)
    ensures Drawn(Finish(s, fails, k).0)
  {
    if s.eof { SinceSnoc(s, Finish(s, fails, k).0, AtEnd(!fails(k))); }
  }

  lemma {:induction false} FinishFromDrawn(inputs: seq<Input>, i: nat, fails: nat -> bool, k: nat)
    requires AllDrawn(inputs)
    ensures AllDrawn(FinishFrom(inputs, i, fails, k).0)
    decreases |inputs| - i
  {
    if i >= |inputs| {
    } else {
      FinishDrawn(inputs[i], fails, k);
      var (s, next, ok) := Finish(inputs[i], fails, k);
      if ok { FinishFromDrawn(inputs[i := s], i + 1, fails, next); }
    }
  }

  lemma FedDrawn(inputs: seq<Input>, fails: nat -> bool)
    requires AllDrawn(inputs)
    ensures AllDrawn(FedInputs(inputs, fails).0)
  {
    DrainFromDrawn(inputs, 0, fails, 0);
    var (drained, k, ok) := DrainFrom(inputs, 0, fails, 0);
    if ok { FinishFromDrawn(drained, 0, fails, k); }
  }

  /** t is s with a new buffer source, which has got exactly the frames that were queued. */
  predicate Renewed(s: Input, t: Input) {
    && t.kind == s.kind && t.params == s.params && t.source == s.params && t.waited == s.queue && |t.queue| == 0
    && t.mark == |s.handed| && Drawn(t)
  }

  lemma AttachedDrawn(s: Input)
    ensures Drawn(WithSource(s, true))
  {
    assert s.handed[|s.handed|..] == [];
  }

  lemma RenewedAt(s: Input, t: Input)
    requires SameStream(WithSource(s, true), t) && Drawn(t) && |t.queue| == 0
    ensures Renewed(s, t)
  {
  }

  lemma LiveDrawn(inputs: seq<Input>)
    requires AllKept(inputs)
    ensures AllDrawn(MapLive(inputs, true)) && AllKept(MapLive(inputs, true))
  {
    var live := MapLive(inputs, true);
    forall k | 0 <= k < |live| ensures Drawn(live[k]) { AttachedDrawn(inputs[k]); }
  }

  lemma FedRenews(inputs: seq<Input>, fails: nat -> bool)
    requires AllKept(inputs)
    ensures var (out, next, ok) := FedInputs(MapLive(inputs, true), fails);
      ok ==> forall k :: 0 <= k < |inputs| ==> Renewed(inputs[k], out[k])
  {
    var live := MapLive(inputs, true);
    LiveDrawn(inputs);
    FedDrawn(live, fails);
    FedInputsIs(live, fails);
    var (out, next, ok) := FedInputs(live, fails);
    if ok {
      forall k | 0 <= k < |inputs| ensures Renewed(inputs[k], out[k]) {
        assert SameStream(live[k], out[k]) && Drawn(out[k]);
        RenewedAt(inputs[k], out[k]);
      }
    }
  }

  lemma ConfiguredRenews(g: Graph, setupFails: bool, fails: nat -> bool)
    requires AllKept(g.inputs)
    ensures var (c, next, ok) := Configured(g, setupFails, fails);
      ok ==> forall k :: 0 <= k < |g.inputs| ==> Renewed(g.inputs[k], c.inputs[k])
  {
    FedRenews(g.inputs, fails);
  }

  // ---------------------------------------------------------------------------------------------
  // One call on a configured graph

  /** A frame that agrees with its input goes to the buffer source there is, and nothing else happens. */
  lemma SentOn(g: Graph, i: nat, f: Frame, reapFails: bool, setupFails: bool, fails: nat -> bool)
    requires i < |g.inputs| && g.configured && Agree(g.inputs[i].kind, g.inputs[i].params, f.params)
    ensures var s, t := g.inputs[i], g.inputs[i].(handed := g.inputs[i].handed + [Plain(f, true)],
                                                  sent := g.inputs[i].sent + [f]);
      SendFrame(g, i, f, reapFails, setupFails, fails) ==
        if fails(0) then (g, false) else (g.(inputs := g.inputs[i := t]), true)
  {
    assert g.inputs[i := g.inputs[i]] == g.inputs;
  }

  /** What a call leaves of an input if it attaches new sources: one that has got that frame, or none. */
  predicate Fresh(s: Input, t: Input, params: Params, given: seq<Frame>) {
    t.mark == |s.handed| && t.source == params == t.params && |t.waited| == 0 && Since(t) == given
  }

  /** Every input has a new source, for its present parameters; that of input i has got f, the others nothing. */
  predicate AllFresh(g: Graph, h: Graph, i: nat, f: Frame, params: Params) {
    && |h.inputs| == |g.inputs|
    && forall k :: 0 <= k < |g.inputs| ==>
      Fresh(g.inputs[k], h.inputs[k], if k == i then params else g.inputs[k].params, if k == i then [f] else [])
  }

  predicate NoneHanded(g: Graph, h: Graph) {
    && |h.inputs| == |g.inputs|
    && forall k :: 0 <= k < |g.inputs| ==> Frames(h.inputs[k].handed) == Frames(g.inputs[k].handed)
  }

  /**
   A frame that does not agree never goes to the source there is: if the call succeeds every input has a new
   one, made for the frame's parameters, whose first frame it is; otherwise no source is given any frame.
   */
  lemma NeverToOldSource(g: Graph, i: nat, f: Frame, reapFails: bool, setupFails: bool, fails: nat -> bool)
    requires GraphInv(g) && i < |g.inputs| && !g.inputs[i].eof && f.params.format >= 0
    requires g.configured && !Agree(g.inputs[i].kind, g.inputs[i].params, f.params)
    ensures var (h, ok) := SendFrame(g, i, f, reapFails, setupFails, fails);
      if ok then AllFresh(g, h, i, f, f.params) else NoneHanded(g, h)
  {
    var h := g.(inputs := g.inputs[i := Adapted(g.inputs[i], f)]);
    AdaptedKeeps(g, i, f);
    AdaptedSame(g, i, f, fails);
    if AllKnown(h) && !reapFails {
      ReconfiguredFresh(h, i, f, setupFails, fails);
      var (c, k, done) := Configured(h, setupFails, fails);
      var (r, ok) := if done then Added(c, i, f, fails(k)) else (c, false);
      FreshLater(g, h, r, i, f);
    }
  }

  lemma FreshLater(g: Graph, h: Graph, r: Graph, i: nat, f: Frame)
    requires i < |g.inputs| && h == g.(inputs := g.inputs[i := g.inputs[i].(params := f.params)])
    ensures AllFresh(h, r, i, f, f.params) ==> AllFresh(g, r, i, f, f.params)
    ensures NoneHanded(h, r) ==> NoneHanded(g, r)
  {
    assert forall k :: 0 <= k < |g.inputs| ==>
      h.inputs[k].handed == g.inputs[k].handed && (k != i ==> h.inputs[k] == g.inputs[k]);
  }

  lemma ReconfiguredFresh(h: Graph, i: nat, f: Frame, setupFails: bool, fails: nat -> bool)
    requires GraphInv(h) && h.configured && i < |h.inputs| && !h.inputs[i].eof
    ensures var (c, k, done) := Configured(h, setupFails, fails);
      var (r, ok) := if done then Added(c, i, f, fails(k)) else (c, false);
      if ok then AllFresh(h, r, i, f, h.inputs[i].params) else NoneHanded(h, r)
  {
    ConfiguredFresh(h, f, setupFails, fails);
    ConfiguredHandsNone(h, setupFails, fails);
  }

  lemma ConfiguredFresh(h: Graph, f: Frame, setupFails: bool, fails: nat -> bool)
    requires GraphInv(h) && h.configured
    ensures var (c, k, done) := Configured(h, setupFails, fails);
      done ==> forall j :: 0 <= j < |h.inputs| ==>
        && Fresh(h.inputs[j], c.inputs[j], h.inputs[j].params, [])
        && Fresh(h.inputs[j], Delivered(c.inputs[j], f), h.inputs[j].params, [f])
  {
    var c := Configured(h, setupFails, fails).0;
    ConfiguredRenews(h, setupFails, fails);
    forall j | 0 <= j < |h.inputs| && Renewed(h.inputs[j], c.inputs[j])
      ensures Fresh(h.inputs[j], c.inputs[j], h.inputs[j].params, [])
      ensures Fresh(h.inputs[j], Delivered(c.inputs[j], f), h.inputs[j].params, [f])
    {
      assert Lossless(h.inputs[j]);
      RenewedFresh(h.inputs[j], c.inputs[j], f);
    }
  }

  lemma ConfiguredHandsNone(h: Graph, setupFails: bool, fails: nat -> bool)
    requires GraphInv(h) && h.configured
    ensures NoneHanded(h, Configured(h, setupFails, fails).0)
  {
    var c := Configured(h, setupFails, fails).0;
    ConfiguredInv(h, setupFails, fails);
    ConfiguredStaysEmpty(h, setupFails, fails);
    forall j | 0 <= j < |h.inputs| ensures Frames(c.inputs[j].handed) == Frames(h.inputs[j].handed) {
      assert Lossless(h.inputs[j]) && Lossless(c.inputs[j]);
      NothingHanded(h.inputs[j], c.inputs[j]);
    }
  }

  lemma RenewedFresh(s: Input, t: Input, f: Frame)
    requires Renewed(s, t) && |s.queue| == 0
    ensures Fresh(s, t, s.params, []) && Fresh(s, Delivered(t, f), s.params, [f])
  {
    SinceSnoc(t, Delivered(t, f), Plain(f, true));
    assert Since(t) + t.queue == Since(t);
  }

  lemma ConfiguredStaysEmpty(g: Graph, setupFails: bool, fails: nat -> bool)
    requires AllKept(g.inputs) && forall k :: 0 <= k < |g.inputs| ==> |g.inputs[k].queue| == 0
    ensures var c := Configured(g, setupFails, fails).0;
      forall k :: 0 <= k < |g.inputs| ==> |c.inputs[k].queue| == 0
  {
    var live := MapLive(g.inputs, true);
    LiveDrawn(g.inputs);
    FedDrawn(live, fails);
    FedInputsIs(live, fails);
    var out := FedInputs(live, fails).0;
    forall k | 0 <= k < |live| ensures |out[k].queue| == 0 {
      assert SameStream(live[k], out[k]) && Drawn(out[k]);
      assert |Since(out[k]) + out[k].queue| == |out[k].waited|;
    }
  }

  /** An input without queued frames is given none. */
  lemma NothingHanded(s: Input, t: Input)
    requires Lossless(s) && Lossless(t) && s.sent == t.sent && |s.queue| == 0 && |t.queue| == 0
    ensures Frames(t.handed) == Frames(s.handed)
  {
    assert Frames(s.handed) + s.queue == Frames(s.handed) && Frames(t.handed) + t.queue == Frames(t.handed);
  }

  /** No other audio or video input still lacks a pixel or sample format. */
  predicate FormatsElsewhere(g: Graph, i: nat) {
    forall k :: 0 <= k < |g.inputs| && k != i ==> g.inputs[k].kind.Other? || g.inputs[k].params.format >= 0
  }

  /** A frame that is taken is queued as long as another input's format is missing, and else the graph is configured. */
  lemma ConfiguredIff(g: Graph, i: nat, f: Frame, reapFails: bool, setupFails: bool, fails: nat -> bool)
    requires GraphInv(g) && i < |g.inputs| && !g.inputs[i].eof && f.params.format >= 0
    ensures var (h, ok) := SendFrame(g, i, f, reapFails, setupFails, fails);
      && |h.inputs| == |g.inputs|
      && (ok ==> (h.configured <==> FormatsElsewhere(g, i)))
      && (!FormatsElsewhere(g, i) ==> ok && h.inputs[i].queue == g.inputs[i].queue + [f])
  {
    assert FormatsElsewhere(g, i) <==> OthersKnown(g, i);
    SendFrameKeeps(g, i, f, reapFails, setupFails, fails);
    AdaptedAgrees(g.inputs[i], f);
    UnknownUnconfigured(g, i);
    AdaptedSame(g, i, f, fails);
    if OthersKnown(g, i) && Reinitializes(g, i, f) {
      AdaptedKeeps(g, i, f);
      ConfiguredInv(g.(inputs := g.inputs[i := Adapted(g.inputs[i], f)]), setupFails, fails);
    }
  }

  /**
   Ending an input: the buffer source it has is told; without one, the outputs are finished once all inputs have
   ended, and only then.
   */
  lemma EofReports(g: Graph, i: nat, fail: bool)
    requires GraphInv(g) && i < |g.inputs|
    ensures var (h, ok) := SendEof(g, i, fail); var s, t := g.inputs[i], h.inputs[i];
      && ok == !(g.configured && fail)
      && t.handed == s.handed + (if g.configured then [AtEnd(ok)] else [])
      && (h.finished <==>
            g.finished || (!g.configured && forall k :: 0 <= k < |g.inputs| && k != i ==> g.inputs[k].eof))
  {
    assert g.inputs[i].live == g.configured;
    var h := SendEof(g, i, fail).0;
    assert forall k :: 0 <= k < |g.inputs| ==> h.inputs[k].eof == (k == i || g.inputs[k].eof);
  }

  // ---------------------------------------------------------------------------------------------
  // Runs

  /** The source was made for the input's present parameters. */
  predicate Matches(s: Input) { s.live ==> Agree(s.kind, s.source, s.params) }

  predicate AllMatch(g: Graph) { forall k :: 0 <= k < |g.inputs| ==> Matches(g.inputs[k]) }

  /** Behind the frames that waited for it the source was given only frames of the format it was made for. */
  predicate TrueToSource(s: Input) {
    s.live ==>
      var d := Since(s);
      && |s.waited| <= |d| && d[..|s.waited|] == s.waited
      && forall n :: |s.waited| <= n < |d| ==> Agree(s.kind, s.source, d[n].params)
  }

  predicate AllTrue(g: Graph) { forall k :: 0 <= k < |g.inputs| ==> TrueToSource(g.inputs[k]) }

  /** Reaping the old graph fails once the input's parameters have been replaced. */
  predicate Spoils(g: Graph, e: Event)
    requires e.i < |g.inputs|
  {
    e.SendsFrame? && g.configured && e.reapFails && !Agree(g.inputs[e.i].kind, g.inputs[e.i].params, e.f.params)
  }

  lemma RenewedTrue(s: Input, t: Input, f: Frame)
    requires Renewed(s, t)
    ensures Matches(t) && TrueToSource(t)
    ensures Agree(s.kind, s.params, f.params) ==> Matches(Delivered(t, f)) && TrueToSource(Delivered(t, f))
  {
    assert Since(t) + t.queue == Since(t);
    if Agree(s.kind, s.params, f.params) { DeliveredTrue(t, f); }
  }

  lemma DeliveredTrue(s: Input, f: Frame)
    requires s.mark <= |s.handed| && Matches(s) && TrueToSource(s) && Agree(s.kind, s.params, f.params)
    ensures Matches(Delivered(s, f)) && TrueToSource(Delivered(s, f))
  {
    SinceSnoc(s, Delivered(s, f), Plain(f, true));
    var d := Since(s);
    if s.live { assert (d + [f])[..|s.waited|] == d[..|s.waited|]; }
  }

  /** What holds of each input holds of all after one has been replaced. */
  lemma ReplacedTrue(g: Graph, i: nat, t: Input)
    requires AllMatch(g) && AllTrue(g) && i < |g.inputs| && Matches(t) && TrueToSource(t)
    ensures var h := g.(inputs := g.inputs[i := t]); AllMatch(h) && AllTrue(h)
  {
  }

  lemma NotLive(g: Graph)
    requires forall k :: 0 <= k < |g.inputs| ==> !g.inputs[k].live
    ensures AllMatch(g) && AllTrue(g)
  {
  }

  /** The branch of a call that configures the graph, the input's parameters having been replaced. */
  lemma ConfiguringTrue(h: Graph, i: nat, f: Frame, setupFails: bool, fails: nat -> bool)
    requires GraphInv(h) && AllKnown(h) && i < |h.inputs| && !h.inputs[i].eof
    requires Agree(h.inputs[i].kind, h.inputs[i].params, f.params)
    ensures var (c, k, done) := Configured(h, setupFails, fails);
      var r := if done then Added(c, i, f, fails(k)).0 else c;
      AllMatch(r) && AllTrue(r)
  {
    var (c, k, done) := Configured(h, setupFails, fails);
    ConfiguredInv(h, setupFails, fails);
    ConfiguredRenews(h, setupFails, fails);
    if done {
      forall j | 0 <= j < |c.inputs| ensures Matches(c.inputs[j]) && TrueToSource(c.inputs[j]) {
        RenewedTrue(h.inputs[j], c.inputs[j], f);
      }
      RenewedTrue(h.inputs[i], c.inputs[i], f);
      ReplacedTrue(c, i, Delivered(c.inputs[i], f));
    } else {
      NotLive(c);
    }
  }

  lemma AdaptedAgrees(s: Input, f: Frame)
    ensures var t := Adapted(s, f);
      && Agree(s.kind, t.params, f.params) && (Agree(s.kind, s.params, f.params) ==> t == s)
      && t == s.(params := t.params)
  {
  }

  lemma SentOnTrue(g: Graph, i: nat, f: Frame, reapFails: bool, setupFails: bool, fails: nat -> bool)
    requires GraphInv(g) && AllMatch(g) && AllTrue(g) && i < |g.inputs|
    requires g.configured && Agree(g.inputs[i].kind, g.inputs[i].params, f.params)
    ensures var h := SendFrame(g, i, f, reapFails, setupFails, fails).0; AllTrue(h) && AllMatch(h)
  {
    SentOn(g, i, f, reapFails, setupFails, fails);
    assert Lossless(g.inputs[i]);
    DeliveredTrue(g.inputs[i], f);
    ReplacedTrue(g, i, Delivered(g.inputs[i], f));
  }

  /** A call that has to configure the graph, and can. */
  lemma ReconfiguredTrue(g: Graph, i: nat, f: Frame, setupFails: bool, fails: nat -> bool)
    requires GraphInv(g) && i < |g.inputs| && !g.inputs[i].eof && f.params.format >= 0
    requires !(g.configured && Agree(g.inputs[i].kind, g.inputs[i].params, f.params)) && OthersKnown(g, i)
    ensures var h := SendFrame(g, i, f, false, setupFails, fails).0; AllTrue(h) && AllMatch(h)
  {
    AdaptedAgrees(g.inputs[i], f);
    AdaptedKeeps(g, i, f);
    AdaptedSame(g, i, f, fails);
    ConfiguringTrue(g.(inputs := g.inputs[i := Adapted(g.inputs[i], f)]), i, f, setupFails, fails);
  }

  lemma WaitingTrue(g: Graph, i: nat, f: Frame, reapFails: bool, setupFails: bool, fails: nat -> bool)
    requires GraphInv(g) && i < |g.inputs| && f.params.format >= 0 && !OthersKnown(g, i)
    ensures var h := SendFrame(g, i, f, reapFails, setupFails, fails).0; AllTrue(h) && AllMatch(h) && !g.configured
  {
    UnknownUnconfigured(g, i);
    AdaptedAgrees(g.inputs[i], f);
    AdaptedSame(g, i, f, fails);
    NotLive(SendFrame(g, i, f, reapFails, setupFails, fails).0);
  }

  lemma SendKeepsTrue(g: Graph, i: nat, f: Frame, reapFails: bool, setupFails: bool, fails: nat -> bool)
    requires GraphInv(g) && AllMatch(g) && AllTrue(g)
    requires i < |g.inputs| && !g.inputs[i].eof && f.params.format >= 0
    ensures var h := SendFrame(g, i, f, reapFails, setupFails, fails).0;
      AllTrue(h) && (AllMatch(h) <==> !Spoils(g, SendsFrame(i, f, reapFails, setupFails, fails)))
  {
    if g.configured && Agree(g.inputs[i].kind, g.inputs[i].params, f.params) {
      SentOnTrue(g, i, f, reapFails, setupFails, fails);
    } else if !OthersKnown(g, i) {
      WaitingTrue(g, i, f, reapFails, setupFails, fails);
    } else if reapFails {
      AdaptedAgrees(g.inputs[i], f);
      AdaptedSame(g, i, f, fails);
      ReapFailed(g, i, f);
    } else {
      ReconfiguredTrue(g, i, f, setupFails, fails);
    }
  }

  lemma ReapFailed(g: Graph, i: nat, f: Frame)
    requires GraphInv(g) && AllMatch(g) && AllTrue(g) && i < |g.inputs|
    ensures var h := g.(inputs := g.inputs[i := Adapted(g.inputs[i], f)]);
      AllTrue(h) && (AllMatch(h) <==> !g.configured || Agree(g.inputs[i].kind, g.inputs[i].params, f.params))
  {
    var s := g.inputs[i];
    AdaptedAgrees(s, f);
    var h := g.(inputs := g.inputs[i := Adapted(s, f)]);
    assert h.inputs[i] == Adapted(s, f);
    assert Matches(g.inputs[i]);
  }

  lemma EofKeepsTrue(g: Graph, i: nat, fail: bool)
    requires GraphInv(g) && AllMatch(g) && AllTrue(g) && i < |g.inputs|
    ensures var h := SendEof(g, i, fail).0; AllTrue(h) && AllMatch(h)
  {
    var s := g.inputs[i];
    if s.live {
      var t := s.(eof := true, handed := s.handed + [AtEnd(!fail)]);
      SinceSnoc(s, t, AtEnd(!fail));
      assert Since(s) + [] == Since(s);
      ReplacedTrue(g, i, t);
    } else {
      NotLive(SendEof(g, i, fail).0);
    }
  }

  lemma EventKeepsTrue(g: Graph, e: Event)
    requires GraphInv(g) && AllMatch(g) && AllTrue(g) && Proper(g, e)
    ensures var h := After(g, e).0; AllTrue(h) && (AllMatch(h) <==> !Spoils(g, e))
  {
    match e
    case SendsFrame(i, f, reapFails, setupFails, fails) => SendKeepsTrue(g, i, f, reapFails, setupFails, fails);
    case SendsEof(i, fail) => EofKeepsTrue(g, i, fail);
  }

  predicate NoneSpoils(graphs: seq<Graph>, events: seq<Event>, n: nat)
    requires n <= |graphs| && n <= |events| && forall m :: 0 <= m < n ==> events[m].i < |graphs[m].inputs|
  {
    forall m :: 0 <= m < n ==> !Spoils(graphs[m], events[m])
  }

  /**
   As long as no reaping fails behind changed parameters, and no longer, every source is one made for its
   input's present parameters; and every frame added to it directly has them.
   */
  lemma {:induction false} SourcesMatchIff(graphs: seq<Graph>, events: seq<Event>, n: nat)
    requires IsRun(graphs, events) && n < |graphs|
    ensures (forall m :: 0 <= m <= n ==> AllMatch(graphs[m])) <==> NoneSpoils(graphs, events, n)
    ensures NoneSpoils(graphs, events, n) ==> AllTrue(graphs[n])
    decreases n
  {
    if n == 0 {
      NotLive(graphs[0]);
    } else {
      SourcesMatchIff(graphs, events, n - 1);
      BufferingLossless(graphs, events, n - 1);
      if NoneSpoils(graphs, events, n - 1) { EventKeepsTrue(graphs[n - 1], events[n - 1]); }
    }
  }

  /** So there all frames a source has got are of the format it was made for exactly if those that waited for it are. */
  lemma UniformIff(graphs: seq<Graph>, events: seq<Event>, n: nat, k: nat)
    requires IsRun(graphs, events) && n < |graphs| && k < |graphs[n].inputs| && graphs[n].inputs[k].live
    requires NoneSpoils(graphs, events, n)
    ensures var s := graphs[n].inputs[k];
      && Agree(s.kind, s.source, s.params)
      && ((forall m :: 0 <= m < |Since(s)| ==> Agree(s.kind, s.params, Since(s)[m].params)) <==>
          (forall m :: 0 <= m < |s.waited| ==> Agree(s.kind, s.params, s.waited[m].params)))
  {
    SourcesMatchIff(graphs, events, n);
    var s := graphs[n].inputs[k];
    assert Matches(s) && TrueToSource(s);
    assert forall m :: 0 <= m < |s.waited| ==> s.waited[m] == Since(s)[m];
  }

  // ---------------------------------------------------------------------------------------------
  // Formats that are mixed

  /** A frame for a graph that is not configured and misses another input's format. */
  lemma Waits(g: Graph, i: nat, f: Frame, fails: nat -> bool)
    requires i < |g.inputs| && !g.configured && !OthersKnown(g, i) && f.params.format >= 0
    ensures var s := g.inputs[i]; var t := Buffered(Adapted(s, f), f);
      SendFrame(g, i, f, false, false, fails).0 == g.(inputs := g.inputs[i := t])
  {
    AdaptedSame(g, i, f, fails);
    assert g.inputs[i := Adapted(g.inputs[i], f)][i := Buffered(Adapted(g.inputs[i], f), f)]
      == g.inputs[i := Buffered(Adapted(g.inputs[i], f), f)];
  }

  /** A new source that has got the frames that waited, and that one. */
  predicate Started(s: Input, t: Input, given: seq<Frame>) {
    t.eof == s.eof && t.kind == s.kind && t.source == s.params == t.params && Since(t) == s.queue + given
  }

  lemma RenewedStarted(s: Input, t: Input, f: Frame)
    requires Renewed(s, t) && t.eof == s.eof
    ensures Started(s, t, []) && Started(s, Delivered(t, f), [f])
  {
    assert Since(t) + t.queue == Since(t) && s.queue + [] == s.queue;
    SinceSnoc(t, Delivered(t, f), Plain(f, true));
  }

  lemma ConfiguredStarted(a: Graph, i: nat, f: Frame, fails: nat -> bool)
    requires GraphInv(a) && AllKnown(a) && i < |a.inputs| && forall k: nat :: !fails(k)
    ensures var (c, k, done) := Configured(a, false, fails);
      && done && |c.inputs| == |a.inputs| && c.configured
      && Started(a.inputs[i], Delivered(c.inputs[i], f), [f])
      && forall k :: 0 <= k < |a.inputs| ==> Started(a.inputs[k], c.inputs[k], [])
  {
    ConfiguredInv(a, false, fails);
    ConfiguredRenews(a, false, fails);
    var c := Configured(a, false, fails).0;
    forall k | 0 <= k < |a.inputs|
      ensures Started(a.inputs[k], c.inputs[k], []) && Started(a.inputs[k], Delivered(c.inputs[k], f), [f])
    {
      RenewedStarted(a.inputs[k], c.inputs[k], f);
    }
  }

  /** A frame that is sent, with no failure, to a graph that is not configured and misses no other input's format. */
  lemma Configures(g: Graph, i: nat, f: Frame, fails: nat -> bool)
    requires GraphInv(g) && i < |g.inputs| && f.params.format >= 0
    requires !g.configured && OthersKnown(g, i) && forall k: nat :: !fails(k)
    ensures var h := SendFrame(g, i, f, false, false, fails).0;
      && |h.inputs| == |g.inputs| && h.configured
      && Started(Adapted(g.inputs[i], f), h.inputs[i], [f])
      && forall k :: 0 <= k < |g.inputs| && k != i ==> Started(g.inputs[k], h.inputs[k], [])
  {
    AdaptedSame(g, i, f, fails);
    AdaptedKeeps(g, i, f);
    ConfiguredStarted(g.(inputs := g.inputs[i := Adapted(g.inputs[i], f)]), i, f, fails);
  }

  lemma RunOfThree(g: Graph, e1: Event, e2: Event, e3: Event, h1: Graph, h2: Graph)
    returns (graphs: seq<Graph>, events: seq<Event>)
    requires IsStart(g) && Proper(g, e1) && h1 == After(g, e1).0
    requires Proper(h1, e2) && h2 == After(h1, e2).0 && Proper(h2, e3)
    ensures IsRun(graphs, events) && |events| == 3 && |graphs| == 4
    ensures graphs[0] == g && graphs[3] == After(h2, e3).0
  {
    graphs, events := [g, h1, h2, After(h2, e3).0], [e1, e2, e3];
  }

  /**
   Two frames of different formats wait for the format of another input: the source is made for the second
   and gets both.
   */
  lemma QueueMixes(g: Graph, a: Frame, b: Frame, other: Frame, fails: nat -> bool)
    returns (graphs: seq<Graph>, events: seq<Event>)
    requires IsStart(g) && |g.inputs| == 2 && !Known(g.inputs[1]) && forall k: nat :: !fails(k)
    requires a.params.format >= 0 && b.params.format >= 0 && other.params.format >= 0
    requires !Agree(g.inputs[0].kind, a.params, b.params)
    ensures IsRun(graphs, events) && |events| == 3 && |graphs| == 4 && graphs[0] == g && |graphs[3].inputs| == 2
    ensures var s := graphs[3].inputs[0]; graphs[3].configured && Since(s) == [a, b] && s.source == b.params
  {
    var e1, e2 := SendsFrame(0, a, false, false, fails), SendsFrame(0, b, false, false, fails);
    var e3 := SendsFrame(1, other, false, false, fails);
    StartInv(g);
    var h1, h2 := TwoWait(g, a, b, fails);
    Configures(h2, 1, other, fails);
    assert [a, b] + [] == [a, b];
    graphs, events := RunOfThree(g, e1, e2, e3, h1, h2);
  }

  lemma TwoWait(g: Graph, a: Frame, b: Frame, fails: nat -> bool) returns (h1: Graph, h2: Graph)
    requires IsStart(g) && GraphInv(g) && |g.inputs| == 2 && !Known(g.inputs[1])
    requires a.params.format >= 0 && b.params.format >= 0 && !Agree(g.inputs[0].kind, a.params, b.params)
    ensures h1 == SendFrame(g, 0, a, false, false, fails).0 && h2 == SendFrame(h1, 0, b, false, false, fails).0
    ensures GraphInv(h2) && !h2.configured && |h2.inputs| == 2 && h2.inputs[1] == g.inputs[1] && OthersKnown(h2, 1)
    ensures h2.inputs[0].params == b.params && h2.inputs[0].queue == [a, b] && !h2.inputs[0].eof
    ensures |h1.inputs| == 2 && !h1.inputs[0].eof
  {
    var s := g.inputs[0];
    assert s.queue + [a] == [a] && [a] + [b] == [a, b];
    assert !OthersKnown(g, 0);
    Waits(g, 0, a, fails);
    h1 := g.(inputs := g.inputs[0 := Buffered(Adapted(s, a), a)]);
    SendFrameKeeps(g, 0, a, false, false, fails);
    AdaptedAgrees(s, a);
    assert !OthersKnown(h1, 0) by { assert h1.inputs[1] == g.inputs[1]; }
    Waits(h1, 0, b, fails);
    h2 := h1.(inputs := h1.inputs[0 := Buffered(Adapted(h1.inputs[0], b), b)]);
    SendFrameKeeps(h1, 0, b, false, false, fails);
    AdaptedAgrees(h1.inputs[0], b);
  }

  /** A graph of one input, whose source was made for frame a and was given the frames in given. */
  predicate OneSource(h: Graph, a: Frame, given: seq<Frame>) {
    && |h.inputs| == 1 && h.configured && !h.inputs[0].eof && h.inputs[0].mark <= |h.inputs[0].handed|
    && Agree(h.inputs[0].kind, h.inputs[0].source, a.params) && Since(h.inputs[0]) == given
  }

  lemma FirstOfOne(g: Graph, a: Frame, fails: nat -> bool) returns (h: Graph)
    requires IsStart(g) && |g.inputs| == 1 && a.params.format >= 0 && forall k: nat :: !fails(k)
    ensures h == SendFrame(g, 0, a, false, false, fails).0 && GraphInv(h) && OneSource(h, a, [a])
    ensures h.inputs[0].params == h.inputs[0].source && h.inputs[0].kind == g.inputs[0].kind
  {
    StartInv(g);
    Configures(g, 0, a, fails);
    SendFrameKeeps(g, 0, a, false, false, fails);
    h := SendFrame(g, 0, a, false, false, fails).0;
    assert Lossless(h.inputs[0]);
    StartedOne(g.inputs[0], h.inputs[0], a);
  }

  lemma StartedOne(s: Input, t: Input, a: Frame)
    requires |s.queue| == 0 && !s.eof && Started(Adapted(s, a), t, [a])
    ensures Agree(t.kind, t.source, a.params) && Since(t) == [a] && !t.eof && t.params == t.source && t.kind == s.kind
  {
    AdaptedAgrees(s, a);
    assert s.queue + [a] == [a];
  }

  lemma ReapFails(h: Graph, a: Frame, b: Frame, fails: nat -> bool) returns (r: Graph)
    requires GraphInv(h) && OneSource(h, a, [a]) && b.params.format >= 0
    requires !Agree(h.inputs[0].kind, h.inputs[0].params, b.params)
    ensures r == SendFrame(h, 0, b, true, false, fails).0
    ensures OneSource(r, a, [a]) && r.inputs[0].params == b.params && r.inputs[0].kind == h.inputs[0].kind
  {
    r := SendFrame(h, 0, b, true, false, fails).0;
    AdaptedSame(h, 0, b, fails);
    AdaptedAgrees(h.inputs[0], b);
  }

  lemma SecondOfOne(h: Graph, a: Frame, b: Frame, fails: nat -> bool)
    requires OneSource(h, a, [a]) && h.inputs[0].params == b.params && forall k: nat :: !fails(k)
    ensures var r := SendFrame(h, 0, b, false, false, fails).0;
      OneSource(r, a, [a, b]) && r.inputs[0].kind == h.inputs[0].kind
  {
    SentOn(h, 0, b, false, false, fails);
    var s := h.inputs[0];
    SinceSnoc(s, s.(handed := s.handed + [Plain(b, true)], sent := s.sent + [b]), Plain(b, true));
    assert [a] + [b] == [a, b];
  }

  /** Reaping fails behind a change of format: the next frame of the new format goes to the source of the old one. */
  lemma StaleSource(g: Graph, a: Frame, b: Frame, fails: nat -> bool)
    returns (graphs: seq<Graph>, events: seq<Event>)
    requires IsStart(g) && |g.inputs| == 1 && forall k: nat :: !fails(k)
    requires a.params.format >= 0 && b.params.format >= 0 && !Agree(g.inputs[0].kind, a.params, b.params)
    ensures IsRun(graphs, events) && |events| == 3 && |graphs| == 4 && graphs[0] == g && |graphs[3].inputs| == 1
    ensures var s := graphs[3].inputs[0];
      graphs[3].configured && Since(s) == [a, b] && !Agree(s.kind, s.source, b.params)
  {
    var h1 := FirstOfOne(g, a, fails);
    var h2 := ReapFails(h1, a, b, fails);
    SecondOfOne(h2, a, b, fails);
    graphs, events := RunOfThree(g, SendsFrame(0, a, false, false, fails), SendsFrame(0, b, true, false, fails),
                                 SendsFrame(0, b, false, false, fails), h1, h2);
  }
}
