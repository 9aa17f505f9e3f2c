/**
 Feeding decoded frames to a filter graph: ifilter_send_frame and ifilter_send_eof of ffmpeg.c with the
 draining phases of configure_filtergraph and ifilter_parameters_from_frame of ffmpeg_filter.c.

 Until the formats of all inputs are known, frames wait in a queue per input; configuring the graph drains
 the queues. Building the graph, reaping the old one, and any call that adds a frame to a buffer source may
 fail; fails(k) says whether the k-th such addition of an invocation does.
 */
module FilterInput {
  import opened Common

  datatype Kind = Audio | Video | Other

  /** What a frame, and an input, says about its format; a negative format is unknown. hw is the hardware context. */
  datatype Params = Params(format: int, width: int, height: int, rate: int, channels: int, layout: int, hw: Option<int>)

  datatype Frame = Frame(data: int, params: Params)

  /** What became of a frame that was taken, or of an end of stream, and whether av_buffersrc_add_frame succeeded. */
  datatype Delivery = Plain(frame: Frame, ok: bool) | AtEnd(ok: bool)

  /**
   An input: live means that it has a buffer source. As history, sent are the frames taken, handed what became
   of them, and mark the length of handed when the last buffer source was attached: what lies behind it is what
   that source was offered. source are the parameters it was attached with, waited the frames queued then.
   */
  datatype Input = Input(kind: Kind, params: Params, eof: bool, queue: seq<Frame>, live: bool,
                         sent: seq<Frame>, handed: seq<Delivery>, mark: nat, source: Params, waited: seq<Frame>)

  /** A filter graph: configured means that fg->graph is not NULL, finished that its outputs were ended early. */
  datatype Graph = Graph(inputs: seq<Input>, configured: bool, finished: bool)

  // ---------------------------------------------------------------------------------------------
  // Transitions of one input

  predicate Known(s: Input) { s.params.format >= 0 || s.kind.Other? }

  predicate NeedsReinit(s: Input, f: Frame) {
    || s.params.format != f.params.format
    || s.params.hw != f.params.hw
    || (s.kind.Audio?
        && (s.params.rate != f.params.rate || s.params.channels != f.params.channels
            || s.params.layout != f.params.layout))
    || (s.kind.Video? && (s.params.width != f.params.width || s.params.height != f.params.height))
  }

  function Adapted(s: Input, f: Frame): Input {
    if NeedsReinit(s, f) then s.(params := f.params) else s
  }

  function Buffered(s: Input, f: Frame): Input { s.(queue := s.queue + [f], sent := s.sent + [f]) }

  function Delivered(s: Input, f: Frame): Input { s.(handed := s.handed + [Plain(f, true)], sent := s.sent + [f]) }

  /** The first queued frame leaves the queue, whether or not it can be added. */
  function Popped(s: Input, ok: bool): Input
    requires |s.queue| > 0
  {
    s.(queue := s.queue[1..], handed := s.handed + [Plain(s.queue[0], ok)])
  }

  /** Emptying a queue from the k-th addition on: the input, the next addition, and whether none failed. */
  function Drain(s: Input, fails: nat -> bool, k: nat): (Input, nat, bool)
    decreases |s.queue|
  {
    if |s.queue| == 0 then (s, k, true)
    else if fails(k) then (Popped(s, false), k + 1, false)
    else Drain(Popped(s, true), fails, k + 1)
  }

  function Finish(s: Input, fails: nat -> bool, k: nat): (Input, nat, bool) {
    if s.eof then (s.(handed := s.handed + [AtEnd(!fails(k))]), k + 1, !fails(k)) else (s, k, true)
  }

  /** The input gets a new buffer source, or loses the one it has. */
  function WithSource(s: Input, live: bool): Input {
    if live then s.(live := true, mark := |s.handed|, source := s.params, waited := s.queue) else s.(live := false)
  }

  // ---------------------------------------------------------------------------------------------
  // Transitions of the graph

  predicate AllKnown(g: Graph) { forall i :: 0 <= i < |g.inputs| ==> Known(g.inputs[i]) }

  function MapLive(inputs: seq<Input>, live: bool): (r: seq<Input>)
    ensures |r| == |inputs| && forall i :: 0 <= i < |inputs| ==> r[i] == WithSource(inputs[i], live)
  {
    seq(|inputs|, i requires 0 <= i < |inputs| => WithSource(inputs[i], live))
  }

  function DrainFrom(inputs: seq<Input>, i: nat, fails: nat -> bool, k: nat): (r: (seq<Input>, nat, bool))
    ensures |r.0| == |inputs|
    decreases |inputs| - i
  {
    if i >= |inputs| then (inputs, k, true)
    else
      var (s, next, ok) := Drain(inputs[i], fails, k);
      if ok then DrainFrom(inputs[i := s], i + 1, fails, next) else (inputs[i := s], next, false)
  }

  function FinishFrom(inputs: seq<Input>, i: nat, fails: nat -> bool, k: nat): (r: (seq<Input>, nat, bool))
    ensures |r.0| == |inputs|
    decreases |inputs| - i
  {
    if i >= |inputs| then (inputs, k, true)
    else
      var (s, next, ok) := Finish(inputs[i], fails, k);
      if ok then FinishFrom(inputs[i := s], i + 1, fails, next) else (inputs[i := s], next, false)
  }

  /** cleanup_filtergraph. */
  function Cleaned(g: Graph): Graph { g.(inputs := MapLive(g.inputs, false), configured := false) }

  /** The last phases of configure_filtergraph, once every input has its buffer source. */
  function FedInputs(inputs: seq<Input>, fails: nat -> bool): (r: (seq<Input>, nat, bool))
    ensures |r.0| == |inputs|
  {
    var (drained, k, ok) := DrainFrom(inputs, 0, fails, 0);
    if ok then FinishFrom(drained, 0, fails, k) else (drained, k, false)
  }

  function Fed(g: Graph, fails: nat -> bool): (r: (Graph, nat, bool))
    ensures |r.0.inputs| == |g.inputs|
  {
    var (inputs, next, ok) := FedInputs(g.inputs, fails);
    var h := g.(inputs := inputs);
    (if ok then h else Cleaned(h), next, ok)
  }

  function Attached(g: Graph): Graph { g.(inputs := MapLive(g.inputs, true), configured := true) }

  /** configure_filtergraph: the graph, the next addition, and success. */
  function Configured(g: Graph, setupFails: bool, fails: nat -> bool): (r: (Graph, nat, bool))
    ensures |r.0.inputs| == |g.inputs|
  {
    if setupFails then (Cleaned(g), 0, false) else Fed(Attached(g), fails)
  }

  /** The frame itself is added, or refused with an error. */
  function Added(g: Graph, i: nat, f: Frame, fail: bool): (Graph, bool)
    requires i < |g.inputs|
  {
    if fail then (g, false) else (g.(inputs := g.inputs[i := Delivered(g.inputs[i], f)]), true)
  }

  /** A frame for a graph that has to be configured. */
  function Reconfigured(g: Graph, i: nat, f: Frame, reapFails: bool, setupFails: bool, fails: nat -> bool)
    : (Graph, bool)
    requires i < |g.inputs|
  {
    if !AllKnown(g) then (g.(inputs := g.inputs[i := Buffered(g.inputs[i], f)]), true)
    else if reapFails then (g, false)
    else
      var (c, k, ok) := Configured(g, setupFails, fails);
      if ok then Added(c, i, f, fails(k)) else (c, false)
  }

  /** ifilter_send_frame: the graph afterwards, and whether the call succeeded. */
  function SendFrame(g: Graph, i: nat, f: Frame, reapFails: bool, setupFails: bool, fails: nat -> bool): (Graph, bool)
    requires i < |g.inputs|
  {
    var h := g.(inputs := g.inputs[i := Adapted(g.inputs[i], f)]);
    if NeedsReinit(g.inputs[i], f) || !g.configured then Reconfigured(h, i, f, reapFails, setupFails, fails)
    else Added(h, i, f, fails(0))
  }

  /** ifilter_send_eof. */
  function SendEof(g: Graph, i: nat, fail: bool): (Graph, bool)
    requires i < |g.inputs|
  {
    var s := g.inputs[i].(eof := true);
    if s.live then (g.(inputs := g.inputs[i := s.(handed := s.handed + [AtEnd(!fail)])]), !fail)
    else
      var h := g.(inputs := g.inputs[i := s]);
      (h.(finished := h.finished || forall k :: 0 <= k < |h.inputs| ==> h.inputs[k].eof), true)
  }

  // ---------------------------------------------------------------------------------------------
  // The code

  class InputFilter {
    const kind: Kind
    var params: Params
    var eof: bool
    var queue: seq<Frame>
    var live: bool
    ghost var sent: seq<Frame>
    var handed: seq<Delivery>
    ghost var mark: nat
    ghost var source: Params
    ghost var waited: seq<Frame>

    constructor (kind: Kind, params: Params)
      ensures State() == Input(kind, params, false, [], false, [], [], 0, params, [])
    {
      this.kind, this.params, eof, queue, live := kind, params, false, [], false;
      sent, handed, mark, source, waited := [], [], 0, params, [];
    }

    ghost function State(): Input
      reads this
    {
      Input(kind, params, eof, queue, live, sent, handed, mark, source, waited)
    }

    /** A buffer source is attached, or forgotten. */
    method SetSource(live: bool)
      modifies this`live, this`mark, this`source, this`waited
      ensures State() == WithSource(old(State()), live)
    {
      this.live := live;
      if live { mark, source, waited := |handed|, params, queue; }
    }

    /** need_reinit and ifilter_parameters_from_frame. */
    method Adapt(f: Frame) returns (needReinit: bool)
      modifies this`params
      ensures needReinit == NeedsReinit(old(State()), f) && State() == Adapted(old(State()), f)
    {
      needReinit := params.format != f.params.format;
      if params.hw != f.params.hw { needReinit := true; }
      match kind {
        case Audio =>
          needReinit := needReinit || params.rate != f.params.rate || params.channels != f.params.channels
            || params.layout != f.params.layout;
        case Video =>
          needReinit := needReinit || params.width != f.params.width || params.height != f.params.height;
        case Other =>
      }
      if needReinit { params := f.params; }
    }

    method Buffer(f: Frame)
      modifies this`queue, this`sent
      ensures State() == Buffered(old(State()), f)
    {
      queue, sent := queue + [f], sent + [f];
    }

    /** av_buffersrc_add_frame_flags for the frame itself. */
    method Deliver(f: Frame, fail: bool) returns (ok: bool)
      modifies this`handed, this`sent
      ensures ok == !fail && State() == if fail then old(State()) else Delivered(old(State()), f)
    {
      if fail { return false; }
      handed, sent := handed + [Plain(f, true)], sent + [f];
      ok := true;
    }

    /** The loop that empties the queue; calls counts the additions so far. */
    method DrainQueue(fails: nat -> bool, calls: nat) returns (next: nat, ok: bool)
      modifies this`queue, this`handed
      ensures (State(), next, ok) == Drain(old(State()), fails, calls)
    {
      next := calls;
      while |queue| > 0
        invariant Drain(State(), fails, next) == Drain(old(State()), fails, calls)
        decreases |queue|
      {
        var tmp := queue[0];
        var failed := fails(next);
        queue, handed := queue[1..], handed + [Plain(tmp, !failed)];
        next := next + 1;
        if failed { return next, false; }
      }
      ok := true;
    }

    method EndIfFinished(fails: nat -> bool, calls: nat) returns (next: nat, ok: bool)
      modifies this`handed
      ensures (State(), next, ok) == Finish(old(State()), fails, calls)
    {
      if !eof { return calls, true; }
      handed := handed + [AtEnd(!fails(calls))];
      return calls + 1, !fails(calls);
    }
  }

  class FilterGraph {
    const inputs: seq<InputFilter>
    var configured: bool
    var finished: bool

    ghost predicate Valid() {
      forall i, j :: 0 <= i < j < |inputs| ==> inputs[i] != inputs[j]
    }

    ghost function Inputs(): (s: seq<Input>)
      reads inputs
      ensures |s| == |inputs| && forall i :: 0 <= i < |inputs| ==> s[i] == inputs[i].State()
    {
      seq(|inputs|, i requires 0 <= i < |inputs| reads inputs => inputs[i].State())
    }

    ghost function State(): Graph
      reads this, inputs
    {
      Graph(Inputs(), configured, finished)
    }

    constructor (inputs: seq<InputFilter>)
      ensures this.inputs == inputs && !configured && !finished
    {
      this.inputs, configured, finished := inputs, false, false;
    }

    /** ifilter_has_all_input_formats. */
    method HasAllFormats() returns (all: bool)
      ensures all == AllKnown(State())
    {
      for i := 0 to |inputs|
        invariant forall k :: 0 <= k < i ==> Known(inputs[k].State())
      {
        if inputs[i].params.format < 0 && (inputs[i].kind == Audio || inputs[i].kind == Video) {
          assert !Known(State().inputs[i]);
          return false;
        }
      }
      all := true;
    }

    /** The passes of configure_filtergraph over its inputs: forget or attach the buffer sources, drain, end. */
    method SetLive(live: bool)
      requires Valid()
      modifies inputs
      ensures Inputs() == MapLive(old(Inputs()), live)
    {
      for i := 0 to |inputs|
        invariant forall k :: 0 <= k < i ==> inputs[k].State() == WithSource(old(inputs[k].State()), live)
        invariant forall k :: i <= k < |inputs| ==> inputs[k].State() == old(inputs[k].State())
      {
        inputs[i].SetSource(live);
      }
    }

    method DrainAll(fails: nat -> bool) returns (next: nat, ok: bool)
      requires Valid()
      modifies inputs
      ensures (Inputs(), next, ok) == DrainFrom(old(Inputs()), 0, fails, 0)
    {
      next, ok := 0, true;
      var i := 0;
      while i < |inputs|
        invariant i <= |inputs| && ok
        invariant DrainFrom(Inputs(), i, fails, next) == DrainFrom(old(Inputs()), 0, fails, 0)
      {
        ghost var before := Inputs();
        next, ok := inputs[i].DrainQueue(fails, next);
        assert Inputs() == before[i := inputs[i].State()];
        if !ok { return; }
        i := i + 1;
      }
    }

    method EndAll(fails: nat -> bool, calls: nat) returns (next: nat, ok: bool)
      requires Valid()
      modifies inputs
      ensures (Inputs(), next, ok) == FinishFrom(old(Inputs()), 0, fails, calls)
    {
      next, ok := calls, true;
      var i := 0;
      while i < |inputs|
        invariant i <= |inputs| && ok
        invariant FinishFrom(Inputs(), i, fails, next) == FinishFrom(old(Inputs()), 0, fails, calls)
      {
        ghost var before := Inputs();
        next, ok := inputs[i].EndIfFinished(fails, next);
        assert Inputs() == before[i := inputs[i].State()];
        if !ok { return; }
        i := i + 1;
      }
    }

    method Cleanup()
      requires Valid()
      modifies this`configured, inputs
      ensures State() == Cleaned(old(State()))
    {
      SetLive(false);
      configured := false;
    }

    method Attach()
      requires Valid()
      modifies this`configured, inputs
      ensures State() == Attached(old(State()))
    {
      configured := true;
      SetLive(true);
    }

    method Feed(fails: nat -> bool) returns (next: nat, ok: bool)
      requires Valid()
      modifies this`configured, inputs
      ensures (State(), next, ok) == Fed(old(State()), fails)
    {
      next, ok := DrainAll(fails);
      if ok { next, ok := EndAll(fails, next); }
      if !ok { Cleanup(); }
    }

    method Configure(setupFails: bool, fails: nat -> bool) returns (next: nat, ok: bool)
      requires Valid()
      modifies this`configured, inputs
      ensures (State(), next, ok) == Configured(old(State()), setupFails, fails)
    {
      ghost var g := State();
      Cleanup();
      if setupFails { return 0, false; }
      AttachedAfresh(g);
      Attach();
      next, ok := Feed(fails);
    }

    method Send(i: nat, f: Frame, reapFails: bool, setupFails: bool, fails: nat -> bool) returns (ok: bool)
      requires Valid() && i < |inputs|
      modifies this`configured, inputs
      ensures (State(), ok) == old(SendFrame(State(), i, f, reapFails, setupFails, fails))
    {
      ghost var g := State();
      var needReinit := inputs[i].Adapt(f);
      assert Inputs() == g.inputs[i := Adapted(g.inputs[i], f)];
      if !needReinit && configured {
        ok := AddTo(i, f, fails(0));
      } else {
        ok := Reconfigure(i, f, reapFails, setupFails, fails);
      }
    }

    /** "(re)init the graph if possible, otherwise buffer the frame and return". */
    method Reconfigure(i: nat, f: Frame, reapFails: bool, setupFails: bool, fails: nat -> bool) returns (ok: bool)
      requires Valid() && i < |inputs|
      modifies this`configured, inputs
      ensures (State(), ok) == old(Reconfigured(State(), i, f, reapFails, setupFails, fails))
    {
      var all := HasAllFormats();
      if !all {
        ghost var c := State();
        inputs[i].Buffer(f);
        assert Inputs() == c.inputs[i := Buffered(c.inputs[i], f)];
        return true;
      }
      if reapFails { return false; }
      var calls;
      calls, ok := Configure(setupFails, fails);
      if ok { ok := AddTo(i, f, fails(calls)); }
    }

    method AddTo(i: nat, f: Frame, fail: bool) returns (ok: bool)
      requires Valid() && i < |inputs|
      modifies inputs[i]
      ensures (State(), ok) == Added(old(State()), i, f, fail)
    {
      ghost var c := State();
      ok := inputs[i].Deliver(f, fail);
      assert Inputs() == if fail then c.inputs else c.inputs[i := Delivered(c.inputs[i], f)];
    }

    /** The search for an input that has not ended, and finish_output_stream for every output. */
    method FinishIfAllEnded()
      modifies this`finished
      ensures State() ==
        old(State()).(finished := old(finished) || forall k :: 0 <= k < |inputs| ==> old(Inputs())[k].eof)
    {
      var k := 0;
      while k < |inputs| && inputs[k].eof
        invariant 0 <= k <= |inputs| && forall j :: 0 <= j < k ==> Inputs()[j].eof
      {
        k := k + 1;
      }
      assert k < |inputs| ==> !Inputs()[k].eof;
      if k == |inputs| { finished := true; }
    }

    method Eof(i: nat, fail: bool) returns (ok: bool)
      requires Valid() && i < |inputs|
      modifies this`finished, inputs[i]
      ensures (State(), ok) == SendEof(old(State()), i, fail)
    {
      ghost var g := State();
      inputs[i].eof := true;
      if inputs[i].live {
        inputs[i].handed := inputs[i].handed + [AtEnd(!fail)];
        assert Inputs() == g.inputs[i := g.inputs[i].(eof := true, handed := g.inputs[i].handed + [AtEnd(!fail)])];
        return !fail;
      }
      assert Inputs() == g.inputs[i := g.inputs[i].(eof := true)];
      FinishIfAllEnded();
      ok := true;
    }
  }

  lemma AttachedAfresh(g: Graph)
    ensures Attached(Cleaned(g)) == Attached(g)
  {
    assert MapLive(MapLive(g.inputs, false), true) == MapLive(g.inputs, true);
  }

  // ---------------------------------------------------------------------------------------------
  // One input: what is lost and what is not

  /** The frames among the deliveries, and those of them that could not be added. */
  function Frames(d: seq<Delivery>): seq<Frame> {
    if |d| == 0 then []
    else Frames(d[..|d| - 1]) + (match d[|d| - 1] case Plain(f, _) => [f] case AtEnd(_) => [])
  }

  function Lost(d: seq<Delivery>): seq<Frame> {
    if |d| == 0 then []
    else Lost(d[..|d| - 1]) + (match d[|d| - 1] case Plain(f, ok) => if ok then [] else [f] case AtEnd(_) => [])
  }

  lemma FramesSnoc(d: seq<Delivery>, x: Delivery)
    ensures Frames(d + [x]) == Frames(d) + (match x case Plain(f, _) => [f] case AtEnd(_) => [])
    ensures Lost(d + [x]) == Lost(d) + (match x case Plain(f, ok) => if ok then [] else [f] case AtEnd(_) => [])
  {
    assert (d + [x])[..|d|] == d;
  }

  predicate HasEnd(d: seq<Delivery>) { exists i :: 0 <= i < |d| && d[i].AtEnd? }

  predicate EndsLast(d: seq<Delivery>) {
    forall i, j :: 0 <= i < j < |d| && d[i].AtEnd? ==> d[j].AtEnd?
  }

  /** The buffer source attached last was offered the end of the stream. */
  predicate OfferedEnd(s: Input) { s.mark <= |s.handed| && HasEnd(s.handed[s.mark..]) }

  lemma EndOffered(d: seq<Delivery>, mark: nat, ok: bool)
    requires mark <= |d|
    ensures HasEnd((d + [AtEnd(ok)])[mark..]) && HasEnd(d + [AtEnd(ok)])
  {
    assert (d + [AtEnd(ok)])[|d|].AtEnd? && (d + [AtEnd(ok)])[mark..][|d| - mark].AtEnd?;
  }

  /** Every frame taken was handed on or is queued, once and in order; the end of the stream comes after every frame. */
  predicate Kept(s: Input) {
    && Frames(s.handed) + s.queue == s.sent
    && EndsLast(s.handed)
    && (HasEnd(s.handed) ==> s.eof && s.queue == [])
    && s.mark <= |s.handed|
  }

  /** And a buffer source got every frame, and was itself offered the end if the input has ended. */
  predicate Lossless(s: Input) {
    && Kept(s)
    && (s.live ==> s.queue == [])
    && (s.live && s.eof ==> OfferedEnd(s))
  }

  predicate SameStream(s: Input, t: Input) {
    && t.sent == s.sent && t.eof == s.eof && t.params == s.params && t.kind == s.kind
    && t.live == s.live && t.mark == s.mark && t.source == s.source && t.waited == s.waited
  }

  lemma PoppedKept(s: Input, ok: bool)
    requires Kept(s) && |s.queue| > 0
    ensures Kept(Popped(s, ok)) && SameStream(s, Popped(s, ok))
  {
    FramesSnoc(s.handed, Plain(s.queue[0], ok));
    assert s.queue == [s.queue[0]] + s.queue[1..];
    Regroup(Frames(s.handed), [s.queue[0]], s.queue[1..]);
    assert !HasEnd(s.handed);
  }

  lemma PoppedLost(s: Input, ok: bool)
    requires |s.queue| > 0
    ensures Lost(Popped(s, ok).handed) == if ok then Lost(s.handed) else Lost(s.handed) + [s.queue[0]]
  {
    FramesSnoc(s.handed, Plain(s.queue[0], ok));
    assert Lost(s.handed) + [] == Lost(s.handed);
  }

  lemma {:induction false} DrainKept(s: Input, fails: nat -> bool, k: nat)
    requires Kept(s)
    ensures Kept(Drain(s, fails, k).0) && SameStream(s, Drain(s, fails, k).0)
    decreases |s.queue|
  {
    if |s.queue| == 0 {
    } else {
      PoppedKept(s, !fails(k));
      if !fails(k) { DrainKept(Popped(s, true), fails, k + 1); }
    }
  }

  predicate NoneFails(fails: nat -> bool, from: nat, to: nat) { forall m :: from <= m < to ==> !fails(m) }

  /** The queue was emptied, or its n-th frame alone was lost and the frames behind it stay queued. */
  predicate Emptied(s: Input, t: Input) { t.queue == [] && Lost(t.handed) == Lost(s.handed) }

  predicate LostOne(s: Input, t: Input, n: nat) {
    n < |s.queue| && t.queue == s.queue[n + 1..] && Lost(t.handed) == Lost(s.handed) + [s.queue[n]]
  }

  lemma PopOn(s: Input, t: Input, n: nat)
    requires |s.queue| > 0
    ensures LostOne(Popped(s, true), t, n) ==> LostOne(s, t, n + 1)
    ensures Emptied(Popped(s, true), t) ==> Emptied(s, t)
  {
    PoppedLost(s, true);
    if LostOne(Popped(s, true), t, n) {
      assert s.queue[1..][n] == s.queue[n + 1] && s.queue[1..][n + 1..] == s.queue[n + 2..];
    }
  }

  /** Draining a queue adds everything, or stops at the first addition that fails. */
  lemma {:induction false} DrainIs(s: Input, fails: nat -> bool, k: nat) returns (n: nat)
    ensures var (t, next, ok) := Drain(s, fails, k);
      && NoneFails(fails, k, k + n)
      && (if ok then Emptied(s, t) && n == |s.queue| && next == k + n
          else LostOne(s, t, n) && next == k + n + 1 && fails(k + n))
    decreases |s.queue|
  {
    if |s.queue| == 0 {
      n := 0;
    } else if fails(k) {
      PoppedLost(s, false);
      n := 0;
    } else {
      var m := DrainIs(Popped(s, true), fails, k + 1);
      PopOn(s, Drain(s, fails, k).0, m);
      n := m + 1;
    }
  }

  lemma FinishKept(s: Input, fails: nat -> bool, k: nat)
    requires Kept(s) && s.queue == []
    ensures var t := Finish(s, fails, k).0;
      Kept(t) && SameStream(s, t) && t.queue == [] && Lost(t.handed) == Lost(s.handed)
    ensures s.eof ==> OfferedEnd(Finish(s, fails, k).0)
  {
    if s.eof {
      FramesSnoc(s.handed, AtEnd(!fails(k)));
      assert Frames(s.handed) + [] == Frames(s.handed) && Lost(s.handed) + [] == Lost(s.handed);
      EndOffered(s.handed, s.mark, !fails(k));
    }
  }

  // ---------------------------------------------------------------------------------------------
  // The frames that wait, and the one that a failing addition loses

  /** The frame a call loses, and the input at which it was queued. */
  datatype Loss = NoLoss | Loses(input: nat, frame: Frame)

  function Tagged(i: nat, queue: seq<Frame>): (r: seq<Loss>)
    ensures |r| == |queue| && forall n :: 0 <= n < |r| ==> r[n] == Loses(i, queue[n])
  {
    seq(|queue|, n requires 0 <= n < |queue| => Loses(i, queue[n]))
  }

  /** The queued frames of all inputs from i on, in the order in which they are added. */
  function Waiting(inputs: seq<Input>, i: nat): seq<Loss>
    decreases |inputs| - i
  {
    if i >= |inputs| then [] else Tagged(i, inputs[i].queue) + Waiting(inputs, i + 1)
  }

  /** How many inputs from i on have ended. */
  function Ended(inputs: seq<Input>, i: nat): nat
    decreases |inputs| - i
  {
    if i >= |inputs| then 0 else (if inputs[i].eof then 1 else 0) + Ended(inputs, i + 1)
  }

  /** How many of the n additions from the k-th on come before the first that fails. */
  function FirstFailure(fails: nat -> bool, k: nat, n: nat): (m: nat)
    ensures m <= n && NoneFails(fails, k, k + m) && (m < n ==> fails(k + m))
    decreases n
  {
    if n == 0 || fails(k) then 0 else 1 + FirstFailure(fails, k + 1, n - 1)
  }

  /** Of frames added from the k-th addition on, the one that is lost. */
  function LossOf(waiting: seq<Loss>, fails: nat -> bool, k: nat): Loss {
    var m := FirstFailure(fails, k, |waiting|);
    if m < |waiting| then waiting[m] else NoLoss
  }

  lemma FirstIs(fails: nat -> bool, k: nat, n: nat, m: nat)
    requires m <= n && NoneFails(fails, k, k + m) && (m < n ==> fails(k + m))
    ensures FirstFailure(fails, k, n) == m
  {
  }

  /** A loss among two groups of frames is one of the first, or if those are all added one of the second. */
  lemma LossOfBoth(a: seq<Loss>, b: seq<Loss>, fails: nat -> bool, k: nat)
    ensures var m := FirstFailure(fails, k, |a|);
      if m < |a| then FirstFailure(fails, k, |a + b|) == m && LossOf(a + b, fails, k) == a[m]
      else FirstFailure(fails, k, |a + b|) == |a| + FirstFailure(fails, k + |a|, |b|)
           && LossOf(a + b, fails, k) == LossOf(b, fails, k + |a|)
  {
    var m := FirstFailure(fails, k, |a|);
    FirstIs(fails, k, |a + b|, if m < |a| then m else |a| + FirstFailure(fails, k + |a|, |b|));
  }

  lemma {:induction false} WaitingSame(a: seq<Input>, b: seq<Input>, i: nat)
    requires |a| == |b| && forall m :: i <= m < |a| ==> a[m].queue == b[m].queue
    ensures Waiting(a, i) == Waiting(b, i)
    decreases |a| - i
  {
    if i >= |a| {
    } else {
      WaitingSame(a, b, i + 1);
    }
  }

  lemma {:induction false} EndedSame(a: seq<Input>, b: seq<Input>, i: nat)
    requires |a| == |b| && forall m :: i <= m < |a| ==> a[m].eof == b[m].eof
    ensures Ended(a, i) == Ended(b, i)
    decreases |a| - i
  {
    if i >= |a| {
    } else {
      EndedSame(a, b, i + 1);
    }
  }

  // ---------------------------------------------------------------------------------------------
  // The graph

  predicate AllKept(inputs: seq<Input>) { forall i :: 0 <= i < |inputs| ==> Kept(inputs[i]) }

  predicate SameStreams(a: seq<Input>, b: seq<Input>) {
    |a| == |b| && forall i :: 0 <= i < |a| ==> SameStream(a[i], b[i])
  }

  /** What was lost between two states: nothing, or that one frame of that one input. */
  predicate LostAs(a: seq<Input>, b: seq<Input>, loss: Loss) {
    && |a| == |b|
    && (loss.Loses? ==> loss.input < |a|)
    && forall i :: 0 <= i < |a| ==>
      Lost(b[i].handed) ==
        if loss.Loses? && loss.input == i then Lost(a[i].handed) + [loss.frame] else Lost(a[i].handed)
  }

  predicate EmptyFrom(inputs: seq<Input>, i: nat) { forall m :: i <= m < |inputs| ==> inputs[m].queue == [] }

  lemma LostLater(a: seq<Input>, b: seq<Input>, c: seq<Input>, loss: Loss)
    requires LostAs(a, b, NoLoss) && LostAs(b, c, loss)
    ensures LostAs(a, c, loss)
  {
  }

  lemma LostThen(a: seq<Input>, b: seq<Input>, c: seq<Input>, loss: Loss)
    requires LostAs(a, b, loss) && LostAs(b, c, NoLoss)
    ensures LostAs(a, c, loss)
  {
  }

  lemma SameLater(a: seq<Input>, b: seq<Input>, c: seq<Input>)
    requires SameStreams(a, b) && SameStreams(b, c)
    ensures SameStreams(a, c)
  {
  }

  /**
   What adding waiting frames from the k-th addition on does: none fails and none is lost, or it stops at the
   first that fails, and that frame is lost.
   */
  predicate Drains(a: seq<Input>, b: seq<Input>, waiting: seq<Loss>, fails: nat -> bool, k: nat, next: nat, ok: bool) {
    var n := FirstFailure(fails, k, |waiting|);
    LostAs(a, b, LossOf(waiting, fails, k)) && (ok <==> n == |waiting|) && next == (if ok then k + n else k + n + 1)
  }

  lemma DrainsOn(a: seq<Input>, b: seq<Input>, c: seq<Input>, own: seq<Loss>, rest: seq<Loss>, fails: nat -> bool,
                 k: nat, mid: nat, next: nat, ok: bool)
    requires Drains(a, b, own, fails, k, mid, true) && Drains(b, c, rest, fails, mid, next, ok)
    ensures Drains(a, c, own + rest, fails, k, next, ok)
  {
    LossOfBoth(own, rest, fails, k);
    LostLater(a, b, c, LossOf(rest, fails, mid));
  }

  lemma DrainsNoFurther(a: seq<Input>, b: seq<Input>, own: seq<Loss>, rest: seq<Loss>, fails: nat -> bool,
                        k: nat, next: nat)
    requires Drains(a, b, own, fails, k, next, false)
    ensures Drains(a, b, own + rest, fails, k, next, false)
  {
    LossOfBoth(own, rest, fails, k);
  }

  /** One input drained. */
  lemma DrainOne(inputs: seq<Input>, i: nat, fails: nat -> bool, k: nat)
    requires AllKept(inputs) && i < |inputs|
    ensures var (s, next, ok) := Drain(inputs[i], fails, k); var mid := inputs[i := s];
      && AllKept(mid) && SameStreams(inputs, mid) && Drains(inputs, mid, Tagged(i, inputs[i].queue), fails, k, next, ok)
      && (ok ==> s.queue == [])
  {
    var n := DrainIs(inputs[i], fails, k);
    DrainKept(inputs[i], fails, k);
    FirstIs(fails, k, |inputs[i].queue|, n);
  }

  lemma {:induction false} DrainsNoEarlier(inputs: seq<Input>, i: nat, fails: nat -> bool, k: nat)
    ensures forall m :: 0 <= m < i && m < |inputs| ==> DrainFrom(inputs, i, fails, k).0[m] == inputs[m]
    decreases |inputs| - i
  {
    if i >= |inputs| {
    } else {
      var (s, next, ok) := Drain(inputs[i], fails, k);
      if ok { DrainsNoEarlier(inputs[i := s], i + 1, fails, next); }
    }
  }

  /** Draining all inputs: all queues empty, or exactly the frame of the first failing addition lost. */
  lemma {:induction false} DrainFromIs(inputs: seq<Input>, i: nat, fails: nat -> bool, k: nat)
    requires AllKept(inputs) && i <= |inputs|
    ensures var (out, next, ok) := DrainFrom(inputs, i, fails, k);
      && AllKept(out) && SameStreams(inputs, out) && Drains(inputs, out, Waiting(inputs, i), fails, k, next, ok)
      && (ok ==> EmptyFrom(out, i))
    decreases |inputs| - i
  {
    if i == |inputs| {
    } else {
      var (s, next, ok) := Drain(inputs[i], fails, k);
      var mid, own, rest := inputs[i := s], Tagged(i, inputs[i].queue), Waiting(inputs, i + 1);
      DrainOne(inputs, i, fails, k);
      if ok {
        DrainFromIs(mid, i + 1, fails, next);
        DrainsNoEarlier(mid, i + 1, fails, next);
        WaitingSame(inputs, mid, i + 1);
        var (out, after, all) := DrainFrom(mid, i + 1, fails, next);
        SameLater(inputs, mid, out);
        DrainsOn(inputs, mid, out, own, rest, fails, k, next, after, all);
      } else {
        DrainsNoFurther(inputs, mid, own, rest, fails, k, next);
      }
    }
  }

  predicate EmptyQueues(inputs: seq<Input>) { EmptyFrom(inputs, 0) }

  predicate OfferedAt(inputs: seq<Input>, i: nat)
    requires i < |inputs|
  {
    inputs[i].eof ==> OfferedEnd(inputs[i])
  }

  predicate EndedFrom(inputs: seq<Input>, i: nat) { forall m :: i <= m < |inputs| ==> OfferedAt(inputs, m) }

  /** Inputs that were only told that they have ended. */
  predicate OnlyEnded(a: seq<Input>, b: seq<Input>) {
    SameStreams(a, b) && LostAs(a, b, NoLoss) && AllKept(b) && EmptyQueues(b)
  }

  lemma OnlyEndedLater(a: seq<Input>, b: seq<Input>, c: seq<Input>)
    requires OnlyEnded(a, b) && OnlyEnded(b, c)
    ensures OnlyEnded(a, c)
  {
    SameLater(a, b, c);
    LostLater(a, b, c, NoLoss);
  }

  /** One input finished. */
  lemma FinishOne(inputs: seq<Input>, i: nat, fails: nat -> bool, k: nat)
    requires AllKept(inputs) && EmptyQueues(inputs) && i < |inputs|
    ensures var mid := inputs[i := Finish(inputs[i], fails, k).0]; OnlyEnded(inputs, mid) && OfferedAt(mid, i)
  {
    FinishKept(inputs[i], fails, k);
  }

  lemma {:induction false} EndsNoEarlier(inputs: seq<Input>, i: nat, fails: nat -> bool, k: nat)
    ensures forall m :: 0 <= m < i && m < |inputs| ==> FinishFrom(inputs, i, fails, k).0[m] == inputs[m]
    decreases |inputs| - i
  {
    if i >= |inputs| {
    } else {
      var (s, next, ok) := Finish(inputs[i], fails, k);
      if ok { EndsNoEarlier(inputs[i := s], i + 1, fails, next); }
    }
  }

  /** Ending the ended inputs loses no frame, whichever addition fails. */
  lemma {:induction false} FinishFromKept(inputs: seq<Input>, i: nat, fails: nat -> bool, k: nat)
    requires AllKept(inputs) && EmptyQueues(inputs) && i <= |inputs|
    ensures var (out, next, ok) := FinishFrom(inputs, i, fails, k); OnlyEnded(inputs, out) && (ok ==> EndedFrom(out, i))
    decreases |inputs| - i
  {
    if i == |inputs| {
    } else {
      FinishOne(inputs, i, fails, k);
      var (s, next, ok) := Finish(inputs[i], fails, k);
      var mid := inputs[i := s];
      if ok {
        FinishFromKept(mid, i + 1, fails, next);
        EndsNoEarlier(mid, i + 1, fails, next);
        OneMoreEnded(inputs, i, mid, FinishFrom(mid, i + 1, fails, next).0);
      }
    }
  }

  lemma OneMoreEnded(inputs: seq<Input>, i: nat, mid: seq<Input>, out: seq<Input>)
    requires i < |inputs| && OnlyEnded(inputs, mid) && OnlyEnded(mid, out) && OfferedAt(mid, i) && out[i] == mid[i]
    ensures OnlyEnded(inputs, out) && (EndedFrom(out, i + 1) ==> EndedFrom(out, i))
  {
    OnlyEndedLater(inputs, mid, out);
    assert OfferedAt(out, i);
  }

  lemma {:induction false} FinishFromCounts(inputs: seq<Input>, i: nat, fails: nat -> bool, k: nat)
    requires i <= |inputs|
    ensures var (out, next, ok) := FinishFrom(inputs, i, fails, k);
      (ok <==> NoneFails(fails, k, k + Ended(inputs, i))) && (ok ==> next == k + Ended(inputs, i))
    decreases |inputs| - i
  {
    if i == |inputs| {
    } else {
      var (s, next, ok) := Finish(inputs[i], fails, k);
      var mid := inputs[i := s];
      EndedSame(inputs, mid, i + 1);
      if ok { FinishFromCounts(mid, i + 1, fails, next); }
    }
  }

  predicate GraphInv(g: Graph) {
    && (forall i :: 0 <= i < |g.inputs| ==> Lossless(g.inputs[i]) && g.inputs[i].live == g.configured)
    && (g.configured ==> AllKnown(g))
    && (g.finished ==> forall i :: 0 <= i < |g.inputs| ==> g.inputs[i].eof)
  }

  /** The inputs keep their frames, formats and ends. */
  predicate SameButLive(a: Graph, b: Graph) {
    && |a.inputs| == |b.inputs| && a.finished == b.finished
    && forall i :: 0 <= i < |a.inputs| ==>
      var s, t := a.inputs[i], b.inputs[i];
      t.sent == s.sent && t.eof == s.eof && t.params == s.params && t.kind == s.kind
  }

  lemma CleanedInv(g: Graph, live: Graph, inputs: seq<Input>)
    requires AllKept(inputs) && SameStreams(live.inputs, inputs) && (live == g || live == Attached(g))
    requires g.finished ==> forall i :: 0 <= i < |g.inputs| ==> g.inputs[i].eof
    ensures var c := Cleaned(live.(inputs := inputs));
      GraphInv(c) && SameButLive(g, c) && LostAs(inputs, c.inputs, NoLoss)
  {
  }

  lemma LiveKept(g: Graph)
    requires AllKept(g.inputs)
    ensures var r := MapLive(g.inputs, true); AllKept(r) && LostAs(g.inputs, r, NoLoss)
  {
  }

  /** The frame that draining the queues of these inputs loses. */
  function QueueLoss(inputs: seq<Input>, fails: nat -> bool): Loss { LossOf(Waiting(inputs, 0), fails, 0) }

  /** The additions a configuration makes: one for each queued frame, then one for each ended input. */
  function Additions(inputs: seq<Input>): nat { |Waiting(inputs, 0)| + Ended(inputs, 0) }

  lemma AttachedSame(inputs: seq<Input>, fails: nat -> bool)
    ensures Additions(MapLive(inputs, true)) == Additions(inputs)
    ensures QueueLoss(MapLive(inputs, true), fails) == QueueLoss(inputs, fails)
  {
    WaitingSame(MapLive(inputs, true), inputs, 0);
    EndedSame(MapLive(inputs, true), inputs, 0);
  }

  /** No addition fails if none does while draining and none while ending. */
  lemma BothPhases(fails: nat -> bool, queued: nat, ended: nat)
    ensures NoneFails(fails, 0, queued + ended) <==>
      FirstFailure(fails, 0, queued) == queued && NoneFails(fails, queued, queued + ended)
  {
    var n := FirstFailure(fails, 0, queued);
    if n < queued { assert fails(n); }
  }

  lemma DrainCounts(inputs: seq<Input>, fails: nat -> bool)
    requires AllKept(inputs)
    ensures var (drained, k, ok) := DrainFrom(inputs, 0, fails, 0); var n := |Waiting(inputs, 0)|;
      (ok <==> FirstFailure(fails, 0, n) == n) && (ok ==> k == n) && Ended(drained, 0) == Ended(inputs, 0)
  {
    DrainFromIs(inputs, 0, fails, 0);
    EndedSame(inputs, DrainFrom(inputs, 0, fails, 0).0, 0);
  }

  /** The last phases succeed exactly if no addition fails. */
  lemma FedCounts(inputs: seq<Input>, fails: nat -> bool)
    requires AllKept(inputs)
    ensures var (out, next, ok) := FedInputs(inputs, fails);
      (ok <==> NoneFails(fails, 0, Additions(inputs))) && (ok ==> next == Additions(inputs))
  {
    DrainCounts(inputs, fails);
    BothPhases(fails, |Waiting(inputs, 0)|, Ended(inputs, 0));
    var (drained, k, ok) := DrainFrom(inputs, 0, fails, 0);
    if ok { FinishFromCounts(drained, 0, fails, k); }
  }

  /** Of the frames exactly that of the first failing addition is lost. */
  lemma FedInputsIs(inputs: seq<Input>, fails: nat -> bool)
    requires AllKept(inputs)
    ensures var (out, next, ok) := FedInputs(inputs, fails);
      && AllKept(out) && SameStreams(inputs, out) && LostAs(inputs, out, QueueLoss(inputs, fails))
      && (ok ==> EmptyQueues(out) && EndedFrom(out, 0))
  {
    DrainFromIs(inputs, 0, fails, 0);
    var (drained, k, ok) := DrainFrom(inputs, 0, fails, 0);
    if ok {
      FinishFromKept(drained, 0, fails, k);
      var out := FinishFrom(drained, 0, fails, k).0;
      SameLater(inputs, drained, out);
      LostThen(inputs, drained, out, QueueLoss(inputs, fails));
    }
  }

  lemma FedIs(g: Graph, live: Graph, fails: nat -> bool)
    requires AllKept(g.inputs) && AllKnown(g) && live == Attached(g)
    requires g.finished ==> forall i :: 0 <= i < |g.inputs| ==> g.inputs[i].eof
    ensures var (c, next, ok) := Fed(live, fails);
      && GraphInv(c) && SameButLive(g, c) && LostAs(g.inputs, c.inputs, QueueLoss(g.inputs, fails))
      && c.configured == ok && (ok <==> NoneFails(fails, 0, Additions(g.inputs)))
      && (ok ==> next == Additions(g.inputs))
  {
    LiveKept(g);
    AttachedSame(g.inputs, fails);
    FedInputsIs(live.inputs, fails);
    FedCounts(live.inputs, fails);
    var loss, out, ok := QueueLoss(g.inputs, fails), FedInputs(live.inputs, fails).0, FedInputs(live.inputs, fails).2;
    LostLater(g.inputs, live.inputs, out, loss);
    if ok {
      ConfiguredWell(g, out);
    } else {
      CleanedInv(g, live, out);
      LostThen(g.inputs, out, Cleaned(live.(inputs := out)).inputs, loss);
    }
  }

  /**
   Configuring succeeds exactly if the graph is built and no addition fails; then every queue is empty. If the
   addition of a queued frame is the first to fail, exactly that frame is lost; otherwise none is.
   */
  lemma ConfiguredInv(g: Graph, setupFails: bool, fails: nat -> bool)
    requires AllKept(g.inputs) && AllKnown(g)
    requires g.finished ==> forall i :: 0 <= i < |g.inputs| ==> g.inputs[i].eof
    ensures var (c, next, ok) := Configured(g, setupFails, fails);
      && GraphInv(c) && SameButLive(g, c) && c.configured == ok
      && (ok <==> !setupFails && NoneFails(fails, 0, Additions(g.inputs))) && (ok ==> next == Additions(g.inputs))
      && LostAs(g.inputs, c.inputs, if setupFails then NoLoss else QueueLoss(g.inputs, fails))
  {
    if setupFails {
      CleanedInv(g, g, g.inputs);
    } else {
      FedIs(g, Attached(g), fails);
    }
  }

  lemma ConfiguredWell(g: Graph, ended: seq<Input>)
    requires AllKnown(g) && SameStreams(MapLive(g.inputs, true), ended) && AllKept(ended)
    requires EmptyQueues(ended) && EndedFrom(ended, 0)
    requires g.finished ==> forall i :: 0 <= i < |g.inputs| ==> g.inputs[i].eof
    ensures var c := g.(inputs := ended, configured := true); GraphInv(c) && SameButLive(g, c)
  {
    forall i | 0 <= i < |ended| ensures Lossless(ended[i]) { assert OfferedAt(ended, i); }
  }

  // ---------------------------------------------------------------------------------------------
  // The two calls

  /** What a call leaves of the streams: input i may have taken f, and known formats stay known. */
  predicate Progress(g: Graph, h: Graph, i: nat, taken: seq<Frame>) {
    && |h.inputs| == |g.inputs|
    && forall k :: 0 <= k < |g.inputs| ==>
      && h.inputs[k].sent == (if k == i then g.inputs[k].sent + taken else g.inputs[k].sent)
      && (Known(g.inputs[k]) ==> Known(h.inputs[k]))
  }

  predicate SameEnds(g: Graph, h: Graph) {
    |h.inputs| == |g.inputs| && forall k :: 0 <= k < |g.inputs| ==> h.inputs[k].eof == g.inputs[k].eof
  }

  /** One input replaced by another that is in order. */
  lemma Replaced(g: Graph, i: nat, s: Input, taken: seq<Frame>)
    requires GraphInv(g) && i < |g.inputs| && Lossless(s) && s.live == g.configured && (g.finished ==> s.eof)
    requires s.sent == g.inputs[i].sent + taken && Lost(s.handed) == Lost(g.inputs[i].handed)
    requires Known(g.inputs[i]) ==> Known(s)
    ensures var h := g.(inputs := g.inputs[i := s]);
      GraphInv(h) && Progress(g, h, i, taken) && LostAs(g.inputs, h.inputs, NoLoss)
    ensures s.eof == g.inputs[i].eof ==> SameEnds(g, g.(inputs := g.inputs[i := s]))
  {
  }

  lemma NoProgress(g: Graph, i: nat)
    ensures Progress(g, g, i, []) && SameEnds(g, g) && LostAs(g.inputs, g.inputs, NoLoss)
  {
    assert forall k :: 0 <= k < |g.inputs| ==> g.inputs[k].sent + [] == g.inputs[k].sent;
  }

  lemma DeliveredLossless(s: Input, f: Frame)
    requires Lossless(s) && s.live && !s.eof
    ensures Lossless(Delivered(s, f)) && Lost(Delivered(s, f).handed) == Lost(s.handed)
  {
    FramesSnoc(s.handed, Plain(f, true));
    assert !HasEnd(s.handed);
    assert Lost(s.handed) + [] == Lost(s.handed);
    assert Frames(s.handed) + [f] + [] == (Frames(s.handed) + []) + [f];
  }

  lemma AddedKeeps(g: Graph, i: nat, f: Frame, fail: bool)
    requires GraphInv(g) && g.configured && i < |g.inputs| && !g.inputs[i].eof
    ensures var (h, ok) := Added(g, i, f, fail);
      && GraphInv(h) && SameEnds(g, h) && LostAs(g.inputs, h.inputs, NoLoss) && ok == !fail
      && Progress(g, h, i, if ok then [f] else [])
  {
    if fail {
      NoProgress(g, i);
    } else {
      DeliveredLossless(g.inputs[i], f);
      Replaced(g, i, Delivered(g.inputs[i], f), [f]);
    }
  }

  lemma AdaptedKeeps(g: Graph, i: nat, f: Frame)
    requires GraphInv(g) && i < |g.inputs| && f.params.format >= 0
    ensures var h := g.(inputs := g.inputs[i := Adapted(g.inputs[i], f)]);
      && GraphInv(h) && SameEnds(g, h) && LostAs(g.inputs, h.inputs, NoLoss) && Progress(g, h, i, [])
  {
    var s := g.inputs[i];
    assert Lossless(Adapted(s, f)) && s.sent + [] == s.sent;
    Replaced(g, i, Adapted(s, f), []);
  }

  lemma BufferedKeeps(g: Graph, i: nat, f: Frame)
    requires GraphInv(g) && i < |g.inputs| && !g.inputs[i].eof && !g.configured
    ensures var h := g.(inputs := g.inputs[i := Buffered(g.inputs[i], f)]);
      && GraphInv(h) && SameEnds(g, h) && LostAs(g.inputs, h.inputs, NoLoss) && Progress(g, h, i, [f])
  {
    var s := g.inputs[i];
    Regroup(Frames(s.handed), s.queue, [f]);
    assert Lossless(Buffered(s, f));
    Replaced(g, i, Buffered(s, f), [f]);
  }

  /** A graph that waits for another input's format has not been configured. */
  lemma UnknownUnconfigured(g: Graph, i: nat)
    requires GraphInv(g) && i < |g.inputs|
    ensures !OthersKnown(g, i) ==> !g.configured
  {
  }

  /** Two steps of progress, the first without a frame. */
  lemma ProgressOn(a: Graph, b: Graph, c: Graph, i: nat, taken: seq<Frame>)
    requires Progress(a, b, i, []) && Progress(b, c, i, taken) && SameEnds(a, b) && SameEnds(b, c)
    ensures Progress(a, c, i, taken) && SameEnds(a, c)
  {
    assert forall k :: 0 <= k < |a.inputs| ==> a.inputs[k].sent + [] == a.inputs[k].sent;
  }

  lemma ConfiguredProgress(g: Graph, i: nat, c: Graph)
    requires SameButLive(g, c)
    ensures Progress(g, c, i, []) && SameEnds(g, c)
  {
    assert forall k :: 0 <= k < |g.inputs| ==> g.inputs[k].sent + [] == g.inputs[k].sent;
  }

  predicate OthersKnown(g: Graph, i: nat) { forall k :: 0 <= k < |g.inputs| && k != i ==> Known(g.inputs[k]) }

  predicate Reinitializes(g: Graph, i: nat, f: Frame)
    requires i < |g.inputs|
  {
    NeedsReinit(g.inputs[i], f) || !g.configured
  }

  /**
   Whether a frame is taken: at once, into the queue, or after a configuration in which the queued frames, the
   ends and then the frame itself are added.
   */
  predicate Takes(g: Graph, i: nat, f: Frame, reapFails: bool, setupFails: bool, fails: nat -> bool)
    requires i < |g.inputs|
  {
    if !Reinitializes(g, i, f) then !fails(0)
    else OthersKnown(g, i) ==> !reapFails && !setupFails && NoneFails(fails, 0, Additions(g.inputs) + 1)
  }

  /** The frame a call loses: the queued frame of the first addition to fail, if it comes to configuring. */
  function LossOfSend(g: Graph, i: nat, f: Frame, reapFails: bool, setupFails: bool, fails: nat -> bool): Loss
    requires i < |g.inputs|
  {
    if Reinitializes(g, i, f) && OthersKnown(g, i) && !reapFails && !setupFails then QueueLoss(g.inputs, fails)
    else NoLoss
  }

  /** Adapting the input to its frame makes its format known and changes no queue and no end. */
  lemma AdaptedSame(g: Graph, i: nat, f: Frame, fails: nat -> bool)
    requires i < |g.inputs| && f.params.format >= 0
    ensures var h := g.(inputs := g.inputs[i := Adapted(g.inputs[i], f)]);
      && (AllKnown(h) <==> OthersKnown(g, i))
      && Additions(h.inputs) == Additions(g.inputs) && QueueLoss(h.inputs, fails) == QueueLoss(g.inputs, fails)
  {
    var h := g.(inputs := g.inputs[i := Adapted(g.inputs[i], f)]);
    WaitingSame(h.inputs, g.inputs, 0);
    EndedSame(h.inputs, g.inputs, 0);
    assert forall k :: 0 <= k < |g.inputs| && k != i ==> h.inputs[k] == g.inputs[k];
  }

  /**
   One frame: taken once, exactly when Takes says, or refused with an error and no trace; known formats stay
   known. Of the frames taken earlier exactly the one that LossOfSend names is lost.
   */
  lemma SendFrameKeeps(g: Graph, i: nat, f: Frame, reapFails: bool, setupFails: bool, fails: nat -> bool)
    requires GraphInv(g) && i < |g.inputs| && !g.inputs[i].eof && f.params.format >= 0
    ensures var (h, ok) := SendFrame(g, i, f, reapFails, setupFails, fails);
      && GraphInv(h) && SameEnds(g, h) && Progress(g, h, i, if ok then [f] else [])
      && (ok <==> Takes(g, i, f, reapFails, setupFails, fails))
      && LostAs(g.inputs, h.inputs, LossOfSend(g, i, f, reapFails, setupFails, fails))
  {
    var h := g.(inputs := g.inputs[i := Adapted(g.inputs[i], f)]);
    AdaptedKeeps(g, i, f);
    AdaptedSame(g, i, f, fails);
    UnknownUnconfigured(g, i);
    if !Reinitializes(g, i, f) {
      var r := Added(h, i, f, fails(0)).0;
      AddedKeeps(h, i, f, fails(0));
      ProgressOn(g, h, r, i, if fails(0) then [] else [f]);
      LostLater(g.inputs, h.inputs, r.inputs, NoLoss);
    } else if !AllKnown(h) {
      var r := h.(inputs := h.inputs[i := Buffered(h.inputs[i], f)]);
      BufferedKeeps(h, i, f);
      ProgressOn(g, h, r, i, [f]);
      LostLater(g.inputs, h.inputs, r.inputs, NoLoss);
    } else if !reapFails {
      ConfigureAndAdd(g, h, i, f, setupFails, fails);
    }
  }

  lemma OneMore(fails: nat -> bool, n: nat)
    ensures NoneFails(fails, 0, n + 1) <==> NoneFails(fails, 0, n) && !fails(n)
  {
  }

  /** The branch of it that configures the graph. */
  lemma ConfigureAndAdd(g: Graph, h: Graph, i: nat, f: Frame, setupFails: bool, fails: nat -> bool)
    requires GraphInv(h) && AllKnown(h) && i < |h.inputs| && !h.inputs[i].eof
    requires Progress(g, h, i, []) && SameEnds(g, h) && LostAs(g.inputs, h.inputs, NoLoss)
    ensures var (c, k, done) := Configured(h, setupFails, fails);
      var (r, ok) := if done then Added(c, i, f, fails(k)) else (c, false);
      && GraphInv(r) && SameEnds(g, r) && Progress(g, r, i, if ok then [f] else [])
      && (ok <==> !setupFails && NoneFails(fails, 0, Additions(h.inputs) + 1))
      && LostAs(g.inputs, r.inputs, if setupFails then NoLoss else QueueLoss(h.inputs, fails))
  {
    ConfiguredInv(h, setupFails, fails);
    OneMore(fails, Additions(h.inputs));
    var (c, k, done) := Configured(h, setupFails, fails);
    ConfiguredProgress(h, i, c);
    LostLater(g.inputs, h.inputs, c.inputs, if setupFails then NoLoss else QueueLoss(h.inputs, fails));
    ProgressOn(g, h, c, i, []);
    if done { AddedLater(g, c, i, f, fails(k), if setupFails then NoLoss else QueueLoss(h.inputs, fails)); }
  }

  lemma AddedLater(g: Graph, c: Graph, i: nat, f: Frame, fail: bool, loss: Loss)
    requires GraphInv(c) && c.configured && i < |c.inputs| && !c.inputs[i].eof
    requires Progress(g, c, i, []) && SameEnds(g, c) && LostAs(g.inputs, c.inputs, loss)
    ensures var (r, ok) := Added(c, i, f, fail);
      && GraphInv(r) && SameEnds(g, r) && Progress(g, r, i, if ok then [f] else [])
      && ok == !fail && LostAs(g.inputs, r.inputs, loss)
  {
    var r := Added(c, i, f, fail).0;
    AddedKeeps(c, i, f, fail);
    ProgressOn(g, c, r, i, if fail then [] else [f]);
    LostThen(g.inputs, c.inputs, r.inputs, loss);
  }

  lemma EndedLossless(s: Input, fail: bool)
    requires Lossless(s) && s.live
    ensures var t := s.(eof := true, handed := s.handed + [AtEnd(!fail)]);
      Lossless(t) && Lost(t.handed) == Lost(s.handed)
  {
    FramesSnoc(s.handed, AtEnd(!fail));
    assert Frames(s.handed) + [] == Frames(s.handed) && Lost(s.handed) + [] == Lost(s.handed);
    EndOffered(s.handed, s.mark, !fail);
  }

  /** Ending an input touches no frame. */
  lemma SendEofKeeps(g: Graph, i: nat, fail: bool)
    requires GraphInv(g) && i < |g.inputs|
    ensures var h := SendEof(g, i, fail).0;
      && GraphInv(h) && Progress(g, h, i, []) && LostAs(g.inputs, h.inputs, NoLoss)
      && forall k :: 0 <= k < |g.inputs| ==> h.inputs[k].eof == (k == i || g.inputs[k].eof)
  {
    var s := g.inputs[i];
    assert s.sent + [] == s.sent;
    if s.live {
      EndedLossless(s, fail);
      Replaced(g, i, s.(eof := true, handed := s.handed + [AtEnd(!fail)]), []);
    } else {
      assert Lossless(s.(eof := true));
      Replaced(g, i, s.(eof := true), []);
    }
  }

  // ---------------------------------------------------------------------------------------------
  // Runs

  datatype Event =
    | SendsFrame(i: nat, f: Frame, reapFails: bool, setupFails: bool, fails: nat -> bool)
    | SendsEof(i: nat, fail: bool)

  /** The graph after an event, and whether the call succeeded. */
  function After(g: Graph, e: Event): (Graph, bool)
    requires e.i < |g.inputs|
  {
    match e
    case SendsFrame(i, f, reapFails, setupFails, fails) => SendFrame(g, i, f, reapFails, setupFails, fails)
    case SendsEof(i, fail) => SendEof(g, i, fail)
  }

  /** The frame an event loses. */
  function LossOfEvent(g: Graph, e: Event): Loss
    requires e.i < |g.inputs|
  {
    match e
    case SendsFrame(i, f, reapFails, setupFails, fails) => LossOfSend(g, i, f, reapFails, setupFails, fails)
    case SendsEof(_, _) => NoLoss
  }

  /** Inputs exist, frames have a format, and none follows its input's end. */
  predicate Proper(g: Graph, e: Event) {
    e.i < |g.inputs| && (e.SendsFrame? ==> !g.inputs[e.i].eof && e.f.params.format >= 0)
  }

  predicate IsStart(g: Graph) {
    && !g.configured && !g.finished
    && forall k :: 0 <= k < |g.inputs| ==>
      var s := g.inputs[k]; s == Input(s.kind, s.params, false, [], false, [], [], 0, s.params, [])
  }

  /** Graphs reached event by event. */
  ghost predicate IsRun(graphs: seq<Graph>, events: seq<Event>) {
    && |graphs| == |events| + 1 && IsStart(graphs[0])
    && forall n :: 0 <= n < |events| ==> Proper(graphs[n], events[n]) && graphs[n + 1] == After(graphs[n], events[n]).0
  }

  /** One event: the invariant, the formats, and exactly which frame is lost. */
  lemma EventKeeps(g: Graph, e: Event)
    requires GraphInv(g) && Proper(g, e)
    ensures var h := After(g, e).0;
      && GraphInv(h) && |h.inputs| == |g.inputs| && LostAs(g.inputs, h.inputs, LossOfEvent(g, e))
      && (forall k :: 0 <= k < |g.inputs| && Known(g.inputs[k]) ==> Known(h.inputs[k]))
  {
    match e
    case SendsFrame(i, f, reapFails, setupFails, fails) => SendFrameKeeps(g, i, f, reapFails, setupFails, fails);
    case SendsEof(i, fail) => SendEofKeeps(g, i, fail);
  }

  lemma ConfiguredDelivers(g: Graph)
    requires GraphInv(g) && g.configured
    ensures forall k :: 0 <= k < |g.inputs| ==>
      g.inputs[k].queue == [] && Frames(g.inputs[k].handed) == g.inputs[k].sent
  {
    forall k | 0 <= k < |g.inputs|
      ensures g.inputs[k].queue == [] && Frames(g.inputs[k].handed) == g.inputs[k].sent
    {
      assert Lossless(g.inputs[k]) && Frames(g.inputs[k].handed) + [] == Frames(g.inputs[k].handed);
    }
  }

  /**
   In every run and after every event: for each input the frames handed to buffer sources, then those
   queued, are exactly the frames taken, in order; end of stream comes last; and a configured graph has empty
   queues, only known formats, and buffer sources of its own that were offered the end of every ended input.
   */
  lemma {:induction false} BufferingLossless(graphs: seq<Graph>, events: seq<Event>, n: nat)
    requires IsRun(graphs, events) && n < |graphs|
    ensures GraphInv(graphs[n]) && |graphs[n].inputs| == |graphs[0].inputs|
    ensures graphs[n].configured ==>
      forall k :: 0 <= k < |graphs[n].inputs| ==> var s := graphs[n].inputs[k];
        s.queue == [] && Frames(s.handed) == s.sent && (s.eof ==> OfferedEnd(s))
    decreases n
  {
    if n == 0 {
    } else {
      BufferingLossless(graphs, events, n - 1);
      EventKeeps(graphs[n - 1], events[n - 1]);
    }
    if graphs[n].configured { ConfiguredDelivers(graphs[n]); }
  }

  /** What one event of a run changes: a known format stays known, and exactly the frame LossOfEvent names is lost. */
  lemma EventLoses(graphs: seq<Graph>, events: seq<Event>, n: nat)
    requires IsRun(graphs, events) && n < |events|
    ensures |graphs[n].inputs| == |graphs[n + 1].inputs|
    ensures forall k :: 0 <= k < |graphs[n].inputs| && Known(graphs[n].inputs[k]) ==> Known(graphs[n + 1].inputs[k])
    ensures LostAs(graphs[n].inputs, graphs[n + 1].inputs, LossOfEvent(graphs[n], events[n]))
  {
    BufferingLossless(graphs, events, n);
    EventKeeps(graphs[n], events[n]);
  }

  /** No input has lost a frame. */
  predicate NoneLost(g: Graph) { forall k :: 0 <= k < |g.inputs| ==> |Lost(g.inputs[k].handed)| == 0 }

  lemma StillNoneLost(g: Graph, h: Graph, loss: Loss)
    requires LostAs(g.inputs, h.inputs, loss)
    ensures NoneLost(h) <==> NoneLost(g) && loss.NoLoss?
  {
    if loss.Loses? { assert |Lost(h.inputs[loss.input].handed)| > 0; }
    if NoneLost(h) {
      forall k | 0 <= k < |g.inputs| ensures |Lost(g.inputs[k].handed)| == 0 { assert |Lost(h.inputs[k].handed)| == 0; }
    }
  }

  predicate NoneLoses(graphs: seq<Graph>, events: seq<Event>, n: nat)
    requires n <= |graphs| && n <= |events| && forall m :: 0 <= m < n ==> events[m].i < |graphs[m].inputs|
  {
    forall m :: 0 <= m < n ==> LossOfEvent(graphs[m], events[m]).NoLoss?
  }

  /** So no frame is ever lost if and only if no event loses one. */
  lemma {:induction false} NothingLost(graphs: seq<Graph>, events: seq<Event>, n: nat)
    requires IsRun(graphs, events) && n < |graphs|
    ensures NoneLost(graphs[n]) <==> NoneLoses(graphs, events, n)
    decreases n
  {
    if n == 0 {
    } else {
      NothingLost(graphs, events, n - 1);
      EventLoses(graphs, events, n - 1);
      StillNoneLost(graphs[n - 1], graphs[n], LossOfEvent(graphs[n - 1], events[n - 1]));
    }
  }

  /**
   When a call loses a frame: exactly when the graph is not configured yet, no other input's format is unknown,
   reaping and building succeed, and one of the additions for queued frames fails.
   */
  lemma LossIff(g: Graph, i: nat, f: Frame, reapFails: bool, setupFails: bool, fails: nat -> bool)
    requires GraphInv(g) && i < |g.inputs|
    ensures LossOfSend(g, i, f, reapFails, setupFails, fails).Loses? <==>
      && !g.configured && OthersKnown(g, i) && !reapFails && !setupFails
      && !NoneFails(fails, 0, |Waiting(g.inputs, 0)|)
  {
    if g.configured { NoneWaiting(g.inputs, 0); }
    WaitingLoses(g.inputs, 0);
  }

  lemma {:induction false} WaitingLoses(inputs: seq<Input>, i: nat)
    ensures forall n :: 0 <= n < |Waiting(inputs, i)| ==> Waiting(inputs, i)[n].Loses?
    decreases |inputs| - i
  {
    if i >= |inputs| {
    } else {
      WaitingLoses(inputs, i + 1);
    }
  }

  lemma {:induction false} NoneWaiting(inputs: seq<Input>, i: nat)
    requires forall m :: i <= m < |inputs| ==> |inputs[m].queue| == 0
    ensures |Waiting(inputs, i)| == 0
    decreases |inputs| - i
  {
    if i >= |inputs| {
    } else {
      NoneWaiting(inputs, i + 1);
    }
  }

  /** One queued frame whose addition is the first of all is lost. */
  lemma OnlyOneWaits(inputs: seq<Input>, f: Frame, fails: nat -> bool)
    requires |inputs| > 0 && inputs[0].queue == [f] && fails(0)
    ensures QueueLoss(inputs, fails) == Loses(0, f)
  {
    var waiting := Waiting(inputs, 0);
    assert waiting[0] == Tagged(0, inputs[0].queue)[0];
    FirstIs(fails, 0, |waiting|, 0);
  }

  /** The first frame of an unknown input waits while another input is unknown. */
  lemma FirstWaits(g: Graph, f: Frame, fails: nat -> bool)
    requires IsStart(g) && |g.inputs| == 2 && !Known(g.inputs[1]) && f.params.format >= 0
    ensures var h := SendFrame(g, 0, f, false, false, fails).0; var s := h.inputs[0];
      && s.queue == [f] && s.sent == [f] && !h.configured && h.inputs[1] == g.inputs[1] && Known(s)
  {
    var s := g.inputs[0];
    assert s.queue == [] && s.sent == [];
    assert Adapted(s, f).queue == [] && Adapted(s, f).sent == [];
    assert Buffered(Adapted(s, f), f).queue == [f];
    assert !Known(g.inputs[0 := Adapted(s, f)][1]);
  }

  /**
   A run that loses a frame: f waits until the other input's format is known, and then its addition fails. No
   later buffer source gets it, as it has left the queue.
   */
  lemma LossWitness(g: Graph, f: Frame, other: Frame, fails: nat -> bool)
    returns (graphs: seq<Graph>, events: seq<Event>)
    requires IsStart(g) && |g.inputs| == 2 && !Known(g.inputs[1])
    requires f.params.format >= 0 && other.params.format >= 0 && fails(0)
    ensures IsRun(graphs, events) && |events| == 2 && |graphs| == 3 && graphs[0] == g && |graphs[2].inputs| == 2
    ensures var s := graphs[2].inputs[0]; s.sent == [f] && s.queue == [] && Lost(s.handed) == [f]
  {
    var first, second := SendsFrame(0, f, false, false, fails), SendsFrame(1, other, false, false, fails);
    var h := After(g, first).0;
    FirstCall(g, f, fails);
    graphs, events := RunOfTwo(g, first, second);
    WaitingIsLost(h, f, other, fails);
  }

  lemma StartInv(g: Graph)
    requires IsStart(g)
    ensures GraphInv(g) && forall k :: 0 <= k < |g.inputs| ==> Lost(g.inputs[k].handed) == []
  {
  }

  lemma RunOfTwo(g: Graph, first: Event, second: Event) returns (graphs: seq<Graph>, events: seq<Event>)
    requires IsStart(g) && Proper(g, first) && Proper(After(g, first).0, second)
    ensures IsRun(graphs, events) && |events| == 2 && |graphs| == 3
    ensures graphs[0] == g && graphs[2] == After(After(g, first).0, second).0
  {
    var h := After(g, first).0;
    graphs, events := [g, h, After(h, second).0], [first, second];
  }

  /** The two calls of that run. */
  predicate OneWaits(h: Graph, f: Frame) {
    && |h.inputs| == 2 && !h.configured && Known(h.inputs[0]) && !h.inputs[1].eof
    && h.inputs[0].queue == [f] && h.inputs[0].sent == [f] && Lost(h.inputs[0].handed) == []
  }

  lemma FirstCall(g: Graph, f: Frame, fails: nat -> bool)
    requires IsStart(g) && |g.inputs| == 2 && !Known(g.inputs[1]) && f.params.format >= 0
    ensures var h := SendFrame(g, 0, f, false, false, fails).0; GraphInv(h) && OneWaits(h, f)
  {
    FirstWaits(g, f, fails);
    StartInv(g);
    SendFrameKeeps(g, 0, f, false, false, fails);
  }

  lemma WaitingIsLost(h: Graph, f: Frame, other: Frame, fails: nat -> bool)
    requires GraphInv(h) && OneWaits(h, f) && other.params.format >= 0 && fails(0)
    ensures var r := SendFrame(h, 1, other, false, false, fails).0;
      |r.inputs| == 2 && r.inputs[0].sent == [f] && r.inputs[0].queue == [] && Lost(r.inputs[0].handed) == [f]
  {
    SendFrameKeeps(h, 1, other, false, false, fails);
    OnlyOneWaits(h.inputs, f, fails);
    assert LossOfSend(h, 1, other, false, false, fails) == Loses(0, f);
    LostNotQueued(SendFrame(h, 1, other, false, false, fails).0.inputs[0], f);
  }

  lemma LostNotQueued(s: Input, f: Frame)
    requires Kept(s) && s.sent == [f] && Lost(s.handed) == [f]
    ensures s.queue == []
  {
    LostWereHanded(s.handed);
    assert |Frames(s.handed) + s.queue| == 1;
  }

  lemma {:induction false} LostWereHanded(d: seq<Delivery>)
    ensures |Lost(d)| <= |Frames(d)|
  {
    if |d| == 0 {
    } else {
      LostWereHanded(d[..|d| - 1]);
    }
  }
}
