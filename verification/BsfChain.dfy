/**
 The bitstream filters of an output stream: output_packet of ffmpeg.c.

 A filter is an arbitrary stateful transducer: a packet sent to it changes its state and yields a finite
 list of packets, received one at a time. The loop walks the chain depth first. It is proved to hand to
 write_packet exactly what running the filters one after another over whole lists would.
 */
module BsfChain {
  import opened Common

  /** One AVBSFContext: its state, its transition, and the packets it has yet to give. */
  datatype Filter<!S, !P> = Filter(state: S, run: (S, P) -> (S, seq<P>), pending: seq<P>)

  /** av_bsf_send_packet on a filter that has been drained. */
  function Send<S, P>(f: Filter<S, P>, p: P): Filter<S, P> {
    var (state, out) := f.run(f.state, p);
    f.(state := state, pending := out)
  }

  // ---------------------------------------------------------------------------------------------
  // Reference: whole lists, stage by stage

  /** One filter over a list, starting from what it still holds. */
  function Stage<S, P>(f: Filter<S, P>, input: seq<P>): (Filter<S, P>, seq<P>)
    decreases |input|
  {
    if input == [] then (f.(pending := []), f.pending)
    else
      var (g, out) := Stage(Send(f, input[0]), input[1..]);
      (g, f.pending + out)
  }

  /** The chain over a list: filter 0 first, its output through the rest. */
  function Chain<S, P>(fs: seq<Filter<S, P>>, input: seq<P>): (seq<Filter<S, P>>, seq<P>)
    decreases |fs|
  {
    if fs == [] then ([], input)
    else
      var (g, mid) := Stage(fs[0], input);
      var (gs, out) := Chain(fs[1..], mid);
      ([g] + gs, out)
  }

  /** Receives still to come along the chain: the sizes of all intermediate lists. */
  function Work<S, P>(fs: seq<Filter<S, P>>, input: seq<P>): nat
    decreases |fs|
  {
    if fs == [] then 0
    else
      var (g, mid) := Stage(fs[0], input);
      |mid| + Work(fs[1..], mid)
  }

  // ---------------------------------------------------------------------------------------------
  // One step of the depth-first walk

  ghost predicate Drained<S, P>(fs: seq<Filter<S, P>>, from: nat) {
    forall i :: from <= i < |fs| ==> fs[i].pending == []
  }

  /** Taking the first pending packet of filter i, sending it to the drained filter i+1. */
  function Hop<S, P>(fs: seq<Filter<S, P>>, i: nat): seq<Filter<S, P>>
    requires i + 1 < |fs| && fs[i].pending != []
  {
    fs[i := fs[i].(pending := fs[i].pending[1..])][i + 1 := Send(fs[i + 1], fs[i].pending[0])]
  }

  lemma StageDrained<S, P>(f: Filter<S, P>, p: P, rest: seq<P>)
    requires f.pending == []
    ensures Stage(f, [p] + rest) == Stage(Send(f, p), rest)
  {
    assert ([p] + rest)[1..] == rest;
    var (g, out) := Stage(Send(f, p), rest);
    assert [] + out == out;
  }

  /** The packets filter f gives first are the ones it still holds. */
  lemma StagePending<S, P>(f: Filter<S, P>, input: seq<P>)
    requires f.pending != []
    ensures var (g, out) := Stage(f, input); var (h, rest) := Stage(f.(pending := f.pending[1..]), input);
      g == h && out == [f.pending[0]] + rest
  {
    if input != [] {
      var (g, out) := Stage(Send(f, input[0]), input[1..]);
      assert Send(f, input[0]) == Send(f.(pending := f.pending[1..]), input[0]);
      assert f.pending + out == [f.pending[0]] + (f.pending[1..] + out);
    }
  }

  /** A hop changes neither what the chain will give nor how it will end, and uses up one receive. */
  lemma {:induction false} HopKeeps<S, P>(fs: seq<Filter<S, P>>, i: nat, input: seq<P>)
    requires i + 1 < |fs| && fs[i].pending != [] && fs[i + 1].pending == []
    ensures Chain(Hop(fs, i), input) == Chain(fs, input)
    ensures Work(Hop(fs, i), input) + 1 == Work(fs, input)
    decreases i
  {
    var (g, mid) := Stage(fs[0], input);
    var hop := Hop(fs, i);
    if i == 0 {
      StagePending(fs[0], input);
      var (h, rest) := Stage(fs[0].(pending := fs[0].pending[1..]), input);
      StageDrained(fs[1], fs[0].pending[0], rest);
      assert hop[1..][0] == Send(fs[1], fs[0].pending[0]) && hop[1..][1..] == fs[1..][1..];
    } else {
      HopKeeps(fs[1..], i - 1, mid);
      assert hop[1..] == Hop(fs[1..], i - 1);
    }
  }

  /** The first packet the last filter holds is the next packet of the chain. */
  lemma {:induction false} LastGives<S, P>(fs: seq<Filter<S, P>>, input: seq<P>)
    requires fs != [] && fs[|fs| - 1].pending != []
    ensures var last := fs[|fs| - 1]; var rest := fs[|fs| - 1 := last.(pending := last.pending[1..])];
      && Chain(rest, input).0 == Chain(fs, input).0
      && [last.pending[0]] + Chain(rest, input).1 == Chain(fs, input).1
      && Work(rest, input) + 1 == Work(fs, input)
    decreases |fs|
  {
    var last := fs[|fs| - 1];
    var rest := fs[|fs| - 1 := last.(pending := last.pending[1..])];
    if |fs| == 1 {
      StagePending(fs[0], input);
      assert rest[1..] == [] && fs[1..] == [];
    } else {
      var (g, mid) := Stage(fs[0], input);
      LastGives(fs[1..], mid);
      assert rest[1..] == fs[1..][|fs| - 2 := last.(pending := last.pending[1..])];
    }
  }

  /** Sending to the drained first filter. */
  lemma FirstSent<S, P>(fs: seq<Filter<S, P>>, p: P)
    requires fs != [] && fs[0].pending == []
    ensures Chain(fs[0 := Send(fs[0], p)], []) == Chain(fs, [p])
  {
    StageDrained(fs[0], p, []);
    assert [p] + [] == [p];
    assert fs[0 := Send(fs[0], p)][1..] == fs[1..];
  }

  lemma FirstSentIf<S, P>(fs: seq<Filter<S, P>>, p: P)
    requires fs != []
    ensures fs[0].pending == [] ==> Chain(fs[0 := Send(fs[0], p)], []) == Chain(fs, [p])
  {
    if fs[0].pending == [] { FirstSent(fs, p); }
  }

  /** A drained chain gives nothing more. */
  lemma {:induction false} DrainedGivesNothing<S, P>(fs: seq<Filter<S, P>>)
    requires Drained(fs, 0)
    ensures Chain(fs, []) == (fs, [])
    decreases |fs|
  {
    if fs == [] {
    } else {
      DrainedGivesNothing(fs[1..]);
      assert Stage(fs[0], []) == (fs[0], []);
      assert [fs[0]] + fs[1..] == fs;
    }
  }

  // ---------------------------------------------------------------------------------------------
  // The code

  /** OutputStream as output_packet sees it: its filters and what write_packet was given. */
  class Output<!S, !P> {
    var ctx: seq<Filter<S, P>>
    var written: seq<P>

    constructor (ctx: seq<Filter<S, P>>)
      ensures this.ctx == ctx && written == []
    {
      this.ctx, written := ctx, [];
    }

    /** av_bsf_send_packet: refused while the filter still holds output, or failing on its own account. */
    method SendTo(i: nat, p: P, fails: bool) returns (ok: bool)
      requires i < |ctx|
      modifies this`ctx
      ensures ok <==> !fails && old(ctx[i]).pending == []
      ensures ctx == if ok then old(ctx)[i := Send(old(ctx[i]), p)] else old(ctx)
    {
      if fails || |ctx[i].pending| > 0 { return false; }
      var (state, out) := ctx[i].run(ctx[i].state, p);
      ctx := ctx[i := ctx[i].(state := state, pending := out)];
      ok := true;
    }

    /** av_bsf_receive_packet: None is EAGAIN. */
    method ReceiveFrom(i: nat) returns (p: Option<P>)
      requires i < |ctx|
      modifies this`ctx
      ensures p.None? <==> old(ctx[i]).pending == []
      ensures p.None? ==> ctx == old(ctx)
      ensures p.Some? ==> p.value == old(ctx[i]).pending[0]
      ensures p.Some? ==> ctx == old(ctx)[i := old(ctx[i]).(pending := old(ctx[i]).pending[1..])]
    {
      if |ctx[i].pending| == 0 { return None; }
      p := Some(ctx[i].pending[0]);
      ctx := ctx[i := ctx[i].(pending := ctx[i].pending[1..])];
    }

    /** One turn of the loop at idx; ok is false when a library call has failed. */
    method Turn(idx: nat, receiveFails: bool, sendFails: bool) returns (ok: bool, next: nat)
      requires 0 < idx <= |ctx|
      modifies this
      ensures |ctx| == |old(ctx)| && next <= |ctx|
      ensures old(written) <= written <= old(written + Chain(ctx, []).1)
      ensures ok ==> Chain(ctx, []).0 == old(Chain(ctx, []).0)
      ensures ok ==> written + Chain(ctx, []).1 == old(written + Chain(ctx, []).1)
      ensures ok ==> Work(ctx, []) < old(Work(ctx, [])) || (Work(ctx, []) == old(Work(ctx, [])) && next < idx)
      ensures old(Drained(ctx, idx)) ==> (ok ==> Drained(ctx, next)) && (!receiveFails && !sendFails ==> ok)
    {
      if receiveFails { return false, idx; }
      ghost var before := ctx;
      var p := ReceiveFrom(idx - 1);
      if p.None? { return true, idx - 1; }
      if idx == |ctx| {
        LastGives(before, []);
        written := written + [p.value];
        return true, idx;
      }
      ok := SendTo(idx, p.value, sendFails);
      if !ok { return false, idx; }
      assert ctx == Hop(before, idx - 1);
      HopKeeps(before, idx - 1, []);
      next := idx + 1;
    }

    /**
     output_packet. fails(k) says whether the k-th library call of this invocation fails. Whatever fails,
     what has been written is a prefix of the stage-by-stage result. If nothing fails and the chain was
     drained, the call succeeds, has written that result, and leaves every filter drained.
     */
    method OutputPacket(pkt: P, fails: nat -> bool) returns (ok: bool)
      modifies this
      ensures old(written) <= written <= old(written + Chain(ctx, [pkt]).1)
      ensures old(Drained(ctx, 0)) && (forall k :: !fails(k)) ==> ok
      ensures ok && old(Drained(ctx, 0)) ==>
        && Drained(ctx, 0)
        && ctx == old(Chain(ctx, [pkt]).0)
        && written == old(written + Chain(ctx, [pkt]).1)
    {
      ghost var goal, end := written + Chain(ctx, [pkt]).1, Chain(ctx, [pkt]).0;
      ghost var drained := Drained(ctx, 0);
      if |ctx| == 0 {
        written := written + [pkt];
        return true;
      }
      FirstSentIf(ctx, pkt);
      ok := SendTo(0, pkt, fails(0));
      if !ok { return; }
      var idx, calls := 1, 1;
      while idx > 0
        invariant 0 <= idx <= |ctx|
        invariant old(written) <= written && written + Chain(ctx, []).1 == goal && Chain(ctx, []).0 == end
        invariant drained ==> Drained(ctx, idx)
        decreases Work(ctx, []), idx
      {
        ok, idx := Turn(idx, fails(calls), fails(calls + 1));
        if !ok { return; }
        calls := calls + 2;
      }
      if drained { DrainedGivesNothing(ctx); }
      ok := true;
    }
  }

  // ---------------------------------------------------------------------------------------------
  // Whole streams

  /** Packet by packet, as successive successful calls of output_packet do it. */
  function OneByOne<S, P>(fs: seq<Filter<S, P>>, input: seq<P>): (seq<Filter<S, P>>, seq<P>)
    decreases |input|
  {
    if input == [] then (fs, [])
    else
      var (gs, out) := Chain(fs, [input[0]]);
      var (hs, rest) := OneByOne(gs, input[1..]);
      (hs, out + rest)
  }

  lemma {:induction false} StageSplit<S, P>(f: Filter<S, P>, a: seq<P>, b: seq<P>)
    ensures var (g, out) := Stage(f, a); var (h, rest) := Stage(g, b);
      Stage(f, a + b) == (h, out + rest)
    decreases |a|
  {
    if a == [] {
      assert [] + b == b;
      if b != [] {
        assert Send(f, b[0]) == Send(f.(pending := []), b[0]);
        var more := Stage(Send(f, b[0]), b[1..]).1;
        assert [] + more == more;
      } else {
        assert f.pending + [] == f.pending;
      }
    } else {
      assert (a + b)[1..] == a[1..] + b;
      StageSplit(Send(f, a[0]), a[1..], b);
      var (g, out) := Stage(Send(f, a[0]), a[1..]);
      var (h, rest) := Stage(g, b);
      assert f.pending + (out + rest) == (f.pending + out) + rest;
    }
  }

  lemma {:induction false} ChainSplit<S, P>(fs: seq<Filter<S, P>>, a: seq<P>, b: seq<P>)
    ensures var (gs, out) := Chain(fs, a); var (hs, rest) := Chain(gs, b);
      Chain(fs, a + b) == (hs, out + rest)
    decreases |fs|
  {
    if fs == [] {
    } else {
      StageSplit(fs[0], a, b);
      var (g, mid) := Stage(fs[0], a);
      var (h, midRest) := Stage(g, b);
      ChainSplit(fs[1..], mid, midRest);
      var (gs, out) := Chain(fs[1..], mid);
      assert ([g] + gs)[0] == g && ([g] + gs)[1..] == gs;
    }
  }

  /** Filtering packet by packet is filtering the whole stream, one filter after the other. */
  lemma {:induction false} WholeStream<S, P>(fs: seq<Filter<S, P>>, input: seq<P>)
    requires Drained(fs, 0)
    ensures OneByOne(fs, input) == Chain(fs, input)
    decreases |input|
  {
    if input == [] {
      DrainedGivesNothing(fs);
    } else {
      ChainSplit(fs, [input[0]], input[1..]);
      assert [input[0]] + input[1..] == input;
      ChainDrained(fs, [input[0]]);
      WholeStream(Chain(fs, [input[0]]).0, input[1..]);
    }
  }

  lemma {:induction false} StageDrains<S, P>(f: Filter<S, P>, input: seq<P>)
    ensures Stage(f, input).0.pending == []
    decreases |input|
  {
    if input == [] {
    } else {
      StageDrains(Send(f, input[0]), input[1..]);
    }
  }

  lemma {:induction false} ChainDrained<S, P>(fs: seq<Filter<S, P>>, input: seq<P>)
    ensures Drained(Chain(fs, input).0, 0) && |Chain(fs, input).0| == |fs|
    decreases |fs|
  {
    if fs == [] {
    } else {
      StageDrains(fs[0], input);
      ChainDrained(fs[1..], Stage(fs[0], input).1);
    }
  }
}
