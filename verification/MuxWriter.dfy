/**
 From encoder to muxer: write_packet and check_init_output_file of ffmpeg.c.

 Until the muxer's header is written packets wait in a growable queue per stream; afterwards each packet
 is rescaled, its timestamps are repaired, and it is handed to the muxer. Timestamps are unbounded
 integers or "no value"; av_rescale_q is a parameter.
 */
module MuxWriter {
  import opened Common

  datatype TimeBase = TimeBase(num: int, den: int)

  datatype Kind = Audio | Video | Other

  /** A packet: its payload and its timestamps, in the time base it was produced under. */
  datatype Packet = Packet(data: int, pts: Option<int>, dts: Option<int>)

  /** A packet in the queue or at write_packet, with (as history) the time base in force when it arrived. */
  datatype Queued = Queued(pkt: Packet, base: TimeBase)

  /** What av_interleaved_write_frame was given; as history, its time base before rescaling and the rescaled packet. */
  datatype Muxed = Muxed(pkt: Packet, from: TimeBase, entered: Packet)

  /** Format flags, global options and the rescaling function of libavutil. */
  datatype Config = Config(
    noTimestamps: bool, nonStrict: bool, dropVideoStamps: bool, dropAudioStamps: bool, exitOnError: bool,
    rescale: (int, TimeBase, TimeBase) -> int)

  /** The fixed part of an OutputStream. */
  datatype Params = Params(kind: Kind, encodingNeeded: bool, vp9Copy: bool, maxFrames: int, maxQueue: int)

  /** The changing part. accepted and muxed are history: packets let through by max_frames, packets at the muxer. */
  datatype Stream = Stream(
    frameNumber: int, queue: seq<Queued>, capacity: int, muxBase: TimeBase, stBase: TimeBase,
    lastDts: Option<int>, accepted: seq<Queued>, muxed: seq<Muxed>)

  datatype Outcome = Ok | TooManyPackets | BadTimestamps

  const INITIAL_CAPACITY := 8
  const NOPTS := -0x8000_0000_0000_0000

  // ---------------------------------------------------------------------------------------------
  // Timestamp repair

  function Min3(a: int, b: int, c: int): int { Min(Min(a, b), c) }
  function Max3(a: int, b: int, c: int): int { Max(Max(a, b), c) }

  /** last_mux_dts + 1; a missing last_mux_dts is the number AV_NOPTS_VALUE. */
  function AfterLast(last: Option<int>): int {
    (match last case Some(d) => d case None => NOPTS) + 1
  }

  /** "Invalid DTS, replacing by guess". */
  function Reorder(p: Packet, last: Option<int>): Packet {
    if p.pts.Some? && p.dts.Some? && p.dts.value > p.pts.value then
      var (pts, dts, next) := (p.pts.value, p.dts.value, AfterLast(last));
      var guess := pts + dts + next - Min3(pts, dts, next) - Max3(pts, dts, next);
      p.(pts := Some(guess), dts := Some(guess))
    else p
  }

  /** Whether dts is kept monotonous on this stream. */
  predicate Monotonized(cfg: Config, q: Params) {
    !cfg.noTimestamps && (q.kind.Audio? || q.kind.Video?) && !q.vp9Copy
  }

  /** The smallest dts the muxer may get next. */
  function Floor(cfg: Config, last: int): int { last + (if cfg.nonStrict then 0 else 1) }

  predicate TooEarly(cfg: Config, q: Params, p: Packet, last: Option<int>) {
    Monotonized(cfg, q) && p.dts.Some? && last.Some? && p.dts.value < Floor(cfg, last.value)
  }

  /** "Non-monotonous DTS, changing". */
  function Raise(cfg: Config, q: Params, p: Packet, last: Option<int>): Packet {
    if TooEarly(cfg, q, p, last) then
      var floor := Floor(cfg, last.value);
      p.(pts := if p.pts.Some? && p.pts.value >= p.dts.value then Some(Max(p.pts.value, floor)) else p.pts,
         dts := Some(floor))
    else p
  }

  function Rescaled(cfg: Config, q: Params, p: Packet, from: TimeBase, to: TimeBase): Packet {
    if (q.kind.Video? && cfg.dropVideoStamps) || (q.kind.Audio? && cfg.dropAudioStamps) then
      p.(pts := None, dts := None)
    else
      p.(pts := if p.pts.Some? then Some(cfg.rescale(p.pts.value, from, to)) else None,
         dts := if p.dts.Some? then Some(cfg.rescale(p.dts.value, from, to)) else None)
  }

  function Reordered(cfg: Config, q: Params, s: Stream, p: Packet): Packet {
    var r := Rescaled(cfg, q, p, s.muxBase, s.stBase);
    if cfg.noTimestamps then r else Reorder(r, s.lastDts)
  }

  // ---------------------------------------------------------------------------------------------
  // The transition

  predicate Counted(q: Params) { !(q.kind.Video? && q.encodingNeeded) }

  /** A packet once the header is written. */
  function Mux(cfg: Config, q: Params, s: Stream, p: Packet): (Stream, Outcome) {
    var r := Reordered(cfg, q, s, p);
    if TooEarly(cfg, q, r, s.lastDts) && cfg.exitOnError then (s, BadTimestamps)
    else
      var out := Raise(cfg, q, r, s.lastDts);
      (s.(lastDts := out.dts,
          muxed := s.muxed + [Muxed(out, s.muxBase, Rescaled(cfg, q, p, s.muxBase, s.stBase))]), Ok)
  }

  /** A packet before the header is written; capacities count packets. */
  function Enqueue(q: Params, s: Stream, p: Packet): (Stream, Outcome) {
    if |s.queue| == s.capacity && Min(2 * |s.queue|, q.maxQueue) <= |s.queue| then (s, TooManyPackets)
    else
      var capacity := if |s.queue| == s.capacity then Min(2 * |s.queue|, q.maxQueue) else s.capacity;
      (s.(capacity := capacity, queue := s.queue + [Queued(p, s.muxBase)]), Ok)
  }

  predicate Refused(q: Params, s: Stream) { Counted(q) && s.frameNumber >= q.maxFrames }

  /** write_packet for a packet that has not been queued before. */
  function Write(cfg: Config, q: Params, header: bool, s: Stream, p: Packet): (Stream, Outcome) {
    if Refused(q, s) then (s, Ok)
    else
      var t := s.(frameNumber := s.frameNumber + (if Counted(q) then 1 else 0),
                  accepted := s.accepted + [Queued(p, s.muxBase)]);
      if header then Mux(cfg, q, t, p) else Enqueue(q, t, p)
  }

  /** Emptying the queue after the header is written. */
  function Drain(cfg: Config, q: Params, s: Stream): (Stream, Outcome)
    decreases |s.queue|
  {
    if s.queue == [] then (s, Ok)
    else
      var (t, outcome) := Mux(cfg, q, s.(queue := s.queue[1..]), s.queue[0].pkt);
      if outcome.Ok? then Drain(cfg, q, t) else (t, outcome)
  }

  /** The header has fixed the stream's time base; an empty queue lets mux_timebase follow it. */
  function AfterHeader(s: Stream, stBase: TimeBase): Stream {
    s.(stBase := stBase, muxBase := if s.queue == [] then stBase else s.muxBase)
  }

  // ---------------------------------------------------------------------------------------------
  // The code

  /** OutputStream, as far as packets pass through it. */
  class OutputStream {
    const cfg: Config
    const params: Params
    var initialized: bool
    var frameNumber: int
    var queue: seq<Queued>
    var capacity: int
    var muxBase: TimeBase
    var stBase: TimeBase
    var lastDts: Option<int>
    ghost var accepted: seq<Queued>
    var muxed: seq<Muxed>

    constructor (cfg: Config, params: Params, base: TimeBase)
      ensures this.cfg == cfg && this.params == params && !initialized
      ensures State() == Stream(0, [], INITIAL_CAPACITY, base, base, None, [], [])
    {
      this.cfg, this.params, initialized := cfg, params, false;
      frameNumber, queue, capacity, muxBase, stBase := 0, [], INITIAL_CAPACITY, base, base;
      lastDts, accepted, muxed := None, [], [];
    }

    ghost function State(): Stream
      reads this
    {
      Stream(frameNumber, queue, capacity, muxBase, stBase, lastDts, accepted, muxed)
    }

    /** av_packet_rescale_ts, after the timestamps that -vsync drop and the like have thrown away. */
    method Rescale(pkt: Packet) returns (p: Packet)
      ensures p == Rescaled(cfg, params, pkt, muxBase, stBase)
    {
      p := pkt;
      if (params.kind == Video && cfg.dropVideoStamps) || (params.kind == Audio && cfg.dropAudioStamps) {
        p := p.(pts := None, dts := None);
      }
      if p.pts.Some? { p := p.(pts := Some(cfg.rescale(p.pts.value, muxBase, stBase))); }
      if p.dts.Some? { p := p.(dts := Some(cfg.rescale(p.dts.value, muxBase, stBase))); }
    }

    /** "Invalid DTS, replacing by guess". */
    method Guess(pkt: Packet) returns (p: Packet)
      ensures p == Reorder(pkt, lastDts)
    {
      p := pkt;
      if p.dts.Some? && p.pts.Some? && p.dts.value > p.pts.value {
        var next := (if lastDts.Some? then lastDts.value else NOPTS) + 1;
        var guess := p.pts.value + p.dts.value + next
          - Min3(p.pts.value, p.dts.value, next) - Max3(p.pts.value, p.dts.value, next);
        p := p.(pts := Some(guess), dts := Some(guess));
      }
    }

    /** "Non-monotonous DTS, changing". */
    method Monotonize(pkt: Packet) returns (p: Packet, aborting: bool)
      requires !cfg.noTimestamps
      ensures aborting == (TooEarly(cfg, params, pkt, lastDts) && cfg.exitOnError)
      ensures !aborting ==> p == Raise(cfg, params, pkt, lastDts)
    {
      p, aborting := pkt, false;
      if (params.kind == Audio || params.kind == Video) && p.dts.Some? && !params.vp9Copy && lastDts.Some? {
        var max := lastDts.value + (if cfg.nonStrict then 0 else 1);
        if p.dts.value < max {
          if cfg.exitOnError { return p, true; }
          if p.pts.Some? && p.pts.value >= p.dts.value { p := p.(pts := Some(Max(p.pts.value, max))); }
          p := p.(dts := Some(max));
        }
      }
    }

    /** The tail of write_packet: rescale, repair, hand to the muxer. */
    method MuxPacket(pkt: Packet) returns (outcome: Outcome)
      modifies this`lastDts, this`muxed
      ensures (State(), outcome) == old(Mux(cfg, params, State(), pkt))
    {
      var entered := Rescale(pkt);
      var p := entered;
      if !cfg.noTimestamps {
        p := Guess(p);
        var aborting;
        p, aborting := Monotonize(p);
        if aborting { return BadTimestamps; }
      }
      lastDts := p.dts;
      muxed := muxed + [Muxed(p, muxBase, entered)];
      return Ok;
    }

    method WritePacket(headerWritten: bool, pkt: Packet, unqueue: bool) returns (outcome: Outcome)
      requires unqueue ==> headerWritten
      modifies this
      ensures initialized == old(initialized)
      ensures (State(), outcome) ==
        old(if unqueue then Mux(cfg, params, State(), pkt) else Write(cfg, params, headerWritten, State(), pkt))
    {
      if !(params.kind == Video && params.encodingNeeded) && !unqueue {
        if frameNumber >= params.maxFrames { return Ok; }
        frameNumber := frameNumber + 1;
      }
      if !unqueue { accepted := accepted + [Queued(pkt, muxBase)]; }
      if !headerWritten {
        if |queue| == capacity {
          var newSize := Min(2 * |queue|, params.maxQueue);
          if newSize <= |queue| { return TooManyPackets; }
          capacity := newSize;
        }
        queue := queue + [Queued(pkt, muxBase)];
        return Ok;
      }
      outcome := MuxPacket(pkt);
    }

    /** The inner loop of check_init_output_file. */
    method DrainQueue() returns (outcome: Outcome)
      modifies this
      ensures initialized == old(initialized)
      ensures (State(), outcome) == old(Drain(cfg, params, State()))
    {
      while queue != []
        invariant initialized == old(initialized)
        invariant Drain(cfg, params, State()) == old(Drain(cfg, params, State()))
        decreases |queue|
      {
        var pkt := queue[0].pkt;
        queue := queue[1..];
        outcome := WritePacket(true, pkt, true);
        if outcome != Ok { return; }
      }
      outcome := Ok;
    }

    ghost function Opened(base: TimeBase): (Stream, Outcome)
      reads this
    {
      Drain(cfg, params, AfterHeader(State(), base))
    }

    /** One stream's turn once the header is written. */
    method Open(base: TimeBase) returns (outcome: Outcome)
      modifies this
      ensures initialized == old(initialized)
      ensures (State(), outcome) == old(Opened(base))
    {
      stBase := base;
      if queue == [] { muxBase := stBase; }
      assert State() == old(AfterHeader(State(), base));
      outcome := DrainQueue();
    }
  }

  /** OutputFile: its streams and whether the header has been written. */
  class OutputFile {
    const streams: seq<OutputStream>
    var headerWritten: bool

    constructor (streams: seq<OutputStream>)
      ensures this.streams == streams && !headerWritten
    {
      this.streams, headerWritten := streams, false;
    }

    ghost predicate Distinct() {
      forall i, j :: 0 <= i < j < |streams| ==> streams[i] != streams[j]
    }

    /** check_init_output_file up to the header; the header call may fail. */
    method TryHeader(headerFails: bool) returns (written: bool)
      modifies this`headerWritten
      ensures written == (!headerFails && forall i :: 0 <= i < |streams| ==> streams[i].initialized)
      ensures headerWritten == (old(headerWritten) || written)
    {
      var i := 0;
      while i < |streams|
        invariant 0 <= i <= |streams| && forall j :: 0 <= j < i ==> streams[j].initialized
      {
        if !streams[i].initialized { return false; }
        i := i + 1;
      }
      if headerFails { return false; }
      headerWritten := true;
      return true;
    }

    /** Its loop "flush the muxing queues": count counts the streams emptied before a packet ended the run. */
    method FlushQueues(bases: seq<TimeBase>) returns (count: nat, outcome: Outcome)
      requires Distinct() && |bases| == |streams| && headerWritten
      modifies streams
      ensures count <= |streams| && (outcome.Ok? <==> count == |streams|)
      ensures forall i :: 0 <= i < count ==> (streams[i].State(), Ok) == old(streams[i].Opened(bases[i]))
      ensures count < |streams| ==> (streams[count].State(), outcome) == old(streams[count].Opened(bases[count]))
      ensures forall i :: count < i < |streams| ==> streams[i].State() == old(streams[i].State())
    {
      count, outcome := 0, Ok;
      while count < |streams|
        invariant count <= |streams| && outcome == Ok
        invariant forall i :: 0 <= i < count ==> (streams[i].State(), Ok) == old(streams[i].Opened(bases[i]))
        invariant forall i :: count <= i < |streams| ==> unchanged(streams[i])
      {
        outcome := streams[count].Open(bases[count]);
        if outcome != Ok { return; }
        count := count + 1;
      }
    }

    /** check_init_output_file. */
    method CheckInit(headerFails: bool, bases: seq<TimeBase>) returns (outcome: Outcome, ghost count: nat)
      requires Distinct() && |bases| == |streams| && !headerWritten
      modifies this`headerWritten, streams
      ensures headerWritten == (!headerFails && forall i :: 0 <= i < |streams| ==> old(streams[i].initialized))
      ensures !headerWritten ==>
        outcome == Ok && forall i :: 0 <= i < |streams| ==> streams[i].State() == old(streams[i].State())
      ensures headerWritten ==> count <= |streams| && (outcome.Ok? <==> count == |streams|)
      ensures headerWritten ==>
        forall i :: 0 <= i < count ==> (streams[i].State(), Ok) == old(streams[i].Opened(bases[i]))
      ensures headerWritten && count < |streams| ==>
        (streams[count].State(), outcome) == old(streams[count].Opened(bases[count]))
      ensures headerWritten ==> forall i :: count < i < |streams| ==> streams[i].State() == old(streams[i].State())
    {
      var written := TryHeader(headerFails);
      if !written { return Ok, 0; }
      count, outcome := FlushQueues(bases);
    }
  }

  // ---------------------------------------------------------------------------------------------
  // Runs of one stream

  /** A packet arrives at write_packet, or the header is written with the stream's final time base. */
  datatype Event = Arrive(pkt: Packet) | HeaderWritten(base: TimeBase)

  datatype Running = Running(s: Stream, header: bool, outcome: Outcome)

  function Start(base: TimeBase): Running {
    Running(Stream(0, [], INITIAL_CAPACITY, base, base, None, [], []), false, Ok)
  }

  function Step(cfg: Config, q: Params, r: Running, e: Event): Running {
    if !r.outcome.Ok? then r
    else
      match e
      case Arrive(p) =>
        var (t, outcome) := Write(cfg, q, r.header, r.s, p);
        Running(t, r.header, outcome)
      case HeaderWritten(base) =>
        if r.header then r
        else
          var (t, outcome) := Drain(cfg, q, AfterHeader(r.s, base));
          Running(t, true, outcome)
  }

  function Run(cfg: Config, q: Params, base: TimeBase, events: seq<Event>): Running {
    if events == [] then Start(base)
    else Step(cfg, q, Run(cfg, q, base, events[..|events| - 1]), events[|events| - 1])
  }

  /** What is at the muxer, then what is queued, is what was accepted: same payloads, time bases and order. */
  predicate Lossless(s: Stream) {
    && |s.accepted| == |s.muxed| + |s.queue|
    && (forall i :: 0 <= i < |s.muxed| ==>
          s.muxed[i].pkt.data == s.accepted[i].pkt.data && s.muxed[i].from == s.accepted[i].base)
    && (forall i :: 0 <= i < |s.queue| ==> s.queue[i] == s.accepted[|s.muxed| + i])
  }

  /** Queued packets still carry the stream's current mux_timebase. */
  predicate SameBase(s: Stream) {
    forall i :: 0 <= i < |s.queue| ==> s.queue[i].base == s.muxBase
  }

  predicate Capacity(q: Params, s: Stream) {
    && |s.queue| <= s.capacity
    && INITIAL_CAPACITY <= s.capacity <= Max(INITIAL_CAPACITY, q.maxQueue)
  }

  /** Two dts in a row at the muxer: the second is not before the floor the first one sets. */
  predicate InOrder(cfg: Config, a: Option<int>, b: Option<int>) {
    a.Some? && b.Some? ==> b.value >= Floor(cfg, a.value)
  }

  predicate DtsChain(cfg: Config, q: Params, s: Stream) {
    && s.lastDts == (if s.muxed == [] then None else s.muxed[|s.muxed| - 1].pkt.dts)
    && (Monotonized(cfg, q) ==>
          forall i :: 0 < i < |s.muxed| ==> InOrder(cfg, s.muxed[i - 1].pkt.dts, s.muxed[i].pkt.dts))
  }

  /** The dts of a packet that no last dts constrains: its own, or the guess if it lies after the pts. */
  function FreeDts(entered: Packet): Option<int> { Reorder(entered, None).dts }

  /** Packets keep or lack a dts as they entered, and one behind a gap is repaired on its own. */
  predicate Gaps(cfg: Config, q: Params, s: Stream) {
    Monotonized(cfg, q) ==>
      && (forall i :: 0 <= i < |s.muxed| ==> (s.muxed[i].pkt.dts.None? <==> s.muxed[i].entered.dts.None?))
      && (forall i :: 0 < i < |s.muxed| && s.muxed[i - 1].pkt.dts.None? ==>
            s.muxed[i].pkt.dts == FreeDts(s.muxed[i].entered))
  }

  predicate StreamInv(cfg: Config, q: Params, s: Stream) {
    Lossless(s) && SameBase(s) && Capacity(q, s) && DtsChain(cfg, q, s)
  }

  lemma MuxChain(cfg: Config, q: Params, s: Stream, p: Packet)
    requires DtsChain(cfg, q, s)
    ensures DtsChain(cfg, q, Mux(cfg, q, s, p).0)
  {
  }

  /** The dts before position i at the muxer. */
  function LastBefore(m: seq<Muxed>, i: nat): Option<int>
    requires i <= |m|
  {
    if i == 0 then None else m[i - 1].pkt.dts
  }

  /** What the repair makes of a packet that follows one with the given dts. */
  function Repaired(cfg: Config, q: Params, entered: Packet, last: Option<int>): Packet {
    Raise(cfg, q, if cfg.noTimestamps then entered else Reorder(entered, last), last)
  }

  /** How a packet came to the muxer: as accepted, rescaled from its own time base, then repaired. */
  predicate TracedAt(cfg: Config, q: Params, s: Stream, i: nat)
    requires i < |s.muxed| <= |s.accepted|
  {
    && s.muxed[i].entered == Rescaled(cfg, q, s.accepted[i].pkt, s.accepted[i].base, s.stBase)
    && s.muxed[i].pkt == Repaired(cfg, q, s.muxed[i].entered, LastBefore(s.muxed, i))
  }

  predicate Traced(cfg: Config, q: Params, s: Stream) {
    && |s.muxed| <= |s.accepted| && s.lastDts == LastBefore(s.muxed, |s.muxed|)
    && forall i :: 0 <= i < |s.muxed| ==> TracedAt(cfg, q, s, i)
  }

  /** The packet at the muxer's turn is the first accepted one that has not come there. */
  predicate Next(s: Stream, p: Packet) { |s.muxed| < |s.accepted| && s.accepted[|s.muxed|] == Queued(p, s.muxBase) }

  /** The muxer's new packet is traced if it is repaired behind the last one. */
  lemma OneMoreTraced(cfg: Config, q: Params, s: Stream, t: Stream, x: Muxed)
    requires Traced(cfg, q, s) && |s.muxed| < |s.accepted|
    requires t.accepted == s.accepted && t.stBase == s.stBase && t.muxed == s.muxed + [x] && t.lastDts == x.pkt.dts
    requires x.entered == Rescaled(cfg, q, s.accepted[|s.muxed|].pkt, s.accepted[|s.muxed|].base, s.stBase)
    requires x.pkt == Repaired(cfg, q, x.entered, s.lastDts)
    ensures Traced(cfg, q, t)
  {
    var n := |s.muxed|;
    forall i | 0 <= i < n + 1 ensures TracedAt(cfg, q, t, i) {
      assert LastBefore(t.muxed, i) == LastBefore(s.muxed, i);
      if i < n { assert TracedAt(cfg, q, s, i) && t.muxed[i] == s.muxed[i]; }
    }
  }

  lemma MuxTraced(cfg: Config, q: Params, s: Stream, p: Packet)
    requires Traced(cfg, q, s) && Next(s, p)
    ensures Traced(cfg, q, Mux(cfg, q, s, p).0)
  {
    var (t, outcome) := Mux(cfg, q, s, p);
    if outcome.Ok? { OneMoreTraced(cfg, q, s, t, t.muxed[|s.muxed|]); }
  }

  /** The queue holds the accepted packets that the muxer has not got, under the current time base. */
  predicate QueueIsRest(s: Stream) {
    && |s.accepted| == |s.muxed| + |s.queue| && SameBase(s)
    && forall i :: 0 <= i < |s.queue| ==> s.queue[i] == s.accepted[|s.muxed| + i]
  }

  lemma SameTraced(cfg: Config, q: Params, s: Stream, t: Stream)
    requires Traced(cfg, q, s) && t.muxed == s.muxed && t.stBase == s.stBase && t.lastDts == s.lastDts
    requires |s.accepted| <= |t.accepted| && forall i :: 0 <= i < |s.accepted| ==> t.accepted[i] == s.accepted[i]
    ensures Traced(cfg, q, t)
  {
    forall i | 0 <= i < |t.muxed| ensures TracedAt(cfg, q, t, i) { assert TracedAt(cfg, q, s, i); }
  }

  lemma RestIsNext(cfg: Config, q: Params, s: Stream)
    requires Traced(cfg, q, s) && QueueIsRest(s) && |s.queue| > 0
    ensures var front := s.(queue := s.queue[1..]); var (t, outcome) := Mux(cfg, q, front, s.queue[0].pkt);
      Traced(cfg, q, front) && Next(front, s.queue[0].pkt) && (outcome.Ok? ==> QueueIsRest(t))
  {
    var front := s.(queue := s.queue[1..]);
    assert s.queue[0] == s.accepted[|s.muxed|];
    SameTraced(cfg, q, s, front);
  }

  lemma {:induction false} DrainTraced(cfg: Config, q: Params, s: Stream)
    requires Traced(cfg, q, s) && QueueIsRest(s)
    ensures Traced(cfg, q, Drain(cfg, q, s).0)
    decreases |s.queue|
  {
    if |s.queue| == 0 {
    } else {
      var front := s.(queue := s.queue[1..]);
      var (t, outcome) := Mux(cfg, q, front, s.queue[0].pkt);
      RestIsNext(cfg, q, s);
      MuxTraced(cfg, q, front, s.queue[0].pkt);
      if outcome.Ok? { DrainTraced(cfg, q, t); }
    }
  }

  /** A packet accepted after the header follows all others at once. */
  lemma WriteTraced(cfg: Config, q: Params, header: bool, s: Stream, p: Packet)
    requires Traced(cfg, q, s) && !Refused(q, s) && (header ==> |s.muxed| == |s.accepted|)
    ensures Traced(cfg, q, Write(cfg, q, header, s, p).0)
    ensures !header ==> Write(cfg, q, header, s, p).0.muxed == s.muxed
  {
    var t := s.(frameNumber := s.frameNumber + (if Counted(q) then 1 else 0),
                accepted := s.accepted + [Queued(p, s.muxBase)]);
    SameTraced(cfg, q, s, t);
    if header { MuxTraced(cfg, q, t, p); } else { SameTraced(cfg, q, t, Enqueue(q, t, p).0); }
  }

  /** Over every run, one that an error ended included; before the header the muxer has nothing. */
  lemma {:induction false} AlwaysTraced(cfg: Config, q: Params, base: TimeBase, events: seq<Event>)
    ensures var r := Run(cfg, q, base, events); Traced(cfg, q, r.s) && (!r.header ==> r.s.muxed == [])
  {
    if |events| == 0 {
    } else {
      var front, e := events[..|events| - 1], events[|events| - 1];
      AlwaysTraced(cfg, q, base, front);
      AlwaysRunInv(cfg, q, base, front);
      var r := Run(cfg, q, base, front);
      if r.outcome.Ok? {
        match e
        case Arrive(p) =>
          if !Refused(q, r.s) { WriteTraced(cfg, q, r.header, r.s, p); }
        case HeaderWritten(b) =>
          if !r.header { DrainTraced(cfg, q, AfterHeader(r.s, b)); }
      }
    }
  }

  lemma TracedGaps(cfg: Config, q: Params, s: Stream)
    requires Traced(cfg, q, s)
    ensures Gaps(cfg, q, s)
  {
    forall i | 0 <= i < |s.muxed|
      ensures s.muxed[i].pkt.dts.None? <==> s.muxed[i].entered.dts.None?
      ensures Monotonized(cfg, q) && i > 0 && s.muxed[i - 1].pkt.dts.None? ==>
        s.muxed[i].pkt.dts == FreeDts(s.muxed[i].entered)
    {
      assert TracedAt(cfg, q, s, i);
    }
  }

  lemma AlwaysGaps(cfg: Config, q: Params, base: TimeBase, events: seq<Event>)
    ensures var s := Run(cfg, q, base, events).s; DtsChain(cfg, q, s) && Gaps(cfg, q, s)
  {
    AlwaysRunInv(cfg, q, base, events);
    AlwaysTraced(cfg, q, base, events);
    TracedGaps(cfg, q, Run(cfg, q, base, events).s);
  }

  /** Emptying the queue hands every queued packet to the muxer, rescaled from the base it was queued under. */
  lemma {:induction false} DrainKeeps(cfg: Config, q: Params, s: Stream)
    requires StreamInv(cfg, q, s)
    ensures var (t, outcome) := Drain(cfg, q, s);
      && DtsChain(cfg, q, t) && t.accepted == s.accepted
      && (outcome.Ok? ==> StreamInv(cfg, q, t) && t.queue == [])
    decreases |s.queue|
  {
    if s.queue == [] {
    } else {
      var front := s.(queue := s.queue[1..]);
      var (t, outcome) := Mux(cfg, q, front, s.queue[0].pkt);
      MuxChain(cfg, q, front, s.queue[0].pkt);
      if outcome.Ok? {
        assert s.queue[0] == s.accepted[|s.muxed|];
        assert Lossless(t);
        DrainKeeps(cfg, q, t);
      }
    }
  }

  predicate RunInv(cfg: Config, q: Params, r: Running) {
    && DtsChain(cfg, q, r.s)
    && (Counted(q) && r.outcome.Ok? ==> r.s.frameNumber == |r.s.accepted|)
    && (q.maxFrames >= 0 && Counted(q) ==> r.s.frameNumber <= q.maxFrames)
    && (r.outcome.Ok? ==> StreamInv(cfg, q, r.s))
    && (r.outcome.Ok? && r.header ==> r.s.queue == [])
  }

  /** A packet accepted before the header joins the queue's tail. */
  lemma EnqueueKeeps(cfg: Config, q: Params, s: Stream, p: Packet)
    requires StreamInv(cfg, q, s)
    ensures var t := s.(accepted := s.accepted + [Queued(p, s.muxBase)]); var (u, outcome) := Enqueue(q, t, p);
      DtsChain(cfg, q, u) && (outcome.Ok? ==> StreamInv(cfg, q, u))
  {
    var t := s.(accepted := s.accepted + [Queued(p, s.muxBase)]);
    var (u, outcome) := Enqueue(q, t, p);
    assert DtsChain(cfg, q, t);
    if outcome.Ok? {
      forall i | 0 <= i < |u.queue|
        ensures u.queue[i] == u.accepted[|u.muxed| + i] && u.queue[i].base == u.muxBase
      {
        if i < |s.queue| { assert s.queue[i].base == s.muxBase; }
      }
    }
  }

  /** A packet accepted after it reaches the muxer at once. */
  lemma PassKeeps(cfg: Config, q: Params, s: Stream, p: Packet)
    requires StreamInv(cfg, q, s) && s.queue == []
    ensures var t := s.(accepted := s.accepted + [Queued(p, s.muxBase)]); var (u, outcome) := Mux(cfg, q, t, p);
      DtsChain(cfg, q, u) && (outcome.Ok? ==> StreamInv(cfg, q, u)) && u.queue == []
  {
    var t := s.(accepted := s.accepted + [Queued(p, s.muxBase)]);
    assert DtsChain(cfg, q, t);
    MuxChain(cfg, q, t, p);
  }

  /** What write_packet leaves of the frame number and the history. */
  lemma Numbers(cfg: Config, q: Params, header: bool, s: Stream, p: Packet)
    requires !Refused(q, s)
    ensures var (t, outcome) := Write(cfg, q, header, s, p);
      && t.frameNumber == s.frameNumber + (if Counted(q) then 1 else 0)
      && t.accepted == s.accepted + [Queued(p, s.muxBase)] && (header ==> t.queue == s.queue)
  {
  }

  lemma WriteKeeps(cfg: Config, q: Params, header: bool, s: Stream, p: Packet)
    requires StreamInv(cfg, q, s) && !Refused(q, s) && (header ==> s.queue == [])
    ensures var (t, outcome) := Write(cfg, q, header, s, p);
      DtsChain(cfg, q, t) && (outcome.Ok? ==> StreamInv(cfg, q, t))
  {
    var n := s.(frameNumber := s.frameNumber + (if Counted(q) then 1 else 0));
    assert StreamInv(cfg, q, n);
    if header { PassKeeps(cfg, q, n, p); } else { EnqueueKeeps(cfg, q, n, p); }
  }

  lemma ArriveKeeps(cfg: Config, q: Params, r: Running, p: Packet)
    requires RunInv(cfg, q, r) && r.outcome.Ok?
    ensures RunInv(cfg, q, Step(cfg, q, r, Arrive(p)))
  {
    if !Refused(q, r.s) {
      WriteKeeps(cfg, q, r.header, r.s, p);
      Numbers(cfg, q, r.header, r.s, p);
    }
  }

  lemma HeaderKeeps(cfg: Config, q: Params, r: Running, base: TimeBase)
    requires RunInv(cfg, q, r) && r.outcome.Ok?
    ensures RunInv(cfg, q, Step(cfg, q, r, HeaderWritten(base)))
  {
    if !r.header {
      var t := AfterHeader(r.s, base);
      assert StreamInv(cfg, q, t);
      DrainKeeps(cfg, q, t);
      DrainCounts(cfg, q, t);
    }
  }

  lemma {:induction false} DrainCounts(cfg: Config, q: Params, s: Stream)
    ensures Drain(cfg, q, s).0.frameNumber == s.frameNumber
    decreases |s.queue|
  {
    if s.queue == [] {
    } else {
      DrainCounts(cfg, q, Mux(cfg, q, s.(queue := s.queue[1..]), s.queue[0].pkt).0);
    }
  }

  lemma {:induction false} AlwaysRunInv(cfg: Config, q: Params, base: TimeBase, events: seq<Event>)
    ensures RunInv(cfg, q, Run(cfg, q, base, events))
  {
    if events == [] {
    } else {
      var front, e := events[..|events| - 1], events[|events| - 1];
      AlwaysRunInv(cfg, q, base, front);
      var r := Run(cfg, q, base, front);
      if r.outcome.Ok? {
        match e
        case Arrive(p) => ArriveKeeps(cfg, q, r, p);
        case HeaderWritten(b) => HeaderKeeps(cfg, q, r, b);
      }
    }
  }

  // ---------------------------------------------------------------------------------------------
  // Results

  predicate DropsStamps(cfg: Config, q: Params) {
    (q.kind.Video? && cfg.dropVideoStamps) || (q.kind.Audio? && cfg.dropAudioStamps)
  }

  /** The packet with its stamps moved from the time base it was accepted under, or dropped. */
  predicate Moved(cfg: Config, q: Params, a: Queued, to: TimeBase, entered: Packet) {
    && entered.data == a.pkt.data
    && (entered.pts.Some? <==> a.pkt.pts.Some? && !DropsStamps(cfg, q))
    && (entered.dts.Some? <==> a.pkt.dts.Some? && !DropsStamps(cfg, q))
    && (entered.pts.Some? ==> entered.pts.value == cfg.rescale(a.pkt.pts.value, a.base, to))
    && (entered.dts.Some? ==> entered.dts.value == cfg.rescale(a.pkt.dts.value, a.base, to))
  }

  /**
   Unless the run was ended by an error: what the muxer got, followed by what is still queued, is exactly
   what write_packet accepted, in order; and after the header nothing is queued. Counted packets are what
   -frames limits. In every run each packet enters the timestamp repair rescaled from the time base it was
   accepted under to the stream's.
   */
  lemma NothingLost(cfg: Config, q: Params, base: TimeBase, events: seq<Event>)
    ensures var r := Run(cfg, q, base, events);
      r.outcome.Ok? ==>
        && Lossless(r.s)
        && (r.header ==> r.s.queue == [] && |r.s.muxed| == |r.s.accepted|)
        && (Counted(q) && q.maxFrames >= 0 ==> |r.s.accepted| <= q.maxFrames)
    ensures var s := Run(cfg, q, base, events).s;
      && |s.muxed| <= |s.accepted|
      && forall i :: 0 <= i < |s.muxed| ==> Moved(cfg, q, s.accepted[i], s.stBase, s.muxed[i].entered)
  {
    AlwaysRunInv(cfg, q, base, events);
    AlwaysTraced(cfg, q, base, events);
    var s := Run(cfg, q, base, events).s;
    forall i | 0 <= i < |s.muxed| ensures Moved(cfg, q, s.accepted[i], s.stBase, s.muxed[i].entered) {
      assert TracedAt(cfg, q, s, i);
    }
  }

  /** Its pts is missing or not before its dts. */
  predicate InOwnOrder(p: Packet) { p.pts.Some? && p.dts.Some? ==> p.dts.value <= p.pts.value }

  /** A packet out of its own order gets one stamp for both: the median of pts, dts and the last dts + 1. */
  function Guessed(cfg: Config, p: Packet, last: Option<int>): Packet {
    if cfg.noTimestamps || InOwnOrder(p) then p
    else
      var m := Median(p.pts.value, p.dts.value, if last.Some? then last.value + 1 else NOPTS + 1);
      p.(pts := Some(m), dts := Some(m))
  }

  /**
   What the repair does to each packet of a run: it leaves one alone exactly if that is in order with itself and
   with the dts before it, and raises a dts that comes too early to the floor and no further.
   */
  lemma RepairIs(cfg: Config, q: Params, base: TimeBase, events: seq<Event>, i: nat)
    requires i < |Run(cfg, q, base, events).s.muxed|
    ensures var m := Run(cfg, q, base, events).s.muxed; var e, out, last := m[i].entered, m[i].pkt, LastBefore(m, i);
      var p := Guessed(cfg, e, last);
      && (out == e <==> cfg.noTimestamps || (InOwnOrder(e) && !TooEarly(cfg, q, e, last)))
      && (!TooEarly(cfg, q, p, last) ==> out == p)
      && (TooEarly(cfg, q, p, last) ==>
            var floor := Floor(cfg, last.value);
            && out.data == e.data && out.dts == Some(floor)
            && out.pts == if p.pts.Some? then Some(Max(p.pts.value, floor)) else None)
  {
    AlwaysTraced(cfg, q, base, events);
    var m := Run(cfg, q, base, events).s.muxed;
    assert TracedAt(cfg, q, Run(cfg, q, base, events).s, i);
    RepairOfOne(cfg, q, m[i].entered, LastBefore(m, i));
  }

  lemma RepairOfOne(cfg: Config, q: Params, e: Packet, last: Option<int>)
    ensures var out, p := Repaired(cfg, q, e, last), Guessed(cfg, e, last);
      && (out == e <==> cfg.noTimestamps || (InOwnOrder(e) && !TooEarly(cfg, q, e, last)))
      && (!TooEarly(cfg, q, p, last) ==> out == p)
      && (TooEarly(cfg, q, p, last) ==>
            var floor := Floor(cfg, last.value);
            && out.data == e.data && out.dts == Some(floor)
            && out.pts == if p.pts.Some? then Some(Max(p.pts.value, floor)) else None)
  {
    if !cfg.noTimestamps && !InOwnOrder(e) { GuessIsMedian(e, last); }
  }

  /** The run ends with "too many packets" exactly when a packet that counts meets a queue already at its limit. */
  lemma TooManyIff(cfg: Config, q: Params, base: TimeBase, events: seq<Event>, p: Packet)
    requires Run(cfg, q, base, events).outcome.Ok?
    ensures var r := Run(cfg, q, base, events);
      Step(cfg, q, r, Arrive(p)).outcome.TooManyPackets? <==>
        !r.header && !Refused(q, r.s) && |r.s.queue| >= Max(INITIAL_CAPACITY, q.maxQueue)
  {
    AlwaysRunInv(cfg, q, base, events);
  }

  /** The replacement for a dts after its pts is the median of pts, dts and last dts + 1. */
  lemma GuessIsMedian(p: Packet, last: Option<int>)
    requires p.pts.Some? && p.dts.Some? && p.dts.value > p.pts.value
    ensures var m := Median(p.pts.value, p.dts.value, AfterLast(last));
      Reorder(p, last) == p.(pts := Some(m), dts := Some(m))
  {
  }

  /** A packet that enters the repair with both stamps leaves it with pts not before dts. */
  lemma PtsNotBeforeDts(cfg: Config, q: Params, s: Stream, p: Packet)
    requires !cfg.noTimestamps && Mux(cfg, q, s, p).1.Ok?
    ensures var r, out := Rescaled(cfg, q, p, s.muxBase, s.stBase), Mux(cfg, q, s, p).0.muxed[|s.muxed|].pkt;
      && (r.pts.Some? <==> out.pts.Some?) && (r.dts.Some? <==> out.dts.Some?)
      && (r.pts.Some? && r.dts.Some? ==> out.pts.value >= out.dts.value)
  {
  }

  /** If all dts of a stream are valid, they increase at the muxer, by at least one each if the format is strict. */
  lemma {:induction false} DtsIncrease(cfg: Config, q: Params, base: TimeBase, events: seq<Event>, i: nat, j: nat)
    requires Monotonized(cfg, q)
    requires var m := Run(cfg, q, base, events).s.muxed;
      i < j < |m| && forall k :: 0 <= k < |m| ==> m[k].pkt.dts.Some?
    ensures var m := Run(cfg, q, base, events).s.muxed;
      m[j].pkt.dts.value >= m[i].pkt.dts.value + (if cfg.nonStrict then 0 else j - i)
    decreases j
  {
    AlwaysRunInv(cfg, q, base, events);
    var m := Run(cfg, q, base, events).s.muxed;
    assert InOrder(cfg, m[j - 1].pkt.dts, m[j].pkt.dts);
    if i < j - 1 { DtsIncrease(cfg, q, base, events, i, j - 1); }
  }

  /** Neighbours are in order even when other dts are missing; but a packet without dts makes the next one free. */
  lemma NeighboursInOrder(cfg: Config, q: Params, base: TimeBase, events: seq<Event>, i: nat)
    requires Monotonized(cfg, q) && 0 < i < |Run(cfg, q, base, events).s.muxed|
    ensures var m := Run(cfg, q, base, events).s.muxed; InOrder(cfg, m[i - 1].pkt.dts, m[i].pkt.dts)
  {
    AlwaysRunInv(cfg, q, base, events);
  }

  /** The last valid dts before position j. */
  function LastValid(m: seq<Muxed>, j: nat): Option<int>
    requires j <= |m|
  {
    if j == 0 then None else if m[j - 1].pkt.dts.Some? then m[j - 1].pkt.dts else LastValid(m, j - 1)
  }

  /** All valid dts, gaps or not, are in order. */
  predicate AllInOrder(cfg: Config, m: seq<Muxed>) {
    forall i, j :: 0 <= i < j < |m| ==> InOrder(cfg, m[i].pkt.dts, m[j].pkt.dts)
  }

  /** After every packet without dts, the next one enters with a dts that is in order with the last valid one. */
  predicate GapsKeepOrder(cfg: Config, m: seq<Muxed>) {
    forall j :: 0 < j < |m| && m[j - 1].entered.dts.None? ==> InOrder(cfg, LastValid(m, j), FreeDts(m[j].entered))
  }

  /** The last valid dts is one of those before j. */
  lemma {:induction false} LastValidAt(m: seq<Muxed>, j: nat) returns (i: nat)
    requires j <= |m| && LastValid(m, j).Some?
    ensures i < j && m[i].pkt.dts == LastValid(m, j)
    decreases j
  {
    if m[j - 1].pkt.dts.Some? { i := j - 1; } else { i := LastValidAt(m, j - 1); }
  }

  /** If each valid dts is in order with the last valid one before it, that one is the greatest so far. */
  lemma {:induction false} LastValidIsGreatest(cfg: Config, m: seq<Muxed>, i: nat, j: nat)
    requires forall k :: 0 <= k < |m| ==> InOrder(cfg, LastValid(m, k), m[k].pkt.dts)
    requires i < j <= |m| && m[i].pkt.dts.Some?
    ensures LastValid(m, j).Some? && m[i].pkt.dts.value <= LastValid(m, j).value
    decreases j
  {
    if i == j - 1 {
      assert LastValid(m, j) == m[i].pkt.dts;
    } else {
      LastValidIsGreatest(cfg, m, i, j - 1);
      var before, last := LastValid(m, j - 1), m[j - 1].pkt.dts;
      assert InOrder(cfg, before, last);
      assert LastValid(m, j) == if last.Some? then last else before;
    }
  }

  /** Order survives gaps exactly when each packet after one enters in order with the last valid dts. */
  lemma DtsOrderIff(cfg: Config, q: Params, base: TimeBase, events: seq<Event>)
    requires Monotonized(cfg, q)
    ensures var m := Run(cfg, q, base, events).s.muxed; AllInOrder(cfg, m) <==> GapsKeepOrder(cfg, m)
  {
    AlwaysGaps(cfg, q, base, events);
    var m := Run(cfg, q, base, events).s.muxed;
    if AllInOrder(cfg, m) {
      forall j | 0 < j < |m| && m[j - 1].entered.dts.None?
        ensures InOrder(cfg, LastValid(m, j), FreeDts(m[j].entered))
      {
        if LastValid(m, j).Some? { var i := LastValidAt(m, j); }
      }
    }
    if GapsKeepOrder(cfg, m) {
      forall k | 0 <= k < |m|
        ensures InOrder(cfg, LastValid(m, k), m[k].pkt.dts)
      {
        if k > 0 && m[k - 1].pkt.dts.Some? { assert InOrder(cfg, m[k - 1].pkt.dts, m[k].pkt.dts); }
      }
      forall i, j | 0 <= i < j < |m|
        ensures InOrder(cfg, m[i].pkt.dts, m[j].pkt.dts)
      {
        if m[i].pkt.dts.Some? { LastValidIsGreatest(cfg, m, i, j); }
      }
    }
  }

  /** What the packet enters with, for 64-bit timestamps: its dts, or its pts if the dts lies after it. */
  lemma FreeDtsIs(entered: Packet)
    requires entered.pts.Some? ==> entered.pts.value > NOPTS
    ensures FreeDts(entered) ==
      if entered.pts.Some? && entered.dts.Some? && entered.dts.value > entered.pts.value then entered.pts
      else entered.dts
  {
  }

  /** After a packet without dts any valid dts passes unchanged, however early. */
  lemma GapResetsOrder(cfg: Config, q: Params, s: Stream, gap: Packet, p: Packet)
    requires Monotonized(cfg, q) && Mux(cfg, q, s, gap).1.Ok? && Rescaled(cfg, q, gap, s.muxBase, s.stBase).dts.None?
    requires var r := Rescaled(cfg, q, p, s.muxBase, s.stBase);
      r.dts.Some? && (r.pts.Some? ==> r.pts.value >= r.dts.value)
    ensures var t := Mux(cfg, q, s, gap).0; var (u, outcome) := Mux(cfg, q, t, p);
      outcome.Ok? && u.muxed[|t.muxed|].pkt == Rescaled(cfg, q, p, s.muxBase, s.stBase)
  {
  }

  /** A run that breaks the order: dts 10, none, 5 pass unchanged. */
  lemma GapWitness(base: TimeBase) returns (cfg: Config, q: Params, events: seq<Event>)
    ensures Monotonized(cfg, q)
    ensures var r := Run(cfg, q, base, events);
      && r.outcome.Ok? && |r.s.muxed| == 3
      && r.s.muxed[0].pkt.dts == Some(10) && r.s.muxed[1].pkt.dts == None && r.s.muxed[2].pkt.dts == Some(5)
      && !AllInOrder(cfg, r.s.muxed)
  {
    cfg := Config(false, false, false, false, true, (t, from, to) => t);
    q := Params(Audio, true, false, 100, 128);
    var p1, p2, p3 := Packet(1, None, Some(10)), Packet(2, None, None), Packet(3, None, Some(5));
    var e1, e2 := [HeaderWritten(base), Arrive(p1)], [HeaderWritten(base), Arrive(p1), Arrive(p2)];
    var e3 := [HeaderWritten(base), Arrive(p1), Arrive(p2), Arrive(p3)];
    events := e3;
    assert e1[..1] == [HeaderWritten(base)] && [HeaderWritten(base)][..0] == [] && e2[..2] == e1 && e3[..3] == e2;
    var m1, m2, m3 := Muxed(p1, base, p1), Muxed(p2, base, p2), Muxed(p3, base, p3);
    assert Run(cfg, q, base, [HeaderWritten(base)]) == Running(Start(base).s, true, Ok);
    assert Run(cfg, q, base, e1).s.muxed == [m1];
    assert Run(cfg, q, base, e2).s.muxed == [m1, m2];
    var m := Run(cfg, q, base, e3).s.muxed;
    assert m == [m1, m2, m3];
    assert !InOrder(cfg, m[0].pkt.dts, m[2].pkt.dts);
  }
}
