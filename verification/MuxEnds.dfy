/**
 How a run of write_packet ends: which packets it lets through, when a timestamp ends it, and which time bases
 it works with.
 */
module MuxEnds {
  import opened Common
  import opened MuxWriter

  // ---------------------------------------------------------------------------------------------
  // Timestamps that end a run

  /** Audio and video, except VP9 that is copied, in a format that has timestamps. */
  predicate KeepsDtsRising(cfg: Config, q: Params) { !cfg.noTimestamps && !q.kind.Other? && !q.vp9Copy }

  /**
   With -xerror, the packet enters the repair with a dts below the one before it, or equal to it in a strict
   format, after a dts that lies behind its pts has been replaced.
   */
  ghost predicate Aborts(cfg: Config, q: Params, a: Queued, to: TimeBase, last: Option<int>) {
    && cfg.exitOnError && KeepsDtsRising(cfg, q) && last.Some?
    && exists e :: Moved(cfg, q, a, to, e) && BelowLast(cfg, Guessed(cfg, e, last), last.value)
  }

  predicate BelowLast(cfg: Config, p: Packet, last: int) {
    p.dts.Some? && (p.dts.value < last || (p.dts.value == last && !cfg.nonStrict))
  }

  /** A packet moves to one packet only. */
  lemma MovedIs(cfg: Config, q: Params, a: Queued, to: TimeBase, e: Packet)
    ensures Moved(cfg, q, a, to, e) <==> e == Rescaled(cfg, q, a.pkt, a.base, to)
  {
  }

  lemma GuessedIs(cfg: Config, e: Packet, last: Option<int>)
    ensures Guessed(cfg, e, last) == if cfg.noTimestamps then e else Reorder(e, last)
  {
    if !cfg.noTimestamps && !InOwnOrder(e) { GuessIsMedian(e, last); }
  }

  lemma MuxAborts(cfg: Config, q: Params, s: Stream, p: Packet)
    ensures var outcome := Mux(cfg, q, s, p).1;
      && !outcome.TooManyPackets?
      && (outcome.BadTimestamps? <==> Aborts(cfg, q, Queued(p, s.muxBase), s.stBase, s.lastDts))
  {
    var a := Queued(p, s.muxBase);
    var e := Rescaled(cfg, q, p, s.muxBase, s.stBase);
    MovedIs(cfg, q, a, s.stBase, e);
    GuessedIs(cfg, e, s.lastDts);
    forall x | Moved(cfg, q, a, s.stBase, x) ensures x == e { MovedIs(cfg, q, a, s.stBase, x); }
  }

  /** No packet at the muxer was one to end the run, and the next is exactly if the run has ended so. */
  ghost predicate AbortsAt(cfg: Config, q: Params, s: Stream, i: nat)
    requires i < |s.accepted| && i <= |s.muxed|
  {
    Aborts(cfg, q, s.accepted[i], s.stBase, LastBefore(s.muxed, i))
  }

  ghost predicate NoneAborts(cfg: Config, q: Params, s: Stream) {
    |s.muxed| <= |s.accepted| && forall i :: 0 <= i < |s.muxed| ==> !AbortsAt(cfg, q, s, i)
  }

  ghost predicate EndsRight(cfg: Config, q: Params, s: Stream, outcome: Outcome) {
    && NoneAborts(cfg, q, s)
    && (outcome.BadTimestamps? ==> |s.muxed| < |s.accepted| && AbortsAt(cfg, q, s, |s.muxed|))
  }

  lemma SameAborts(cfg: Config, q: Params, s: Stream, t: Stream)
    requires NoneAborts(cfg, q, s) && |s.muxed| <= |t.muxed| <= |t.accepted| && t.muxed[..|s.muxed|] == s.muxed
    requires |s.accepted| <= |t.accepted| && t.accepted[..|s.accepted|] == s.accepted
    requires t.stBase == s.stBase || |s.muxed| == 0
    ensures forall i :: 0 <= i < |s.muxed| ==> !AbortsAt(cfg, q, t, i)
  {
    forall i | 0 <= i < |s.muxed| ensures !AbortsAt(cfg, q, t, i) {
      assert !AbortsAt(cfg, q, s, i);
      assert t.accepted[i] == t.accepted[..|s.accepted|][i];
      assert LastBefore(t.muxed, i) == LastBefore(s.muxed, i) by {
        if i > 0 { assert t.muxed[i - 1] == t.muxed[..|s.muxed|][i - 1]; }
      }
    }
  }

  lemma MuxEndsRight(cfg: Config, q: Params, s: Stream, p: Packet)
    requires NoneAborts(cfg, q, s) && Next(s, p) && s.lastDts == LastBefore(s.muxed, |s.muxed|)
    ensures var (t, outcome) := Mux(cfg, q, s, p); EndsRight(cfg, q, t, outcome) && !outcome.TooManyPackets?
  {
    var (t, outcome) := Mux(cfg, q, s, p);
    MuxAborts(cfg, q, s, p);
    SameAborts(cfg, q, s, t);
    if outcome.Ok? {
      assert LastBefore(t.muxed, |s.muxed|) == LastBefore(s.muxed, |s.muxed|);
      assert !AbortsAt(cfg, q, t, |s.muxed|);
    }
  }

  lemma {:induction false} DrainEndsRight(cfg: Config, q: Params, s: Stream)
    requires NoneAborts(cfg, q, s) && Traced(cfg, q, s) && QueueIsRest(s)
    ensures var (t, outcome) := Drain(cfg, q, s); EndsRight(cfg, q, t, outcome) && !outcome.TooManyPackets?
    decreases |s.queue|
  {
    if |s.queue| == 0 {
    } else {
      var front := s.(queue := s.queue[1..]);
      var (t, outcome) := Mux(cfg, q, front, s.queue[0].pkt);
      RestIsNext(cfg, q, s);
      MuxTraced(cfg, q, front, s.queue[0].pkt);
      SameAborts(cfg, q, s, front);
      MuxEndsRight(cfg, q, front, s.queue[0].pkt);
      if outcome.Ok? { DrainEndsRight(cfg, q, t); }
    }
  }

  lemma WriteEndsRight(cfg: Config, q: Params, header: bool, s: Stream, p: Packet)
    requires NoneAborts(cfg, q, s) && Traced(cfg, q, s) && !Refused(q, s) && (header ==> |s.muxed| == |s.accepted|)
    ensures var (t, outcome) := Write(cfg, q, header, s, p);
      EndsRight(cfg, q, t, outcome) && (if header then !outcome.TooManyPackets? else !outcome.BadTimestamps?)
  {
    var t := s.(frameNumber := s.frameNumber + (if Counted(q) then 1 else 0),
                accepted := s.accepted + [Queued(p, s.muxBase)]);
    SameAborts(cfg, q, s, t);
    if header {
      MuxEndsRight(cfg, q, t, p);
    } else {
      SameAborts(cfg, q, t, Enqueue(q, t, p).0);
    }
  }

  ghost predicate RunEndsRight(cfg: Config, q: Params, r: Running) {
    && EndsRight(cfg, q, r.s, r.outcome)
    && (if r.header then !r.outcome.TooManyPackets? else !r.outcome.BadTimestamps? && |r.s.muxed| == 0)
  }

  lemma {:induction false} AlwaysEndsRight(cfg: Config, q: Params, base: TimeBase, events: seq<Event>)
    ensures RunEndsRight(cfg, q, Run(cfg, q, base, events))
  {
    if |events| == 0 {
    } else {
      var front, e := events[..|events| - 1], events[|events| - 1];
      AlwaysEndsRight(cfg, q, base, front);
      AlwaysRunInv(cfg, q, base, front);
      AlwaysTraced(cfg, q, base, front);
      var r := Run(cfg, q, base, front);
      if r.outcome.Ok? { StepEndsRight(cfg, q, r, e); }
    }
  }

  lemma StepEndsRight(cfg: Config, q: Params, r: Running, e: Event)
    requires RunEndsRight(cfg, q, r) && RunInv(cfg, q, r) && Traced(cfg, q, r.s) && r.outcome.Ok?
    ensures RunEndsRight(cfg, q, Step(cfg, q, r, e))
  {
    match e
    case Arrive(p) =>
      if !Refused(q, r.s) {
        WriteEndsRight(cfg, q, r.header, r.s, p);
        if !r.header { WriteTraced(cfg, q, r.header, r.s, p); }
      }
    case HeaderWritten(b) =>
      if !r.header {
        var t := AfterHeader(r.s, b);
        assert Traced(cfg, q, t) && NoneAborts(cfg, q, t) && QueueIsRest(t);
        DrainEndsRight(cfg, q, t);
      }
  }

  /**
   A run ends with bad timestamps exactly when a packet at its turn is one that aborts: it is the first accepted
   packet that did not reach the muxer, and none that did reach it was such a packet.
   */
  lemma AbortsIff(cfg: Config, q: Params, base: TimeBase, events: seq<Event>)
    ensures var r := Run(cfg, q, base, events);
      && |r.s.muxed| <= |r.s.accepted|
      && (r.outcome.BadTimestamps? <==>
            r.header && |r.s.muxed| < |r.s.accepted|
            && Aborts(cfg, q, r.s.accepted[|r.s.muxed|], r.s.stBase, LastBefore(r.s.muxed, |r.s.muxed|)))
      && (forall i :: 0 <= i < |r.s.muxed| ==>
            !Aborts(cfg, q, r.s.accepted[i], r.s.stBase, LastBefore(r.s.muxed, i)))
  {
    AlwaysEndsRight(cfg, q, base, events);
    NothingLost(cfg, q, base, events);
    var s := Run(cfg, q, base, events).s;
    forall i | 0 <= i < |s.muxed| ensures !Aborts(cfg, q, s.accepted[i], s.stBase, LastBefore(s.muxed, i)) {
      assert !AbortsAt(cfg, q, s, i);
    }
  }

  /** What a packet that arrives after the header does to the run. */
  lemma ArrivalAborts(cfg: Config, q: Params, base: TimeBase, events: seq<Event>, p: Packet)
    requires var r := Run(cfg, q, base, events); r.outcome.Ok? && r.header && !Refused(q, r.s)
    ensures var s := Run(cfg, q, base, events).s;
      Step(cfg, q, Run(cfg, q, base, events), Arrive(p)).outcome ==
        if Aborts(cfg, q, Queued(p, s.muxBase), s.stBase, LastBefore(s.muxed, |s.muxed|)) then BadTimestamps else Ok
  {
    AlwaysTraced(cfg, q, base, events);
    var s := Run(cfg, q, base, events).s;
    MuxAborts(cfg, q, s.(frameNumber := s.frameNumber + (if Counted(q) then 1 else 0),
                         accepted := s.accepted + [Queued(p, s.muxBase)]), p);
  }

  // ---------------------------------------------------------------------------------------------
  // Packets let through

  /** The packets that came, in order. */
  function Arrived(events: seq<Event>): seq<Packet> {
    if |events| == 0 then []
    else Arrived(events[..|events| - 1]) + OwnArrival(events[|events| - 1])
  }

  function OwnArrival(e: Event): seq<Packet> { if e.Arrive? then [e.pkt] else [] }

  function Pkts(a: seq<Queued>): (r: seq<Packet>)
    ensures |r| == |a| && forall i :: 0 <= i < |a| ==> r[i] == a[i].pkt
  {
    seq(|a|, i requires 0 <= i < |a| => a[i].pkt)
  }

  function UpTo<T>(s: seq<T>, n: int): seq<T> { if 0 <= n < |s| then s[..n] else s }

  lemma UpToMore<T>(s: seq<T>, own: seq<T>, n: int)
    requires n >= 0 && |own| <= 1
    ensures UpTo(s + own, n) == UpTo(s, n) + if |UpTo(s, n)| < n then own else []
  {
  }

  /** Video that is encoded here is counted elsewhere; of every other stream -frames lets the first packets through. */
  function LetThrough(q: Params, arrived: seq<Packet>): seq<Packet> {
    if q.kind.Video? && q.encodingNeeded then arrived else UpTo(arrived, q.maxFrames)
  }

  lemma {:induction false} Accepts(cfg: Config, q: Params, base: TimeBase, events: seq<Event>)
    requires q.maxFrames >= 0 && Run(cfg, q, base, events).outcome.Ok?
    ensures Pkts(Run(cfg, q, base, events).s.accepted) == LetThrough(q, Arrived(events))
  {
    if |events| == 0 {
    } else {
      var front, e := events[..|events| - 1], events[|events| - 1];
      Accepts(cfg, q, base, front);
      AlwaysRunInv(cfg, q, base, front);
      var r := Run(cfg, q, base, front);
      StepAccepts(cfg, q, r, e);
      UpToMore(Arrived(front), OwnArrival(e), q.maxFrames);
    }
  }

  lemma StepAccepts(cfg: Config, q: Params, r: Running, e: Event)
    requires r.outcome.Ok? && RunInv(cfg, q, r)
    ensures Pkts(Step(cfg, q, r, e).s.accepted) == Pkts(r.s.accepted) +
      if (q.kind.Video? && q.encodingNeeded) || |r.s.accepted| < q.maxFrames then OwnArrival(e) else []
  {
    match e
    case Arrive(p) => if !Refused(q, r.s) { Numbers(cfg, q, r.header, r.s, p); }
    case HeaderWritten(b) => if !r.header { DrainAccepts(cfg, q, AfterHeader(r.s, b)); }
  }

  lemma {:induction false} DrainAccepts(cfg: Config, q: Params, s: Stream)
    ensures var t := Drain(cfg, q, s).0; t.accepted == s.accepted && t.stBase == s.stBase && t.muxBase == s.muxBase
    decreases |s.queue|
  {
    if s.queue == [] {
    } else {
      DrainAccepts(cfg, q, Mux(cfg, q, s.(queue := s.queue[1..]), s.queue[0].pkt).0);
    }
  }

  // ---------------------------------------------------------------------------------------------
  // Time bases

  /** The events before the first header. */
  function BeforeHeader(events: seq<Event>): seq<Event> {
    if |events| == 0 || events[0].HeaderWritten? then [] else [events[0]] + BeforeHeader(events[1..])
  }

  /** The base that header fixed. */
  function HeaderBase(events: seq<Event>): Option<TimeBase> {
    var n := |BeforeHeader(events)|;
    if n < |events| && events[n].HeaderWritten? then Some(events[n].base) else None
  }

  lemma {:induction false} BeforeHeaderIs(events: seq<Event>)
    ensures var n := |BeforeHeader(events)|;
      && n <= |events| && BeforeHeader(events) == events[..n]
      && (forall i :: 0 <= i < n ==> !events[i].HeaderWritten?)
      && (n < |events| ==> events[n].HeaderWritten?)
  {
    if |events| == 0 || events[0].HeaderWritten? {
    } else {
      BeforeHeaderIs(events[1..]);
      var n := |BeforeHeader(events[1..])|;
      assert events[..n + 1] == [events[0]] + events[1..][..n];
      assert forall i :: 1 <= i < |events| ==> events[i] == events[1..][i - 1];
    }
  }

  lemma {:induction false} BeforeHeaderAt(events: seq<Event>, n: nat)
    requires n <= |events| && (forall i :: 0 <= i < n ==> !events[i].HeaderWritten?)
    requires n < |events| ==> events[n].HeaderWritten?
    ensures BeforeHeader(events) == events[..n]
  {
    if n == 0 {
    } else {
      BeforeHeaderAt(events[1..], n - 1);
      assert events[..n] == [events[0]] + events[1..][..n - 1];
    }
  }

  lemma BeforeHeaderSnoc(front: seq<Event>, e: Event)
    ensures HeaderBase(front).Some? ==>
      HeaderBase(front + [e]) == HeaderBase(front) && BeforeHeader(front + [e]) == BeforeHeader(front)
    ensures HeaderBase(front).None? ==> BeforeHeader(front) == front
    ensures HeaderBase(front).None? && e.HeaderWritten? ==>
      HeaderBase(front + [e]) == Some(e.base) && BeforeHeader(front + [e]) == front
    ensures HeaderBase(front).None? && !e.HeaderWritten? ==> HeaderBase(front + [e]).None?
  {
    BeforeHeaderIs(front);
    var n := |BeforeHeader(front)|;
    assert forall i :: 0 <= i < |front| ==> (front + [e])[i] == front[i];
    var m := if n == |front| && !e.HeaderWritten? then n + 1 else n;
    BeforeHeaderAt(front + [e], m);
    assert n <= |front| ==> (front + [e])[..n] == front[..n];
  }

  /** The time bases of a stream: its own, and the one its packets are accepted under. */
  predicate Bases(s: Stream, own: TimeBase, packets: TimeBase) { s.stBase == own && s.muxBase == packets }

  /**
   The stream's time base is the first header's once it is written. Packets accepted later are under that base too,
   unless some waited for the header; every other packet is under the base the encoder came with.
   */
  lemma {:induction false} TimeBases(cfg: Config, q: Params, base: TimeBase, events: seq<Event>)
    ensures var r := Run(cfg, q, base, events); var fixed := HeaderBase(events);
      && (r.outcome.Ok? ==> (r.header <==> fixed.Some?)) && (r.header ==> fixed.Some?)
      && (!r.header ==> Bases(r.s, base, base))
      && (r.header ==>
            var waited := |Run(cfg, q, base, BeforeHeader(events)).s.accepted| > 0;
            Bases(r.s, fixed.value, if waited then base else fixed.value))
  {
    if |events| == 0 {
    } else {
      var front, e := events[..|events| - 1], events[|events| - 1];
      TimeBases(cfg, q, base, front);
      assert events == front + [e];
      BeforeHeaderSnoc(front, e);
      var r := Run(cfg, q, base, front);
      if r.outcome.Ok? {
        match e
        case Arrive(p) => WriteBases(cfg, q, r.header, r.s, p);
        case HeaderWritten(b) =>
          AlwaysRunInv(cfg, q, base, front);
          AlwaysTraced(cfg, q, base, front);
          if !r.header { DrainAccepts(cfg, q, AfterHeader(r.s, b)); }
      }
    }
  }

  lemma WriteBases(cfg: Config, q: Params, header: bool, s: Stream, p: Packet)
    ensures var t := Write(cfg, q, header, s, p).0; t.stBase == s.stBase && t.muxBase == s.muxBase
  {
  }
}
