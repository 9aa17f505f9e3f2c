/**
 Frame duplication and dropping before a video encoder: do_video_out of ffmpeg.c.

 Timestamps and durations are real numbers in units of the encoder's time base; rounding is lrint's,
 to the nearest integer and to even when halfway. The encoder is the sequence of frames it was given.
 */
module VideoSync {
  import opened Common

  /** video_sync_method after VSYNC_AUTO has been resolved. */
  datatype Method = Cfr | Vscfr | Vfr | Passthrough | DropStamps

  type Picture = int

  /** One call: the picture (none when flushing), its timestamp, the frame duration, the sync method. */
  datatype Call = Call(picture: Option<Picture>, syncIpts: real, duration: real, sync: Method)

  /** A frame as given to the encoder. */
  datatype Encoded = Encoded(picture: Picture, pts: int)

  /** Options: -frames, -frame_drop_threshold, -dts_error_threshold, and whether -t still allows a sync_opts. */
  datatype Config = Config(maxFrames: int, dropThreshold: real, errorThreshold: real, within: int -> bool)

  /** The fields of OutputStream, and the two global counters, that do_video_out reads and writes. */
  datatype Stream = Stream(
    syncOpts: int, frameNumber: int, lastNb0: (int, int, int), lastDropped: bool, lastFrame: Option<Picture>,
    nbDup: int, nbDrop: int, encoded: seq<Encoded>)

  /** The stream before the first call. */
  predicate IsFresh(v: Stream) {
    && v.syncOpts == 0 && v.frameNumber == 0 && v.lastNb0 == (0, 0, 0) && !v.lastDropped && v.lastFrame.None?
    && v.nbDup == 0 && v.nbDrop == 0 && |v.encoded| == 0
  }

  /** How a call ended: all frames encoded; skipped as "frame duplication too large"; left inside the loop. */
  datatype Outcome = Complete | TooMany | Stopped

  /** lrint: nearest integer, halfway cases to even. */
  function Rint(r: real): (n: int)
    ensures r - 0.5 <= n as real <= r + 0.5
  {
    var low := r.Floor;
    var part := r - low as real;
    if part < 0.5 || (part == 0.5 && low % 2 == 0) then low else low + 1
  }

  lemma RintMonotone(r: real, n: int)
    ensures r >= n as real ==> Rint(r) >= n
  {
  }

  function B(b: bool): nat { if b then 1 else 0 }

  // ---------------------------------------------------------------------------------------------
  // The transition

  /** How often to encode, how many of these repeat the previous frame, and the new sync_opts. */
  datatype Plan = Plan(nb: int, nb0: int, syncOpts: int)

  function FramePlan(cfg: Config, v: Stream, c: Call): Plan {
    var delta0 := c.syncIpts - v.syncOpts as real;
    var delta := delta0 + c.duration;
    var clip := delta0 < 0.0 && delta > 0.0 && !c.sync.Passthrough? && !c.sync.DropStamps?;
    var syncIpts := if clip then v.syncOpts as real else c.syncIpts;
    var duration := if clip then c.duration + delta0 else c.duration;
    var drift := if clip then 0.0 else delta0;
    match c.sync
    case Vscfr =>
      if v.frameNumber == 0 && drift >= 0.5 then
        var p := ConstantRate(cfg, v, duration, 0.0);
        p.(syncOpts := Rint(syncIpts))
      else ConstantRate(cfg, v, delta, drift)
    case Cfr => ConstantRate(cfg, v, delta, drift)
    case Vfr =>
      if delta <= -0.6 then Plan(0, 0, v.syncOpts)
      else if delta > 0.6 then Plan(1, 0, Rint(syncIpts))
      else Plan(1, 0, v.syncOpts)
    case _ => Plan(1, 0, Rint(syncIpts))
  }

  function ConstantRate(cfg: Config, v: Stream, delta: real, delta0: real): Plan {
    if cfg.dropThreshold != 0.0 && delta < cfg.dropThreshold && v.frameNumber != 0 then Plan(0, 0, v.syncOpts)
    else if delta < -1.1 then Plan(0, 0, v.syncOpts)
    else if delta > 1.1 then Plan(Rint(delta), if delta0 > 1.1 then Rint(delta0 - 0.6) else 0, v.syncOpts)
    else Plan(1, 0, v.syncOpts)
  }

  /** The plan, capped by -frames. */
  function Planned(cfg: Config, v: Stream, c: Call): Plan {
    var p :=
      if c.picture.Some? then FramePlan(cfg, v, c)
      else
        var m := Median(v.lastNb0.0, v.lastNb0.1, v.lastNb0.2);
        Plan(m, m, v.syncOpts);
    var nb := Min(p.nb, cfg.maxFrames - v.frameNumber);
    Plan(nb, Min(p.nb0, nb), p.syncOpts)
  }

  /** Frames of the plan that are neither a rescued pending frame nor the new one: duplicates. */
  function Extra(v: Stream, p: Plan): int {
    p.nb - B(p.nb0 != 0 && v.lastDropped) - B(p.nb > p.nb0)
  }

  predicate IsTooMany(cfg: Config, v: Stream, p: Plan) {
    Extra(v, p) > 0 && p.nb as real > cfg.errorThreshold * 30.0
  }

  /** The picture encoded at position i: the previous frame for the first nb0 if there is one. */
  function Source(last: Option<Picture>, picture: Option<Picture>, p: Plan, i: int): Option<Picture> {
    if i < p.nb0 && last.Some? then last else picture
  }

  /** How many of the nb frames are encoded: up to a missing picture or the recording time. */
  function EncodedUpTo(cfg: Config, last: Option<Picture>, picture: Option<Picture>, p: Plan, i: nat): (n: nat)
    ensures n >= i && (p.nb >= i ==> n <= p.nb) && (p.nb < i ==> n == i)
    decreases p.nb - i
  {
    if i < p.nb && Source(last, picture, p, i).Some? && cfg.within(p.syncOpts + i)
    then EncodedUpTo(cfg, last, picture, p, i + 1) else i
  }

  /** What the encoder is given: n frames, numbered from sync_opts on. */
  function Batch(last: Option<Picture>, picture: Option<Picture>, p: Plan, n: nat): (b: seq<Encoded>)
    ensures |b| <= n
  {
    if n == 0 then []
    else
      Batch(last, picture, p, n - 1) +
      (match Source(last, picture, p, n - 1) case Some(x) => [Encoded(x, p.syncOpts + n - 1)] case None => [])
  }

  /** The history of zero-frame drops and the counters, before anything is encoded. */
  function Accounted(v: Stream, p: Plan, flushing: bool): Stream {
    v.(syncOpts := p.syncOpts, lastNb0 := (p.nb0, v.lastNb0.0, v.lastNb0.1),
       nbDrop := v.nbDrop + B(p.nb0 == 0 && v.lastDropped),
       nbDup := v.nbDup + Max(0, Extra(v, p)), lastDropped := p.nb == p.nb0 && !flushing)
  }

  /** The same when the call is refused: the frame is counted as dropped and last_dropped is left as it was. */
  function Refused(v: Stream, p: Plan): Stream {
    v.(syncOpts := p.syncOpts, lastNb0 := (p.nb0, v.lastNb0.0, v.lastNb0.1),
       nbDrop := v.nbDrop + B(p.nb0 == 0 && v.lastDropped) + 1)
  }

  function AfterBatch(v: Stream, n: nat, b: seq<Encoded>): Stream {
    v.(syncOpts := v.syncOpts + n, frameNumber := v.frameNumber + n, encoded := v.encoded + b)
  }

  function Next(cfg: Config, v: Stream, c: Call): (Stream, Outcome) {
    var p := Planned(cfg, v, c);
    if IsTooMany(cfg, v, p) then (Refused(v, p), TooMany)
    else
      var n := EncodedUpTo(cfg, v.lastFrame, c.picture, p, 0);
      var t := AfterBatch(Accounted(v, p, c.picture.None?), n, Batch(v.lastFrame, c.picture, p, n));
      if n < p.nb then (t, Stopped) else (t.(lastFrame := c.picture), Complete)
  }

  // ---------------------------------------------------------------------------------------------
  // The code

  /** OutputStream, as do_video_out updates it, with the global duplicate and drop counters. */
  class VideoOutput {
    const cfg: Config
    var syncOpts: int
    var frameNumber: int
    var lastNb0: (int, int, int)
    var lastDropped: bool
    var lastFrame: Option<Picture>
    var nbDup: int
    var nbDrop: int
    var encoded: seq<Encoded>

    constructor (cfg: Config)
      ensures this.cfg == cfg && IsFresh(State())
    {
      this.cfg := cfg;
      syncOpts, frameNumber, lastNb0, lastDropped, lastFrame := 0, 0, (0, 0, 0), false, None;
      nbDup, nbDrop, encoded := 0, 0, [];
    }

    function State(): Stream
      reads this
    {
      Stream(syncOpts, frameNumber, lastNb0, lastDropped, lastFrame, nbDup, nbDrop, encoded)
    }

    /** The part before the caps: how many frames, and where the encoder's clock goes. */
    method ChooseFrames(c: Call) returns (nb: int, nb0: int)
      modifies this`syncOpts
      ensures c.picture.Some? ==> Plan(nb, nb0, syncOpts) == old(FramePlan(cfg, State(), c))
      ensures c.picture.None? ==> nb == nb0 == Median(lastNb0.0, lastNb0.1, lastNb0.2) && syncOpts == old(syncOpts)
    {
      if c.picture.None? {
        nb := Median(lastNb0.0, lastNb0.1, lastNb0.2);
        return nb, nb;
      }
      nb, nb0 := 1, 0;
      var syncIpts, duration := c.syncIpts, c.duration;
      var delta0 := syncIpts - syncOpts as real;
      var delta := delta0 + duration;
      if delta0 < 0.0 && delta > 0.0 && c.sync != Passthrough && c.sync != DropStamps {
        syncIpts := syncOpts as real;
        duration := duration + delta0;
        delta0 := 0.0;
      }
      if c.sync == Vscfr && frameNumber == 0 && delta0 >= 0.5 {
        delta := duration;
        delta0 := 0.0;
        syncOpts := Rint(syncIpts);
      }
      match c.sync {
        case Vscfr | Cfr =>
          if cfg.dropThreshold != 0.0 && delta < cfg.dropThreshold && frameNumber != 0 {
            nb := 0;
          } else if delta < -1.1 {
            nb := 0;
          } else if delta > 1.1 {
            nb := Rint(delta);
            if delta0 > 1.1 { nb0 := Rint(delta0 - 0.6); }
          }
        case Vfr =>
          if delta <= -0.6 {
            nb := 0;
          } else if delta > 0.6 {
            syncOpts := Rint(syncIpts);
          }
        case _ => syncOpts := Rint(syncIpts);
      }
    }

    /** History, drop and duplicate counters; true when the call is refused. */
    method Account(nb: int, nb0: int, flushing: bool) returns (tooMany: bool)
      modifies this`lastNb0, this`nbDrop, this`nbDup, this`lastDropped
      ensures var v, p := old(State()), Plan(nb, nb0, old(syncOpts));
        && tooMany == IsTooMany(cfg, v, p)
        && State() == (if tooMany then Refused(v, p) else Accounted(v, p, flushing))
    {
      lastNb0 := (nb0, lastNb0.0, lastNb0.1);
      if nb0 == 0 && lastDropped { nbDrop := nbDrop + 1; }
      var kept := (if nb0 != 0 && lastDropped then 1 else 0) + (if nb > nb0 then 1 else 0);
      if nb > kept {
        if nb as real > cfg.errorThreshold * 30.0 {
          nbDrop := nbDrop + 1;
          return true;
        }
        nbDup := nbDup + nb - kept;
      }
      lastDropped := nb == nb0 && !flushing;
      return false;
    }

    /** The loop that encodes, and repeats, frames. */
    method EncodeFrames(nb: int, nb0: int, picture: Option<Picture>) returns (i: nat)
      modifies this`syncOpts, this`frameNumber, this`encoded
      ensures var p := Plan(nb, nb0, old(syncOpts));
        && i == EncodedUpTo(cfg, lastFrame, picture, p, 0)
        && encoded == old(encoded) + Batch(lastFrame, picture, p, i)
      ensures syncOpts == old(syncOpts) + i && frameNumber == old(frameNumber) + i
    {
      ghost var p := Plan(nb, nb0, syncOpts);
      i := 0;
      while i < nb
        invariant i > 0 ==> i <= nb
        invariant syncOpts == old(syncOpts) + i && frameNumber == old(frameNumber) + i
        invariant encoded == old(encoded) + Batch(lastFrame, picture, p, i)
        invariant EncodedUpTo(cfg, lastFrame, picture, p, 0) == EncodedUpTo(cfg, lastFrame, picture, p, i)
      {
        var inPicture := if i < nb0 && lastFrame.Some? then lastFrame else picture;
        if inPicture.None? { return; }
        if !cfg.within(syncOpts) { return; }
        encoded := encoded + [Encoded(inPicture.value, syncOpts)];
        syncOpts := syncOpts + 1;
        frameNumber := frameNumber + 1;
        i := i + 1;
      }
    }

    method DoVideoOut(c: Call) returns (outcome: Outcome)
      modifies this
      ensures (State(), outcome) == old(Next(cfg, State(), c))
    {
      var nb, nb0 := ChooseFrames(c);
      nb := Min(nb, cfg.maxFrames - frameNumber);
      nb0 := Min(nb0, nb);
      assert Plan(nb, nb0, syncOpts) == old(Planned(cfg, State(), c));
      var tooMany := Account(nb, nb0, c.picture.None?);
      if tooMany { return TooMany; }
      ghost var w := State();
      var n := EncodeFrames(nb, nb0, c.picture);
      assert State() == AfterBatch(w, n, Batch(lastFrame, c.picture, Plan(nb, nb0, w.syncOpts), n));
      if n < nb { return Stopped; }
      lastFrame := c.picture;
      return Complete;
    }
  }

  // ---------------------------------------------------------------------------------------------
  // Runs

  function RunCalls(cfg: Config, v: Stream, calls: seq<Call>): Stream
    decreases |calls|
  {
    if calls == [] then v
    else Next(cfg, RunCalls(cfg, v, calls[..|calls| - 1]), calls[|calls| - 1]).0
  }

  function LastOutcome(cfg: Config, v0: Stream, calls: seq<Call>): Outcome
    requires calls != []
  {
    Next(cfg, RunCalls(cfg, v0, calls[..|calls| - 1]), calls[|calls| - 1]).1
  }

  // ---------------------------------------------------------------------------------------------
  // Timestamps given to the encoder

  predicate Increasing(e: seq<Encoded>) {
    forall i, j :: 0 <= i < j < |e| ==> e[i].pts < e[j].pts
  }

  /** Everything encoded so far lies below sync_opts, and frame_number counts it. */
  predicate Stamped(v: Stream) {
    && Increasing(v.encoded)
    && (forall i :: 0 <= i < |v.encoded| ==> v.encoded[i].pts < v.syncOpts)
    && v.frameNumber == |v.encoded|
  }

  lemma {:induction false} BatchStamps(last: Option<Picture>, picture: Option<Picture>, p: Plan, n: nat)
    requires forall i :: 0 <= i < n ==> Source(last, picture, p, i).Some?
    ensures |Batch(last, picture, p, n)| == n
    ensures forall i :: 0 <= i < n ==>
      Batch(last, picture, p, n)[i] == Encoded(Source(last, picture, p, i).value, p.syncOpts + i)
  {
    if n == 0 {
    } else {
      BatchStamps(last, picture, p, n - 1);
    }
  }

  lemma {:induction false} EncodedHaveSource(cfg: Config, last: Option<Picture>, picture: Option<Picture>, p: Plan,
                                             i: nat)
    ensures forall k :: i <= k < EncodedUpTo(cfg, last, picture, p, i) ==> Source(last, picture, p, k).Some?
    decreases p.nb - i
  {
    if i >= EncodedUpTo(cfg, last, picture, p, i) {
    } else {
      EncodedHaveSource(cfg, last, picture, p, i + 1);
    }
  }

  /** Except in the pass-through methods, the clock only moves back while nothing has been encoded. */
  lemma ClockForward(cfg: Config, v: Stream, c: Call)
    requires c.picture.Some? ==> !c.sync.Passthrough? && !c.sync.DropStamps?
    ensures v.frameNumber != 0 ==> Planned(cfg, v, c).syncOpts >= v.syncOpts
  {
    if c.picture.Some? && c.sync.Vfr? {
      RintMonotone(c.syncIpts, v.syncOpts);
      RintMonotone(v.syncOpts as real, v.syncOpts);
    }
  }

  lemma AppendStamps(e: seq<Encoded>, b: seq<Encoded>, from: int)
    requires Increasing(e) && forall i :: 0 <= i < |e| ==> e[i].pts < from
    requires forall i :: 0 <= i < |b| ==> b[i].pts == from + i
    ensures Increasing(e + b) && forall i :: 0 <= i < |e + b| ==> (e + b)[i].pts < from + |b|
  {
  }

  lemma StampedStep(cfg: Config, v: Stream, c: Call)
    requires Stamped(v) && (c.picture.Some? ==> !c.sync.Passthrough? && !c.sync.DropStamps?)
    ensures Stamped(Next(cfg, v, c).0)
  {
    ClockForward(cfg, v, c);
    var p := Planned(cfg, v, c);
    StampedBatch(cfg, v, c.picture, p);
  }

  lemma StampedBatch(cfg: Config, v: Stream, picture: Option<Picture>, p: Plan)
    requires Stamped(v) && (v.frameNumber != 0 ==> p.syncOpts >= v.syncOpts)
    ensures var n := EncodedUpTo(cfg, v.lastFrame, picture, p, 0);
      Stamped(AfterBatch(v.(syncOpts := p.syncOpts), n, Batch(v.lastFrame, picture, p, n)))
    ensures Stamped(v.(syncOpts := p.syncOpts))
  {
    var n := EncodedUpTo(cfg, v.lastFrame, picture, p, 0);
    EncodedHaveSource(cfg, v.lastFrame, picture, p, 0);
    BatchStamps(v.lastFrame, picture, p, n);
    AppendStamps(v.encoded, Batch(v.lastFrame, picture, p, n), p.syncOpts);
  }

  /**
   Under CFR, VSCFR and VFR, in any mixture and for any timestamps and durations, the pts given to the
   encoder strictly increases over the whole run, and -frames is never exceeded.
   */
  lemma {:induction false} EncoderPtsIncrease(cfg: Config, v0: Stream, calls: seq<Call>)
    requires IsFresh(v0)
    requires forall i :: 0 <= i < |calls| && calls[i].picture.Some? ==>
      !calls[i].sync.Passthrough? && !calls[i].sync.DropStamps?
    ensures Stamped(RunCalls(cfg, v0, calls))
  {
    if calls == [] {
    } else {
      EncoderPtsIncrease(cfg, v0, calls[..|calls| - 1]);
      StampedStep(cfg, RunCalls(cfg, v0, calls[..|calls| - 1]), calls[|calls| - 1]);
    }
  }

  lemma {:induction false} FrameLimit(cfg: Config, v0: Stream, calls: seq<Call>)
    requires IsFresh(v0)
    requires cfg.maxFrames >= 0
    ensures 0 <= RunCalls(cfg, v0, calls).frameNumber <= cfg.maxFrames
  {
    if calls == [] {
    } else {
      FrameLimit(cfg, v0, calls[..|calls| - 1]);
    }
  }

  /** Only the other two methods, and flushes. */
  predicate Trusting(calls: seq<Call>) {
    forall i :: 0 <= i < |calls| && calls[i].picture.Some? ==> calls[i].sync.Passthrough? || calls[i].sync.DropStamps?
  }

  /** The frames of a run that -t lets through, each under its own rounded timestamp. */
  function Eligible(cfg: Config, calls: seq<Call>): seq<Encoded> {
    if |calls| == 0 then [] else Eligible(cfg, calls[..|calls| - 1]) + OwnEligible(cfg, calls[|calls| - 1])
  }

  function OwnEligible(cfg: Config, c: Call): seq<Encoded> {
    if c.picture.Some? && cfg.within(Rint(c.syncIpts)) then [Encoded(c.picture.value, Rint(c.syncIpts))] else []
  }

  function UpTo<T>(e: seq<T>, n: int): seq<T> { if 0 <= n < |e| then e[..n] else e }

  lemma UpToMore<T>(e: seq<T>, own: seq<T>, n: int)
    requires n >= 0 && |own| <= 1
    ensures UpTo(e + own, n) == UpTo(e, n) + if |UpTo(e, n)| < n then own else []
  {
  }

  lemma PassthroughStep(cfg: Config, v: Stream, c: Call)
    requires c.picture.Some? ==> c.sync.Passthrough? || c.sync.DropStamps?
    requires 0 <= v.frameNumber <= cfg.maxFrames && v.lastNb0 == (0, 0, 0)
    ensures var w := Next(cfg, v, c).0; var own := if v.frameNumber < cfg.maxFrames then OwnEligible(cfg, c) else [];
      w.lastNb0 == (0, 0, 0) && w.frameNumber == v.frameNumber + |own| && w.encoded == v.encoded + own
  {
    var p := Planned(cfg, v, c);
    assert p.nb0 == 0 && p.nb == B(c.picture.Some? && v.frameNumber < cfg.maxFrames) && !IsTooMany(cfg, v, p);
    if p.nb == 1 {
      assert p.syncOpts == Rint(c.syncIpts) && Source(v.lastFrame, c.picture, p, 0) == c.picture;
      assert EncodedUpTo(cfg, v.lastFrame, c.picture, p, 1) == 1;
      assert Batch(v.lastFrame, c.picture, p, 0) == [];
    } else {
      assert EncodedUpTo(cfg, v.lastFrame, c.picture, p, 0) == 0;
    }
  }

  /** The other two methods trust the input: frames that -t lets through, up to -frames, under their own timestamps. */
  lemma {:induction false} PassthroughPts(cfg: Config, v0: Stream, calls: seq<Call>)
    requires IsFresh(v0)
    requires cfg.maxFrames >= 0 && Trusting(calls)
    ensures var v := RunCalls(cfg, v0, calls);
      && v.frameNumber == |v.encoded| <= cfg.maxFrames && v.lastNb0 == (0, 0, 0)
      && v.encoded == UpTo(Eligible(cfg, calls), cfg.maxFrames)
  {
    if |calls| == 0 {
    } else {
      var front, c := calls[..|calls| - 1], calls[|calls| - 1];
      assert Trusting(front) by { assert forall i :: 0 <= i < |front| ==> front[i] == calls[i]; }
      PassthroughPts(cfg, v0, front);
      PassthroughStep(cfg, RunCalls(cfg, v0, front), c);
      UpToMore(Eligible(cfg, front), OwnEligible(cfg, c), cfg.maxFrames);
    }
  }

  /** So there the encoder's pts increase if and only if the rounded timestamps of those frames do. */
  lemma PassthroughIncreasesIff(cfg: Config, v0: Stream, calls: seq<Call>)
    requires IsFresh(v0)
    requires cfg.maxFrames >= 0 && Trusting(calls)
    ensures var e := Eligible(cfg, calls);
      Increasing(RunCalls(cfg, v0, calls).encoded) <==>
      forall i, j :: 0 <= i < j < |e| && j < cfg.maxFrames ==> e[i].pts < e[j].pts
  {
    PassthroughPts(cfg, v0, calls);
    var e, done := Eligible(cfg, calls), RunCalls(cfg, v0, calls).encoded;
    assert forall i :: 0 <= i < |e| && i < cfg.maxFrames ==> i < |done| && done[i] == e[i];
  }

  // ---------------------------------------------------------------------------------------------
  // Conservation of frames

  /** What every run keeps of the frame counter and the history, and the flush needs. */
  predicate InRange(cfg: Config, v: Stream) {
    v.frameNumber <= cfg.maxFrames && v.lastNb0.0 >= 0 && v.lastNb0.1 >= 0 && v.lastNb0.2 >= 0
  }

  /** Frames in and duplicates, less frames encoded, frames dropped, and the one pending as last_dropped. */
  function Balance(v: Stream, framesIn: int): int {
    framesIn + v.nbDup - v.frameNumber - v.nbDrop - B(v.lastDropped)
  }

  /**
   By how much one call breaks the balance. A completed call keeps it. A call left inside its loop owes
   the frames it did not encode. A refused call counts a pending frame as dropped but leaves it pending,
   so it keeps the balance exactly when no pending frame was given up.
   */
  lemma BalanceOfOneCall(cfg: Config, v: Stream, c: Call, framesIn: int)
    requires InRange(cfg, v)
    ensures var (w, outcome), p := Next(cfg, v, c), Planned(cfg, v, c);
      Balance(w, framesIn + B(c.picture.Some?)) - Balance(v, framesIn) ==
      match outcome
      case Complete => 0
      case Stopped => p.nb - (w.frameNumber - v.frameNumber)
      case TooMany => (if v.lastDropped && p.nb0 == 0 then -1 else 0) - (if c.picture.None? then 1 else 0)
    ensures Next(cfg, v, c).1.Stopped? ==> Planned(cfg, v, c).nb > Next(cfg, v, c).0.frameNumber - v.frameNumber
    ensures InRange(cfg, Next(cfg, v, c).0)
  {
  }

  function FramesIn(calls: seq<Call>): nat {
    if calls == [] then 0
    else FramesIn(calls[..|calls| - 1]) + B(calls[|calls| - 1].picture.Some?)
  }

  /** No call of the run was refused or left early. */
  predicate AllComplete(cfg: Config, v0: Stream, calls: seq<Call>) {
    calls != [] ==> LastOutcome(cfg, v0, calls).Complete? && AllComplete(cfg, v0, calls[..|calls| - 1])
  }

  /**
   Over any run of completed calls, flushes included: frames in + duplicated = encoded + dropped + pending.
   print_report adds the pending frame to the drop count at the end, which closes the equation.
   */
  lemma {:induction false} FramesConserved(cfg: Config, v0: Stream, calls: seq<Call>)
    requires IsFresh(v0)
    requires cfg.maxFrames >= 0 && AllComplete(cfg, v0, calls)
    ensures var v := RunCalls(cfg, v0, calls);
      && FramesIn(calls) + v.nbDup == v.frameNumber + v.nbDrop + B(v.lastDropped)
      && InRange(cfg, v)
  {
    if calls == [] {
    } else {
      var front := calls[..|calls| - 1];
      FramesConserved(cfg, v0, front);
      BalanceOfOneCall(cfg, RunCalls(cfg, v0, front), calls[|calls| - 1], FramesIn(front));
    }
  }

  /** Frames a call loses from the balance: refused, it counts a pending frame twice, and a flush one that never was. */
  function LossOf(cfg: Config, v: Stream, c: Call): nat {
    if Next(cfg, v, c).1.TooMany? then B(v.lastDropped && Planned(cfg, v, c).nb0 == 0) + B(c.picture.None?) else 0
  }

  function Losses(cfg: Config, v0: Stream, calls: seq<Call>): nat {
    if |calls| == 0 then 0
    else
      var front := calls[..|calls| - 1];
      Losses(cfg, v0, front) + LossOf(cfg, RunCalls(cfg, v0, front), calls[|calls| - 1])
  }

  predicate NoneStopped(cfg: Config, v0: Stream, calls: seq<Call>) {
    |calls| > 0 ==> !LastOutcome(cfg, v0, calls).Stopped? && NoneStopped(cfg, v0, calls[..|calls| - 1])
  }

  lemma BalanceStep(cfg: Config, v: Stream, c: Call, framesIn: int)
    requires InRange(cfg, v) && !Next(cfg, v, c).1.Stopped?
    ensures Balance(Next(cfg, v, c).0, framesIn + B(c.picture.Some?)) == Balance(v, framesIn) - LossOf(cfg, v, c)
    ensures InRange(cfg, Next(cfg, v, c).0)
  {
    BalanceOfOneCall(cfg, v, c, framesIn);
  }

  /**
   Over any run in which no call is left early, refused calls included: frames in + duplicated + lost =
   encoded + dropped + pending. So the equation without losses holds exactly if no refused call gave up a
   pending frame or was a flush.
   */
  lemma {:induction false} ConservedUpToLosses(cfg: Config, v0: Stream, calls: seq<Call>)
    requires IsFresh(v0)
    requires cfg.maxFrames >= 0 && NoneStopped(cfg, v0, calls)
    ensures Balance(RunCalls(cfg, v0, calls), FramesIn(calls)) + Losses(cfg, v0, calls) == 0
    ensures InRange(cfg, RunCalls(cfg, v0, calls))
  {
    if |calls| == 0 {
    } else {
      var front, c := calls[..|calls| - 1], calls[|calls| - 1];
      ConservedUpToLosses(cfg, v0, front);
      BalanceStep(cfg, RunCalls(cfg, v0, front), c, FramesIn(front));
    }
  }

  lemma OneMoreCall(cfg: Config, v0: Stream, calls: seq<Call>, c: Call)
    ensures RunCalls(cfg, v0, calls + [c]) == Next(cfg, RunCalls(cfg, v0, calls), c).0
    ensures LastOutcome(cfg, v0, calls + [c]) == Next(cfg, RunCalls(cfg, v0, calls), c).1
    ensures FramesIn(calls + [c]) == FramesIn(calls) + B(c.picture.Some?)
  {
    assert (calls + [c])[..|calls|] == calls;
  }

  /** A plan that encodes nothing, and one that encodes the new picture once. */
  lemma EncodeNone(cfg: Config, v: Stream, c: Call)
    requires Planned(cfg, v, c).nb == 0 && Planned(cfg, v, c).nb0 == 0 && c.picture.Some?
    ensures Next(cfg, v, c) == (Accounted(v, Planned(cfg, v, c), false).(lastFrame := c.picture), Complete)
  {
    var p := Planned(cfg, v, c);
    assert !IsTooMany(cfg, v, p) && EncodedUpTo(cfg, v.lastFrame, c.picture, p, 0) == 0;
    assert v.encoded + Batch(v.lastFrame, c.picture, p, 0) == v.encoded;
  }

  lemma EncodeOne(cfg: Config, v: Stream, c: Call)
    requires var p := Planned(cfg, v, c);
      p.nb == 1 && Source(v.lastFrame, c.picture, p, 0) == c.picture && cfg.within(p.syncOpts)
    requires c.picture.Some? && !IsTooMany(cfg, v, Planned(cfg, v, c))
    ensures var p := Planned(cfg, v, c); var (w, outcome) := Next(cfg, v, c);
      && outcome == Complete && w.lastDropped == (p.nb0 == 1) && w.frameNumber == v.frameNumber + 1
      && w.encoded == v.encoded + [Encoded(c.picture.value, p.syncOpts)]
      && w.nbDup == v.nbDup + Max(0, Extra(v, p)) && w.nbDrop == v.nbDrop + B(p.nb0 == 0 && v.lastDropped)
  {
    var p := Planned(cfg, v, c);
    assert EncodedUpTo(cfg, v.lastFrame, c.picture, p, 1) == 1;
    assert Batch(v.lastFrame, c.picture, p, 0) == [];
  }

  /** Three calls at a constant rate: a frame far too early, one that lasts too long, and one in time. */
  lemma DroppedCall(cfg: Config, v: Stream, c: Call)
    requires c.sync.Cfr? && c.picture.Some? && cfg.dropThreshold == 0.0 && v.frameNumber < cfg.maxFrames
    requires c.syncIpts - v.syncOpts as real + c.duration < -1.1 && !v.lastDropped
    ensures Next(cfg, v, c) ==
      (v.(lastNb0 := (0, v.lastNb0.0, v.lastNb0.1), lastDropped := true, lastFrame := c.picture), Complete)
  {
    assert Planned(cfg, v, c) == Plan(0, 0, v.syncOpts);
    EncodeNone(cfg, v, c);
  }

  lemma RefusedCall(cfg: Config, v: Stream, c: Call)
    requires c.sync.Cfr? && c.picture.Some? && cfg.dropThreshold == 0.0 && v.lastDropped
    requires 0.0 <= c.syncIpts - v.syncOpts as real <= 1.1 && c.syncIpts - v.syncOpts as real + c.duration >= 2.0
    requires Rint(c.syncIpts - v.syncOpts as real + c.duration) <= cfg.maxFrames - v.frameNumber
      && cfg.errorThreshold <= 0.0
    ensures Next(cfg, v, c) == (v.(lastNb0 := (0, v.lastNb0.0, v.lastNb0.1), nbDrop := v.nbDrop + 2), TooMany)
  {
    var nb := Rint(c.syncIpts - v.syncOpts as real + c.duration);
    RintMonotone(c.syncIpts - v.syncOpts as real + c.duration, 2);
    assert Planned(cfg, v, c) == Plan(nb, 0, v.syncOpts);
  }

  lemma TimelyCall(cfg: Config, v: Stream, c: Call)
    requires c.sync.Cfr? && c.picture.Some? && cfg.dropThreshold == 0.0 && v.lastDropped
    requires 0.0 <= c.syncIpts - v.syncOpts as real && c.syncIpts - v.syncOpts as real + c.duration <= 1.1
      && c.duration >= 0.0
    requires v.frameNumber < cfg.maxFrames && cfg.within(v.syncOpts)
    ensures var w := Next(cfg, v, c).0;
      && w.encoded == v.encoded + [Encoded(c.picture.value, v.syncOpts)] && w.frameNumber == v.frameNumber + 1
      && w.nbDup == v.nbDup && w.nbDrop == v.nbDrop + 1 && !w.lastDropped
  {
    assert Planned(cfg, v, c) == Plan(1, 0, v.syncOpts);
    EncodeOne(cfg, v, c);
  }

  /**
   So a run from the start can count a pending frame twice: with room for two frames, no tolerance for
   duplicates, and such calls one after the other, three frames make one encoded and three dropped.
   */
  lemma CountedTwice(cfg: Config, v0: Stream, none: seq<Call>, a: Call, b: Call, c: Call)
    requires IsFresh(v0)
    requires a.sync.Cfr? && b.sync.Cfr? && c.sync.Cfr? && a.picture.Some? && b.picture.Some? && c.picture.Some?
    requires cfg.maxFrames >= 2 && cfg.dropThreshold == 0.0 && cfg.errorThreshold <= 0.0 && cfg.within(0)
    requires a.syncIpts + a.duration < -1.1 && b.syncIpts == 0.0 && b.duration == 2.0
    requires c.syncIpts == 0.0 && 0.0 <= c.duration <= 1.1 && |none| == 0
    ensures FramesIn(none + [a] + [b] + [c]) == 3
    ensures var v := RunCalls(cfg, v0, none + [a] + [b] + [c]);
      v.frameNumber == 1 && v.nbDup == 0 && v.nbDrop == 3 && !v.lastDropped
  {
    var v := RunCalls(cfg, v0, none);
    var u := RunCalls(cfg, v0, none + [a]);
    var w := RunCalls(cfg, v0, none + [a] + [b]);
    OneMoreCall(cfg, v0, none, a);
    DroppedCall(cfg, v, a);
    OneMoreCall(cfg, v0, none + [a], b);
    RefusedCall(cfg, u, b);
    OneMoreCall(cfg, v0, none + [a] + [b], c);
    TimelyCall(cfg, w, c);
  }

  // ---------------------------------------------------------------------------------------------
  // What the counters mean, frame by frame

  function Repeat(x: Picture, n: nat): seq<Picture> {
    if n == 0 then [] else Repeat(x, n - 1) + [x]
  }

  function Copies(x: Option<Picture>, n: int): seq<Picture> { if x.Some? && n > 0 then Repeat(x.value, n) else [] }

  /** Each input frame repeated as often as it was encoded. */
  function Expand(frames: seq<Picture>, copies: seq<nat>): seq<Picture>
    requires |frames| == |copies|
  {
    if frames == [] then []
    else Expand(frames[..|frames| - 1], copies[..|frames| - 1]) + Repeat(frames[|frames| - 1], copies[|frames| - 1])
  }

  /** Frames never encoded. */
  function Unused(copies: seq<nat>): nat {
    if copies == [] then 0 else Unused(copies[..|copies| - 1]) + B(copies[|copies| - 1] == 0)
  }

  function Less1(n: nat): nat { if n == 0 then 0 else n - 1 }

  /** Encodings beyond the first of each frame. */
  function Repeats(copies: seq<nat>): nat {
    if copies == [] then 0 else Repeats(copies[..|copies| - 1]) + Less1(copies[|copies| - 1])
  }

  function Pictures(e: seq<Encoded>): seq<Picture> {
    if e == [] then [] else Pictures(e[..|e| - 1]) + [e[|e| - 1].picture]
  }

  /**
   The encoder got the input frames in order, frame k exactly copies[k] times in a row; nb_frames_drop
   and the pending flag count the frames it never got, nb_frames_dup every repetition.
   */
  ghost predicate Meaning(v: Stream, frames: seq<Picture>, copies: seq<nat>) {
    && |frames| == |copies|
    && Pictures(v.encoded) == Expand(frames, copies)
    && v.nbDrop + B(v.lastDropped) == Unused(copies)
    && v.nbDup == Repeats(copies)
    && (v.lastDropped ==> v.lastFrame.Some?)
    && (v.lastFrame.Some? ==>
          && frames != [] && v.lastFrame.value == frames[|frames| - 1]
          && (v.lastDropped <==> copies[|copies| - 1] == 0))
  }

  lemma {:induction false} PicturesAppend(a: seq<Encoded>, b: seq<Encoded>)
    ensures Pictures(a + b) == Pictures(a) + Pictures(b)
  {
    if b == [] {
      assert a + b == a;
    } else {
      PicturesAppend(a, b[..|b| - 1]);
      assert (a + b)[..|a + b| - 1] == a + b[..|b| - 1];
    }
  }

  /** What n encodings of a plan show: the previous frame up to nb0 times, then the new one. */
  function Shown(last: Option<Picture>, picture: Option<Picture>, nb0: nat, n: nat): seq<Picture> {
    Copies(last, Min(n, nb0)) + Copies(picture, n - nb0)
  }

  lemma CopyNext(x: Picture, n: nat)
    ensures Copies(Some(x), n + 1) == Copies(Some(x), n) + [x]
  {
    assert Repeat(x, n + 1) == Repeat(x, n) + [x];
  }

  lemma ShownNext(last: Option<Picture>, picture: Option<Picture>, nb0: nat, n: nat)
    requires (nb0 > 0 ==> last.Some?) && (n >= nb0 ==> picture.Some?)
    ensures Shown(last, picture, nb0, n + 1) ==
      Shown(last, picture, nb0, n) + [if n < nb0 then last.value else picture.value]
  {
    if n >= nb0 {
      CopyNext(picture.value, n - nb0);
      Regroup(Copies(last, nb0), Copies(picture, n - nb0), [picture.value]);
    } else {
      CopyNext(last.value, n);
      assert Copies(last, n) + [] == Copies(last, n);
      assert Copies(last, n + 1) + [] == Copies(last, n + 1);
    }
  }

  lemma {:induction false} PicturesShown(e: seq<Encoded>, last: Option<Picture>, picture: Option<Picture>, nb0: nat)
    requires (nb0 > 0 ==> last.Some?) && (|e| > nb0 ==> picture.Some?)
    requires forall i :: 0 <= i < |e| ==> e[i].picture == if i < nb0 then last.value else picture.value
    ensures Pictures(e) == Shown(last, picture, nb0, |e|)
  {
    if |e| == 0 {
    } else {
      var front := e[..|e| - 1];
      assert forall i :: 0 <= i < |front| ==> front[i] == e[i];
      PicturesShown(front, last, picture, nb0);
      ShownNext(last, picture, nb0, |front|);
    }
  }

  /** How many encodings really repeat the previous frame: none when there is none. */
  function Reused(last: Option<Picture>, p: Plan): int { if last.Some? then p.nb0 else 0 }

  lemma {:induction false} BatchPictures(last: Option<Picture>, picture: Option<Picture>, p: Plan, n: nat)
    requires forall i :: 0 <= i < n ==> Source(last, picture, p, i).Some?
    requires 0 <= p.nb0
    ensures Pictures(Batch(last, picture, p, n)) == Shown(last, picture, Reused(last, p), n)
  {
    BatchStamps(last, picture, p, n);
    assert n > Reused(last, p) ==> Source(last, picture, p, n - 1) == picture;
    PicturesShown(Batch(last, picture, p, n), last, picture, Reused(last, p));
  }

  lemma {:induction false} RepeatMore(x: Picture, m: nat, n: nat)
    ensures Repeat(x, m + n) == Repeat(x, m) + Repeat(x, n)
  {
    if n == 0 {
    } else {
      RepeatMore(x, m, n - 1);
    }
  }

  /** Encoding the newest input frame k more times. */
  lemma MoreCopies(frames: seq<Picture>, copies: seq<nat>, k: nat)
    requires |frames| == |copies| > 0
    ensures var n := |copies| - 1; var more := copies[n := copies[n] + k];
      && Expand(frames, more) == Expand(frames, copies) + Copies(Some(frames[n]), k)
      && Unused(more) == Unused(copies) - B(copies[n] == 0 && k > 0)
      && Repeats(more) == Repeats(copies) + k - B(copies[n] == 0 && k > 0)
  {
    var n := |copies| - 1;
    var more := copies[n := copies[n] + k];
    assert more[..n] == copies[..n];
    var front := Expand(frames[..n], copies[..n]);
    RepeatMore(frames[n], copies[n], k);
    Regroup(front, Repeat(frames[n], copies[n]), Repeat(frames[n], k));
  }

  lemma NewFrame(frames: seq<Picture>, copies: seq<nat>, x: Picture, k: nat)
    requires |frames| == |copies|
    ensures Expand(frames + [x], copies + [k]) == Expand(frames, copies) + Copies(Some(x), k)
    ensures Unused(copies + [k]) == Unused(copies) + B(k == 0)
    ensures Repeats(copies + [k]) == Repeats(copies) + Less1(k)
  {
    assert (frames + [x])[..|frames|] == frames && (copies + [k])[..|copies|] == copies;
  }

  /** A completed call, other than one that encodes the new picture only in place of a missing previous one. */
  predicate Proper(cfg: Config, v: Stream, c: Call) {
    var p := Planned(cfg, v, c);
    Next(cfg, v, c).1.Complete? && !(v.lastFrame.None? && p.nb == p.nb0 > 0)
  }

  function With(frames: seq<Picture>, picture: Option<Picture>): seq<Picture> {
    if picture.Some? then frames + [picture.value] else frames
  }

  /** The copy counts after nb0 more encodings of the previous frame, and after k of the new one. */
  function CountLast(copies: seq<nat>, last: Option<Picture>, nb0: nat): (more: seq<nat>)
    requires last.Some? ==> |copies| > 0
    ensures |more| == |copies|
  {
    if last.Some? then copies[|copies| - 1 := copies[|copies| - 1] + nb0] else copies
  }

  function CountNew(copies: seq<nat>, picture: Option<Picture>, k: nat): seq<nat> {
    if picture.Some? then copies + [k] else copies
  }

  /** A frame that was pending and is encoded after all. */
  function Revived(copies: seq<nat>, last: Option<Picture>, nb0: nat): int {
    B(last.Some? && |copies| > 0 && copies[|copies| - 1] == 0 && nb0 > 0)
  }

  lemma LastCounted(frames: seq<Picture>, copies: seq<nat>, last: Option<Picture>, nb0: nat)
    requires |frames| == |copies| && (last.Some? ==> |frames| > 0 && last.value == frames[|frames| - 1])
      && (last.None? ==> nb0 == 0)
    ensures var mid := CountLast(copies, last, nb0);
      && Expand(frames, mid) == Expand(frames, copies) + Copies(last, nb0)
      && Unused(mid) == Unused(copies) - Revived(copies, last, nb0)
      && Repeats(mid) == Repeats(copies) + nb0 - Revived(copies, last, nb0)
  {
    if last.Some? {
      MoreCopies(frames, copies, nb0);
    } else {
      assert Expand(frames, copies) + [] == Expand(frames, copies);
    }
  }

  lemma NewCounted(frames: seq<Picture>, mid: seq<nat>, picture: Option<Picture>, k: nat)
    requires |frames| == |mid| && (picture.None? ==> k == 0)
    ensures var all, more := With(frames, picture), CountNew(mid, picture, k);
      && |all| == |more| && Expand(all, more) == Expand(frames, mid) + Copies(picture, k)
      && Unused(more) == Unused(mid) + B(picture.Some? && k == 0)
      && Repeats(more) == Repeats(mid) + Less1(k)
  {
    if picture.Some? {
      NewFrame(frames, mid, picture.value, k);
    } else {
      assert Expand(frames, mid) + [] == Expand(frames, mid);
    }
  }

  /** Counting both parts of a plan. */
  lemma {:induction false} Counted(frames: seq<Picture>, copies: seq<nat>, last: Option<Picture>,
                                   picture: Option<Picture>, nb0: nat, k: nat)
    requires |frames| == |copies| && (last.Some? ==> |frames| > 0 && last.value == frames[|frames| - 1])
    requires (last.None? ==> nb0 == 0) && (picture.None? ==> k == 0)
    ensures var all, more := With(frames, picture), CountNew(CountLast(copies, last, nb0), picture, k);
      && |all| == |more| && Expand(all, more) == Expand(frames, copies) + Shown(last, picture, nb0, nb0 + k)
      && Unused(more) == Unused(copies) - Revived(copies, last, nb0) + B(picture.Some? && k == 0)
      && Repeats(more) == Repeats(copies) + nb0 - Revived(copies, last, nb0) + Less1(k)
  {
    LastCounted(frames, copies, last, nb0);
    NewCounted(frames, CountLast(copies, last, nb0), picture, k);
    Regroup(Expand(frames, copies), Copies(last, nb0), Copies(picture, k));
  }

  /** What a proper call does to the counters, nb0 of its nb encodings being of the previous frame. */
  predicate Counts(v: Stream, w: Stream, picture: Option<Picture>, nb0: int, nb: int) {
    && 0 <= nb0 <= nb && (v.lastFrame.None? ==> nb0 == 0) && (picture.None? ==> nb == nb0)
    && Pictures(w.encoded) == Pictures(v.encoded) + Shown(v.lastFrame, picture, nb0, nb)
    && w.lastFrame == picture && (w.lastDropped <==> picture.Some? && nb == nb0)
    && w.nbDrop == v.nbDrop + B(v.lastDropped && nb0 == 0)
    && w.nbDup == v.nbDup + nb - B(v.lastDropped && nb0 > 0) - B(nb > nb0)
  }

  lemma CountsMean(v: Stream, w: Stream, picture: Option<Picture>, nb0: nat, k: nat,
                   frames: seq<Picture>, copies: seq<nat>, all: seq<Picture>, more: seq<nat>)
    requires Meaning(v, frames, copies) && Counts(v, w, picture, nb0, nb0 + k)
    requires |all| == |more| && Expand(all, more) == Expand(frames, copies) + Shown(v.lastFrame, picture, nb0, nb0 + k)
    requires Unused(more) == Unused(copies) - Revived(copies, v.lastFrame, nb0) + B(picture.Some? && k == 0)
    requires Repeats(more) == Repeats(copies) + nb0 - Revived(copies, v.lastFrame, nb0) + Less1(k)
    requires picture.Some? ==> |all| > 0 && all[|all| - 1] == picture.value && more[|more| - 1] == k
    ensures Meaning(w, all, more)
  {
  }

  lemma CountsKeepMeaning(v: Stream, w: Stream, picture: Option<Picture>, nb0: nat, k: nat, frames: seq<Picture>,
                          copies: seq<nat>)
    requires Meaning(v, frames, copies) && Counts(v, w, picture, nb0, nb0 + k)
    ensures Meaning(w, With(frames, picture), CountNew(CountLast(copies, v.lastFrame, nb0), picture, k))
  {
    Counted(frames, copies, v.lastFrame, picture, nb0, k);
    var all, more := With(frames, picture), CountNew(CountLast(copies, v.lastFrame, nb0), picture, k);
    CountsMean(v, w, picture, nb0, k, frames, copies, all, more);
  }

  lemma PlanInRange(cfg: Config, v: Stream, c: Call)
    requires v.frameNumber <= cfg.maxFrames && v.lastNb0.0 >= 0 && v.lastNb0.1 >= 0 && v.lastNb0.2 >= 0
    ensures 0 <= Planned(cfg, v, c).nb0 <= Planned(cfg, v, c).nb
    ensures c.picture.None? ==> Planned(cfg, v, c).nb0 == Planned(cfg, v, c).nb
  {
  }

  lemma EncodedPictures(cfg: Config, v: Stream, c: Call)
    requires Next(cfg, v, c).1.Complete? && 0 <= Planned(cfg, v, c).nb0 <= Planned(cfg, v, c).nb
    ensures var p := Planned(cfg, v, c);
      && Pictures(Next(cfg, v, c).0.encoded)
         == Pictures(v.encoded) + Shown(v.lastFrame, c.picture, Reused(v.lastFrame, p), p.nb)
      && (c.picture.None? && v.lastFrame.None? ==> p.nb == 0)
  {
    var p := Planned(cfg, v, c);
    EncodedHaveSource(cfg, v.lastFrame, c.picture, p, 0);
    if p.nb > 0 { assert Source(v.lastFrame, c.picture, p, 0).Some?; }
    BatchPictures(v.lastFrame, c.picture, p, p.nb);
    PicturesAppend(v.encoded, Batch(v.lastFrame, c.picture, p, p.nb));
  }

  /** A proper call counts so. */
  lemma ProperCounts(cfg: Config, v: Stream, c: Call)
    requires Proper(cfg, v, c) && InRange(cfg, v) && (v.lastDropped ==> v.lastFrame.Some?)
    ensures Counts(v, Next(cfg, v, c).0, c.picture, Reused(v.lastFrame, Planned(cfg, v, c)), Planned(cfg, v, c).nb)
  {
    PlanInRange(cfg, v, c);
    EncodedPictures(cfg, v, c);
  }

  lemma MeaningStep(cfg: Config, v: Stream, c: Call, frames: seq<Picture>, copies: seq<nat>)
      returns (more: seq<nat>)
    requires Meaning(v, frames, copies) && Proper(cfg, v, c) && InRange(cfg, v)
    ensures Meaning(Next(cfg, v, c).0, With(frames, c.picture), more)
  {
    var nb0, nb := Reused(v.lastFrame, Planned(cfg, v, c)), Planned(cfg, v, c).nb;
    ProperCounts(cfg, v, c);
    CountsKeepMeaning(v, Next(cfg, v, c).0, c.picture, nb0, nb - nb0, frames, copies);
    more := CountNew(CountLast(copies, v.lastFrame, nb0), c.picture, nb - nb0);
  }

  function Inputs(calls: seq<Call>): seq<Picture> {
    if |calls| == 0 then [] else With(Inputs(calls[..|calls| - 1]), calls[|calls| - 1].picture)
  }

  predicate AllProper(cfg: Config, v0: Stream, calls: seq<Call>) {
    |calls| > 0 ==>
      var front := calls[..|calls| - 1];
      Proper(cfg, RunCalls(cfg, v0, front), calls[|calls| - 1]) && AllProper(cfg, v0, front)
  }

  /** A call that is not left early keeps the frame counter and the history in range. */
  lemma RangeKept(cfg: Config, v: Stream, c: Call)
    requires InRange(cfg, v)
    ensures InRange(cfg, Next(cfg, v, c).0)
  {
    BalanceOfOneCall(cfg, v, c, 0);
  }

  /**
   Over any run of proper calls the encoder's input is the input frames in order, each repeated copies[k]
   times; the drop counter (with the pending frame) is the number of frames never encoded and the
   duplicate counter the number of repetitions.
   */
  lemma {:induction false} CountersMeanFrames(cfg: Config, v0: Stream, calls: seq<Call>) returns (copies: seq<nat>)
    requires IsFresh(v0)
    requires cfg.maxFrames >= 0 && AllProper(cfg, v0, calls)
    ensures Meaning(RunCalls(cfg, v0, calls), Inputs(calls), copies) && InRange(cfg, RunCalls(cfg, v0, calls))
  {
    if |calls| == 0 {
      copies := [];
    } else {
      var front, c := calls[..|calls| - 1], calls[|calls| - 1];
      copies := CountersMeanFrames(cfg, v0, front);
      RangeKept(cfg, RunCalls(cfg, v0, front), c);
      copies := MeaningStep(cfg, RunCalls(cfg, v0, front), c, Inputs(front), copies);
    }
  }

  ghost predicate HasMeaning(v: Stream, frames: seq<Picture>) {
    exists copies: seq<nat> {:trigger Meaning(v, frames, copies)} :: Meaning(v, frames, copies)
  }

  /** A frame shown once and marked as pending means nothing. */
  lemma PendingButShown(w: Stream, frames: seq<Picture>, x: Picture)
    requires w.lastFrame == Some(x) && w.lastDropped && x in Pictures(w.encoded) && x !in frames
    ensures !HasMeaning(w, With(frames, Some(x)))
  {
    forall copies: seq<nat>
      ensures !Meaning(w, frames + [x], copies)
    {
      if |copies| == |frames| + 1 && copies[|frames|] == 0 { NeverShown(frames, x, copies); }
    }
  }

  /** A completed call that is not proper leaves a frame so. */
  lemma ImproperShows(cfg: Config, v: Stream, c: Call)
    requires Next(cfg, v, c).1.Complete? && !Proper(cfg, v, c) && InRange(cfg, v)
    ensures var w := Next(cfg, v, c).0;
      c.picture.Some? && w.lastFrame == c.picture && w.lastDropped && c.picture.value in Pictures(w.encoded)
  {
    var p := Planned(cfg, v, c);
    PlanInRange(cfg, v, c);
    EncodedPictures(cfg, v, c);
    var x := c.picture.value;
    assert Repeat(x, p.nb) == Repeat(x, p.nb - 1) + [x];
    assert x in Copies(c.picture, p.nb) && x in Shown(v.lastFrame, c.picture, 0, p.nb);
  }

  /** Of completed calls only the excluded one breaks the meaning: it marks as pending a frame it has encoded. */
  lemma MeaningKeptIff(cfg: Config, v: Stream, c: Call, frames: seq<Picture>, copies: seq<nat>)
    requires Meaning(v, frames, copies) && Next(cfg, v, c).1.Complete? && InRange(cfg, v)
    requires c.picture.Some? ==> c.picture.value !in frames
    ensures HasMeaning(Next(cfg, v, c).0, With(frames, c.picture)) <==> Proper(cfg, v, c)
  {
    if Proper(cfg, v, c) {
      var more := MeaningStep(cfg, v, c, frames, copies);
    } else {
      ImproperShows(cfg, v, c);
      PendingButShown(Next(cfg, v, c).0, frames, c.picture.value);
    }
  }

  /** A call that encodes the new picture in place of a missing one: there is room for one frame, meant to repeat. */
  lemma InPlaceCall(cfg: Config, v: Stream, c: Call)
    requires c.sync.Cfr? && c.picture.Some? && cfg.dropThreshold == 0.0 && cfg.maxFrames - v.frameNumber == 1
    requires cfg.within(v.syncOpts) && v.lastFrame.None? && cfg.errorThreshold >= 1.0
    requires c.syncIpts - v.syncOpts as real >= 2.0 && c.duration >= 0.0
    ensures var (w, outcome) := Next(cfg, v, c);
      && outcome.Complete? && !Proper(cfg, v, c) && w.lastDropped
      && w.encoded == v.encoded + [Encoded(c.picture.value, v.syncOpts)]
  {
    RintMonotone(c.syncIpts - v.syncOpts as real + c.duration, 2);
    RintMonotone(c.syncIpts - v.syncOpts as real - 0.6, 1);
    assert Planned(cfg, v, c) == Plan(1, 1, v.syncOpts);
    EncodeOne(cfg, v, c);
  }

  lemma RunMeans(cfg: Config, v0: Stream, calls: seq<Call>)
    requires IsFresh(v0)
    requires cfg.maxFrames >= 0 && AllProper(cfg, v0, calls)
    ensures HasMeaning(RunCalls(cfg, v0, calls), Inputs(calls)) && InRange(cfg, RunCalls(cfg, v0, calls))
  {
    var copies := CountersMeanFrames(cfg, v0, calls);
  }

  lemma ImproperBreaks(cfg: Config, v: Stream, c: Call, frames: seq<Picture>)
    requires HasMeaning(v, frames) && InRange(cfg, v) && Next(cfg, v, c).1.Complete? && !Proper(cfg, v, c)
    requires c.picture.Some? ==> c.picture.value !in frames
    ensures !HasMeaning(Next(cfg, v, c).0, With(frames, c.picture))
  {
    var copies :| Meaning(v, frames, copies);
    MeaningKeptIff(cfg, v, c, frames, copies);
  }

  /** After any run of proper calls, one that is not breaks the meaning. */
  lemma RunBreaks(cfg: Config, v0: Stream, calls: seq<Call>, v: Stream, c: Call)
    requires IsFresh(v0)
    requires cfg.maxFrames >= 0 && AllProper(cfg, v0, calls) && v == RunCalls(cfg, v0, calls)
    requires Next(cfg, v, c).1.Complete? && !Proper(cfg, v, c)
      && (c.picture.Some? ==> c.picture.value !in Inputs(calls))
    ensures !HasMeaning(Next(cfg, v, c).0, With(Inputs(calls), c.picture))
  {
    assert HasMeaning(v, Inputs(calls)) && InRange(cfg, v) by { RunMeans(cfg, v0, calls); }
    ImproperBreaks(cfg, v, c, Inputs(calls));
  }

  lemma OneMoreInput(calls: seq<Call>, c: Call)
    ensures Inputs(calls + [c]) == With(Inputs(calls), c.picture)
  {
    assert (calls + [c])[..|calls|] == calls;
  }

  /** The first call can be such a call: its frame is encoded and marked as pending. */
  lemma EncodedButPending(cfg: Config, v0: Stream, none: seq<Call>, c: Call)
    requires IsFresh(v0)
    requires c.sync.Cfr? && c.picture.Some? && cfg.dropThreshold == 0.0 && cfg.maxFrames == 1 && cfg.within(0)
    requires c.syncIpts >= 2.0 && c.duration >= 0.0 && cfg.errorThreshold >= 1.0 && |none| == 0
    ensures LastOutcome(cfg, v0, none + [c]).Complete?
    ensures var v := RunCalls(cfg, v0, none + [c]);
      |v.encoded| == 1 && v.encoded[0].picture == c.picture.value && v.lastDropped
    ensures !HasMeaning(RunCalls(cfg, v0, none + [c]), Inputs(none + [c]))
  {
    InPlaceCall(cfg, RunCalls(cfg, v0, none), c);
    RunBreaks(cfg, v0, none, RunCalls(cfg, v0, none), c);
    OneMoreCall(cfg, v0, none, c);
    OneMoreInput(none, c);
  }

  lemma NeverShown(frames: seq<Picture>, x: Picture, copies: seq<nat>)
    requires |copies| == |frames| + 1 && copies[|frames|] == 0 && x !in frames
    ensures x !in Expand(frames + [x], copies)
  {
    OnlyInputs(frames, copies[..|frames|], x);
    assert (frames + [x])[..|frames|] == frames;
  }

  lemma {:induction false} OnlyInputs(frames: seq<Picture>, copies: seq<nat>, x: Picture)
    requires |frames| == |copies| && x !in frames
    ensures x !in Expand(frames, copies)
  {
    if frames == [] {
    } else {
      OnlyInputs(frames[..|frames| - 1], copies[..|frames| - 1], x);
      OnlyRepeats(frames[|frames| - 1], copies[|frames| - 1]);
    }
  }

  lemma {:induction false} OnlyRepeats(x: Picture, n: nat)
    ensures forall y :: y in Repeat(x, n) ==> y == x
  {
    if n == 0 {
    } else {
      OnlyRepeats(x, n - 1);
    }
  }
}
