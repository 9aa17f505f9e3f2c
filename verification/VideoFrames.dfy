/**
 Which frames one call of do_video_out gives to the encoder, and under which timestamps, for each way of
 synchronizing. What is said here speaks of the calls alone, not of how many frames the code plans.
 */
module VideoFrames {
  import opened Common
  import opened VideoSync

  /** The integer nearest to r; of two, the even one. */
  predicate Nearest(r: real, n: int) {
    || n as real - 0.5 < r < n as real + 0.5
    || ((r == n as real - 0.5 || r == n as real + 0.5) && n % 2 == 0)
  }

  lemma RintIs(r: real, n: int)
    ensures Rint(r) == n <==> Nearest(r, n)
  {
  }

  /** How far the end of the new frame lies ahead of the encoder's clock, and how far its beginning. */
  function Ahead(v: Stream, c: Call): real { c.syncIpts + c.duration - v.syncOpts as real }

  function Early(v: Stream, c: Call): real { c.syncIpts - v.syncOpts as real }

  /** How many frames -frames still allows. */
  function Room(cfg: Config, v: Stream): int { cfg.maxFrames - v.frameNumber }

  /** Of n frames, k of them repetitions, those that are neither the new frame nor a pending one shown after all. */
  function Duplicates(v: Stream, n: int, k: int): int {
    n - (if n > k then 1 else 0) - (if k != 0 && v.lastDropped then 1 else 0)
  }

  /** Frames numbered from a timestamp on: at most k times the last picture, then the new one. */
  predicate Shows(b: seq<Encoded>, last: Option<Picture>, picture: Option<Picture>, k: int, from: int) {
    forall i :: 0 <= i < |b| ==>
      && b[i].pts == from + i
      && Some(b[i].picture) == if i < k && last.Some? then last else picture
  }

  /** b is as long as it can be: the next frame has no picture, or lies behind the recording time. */
  predicate CutShort(cfg: Config, b: seq<Encoded>, last: Option<Picture>, picture: Option<Picture>, k: int, from: int) {
    !cfg.within(from + |b|) || (picture.None? && !(|b| < k && last.Some?))
  }

  /**
   A call that wants n frames from that timestamp on, the first k in place of the last picture: refused if too
   many of them are duplicates, and otherwise encoded up to the first that cannot be.
   */
  predicate Gives(cfg: Config, v: Stream, c: Call, n: int, k: int, from: int) {
    var (w, outcome) := Next(cfg, v, c);
    && w.lastNb0 == (k, v.lastNb0.0, v.lastNb0.1)
    && (outcome.TooMany? <==> Duplicates(v, n, k) > 0 && n as real > 30.0 * cfg.errorThreshold)
    && (outcome.TooMany? ==> w.encoded == v.encoded && w.syncOpts == from && w.frameNumber == v.frameNumber)
    && (!outcome.TooMany? ==> Encodes(cfg, v, w, outcome, c.picture, n, k, from))
  }

  predicate Encodes(cfg: Config, v: Stream, w: Stream, outcome: Outcome, picture: Option<Picture>, n: int, k: int,
                    from: int)
  {
    && |v.encoded| <= |w.encoded| <= |v.encoded| + n && w.encoded[..|v.encoded|] == v.encoded
    && (var b := w.encoded[|v.encoded|..];
        && Shows(b, v.lastFrame, picture, k, from)
        && (forall i :: from <= i < from + |b| ==> cfg.within(i))
        && w.syncOpts == from + |b| && w.frameNumber == v.frameNumber + |b|
        && (outcome.Complete? <==> |b| == n)
        && (|b| < n ==> CutShort(cfg, b, v.lastFrame, picture, k, from)))
  }

  lemma {:induction false} UpToEnds(cfg: Config, last: Option<Picture>, picture: Option<Picture>, p: Plan, i: nat)
    ensures var n := EncodedUpTo(cfg, last, picture, p, i);
      && (forall m :: p.syncOpts + i <= m < p.syncOpts + n ==> cfg.within(m))
      && (n < p.nb ==> Source(last, picture, p, n).None? || !cfg.within(p.syncOpts + n))
    decreases p.nb - i
  {
    if i >= EncodedUpTo(cfg, last, picture, p, i) {
    } else {
      UpToEnds(cfg, last, picture, p, i + 1);
    }
  }

  lemma BatchEncodes(cfg: Config, v: Stream, picture: Option<Picture>, p: Plan, outcome: Outcome)
    requires p.nb >= 0
    requires outcome == if EncodedUpTo(cfg, v.lastFrame, picture, p, 0) < p.nb then Stopped else Complete
    ensures var n := EncodedUpTo(cfg, v.lastFrame, picture, p, 0);
      var w := AfterBatch(v.(syncOpts := p.syncOpts), n, Batch(v.lastFrame, picture, p, n));
      Encodes(cfg, v, w, outcome, picture, p.nb, p.nb0, p.syncOpts)
  {
    var n := EncodedUpTo(cfg, v.lastFrame, picture, p, 0);
    EncodedHaveSource(cfg, v.lastFrame, picture, p, 0);
    UpToEnds(cfg, v.lastFrame, picture, p, 0);
    BatchStamps(v.lastFrame, picture, p, n);
    var b := Batch(v.lastFrame, picture, p, n);
    assert (v.encoded + b)[|v.encoded|..] == b && (v.encoded + b)[..|v.encoded|] == v.encoded;
  }

  lemma NextGives(cfg: Config, v: Stream, c: Call)
    requires Planned(cfg, v, c).nb >= 0
    ensures var p := Planned(cfg, v, c); Gives(cfg, v, c, p.nb, p.nb0, p.syncOpts)
  {
    var p := Planned(cfg, v, c);
    if !IsTooMany(cfg, v, p) { BatchEncodes(cfg, v, c.picture, p, Next(cfg, v, c).1); }
  }

  /**
   VFR: at most one frame, and one if and only if the new frame does not end 0.6 or more before the clock. If it
   ends more than 0.6 behind, the clock is first set to its timestamp, but never back.
   */
  lemma VfrGives(cfg: Config, v: Stream, c: Call)
    requires InRange(cfg, v) && c.sync.Vfr? && c.picture.Some?
    ensures Gives(cfg, v, c, if Ahead(v, c) > -0.6 then Min(1, Room(cfg, v)) else 0, 0,
                  if Ahead(v, c) > 0.6 then Max(v.syncOpts, Rint(c.syncIpts)) else v.syncOpts)
  {
    RintMonotone(v.syncOpts as real, v.syncOpts);
    RintIs(v.syncOpts as real, v.syncOpts);
    if c.syncIpts >= v.syncOpts as real { RintMonotone(c.syncIpts, v.syncOpts); }
    NextGives(cfg, v, c);
  }

  /** So with room and time left such a call encodes its picture once, or nothing. */
  lemma VfrEncodes(cfg: Config, v: Stream, c: Call)
    requires InRange(cfg, v) && c.sync.Vfr? && c.picture.Some? && Room(cfg, v) > 0 && cfg.errorThreshold >= 0.0
    ensures var (w, outcome) := Next(cfg, v, c);
      var at := if Ahead(v, c) > 0.6 then Max(v.syncOpts, Rint(c.syncIpts)) else v.syncOpts;
      && !outcome.TooMany?
      && (w.encoded == v.encoded + [Encoded(c.picture.value, at)] <==> Ahead(v, c) > -0.6 && cfg.within(at))
      && (w.encoded == v.encoded <==> !(Ahead(v, c) > -0.6 && cfg.within(at)))
  {
    VfrGives(cfg, v, c);
    var w := Next(cfg, v, c).0;
    assert w.encoded == w.encoded[..|v.encoded|] + w.encoded[|v.encoded|..];
  }

  /** With a drop threshold, what CFR drops for ending too early; the first frame never is. */
  predicate Drops(cfg: Config, v: Stream, c: Call) {
    Ahead(v, c) < -1.1 || (cfg.dropThreshold != 0.0 && Ahead(v, c) < cfg.dropThreshold && v.frameNumber != 0)
  }

  /** How many frames bring the clock to the end of the new frame. */
  function Filling(v: Stream, c: Call): int { if Ahead(v, c) > 1.1 then Rint(Ahead(v, c)) else 1 }

  /** How many of them lie before the new frame. */
  function Filler(v: Stream, c: Call): int {
    if Ahead(v, c) > 1.1 && Early(v, c) > 1.1 then Rint(Early(v, c) - 0.6) else 0
  }

  /** CFR: nothing, one frame, or as many as bring the clock to the end of the new frame, from the clock on. */
  lemma CfrGives(cfg: Config, v: Stream, c: Call)
    requires InRange(cfg, v) && c.sync.Cfr? && c.picture.Some?
    ensures var n := if Drops(cfg, v, c) then 0 else Min(Filling(v, c), Room(cfg, v));
      Gives(cfg, v, c, n, Min(n, Filler(v, c)), v.syncOpts)
  {
    NextGives(cfg, v, c);
  }

  /**
   What that is for: after a call that is completed below the frame limit and dropped nothing, the clock is at
   most half a frame behind the end of the new frame, and runs ahead of it by at most 2.1 frames.
   */
  lemma CfrKeepsUp(cfg: Config, v: Stream, c: Call)
    requires InRange(cfg, v) && c.sync.Cfr? && c.picture.Some?
    ensures var (w, outcome) := Next(cfg, v, c);
      outcome.Complete? && !Drops(cfg, v, c) && Filling(v, c) <= Room(cfg, v) ==>
        && -2.1 <= Ahead(w, c) <= 0.5
        && (Ahead(v, c) > 1.1 ==> Nearest(Ahead(v, c), w.syncOpts - v.syncOpts))
        && |w.encoded| - |v.encoded| == w.syncOpts - v.syncOpts >= 1
  {
    CfrGives(cfg, v, c);
    RintIs(Ahead(v, c), Rint(Ahead(v, c)));
  }

  /** And the new picture, if it is encoded at all, first appears at most 1.1 frames before its timestamp. */
  lemma CfrPlaces(cfg: Config, v: Stream, c: Call, i: nat)
    requires InRange(cfg, v) && c.sync.Cfr? && c.picture.Some? && v.lastFrame.Some? && c.duration >= 0.0
    requires var w := Next(cfg, v, c).0; |v.encoded| <= i < |w.encoded|
    ensures var e := Next(cfg, v, c).0.encoded[i];
      && e.pts == v.syncOpts + i - |v.encoded|
      && (e.picture != c.picture.value ==> e.picture == v.lastFrame.value && e.pts as real <= c.syncIpts - 0.1)
      && (e.picture != v.lastFrame.value ==> e.picture == c.picture.value && c.syncIpts - 1.1 <= e.pts as real)
  {
    CfrGives(cfg, v, c);
    RintIs(Early(v, c) - 0.6, Rint(Early(v, c) - 0.6));
    var w := Next(cfg, v, c).0;
    assert w.encoded[i] == w.encoded[|v.encoded|..][i - |v.encoded|];
  }

  /** VSCFR is CFR, except that a first frame half a frame or more late starts the clock and is not filled up to. */
  lemma VscfrIsCfr(cfg: Config, v: Stream, c: Call)
    requires c.sync.Vscfr? && c.picture.Some?
    ensures Next(cfg, v, c) ==
      if v.frameNumber == 0 && Early(v, c) >= 0.5 then
        Next(cfg, v.(syncOpts := Rint(c.syncIpts)), c.(sync := Cfr, syncIpts := Rint(c.syncIpts) as real))
      else Next(cfg, v, c.(sync := Cfr))
  {
    if v.frameNumber == 0 && Early(v, c) >= 0.5 { LateStart(cfg, v, c); } else { SamePlan(cfg, v, c); }
  }

  lemma LateStart(cfg: Config, v: Stream, c: Call)
    requires c.sync.Vscfr? && c.picture.Some? && v.frameNumber == 0 && Early(v, c) >= 0.5
    ensures Planned(cfg, v.(syncOpts := Rint(c.syncIpts)), c.(sync := Cfr, syncIpts := Rint(c.syncIpts) as real))
      == Planned(cfg, v, c)
  {
  }

  lemma SamePlan(cfg: Config, v: Stream, c: Call)
    requires c.sync.Vscfr? && c.picture.Some? && !(v.frameNumber == 0 && Early(v, c) >= 0.5)
    ensures Planned(cfg, v, c.(sync := Cfr)) == Planned(cfg, v, c)
  {
  }

  /** A flush repeats the last picture as often as the middle one of the last three calls did. */
  lemma FlushGives(cfg: Config, v: Stream, c: Call)
    requires InRange(cfg, v) && c.picture.None?
    ensures var n := Min(Median(v.lastNb0.0, v.lastNb0.1, v.lastNb0.2), Room(cfg, v));
      Gives(cfg, v, c, n, n, v.syncOpts)
  {
    NextGives(cfg, v, c);
  }

  /** The other methods: one frame under its own rounded timestamp, if there is room. */
  lemma PassthroughGives(cfg: Config, v: Stream, c: Call)
    requires InRange(cfg, v) && (c.sync.Passthrough? || c.sync.DropStamps?) && c.picture.Some?
    ensures Gives(cfg, v, c, Min(1, Room(cfg, v)), 0, Rint(c.syncIpts))
  {
    NextGives(cfg, v, c);
  }
}
