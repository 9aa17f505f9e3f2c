/**
 The frame queue between a decoder thread (the writer) and the display or audio thread (the reader).

 The ring indices windex, rindex and rindex_shown move outside the queue's lock; only size is updated
 under it. Correctness is therefore an invariant over interleavings, and this module models the two
 threads, and the thread that aborts the decoder, as program counters over atomic steps.
 */
module FrameRing {
  import opened Common

  /** A decoded frame; serial is the seek generation it belongs to, data stands for everything else. */
  datatype Frame = Frame(serial: int, data: int)

  /** Where the decoder thread is. */
  datatype WriterPc =
    | WIdle     // between calls
    | WGetWait  // in SDL_CondWait of packet_queue_get
    | WGet      // about to lock in packet_queue_get
    | WEnter    // about to lock in frame_queue_peek_writable
    | WWaiting  // in SDL_CondWait of frame_queue_peek_writable
    | WChecked  // unlocked, about to read abort_request once more
    | WOwns     // was given &queue[windex]
    | WWritten  // has filled &queue[windex]
    | WMoved    // frame_queue_push has advanced windex, size is still old
    | WDone     // has left after a call that returned -1 or NULL

  /** Where the reader thread is. */
  datatype ReaderPc =
    | RIdle     // between calls
    | REnter    // about to lock in frame_queue_peek_readable
    | RWaiting  // in SDL_CondWait of frame_queue_peek_readable
    | RChecked  // unlocked, about to read abort_request once more
    | RHas      // was given a readable frame
    | RUnref    // frame_queue_next has released &queue[rindex]
    | RMoved    // frame_queue_next has advanced rindex, size is still old

  /** Where decoder_abort is. */
  datatype AbortPc = Running | AbortSet | Signalled

  /** pushed and retired are history: every frame ever pushed, every frame the reader has released. */
  datatype Ring = Ring(
    slots: seq<Option<Frame>>, rindex: int, windex: int, size: int, maxSize: int,
    keepLast: bool, shown: bool, packets: nat,
    wpc: WriterPc, rpc: ReaderPc, mpc: AbortPc, abort: bool,
    pushed: seq<Frame>, retired: seq<Frame>)

  /** Which thread, if any, an SDL_CondSignal on the queue's condition wakes. */
  datatype Wake = NoOne | TheReader | TheWriter

  datatype Action =
    | PutPacket              // packet_queue_put, signals the packet queue
    | FlushPackets           // packet_queue_flush of a seek, which signals nothing
    | GetCall | GetLock | GetSpurious
    | WritableCall | WritableLock | WritableSpurious | WritableReturn
    | Write(frame: Frame) | PushMove | PushSize(wake: Wake)
    | ReadableCall | ReadableLock | ReadableSpurious | ReadableReturn
    | NextShow | NextUnref | NextMove | NextSize(wake: Wake) | Forget
    | Abort | SignalFrames(wake: Wake) | Restart

  function B(b: bool): int { if b then 1 else 0 }

  function Wrap(x: int, m: int): int { if x >= m then x - m else x }

  function Bump(x: int, m: int): int { if x + 1 == m then 0 else x + 1 }

  /** The frame in slot i as a sequence; writes and reads outside the array would be void. */
  function Held(slots: seq<Option<Frame>>, i: int): seq<Frame> {
    if 0 <= i < |slots| && slots[i].Some? then [slots[i].value] else []
  }

  function Store(slots: seq<Option<Frame>>, i: int, v: Option<Frame>): seq<Option<Frame>> {
    if 0 <= i < |slots| then slots[i := v] else slots
  }

  predicate CanWake(s: Ring, w: Wake) {
    match w
    case NoOne => !s.rpc.RWaiting? && !s.wpc.WWaiting?
    case TheReader => s.rpc.RWaiting?
    case TheWriter => s.wpc.WWaiting?
  }

  function AfterWake(s: Ring, w: Wake): Ring {
    match w
    case NoOne => s
    case TheReader => s.(rpc := REnter)
    case TheWriter => s.(wpc := WEnter)
  }

  function NbRemaining(s: Ring): int { s.size - B(s.shown) }

  predicate Enabled(s: Ring, a: Action) {
    match a
    case PutPacket => !s.abort
    case FlushPackets => true
    case GetCall => s.wpc.WIdle?
    case GetLock => s.wpc.WGet?
    case GetSpurious => s.wpc.WGetWait?
    case WritableCall => s.wpc.WIdle?
    case WritableLock => s.wpc.WEnter?
    case WritableSpurious => s.wpc.WWaiting?
    case WritableReturn => s.wpc.WChecked?
    case Write(_) => s.wpc.WOwns?
    case PushMove => s.wpc.WWritten?
    case PushSize(w) => s.wpc.WMoved? && CanWake(s, w)
    case ReadableCall => s.rpc.RIdle?
    case ReadableLock => s.rpc.REnter?
    case ReadableSpurious => s.rpc.RWaiting?
    case ReadableReturn => s.rpc.RChecked?
    // frame_queue_next: every caller has seen a frame first
    case NextShow => (s.rpc.RHas? || (s.rpc.RIdle? && NbRemaining(s) > 0)) && s.keepLast && !s.shown
    case NextUnref => (s.rpc.RHas? || (s.rpc.RIdle? && NbRemaining(s) > 0)) && !(s.keepLast && !s.shown)
    case NextMove => s.rpc.RUnref?
    case NextSize(w) => s.rpc.RMoved? && CanWake(s, w)
    case Forget => s.rpc.RHas?
    case Abort => s.mpc.Running?
    case SignalFrames(w) => s.mpc.AbortSet? && CanWake(s, w)
    // decoder_start after SDL_WaitThread, and after the reader has left the queue
    case Restart => s.mpc.Signalled? && s.wpc.WDone? && s.rpc.RIdle?
  }

  function Apply(s: Ring, a: Action): Ring
    requires Enabled(s, a)
  {
    match a
    case PutPacket => s.(packets := s.packets + 1, wpc := if s.wpc.WGetWait? then WGet else s.wpc)
    case FlushPackets => s.(packets := 0)
    case GetCall => s.(wpc := WGet)
    case GetLock =>
      if s.abort then s.(wpc := WDone)
      else if s.packets > 0 then s.(packets := s.packets - 1, wpc := WIdle)
      else s.(wpc := WGetWait)
    case GetSpurious => s.(wpc := WGet)
    case WritableCall => s.(wpc := WEnter)
    case WritableLock => s.(wpc := if s.size >= s.maxSize && !s.abort then WWaiting else WChecked)
    case WritableSpurious => s.(wpc := WEnter)
    case WritableReturn => s.(wpc := if s.abort then WDone else WOwns)
    case Write(f) => s.(slots := Store(s.slots, s.windex, Some(f)), wpc := WWritten)
    case PushMove => s.(windex := Bump(s.windex, s.maxSize), wpc := WMoved)
    case PushSize(w) =>
      var last := if s.windex == 0 then s.maxSize - 1 else s.windex - 1;
      AfterWake(s.(size := s.size + 1, pushed := s.pushed + Held(s.slots, last), wpc := WIdle), w)
    case ReadableCall => s.(rpc := REnter)
    case ReadableLock => s.(rpc := if NbRemaining(s) <= 0 && !s.abort then RWaiting else RChecked)
    case ReadableSpurious => s.(rpc := REnter)
    case ReadableReturn => s.(rpc := if s.abort then RIdle else RHas)
    case NextShow => s.(shown := true, rpc := RIdle)
    case NextUnref =>
      s.(slots := Store(s.slots, s.rindex, None), retired := s.retired + Held(s.slots, s.rindex), rpc := RUnref)
    case NextMove => s.(rindex := Bump(s.rindex, s.maxSize), rpc := RMoved)
    case NextSize(w) => AfterWake(s.(size := s.size - 1, rpc := RIdle), w)
    case Forget => s.(rpc := RIdle)
    case Abort => s.(abort := true, mpc := AbortSet, wpc := if s.wpc.WGetWait? then WGet else s.wpc)
    case SignalFrames(w) => AfterWake(s.(mpc := Signalled), w)
    case Restart => s.(abort := false, mpc := Running, packets := 1, wpc := WIdle)
  }

  /** frame_queue_init, with the decoder started by decoder_start: one flush packet is queued. */
  function Initial(maxSize: int, keepLast: bool): Ring
    requires maxSize >= 1
  {
    Ring(seq(maxSize, i => None), 0, 0, 0, maxSize, keepLast, false, 1, WIdle, RIdle, Running, false, [], [])
  }

  // ---------------------------------------------------------------------------------------------
  // The invariant

  /** Frames the reader may still look at: size, less the one frame_queue_next is giving back. */
  function Visible(s: Ring): int { s.size - B(s.rpc.RUnref? || s.rpc.RMoved?) }

  /** The slot of the first visible frame. */
  function Base(s: Ring): int { if s.rpc.RUnref? then Bump(s.rindex, s.maxSize) else s.rindex }

  function SlotOf(s: Ring, i: int): int { Wrap(Base(s) + i, s.maxSize) }

  predicate Shape(s: Ring) {
    && s.maxSize >= 1 && |s.slots| == s.maxSize
    && 0 <= s.rindex < s.maxSize && 0 <= s.windex < s.maxSize
    && 0 <= Visible(s) && s.size <= s.maxSize
    && B(s.shown) <= Visible(s)
    && (s.shown ==> s.keepLast)
  }

  predicate Indices(s: Ring) {
    && s.windex == Wrap(Base(s) + Visible(s) + B(s.wpc.WMoved?), s.maxSize)
    && (s.wpc.WOwns? || s.wpc.WWritten? || s.wpc.WMoved? ==> s.size < s.maxSize)
    && (s.wpc.WChecked? && !s.abort ==> s.size < s.maxSize)
  }

  /** The frames pushed and not released yet. */
  function Frames(s: Ring): seq<Frame> {
    if |s.retired| <= |s.pushed| then s.pushed[|s.retired|..] else []
  }

  /** The visible slots hold exactly these frames, in order; a slot filled but not counted yet holds one more. */
  ghost predicate Filled(s: Ring)
    requires Shape(s)
  {
    && s.retired <= s.pushed
    && |Frames(s)| == Visible(s)
    && (forall i :: 0 <= i < Visible(s) ==> s.slots[SlotOf(s, i)] == Some(Frames(s)[i]))
    && (s.wpc.WWritten? || s.wpc.WMoved? ==> Visible(s) < s.maxSize && s.slots[SlotOf(s, Visible(s))].Some?)
  }

  /** Two slots, or one that is not kept for the last frame shown. */
  predicate Roomy(s: Ring) { s.maxSize >= 2 || !s.keepLast }

  predicate Waits(s: Ring) {
    && (s.rpc.RWaiting? ==> NbRemaining(s) <= 0)
    && (s.wpc.WWaiting? ==> s.size >= s.maxSize)
    && (s.rpc.RHas? || (s.rpc.RChecked? && !s.abort) ==> NbRemaining(s) > 0)
    && (s.abort <==> !s.mpc.Running?)
    && (s.abort ==> !s.wpc.WGetWait?)
    && (s.wpc.WGetWait? ==> s.packets == 0)
    && (Roomy(s) && s.mpc.Signalled? ==> !s.wpc.WWaiting? && !s.rpc.RWaiting?)
  }

  ghost predicate Inv(s: Ring) {
    Shape(s) && Indices(s) && Filled(s) && Waits(s)
  }

  lemma InitialInv(maxSize: int, keepLast: bool)
    requires maxSize >= 1
    ensures Inv(Initial(maxSize, keepLast))
  {
  }

  // ---------------------------------------------------------------------------------------------
  // Refinement of a first-in first-out queue

  /** What the queue means: the frame last shown, the frames not shown yet, and the one being filled. */
  datatype Fifo = Fifo(last: Option<Frame>, pending: seq<Frame>, filling: Option<Frame>)

  ghost function Abstract(s: Ring): Fifo
    requires Shape(s) && Filled(s)
  {
    var frames := Frames(s);
    Fifo(if s.shown then Some(frames[0]) else None,
         frames[B(s.shown)..],
         if s.wpc.WWritten? || s.wpc.WMoved? then s.slots[SlotOf(s, Visible(s))] else None)
  }

  function FifoStep(q: Fifo, keepLast: bool, a: Action): Fifo {
    match a
    case Write(f) => q.(filling := Some(f))
    case PushSize(_) => if q.filling.Some? then q.(pending := q.pending + [q.filling.value], filling := None) else q
    case NextShow => Shift(q, true)
    case NextUnref => Shift(q, keepLast)
    case _ => q
  }

  function Shift(q: Fifo, keepLast: bool): Fifo {
    if q.pending == [] then q
    else q.(last := if keepLast then Some(q.pending[0]) else None, pending := q.pending[1..])
  }

  /** What one step must do: keep the invariant and make the step of the abstract queue. */
  ghost predicate StepOk(s: Ring, a: Action)
    requires Inv(s) && Enabled(s, a)
  {
    Inv(Apply(s, a)) && Abstract(Apply(s, a)) == FifoStep(Abstract(s), s.keepLast, a)
  }

  /** Who takes a step. */
  predicate WriterStep(a: Action) {
    || a.GetCall? || a.GetLock? || a.GetSpurious? || a.WritableCall? || a.WritableLock? || a.WritableSpurious?
    || a.WritableReturn? || a.Write? || a.PushMove? || a.PushSize?
  }

  predicate ReaderStep(a: Action) {
    || a.ReadableCall? || a.ReadableLock? || a.ReadableSpurious? || a.ReadableReturn?
    || a.NextShow? || a.NextUnref? || a.NextMove? || a.NextSize? || a.Forget?
  }

  ghost predicate Coherent(s: Ring) { Shape(s) && Indices(s) && Waits(s) }

  lemma WriterKeeps(s: Ring, a: Action)
    requires Coherent(s) && Enabled(s, a) && WriterStep(a) && !a.PushSize? && !a.PushMove?
    ensures Coherent(Apply(s, a))
  {
  }

  lemma PushKeeps(s: Ring, a: Action)
    requires Coherent(s) && Enabled(s, a) && (a.PushMove? || a.PushSize?)
    ensures Coherent(Apply(s, a))
  {
  }

  lemma ReadableKeeps(s: Ring, a: Action)
    requires Coherent(s) && Enabled(s, a) && ReaderStep(a) && !a.NextUnref? && !a.NextMove? && !a.NextSize?
    ensures Coherent(Apply(s, a))
  {
  }

  lemma NextKeeps(s: Ring, a: Action)
    requires Coherent(s) && Enabled(s, a) && (a.NextUnref? || a.NextMove? || a.NextSize?)
    ensures Coherent(Apply(s, a))
  {
  }

  lemma PacketsKeep(s: Ring, a: Action)
    requires Coherent(s) && Enabled(s, a) && (a.PutPacket? || a.FlushPackets?)
    ensures Coherent(Apply(s, a))
  {
  }

  lemma AbortKeeps(s: Ring, a: Action)
    requires Coherent(s) && Enabled(s, a) && (a.Abort? || a.SignalFrames? || a.Restart?)
    ensures Coherent(Apply(s, a))
  {
  }

  /** Each step keeps the shape, the relation between indices and size, and the wait conditions. */
  lemma CoherentKept(s: Ring, a: Action)
    requires Coherent(s) && Enabled(s, a)
    ensures Coherent(Apply(s, a))
  {
    if a.PushMove? || a.PushSize? {
      PushKeeps(s, a);
    } else if WriterStep(a) {
      WriterKeeps(s, a);
    } else if a.NextUnref? || a.NextMove? || a.NextSize? {
      NextKeeps(s, a);
    } else if ReaderStep(a) {
      ReadableKeeps(s, a);
    } else if a.PutPacket? || a.FlushPackets? {
      PacketsKeep(s, a);
    } else {
      AbortKeeps(s, a);
    }
  }

  lemma WriteOk(s: Ring, a: Action)
    requires Inv(s) && Enabled(s, a) && a.Write? && Shape(Apply(s, a))
    ensures Filled(Apply(s, a)) && Abstract(Apply(s, a)) == FifoStep(Abstract(s), s.keepLast, a)
  {
    var t := Apply(s, a);
    assert s.windex == SlotOf(t, Visible(t)) && forall i :: SlotOf(t, i) == SlotOf(s, i);
  }

  /** Counting the filled slot makes its frame the last visible one. */
  lemma Grow(s: Ring, t: Ring)
    requires Shape(s) && Shape(t) && Filled(s) && (s.wpc.WWritten? || s.wpc.WMoved?)
    requires t.slots == s.slots && t.maxSize == s.maxSize && Base(t) == Base(s) && Visible(t) == Visible(s) + 1
    requires !t.wpc.WWritten? && !t.wpc.WMoved? && t.retired == s.retired
    requires t.pushed == s.pushed + Held(s.slots, SlotOf(s, Visible(s)))
    ensures Filled(t) && Frames(t) == Frames(s) + Held(s.slots, SlotOf(s, Visible(s)))
  {
    var last := s.slots[SlotOf(s, Visible(s))].value;
    assert t.pushed == s.pushed + [last];
    assert Frames(t) == Frames(s) + [last];
    assert forall i :: SlotOf(t, i) == SlotOf(s, i);
  }

  /** Releasing the first visible slot shifts every index by one. */
  lemma Shrink(s: Ring, t: Ring)
    requires Shape(s) && Shape(t) && Filled(s) && Visible(s) > 0
    requires t.slots == s.slots[SlotOf(s, 0) := None] && t.maxSize == s.maxSize
    requires Base(t) == Bump(Base(s), s.maxSize) && Visible(t) == Visible(s) - 1 && t.wpc == s.wpc
    requires t.pushed == s.pushed && t.retired == s.retired + Held(s.slots, SlotOf(s, 0))
    ensures Filled(t) && Frames(t) == Frames(s)[1..]
    ensures SlotOf(t, Visible(t)) == SlotOf(s, Visible(s))
  {
    assert t.retired == s.retired + [Frames(s)[0]];
    assert Frames(t) == Frames(s)[1..];
    assert forall i :: 0 <= i <= Visible(t) ==> SlotOf(t, i) == SlotOf(s, i + 1);
  }

  lemma PushSizeOk(s: Ring, a: Action)
    requires Inv(s) && Enabled(s, a) && a.PushSize? && Shape(Apply(s, a))
    ensures Filled(Apply(s, a)) && Abstract(Apply(s, a)) == FifoStep(Abstract(s), s.keepLast, a)
  {
    Grow(s, Apply(s, a));
  }

  lemma NextUnrefOk(s: Ring, a: Action)
    requires Inv(s) && Enabled(s, a) && a.NextUnref? && Shape(Apply(s, a))
    ensures Filled(Apply(s, a)) && Abstract(Apply(s, a)) == FifoStep(Abstract(s), s.keepLast, a)
  {
    Shrink(s, Apply(s, a));
  }

  /** A step that leaves the slots, the history and the meaning of every index alone. */
  lemma SameView(s: Ring, t: Ring)
    requires Shape(s) && Filled(s) && Shape(t) && SameFrames(s, t)
    ensures Filled(t) && Frames(t) == Frames(s)
    ensures t.shown == s.shown ==> Abstract(t) == Abstract(s)
  {
    assert forall i :: SlotOf(t, i) == SlotOf(s, i);
  }

  /** The two states hold the same frames in the same places. */
  predicate SameFrames(s: Ring, t: Ring) {
    && t.slots == s.slots && t.pushed == s.pushed && t.retired == s.retired && t.maxSize == s.maxSize
    && Base(t) == Base(s) && Visible(t) == Visible(s)
    && (t.wpc.WWritten? || t.wpc.WMoved?) == (s.wpc.WWritten? || s.wpc.WMoved?)
  }

  lemma WriterFrame(s: Ring, a: Action)
    requires Coherent(s) && Enabled(s, a) && WriterStep(a) && !a.Write? && !a.PushSize?
    ensures SameFrames(s, Apply(s, a)) && Apply(s, a).shown == s.shown
  {
  }

  lemma ReaderFrame(s: Ring, a: Action)
    requires Coherent(s) && Enabled(s, a) && ReaderStep(a) && !a.NextUnref?
    ensures SameFrames(s, Apply(s, a)) && (!a.NextShow? ==> Apply(s, a).shown == s.shown)
  {
  }

  lemma OtherFrame(s: Ring, a: Action)
    requires Coherent(s) && Enabled(s, a) && !WriterStep(a) && !ReaderStep(a)
    ensures SameFrames(s, Apply(s, a)) && Apply(s, a).shown == s.shown
  {
  }

  /** All other steps leave the slots alone and keep the meaning of every index. */
  lemma ControlOk(s: Ring, a: Action)
    requires Inv(s) && Enabled(s, a) && !a.Write? && !a.PushSize? && !a.NextUnref? && Shape(Apply(s, a))
    ensures Filled(Apply(s, a)) && Abstract(Apply(s, a)) == FifoStep(Abstract(s), s.keepLast, a)
  {
    if WriterStep(a) { WriterFrame(s, a); } else if ReaderStep(a) { ReaderFrame(s, a); } else { OtherFrame(s, a); }
    SameView(s, Apply(s, a));
  }

  /** Every step of every thread keeps the invariant and is a step of the queue; next never finds it empty. */
  lemma RefinesFifo(s: Ring, a: Action)
    requires Inv(s) && Enabled(s, a)
    ensures StepOk(s, a)
    ensures a.NextShow? || a.NextUnref? ==> Abstract(s).pending != []
    ensures a.PushSize? ==> Abstract(s).filling.Some?
  {
    CoherentKept(s, a);
    match a
    case Write(_) => WriteOk(s, a);
    case PushSize(_) => PushSizeOk(s, a);
    case NextUnref => NextUnrefOk(s, a);
    case _ => ControlOk(s, a);
  }

  // ---------------------------------------------------------------------------------------------
  // Runs: any interleaving of the three threads

  ghost predicate IsRun(states: seq<Ring>, actions: seq<Action>) {
    && |states| == |actions| + 1
    && states[0].maxSize >= 1
    && states[0] == Initial(states[0].maxSize, states[0].keepLast)
    && forall i :: 0 <= i < |actions| ==> Step(states[i], actions[i], states[i + 1])
  }

  ghost predicate Step(s: Ring, a: Action, t: Ring) {
    Enabled(s, a) && t == Apply(s, a)
  }

  lemma StepKeeps(s: Ring, a: Action, t: Ring)
    requires Inv(s) && Step(s, a, t)
    ensures Inv(t) && t.maxSize == s.maxSize && t.keepLast == s.keepLast
  {
    RefinesFifo(s, a);
  }

  lemma Extend(states: seq<Ring>, actions: seq<Action>, a: Action, t: Ring)
    requires IsRun(states, actions) && Step(states[|actions|], a, t)
    ensures IsRun(states + [t], actions + [a])
  {
  }

  lemma {:induction false} RunInv(states: seq<Ring>, actions: seq<Action>, i: nat)
    requires IsRun(states, actions) && i < |states|
    ensures Inv(states[i])
    ensures states[i].maxSize == states[0].maxSize && states[i].keepLast == states[0].keepLast
  {
    if i == 0 {
      InitialInv(states[0].maxSize, states[0].keepLast);
    } else {
      RunInv(states, actions, i - 1);
      assert Step(states[i - 1], actions[i - 1], states[i - 1 + 1]);
      StepKeeps(states[i - 1], actions[i - 1], states[i]);
    }
  }

  // ---------------------------------------------------------------------------------------------
  // Exclusive slots

  /** The slot the writer may fill. */
  function WriterSlots(s: Ring): set<int> {
    if s.wpc.WOwns? || s.wpc.WWritten? then {s.windex} else {}
  }

  /** The slots the reader may look at or release. */
  function ReaderSlots(s: Ring): set<int> {
    set i | 0 <= i < Visible(s) :: SlotOf(s, i)
  }

  /** frame_queue_peek, frame_queue_peek_next and frame_queue_peek_last as slot indices. */
  function PeekIndex(s: Ring): int requires s.maxSize > 0 { (s.rindex + B(s.shown)) % s.maxSize }

  function PeekNextIndex(s: Ring): int requires s.maxSize > 0 { (s.rindex + B(s.shown) + 1) % s.maxSize }

  function PeekLastIndex(s: Ring): int { s.rindex }

  /** In every reachable state the writer's slot is none of the reader's, and the reader's peeks stay in its own. */
  lemma ExclusiveSlots(states: seq<Ring>, actions: seq<Action>, i: nat)
    requires IsRun(states, actions) && i < |states|
    ensures Inv(states[i]) && WriterSlots(states[i]) !! ReaderSlots(states[i])
    ensures var s := states[i]; s.rpc.RIdle? || s.rpc.RHas? ==>
      && (NbRemaining(s) > 0 ==> PeekIndex(s) in ReaderSlots(s))
      && (NbRemaining(s) > 1 ==> PeekNextIndex(s) in ReaderSlots(s))
      && (s.shown || NbRemaining(s) > 0 ==> PeekLastIndex(s) in ReaderSlots(s))
  {
    RunInv(states, actions, i);
    var s := states[i];
    if s.rpc.RIdle? || s.rpc.RHas? {
      PeekSlots(s);
      assert Visible(s) > 0 ==> SlotOf(s, 0) in ReaderSlots(s);
      assert NbRemaining(s) > 0 ==> SlotOf(s, B(s.shown)) in ReaderSlots(s);
      assert NbRemaining(s) > 1 ==> SlotOf(s, B(s.shown) + 1) in ReaderSlots(s);
    }
  }

  lemma PeekSlots(s: Ring)
    requires Inv(s) && (s.rpc.RIdle? || s.rpc.RHas?)
    ensures NbRemaining(s) > 0 ==> PeekIndex(s) == SlotOf(s, B(s.shown))
    ensures NbRemaining(s) > 1 ==> PeekNextIndex(s) == SlotOf(s, B(s.shown) + 1)
    ensures PeekLastIndex(s) == SlotOf(s, 0)
  {
    if NbRemaining(s) > 0 { WrapMod(s.rindex + B(s.shown), s.maxSize); }
    if NbRemaining(s) > 1 { WrapMod(s.rindex + B(s.shown) + 1, s.maxSize); }
  }

  lemma WrapMod(x: int, m: int)
    requires 0 <= x < 2 * m
    ensures x % m == Wrap(x, m)
  {
    if x >= m { assert x == m + (x - m); }
  }

  /** What the reader's calls return, in terms of the abstract queue. */
  lemma PeekAgrees(states: seq<Ring>, actions: seq<Action>, i: nat)
    requires IsRun(states, actions) && i < |states|
    requires states[i].rpc.RIdle? || states[i].rpc.RHas?
    ensures Inv(states[i])
    ensures var s, q := states[i], Abstract(states[i]);
      && NbRemaining(s) == |q.pending|
      && (NbRemaining(s) > 0 ==> s.slots[PeekIndex(s)] == Some(q.pending[0]))
      && (NbRemaining(s) > 1 ==> s.slots[PeekNextIndex(s)] == Some(q.pending[1]))
      && (s.shown ==> s.slots[PeekLastIndex(s)] == q.last)
      && (!s.shown && NbRemaining(s) > 0 ==> s.slots[PeekLastIndex(s)] == Some(q.pending[0]))
  {
    RunInv(states, actions, i);
    PeekSlots(states[i]);
  }

  /** No frame is lost, repeated or reordered: every pushed frame is released, last shown, or pending. */
  lemma EveryFrameOnce(states: seq<Ring>, actions: seq<Action>, i: nat)
    requires IsRun(states, actions) && i < |states|
    ensures Inv(states[i])
    ensures var q := Abstract(states[i]);
      states[i].pushed == states[i].retired + (if q.last.Some? then [q.last.value] else []) + q.pending
    ensures |Abstract(states[i]).pending| <= states[i].maxSize
  {
    RunInv(states, actions, i);
  }

  // ---------------------------------------------------------------------------------------------
  // Waiting and waking

  /**
   With two slots or more, or one that is not kept: the two threads never wait on the condition together,
   nobody sleeps on a condition that has come true, every signal wakes the one thread it is meant for, and
   once decoder_abort has signalled no thread sleeps on either queue.
   */
  lemma NoLostWakeup(states: seq<Ring>, actions: seq<Action>, i: nat)
    requires IsRun(states, actions) && i < |states| && Roomy(states[0])
    ensures var s := states[i];
      && !(s.rpc.RWaiting? && s.wpc.WWaiting?)
      && (s.rpc.RWaiting? ==> NbRemaining(s) <= 0)
      && (s.wpc.WWaiting? ==> s.size >= s.maxSize)
      && (s.wpc.WGetWait? ==> s.packets == 0 && !s.abort)
      && (s.mpc.Signalled? ==> !s.rpc.RWaiting? && !s.wpc.WWaiting? && !s.wpc.WGetWait?)
    ensures i < |actions| ==> var s := states[i];
      match actions[i]
      case PushSize(w) => w == (if s.rpc.RWaiting? then TheReader else NoOne)
      case NextSize(w) => w == (if s.wpc.WWaiting? then TheWriter else NoOne)
      case SignalFrames(w) => !states[i + 1].rpc.RWaiting? && !states[i + 1].wpc.WWaiting?
      case _ => true
  {
    RunInv(states, actions, i);
    if i < |actions| { RunInv(states, actions, i + 1); }
  }

  /** Both threads asleep while the stream is open. */
  predicate Stuck(s: Ring) { s.rpc.RWaiting? && s.wpc.WWaiting? && s.mpc.Running? }

  /** With one slot that keeps the last frame, the two threads can put each other to sleep for good. */
  lemma OneSlotDeadlock(f: Frame) returns (states: seq<Ring>, actions: seq<Action>)
    ensures IsRun(states, actions) && states[0] == Initial(1, true) && Stuck(states[|actions|])
  {
    var s := Initial(1, true);
    states, actions := [s], [];
    var script := [
      (WritableCall, s.(wpc := WEnter)),
      (WritableLock, s.(wpc := WChecked)),
      (WritableReturn, s.(wpc := WOwns)),
      (Write(f), s.(wpc := WWritten, slots := [Some(f)])),
      (PushMove, s.(wpc := WMoved, slots := [Some(f)])),
      (PushSize(NoOne), s.(slots := [Some(f)], size := 1, pushed := [f])),
      (NextShow, s.(slots := [Some(f)], size := 1, pushed := [f], shown := true)),
      (ReadableCall, s.(slots := [Some(f)], size := 1, pushed := [f], shown := true, rpc := REnter)),
      (ReadableLock, s.(slots := [Some(f)], size := 1, pushed := [f], shown := true, rpc := RWaiting)),
      (WritableCall, s.(slots := [Some(f)], size := 1, pushed := [f], shown := true, rpc := RWaiting, wpc := WEnter)),
      (WritableLock,
       s.(slots := [Some(f)], size := 1, pushed := [f], shown := true, rpc := RWaiting, wpc := WWaiting))];
    for i := 0 to |script|
      invariant |actions| == i && IsRun(states, actions) && states[0] == s
      invariant states[i] == if i == 0 then s else script[i - 1].1
    {
      Extend(states, actions, script[i].0, script[i].1);
      states, actions := states + [script[i].1], actions + [script[i].0];
    }
  }

  ghost predicate EndsStuck(states: seq<Ring>, actions: seq<Action>, maxSize: int, keepLast: bool) {
    IsRun(states, actions) && states[0].maxSize == maxSize && states[0].keepLast == keepLast && Stuck(states[|actions|])
  }

  ghost predicate CanGetStuck(maxSize: int, keepLast: bool) {
    exists states: seq<Ring>, actions: seq<Action> :: EndsStuck(states, actions, maxSize, keepLast)
  }

  /** A queue can deadlock if and only if it has one slot and keeps the last frame. */
  lemma DeadlockIff(maxSize: int, keepLast: bool)
    requires maxSize >= 1
    ensures CanGetStuck(maxSize, keepLast) <==> maxSize == 1 && keepLast
  {
    if CanGetStuck(maxSize, keepLast) {
      var states: seq<Ring>, actions: seq<Action> :| EndsStuck(states, actions, maxSize, keepLast);
      if Roomy(states[0]) { NoLostWakeup(states, actions, |actions|); }
    }
    if maxSize == 1 && keepLast {
      var states, actions := OneSlotDeadlock(Frame(0, 0));
      assert EndsStuck(states, actions, maxSize, keepLast);
    }
  }
}
