/** What the calls on the frame queue return, and how its threads leave it. */
module RingCalls {
  import opened Common
  import opened FrameRing

  /** What a step of a call does to its thread, in terms of the abstract queue. */
  ghost predicate CallReturns(s: Ring, a: Action, t: Ring)
    requires Inv(s) && Inv(t)
  {
    match a
    // frame_queue_peek_readable waits exactly for a frame or the end, and returns the next frame unless aborted
    case ReadableLock => t.rpc.RWaiting? <==> |Abstract(s).pending| == 0 && !s.abort
    case ReadableReturn =>
      if s.abort then t.rpc.RIdle?
      else t.rpc.RHas? && |Abstract(t).pending| > 0 && t.slots[PeekIndex(t)] == Some(Abstract(t).pending[0])
    // frame_queue_peek_writable waits exactly for room or the end, and returns a slot unless aborted
    case WritableLock => t.wpc.WWaiting? <==> s.size >= s.maxSize && !s.abort
    case WritableReturn =>
      if s.abort then t.wpc.WDone? else t.wpc.WOwns? && t.size < t.maxSize && t.windex !in ReaderSlots(t)
    // packet_queue_get
    case GetLock =>
      && (t.wpc.WGetWait? <==> s.packets == 0 && !s.abort) && (t.wpc.WDone? <==> s.abort)
      && (!s.abort && s.packets > 0 ==> t.wpc.WIdle? && t.packets == s.packets - 1)
    // a put wakes its waiter, a flush leaves none, and a decoder that is started again finds one flush packet
    case PutPacket => t.packets == s.packets + 1 && !t.wpc.WGetWait?
    case FlushPackets => t.packets == 0
    case Restart => t.packets == 1 && !t.abort && t.wpc.WIdle?
    // a thread that wakes looks again
    case ReadableSpurious => t.rpc.REnter?
    case WritableSpurious => t.wpc.WEnter?
    case Forget => t.rpc.RIdle?
    case _ => true
  }

  lemma ReadableReturns(s: Ring)
    requires Inv(s) && Enabled(s, ReadableReturn) && Inv(Apply(s, ReadableReturn))
    ensures CallReturns(s, ReadableReturn, Apply(s, ReadableReturn))
  {
    if !s.abort { PeekSlots(Apply(s, ReadableReturn)); }
  }

  lemma WritableReturns(s: Ring)
    requires Inv(s) && Enabled(s, WritableReturn) && Inv(Apply(s, WritableReturn))
    requires var t := Apply(s, WritableReturn); WriterSlots(t) !! ReaderSlots(t)
    ensures CallReturns(s, WritableReturn, Apply(s, WritableReturn))
  {
    if !s.abort { assert s.windex in WriterSlots(Apply(s, WritableReturn)); }
  }

  lemma OthersReturn(s: Ring, a: Action)
    requires Inv(s) && Enabled(s, a) && Inv(Apply(s, a)) && !a.ReadableReturn? && !a.WritableReturn?
    ensures CallReturns(s, a, Apply(s, a))
  {
  }

  lemma Returns(states: seq<Ring>, actions: seq<Action>, i: nat)
    requires IsRun(states, actions) && i < |actions|
    ensures Inv(states[i]) && Inv(states[i + 1]) && CallReturns(states[i], actions[i], states[i + 1])
  {
    RunInv(states, actions, i);
    RunInv(states, actions, i + 1);
    var s, a := states[i], actions[i];
    assert Step(s, a, states[i + 1]);
    if a.ReadableReturn? {
      ReadableReturns(s);
    } else if a.WritableReturn? {
      ExclusiveSlots(states, actions, i + 1);
      WritableReturns(s);
    } else {
      OthersReturn(s, a);
    }
  }

  // ---------------------------------------------------------------------------------------------
  // Leaving

  /** How many steps the decoder thread takes once the queue is aborted. */
  function Remaining(pc: WriterPc): nat {
    match pc
    case WDone => 0
    case WGet | WChecked => 1
    case WGetWait | WEnter => 2
    case WIdle | WWaiting => 3
    case WMoved => 4
    case WWritten => 5
    case WOwns => 6
  }

  /** Each of its steps brings it nearer to its end, and no step of another thread takes it further away. */
  lemma AbortEndsWriter(s: Ring, a: Action)
    requires Inv(s) && s.abort && Enabled(s, a) && !a.Restart?
    ensures Remaining(Apply(s, a).wpc) + (if WriterStep(a) then 1 else 0) <= Remaining(s.wpc)
    ensures s.wpc.WDone? <==> Remaining(s.wpc) == 0
  {
  }

  /** In a roomy queue it is awake then, so SDL_WaitThread returns: unless it has ended it has a step to take. */
  lemma AwakeAfterAbort(states: seq<Ring>, actions: seq<Action>, i: nat)
    requires IsRun(states, actions) && i < |states| && Roomy(states[0]) && states[i].mpc.Signalled?
    ensures states[i].wpc.WDone? ||
      exists a :: WriterStep(a) && !a.WritableSpurious? && !a.GetSpurious? && Enabled(states[i], a)
  {
    NoLostWakeup(states, actions, i);
    RunInv(states, actions, i);
    var s := states[i];
    if !s.wpc.WDone? {
      var a := match s.wpc
        case WIdle => GetCall
        case WGet => GetLock
        case WEnter => WritableLock
        case WChecked => WritableReturn
        case WOwns => Write(Frame(0, 0))
        case WWritten => PushMove
        case _ => PushSize(if s.rpc.RWaiting? then TheReader else NoOne);
      assert WriterStep(a) && Enabled(s, a);
    }
  }
}
