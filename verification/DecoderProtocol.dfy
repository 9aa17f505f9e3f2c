/**
 Seek generations between the demuxer thread, the decoder thread and the thread that opens and closes
 a stream.

 Every packet is queued under the queue's current serial; a flush packet starts a new serial. The
 decoder reads the queue's serial, its abort_request and its emptiness outside the lock, so each shared
 access below is one atomic step and any interleaving of the three threads is a run.
 */
module DecoderProtocol {
  import opened PacketQueue

  /** What the codec saw: avcodec_flush_buffers for a serial, or a packet queued under a serial. */
  datatype CodecCall = CodecFlush(serial: nat) | CodecFeed(pkt: Packet, serial: nat)

  /** Where decoder_decode_frame is. */
  datatype DecoderPc =
    | DTop     // about to read abort_request
    | DTest    // about to test packet_pending and the queue's serial
    | DGet     // about to lock in packet_queue_get
    | DHandle  // has dequeued a packet, about to see whether it is flush_pkt
    | DCheck   // about to read the queue's serial in the inner loop condition
    | DDecode  // about to call the codec
    | DDone    // returned -1

  datatype ReaderPc = RIdle | RCleared

  /** Open and running; aborted; joined; queue flushed again and decoder freed, as before the first open. */
  datatype ControlPc = Live | Aborting | Joined | Closed

  /** got is the packet last dequeued, cur the one being decoded with its serial in the queue; ends is history. */
  datatype State = State(
    q: Queue,
    rpc: ReaderPc, cpc: ControlPc, dpc: DecoderPc,
    got: Packet, cur: Item, pktSerial: nat, finished: nat, pending: bool,
    log: seq<CodecCall>, ends: seq<nat>)

  /** How a codec call ended: an error; packet used up; packet or codec has more to give. */
  datatype Outcome = Error | Consumed | More

  datatype Action =
    | ReadPut(pkt: Packet)     // packet_queue_put of a read packet, or packet_queue_put_nullpacket
    | SeekClear | SeekPut      // packet_queue_flush, then packet_queue_put(&flush_pkt)
    | Start | Abort | Join | Clear
    | DecTop | DecTest | DecGet | DecHandle | DecCheck | DecCall(outcome: Outcome)
    | FilterEnd                // between two calls, the filter graph reports its end to the decoder thread

  predicate Enabled(s: State, a: Action) {
    match a
    case ReadPut(p) => s.rpc.RIdle? && !p.Flush?
    case SeekClear => s.rpc.RIdle?
    case SeekPut => s.rpc.RCleared?
    case Start => s.cpc.Closed?
    case Abort => s.cpc.Live?
    case Join => s.cpc.Aborting? && s.dpc.DDone?
    case Clear => s.cpc.Joined?
    case DecTop => s.dpc.DTop?
    case DecTest => s.dpc.DTest?
    case DecGet => s.dpc.DGet? && (s.q.abort || s.q.items != [])
    case DecHandle => s.dpc.DHandle?
    case DecCheck => s.dpc.DCheck?
    case DecCall(_) => s.dpc.DDecode?
    case FilterEnd => s.dpc.DTop? && s.pktSerial > 0
  }

  function Apply(s: State, a: Action): State
    requires Enabled(s, a)
  {
    match a
    case ReadPut(p) => s.(q := Put(s.q, p))
    case SeekClear => s.(q := Cleared(s.q), rpc := RCleared)
    case SeekPut => s.(q := Put(s.q, Flush), rpc := RIdle)
    // decoder_init zeroes the decoder, packet_queue_start clears abort_request and puts flush_pkt
    case Start =>
      s.(q := Started(s.q), pktSerial := 0, finished := 0, pending := false, dpc := DTop, log := [], ends := [],
         cpc := Live)
    case Abort => s.(q := Aborted(s.q), cpc := Aborting)
    case Join => s.(cpc := Joined)
    case Clear => s.(q := Cleared(s.q), cpc := Closed)
    case DecTop => s.(dpc := if s.q.abort then DDone else DTest)
    case DecTest => s.(dpc := if !s.pending || s.q.serial != s.pktSerial then DGet else DDecode)
    case DecGet =>
      if s.q.abort then s.(dpc := DDone)
      else s.(q := Rest(s.q), got := s.q.items[0].pkt, pktSerial := s.q.items[0].serial, dpc := DHandle)
    case DecHandle =>
      if s.got.Flush? then s.(log := s.log + [CodecFlush(s.pktSerial)], finished := 0, dpc := DCheck)
      else s.(dpc := DCheck)
    case DecCheck =>
      if s.got.Flush? || s.q.serial != s.pktSerial then s.(dpc := DGet)
      else s.(cur := Item(s.got, s.pktSerial), pending := true, dpc := DDecode)
    case DecCall(outcome) =>
      s.(log := s.log + [CodecFeed(s.cur.pkt, s.cur.serial)],
         pending := outcome.More?,
         finished := if outcome.Consumed? && s.cur.pkt.Null? then s.pktSerial else s.finished,
         dpc := DTop)
    case FilterEnd => s.(finished := s.pktSerial, ends := s.ends + [s.pktSerial])
  }

  /** packet_queue_init: aborted, empty, serial 0, no decoder. */
  predicate Initial(s: State) {
    && s.q == Queue([], 0, true) && s.rpc.RIdle? && s.cpc.Closed? && s.dpc.DDone?
    && s.pktSerial == 0 && s.finished == 0 && !s.pending && s.log == [] && s.ends == []
  }

  predicate Step(s: State, a: Action, t: State) {
    Enabled(s, a) && t == Apply(s, a)
  }

  ghost predicate IsRun(states: seq<State>, actions: seq<Action>) {
    && |states| == |actions| + 1
    && Initial(states[0])
    && forall i :: 0 <= i < |actions| ==> Step(states[i], actions[i], states[i + 1])
  }

  // ---------------------------------------------------------------------------------------------
  // The invariant

  /** The serial dequeued, or queued, just before item i. */
  function Before(queue: seq<Item>, dequeued: nat, i: int): nat
    requires 0 <= i <= |queue|
  {
    if i == 0 then dequeued else queue[i - 1].serial
  }

  /** Serials change exactly at flush packets, only upwards, and never beyond the queue's serial. */
  predicate Chained(queue: seq<Item>, dequeued: nat, serial: nat) {
    && dequeued <= serial
    && forall i :: 0 <= i < |queue| ==>
      && 0 < queue[i].serial <= serial
      && (if queue[i].pkt.Flush? then Before(queue, dequeued, i) < queue[i].serial
          else Before(queue, dequeued, i) == queue[i].serial)
  }

  /** The codec was flushed for this serial and has seen nothing but packets of this serial since. */
  ghost predicate Covered(log: seq<CodecCall>, serial: nat) {
    exists j :: 0 <= j < |log| && log[j] == CodecFlush(serial) && OnlyFeeds(log, j, serial)
  }

  predicate OnlyFeeds(log: seq<CodecCall>, j: int, serial: nat)
    requires 0 <= j < |log|
  {
    forall k :: j < k < |log| ==> log[k].CodecFeed? && log[k].serial == serial
  }

  /** Every packet handed to the codec is covered by a codec flush for its own serial. */
  ghost predicate GoodLog(log: seq<CodecCall>) {
    forall i :: 0 <= i < |log| && log[i].CodecFeed? ==> Covered(log[..i], log[i].serial)
  }

  predicate QueueInv(s: State) {
    && Chained(s.q.items, s.pktSerial, s.q.serial)
    && (s.q.abort <==> !s.cpc.Live?)
    && (s.cpc.Closed? ==> s.q.items == [])
    && (s.cpc.Joined? || s.cpc.Closed? ==> s.dpc.DDone?)
    // the reader puts data only when the newest serial has its flush packet in the queue or dequeued
    && (s.rpc.RIdle? && !s.q.abort ==> Before(s.q.items, s.pktSerial, |s.q.items|) == s.q.serial)
    && (s.cpc.Live? ==> s.q.serial > 0)
  }

  /** The codec, or the filter graph behind it, has come to its end in this generation. */
  predicate Drained(s: State, serial: nat) { CodecFeed(Null, serial) in s.log || serial in s.ends }

  ghost predicate CodecInv(s: State) {
    && GoodLog(s.log)
    // a dequeued serial is covered, except by a flush packet that is still in hand
    && (s.pktSerial > 0 && !(s.dpc.DHandle? && s.got.Flush?) ==> Covered(s.log, s.pktSerial))
    && (s.dpc.DHandle? || s.dpc.DCheck? ==> s.pktSerial > 0)
    && (s.dpc.DDecode? ==> s.pending)
    && (s.pending && (s.dpc.DTop? || s.dpc.DTest? || s.dpc.DDecode?) ==>
          s.cur.serial == s.pktSerial && s.pktSerial > 0 && !s.cur.pkt.Flush?)
    && (s.finished > 0 ==> s.finished <= s.pktSerial && Drained(s, s.finished))
  }

  ghost predicate Inv(s: State) { QueueInv(s) && CodecInv(s) }

  lemma CoveredAppend(log: seq<CodecCall>, c: CodecCall, serial: nat)
    requires c == CodecFlush(serial) || (Covered(log, serial) && c.CodecFeed? && c.serial == serial)
    ensures Covered(log + [c], serial)
  {
    if c == CodecFlush(serial) {
      assert OnlyFeeds(log + [c], |log|, serial);
    } else {
      var j :| 0 <= j < |log| && log[j] == CodecFlush(serial) && OnlyFeeds(log, j, serial);
      assert OnlyFeeds(log + [c], j, serial);
    }
  }

  lemma GoodLogAppend(log: seq<CodecCall>, c: CodecCall)
    requires GoodLog(log) && (c.CodecFeed? ==> Covered(log, c.serial))
    ensures GoodLog(log + [c])
  {
    forall i | 0 <= i <= |log| && (log + [c])[i].CodecFeed?
      ensures Covered((log + [c])[..i], (log + [c])[i].serial)
    {
      assert (log + [c])[..i] == log[..i];
      if i == |log| { assert log[..i] == log; }
    }
  }

  lemma PutChained(queue: seq<Item>, dequeued: nat, serial: nat, item: Item)
    requires Chained(queue, dequeued, serial)
    requires item.serial > 0 &&
      if item.pkt.Flush? then item.serial == serial + 1
      else item.serial == serial == Before(queue, dequeued, |queue|)
    ensures Chained(queue + [item], dequeued, item.serial)
  {
    var t := queue + [item];
    assert forall i :: 0 <= i <= |queue| ==> Before(t, dequeued, i) == Before(queue, dequeued, i);
  }

  lemma PutOn(q: Queue, dequeued: nat, p: Packet)
    requires !q.abort && Chained(q.items, dequeued, q.serial)
    requires !p.Flush? ==> Before(q.items, dequeued, |q.items|) == q.serial > 0
    ensures var t := Put(q, p); Chained(t.items, dequeued, t.serial) && Before(t.items, dequeued, |t.items|) == t.serial
  {
    PutChained(q.items, dequeued, q.serial, Item(p, Put(q, p).serial));
  }

  lemma GetChained(queue: seq<Item>, dequeued: nat, serial: nat)
    requires Chained(queue, dequeued, serial) && queue != []
    ensures Chained(queue[1..], queue[0].serial, serial)
    ensures Before(queue[1..], queue[0].serial, |queue| - 1) == Before(queue, dequeued, |queue|)
    ensures dequeued <= queue[0].serial && (!queue[0].pkt.Flush? ==> dequeued == queue[0].serial)
  {
    assert Before(queue, dequeued, 0) == dequeued;
    assert forall i :: 0 <= i < |queue| ==> Before(queue[1..], queue[0].serial, i) == Before(queue, dequeued, i + 1);
  }

  lemma QueueKept(s: State, a: Action)
    requires QueueInv(s) && Enabled(s, a)
    ensures QueueInv(Apply(s, a))
  {
    match a
    case ReadPut(p) => if !s.q.abort { PutOn(s.q, s.pktSerial, p); }
    case SeekPut => if !s.q.abort { PutOn(s.q, s.pktSerial, Flush); }
    case Start => PutOn(s.q.(abort := false), 0, Flush);
    case DecGet => if !s.q.abort { GetChained(s.q.items, s.pktSerial, s.q.serial); }
    case _ =>
  }

  lemma CodecKept(s: State, a: Action)
    requires Inv(s) && Enabled(s, a)
    ensures CodecInv(Apply(s, a))
  {
    match a
    case DecHandle =>
      if s.got.Flush? {
        CoveredAppend(s.log, CodecFlush(s.pktSerial), s.pktSerial);
        GoodLogAppend(s.log, CodecFlush(s.pktSerial));
      }
    case DecCall(_) =>
      CoveredAppend(s.log, CodecFeed(s.cur.pkt, s.cur.serial), s.pktSerial);
      GoodLogAppend(s.log, CodecFeed(s.cur.pkt, s.cur.serial));
    case DecGet =>
      if !s.q.abort { GetChained(s.q.items, s.pktSerial, s.q.serial); }
    case _ =>
  }

  lemma StepKeeps(s: State, a: Action, t: State)
    requires Inv(s) && Step(s, a, t)
    ensures Inv(t)
  {
    QueueKept(s, a);
    CodecKept(s, a);
  }

  lemma {:induction false} RunInv(states: seq<State>, actions: seq<Action>, i: nat)
    requires IsRun(states, actions) && i < |states|
    ensures Inv(states[i])
  {
    if i == 0 {
    } else {
      RunInv(states, actions, i - 1);
      assert Step(states[i - 1], actions[i - 1], states[i - 1 + 1]);
      StepKeeps(states[i - 1], actions[i - 1], states[i]);
    }
  }

  // ---------------------------------------------------------------------------------------------
  // Results

  /**
   In every interleaving, a packet reaches the codec only after a codec flush for the serial it was
   queued under, with nothing of another serial in between.
   */
  lemma CodecSeesOneGeneration(states: seq<State>, actions: seq<Action>, i: nat, k: nat)
    requires IsRun(states, actions) && i < |states|
    requires k < |states[i].log| && states[i].log[k].CodecFeed?
    ensures Covered(states[i].log[..k], states[i].log[k].serial)
  {
    RunInv(states, actions, i);
  }

  /** The serial a packet is fed under is the serial it was queued under, and it was the newest one when accepted. */
  lemma FedUnderOwnSerial(states: seq<State>, actions: seq<Action>, i: nat)
    requires IsRun(states, actions) && i < |actions|
    ensures actions[i].DecCheck? && states[i + 1].dpc.DDecode? ==>
      && states[i + 1].cur.serial == states[i].q.serial
      && CodecFlush(states[i].q.serial) in states[i].log
    ensures actions[i].DecCall? ==> states[i].cur.serial == states[i].pktSerial > 0 && !states[i].cur.pkt.Flush?
  {
    RunInv(states, actions, i);
    assert Step(states[i], actions[i], states[i + 1]);
  }

  /** What the reader concludes from finished == serial: all drained in this very generation, and no seek waiting. */
  lemma EndOfStreamIsCurrent(states: seq<State>, actions: seq<Action>, i: nat)
    requires IsRun(states, actions) && i < |states|
    requires states[i].finished > 0 && states[i].finished == states[i].q.serial
    ensures Drained(states[i], states[i].q.serial)
    ensures forall n :: 0 <= n < |states[i].q.items| ==> !states[i].q.items[n].pkt.Flush?
  {
    RunInv(states, actions, i);
    var s := states[i];
    AllSame(s.q.items, s.pktSerial);
  }

  lemma {:induction false} AllSame(queue: seq<Item>, serial: nat)
    requires Chained(queue, serial, serial)
    ensures forall n :: 0 <= n < |queue| ==> !queue[n].pkt.Flush?
  {
    if queue == [] {
    } else {
      GetChained(queue, serial, serial);
      AllSame(queue[1..], serial);
      assert forall n :: 0 < n < |queue| ==> queue[n] == queue[1..][n - 1];
    }
  }

  /** finished is 0 or a serial already dequeued, so a new flush packet makes it differ from the queue's serial. */
  lemma FlushUnsetsFinished(states: seq<State>, actions: seq<Action>, i: nat)
    requires IsRun(states, actions) && i < |actions|
    ensures states[i].finished <= states[i].pktSerial <= states[i].q.serial
    ensures (actions[i].SeekPut? || actions[i].Start?) && !states[i + 1].q.abort ==>
      states[i + 1].finished != states[i + 1].q.serial
  {
    RunInv(states, actions, i);
    assert Step(states[i], actions[i], states[i + 1]);
  }
}
