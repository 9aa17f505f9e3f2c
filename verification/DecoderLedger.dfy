/**
 What becomes of every packet that ffplay's decoder thread takes from its queue: decoded, or thrown away
 because a seek has made it obsolete; and that the thread does get on and ends when it should.
 */
module DecoderLedger {
  import opened PacketQueue
  import opened DecoderProtocol

  /** One step of a run, between states that keep the invariant. */
  lemma StepAt(states: seq<State>, actions: seq<Action>, n: nat)
    requires IsRun(states, actions) && n < |actions|
    ensures Inv(states[n]) && Enabled(states[n], actions[n]) && states[n + 1] == Apply(states[n], actions[n])
  {
    RunInv(states, actions, n);
    assert Step(states[n], actions[n], states[n + 1]);
  }

  /** The steps up to n, one by one. */
  ghost predicate Linked(states: seq<State>, actions: seq<Action>, n: nat)
    requires n <= |actions| && |states| == |actions| + 1
  {
    n > 0 ==>
      && Linked(states, actions, n - 1)
      && Inv(states[n - 1]) && Enabled(states[n - 1], actions[n - 1])
      && states[n] == Apply(states[n - 1], actions[n - 1])
  }

  lemma {:induction false} RunLinked(states: seq<State>, actions: seq<Action>, n: nat)
    requires IsRun(states, actions) && n <= |actions|
    ensures Linked(states, actions, n)
  {
    if n == 0 {
    } else {
      RunLinked(states, actions, n - 1);
      StepAt(states, actions, n - 1);
    }
  }

  // ---------------------------------------------------------------------------------------------
  // The queue is what the operations on it make of it

  function OpOf(a: Action): seq<Op> {
    match a
    case ReadPut(p) => [OpPut(p)]
    case SeekPut => [OpPut(Flush)]
    case Start => [OpStart]
    case Abort => [OpAbort]
    case SeekClear | Clear => [OpClear]
    case DecGet => [OpGet]
    case _ => []
  }

  /** The operations that the first n actions of a run make. */
  function OpsOf(actions: seq<Action>, n: nat): seq<Op>
    requires n <= |actions|
  {
    if n == 0 then [] else OpsOf(actions, n - 1) + OpOf(actions[n - 1])
  }

  lemma QueueStep(l: Ledger, s: State, a: Action)
    requires l.q == s.q && Enabled(s, a)
    ensures Apply(s, a).q == if |OpOf(a)| == 0 then l.q else Do(l, OpOf(a)[0]).q
  {
  }

  lemma DoneSnoc(front: seq<Op>, more: seq<Op>)
    requires |more| <= 1
    ensures DoAll(front + more) == if |more| == 0 then DoAll(front) else Do(DoAll(front), more[0])
  {
    if |more| == 0 { assert front + more == front; } else { assert (front + more)[..|front|] == front; }
  }

  lemma {:induction false} QueueLinked(states: seq<State>, actions: seq<Action>, n: nat)
    requires n <= |actions| && |states| == |actions| + 1 && Initial(states[0]) && Linked(states, actions, n)
    ensures states[n].q == DoAll(OpsOf(actions, n)).q
  {
    if n == 0 {
    } else {
      QueueLinked(states, actions, n - 1);
      var front, more := OpsOf(actions, n - 1), OpOf(actions[n - 1]);
      DoneSnoc(front, more);
      QueueStep(DoAll(front), states[n - 1], actions[n - 1]);
    }
  }

  /** The queue of a run is that of the operations the threads have made on it. */
  lemma QueueFromOps(states: seq<State>, actions: seq<Action>, n: nat)
    requires IsRun(states, actions) && n <= |actions|
    ensures states[n].q == DoAll(OpsOf(actions, n)).q
  {
    RunLinked(states, actions, n);
    QueueLinked(states, actions, n);
  }

  // ---------------------------------------------------------------------------------------------
  // Every packet dequeued is judged once, and decoded if it is still current

  /** A packet that the decoder looked at, and whether the queue still had its serial then. */
  datatype Judged = Judged(item: Item, current: bool)

  /**
   Since the stream was opened: the packets dequeued, flush packets left out; those for which serials have been
   compared; and for each one found current how often the codec was called.
   */
  datatype Books = Books(dequeued: seq<Item>, verdicts: seq<Judged>, calls: seq<nat>)

  function Noted(b: Books, s: State, a: Action): Books {
    match a
    case Start => Books([], [], [])
    case DecGet =>
      if s.q.abort || |s.q.items| == 0 || s.q.items[0].pkt.Flush? then b
      else b.(dequeued := b.dequeued + [s.q.items[0]])
    case DecCheck =>
      if s.got.Flush? then b
      else
        var x := Judged(Item(s.got, s.pktSerial), s.q.serial == s.pktSerial);
        b.(verdicts := b.verdicts + [x], calls := if x.current then b.calls + [0] else b.calls)
    case DecCall(_) => if |b.calls| == 0 then b else b.(calls := OneMore(b.calls))
    case _ => b
  }

  function BooksOf(states: seq<State>, actions: seq<Action>, n: nat): Books
    requires n <= |actions| && n <= |states|
  {
    if n == 0 then Books([], [], []) else Noted(BooksOf(states, actions, n - 1), states[n - 1], actions[n - 1])
  }

  function OneMore(calls: seq<nat>): seq<nat>
    requires |calls| > 0
  {
    calls[..|calls| - 1] + [calls[|calls| - 1] + 1]
  }

  function ItemsOf(v: seq<Judged>): seq<Item> {
    if |v| == 0 then [] else ItemsOf(v[..|v| - 1]) + [v[|v| - 1].item]
  }

  function Current(v: seq<Judged>): seq<Item> {
    if |v| == 0 then []
    else Current(v[..|v| - 1]) + if v[|v| - 1].current then [v[|v| - 1].item] else []
  }

  /** What the codec was given. */
  function Fed(log: seq<CodecCall>): seq<Item> {
    if |log| == 0 then []
    else
      var last := log[|log| - 1];
      Fed(log[..|log| - 1]) + if last.CodecFeed? then [Item(last.pkt, last.serial)] else []
  }

  function Times(x: Item, n: nat): seq<Item> { if n == 0 then [] else Times(x, n - 1) + [x] }

  function Repeated(items: seq<Item>, times: seq<nat>): seq<Item>
    requires |items| == |times|
  {
    if |items| == 0 then []
    else
      var n := |items| - 1;
      Repeated(items[..n], times[..n]) + Times(items[n], times[n])
  }

  lemma JudgedSnoc(v: seq<Judged>, x: Judged)
    ensures Current(v + [x]) == Current(v) + if x.current then [x.item] else []
    ensures ItemsOf(v + [x]) == ItemsOf(v) + [x.item]
  {
    assert (v + [x])[..|v|] == v;
  }

  lemma RepeatedSnoc(items: seq<Item>, times: seq<nat>, x: Item)
    requires |items| == |times|
    ensures Repeated(items + [x], times + [0]) == Repeated(items, times)
  {
    assert (items + [x])[..|items|] == items && (times + [0])[..|times|] == times;
  }

  lemma RepeatedOneMore(items: seq<Item>, times: seq<nat>)
    requires |items| == |times| > 0
    ensures Repeated(items, OneMore(times)) == Repeated(items, times) + [items[|items| - 1]]
  {
    var n := |items| - 1;
    assert OneMore(times)[..n] == times[..n];
  }

  lemma FedSnoc(log: seq<CodecCall>, c: CodecCall)
    ensures Fed(log + [c]) == Fed(log) + if c.CodecFeed? then [Item(c.pkt, c.serial)] else []
  {
    assert (log + [c])[..|log|] == log;
  }

  /** The packet just dequeued. */
  function InHand(s: State): seq<Item> {
    if (s.dpc.DHandle? || s.dpc.DCheck?) && !s.got.Flush? then [Item(s.got, s.pktSerial)] else []
  }

  /** All but the last have been decoded; the last as well, unless the codec is about to be called for it. */
  predicate AllCalled(calls: seq<nat>, s: State) {
    && (forall k :: 0 <= k < |calls| - 1 ==> calls[k] > 0)
    && (|calls| > 0 && !s.dpc.DDecode? ==> calls[|calls| - 1] > 0)
  }

  /** The packet the decoder works on is the last one found current. */
  predicate Working(items: seq<Item>, s: State) {
    s.dpc.DDecode? || (s.pending && (s.dpc.DTop? || s.dpc.DTest?)) ==> |items| > 0 && s.cur == items[|items| - 1]
  }

  predicate Judges(b: Books, s: State) { b.dequeued == ItemsOf(b.verdicts) + InHand(s) }

  predicate Accounts(items: seq<Item>, calls: seq<nat>, s: State) {
    && |calls| == |items| && Fed(s.log) == Repeated(items, calls) && AllCalled(calls, s) && Working(items, s)
  }

  lemma TakesOne(b: Books, s: State)
    requires Judges(b, s) && s.dpc.DGet? && !s.q.abort && |s.q.items| > 0
    ensures Judges(Noted(b, s, DecGet), Apply(s, DecGet))
  {
    assert InHand(s) == [];
  }

  lemma JudgesOne(b: Books, s: State)
    requires Judges(b, s) && s.dpc.DCheck? && !s.got.Flush?
    ensures Judges(Noted(b, s, DecCheck), Apply(s, DecCheck))
  {
    JudgedSnoc(b.verdicts, Judged(Item(s.got, s.pktSerial), s.q.serial == s.pktSerial));
    assert InHand(Apply(s, DecCheck)) == [];
  }

  lemma HandKept(s: State, a: Action)
    requires Enabled(s, a) && !a.Start? && (a.DecGet? ==> s.q.abort) && (a.DecCheck? ==> s.got.Flush?)
    ensures InHand(Apply(s, a)) == InHand(s)
  {
  }

  lemma StartsAfresh(b: Books, s: State)
    requires s.cpc.Closed?
    ensures var c, t := Noted(b, s, Start), Apply(s, Start); Judges(c, t) && Accounts(Current(c.verdicts), c.calls, t)
  {
  }

  lemma JudgesStep(b: Books, s: State, a: Action)
    requires Judges(b, s) && Enabled(s, a)
    ensures Judges(Noted(b, s, a), Apply(s, a))
  {
    if a.Start? {
      StartsAfresh(b, s);
    } else if a.DecGet? && !s.q.abort {
      TakesOne(b, s);
    } else if a.DecCheck? && !s.got.Flush? {
      JudgesOne(b, s);
    } else {
      HandKept(s, a);
    }
  }

  lemma TakenUp(items: seq<Item>, calls: seq<nat>, s: State)
    requires Accounts(items, calls, s) && s.dpc.DCheck? && !s.got.Flush? && s.q.serial == s.pktSerial
    ensures Accounts(items + [Item(s.got, s.pktSerial)], calls + [0], Apply(s, DecCheck))
  {
    RepeatedSnoc(items, calls, Item(s.got, s.pktSerial));
  }

  lemma Compared(b: Books, s: State)
    requires Accounts(Current(b.verdicts), b.calls, s) && s.dpc.DCheck? && !s.got.Flush?
    ensures var c := Noted(b, s, DecCheck); Accounts(Current(c.verdicts), c.calls, Apply(s, DecCheck))
  {
    JudgedSnoc(b.verdicts, Judged(Item(s.got, s.pktSerial), s.q.serial == s.pktSerial));
    assert Current(b.verdicts) + [] == Current(b.verdicts);
    if s.q.serial == s.pktSerial { TakenUp(Current(b.verdicts), b.calls, s); }
  }

  lemma CalledFor(items: seq<Item>, calls: seq<nat>, s: State, outcome: Outcome)
    requires Accounts(items, calls, s) && s.dpc.DDecode?
    ensures |calls| > 0 && Accounts(items, OneMore(calls), Apply(s, DecCall(outcome)))
  {
    FedSnoc(s.log, CodecFeed(s.cur.pkt, s.cur.serial));
    RepeatedOneMore(items, calls);
  }

  lemma OthersAccount(items: seq<Item>, calls: seq<nat>, s: State, a: Action)
    requires Accounts(items, calls, s) && Enabled(s, a) && !a.Start? && !a.DecCall? && (a.DecCheck? ==> s.got.Flush?)
    ensures Accounts(items, calls, Apply(s, a))
  {
    if a.DecHandle? && s.got.Flush? { FedSnoc(s.log, CodecFlush(s.pktSerial)); }
  }

  lemma AccountsStep(b: Books, s: State, a: Action)
    requires Accounts(Current(b.verdicts), b.calls, s) && Enabled(s, a)
    ensures var c := Noted(b, s, a); Accounts(Current(c.verdicts), c.calls, Apply(s, a))
  {
    if a.Start? {
      StartsAfresh(b, s);
    } else if a.DecCheck? && !s.got.Flush? {
      Compared(b, s);
    } else if a.DecCall? {
      CalledFor(Current(b.verdicts), b.calls, s, a.outcome);
    } else {
      OthersAccount(Current(b.verdicts), b.calls, s, a);
    }
  }

  lemma {:induction false} BooksAgree(states: seq<State>, actions: seq<Action>, n: nat)
    requires n <= |actions| && |states| == |actions| + 1 && Initial(states[0]) && Linked(states, actions, n)
    ensures var b := BooksOf(states, actions, n);
      Judges(b, states[n]) && Accounts(Current(b.verdicts), b.calls, states[n])
  {
    if n == 0 {
    } else {
      BooksAgree(states, actions, n - 1);
      var b := BooksOf(states, actions, n - 1);
      JudgesStep(b, states[n - 1], actions[n - 1]);
      AccountsStep(b, states[n - 1], actions[n - 1]);
    }
  }

  /**
   In every run, since the stream was opened: the packets dequeued are, in order, those judged and the one in hand;
   and the codec was given exactly those judged current, in that order, each at least once before the next.
   */
  lemma EveryPacketDecoded(states: seq<State>, actions: seq<Action>, n: nat)
    requires IsRun(states, actions) && n <= |actions|
    ensures var b, s := BooksOf(states, actions, n), states[n];
      && b.dequeued == ItemsOf(b.verdicts) + InHand(s)
      && |b.calls| == |Current(b.verdicts)|
      && Fed(s.log) == Repeated(Current(b.verdicts), b.calls) && AllCalled(b.calls, s)
      && Working(Current(b.verdicts), s)
  {
    RunLinked(states, actions, n);
    BooksAgree(states, actions, n);
  }

  /** Whether the last codec call, since the stream was opened, had more to give. */
  predicate SaidMore(actions: seq<Action>) {
    |actions| > 0 &&
    match actions[|actions| - 1]
    case DecCall(outcome) => outcome.More?
    case Start => false
    case _ => SaidMore(actions[..|actions| - 1])
  }

  lemma {:induction false} PendingIs(states: seq<State>, actions: seq<Action>, n: nat)
    requires IsRun(states, actions) && n <= |actions|
    ensures var s := states[n];
      s.dpc.DTop? || s.dpc.DTest? || s.dpc.DGet? || s.dpc.DHandle? || s.dpc.DCheck? ==>
        (s.pending <==> SaidMore(actions[..n]))
  {
    if n == 0 {
    } else {
      PendingIs(states, actions, n - 1);
      StepAt(states, actions, n - 1);
      assert actions[..n][..n - 1] == actions[..n - 1];
    }
  }

  /** A packet is given to the codec again exactly if the codec had more to give and no seek has come since. */
  lemma DecodedAgainIff(states: seq<State>, actions: seq<Action>, n: nat)
    requires IsRun(states, actions) && n < |actions| && actions[n].DecTest?
    ensures var s, t := states[n], states[n + 1];
      t.dpc == if SaidMore(actions[..n]) && s.q.serial == s.pktSerial then DDecode else DGet
  {
    PendingIs(states, actions, n);
    StepAt(states, actions, n);
  }

  // ---------------------------------------------------------------------------------------------
  // The end of the stream is reported

  /** The empty packet is used up, or the filter graph ends, under that serial. */
  predicate EndsAt(s: State, a: Action, serial: nat) {
    || (a == DecCall(Consumed) && s.cur == Item(Null, serial))
    || (a.FilterEnd? && s.pktSerial == serial)
  }

  /** The codec is flushed, or the decoder is set up anew. */
  predicate Resets(s: State, a: Action) { a.Start? || (a.DecHandle? && s.got.Flush?) }

  ghost predicate EndedSince(states: seq<State>, actions: seq<Action>, i: nat, n: nat, serial: nat)
    requires n <= |actions| && n <= |states|
  {
    i < n && EndsAt(states[i], actions[i], serial) && forall j :: i < j < n ==> !Resets(states[j], actions[j])
  }

  /** Finished under that serial, until a flush packet is handled. */
  predicate Reported(s: State, serial: nat) {
    && s.finished == serial > 0
    && (s.pktSerial == serial || (s.dpc.DHandle? && s.got.Flush?) || s.dpc.DDone?)
  }

  lemma EndReports(s: State, a: Action, serial: nat)
    requires Inv(s) && Enabled(s, a) && EndsAt(s, a, serial)
    ensures Reported(Apply(s, a), serial)
  {
  }

  lemma KeepsReporting(s: State, a: Action, serial: nat)
    requires Inv(s) && Enabled(s, a) && Reported(s, serial) && !Resets(s, a)
    ensures Reported(Apply(s, a), serial)
  {
    if a.DecGet? && !s.q.abort { GetChained(s.q.items, s.pktSerial, s.q.serial); }
  }

  lemma {:induction false} StaysFinished(states: seq<State>, actions: seq<Action>, i: nat, n: nat, serial: nat)
    requires i < n <= |actions| && |states| == |actions| + 1 && Linked(states, actions, n)
    requires EndedSince(states, actions, i, n, serial)
    ensures Reported(states[n], serial)
  {
    var s, a := states[n - 1], actions[n - 1];
    if n == i + 1 {
      EndReports(s, a, serial);
    } else {
      assert !Resets(s, a);
      StaysFinished(states, actions, i, n - 1, serial);
      KeepsReporting(s, a, serial);
    }
  }

  lemma NewlyFinished(s: State, a: Action)
    requires Inv(s) && Enabled(s, a) && Apply(s, a).finished > 0
    ensures EndsAt(s, a, Apply(s, a).finished) || (Apply(s, a).finished == s.finished && !Resets(s, a))
  {
  }

  lemma {:induction false} FinishedHasEnd(states: seq<State>, actions: seq<Action>, n: nat) returns (i: nat)
    requires n <= |actions| && |states| == |actions| + 1 && Initial(states[0]) && Linked(states, actions, n)
    requires states[n].finished > 0
    ensures EndedSince(states, actions, i, n, states[n].finished)
  {
    NewlyFinished(states[n - 1], actions[n - 1]);
    if EndsAt(states[n - 1], actions[n - 1], states[n].finished) {
      i := n - 1;
    } else {
      i := FinishedHasEnd(states, actions, n - 1);
    }
  }

  /** finished is a serial exactly if its end has been seen and the codec has not been flushed since. */
  lemma FinishedIff(states: seq<State>, actions: seq<Action>, n: nat, serial: nat)
    requires IsRun(states, actions) && n <= |actions| && serial > 0
    ensures states[n].finished == serial <==> exists i: nat :: EndedSince(states, actions, i, n, serial)
  {
    RunLinked(states, actions, n);
    if states[n].finished == serial { var i := FinishedHasEnd(states, actions, n); }
    if exists i: nat :: EndedSince(states, actions, i, n, serial) {
      var i: nat :| EndedSince(states, actions, i, n, serial);
      StaysFinished(states, actions, i, n, serial);
    }
  }

  // ---------------------------------------------------------------------------------------------
  // The decoder gets on

  predicate OfDecoder(a: Action) { a.DecTop? || a.DecTest? || a.DecGet? || a.DecHandle? || a.DecCheck? || a.DecCall? }

  /** How much it can do before it calls the codec, stops, or waits for a packet. */
  function Work(s: State): nat {
    4 * |s.q.items| +
    match s.dpc
    case DTop => 3
    case DTest => 2
    case DGet => 1
    case DHandle => 4
    case DCheck => 3
    case DDecode | DDone => 0
  }

  /** Before a codec call every step of the decoder uses up work; it has a step unless it waits at an empty queue. */
  lemma DecoderGetsOn(s: State, a: Action)
    requires Enabled(s, a) && OfDecoder(a)
    ensures !a.DecCall? ==> Work(Apply(s, a)) < Work(s)
  {
  }

  lemma DecoderWaitsIff(s: State)
    ensures (exists a :: OfDecoder(a) && Enabled(s, a)) <==>
      !s.dpc.DDone? && !(s.dpc.DGet? && !s.q.abort && s.q.items == [])
  {
    var a := match s.dpc
      case DTop => DecTop
      case DTest => DecTest
      case DGet => DecGet
      case DHandle => DecHandle
      case DCheck => DecCheck
      case _ => DecCall(Error);
    if !s.dpc.DDone? && !(s.dpc.DGet? && !s.q.abort && s.q.items == []) { assert OfDecoder(a) && Enabled(s, a); }
  }

  /** How many steps it takes once the queue is aborted. */
  function Remaining(s: State): nat {
    match s.dpc
    case DDone => 0
    case DTop | DGet => 1
    case DDecode => 2
    case DTest => 3
    case DCheck => 3
    case DHandle => 4
  }

  function DecoderSteps(actions: seq<Action>): nat {
    if |actions| == 0 then 0
    else DecoderSteps(actions[..|actions| - 1]) + if OfDecoder(actions[|actions| - 1]) then 1 else 0
  }

  lemma StepsSnoc(front: seq<Action>, a: Action)
    ensures DecoderSteps(front + [a]) == DecoderSteps(front) + if OfDecoder(a) then 1 else 0
  {
    assert (front + [a])[..|front|] == front;
  }

  lemma SliceSnoc<T>(s: seq<T>, from: nat, n: nat)
    requires from < n <= |s|
    ensures s[from..n] == s[from..n - 1] + [s[n - 1]]
  {
  }

  lemma AbortedStep(s: State, a: Action)
    requires Inv(s) && s.q.abort && Enabled(s, a) && !a.Start?
    ensures Remaining(Apply(s, a)) + (if OfDecoder(a) then 1 else 0) <= Remaining(s) && Apply(s, a).q.abort
  {
  }

  lemma {:induction false} AbortCounts(states: seq<State>, actions: seq<Action>, from: nat, n: nat)
    requires from <= n <= |actions| && |states| == |actions| + 1 && Linked(states, actions, n)
    requires forall i :: from <= i < n ==> states[i].q.abort && !actions[i].Start?
    ensures Remaining(states[n]) + DecoderSteps(actions[from..n]) <= Remaining(states[from])
  {
    if n == from {
    } else {
      AbortCounts(states, actions, from, n - 1);
      AbortedStep(states[n - 1], actions[n - 1]);
      SliceSnoc(actions, from, n);
      StepsSnoc(actions[from..n - 1], actions[n - 1]);
    }
  }

  /**
   Once the queue is aborted the decoder ends: until the stream is opened again it takes at most four more steps,
   and always has one to take unless it has ended.
   */
  lemma AbortEndsDecoder(states: seq<State>, actions: seq<Action>, from: nat, n: nat)
    requires IsRun(states, actions) && from <= n <= |actions| && states[from].q.abort
    requires forall i :: from <= i < n ==> !actions[i].Start?
    ensures DecoderSteps(actions[from..n]) <= 4
    ensures states[n].dpc.DDone? || exists a :: OfDecoder(a) && Enabled(states[n], a)
  {
    RunLinked(states, actions, n);
    StaysAborted(states, actions, from, n);
    AbortCounts(states, actions, from, n);
    DecoderWaitsIff(states[n]);
  }

  lemma {:induction false} StaysAborted(states: seq<State>, actions: seq<Action>, from: nat, n: nat)
    requires from <= n <= |actions| && |states| == |actions| + 1 && Linked(states, actions, n) && states[from].q.abort
    requires forall i :: from <= i < n ==> !actions[i].Start?
    ensures forall i :: from <= i <= n ==> states[i].q.abort
  {
    if n == from {
    } else {
      StaysAborted(states, actions, from, n - 1);
      AbortedStep(states[n - 1], actions[n - 1]);
    }
  }
}
