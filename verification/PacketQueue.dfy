/**
 The packet queue between ffplay's demuxer and its decoders: a singly linked list with a tail pointer,
 running totals, and a serial that a flush packet increments. Each method is one locked region.
 */
module PacketQueue {
  /** flush_pkt, the empty packet that drains a decoder, and a packet with payload. */
  datatype Packet = Flush | Null | Data(id: int, bytes: nat, length: int)
  {
    function Bytes(): nat { if Data? then bytes else 0 }
    function Length(): int { if Data? then length else 0 }
  }

  /** A queued packet and the serial it was queued under. */
  datatype Item = Item(pkt: Packet, serial: nat)

  /** What the list means. */
  datatype Queue = Queue(items: seq<Item>, serial: nat, abort: bool)

  // ---------------------------------------------------------------------------------------------
  // The operations on the meaning

  function Put(q: Queue, p: Packet): Queue {
    if q.abort then q
    else
      var serial := if p.Flush? then q.serial + 1 else q.serial;
      q.(serial := serial, items := q.items + [Item(p, serial)])
  }

  function Cleared(q: Queue): Queue { q.(items := []) }

  function Started(q: Queue): Queue { Put(q.(abort := false), Flush) }

  function Aborted(q: Queue): Queue { q.(abort := true) }

  function Rest(q: Queue): Queue
    requires q.items != []
  {
    q.(items := q.items[1..])
  }

  function TotalBytes(items: seq<Item>, node: nat): nat {
    if items == [] then 0 else TotalBytes(items[..|items| - 1], node) + items[|items| - 1].pkt.Bytes() + node
  }

  function TotalLength(items: seq<Item>): int {
    if items == [] then 0 else TotalLength(items[..|items| - 1]) + items[|items| - 1].pkt.Length()
  }

  /** Serials never go down along the list and never exceed the queue's. */
  predicate SerialsOrdered(q: Queue) { Ordered(q.items, q.serial) }

  predicate Ordered(items: seq<Item>, bound: nat) {
    |items| > 0 ==>
      var last := items[|items| - 1].serial;
      last <= bound && Ordered(items[..|items| - 1], last)
  }

  predicate NeverFall(items: seq<Item>) {
    forall i, j :: 0 <= i < j < |items| ==> items[i].serial <= items[j].serial
  }

  predicate AllUpTo(items: seq<Item>, bound: nat) {
    forall i :: 0 <= i < |items| ==> items[i].serial <= bound
  }

  lemma {:induction false} OrderedMeans(items: seq<Item>, bound: nat)
    ensures Ordered(items, bound) <==> NeverFall(items) && AllUpTo(items, bound)
  {
    if |items| == 0 {
    } else {
      var n := |items| - 1;
      var front, last := items[..n], items[n].serial;
      OrderedMeans(front, last);
      if Ordered(items, bound) {
        forall i, j | 0 <= i < j <= n
          ensures items[i].serial <= items[j].serial
        {
          assert items[i] == front[i] && (j < n ==> items[j] == front[j]);
        }
        forall i | 0 <= i <= n
          ensures items[i].serial <= bound
        {
          if i < n { assert items[i] == front[i]; }
        }
      }
      if NeverFall(items) && AllUpTo(items, bound) {
        forall i, j | 0 <= i < j < n
          ensures front[i].serial <= front[j].serial
        {
          assert items[i] == front[i] && items[j] == front[j];
        }
        forall i | 0 <= i < n
          ensures front[i].serial <= last
        {
          assert items[i] == front[i];
        }
      }
    }
  }

  lemma {:induction false} OrderedRest(items: seq<Item>, bound: nat)
    requires Ordered(items, bound) && |items| > 0
    ensures Ordered(items[1..], bound)
  {
    var last := items[|items| - 1].serial;
    if |items| == 1 {
    } else {
      OrderedRest(items[..|items| - 1], last);
      assert items[1..][..|items| - 2] == items[..|items| - 1][1..];
    }
  }

  lemma {:induction false} TotalsOfRest(items: seq<Item>, node: nat)
    requires items != []
    ensures TotalBytes(items, node) == items[0].pkt.Bytes() + node + TotalBytes(items[1..], node)
    ensures TotalLength(items) == items[0].pkt.Length() + TotalLength(items[1..])
  {
    if |items| == 1 {
    } else {
      TotalsOfRest(items[..|items| - 1], node);
      assert items[1..][..|items| - 2] == items[..|items| - 1][1..];
    }
  }

  /** What nb_packets, size and duration must be. */
  predicate Counted(q: Queue, node: nat, nbPackets: int, size: int, duration: int) {
    && nbPackets == |q.items| && size == TotalBytes(q.items, node) && duration == TotalLength(q.items)
    && SerialsOrdered(q)
  }

  lemma PutKeeps(q: Queue, p: Packet, node: nat, nb: int, size: int, duration: int)
    requires Counted(q, node, nb, size, duration) && !q.abort
    ensures Counted(Put(q, p), node, nb + 1, size + p.Bytes() + node, duration + p.Length())
  {
    assert Put(q, p).items[..|q.items|] == q.items;
  }

  lemma RestKeeps(q: Queue, node: nat, nb: int, size: int, duration: int)
    requires Counted(q, node, nb, size, duration) && q.items != []
    ensures Counted(Rest(q), node, nb - 1, size - (q.items[0].pkt.Bytes() + node), duration - q.items[0].pkt.Length())
  {
    TotalsOfRest(q.items, node);
    OrderedRest(q.items, q.serial);
  }

  // ---------------------------------------------------------------------------------------------
  // Order over any sequence of operations

  datatype Op = OpPut(p: Packet) | OpGet | OpClear | OpStart | OpAbort

  /** The queue, every item it ever accepted, and every item that left it: delivered, or thrown away by a flush. */
  datatype Ledger = Ledger(q: Queue, accepted: seq<Item>, left: seq<(Item, bool)>)

  function Do(l: Ledger, op: Op): Ledger {
    match op
    case OpPut(p) => Note(l, Put(l.q, p), l.q.items)
    case OpStart => Note(l, Started(l.q), l.q.items)
    case OpGet =>
      if l.q.abort || l.q.items == [] then l
      else l.(q := Rest(l.q), left := l.left + [(l.q.items[0], true)])
    case OpClear => l.(q := Cleared(l.q), left := l.left + Discarded(l.q.items))
    case OpAbort => l.(q := Aborted(l.q))
  }

  function Note(l: Ledger, q: Queue, before: seq<Item>): Ledger
    requires |before| <= |q.items|
  {
    Ledger(q, l.accepted + q.items[|before|..], l.left)
  }

  function Discarded(items: seq<Item>): seq<(Item, bool)> {
    if items == [] then [] else [(items[0], false)] + Discarded(items[1..])
  }

  function DoAll(ops: seq<Op>): Ledger {
    if ops == [] then Ledger(Queue([], 0, true), [], [])
    else Do(DoAll(ops[..|ops| - 1]), ops[|ops| - 1])
  }

  function Gone(left: seq<(Item, bool)>): seq<Item> {
    if left == [] then [] else Gone(left[..|left| - 1]) + [left[|left| - 1].0]
  }

  lemma {:induction false} GoneAppend(a: seq<(Item, bool)>, b: seq<(Item, bool)>)
    ensures Gone(a + b) == Gone(a) + Gone(b)
  {
    if b == [] {
      assert a + b == a;
    } else {
      GoneAppend(a, b[..|b| - 1]);
      assert (a + b)[..|a + b| - 1] == a + b[..|b| - 1];
    }
  }

  lemma {:induction false} DiscardedAll(items: seq<Item>)
    ensures Gone(Discarded(items)) == items
  {
    if items == [] {
    } else {
      DiscardedAll(items[1..]);
      GoneAppend([(items[0], false)], Discarded(items[1..]));
      assert Gone([(items[0], false)]) == [items[0]] by { assert [(items[0], false)][..0] == []; }
    }
  }

  ghost predicate InBalance(l: Ledger) {
    l.accepted == Gone(l.left) + l.q.items && SerialsOrdered(l.q)
  }

  lemma PutInBalance(l: Ledger, p: Packet)
    requires InBalance(l)
    ensures InBalance(Note(l, Put(l.q, p), l.q.items))
  {
    var items, more := l.q.items, Put(l.q, p).items;
    assert more[..|items|] == items;
    assert more == items + more[|items|..];
    assert Gone(l.left) + (items + more[|items|..]) == (Gone(l.left) + items) + more[|items|..];
  }

  lemma GetInBalance(l: Ledger)
    requires InBalance(l) && |l.q.items| > 0
    ensures InBalance(l.(q := Rest(l.q), left := l.left + [(l.q.items[0], true)]))
  {
    var one := [(l.q.items[0], true)];
    OrderedRest(l.q.items, l.q.serial);
    GoneAppend(l.left, one);
    assert Gone(one) == [l.q.items[0]] by { assert one[..0] == []; }
    assert Gone(l.left) + l.q.items == (Gone(l.left) + [l.q.items[0]]) + l.q.items[1..];
  }

  lemma ClearInBalance(l: Ledger)
    requires InBalance(l)
    ensures InBalance(l.(q := Cleared(l.q), left := l.left + Discarded(l.q.items)))
  {
    DiscardedAll(l.q.items);
    GoneAppend(l.left, Discarded(l.q.items));
    assert Gone(l.left) + l.q.items == (Gone(l.left) + l.q.items) + [];
  }

  /**
   First in, first out: whatever the operations, what has left, delivered or flushed, followed by what is
   queued is exactly what was accepted, in order; and serials stay ordered.
   */
  lemma {:induction false} FirstInFirstOut(ops: seq<Op>)
    ensures InBalance(DoAll(ops))
  {
    if ops == [] {
    } else {
      FirstInFirstOut(ops[..|ops| - 1]);
      var l := DoAll(ops[..|ops| - 1]);
      match ops[|ops| - 1]
      case OpPut(p) => PutInBalance(l, p);
      case OpStart => PutInBalance(l.(q := l.q.(abort := false)), Flush);
      case OpGet => if !l.q.abort && |l.q.items| > 0 { GetInBalance(l); }
      case OpClear => ClearInBalance(l);
      case OpAbort =>
    }
  }

  /** Before the first start, and from an abort to the next start, nothing is taken. */
  predicate Shut(ops: seq<Op>) {
    |ops| == 0 || ops[|ops| - 1].OpAbort? || (!ops[|ops| - 1].OpStart? && Shut(ops[..|ops| - 1]))
  }

  /** The packets taken, by the operations alone: those put while the queue is open, and a flush packet a start. */
  function Taken(ops: seq<Op>): seq<Packet> {
    if |ops| == 0 then [] else Taken(ops[..|ops| - 1]) + OwnTaken(Shut(ops[..|ops| - 1]), ops[|ops| - 1])
  }

  function OwnTaken(shut: bool, op: Op): seq<Packet> {
    match op
    case OpPut(p) => if shut then [] else [p]
    case OpStart => [Flush]
    case _ => []
  }

  function Flushes(pkts: seq<Packet>): nat {
    if |pkts| == 0 then 0 else Flushes(pkts[..|pkts| - 1]) + if pkts[|pkts| - 1].Flush? then 1 else 0
  }

  /** Every packet under the number of flush packets up to and including it. */
  predicate Numbered(items: seq<Item>, pkts: seq<Packet>) {
    && |items| == |pkts|
    && forall k :: 0 <= k < |items| ==> items[k] == Item(pkts[k], Flushes(pkts[..k + 1]))
  }

  lemma NumberedMore(items: seq<Item>, pkts: seq<Packet>, p: Packet)
    requires Numbered(items, pkts)
    ensures Flushes(pkts + [p]) == Flushes(pkts) + (if p.Flush? then 1 else 0)
    ensures Numbered(items + [Item(p, Flushes(pkts + [p]))], pkts + [p])
  {
    var more := pkts + [p];
    assert more[..|pkts|] == pkts && more[..|more|] == more;
    var item := Item(p, Flushes(more));
    forall k | 0 <= k < |more| ensures (items + [item])[k] == Item(more[k], Flushes(more[..k + 1])) {
      if k < |pkts| { assert more[..k + 1] == pkts[..k + 1] && items[k] == Item(pkts[k], Flushes(pkts[..k + 1])); }
    }
  }

  lemma PutAdds(q: Queue, p: Packet)
    requires !q.abort
    ensures Put(q, p).items[|q.items|..] == [Item(p, Put(q, p).serial)]
  {
  }

  predicate Agrees(l: Ledger, pkts: seq<Packet>, shut: bool) {
    Numbered(l.accepted, pkts) && l.q.serial == Flushes(pkts) && l.q.abort == shut
  }

  lemma AgreesAfterPut(l: Ledger, pkts: seq<Packet>, p: Packet)
    requires Agrees(l, pkts, false)
    ensures Agrees(Note(l, Put(l.q, p), l.q.items), pkts + [p], false)
  {
    NumberedMore(l.accepted, pkts, p);
    PutAdds(l.q, p);
  }

  lemma AgreesAfter(l: Ledger, pkts: seq<Packet>, shut: bool, op: Op)
    requires Agrees(l, pkts, shut)
    ensures Agrees(Do(l, op), pkts + OwnTaken(shut, op), op.OpAbort? || (!op.OpStart? && shut))
  {
    assert l.accepted + [] == l.accepted && pkts + [] == pkts;
    match op
    case OpPut(p) => if !shut { AgreesAfterPut(l, pkts, p); }
    case OpStart => AgreesAfterPut(l.(q := l.q.(abort := false)), pkts, Flush);
    case _ =>
  }

  /** What the queue accepted is what was put while it was open, each packet under its serial. */
  lemma {:induction false} AcceptedIs(ops: seq<Op>)
    ensures Agrees(DoAll(ops), Taken(ops), Shut(ops))
  {
    if |ops| == 0 {
    } else {
      var front, op := ops[..|ops| - 1], ops[|ops| - 1];
      AcceptedIs(front);
      AgreesAfter(DoAll(front), Taken(front), Shut(front), op);
    }
  }

  // ---------------------------------------------------------------------------------------------
  // The code

  /** MyAVPacketList; only next changes after a node has been filled. Ranks keep the nodes of a list apart. */
  class Node {
    const pkt: Packet
    const serial: nat
    ghost const rank: int
    var next: Node?

    constructor (pkt: Packet, serial: nat, ghost rank: int)
      ensures this.pkt == pkt && this.serial == serial && this.rank == rank && next == null
    {
      this.pkt, this.serial, this.rank, next := pkt, serial, rank, null;
    }
  }

  /** The fields first_pkt and last_pkt and the list between them. */
  class Links {
    var first: Node?
    var last: Node?
    ghost var nodes: seq<Node>
    ghost var items: seq<Item>
    ghost var offset: int

    ghost predicate Valid()
      reads this`first, this`last, this`nodes, this`items, this`offset, nodes`next
    {
      && |items| == |nodes|
      && (forall i :: 0 <= i < |nodes| ==>
            items[i] == Item(nodes[i].pkt, nodes[i].serial) && nodes[i].rank == offset + i)
      && (forall i :: 0 <= i < |nodes| - 1 ==> nodes[i].next == nodes[i + 1])
      && (nodes == [] ==> first == null && last == null)
      && (nodes != [] ==> first == nodes[0] && last == nodes[|nodes| - 1] && nodes[|nodes| - 1].next == null)
    }

    constructor ()
      ensures Valid() && items == []
    {
      first, last, nodes, items := null, null, [], [];
    }

    /** The pointer part of a put. */
    method Append(pkt: Packet, serial: nat)
      requires Valid()
      modifies this`first, this`last, this`nodes, this`items, nodes`next
      ensures Valid() && items == old(items) + [Item(pkt, serial)]
      ensures nodes[..|nodes| - 1] == old(nodes) && fresh(nodes[|nodes| - 1])
    {
      var node := new Node(pkt, serial, offset + |nodes|);
      if last == null {
        first := node;
      } else {
        last.next := node;
      }
      last := node;
      nodes, items := nodes + [node], items + [Item(pkt, serial)];
    }

    /** The pointer part of a get. */
    method Remove() returns (node: Node)
      requires Valid() && items != []
      modifies this
      ensures Valid() && Item(node.pkt, node.serial) == old(items)[0] && items == old(items)[1..]
      ensures nodes == old(nodes)[1..]
    {
      node := first;
      first := node.next;
      if first == null { last := null; }
      nodes, items, offset := nodes[1..], items[1..], offset + 1;
    }

    /** The walk that frees every node. */
    method Clear()
      requires Valid()
      modifies this
      ensures Valid() && items == [] && nodes == []
    {
      var node := first;
      ghost var i := 0;
      while node != null
        invariant 0 <= i <= |nodes| && node == if i < |nodes| then nodes[i] else null
        decreases |nodes| - i
      {
        node := node.next;
        i := i + 1;
      }
      last, first := null, null;
      nodes, items := [], [];
    }
  }

  /** What packet_queue_get finds under the lock; MustWait is the SDL_CondWait of a blocking call. */
  datatype Found = IsAborted | Got(pkt: Packet, serial: nat) | Empty | MustWait

  /** PacketQueue: the list and its totals. nodeSize is sizeof(MyAVPacketList). */
  class PacketList {
    const nodeSize: nat
    const links: Links
    var nbPackets: int
    var size: int
    var duration: int
    var abortRequest: bool
    var serial: nat

    ghost predicate Valid()
      reads this, links, links.nodes`next
    {
      links.Valid() && Counted(Meaning(), nodeSize, nbPackets, size, duration)
    }

    ghost function Meaning(): Queue
      reads this`serial, this`abortRequest, links`items
    {
      Queue(links.items, serial, abortRequest)
    }

    /** packet_queue_init. */
    constructor (nodeSize: nat)
      ensures Valid() && this.nodeSize == nodeSize && Meaning() == Queue([], 0, true)
    {
      this.nodeSize := nodeSize;
      links := new Links();
      nbPackets, size, duration, serial, abortRequest := 0, 0, 0, 0, true;
    }

    /** The totals part of a put onto a list that means q. */
    method Account(pkt: Packet, ghost q: Queue)
      requires Counted(q, nodeSize, nbPackets, size, duration) && !q.abort
      modifies this`nbPackets, this`size, this`duration
      ensures Counted(Put(q, pkt), nodeSize, nbPackets, size, duration)
    {
      PutKeeps(q, pkt, nodeSize, nbPackets, size, duration);
      nbPackets := nbPackets + 1;
      size := size + pkt.Bytes() + nodeSize;
      duration := duration + pkt.Length();
    }

    /** The serial and pointer part. */
    method Link(pkt: Packet)
      requires links.Valid() && !abortRequest
      modifies this`serial, links, links.nodes`next
      ensures links.Valid() && Meaning() == Put(old(Meaning()), pkt)
    {
      if pkt.Flush? { serial := serial + 1; }
      links.Append(pkt, serial);
    }

    method PutPrivate(pkt: Packet) returns (ok: bool)
      requires Valid()
      modifies this, links, links.nodes`next
      ensures Valid() && ok == !old(abortRequest)
      ensures Meaning() == Put(old(Meaning()), pkt)
    {
      if abortRequest { return false; }
      ghost var q := Meaning();
      Link(pkt);
      Account(pkt, q);
      ok := true;
    }

    method Get(block: bool) returns (found: Found)
      requires Valid()
      modifies this, links
      ensures Valid()
      ensures var q := old(Meaning());
        match found
        case IsAborted => q.abort && Meaning() == q
        case Got(p, s) => !q.abort && q.items != [] && Item(p, s) == q.items[0] && Meaning() == Rest(q)
        case Empty => !q.abort && q.items == [] && !block && Meaning() == q
        case MustWait => !q.abort && q.items == [] && block && Meaning() == q
    {
      if abortRequest { return IsAborted; }
      if links.first == null {
        return if block then MustWait else Empty;
      }
      RestKeeps(Meaning(), nodeSize, nbPackets, size, duration);
      var node := links.Remove();
      nbPackets := nbPackets - 1;
      size := size - (node.pkt.Bytes() + nodeSize);
      duration := duration - node.pkt.Length();
      found := Got(node.pkt, node.serial);
    }

    /** packet_queue_flush. */
    method FlushAll()
      requires Valid()
      modifies this, links
      ensures Valid() && Meaning() == Cleared(old(Meaning())) && nbPackets == size == duration == 0
    {
      links.Clear();
      nbPackets, size, duration := 0, 0, 0;
    }

    method Resume()
      requires Valid()
      modifies this`abortRequest
      ensures Valid() && Meaning() == old(Meaning()).(abort := false)
    {
      abortRequest := false;
    }

    method Start()
      requires Valid()
      modifies this, links, links.nodes
      ensures Valid() && Meaning() == Started(old(Meaning()))
    {
      Resume();
      var ok := PutPrivate(Flush);
    }

    method Abort()
      requires Valid()
      modifies this`abortRequest
      ensures Valid() && Meaning() == Aborted(old(Meaning()))
    {
      abortRequest := true;
    }
  }
}
