/** The send buffer between the encoders and the sending thread: a linked list used as a queue. */
module SendQueue {
  import opened Bytes

  /** A packet waiting to be sent; `key` is the frame type stored in its list node. */
  datatype Frame = Frame(timestamp: uint32, typ: byte, size: nat, key: bool)

  /** What the buffer is worth: the packets waiting, oldest first, and the three time fields. */
  datatype Queue = Queue(waiting: seq<Frame>, lastTime: uint32, lastKeyTime: uint32, beginTime: uint32)

  const EMPTY_QUEUE := Queue([], 0, 0, 0)

  function Put(q: Queue, f: Frame): Queue {
    Queue(q.waiting + [f], f.timestamp, if f.key then f.timestamp else q.lastKeyTime, q.beginTime)
  }

  function Get(q: Queue): (Option<Frame>, Queue) {
    if q.waiting == [] then (None, q)
    else (Some(q.waiting[0]), q.(waiting := q.waiting[1..], beginTime := q.waiting[0].timestamp))
  }

  class Node {
    var packet: Frame
    var next: Node?

    constructor (packet: Frame)
      ensures this.packet == packet && next == null
    {
      this.packet := packet;
      next := null;
    }
  }

  class RTMPBuffer {
    var first: Node?
    var last: Node?
    var packetCount: nat
    var lastTime: uint32
    var lastKeyTime: uint32
    var beginTime: uint32
    /** The nodes on the list, in list order. */
    ghost var nodes: seq<Node>
    ghost var Repr: set<object>

    /** The list is acyclic and `last` ends it, except that `last` may be stale while the list is empty. */
    ghost predicate Valid()
      reads this, Repr
      ensures Valid() ==> this in Repr
    {
      && this in Repr && (forall i :: 0 <= i < |nodes| ==> nodes[i] in Repr)
      && (forall i, j :: 0 <= i < j < |nodes| ==> nodes[i] != nodes[j])
      && (forall i {:trigger nodes[i].next} :: 0 <= i < |nodes| - 1 ==> nodes[i].next == nodes[i + 1])
      && (nodes != [] ==> nodes[|nodes| - 1].next == null)
      && first == (if nodes == [] then null else nodes[0])
      && (nodes != [] ==> last == nodes[|nodes| - 1])
      && packetCount == |nodes|
    }

    ghost function Model(): Queue
      requires Valid()
      reads this, Repr
    {
      Queue(seq(|nodes|, i requires Valid() && 0 <= i < |nodes| reads this, Repr => nodes[i].packet),
            lastTime, lastKeyTime, beginTime)
    }

    constructor ()
      ensures Valid() && fresh(Repr) && Model() == EMPTY_QUEUE
    {
      first, last, packetCount := null, null, 0;
      lastTime, lastKeyTime, beginTime := 0, 0, 0;
      nodes, Repr := [], {this};
    }

    method PutBuffer(f: Frame)
      requires Valid()
      modifies Repr
      ensures Valid() && fresh(Repr - old(Repr)) && Model() == Put(old(Model()), f)
    {
      var node := new Node(f);
      if first == null {
        first := node;
        last := node;
      } else if last != null {
        last.next := node;
        last := node;
      } else {
        // a non-empty list always has a last node: the source's self-linking branch is never taken
        assert false;
      }
      if f.key {
        lastKeyTime := f.timestamp;
      }
      packetCount := packetCount + 1;
      lastTime := f.timestamp;
      nodes, Repr := nodes + [node], Repr + {node};
    }

    /** The node taken off the list is the caller's to free. */
    method GetBuffer() returns (node: Node?)
      requires Valid()
      modifies this
      ensures Valid() && Repr == old(Repr) && Model() == Get(old(Model())).1
      ensures Get(old(Model())).0 == if node == null then None else Some(node.packet)
      ensures node != null ==> node !in nodes
    {
      if first == null {
        return null;
      }
      node := first;
      first := first.next;
      packetCount := packetCount - 1;
      beginTime := node.packet.timestamp;
      nodes := nodes[1..];
    }
  }

  datatype Operation = PutOp(frame: Frame) | GetOp

  function Apply(q: Queue, op: Operation): Queue {
    match op
    case PutOp(f) => Put(q, f)
    case GetOp => Get(q).1
  }

  function ApplyAll(q: Queue, ops: seq<Operation>): Queue {
    if ops == [] then q else Apply(ApplyAll(q, ops[..|ops| - 1]), ops[|ops| - 1])
  }

  /** Everything put by a run, in order. */
  function PutsOf(ops: seq<Operation>): seq<Frame> {
    if ops == [] then []
    else
      PutsOf(ops[..|ops| - 1]) + (if ops[|ops| - 1].PutOp? then [ops[|ops| - 1].frame] else [])
  }

  /** Everything a run takes out of the queue, in order. */
  function GotOf(q: Queue, ops: seq<Operation>): seq<Frame> {
    if ops == [] then []
    else
      var before := ops[..|ops| - 1];
      var got := Get(ApplyAll(q, before)).0;
      GotOf(q, before) + (if ops[|ops| - 1].GetOp? && got.Some? then [got.value] else [])
  }

  function LastTime(fs: seq<Frame>): uint32 {
    if fs == [] then 0 else fs[|fs| - 1].timestamp
  }

  function LastKeyTime(fs: seq<Frame>): uint32 {
    if fs == [] then 0
    else if fs[|fs| - 1].key then fs[|fs| - 1].timestamp
    else LastKeyTime(fs[..|fs| - 1])
  }

  lemma QueueStep(q: Queue, got: seq<Frame>, put: seq<Frame>, op: Operation)
    requires got + q.waiting == put && q.lastTime == LastTime(put) && q.lastKeyTime == LastKeyTime(put)
    requires q.beginTime == LastTime(got)
    ensures
      var after, taken := Apply(q, op), if op.GetOp? && Get(q).0.Some? then [Get(q).0.value] else [];
      var more := put + if op.PutOp? then [op.frame] else [];
      && got + taken + after.waiting == more
      && after.lastTime == LastTime(more) && after.lastKeyTime == LastKeyTime(more)
      && after.beginTime == LastTime(got + taken)
  {
    if op.PutOp? {
      assert (put + [op.frame])[..|put|] == put;
      assert got + [] == got;
    } else {
      assert put + [] == put && got + [] == got;
      if q.waiting != [] {
        assert q.waiting == [q.waiting[0]] + q.waiting[1..];
      }
    }
  }

  /** First in, first out, over any run; the time fields are those of the last put, the last key put and the last
    * got. */
  lemma {:induction false} QueueRun(ops: seq<Operation>)
    ensures GotOf(EMPTY_QUEUE, ops) + ApplyAll(EMPTY_QUEUE, ops).waiting == PutsOf(ops)
    ensures ApplyAll(EMPTY_QUEUE, ops).lastTime == LastTime(PutsOf(ops))
    ensures ApplyAll(EMPTY_QUEUE, ops).lastKeyTime == LastKeyTime(PutsOf(ops))
    ensures ApplyAll(EMPTY_QUEUE, ops).beginTime == LastTime(GotOf(EMPTY_QUEUE, ops))
  {
    if ops != [] {
      var before, op := ops[..|ops| - 1], ops[|ops| - 1];
      QueueRun(before);
      QueueStep(ApplyAll(EMPTY_QUEUE, before), GotOf(EMPTY_QUEUE, before), PutsOf(before), op);
    }
  }

  /** Runs a list of operations on a real list, collecting what is taken out. */
  method RunBuffer(ops: seq<Operation>) returns (b: RTMPBuffer, got: seq<Frame>)
    ensures b.Valid() && b.Model() == ApplyAll(EMPTY_QUEUE, ops)
    ensures got + b.Model().waiting == PutsOf(ops)
    ensures b.packetCount == |PutsOf(ops)| - |got|
  {
    b := new RTMPBuffer();
    got := [];
    for i := 0 to |ops|
      invariant b.Valid() && fresh(b.Repr)
      invariant b.Model() == ApplyAll(EMPTY_QUEUE, ops[..i])
      invariant got == GotOf(EMPTY_QUEUE, ops[..i])
    {
      assert ops[..i + 1][..i] == ops[..i] && ops[..i + 1][i] == ops[i];
      if ops[i].PutOp? {
        b.PutBuffer(ops[i].frame);
      } else {
        var node := b.GetBuffer();
        if node != null {
          got := got + [node.packet];
        }
      }
    }
    assert ops[..|ops|] == ops;
    QueueRun(ops);
  }
}
