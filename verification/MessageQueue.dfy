/** The intrusive message queue: a singly linked list of heap-allocated messages with a pointer to its last one. */
module MessageQueue {
  import opened Jansson
  import opened Pipeline

  /** The allocator of messages. It knows every message that was ever allocated. */
  class Allocator {
    ghost var all: set<Message>

    constructor ()
      ensures all == {}
    {
      all := {};
    }
  }

  /** A message on the heap. Its text is represented by the value it denotes. */
  class Message {
    var next: Message?
    var data: Json
    /** Bookkeeping: the broadcast the message belongs to, and whether its memory was given back. */
    ghost var origin: Origin
    ghost var disposed: bool

    constructor (allocator: Allocator, value: Json, ghost origin: Origin)
      modifies allocator
      ensures next == null && data == value && this.origin == origin && !disposed
      ensures allocator.all == old(allocator.all) + {this}
    {
      next := null;
      data := value;
      this.origin := origin;
      disposed := false;
      new;
      allocator.all := allocator.all + {this};
    }

    ghost function AsPacket(): Packet
      reads this
    {
      Packet(data, origin)
    }

    /** Gives the memory back. It must not have been given back before, and nothing is known of the contents
        of the message any more. */
    method Dispose()
      requires !disposed
      modifies this
      ensures disposed
    {
      disposed := true;
    }
  }

  /** A new message, or null when there is no memory for it. Nothing else is allocated. */
  method CreateMessage(allocator: Allocator, value: Json, memory: bool, ghost origin: Origin)
      returns (message: Message?)
    modifies allocator
    ensures message != null <==> memory
    ensures allocator.all == old(allocator.all) + if message == null then {} else {message}
    ensures message != null ==>
              fresh(message) && !message.disposed && message.next == null && message.AsPacket() == Packet(value, origin)
  {
    if memory {
      message := new Message(allocator, value, origin);
    } else {
      message := null;
    }
  }

  class Queue {
    var first: Message?
    var last: Message?
    /** The messages reachable from `first`, in order. */
    ghost var nodes: seq<Message>
    /** What those messages say: the sequence that the queue stands for. */
    ghost var contents: seq<Packet>

    ghost predicate Valid()
      reads this, nodes
    {
      && (first == null <==> nodes == [])
      && (last == null <==> nodes == [])
      && (nodes != [] ==> first == nodes[0] && last == nodes[|nodes| - 1] && last.next == null)
      && (forall i :: 0 <= i < |nodes| - 1 ==> nodes[i].next == nodes[i + 1])
      && (forall i, j :: 0 <= i < j < |nodes| ==> nodes[i] != nodes[j])
      && (forall m :: m in nodes ==> !m.disposed)
      && |contents| == |nodes|
      && (forall i :: 0 <= i < |nodes| ==> contents[i] == nodes[i].AsPacket())
    }

    /** A queue in memory that nobody has initialized yet. */
    constructor ()
    {
    }

    method Init()
      modifies this
      ensures Valid() && nodes == [] && contents == []
    {
      first := null;
      last := null;
      nodes, contents := [], [];
    }

    method IsEmpty() returns (empty: bool)
      requires Valid()
      ensures empty <==> contents == []
    {
      empty := first == null;
    }

    /** Whatever `next` the message comes with, from another queue perhaps, is overwritten. */
    method Append(message: Message)
      requires Valid() && message !in nodes && !message.disposed
      modifies this, message`next, (set m | m in nodes)`next
      ensures Valid() && nodes == old(nodes) + [message]
      ensures contents == old(contents) + [message.AsPacket()]
    {
      message.next := null;
      if last != null {
        assert last == nodes[|nodes| - 1];
        last.next := message;
        last := message;
      } else {
        first := message;
        last := message;
      }
      nodes, contents := nodes + [message], contents + [message.AsPacket()];
    }

    /** The message taken out keeps its `next` pointer into the queue. */
    method Dequeue() returns (message: Message?)
      requires Valid()
      modifies this
      ensures Valid()
      ensures message == null <==> old(nodes) == []
      ensures message == null ==> nodes == []
      ensures message != null ==>
                && message == old(nodes)[0] && message !in nodes && nodes == old(nodes)[1..]
                && contents == old(contents)[1..] && message.AsPacket() == old(contents)[0]
                && (nodes != [] ==> message.next == nodes[0])
    {
      message := first;
      if message != null {
        assert |nodes| > 1 ==> nodes[0].next == nodes[1];
        first := first.next;
        if first == null {
          last := null;
        }
        assert old(nodes)[0] !in old(nodes)[1..];
        nodes, contents := nodes[1..], contents[1..];
      }
    }

    /** Gives every message of the queue back, each once, and leaves an empty queue that can be used again. */
    method Cleanup()
      requires Valid()
      modifies this, nodes
      ensures Valid() && nodes == [] && contents == []
      ensures forall m :: m in old(nodes) ==> m.disposed
    {
      var message := first;
      ghost var k := 0;
      while message != null
        invariant 0 <= k <= |nodes|
        invariant message == if k < |nodes| then nodes[k] else null
        invariant first == old(first) && last == old(last) && nodes == old(nodes)
        invariant forall i :: 0 <= i < k ==> nodes[i].disposed
        invariant forall i :: k <= i < |nodes| ==> !nodes[i].disposed && nodes[i].next == old(nodes[i].next)
        decreases |nodes| - k
      {
        var next := message.next;
        assert next == if k + 1 < |nodes| then nodes[k + 1] else null;
        message.Dispose();
        message := next;
        k := k + 1;
      }
      Init();
    }
  }
}
