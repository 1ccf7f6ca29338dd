/** One connection: its per-session block and the part of libwebsockets it talks to. */
module ConnectionBlock {
  import opened Jansson
  import opened Pipeline
  import opened MessageQueue

  /** libwebsockets' side of a connection: whether a writable callback is pending, and what was written. */
  class Wsi {
    var pending: bool
    ghost var wire: seq<Packet>

    constructor ()
      ensures !pending && wire == []
    {
      pending := false;
      wire := [];
    }

    method CallbackOnWritable()
      modifies this`pending
      ensures pending
    {
      pending := true;
    }

    method Write(data: Json, ghost origin: Origin)
      modifies this`wire
      ensures wire == old(wire) + [Packet(data, origin)]
    {
      wire := wire + [Packet(data, origin)];
    }
  }

  class Connection {
    var wsi: Wsi
    const messages: Queue
    /** Bookkeeping: everything that was ever queued since the connection was established. */
    ghost var accepted: seq<Packet>
    /** The block, its parts and the messages in its queue; a message that was given back is no part of it. */
    ghost var Repr: set<object>

    ghost predicate Valid()
      reads this, Repr
      ensures Valid() ==> this in Repr
    {
      && this in Repr && messages in Repr && wsi in Repr
      && (forall m :: m in messages.nodes ==> m in Repr)
      && messages.Valid()
    }

    ghost function AsLink(): Link
      reads this, messages, wsi
    {
      Link(messages.contents, wsi.pending, accepted, wsi.wire)
    }

    /** A block as libwebsockets hands it over: nothing is known of the queue in it. */
    constructor ()
      ensures fresh(messages) && fresh(wsi) && Repr == {this, messages, wsi}
    {
      messages := new Queue();
      wsi := new Wsi();
      accepted := [];
      new;
      Repr := {this, messages, wsi};
    }

    /** Whatever the block was used for before, the connection starts empty. */
    method Init(wsi: Wsi)
      requires wsi.wire == [] && !wsi.pending
      modifies this, messages
      ensures Valid() && Repr == {this, messages, wsi}
      ensures messages.nodes == [] && AsLink() == NEW_LINK
    {
      this.wsi := wsi;
      messages.Init();
      accepted := [];
      Repr := {this, messages, wsi};
    }

    /** Queues a message and asks for a callback, unless there is no memory for the message. */
    method Send(allocator: Allocator, value: Json, memory: bool, ghost origin: Origin)
        returns (ghost message: Message?)
      requires Valid()
      modifies Repr, allocator
      ensures Valid() && fresh(Repr - old(Repr)) && old(Repr) <= Repr
      ensures message != null <==> memory
      ensures allocator.all == old(allocator.all) + if message == null then {} else {message}
      ensures message == null ==>
                AsLink() == old(AsLink()) && messages.nodes == old(messages.nodes) && Repr == old(Repr)
      ensures message != null ==>
                && fresh(message) && Repr == old(Repr) + {message}
                && messages.nodes == old(messages.nodes) + [message]
                && AsLink() == Accept(old(AsLink()), Packet(value, origin))
    {
      var created := CreateMessage(allocator, value, memory, origin);
      if created != null {
        messages.Append(created);
        wsi.CallbackOnWritable();
        accepted := accepted + [Packet(value, origin)];
        Repr := Repr + {created};
      }
      message := created;
    }

    /** The writable callback: its being delivered uses up the request for it. Takes the first message out of the
        queue, writes it and gives it back. */
    method WriteOne()
      requires Valid()
      modifies Repr
      ensures Valid()
      ensures if old(messages.nodes) == [] then messages.nodes == [] && Repr == old(Repr)
              else
                var head := old(messages.nodes)[0];
                head.disposed && messages.nodes == old(messages.nodes)[1..] && Repr == old(Repr) - {head}
      ensures AsLink() == Pipeline.WriteOne(old(AsLink()))
    {
      wsi.pending := false;
      var empty := messages.IsEmpty();
      if !empty {
        var head := messages.Dequeue();
        wsi.Write(head.data, head.origin);
        head.Dispose();
        Repr := Repr - {head};
      }
    }

    /** The tail of every callback. */
    method Rearm()
      requires Valid()
      modifies Repr
      ensures Valid() && Repr == old(Repr) && messages.nodes == old(messages.nodes)
      ensures AsLink() == Pipeline.Rearm(old(AsLink()))
    {
      var empty := messages.IsEmpty();
      if !empty {
        wsi.CallbackOnWritable();
      }
    }

    method Cleanup()
      requires Valid()
      modifies Repr
      ensures Valid() && messages.nodes == []
      ensures Repr == old(Repr) - set m | m in old(messages.nodes)
      ensures forall m :: m in old(messages.nodes) ==> m.disposed
    {
      Repr := Repr - set m | m in messages.nodes;
      messages.Cleanup();
    }
  }
}
