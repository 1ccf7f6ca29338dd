/** All connections of a server on one heap, each with its own queue, and the books of all their messages. */
module Network {
  import opened Jansson
  import opened Pipeline
  import opened MessageQueue
  import opened ConnectionBlock

  /** The per-session blocks libwebsockets has handed out. */
  class Table {
    /** The blocks by address, and which of them are in use. */
    var blocks: map<Address, Connection>
    var live: set<Address>
    /** What the open connections amount to, and the records of the closed ones. */
    ghost var net: Net
    /** Which block each object belongs to. */
    ghost var owner: map<object, Address>
    /** All objects in use. A message that was given back is not among them. */
    ghost var Repr: set<object>

    /** A block in use stands for its link; an unused one holds no messages. */
    ghost predicate Intact(a: Address)
      requires a in blocks
      reads this, blocks[a], blocks[a].Repr
    {
      && blocks[a].Valid()
      && (if a in live then a in net.links && net.links[a] == blocks[a].AsLink()
          else blocks[a].messages.nodes == [])
    }

    /** No object belongs to two blocks. */
    ghost predicate Owned(a: Address)
      requires a in blocks
      reads this, blocks[a]
    {
      && blocks[a] in blocks[a].Repr && blocks[a].messages in blocks[a].Repr && blocks[a].Repr <= Repr
      && forall o :: o in blocks[a].Repr ==> o in owner && owner[o] == a
    }

    /** All blocks are as they should be, but that of one address perhaps. */
    ghost predicate ValidBut(except: int)
      reads this, Repr
      ensures ValidBut(except) ==> this in Repr
    {
      && this in Repr && this !in owner
      && net.links.Keys == live <= blocks.Keys
      && (forall a :: a in blocks ==> blocks[a] in Repr && blocks[a].messages in Repr)
      && (forall a {:trigger Owned(a)} :: a in blocks && a != except ==> Owned(a))
      && (forall a {:trigger Intact(a)} :: a in blocks && a != except ==> Owned(a) && Intact(a))
    }

    ghost predicate Valid()
      reads this, Repr
      ensures Valid() ==> this in Repr
    {
      ValidBut(-1)
    }

    constructor ()
      ensures Valid() && fresh(Repr) && net == NO_LINKS && live == {} && blocks == map[]
    {
      blocks, live := map[], {};
      net := NO_LINKS;
      owner := map[];
      Repr := {this};
    }

    /** What belongs to the block of an address. */
    ghost function PartsOf(a: Address): set<object>
      reads this, if a in blocks then {blocks[a]} else {}
    {
      if a in blocks then blocks[a].Repr else {}
    }

    /** Where only objects of the block of `at` were touched, the other blocks are as they were. */
    twostate lemma OthersStay(at: Address)
      requires old(Valid()) && unchanged(this)
      requires forall o {:trigger o in Repr} :: o in Repr && o !in old(PartsOf(at)) ==> unchanged(o)
      ensures ValidBut(at)
      ensures forall a :: a in blocks && a != at ==> blocks[a].messages.nodes == old(blocks[a].messages.nodes)
    {
      forall a | a in blocks && a != at
        ensures Owned(a) && Intact(a) && blocks[a].messages.nodes == old(blocks[a].messages.nodes)
      {
        assert old(Owned(a)) && old(Intact(a));
        assert at in blocks ==> old(Owned(at));
        assert forall o :: o in old(blocks[a].Repr) ==> o in Repr && o !in old(PartsOf(at));
      }
    }

    /** Where only the table itself has changed, and nothing of that concerns other blocks, they are as they were. */
    twostate lemma Rebooked(at: Address)
      requires old(ValidBut(at))
      requires forall o {:trigger o in old(Repr)} :: o in old(Repr) && o != this ==> unchanged(o)
      requires forall a {:trigger a in live} :: a != at ==> (a in live <==> a in old(live))
      requires forall a {:trigger a in blocks} :: a in blocks && a != at ==>
                 a in old(blocks) && blocks[a] == old(blocks)[a]
      requires forall a {:trigger a in live} :: a in live && a != at ==>
                 a in net.links && a in old(net.links) && net.links[a] == old(net.links)[a]
      requires forall o {:trigger o in old(owner)} :: o in old(owner) && old(owner)[o] != at ==>
                 o in owner && owner[o] == old(owner)[o] && (o in old(Repr) ==> o in Repr)
      requires this in Repr && this !in owner && net.links.Keys == live <= blocks.Keys
      requires at in blocks && Owned(at) && Intact(at)
      ensures Valid()
    {
      forall a | a in blocks && a != at ensures Owned(a) && Intact(a) {
        assert old(Owned(a)) && old(Intact(a)) && this !in old(blocks[a].Repr);
      }
    }

    /** A message to an open connection. */
    method Send(allocator: Allocator, to: Address, value: Json, memory: bool, ghost origin: Origin)
        returns (ghost message: Message?)
      requires Valid() && to in live && allocator !in Repr
      modifies Repr, allocator
      ensures Valid() && fresh(Repr - old(Repr)) && allocator !in Repr
      ensures live == old(live) && blocks == old(blocks)
      ensures net == old(net).(links := Deliver(old(net.links), Pipeline.Send(to, Packet(value, origin), memory)))
      ensures message != null <==> memory
      ensures allocator.all == old(allocator.all) + if message == null then {} else {message}
      ensures forall a :: a in blocks && a != to ==> blocks[a].messages.nodes == old(blocks[a].messages.nodes)
      ensures message != null ==> fresh(message)
      ensures owner == if message == null then old(owner) else old(owner)[message as object := to]
      ensures blocks[to].messages.nodes == old(blocks[to].messages.nodes) + if message == null then [] else [message]
    {
      message := Queue(allocator, to, value, memory, origin);
      Follow(to, message);
    }

    /** Books what has become of a block to which a message was sent. */
    ghost method Follow(to: Address, message: Message?)
      requires ValidBut(to) && to in live && this !in blocks[to].Repr && message !in owner
      requires blocks[to].Valid() && blocks[to] in blocks[to].Repr && blocks[to].messages in blocks[to].Repr
      requires forall o :: o in blocks[to].Repr && o != message ==> o in Repr && o in owner && owner[o] == to
      requires message == null || message in blocks[to].Repr
      modifies this`Repr, this`owner, this`net
      ensures Valid() && Repr == old(Repr) + if message == null then {} else {message}
      ensures owner == if message == null then old(owner) else old(owner)[message as object := to]
      ensures net == old(net.(links := net.links[to := blocks[to].AsLink()]))
      ensures forall a :: a in blocks ==> blocks[a].messages.nodes == old(blocks[a].messages.nodes)
    {
      if message != null {
        Record(to, message);
      } else {
        Release(to, {});
      }
    }

    /** Queues a message in a block, if there is memory for it. */
    method Queue(allocator: Allocator, to: Address, value: Json, memory: bool, ghost origin: Origin)
        returns (ghost message: Message?)
      requires Valid() && to in live && allocator !in Repr
      modifies Repr, allocator
      ensures unchanged(this) && ValidBut(to) && this !in blocks[to].Repr
      ensures message != null <==> memory
      ensures allocator.all == old(allocator.all) + if message == null then {} else {message}
      ensures message != null ==> fresh(message) && message in blocks[to].Repr
      ensures blocks[to].Valid() && blocks[to] in blocks[to].Repr && blocks[to].messages in blocks[to].Repr
      ensures forall o :: o in blocks[to].Repr && o != message ==> o in Repr && o in owner && owner[o] == to
      ensures net.links[to := blocks[to].AsLink()] ==
              Deliver(net.links, Pipeline.Send(to, Packet(value, origin), memory))
      ensures blocks[to].messages.nodes == old(blocks[to].messages.nodes) + if message == null then [] else [message]
      ensures forall a :: a in blocks && a != to ==> blocks[a].messages.nodes == old(blocks[a].messages.nodes)
    {
      assert Owned(to) && Intact(to);
      message := blocks[to].Send(allocator, value, memory, origin);
      OthersStay(to);
    }

    /** A message that the connection at `to` has accepted belongs to its block from now on. */
    ghost method Record(to: Address, message: Message)
      requires ValidBut(to) && to in live && this !in blocks[to].Repr && message !in owner
      requires blocks[to].Valid() && blocks[to] in blocks[to].Repr && blocks[to].messages in blocks[to].Repr
      requires forall o :: o in blocks[to].Repr && o != message ==> o in Repr && o in owner && owner[o] == to
      modifies this`Repr, this`owner, this`net
      ensures Valid() && Repr == old(Repr) + {message} && owner == old(owner)[message as object := to]
      ensures net == old(net.(links := net.links[to := blocks[to].AsLink()]))
    {
      var link := blocks[to].AsLink();
      Repr, owner := Repr + {message}, owner[message as object := to];
      net := net.(links := net.links[to := link]);
      assert Owned(to);
      assert Intact(to);
      Rebooked(to);
    }

    /** The per-session block for an address, the one it had before or a new one, initialized. */
    method Prepare(at: Address) returns (block: Connection)
      requires Valid() && at !in live
      modifies Repr
      ensures unchanged(this) && ValidBut(at)
      ensures block.Valid() && block.AsLink() == NEW_LINK && block.messages.nodes == []
      ensures block.Repr == {block, block.messages, block.wsi} && this !in block.Repr && fresh(block.Repr - Repr)
      ensures forall o :: o in block.Repr && o in owner ==> owner[o] == at
      ensures forall a :: a in blocks && a != at ==> blocks[a].messages.nodes == old(blocks[a].messages.nodes)
    {
      if at in blocks {
        assert Owned(at);
        block := blocks[at];
      } else {
        block := new Connection();
      }
      var wsi := new Wsi();
      block.Init(wsi);
      OthersStay(at);
    }

    /** A connection is established at an address that is not in use. Its block may have been used before. */
    method Establish(at: Address)
      requires Valid() && at !in live
      modifies Repr
      ensures Valid() && fresh(Repr - old(Repr))
      ensures live == old(live) + {at}
      ensures net == old(net).(links := old(net.links)[at := NEW_LINK])
      ensures at in blocks && blocks[at].messages.nodes == [] && blocks == old(blocks)[at := blocks[at]]
      ensures forall a :: a in old(blocks) && a != at ==> blocks[a].messages.nodes == old(blocks[a].messages.nodes)
      ensures forall m: Message :: m in old(owner) ==> m in owner && owner[m] == old(owner)[m]
    {
      var block := Prepare(at);
      Register(at, block);
    }

    /** Puts an initialized block into use. */
    method Register(at: Address, block: Connection)
      requires ValidBut(at) && at !in live
      requires block.Valid() && block.AsLink() == NEW_LINK
      requires block.Repr == {block, block.messages, block.wsi} && this !in block.Repr
      requires forall o :: o in block.Repr && o in owner ==> owner[o] == at
      modifies this
      ensures Valid() && Repr == old(Repr) + block.Repr
      ensures live == old(live) + {at} && blocks == old(blocks)[at := block]
      ensures net == old(net).(links := old(net.links)[at := NEW_LINK])
      ensures owner == old(owner)[block := at][block.messages := at][block.wsi := at]
    {
      blocks, live, Repr := blocks[at := block], live + {at}, Repr + block.Repr;
      owner := owner[block := at][block.messages := at][block.wsi := at];
      net := net.(links := net.links[at := NEW_LINK]);
      assert block.Valid();
      assert Owned(at);
      assert Intact(at);
      Rebooked(at);
    }

    /** The cleanup of a closed connection, whose block goes back to libwebsockets. */
    method Cleanup(at: Address)
      requires Valid() && at in live
      modifies Repr
      ensures Valid() && Repr == old(Repr) - (set m | m in old(blocks[at].messages.nodes))
      ensures live == old(live) - {at} && blocks == old(blocks)
      ensures
        var l := old(net.links)[at];
        net == Net(old(net.links) - {at}, old(net.ended) + [Ended(at, l.accepted, l.written, l.queue)])
      ensures blocks[at].messages.nodes == []
      ensures forall a :: a in blocks && a != at ==> blocks[a].messages.nodes == old(blocks[a].messages.nodes)
      ensures forall m :: m in old(blocks[at].messages.nodes) ==> m.disposed && m in old(Repr)
      ensures owner == old(owner)
    {
      ghost var nodes := set m | m in blocks[at].messages.nodes;
      Empty(at);
      Unregister(at, nodes);
    }

    /** Gives all messages of a block back. */
    method Empty(at: Address)
      requires Valid() && at in live
      modifies Repr
      ensures unchanged(this) && ValidBut(at) && this !in blocks[at].Repr
      ensures blocks[at].Valid() && blocks[at] in blocks[at].Repr && blocks[at].messages in blocks[at].Repr
      ensures forall o :: o in blocks[at].Repr ==> o in Repr && o in owner && owner[o] == at
      ensures forall m :: m in old(blocks[at].messages.nodes) ==>
                m.disposed && m in Repr && m !in blocks[at].Repr && m in owner && owner[m] == at
      ensures blocks[at].messages.nodes == []
      ensures forall a :: a in blocks && a != at ==> blocks[a].messages.nodes == old(blocks[a].messages.nodes)
    {
      assert Owned(at) && Intact(at);
      blocks[at].Cleanup();
      OthersStay(at);
    }

    /** Takes a block out of use that has given back its messages. */
    method Unregister(at: Address, ghost gone: set<Message>)
      requires ValidBut(at) && at in live && this !in blocks[at].Repr
      requires blocks[at].Valid() && blocks[at] in blocks[at].Repr && blocks[at].messages in blocks[at].Repr
      requires blocks[at].messages.nodes == [] && blocks[at].Repr <= Repr && blocks[at].Repr !! gone
      requires forall m :: m in gone ==> m in owner && owner[m] == at
      requires forall o :: o in blocks[at].Repr ==> o in owner && owner[o] == at
      modifies this`Repr, this`live, this`net
      ensures Valid() && Repr == old(Repr) - gone && live == old(live) - {at}
      ensures
        var l := old(net.links)[at];
        net == Net(old(net.links) - {at}, old(net.ended) + [Ended(at, l.accepted, l.written, l.queue)])
    {
      ghost var l := net.links[at];
      Repr, live := Repr - gone, live - {at};
      net := Net(net.links - {at}, net.ended + [Ended(at, l.accepted, l.written, l.queue)]);
      assert Owned(at);
      assert Intact(at);
      Rebooked(at);
    }

    /** A writable callback of an open connection. */
    method WriteOne(at: Address)
      requires Valid() && at in live
      modifies Repr
      ensures Valid()
      ensures live == old(live) && blocks == old(blocks)
      ensures net == old(net).(links := old(net.links)[at := Pipeline.WriteOne(old(net.links)[at])])
      ensures forall a :: a in blocks && a != at ==> blocks[a].messages.nodes == old(blocks[a].messages.nodes)
      ensures owner == old(owner)
      ensures
        var nodes := old(blocks[at].messages.nodes);
        if nodes == [] then blocks[at].messages.nodes == [] && Repr == old(Repr)
        else && nodes[0].disposed && nodes[0] in old(Repr)
             && blocks[at].messages.nodes == nodes[1..] && Repr == old(Repr) - {nodes[0]}
    {
      ghost var nodes := blocks[at].messages.nodes;
      WriteFirst(at);
      Release(at, if nodes == [] then {} else {nodes[0]});
    }

    /** Writes the first message of a block and gives it back. */
    method WriteFirst(at: Address)
      requires Valid() && at in live
      modifies Repr
      ensures unchanged(this) && ValidBut(at) && this !in blocks[at].Repr
      ensures blocks[at].Valid() && blocks[at] in blocks[at].Repr && blocks[at].messages in blocks[at].Repr
      ensures forall o :: o in blocks[at].Repr ==> o in Repr && o in owner && owner[o] == at
      ensures blocks[at].AsLink() == Pipeline.WriteOne(net.links[at])
      ensures
        var nodes := old(blocks[at].messages.nodes);
        if nodes == [] then blocks[at].messages.nodes == []
        else && blocks[at].messages.nodes == nodes[1..] && nodes[0].disposed
             && nodes[0] in Repr && nodes[0] !in blocks[at].Repr && nodes[0] in owner && owner[nodes[0]] == at
      ensures forall a :: a in blocks && a != at ==> blocks[a].messages.nodes == old(blocks[a].messages.nodes)
    {
      assert Owned(at) && Intact(at);
      blocks[at].WriteOne();
      OthersStay(at);
    }

    /** The link of a block has changed, and messages of it may have been given back. */
    ghost method Release(at: Address, gone: set<Message>)
      requires ValidBut(at) && at in live && this !in blocks[at].Repr
      requires blocks[at].Valid() && blocks[at] in blocks[at].Repr && blocks[at].messages in blocks[at].Repr
      requires blocks[at].Repr !! gone
      requires forall m :: m in gone ==> m in owner && owner[m] == at
      requires forall o :: o in blocks[at].Repr ==> o in Repr && o in owner && owner[o] == at
      modifies this`Repr, this`net
      ensures Valid() && Repr == old(Repr) - gone
      ensures net == old(net.(links := net.links[at := blocks[at].AsLink()]))
      ensures forall a :: a in blocks ==> blocks[a].messages.nodes == old(blocks[a].messages.nodes)
    {
      var link := blocks[at].AsLink();
      Repr := Repr - gone;
      net := net.(links := net.links[at := link]);
      assert Owned(at);
      assert Intact(at);
      Rebooked(at);
    }

    /** The tail of a callback: ask again while something is queued. After a cleanup nothing is. */
    method Rearm(at: Address)
      requires Valid() && at in blocks
      modifies Repr
      ensures Valid() && Repr == old(Repr) && owner == old(owner)
      ensures live == old(live) && blocks == old(blocks)
      ensures net == Tail(old(net), Other(at))
      ensures forall a :: a in blocks ==> blocks[a].messages.nodes == old(blocks[a].messages.nodes)
    {
      assert Owned(at) && Intact(at);
      blocks[at].Rearm();
      OthersStay(at);
      if at in live {
        Release(at, {});
      } else {
        assert Owned(at) && Intact(at);
      }
    }
  }

  /** The messages that were ever allocated, those given back after they were written, and those given back by the
      cleanup of a closed connection. Nothing is ever taken out of the books. */
  datatype Books = Books(all: set<Message>, given: set<Message>, dropped: set<Message>) {

    /** Nothing is gone from the books; messages were given back only as far as that is allowed. */
    ghost predicate Extends(before: Books, mayGive: bool, mayDrop: bool) {
      && before.all <= all && before.given <= given && before.dropped <= dropped
      && (mayGive || given == before.given)
      && (mayDrop || dropped == before.dropped)
    }
  }

  const EMPTY_BOOKS := Books({}, {}, {})

  /** The connections of a server, with books on every message. */
  class Connections {
    const allocator: Allocator
    const table: Table
    ghost var books: Books
    ghost var Repr: set<object>

    /** The message is in the queue of the open connection that owns it, and so of no other. */
    ghost predicate Queued(m: Message)
      reads table, if m in table.owner && table.owner[m] in table.blocks
                   then {table.blocks[table.owner[m]].messages} else {}
    {
      && m in table.owner && table.owner[m] in table.live && table.owner[m] in table.blocks
      && m in table.blocks[table.owner[m]].messages.nodes
    }

    /** Every message in the books, but for some that are on their way, is in exactly one place: in one queue, among
        those given back after they were written, or among those given back by a cleanup. In the last two, its memory
        was given back, and it is not among the objects that anything can change. */
    ghost predicate BookedBut(moving: set<Message>)
      requires table.Valid()
      reads this, table, table.Repr, books.given, books.dropped
    {
      && books.given + books.dropped <= books.all && books.given !! books.dropped
      && (forall m :: m in books.given ==> m.disposed && m !in table.Repr)
      && (forall m :: m in books.dropped ==> m.disposed && m !in table.Repr)
      && (forall m {:trigger Queued(m)} ::
            m in books.all && m !in books.given && m !in books.dropped && m !in moving ==> Queued(m))
      && (forall a, m :: a in table.blocks && m in table.blocks[a].messages.nodes ==> m in books.all || m in moving)
    }

    ghost predicate Apart()
      reads this, table, table.Repr
    {
      this !in table.Repr && allocator !in table.Repr && table.Valid()
    }

    /** Only new objects have come in. */
    twostate predicate Grows()
      reads this
    {
      forall o :: o in Repr ==> o in old(Repr) || fresh(o)
    }

    /** Every message that was ever allocated is in the books, and none is on its way. */
    ghost predicate Valid()
      reads this, allocator, table, table.Repr, books.given, books.dropped
    {
      Apart() && Repr == {this, allocator} + table.Repr && books.all == allocator.all && BookedBut({})
    }

    /** Each message ever allocated is in exactly one place, and its memory was given back unless that is a queue. */
    lemma Accounted(m: Message)
      requires Valid() && m in allocator.all
      ensures Queued(m) <==> m !in books.given && m !in books.dropped
      ensures m in books.given ==> m !in books.dropped
      ensures m.disposed <==> !Queued(m)
      ensures forall a :: a in table.blocks && m in table.blocks[a].messages.nodes ==>
                m in table.owner && table.owner[m] == a
    {
      forall a | a in table.blocks && m in table.blocks[a].messages.nodes
        ensures !m.disposed && m in table.Repr && m in table.owner && table.owner[m] == a
      {
        assert table.Owned(a) && table.Intact(a);
      }
    }

    constructor ()
      ensures Valid() && fresh(Repr) && table.net == NO_LINKS && table.live == {} && books == EMPTY_BOOKS
    {
      allocator := new Allocator();
      table := new Table();
      books := EMPTY_BOOKS;
      new;
      Repr := {this, allocator} + table.Repr;
    }

    /** A message to an open connection. What is allocated for it enters the books. */
    method Send(to: Address, value: Json, memory: bool, ghost origin: Origin)
      requires Valid() && to in table.live
      modifies Repr
      ensures Valid() && Grows()
      ensures table.live == old(table.live)
      ensures table.net == old(table.net).(links :=
                Deliver(old(table.net.links), Pipeline.Send(to, Packet(value, origin), memory)))
      ensures books.Extends(old(books), false, false)
      ensures |books.all| == |old(books).all| + if memory then 1 else 0
    {
      ghost var message := Queue(to, value, memory, origin);
      Enter(message);
    }

    /** Queues a message that is not yet in the books. */
    method Queue(to: Address, value: Json, memory: bool, ghost origin: Origin) returns (ghost message: Message?)
      requires Valid() && to in table.live
      modifies Repr
      ensures unchanged(this) && Apart() && fresh(table.Repr - Repr)
      ensures table.live == old(table.live)
      ensures table.net == old(table.net).(links :=
                Deliver(old(table.net.links), Pipeline.Send(to, Packet(value, origin), memory)))
      ensures message != null <==> memory
      ensures allocator.all == books.all + if message == null then {} else {message}
      ensures message != null ==> message !in books.all && Queued(message)
      ensures BookedBut(if message == null then {} else {message})
    {
      message := table.Send(allocator, to, value, memory, origin);
      forall m | m in books.all && m !in books.given && m !in books.dropped ensures Queued(m) {
        assert old(Queued(m));
      }
    }

    ghost method Enter(message: Message?)
      requires Apart() && allocator.all == books.all + if message == null then {} else {message}
      requires message != null ==> message !in books.all && Queued(message)
      requires BookedBut(if message == null then {} else {message})
      modifies this`books, this`Repr
      ensures Valid() && Repr == {this, allocator} + table.Repr
      ensures books == old(books).(all := old(allocator.all))
    {
      books, Repr := books.(all := allocator.all), {this, allocator} + table.Repr;
      forall m | m in books.all && m !in books.given && m !in books.dropped ensures Queued(m) {
        assert old(Queued(m));
      }
    }

    /** A connection is established at an address that is not in use. */
    method Establish(at: Address)
      requires Valid() && at !in table.live
      modifies Repr
      ensures Valid() && Grows()
      ensures table.live == old(table.live) + {at} && books == old(books)
      ensures table.net == old(table.net).(links := old(table.net.links)[at := NEW_LINK])
    {
      Open(at);
      Drop({});
    }

    method Open(at: Address)
      requires Valid() && at !in table.live
      modifies Repr
      ensures unchanged(this) && Apart() && fresh(table.Repr - Repr) && allocator.all == books.all && BookedBut({})
      ensures table.live == old(table.live) + {at}
      ensures table.net == old(table.net).(links := old(table.net.links)[at := NEW_LINK])
    {
      table.Establish(at);
      forall m | m in books.all && m !in books.given && m !in books.dropped ensures Queued(m) {
        assert old(Queued(m));
      }
    }

    /** The cleanup of a closed connection: all that is still queued is given back. */
    method Cleanup(at: Address)
      requires Valid() && at in table.live
      modifies Repr
      ensures Valid() && Repr <= old(Repr)
      ensures table.live == old(table.live) - {at} && table.blocks == old(table.blocks)
      ensures
        var l := old(table.net.links)[at];
        table.net == Net(old(table.net.links) - {at},
                         old(table.net.ended) + [Ended(at, l.accepted, l.written, l.queue)])
      ensures books == old(books).(dropped := old(books).dropped + set m | m in old(table.blocks[at].messages.nodes))
    {
      ghost var nodes := set m | m in table.blocks[at].messages.nodes;
      Discard(at, nodes);
      Drop(nodes);
    }

    /** Discards what is queued, with the books as they were. */
    method Discard(at: Address, ghost nodes: set<Message>)
      requires Valid() && at in table.live && nodes == set m | m in table.blocks[at].messages.nodes
      modifies Repr
      ensures unchanged(this) && Apart() && table.Repr <= Repr && allocator.all == books.all
      ensures table.live == old(table.live) - {at} && table.blocks == old(table.blocks)
      ensures
        var l := old(table.net.links)[at];
        table.net == Net(old(table.net.links) - {at},
                         old(table.net.ended) + [Ended(at, l.accepted, l.written, l.queue)])
      ensures BookedBut(nodes)
      ensures forall m :: m in nodes ==>
                m.disposed && m !in table.Repr && m in books.all && m !in books.given && m !in books.dropped
    {
      table.Cleanup(at);
      forall m | m in books.all && m !in books.given && m !in books.dropped && m !in nodes ensures Queued(m) {
        assert old(Queued(m));
      }
    }

    ghost method Drop(nodes: set<Message>)
      requires Apart() && allocator.all == books.all && BookedBut(nodes)
      requires forall m :: m in nodes ==>
                 m.disposed && m !in table.Repr && m in books.all && m !in books.given && m !in books.dropped
      modifies this`books, this`Repr
      ensures Valid() && Repr == {this, allocator} + table.Repr
      ensures books == old(books).(dropped := old(books).dropped + nodes)
    {
      books, Repr := books.(dropped := books.dropped + nodes), {this, allocator} + table.Repr;
      forall m | m in books.all && m !in books.given && m !in books.dropped ensures Queued(m) {
        assert old(Queued(m));
      }
    }

    /** A writable callback of an open connection: the first message, if any, is written and given back. */
    method WriteOne(at: Address)
      requires Valid() && at in table.live
      modifies Repr
      ensures Valid() && Repr <= old(Repr)
      ensures table.live == old(table.live) && table.blocks == old(table.blocks)
      ensures table.net == old(table.net).(links :=
                old(table.net.links)[at := Pipeline.WriteOne(old(table.net.links)[at])])
      ensures
        var nodes := old(table.blocks[at].messages.nodes);
        books == if nodes == [] then old(books) else old(books).(given := old(books).given + {nodes[0]})
    {
      ghost var nodes := table.blocks[at].messages.nodes;
      ghost var head := if nodes == [] then {} else {nodes[0]};
      Write(at, nodes, head);
      Give(head);
    }

    /** Writes the first message and gives it back, with the books as they were. */
    method Write(at: Address, ghost nodes: seq<Message>, ghost head: set<Message>)
      requires Valid() && at in table.live && nodes == table.blocks[at].messages.nodes
      requires head == if nodes == [] then {} else {nodes[0]}
      modifies Repr
      ensures unchanged(this) && Apart() && table.Repr <= Repr && allocator.all == books.all
      ensures table.live == old(table.live) && table.blocks == old(table.blocks)
      ensures table.net == old(table.net).(links :=
                old(table.net.links)[at := Pipeline.WriteOne(old(table.net.links)[at])])
      ensures BookedBut(head)
      ensures forall m :: m in head ==>
                m.disposed && m !in table.Repr && m in books.all && m !in books.given && m !in books.dropped
    {
      table.WriteOne(at);
      assert forall m :: m in nodes && m !in head ==> m in table.blocks[at].messages.nodes;
      forall m | m in books.all && m !in books.given && m !in books.dropped && m !in head ensures Queued(m) {
        assert old(Queued(m));
      }
      assert nodes != [] ==> nodes[0] in nodes;
    }

    ghost method Give(head: set<Message>)
      requires Apart() && allocator.all == books.all && BookedBut(head)
      requires forall m :: m in head ==>
                 m.disposed && m !in table.Repr && m in books.all && m !in books.given && m !in books.dropped
      modifies this`books, this`Repr
      ensures Valid() && Repr == {this, allocator} + table.Repr
      ensures books == old(books).(given := old(books).given + head)
    {
      books, Repr := books.(given := books.given + head), {this, allocator} + table.Repr;
      forall m | m in books.all && m !in books.given && m !in books.dropped ensures Queued(m) {
        assert old(Queued(m));
      }
    }

    /** The tail of a callback. */
    method Rearm(at: Address)
      requires Valid() && at in table.blocks
      modifies Repr
      ensures Valid() && Repr == old(Repr)
      ensures table.live == old(table.live) && books == old(books)
      ensures table.net == Tail(old(table.net), Other(at))
    {
      table.Rearm(at);
      forall m | m in books.all && m !in books.given && m !in books.dropped ensures Queued(m) {
        assert old(Queued(m));
      }
    }
  }
}
