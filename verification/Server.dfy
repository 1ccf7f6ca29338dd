/** The server itself: the chat application's handlers, the dispatch of received texts, and the protocol callback,
over connections on the heap. Each method is proved to do what the machine of `ServerModel` does, for every way in
which the choices that the program leaves open may fall. */
module Server {
  import opened Jansson
  import opened Rpc
  import opened Pipeline
  import opened ChatRoom
  import opened ServerModel
  import opened Network

  /** One more send at the end of a loop over the chatters. */
  lemma FanOutMore(links: map<Address, Link>, chatters: Chatters, choice: Choice, n: nat, packet: Packet)
    requires Fits(choice, chatters) && n < |choice.order|
    ensures
      var sends := FanOut(chatters, choice.order, choice.stored, packet);
      DeliverAll(links, sends[..n + 1]) ==
      Deliver(DeliverAll(links, sends[..n]),
              Pipeline.Send(chatters[choice.order[n]].connection, packet, choice.stored[n]))
  {
    var sends := FanOut(chatters, choice.order, choice.stored, packet);
    assert sends[..n + 1][..n] == sends[..n];
  }

  lemma {:induction false} DeliverAllJoin(links: map<Address, Link>, a: seq<Pipeline.Send>, b: seq<Pipeline.Send>)
    ensures DeliverAll(links, a + b) == DeliverAll(DeliverAll(links, a), b)
  {
    if b == [] {
      assert a + b == a;
    } else {
      assert (a + b)[..|a + b| - 1] == a + b[..|b| - 1];
      DeliverAllJoin(links, a, b[..|b| - 1]);
    }
  }

  lemma DeliverOne(links: map<Address, Link>, s: Pipeline.Send)
    ensures DeliverAll(links, [s]) == Deliver(links, s)
  {
    assert [s][..0] == [];
  }

  /** The sends of a rename: the response to a connection, and then the announcement to all. */
  lemma RenameSends(links: map<Address, Link>, room: Room, key: Address, name: string, id: int32, choice: Choice)
    requires Fits(choice, room.chatters) && key in room.chatters
    ensures
      var who := room.chatters[key];
      var renamed := room.(chatters := room.chatters[key := who.(name := name)]);
      && Fits(choice, renamed.chatters)
      && DeliverAll(links, Rename(room, key, name, id, choice).sends) ==
         DeliverAll(Deliver(links, Pipeline.Send(who.connection, Packet(Response(Some(Named(name)), id), Direct),
                                                 choice.reply)),
                    Cast(renamed, Announcement("arrived", name), choice).sends)
  {
    var who := room.chatters[key];
    var renamed := room.(chatters := room.chatters[key := who.(name := name)]);
    assert renamed.chatters.Keys == room.chatters.Keys;
    var reply := Reply(renamed, who.connection, Response(Some(Named(name)), id), choice).sends;
    DeliverOne(links, reply[0]);
    DeliverAllJoin(links, reply, Cast(renamed, Announcement("arrived", name), choice).sends);
  }

  /** A received text adds and removes no chatter. */
  lemma RoomKeys(s: State, turn: Turn)
    requires CanHappen(s, turn) && turn.event.Receive?
    ensures Handle(s, turn).room.chatters.Keys == s.room.chatters.Keys
    ensures s.room.chatters == map[] && s.handlers.DefaultHandlers? ==> Handle(s, turn).room.chatters == map[]
  {
  }

  class JrpcServer {
    const handlers: Handlers
    const connections: Connections
    var chatters: Chatters
    /** Bookkeeping: the bodies of all broadcasts so far. */
    ghost var history: seq<Json>

    /** What the handlers rely on: each chatter's connection is its key, and open. */
    ghost predicate Ready()
      reads this, connections, connections.allocator, connections.table, connections.table.Repr,
            connections.books.given, connections.books.dropped
    {
      && this !in connections.Repr
      && connections.Valid()
      && (forall k :: k in chatters ==> chatters[k].connection == k && k in connections.table.live)
    }

    /** Between two events, moreover, every open connection has its chatter. */
    ghost predicate Valid()
      reads this, connections, connections.allocator, connections.table, connections.table.Repr,
            connections.books.given, connections.books.dropped
    {
      && Ready()
      && (handlers.ChatHandlers? ==> chatters.Keys == connections.table.live)
      && (handlers.DefaultHandlers? ==> chatters == map[])
    }

    ghost function TheRoom(): Room
      reads this
    {
      Room(chatters, history)
    }

    ghost function TheState(): State
      reads this, connections.table
    {
      State(handlers, connections.table.net, TheRoom())
    }

    constructor (handlers: Handlers)
      ensures Valid() && fresh(connections) && fresh(connections.Repr)
      ensures this.handlers == handlers && TheState() == Initial(handlers) && connections.books == EMPTY_BOOKS
    {
      this.handlers := handlers;
      connections := new Connections();
      chatters := map[];
      history := [];
    }

    // ---------- sending ----------

    method Respond(to: Address, result: Option<Json>, id: int32, memory: bool)
      requires Ready() && to in connections.table.live
      modifies connections.Repr
      ensures Ready() && connections.Grows()
      ensures connections.table.live == old(connections.table.live)
      ensures connections.books.Extends(old(connections.books), false, false)
      ensures connections.table.net == old(connections.table.net).(links :=
                Deliver(old(connections.table.net.links),
                        Pipeline.Send(to, Packet(Response(result, id), Direct), memory)))
    {
      var response := map[];
      response := ObjectSet(response, "result", result);
      response := ObjectSet(response, "id", Some(Integer(id)));
      connections.Send(to, Object(response), memory, Direct);
    }

    method RespondError(to: Address, code: int32, message: string, id: int32, memory: bool)
      requires Ready() && to in connections.table.live
      modifies connections.Repr
      ensures Ready() && connections.Grows()
      ensures connections.table.live == old(connections.table.live)
      ensures connections.books.Extends(old(connections.books), false, false)
      ensures connections.table.net == old(connections.table.net).(links :=
                Deliver(old(connections.table.net.links),
                        Pipeline.Send(to, Packet(ErrorResponse(code, message, id), Direct), memory)))
    {
      var holder := map[];
      holder := ObjectSet(holder, "code", Some(Integer(code)));
      holder := ObjectSet(holder, "message", Some(String(message)));
      var response := map[];
      response := ObjectSet(response, "error", Some(Object(holder)));
      response := ObjectSet(response, "id", Some(Integer(id)));
      connections.Send(to, Object(response), memory, Direct);
    }

    method SendNotification(to: Address, name: string, params: Option<Json>, memory: bool, ghost origin: Origin)
      requires Ready() && to in connections.table.live
      modifies connections.Repr
      ensures Ready() && connections.Grows()
      ensures connections.table.live == old(connections.table.live)
      ensures connections.books.Extends(old(connections.books), false, false)
      ensures connections.table.net == old(connections.table.net).(links :=
                Deliver(old(connections.table.net.links),
                        Pipeline.Send(to, Packet(Notification(name, params), origin), memory)))
    {
      var notification := map[];
      notification := ObjectSet(notification, "method", Some(String(name)));
      notification := ObjectSet(notification, "params", params);
      connections.Send(to, Object(notification), memory, origin);
    }

    // ---------- the chat application ----------

    method NameUsed(name: string) returns (used: bool)
      ensures used <==> IsNameUsed(chatters, name)
    {
      var rest := chatters.Keys;
      while rest != {}
        invariant rest <= chatters.Keys
        invariant forall k :: k in chatters && k !in rest ==> chatters[k].name != name
      {
        var k :| k in rest;
        if chatters[k].name == name {
          return true;
        }
        rest := rest - {k};
      }
      return false;
    }

    /** The loop that notifies every chatter, in the order in which the hash map is visited. */
    method NotifyAll(name: string, params: Json, choice: Choice)
      requires Ready() && Fits(choice, chatters)
      modifies this`history, connections.Repr
      ensures Ready() && connections.Grows()
      ensures connections.table.live == old(connections.table.live)
      ensures connections.books.Extends(old(connections.books), false, false)
      ensures
        var outcome := Cast(old(TheRoom()), Notification(name, Some(params)), choice);
        && TheRoom() == outcome.room
        && connections.table.net == old(connections.table.net).(links :=
                  DeliverAll(old(connections.table.net.links), outcome.sends))
    {
      ghost var packet := Packet(Notification(name, Some(params)), Broadcast(|history|));
      ghost var sends := FanOut(chatters, choice.order, choice.stored, packet);
      var n := 0;
      while n < |choice.order|
        invariant 0 <= n <= |choice.order|
        invariant Ready() && connections.Grows()
        invariant connections.table.live == old(connections.table.live) && history == old(history)
        invariant connections.books.Extends(old(connections.books), false, false)
        invariant connections.table.net == old(connections.table.net).(links :=
                  DeliverAll(old(connections.table.net.links), sends[..n]))
      {
        var actual := chatters[choice.order[n]];
        SendNotification(actual.connection, name, Some(params), choice.stored[n], Broadcast(|history|));
        FanOutMore(old(connections.table.net.links), chatters, choice, n, packet);
        n := n + 1;
      }
      assert sends[..n] == sends;
      history := history + [packet.body];
    }

    method Announce(what: string, who: string, choice: Choice)
      requires Ready() && Fits(choice, chatters)
      modifies this`history, connections.Repr
      ensures Ready() && connections.Grows()
      ensures connections.table.live == old(connections.table.live)
      ensures connections.books.Extends(old(connections.books), false, false)
      ensures
        var outcome := Cast(old(TheRoom()), Announcement(what, who), choice);
        && TheRoom() == outcome.room
        && connections.table.net == old(connections.table.net).(links :=
                  DeliverAll(old(connections.table.net.links), outcome.sends))
    {
      NotifyAll("announce", Array([String(what), String(who)]), choice);
    }

    /** An error response on its own. */
    method AnswerError(to: Address, code: int32, message: string, id: int32, choice: Choice)
      requires Ready() && to in connections.table.live
      modifies connections.Repr
      ensures Ready() && connections.Grows()
      ensures connections.table.live == old(connections.table.live)
      ensures connections.books.Extends(old(connections.books), false, false)
      ensures
        var outcome := Reply(old(TheRoom()), to, ErrorResponse(code, message, id), choice);
        && TheRoom() == outcome.room
        && connections.table.net == old(connections.table.net).(links :=
                  DeliverAll(old(connections.table.net.links), outcome.sends))
    {
      RespondError(to, code, message, id, choice.reply);
      DeliverOne(old(connections.table.net.links),
                 Pipeline.Send(to, Packet(ErrorResponse(code, message, id), Direct), choice.reply));
    }

    method SetName(key: Address, params: Json, id: int32, choice: Choice)
      requires Ready() && key in chatters && Fits(choice, chatters)
      modifies this`chatters, this`history, connections.Repr
      ensures Ready() && connections.Grows()
      ensures connections.table.live == old(connections.table.live)
      ensures connections.books.Extends(old(connections.books), false, false)
      ensures
        var outcome := ChatRoom.SetName(old(TheRoom()), key, params, id, choice);
        && TheRoom() == outcome.room
        && connections.table.net == old(connections.table.net).(links :=
                  DeliverAll(old(connections.table.net.links), outcome.sends))
    {
      var holder := ArrayGet(params, 0);
      if holder.Some? && holder.value.String? {
        var name := holder.value.s;
        var used := NameUsed(name);
        if !used {
          GiveName(key, name, id, choice);
        } else {
          AnswerError(chatters[key].connection, 1, "name already used", id, choice);
        }
      } else {
        AnswerError(chatters[key].connection, -1, "invalid params", id, choice);
      }
    }

    /** The successful branch of `SetName`. */
    method GiveName(key: Address, name: string, id: int32, choice: Choice)
      requires Ready() && key in chatters && Fits(choice, chatters)
      modifies this`chatters, this`history, connections.Repr
      ensures Ready() && connections.Grows()
      ensures connections.table.live == old(connections.table.live)
      ensures connections.books.Extends(old(connections.books), false, false)
      ensures
        var outcome := Rename(old(TheRoom()), key, name, id, choice);
        && TheRoom() == outcome.room
        && connections.table.net == old(connections.table.net).(links :=
                  DeliverAll(old(connections.table.net.links), outcome.sends))
    {
      RenameSends(connections.table.net.links, TheRoom(), key, name, id, choice);
      SetAndRespond(key, name, id, choice.reply);
      Announce("arrived", name, choice);
    }

    method SetAndRespond(key: Address, name: string, id: int32, memory: bool)
      requires Ready() && key in chatters
      modifies this`chatters, connections.Repr
      ensures Ready() && connections.Grows()
      ensures connections.table.live == old(connections.table.live)
      ensures connections.books.Extends(old(connections.books), false, false)
      ensures TheRoom() == old(TheRoom()).(chatters := old(chatters)[key := old(chatters)[key].(name := name)])
      ensures
        var to := old(chatters)[key].connection;
        connections.table.net == old(connections.table.net).(links :=
          Deliver(old(connections.table.net.links),
                  Pipeline.Send(to, Packet(Response(Some(Named(name)), id), Direct), memory)))
    {
      var who := chatters[key];
      chatters := chatters[key := who.(name := name)];
      var result := map[];
      result := ObjectSet(result, "name", Some(String(name)));
      Respond(who.connection, Some(Object(result)), id, memory);
    }

    method OnMethod(c: Address, name: string, params: Json, id: int32, choice: Choice)
      requires Ready() && c in connections.table.live && Fits(choice, chatters)
      modifies this`chatters, this`history, connections.Repr
      ensures Ready() && connections.Grows()
      ensures connections.table.live == old(connections.table.live)
      ensures connections.books.Extends(old(connections.books), false, false)
      ensures
        var outcome := ChatRoom.OnMethod(old(TheRoom()), c, name, params, id, choice);
        && TheRoom() == outcome.room
        && connections.table.net == old(connections.table.net).(links :=
                  DeliverAll(old(connections.table.net.links), outcome.sends))
    {
      if c in chatters {
        if name == "set_name" {
          SetName(c, params, id, choice);
        } else {
          AnswerError(c, -1, "not implemented", id, choice);
        }
      } else {
        AnswerError(c, -1, "invalid connection", id, choice);
      }
    }

    method SendChat(key: Address, params: Json, choice: Choice)
      requires Ready() && key in chatters && Fits(choice, chatters)
      modifies this`history, connections.Repr
      ensures Ready() && connections.Grows()
      ensures connections.table.live == old(connections.table.live)
      ensures connections.books.Extends(old(connections.books), false, false)
      ensures
        var outcome := ChatRoom.SendChat(old(TheRoom()), key, params, choice);
        && TheRoom() == outcome.room
        && connections.table.net == old(connections.table.net).(links :=
                  DeliverAll(old(connections.table.net.links), outcome.sends))
    {
      var holder := ArrayGet(params, 0);
      if holder.Some? && holder.value.String? {
        NotifyAll("message", Array([String(chatters[key].name), String(holder.value.s)]), choice);
      }
    }

    method OnNotify(c: Address, name: string, params: Json, choice: Choice)
      requires Ready() && Fits(choice, chatters)
      modifies this`history, connections.Repr
      ensures Ready() && connections.Grows()
      ensures connections.table.live == old(connections.table.live)
      ensures connections.books.Extends(old(connections.books), false, false)
      ensures
        var outcome := ChatRoom.OnNotify(old(TheRoom()), c, name, params, choice);
        && TheRoom() == outcome.room
        && connections.table.net == old(connections.table.net).(links :=
                  DeliverAll(old(connections.table.net.links), outcome.sends))
    {
      if c in chatters && name == "chat" {
        SendChat(c, params, choice);
      }
    }

    method OnConnected(c: Address)
      requires Ready() && c in connections.table.live
      modifies this`chatters
      ensures Ready() && TheRoom() == ChatRoom.OnConnected(old(TheRoom()), c).room
    {
      if c !in chatters {
        chatters := chatters[c := Chatter(c, "")];
      }
    }

    method OnDisconnected(c: Address, choice: Choice)
      requires Ready() && Fits(choice, chatters)
      modifies this`chatters, this`history, connections.Repr
      ensures Ready() && connections.Grows()
      ensures connections.table.live == old(connections.table.live)
      ensures connections.books.Extends(old(connections.books), false, false)
      ensures
        var outcome := ChatRoom.OnDisconnected(old(TheRoom()), c, choice);
        && TheRoom() == outcome.room
        && connections.table.net == old(connections.table.net).(links :=
                  DeliverAll(old(connections.table.net.links), outcome.sends))
    {
      if c in chatters {
        Leave(c, choice);
      }
    }

    /** The farewell is announced to the leaver as well. */
    method Leave(c: Address, choice: Choice)
      requires Ready() && c in chatters && Fits(choice, chatters)
      modifies this`chatters, this`history, connections.Repr
      ensures Ready() && connections.Grows()
      ensures connections.table.live == old(connections.table.live)
      ensures connections.books.Extends(old(connections.books), false, false)
      ensures
        var outcome := ChatRoom.OnDisconnected(old(TheRoom()), c, choice);
        && TheRoom() == outcome.room
        && connections.table.net == old(connections.table.net).(links :=
                  DeliverAll(old(connections.table.net.links), outcome.sends))
    {
      Announce("gone", chatters[c].name, choice);
      Forget(c);
    }

    method Forget(c: Address)
      requires Ready()
      modifies this`chatters
      ensures Ready() && TheRoom() == old(TheRoom()).(chatters := old(chatters) - {c})
      ensures connections.Repr == old(connections.Repr) && connections.books == old(connections.books)
      ensures connections.table.live == old(connections.table.live)
      ensures connections.table.net == old(connections.table.net)
    {
      chatters := chatters - {c};
    }

    // ---------- the protocol ----------

    method Process(c: Address, text: Option<Json>, choice: Choice)
      requires Ready() && c in connections.table.live && Fits(choice, chatters)
      modifies this`chatters, this`history, connections.Repr
      ensures Ready() && connections.Grows()
      ensures connections.table.live == old(connections.table.live)
      ensures connections.books.Extends(old(connections.books), false, false)
      ensures
        var outcome := ServerModel.Process(old(TheState()), c, text, choice);
        && TheRoom() == outcome.room
        && connections.table.net == old(connections.table.net).(links :=
                  DeliverAll(old(connections.table.net.links), outcome.sends))
    {
      if text.None? {
        return;
      }
      var name := ObjectGet(text.value, "method");
      var params := ObjectGet(text.value, "params");
      var id := ObjectGet(text.value, "id");
      if name.Some? && name.value.String? && Structured(params) {
        assert Classify(text).Some?;
        if id.Some? && id.value.Integer? {
          DispatchMethod(c, name.value.s, params.value, Narrow(id.value.i), choice);
        } else if handlers.ChatHandlers? {
          OnNotify(c, name.value.s, params.value, choice);
        }
      }
    }

    method DispatchMethod(c: Address, name: string, params: Json, id: int32, choice: Choice)
      requires Ready() && c in connections.table.live && Fits(choice, chatters)
      modifies this`chatters, this`history, connections.Repr
      ensures Ready() && connections.Grows()
      ensures connections.table.live == old(connections.table.live)
      ensures connections.books.Extends(old(connections.books), false, false)
      ensures
        var outcome := if handlers.ChatHandlers? then ChatRoom.OnMethod(old(TheRoom()), c, name, params, id, choice)
                       else DefaultMethod(old(TheRoom()), c, id, choice);
        && TheRoom() == outcome.room
        && connections.table.net == old(connections.table.net).(links :=
                  DeliverAll(old(connections.table.net.links), outcome.sends))
    {
      if handlers.ChatHandlers? {
        OnMethod(c, name, params, id, choice);
      } else {
        AnswerError(c, -1, "not implemented", id, choice);
      }
    }

    method Established(at: Address)
      requires Valid() && at !in connections.table.live
      modifies this`chatters, connections.Repr
      ensures Valid() && connections.Grows() && at in connections.table.live
      ensures connections.books == old(connections.books)
      ensures TheRoom() == if handlers.ChatHandlers? then ChatRoom.OnConnected(old(TheRoom()), at).room
                           else old(TheRoom())
      ensures connections.table.net == old(connections.table.net).(links :=
                old(connections.table.net.links)[at := NEW_LINK])
    {
      connections.Establish(at);
      if handlers.ChatHandlers? {
        OnConnected(at);
      }
    }

    method Closed(at: Address, choice: Choice)
      requires Valid() && at in connections.table.live && Fits(choice, chatters)
      modifies this`chatters, this`history, connections.Repr
      ensures Valid() && connections.Grows() && at in connections.table.blocks
      ensures connections.books.Extends(old(connections.books), false, true)
      ensures
        var turn := Turn(Event.Closed(at), choice);
        && CanHappen(old(TheState()), turn)
        && TheRoom() == Handle(old(TheState()), turn).room
        && connections.table.net == Switch(old(connections.table.net), NetStep(old(TheState()), turn))
    {
      if handlers.ChatHandlers? {
        OnDisconnected(at, choice);
      }
      DeliverAllKeys(old(connections.table.net.links), Handle(old(TheState()), Turn(Event.Closed(at), choice)).sends);
      connections.Cleanup(at);
    }

    method Received(turn: Turn)
      requires Valid() && turn.event.Receive? && CanHappen(TheState(), turn)
      modifies this`chatters, this`history, connections.Repr
      ensures Valid() && connections.Grows()
      ensures connections.books.Extends(old(connections.books), false, false)
      ensures connections.table.live == old(connections.table.live)
      ensures TheRoom() == Handle(old(TheState()), turn).room
      ensures connections.table.net == Switch(old(connections.table.net), NetStep(old(TheState()), turn))
    {
      Process(turn.event.at, turn.event.text, turn.choice);
      RoomKeys(old(TheState()), turn);
    }

    /** The part of the callback that depends on the event. */
    method SwitchOn(turn: Turn)
      requires Valid() && CanHappen(TheState(), turn) && !turn.event.Outside?
      modifies this`chatters, this`history, connections.Repr
      ensures Valid() && connections.Grows()
      ensures connections.books.Extends(old(connections.books), turn.event.Writeable?, turn.event.Closed?)
      ensures turn.event.at in connections.table.blocks
      ensures TheRoom() == Handle(old(TheState()), turn).room
      ensures connections.table.net == Switch(old(connections.table.net), NetStep(old(TheState()), turn))
    {
      match turn.event {
        case Established(at) => Established(at);
        case Closed(at) => Closed(at, turn.choice);
        case Receive(at, text) => Received(turn);
        case Writeable(at) => connections.WriteOne(at);
        case Other(at) =>
      }
    }

    /** The callback: one event is handled exactly as the machine handles it, however the choices fall. Between two
        callbacks, the program does nothing. */
    method Callback(turn: Turn)
      requires Valid() && CanHappen(TheState(), turn)
      modifies this`chatters, this`history, connections.Repr
      ensures Valid() && connections.Grows()
      ensures connections.books.Extends(old(connections.books), turn.event.Writeable?, turn.event.Closed?)
      ensures TheState() == After(old(TheState()), turn)
    {
      if !turn.event.Outside? {
        SwitchOn(turn);
        connections.Rearm(turn.event.at);
      }
    }

    /** The service loop: whatever happens, the program goes through the run that the machine goes through. So what
        holds in every run of the machine holds for the program. Over the run, every message ever allocated stays in
        the books, in exactly one place: `Valid` says so at every moment, since `Booked` is part of it. */
    method Serve(turns: seq<Turn>)
      requires Valid() && Possible(TheState(), turns)
      modifies this`chatters, this`history, connections.Repr
      ensures Valid() && connections.Grows()
      ensures connections.books.Extends(old(connections.books), true, true)
      ensures TheState() == AfterAll(old(TheState()), turns)
    {
      var n := 0;
      while n < |turns|
        invariant 0 <= n <= |turns|
        invariant Valid() && connections.Grows()
        invariant connections.books.Extends(old(connections.books), true, true)
        invariant Possible(TheState(), turns[n..])
        invariant AfterAll(TheState(), turns[n..]) == AfterAll(old(TheState()), turns)
      {
        assert turns[n..][1..] == turns[n + 1..];
        Callback(turns[n]);
        n := n + 1;
      }
      assert turns[n..] == [];
    }
  }
}
