/** The chat application: its chatters and the handlers it installs, as functions from the room and an event to
    the changed room and the messages sent. */
module ChatRoom {
  import opened Jansson
  import opened Rpc
  import opened Pipeline

  datatype Chatter = Chatter(connection: Address, name: string)

  type Chatters = map<Address, Chatter>

  /** The application state. `history` is bookkeeping: the bodies of all broadcasts so far. */
  datatype Room = Room(chatters: Chatters, history: seq<Json>)

  const EMPTY_ROOM := Room(map[], [])

  /** What the program leaves open: the order in which a loop visits the hash map, and which of the
      allocations succeed, both in the loop and for a reply. */
  datatype Choice = Choice(order: seq<Address>, stored: seq<bool>, reply: bool)

  datatype Outcome = Outcome(room: Room, sends: seq<Send>)

  predicate Enumerates(order: seq<Address>, keys: set<Address>) {
    && (forall i, j :: 0 <= i < j < |order| ==> order[i] != order[j])
    && (forall k :: k in order ==> k in keys)
    && (forall k :: k in keys ==> k in order)
  }

  predicate Fits(choice: Choice, chatters: Chatters) {
    Enumerates(choice.order, chatters.Keys) && |choice.stored| == |choice.order|
  }

  predicate IsNameUsed(chatters: Chatters, name: string) {
    exists k :: k in chatters && chatters[k].name == name
  }

  /** The string in front of an array of parameters, if there is one. */
  function FirstString(params: Json): Option<string> {
    var first := ArrayGet(params, 0);
    if first.Some? && first.value.String? then Some(first.value.s) else None
  }

  function Announcement(what: string, who: string): Json {
    Notification("announce", Some(Array([String(what), String(who)])))
  }

  function Post(name: string, text: string): Json {
    Notification("message", Some(Array([String(name), String(text)])))
  }

  function Named(name: string): Json {
    Object(ObjectSet(map[], "name", Some(String(name))))
  }

  /** The sends of a loop over the chatters in the given order. */
  function FanOut(chatters: Chatters, order: seq<Address>, stored: seq<bool>, packet: Packet): seq<Send>
    requires |stored| == |order| && forall k :: k in order ==> k in chatters
  {
    seq(|order|, i requires 0 <= i < |order| => Send(chatters[order[i]].connection, packet, stored[i]))
  }

  function Cast(room: Room, body: Json, choice: Choice): Outcome
    requires Fits(choice, room.chatters)
  {
    Outcome(room.(history := room.history + [body]),
            FanOut(room.chatters, choice.order, choice.stored, Packet(body, Broadcast(|room.history|))))
  }

  function Reply(room: Room, to: Address, body: Json, choice: Choice): Outcome {
    Outcome(room, [Send(to, Packet(body, Direct), choice.reply)])
  }

  /** The successful branch of `SetName`: the new name, the response, and then the announcement. */
  function Rename(room: Room, key: Address, name: string, id: int32, choice: Choice): Outcome
    requires Fits(choice, room.chatters) && key in room.chatters
  {
    var who := room.chatters[key];
    var renamed := room.(chatters := room.chatters[key := who.(name := name)]);
    assert renamed.chatters.Keys == room.chatters.Keys;
    var cast := Cast(renamed, Announcement("arrived", name), choice);
    Outcome(cast.room, Reply(renamed, who.connection, Response(Some(Named(name)), id), choice).sends + cast.sends)
  }

  function SetName(room: Room, key: Address, params: Json, id: int32, choice: Choice): Outcome
    requires Fits(choice, room.chatters) && key in room.chatters
  {
    var who := room.chatters[key];
    match FirstString(params)
    case Some(name) =>
      if !IsNameUsed(room.chatters, name) then Rename(room, key, name, id, choice)
      else Reply(room, who.connection, ErrorResponse(1, "name already used", id), choice)
    case None => Reply(room, who.connection, ErrorResponse(-1, "invalid params", id), choice)
  }

  function OnMethod(room: Room, c: Address, name: string, params: Json, id: int32, choice: Choice): Outcome
    requires Fits(choice, room.chatters)
  {
    if c in room.chatters then
      if name == "set_name" then SetName(room, c, params, id, choice)
      else Reply(room, c, ErrorResponse(-1, "not implemented", id), choice)
    else Reply(room, c, ErrorResponse(-1, "invalid connection", id), choice)
  }

  function SendChat(room: Room, key: Address, params: Json, choice: Choice): Outcome
    requires Fits(choice, room.chatters) && key in room.chatters
  {
    match FirstString(params)
    case Some(text) => Cast(room, Post(room.chatters[key].name, text), choice)
    case None => Outcome(room, [])
  }

  function OnNotify(room: Room, c: Address, name: string, params: Json, choice: Choice): Outcome
    requires Fits(choice, room.chatters)
  {
    if c in room.chatters && name == "chat" then SendChat(room, c, params, choice)
    else Outcome(room, [])
  }

  /** Inserting under a key that is already there changes nothing. */
  function OnConnected(room: Room, c: Address): Outcome {
    Outcome(if c in room.chatters then room else room.(chatters := room.chatters[c := Chatter(c, "")]), [])
  }

  function OnDisconnected(room: Room, c: Address, choice: Choice): Outcome
    requires Fits(choice, room.chatters)
  {
    if c in room.chatters then
      var cast := Cast(room, Announcement("gone", room.chatters[c].name), choice);
      Outcome(cast.room.(chatters := cast.room.chatters - {c}), cast.sends)
    else Outcome(room, [])
  }
}
