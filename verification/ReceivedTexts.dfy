/** What a server does with any received text, said in terms of the fields of the text and of those of the messages it
    sends. The predicates and texts of this module do not use the functions that the server is made of. */
module ReceivedTexts {
  import opened Jansson
  import opened Rpc
  import opened Pipeline
  import opened ChatRoom
  import opened ServerModel
  import opened ServerInvariants

  // ---------- the fields of a received text ----------

  predicate Structure(value: Json) {
    value.Array? || value.Object?
  }

  /** Its `method` is a given name and its `params` are a given array or object; other fields do not matter. */
  predicate Names(fields: map<string, Json>, name: string, params: Json) {
    && "method" in fields && fields["method"] == String(name)
    && "params" in fields && fields["params"] == params && Structure(params)
  }

  /** Moreover its `id` is an integer. */
  predicate IsRequest(fields: map<string, Json>, name: string, params: Json, id: int64) {
    Names(fields, name, params) && "id" in fields && fields["id"] == Integer(id)
  }

  /** Moreover its `id` is missing, or anything but an integer. */
  predicate IsNotice(fields: map<string, Json>, name: string, params: Json) {
    Names(fields, name, params) && !("id" in fields && fields["id"].Integer?)
  }

  /** Neither: the text does not load, is no object, has no string for a method, or no array or object for params. */
  predicate IsNeither(text: Option<Json>) {
    text.None? || !text.value.Object? ||
    var fields := text.value.fields;
    || !("method" in fields && fields["method"].String?)
    || !("params" in fields && Structure(fields["params"]))
  }

  predicate SameLow32(id: int32, i: int64) {
    (i - id) % 0x1_0000_0000 == 0
  }

  /** Every text is a request, a notification or neither, and is classified as that. */
  lemma Classification(text: Option<Json>)
    ensures Classify(text) == None <==> IsNeither(text)
    ensures forall fields, name, params, i, id :: text == Some(Object(fields)) && IsRequest(fields, name, params, i) ==>
              (Classify(text) == Some(Method(name, params, id)) <==> SameLow32(id, i))
    ensures forall fields, name, params :: text == Some(Object(fields)) && Names(fields, name, params) ==>
              (Classify(text) == Some(Notify(name, params)) <==> IsNotice(fields, name, params))
  {
    forall fields, name, params, i, id: int32 | text == Some(Object(fields)) && IsRequest(fields, name, params, i)
      ensures Classify(text) == Some(Method(name, params, id)) <==> SameLow32(id, i)
    {
      NarrowIsCongruent(i, id);
    }
  }

  // ---------- the texts that are sent ----------

  function ResultText(result: Json, id: int32): Json {
    Object(map["result" := result, "id" := Integer(id)])
  }

  function ErrorText(code: int32, message: string, id: int32): Json {
    Object(map["error" := Object(map["code" := Integer(code), "message" := String(message)]), "id" := Integer(id)])
  }

  function NoticeText(name: string, params: Json): Json {
    Object(map["method" := String(name), "params" := params])
  }

  function AnnounceText(what: string, who: string): Json {
    NoticeText("announce", Array([String(what), String(who)]))
  }

  function LineText(who: string, line: string): Json {
    NoticeText("message", Array([String(who), String(line)]))
  }

  function NameText(name: string): Json {
    Object(map["name" := String(name)])
  }

  /** Each built message has exactly the documented fields, with the values it was built from. */
  lemma BuiltTexts(result: Option<Json>, params: Option<Json>, code: int32, message: string, name: string, id: int32)
    ensures Response(result, id) ==
            if result.Some? then ResultText(result.value, id) else Object(map["id" := Integer(id)])
    ensures ErrorResponse(code, message, id) == ErrorText(code, message, id)
    ensures Notification(name, params) ==
            if params.Some? then NoticeText(name, params.value) else Object(map["method" := String(name)])
  {
    assert map[]["id" := Integer(id)] == map["id" := Integer(id)];
  }

  lemma ChatTexts(a: string, b: string)
    ensures Announcement(a, b) == AnnounceText(a, b) && Post(a, b) == LineText(a, b) && Named(a) == NameText(a)
  {
    BuiltTexts(None, Some(Array([String(a), String(b)])), 0, "", "announce", 0);
    BuiltTexts(None, Some(Array([String(a), String(b)])), 0, "", "message", 0);
  }

  // ---------- what a text brings about ----------

  predicate Receives(turn: Turn, fields: map<string, Json>) {
    turn.event.Receive? && turn.event.text == Some(Object(fields))
  }

  /** A link to which some packets were queued, and nothing else happened. */
  predicate Queued(before: Link, after: Link, ps: seq<Packet>) {
    && after.written == before.written && after.queue == before.queue + ps && after.accepted == before.accepted + ps
    && (after.pending <==> before.pending || ps != [])
  }

  /** The messages of a turn for a connection: the answer for the one that has asked, and a copy of the broadcast, each
      if there is memory for it. */
  function Copies(s: State, turn: Turn, d: Address, answer: Option<Json>, cast: Option<Json>): seq<Packet>
    requires turn.event.Receive?
  {
    (if answer.Some? && d == turn.event.at && turn.choice.reply then [Packet(answer.value, Direct)] else []) +
    (if cast.Some? && Reached(turn.choice, d) then [Packet(cast.value, Broadcast(|s.room.history|))] else [])
  }

  /** What a turn sends is this answer and this broadcast, and nothing else happens to any connection. */
  ghost predicate Sends(s: State, turn: Turn, answer: Option<Json>, cast: Option<Json>)
    requires CanHappen(s, turn) && turn.event.Receive?
  {
    var s' := After(s, turn);
    && s'.handlers == s.handlers && s'.net.ended == s.net.ended && s'.net.links.Keys == s.net.links.Keys
    && s'.room.history == s.room.history + (if cast.Some? then [cast.value] else [])
    && forall d :: d in s.net.links ==> Queued(s.net.links[d], s'.net.links[d], Copies(s, turn, d, answer, cast))
  }

  lemma LinkAfter(s: State, turn: Turn, d: Address)
    requires NetInv(s.net) && CanHappen(s, turn) && turn.event.Receive? && d in s.net.links
    ensures d in After(s, turn).net.links
    ensures Queued(s.net.links[d], After(s, turn).net.links[d], Delivered(Handle(s, turn).sends, d))
  {
    NextAt(s.net, NetStep(s, turn), d);
  }

  lemma SendsAsOwed(s: State, turn: Turn, answer: Option<Json>, cast: Option<Json>)
    requires Inv(s) && CanHappen(s, turn) && turn.event.Receive?
    requires OwedIn(s, turn, turn.event.at) == (if answer.Some? then [answer.value] else []) && CastIn(s, turn) == cast
    ensures Sends(s, turn, answer, cast)
  {
    NextKeys(s.net, NetStep(s, turn));
    HistoryGrows(s, turn);
    assert s.room.history + [] == s.room.history;
    forall d | d in s.net.links
      ensures d in After(s, turn).net.links
      ensures Queued(s.net.links[d], After(s, turn).net.links[d], Copies(s, turn, d, answer, cast))
    {
      LinkAfter(s, turn, d);
      SendsAreDue(s, turn, d);
    }
  }

  /** Where nothing is sent and the room stays, the whole state does. */
  lemma NothingHappens(s: State, turn: Turn)
    requires NetInv(s.net) && CanHappen(s, turn) && turn.event.Receive? && Handle(s, turn) == Outcome(s.room, [])
    ensures After(s, turn) == s
  {
    NextKeys(s.net, NetStep(s, turn));
    var links := After(s, turn).net.links;
    forall d | d in s.net.links ensures d in links && links[d] == s.net.links[d] {
      LinkAfter(s, turn, d);
      var l := s.net.links[d];
      assert l.queue + [] == l.queue && l.accepted + [] == l.accepted;
    }
    assert links == s.net.links;
  }

  /** A text that is neither a request nor a notification changes nothing, whatever handlers there are. */
  lemma NeitherIsIgnored(s: State, turn: Turn)
    requires NetInv(s.net) && CanHappen(s, turn) && turn.event.Receive? && IsNeither(turn.event.text)
    ensures After(s, turn) == s
  {
    Classification(turn.event.text);
    NothingHappens(s, turn);
  }

  // ---------- the chat server ----------

  /** The texts of a request for a name. */
  lemma RequestFor(fields: map<string, Json>, name: string, params: Json, i: int64, id: int32)
    requires IsRequest(fields, name, params, i) && SameLow32(id, i)
    ensures Classify(Some(Object(fields))) == Some(Method(name, params, id))
  {
    Classification(Some(Object(fields)));
  }

  lemma LeadingString(params: Json)
    ensures FirstString(params) ==
            if params.Array? && |params.items| > 0 && params.items[0].String? then Some(params.items[0].s) else None
  {
  }

  /** A name is asked for without a string in front of an array: the requester is told so, nothing else changes. */
  lemma NameWithoutString(s: State, turn: Turn, fields: map<string, Json>, params: Json, i: int64, id: int32)
    requires Inv(s) && CanHappen(s, turn) && Receives(turn, fields)
    requires IsRequest(fields, "set_name", params, i) && SameLow32(id, i)
    requires params.Object? || params.items == [] || !params.items[0].String?
    ensures Sends(s, turn, Some(ErrorText(-1, "invalid params", id)), None) && After(s, turn).room == s.room
  {
    RequestFor(fields, "set_name", params, i, id);
    LeadingString(params);
    BuiltTexts(None, None, -1, "invalid params", "", id);
    SendsAsOwed(s, turn, Some(ErrorText(-1, "invalid params", id)), None);
    assert Handle(s, turn).room == s.room;
  }

  /** A name is asked for that some chatter has, be it the requester itself, and be it the empty name. */
  lemma NameTaken(s: State, turn: Turn, fields: map<string, Json>, items: seq<Json>, i: int64, id: int32,
                  name: string, holder: Address)
    requires Inv(s) && CanHappen(s, turn) && Receives(turn, fields)
    requires IsRequest(fields, "set_name", Array(items), i) && SameLow32(id, i)
    requires items != [] && items[0] == String(name)
    requires holder in s.room.chatters && s.room.chatters[holder].name == name
    ensures Sends(s, turn, Some(ErrorText(1, "name already used", id)), None) && After(s, turn).room == s.room
  {
    RequestFor(fields, "set_name", Array(items), i, id);
    LeadingString(Array(items));
    BuiltTexts(None, None, 1, "name already used", "", id);
    assert IsNameUsed(s.room.chatters, name);
    SendsAsOwed(s, turn, Some(ErrorText(1, "name already used", id)), None);
    assert Handle(s, turn).room == s.room;
  }

  /** A name is asked for that nobody has: the requester has it, is told its name, and all are told of the arrival. */
  lemma NameGiven(s: State, turn: Turn, fields: map<string, Json>, items: seq<Json>, i: int64, id: int32, name: string)
    requires Inv(s) && CanHappen(s, turn) && Receives(turn, fields)
    requires IsRequest(fields, "set_name", Array(items), i) && SameLow32(id, i)
    requires items != [] && items[0] == String(name)
    requires forall k :: k in s.room.chatters ==> s.room.chatters[k].name != name
    ensures Sends(s, turn, Some(ResultText(NameText(name), id)), Some(AnnounceText("arrived", name)))
    ensures After(s, turn).room.chatters == s.room.chatters[turn.event.at := Chatter(turn.event.at, name)]
  {
    RequestFor(fields, "set_name", Array(items), i, id);
    LeadingString(Array(items));
    ChatTexts("arrived", name);
    ChatTexts(name, "");
    BuiltTexts(Some(NameText(name)), None, 0, "", "", id);
    assert !IsNameUsed(s.room.chatters, name);
    SendsAsOwed(s, turn, Some(ResultText(NameText(name), id)), Some(AnnounceText("arrived", name)));
    ChattersAfter(s, turn);
  }

  /** Any other request is answered with an error. */
  lemma OtherRequest(s: State, turn: Turn, fields: map<string, Json>, name: string, params: Json, i: int64, id: int32)
    requires Inv(s) && CanHappen(s, turn) && Receives(turn, fields)
    requires IsRequest(fields, name, params, i) && SameLow32(id, i) && name != "set_name"
    ensures Sends(s, turn, Some(ErrorText(-1, "not implemented", id)), None) && After(s, turn).room == s.room
  {
    RequestFor(fields, name, params, i, id);
    BuiltTexts(None, None, -1, "not implemented", "", id);
    SendsAsOwed(s, turn, Some(ErrorText(-1, "not implemented", id)), None);
    assert Handle(s, turn).room == s.room;
  }

  /** A chat line, with an `id` that is no integer perhaps: one broadcast under the sender's name, and no answer. */
  lemma ChatLineSent(s: State, turn: Turn, fields: map<string, Json>, items: seq<Json>, line: string)
    requires Inv(s) && CanHappen(s, turn) && Receives(turn, fields)
    requires IsNotice(fields, "chat", Array(items)) && items != [] && items[0] == String(line)
    ensures turn.event.at in s.room.chatters
    ensures Sends(s, turn, None, Some(LineText(s.room.chatters[turn.event.at].name, line)))
    ensures After(s, turn).room.chatters == s.room.chatters
  {
    Classification(Some(Object(fields)));
    LeadingString(Array(items));
    ChatTexts(s.room.chatters[turn.event.at].name, line);
    SendsAsOwed(s, turn, None, Some(LineText(s.room.chatters[turn.event.at].name, line)));
    ChattersAfter(s, turn);
  }

  /** Any other notification changes nothing. */
  lemma OtherNotice(s: State, turn: Turn, fields: map<string, Json>, name: string, params: Json)
    requires Inv(s) && CanHappen(s, turn) && Receives(turn, fields)
    requires IsNotice(fields, name, params)
    requires name != "chat" || params.Object? || params.items == [] || !params.items[0].String?
    ensures After(s, turn) == s
  {
    Classification(Some(Object(fields)));
    LeadingString(params);
    NothingHappens(s, turn);
  }

  /** A request from an address without a chatter, in any state: it is answered with an error. */
  lemma StrangerAsks(s: State, c: Address, fields: map<string, Json>, name: string, params: Json, i: int64, id: int32,
                     choice: Choice)
    requires s.handlers == ChatHandlers && c !in s.room.chatters && Fits(choice, s.room.chatters)
    requires IsRequest(fields, name, params, i) && SameLow32(id, i)
    ensures Process(s, c, Some(Object(fields)), choice) ==
            Outcome(s.room, [Send(c, Packet(ErrorText(-1, "invalid connection", id), Direct), choice.reply)])
  {
    RequestFor(fields, name, params, i, id);
    BuiltTexts(None, None, -1, "invalid connection", "", id);
  }

  /** Establishing an address that has a chatter, or closing one that has none, changes no chatter and tells nobody. */
  lemma NothingToDo(room: Room, c: Address, choice: Choice)
    requires Fits(choice, room.chatters)
    ensures c in room.chatters ==> OnConnected(room, c) == Outcome(room, [])
    ensures c !in room.chatters ==> OnDisconnected(room, c, choice) == Outcome(room, [])
    ensures c !in room.chatters ==> OnConnected(room, c).sends == []
    ensures c !in room.chatters ==> OnConnected(room, c).room.chatters == room.chatters[c := Chatter(c, "")]
  {
  }

  /** A chatter leaves: all who stay are told, each if there is memory for its copy. */
  lemma LeaveTold(s: State, turn: Turn, c: Address)
    requires Inv(s) && CanHappen(s, turn) && turn.event == Closed(c)
    ensures c in s.room.chatters
    ensures
      var s' := After(s, turn);
      var gone := AnnounceText("gone", s.room.chatters[c].name);
      && s'.room == Room(s.room.chatters - {c}, s.room.history + [gone])
      && s'.net.links.Keys == s.net.links.Keys - {c}
      && forall d :: d in s'.net.links ==>
           Queued(s.net.links[d], s'.net.links[d],
                  if Reached(turn.choice, d) then [Packet(gone, Broadcast(|s.room.history|))] else [])
  {
    ChatTexts("gone", s.room.chatters[c].name);
    NextKeys(s.net, NetStep(s, turn));
    LeaverGone(s, turn, c);
    forall d | d in After(s, turn).net.links
      ensures Queued(s.net.links[d], After(s, turn).net.links[d],
                     if Reached(turn.choice, d)
                     then [Packet(Announcement("gone", s.room.chatters[c].name), Broadcast(|s.room.history|))] else [])
    {
      StayerTold(s, turn, c, d);
    }
  }

  lemma LeaverGone(s: State, turn: Turn, c: Address)
    requires Inv(s) && CanHappen(s, turn) && turn.event == Closed(c)
    ensures c in s.room.chatters
    ensures After(s, turn).room ==
            Room(s.room.chatters - {c}, s.room.history + [Announcement("gone", s.room.chatters[c].name)])
  {
    ChattersAfter(s, turn);
    HistoryGrows(s, turn);
  }

  lemma StayerTold(s: State, turn: Turn, c: Address, d: Address)
    requires Inv(s) && CanHappen(s, turn) && turn.event == Closed(c) && d in s.net.links && d != c
    ensures c in s.room.chatters && d in After(s, turn).net.links
    ensures Queued(s.net.links[d], After(s, turn).net.links[d],
                   if Reached(turn.choice, d)
                   then [Packet(Announcement("gone", s.room.chatters[c].name), Broadcast(|s.room.history|))] else [])
  {
    CastDelivered(s.room, Announcement("gone", s.room.chatters[c].name), turn.choice, d);
    StayerAfter(s.net, NetStep(s, turn), c, d);
  }

  lemma StayerAfter(net: Net, step: Step, c: Address, d: Address)
    requires Enabled(net, step) && step.event == Closed(c) && d in net.links && d != c
    ensures d in Next(net, step).links
    ensures Queued(net.links[d], Next(net, step).links[d], Delivered(step.sends, d))
  {
    NextAt(net, step, d);
  }

  // ---------- a server with the default handlers ----------

  lemma DefaultRequest(s: State, turn: Turn, fields: map<string, Json>, name: string, params: Json, i: int64, id: int32)
    requires s.handlers == DefaultHandlers && NetInv(s.net) && CanHappen(s, turn)
    requires Receives(turn, fields)
    requires IsRequest(fields, name, params, i) && SameLow32(id, i)
    ensures Sends(s, turn, Some(ErrorText(-1, "not implemented", id)), None) && After(s, turn).room == s.room
  {
    RequestFor(fields, name, params, i, id);
    BuiltTexts(None, None, -1, "not implemented", "", id);
    NextKeys(s.net, NetStep(s, turn));
    assert s.room.history + [] == s.room.history;
    forall d | d in s.net.links
      ensures d in After(s, turn).net.links
      ensures Queued(s.net.links[d], After(s, turn).net.links[d],
                     Copies(s, turn, d, Some(ErrorText(-1, "not implemented", id)), None))
    {
      LinkAfter(s, turn, d);
      ReplyDelivered(s.room, turn.event.at, ErrorText(-1, "not implemented", id), turn.choice, d);
    }
  }

  lemma DefaultNotice(s: State, turn: Turn, fields: map<string, Json>, name: string, params: Json)
    requires s.handlers == DefaultHandlers && NetInv(s.net) && CanHappen(s, turn)
    requires Receives(turn, fields) && IsNotice(fields, name, params)
    ensures After(s, turn) == s
  {
    Classification(Some(Object(fields)));
    NothingHappens(s, turn);
  }
}
