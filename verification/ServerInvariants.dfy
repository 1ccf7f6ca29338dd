/** What holds in every reachable state of the chat server, and what each connection receives in a turn. */
module ServerInvariants {
  import opened Jansson
  import opened Rpc
  import opened Pipeline
  import opened ChatRoom
  import opened ServerModel

  // ---------- what a turn is meant to send ----------

  /** The answer a chatter is owed for a request. */
  function AnswerTo(chatters: Chatters, call: Call): Json
    requires call.Method?
  {
    var name := FirstString(call.params);
    if call.name != "set_name" then ErrorResponse(-1, "not implemented", call.id)
    else if name.None? then ErrorResponse(-1, "invalid params", call.id)
    else if IsNameUsed(chatters, name.value) then ErrorResponse(1, "name already used", call.id)
    else Response(Some(Named(name.value)), call.id)
  }

  /** The name a turn gives to the connection it is about, if it is a successful request for one. */
  function NewName(s: State, turn: Turn): Option<string> {
    if !turn.event.Receive? then None else
    match Classify(turn.event.text)
    case Some(Method("set_name", params, _)) =>
      var name := FirstString(params);
      if name.Some? && !IsNameUsed(s.room.chatters, name.value) then name else None
    case _ => None
  }

  /** The answer a turn owes to connection `c`. */
  function OwedIn(s: State, turn: Turn, c: Address): seq<Json> {
    if turn.event.Receive? && turn.event.at == c then
      match Classify(turn.event.text)
      case Some(Method(name, params, id)) => [AnswerTo(s.room.chatters, Method(name, params, id))]
      case _ => []
    else []
  }

  /** The broadcast a turn makes. */
  function CastIn(s: State, turn: Turn): Option<Json> {
    match turn.event
    case Closed(c) =>
      if c in s.room.chatters then Some(Announcement("gone", s.room.chatters[c].name)) else None
    case Receive(c, text) =>
      if c !in s.room.chatters then None
      else if NewName(s, turn).Some? then Some(Announcement("arrived", NewName(s, turn).value))
      else (match Classify(text)
            case Some(Notify("chat", params)) =>
              var content := FirstString(params);
              if content.Some? then Some(Post(s.room.chatters[c].name, content.value)) else None
            case _ => None)
    case _ => None
  }

  /** Whether the allocation for connection `c` in a broadcast loop succeeds. */
  predicate Reached(choice: Choice, c: Address) {
    exists i :: 0 <= i < |choice.order| && i < |choice.stored| && choice.order[i] == c && choice.stored[i]
  }

  /** The packets that turn owes to `c` and for which there is memory. */
  function Due(s: State, turn: Turn, c: Address): seq<Packet> {
    (if OwedIn(s, turn, c) != [] && turn.choice.reply then [Packet(OwedIn(s, turn, c)[0], Direct)] else []) +
    (if CastIn(s, turn).Some? && Reached(turn.choice, c)
     then [Packet(CastIn(s, turn).value, Broadcast(|s.room.history|))] else [])
  }

  // ---------- invariants ----------

  /** The chatters are exactly the open connections, and each entry names its own connection. */
  predicate TargetsLive(s: State) {
    && s.room.chatters.Keys == s.net.links.Keys
    && forall k :: k in s.room.chatters ==> s.room.chatters[k].connection == k
  }

  /** What the handlers of the chat server rely on and keep. */
  predicate Wired(s: State) {
    s.handlers == ChatHandlers && TargetsLive(s)
  }

  /** Two chatters share a name only when it is the empty one. */
  predicate NamesUnique(chatters: Chatters) {
    forall j, k :: j in chatters && k in chatters && j != k && chatters[j].name == chatters[k].name ==>
      chatters[j].name == ""
  }

  /** A log holds broadcasts in the order of the history, each with the history's content; and its broadcasts
      are exactly the messages that look like notifications. */
  predicate Chronicled(log: seq<Packet>, history: seq<Json>) {
    && (forall i :: 0 <= i < |log| ==> (log[i].origin.Broadcast? <==> IsNotification(log[i].body)))
    && (forall i :: 0 <= i < |log| && log[i].origin.Broadcast? ==>
          log[i].origin.index < |history| && history[log[i].origin.index] == log[i].body)
    && (forall i, j :: 0 <= i < j < |log| && log[i].origin.Broadcast? && log[j].origin.Broadcast? ==>
          log[i].origin.index < log[j].origin.index)
  }

  predicate AllChronicled(s: State) {
    && (forall c :: c in s.net.links ==> Chronicled(s.net.links[c].accepted, s.room.history))
    && (forall i :: 0 <= i < |s.net.ended| ==> Chronicled(s.net.ended[i].accepted, s.room.history))
  }

  predicate Inv(s: State) {
    && Wired(s)
    && NetInv(s.net)
    && NamesUnique(s.room.chatters)
    && AllChronicled(s)
  }

  // ---------- what a turn sends, connection by connection ----------

  lemma {:induction false} DeliveredJoin(a: seq<Send>, b: seq<Send>, c: Address)
    ensures Delivered(a + b, c) == Delivered(a, c) + Delivered(b, c)
  {
    if b == [] {
      assert a + b == a;
    } else {
      var front := b[..|b| - 1];
      assert (a + b)[..|a + b| - 1] == a + front;
      DeliveredJoin(a, front, c);
    }
  }

  predicate ReachedBefore(choice: Choice, n: nat, c: Address) {
    exists i :: 0 <= i < n && i < |choice.order| && i < |choice.stored| && choice.order[i] == c && choice.stored[i]
  }

  /** Whatever the order of the loop, each chatter whose allocation succeeds gets the message exactly once. */
  lemma {:induction false} FanOutDelivered(chatters: Chatters, choice: Choice, n: nat, packet: Packet, c: Address)
    requires n <= |choice.order| == |choice.stored|
    requires forall i, j :: 0 <= i < j < |choice.order| ==> choice.order[i] != choice.order[j]
    requires forall k :: k in choice.order ==> k in chatters && chatters[k].connection == k
    ensures Delivered(FanOut(chatters, choice.order, choice.stored, packet)[..n], c) ==
            if ReachedBefore(choice, n, c) then [packet] else []
  {
    var sends := FanOut(chatters, choice.order, choice.stored, packet);
    if n > 0 {
      FanOutDelivered(chatters, choice, n - 1, packet, c);
      var k := choice.order[n - 1];
      assert k in choice.order;
      assert sends[..n][..n - 1] == sends[..n - 1];
      assert sends[n - 1] == Send(k, packet, choice.stored[n - 1]);
      if k == c {
        assert !ReachedBefore(choice, n - 1, c);
        assert ReachedBefore(choice, n, c) <==> choice.stored[n - 1];
      } else {
        assert ReachedBefore(choice, n, c) <==> ReachedBefore(choice, n - 1, c);
      }
    }
  }

  /** A loop visits each chatter once and nobody else, so that each gets its copy exactly if that has memory. */
  lemma EveryoneIsVisited(choice: Choice, chatters: Chatters, c: Address)
    requires Fits(choice, chatters)
    ensures c in chatters <==> exists i :: 0 <= i < |choice.order| && choice.order[i] == c
    ensures forall i :: 0 <= i < |choice.order| && choice.order[i] == c ==>
              (Reached(choice, c) <==> choice.stored[i])
    ensures (forall i :: 0 <= i < |choice.stored| ==> choice.stored[i]) ==> (Reached(choice, c) <==> c in chatters)
  {
    if c in chatters {
      assert c in choice.order;
      var i :| 0 <= i < |choice.order| && choice.order[i] == c;
      if Reached(choice, c) {
        var j :| 0 <= j < |choice.order| && j < |choice.stored| && choice.order[j] == c && choice.stored[j];
        assert i == j;
      }
    }
  }

  /** There is an order for every set of chatters, with any memory. */
  lemma {:induction false} OrderExists(keys: set<Address>) returns (order: seq<Address>)
    ensures Enumerates(order, keys)
  {
    if keys == {} {
      order := [];
    } else {
      var k :| k in keys;
      var rest := OrderExists(keys - {k});
      order := [k] + rest;
      assert forall i :: 0 < i < |order| ==> order[i] == rest[i - 1] && order[i] in rest;
      assert forall x :: x in keys ==> x == k || x in rest;
    }
  }

  /** At any time a connection may be established at an address that is not in use, and anything may happen to one
      that is. */
  lemma EverythingCanHappen(s: State, event: Event, memory: bool) returns (choice: Choice)
    ensures Fits(choice, s.room.chatters) && choice.reply == memory
    ensures forall i :: 0 <= i < |choice.stored| ==> choice.stored[i] == memory
    ensures CanHappen(s, Turn(event, choice)) <==>
            match event {
              case Established(at) => at !in s.net.links
              case Outside => true
              case _ => event.at in s.net.links
            }
  {
    var order := OrderExists(s.room.chatters.Keys);
    choice := Choice(order, seq(|order|, _ => memory), memory);
  }

  lemma CastDelivered(room: Room, body: Json, choice: Choice, c: Address)
    requires Fits(choice, room.chatters)
    requires forall k :: k in room.chatters ==> room.chatters[k].connection == k
    ensures Delivered(Cast(room, body, choice).sends, c) ==
            if Reached(choice, c) then [Packet(body, Broadcast(|room.history|))] else []
  {
    var n := |choice.order|;
    var sends := Cast(room, body, choice).sends;
    assert sends[..n] == sends;
    FanOutDelivered(room.chatters, choice, n, Packet(body, Broadcast(|room.history|)), c);
  }

  lemma ReplyDelivered(room: Room, to: Address, body: Json, choice: Choice, c: Address)
    ensures Delivered(Reply(room, to, body, choice).sends, c) ==
            if to == c && choice.reply then [Packet(body, Direct)] else []
  {
    var sends := Reply(room, to, body, choice).sends;
    assert sends[..|sends| - 1] == [];
  }

  /** A successful request for a name: the response, then the announcement. */
  lemma RenameDelivered(room: Room, key: Address, name: string, id: int32, choice: Choice, c: Address)
    requires Fits(choice, room.chatters) && key in room.chatters
    requires forall k :: k in room.chatters ==> room.chatters[k].connection == k
    ensures Delivered(Rename(room, key, name, id, choice).sends, c) ==
            (if key == c && choice.reply then [Packet(Response(Some(Named(name)), id), Direct)] else []) +
            (if Reached(choice, c) then [Packet(Announcement("arrived", name), Broadcast(|room.history|))] else [])
  {
    var renamed := room.(chatters := room.chatters[key := room.chatters[key].(name := name)]);
    assert renamed.chatters.Keys == room.chatters.Keys;
    var body := Announcement("arrived", name);
    CastDelivered(renamed, body, choice, c);
    ReplyDelivered(renamed, key, Response(Some(Named(name)), id), choice, c);
    DeliveredJoin(Reply(renamed, key, Response(Some(Named(name)), id), choice).sends,
                  Cast(renamed, body, choice).sends, c);
  }

  lemma SetNameDelivered(s: State, turn: Turn, params: Json, id: int32, c: Address)
    requires CanHappen(s, turn) && Wired(s) && turn.event.Receive?
    requires Classify(turn.event.text) == Some(Method("set_name", params, id))
    ensures Delivered(SetName(s.room, turn.event.at, params, id, turn.choice).sends, c) == Due(s, turn, c)
  {
    var name := FirstString(params);
    if name.Some? && !IsNameUsed(s.room.chatters, name.value) {
      RenameDelivered(s.room, turn.event.at, name.value, id, turn.choice, c);
    } else {
      ReplyDelivered(s.room, turn.event.at, AnswerTo(s.room.chatters, Method("set_name", params, id)), turn.choice, c);
    }
  }

  lemma MethodDelivered(s: State, turn: Turn, name: string, params: Json, id: int32, c: Address)
    requires CanHappen(s, turn) && Wired(s) && turn.event.Receive?
    requires Classify(turn.event.text) == Some(Method(name, params, id))
    ensures Delivered(OnMethod(s.room, turn.event.at, name, params, id, turn.choice).sends, c) == Due(s, turn, c)
  {
    if name == "set_name" {
      SetNameDelivered(s, turn, params, id, c);
    } else {
      ReplyDelivered(s.room, turn.event.at, ErrorResponse(-1, "not implemented", id), turn.choice, c);
    }
  }

  lemma NotificationDelivered(s: State, turn: Turn, name: string, params: Json, c: Address)
    requires CanHappen(s, turn) && Wired(s) && turn.event.Receive?
    requires Classify(turn.event.text) == Some(Notify(name, params))
    ensures Delivered(OnNotify(s.room, turn.event.at, name, params, turn.choice).sends, c) == Due(s, turn, c)
  {
    var content := FirstString(params);
    assert OwedIn(s, turn, c) == [] && NewName(s, turn).None?;
    if name == "chat" && content.Some? {
      var post := Post(s.room.chatters[turn.event.at].name, content.value);
      assert CastIn(s, turn) == Some(post);
      CastDelivered(s.room, post, turn.choice, c);
    } else {
      assert CastIn(s, turn).None?;
    }
  }

  /** A received text: a request is answered, a chat line is broadcast, everything else is ignored. */
  lemma ReceiveDelivered(s: State, turn: Turn, c: Address)
    requires CanHappen(s, turn) && Wired(s) && turn.event.Receive?
    ensures Delivered(Handle(s, turn).sends, c) == Due(s, turn, c)
  {
    match Classify(turn.event.text)
    case Some(Method(name, params, id)) => MethodDelivered(s, turn, name, params, id, c);
    case Some(Notify(name, params)) => NotificationDelivered(s, turn, name, params, c);
    case None =>
  }

  /** The handlers send each connection exactly what the turn owes it, the answer before the broadcast. */
  lemma SendsAreDue(s: State, turn: Turn, c: Address)
    requires CanHappen(s, turn) && Wired(s)
    ensures Delivered(Handle(s, turn).sends, c) == Due(s, turn, c)
  {
    match turn.event {
      case Closed(at) =>
        CastDelivered(s.room, Announcement("gone", s.room.chatters[at].name), turn.choice, c);
      case Receive(at, text) =>
        ReceiveDelivered(s, turn, c);
      case _ =>
    }
  }

  /** Exactly the announced broadcasts enter the history. */
  lemma HistoryGrows(s: State, turn: Turn)
    requires CanHappen(s, turn) && Wired(s)
    ensures After(s, turn).room.history ==
            s.room.history + if CastIn(s, turn).Some? then [CastIn(s, turn).value] else []
  {
    assert s.room.history + [] == s.room.history;
  }

  lemma CastIsLive(room: Room, body: Json, choice: Choice)
    requires Fits(choice, room.chatters)
    requires forall k :: k in room.chatters ==> room.chatters[k].connection == k
    ensures forall x :: x in Cast(room, body, choice).sends ==> x.to in room.chatters
  {
    var sends := Cast(room, body, choice).sends;
    forall i | 0 <= i < |sends| ensures sends[i].to in room.chatters {
      assert choice.order[i] in choice.order;
    }
  }

  /** No message of any handler goes to an address without an open connection. */
  lemma SendsAreLive(s: State, turn: Turn)
    requires CanHappen(s, turn) && Wired(s)
    ensures forall x :: x in Handle(s, turn).sends ==> x.to in s.net.links
  {
    match turn.event {
      case Closed(at) => CastIsLive(s.room, Announcement("gone", s.room.chatters[at].name), turn.choice);
      case Receive(at, text) =>
        var call := Classify(text);
        if NewName(s, turn).Some? {
          var renamed := s.room.(chatters := s.room.chatters[at := Chatter(at, NewName(s, turn).value)]);
          assert renamed.chatters.Keys == s.room.chatters.Keys;
          CastIsLive(renamed, Announcement("arrived", NewName(s, turn).value), turn.choice);
        } else if call.Some? && call.value.Notify? && FirstString(call.value.params).Some? {
          CastIsLive(s.room, Post(s.room.chatters[at].name, FirstString(call.value.params).value), turn.choice);
        }
      case _ =>
    }
  }

  // ---------- the room ----------

  /** The chatters after a turn: a newcomer without a name, one renamed, one gone, or no change. */
  lemma ChattersAfter(s: State, turn: Turn)
    requires CanHappen(s, turn) && Wired(s)
    ensures After(s, turn).room.chatters ==
            match turn.event {
              case Established(c) => s.room.chatters[c := Chatter(c, "")]
              case Closed(c) => s.room.chatters - {c}
              case Receive(c, _) =>
                if NewName(s, turn).Some? then s.room.chatters[c := Chatter(c, NewName(s, turn).value)]
                else s.room.chatters
              case _ => s.room.chatters
            }
  {
  }

  lemma WiredStep(s: State, turn: Turn)
    requires CanHappen(s, turn) && Wired(s)
    ensures Wired(After(s, turn))
  {
    ChattersAfter(s, turn);
    NextKeys(s.net, NetStep(s, turn));
  }

  lemma NamesUniqueStep(s: State, turn: Turn)
    requires CanHappen(s, turn) && Wired(s) && NamesUnique(s.room.chatters)
    ensures NamesUnique(After(s, turn).room.chatters)
  {
    ChattersAfter(s, turn);
    if NewName(s, turn).Some? {
      RenamedUnique(s.room.chatters, turn.event.at, Chatter(turn.event.at, NewName(s, turn).value));
    }
  }

  lemma RenamedUnique(chatters: Chatters, c: Address, to: Chatter)
    requires NamesUnique(chatters) && !IsNameUsed(chatters, to.name)
    ensures NamesUnique(chatters[c := to])
  {
  }

  // ---------- the logs ----------

  lemma OwedLooks(s: State, turn: Turn, c: Address)
    requires OwedIn(s, turn, c) != []
    ensures !IsNotification(OwedIn(s, turn, c)[0])
  {
    var call := Classify(turn.event.text).value;
    var name := FirstString(call.params).GetOr("");
    ResponseNotDispatched(Some(Named(name)), -1, "not implemented", call.id);
    ResponseNotDispatched(Some(Named(name)), -1, "invalid params", call.id);
    ResponseNotDispatched(Some(Named(name)), 1, "name already used", call.id);
  }

  lemma CastLooks(s: State, turn: Turn)
    requires CastIn(s, turn).Some?
    ensures IsNotification(CastIn(s, turn).value)
  {
    forall a: string, b: string
      ensures IsNotification(Announcement(a, b)) && IsNotification(Post(a, b))
    {
      NotificationClassified("announce", Some(Array([String(a), String(b)])));
      NotificationClassified("message", Some(Array([String(a), String(b)])));
    }
  }

  lemma ChronicledGrow(log: seq<Packet>, history: seq<Json>, more: seq<Json>)
    requires Chronicled(log, history)
    ensures Chronicled(log, history + more)
  {
  }

  lemma ChronicledReply(log: seq<Packet>, history: seq<Json>, body: Json)
    requires Chronicled(log, history) && !IsNotification(body)
    ensures Chronicled(log + [Packet(body, Direct)], history)
  {
  }

  lemma ChronicledCast(log: seq<Packet>, history: seq<Json>, body: Json)
    requires Chronicled(log, history) && IsNotification(body)
    ensures Chronicled(log + [Packet(body, Broadcast(|history|))], history + [body])
  {
    ChronicledGrow(log, history, [body]);
  }

  lemma ChronicledStep(s: State, turn: Turn, c: Address, log: seq<Packet>, history: seq<Json>)
    requires Chronicled(log, s.room.history)
    requires history == s.room.history + if CastIn(s, turn).Some? then [CastIn(s, turn).value] else []
    ensures Chronicled(log, history)
    ensures Chronicled(log + Due(s, turn, c), history)
  {
    ChronicledGrow(log, s.room.history, history[|s.room.history|..]);
    if OwedIn(s, turn, c) != [] { OwedLooks(s, turn, c); }
    if CastIn(s, turn).Some? { CastLooks(s, turn); }
    ChronicledDue(log, s.room.history, OwedIn(s, turn, c), CastIn(s, turn), turn.choice.reply, Reached(turn.choice, c));
  }

  lemma ChronicledDue(log: seq<Packet>, history: seq<Json>, owed: seq<Json>, cast: Option<Json>, r: bool, b: bool)
    requires Chronicled(log, history)
    requires owed != [] ==> !IsNotification(owed[0])
    requires cast.Some? ==> IsNotification(cast.value)
    ensures
      var reply := if owed != [] && r then [Packet(owed[0], Direct)] else [];
      var post := if cast.Some? && b then [Packet(cast.value, Broadcast(|history|))] else [];
      Chronicled(log + (reply + post), history + if cast.Some? then [cast.value] else [])
  {
    var reply := if owed != [] && r then [Packet(owed[0], Direct)] else [];
    var log' := log + reply;
    if reply == [] {
      assert log' == log;
    } else {
      ChronicledReply(log, history, owed[0]);
    }
    if cast.Some? {
      ChronicledGrow(log', history, [cast.value]);
      ChronicledCast(log', history, cast.value);
      assert log + (reply + []) == log';
      assert log + (reply + [Packet(cast.value, Broadcast(|history|))]) ==
             log' + [Packet(cast.value, Broadcast(|history|))];
    } else {
      assert log + (reply + []) == log';
      assert history + [] == history;
    }
  }

  lemma LinkChronicled(s: State, turn: Turn, c: Address)
    requires CanHappen(s, turn) && Wired(s) && AllChronicled(s) && c in After(s, turn).net.links
    ensures Chronicled(After(s, turn).net.links[c].accepted, After(s, turn).room.history)
  {
    var step := NetStep(s, turn);
    NextKeys(s.net, step);
    HistoryGrows(s, turn);
    SendsAreDue(s, turn, c);
    if turn.event == Established(c) {
      EstablishedAt(s.net, step, c);
      ChronicledStep(s, turn, c, [], After(s, turn).room.history);
    } else {
      StreamStep(s.net, step, c);
      ChronicledStep(s, turn, c, s.net.links[c].accepted, After(s, turn).room.history);
    }
  }

  lemma EndedChronicled(s: State, turn: Turn, i: nat)
    requires CanHappen(s, turn) && Wired(s) && AllChronicled(s) && i < |After(s, turn).net.ended|
    ensures Chronicled(After(s, turn).net.ended[i].accepted, After(s, turn).room.history)
  {
    NextKeys(s.net, NetStep(s, turn));
    HistoryGrows(s, turn);
    if turn.event.Closed? {
      var c := turn.event.at;
      SendsAreDue(s, turn, c);
      ClosedAt(s.net, NetStep(s, turn), c);
      ChronicledStep(s, turn, c, s.net.links[c].accepted, After(s, turn).room.history);
    }
    if i < |s.net.ended| {
      ChronicledStep(s, turn, 0, s.net.ended[i].accepted, After(s, turn).room.history);
    }
  }

  lemma LogsInvStep(s: State, turn: Turn)
    requires CanHappen(s, turn) && Wired(s) && AllChronicled(s)
    ensures AllChronicled(After(s, turn))
  {
    var s' := After(s, turn);
    forall c | c in s'.net.links ensures Chronicled(s'.net.links[c].accepted, s'.room.history) {
      LinkChronicled(s, turn, c);
    }
    forall i | 0 <= i < |s'.net.ended| ensures Chronicled(s'.net.ended[i].accepted, s'.room.history) {
      EndedChronicled(s, turn, i);
    }
  }

  // ---------- every run ----------

  lemma InvStep(s: State, turn: Turn)
    requires CanHappen(s, turn) && Inv(s)
    ensures Inv(After(s, turn))
  {
    NetInvStep(s.net, NetStep(s, turn));
    WiredStep(s, turn);
    NamesUniqueStep(s, turn);
    LogsInvStep(s, turn);
  }

  lemma {:induction false} InvRun(s: State, turns: seq<Turn>)
    requires Possible(s, turns) && Inv(s)
    ensures Inv(AfterAll(s, turns))
    decreases turns
  {
    if turns != [] {
      InvStep(s, turns[0]);
      InvRun(After(s, turns[0]), turns[1..]);
    }
  }

  lemma InvInitially()
    ensures Inv(Initial(ChatHandlers))
  {
  }

  /** The chat server in any reachable state: the pipeline's guarantees, live broadcast targets, unique names,
      and logs that follow the history. */
  lemma Reachable(turns: seq<Turn>)
    requires Possible(Initial(ChatHandlers), turns)
    ensures Inv(AfterAll(Initial(ChatHandlers), turns))
  {
    InvInitially();
    InvRun(Initial(ChatHandlers), turns);
  }

  /** A connection that is established starts with an empty queue, an empty name and no history of its own,
      whatever its address was used for before. */
  lemma FreshStart(s: State, turn: Turn, c: Address)
    requires CanHappen(s, turn) && Wired(s) && turn.event == Established(c)
    ensures c in After(s, turn).net.links && After(s, turn).net.links[c] == NEW_LINK
    ensures c in After(s, turn).room.chatters && After(s, turn).room.chatters[c] == Chatter(c, "")
    ensures forall d :: d in s.net.links ==>
              d in After(s, turn).net.links && After(s, turn).net.links[d] == s.net.links[d]
  {
    ChattersAfter(s, turn);
    EstablishedAt(s.net, NetStep(s, turn), c);
    forall d | d in s.net.links
      ensures d in After(s, turn).net.links && After(s, turn).net.links[d] == s.net.links[d]
    {
      NextAt(s.net, NetStep(s, turn), d);
      assert AcceptAll(s.net.links[d], []) == s.net.links[d];
    }
  }
}
