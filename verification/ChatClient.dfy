/** The browser's side of the chat: the messages it sends and what it does with those it receives. */
module ChatClient {
  import opened Jansson
  import opened Rpc
  import opened Pipeline
  import opened ChatRoom
  import opened ServerModel
  import opened ServerInvariants
  import opened BroadcastOrder

  const MESSAGE_ID_SET_NAME: int64 := 42

  /** What the page shows. A missing array element is undefined. */
  datatype Shown =
    | ChatLine(nickname: Option<Json>, message: Option<Json>)
    | AnnouncementLine(what: Option<Json>, who: Option<Json>)
    | ErrorLine(reason: Json)

  function SetNameMessage(nickname: string): Json {
    Request("set_name", Array([String(nickname)]), MESSAGE_ID_SET_NAME)
  }

  function ChatMessage(text: string): Json {
    Object(map["method" := String("chat"), "params" := Array([String(text)])])
  }

  /** Whether JavaScript takes a value for true. */
  predicate Truthy(value: Option<Json>) {
    value.Some? &&
    match value.value
    case Null => false
    case Bool(b) => b
    case Integer(i) => i != 0
    case Real(r) => r != 0.0
    case String(s) => s != ""
    case _ => true
  }

  /** The first two elements of something iterable; anything else throws. */
  function FirstTwo(params: Option<Json>): Option<(Option<Json>, Option<Json>)> {
    match params
    case Some(Array(items)) => Some((ArrayGet(params.value, 0), ArrayGet(params.value, 1)))
    case Some(String(s)) =>
      Some((if |s| > 0 then Some(String([s[0]])) else None, if |s| > 1 then Some(String([s[1]])) else None))
    case _ => None
  }

  /** What a notification makes the page show; an exception is swallowed and shows nothing. */
  function ShowNotification(name: string, params: Option<Json>): Option<Shown> {
    var two := FirstTwo(params);
    if two.None? then None
    else if name == "message" then Some(ChatLine(two.value.0, two.value.1))
    else if name == "announce" then Some(AnnouncementLine(two.value.0, two.value.1))
    else None
  }

  /** Only an error for the client's own request shows anything. */
  function ShowResponse(body: Json): Option<Shown> {
    var id := ObjectGet(body, "id");
    var error := ObjectGet(body, "error");
    if (id == Some(Integer(MESSAGE_ID_SET_NAME)) || id == Some(Real(42.0))) && Truthy(error) then
      var message := ObjectGet(error.value, "message");
      Some(ErrorLine(if Truthy(message) then message.value else String("failed to set nickname")))
    else None
  }

  /** Where a received text is taken: to the handler of notifications, to that of responses, or nowhere. */
  datatype Dispatch =
    | ToNotification(name: string, params: Option<Json>)
    | ToResponse(body: Json)
    | Dropped

  /** A text that does not parse is `None`. */
  function DispatchOf(text: Option<Json>): Dispatch {
    if text.None? then Dropped else
    var name := ObjectGet(text.value, "method");
    var id := ObjectGet(text.value, "id");
    if name.Some? && name.value.String? then ToNotification(name.value.s, ObjectGet(text.value, "params"))
    else if id.Some? && (id.value.Integer? || id.value.Real?) then ToResponse(text.value)
    else Dropped
  }

  /** What a received text makes the page show. */
  function Show(text: Option<Json>): Option<Shown> {
    match DispatchOf(text)
    case ToNotification(name, params) => ShowNotification(name, params)
    case ToResponse(body) => ShowResponse(body)
    case Dropped => None
  }

  /** What some received texts make the page show, one after the other. */
  function AllShown(texts: seq<Option<Json>>): seq<Shown> {
    if texts == [] then []
    else
      var shown := Show(texts[|texts| - 1]);
      AllShown(texts[..|texts| - 1]) + if shown.Some? then [shown.value] else []
  }

  /** The page: its connection, if any, and the lines it shows, the oldest first. */
  class Page {
    var connected: bool
    var lines: seq<Shown>

    constructor ()
      ensures connected && lines == []
    {
      connected, lines := true, [];
    }

    method OnMessage(text: Option<Json>)
      modifies this
      ensures lines == old(lines) + if Show(text).Some? then [Show(text).value] else []
      ensures connected <==> old(connected) && !(Show(text).Some? && Show(text).value.ErrorLine?)
    {
      match DispatchOf(text)
      case ToNotification(name, params) => ProcessNotification(name, params);
      case ToResponse(body) => ProcessResponse(body);
      case Dropped =>
    }

    /** The texts that arrive over the connection, in order. */
    method OnMessages(texts: seq<Option<Json>>)
      modifies this
      ensures lines == old(lines) + AllShown(texts)
    {
      var n := 0;
      while n < |texts|
        invariant 0 <= n <= |texts|
        invariant lines == old(lines) + AllShown(texts[..n])
      {
        OnMessage(texts[n]);
        assert texts[..n + 1][..n] == texts[..n];
        n := n + 1;
      }
      assert texts[..n] == texts;
    }

    method ProcessNotification(name: string, params: Option<Json>)
      modifies this`lines
      ensures
        var shown := ShowNotification(name, params);
        lines == old(lines) + if shown.Some? then [shown.value] else []
      ensures ShowNotification(name, params).Some? ==> !ShowNotification(name, params).value.ErrorLine?
    {
      var two := FirstTwo(params);
      if two.Some? && name == "message" {
        lines := lines + [ChatLine(two.value.0, two.value.1)];
      } else if two.Some? && name == "announce" {
        lines := lines + [AnnouncementLine(two.value.0, two.value.1)];
      }
    }

    method ProcessResponse(body: Json)
      modifies this
      ensures lines == old(lines) + if ShowResponse(body).Some? then [ShowResponse(body).value] else []
      ensures connected <==> old(connected) && ShowResponse(body).None?
    {
      var id := ObjectGet(body, "id");
      if id == Some(Integer(MESSAGE_ID_SET_NAME)) || id == Some(Real(42.0)) {
        var error := ObjectGet(body, "error");
        if Truthy(error) {
          var message := ObjectGet(error.value, "message");
          lines := lines + [ErrorLine(if Truthy(message) then message.value else String("failed to set nickname"))];
          connected := false;
        }
      }
    }
  }

  // ---------- the two sides agree ----------

  /** A notification the server builds is taken to the client's handler of notifications, with its method and
      parameters, and a response, whatever is nested in it, to the handler of responses. */
  lemma ClientClassifies(name: string, params: Option<Json>, result: Option<Json>, code: int32, message: string,
                         id: int32)
    ensures DispatchOf(Some(Notification(name, params))) == ToNotification(name, params)
    ensures DispatchOf(Some(Response(result, id))) == ToResponse(Response(result, id))
    ensures DispatchOf(Some(ErrorResponse(code, message, id))) == ToResponse(ErrorResponse(code, message, id))
  {
    ResponseNotDispatched(result, code, message, id);
    var notification := Notification(name, params).fields;
    assert notification["method"] == String(name);
    assert ObjectGet(Notification(name, params), "params") == params;
    assert ResponseId(Response(result, id)) == Some(Integer(id));
    assert ResponseId(ErrorResponse(code, message, id)) == Some(Integer(id));
  }

  /** A successful response shows nothing; an error shows its message if it answers the client's own request. */
  lemma ResponsesShown(result: Option<Json>, code: int32, message: string, id: int32)
    ensures Show(Some(Response(result, id))) == None
    ensures Show(Some(ErrorResponse(code, message, id))) ==
            if id == 42 then Some(ErrorLine(String(if message != "" then message else "failed to set nickname")))
            else None
  {
    ClientClassifies("", None, result, code, message, id);
    assert "error" !in Response(result, id).fields;
    var error := ErrorResponse(code, message, id).fields["error"];
    assert error.fields["message"] == String(message);
  }

  /** How texts are written and read on the two sides. */
  datatype Codec = Codec(stringify: Json -> string, load: string -> Option<Json>,
                         dump: Json -> string, parse: string -> Option<Json>)

  lemma SetNameClassified(nickname: string)
    ensures Classify(Some(SetNameMessage(nickname))) == Some(Method("set_name", Array([String(nickname)]), 42))
    ensures FirstString(Array([String(nickname)])) == Some(nickname)
  {
    var fields := SetNameMessage(nickname).fields;
    assert fields["params"] == Array([String(nickname)]) && fields["method"] == String("set_name");
    assert fields["id"] == Integer(42);
  }

  /** Asking for a name, from the page and back to it. The answer is queued behind what is queued for the connection;
      in every later run of the pipeline, and so in every run of the server, once there were more writable callbacks
      than messages before it, it is on the wire right there. The page that receives it shows an error exactly when
      the name was in use as the request was processed, and then says so. */
  lemma SetNameRoundTrip(codec: Codec, s: State, turn: Turn, r: State, steps: seq<Step>, later: Net, c: Address,
                         nickname: string)
    requires CanHappen(s, turn) && r == After(s, turn) && Wired(s) && turn.choice.reply
    requires codec.load(codec.stringify(SetNameMessage(nickname))) == Some(SetNameMessage(nickname))
    requires turn.event == Receive(c, codec.load(codec.stringify(SetNameMessage(nickname))))
    requires Feasible(r.net, steps) && StaysOpen(steps, c) && later == Run(r.net, steps)
    requires Callbacks(steps, c) > |s.net.links[c].queue|
    ensures c in later.links
    ensures
      var at, wire := |s.net.links[c].written| + |s.net.links[c].queue|, later.links[c].written;
      at < |wire| &&
      var body := wire[at].body;
      codec.parse(codec.dump(body)) == Some(body) ==>
        Show(codec.parse(codec.dump(body))) ==
        if IsNameUsed(s.room.chatters, nickname) then Some(ErrorLine(String("name already used"))) else None
  {
    SetNameClassified(nickname);
    var answer := AnswerTo(s.room.chatters, Method("set_name", Array([String(nickname)]), 42));
    AnswerDelivered(s, turn, r, steps, later, c, answer);
    ResponsesShown(Some(Named(nickname)), 1, "name already used", 42);
  }

  lemma AnswerDelivered(s: State, turn: Turn, r: State, steps: seq<Step>, later: Net, c: Address, answer: Json)
    requires CanHappen(s, turn) && r == After(s, turn) && Wired(s) && turn.choice.reply
    requires turn.event.Receive? && turn.event.at == c && OwedIn(s, turn, c) == [answer]
    requires Feasible(r.net, steps) && StaysOpen(steps, c) && later == Run(r.net, steps)
    requires Callbacks(steps, c) > |s.net.links[c].queue|
    ensures c in later.links
    ensures
      var at := |s.net.links[c].written| + |s.net.links[c].queue|;
      at < |later.links[c].written| && later.links[c].written[at] == Packet(answer, Direct)
  {
    var k := |s.net.links[c].queue|;
    AnswerQueued(s, turn, r, c, answer);
    WrittenInTime(r.net, steps, c, k);
  }

  lemma AnswerQueued(s: State, turn: Turn, r: State, c: Address, answer: Json)
    requires CanHappen(s, turn) && r == After(s, turn) && Wired(s) && turn.choice.reply
    requires turn.event.Receive? && turn.event.at == c && OwedIn(s, turn, c) == [answer]
    ensures c in r.net.links
    ensures r.net.links[c].written == s.net.links[c].written
    ensures |r.net.links[c].queue| > |s.net.links[c].queue|
    ensures r.net.links[c].queue[|s.net.links[c].queue|] == Packet(answer, Direct)
  {
    SendsAreDue(s, turn, c);
    StreamStep(s.net, NetStep(s, turn), c);
    assert Due(s, turn, c)[0] == Packet(answer, Direct);
  }

  /** A submitted line is broadcast once, under the sender's name at that time. */
  lemma ChatDispatched(s: State, turn: Turn, c: Address, text: string)
    requires CanHappen(s, turn) && Wired(s) && turn.event == Receive(c, Some(ChatMessage(text)))
    ensures c in s.room.chatters
    ensures CastIn(s, turn) == Some(Post(s.room.chatters[c].name, text))
    ensures forall d :: OwedIn(s, turn, d) == []
  {
    ChatClassified(text);
  }

  lemma ChatClassified(text: string)
    ensures Classify(Some(ChatMessage(text))) == Some(Notify("chat", Array([String(text)])))
    ensures FirstString(Array([String(text)])) == Some(text)
  {
    var fields := ChatMessage(text).fields;
    assert fields["params"] == Array([String(text)]) && fields["method"] == String("chat") && "id" !in fields;
  }

  lemma PostShown(name: string, text: string)
    ensures Show(Some(Post(name, text))) == Some(ChatLine(Some(String(name)), Some(String(text))))
  {
    var params := Array([String(name), String(text)]);
    ClientClassifies("message", Some(params), None, 0, "", 0);
    assert ArrayGet(params, 0) == Some(String(name)) && ArrayGet(params, 1) == Some(String(text));
  }

  /** A chat line received on connection `c` is queued to every connection `d` behind what is queued there. In any
      later run of the pipeline, and so in every run of the server, once there were more writable callbacks for `d`
      than messages before it, it is on the wire of `d`, right where it was queued, under the name that `c` had when
      the line was processed. */
  lemma ChatDelivered(s: State, turn: Turn, r: State, steps: seq<Step>, later: Net, c: Address, d: Address,
                      text: string, p: Packet)
    requires CanHappen(s, turn) && r == After(s, turn) && Wired(s) && d in s.net.links && Reached(turn.choice, d)
    requires turn.event == Receive(c, Some(ChatMessage(text))) && c in s.room.chatters
    requires p == Packet(Post(s.room.chatters[c].name, text), Broadcast(|s.room.history|))
    requires Feasible(r.net, steps) && StaysOpen(steps, d) && later == Run(r.net, steps)
    requires Callbacks(steps, d) > |s.net.links[d].queue|
    ensures d in later.links
    ensures
      var at := |s.net.links[d].written| + |s.net.links[d].queue|;
      at < |later.links[d].written| && later.links[d].written[at] == p
  {
    ChatDispatched(s, turn, c, text);
    BroadcastDelivered(s, turn, r, steps, later, d);
  }

  /** From one page to all others: the page of `d` shows the line that the page of `c` submitted, with the name. */
  lemma ChatRoundTrip(codec: Codec, s: State, turn: Turn, r: State, steps: seq<Step>, later: Net, c: Address,
                      d: Address, text: string)
    requires CanHappen(s, turn) && r == After(s, turn) && Wired(s) && d in s.net.links && Reached(turn.choice, d)
    requires codec.load(codec.stringify(ChatMessage(text))) == Some(ChatMessage(text))
    requires turn.event == Receive(c, codec.load(codec.stringify(ChatMessage(text))))
    requires Feasible(r.net, steps) && StaysOpen(steps, d) && later == Run(r.net, steps)
    requires Callbacks(steps, d) > |s.net.links[d].queue|
    ensures c in s.room.chatters && d in later.links
    ensures
      var at, wire := |s.net.links[d].written| + |s.net.links[d].queue|, later.links[d].written;
      at < |wire| &&
      var body := wire[at].body;
      codec.parse(codec.dump(body)) == Some(body) ==>
        Show(codec.parse(codec.dump(body))) == Some(ChatLine(Some(String(s.room.chatters[c].name)), Some(String(text))))
  {
    ChatDispatched(s, turn, c, text);
    ChatDelivered(s, turn, r, steps, later, c, d, text,
                  Packet(Post(s.room.chatters[c].name, text), Broadcast(|s.room.history|)));
    PostShown(s.room.chatters[c].name, text);
  }

  /** A line from an address without a chatter reaches nobody. */
  lemma StrangersAreNotHeard(s: State, c: Address, text: Option<Json>, choice: Choice)
    requires s.handlers == ChatHandlers && c !in s.room.chatters && Fits(choice, s.room.chatters)
    requires Classify(text).Some? && Classify(text).value.Notify?
    ensures Process(s, c, text, choice) == Outcome(s.room, [])
  {
  }

  /** An address that has no chatter gets one only by being established: this holds for one that has left as well
      as for one that was never there. */
  lemma {:induction false} StaysStranger(s: State, turns: seq<Turn>, c: Address)
    requires Wired(s) && Possible(s, turns) && c !in s.room.chatters
    requires forall i :: 0 <= i < |turns| ==> turns[i].event != Established(c)
    ensures Wired(AfterAll(s, turns)) && c !in AfterAll(s, turns).room.chatters
    decreases turns
  {
    if turns != [] {
      assert turns[0].event != Established(c);
      WiredStep(s, turns[0]);
      ChattersAfter(s, turns[0]);
      StaysStranger(After(s, turns[0]), turns[1..], c);
    }
  }

  /** However long ago a connection has left: if it has not joined again, no line from it reaches anybody. */
  lemma LeaversAreNotHeard(s: State, leave: Turn, turns: seq<Turn>, c: Address, text: string, choice: Choice)
    requires Wired(s) && CanHappen(s, leave) && leave.event == Closed(c)
    requires Possible(After(s, leave), turns) && forall i :: 0 <= i < |turns| ==> turns[i].event != Established(c)
    requires Fits(choice, AfterAll(After(s, leave), turns).room.chatters)
    ensures
      var s' := AfterAll(After(s, leave), turns);
      Process(s', c, Some(ChatMessage(text)), choice) == Outcome(s'.room, [])
  {
    WiredStep(s, leave);
    ChattersAfter(s, leave);
    StaysStranger(After(s, leave), turns, c);
    ChatClassified(text);
    StrangersAreNotHeard(AfterAll(After(s, leave), turns), c, Some(ChatMessage(text)), choice);
  }

  /** And none from a connection that never joined. */
  lemma NeverJoinedNotHeard(turns: seq<Turn>, c: Address, text: string, choice: Choice)
    requires Possible(Initial(ChatHandlers), turns)
    requires forall i :: 0 <= i < |turns| ==> turns[i].event != Established(c)
    requires Fits(choice, AfterAll(Initial(ChatHandlers), turns).room.chatters)
    ensures
      var s' := AfterAll(Initial(ChatHandlers), turns);
      Process(s', c, Some(ChatMessage(text)), choice) == Outcome(s'.room, [])
  {
    InvInitially();
    StaysStranger(Initial(ChatHandlers), turns, c);
    ChatClassified(text);
    StrangersAreNotHeard(AfterAll(Initial(ChatHandlers), turns), c, Some(ChatMessage(text)), choice);
  }

  // ---------- a page and its wire ----------

  /** A broadcast: the page shows a line for it, and not an error. */
  predicate Showable(body: Json) {
    Show(Some(body)).Some? && !Show(Some(body)).value.ErrorLine?
  }

  predicate AllShowable(bodies: seq<Json>) {
    forall i :: 0 <= i < |bodies| ==> Showable(bodies[i])
  }

  function LinesOf(bodies: seq<Json>): (lines: seq<Shown>)
    requires AllShowable(bodies)
    ensures |lines| == |bodies|
    ensures forall i :: 0 <= i < |lines| ==> Some(lines[i]) == Show(Some(bodies[i]))
  {
    if bodies == [] then []
    else
      assert Showable(bodies[|bodies| - 1]);
      LinesOf(bodies[..|bodies| - 1]) + [Show(Some(bodies[|bodies| - 1])).value]
  }

  /** The lines that are no errors: those of chat messages and announcements. */
  function ChatLines(lines: seq<Shown>): seq<Shown> {
    if lines == [] then []
    else
      var line := lines[|lines| - 1];
      ChatLines(lines[..|lines| - 1]) + if line.ErrorLine? then [] else [line]
  }

  /** The texts a page receives from what was written to its connection. */
  function Texts(codec: Codec, wire: seq<Packet>): seq<Option<Json>> {
    seq(|wire|, i requires 0 <= i < |wire| => codec.parse(codec.dump(wire[i].body)))
  }

  predicate Readable(codec: Codec, wire: seq<Packet>) {
    forall i :: 0 <= i < |wire| ==> codec.parse(codec.dump(wire[i].body)) == Some(wire[i].body)
  }

  lemma AnnouncementShown(what: string, who: string)
    ensures Show(Some(Announcement(what, who))) == Some(AnnouncementLine(Some(String(what)), Some(String(who))))
  {
    var params := Array([String(what), String(who)]);
    ClientClassifies("announce", Some(params), None, 0, "", 0);
    assert ArrayGet(params, 0) == Some(String(what)) && ArrayGet(params, 1) == Some(String(who));
  }

  lemma CastShowable(s: State, turn: Turn)
    requires CastIn(s, turn).Some?
    ensures Showable(CastIn(s, turn).value)
  {
    match turn.event
    case Closed(c) => AnnouncementShown("gone", s.room.chatters[c].name);
    case Receive(c, text) =>
      if NewName(s, turn).Some? {
        AnnouncementShown("arrived", NewName(s, turn).value);
      } else {
        PostShown(s.room.chatters[c].name, FirstString(Classify(text).value.params).value);
      }
  }

  lemma {:induction false} HistoryShowable(s: State, turns: seq<Turn>)
    requires Wired(s) && Possible(s, turns) && AllShowable(s.room.history)
    ensures AllShowable(AfterAll(s, turns).room.history)
    decreases turns
  {
    if turns != [] {
      HistoryGrows(s, turns[0]);
      if CastIn(s, turns[0]).Some? {
        CastShowable(s, turns[0]);
      }
      WiredStep(s, turns[0]);
      HistoryShowable(After(s, turns[0]), turns[1..]);
    }
  }

  lemma ResponseShowsNoLine(body: Json)
    requires !IsNotification(body)
    ensures Show(Some(body)).Some? ==> Show(Some(body)).value.ErrorLine?
  {
  }

  lemma OneMoreLine(lines: seq<Shown>, shown: Option<Shown>)
    ensures ChatLines(lines + if shown.Some? then [shown.value] else []) ==
            ChatLines(lines) + if shown.Some? && !shown.value.ErrorLine? then [shown.value] else []
  {
    if shown.Some? {
      assert (lines + [shown.value])[..|lines|] == lines;
    } else {
      assert lines + [] == lines && ChatLines(lines) + [] == ChatLines(lines);
    }
  }

  lemma OneMoreText(codec: Codec, wire: seq<Packet>)
    requires wire != [] && Readable(codec, wire)
    ensures
      var shown := Show(Some(wire[|wire| - 1].body));
      AllShown(Texts(codec, wire)) ==
      AllShown(Texts(codec, wire[..|wire| - 1])) + if shown.Some? then [shown.value] else []
  {
    var texts := Texts(codec, wire);
    assert texts[..|texts| - 1] == Texts(codec, wire[..|wire| - 1]);
  }

  /** A page that reads its wire shows exactly the notifications on it, in their order, besides errors. */
  lemma {:induction false} PageShowsNotes(codec: Codec, wire: seq<Packet>, history: seq<Json>)
    requires Chronicled(wire, history) && AllShowable(history) && Readable(codec, wire)
    ensures AllShowable(Notes(wire))
    ensures ChatLines(AllShown(Texts(codec, wire))) == LinesOf(Notes(wire))
  {
    if wire != [] {
      var front, p := wire[..|wire| - 1], wire[|wire| - 1];
      ChronicledPrefix(wire, front, [p], history);
      assert Readable(codec, front);
      PageShowsNotes(codec, front, history);
      OneMoreText(codec, wire);
      OneMoreLine(AllShown(Texts(codec, front)), Show(Some(p.body)));
      if IsNotification(p.body) {
        assert Showable(p.body);
        assert AllShowable(Notes(wire)) && Notes(wire)[..|Notes(wire)| - 1] == Notes(front);
      } else {
        ResponseShowsNoLine(p.body);
        assert Notes(front) + [] == Notes(front);
      }
    }
  }

  /** The lines are those of the broadcasts at some places of the history, in order. */
  ghost predicate LinesAt(at: seq<nat>, history: seq<Json>, lines: seq<Shown>) {
    && Increasing(at) && |at| == |lines|
    && forall i :: 0 <= i < |at| ==> at[i] < |history| && Show(Some(history[at[i]])) == Some(lines[i])
  }

  lemma LinesAtIndices(codec: Codec, wire: seq<Packet>, history: seq<Json>)
    requires Chronicled(wire, history) && AllShowable(history) && Readable(codec, wire)
    ensures LinesAt(Indices(wire), history, ChatLines(AllShown(Texts(codec, wire))))
  {
    PageShowsNotes(codec, wire, history);
    NotesAreIndexed(wire, history);
  }

  /** In every run: a page that has received what was written to its connection shows, besides errors, lines of
      the one global history of broadcasts, in the order of that history. */
  lemma PageFollowsHistory(codec: Codec, turns: seq<Turn>, wire: seq<Packet>)
    requires Possible(Initial(ChatHandlers), turns) && Readable(codec, wire)
    requires OnWire(AfterAll(Initial(ChatHandlers), turns), wire)
    ensures
      exists at :: LinesAt(at, AfterAll(Initial(ChatHandlers), turns).room.history,
                           ChatLines(AllShown(Texts(codec, wire))))
  {
    var s := AfterAll(Initial(ChatHandlers), turns);
    Reachable(turns);
    WireChronicled(s, wire);
    InvInitially();
    HistoryShowable(Initial(ChatHandlers), turns);
    LinesAtIndices(codec, wire, s.room.history);
  }

  lemma PageShowsPrefix(codec: Codec, l: Link, history: seq<Json>, from: nat)
    requires Chronicled(l.accepted, history) && l.written <= l.accepted && AllShowable(history)
    requires Readable(codec, l.written) && from <= |history| && Notes(l.written) <= history[from..]
    ensures AllShowable(history[from..])
    ensures ChatLines(AllShown(Texts(codec, l.written))) <= LinesOf(history[from..])
  {
    ChronicledPrefix(l.accepted, l.written, l.accepted[|l.written|..], history);
    PageShowsNotes(codec, l.written, history);
  }

  /** And if no allocation for it fails, the page shows every broadcast since it joined, up to where its wire has
      come. */
  lemma PageShowsEverything(codec: Codec, s: State, join: Turn, turns: seq<Turn>, c: Address)
    requires Inv(s) && AllShowable(s.room.history) && CanHappen(s, join) && join.event == Established(c)
    requires Possible(After(s, join), turns) && StaysConnected(turns, c) && Missed(After(s, join), turns, c) == 0
    requires c in AfterAll(After(s, join), turns).net.links ==>
               Readable(codec, AfterAll(After(s, join), turns).net.links[c].written)
    ensures
      var s' := AfterAll(After(s, join), turns);
      && c in s'.net.links && |s.room.history| <= |s'.room.history|
      && var lived := s'.room.history[|s.room.history|..];
         && AllShowable(lived)
         && ChatLines(AllShown(Texts(codec, s'.net.links[c].written))) <= LinesOf(lived)
  {
    var r := After(s, join);
    var s' := AfterAll(r, turns);
    JoinerSeesEverything(s, join, turns, c);
    InvStep(s, join);
    FreshStart(s, join, c);
    LaterLog(r, turns, c);
    HistoryGrows(s, join);
    HistoryShowable(r, turns);
    PageShowsPrefix(codec, s'.net.links[c], s'.room.history, |s.room.history|);
  }
}
