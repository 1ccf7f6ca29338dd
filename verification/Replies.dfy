/** Requests and their answers. */
module Replies {
  import opened Jansson
  import opened Rpc
  import opened Pipeline
  import opened ChatRoom
  import opened ServerModel
  import opened ServerInvariants
  import opened BroadcastOrder

  /** The messages among `ps` that are not notifications: on the wire, the responses. */
  function Responses(ps: seq<Packet>): seq<Json> {
    if ps == [] then []
    else
      var p := ps[|ps| - 1];
      Responses(ps[..|ps| - 1]) + if IsNotification(p.body) then [] else [p.body]
  }

  /** The answer a turn owes to `c`, unless there is no memory for it. */
  function Granted(s: State, turn: Turn, c: Address): seq<Json> {
    if turn.choice.reply then OwedIn(s, turn, c) else []
  }

  /** The answers granted to `c` for the requests it sends in a run. */
  function Answers(s: State, turns: seq<Turn>, c: Address): seq<Json>
    requires Possible(s, turns)
    decreases turns
  {
    if turns == [] then []
    else Granted(s, turns[0], c) + Answers(After(s, turns[0]), turns[1..], c)
  }

  /** Whether the turn is a valid request of `c`. */
  predicate Asks(turn: Turn, c: Address) {
    turn.event.Receive? && turn.event.at == c &&
    Classify(turn.event.text).Some? && Classify(turn.event.text).value.Method?
  }

  /** Whether there is memory for the answer to every request of `c`. */
  predicate AllGranted(turns: seq<Turn>, c: Address) {
    forall i :: 0 <= i < |turns| && Asks(turns[i], c) ==> turns[i].choice.reply
  }

  function IdOf(turn: Turn, c: Address): seq<int32> {
    if Asks(turn, c) then [Classify(turn.event.text).value.id] else []
  }

  /** The identifiers of the requests `c` sends in a run, as the C code sees them. */
  function RequestIds(turns: seq<Turn>, c: Address): seq<int32> {
    if turns == [] then [] else IdOf(turns[0], c) + RequestIds(turns[1..], c)
  }

  lemma {:induction false} ResponsesJoin(a: seq<Packet>, b: seq<Packet>)
    ensures Responses(a + b) == Responses(a) + Responses(b)
  {
    if b == [] {
      assert a + b == a;
    } else {
      assert (a + b)[..|a + b| - 1] == a + b[..|b| - 1];
      ResponsesJoin(a, b[..|b| - 1]);
    }
  }

  lemma Associative<T>(a: seq<T>, b: seq<T>, c: seq<T>)
    ensures (a + b) + c == a + (b + c)
  {
  }

  lemma ResponsesDue(s: State, turn: Turn, c: Address)
    ensures Responses(Due(s, turn, c)) == Granted(s, turn, c)
  {
    var owed, cast := OwedIn(s, turn, c), CastIn(s, turn);
    var reply := if owed != [] && turn.choice.reply then [Packet(owed[0], Direct)] else [];
    var post := if cast.Some? && Reached(turn.choice, c) then [Packet(cast.value, Broadcast(|s.room.history|))] else [];
    assert Due(s, turn, c) == reply + post;
    ResponsesJoin(reply, post);
    if reply != [] {
      OwedLooks(s, turn, c);
      assert reply[..0] == [];
    }
    if post != [] {
      CastLooks(s, turn);
      assert post[..0] == [];
    }
  }

  lemma AnswersTurn(s: State, turn: Turn, c: Address)
    requires CanHappen(s, turn) && Wired(s) && c in s.net.links && turn.event != Closed(c)
    ensures c in After(s, turn).net.links
    ensures Responses(After(s, turn).net.links[c].accepted) ==
            Responses(s.net.links[c].accepted) + Granted(s, turn, c)
  {
    StreamStep(s.net, NetStep(s, turn), c);
    SendsAreDue(s, turn, c);
    ResponsesDue(s, turn, c);
    ResponsesJoin(s.net.links[c].accepted, Due(s, turn, c));
  }

  lemma {:induction false} AnswersRun(s: State, turns: seq<Turn>, c: Address)
    requires Possible(s, turns) && Wired(s) && c in s.net.links && StaysConnected(turns, c)
    ensures c in AfterAll(s, turns).net.links
    ensures Responses(AfterAll(s, turns).net.links[c].accepted) ==
            Responses(s.net.links[c].accepted) + Answers(s, turns, c)
    decreases turns
  {
    if turns != [] {
      assert turns[0].event != Closed(c);
      var r, log := After(s, turns[0]), Responses(s.net.links[c].accepted);
      AnswersTurn(s, turns[0], c);
      WiredStep(s, turns[0]);
      AnswersRun(r, turns[1..], c);
      Associative(log, Granted(s, turns[0], c), Answers(r, turns[1..], c));
    }
  }

  /** No request is answered twice, and each is answered if and only if there is memory for every answer. */
  lemma {:induction false} AnsweredExactly(s: State, turns: seq<Turn>, c: Address)
    requires Possible(s, turns)
    ensures |Answers(s, turns, c)| <= |RequestIds(turns, c)|
    ensures |Answers(s, turns, c)| == |RequestIds(turns, c)| <==> AllGranted(turns, c)
    decreases turns
  {
    if turns != [] {
      var rest := turns[1..];
      AnsweredExactly(After(s, turns[0]), rest, c);
      assert OwedIn(s, turns[0], c) != [] <==> Asks(turns[0], c);
      AllGrantedSplit(turns, c);
    }
  }

  lemma AllGrantedSplit(turns: seq<Turn>, c: Address)
    requires turns != []
    ensures AllGranted(turns, c) <==> (Asks(turns[0], c) ==> turns[0].choice.reply) && AllGranted(turns[1..], c)
  {
    var rest := turns[1..];
    if AllGranted(turns, c) {
      assert forall i :: 0 <= i < |rest| ==> rest[i] == turns[i + 1];
    } else {
      var i :| 0 <= i < |turns| && Asks(turns[i], c) && !turns[i].choice.reply;
      assert i > 0 ==> rest[i - 1] == turns[i];
    }
  }

  /** Each response has the identifier of its request. */
  predicate Echo(responses: seq<Json>, ids: seq<int32>) {
    |responses| == |ids| && forall i :: 0 <= i < |ids| ==> ResponseId(responses[i]) == Some(Integer(ids[i]))
  }

  lemma EchoJoin(a: seq<Json>, x: seq<int32>, b: seq<Json>, y: seq<int32>)
    requires Echo(a, x) && Echo(b, y)
    ensures Echo(a + b, x + y)
  {
  }

  lemma {:induction false} AnswersEchoIds(s: State, turns: seq<Turn>, c: Address)
    requires Possible(s, turns) && AllGranted(turns, c)
    ensures Echo(Answers(s, turns, c), RequestIds(turns, c))
    decreases turns
  {
    if turns != [] {
      AllGrantedSplit(turns, c);
      AnswersEchoIds(After(s, turns[0]), turns[1..], c);
      EchoTurn(s, turns[0], c);
      EchoJoin(Granted(s, turns[0], c), IdOf(turns[0], c), Answers(After(s, turns[0]), turns[1..], c),
               RequestIds(turns[1..], c));
    }
  }

  lemma EchoTurn(s: State, turn: Turn, c: Address)
    requires Asks(turn, c) ==> turn.choice.reply
    ensures Echo(Granted(s, turn, c), IdOf(turn, c))
  {
    if Asks(turn, c) {
      AnswerEchoesId(s.room.chatters, Classify(turn.event.text).value);
    }
  }

  lemma AnswerEchoesId(chatters: Chatters, call: Call)
    requires call.Method?
    ensures ResponseId(AnswerTo(chatters, call)) == Some(Integer(call.id))
  {
    var name := FirstString(call.params).GetOr("");
    assert ResponseId(Response(Some(Named(name)), call.id)) == Some(Integer(call.id));
    assert ResponseId(ErrorResponse(-1, "not implemented", call.id)) == Some(Integer(call.id));
    assert ResponseId(ErrorResponse(-1, "invalid params", call.id)) == Some(Integer(call.id));
    assert ResponseId(ErrorResponse(1, "name already used", call.id)) == Some(Integer(call.id));
  }

  /** One response per request, in order. The responses a connection has been sent since it was established
      are the answers to its requests, position by position; those on its wire are a prefix of them. There is exactly
      one for each request, and each has the identifier of its request, if and only if there was memory for them all;
      what other allocations fail does not matter. */
  lemma OneResponsePerRequest(s: State, join: Turn, turns: seq<Turn>, c: Address)
    requires Inv(s) && CanHappen(s, join) && join.event == Established(c)
    requires Possible(After(s, join), turns) && StaysConnected(turns, c)
    ensures
      var r := After(s, join);
      var s' := AfterAll(r, turns);
      && c in s'.net.links
      && var responses, ids := Responses(s'.net.links[c].accepted), RequestIds(turns, c);
         && responses == Answers(r, turns, c)
         && Responses(s'.net.links[c].written) <= responses
         && |responses| <= |ids|
         && (|responses| == |ids| <==> AllGranted(turns, c))
         && (AllGranted(turns, c) ==> Echo(responses, ids))
  {
    var r := After(s, join);
    InvStep(s, join);
    SendsAreDue(s, join, c);
    EstablishedAt(s.net, NetStep(s, join), c);
    assert r.net.links[c].accepted == [];
    assert Responses(r.net.links[c].accepted) == [];
    AnswersRun(r, turns, c);
    InvRun(r, turns);
    var l := AfterAll(r, turns).net.links[c];
    assert l.accepted == l.written + l.queue;
    ResponsesJoin(l.written, l.queue);
    AnsweredExactly(r, turns, c);
    if AllGranted(turns, c) {
      AnswersEchoIds(r, turns, c);
    }
  }

  /** The record of a connection that was closed: what it was sent besides its farewell, and what was written. */
  lemma LeaverRecord(s: State, leave: Turn, c: Address)
    requires Inv(s) && CanHappen(s, leave) && leave.event == Closed(c)
    ensures
      var ended := After(s, leave).net.ended;
      && ended != [] && ended[|ended| - 1].at == c
      && Responses(ended[|ended| - 1].accepted) == Responses(s.net.links[c].accepted)
      && ended[|ended| - 1].written == s.net.links[c].written
  {
    FarewellNotWritten(s, leave, c);
    var l := s.net.links[c];
    var gone := Packet(Announcement("gone", s.room.chatters[c].name), Broadcast(|s.room.history|));
    NotificationClassified("announce", Some(Array([String("gone"), String(s.room.chatters[c].name)])));
    assert [gone][..0] == [];
    ResponsesJoin(l.accepted, if Reached(leave.choice, c) then [gone] else []);
  }

  /** The same for a connection that was closed again: the record that is left has exactly the answers to its requests,
      and of those on the wire a prefix. */
  lemma ResponsesOfSession(s: State, join: Turn, turns: seq<Turn>, leave: Turn, c: Address)
    requires Inv(s) && CanHappen(s, join) && join.event == Established(c)
    requires Possible(After(s, join), turns) && StaysConnected(turns, c)
    requires CanHappen(AfterAll(After(s, join), turns), leave) && leave.event == Closed(c)
    ensures
      var ended := After(AfterAll(After(s, join), turns), leave).net.ended;
      && ended != [] && ended[|ended| - 1].at == c
      && var record, ids := ended[|ended| - 1], RequestIds(turns, c);
         && Responses(record.accepted) == Answers(After(s, join), turns, c)
         && Responses(record.written) <= Responses(record.accepted)
         && (|Responses(record.accepted)| == |ids| <==> AllGranted(turns, c))
         && (AllGranted(turns, c) ==> Echo(Responses(record.accepted), ids))
  {
    InvStep(s, join);
    InvRun(After(s, join), turns);
    OneResponsePerRequest(s, join, turns, c);
    LeaverRecord(AfterAll(After(s, join), turns), leave, c);
  }

  /** A run in which a request is never answered: a connection is established and asks for something, and there is
      no memory for the answer. */
  lemma UnansweredRequest()
    ensures
      var s := Initial(ChatHandlers);
      var join := Turn(Established(0), Choice([], [], true));
      var ask := Turn(Receive(0, Some(Request("add", Array([]), 42))), Choice([0], [true], false));
      && Possible(s, [join, ask])
      && RequestIds([ask], 0) == [42]
      && var s' := AfterAll(s, [join, ask]);
         0 in s'.net.links && s'.net.links[0] == NEW_LINK
  {
    var s := Initial(ChatHandlers);
    var join := Turn(Established(0), Choice([], [], true));
    var ask := Turn(Receive(0, Some(Request("add", Array([]), 42))), Choice([0], [true], false));
    InvInitially();
    FreshStart(s, join, 0);
    ChattersAfter(s, join);
    WiredStep(s, join);
    var r := After(s, join);
    assert Fits(ask.choice, r.room.chatters);
    AskInVain(r, ask);
    assert [ask][1..] == [];
    TwoTurns(s, join, ask);
  }

  lemma AskInVain(s: State, ask: Turn)
    requires CanHappen(s, ask) && Wired(s) && ask.event == Receive(0, Some(Request("add", Array([]), 42)))
    requires !ask.choice.reply && 0 in s.net.links && s.net.links[0] == NEW_LINK
    ensures IdOf(ask, 0) == [42]
    ensures 0 in After(s, ask).net.links && After(s, ask).net.links[0] == NEW_LINK
  {
    IdEcho("add", Array([]), 42, None, 0, "");
    assert Classify(ask.event.text) == Some(Method("add", Array([]), 42));
    SendsAreDue(s, ask, 0);
    NextAt(s.net, NetStep(s, ask), 0);
  }

  lemma TwoTurns(s: State, a: Turn, b: Turn)
    requires CanHappen(s, a) && CanHappen(After(s, a), b)
    ensures Possible(s, [a, b]) && AfterAll(s, [a, b]) == After(After(s, a), b)
  {
    assert [a, b][1..] == [b];
    OneTurn(After(s, a), b);
  }

  lemma OneTurn(s: State, a: Turn)
    requires CanHappen(s, a)
    ensures Possible(s, [a]) && AfterAll(s, [a]) == After(s, a)
  {
    var none := [a][1..];
    assert none == [];
    assert Possible(After(s, a), none) && AfterAll(After(s, a), none) == After(s, a);
  }

  // ---------- a server with the default handlers ----------

  /** What the default handlers answer to a turn: a valid request, and nothing else, is answered with
      "not implemented". */
  function DefaultAnswer(turn: Turn, c: Address): seq<Packet> {
    if Asks(turn, c)
    then [Packet(ErrorResponse(-1, "not implemented", Classify(turn.event.text).value.id), Direct)] else []
  }

  function DefaultAnswers(turns: seq<Turn>, c: Address): seq<Packet> {
    if turns == [] then [] else DefaultAnswer(turns[0], c) + DefaultAnswers(turns[1..], c)
  }

  /** Those for which there is memory. */
  function DefaultGranted(turns: seq<Turn>, c: Address): seq<Packet> {
    if turns == [] then []
    else (if turns[0].choice.reply then DefaultAnswer(turns[0], c) else []) + DefaultGranted(turns[1..], c)
  }

  lemma {:induction false} DefaultGrantedAll(turns: seq<Turn>, c: Address)
    ensures |DefaultGranted(turns, c)| <= |DefaultAnswers(turns, c)|
    ensures DefaultGranted(turns, c) == DefaultAnswers(turns, c) <==> AllGranted(turns, c)
  {
    if turns != [] {
      DefaultGrantedAll(turns[1..], c);
      AllGrantedSplit(turns, c);
      var a, g := DefaultAnswers(turns[1..], c), DefaultGranted(turns[1..], c);
      var first := DefaultAnswer(turns[0], c);
      assert (first + a)[|first|..] == a && (first + g)[|first|..] == g;
      assert [] + g == g && [] + a == a;
    }
  }

  lemma DefaultTurn(s: State, turn: Turn, c: Address)
    requires CanHappen(s, turn) && s.handlers == DefaultHandlers
    requires c in s.net.links && turn.event != Closed(c)
    ensures c in After(s, turn).net.links
    ensures After(s, turn).net.links[c].accepted ==
            s.net.links[c].accepted + if turn.choice.reply then DefaultAnswer(turn, c) else []
  {
    StreamStep(s.net, NetStep(s, turn), c);
    var sends := Handle(s, turn).sends;
    if sends != [] {
      assert |sends| == 1 && sends[..0] == [];
    }
    assert Delivered(sends, c) == if turn.choice.reply then DefaultAnswer(turn, c) else [];
  }

  /** A server without handlers of its own: what each connection is sent is a function of the texts received
      from it, and of the memory for the answers to them, alone. */
  lemma {:induction false} DefaultServerAnswers(s: State, turns: seq<Turn>, c: Address)
    requires Possible(s, turns) && s.handlers == DefaultHandlers && c in s.net.links && StaysConnected(turns, c)
    ensures c in AfterAll(s, turns).net.links
    ensures AfterAll(s, turns).net.links[c].accepted == s.net.links[c].accepted + DefaultGranted(turns, c)
    decreases turns
  {
    if turns != [] {
      assert turns[0].event != Closed(c);
      DefaultTurn(s, turns[0], c);
      DefaultServerAnswers(After(s, turns[0]), turns[1..], c);
      var first := if turns[0].choice.reply then DefaultAnswer(turns[0], c) else [];
      Associative(s.net.links[c].accepted, first, DefaultGranted(turns[1..], c));
    }
  }

  /** A whole connection to such a server: it has been sent the answers to all its valid requests since it was
      established, and nothing else, if and only if there was memory for them; its wire is a prefix of what it has
      been sent. */
  lemma DefaultServerSession(s: State, join: Turn, turns: seq<Turn>, c: Address)
    requires s.handlers == DefaultHandlers && NetInv(s.net)
    requires CanHappen(s, join) && join.event == Established(c)
    requires Possible(After(s, join), turns) && StaysConnected(turns, c)
    ensures
      var s' := AfterAll(After(s, join), turns);
      && c in s'.net.links
      && s'.net.links[c].accepted == DefaultGranted(turns, c)
      && s'.net.links[c].written <= s'.net.links[c].accepted
      && (s'.net.links[c].accepted == DefaultAnswers(turns, c) <==> AllGranted(turns, c))
  {
    var r := After(s, join);
    EstablishedAt(s.net, NetStep(s, join), c);
    DefaultServerAnswers(r, turns, c);
    DefaultGrantedAll(turns, c);
    NetInvStep(s.net, NetStep(s, join));
    RunsThePipeline(r, turns);
    NetInvRun(r.net, NetSteps(r, turns));
    var l := AfterAll(r, turns).net.links[c];
    assert l.accepted == l.written + l.queue;
  }

  /** And the record that is left of it. */
  lemma DefaultSessionRecord(s: State, join: Turn, turns: seq<Turn>, leave: Turn, c: Address)
    requires s.handlers == DefaultHandlers && NetInv(s.net)
    requires CanHappen(s, join) && join.event == Established(c)
    requires Possible(After(s, join), turns) && StaysConnected(turns, c)
    requires CanHappen(AfterAll(After(s, join), turns), leave) && leave.event == Closed(c)
    ensures
      var ended := After(AfterAll(After(s, join), turns), leave).net.ended;
      && ended != [] && ended[|ended| - 1].at == c
      && var record := ended[|ended| - 1];
         && record.accepted == DefaultGranted(turns, c)
         && record.written <= record.accepted
         && (record.accepted == DefaultAnswers(turns, c) <==> AllGranted(turns, c))
  {
    DefaultServerSession(s, join, turns, c);
    var s' := AfterAll(After(s, join), turns);
    HandlersStay(After(s, join), turns);
    ClosedAt(s'.net, NetStep(s', leave), c);
    assert Handle(s', leave).sends == [];
    var l := s'.net.links[c];
    assert l.accepted + [] == l.accepted;
  }

  lemma {:induction false} HandlersStay(s: State, turns: seq<Turn>)
    requires Possible(s, turns)
    ensures AfterAll(s, turns).handlers == s.handlers
    decreases turns
  {
    if turns != [] {
      HandlersStay(After(s, turns[0]), turns[1..]);
    }
  }
}
