/** A jrpc server as a whole: the protocol callback with its handlers on top of the message pipeline. */
module ServerModel {
  import opened Jansson
  import opened Rpc
  import opened Pipeline
  import opened ChatRoom

  /** The handlers a server was configured with: the library's defaults, or those of the chat server. */
  datatype Handlers = DefaultHandlers | ChatHandlers

  datatype State = State(handlers: Handlers, net: Net, room: Room)

  function Initial(handlers: Handlers): State {
    State(handlers, NO_LINKS, EMPTY_ROOM)
  }

  /** One event and how the choices left open by the program fall while it is handled. */
  datatype Turn = Turn(event: Event, choice: Choice)

  function DefaultMethod(room: Room, c: Address, id: int32, choice: Choice): Outcome {
    Reply(room, c, ErrorResponse(-1, "not implemented", id), choice)
  }

  /** A received text is classified and dispatched to a handler, or dropped. */
  function Process(s: State, c: Address, text: Option<Json>, choice: Choice): Outcome
    requires Fits(choice, s.room.chatters)
  {
    match Classify(text)
    case Some(Method(name, params, id)) =>
      if s.handlers.ChatHandlers? then OnMethod(s.room, c, name, params, id, choice)
      else DefaultMethod(s.room, c, id, choice)
    case Some(Notify(name, params)) =>
      if s.handlers.ChatHandlers? then OnNotify(s.room, c, name, params, choice)
      else Outcome(s.room, [])
    case None => Outcome(s.room, [])
  }

  /** What the handlers do in a turn. */
  function Handle(s: State, turn: Turn): Outcome
    requires Fits(turn.choice, s.room.chatters)
  {
    match turn.event
    case Established(c) => if s.handlers.ChatHandlers? then OnConnected(s.room, c) else Outcome(s.room, [])
    case Closed(c) => if s.handlers.ChatHandlers? then OnDisconnected(s.room, c, turn.choice) else Outcome(s.room, [])
    case Receive(c, text) => Process(s, c, text, turn.choice)
    case _ => Outcome(s.room, [])
  }

  function NetStep(s: State, turn: Turn): Step
    requires Fits(turn.choice, s.room.chatters)
  {
    Step(turn.event, Handle(s, turn).sends)
  }

  predicate CanHappen(s: State, turn: Turn) {
    Fits(turn.choice, s.room.chatters) && Enabled(s.net, NetStep(s, turn))
  }

  function After(s: State, turn: Turn): State
    requires CanHappen(s, turn)
  {
    State(s.handlers, Next(s.net, NetStep(s, turn)), Handle(s, turn).room)
  }

  predicate Possible(s: State, turns: seq<Turn>)
    decreases turns
  {
    turns == [] || (CanHappen(s, turns[0]) && Possible(After(s, turns[0]), turns[1..]))
  }

  function AfterAll(s: State, turns: seq<Turn>): State
    requires Possible(s, turns)
    decreases turns
  {
    if turns == [] then s else AfterAll(After(s, turns[0]), turns[1..])
  }

  /** A run can be looked at halfway. */
  lemma {:induction false} Halfway(s: State, turns: seq<Turn>, i: nat)
    requires Possible(s, turns) && i <= |turns|
    ensures Possible(s, turns[..i])
    ensures i > 0 ==>
              && CanHappen(s, turns[0]) && Possible(After(s, turns[0]), turns[1..][..i - 1])
              && AfterAll(s, turns[..i]) == AfterAll(After(s, turns[0]), turns[1..][..i - 1])
    decreases turns
  {
    if i > 0 {
      Halfway(After(s, turns[0]), turns[1..], i - 1);
      assert turns[..i][1..] == turns[1..][..i - 1];
    }
  }

  /** The pipeline's view of a run. */
  function NetSteps(s: State, turns: seq<Turn>): seq<Step>
    requires Possible(s, turns)
    decreases turns
  {
    if turns == [] then [] else [NetStep(s, turns[0])] + NetSteps(After(s, turns[0]), turns[1..])
  }

  /** Every run of a server is a run of the pipeline, so the pipeline's theorems apply to it. */
  lemma {:induction false} RunsThePipeline(s: State, turns: seq<Turn>)
    requires Possible(s, turns)
    ensures Feasible(s.net, NetSteps(s, turns))
    ensures Run(s.net, NetSteps(s, turns)) == AfterAll(s, turns).net
    ensures |NetSteps(s, turns)| == |turns|
    ensures forall i :: 0 <= i < |turns| ==> NetSteps(s, turns)[i].event == turns[i].event
    decreases turns
  {
    if turns != [] {
      RunsThePipeline(After(s, turns[0]), turns[1..]);
      assert NetSteps(s, turns)[1..] == NetSteps(After(s, turns[0]), turns[1..]);
    }
  }
}
