/** Runs with the same events that differ in which messages there is memory for. Each is a run of the machine. */
module AlikeRuns {
  import opened Jansson
  import opened Rpc
  import opened Pipeline
  import opened ChatRoom
  import opened ServerModel
  import opened ServerInvariants
  import opened BroadcastOrder
  import opened Replies

  /** The same messages to the same connections; which of them there is memory for may differ. */
  predicate AlikeSends(a: seq<Send>, b: seq<Send>) {
    |a| == |b| && forall i :: 0 <= i < |a| ==> a[i].to == b[i].to && a[i].packet == b[i].packet
  }

  predicate Alike(a: Step, b: Step) {
    a.event == b.event && AlikeSends(a.sends, b.sends)
  }

  predicate AlikeSteps(a: seq<Step>, b: seq<Step>) {
    |a| == |b| && forall i :: 0 <= i < |a| ==> Alike(a[i], b[i])
  }

  /** Which messages there is memory for, in the order in which they are sent. */
  function Flags(sends: seq<Pipeline.Send>): seq<bool> {
    seq(|sends|, i requires 0 <= i < |sends| => sends[i].stored)
  }

  function AllFlags(steps: seq<Step>): seq<bool> {
    if steps == [] then [] else AllFlags(steps[..|steps| - 1]) + Flags(steps[|steps| - 1].sends)
  }

  /** The step if there is memory for everything. */
  function Stored(step: Step): Step {
    step.(sends := seq(|step.sends|, i requires 0 <= i < |step.sends| => step.sends[i].(stored := true)))
  }

  function AllStored(steps: seq<Step>): (stored: seq<Step>)
    ensures |stored| == |steps|
  {
    if steps == [] then [] else AllStored(steps[..|steps| - 1]) + [Stored(steps[|steps| - 1])]
  }

  predicate Unfailing(flags: seq<bool>) {
    forall i :: 0 <= i < |flags| ==> flags[i]
  }

  /** If every allocation of a run is granted, it is the run in which everything is stored. */
  lemma {:induction false} Unfailed(steps: seq<Step>, actual: seq<Step>)
    requires AlikeSteps(steps, actual)
    ensures Unfailing(AllFlags(actual)) <==> actual == AllStored(steps)
  {
    if steps != [] {
      var last := |steps| - 1;
      var before, front := steps[..last], actual[..last];
      assert AlikeSteps(before, front) by {
        assert forall i :: 0 <= i < last ==> before[i] == steps[i] && front[i] == actual[i];
      }
      Unfailed(before, front);
      UnfailedStep(steps[last], actual[last]);
      UnfailingJoin(AllFlags(front), Flags(actual[last].sends));
      LastApart(front, actual[last], AllStored(before), Stored(steps[last]));
      assert actual == front + [actual[last]];
    }
  }

  lemma LastApart(a: seq<Step>, x: Step, b: seq<Step>, y: Step)
    requires |a| == |b|
    ensures a + [x] == b + [y] <==> a == b && x == y
  {
    assert (a + [x])[..|a|] == a && (b + [y])[..|b|] == b;
    assert (a + [x])[|a|] == x && (b + [y])[|b|] == y;
  }

  lemma UnfailingJoin(a: seq<bool>, b: seq<bool>)
    ensures Unfailing(a + b) <==> Unfailing(a) && Unfailing(b)
  {
    if Unfailing(a + b) {
      assert forall i :: 0 <= i < |a| ==> a[i] == (a + b)[i];
      assert forall i :: 0 <= i < |b| ==> b[i] == (a + b)[|a| + i];
    }
  }

  lemma UnfailedStep(step: Step, actual: Step)
    requires Alike(step, actual)
    ensures Unfailing(Flags(actual.sends)) <==> actual == Stored(step)
  {
    if Unfailing(Flags(actual.sends)) {
      assert forall i :: 0 <= i < |actual.sends| ==> Flags(actual.sends)[i] == actual.sends[i].stored;
      assert actual.sends == Stored(step).sends;
    }
  }

  lemma OneMoreSend(sends: seq<Send>, n: nat, actual: seq<Send>, stored: bool)
    requires n < |sends| && AlikeSends(sends[..n], actual)
    ensures AlikeSends(sends[..n + 1], actual + [sends[n].(stored := stored)])
    ensures Flags(actual + [sends[n].(stored := stored)]) == Flags(actual) + [stored]
    ensures (actual + [sends[n].(stored := stored)])[..n] == actual
  {
  }

  lemma MoreFlags(actual: seq<Step>, step: Step)
    ensures AllFlags(actual + [step]) == AllFlags(actual) + Flags(step.sends)
  {
    assert (actual + [step])[..|actual|] == actual;
  }

  /** All messages go to connections that are open while the event is handled. */
  predicate Addressed(open: set<Address>, step: Step) {
    forall i :: 0 <= i < |step.sends| ==>
      step.sends[i].to in open || step.event == Established(step.sends[i].to)
  }

  predicate AllAddressed(net: Net, steps: seq<Step>)
    requires Feasible(net, steps)
    decreases steps
  {
    steps == [] || (Addressed(net.links.Keys, steps[0]) && AllAddressed(Next(net, steps[0]), steps[1..]))
  }

  /** Which connections are open does not depend on what is stored. */
  lemma AlikeKeys(m: Net, a: Step, n: Net, b: Step)
    requires m.links.Keys == n.links.Keys && Enabled(m, a) && Alike(a, b)
    ensures Enabled(n, b) && Next(m, a).links.Keys == Next(n, b).links.Keys
  {
    assert a.sends == [] ==> b.sends == [];
    NextKeys(m, a);
    NextKeys(n, b);
  }

  lemma {:induction false} OneMoreStep(net: Net, steps: seq<Step>, step: Step)
    requires Feasible(net, steps) && Enabled(Run(net, steps), step)
    ensures Feasible(net, steps + [step]) && Run(net, steps + [step]) == Next(Run(net, steps), step)
    decreases steps
  {
    var more := steps + [step];
    if steps == [] {
      assert more[1..] == [];
    } else {
      assert more[1..] == steps[1..] + [step];
      OneMoreStep(Next(net, steps[0]), steps[1..], step);
    }
  }

  /** A plan that can be carried out from here on, and the run that has carried it out so far. */
  ghost predicate OnPlan(plan: Net, rest: seq<Step>, start: Net, actual: seq<Step>, net: Net) {
    && Feasible(plan, rest) && AllAddressed(plan, rest) && plan.links.Keys == net.links.Keys
    && Feasible(start, actual) && net == Run(start, actual)
  }

  lemma NextOnPlan(plan: Net, rest: seq<Step>, start: Net, actual: seq<Step>, net: Net, step: Step)
    requires OnPlan(plan, rest, start, actual, net) && rest != [] && Alike(rest[0], step)
    ensures Enabled(plan, rest[0]) && Enabled(net, rest[0]) && Addressed(net.links.Keys, rest[0]) && Enabled(net, step)
    ensures OnPlan(Next(plan, rest[0]), rest[1..], start, actual + [step], Next(net, step))
  {
    AlikeKeys(plan, rest[0], net, rest[0]);
    AlikeKeys(plan, rest[0], net, step);
    OneMoreStep(start, actual, step);
  }

  /** The first steps of a plan have been carried out, and the allocator has answered `now` since it had answered
      `before`. */
  ghost predicate Carried(steps: seq<Step>, n: nat, plan: Net, start: Net, actual: seq<Step>, net: Net,
                          before: seq<bool>, now: seq<bool>) {
    && n <= |steps| && OnPlan(plan, steps[n..], start, actual, net)
    && AlikeSteps(steps[..n], actual) && now == before + AllFlags(actual)
  }

  lemma CarriedFurther(steps: seq<Step>, n: nat, plan: Net, start: Net, actual: seq<Step>, net: Net,
                       before: seq<bool>, now: seq<bool>, step: Step)
    requires Carried(steps, n, plan, start, actual, net, before, now) && n < |steps| && Alike(steps[n], step)
    ensures Enabled(plan, steps[n]) && Enabled(net, step)
    ensures Carried(steps, n + 1, Next(plan, steps[n]), start, actual + [step], Next(net, step),
                    before, now + Flags(step.sends))
  {
    var rest := steps[n..];
    assert rest[0] == steps[n] && rest[1..] == steps[n + 1..];
    NextOnPlan(plan, rest, start, actual, net, step);
    MoreFlags(actual, step);
    assert steps[..n + 1] == steps[..n] + [steps[n]];
    assert before + (AllFlags(actual) + Flags(step.sends)) == now + Flags(step.sends);
  }

  lemma CarriedOut(steps: seq<Step>, n: nat, plan: Net, start: Net, actual: seq<Step>, net: Net, before: seq<bool>,
                   now: seq<bool>)
    requires Carried(steps, n, plan, start, actual, net, before, now) && n >= |steps|
    ensures AlikeSteps(steps, actual) && Feasible(start, actual) && net == Run(start, actual)
    ensures now == before + AllFlags(actual)
  {
    assert steps[..n] == steps;
  }

  // ---------- runs of a server ----------

  /** The choice under which a turn makes exactly these sends. */
  function Rechosen(choice: Choice, sends: seq<Pipeline.Send>): Choice {
    var from := if |sends| > 0 && sends[0].packet.origin == Direct then 1 else 0;
    Choice(choice.order,
           if from + |choice.order| == |sends| then Flags(sends[from..]) else choice.stored,
           if from == 1 then sends[0].stored else choice.reply)
  }

  lemma RechosenFanOut(chatters: Chatters, choice: Choice, packet: Packet, actual: seq<Pipeline.Send>)
    requires Fits(choice, chatters) && AlikeSends(FanOut(chatters, choice.order, choice.stored, packet), actual)
    ensures FanOut(chatters, choice.order, Flags(actual), packet) == actual
  {
  }

  /** A reply on its own. */
  lemma RechosenReply(room: Room, to: Address, body: Json, choice: Choice, actual: seq<Pipeline.Send>)
    requires Fits(choice, room.chatters) && AlikeSends(Reply(room, to, body, choice).sends, actual)
    ensures Fits(Rechosen(choice, actual), room.chatters)
    ensures Reply(room, to, body, Rechosen(choice, actual)).sends == actual
  {
    assert actual[0].packet == Packet(body, Direct) && actual == [Send(to, actual[0].packet, actual[0].stored)];
  }

  /** A broadcast on its own. */
  lemma RechosenCast(room: Room, body: Json, choice: Choice, actual: seq<Pipeline.Send>)
    requires Fits(choice, room.chatters) && AlikeSends(Cast(room, body, choice).sends, actual)
    ensures Fits(Rechosen(choice, actual), room.chatters)
    ensures Cast(room, body, Rechosen(choice, actual)) == Outcome(Cast(room, body, choice).room, actual)
  {
    var packet := Packet(body, Broadcast(|room.history|));
    RechosenFanOut(room.chatters, choice, packet, actual);
    assert actual[0..] == actual && (|actual| > 0 ==> actual[0].packet == packet);
  }

  lemma RechosenNothing(chatters: Chatters, choice: Choice)
    requires Fits(choice, chatters)
    ensures Fits(Rechosen(choice, []), chatters)
  {
  }

  lemma FirstAlike(sends: seq<Pipeline.Send>, actual: seq<Pipeline.Send>)
    requires AlikeSends(sends, actual) && sends != []
    ensures AlikeSends(sends[1..], actual[1..])
    ensures actual == [sends[0].(stored := actual[0].stored)] + actual[1..]
  {
  }

  lemma RechosenRename(room: Room, key: Address, name: string, id: int32, choice: Choice, actual: seq<Pipeline.Send>)
    requires Fits(choice, room.chatters) && key in room.chatters
    requires AlikeSends(Rename(room, key, name, id, choice).sends, actual)
    ensures Fits(Rechosen(choice, actual), room.chatters)
    ensures Rename(room, key, name, id, Rechosen(choice, actual)) ==
            Outcome(Rename(room, key, name, id, choice).room, actual)
  {
    var who := room.chatters[key];
    var renamed := room.(chatters := room.chatters[key := who.(name := name)]);
    assert renamed.chatters.Keys == room.chatters.Keys;
    var packet := Packet(Announcement("arrived", name), Broadcast(|room.history|));
    var sends, rechosen := Rename(room, key, name, id, choice).sends, Rechosen(choice, actual);
    FirstAlike(sends, actual);
    assert sends[1..] == FanOut(renamed.chatters, choice.order, choice.stored, packet);
    RechosenFanOut(renamed.chatters, choice, packet, actual[1..]);
    assert rechosen.stored == Flags(actual[1..]) && rechosen.reply == actual[0].stored;
  }

  lemma RechosenMethod(room: Room, c: Address, name: string, params: Json, id: int32, choice: Choice,
                       actual: seq<Pipeline.Send>)
    requires Fits(choice, room.chatters) && AlikeSends(OnMethod(room, c, name, params, id, choice).sends, actual)
    ensures Fits(Rechosen(choice, actual), room.chatters)
    ensures OnMethod(room, c, name, params, id, Rechosen(choice, actual)) ==
            Outcome(OnMethod(room, c, name, params, id, choice).room, actual)
  {
    if c !in room.chatters {
      RechosenReply(room, c, ErrorResponse(-1, "invalid connection", id), choice, actual);
    } else if name != "set_name" {
      RechosenReply(room, c, ErrorResponse(-1, "not implemented", id), choice, actual);
    } else {
      var who := room.chatters[c];
      match FirstString(params)
      case Some(wanted) =>
        if !IsNameUsed(room.chatters, wanted) {
          RechosenRename(room, c, wanted, id, choice, actual);
        } else {
          RechosenReply(room, who.connection, ErrorResponse(1, "name already used", id), choice, actual);
        }
      case None => RechosenReply(room, who.connection, ErrorResponse(-1, "invalid params", id), choice, actual);
    }
  }

  lemma RechosenNotify(room: Room, c: Address, name: string, params: Json, choice: Choice,
                       actual: seq<Pipeline.Send>)
    requires Fits(choice, room.chatters) && AlikeSends(OnNotify(room, c, name, params, choice).sends, actual)
    ensures Fits(Rechosen(choice, actual), room.chatters)
    ensures OnNotify(room, c, name, params, Rechosen(choice, actual)) ==
            Outcome(OnNotify(room, c, name, params, choice).room, actual)
  {
    RechosenNothing(room.chatters, choice);
    if c in room.chatters && name == "chat" && FirstString(params).Some? {
      RechosenCast(room, Post(room.chatters[c].name, FirstString(params).value), choice, actual);
    }
  }

  /** Whatever there turns out to be memory for, there is a choice under which the handlers do just that. */
  lemma RechosenTurn(s: State, turn: Turn, actual: seq<Pipeline.Send>)
    requires Fits(turn.choice, s.room.chatters) && AlikeSends(Handle(s, turn).sends, actual)
    ensures
      var again := Turn(turn.event, Rechosen(turn.choice, actual));
      Fits(again.choice, s.room.chatters) && Handle(s, again) == Outcome(Handle(s, turn).room, actual)
  {
    RechosenNothing(s.room.chatters, turn.choice);
    match turn.event {
      case Closed(c) =>
        if s.handlers.ChatHandlers? && c in s.room.chatters {
          RechosenCast(s.room, Announcement("gone", s.room.chatters[c].name), turn.choice, actual);
        }
      case Receive(c, text) =>
        match Classify(text) {
          case Some(Method(name, params, id)) =>
            if s.handlers.ChatHandlers? {
              RechosenMethod(s.room, c, name, params, id, turn.choice, actual);
            } else {
              RechosenReply(s.room, c, ErrorResponse(-1, "not implemented", id), turn.choice, actual);
            }
          case Some(Notify(name, params)) =>
            if s.handlers.ChatHandlers? {
              RechosenNotify(s.room, c, name, params, turn.choice, actual);
            }
          case None =>
        }
      case _ =>
    }
  }

  /** The same events, and the loops visit the chatters in the same order. */
  predicate AlikeTurns(a: seq<Turn>, b: seq<Turn>) {
    && |a| == |b|
    && forall i :: 0 <= i < |a| ==> a[i].event == b[i].event && a[i].choice.order == b[i].choice.order
  }

  lemma AlikeTurnsJoin(a: Turn, b: Turn, turns: seq<Turn>, others: seq<Turn>)
    requires turns != [] && turns[0] == a && AlikeTurns(turns[1..], others)
    requires a.event == b.event && a.choice.order == b.choice.order
    ensures AlikeTurns(turns, [b] + others) && ([b] + others)[1..] == others
  {
    assert forall i :: 0 < i < |turns| ==> turns[i] == turns[1..][i - 1];
  }

  /** And so for a whole run. Two states that differ in their queues and logs only have the same turns before them. */
  lemma {:induction false} RechosenRun(s: State, z: State, turns: seq<Turn>, actual: seq<Step>)
      returns (again: seq<Turn>)
    requires Possible(s, turns) && AlikeSteps(NetSteps(s, turns), actual)
    requires s.handlers == z.handlers && s.room == z.room && s.net.links.Keys == z.net.links.Keys
    ensures AlikeTurns(turns, again) && Possible(z, again) && NetSteps(z, again) == actual
    ensures AfterAll(z, again).room == AfterAll(s, turns).room
    decreases turns
  {
    if turns == [] {
      again := [];
    } else {
      var turn, steps := turns[0], NetSteps(s, turns);
      assert steps[0] == NetStep(s, turn) && steps[1..] == NetSteps(After(s, turn), turns[1..]);
      var first := RechosenFirst(s, z, turn, actual[0]);
      var rest := RechosenRun(After(s, turn), After(z, first), turns[1..], actual[1..]);
      AlikeTurnsJoin(turn, first, turns, rest);
      again := [first] + rest;
    }
  }

  lemma RechosenFirst(s: State, z: State, turn: Turn, actual: Step) returns (again: Turn)
    requires CanHappen(s, turn) && Alike(NetStep(s, turn), actual)
    requires s.handlers == z.handlers && s.room == z.room && s.net.links.Keys == z.net.links.Keys
    ensures again.event == turn.event && again.choice.order == turn.choice.order
    ensures CanHappen(z, again) && NetStep(z, again) == actual
    ensures After(z, again).room == After(s, turn).room
    ensures After(z, again).net.links.Keys == After(s, turn).net.links.Keys
  {
    again := Turn(turn.event, Rechosen(turn.choice, actual.sends));
    RechosenTurn(s, turn, actual.sends);
    assert Handle(z, again) == Handle(s, again);
    AlikeKeys(s.net, NetStep(s, turn), z.net, actual);
  }

  /** A chat server sends to open connections only. */
  lemma {:induction false} ServerAddresses(s: State, turns: seq<Turn>)
    requires Possible(s, turns) && Wired(s)
    ensures Feasible(s.net, NetSteps(s, turns)) && AllAddressed(s.net, NetSteps(s, turns))
    decreases turns
  {
    RunsThePipeline(s, turns);
    if turns != [] {
      SendsAreLive(s, turns[0]);
      WiredStep(s, turns[0]);
      ServerAddresses(After(s, turns[0]), turns[1..]);
      var steps := NetSteps(s, turns);
      assert steps[1..] == NetSteps(After(s, turns[0]), turns[1..]);
      assert forall i :: 0 <= i < |steps[0].sends| ==> steps[0].sends[i] in Handle(s, turns[0]).sends;
    }
  }

  // ---------- runs in which no allocation fails ----------

  lemma {:induction false} EachUnfailing(steps: seq<Step>)
    ensures Unfailing(AllFlags(steps)) <==> forall i :: 0 <= i < |steps| ==> Unfailing(Flags(steps[i].sends))
  {
    if steps != [] {
      var front, last := steps[..|steps| - 1], steps[|steps| - 1];
      EachUnfailing(front);
      UnfailingJoin(AllFlags(front), Flags(last.sends));
      assert forall i :: 0 <= i < |front| ==> front[i] == steps[i];
    }
  }

  lemma FanOutStored(chatters: Chatters, choice: Choice, packet: Packet, c: Address)
    requires Fits(choice, chatters) && c in chatters
    requires Unfailing(Flags(FanOut(chatters, choice.order, choice.stored, packet)))
    ensures Reached(choice, c)
  {
    var flags := Flags(FanOut(chatters, choice.order, choice.stored, packet));
    assert forall i :: 0 <= i < |choice.stored| ==> flags[i] == choice.stored[i];
    EveryoneIsVisited(choice, chatters, c);
  }

  lemma UnfailingTurn(s: State, turn: Turn, c: Address)
    requires CanHappen(s, turn) && Wired(s) && c in s.net.links && Unfailing(Flags(Handle(s, turn).sends))
    ensures CastIn(s, turn).Some? ==> Reached(turn.choice, c)
    ensures Asks(turn, c) ==> turn.choice.reply
  {
    var sends := Handle(s, turn).sends;
    match turn.event {
      case Closed(at) =>
        var packet := Packet(Announcement("gone", s.room.chatters[at].name), Broadcast(|s.room.history|));
        FanOutStored(s.room.chatters, turn.choice, packet, c);
      case Receive(at, text) =>
        match Classify(text) {
          case Some(Method(name, params, id)) =>
            assert Flags(sends)[0] == turn.choice.reply;
            if NewName(s, turn).Some? {
              UnfailingRename(s.room, at, NewName(s, turn).value, id, turn.choice, c);
            }
          case Some(Notify(name, params)) =>
            if CastIn(s, turn).Some? {
              var packet := Packet(CastIn(s, turn).value, Broadcast(|s.room.history|));
              FanOutStored(s.room.chatters, turn.choice, packet, c);
            }
          case None =>
        }
      case _ =>
    }
  }

  lemma UnfailingRename(room: Room, key: Address, name: string, id: int32, choice: Choice, c: Address)
    requires Fits(choice, room.chatters) && key in room.chatters && c in room.chatters
    requires Unfailing(Flags(Rename(room, key, name, id, choice).sends))
    ensures Reached(choice, c)
  {
    var renamed := room.(chatters := room.chatters[key := room.chatters[key].(name := name)]);
    assert renamed.chatters.Keys == room.chatters.Keys;
    var cast := Cast(renamed, Announcement("arrived", name), choice).sends;
    var sends := Rename(room, key, name, id, choice).sends;
    assert Flags(sends) == [choice.reply] + Flags(cast);
    UnfailingJoin([choice.reply], Flags(cast));
    FanOutStored(renamed.chatters, choice, Packet(Announcement("arrived", name), Broadcast(|room.history|)), c);
  }

  /** If every allocation of a run of the chat server is granted, no connection misses a broadcast while it is open, and
      every request is answered. */
  lemma {:induction false} UnfailingRun(s: State, turns: seq<Turn>, c: Address)
    requires Possible(s, turns) && Wired(s) && c in s.net.links && StaysConnected(turns, c)
    requires forall i :: 0 <= i < |NetSteps(s, turns)| ==> Unfailing(Flags(NetSteps(s, turns)[i].sends))
    ensures Missed(s, turns, c) == 0 && AllGranted(turns, c)
    decreases turns
  {
    if turns != [] {
      var steps, r := NetSteps(s, turns), After(s, turns[0]);
      assert steps[0] == NetStep(s, turns[0]) && steps[1..] == NetSteps(r, turns[1..]);
      assert forall i :: 0 <= i < |steps[1..]| ==> steps[1..][i] == steps[i + 1];
      assert turns[0].event != Closed(c);
      UnfailingTurn(s, turns[0], c);
      WiredStep(s, turns[0]);
      NextKeys(s.net, NetStep(s, turns[0]));
      UnfailingRun(r, turns[1..], c);
      AllGrantedSplit(turns, c);
    }
  }

  lemma GrantedRun(s: State, turns: seq<Turn>)
    requires Possible(s, turns) && Wired(s) && Unfailing(AllFlags(NetSteps(s, turns)))
    ensures forall c :: c in s.net.links && StaysConnected(turns, c) ==>
              Missed(s, turns, c) == 0 && AllGranted(turns, c)
  {
    EachUnfailing(NetSteps(s, turns));
    forall c | c in s.net.links && StaysConnected(turns, c)
      ensures Missed(s, turns, c) == 0 && AllGranted(turns, c)
    {
      UnfailingRun(s, turns, c);
    }
  }
}
