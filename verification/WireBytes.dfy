/** The pipeline with its queues in memory: what is handed to libwebsockets byte by byte. */
module WireBytes {
  import opened Jansson
  import opened Pipeline
  import opened ServerModel
  import opened ServerInvariants
  import opened BroadcastOrder
  import opened Replies
  import opened MessageLayout
  import opened QueueLayout
  import opened AlikeRuns

  /** The texts of some messages. */
  function Dumps(dump: Json -> seq<byte>, ps: seq<Packet>): seq<seq<byte>> {
    seq(|ps|, i requires 0 <= i < |ps| => dump(ps[i].body))
  }

  lemma DumpsJoin(dump: Json -> seq<byte>, ps: seq<Packet>, p: Packet)
    ensures Dumps(dump, ps + [p]) == Dumps(dump, ps) + [dump(p.body)]
  {
  }

  /** What the memory holds for each connection. */
  datatype Held = Held(queues: seq<seq<seq<byte>>>, wires: map<Address, seq<seq<byte>>>, closed: seq<seq<seq<byte>>>)

  /** The texts in the queue and on the wire of a connection are those of the machine's messages. */
  ghost predicate Holds(dump: Json -> seq<byte>, h: Held, net: Net, c: Address)
    requires c in net.links
  {
    && c < |h.queues| && h.queues[c] == Dumps(dump, net.links[c].queue)
    && c in h.wires && h.wires[c] == Dumps(dump, net.links[c].written)
  }

  ghost predicate HoldsAll(dump: Json -> seq<byte>, h: Held, net: Net) {
    && (forall c {:trigger Holds(dump, h, net, c)} :: c in net.links ==> Holds(dump, h, net, c))
    && (forall q :: 0 <= q < |h.queues| && q !in net.links ==> h.queues[q] == [])
    && |h.closed| == |net.ended|
    && (forall i :: 0 <= i < |h.closed| ==> h.closed[i] == Dumps(dump, net.ended[i].written))
  }

  lemma HeldAfterSend(dump: Json -> seq<byte>, h: Held, net: Net, s: Send)
    requires HoldsAll(dump, h, net) && s.to in net.links && s.to < |h.queues|
    ensures
      var after := if s.stored then h.(queues := h.queues[s.to := h.queues[s.to] + [dump(s.packet.body)]]) else h;
      HoldsAll(dump, after, net.(links := Deliver(net.links, s)))
  {
    var after := if s.stored then h.(queues := h.queues[s.to := h.queues[s.to] + [dump(s.packet.body)]]) else h;
    var links := Deliver(net.links, s);
    assert Holds(dump, h, net, s.to);
    DumpsJoin(dump, net.links[s.to].queue, s.packet);
    forall c | c in links ensures Holds(dump, after, net.(links := links), c) {
      assert Holds(dump, h, net, c);
    }
  }

  lemma HeldAfterEstablish(dump: Json -> seq<byte>, h: Held, net: Net, at: Address)
    requires HoldsAll(dump, h, net) && at < |h.queues|
    ensures HoldsAll(dump, h.(queues := h.queues[at := []], wires := h.wires[at := []]),
                     net.(links := net.links[at := NEW_LINK]))
  {
    var after := h.(queues := h.queues[at := []], wires := h.wires[at := []]);
    var m := net.(links := net.links[at := NEW_LINK]);
    forall c | c in m.links ensures Holds(dump, after, m, c) {
      assert c != at ==> Holds(dump, h, net, c);
    }
  }

  lemma HeldAfterCleanup(dump: Json -> seq<byte>, h: Held, net: Net, at: Address)
    requires HoldsAll(dump, h, net) && at in net.links && at < |h.queues| && at in h.wires
    ensures
      var l := net.links[at];
      HoldsAll(dump, Held(h.queues[at := []], h.wires, h.closed + [h.wires[at]]),
               Net(net.links - {at}, net.ended + [Ended(at, l.accepted, l.written, l.queue)]))
  {
    var l := net.links[at];
    var after := Held(h.queues[at := []], h.wires, h.closed + [h.wires[at]]);
    var m := Net(net.links - {at}, net.ended + [Ended(at, l.accepted, l.written, l.queue)]);
    assert Holds(dump, h, net, at);
    forall c | c in m.links ensures Holds(dump, after, m, c) {
      assert Holds(dump, h, net, c);
    }
  }

  lemma HeldAfterWrite(dump: Json -> seq<byte>, h: Held, net: Net, at: Address, bytes: seq<seq<byte>>)
    requires HoldsAll(dump, h, net) && at in net.links && at < |h.queues| && at in h.wires
    requires bytes == if |h.queues[at]| > 0 then [h.queues[at][0]] else []
    ensures
      var rest := if |h.queues[at]| > 0 then h.queues[at][1..] else h.queues[at];
      HoldsAll(dump, h.(queues := h.queues[at := rest], wires := h.wires[at := h.wires[at] + bytes]),
               net.(links := net.links[at := WriteOne(net.links[at])]))
  {
    var rest := if |h.queues[at]| > 0 then h.queues[at][1..] else h.queues[at];
    var after := h.(queues := h.queues[at := rest], wires := h.wires[at := h.wires[at] + bytes]);
    var m := net.(links := net.links[at := WriteOne(net.links[at])]);
    assert Holds(dump, h, net, at);
    var l := net.links[at];
    if l.queue != [] {
      DumpsJoin(dump, l.written, l.queue[0]);
      assert Dumps(dump, l.queue)[1..] == Dumps(dump, l.queue[1..]);
    }
    forall c | c in m.links ensures Holds(dump, after, m, c) {
      assert Holds(dump, h, net, c);
    }
  }

  lemma HeldAfterTail(dump: Json -> seq<byte>, h: Held, net: Net, event: Event)
    requires HoldsAll(dump, h, net)
    ensures HoldsAll(dump, h, Tail(net, event))
  {
    var m := Tail(net, event);
    forall c | c in m.links ensures Holds(dump, h, m, c) {
      assert Holds(dump, h, net, c);
    }
  }

  /** The connections at the addresses below some bound, each with its queue in memory. */
  class ByteServer {
    /** What Jansson prints for a value. */
    const dump: Json -> seq<byte>
    const memory: ByteQueues
    var wires: map<Address, seq<seq<byte>>>
    var closed: seq<seq<seq<byte>>>
    /** The state of the machine. */
    ghost var net: Net

    ghost function Contents(): Held
      reads this, memory
    {
      Held(memory.Contents().queues, wires, closed)
    }

    /** What is in memory and on the wires is what the machine has there. */
    ghost predicate Valid()
      reads this, memory, memory.memory
    {
      memory.Valid() && memory.Contents().loose == [] && HoldsAll(dump, Contents(), net)
    }

    constructor (n: nat, dump: Json -> seq<byte>, heap: array<byte>, pre: nat, advice: nat -> nat)
      requires heap.Length < SIZE_LIMIT
      ensures Valid() && net == NO_LINKS && this.dump == dump
      ensures fresh(memory) && memory.memory == heap && memory.pre == pre && |memory.Contents().queues| == n
      ensures memory.advice == advice && memory.grants == []
    {
      this.dump := dump;
      memory := new ByteQueues(n, heap, pre, advice);
      wires, closed, net := map[], [], NO_LINKS;
    }

    /** There is a block for each address, and no text is so long that the size of its allocation wraps around. */
    ghost predicate Suits(step: Step)
      reads this, memory
    {
      && (step.event.Established? ==> step.event.at < |memory.Contents().queues|)
      && forall i :: 0 <= i < |step.sends| ==>
           Extent(memory.pre, |dump(step.sends[i].packet.body)|) < SIZE_LIMIT
    }

    /** A message, if there is memory for it. */
    method Send(to: Address, packet: Packet) returns (stored: bool)
      requires Valid() && to in net.links && Extent(memory.pre, |dump(packet.body)|) < SIZE_LIMIT
      modifies this`net, memory, memory.memory
      ensures Valid() && net == old(net).(links := Deliver(old(net.links), Pipeline.Send(to, packet, stored)))
      ensures |memory.Contents().queues| == old(|memory.Contents().queues|)
      ensures stored <==> old(memory.Answer(Extent(memory.pre, |dump(packet.body)|))) != NULL
      ensures memory.grants == old(memory.grants) + [stored]
    {
      assert Holds(dump, Contents(), net, to);
      HeldAfterSend(dump, Contents(), net, Pipeline.Send(to, packet, true));
      HeldAfterSend(dump, Contents(), net, Pipeline.Send(to, packet, false));
      stored := Queue(to, dump(packet.body));
      net := net.(links := Deliver(net.links, Pipeline.Send(to, packet, stored)));
    }

    method Queue(to: nat, text: seq<byte>) returns (stored: bool)
      requires memory.Valid() && memory.Contents().loose == [] && to < |memory.Contents().queues|
      requires Extent(memory.pre, |text|) < SIZE_LIMIT
      modifies memory, memory.memory
      ensures memory.Valid() && memory.Contents().loose == []
      ensures
        var queues := old(memory.Contents().queues);
        memory.Contents().queues == if stored then queues[to := queues[to] + [text]] else queues
      ensures stored <==> old(memory.Answer(Extent(memory.pre, |text|))) != NULL
      ensures memory.grants == old(memory.grants) + [stored]
    {
      stored := memory.Create(text);
      if stored {
        assert |memory.loose| == |memory.Contents().loose|;
        memory.Append(to, 0);
      }
    }

    method SendAll(sends: seq<Pipeline.Send>) returns (actual: seq<Pipeline.Send>)
      requires Valid()
      requires forall i :: 0 <= i < |sends| ==>
                 sends[i].to in net.links && Extent(memory.pre, |dump(sends[i].packet.body)|) < SIZE_LIMIT
      modifies this`net, memory, memory.memory
      ensures Valid() && AlikeSends(sends, actual)
      ensures net == old(net).(links := DeliverAll(old(net.links), actual))
      ensures |memory.Contents().queues| == old(|memory.Contents().queues|)
      ensures memory.grants == old(memory.grants) + Flags(actual)
    {
      actual := [];
      var n := 0;
      while n < |sends|
        invariant n <= |sends| && Valid() && AlikeSends(sends[..n], actual)
        invariant net == old(net).(links := DeliverAll(old(net.links), actual))
        invariant |memory.Contents().queues| == old(|memory.Contents().queues|)
        invariant memory.grants == old(memory.grants) + Flags(actual)
      {
        DeliverAllKeys(old(net.links), actual);
        var stored := Send(sends[n].to, sends[n].packet);
        OneMoreSend(sends, n, actual, stored);
        actual, n := actual + [sends[n].(stored := stored)], n + 1;
      }
      assert sends[..n] == sends;
    }

    method Establish(at: Address)
      requires Valid() && at !in net.links && at < |memory.Contents().queues|
      modifies this, memory
      ensures Valid() && net == old(net).(links := old(net.links)[at := NEW_LINK])
      ensures memory.grants == old(memory.grants)
      ensures |memory.Contents().queues| == old(|memory.Contents().queues|)
    {
      HeldAfterEstablish(dump, Contents(), net, at);
      memory.Init(at);
      wires := wires[at := []];
      net := net.(links := net.links[at := NEW_LINK]);
    }

    /** What was written remains on record. */
    method Cleanup(at: Address)
      requires Valid() && at in net.links
      modifies this, memory, memory.memory
      ensures Valid() && |memory.Contents().queues| == old(|memory.Contents().queues|)
      ensures memory.grants == old(memory.grants)
      ensures
        var l := old(net.links)[at];
        net == Net(old(net.links) - {at}, old(net.ended) + [Ended(at, l.accepted, l.written, l.queue)])
    {
      assert Holds(dump, Contents(), net, at);
      HeldAfterCleanup(dump, Contents(), net, at);
      memory.Cleanup(at);
      closed := closed + [wires[at]];
      ghost var l := net.links[at];
      net := Net(net.links - {at}, net.ended + [Ended(at, l.accepted, l.written, l.queue)]);
    }

    /** The bytes that `data` and `length` designate are handed to libwebsockets, which may put a header before. */
    method Write(at: Address)
      requires Valid() && at in net.links
      modifies this, memory, memory.memory
      ensures Valid() && net == old(net).(links := old(net.links)[at := WriteOne(old(net.links)[at])])
      ensures memory.grants == old(memory.grants)
      ensures |memory.Contents().queues| == old(|memory.Contents().queues|)
    {
      assert Holds(dump, Contents(), net, at);
      ghost var queue := Contents().queues[at];
      HeldAfterWrite(dump, Contents(), net, at, if |queue| > 0 then [queue[0]] else []);
      var bytes := Transmit(at);
      wires := wires[at := wires[at] + bytes];
      net := net.(links := net.links[at := WriteOne(net.links[at])]);
    }

    method Transmit(at: nat) returns (bytes: seq<seq<byte>>)
      requires memory.Valid() && memory.Contents().loose == [] && at < |memory.Contents().queues|
      modifies memory, memory.memory
      ensures memory.Valid() && memory.Contents().loose == [] && memory.grants == old(memory.grants)
      ensures
        var queues := old(memory.Contents().queues);
        && bytes == (if |queues[at]| > 0 then [queues[at][0]] else [])
        && memory.Contents().queues == queues[at := if |queues[at]| > 0 then queues[at][1..] else queues[at]]
    {
      var frame: seq<byte> := *;
      if |frame| > memory.pre {
        frame := [];
      }
      bytes := memory.WriteOne(at, frame);
    }

    /** The part of the callback that depends on the event. */
    method SwitchOn(step: Step) returns (actual: Step)
      requires Valid() && Enabled(net, step) && Addressed(net.links.Keys, step) && Suits(step)
      modifies this, memory, memory.memory
      ensures Valid() && Alike(step, actual) && Enabled(old(net), actual) && net == Switch(old(net), actual)
      ensures memory.grants == old(memory.grants) + Flags(actual.sends)
      ensures |memory.Contents().queues| == old(|memory.Contents().queues|)
    {
      var sends := [];
      match step.event {
        case Established(at) =>
          Establish(at);
          sends := SendAll(step.sends);
        case Closed(at) =>
          sends := SendAll(step.sends);
          DeliverAllKeys(old(net.links), sends);
          Cleanup(at);
        case Writeable(at) => Write(at);
        case Other(at) =>
        case _ => sends := SendAll(step.sends);
      }
      actual := Step(step.event, sends);
    }

    /** One event. Which messages there is memory for turns out as they are sent. The tail asks for callbacks only. */
    method Callback(step: Step) returns (actual: Step)
      requires Valid() && Enabled(net, step) && Addressed(net.links.Keys, step) && Suits(step)
      modifies this, memory, memory.memory
      ensures Valid() && Alike(step, actual) && Enabled(old(net), actual) && net == Next(old(net), actual)
      ensures memory.grants == old(memory.grants) + Flags(actual.sends)
      ensures |memory.Contents().queues| == old(|memory.Contents().queues|)
    {
      actual := SwitchOn(step);
      HeldAfterTail(dump, Contents(), net, step.event);
      net := Tail(net, step.event);
    }

    /** Any run of the pipeline, but for the allocations that fail, is a run of the program: in memory and on the wires
        of open and closed connections are the texts of the messages that the machine has there. So what is proved of
        every run of the machine holds for the bytes that are written. What is stored is what the allocator granted,
        and if it granted everything, the run is the one in which everything is stored. */
    method Serve(steps: seq<Step>) returns (actual: seq<Step>)
      requires Valid() && Feasible(net, steps) && AllAddressed(net, steps)
      requires forall i :: 0 <= i < |steps| ==> Suits(steps[i])
      modifies this, memory, memory.memory
      ensures AlikeSteps(steps, actual)
      ensures Valid() && Feasible(old(net), actual) && net == Run(old(net), actual)
      ensures memory.grants == old(memory.grants) + AllFlags(actual)
      ensures Unfailing(AllFlags(actual)) ==> actual == AllStored(steps)
    {
      actual := CarryOut(steps);
      Unfailed(steps, actual);
    }

    method CarryOut(steps: seq<Step>) returns (actual: seq<Step>)
      requires Valid() && Feasible(net, steps) && AllAddressed(net, steps)
      requires forall i :: 0 <= i < |steps| ==> Suits(steps[i])
      modifies this, memory, memory.memory
      ensures AlikeSteps(steps, actual)
      ensures Valid() && Feasible(old(net), actual) && net == Run(old(net), actual)
      ensures memory.grants == old(memory.grants) + AllFlags(actual)
    {
      actual := [];
      ghost var plan, before := net, memory.grants;
      var n := 0;
      while n < |steps|
        invariant Valid() && |memory.Contents().queues| == old(|memory.Contents().queues|)
        invariant Carried(steps, n, plan, old(net), actual, net, before, memory.grants)
      {
        CarriedFurther(steps, n, plan, old(net), actual, net, before, memory.grants, steps[n]);
        ghost var from, granted := net, memory.grants;
        var step := Callback(steps[n]);
        CarriedFurther(steps, n, plan, old(net), actual, from, before, granted, step);
        plan := Next(plan, steps[n]);
        actual, n := actual + [step], n + 1;
      }
      CarriedOut(steps, n, plan, old(net), actual, net, before, memory.grants);
    }

    /** The chat server with its queues in memory: every run of it is the run of the machine in which the same
        allocations fail, and what is on the wires are the texts of what the machine has there. If the allocator grants
        everything, nobody misses a broadcast and every request is answered. */
    method ServeChat(s: State, turns: seq<Turn>) returns (ghost again: seq<Turn>)
      requires Valid() && net == s.net && Wired(s) && Possible(s, turns)
      requires forall i :: 0 <= i < |NetSteps(s, turns)| ==> Suits(NetSteps(s, turns)[i])
      modifies this, memory, memory.memory
      ensures AlikeTurns(turns, again) && Possible(s, again)
      ensures Valid() && net == AfterAll(s, again).net
      ensures memory.grants == old(memory.grants) + AllFlags(NetSteps(s, again))
      ensures AfterAll(s, again).room == AfterAll(s, turns).room
      ensures Unfailing(AllFlags(NetSteps(s, again))) ==>
                forall c :: c in s.net.links && StaysConnected(again, c) ==>
                  Missed(s, again, c) == 0 && AllGranted(again, c)
    {
      ServerAddresses(s, turns);
      RunsThePipeline(s, turns);
      var actual := Serve(NetSteps(s, turns));
      again := RechosenRun(s, s, turns, actual);
      RunsThePipeline(s, again);
      if Unfailing(AllFlags(NetSteps(s, again))) {
        GrantedRun(s, again);
      }
    }
  }
}
