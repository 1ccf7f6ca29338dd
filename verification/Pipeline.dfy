/** The outbound message pipeline of all connections, as a state machine over server events.

What the application's handlers do is left open: an event may come with any messages to any connections.
The theorems of this module therefore hold for every server built on jrpc. */
module Pipeline {
  import opened Jansson

  /** A connection is named by the address of its per-session block. Addresses are reused. */
  type Address = nat

  /** Bookkeeping of the model: which of the application's broadcasts a message belongs to, if any. */
  datatype Origin = Direct | Broadcast(index: nat)

  datatype Packet = Packet(body: Json, origin: Origin)

  /** One open connection: its queue, libwebsockets' pending writable callback, and two logs. */
  datatype Link = Link(queue: seq<Packet>, pending: bool, accepted: seq<Packet>, written: seq<Packet>)

  const NEW_LINK := Link([], false, [], [])

  /** The record of a connection that was closed. */
  datatype Ended = Ended(at: Address, accepted: seq<Packet>, written: seq<Packet>, discarded: seq<Packet>)

  datatype Net = Net(links: map<Address, Link>, ended: seq<Ended>)

  const NO_LINKS := Net(map[], [])

  /** A message given to a connection. `stored` tells whether there was memory for it. */
  datatype Send = Send(to: Address, packet: Packet, stored: bool)

  /** The events a server sees. `Outside` is code that runs between two callbacks. */
  datatype Event =
    | Established(at: Address)
    | Closed(at: Address)
    | Receive(at: Address, text: Option<Json>)
    | Writeable(at: Address)
    | Other(at: Address)
    | Outside

  /** An event together with the messages that are sent while it is handled. */
  datatype Step = Step(event: Event, sends: seq<Send>)

  // ---------- one message ----------

  /** The message is appended and a writable callback is requested. */
  function Accept(l: Link, p: Packet): Link {
    Link(l.queue + [p], true, l.accepted + [p], l.written)
  }

  /** A send to an address without an open connection would be a use of freed memory in C. Here it has no
      effect; that the servers of this model never do it is proved separately. */
  function Deliver(links: map<Address, Link>, s: Send): map<Address, Link> {
    if s.stored && s.to in links then links[s.to := Accept(links[s.to], s.packet)] else links
  }

  function DeliverAll(links: map<Address, Link>, sends: seq<Send>): map<Address, Link> {
    if sends == [] then links
    else Deliver(DeliverAll(links, sends[..|sends| - 1]), sends[|sends| - 1])
  }

  /** A writable callback: the request is consumed and at most one message is written. */
  function WriteOne(l: Link): Link {
    if l.queue == [] then l.(pending := false)
    else Link(l.queue[1..], false, l.accepted, l.written + [l.queue[0]])
  }

  /** The tail of every callback: request a further callback while messages are queued. */
  function Rearm(l: Link): Link {
    if l.queue != [] then l.(pending := true) else l
  }

  // ---------- one event ----------

  /** The callbacks libwebsockets may make: a connection is established before anything else happens to it. */
  predicate Enabled(net: Net, step: Step) {
    match step.event
    case Established(at) => at !in net.links
    case Closed(at) => at in net.links
    case Receive(at, _) => at in net.links
    case Writeable(at) => at in net.links && step.sends == []
    case Other(at) => at in net.links && step.sends == []
    case Outside => true
  }

  lemma DeliverAllKeys(links: map<Address, Link>, sends: seq<Send>)
    ensures DeliverAll(links, sends).Keys == links.Keys
  {
  }

  /** The part of the callback that depends on the event. */
  function Switch(net: Net, step: Step): Net
    requires Enabled(net, step)
  {
    DeliverAllKeys(net.links, step.sends);
    match step.event
    case Established(at) => net.(links := DeliverAll(net.links[at := NEW_LINK], step.sends))
    case Closed(at) =>
      var links := DeliverAll(net.links, step.sends);
      var l := links[at];
      Net(links - {at}, net.ended + [Ended(at, l.accepted, l.written, l.queue)])
    case Receive(at, _) => net.(links := DeliverAll(net.links, step.sends))
    case Writeable(at) => net.(links := net.links[at := WriteOne(net.links[at])])
    case Other(at) => net
    case Outside => net.(links := DeliverAll(net.links, step.sends))
  }

  /** The tail of the callback, for a connection that is still open. */
  function Tail(net: Net, event: Event): Net {
    if event.Outside? || event.at !in net.links then net
    else net.(links := net.links[event.at := Rearm(net.links[event.at])])
  }

  function Next(net: Net, step: Step): Net
    requires Enabled(net, step)
  {
    Tail(Switch(net, step), step.event)
  }

  // ---------- runs ----------

  predicate Feasible(net: Net, steps: seq<Step>)
    decreases steps
  {
    steps == [] || (Enabled(net, steps[0]) && Feasible(Next(net, steps[0]), steps[1..]))
  }

  function Run(net: Net, steps: seq<Step>): Net
    requires Feasible(net, steps)
    decreases steps
  {
    if steps == [] then net else Run(Next(net, steps[0]), steps[1..])
  }

  // ---------- what one connection sees ----------

  /** The messages among `sends` that reach the queue of `c`, in order. */
  function Delivered(sends: seq<Send>, c: Address): seq<Packet> {
    if sends == [] then []
    else
      var s := sends[|sends| - 1];
      Delivered(sends[..|sends| - 1], c) + if s.stored && s.to == c then [s.packet] else []
  }

  function AcceptAll(l: Link, ps: seq<Packet>): Link {
    Link(l.queue + ps, l.pending || ps != [], l.accepted + ps, l.written)
  }

  lemma {:induction false} DeliverAllAt(links: map<Address, Link>, sends: seq<Send>, c: Address)
    requires c in links
    ensures DeliverAll(links, sends).Keys == links.Keys
    ensures DeliverAll(links, sends)[c] == AcceptAll(links[c], Delivered(sends, c))
  {
    if sends == [] {
      assert AcceptAll(links[c], []) == links[c];
    } else {
      var front := sends[..|sends| - 1];
      var l, ps := links[c], Delivered(front, c);
      DeliverAllAt(links, front, c);
      var p := sends[|sends| - 1].packet;
      assert l.queue + (ps + [p]) == (l.queue + ps) + [p];
      assert l.accepted + (ps + [p]) == (l.accepted + ps) + [p];
      assert ps + [] == ps;
    }
  }

  /** The effect of one event on a connection that is open before and after it. */
  function LinkNext(l: Link, c: Address, step: Step): Link {
    var k := AcceptAll(l, Delivered(step.sends, c));
    match step.event
    case Writeable(at) => if at == c then Rearm(WriteOne(l)) else l
    case Other(at) => if at == c then Rearm(l) else l
    case Receive(at, _) => if at == c then Rearm(k) else k
    case _ => k
  }

  /** Locality: what an event does to a connection depends on that connection alone and on the messages
      sent to it. A connection that is not the event's own changes by those messages only. */
  lemma NextAt(net: Net, step: Step, c: Address)
    requires Enabled(net, step) && c in net.links && step.event != Closed(c)
    ensures c in Next(net, step).links
    ensures Next(net, step).links[c] == LinkNext(net.links[c], c, step)
  {
    DeliverAllAt(net.links, step.sends, c);
    match step.event
    case Established(at) =>
      DeliverAllAt(net.links[at := NEW_LINK], step.sends, c);
    case _ =>
  }

  /** An established connection starts from an empty queue whatever its address was used for before. */
  lemma EstablishedAt(net: Net, step: Step, c: Address)
    requires Enabled(net, step) && step.event == Established(c)
    ensures c in Next(net, step).links
    ensures Next(net, step).links[c] == AcceptAll(NEW_LINK, Delivered(step.sends, c))
  {
    DeliverAllAt(net.links[c := NEW_LINK], step.sends, c);
  }

  /** A closed connection takes the messages of its own close event and loses what is then queued. */
  lemma ClosedAt(net: Net, step: Step, c: Address)
    requires Enabled(net, step) && step.event == Closed(c)
    ensures Next(net, step).links.Keys == net.links.Keys - {c}
    ensures
      var l := net.links[c];
      var ps := Delivered(step.sends, c);
      Next(net, step).ended == net.ended + [Ended(c, l.accepted + ps, l.written, l.queue + ps)]
  {
    DeliverAllAt(net.links, step.sends, c);
  }

  lemma NextKeys(net: Net, step: Step)
    requires Enabled(net, step)
    ensures Next(net, step).links.Keys ==
            match step.event {
              case Established(at) => net.links.Keys + {at}
              case Closed(at) => net.links.Keys - {at}
              case _ => net.links.Keys
            }
    ensures !step.event.Closed? ==> Next(net, step).ended == net.ended
  {
    DeliverAllKeys(net.links, step.sends);
    if step.event.Established? {
      DeliverAllKeys(net.links[step.event.at := NEW_LINK], step.sends);
    }
  }

  // ---------- conservation, and no stranded message ----------

  /** Nothing is lost, duplicated or reordered between acceptance and the wire. */
  predicate Conserved(net: Net) {
    && (forall c :: c in net.links ==> net.links[c].accepted == net.links[c].written + net.links[c].queue)
    && (forall i :: 0 <= i < |net.ended| ==> net.ended[i].accepted == net.ended[i].written + net.ended[i].discarded)
  }

  /** Whoever has something queued will be called back. */
  predicate NoneStranded(net: Net) {
    forall c :: c in net.links && net.links[c].queue != [] ==> net.links[c].pending
  }

  predicate NetInv(net: Net) {
    Conserved(net) && NoneStranded(net)
  }

  lemma LinkNextInv(l: Link, c: Address, step: Step)
    requires l.accepted == l.written + l.queue
    requires l.queue != [] ==> l.pending
    ensures
      var k := LinkNext(l, c, step);
      k.accepted == k.written + k.queue && (k.queue != [] ==> k.pending)
  {
    var ps := Delivered(step.sends, c);
    assert l.written + (l.queue + ps) == (l.written + l.queue) + ps;
    if l.queue != [] {
      assert l.queue == [l.queue[0]] + l.queue[1..];
      assert l.written + l.queue == (l.written + [l.queue[0]]) + l.queue[1..];
    }
  }

  lemma NetInvStep(net: Net, step: Step)
    requires Enabled(net, step) && NetInv(net)
    ensures NetInv(Next(net, step))
  {
    var net' := Next(net, step);
    forall c | c in net'.links
      ensures
        var k := net'.links[c];
        k.accepted == k.written + k.queue && (k.queue != [] ==> k.pending)
    {
      if c in net.links && step.event != Closed(c) {
        NextAt(net, step, c);
        LinkNextInv(net.links[c], c, step);
      } else if step.event == Established(c) {
        EstablishedAt(net, step, c);
      } else {
        NextKeys(net, step);
        assert false;
      }
    }
    if step.event.Closed? {
      var c := step.event.at;
      ClosedAt(net, step, c);
      var l, ps := net.links[c], Delivered(step.sends, c);
      assert l.written + (l.queue + ps) == (l.written + l.queue) + ps;
    }
  }

  /** Conservation and the absence of stranded messages, for every run of every server. */
  lemma {:induction false} NetInvRun(net: Net, steps: seq<Step>)
    requires Feasible(net, steps) && NetInv(net)
    ensures NetInv(Run(net, steps))
    decreases steps
  {
    if steps != [] {
      NetInvStep(net, steps[0]);
      NetInvRun(Next(net, steps[0]), steps[1..]);
    }
  }

  /** A writable callback uses up the request for it: afterwards one is pending exactly if something is queued. */
  lemma PendingAfterCallback(net: Net, step: Step, c: Address)
    requires Enabled(net, step) && step.event == Writeable(c)
    ensures c in Next(net, step).links
    ensures Next(net, step).links[c].pending <==> Next(net, step).links[c].queue != []
  {
    NextAt(net, step, c);
  }

  /** Every callback for a connection leaves one pending if something is queued for it, whatever was before. */
  lemma TailRearms(net: Net, step: Step)
    requires Enabled(net, step) && !step.event.Outside? && step.event.at in Next(net, step).links
    ensures
      var l := Next(net, step).links[step.event.at];
      l.queue != [] ==> l.pending
  {
  }

  /** Nobody asks for a callback of a connection to which nothing is sent and for which nothing is queued. */
  lemma NoIdleRequest(net: Net, step: Step, c: Address)
    requires Enabled(net, step) && c in net.links && step.event != Closed(c)
    requires Delivered(step.sends, c) == [] && net.links[c].queue == [] && !net.links[c].pending
    ensures c in Next(net, step).links && Next(net, step).links[c] == net.links[c]
  {
    NextAt(net, step, c);
    var l := net.links[c];
    assert l.queue + [] == l.queue && l.accepted + [] == l.accepted;
  }

  /** Only the tail keeps a message from being stranded: leaving it out of the writable callback strands the
      rest of the queue exactly when more than one message was queued. */
  lemma TailNeeded(l: Link)
    ensures (WriteOne(l).queue != [] && !WriteOne(l).pending) <==> |l.queue| >= 2
    ensures Rearm(WriteOne(l)).pending <==> |l.queue| >= 2
  {
    assert WriteOne(l).queue != [] <==> |l.queue| >= 2;
  }

  // ---------- delivery ----------

  predicate StaysOpen(steps: seq<Step>, c: Address) {
    forall i :: 0 <= i < |steps| ==> steps[i].event != Closed(c)
  }

  /** The messages a run adds to the queue of a connection that stays open. */
  function DeliveredIn(steps: seq<Step>, c: Address): seq<Packet> {
    if steps == [] then [] else Delivered(steps[0].sends, c) + DeliveredIn(steps[1..], c)
  }

  function Callbacks(steps: seq<Step>, c: Address): nat {
    if steps == [] then 0
    else (if steps[0].event == Writeable(c) then 1 else 0) + Callbacks(steps[1..], c)
  }

  function Min(a: nat, b: nat): nat {
    if a < b then a else b
  }

  /** One event: the stream of a connection is extended at its end, and only a writable callback
      moves the boundary between wire and queue, by one message. */
  lemma StreamStep(net: Net, step: Step, c: Address)
    requires Enabled(net, step) && c in net.links && step.event != Closed(c)
    ensures c in Next(net, step).links
    ensures
      var l, k := net.links[c], Next(net, step).links[c];
      var ps := Delivered(step.sends, c);
      && k.accepted == l.accepted + ps
      && (if step.event == Writeable(c) && l.queue != []
          then k.written == l.written + [l.queue[0]] && k.queue == l.queue[1..] + ps
          else k.written == l.written && k.queue == l.queue + ps)
  {
    NextAt(net, step, c);
    var l := net.links[c];
    if step.event.Writeable? || step.event.Other? {
      assert Delivered(step.sends, c) == [];
      assert l.accepted + [] == l.accepted && l.queue + [] == l.queue;
    }
  }

  /** A whole run: what is written and queued at the end is what was written and queued at the start followed
      by what was accepted since; every callback writes at most one message, and while any of the original
      queue remains, exactly one. */
  lemma {:induction false} StreamRun(net: Net, steps: seq<Step>, c: Address)
    requires Feasible(net, steps) && c in net.links && StaysOpen(steps, c)
    ensures c in Run(net, steps).links
    ensures
      var l, k := net.links[c], Run(net, steps).links[c];
      var w := Callbacks(steps, c);
      && k.accepted == l.accepted + DeliveredIn(steps, c)
      && k.written + k.queue == l.written + l.queue + DeliveredIn(steps, c)
      && l.written + l.queue[..Min(w, |l.queue|)] <= k.written
      && |k.written| <= |l.written| + w
    decreases steps
  {
    var l := net.links[c];
    if steps == [] {
      assert l.accepted + [] == l.accepted;
      assert l.written + l.queue + [] == l.written + l.queue;
      assert l.written + l.queue[..0] == l.written;
    } else {
      var m := Next(net, steps[0]);
      StreamStep(net, steps[0], c);
      assert steps[0].event != Closed(c);
      assert StaysOpen(steps[1..], c);
      StreamRun(m, steps[1..], c);
      var j, k := m.links[c], Run(m, steps[1..]).links[c];
      var ps, qs := Delivered(steps[0].sends, c), DeliveredIn(steps[1..], c);
      assert l.accepted + ps + qs == l.accepted + (ps + qs);
      StreamJoin(l, j, k, ps, qs, steps[0].event == Writeable(c), Callbacks(steps[1..], c));
    }
  }

  /** The arithmetic of joining one event to the rest of a run. */
  lemma StreamJoin(l: Link, j: Link, k: Link, ps: seq<Packet>, qs: seq<Packet>, callback: bool, w: nat)
    requires if callback && l.queue != []
             then j.written == l.written + [l.queue[0]] && j.queue == l.queue[1..] + ps
             else j.written == l.written && j.queue == l.queue + ps
    requires k.written + k.queue == j.written + j.queue + qs
    requires j.written + j.queue[..Min(w, |j.queue|)] <= k.written
    requires |k.written| <= |j.written| + w
    ensures
      var w' := w + if callback then 1 else 0;
      && k.written + k.queue == l.written + l.queue + (ps + qs)
      && l.written + l.queue[..Min(w', |l.queue|)] <= k.written
      && |k.written| <= |l.written| + w'
  {
    var w' := w + if callback then 1 else 0;
    assert j.written + j.queue == l.written + l.queue + ps;
    assert l.written + l.queue + ps + qs == l.written + l.queue + (ps + qs);
    var all := l.written + l.queue + (ps + qs);
    var n := |l.written| + Min(w', |l.queue|);
    assert l.written + l.queue[..Min(w', |l.queue|)] == all[..n];
    assert n <= |k.written|;
    assert k.written == all[..|k.written|];
  }

  /** The exact delivery bound. A message with k messages queued before it is written by the (k+1)-th later
      writable callback of its connection and by no earlier one, whatever other events come in between. */
  lemma DeliveredByCallback(net: Net, steps: seq<Step>, c: Address, k: nat)
    requires Feasible(net, steps) && c in net.links && StaysOpen(steps, c)
    requires k < |net.links[c].queue|
    ensures c in Run(net, steps).links
    ensures
      var l, l' := net.links[c], Run(net, steps).links[c];
      var w := Callbacks(steps, c);
      var position := |l.written| + k;
      && (position < |l'.written| <==> w >= k + 1)
      && (w >= k + 1 ==> l'.written[position] == l.queue[k])
      && (w <= k ==> l'.written == l.written + l.queue[..w]
                     && k - w < |l'.queue| && l'.queue[k - w] == l.queue[k])
  {
    StreamRun(net, steps, c);
    var l, l' := net.links[c], Run(net, steps).links[c];
    var w := Callbacks(steps, c);
    var all := l.written + l.queue + DeliveredIn(steps, c);
    assert l'.written + l'.queue == all;
    assert all[|l.written| + k] == l.queue[k];
    var sure := l.written + l.queue[..Min(w, |l.queue|)];
    if w >= k + 1 {
      assert |l.written| + k < |sure|;
      assert sure[|l.written| + k] == l.queue[k];
    } else {
      assert l'.written == sure;
      assert (l'.written + l'.queue)[|l.written| + k] == l'.queue[k - w];
    }
  }

  lemma WrittenInTime(net: Net, steps: seq<Step>, c: Address, k: nat)
    requires Feasible(net, steps) && c in net.links && StaysOpen(steps, c)
    requires k < |net.links[c].queue| && k < Callbacks(steps, c)
    ensures c in Run(net, steps).links
    ensures
      var l, wire := net.links[c], Run(net, steps).links[c].written;
      |l.written| + k < |wire| && wire[|l.written| + k] == l.queue[k]
  {
    DeliveredByCallback(net, steps, c, k);
  }

  /** Where nothing is queued, pending or sent, nothing happens. */
  lemma {:induction false} IdleRun(net: Net, steps: seq<Step>, c: Address)
    requires Feasible(net, steps) && StaysOpen(steps, c) && DeliveredIn(steps, c) == []
    requires c in net.links && net.links[c].queue == [] && !net.links[c].pending
    ensures c in Run(net, steps).links && Run(net, steps).links[c] == net.links[c]
    decreases steps
  {
    if steps != [] {
      assert steps[0].event != Closed(c);
      NoIdleRequest(net, steps[0], c);
      IdleRun(Next(net, steps[0]), steps[1..], c);
    }
  }

  /** The drain, in any run that brings the connection no further messages, whatever else happens in between: each
      callback writes the next message of the queue as long as there is one, and a callback stays pending exactly as
      long as something is queued. */
  lemma {:induction false} Drained(net: Net, steps: seq<Step>, c: Address)
    requires NetInv(net) && Feasible(net, steps) && c in net.links
    requires StaysOpen(steps, c) && DeliveredIn(steps, c) == []
    ensures c in Run(net, steps).links
    ensures
      var l, k := net.links[c], Run(net, steps).links[c];
      var n := Min(Callbacks(steps, c), |l.queue|);
      && k.queue == l.queue[n..] && k.written == l.written + l.queue[..n] && k.accepted == l.accepted
      && (l.queue != [] ==> (k.pending <==> k.queue != []))
    decreases steps
  {
    StreamRun(net, steps, c);
    DrainedStream(net.links[c], Run(net, steps).links[c], Callbacks(steps, c));
    if net.links[c].queue != [] {
      PendingWhileQueued(net, steps, c);
    }
  }

  lemma DrainedStream(l: Link, k: Link, w: nat)
    requires k.written + k.queue == l.written + l.queue + []
    requires l.written + l.queue[..Min(w, |l.queue|)] <= k.written && |k.written| <= |l.written| + w
    ensures k.queue == l.queue[Min(w, |l.queue|)..] && k.written == l.written + l.queue[..Min(w, |l.queue|)]
  {
    var n := Min(w, |l.queue|);
    var all := l.written + l.queue;
    assert |k.written| == |l.written| + n;
    assert k.written == (k.written + k.queue)[..|k.written|] == all[..|l.written| + n];
    assert k.queue == (k.written + k.queue)[|k.written|..] == all[|l.written| + n..];
  }

  lemma {:induction false} PendingWhileQueued(net: Net, steps: seq<Step>, c: Address)
    requires NetInv(net) && Feasible(net, steps) && c in net.links && net.links[c].queue != []
    requires StaysOpen(steps, c) && DeliveredIn(steps, c) == []
    ensures c in Run(net, steps).links
    ensures Run(net, steps).links[c].pending <==> Run(net, steps).links[c].queue != []
    decreases steps
  {
    if steps != [] {
      var m := Next(net, steps[0]);
      assert steps[0].event != Closed(c);
      NextAt(net, steps[0], c);
      NetInvStep(net, steps[0]);
      if m.links[c].queue != [] {
        PendingWhileQueued(m, steps[1..], c);
      } else {
        IdleRun(m, steps[1..], c);
      }
    }
  }

  /** As many callbacks as there are messages queued can always be delivered, each when it is pending, and leave
      nothing queued or pending. */
  lemma {:induction false} DrainIsPossible(net: Net, c: Address, steps: seq<Step>)
    requires c in net.links && NetInv(net)
    requires |steps| == |net.links[c].queue| > 0
    requires forall i :: 0 <= i < |steps| ==> steps[i] == Step(Writeable(c), [])
    ensures net.links[c].pending
    ensures Feasible(net, steps) && c in Run(net, steps).links
    ensures Run(net, steps).links[c] == Link([], false, net.links[c].accepted, net.links[c].accepted)
    decreases steps
  {
    var l, m := net.links[c], Next(net, steps[0]);
    NextAt(net, steps[0], c);
    NetInvStep(net, steps[0]);
    assert m.links[c] == Rearm(WriteOne(l));
    if |steps| == 1 {
      assert l.queue[1..] == [] && [l.queue[0]] == l.queue && steps[1..] == [];
      assert Feasible(m, steps[1..]) && Run(m, steps[1..]) == m;
    } else {
      DrainIsPossible(m, c, steps[1..]);
    }
  }
}
