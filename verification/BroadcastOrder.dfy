/** The chat server as an ordered broadcast service. */
module BroadcastOrder {
  import opened Jansson
  import opened Rpc
  import opened Pipeline
  import opened ChatRoom
  import opened ServerModel
  import opened ServerInvariants

  /** The notifications among some messages. On the wire these are the chat posts and the announcements. */
  function Notes(ps: seq<Packet>): seq<Json> {
    if ps == [] then []
    else
      var p := ps[|ps| - 1];
      Notes(ps[..|ps| - 1]) + if IsNotification(p.body) then [p.body] else []
  }

  /** Which broadcasts of the history those notifications are. */
  function Indices(ps: seq<Packet>): seq<nat> {
    if ps == [] then []
    else
      var p := ps[|ps| - 1];
      Indices(ps[..|ps| - 1]) + if p.origin.Broadcast? then [p.origin.index] else []
  }

  /** Something that was written to a connection, open or closed. */
  ghost predicate OnWire(s: State, wire: seq<Packet>) {
    || (exists c :: c in s.net.links && s.net.links[c].written == wire)
    || (exists i :: 0 <= i < |s.net.ended| && s.net.ended[i].written == wire)
  }

  predicate Increasing(xs: seq<nat>) {
    forall i, j :: 0 <= i < j < |xs| ==> xs[i] < xs[j]
  }

  // ---------- one order for everybody ----------

  lemma ChronicledPrefix(log: seq<Packet>, wire: seq<Packet>, rest: seq<Packet>, history: seq<Json>)
    requires Chronicled(log, history) && log == wire + rest
    ensures Chronicled(wire, history)
  {
    assert forall i :: 0 <= i < |wire| ==> wire[i] == log[i];
  }

  lemma WireChronicled(s: State, wire: seq<Packet>)
    requires Inv(s) && OnWire(s, wire)
    ensures Chronicled(wire, s.room.history)
  {
    if c :| c in s.net.links && s.net.links[c].written == wire {
      var l := s.net.links[c];
      ChronicledPrefix(l.accepted, wire, l.queue, s.room.history);
    } else {
      var i :| 0 <= i < |s.net.ended| && s.net.ended[i].written == wire;
      ChronicledPrefix(s.net.ended[i].accepted, wire, s.net.ended[i].discarded, s.room.history);
    }
  }

  lemma {:induction false} NotesAreIndexed(ps: seq<Packet>, history: seq<Json>)
    requires Chronicled(ps, history)
    ensures |Indices(ps)| == |Notes(ps)| && Increasing(Indices(ps))
    ensures forall i :: 0 <= i < |Indices(ps)| ==>
              Indices(ps)[i] < |history| && history[Indices(ps)[i]] == Notes(ps)[i]
    ensures forall x :: x in Indices(ps) ==> exists i :: 0 <= i < |ps| && ps[i].origin == Broadcast(x)
  {
    if ps != [] {
      var front, p := ps[..|ps| - 1], ps[|ps| - 1];
      ChronicledPrefix(ps, front, [p], history);
      NotesAreIndexed(front, history);
      forall x | x in Indices(front)
        ensures exists i :: 0 <= i < |ps| && ps[i].origin == Broadcast(x)
        ensures p.origin.Broadcast? ==> x < p.origin.index
      {
        var i :| 0 <= i < |front| && front[i].origin == Broadcast(x);
        assert ps[i].origin == Broadcast(x);
      }
      assert forall i :: 0 <= i < |Indices(front)| ==> Indices(front)[i] in Indices(front);
      if p.origin.Broadcast? {
        assert ps[|ps| - 1].origin == Broadcast(p.origin.index);
      }
    }
  }

  /** In every run, even with failing allocations, the notifications written to any connection are a
      subsequence of one global history. */
  lemma WireFollowsHistory(turns: seq<Turn>, wire: seq<Packet>)
    requires Possible(Initial(ChatHandlers), turns)
    requires OnWire(AfterAll(Initial(ChatHandlers), turns), wire)
    ensures
      var history := AfterAll(Initial(ChatHandlers), turns).room.history;
      exists at: seq<nat> ::
        && Increasing(at) && |at| == |Notes(wire)|
        && forall i :: 0 <= i < |at| ==> at[i] < |history| && history[at[i]] == Notes(wire)[i]
  {
    var s := AfterAll(Initial(ChatHandlers), turns);
    Reachable(turns);
    WireChronicled(s, wire);
    NotesAreIndexed(wire, s.room.history);
    assert Increasing(Indices(wire));
  }

  /** No two clients see two broadcasts in opposite orders. */
  lemma SameOrderForAll(turns: seq<Turn>, v: seq<Packet>, w: seq<Packet>, i: nat, j: nat, m: nat, n: nat)
    requires Possible(Initial(ChatHandlers), turns)
    requires OnWire(AfterAll(Initial(ChatHandlers), turns), v) && OnWire(AfterAll(Initial(ChatHandlers), turns), w)
    requires i < |v| && j < |v| && v[i].origin.Broadcast? && v[j].origin.Broadcast?
    requires m < |w| && n < |w| && w[m].origin == v[i].origin && w[n].origin == v[j].origin
    ensures v[i].body == w[m].body && v[j].body == w[n].body
    ensures i < j <==> m < n
  {
    var s := AfterAll(Initial(ChatHandlers), turns);
    Reachable(turns);
    WireChronicled(s, v);
    WireChronicled(s, w);
    SameOrder(v, w, s.room.history, i, j, m, n);
  }

  lemma SameOrder(v: seq<Packet>, w: seq<Packet>, history: seq<Json>, i: nat, j: nat, m: nat, n: nat)
    requires Chronicled(v, history) && Chronicled(w, history)
    requires i < |v| && j < |v| && v[i].origin.Broadcast? && v[j].origin.Broadcast?
    requires m < |w| && n < |w| && w[m].origin == v[i].origin && w[n].origin == v[j].origin
    ensures v[i].body == w[m].body && v[j].body == w[n].body
    ensures i < j <==> m < n
  {
    assert i < j ==> v[i].origin.index < v[j].origin.index;
    assert j < i ==> v[j].origin.index < v[i].origin.index;
    assert m < n ==> w[m].origin.index < w[n].origin.index;
    assert n < m ==> w[n].origin.index < w[m].origin.index;
  }

  // ---------- what a connection misses ----------

  predicate StaysConnected(turns: seq<Turn>, c: Address) {
    forall i :: 0 <= i < |turns| ==> turns[i].event != Closed(c)
  }

  /** Whether the turn makes a broadcast for which the allocation for `c` fails. */
  predicate Misses(s: State, turn: Turn, c: Address) {
    CastIn(s, turn).Some? && !Reached(turn.choice, c)
  }

  /** How many broadcasts of a run are lost to `c` since there is no memory for its copy. */
  function Missed(s: State, turns: seq<Turn>, c: Address): nat
    requires Possible(s, turns)
    decreases turns
  {
    if turns == [] then 0
    else (if Misses(s, turns[0], c) then 1 else 0) + Missed(After(s, turns[0]), turns[1..], c)
  }

  /** Nothing is lost to a connection if and only if, whenever there is a broadcast, there is memory for its own copy.
      Failing allocations for other connections, and for responses, cost it nothing. */
  lemma {:induction false} OnlyOwnFailuresCount(s: State, turns: seq<Turn>, c: Address)
    requires Possible(s, turns)
    ensures forall i :: 0 <= i < |turns| ==> Possible(s, turns[..i])
    ensures Missed(s, turns, c) == 0 <==>
            forall i :: 0 <= i < |turns| ==>
              (CastIn(AfterAll(s, turns[..i]), turns[i]).Some? ==> Reached(turns[i].choice, c))
    decreases turns
  {
    forall i | 0 <= i < |turns| ensures Possible(s, turns[..i]) {
      Halfway(s, turns, i);
    }
    if turns != [] {
      var r, rest := After(s, turns[0]), turns[1..];
      OnlyOwnFailuresCount(r, rest, c);
      assert AfterAll(s, turns[..0]) == s;
      forall i | 0 <= i < |rest|
        ensures AfterAll(s, turns[..i + 1]) == AfterAll(r, rest[..i]) && rest[i] == turns[i + 1]
      {
        Halfway(s, turns, i + 1);
      }
    }
  }

  lemma {:induction false} NotesJoin(a: seq<Packet>, b: seq<Packet>)
    ensures Notes(a + b) == Notes(a) + Notes(b)
  {
    if b == [] {
      assert a + b == a;
    } else {
      assert (a + b)[..|a + b| - 1] == a + b[..|b| - 1];
      NotesJoin(a, b[..|b| - 1]);
    }
  }

  /** The body that a turn adds to the history, and the one it adds to the notifications of a connection. */
  function CastsIn(s: State, turn: Turn): seq<Json> {
    if CastIn(s, turn).Some? then [CastIn(s, turn).value] else []
  }

  function NotesIn(s: State, turn: Turn, c: Address): seq<Json> {
    if Misses(s, turn, c) then [] else CastsIn(s, turn)
  }

  lemma NotesDue(s: State, turn: Turn, c: Address)
    ensures Notes(Due(s, turn, c)) == NotesIn(s, turn, c)
  {
    var owed, cast := OwedIn(s, turn, c), CastIn(s, turn);
    var reply := if owed != [] && turn.choice.reply then [Packet(owed[0], Direct)] else [];
    var post := if cast.Some? && Reached(turn.choice, c) then [Packet(cast.value, Broadcast(|s.room.history|))] else [];
    assert Due(s, turn, c) == reply + post;
    NotesJoin(reply, post);
    if reply != [] {
      OwedLooks(s, turn, c);
      assert reply[..0] == [];
    }
    if post != [] {
      CastLooks(s, turn);
      assert post[..0] == [];
    }
  }

  lemma NotesTurn(s: State, turn: Turn, c: Address)
    requires CanHappen(s, turn) && Wired(s) && c in s.net.links && turn.event != Closed(c)
    ensures c in After(s, turn).net.links
    ensures After(s, turn).room.history == s.room.history + CastsIn(s, turn)
    ensures Notes(After(s, turn).net.links[c].accepted) == Notes(s.net.links[c].accepted) + NotesIn(s, turn, c)
  {
    HistoryGrows(s, turn);
    StreamStep(s.net, NetStep(s, turn), c);
    SendsAreDue(s, turn, c);
    NotesDue(s, turn, c);
    NotesJoin(s.net.links[c].accepted, Due(s, turn, c));
  }

  /** A connection that stays open is sent as many notifications as enter the history, less those it misses; and
      exactly what enters the history if and only if it misses nothing. */
  lemma {:induction false} CompleteRun(s: State, turns: seq<Turn>, c: Address)
    requires Possible(s, turns) && Wired(s) && c in s.net.links && StaysConnected(turns, c)
    ensures
      var s' := AfterAll(s, turns);
      && c in s'.net.links
      && s.room.history <= s'.room.history
      && var more := s'.room.history[|s.room.history|..];
         var before, now := Notes(s.net.links[c].accepted), Notes(s'.net.links[c].accepted);
         && |now| + Missed(s, turns, c) == |before| + |more|
         && (now == before + more <==> Missed(s, turns, c) == 0)
    decreases turns
  {
    var h, log := s.room.history, Notes(s.net.links[c].accepted);
    if turns == [] {
      assert log + h[|h|..] == log;
    } else {
      assert turns[0].event != Closed(c);
      WiredStep(s, turns[0]);
      NotesTurn(s, turns[0], c);
      CompleteRun(After(s, turns[0]), turns[1..], c);
      var s' := AfterAll(s, turns);
      SuffixJoin(h, CastsIn(s, turns[0]), s'.room.history, log);
    }
  }

  lemma SuffixJoin(h: seq<Json>, d: seq<Json>, h': seq<Json>, log: seq<Json>)
    requires h + d <= h'
    ensures h <= h' && log + d + h'[|h + d|..] == log + h'[|h|..]
    ensures |h'[|h|..]| == |d| + |h'[|h + d|..]|
  {
    assert h'[|h|..] == d + h'[|h + d|..];
  }

  /** From the moment it joins, and for any order of the broadcast loops, a connection has been sent exactly the
      broadcasts of the history if and only if no allocation of a copy for it has failed; and then those on its wire
      are a prefix of them. */
  lemma JoinerSeesEverything(s: State, join: Turn, turns: seq<Turn>, c: Address)
    requires Inv(s) && CanHappen(s, join) && join.event == Established(c)
    requires Possible(After(s, join), turns) && StaysConnected(turns, c)
    ensures
      var s' := AfterAll(After(s, join), turns);
      && c in s'.net.links
      && |s.room.history| <= |s'.room.history|
      && var lived := s'.room.history[|s.room.history|..];
         && (Notes(s'.net.links[c].accepted) == lived <==> Missed(After(s, join), turns, c) == 0)
         && (Missed(After(s, join), turns, c) == 0 ==> Notes(s'.net.links[c].written) <= lived)
  {
    var r := After(s, join);
    InvStep(s, join);
    FreshStart(s, join, c);
    HistoryGrows(s, join);
    CompleteRun(r, turns, c);
    LaterLog(r, turns, c);
    NotesPrefix(AfterAll(r, turns).net.links[c].written, AfterAll(r, turns).net.links[c].accepted);
  }

  lemma NotesPrefix(a: seq<Packet>, b: seq<Packet>)
    requires a <= b
    ensures Notes(a) <= Notes(b)
  {
    assert a + b[|a|..] == b;
    NotesJoin(a, b[|a|..]);
  }

  // ---------- order on one wire ----------

  /** In the turn of a successful `set_name`, the requester is sent the response and then the announcement of
      its own arrival, each if there is memory for it. */
  lemma ResponseBeforeArrival(s: State, turn: Turn)
    requires Wired(s) && CanHappen(s, turn) && NewName(s, turn).Some?
    ensures
      var c := turn.event.at;
      var call := Classify(turn.event.text).value;
      var name := NewName(s, turn).value;
      && c in s.net.links && c in After(s, turn).net.links
      && After(s, turn).net.links[c].accepted == s.net.links[c].accepted +
           ((if turn.choice.reply then [Packet(Response(Some(Named(name)), call.id), Direct)] else []) +
            (if Reached(turn.choice, c) then [Packet(Announcement("arrived", name), Broadcast(|s.room.history|))]
             else []))
  {
    StreamStep(s.net, NetStep(s, turn), turn.event.at);
    SendsAreDue(s, turn, turn.event.at);
  }

  /** How many messages are queued for `d` before its copy of the broadcast of a turn: those that were there already,
      and the answer that the turn owes it. */
  function Ahead(s: State, turn: Turn, d: Address): nat
    requires d in s.net.links
  {
    |s.net.links[d].queue| + if OwedIn(s, turn, d) != [] && turn.choice.reply then 1 else 0
  }

  lemma BroadcastQueued(s: State, turn: Turn, r: State, d: Address)
    requires CanHappen(s, turn) && r == After(s, turn) && Wired(s) && d in s.net.links && turn.event != Closed(d)
    requires CastIn(s, turn).Some? && Reached(turn.choice, d)
    ensures d in r.net.links
    ensures r.net.links[d].written == s.net.links[d].written
    ensures |r.net.links[d].queue| == Ahead(s, turn, d) + 1
    ensures r.net.links[d].queue[Ahead(s, turn, d)] == Packet(CastIn(s, turn).value, Broadcast(|s.room.history|))
  {
    SendsAreDue(s, turn, d);
    StreamStep(s.net, NetStep(s, turn), d);
  }

  /** Every broadcast, an announcement as well as a chat line, is queued to every connection that has memory for its
      copy. In any later run of the pipeline, and so in every run of the server, once there were more writable
      callbacks than messages before it, it is on the wire, right where it was queued. */
  lemma BroadcastDelivered(s: State, turn: Turn, r: State, steps: seq<Step>, later: Net, d: Address)
    requires CanHappen(s, turn) && r == After(s, turn) && Wired(s) && d in s.net.links && turn.event != Closed(d)
    requires CastIn(s, turn).Some? && Reached(turn.choice, d)
    requires Feasible(r.net, steps) && StaysOpen(steps, d) && later == Run(r.net, steps)
    requires Callbacks(steps, d) > Ahead(s, turn, d)
    ensures d in later.links
    ensures
      var at := |s.net.links[d].written| + Ahead(s, turn, d);
      && at < |later.links[d].written|
      && later.links[d].written[at] == Packet(CastIn(s, turn).value, Broadcast(|s.room.history|))
  {
    BroadcastQueued(s, turn, r, d);
    WrittenInTime(r.net, steps, d, Ahead(s, turn, d));
  }

  /** A log only grows, and the wire is always a prefix of it. */
  lemma LaterLog(s: State, turns: seq<Turn>, c: Address)
    requires Inv(s) && Possible(s, turns) && StaysConnected(turns, c) && c in s.net.links
    ensures
      var s' := AfterAll(s, turns);
      && c in s'.net.links
      && s.net.links[c].accepted <= s'.net.links[c].accepted
      && s'.net.links[c].written <= s'.net.links[c].accepted
      && Chronicled(s'.net.links[c].accepted, s'.room.history)
  {
    InvRun(s, turns);
    RunsThePipeline(s, turns);
    StreamRun(s.net, NetSteps(s, turns), c);
  }

  /** Two packets at the end of a log keep their places in the wire of the later log. */
  lemma StaysInPlace(before: seq<Packet>, first: Packet, second: Packet, later: seq<Packet>, wire: seq<Packet>,
                     history: seq<Json>)
    requires second.origin.Broadcast?
    requires before + [first, second] <= later && wire <= later && Chronicled(later, history)
    ensures |before| < |wire| ==> wire[|before|] == first
    ensures |before| + 1 < |wire| ==> wire[|before| + 1] == second
    ensures forall i :: 0 <= i < |wire| && wire[i].origin == second.origin ==> i == |before| + 1
  {
    var at := |before| + 1;
    assert later[|before|] == (before + [first, second])[|before|] == first;
    assert later[at] == (before + [first, second])[at] == second;
  }

  lemma BothQueued(s: State, turn: Turn, r: State, first: Packet, second: Packet)
    requires Wired(s) && CanHappen(s, turn) && r == After(s, turn) && NewName(s, turn).Some?
    requires turn.choice.reply && Reached(turn.choice, turn.event.at)
    requires first == Packet(Response(Some(Named(NewName(s, turn).value)), Classify(turn.event.text).value.id), Direct)
    requires second == Packet(Announcement("arrived", NewName(s, turn).value), Broadcast(|s.room.history|))
    ensures turn.event.at in s.net.links && turn.event.at in r.net.links
    ensures r.net.links[turn.event.at].accepted == s.net.links[turn.event.at].accepted + [first, second]
  {
    ResponseBeforeArrival(s, turn);
    assert [first] + [second] == [first, second];
  }

  /** So on the wire, too, the announcement is never without the response right before it, if there was memory for
      these two messages. */
  lemma ResponsePrecedesArrivalOnWire(s: State, turn: Turn, turns: seq<Turn>)
    requires Inv(s) && CanHappen(s, turn) && NewName(s, turn).Some?
    requires turn.choice.reply && Reached(turn.choice, turn.event.at)
    requires Possible(After(s, turn), turns) && StaysConnected(turns, turn.event.at)
    ensures
      var c := turn.event.at;
      var call := Classify(turn.event.text).value;
      var name := NewName(s, turn).value;
      && c in s.net.links && c in AfterAll(After(s, turn), turns).net.links
      && var at := |s.net.links[c].accepted|;
         var wire := AfterAll(After(s, turn), turns).net.links[c].written;
         && (at < |wire| ==> wire[at] == Packet(Response(Some(Named(name)), call.id), Direct))
         && (at + 1 < |wire| ==> wire[at + 1] == Packet(Announcement("arrived", name), Broadcast(|s.room.history|)))
         && forall i :: 0 <= i < |wire| && wire[i].origin == Broadcast(|s.room.history|) ==> i == at + 1
  {
    var c, r := turn.event.at, After(s, turn);
    var first := Packet(Response(Some(Named(NewName(s, turn).value)), Classify(turn.event.text).value.id), Direct);
    var second := Packet(Announcement("arrived", NewName(s, turn).value), Broadcast(|s.room.history|));
    BothQueued(s, turn, r, first, second);
    InvStep(s, turn);
    LaterLog(r, turns, c);
    var s' := AfterAll(r, turns);
    StaysInPlace(s.net.links[c].accepted, first, second, s'.net.links[c].accepted, s'.net.links[c].written,
                 s'.room.history);
  }

  /** A leaver's own farewell is queued to it, if there is memory, and then discarded with the rest of its queue: its
      wire ends where it was, and the farewell is not on it. */
  lemma FarewellNotWritten(s: State, turn: Turn, c: Address)
    requires Inv(s) && CanHappen(s, turn) && turn.event == Closed(c)
    ensures
      var s' := After(s, turn);
      var l := s.net.links[c];
      var gone := Packet(Announcement("gone", s.room.chatters[c].name), Broadcast(|s.room.history|));
      var last := if Reached(turn.choice, c) then [gone] else [];
      && c in s.room.chatters && c !in s'.net.links && c !in s'.room.chatters
      && s'.net.ended == s.net.ended + [Ended(c, l.accepted + last, l.written, l.queue + last)]
      && gone !in l.written
      && s'.room.history == s.room.history + [gone.body]
  {
    ClosedAt(s.net, NetStep(s, turn), c);
    SendsAreDue(s, turn, c);
    HistoryGrows(s, turn);
    ChattersAfter(s, turn);
    var l := s.net.links[c];
    var gone := Packet(Announcement("gone", s.room.chatters[c].name), Broadcast(|s.room.history|));
    assert Due(s, turn, c) == if Reached(turn.choice, c) then [gone] else [];
    ChronicledPrefix(l.accepted, l.written, l.queue, s.room.history);
    assert forall i :: 0 <= i < |l.written| ==> l.written[i] != gone;
  }

  /** What the record of a connection is when it leaves. */
  lemma LastTurn(s: State, leave: Turn, c: Address, lived: seq<Json>)
    requires Inv(s) && CanHappen(s, leave) && leave.event == Closed(c)
    requires Notes(s.net.links[c].accepted) == lived && Notes(s.net.links[c].written) <= lived
    ensures
      var s' := After(s, leave);
      && s'.net.ended != [] && c in s.room.chatters
      && var record := s'.net.ended[|s'.net.ended| - 1];
         var farewell := [Announcement("gone", s.room.chatters[c].name)];
         && record.at == c
         && Notes(record.accepted) == lived + (if Reached(leave.choice, c) then farewell else [])
         && Notes(record.written) <= lived
         && s'.room.history == s.room.history + farewell
  {
    FarewellNotWritten(s, leave, c);
    var gone := Packet(Announcement("gone", s.room.chatters[c].name), Broadcast(|s.room.history|));
    var log := s.net.links[c].accepted;
    NotesJoin(log, [gone]);
    NotificationClassified("announce", Some(Array([String("gone"), String(s.room.chatters[c].name)])));
    assert [gone][..0] == [] && log + [] == log;
  }

  /** A whole session, from joining to leaving, of a connection that missed nothing: the record that is left has
      exactly the broadcasts of that time among the messages accepted, the leaver's own farewell being the last, and
      a prefix of those without the farewell on the wire. */
  lemma WholeSession(s: State, join: Turn, turns: seq<Turn>, leave: Turn, c: Address)
    requires Inv(s) && CanHappen(s, join) && join.event == Established(c)
    requires Possible(After(s, join), turns) && StaysConnected(turns, c) && Missed(After(s, join), turns, c) == 0
    requires CanHappen(AfterAll(After(s, join), turns), leave) && leave.event == Closed(c)
    ensures
      var s' := AfterAll(After(s, join), turns);
      var s'' := After(s', leave);
      && |s.room.history| <= |s'.room.history| && s''.net.ended != [] && c in s'.room.chatters
      && var lived := s'.room.history[|s.room.history|..];
         var record := s''.net.ended[|s''.net.ended| - 1];
         var farewell := [Announcement("gone", s'.room.chatters[c].name)];
         && record.at == c
         && Notes(record.accepted) == lived + (if Reached(leave.choice, c) then farewell else [])
         && Notes(record.written) <= lived
         && s''.room.history == s'.room.history + farewell
  {
    var r := After(s, join);
    var s' := AfterAll(r, turns);
    JoinerSeesEverything(s, join, turns, c);
    InvStep(s, join);
    InvRun(r, turns);
    LastTurn(s', leave, c, s'.room.history[|s.room.history|..]);
  }
}
