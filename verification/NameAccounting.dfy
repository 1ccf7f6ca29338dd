/** Names in the chat server: who holds one, and what the announcements say about it. */
module NameAccounting {
  import opened Jansson
  import opened Rpc
  import opened Pipeline
  import opened ChatRoom
  import opened ServerModel
  import opened ServerInvariants

  function Holders(chatters: Chatters, name: string): set<Address> {
    set k | k in chatters && chatters[k].name == name
  }

  /** How often a body occurs in the history. */
  function Count(history: seq<Json>, body: Json): nat {
    if history == [] then 0
    else Count(history[..|history| - 1], body) + if history[|history| - 1] == body then 1 else 0
  }

  /** Whether the turn renames a chatter that was called `name`. */
  predicate RenamesAway(s: State, turn: Turn, name: string) {
    && NewName(s, turn).Some?
    && turn.event.at in s.room.chatters
    && s.room.chatters[turn.event.at].name == name
  }

  function CountRenames(s: State, turns: seq<Turn>, name: string): nat
    requires Possible(s, turns)
    decreases turns
  {
    if turns == [] then 0
    else (if RenamesAway(s, turns[0], name) then 1 else 0) + CountRenames(After(s, turns[0]), turns[1..], name)
  }

  function CountJoins(turns: seq<Turn>): nat {
    if turns == [] then 0
    else (if turns[0].event.Established? then 1 else 0) + CountJoins(turns[1..])
  }

  /** Announced arrivals that no announced departure and no present holder accounts for. */
  function Unaccounted(s: State, name: string): int {
    Count(s.room.history, Announcement("arrived", name)) - Count(s.room.history, Announcement("gone", name))
    - |Holders(s.room.chatters, name)|
  }

  // ---------- one turn ----------

  lemma AnnouncementsDiffer(a: string, b: string, c: string, d: string)
    ensures Announcement(a, b) == Announcement(c, d) <==> a == c && b == d
    ensures Announcement(a, b) != Post(c, d)
  {
    var x, y, z := Announcement(a, b), Announcement(c, d), Post(c, d);
    assert x.fields["params"].items == [String(a), String(b)];
    assert y.fields["params"].items == [String(c), String(d)];
    assert x.fields["params"].items[0] == String(a) && x.fields["params"].items[1] == String(b);
    assert y.fields["params"].items[0] == String(c) && y.fields["params"].items[1] == String(d);
    assert x.fields["method"] == String("announce") && z.fields["method"] == String("message");
  }

  lemma CountCast(s: State, turn: Turn, what: string, name: string)
    requires CanHappen(s, turn) && Wired(s) && what in {"arrived", "gone"}
    ensures Count(After(s, turn).room.history, Announcement(what, name)) ==
            Count(s.room.history, Announcement(what, name)) +
            if (what == "arrived" && NewName(s, turn) == Some(name))
               || (what == "gone" && turn.event.Closed? && s.room.chatters[turn.event.at].name == name)
            then 1 else 0
  {
    HistoryGrows(s, turn);
    var h' := After(s, turn).room.history;
    if CastIn(s, turn).Some? {
      assert h'[..|h'| - 1] == s.room.history;
    }
    if turn.event.Closed? {
      AnnouncementsDiffer("gone", s.room.chatters[turn.event.at].name, what, name);
      assert "gone" != "arrived" by { assert |"gone"| != |"arrived"|; }
    } else if NewName(s, turn).Some? {
      AnnouncementsDiffer("arrived", NewName(s, turn).value, what, name);
      assert "gone" != "arrived" by { assert |"gone"| != |"arrived"|; }
    } else if CastIn(s, turn).Some? {
      var who := s.room.chatters[turn.event.at].name;
      AnnouncementsDiffer(what, name, who, FirstString(Classify(turn.event.text).value.params).value);
    }
  }

  lemma HoldersAdd(chatters: Chatters, k: Address, to: Chatter, name: string)
    requires k !in chatters
    ensures |Holders(chatters[k := to], name)| == |Holders(chatters, name)| + if to.name == name then 1 else 0
  {
    assert (chatters[k := to] - {k}) == chatters;
    HoldersRemove(chatters[k := to], k, name);
  }

  /** Giving `k` another name changes the holders of `name` by what `k` was called and is called now. */
  lemma HoldersPut(chatters: Chatters, k: Address, to: Chatter, name: string)
    requires k in chatters
    ensures |Holders(chatters[k := to], name)| ==
            |Holders(chatters, name)| + (if to.name == name then 1 else 0) - (if chatters[k].name == name then 1 else 0)
  {
    HoldersRemove(chatters, k, name);
    HoldersAdd(chatters - {k}, k, to, name);
    assert (chatters - {k})[k := to] == chatters[k := to];
  }

  lemma HoldersRemove(chatters: Chatters, k: Address, name: string)
    requires k in chatters
    ensures |Holders(chatters - {k}, name)| ==
            |Holders(chatters, name)| - if chatters[k].name == name then 1 else 0
  {
    var rest := Holders(chatters - {k}, name);
    assert k !in rest;
    assert Holders(chatters, name) == rest + if chatters[k].name == name then {k} else {};
  }

  lemma AccountingStep(s: State, turn: Turn, name: string)
    requires CanHappen(s, turn) && Wired(s)
    ensures Unaccounted(After(s, turn), name) ==
            Unaccounted(s, name)
            + (if RenamesAway(s, turn, name) then 1 else 0)
            - (if turn.event.Established? && name == "" then 1 else 0)
  {
    ChattersAfter(s, turn);
    CountCast(s, turn, "arrived", name);
    CountCast(s, turn, "gone", name);
    match turn.event {
      case Established(c) => HoldersAdd(s.room.chatters, c, Chatter(c, ""), name);
      case Closed(c) => HoldersRemove(s.room.chatters, c, name);
      case Receive(c, _) =>
        if NewName(s, turn).Some? {
          HoldersPut(s.room.chatters, c, Chatter(c, NewName(s, turn).value), name);
        }
      case _ =>
    }
  }

  // ---------- every run ----------

  lemma {:induction false} AccountingRun(s: State, turns: seq<Turn>, name: string)
    requires Possible(s, turns) && Wired(s)
    ensures Unaccounted(AfterAll(s, turns), name) ==
            Unaccounted(s, name) + CountRenames(s, turns, name) - (if name == "" then CountJoins(turns) else 0)
    decreases turns
  {
    if turns != [] {
      AccountingStep(s, turns[0], name);
      WiredStep(s, turns[0]);
      AccountingRun(After(s, turns[0]), turns[1..], name);
    }
  }

  lemma OneHolder(chatters: Chatters, name: string)
    requires NamesUnique(chatters) && name != ""
    ensures |Holders(chatters, name)| == if IsNameUsed(chatters, name) then 1 else 0
  {
    if k :| k in chatters && chatters[k].name == name {
      assert Holders(chatters, name) == {k};
    } else {
      assert Holders(chatters, name) == {};
    }
  }

  /** The books balance: every announced arrival of a name is matched by an announced departure, by the one
      present holder, or by a rename away from it. For the empty name, which newcomers hold without an
      announcement, the joins count as arrivals and there may be several holders. */
  lemma NamesAccountedFor(turns: seq<Turn>, name: string)
    requires Possible(Initial(ChatHandlers), turns)
    ensures
      var s := AfterAll(Initial(ChatHandlers), turns);
      && Count(s.room.history, Announcement("arrived", name)) + (if name == "" then CountJoins(turns) else 0) ==
         Count(s.room.history, Announcement("gone", name)) + |Holders(s.room.chatters, name)|
         + CountRenames(Initial(ChatHandlers), turns, name)
      && (name != "" ==> |Holders(s.room.chatters, name)| == if IsNameUsed(s.room.chatters, name) then 1 else 0)
  {
    var s0 := Initial(ChatHandlers);
    InvInitially();
    AccountingRun(s0, turns, name);
    Reachable(turns);
    assert Holders(s0.room.chatters, name) == {};
    if name != "" {
      OneHolder(AfterAll(s0, turns).room.chatters, name);
    }
  }

  lemma RejectedDue(s: State, turn: Turn, params: Json, id: int32)
    requires CanHappen(s, turn) && Wired(s) && turn.event.Receive?
    requires Classify(turn.event.text) == Some(Method("set_name", params, id))
    requires FirstString(params).Some? ==> IsNameUsed(s.room.chatters, FirstString(params).value)
    ensures Handle(s, turn).room == s.room
    ensures forall c :: c != turn.event.at ==> Due(s, turn, c) == []
    ensures Due(s, turn, turn.event.at) ==
            if turn.choice.reply then
              [Packet(if FirstString(params).Some? then ErrorResponse(1, "name already used", id)
                      else ErrorResponse(-1, "invalid params", id), Direct)]
            else []
  {
  }

  /** A `set_name` for a name in use, the requester's own included, and one without a string in front, change
      no name and broadcast nothing; the requester gets the error that says why. */
  lemma RejectedNameChangesNothing(s: State, turn: Turn, params: Json, id: int32)
    requires CanHappen(s, turn) && Wired(s) && turn.event.Receive?
    requires Classify(turn.event.text) == Some(Method("set_name", params, id))
    requires FirstString(params).Some? ==> IsNameUsed(s.room.chatters, FirstString(params).value)
    ensures After(s, turn).room == s.room && After(s, turn).net.links.Keys == s.net.links.Keys
    ensures forall c :: c in s.net.links && c != turn.event.at ==> After(s, turn).net.links[c] == s.net.links[c]
    ensures
      var c := turn.event.at;
      After(s, turn).net.links[c].accepted == s.net.links[c].accepted +
        if turn.choice.reply then
          [Packet(if FirstString(params).Some? then ErrorResponse(1, "name already used", id)
                  else ErrorResponse(-1, "invalid params", id), Direct)]
        else []
  {
    NextKeys(s.net, NetStep(s, turn));
    RejectedDue(s, turn, params, id);
    forall c | c in s.net.links
      ensures c != turn.event.at ==> After(s, turn).net.links[c] == s.net.links[c]
      ensures After(s, turn).net.links[c].accepted == s.net.links[c].accepted + Due(s, turn, c)
    {
      DueOnly(s, turn, c);
    }
  }

  lemma DueOnly(s: State, turn: Turn, c: Address)
    requires CanHappen(s, turn) && Wired(s) && turn.event.Receive? && c in s.net.links
    ensures c in After(s, turn).net.links
    ensures After(s, turn).net.links[c].accepted == s.net.links[c].accepted + Due(s, turn, c)
    ensures c != turn.event.at && Due(s, turn, c) == [] ==> After(s, turn).net.links[c] == s.net.links[c]
  {
    SendsAreDue(s, turn, c);
    NextAt(s.net, NetStep(s, turn), c);
    var l := s.net.links[c];
    assert l.queue + [] == l.queue && l.accepted + [] == l.accepted;
  }

  /** Whether the turn is a request for a name. */
  predicate AsksForName(turn: Turn, name: string) {
    turn.event.Receive? &&
    var call := Classify(turn.event.text);
    call.Some? && call.value.Method? && call.value.name == "set_name" && FirstString(call.value.params) == Some(name)
  }

  /** A name that nobody has stays so as long as nobody asks for it. */
  lemma {:induction false} StaysUnused(s: State, turns: seq<Turn>, name: string)
    requires Wired(s) && Possible(s, turns) && name != "" && !IsNameUsed(s.room.chatters, name)
    requires forall i :: 0 <= i < |turns| ==> !AsksForName(turns[i], name)
    ensures Wired(AfterAll(s, turns)) && !IsNameUsed(AfterAll(s, turns).room.chatters, name)
    decreases turns
  {
    if turns != [] {
      assert !AsksForName(turns[0], name);
      WiredStep(s, turns[0]);
      ChattersAfter(s, turns[0]);
      StaysUnused(After(s, turns[0]), turns[1..], name);
    }
  }

  /** A disconnect frees the name. Whatever happens until then, the next request for it succeeds, and its sender is
      the only holder. */
  lemma LeavingFreesTheName(s: State, leave: Turn, turns: seq<Turn>, ask: Turn, c: Address, name: string)
    requires CanHappen(s, leave) && Inv(s) && leave.event == Closed(c)
    requires name == s.room.chatters[c].name && name != ""
    requires Possible(After(s, leave), turns) && forall i :: 0 <= i < |turns| ==> !AsksForName(turns[i], name)
    requires CanHappen(AfterAll(After(s, leave), turns), ask) && AsksForName(ask, name)
    ensures !IsNameUsed(After(s, leave).room.chatters, name)
    ensures
      var r := AfterAll(After(s, leave), turns);
      var r' := After(r, ask);
      && !IsNameUsed(r.room.chatters, name)
      && ask.event.at in r'.room.chatters && r'.room.chatters[ask.event.at].name == name
      && Holders(r'.room.chatters, name) == {ask.event.at}
  {
    ChattersAfter(s, leave);
    WiredStep(s, leave);
    assert !IsNameUsed(After(s, leave).room.chatters, name);
    StaysUnused(After(s, leave), turns, name);
    var r := AfterAll(After(s, leave), turns);
    ChattersAfter(r, ask);
    NewHolder(r.room.chatters, ask.event.at, name);
  }

  lemma NewHolder(chatters: Chatters, k: Address, name: string)
    requires !IsNameUsed(chatters, name)
    ensures Holders(chatters[k := Chatter(k, name)], name) == {k}
  {
  }
}
