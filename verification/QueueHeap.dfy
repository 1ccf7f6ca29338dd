/** Queues on one heap: messages move from one to another with the `next` pointer that the last queue left in them. */
module QueueHeap {
  import opened Pipeline
  import opened MessageQueue
  import opened IndependentQueues

  class Queues {
    const allocator: Allocator
    var queues: seq<Queue>
    var loose: seq<Message>
    var answers: seq<bool>
    /** What all of it stands for, and where each message is. */
    ghost var store: Store<Packet>
    ghost var place: map<Message, Place>
    ghost var Repr: set<object>

    /** A queue is in order and has its messages for itself. */
    ghost predicate Good(q: nat)
      requires q < |queues|
      reads this, queues[q], queues[q].nodes
    {
      && queues[q].Valid()
      && q < |store.queues| && queues[q].contents == store.queues[q]
      && forall m :: m in queues[q].nodes ==> m in Repr && m in place && place[m] == InQueue(q)
    }

    ghost predicate LooseGood()
      reads this, loose
    {
      && |loose| == |store.loose|
      && (forall i, j :: 0 <= i < j < |loose| ==> loose[i] != loose[j])
      && (forall i :: 0 <= i < |loose| ==>
            && loose[i].AsPacket() == store.loose[i] && !loose[i].disposed
            && loose[i] in Repr && loose[i] in place && place[loose[i]] == Loose)
    }

    /** All queues are good, but one perhaps, and so are the messages that are in none. */
    ghost predicate ValidBut(except: int)
      reads this, Repr
    {
      && this in Repr && allocator in Repr && |store.queues| == |queues| && answers == store.answers
      && (forall q :: 0 <= q < |queues| ==> queues[q] in Repr)
      && (forall q, m :: 0 <= q < |queues| && m in queues[q].nodes ==> m in Repr)
      && (forall m :: m in loose ==> m in Repr)
      && (forall p, q :: 0 <= p < q < |queues| ==> queues[p] != queues[q])
      && (forall q {:trigger Good(q)} :: 0 <= q < |queues| && q != except ==> Good(q))
      && LooseGood()
    }

    ghost predicate Valid()
      reads this, Repr
    {
      ValidBut(-1)
    }

    /** Some empty queues. */
    constructor (n: nat)
      ensures Valid() && fresh(Repr) && store == Store(seq(n, _ => []), [], [])
    {
      allocator := new Allocator();
      queues, loose, answers := [], [], [];
      store, place := Store([], [], []), map[];
      new;
      Repr := {this, allocator};
      while |queues| < n
        invariant |queues| <= n && Valid() && fresh(Repr)
        invariant store == Store(seq(|queues|, _ => []), [], [])
      {
        AddQueue();
      }
    }

    method AddQueue()
      requires Valid()
      modifies this
      ensures Valid() && fresh(Repr - old(Repr)) && |queues| == old(|queues|) + 1
      ensures store == old(store).(queues := old(store.queues) + [[]])
    {
      var queue := new Queue();
      queue.Init();
      Include(queue);
    }

    method Include(queue: Queue)
      requires Valid() && queue !in Repr && queue.Valid() && queue.nodes == []
      modifies this
      ensures Valid() && Repr == old(Repr) + {queue} && |queues| == old(|queues|) + 1
      ensures store == old(store).(queues := old(store.queues) + [[]])
    {
      queues, Repr := queues + [queue], Repr + {queue};
      store := store.(queues := store.queues + [[]]);
      assert Good(|queues| - 1);
      forall q | 0 <= q < |queues| - 1 ensures Good(q) {
        assert old(Good(q));
      }
    }

    /** No message is in two queues. */
    lemma Disjoint(p: nat, q: nat, m: Message)
      requires Valid() && p < |queues| && q < |queues|
      requires m in queues[p].nodes && m in queues[q].nodes
      ensures p == q
    {
      assert Good(p) && Good(q);
    }

    method Create(packet: Packet)
      requires Valid()
      modifies Repr
      ensures Valid() && fresh(Repr - old(Repr)) && store == Apply(old(store), Op.Create(packet))
    {
      var message := new Message(allocator, packet.body, packet.origin);
      Admit(message);
    }

    /** A new message is in no queue. */
    method Admit(message: Message)
      requires Valid() && message !in Repr && !message.disposed && message !in place
      modifies this
      ensures Valid() && Repr == old(Repr) + {message} && store == Apply(old(store), Op.Create(message.AsPacket()))
    {
      loose, Repr, place := loose + [message], Repr + {message}, place[message := Loose];
      store := store.(loose := store.loose + [message.AsPacket()]);
      assert LooseGood();
      forall q | 0 <= q < |queues| ensures Good(q) {
        assert old(Good(q));
      }
    }

    method Discard(i: nat)
      requires Valid() && i < |loose|
      modifies Repr
      ensures Valid() && Repr == old(Repr) && store == Apply(old(store), Op.Discard(i)) && old(loose)[i].disposed
    {
      var message := loose[i];
      message.Dispose();
      loose := Without(loose, i);
      store := store.(loose := Without(store.loose, i));
      forall q | 0 <= q < |queues| ensures Good(q) {
        assert old(Good(q));
      }
    }

    method Init(q: nat)
      requires Valid() && q < |queues|
      modifies Repr
      ensures Valid() && Repr == old(Repr) && store == Apply(old(store), Op.Init(q))
    {
      queues[q].Init();
      store := store.(queues := store.queues[q := []]);
      forall p | 0 <= p < |queues| ensures Good(p) {
        assert old(Good(p));
      }
    }

    method Append(q: nat, i: nat)
      requires Valid() && q < |queues| && i < |loose|
      modifies Repr
      ensures Valid() && Repr == old(Repr) && store == Apply(old(store), Op.Append(q, i))
    {
      assert Good(q);
      var message := loose[i];
      queues[q].Append(message);
      forall p | 0 <= p < |queues| && p != q ensures Good(p) {
        assert old(Good(p));
      }
      PutAway(q, i);
    }

    /** A loose message that has come into a queue is no longer loose. */
    method PutAway(q: nat, i: nat)
      requires q < |queues| && i < |loose| && ValidBut(q)
      requires queues[q].Valid() && queues[q].contents == store.queues[q] + [store.loose[i]]
      requires forall m :: m in queues[q].nodes ==>
                 m in Repr && (m == loose[i] || (m in place && place[m] == InQueue(q)))
      modifies this
      ensures Valid() && Repr == old(Repr) && store == Apply(old(store), Op.Append(q, i))
    {
      ghost var message := loose[i];
      place := place[message := InQueue(q)];
      loose := Without(loose, i);
      store := store.(queues := store.queues[q := store.queues[q] + [store.loose[i]]],
                      loose := Without(store.loose, i));
      assert LooseGood() by {
        assert old(LooseGood()) && message == old(loose)[i];
      }
      assert Good(q);
      forall p | 0 <= p < |queues| && p != q ensures Good(p) {
        assert old(Good(p)) && message !in queues[p].nodes;
      }
    }

    method Dequeue(q: nat)
      requires Valid() && q < |queues|
      modifies Repr
      ensures Valid() && Repr == old(Repr) && store == Apply(old(store), Op.Dequeue(q))
      ensures old(store).queues[q] != [] ==>
                && old(queues[q].nodes) != [] && loose == old(loose) + [old(queues[q].nodes)[0]]
                && loose[|old(loose)|].next == old(queues[q].nodes[0].next)
    {
      assert Good(q);
      var message := queues[q].Dequeue();
      forall p | 0 <= p < |queues| && p != q ensures Good(p) {
        assert old(Good(p));
      }
      if message != null {
        LayAside(q, message);
      } else {
        assert Good(q);
      }
    }

    /** A message that has come out of a queue is loose. */
    method LayAside(q: nat, message: Message)
      requires q < |queues| && ValidBut(q) && message in Repr && !message.disposed
      requires message in place && place[message] == InQueue(q) && message !in queues[q].nodes
      requires store.queues[q] == [message.AsPacket()] + queues[q].contents
      requires queues[q].Valid() && forall m :: m in queues[q].nodes ==> m in place && place[m] == InQueue(q)
      modifies this
      ensures Valid() && Repr == old(Repr) && store == Apply(old(store), Op.Dequeue(q))
      ensures loose == old(loose) + [message]
    {
      assert store.queues[q][1..] == queues[q].contents && store.queues[q][0] == message.AsPacket();
      Unplace(q, message);
      Loosen(message);
    }

    method Loosen(message: Message)
      requires Valid() && message in Repr && !message.disposed && message !in loose
      requires message in place && place[message] == Loose
      modifies this`loose, this`store
      ensures Valid() && loose == old(loose) + [message]
      ensures store == old(store).(loose := old(store).loose + [message.AsPacket()])
    {
      loose := loose + [message];
      store := store.(loose := store.loose + [message.AsPacket()]);
      forall p | 0 <= p < |queues| ensures Good(p) {
        assert old(Good(p));
      }
    }

    /** The message is in no queue any more. */
    ghost method Unplace(q: nat, message: Message)
      requires q < |queues| && ValidBut(q)
      requires message in place && place[message] == InQueue(q) && message !in queues[q].nodes
      requires queues[q].Valid() && forall m :: m in queues[q].nodes ==> m in place && place[m] == InQueue(q)
      modifies this`place, this`store
      ensures Valid() && place == old(place)[message := Loose] && message !in loose
      ensures store == old(store).(queues := old(store).queues[q := queues[q].contents])
    {
      place := place[message := Loose];
      store := store.(queues := store.queues[q := queues[q].contents]);
      assert Good(q);
      forall p | 0 <= p < |queues| && p != q ensures Good(p) {
        assert old(Good(p)) && message !in queues[p].nodes;
      }
    }

    method IsEmpty(q: nat)
      requires Valid() && q < |queues|
      modifies Repr
      ensures Valid() && Repr == old(Repr) && store == Apply(old(store), Op.IsEmpty(q))
    {
      assert Good(q);
      var empty := queues[q].IsEmpty();
      answers := answers + [empty];
      store := store.(answers := store.answers + [empty]);
      forall p | 0 <= p < |queues| ensures Good(p) {
        assert old(Good(p));
      }
    }

    method Cleanup(q: nat)
      requires Valid() && q < |queues|
      modifies Repr
      ensures Valid() && Repr == old(Repr) && store == Apply(old(store), Op.Cleanup(q))
      ensures forall m :: m in old(queues[q].nodes) ==> m.disposed
    {
      GiveBack(q);
      label Emptied:
      store := store.(queues := store.queues[q := []]);
      forall p | 0 <= p < |queues| ensures Good(p) {
        assert p != q ==> old@Emptied(Good(p));
      }
    }

    /** Gives all messages of a queue back; the other queues are as they were. */
    method GiveBack(q: nat)
      requires Valid() && q < |queues|
      modifies Repr
      ensures unchanged(this) && ValidBut(q) && queues[q].Valid() && queues[q].nodes == []
      ensures forall m :: m in old(queues[q].nodes) ==> m.disposed
    {
      assert Good(q);
      queues[q].Cleanup();
      forall p | 0 <= p < |queues| && p != q ensures Good(p) {
        assert old(Good(p)) && old(Good(q));
        assert forall i :: 0 <= i < |old(queues[p].nodes)| ==>
                 old(queues[p].nodes)[i] in old(queues[p].nodes) && old(queues[p].nodes)[i] !in old(queues[q].nodes);
      }
    }

    /** Any interleaving of operations on any of the queues does what it does to independent sequences. */
    method Perform(ops: seq<Op<Packet>>)
      requires Valid() && AllApplicable(store, ops)
      modifies Repr
      ensures Valid() && fresh(Repr - old(Repr)) && store == ApplyAll(old(store), ops)
    {
      var n := 0;
      while n < |ops|
        invariant 0 <= n <= |ops| && Valid() && fresh(Repr - old(Repr))
        invariant AllApplicable(store, ops[n..]) && ApplyAll(store, ops[n..]) == ApplyAll(old(store), ops)
      {
        assert ops[n..][1..] == ops[n + 1..];
        match ops[n] {
          case Create(packet) => Create(packet);
          case Discard(i) => Discard(i);
          case Init(q) => Init(q);
          case Append(q, i) => Append(q, i);
          case Dequeue(q) => Dequeue(q);
          case IsEmpty(q) => IsEmpty(q);
          case Cleanup(q) => Cleanup(q);
        }
        n := n + 1;
      }
      assert ops[n..] == [];
    }
  }
}
