/** The message queues in memory: messages are found by following the words that hold `next`. */
module QueueLayout {
  import opened MessageLayout
  import opened IndependentQueues

  /** The two pointers of a queue. */
  datatype Ends = Ends(first: nat, last: nat)

  const NULL := 0

  function Successor(chain: seq<nat>, i: nat): nat {
    if i + 1 < |chain| then chain[i + 1] else NULL
  }

  ghost predicate LinkedOn(memory: seq<byte>, chain: seq<nat>, i: nat)
    requires i < |chain|
  {
    0 < chain[i] && chain[i] + WORD <= |memory| && Word(memory, chain[i] + NEXT) == Successor(chain, i)
  }

  /** The messages at the addresses `chain` are those found from `first` on, and the final one is `last`. */
  ghost predicate Chained(memory: seq<byte>, ends: Ends, chain: seq<nat>) {
    && (chain == [] ==> ends == Ends(NULL, NULL))
    && (chain != [] ==> ends == Ends(chain[0], chain[|chain| - 1]))
    && (forall i {:trigger LinkedOn(memory, chain, i)} :: 0 <= i < |chain| ==> LinkedOn(memory, chain, i))
    && (forall i, j :: 0 <= i < j < |chain| ==> chain[i] != chain[j])
  }

  /** There is only one way to follow the words. */
  lemma ChainUnique(memory: seq<byte>, ends: Ends, c: seq<nat>, d: seq<nat>)
    requires Chained(memory, ends, c) && Chained(memory, ends, d)
    ensures c == d
  {
    forall i | 0 <= i < |c| ensures i < |d| && c[i] == d[i] {
      SameAddress(memory, ends, c, d, i);
    }
    if |c| < |d| {
      SameAddress(memory, ends, d, c, |c|);
    }
  }

  lemma {:induction false} SameAddress(memory: seq<byte>, ends: Ends, c: seq<nat>, d: seq<nat>, i: nat)
    requires Chained(memory, ends, c) && Chained(memory, ends, d) && i < |c|
    ensures i < |d| && c[i] == d[i]
  {
    if i > 0 {
      SameAddress(memory, ends, c, d, i - 1);
      assert LinkedOn(memory, c, i - 1) && LinkedOn(memory, d, i - 1);
      assert LinkedOn(memory, c, i);
    } else {
      assert LinkedOn(memory, c, 0);
    }
  }

  lemma ChainKept(a: seq<byte>, b: seq<byte>, from: nat, to: nat, ends: Ends, chain: seq<nat>)
    requires Chained(a, ends, chain) && OnlyBetween(a, b, from, to)
    requires forall m :: m in chain ==> to <= m || m + WORD <= from
    ensures Chained(b, ends, chain)
  {
    forall i | 0 <= i < |chain| ensures LinkedOn(b, chain, i) {
      assert LinkedOn(a, chain, i) && chain[i] in chain;
      SliceKept(a, b, from, to, chain[i] + NEXT, WORD);
    }
  }

  /** The texts at some addresses. */
  function Pick(texts: map<nat, seq<byte>>, chain: seq<nat>): seq<seq<byte>> {
    seq(|chain|, i requires 0 <= i < |chain| => if chain[i] in texts then texts[chain[i]] else [])
  }

  function PickAll(texts: map<nat, seq<byte>>, chains: seq<seq<nat>>): seq<seq<seq<byte>>> {
    seq(|chains|, q requires 0 <= q < |chains| => Pick(texts, chains[q]))
  }

  /** Each allocation holds a message, and no two overlap. */
  ghost predicate Intact(memory: seq<byte>, pre: nat, sizes: map<nat, nat>, texts: map<nat, seq<byte>>) {
    && |memory| < SIZE_LIMIT && sizes.Keys == texts.Keys
    && (forall a :: a in sizes ==> 0 < a && a + sizes[a] <= |memory| && sizes[a] == Extent(pre, |texts[a]|))
    && (forall a {:trigger LaidOut(memory, a, pre, texts[a])} :: a in texts ==> LaidOut(memory, a, pre, texts[a]))
    && (forall a, b :: a in sizes && b in sizes && a < b ==> a + sizes[a] <= b)
  }

  lemma IntactKept(m: seq<byte>, n: seq<byte>, from: nat, to: nat, pre: nat, sizes: map<nat, nat>,
                   texts: map<nat, seq<byte>>)
    requires Intact(m, pre, sizes, texts) && OnlyBetween(m, n, from, to)
    requires forall a :: a in texts ==>
               || to <= a + WORD
               || (a + HEADER <= from && to <= a + HEADER + pre)
               || a + sizes[a] <= from
    ensures Intact(n, pre, sizes, texts)
  {
    forall a | a in texts ensures LaidOut(n, a, pre, texts[a]) {
      assert LaidOut(m, a, pre, texts[a]);
      StaysLaidOut(m, n, from, to, a, pre, texts[a]);
    }
  }

  /** What happens within one allocation does not affect a queue whose messages are others. */
  lemma OtherChainKept(m: seq<byte>, n: seq<byte>, at: nat, pre: nat, sizes: map<nat, nat>, texts: map<nat, seq<byte>>,
                       ends: Ends, chain: seq<nat>)
    requires Intact(m, pre, sizes, texts) && at in sizes && OnlyBetween(m, n, at, at + sizes[at])
    requires Chained(m, ends, chain) && at !in chain && forall a :: a in chain ==> a in texts
    ensures Chained(n, ends, chain)
  {
    forall a | a in chain ensures at + sizes[at] <= a || a + WORD <= at {
      assert a in sizes && sizes[a] >= HEADER;
    }
    ChainKept(m, n, at, at + sizes[at], ends, chain);
  }

  lemma OthersIntact(m: seq<byte>, n: seq<byte>, at: nat, pre: nat, sizes: map<nat, nat>, texts: map<nat, seq<byte>>)
    requires Intact(m, pre, sizes, texts) && at in sizes && OnlyBetween(m, n, at, at + sizes[at])
    ensures Intact(n, pre, sizes - {at}, texts - {at})
  {
    IntactKept(m, n, at, at + sizes[at], pre, sizes - {at}, texts - {at});
  }

  /** What happens in memory that is not in use affects nothing. */
  lemma UnusedMemory(m: seq<byte>, n: seq<byte>, at: nat, pre: nat, sizes: map<nat, nat>, texts: map<nat, seq<byte>>,
                     text: seq<byte>)
    requires Intact(m, pre, sizes, texts) && OnlyBetween(m, n, at, at + Extent(pre, |text|))
    requires LaidOut(n, at, pre, text)
    requires forall a :: a in sizes ==> a + sizes[a] <= at || at + Extent(pre, |text|) <= a
    ensures at !in sizes && Intact(n, pre, sizes[at := Extent(pre, |text|)], texts[at := text])
  {
    IntactKept(m, n, at, at + Extent(pre, |text|), pre, sizes, texts);
    var later := texts[at := text];
    forall a {:trigger later[a]} | a in later ensures LaidOut(n, a, pre, later[a]) {
      assert a in texts ==> LaidOut(n, a, pre, texts[a]);
    }
  }

  lemma NextStored(m: seq<byte>, n: seq<byte>, at: nat, pre: nat, sizes: map<nat, nat>, texts: map<nat, seq<byte>>)
    requires Intact(m, pre, sizes, texts) && at in sizes && OnlyBetween(m, n, at, at + WORD)
    ensures Intact(n, pre, sizes, texts) && OnlyBetween(m, n, at, at + sizes[at])
  {
    IntactKept(m, n, at, at + WORD, pre, sizes, texts);
  }

  /** The gaps before the payloads hold no words of any queue. */
  lemma GapUsed(m: seq<byte>, n: seq<byte>, at: nat, from: nat, to: nat, pre: nat, sizes: map<nat, nat>,
                texts: map<nat, seq<byte>>)
    requires Intact(m, pre, sizes, texts) && at in sizes && OnlyBetween(m, n, from, to)
    requires at + HEADER <= from <= to <= at + HEADER + pre
    ensures Intact(n, pre, sizes, texts)
  {
    IntactKept(m, n, from, to, pre, sizes, texts);
  }

  lemma PayloadRewritten(m: seq<byte>, n: seq<byte>, at: nat, pre: nat, sizes: map<nat, nat>,
                         texts: map<nat, seq<byte>>, text: seq<byte>)
    requires Intact(m, pre, sizes, texts) && at in sizes && |text| == |texts[at]|
    requires OnlyBetween(m, n, at + HEADER + pre, at + Extent(pre, |text|))
    requires n[at + HEADER + pre..at + HEADER + pre + |text|] == text
    ensures Intact(n, pre, sizes, texts[at := text])
  {
    assert LaidOut(m, at, pre, texts[at]);
    PayloadReplaced(m, n, at, pre, texts[at], text);
    var later := texts[at := text];
    forall a {:trigger later[a]} | a in later ensures LaidOut(n, a, pre, later[a]) {
      if a != at {
        assert LaidOut(m, a, pre, texts[a]);
        StaysLaidOut(m, n, at + HEADER + pre, at + Extent(pre, |text|), a, pre, texts[a]);
      }
    }
  }

  /** What is behind the header of a message does not hold a word of any queue. */
  lemma BehindHeader(m: seq<byte>, n: seq<byte>, at: nat, pre: nat, sizes: map<nat, nat>, texts: map<nat, seq<byte>>,
                     ends: Ends, chain: seq<nat>)
    requires Intact(m, pre, sizes, texts) && at in sizes && OnlyBetween(m, n, at + HEADER, at + sizes[at])
    requires Chained(m, ends, chain) && forall a :: a in chain ==> a in texts
    ensures Chained(n, ends, chain)
  {
    forall a | a in chain ensures at + sizes[at] <= a || a + WORD <= at + HEADER {
      assert a in sizes && sizes[a] >= HEADER;
    }
    ChainKept(m, n, at + HEADER, at + sizes[at], ends, chain);
  }

  /** Setting the `next` of the final message to one behind which nothing comes extends the queue by it. */
  lemma Extended(m: seq<byte>, n: seq<byte>, pre: nat, sizes: map<nat, nat>, texts: map<nat, seq<byte>>, ends: Ends,
                 chain: seq<nat>, at: nat)
    requires Intact(m, pre, sizes, texts) && Chained(m, ends, chain) && chain != []
    requires at in texts && at !in chain && forall a :: a in chain ==> a in texts
    requires Word(m, at + NEXT) == NULL
    requires OnlyBetween(m, n, ends.last, ends.last + WORD) && ends.last + WORD <= |n|
    requires Word(n, ends.last + NEXT) == at
    ensures Chained(n, Ends(ends.first, at), chain + [at])
  {
    forall a | (a in chain || a == at) && a != ends.last ensures a + WORD <= ends.last || ends.last + WORD <= a {
      assert a in sizes && ends.last in chain && sizes[a] >= HEADER && sizes[ends.last] >= HEADER;
    }
    assert at in sizes;
    ChainGrown(m, n, ends, chain, at);
  }

  lemma ChainGrown(m: seq<byte>, n: seq<byte>, ends: Ends, chain: seq<nat>, at: nat)
    requires Chained(m, ends, chain) && chain != [] && at !in chain
    requires 0 < at && at + WORD <= |m| && Word(m, at + NEXT) == NULL
    requires OnlyBetween(m, n, ends.last, ends.last + WORD) && ends.last + WORD <= |n|
    requires Word(n, ends.last + NEXT) == at
    requires forall a :: (a in chain || a == at) && a != ends.last ==> a + WORD <= ends.last || ends.last + WORD <= a
    ensures Chained(n, Ends(ends.first, at), chain + [at])
  {
    var longer, final := chain + [at], |chain| - 1;
    forall i | 0 <= i < |longer| ensures LinkedOn(n, longer, i) {
      if i < final {
        assert LinkedOn(m, chain, i) && chain[i] in chain && chain[i] != chain[final];
        SliceKept(m, n, ends.last, ends.last + WORD, chain[i] + NEXT, WORD);
      } else if i == final {
        assert LinkedOn(m, chain, final);
      } else {
        assert chain[final] in chain;
        SliceKept(m, n, ends.last, ends.last + WORD, at + NEXT, WORD);
      }
    }
  }

  lemma Shortened(m: seq<byte>, ends: Ends, chain: seq<nat>)
    requires Chained(m, ends, chain) && chain != []
    ensures 0 < ends.first && ends.first + WORD <= |m|
    ensures
      var next := Word(m, ends.first + NEXT);
      && (next == NULL <==> |chain| == 1)
      && Chained(m, Ends(next, if next == NULL then NULL else ends.last), chain[1..])
  {
    assert LinkedOn(m, chain, 0);
    assert |chain| > 1 ==> LinkedOn(m, chain, 1);
    var rest := chain[1..];
    forall i | 0 <= i < |rest| ensures LinkedOn(m, rest, i) {
      assert LinkedOn(m, chain, i + 1);
    }
  }

  // ---------- what the addresses stand for ----------

  predicate AllIn(chain: seq<nat>, texts: map<nat, seq<byte>>) {
    forall a :: a in chain ==> a in texts
  }

  ghost function StoreOf(texts: map<nat, seq<byte>>, chains: seq<seq<nat>>, loose: seq<nat>, answers: seq<bool>):
    Store<seq<byte>>
  {
    Store(PickAll(texts, chains), Pick(texts, loose), answers)
  }

  lemma PickKept(texts: map<nat, seq<byte>>, others: map<nat, seq<byte>>, chain: seq<nat>)
    requires forall a :: a in chain ==> a in texts && a in others && texts[a] == others[a]
    ensures Pick(texts, chain) == Pick(others, chain)
  {
    forall i | 0 <= i < |chain| ensures Pick(texts, chain)[i] == Pick(others, chain)[i] {
      assert chain[i] in chain;
    }
  }

  lemma PickAllKept(texts: map<nat, seq<byte>>, others: map<nat, seq<byte>>, chains: seq<seq<nat>>)
    requires forall q, a :: 0 <= q < |chains| && a in chains[q] ==> a in texts && a in others && texts[a] == others[a]
    ensures PickAll(texts, chains) == PickAll(others, chains)
  {
    forall q | 0 <= q < |chains| ensures Pick(texts, chains[q]) == Pick(others, chains[q]) {
      PickKept(texts, others, chains[q]);
    }
  }

  lemma StoreAfterCreate(texts: map<nat, seq<byte>>, chains: seq<seq<nat>>, loose: seq<nat>, answers: seq<bool>,
                         at: nat, text: seq<byte>)
    requires AllIn(loose, texts) && at !in texts && forall q :: 0 <= q < |chains| ==> AllIn(chains[q], texts)
    ensures StoreOf(texts[at := text], chains, loose + [at], answers)
         == Apply(StoreOf(texts, chains, loose, answers), Op.Create(text))
  {
    PickAllKept(texts, texts[at := text], chains);
    PickKept(texts, texts[at := text], loose);
    assert Pick(texts[at := text], loose + [at]) == Pick(texts[at := text], loose) + [text];
  }

  lemma StoreAfterDiscard(texts: map<nat, seq<byte>>, chains: seq<seq<nat>>, loose: seq<nat>, answers: seq<bool>,
                          i: nat)
    requires AllIn(loose, texts) && i < |loose|
    requires forall q :: 0 <= q < |chains| ==> AllIn(chains[q], texts - {loose[i]})
    requires loose[i] !in Without(loose, i)
    ensures StoreOf(texts - {loose[i]}, chains, Without(loose, i), answers)
         == Apply(StoreOf(texts, chains, loose, answers), Op.Discard(i))
  {
    PickAllKept(texts, texts - {loose[i]}, chains);
    forall a | a in Without(loose, i) ensures a in loose {
    }
    PickKept(texts, texts - {loose[i]}, Without(loose, i));
    assert Pick(texts, Without(loose, i)) == Without(Pick(texts, loose), i);
  }

  lemma StoreAfterEmptied(texts: map<nat, seq<byte>>, others: map<nat, seq<byte>>, chains: seq<seq<nat>>,
                          loose: seq<nat>, answers: seq<bool>, q: nat)
    requires q < |chains|
    requires forall p, a :: 0 <= p < |chains| && p != q && a in chains[p] ==>
               a in texts && a in others && texts[a] == others[a]
    requires forall a :: a in loose ==> a in texts && a in others && texts[a] == others[a]
    ensures StoreOf(others, chains[q := []], loose, answers)
         == Apply(StoreOf(texts, chains, loose, answers), Op.Cleanup(q))
         == Apply(StoreOf(texts, chains, loose, answers), Op.Init(q))
  {
    PickAllKept(texts, others, chains[q := []]);
    PickKept(texts, others, loose);
    assert PickAll(texts, chains[q := []]) == PickAll(texts, chains)[q := []];
  }

  lemma StoreAfterAppend(texts: map<nat, seq<byte>>, chains: seq<seq<nat>>, loose: seq<nat>, answers: seq<bool>,
                         q: nat, i: nat)
    requires q < |chains| && i < |loose|
    ensures StoreOf(texts, chains[q := chains[q] + [loose[i]]], Without(loose, i), answers)
         == Apply(StoreOf(texts, chains, loose, answers), Op.Append(q, i))
  {
    assert Pick(texts, chains[q] + [loose[i]]) == Pick(texts, chains[q]) + [Pick(texts, loose)[i]];
    assert PickAll(texts, chains[q := chains[q] + [loose[i]]])
        == PickAll(texts, chains)[q := Pick(texts, chains[q] + [loose[i]])];
    assert Pick(texts, Without(loose, i)) == Without(Pick(texts, loose), i);
  }

  lemma StoreAfterDequeue(texts: map<nat, seq<byte>>, chains: seq<seq<nat>>, loose: seq<nat>, answers: seq<bool>,
                          q: nat)
    requires q < |chains| && chains[q] != []
    ensures StoreOf(texts, chains[q := chains[q][1..]], loose + [chains[q][0]], answers)
         == Apply(StoreOf(texts, chains, loose, answers), Op.Dequeue(q))
  {
    assert Pick(texts, chains[q][1..]) == Pick(texts, chains[q])[1..];
    assert PickAll(texts, chains[q := chains[q][1..]]) == PickAll(texts, chains)[q := Pick(texts, chains[q][1..])];
    assert Pick(texts, loose + [chains[q][0]]) == Pick(texts, loose) + [Pick(texts, chains[q])[0]];
  }

  class ByteQueues {
    const memory: array<byte>
    const pre: nat
    /** Where the allocator would put each of its allocations, counted from the first; what it does is left open. */
    const advice: nat -> nat
    /** What the allocator knows: the allocations in use, and which of those asked for so far it has granted. */
    var sizes: map<nat, nat>
    var grants: seq<bool>
    var queues: seq<Ends>
    var loose: seq<nat>
    var answers: seq<bool>
    /** The addresses of the messages of each queue, the texts of all messages, and where each is. */
    ghost var chains: seq<seq<nat>>
    ghost var texts: map<nat, seq<byte>>
    ghost var place: map<nat, Place>

    ghost predicate Good(q: nat)
      requires q < |queues| && q < |chains|
      reads this, memory
    {
      && Chained(memory[..], queues[q], chains[q])
      && forall a :: a in chains[q] ==> a in texts && a in place && place[a] == InQueue(q)
    }

    ghost predicate LooseGood()
      reads this
    {
      && (forall a :: a in loose ==> a in texts && a in place && place[a] == Loose)
      && (forall i, j :: 0 <= i < j < |loose| ==> loose[i] != loose[j])
    }

    /** All queues are in order, but one perhaps. */
    ghost predicate ValidBut(except: int)
      reads this, memory
    {
      && Intact(memory[..], pre, sizes, texts) && LooseGood()
      && |queues| == |chains| && forall q :: 0 <= q < |queues| && q != except ==> Good(q)
    }

    ghost predicate Valid()
      reads this, memory
    {
      ValidBut(-1)
    }

    /** What the memory stands for. */
    ghost function Contents(): Store<seq<byte>>
      reads this
    {
      StoreOf(texts, chains, loose, answers)
    }

    /** Some empty queues. */
    constructor (n: nat, memory: array<byte>, pre: nat, advice: nat -> nat)
      requires memory.Length < SIZE_LIMIT
      ensures Valid() && this.memory == memory && this.pre == pre && this.advice == advice
      ensures sizes == map[] && grants == []
      ensures forall at: nat, size: nat :: 0 < at && at + size <= memory.Length ==> Free(at, size)
      ensures Contents() == Store(seq(n, _ => []), [], [])
    {
      this.memory, this.pre, this.advice := memory, pre, advice;
      sizes, grants, loose, answers := map[], [], [], [];
      queues, chains := seq(n, _ => Ends(NULL, NULL)), seq(n, _ => []);
      texts, place := map[], map[];
    }

    // ---------- memory ----------

    predicate Free(at: nat, size: nat)
      reads this
    {
      && 0 < at && at + size <= memory.Length
      && forall a :: a in sizes ==> a + sizes[a] <= at || at + size <= a
    }

    /** What the allocator answers next: the advised address if there is room, and else none. */
    function Answer(size: nat): (at: nat)
      reads this
      ensures at == NULL || Free(at, size)
      ensures Free(advice(|grants|), size) ==> at == advice(|grants|)
    {
      var at := advice(|grants|);
      if Free(at, size) then at else NULL
    }

    method Allocate(size: nat) returns (at: nat)
      requires Valid()
      modifies this`grants
      ensures Valid() && at == old(Answer(size)) && grants == old(grants) + [at != NULL]
    {
      at := Answer(size);
      grants := grants + [at != NULL];
      forall q | 0 <= q < |queues| ensures Good(q) {
        assert old(Good(q));
      }
    }

    /** After the memory is given back anything may be written there, and it can be had again. */
    method Release(at: nat, ghost except: int)
      requires ValidBut(except) && at in sizes && at !in loose
      requires forall q :: 0 <= q < |chains| && q != except ==> at !in chains[q]
      modifies this`sizes, this`texts, memory
      ensures ValidBut(except) && sizes == old(sizes) - {at} && texts == old(texts) - {at}
      ensures Free(at, old(sizes)[at])
      ensures OnlyBetween(old(memory[..]), memory[..], at, at + old(sizes)[at])
    {
      Scribble(at, except);
      assert forall a :: a in sizes && a != at ==> a + sizes[a] <= at || at + sizes[at] <= a;
      Forget(at, except);
    }

    /** Whatever is written into one allocation, the queues that it is not in are as they were. */
    method Scribble(at: nat, ghost except: int)
      requires ValidBut(except) && at in sizes
      requires forall q :: 0 <= q < |chains| && q != except ==> at !in chains[q]
      modifies memory
      ensures Intact(memory[..], pre, sizes - {at}, texts - {at})
      ensures forall q :: 0 <= q < |queues| && q != except ==> Good(q)
      ensures OnlyBetween(old(memory[..]), memory[..], at, at + sizes[at])
    {
      var junk: seq<byte> := *;
      if |junk| != sizes[at] {
        junk := seq(sizes[at], _ => 0);
      }
      StoreBytes(memory, at, junk);
      ghost var m, n := old(memory[..]), memory[..];
      OthersIntact(m, n, at, pre, sizes, texts);
      forall q | 0 <= q < |queues| && q != except ensures Good(q) {
        assert old(Good(q));
        OtherChainKept(m, n, at, pre, sizes, texts, queues[q], chains[q]);
      }
    }

    method Forget(at: nat, ghost except: int)
      requires at in sizes && at !in loose && LooseGood() && |queues| == |chains|
      requires Intact(memory[..], pre, sizes - {at}, texts - {at})
      requires forall q :: 0 <= q < |queues| && q != except ==> Good(q) && at !in chains[q]
      modifies this`sizes, this`texts
      ensures ValidBut(except) && sizes == old(sizes) - {at} && texts == old(texts) - {at}
    {
      sizes, texts := sizes - {at}, texts - {at};
      forall q | 0 <= q < |queues| && q != except ensures Good(q) {
        assert old(Good(q));
      }
    }

    // ---------- operations ----------

    /** The messages of queues in order are known. */
    lemma AllKnown()
      requires Valid()
      ensures AllIn(loose, texts) && forall q :: 0 <= q < |chains| ==> AllIn(chains[q], texts)
    {
      forall q | 0 <= q < |chains| ensures AllIn(chains[q], texts) {
        assert Good(q);
      }
    }

    /** Measures, allocates, fills in the header and serializes. */
    method Create(text: seq<byte>) returns (ok: bool)
      requires Valid() && Extent(pre, |text|) < SIZE_LIMIT
      modifies this, memory
      ensures Valid() && queues == old(queues) && chains == old(chains)
      ensures ok <==> old(Answer(Extent(pre, |text|))) != NULL
      ensures grants == old(grants) + [ok]
      ensures
        var at := old(Answer(Extent(pre, |text|)));
        if ok then LaidOut(memory[..], at, pre, text) && loose == old(loose) + [at] && texts == old(texts)[at := text]
        else loose == old(loose) && texts == old(texts) && memory[..] == old(memory[..])
      ensures Contents() == if ok then Apply(old(Contents()), Op.Create(text)) else old(Contents())
    {
      SizeIsExact(pre, |text|);
      var size := RequestedSize(pre, |text|);
      var at := Allocate(size);
      ok := at != NULL;
      if ok {
        Enter(at, text);
      }
    }

    /** A message is laid out where there is room for it. */
    method Enter(at: nat, text: seq<byte>)
      requires Valid() && Free(at, Extent(pre, |text|))
      modifies this`sizes, this`loose, this`texts, this`place, memory
      ensures Valid() && LaidOut(memory[..], at, pre, text)
      ensures loose == old(loose) + [at] && texts == old(texts)[at := text]
      ensures Contents() == Apply(old(Contents()), Op.Create(text))
    {
      assert at !in sizes;
      AllKnown();
      StoreAfterCreate(texts, chains, loose, answers, at, text);
      FillIn(at, text);
      Admit(at, text);
      assert LaidOut(memory[..], at, pre, texts[at]);
    }

    /** What happens in memory that is not in use affects no queue and no other message. */
    method FillIn(at: nat, text: seq<byte>)
      requires Valid() && Free(at, Extent(pre, |text|))
      modifies memory
      ensures forall q :: 0 <= q < |queues| ==> Good(q)
      ensures Intact(memory[..], pre, sizes[at := Extent(pre, |text|)], texts[at := text])
    {
      MessageLayout.Create(memory, at, pre, text);
      ghost var m, n := old(memory[..]), memory[..];
      UnusedMemory(m, n, at, pre, sizes, texts, text);
      forall q | 0 <= q < |queues| ensures Good(q) {
        assert old(Good(q));
        ChainKept(m, n, at, at + Extent(pre, |text|), queues[q], chains[q]);
      }
    }

    method Admit(at: nat, text: seq<byte>)
      requires at !in texts && LooseGood() && |queues| == |chains| && forall q :: 0 <= q < |queues| ==> Good(q)
      requires Intact(memory[..], pre, sizes[at := Extent(pre, |text|)], texts[at := text])
      modifies this`sizes, this`loose, this`texts, this`place
      ensures Valid() && texts == old(texts)[at := text] && loose == old(loose) + [at]
    {
      sizes, loose := sizes[at := Extent(pre, |text|)], loose + [at];
      texts, place := texts[at := text], place[at := Loose];
      forall q | 0 <= q < |queues| ensures Good(q) {
        assert old(Good(q));
      }
    }

    method Discard(i: nat)
      requires Valid() && i < |loose|
      modifies this, memory
      ensures Valid() && Contents() == Apply(old(Contents()), Op.Discard(i)) && sizes == old(sizes) - {old(loose)[i]}
      ensures grants == old(grants)
    {
      var at := loose[i];
      AllKnown();
      forall q | 0 <= q < |chains| ensures at !in chains[q] {
        assert Good(q) && at in loose;
      }
      loose := Without(loose, i);
      StoreAfterDiscard(texts, chains, old(loose), answers, i);
      assert forall q :: 0 <= q < |queues| ==> old(Good(q)) ==> Good(q);
      Release(at, -1);
    }

    /** Whatever the two pointers were. */
    method Init(q: nat)
      requires ValidBut(q) && q < |queues|
      modifies this`queues, this`chains
      ensures Valid() && chains == old(chains)[q := []]
      ensures Contents() == Apply(old(Contents()), Op.Init(q))
    {
      forall p | 0 <= p < |chains| && p != q ensures AllIn(chains[p], texts) {
        assert Good(p);
      }
      StoreAfterEmptied(texts, texts, chains, loose, answers, q);
      queues, chains := queues[q := Ends(NULL, NULL)], chains[q := []];
      forall p | 0 <= p < |queues| ensures Good(p) {
        assert p != q ==> old(Good(p));
      }
    }

    method IsEmpty(q: nat)
      requires Valid() && q < |queues|
      modifies this`answers
      ensures Valid() && Contents() == Apply(old(Contents()), Op.IsEmpty(q))
    {
      assert Good(q);
      assert |chains[q]| > 0 ==> LinkedOn(memory[..], chains[q], 0);
      var empty := queues[q].first == NULL;
      answers := answers + [empty];
      forall p | 0 <= p < |queues| ensures Good(p) {
        assert old(Good(p));
      }
    }

    /** Stores a `next`. Only the queue that the message is in, if any, may be affected. */
    method SetNext(at: nat, next: nat, ghost except: int)
      requires ValidBut(except) && at in sizes && next < SIZE_LIMIT
      requires forall q :: 0 <= q < |chains| && q != except ==> at !in chains[q]
      modifies memory
      ensures ValidBut(except) && Word(memory[..], at + NEXT) == next
      ensures OnlyBetween(old(memory[..]), memory[..], at, at + WORD)
    {
      StoreWord(memory, at + NEXT, next);
      ghost var m, n := old(memory[..]), memory[..];
      NextStored(m, n, at, pre, sizes, texts);
      forall q | 0 <= q < |queues| && q != except ensures Good(q) {
        assert old(Good(q));
        OtherChainKept(m, n, at, pre, sizes, texts, queues[q], chains[q]);
      }
    }

    /** A message that is linked to the end of a queue is no longer loose. */
    method PutAway(q: nat, i: nat)
      requires ValidBut(q) && q < |queues| && i < |loose|
      requires Chained(memory[..], queues[q], chains[q] + [loose[i]])
      requires forall a :: a in chains[q] ==> a in texts && a in place && place[a] == InQueue(q)
      modifies this`loose, this`chains, this`place
      ensures Valid() && chains == old(chains)[q := old(chains)[q] + [old(loose)[i]]] && loose == Without(old(loose), i)
    {
      ghost var message := loose[i];
      WithoutOne(loose, i);
      loose := Without(loose, i);
      forall p | 0 <= p < |queues| && p != q ensures Good(p) {
        assert old(Good(p));
      }
      Place(q, message);
    }

    ghost method Place(q: nat, message: nat)
      requires ValidBut(q) && q < |queues| && message in texts && message !in loose
      requires message in place && place[message] == Loose && Chained(memory[..], queues[q], chains[q] + [message])
      requires forall a :: a in chains[q] ==> a in texts && a in place && place[a] == InQueue(q)
      modifies this`chains, this`place
      ensures Valid() && chains == old(chains)[q := old(chains)[q] + [message]]
    {
      chains, place := chains[q := chains[q] + [message]], place[message := InQueue(q)];
      assert Good(q);
      forall p | 0 <= p < |queues| && p != q ensures Good(p) {
        assert old(Good(p)) && message !in chains[p];
      }
    }

    method Append(q: nat, i: nat)
      requires Valid() && q < |queues| && i < |loose|
      modifies this, memory
      ensures Valid() && Contents() == Apply(old(Contents()), Op.Append(q, i)) && grants == old(grants)
    {
      var message := loose[i];
      StoreAfterAppend(texts, chains, loose, answers, q, i);
      forall p | 0 <= p < |chains| ensures message !in chains[p] {
        assert Good(p) && message in loose;
      }
      SetNext(message, NULL, -1);
      Link(q, message);
      PutAway(q, i);
    }

    /** Links a message that has no successor behind the final one, if there is one. */
    method Link(q: nat, message: nat)
      requires Valid() && q < |queues| && message in texts && message !in chains[q]
      requires Word(memory[..], message + NEXT) == NULL
      modifies this`queues, memory
      ensures ValidBut(q) && |queues| == old(|queues|) && Chained(memory[..], queues[q], chains[q] + [message])
      ensures forall a :: a in chains[q] ==> a in texts && a in place && place[a] == InQueue(q)
    {
      assert Good(q);
      assert |chains[q]| > 0 ==> LinkedOn(memory[..], chains[q], |chains[q]| - 1);
      var ends := queues[q];
      if ends.last != NULL {
        LinkBehind(q, message);
        ends := ends.(last := message);
      } else {
        assert LinkedOn(memory[..], [message], 0) && chains[q] + [message] == [message];
        ends := Ends(message, message);
      }
      SetEnds(q, ends, chains[q] + [message]);
    }

    /** Stores the new pointers of a queue. */
    method SetEnds(q: nat, ends: Ends, ghost chain: seq<nat>)
      requires ValidBut(q) && q < |queues| && Chained(memory[..], ends, chain)
      modifies this`queues
      ensures ValidBut(q) && |queues| == old(|queues|) && Chained(memory[..], queues[q], chain)
    {
      queues := queues[q := ends];
      forall p | 0 <= p < |queues| && p != q ensures Good(p) {
        assert old(Good(p));
      }
    }

    method LinkBehind(q: nat, message: nat)
      requires Valid() && q < |queues| && message in texts && message !in chains[q]
      requires Word(memory[..], message + NEXT) == NULL && chains[q] != []
      modifies memory
      ensures ValidBut(q) && Chained(memory[..], Ends(queues[q].first, message), chains[q] + [message])
    {
      assert Good(q);
      var last: nat := queues[q].last;
      ghost var m := memory[..];
      assert last in chains[q];
      forall p | 0 <= p < |chains| && p != q ensures last !in chains[p] {
        assert Good(p);
      }
      SetNext(last, message, q);
      Extended(m, memory[..], pre, sizes, texts, queues[q], chains[q], message);
    }

    /** The message taken out keeps its `next`. */
    method Dequeue(q: nat) returns (message: nat)
      requires Valid() && q < |queues|
      modifies this`queues, this`loose, this`chains, this`place
      ensures Valid() && Contents() == Apply(old(Contents()), Op.Dequeue(q))
      ensures message == NULL <==> old(Contents()).queues[q] == []
      ensures message == old(queues)[q].first && (message != NULL ==> loose == old(loose) + [message])
    {
      assert Good(q);
      assert |chains[q]| > 0 ==> LinkedOn(memory[..], chains[q], 0);
      message := queues[q].first;
      if message != NULL {
        StoreAfterDequeue(texts, chains, loose, answers, q);
        Unhook(q);
        LayAside(q, message);
      }
    }

    /** `first` moves on, and `last` is cleared behind the final message. */
    method Unhook(q: nat)
      requires Valid() && q < |queues| && chains[q] != []
      modifies this`queues
      ensures ValidBut(q) && |queues| == old(|queues|) && Chained(memory[..], queues[q], chains[q][1..])
    {
      assert Good(q);
      Shortened(memory[..], queues[q], chains[q]);
      var next := Word(memory[..], queues[q].first + NEXT);
      queues := queues[q := Ends(next, if next == NULL then NULL else queues[q].last)];
      forall p | 0 <= p < |queues| && p != q ensures Good(p) {
        assert old(Good(p));
      }
    }

    /** A first message that a queue does not point to any more is loose. */
    method LayAside(ghost q: nat, message: nat)
      requires ValidBut(q) && q < |queues| && chains[q] != [] && message == chains[q][0] && message !in chains[q][1..]
      requires Chained(memory[..], queues[q], chains[q][1..])
      requires forall a :: a in chains[q] ==> a in texts && a in place && place[a] == InQueue(q)
      modifies this`loose, this`chains, this`place
      ensures Valid() && chains == old(chains)[q := old(chains)[q][1..]] && loose == old(loose) + [message]
    {
      assert message in chains[q];
      loose, place := loose + [message], place[message := Loose];
      chains := chains[q := chains[q][1..]];
      forall p | 0 <= p < |queues| ensures Good(p) {
        assert p != q ==> old(Good(p));
      }
    }

    /** Each `next` is read before the message is given back. */
    method Cleanup(q: nat)
      requires Valid() && q < |queues|
      modifies this, memory
      ensures Valid() && Contents() == Apply(old(Contents()), Op.Cleanup(q)) && grants == old(grants)
      ensures forall a :: a in old(chains[q]) ==> a !in sizes
    {
      ReleaseAll(q);
      forall p, a | 0 <= p < |chains| && p != q && a in chains[p] ensures a in texts {
        assert Good(p);
      }
      StoreAfterEmptied(old(texts), texts, chains, loose, answers, q);
      Init(q);
    }

    /** What is left of a queue that is being given back. */
    ghost predicate Rest(q: nat, message: nat, last: nat, rest: seq<nat>)
      reads this, memory
    {
      && Chained(memory[..], Ends(message, if message == NULL then NULL else last), rest)
      && forall a :: a in rest ==> a in texts && a in place && place[a] == InQueue(q)
    }

    method ReleaseAll(q: nat)
      requires Valid() && q < |queues|
      modifies this`sizes, this`texts, memory
      ensures ValidBut(q) && texts.Keys <= old(texts).Keys && forall a :: a in texts ==> texts[a] == old(texts)[a]
      ensures forall a :: a in chains[q] ==> a !in sizes
    {
      var message: nat := queues[q].first;
      ghost var rest, last := chains[q], queues[q].last;
      assert Rest(q, message, last, rest) by {
        assert Good(q) && (|rest| > 0 ==> LinkedOn(memory[..], rest, 0));
      }
      while message != NULL
        invariant ValidBut(q) && Rest(q, message, last, rest)
        invariant forall a :: a in chains[q] ==> a in rest || a !in sizes
        invariant texts.Keys <= old(texts).Keys && forall a :: a in texts ==> texts[a] == old(texts)[a]
        decreases |rest|
      {
        message := ReleaseFirst(q, message, last, rest);
        rest := rest[1..];
      }
    }

    method ReleaseFirst(ghost q: nat, message: nat, ghost last: nat, ghost rest: seq<nat>) returns (next: nat)
      requires ValidBut(q) && message != NULL && Rest(q, message, last, rest)
      modifies this`sizes, this`texts, memory
      ensures ValidBut(q) && rest != [] && Rest(q, next, last, rest[1..])
      ensures sizes == old(sizes) - {rest[0]} && texts == old(texts) - {rest[0]}
    {
      ghost var m := memory[..];
      assert LinkedOn(m, rest, 0);
      Shortened(m, Ends(message, last), rest);
      next := Word(memory[..], message + NEXT);
      forall p | 0 <= p < |chains| && p != q ensures message !in chains[p] {
        assert Good(p) && message in rest;
      }
      Release(message, q);
      OtherChainKept(m, memory[..], message, pre, old(sizes), old(texts),
                     Ends(next, if next == NULL then NULL else last), rest[1..]);
    }

    // ---------- the payload and the gap before it ----------

    /** No queue is affected by what is stored behind the header of any message. */
    method StoreBehindHeader(at: nat, from: nat, bytes: seq<byte>)
      requires Valid() && at in sizes && at + HEADER <= from && from + |bytes| <= at + sizes[at]
      modifies memory
      ensures memory[from..from + |bytes|] == bytes && OnlyBetween(old(memory[..]), memory[..], from, from + |bytes|)
      ensures forall q :: 0 <= q < |queues| ==> Good(q)
    {
      StoreBytes(memory, from, bytes);
      forall q | 0 <= q < |queues| ensures Good(q) {
        assert old(Good(q));
        BehindHeader(old(memory[..]), memory[..], at, pre, sizes, texts, queues[q], chains[q]);
      }
    }

    /** libwebsockets may put its own header anywhere in the gap before the payload of any message. */
    method UseGap(at: nat, frame: seq<byte>)
      requires Valid() && at in sizes && |frame| <= pre
      modifies memory
      ensures Valid() && memory[at + HEADER + pre - |frame|..at + HEADER + pre] == frame
    {
      var from := at + HEADER + pre - |frame|;
      StoreBehindHeader(at, from, frame);
      GapUsed(old(memory[..]), memory[..], at, from, from + |frame|, pre, sizes, texts);
    }

    /** Writing where `data` points, up to the length of the message, changes the text of that message alone. */
    method Rewrite(at: nat, text: seq<byte>)
      requires Valid() && at in sizes && |text| == |texts[at]|
      modifies memory, this`texts
      ensures Valid() && texts == old(texts)[at := text]
    {
      assert LaidOut(memory[..], at, pre, texts[at]);
      StoreBehindHeader(at, Word(memory[..], at + DATA), text);
      PayloadRewritten(old(memory[..]), memory[..], at, pre, sizes, texts, text);
      SetText(at, text);
    }

    ghost method SetText(at: nat, text: seq<byte>)
      requires at in texts && LooseGood() && |queues| == |chains| && forall q :: 0 <= q < |queues| ==> Good(q)
      requires Intact(memory[..], pre, sizes, texts[at := text])
      modifies this`texts
      ensures Valid() && texts == old(texts)[at := text]
    {
      texts := texts[at := text];
      forall q | 0 <= q < |queues| ensures Good(q) {
        assert old(Good(q));
      }
    }

    /** The bytes that `data` and `length` designate, after a header was put before them. */
    method Transmit(message: nat, frame: seq<byte>) returns (bytes: seq<byte>)
      requires Valid() && message in texts && |frame| <= pre
      modifies memory
      ensures Valid() && bytes == texts[message]
    {
      UseGap(message, frame);
      assert LaidOut(memory[..], message, pre, texts[message]);
      var data, length := Word(memory[..], message + DATA), Word(memory[..], message + LENGTH);
      bytes := memory[data..data + length];
    }

    /** A writable callback: the bytes handed to libwebsockets, which it may put a header before. */
    method WriteOne(q: nat, frame: seq<byte>) returns (written: seq<seq<byte>>)
      requires Valid() && q < |queues| && |frame| <= pre
      modifies this, memory
      ensures
        var st := old(Contents());
        && Valid() && written == (if |st.queues[q]| > 0 then [st.queues[q][0]] else [])
        && Contents() == (if |st.queues[q]| > 0 then st.(queues := st.queues[q := st.queues[q][1..]]) else st)
        && sizes == (if |st.queues[q]| > 0 then old(sizes) - {old(queues)[q].first} else old(sizes))
        && grants == old(grants)
    {
      written := [];
      assert Good(q);
      assert |chains[q]| > 0 ==> LinkedOn(memory[..], chains[q], 0);
      if queues[q].first != NULL {
        TakenAndDiscarded(Contents(), q);
        var message: nat := Dequeue(q);
        assert loose[|loose| - 1] == message && message in loose;
        var bytes := Transmit(message, frame);
        written := [bytes];
        Discard(|loose| - 1);
      }
    }

    /** Any interleaving of operations on any of the queues does what it does to independent sequences of texts,
        whatever libwebsockets writes into the gaps meanwhile. It stops only at an allocation that is not granted. */
    method Perform(ops: seq<Op<seq<byte>>>) returns (n: nat)
      requires Valid() && AllApplicable(Contents(), ops)
      requires forall i :: 0 <= i < |ops| && ops[i].Create? ==> Extent(pre, |ops[i].message|) < SIZE_LIMIT
      modifies this, memory
      ensures Valid() && n <= |ops| && (n < |ops| ==> ops[n].Create?)
      ensures grants == old(grants) + Granted(ops[..n]) + if n < |ops| then [false] else []
      ensures AllApplicable(old(Contents()), ops[..n]) && Contents() == ApplyAll(old(Contents()), ops[..n])
    {
      n := 0;
      assert ops[..0] == [];
      while n < |ops|
        invariant n <= |ops| && Valid() && grants == old(grants) + Granted(ops[..n])
        invariant AllApplicable(old(Contents()), ops[..n]) && Contents() == ApplyAll(old(Contents()), ops[..n])
      {
        AppliedNext(old(Contents()), ops, n);
        GrantedNext(ops, n);
        var ok := Step(ops[n]);
        if !ok {
          return;
        }
        n := n + 1;
      }
    }

    /** One operation, before which a gap may be written into. It fails only if it is an allocation that is not
        granted. */
    method Step(op: Op<seq<byte>>) returns (ok: bool)
      requires Valid() && Applicable(Contents(), op)
      requires op.Create? ==> Extent(pre, |op.message|) < SIZE_LIMIT
      modifies this, memory
      ensures Valid() && Contents() == if ok then Apply(old(Contents()), op) else old(Contents())
      ensures grants == old(grants) + if op.Create? then [ok] else []
      ensures !ok ==> op.Create?
    {
      DisturbGap();
      if op.Create? {
        ok := Create(op.message);
      } else {
        Do(op);
        ok := true;
      }
    }

    method Do(op: Op<seq<byte>>)
      requires Valid() && Applicable(Contents(), op) && !op.Create?
      modifies this, memory
      ensures Valid() && Contents() == Apply(old(Contents()), op) && grants == old(grants)
    {
      match op {
        case Discard(i) => Discard(i);
        case Init(q) => Init(q);
        case Append(q, i) => Append(q, i);
        case Dequeue(q) =>
          var _ := Dequeue(q);
        case IsEmpty(q) => IsEmpty(q);
        case Cleanup(q) => Cleanup(q);
      }
    }

    /** Something is written into the gap of some message, or nothing. */
    method DisturbGap()
      requires Valid()
      modifies memory
      ensures Valid()
    {
      var at: nat, frame: seq<byte> := *, *;
      if at in sizes && |frame| <= pre {
        UseGap(at, frame);
      }
    }
  }
}
