/** Any number of message queues that are used in any order, as what they should be: independent sequences. A message
    that was taken out of one queue may wait for any time and then go into another one. */
module IndependentQueues {

  /** Some sequences, the messages that are in none of them, and the answers given to questions so far. */
  datatype Store<T> = Store(queues: seq<seq<T>>, loose: seq<T>, answers: seq<bool>)

  /** `Create` and `Discard` are the creation and disposal of messages that are in no queue. */
  datatype Op<T> =
    | Create(message: T)
    | Discard(i: nat)
    | Init(q: nat)
    | Append(q: nat, i: nat)
    | Dequeue(q: nat)
    | IsEmpty(q: nat)
    | Cleanup(q: nat)

  function Without<T>(s: seq<T>, i: nat): (r: seq<T>)
    requires i < |s|
    ensures |r| == |s| - 1
    ensures forall j :: 0 <= j < |r| ==> r[j] == s[if j < i then j else j + 1]
  {
    s[..i] + s[i + 1..]
  }

  lemma WithoutOne<T>(s: seq<T>, i: nat)
    requires i < |s| && forall j, k :: 0 <= j < k < |s| ==> s[j] != s[k]
    ensures s[i] !in Without(s, i) && forall x :: x in Without(s, i) ==> x in s
    ensures forall j, k :: 0 <= j < k < |s| - 1 ==> Without(s, i)[j] != Without(s, i)[k]
  {
  }

  predicate Applicable<T>(st: Store<T>, op: Op<T>) {
    match op
    case Create(_) => true
    case Discard(i) => i < |st.loose|
    case Append(q, i) => q < |st.queues| && i < |st.loose|
    case _ => op.q < |st.queues|
  }

  function Apply<T>(st: Store<T>, op: Op<T>): Store<T>
    requires Applicable(st, op)
  {
    match op
    case Create(message) => st.(loose := st.loose + [message])
    case Discard(i) => st.(loose := Without(st.loose, i))
    case Init(q) => st.(queues := st.queues[q := []])
    case Append(q, i) =>
      st.(queues := st.queues[q := st.queues[q] + [st.loose[i]]], loose := Without(st.loose, i))
    case Dequeue(q) =>
      if |st.queues[q]| == 0 then st
      else st.(queues := st.queues[q := st.queues[q][1..]], loose := st.loose + [st.queues[q][0]])
    case IsEmpty(q) => st.(answers := st.answers + [|st.queues[q]| == 0])
    case Cleanup(q) => st.(queues := st.queues[q := []])
  }

  predicate AllApplicable<T>(st: Store<T>, ops: seq<Op<T>>)
    decreases ops
  {
    |ops| == 0 || (Applicable(st, ops[0]) && AllApplicable(Apply(st, ops[0]), ops[1..]))
  }

  function ApplyAll<T>(st: Store<T>, ops: seq<Op<T>>): Store<T>
    requires AllApplicable(st, ops)
    decreases ops
  {
    if |ops| == 0 then st else ApplyAll(Apply(st, ops[0]), ops[1..])
  }

  lemma {:induction false} AppliedNext<T>(st: Store<T>, ops: seq<Op<T>>, n: nat)
    requires AllApplicable(st, ops) && n < |ops|
    ensures AllApplicable(st, ops[..n]) && Applicable(ApplyAll(st, ops[..n]), ops[n])
    ensures AllApplicable(st, ops[..n + 1]) && ApplyAll(st, ops[..n + 1]) == Apply(ApplyAll(st, ops[..n]), ops[n])
    decreases n
  {
    assert ops[..n + 1][1..] == ops[1..][..n];
    if n > 0 {
      assert ops[..n][1..] == ops[1..][..n - 1];
      AppliedNext(Apply(st, ops[0]), ops[1..], n - 1);
    }
  }

  /** A message that is taken out of a queue and then disposed of leaves no trace. */
  lemma TakenAndDiscarded<T>(st: Store<T>, q: nat)
    requires q < |st.queues| && |st.queues[q]| > 0
    ensures
      var taken := Apply(st, Op<T>.Dequeue(q));
      && taken.loose[|st.loose|] == st.queues[q][0] && |taken.loose| == |st.loose| + 1
      && Apply(taken, Op<T>.Discard(|st.loose|)) == st.(queues := st.queues[q := st.queues[q][1..]])
  {
    var taken := Apply(st, Op<T>.Dequeue(q));
    assert Without(taken.loose, |st.loose|) == st.loose;
  }

  /** What the allocator has answered if all messages that a run creates were granted. */
  function Granted<T>(ops: seq<Op<T>>): seq<bool> {
    if |ops| == 0 then [] else Granted(ops[..|ops| - 1]) + if ops[|ops| - 1].Create? then [true] else []
  }

  lemma GrantedNext<T>(ops: seq<Op<T>>, n: nat)
    requires n < |ops|
    ensures Granted(ops[..n + 1]) == Granted(ops[..n]) + if ops[n].Create? then [true] else []
  {
    assert ops[..n + 1][..n] == ops[..n];
  }

  /** What a run puts into a queue, and what it takes out of it. */
  function PutInto<T>(st: Store<T>, ops: seq<Op<T>>, q: nat): seq<T>
    requires AllApplicable(st, ops)
    decreases ops
  {
    if |ops| == 0 then []
    else
      (if ops[0].Append? && ops[0].q == q then [st.loose[ops[0].i]] else []) + PutInto(Apply(st, ops[0]), ops[1..], q)
  }

  function TakenFrom<T>(st: Store<T>, ops: seq<Op<T>>, q: nat): seq<T>
    requires AllApplicable(st, ops)
    decreases ops
  {
    if |ops| == 0 then []
    else
      (if ops[0].Dequeue? && ops[0].q == q && |st.queues[q]| > 0 then [st.queues[q][0]] else []) +
      TakenFrom(Apply(st, ops[0]), ops[1..], q)
  }

  /** Each queue on its own is first in, first out, whatever is done to the others meanwhile. */
  lemma {:induction false} EachIsFifo<T>(st: Store<T>, ops: seq<Op<T>>, q: nat)
    requires AllApplicable(st, ops) && q < |st.queues|
    requires forall i :: 0 <= i < |ops| ==> !Resets(ops[i], q)
    ensures |ApplyAll(st, ops).queues| == |st.queues|
    ensures st.queues[q] + PutInto(st, ops, q) == TakenFrom(st, ops, q) + ApplyAll(st, ops).queues[q]
    decreases ops
  {
    if ops == [] {
      assert st.queues[q] + [] == [] + st.queues[q];
    } else {
      var op, r := ops[0], Apply(st, ops[0]);
      assert !Resets(op, q);
      EachIsFifo(r, ops[1..], q);
      var put := if op.Append? && op.q == q then [st.loose[op.i]] else [];
      var taken := if op.Dequeue? && op.q == q && |st.queues[q]| > 0 then [st.queues[q][0]] else [];
      assert st.queues[q] + put == taken + r.queues[q];
      FifoJoin(st.queues[q], put, taken, r.queues[q], PutInto(r, ops[1..], q), TakenFrom(r, ops[1..], q),
               ApplyAll(st, ops).queues[q]);
    }
  }

  lemma FifoJoin<T>(a: seq<T>, put: seq<T>, taken: seq<T>, b: seq<T>, puts: seq<T>, takens: seq<T>, c: seq<T>)
    requires a + put == taken + b && b + puts == takens + c
    ensures a + (put + puts) == (taken + takens) + c
  {
    assert a + (put + puts) == (a + put) + puts == taken + (b + puts);
  }

  // ---------- the answers ----------

  predicate Resets<T>(op: Op<T>, q: nat) {
    (op.Init? || op.Cleanup?) && op.q == q
  }

  lemma {:induction false} RunSplit<T>(st: Store<T>, ops: seq<Op<T>>, k: nat)
    requires AllApplicable(st, ops) && k <= |ops|
    ensures AllApplicable(st, ops[..k]) && AllApplicable(ApplyAll(st, ops[..k]), ops[k..])
    ensures ApplyAll(ApplyAll(st, ops[..k]), ops[k..]) == ApplyAll(st, ops)
    ensures |ApplyAll(st, ops).queues| == |st.queues|
    decreases ops
  {
    if k > 0 {
      assert ops[..k][1..] == ops[1..][..k - 1] && ops[1..][k - 1..] == ops[k..];
      RunSplit(Apply(st, ops[0]), ops[1..], k - 1);
    } else {
      assert ops[..0] == [] && ops[0..] == ops;
      if |ops| > 0 {
        RunSplit(Apply(st, ops[0]), ops[1..], 0);
      }
    }
  }

  /** What a queue holds is what was put in since it was last reset, or what it started with, and not taken out. */
  lemma HeldSince<T>(st: Store<T>, ops: seq<Op<T>>, k: nat, q: nat)
    requires AllApplicable(st, ops) && q < |st.queues| && k <= |ops|
    requires k > 0 ==> Resets(ops[k - 1], q)
    requires forall i :: k <= i < |ops| ==> !Resets(ops[i], q)
    ensures AllApplicable(st, ops[..k]) && AllApplicable(ApplyAll(st, ops[..k]), ops[k..])
    ensures |ApplyAll(st, ops).queues| == |st.queues|
    ensures
      var from := ApplyAll(st, ops[..k]);
      (if k == 0 then st.queues[q] else []) + PutInto(from, ops[k..], q) ==
      TakenFrom(from, ops[k..], q) + ApplyAll(st, ops).queues[q]
  {
    RunSplit(st, ops, k);
    var from := ApplyAll(st, ops[..k]);
    if k == 0 {
      assert ops[..0] == [];
    } else {
      RunSplit(st, ops[..k], k - 1);
      AppliedNext(st, ops[..k], k - 1);
      assert ops[..k][..k - 1 + 1] == ops[..k];
      assert from.queues[q] == [];
    }
    RunSplit(from, ops[k..], 0);
    RunSplit(st, ops[..k], 0);
    assert forall i :: 0 <= i < |ops[k..]| ==> ops[k..][i] == ops[k + i];
    EachIsFifo(from, ops[k..], q);
  }

  /** The answer to a question is whether all that was in the queue is out of it again: what was put in since the
      queue was last reset, and what it started with if it never was. Nothing else adds an answer. */
  lemma AnswerAt<T>(st: Store<T>, ops: seq<Op<T>>, n: nat, k: nat, q: nat)
    requires AllApplicable(st, ops) && n < |ops| && k <= n && q < |st.queues|
    requires ops[n].IsEmpty? ==> ops[n].q == q
    requires k > 0 ==> Resets(ops[k - 1], q)
    requires forall i :: k <= i < n ==> !Resets(ops[i], q)
    ensures AllApplicable(st, ops[..n]) && AllApplicable(st, ops[..n + 1])
    ensures AllApplicable(st, ops[..k]) && AllApplicable(ApplyAll(st, ops[..k]), ops[k..n])
    ensures
      var from := ApplyAll(st, ops[..k]);
      var started := if k == 0 then |st.queues[q]| else 0;
      ApplyAll(st, ops[..n + 1]).answers == ApplyAll(st, ops[..n]).answers +
        if ops[n].IsEmpty?
        then [started + |PutInto(from, ops[k..n], q)| == |TakenFrom(from, ops[k..n], q)|]
        else []
  {
    AppliedNext(st, ops, n);
    assert ops[..n][..k] == ops[..k] && ops[..n][k..] == ops[k..n];
    HeldSince(st, ops[..n], k, q);
    var from, before := ApplyAll(st, ops[..k]), ApplyAll(st, ops[..n]);
    var started := if k == 0 then st.queues[q] else [];
    assert |started + PutInto(from, ops[k..n], q)| == |TakenFrom(from, ops[k..n], q) + before.queues[q]|;
    assert !ops[n].IsEmpty? ==> before.answers + [] == before.answers;
  }

  /** Where a message is, seen from a memory that holds it. */
  datatype Place = InQueue(q: nat) | Loose
}
