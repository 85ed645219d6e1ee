/** The Vyukov multi-producer single-consumer mailbox (src/actor/mailbox.c), one step per
    atomic operation of any number of producers and one consumer. */
module Mailbox {
  import opened Threads

  type Msg = nat
  type Ref = nat

  datatype Link = Null | To(r: Ref)

  datatype Node = Node(next: Link, msg: Msg)

  datatype Producer =
    | Idle
    | Reserve(m: Msg, n: Ref)             // node allocated, count to be incremented
    | Reject(n: Ref)                      // mailbox full, count to be decremented
    | Publish(m: Msg, n: Ref)             // admitted, tail to be exchanged
    | Attach(n: Ref, prev: Ref, pos: nat) // tail swung, predecessor to be linked (pos is history)

  datatype Consumer =
    | Waiting
    | Take(next: Ref)                     // successor read
    | Decrement(stale: Ref, m: Msg)       // head advanced, count to be decremented
    | Release(stale: Ref, m: Msg)         // old sentinel to be freed

  /** Memory and program counters. `chain` lists the live nodes in tail-exchange order, the
      sentinel first; `admitted` and `delivered` are the messages published and returned. */
  datatype State = State(
    nodes: map<Ref, Node>, head: Ref, tail: Ref, count: nat, capacity: nat,
    producers: seq<Producer>, consumer: Consumer,
    chain: seq<Ref>, admitted: seq<Msg>, delivered: seq<Msg>)
  {
    /** Messages published and not yet taken, in order. */
    ghost function Queue(): seq<Msg>
      requires |delivered| <= |admitted|
    {
      admitted[|delivered|..]
    }
  }

  ghost predicate Init(s: State)
  {
    && s.chain == [s.head] && s.tail == s.head && s.nodes.Keys == {s.head} && s.nodes[s.head].next == Null
    && s.count == 0 && s.consumer == Waiting && s.admitted == [] && s.delivered == []
    && forall i :: 0 <= i < |s.producers| ==> s.producers[i] == Idle
  }

  /** The node a producer owns privately. */
  function Owned(p: Producer): Link
  {
    match p
    case Idle => Null
    case Reserve(_, n) => To(n)
    case Reject(n) => To(n)
    case Publish(_, n) => To(n)
    case Attach(_, _, _) => Null
  }

  /** The old sentinel the consumer still has to free. */
  function Stale(c: Consumer): Link
  {
    match c
    case Waiting => Null
    case Take(_) => Null
    case Decrement(r, _) => To(r)
    case Release(r, _) => To(r)
  }

  // ---- steps ----

  /** malloc returns an address that is not in use. */
  function Allocate(s: State, i: nat, m: Msg, n: Ref): State
    requires i < |s.producers|
  {
    if s.producers[i] != Idle || n in s.nodes then s
    else s.(nodes := s.nodes[n := Node(Null, 0)], producers := s.producers[i := Reserve(m, n)])
  }

  function ProducerStep(s: State, i: nat): State
    requires i < |s.producers|
  {
    match s.producers[i]
    case Idle => s
    case Reserve(m, n) =>
      if s.capacity == 0 then s.(producers := s.producers[i := Publish(m, n)])
      else if s.count >= s.capacity then s.(count := s.count + 1, producers := s.producers[i := Reject(n)])
      else s.(count := s.count + 1, producers := s.producers[i := Publish(m, n)])
    case Reject(n) =>
      s.(count := if s.count == 0 then 0 else s.count - 1, nodes := s.nodes - {n}, producers := s.producers[i := Idle])
    case Publish(m, n) =>
      s.(nodes := s.nodes[n := Node(Null, m)], tail := n, chain := s.chain + [n], admitted := s.admitted + [m],
         producers := s.producers[i := Attach(n, s.tail, |s.admitted|)])
    case Attach(n, prev, _) =>
      if prev in s.nodes then s.(nodes := s.nodes[prev := s.nodes[prev].(next := To(n))], producers := s.producers[i := Idle])
      else s.(producers := s.producers[i := Idle])
  }

  function ConsumerStep(s: State): State
  {
    match s.consumer
    case Waiting =>
      if s.head in s.nodes && s.nodes[s.head].next.To? then s.(consumer := Take(s.nodes[s.head].next.r)) else s
    case Take(next) =>
      if next !in s.nodes || s.chain == [] then s
      else
        var m := s.nodes[next].msg;
        s.(head := next, consumer := if s.capacity > 0 then Decrement(s.head, m) else Release(s.head, m),
           chain := s.chain[1..], delivered := s.delivered + [m])
    case Decrement(r, m) => s.(count := if s.count == 0 then 0 else s.count - 1, consumer := Release(r, m))
    case Release(r, m) => s.(nodes := s.nodes - {r}, consumer := Waiting)
  }

  datatype Action = Malloc(i: nat, m: Msg, n: Ref) | Produce(i: nat) | Consume

  function Step(s: State, a: Action): State
  {
    match a
    case Malloc(i, m, n) => if i < |s.producers| then Allocate(s, i, m, n) else s
    case Produce(i) => if i < |s.producers| then ProducerStep(s, i) else s
    case Consume => ConsumerStep(s)
  }

  // ---- the linked list ----

  ghost predicate Distinct(chain: seq<Ref>)
  {
    forall i, j :: 0 <= i < j < |chain| ==> chain[i] != chain[j]
  }

  ghost predicate Shape(s: State)
  {
    && |s.chain| > 0 && s.head == s.chain[0] && s.tail == s.chain[|s.chain| - 1]
    && Distinct(s.chain)
    && (forall k :: 0 <= k < |s.chain| ==> s.chain[k] in s.nodes)
    && |s.delivered| <= |s.admitted| && |s.chain| == |s.Queue()| + 1
    && s.nodes[s.tail].next == Null
  }

  /** Node k is linked to node k+1, or the producer that published k+1 is about to link it. */
  ghost predicate LinkedAt(s: State, k: nat)
    requires Shape(s) && k + 1 < |s.chain|
  {
    || s.nodes[s.chain[k]].next == To(s.chain[k + 1])
    || (s.nodes[s.chain[k]].next == Null && Attach(s.chain[k + 1], s.chain[k], k + |s.delivered|) in s.producers)
  }

  ghost predicate MessageAt(s: State, k: nat)
    requires Shape(s) && k + 1 < |s.chain|
  {
    s.nodes[s.chain[k + 1]].msg == s.Queue()[k]
  }

  /** A privately owned node is allocated, unpublished and not the consumer's. */
  ghost predicate Private(s: State, l: Link)
  {
    l.To? ==> l.r in s.nodes && l.r !in s.chain && Stale(s.consumer) != l
  }

  ghost predicate ProducerAt(s: State, i: nat)
    requires Shape(s) && i < |s.producers|
  {
    match s.producers[i]
    case Attach(n, prev, pos) =>
      && |s.delivered| <= pos < |s.admitted|
      && s.chain[pos - |s.delivered|] == prev && s.chain[pos - |s.delivered| + 1] == n
      && s.nodes[prev].next == Null
    case p => Private(s, Owned(p))
  }

  ghost predicate ConsumerAt(s: State)
    requires Shape(s)
  {
    match s.consumer
    case Waiting => true
    case Take(next) => |s.chain| > 1 && s.chain[1] == next && s.nodes[s.head].next == To(next)
    case Decrement(r, m) => r in s.nodes && r !in s.chain && s.capacity > 0
    case Release(r, m) => r in s.nodes && r !in s.chain
  }

  /** No two producers own the same node or are about to write the same link. */
  ghost predicate Apart(p: Producer, q: Producer)
  {
    && (Owned(p).To? ==> Owned(p) != Owned(q))
    && (p.Attach? && q.Attach? ==> p.pos != q.pos)
  }

  ghost predicate ListInv(s: State)
  {
    && Shape(s)
    && (forall k :: 0 <= k < |s.chain| - 1 ==> LinkedAt(s, k))
    && (forall k :: 0 <= k < |s.chain| - 1 ==> MessageAt(s, k))
    && (forall i :: 0 <= i < |s.producers| ==> ProducerAt(s, i))
    && ConsumerAt(s)
    && (forall i, j :: 0 <= i < |s.producers| && 0 <= j < |s.producers| && i != j ==> Apart(s.producers[i], s.producers[j]))
    && s.delivered <= s.admitted
  }

  // ---- the counter ----

  function Reserved(p: Producer): nat { if p.Publish? then 1 else 0 }
  function Rejecting(p: Producer): nat { if p.Reject? then 1 else 0 }

  ghost predicate CountInv(s: State)
    requires |s.delivered| <= |s.admitted|
  {
    s.capacity > 0 ==>
      && s.count == |s.Queue()| + SumBy(Reserved, s.producers) + SumBy(Rejecting, s.producers) + (if s.consumer.Decrement? then 1 else 0)
      && |s.Queue()| + SumBy(Reserved, s.producers) + (if s.consumer.Decrement? then 1 else 0) <= s.capacity
  }

  ghost predicate Inv(s: State) { ListInv(s) && CountInv(s) }

  lemma InitInv(s: State)
    requires Init(s)
    ensures Inv(s)
  {
    SumZero(Reserved, s.producers);
    SumZero(Rejecting, s.producers);
  }

  lemma CountProduce(s: State, i: nat)
    requires |s.delivered| <= |s.admitted| && CountInv(s) && i < |s.producers|
    ensures CountInv(ProducerStep(s, i))
  {
    hide SumBy;
    var p := ProducerStep(s, i).producers[i];
    assert ProducerStep(s, i).producers == s.producers[i := p];
    SumUpdate(Reserved, s.producers, i, p);
    SumUpdate(Rejecting, s.producers, i, p);
    SumAtLeast(Rejecting, s.producers, i);
  }

  lemma CountStep(s: State, a: Action)
    requires |s.delivered| <= |s.admitted| && CountInv(s) && |Step(s, a).delivered| <= |Step(s, a).admitted|
    ensures CountInv(Step(s, a))
  {
    hide SumBy, ProducerStep;
    match a {
      case Malloc(i, m, n) =>
        if i < |s.producers| && s.producers[i] == Idle {
          SumUpdate(Reserved, s.producers, i, Reserve(m, n));
          SumUpdate(Rejecting, s.producers, i, Reserve(m, n));
        }
      case Produce(i) => if i < |s.producers| { CountProduce(s, i); }
      case Consume =>
    }
  }

  // ---- list preservation ----

  lemma AllocateInv(s: State, i: nat, m: Msg, n: Ref)
    requires ListInv(s) && i < |s.producers|
    ensures ListInv(Allocate(s, i, m, n))
  {
    var s' := Allocate(s, i, m, n);
    if s' != s {
      forall k | 0 <= k < |s.chain| - 1 ensures LinkedAt(s', k) && MessageAt(s', k) {
        assert LinkedAt(s, k) && MessageAt(s, k);
        if s.nodes[s.chain[k]].next == Null {
          PendingKept(s.producers, i, Reserve(m, n), Attach(s.chain[k + 1], s.chain[k], k + |s.delivered|));
        }
      }
      forall j | 0 <= j < |s'.producers| ensures ProducerAt(s', j) { assert ProducerAt(s, j); }
      forall j, l | 0 <= j < |s'.producers| && 0 <= l < |s'.producers| && j != l ensures Apart(s'.producers[j], s'.producers[l]) {
        assert ProducerAt(s, j) && ProducerAt(s, l) && Apart(s.producers[j], s.producers[l]);
      }
    }
  }

  /** A step that frees or hands over a private node and touches no published one. */
  lemma PrivateStepInv(s: State, s': State, i: nat)
    requires ListInv(s) && i < |s.producers| && !s.producers[i].Attach?
    requires |s'.producers| == |s.producers| && !s'.producers[i].Attach?
    requires s' == s.(count := s'.count, nodes := s'.nodes, producers := s.producers[i := s'.producers[i]])
    requires Owned(s'.producers[i]) == Null || Owned(s'.producers[i]) == Owned(s.producers[i])
    requires forall r :: r in s.nodes && Owned(s.producers[i]) != To(r) ==> r in s'.nodes && s'.nodes[r] == s.nodes[r]
    requires Owned(s'.producers[i]) != Null ==> s'.nodes == s.nodes
    ensures ListInv(s')
  {
    assert ProducerAt(s, i);
    forall k | 0 <= k < |s.chain| ensures s.chain[k] in s'.nodes && s'.nodes[s.chain[k]] == s.nodes[s.chain[k]] {}
    assert Shape(s');
    forall k | 0 <= k < |s.chain| - 1 ensures LinkedAt(s', k) && MessageAt(s', k) {
      assert LinkedAt(s, k) && MessageAt(s, k);
      if s.nodes[s.chain[k]].next == Null {
        PendingKept(s.producers, i, s'.producers[i], Attach(s.chain[k + 1], s.chain[k], k + |s.delivered|));
      }
    }
    forall j | 0 <= j < |s'.producers| ensures ProducerAt(s', j) {
      assert ProducerAt(s, j);
      if j != i { assert Apart(s.producers[i], s.producers[j]); }
    }
    forall j, l | 0 <= j < |s'.producers| && 0 <= l < |s'.producers| && j != l ensures Apart(s'.producers[j], s'.producers[l]) {
      assert Apart(s.producers[j], s.producers[l]);
    }
  }

  lemma PendingKept(ps: seq<Producer>, i: nat, p: Producer, q: Producer)
    requires i < |ps| && q in ps && ps[i] != q
    ensures q in ps[i := p]
  {
    var k :| 0 <= k < |ps| && ps[k] == q;
    assert ps[i := p][k] == q;
  }

  lemma PublishInv(s: State, i: nat)
    requires ListInv(s) && i < |s.producers| && s.producers[i].Publish?
    ensures ListInv(ProducerStep(s, i))
  {
    var s' := ProducerStep(s, i);
    var p := s.producers[i];
    var pos := |s.admitted|;
    assert ProducerAt(s, i);
    assert s'.Queue() == s.Queue() + [p.m];
    assert Shape(s');
    forall k | 0 <= k < |s'.chain| - 1 ensures LinkedAt(s', k) && MessageAt(s', k) {
      if k < |s.chain| - 1 {
        assert LinkedAt(s, k) && MessageAt(s, k);
        if s.nodes[s.chain[k]].next == Null {
          PendingKept(s.producers, i, s'.producers[i], Attach(s.chain[k + 1], s.chain[k], k + |s.delivered|));
        }
      } else {
        assert s'.producers[i] in s'.producers;
      }
    }
    forall j | 0 <= j < |s'.producers| ensures ProducerAt(s', j) {
      assert ProducerAt(s, j);
      if j != i { assert Apart(s.producers[i], s.producers[j]); }
    }
    forall j, l | 0 <= j < |s'.producers| && 0 <= l < |s'.producers| && j != l ensures Apart(s'.producers[j], s'.producers[l]) {
      assert Apart(s.producers[j], s.producers[l]);
      assert ProducerAt(s, j) && ProducerAt(s, l);
    }
  }

  lemma AttachInv(s: State, i: nat)
    requires ListInv(s) && i < |s.producers| && s.producers[i].Attach?
    ensures ListInv(ProducerStep(s, i))
  {
    var s' := ProducerStep(s, i);
    var p := s.producers[i];
    assert ProducerAt(s, i);
    var at := p.pos - |s.delivered|;
    assert Shape(s');
    forall k | 0 <= k < |s'.chain| - 1 ensures LinkedAt(s', k) && MessageAt(s', k) {
      assert LinkedAt(s, k) && MessageAt(s, k);
      if k != at && s.nodes[s.chain[k]].next == Null {
        PendingKept(s.producers, i, Idle, Attach(s.chain[k + 1], s.chain[k], k + |s.delivered|));
      }
    }
    forall j | 0 <= j < |s'.producers| ensures ProducerAt(s', j) {
      assert ProducerAt(s, j);
      if j != i { assert Apart(s.producers[i], s.producers[j]); }
    }
    forall j, l | 0 <= j < |s'.producers| && 0 <= l < |s'.producers| && j != l ensures Apart(s'.producers[j], s'.producers[l]) {
      assert Apart(s.producers[j], s.producers[l]);
    }
  }

  lemma TakeInv(s: State)
    requires ListInv(s) && s.consumer.Take?
    ensures ListInv(ConsumerStep(s))
  {
    var s' := ConsumerStep(s);
    assert MessageAt(s, 0);
    assert s.admitted[|s.delivered|] == s.Queue()[0];
    assert s'.delivered <= s'.admitted;
    assert s'.Queue() == s.Queue()[1..];
    assert Shape(s');
    forall k | 0 <= k < |s'.chain| - 1 ensures LinkedAt(s', k) && MessageAt(s', k) {
      var k' := k + 1;
      assert LinkedAt(s, k') && MessageAt(s, k');
    }
    forall j | 0 <= j < |s'.producers| ensures ProducerAt(s', j) { assert ProducerAt(s, j); }
  }

  lemma ReleaseInv(s: State)
    requires ListInv(s) && !s.consumer.Take?
    ensures ListInv(ConsumerStep(s))
  {
    var s' := ConsumerStep(s);
    assert Shape(s');
    forall k | 0 <= k < |s'.chain| - 1 ensures LinkedAt(s', k) && MessageAt(s', k) { assert LinkedAt(s, k) && MessageAt(s, k); }
    forall j | 0 <= j < |s'.producers| ensures ProducerAt(s', j) { assert ProducerAt(s, j); }
    if s.consumer.Waiting? && s'.consumer.Take? { assert LinkedAt(s, 0); }
  }

  lemma StepInv(s: State, a: Action)
    requires Inv(s)
    ensures Inv(Step(s, a))
  {
    hide ListInv, CountInv;
    match a {
      case Malloc(i, m, n) => if i < |s.producers| { AllocateInv(s, i, m, n); }
      case Produce(i) =>
        if i < |s.producers| {
          if s.producers[i].Publish? { PublishInv(s, i); }
          else if s.producers[i].Attach? { AttachInv(s, i); }
          else if !s.producers[i].Idle? { PrivateStepInv(s, ProducerStep(s, i), i); }
        }
      case Consume => if s.consumer.Take? { TakeInv(s); } else { ReleaseInv(s); }
    }
    Bounds(s);
    Bounds(Step(s, a));
    CountStep(s, a);
  }

  lemma Bounds(s: State)
    requires ListInv(s)
    ensures |s.delivered| <= |s.admitted|
  {
  }

  // ---- every schedule ----

  ghost function Run(s: State, acts: seq<Action>): State
    decreases |acts|
  {
    if acts == [] then s else Run(Step(s, acts[0]), acts[1..])
  }

  lemma {:induction false} RunInv(s: State, acts: seq<Action>)
    requires Inv(s)
    ensures Inv(Run(s, acts))
    decreases |acts|
  {
    if acts != [] {
      StepInv(s, acts[0]);
      RunInv(Step(s, acts[0]), acts[1..]);
    }
  }

  /** Deliveries are a prefix of the admissions in tail-exchange order: nothing lost,
      duplicated or reordered, also while a producer has yet to link its node. */
  lemma DeliveredInOrder(s: State, acts: seq<Action>)
    requires Init(s)
    ensures Run(s, acts).delivered <= Run(s, acts).admitted
  {
    InitInv(s);
    RunInv(s, acts);
  }

  /** However far the counter overshoots, no more messages than the capacity are admitted
      and undelivered; the overshoot is the number of producers backing out plus the
      consumer between advancing and decrementing. */
  lemma CapacityHolds(s: State, acts: seq<Action>)
    requires Init(s) && s.capacity > 0
    ensures var r := Run(s, acts);
            && 0 <= |r.admitted| - |r.delivered| <= s.capacity
            && r.count == |r.admitted| - |r.delivered| + SumBy(Reserved, r.producers) + SumBy(Rejecting, r.producers)
                          + (if r.consumer.Decrement? then 1 else 0)
  {
    InitInv(s);
    RunInv(s, acts);
    SameCapacity(s, acts);
    Bounds(Run(s, acts));
  }

  lemma {:induction false} SameCapacity(s: State, acts: seq<Action>)
    ensures Run(s, acts).capacity == s.capacity
    decreases |acts|
  {
    if acts != [] { SameCapacity(Step(s, acts[0]), acts[1..]); }
  }

  /** The consumer sees an empty mailbox only if nothing is pending or the producer of the
      very next message has not linked it yet. */
  lemma EmptyMeansNoneOrUnlinked(s: State)
    requires Inv(s) && s.consumer == Waiting && ConsumerStep(s).consumer == Waiting
    ensures |s.delivered| <= |s.admitted|
    ensures s.Queue() == [] || (exists i :: 0 <= i < |s.producers| && s.producers[i].Attach? && s.producers[i].prev == s.head && s.producers[i].pos == |s.delivered|)
  {
    if s.Queue() != [] { assert LinkedAt(s, 0); }
  }

  /** Once its producer takes that one step, the message is visible to the consumer. */
  lemma LinkingMakesVisible(s: State, i: nat)
    requires Inv(s) && i < |s.producers| && s.producers[i].Attach? && s.producers[i].prev == s.head && s.consumer == Waiting
    ensures ConsumerStep(ProducerStep(s, i)).consumer == Take(s.producers[i].n)
  {
    assert ProducerAt(s, i);
  }

  /** No step touches a freed node, and neither decrement meets a zero counter. */
  lemma NoDanglingAccess(s: State)
    requires Inv(s)
    ensures s.head in s.nodes && s.tail in s.nodes
    ensures forall i :: 0 <= i < |s.producers| && s.producers[i].Attach? ==> s.producers[i].prev in s.nodes
    ensures forall i :: 0 <= i < |s.producers| && s.producers[i].Publish? ==> s.producers[i].n in s.nodes
    ensures s.consumer.Take? ==> s.consumer.next in s.nodes
    ensures s.capacity > 0 && s.consumer.Decrement? ==> s.count > 0
    ensures s.capacity > 0 ==> forall i :: 0 <= i < |s.producers| && s.producers[i].Reject? ==> s.count > 0
  {
    forall i | 0 <= i < |s.producers|
      ensures s.producers[i].Attach? ==> s.producers[i].prev in s.nodes
      ensures s.producers[i].Publish? ==> s.producers[i].n in s.nodes
      ensures s.capacity > 0 && s.producers[i].Reject? ==> s.count > 0
    {
      assert ProducerAt(s, i);
      SumAtLeast(Rejecting, s.producers, i);
    }
  }

  // ---- every admitted message can be delivered ----

  function Attaching(p: Producer): nat { if p.Attach? then 1 else 0 }

  lemma RunFirst(s: State, a: Action, acts: seq<Action>)
    ensures Run(s, [a] + acts) == Run(Step(s, a), acts)
  {
    assert ([a] + acts)[1..] == acts;
  }

  /** The producers that have swung the tail link their nodes. */
  lemma {:induction false} LinkAll(s: State) returns (acts: seq<Action>)
    requires Inv(s)
    ensures var r := Run(s, acts);
            Inv(r) && r.admitted == s.admitted && forall i :: 0 <= i < |r.producers| ==> !r.producers[i].Attach?
    decreases SumBy(Attaching, s.producers)
  {
    hide Inv, SumBy;
    acts := [];
    if i :| 0 <= i < |s.producers| && s.producers[i].Attach? {
      var s' := Step(s, Produce(i));
      StepInv(s, Produce(i));
      assert s'.producers == s.producers[i := Idle];
      SumUpdate(Attaching, s.producers, i, Idle);
      acts := LinkAll(s');
      RunFirst(s, Produce(i), acts);
      acts := [Produce(i)] + acts;
    }
  }

  function ToTake(c: Consumer): nat
  {
    match c
    case Take(_) => 0
    case Waiting => 1
    case Release(_, _) => 2
    case Decrement(_, _) => 3
  }

  /** With every node linked, each step brings the consumer closer to the next message. */
  lemma ConsumerMoves(s: State)
    requires Inv(s) && s.delivered != s.admitted && forall i :: 0 <= i < |s.producers| ==> !s.producers[i].Attach?
    ensures var s' := ConsumerStep(s);
            && s'.producers == s.producers && s'.admitted == s.admitted
            && |s.delivered| < |s.admitted|
            && (if s.consumer.Take? then |s'.delivered| == |s.delivered| + 1
                else s'.delivered == s.delivered && ToTake(s'.consumer) < ToTake(s.consumer))
  {
    assert LinkedAt(s, 0);
  }

  lemma {:induction false} Drain(s: State) returns (acts: seq<Action>)
    requires Inv(s) && forall i :: 0 <= i < |s.producers| ==> !s.producers[i].Attach?
    ensures Run(s, acts).delivered == Run(s, acts).admitted == s.admitted
    decreases |s.admitted| - |s.delivered|, ToTake(s.consumer)
  {
    hide Inv;
    acts := [];
    if s.delivered != s.admitted {
      ConsumerMoves(s);
      StepInv(s, Consume);
      acts := Drain(Step(s, Consume));
      RunFirst(s, Consume, acts);
      acts := [Consume] + acts;
    }
  }

  lemma {:induction false} RunAppend(s: State, a: seq<Action>, b: seq<Action>)
    ensures Run(s, a + b) == Run(Run(s, a), b)
    decreases |a|
  {
    hide Step;
    if a == [] {
      assert a + b == b;
    } else {
      assert (a + b)[1..] == a[1..] + b;
      RunAppend(Step(s, a[0]), a[1..], b);
    }
  }

  /** From every reachable state some schedule delivers everything that was admitted, and it needs
      no other step of a producer than linking what it has published. */
  lemma EveryMessageDeliverable(s: State, before: seq<Action>) returns (acts: seq<Action>)
    requires Init(s)
    ensures Run(s, before + acts).delivered == Run(s, before).admitted == Run(s, before + acts).admitted
  {
    hide Inv, Step;
    InitInv(s);
    RunInv(s, before);
    var link := LinkAll(Run(s, before));
    var rest := Drain(Run(Run(s, before), link));
    acts := link + rest;
    RunAppend(Run(s, before), link, rest);
    RunAppend(s, before, acts);
  }
}
