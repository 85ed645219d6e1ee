/** Settling a future (src/actor/future.c) and waiting for it (prim_future_wait in
    src/vm/primitive_table.c), one step per access to the shared record, by any number of
    resolvers, failers and waiters. */
module Future {

  datatype Phase = Pending | Resolving | Failing | Resolved | Failed

  predicate Terminal(p: Phase) { p == Resolved || p == Failed }

  datatype Ptr = Null | To(r: nat)

  /** What a call of resolve or fail brings along. A failure has no transfer heap. */
  datatype Payload = Payload(fail: bool, buf: nat, count: nat, heap: Ptr)

  function Claimed(p: Payload): Phase { if p.fail then Failing else Resolving }

  function Settled(p: Payload): Phase { if p.fail then Failed else Resolved }

  datatype Fields = Fields(buf: Ptr, count: nat, heap: Ptr)

  function FieldsOf(p: Payload): Fields { Fields(To(p.buf), p.count, if p.fail then Null else p.heap) }

  datatype Racer =
    | Start
    | StoreBuf | StoreCount | StoreHeap | Publish | ReadWaiter  // the compare-and-swap succeeded
    | Won(seen: nat)                                            // with the waiter id that was read
    | FreeBuf | FreeHeap | Lost                                 // it failed

  datatype Waiter =
    | Check | Store | Recheck | Suspended
    | FetchBuf(kind: Phase)
    | FetchCount(kind: Phase, buf: Ptr)
    | FetchHeap(kind: Phase, buf: Ptr, count: nat)
    | Got(kind: Phase, fields: Fields)

  /** The shared record, what each racer brings, the actor id of each waiter, program counters,
      the storage freed so far, and who won (history). */
  datatype State = State(
    phase: Phase, fields: Fields, waiterId: nat,
    payloads: seq<Payload>, ids: seq<nat>,
    racers: seq<Racer>, waiters: seq<Waiter>,
    freed: multiset<nat>, winner: Ptr)

  ghost predicate Shape(s: State)
  {
    |s.racers| == |s.payloads| && |s.waiters| == |s.ids| && forall j :: 0 <= j < |s.ids| ==> s.ids[j] != 0
  }

  /** Buffers and heaps are all different. */
  ghost predicate Separate(ps: seq<Payload>)
  {
    && (forall i, k :: 0 <= i < k < |ps| ==> ps[i].buf != ps[k].buf && (ps[i].heap.To? ==> ps[i].heap != ps[k].heap))
    && (forall i, k :: 0 <= i < |ps| && 0 <= k < |ps| ==> ps[i].heap != To(ps[k].buf))
    && (forall i :: 0 <= i < |ps| && ps[i].fail ==> ps[i].heap == Null)
  }

  ghost predicate Init(s: State)
  {
    && Shape(s) && Separate(s.payloads)
    && s.phase == Pending && s.fields == Fields(Null, 0, Null) && s.waiterId == 0 && s.freed == multiset{} && s.winner == Null
    && (forall i :: 0 <= i < |s.racers| ==> s.racers[i] == Start)
    && (forall j :: 0 <= j < |s.waiters| ==> s.waiters[j] == Check)
  }

  // ---- steps ----

  function RacerStep(s: State, i: nat): State
    requires i < |s.racers| && i < |s.payloads|
  {
    var p := s.payloads[i];
    match s.racers[i]
    case Start =>
      if s.phase == Pending then s.(phase := Claimed(p), winner := To(i), racers := s.racers[i := StoreBuf])
      else s.(racers := s.racers[i := FreeBuf])
    case StoreBuf => s.(fields := s.fields.(buf := To(p.buf)), racers := s.racers[i := StoreCount])
    case StoreCount => s.(fields := s.fields.(count := p.count), racers := s.racers[i := if p.fail then Publish else StoreHeap])
    case StoreHeap => s.(fields := s.fields.(heap := p.heap), racers := s.racers[i := Publish])
    case Publish => s.(phase := Settled(p), racers := s.racers[i := ReadWaiter])
    case ReadWaiter => s.(racers := s.racers[i := Won(s.waiterId)])
    case Won(_) => s
    case FreeBuf => s.(freed := s.freed + multiset{p.buf}, racers := s.racers[i := FreeHeap])
    case FreeHeap =>
      s.(freed := if p.heap.To? then s.freed + multiset{p.heap.r} else s.freed, racers := s.racers[i := Lost])
    case Lost => s
  }

  function WaiterStep(s: State, j: nat): State
    requires j < |s.waiters| && j < |s.ids|
  {
    match s.waiters[j]
    case Check => s.(waiters := s.waiters[j := if Terminal(s.phase) then FetchBuf(s.phase) else Store])
    case Store => s.(waiterId := s.ids[j], waiters := s.waiters[j := Recheck])
    case Recheck => s.(waiters := s.waiters[j := if Terminal(s.phase) then FetchBuf(s.phase) else Suspended])
    case Suspended => s
    case FetchBuf(kind) => s.(waiters := s.waiters[j := FetchCount(kind, s.fields.buf)])
    case FetchCount(kind, b) => s.(waiters := s.waiters[j := FetchHeap(kind, b, s.fields.count)])
    case FetchHeap(kind, b, n) => s.(waiters := s.waiters[j := Got(kind, Fields(b, n, s.fields.heap))])
    case Got(_, _) => s
  }

  datatype Action = Race(i: nat) | Wait(j: nat)

  function Step(s: State, a: Action): State
  {
    match a
    case Race(i) => if i < |s.racers| && i < |s.payloads| then RacerStep(s, i) else s
    case Wait(j) => if j < |s.waiters| && j < |s.ids| then WaiterStep(s, j) else s
  }

  // ---- what every step keeps ----

  predicate Winning(r: Racer) { r.StoreBuf? || r.StoreCount? || r.StoreHeap? || r.Publish? || r.ReadWaiter? || r.Won? }

  predicate Losing(r: Racer) { r.FreeBuf? || r.FreeHeap? || r.Lost? }

  /** A racer past its compare-and-swap knows whether it won. */
  ghost predicate RacerOk(s: State, i: nat)
    requires i < |s.racers|
  {
    && (Winning(s.racers[i]) <==> s.winner == To(i))
    && (Losing(s.racers[i]) ==> s.winner.To?)
  }

  /** How far the winner has got with the record. */
  ghost predicate RecordOk(s: State)
    requires |s.racers| == |s.payloads|
  {
    if s.winner == Null then s.phase == Pending
    else
      && s.winner.r < |s.racers|
      && var p, f, full := s.payloads[s.winner.r], s.fields, FieldsOf(s.payloads[s.winner.r]);
         match s.racers[s.winner.r]
         case StoreBuf => s.phase == Claimed(p) && f == Fields(Null, 0, Null)
         case StoreCount => s.phase == Claimed(p) && f == Fields(full.buf, 0, Null)
         case StoreHeap => s.phase == Claimed(p) && f == Fields(full.buf, full.count, Null) && !p.fail
         case Publish => s.phase == Claimed(p) && f == full
         case ReadWaiter => s.phase == Settled(p) && f == full
         case Won(_) => s.phase == Settled(p) && f == full
         case _ => false
  }

  /** A waiter that has seen the end reads the winner's fields. */
  ghost predicate ReaderOk(s: State, w: Waiter)
  {
    match w
    case FetchBuf(kind) => Terminal(s.phase) && kind == s.phase
    case FetchCount(kind, b) => Terminal(s.phase) && kind == s.phase && b == s.fields.buf
    case FetchHeap(kind, b, n) => Terminal(s.phase) && kind == s.phase && b == s.fields.buf && n == s.fields.count
    case Got(kind, f) => Terminal(s.phase) && kind == s.phase && f == s.fields
    case _ => true
  }

  /** The handshake: a waiter that re-checks or sleeps has left an id behind, and if it sleeps,
      the winner has not read the id yet or has found one. */
  ghost predicate WaiterOk(s: State, j: nat)
    requires j < |s.waiters|
  {
    && (s.waiters[j] == Recheck || s.waiters[j] == Suspended ==> s.waiterId != 0)
    && (s.waiters[j] == Suspended ==> NotMissed(s))
  }

  ghost predicate NotMissed(s: State)
  {
    s.winner.To? && s.winner.r < |s.racers| ==> !(s.racers[s.winner.r] == Won(0))
  }

  /** Exactly the losers' storage has been freed, once. */
  ghost predicate FreedOk(s: State, i: nat)
    requires i < |s.racers| && |s.racers| == |s.payloads|
  {
    && s.freed[s.payloads[i].buf] == (if s.racers[i] == FreeHeap || s.racers[i] == Lost then 1 else 0)
    && (s.payloads[i].heap.To? ==> s.freed[s.payloads[i].heap.r] == (if s.racers[i] == Lost then 1 else 0))
  }

  ghost predicate IdOk(s: State) { s.waiterId == 0 || s.waiterId in s.ids }

  ghost predicate Inv(s: State)
  {
    && IdOk(s) && Shape(s) && Separate(s.payloads) && Book(s)
    && (forall i :: 0 <= i < |s.racers| ==> RacerOk(s, i))
    && (forall j :: 0 <= j < |s.waiters| ==> ReaderOk(s, s.waiters[j]))
    && (forall j :: 0 <= j < |s.waiters| ==> WaiterOk(s, j))
    && (forall i :: 0 <= i < |s.racers| ==> FreedOk(s, i))
  }

  lemma InitInv(s: State)
    requires Init(s)
    ensures Inv(s)
  {
  }

  // One conjunct at a time; the racer that moves is i.

  /** The record as far as the winner has written it. */
  ghost predicate Book(s: State)
  {
    && |s.racers| == |s.payloads| && RecordOk(s)
    && (s.phase == Pending ==> s.winner == Null && s.fields == Fields(Null, 0, Null))
  }

  lemma RaceRecord(s: State, i: nat)
    requires Book(s) && i < |s.racers| && RacerOk(s, i)
    ensures Book(RacerStep(s, i))
    ensures var s' := RacerStep(s, i); Terminal(s.phase) ==> s'.phase == s.phase && s'.fields == s.fields
  {
    if s.winner == To(i) || s.racers[i] == Start {
    } else {
      assert s.winner.To? ==> RacerStep(s, i).racers[s.winner.r] == s.racers[s.winner.r];
    }
  }

  lemma RaceRacer(s: State, i: nat, k: nat)
    requires Book(s) && i < |s.racers| && k < |s.racers| && RacerOk(s, i) && RacerOk(s, k)
    ensures RacerOk(RacerStep(s, i), k)
  {
  }

  lemma RaceWaiter(s: State, i: nat, j: nat)
    requires Book(s) && i < |s.racers| && j < |s.waiters| && RacerOk(s, i) && WaiterOk(s, j) && ReaderOk(s, s.waiters[j])
    ensures WaiterOk(RacerStep(s, i), j) && ReaderOk(RacerStep(s, i), s.waiters[j])
  {
    RaceRecord(s, i);
  }

  /** Who is about to free what. */
  lemma RaceFreed(s: State, i: nat, k: nat)
    requires |s.racers| == |s.payloads| && Separate(s.payloads) && i < |s.racers| && k < |s.racers| && FreedOk(s, i) && FreedOk(s, k)
    ensures FreedOk(RacerStep(s, i), k)
  {
    var p, q := s.payloads[i], s.payloads[k];
    assert p.heap != To(q.buf) && q.heap != To(p.buf);
    assert i < k ==> p.buf != q.buf && (p.heap.To? ==> p.heap != q.heap);
    assert k < i ==> q.buf != p.buf && (q.heap.To? ==> q.heap != p.heap);
    if s.racers[i] == FreeBuf {
    } else if s.racers[i] == FreeHeap {
    } else {
      assert RacerStep(s, i).freed == s.freed;
    }
  }

  lemma RaceInv(s: State, i: nat)
    requires Inv(s) && i < |s.racers|
    ensures Inv(RacerStep(s, i))
  {
    hide Book, RacerOk, ReaderOk, WaiterOk, FreedOk, Separate;
    var s' := RacerStep(s, i);
    assert RacerOk(s, i) && FreedOk(s, i);
    RaceRecord(s, i);
    forall k | 0 <= k < |s.racers| ensures RacerOk(s', k) { RaceRacer(s, i, k); }
    forall k | 0 <= k < |s.racers| ensures FreedOk(s', k) { RaceFreed(s, i, k); }
    forall j | 0 <= j < |s.waiters| ensures WaiterOk(s', j) { RaceWaiter(s, i, j); }
    forall j | 0 <= j < |s.waiters| ensures ReaderOk(s', s'.waiters[j]) { RaceWaiter(s, i, j); }
  }

  /** The waiter that moves. */
  lemma WaitSelf(s: State, j: nat)
    requires Book(s) && j < |s.waiters| == |s.ids| && s.ids[j] != 0 && WaiterOk(s, j) && ReaderOk(s, s.waiters[j])
    ensures WaiterOk(WaiterStep(s, j), j) && ReaderOk(WaiterStep(s, j), WaiterStep(s, j).waiters[j])
  {
  }

  lemma WaitOther(s: State, j: nat, k: nat)
    requires j < |s.waiters| == |s.ids| && s.ids[j] != 0 && k < |s.waiters| && k != j && WaiterOk(s, k) && ReaderOk(s, s.waiters[k])
    ensures WaiterOk(WaiterStep(s, j), k) && ReaderOk(WaiterStep(s, j), WaiterStep(s, j).waiters[k])
  {
  }

  /** What a waiter does not touch. */
  lemma WaitRacer(s: State, j: nat, k: nat)
    requires j < |s.waiters| == |s.ids| && |s.racers| == |s.payloads| && k < |s.racers| && RacerOk(s, k) && FreedOk(s, k)
    ensures RacerOk(WaiterStep(s, j), k) && FreedOk(WaiterStep(s, j), k)
  {
  }

  lemma WaitBook(s: State, j: nat)
    requires j < |s.waiters| == |s.ids| && Book(s) && IdOk(s)
    ensures Book(WaiterStep(s, j)) && IdOk(WaiterStep(s, j))
  {
  }

  lemma WaitInv(s: State, j: nat)
    requires Inv(s) && j < |s.waiters|
    ensures Inv(WaiterStep(s, j))
  {
    hide FreedOk, RacerOk, ReaderOk, WaiterOk, Separate, Book, IdOk;
    var s' := WaiterStep(s, j);
    WaitBook(s, j);
    forall k | 0 <= k < |s.racers| ensures RacerOk(s', k) { WaitRacer(s, j, k); }
    forall k | 0 <= k < |s.racers| ensures FreedOk(s', k) { WaitRacer(s, j, k); }
    WaitSelf(s, j);
    forall k | 0 <= k < |s.waiters| ensures WaiterOk(s', k) { if k != j { WaitOther(s, j, k); } }
    forall k | 0 <= k < |s.waiters| ensures ReaderOk(s', s'.waiters[k]) { if k != j { WaitOther(s, j, k); } }
  }

  lemma StepInv(s: State, a: Action)
    requires Inv(s)
    ensures Inv(Step(s, a))
  {
    match a
    case Race(i) => if i < |s.racers| { RaceInv(s, i); }
    case Wait(j) => if j < |s.waiters| { WaitInv(s, j); }
  }

  ghost function Run(s: State, acts: seq<Action>): State
    decreases |acts|
  {
    if acts == [] then s else Run(Step(s, acts[0]), acts[1..])
  }

  lemma {:induction false} RunInv(s: State, acts: seq<Action>)
    requires Inv(s)
    ensures Inv(Run(s, acts))
    decreases |acts|
  {
    hide Inv;
    if acts != [] {
      StepInv(s, acts[0]);
      RunInv(Step(s, acts[0]), acts[1..]);
    }
  }

  // ---- over every schedule ----

  /** No two racers ever win, and once all are done exactly one has. */
  lemma ExactlyOneWins(s: State, acts: seq<Action>)
    requires Init(s)
    ensures var t := Run(s, acts);
            && (forall i, k :: 0 <= i < k < |t.racers| ==> !(Winning(t.racers[i]) && Winning(t.racers[k])))
            && ((forall i :: 0 <= i < |t.racers| ==> t.racers[i].Won? || t.racers[i].Lost?) && |t.racers| > 0
                ==> exists i :: 0 <= i < |t.racers| && t.racers[i].Won?)
  {
    InitInv(s);
    RunInv(s, acts);
    var t := Run(s, acts);
    forall i, k | 0 <= i < k < |t.racers| ensures !(Winning(t.racers[i]) && Winning(t.racers[k])) {
      assert RacerOk(t, i) && RacerOk(t, k);
    }
    if (forall i :: 0 <= i < |t.racers| ==> t.racers[i].Won? || t.racers[i].Lost?) && |t.racers| > 0 {
      assert RacerOk(t, 0);
      assert t.winner.To?;
      assert t.racers[t.winner.r].Won?;
    }
  }

  /** A waiter that has read the record has read what the one winner brought, complete, and knows
      rightly whether it is a result or a failure. */
  lemma ReadersSeeTheWinner(s: State, acts: seq<Action>, j: nat)
    requires Init(s) && j < |Run(s, acts).waiters| && Run(s, acts).waiters[j].Got?
    ensures var t := Run(s, acts);
            && t.winner.To? && t.winner.r < |t.payloads| && t.winner.r < |t.racers| && Winning(t.racers[t.winner.r])
            && t.waiters[j] == Got(Settled(t.payloads[t.winner.r]), FieldsOf(t.payloads[t.winner.r]))
  {
    InitInv(s);
    RunInv(s, acts);
    var t := Run(s, acts);
    assert ReaderOk(t, t.waiters[j]);
    if t.winner.To? { assert RacerOk(t, t.winner.r); }
  }

  /** A racer that has lost and returned has freed its buffer and its heap once; the winner's
      storage is not freed. */
  lemma LosersFreeOnce(s: State, acts: seq<Action>, i: nat)
    requires Init(s) && i < |Run(s, acts).racers|
    ensures var t := Run(s, acts);
            && |t.payloads| == |t.racers|
            && t.freed[t.payloads[i].buf] <= 1 && (t.payloads[i].heap.To? ==> t.freed[t.payloads[i].heap.r] <= 1)
            && (t.racers[i] == Lost ==> t.freed[t.payloads[i].buf] == 1 && (t.payloads[i].heap.To? ==> t.freed[t.payloads[i].heap.r] == 1))
            && (Winning(t.racers[i]) ==> t.freed[t.payloads[i].buf] == 0 && (t.payloads[i].heap.To? ==> t.freed[t.payloads[i].heap.r] == 0))
  {
    hide RecordOk;
    InitInv(s);
    RunInv(s, acts);
    assert FreedOk(Run(s, acts), i);
  }

  /** Never do both the winner read waiter id 0 and a waiter's re-check miss the end. */
  lemma NoLostWakeup(s: State, acts: seq<Action>, i: nat, j: nat)
    requires Init(s)
    requires var t := Run(s, acts); i < |t.racers| && j < |t.waiters| && t.racers[i].Won? && t.waiters[j] == Suspended
    ensures Run(s, acts).racers[i].seen != 0
  {
    InitInv(s);
    RunInv(s, acts);
    var t := Run(s, acts);
    assert RacerOk(t, i) && WaiterOk(t, j);
  }

  // ---- one waiter ----

  /** The winner has seen no id or that of a waiter. */
  ghost predicate SeenOk(s: State)
  {
    forall i :: 0 <= i < |s.racers| && s.racers[i].Won? ==> s.racers[i].seen == 0 || s.racers[i].seen in s.ids
  }

  lemma {:induction false} RunSeen(s: State, acts: seq<Action>)
    requires Inv(s) && SeenOk(s)
    ensures SeenOk(Run(s, acts)) && Run(s, acts).ids == s.ids
    decreases |acts|
  {
    hide Inv;
    if acts != [] {
      StepSeen(s, acts[0]);
      StepInv(s, acts[0]);
      RunSeen(Step(s, acts[0]), acts[1..]);
    }
  }

  lemma StepSeen(s: State, a: Action)
    requires Inv(s) && SeenOk(s)
    ensures SeenOk(Step(s, a)) && Step(s, a).ids == s.ids
  {
    hide Book, Separate, FreedOk, WaiterOk, ReaderOk, RacerOk;
  }

  ghost predicate Asleep(t: State, j: nat) { j < |t.waiters| && t.waiters[j] == Suspended }

  /** In every schedule the winner finds every waiter that sleeps. */
  ghost predicate FindsSleepers(s: State)
  {
    forall acts: seq<Action>, i: nat, j: nat ::
      i < |Run(s, acts).racers| && Run(s, acts).racers[i].Won? && Asleep(Run(s, acts), j) && j < |s.ids|
      ==> Run(s, acts).racers[i].seen == s.ids[j]
  }

  /** A future has room for one waiter: all sleepers are found in every schedule if and only if
      at most one actor ever waits. */
  lemma SleepersFoundIff(s: State)
    requires Init(s) && |s.racers| >= 1 && forall a, b :: 0 <= a < b < |s.ids| ==> s.ids[a] != s.ids[b]
    ensures FindsSleepers(s) <==> |s.waiters| <= 1
  {
    hide Run;
    if |s.waiters| <= 1 {
      forall acts: seq<Action>, i: nat, j: nat |
        i < |Run(s, acts).racers| && Run(s, acts).racers[i].Won? && Asleep(Run(s, acts), j) && j < |s.ids|
        ensures Run(s, acts).racers[i].seen == s.ids[j]
      {
        NoLostWakeup(s, acts, i, j);
        InitInv(s);
        RunSeen(s, acts);
      }
    } else {
      var acts := FirstWaiterOverwritten(s);
      assert Asleep(Run(s, acts), 0) && Run(s, acts).racers[0].Won?;
    }
  }

  lemma RunOne(s: State, a: Action, acts: seq<Action>)
    ensures Run(s, [a] + acts) == Run(Step(s, a), acts)
  {
    assert ([a] + acts)[1..] == acts;
  }

  lemma RunThree(s: State, a: Action, acts: seq<Action>)
    ensures Run(s, [a] + ([a] + ([a] + acts))) == Run(Step(Step(Step(s, a), a), a), acts)
  {
    hide Step, Run;
    RunOne(s, a, [a] + ([a] + acts));
    RunOne(Step(s, a), a, [a] + acts);
    RunOne(Step(Step(s, a), a), a, acts);
  }

  /** A waiter that runs alone before the future is settled goes to sleep. */
  lemma FallsAsleep(s: State, j: nat)
    requires s.phase == Pending && j < |s.waiters| == |s.ids| && s.waiters[j] == Check
    ensures Step(Step(Step(s, Wait(j)), Wait(j)), Wait(j)) == s.(waiterId := s.ids[j], waiters := s.waiters[j := Suspended])
  {
    var s1 := Step(s, Wait(j));
    var s2 := Step(s1, Wait(j));
    assert s1 == s.(waiters := s.waiters[j := Store]);
    assert s2 == s.(waiterId := s.ids[j], waiters := s.waiters[j := Recheck]);
    assert s.waiters[j := Recheck][j := Suspended] == s.waiters[j := Suspended];
  }

  /** A racer that runs alone on a pending future wins and reads the waiter id. */
  lemma WinsAlone(s: State, i: nat)
    requires s.phase == Pending && i < |s.racers| == |s.payloads| && s.racers[i] == Start
    ensures var t := Step(Step(Step(Step(Step(Step(s, Race(i)), Race(i)), Race(i)), Race(i)), Race(i)), Race(i));
            |t.racers| == |s.racers| && t.racers[i] == Won(s.waiterId) && t.waiters == s.waiters
  {
    var s1 := Step(s, Race(i));
    var s2 := Step(s1, Race(i));
    var s3 := Step(s2, Race(i));
    var s4 := Step(s3, Race(i));
    assert s1.racers[i] == StoreBuf && s2.racers[i] == StoreCount;
    assert s3.waiterId == s.waiterId && s3.waiters == s.waiters;
  }

  /** Two actors wait for one future: both are asleep, and only the second is found. */
  lemma FirstWaiterOverwritten(s: State) returns (acts: seq<Action>)
    requires Init(s) && |s.racers| >= 1 && |s.waiters| >= 2
    ensures var t := Run(s, acts);
            |t.racers| == |s.racers| && |t.waiters| == |s.waiters| && |s.ids| >= 2
            && t.racers[0] == Won(s.ids[1]) && t.waiters[0] == Suspended && t.waiters[1] == Suspended
  {
    hide Step, Run;
    var r, w0, w1 := Race(0), Wait(0), Wait(1);
    var r3 := [r] + ([r] + ([r] + []));
    var races := [r] + ([r] + ([r] + r3));
    var second := [w1] + ([w1] + ([w1] + races));
    acts := [w0] + ([w0] + ([w0] + second));
    FallsAsleep(s, 0);
    var s3 := s.(waiterId := s.ids[0], waiters := s.waiters[0 := Suspended]);
    FallsAsleep(s3, 1);
    var s6 := s3.(waiterId := s.ids[1], waiters := s3.waiters[1 := Suspended]);
    WinsAlone(s6, 0);
    RunThree(s, w0, second);
    RunThree(s3, w1, races);
    RunThree(s6, r, r3);
    var t := Step(Step(Step(s6, r), r), r);
    RunThree(t, r, []);
    RunNone(Step(Step(Step(t, r), r), r));
  }

  lemma RunNone(s: State)
    ensures Run(s, []) == s
  {
  }
}
