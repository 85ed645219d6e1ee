/** One actor among any number of senders and scheduler workers: the suspend/wake handshake
    and the reference count (src/actor/actor.c, src/scheduler/scheduler.c, src/actor/registry.c),
    one step per atomic operation. */
module Scheduling {
  import opened Threads

  datatype Life = Created | Ready | Running | Suspended | Terminated

  datatype Sender =
    | Away
    | Found          // registry lookup done, a reference is held
    | Sending        // target not terminated, message to be enqueued
    | Refused        // mailbox full, counter to be decremented
    | WakeSuspended  // enqueued, CAS SUSPENDED -> READY to be tried
    | WakeCreated    // that failed, CAS CREATED -> READY to be tried
    | QueueRef       // CAS won, the queue's reference to be taken
    | QueuePush      // actor to be linked into the overflow queue
    | Leaving        // lookup reference to be released

  /** What processing one message reports. */
  datatype Report = Processed | Nothing | Preempted | Exception

  datatype Worker =
    | Seeking
    | Claim             // took a queue entry, CAS READY -> RUNNING to be tried
    | Process           // running the actor
    | Check(rc: Report) // state to be re-read
    | Poll              // mailbox count to be read
    | MakeReady         // READY to be stored
    | Push              // actor to be pushed on the own deque
    | Suspend           // SUSPENDED to be stored
    | Recheck           // mailbox count to be re-read
    | Rewake            // CAS SUSPENDED -> READY to be tried
    | Release           // reference to be released

  datatype Terminator = NotYet | Marked | Unregistered | Gone

  datatype State = State(
    life: Life, count: nat, capacity: nat, queued: nat, refcount: nat, registered: bool, freed: nat,
    senders: seq<Sender>, workers: seq<Worker>, terminator: Terminator)

  ghost predicate Init(s: State)
  {
    && s.life == Created && s.count == 0 && s.capacity > 0 && s.queued == 0
    && s.refcount == 1 && s.registered && s.freed == 0 && s.terminator == NotYet
    && (forall i :: 0 <= i < |s.senders| ==> s.senders[i] == Away)
    && (forall i :: 0 <= i < |s.workers| ==> s.workers[i] == Seeking)
  }

  // ---- steps ----

  /** sta_actor_release: the holder of the last reference frees. */
  function Released(s: State): State
  {
    if s.refcount == 1 then s.(refcount := 0, freed := s.freed + 1)
    else s.(refcount := if s.refcount == 0 then 0 else s.refcount - 1)
  }

  function SenderStep(s: State, i: nat): State
    requires i < |s.senders|
  {
    match s.senders[i]
    case Away => if s.registered then s.(refcount := s.refcount + 1, senders := s.senders[i := Found]) else s
    case Found => s.(senders := s.senders[i := if s.life == Terminated then Leaving else Sending])
    case Sending => s.(count := s.count + 1, senders := s.senders[i := if s.count >= s.capacity then Refused else WakeSuspended])
    case Refused => s.(count := if s.count == 0 then 0 else s.count - 1, senders := s.senders[i := Leaving])
    case WakeSuspended =>
      if s.life == Suspended then s.(life := Ready, senders := s.senders[i := QueueRef]) else s.(senders := s.senders[i := WakeCreated])
    case WakeCreated =>
      if s.life == Created then s.(life := Ready, senders := s.senders[i := QueueRef]) else s.(senders := s.senders[i := Leaving])
    case QueueRef => s.(refcount := s.refcount + 1, senders := s.senders[i := QueuePush])
    case QueuePush => s.(queued := s.queued + 1, senders := s.senders[i := Leaving])
    case Leaving => Released(s).(senders := s.senders[i := Away])
  }

  /** rc and taken are what processing reports and how many messages it dequeued. */
  function WorkerStep(s: State, i: nat, rc: Report, taken: nat): State
    requires i < |s.workers|
  {
    match s.workers[i]
    case Seeking => if s.queued > 0 then s.(queued := s.queued - 1, workers := s.workers[i := Claim]) else s
    case Claim =>
      if s.life == Ready then s.(life := Running, workers := s.workers[i := Process]) else s.(workers := s.workers[i := Release])
    case Process =>
      s.(count := if taken <= s.count then s.count - taken else 0,
         life := if rc == Exception && s.life == Running then Terminated else s.life,
         workers := s.workers[i := Check(rc)])
    case Check(r) =>
      if r == Exception || s.life == Terminated then s.(workers := s.workers[i := Release])
      else if r == Preempted then s.(workers := s.workers[i := MakeReady])
      else s.(workers := s.workers[i := Poll])
    case Poll => s.(workers := s.workers[i := if s.count > 0 then MakeReady else Suspend])
    case MakeReady => s.(life := Ready, workers := s.workers[i := Push])
    case Push => s.(queued := s.queued + 1, workers := s.workers[i := Seeking])
    case Suspend => s.(life := Suspended, workers := s.workers[i := Recheck])
    case Recheck => s.(workers := s.workers[i := if s.count > 0 then Rewake else Release])
    case Rewake => if s.life == Suspended then s.(life := Ready, workers := s.workers[i := Push]) else s.(workers := s.workers[i := Release])
    case Release => Released(s).(workers := s.workers[i := Seeking])
  }

  function TerminatorStep(s: State): State
  {
    match s.terminator
    case NotYet => s.(life := Terminated, terminator := Marked)
    case Marked => s.(registered := false, terminator := Unregistered)
    case Unregistered => Released(s).(terminator := Gone)
    case Gone => s
  }

  datatype Action = Send(i: nat) | Work(i: nat, rc: Report, taken: nat) | Terminate

  function Step(s: State, a: Action): State
  {
    match a
    case Send(i) => if i < |s.senders| then SenderStep(s, i) else s
    case Work(i, rc, taken) => if i < |s.workers| then WorkerStep(s, i, rc, taken) else s
    case Terminate => TerminatorStep(s)
  }

  // ---- bookkeeping ----

  /** On the way to the run queue, or to claiming what was taken from it. */
  function SenderWaits(p: Sender): nat { if p.QueueRef? || p.QueuePush? then 1 else 0 }
  function WorkerWaits(p: Worker): nat { if p.Claim? || p.Push? then 1 else 0 }
  /** Running the actor or deciding its next state; seeing off an actor that failed. */
  function WorkerRuns(p: Worker): nat
  {
    if p.Process? || (p.Check? && p.rc != Exception) || p.Poll? || p.MakeReady? || p.Suspend? then 1 else 0
  }
  function WorkerFails(p: Worker): nat { if p.Check? && p.rc == Exception then 1 else 0 }
  /** Bound to notice a waiting message. */
  function SenderWakes(p: Sender): nat { if p.WakeSuspended? then 1 else 0 }
  function SenderStarts(p: Sender): nat { if p.WakeSuspended? || p.WakeCreated? then 1 else 0 }
  function WorkerChecks(p: Worker): nat { if p.Recheck? || p.Rewake? then 1 else 0 }
  /** References held. */
  function SenderRefs(p: Sender): nat { if p.Away? then 0 else if p.QueuePush? then 2 else 1 }
  function WorkerRefs(p: Worker): nat { if p.Seeking? then 0 else 1 }

  ghost function Waiting(s: State): nat { s.queued + SumBy(SenderWaits, s.senders) + SumBy(WorkerWaits, s.workers) }
  ghost function Active(s: State): nat { SumBy(WorkerRuns, s.workers) + SumBy(WorkerFails, s.workers) }

  /** At most one worker runs the actor, and its state says who is responsible for it. */
  ghost predicate OneOwner(s: State)
  {
    && Waiting(s) + Active(s) <= 1
    && (s.life == Created || s.life == Suspended ==> Waiting(s) + Active(s) == 0)
    && (s.life == Ready ==> Waiting(s) == 1)
    && (s.life == Running ==> Active(s) == 1)
    && (SumBy(WorkerFails, s.workers) > 0 ==> s.life == Terminated)
  }

  /** A message in an idle actor's mailbox has somebody who will still look. */
  ghost predicate Attended(s: State)
  {
    && (s.life == Suspended && s.count > 0 ==> SumBy(SenderWakes, s.senders) + SumBy(WorkerChecks, s.workers) > 0)
    && (s.life == Created && s.count > 0 ==> SumBy(SenderStarts, s.senders) > 0)
  }

  ghost predicate Counted(s: State)
  {
    && s.refcount == (if s.terminator.Gone? then 0 else 1) + s.queued + SumBy(SenderRefs, s.senders) + SumBy(WorkerRefs, s.workers)
    && s.freed == (if s.refcount == 0 then 1 else 0)
    && (s.registered ==> s.terminator.NotYet? || s.terminator.Marked?)
  }

  ghost predicate Inv(s: State)
  {
    s.capacity > 0 && OneOwner(s) && Attended(s) && Counted(s)
  }

  lemma SenderMoves(s: State, i: nat, p: Sender)
    requires i < |s.senders|
    ensures var ss := s.senders[i := p];
            && SumBy(SenderWaits, ss) + SenderWaits(s.senders[i]) == SumBy(SenderWaits, s.senders) + SenderWaits(p)
            && SumBy(SenderWakes, ss) + SenderWakes(s.senders[i]) == SumBy(SenderWakes, s.senders) + SenderWakes(p)
            && SumBy(SenderStarts, ss) + SenderStarts(s.senders[i]) == SumBy(SenderStarts, s.senders) + SenderStarts(p)
            && SumBy(SenderRefs, ss) + SenderRefs(s.senders[i]) == SumBy(SenderRefs, s.senders) + SenderRefs(p)
  {
    hide SumBy;
    SumUpdate(SenderWaits, s.senders, i, p);
    SumUpdate(SenderWakes, s.senders, i, p);
    SumUpdate(SenderStarts, s.senders, i, p);
    SumUpdate(SenderRefs, s.senders, i, p);
  }

  lemma WorkerMoves(s: State, i: nat, p: Worker)
    requires i < |s.workers|
    ensures var ws := s.workers[i := p];
            && SumBy(WorkerWaits, ws) + WorkerWaits(s.workers[i]) == SumBy(WorkerWaits, s.workers) + WorkerWaits(p)
            && SumBy(WorkerRuns, ws) + WorkerRuns(s.workers[i]) == SumBy(WorkerRuns, s.workers) + WorkerRuns(p)
            && SumBy(WorkerFails, ws) + WorkerFails(s.workers[i]) == SumBy(WorkerFails, s.workers) + WorkerFails(p)
            && SumBy(WorkerChecks, ws) + WorkerChecks(s.workers[i]) == SumBy(WorkerChecks, s.workers) + WorkerChecks(p)
            && SumBy(WorkerRefs, ws) + WorkerRefs(s.workers[i]) == SumBy(WorkerRefs, s.workers) + WorkerRefs(p)
  {
    hide SumBy;
    SumUpdate(WorkerWaits, s.workers, i, p);
    SumUpdate(WorkerRuns, s.workers, i, p);
    SumUpdate(WorkerFails, s.workers, i, p);
    SumUpdate(WorkerChecks, s.workers, i, p);
    SumUpdate(WorkerRefs, s.workers, i, p);
  }

  lemma WorkerCounts(s: State, i: nat)
    requires i < |s.workers|
    ensures WorkerWaits(s.workers[i]) <= SumBy(WorkerWaits, s.workers)
    ensures WorkerRuns(s.workers[i]) <= SumBy(WorkerRuns, s.workers)
    ensures WorkerFails(s.workers[i]) <= SumBy(WorkerFails, s.workers)
    ensures WorkerChecks(s.workers[i]) <= SumBy(WorkerChecks, s.workers)
    ensures WorkerRefs(s.workers[i]) <= SumBy(WorkerRefs, s.workers)
  {
    hide SumBy;
    SumAtLeast(WorkerWaits, s.workers, i);
    SumAtLeast(WorkerRuns, s.workers, i);
    SumAtLeast(WorkerFails, s.workers, i);
    SumAtLeast(WorkerChecks, s.workers, i);
    SumAtLeast(WorkerRefs, s.workers, i);
  }

  lemma SenderCounts(s: State, i: nat)
    requires i < |s.senders|
    ensures SenderWaits(s.senders[i]) <= SumBy(SenderWaits, s.senders)
    ensures SenderRefs(s.senders[i]) <= SumBy(SenderRefs, s.senders)
  {
    hide SumBy;
    SumAtLeast(SenderWaits, s.senders, i);
    SumAtLeast(SenderRefs, s.senders, i);
  }

  lemma InitInv(s: State)
    requires Init(s)
    ensures Inv(s)
  {
    hide SumBy;
    SumZero(SenderWaits, s.senders);
    SumZero(SenderRefs, s.senders);
    SumZero(WorkerWaits, s.workers);
    SumZero(WorkerRuns, s.workers);
    SumZero(WorkerFails, s.workers);
    SumZero(WorkerRefs, s.workers);
  }

  lemma SenderOwner(s: State, i: nat)
    requires OneOwner(s) && i < |s.senders|
    ensures OneOwner(SenderStep(s, i))
  {
    hide SumBy;
    var s' := SenderStep(s, i);
    assert s'.senders == s.senders[i := s'.senders[i]];
    SenderMoves(s, i, s'.senders[i]);
    SenderCounts(s, i);
  }

  lemma SenderAttended(s: State, i: nat)
    requires s.capacity > 0 && Attended(s) && i < |s.senders|
    ensures Attended(SenderStep(s, i))
  {
    hide SumBy;
    var s' := SenderStep(s, i);
    assert s'.senders == s.senders[i := s'.senders[i]];
    SenderMoves(s, i, s'.senders[i]);
  }

  lemma SenderCounted(s: State, i: nat)
    requires Counted(s) && i < |s.senders|
    ensures Counted(SenderStep(s, i))
  {
    hide SumBy;
    var s' := SenderStep(s, i);
    assert s'.senders == s.senders[i := s'.senders[i]];
    SenderMoves(s, i, s'.senders[i]);
    SenderCounts(s, i);
  }

  lemma RunningOwner(s: State, i: nat, rc: Report, taken: nat)
    requires OneOwner(s) && i < |s.workers| && Owns(s.workers[i])
    ensures OneOwner(WorkerStep(s, i, rc, taken))
  {
    hide SumBy, Released;
    var s' := WorkerStep(s, i, rc, taken);
    var q := s'.workers[i];
    assert s'.workers == s.workers[i := q] && s'.senders == s.senders;
    WorkerMoves(s, i, q);
    WorkerCounts(s, i);
  }

  lemma OtherOwner(s: State, i: nat, rc: Report, taken: nat)
    requires OneOwner(s) && i < |s.workers| && !Owns(s.workers[i])
    ensures OneOwner(WorkerStep(s, i, rc, taken))
  {
    hide SumBy, Released;
    var s' := WorkerStep(s, i, rc, taken);
    var q := s'.workers[i];
    if s.workers[i].Release? { ReleasedKeeps(s); }
    assert s'.workers == s.workers[i := q] && s'.senders == s.senders;
    WorkerMoves(s, i, q);
    WorkerCounts(s, i);
  }

  lemma WorkerOwner(s: State, i: nat, rc: Report, taken: nat)
    requires OneOwner(s) && i < |s.workers|
    ensures OneOwner(WorkerStep(s, i, rc, taken))
  {
    hide OneOwner, WorkerStep;
    if Owns(s.workers[i]) { RunningOwner(s, i, rc, taken); } else { OtherOwner(s, i, rc, taken); }
  }

  lemma ReleasedKeeps(s: State)
    ensures Released(s) == s.(refcount := Released(s).refcount, freed := Released(s).freed)
  {
  }

  lemma WorkerAttended(s: State, i: nat, rc: Report, taken: nat)
    requires OneOwner(s) && Attended(s) && i < |s.workers|
    ensures Attended(WorkerStep(s, i, rc, taken))
  {
    hide SumBy;
    var s' := WorkerStep(s, i, rc, taken);
    assert s'.workers == s.workers[i := s'.workers[i]];
    WorkerMoves(s, i, s'.workers[i]);
    WorkerCounts(s, i);
    WorkerCounts(s', i);
  }

  lemma WorkerCounted(s: State, i: nat, rc: Report, taken: nat)
    requires Counted(s) && i < |s.workers|
    ensures Counted(WorkerStep(s, i, rc, taken))
  {
    hide SumBy;
    var s' := WorkerStep(s, i, rc, taken);
    assert s'.workers == s.workers[i := s'.workers[i]];
    WorkerMoves(s, i, s'.workers[i]);
    WorkerCounts(s, i);
  }

  lemma KeepsCapacity(s: State, a: Action)
    ensures Step(s, a).capacity == s.capacity
  {
  }

  lemma StepInv(s: State, a: Action)
    requires Inv(s)
    ensures Inv(Step(s, a))
  {
    hide SumBy, SenderStep, WorkerStep;
    match a {
      case Send(i) =>
        if i < |s.senders| { SenderOwner(s, i); SenderAttended(s, i); SenderCounted(s, i); KeepsCapacity(s, a); }
      case Work(i, rc, taken) =>
        if i < |s.workers| { WorkerOwner(s, i, rc, taken); WorkerAttended(s, i, rc, taken); WorkerCounted(s, i, rc, taken); KeepsCapacity(s, a); }
      case Terminate =>
    }
  }

  // ---- every schedule ----

  ghost function Run(s: State, acts: seq<Action>): State
    decreases |acts|
  {
    if acts == [] then s else Run(Step(s, acts[0]), acts[1..])
  }

  lemma {:induction false} RunInv(s: State, acts: seq<Action>)
    requires Inv(s)
    ensures Inv(Run(s, acts))
    decreases |acts|
  {
    hide Inv;
    if acts != [] {
      StepInv(s, acts[0]);
      RunInv(Step(s, acts[0]), acts[1..]);
    }
  }

  /** Whether a worker is inside the part of its loop that owns the actor. */
  predicate Owns(p: Worker) { p.Process? || p.Check? || p.Poll? || p.MakeReady? || p.Suspend? }

  /** At most one worker runs the actor at a time; it is in the run queue at most once, and
      never while it runs. */
  lemma OneWorkerOneEntry(s: State, acts: seq<Action>)
    requires Init(s)
    ensures var r := Run(s, acts);
            && (forall i, j :: 0 <= i < j < |r.workers| ==> !(Owns(r.workers[i]) && Owns(r.workers[j])))
            && r.queued <= 1
            && (forall i :: 0 <= i < |r.workers| && Owns(r.workers[i]) ==> r.queued == 0)
  {
    hide SumBy;
    InitInv(s);
    RunInv(s, acts);
    var r := Run(s, acts);
    forall i, j | 0 <= i < j < |r.workers| ensures !(Owns(r.workers[i]) && Owns(r.workers[j])) {
      OwnersAdd(r.workers, i, j);
    }
    forall i | 0 <= i < |r.workers| && Owns(r.workers[i]) ensures r.queued == 0 { WorkerCounts(r, i); }
  }

  lemma {:induction false} OwnersAdd(ws: seq<Worker>, i: nat, j: nat)
    requires i < j < |ws|
    ensures Owns(ws[i]) && Owns(ws[j]) ==> SumBy(WorkerRuns, ws) + SumBy(WorkerFails, ws) >= 2
    decreases |ws|
  {
    if i == 0 {
      SumAtLeast(WorkerRuns, ws[1..], j - 1);
      SumAtLeast(WorkerFails, ws[1..], j - 1);
    } else {
      OwnersAdd(ws[1..], i - 1, j - 1);
    }
  }

  /** No message is stranded: while the actor is suspended with a positive count, a sender
      has yet to try its wake-up or a worker has yet to finish its re-check. */
  lemma NoMessageStranded(s: State, acts: seq<Action>)
    requires Init(s)
    ensures var r := Run(s, acts);
            && (r.life == Suspended && r.count > 0 ==>
                  || (exists i :: 0 <= i < |r.senders| && r.senders[i].WakeSuspended?)
                  || (exists i :: 0 <= i < |r.workers| && (r.workers[i].Recheck? || r.workers[i].Rewake?)))
            && (r.life == Created && r.count > 0 ==>
                  exists i :: 0 <= i < |r.senders| && (r.senders[i].WakeSuspended? || r.senders[i].WakeCreated?))
  {
    hide SumBy;
    InitInv(s);
    RunInv(s, acts);
    var r := Run(s, acts);
    if r.life == Suspended && r.count > 0 {
      if SumBy(SenderWakes, r.senders) > 0 { var i := SumWitness(SenderWakes, r.senders); }
      else { var i := SumWitness(WorkerChecks, r.workers); }
    }
    if r.life == Created && r.count > 0 { var i := SumWitness(SenderStarts, r.senders); }
  }

  /** A ready actor is in the queue or on its way there, so a worker will find it. */
  lemma ReadyIsQueued(s: State, acts: seq<Action>)
    requires Init(s) && Run(s, acts).life == Ready
    ensures var r := Run(s, acts);
            || r.queued == 1
            || (exists i :: 0 <= i < |r.senders| && (r.senders[i].QueueRef? || r.senders[i].QueuePush?))
            || (exists i :: 0 <= i < |r.workers| && (r.workers[i].Claim? || r.workers[i].Push?))
  {
    hide SumBy;
    InitInv(s);
    RunInv(s, acts);
    var r := Run(s, acts);
    if r.queued == 0 {
      if SumBy(SenderWaits, r.senders) > 0 { var i := SumWitness(SenderWaits, r.senders); }
      else { var i := SumWitness(WorkerWaits, r.workers); }
    }
  }

  /** Nobody holds the actor any more. */
  ghost predicate Unheld(s: State)
  {
    && s.terminator == Gone && s.queued == 0
    && (forall i :: 0 <= i < |s.senders| ==> s.senders[i] == Away)
    && (forall i :: 0 <= i < |s.workers| ==> s.workers[i] == Seeking)
  }

  /** The count is exact: the actor is freed at most once, never under a holder, and as soon
      as the last holder is gone. */
  lemma FreedExactlyWhenUnheld(s: State, acts: seq<Action>)
    requires Init(s)
    ensures var r := Run(s, acts);
            && r.freed <= 1 && (r.freed == 1 <==> Unheld(r))
            && r.refcount == (if r.terminator.Gone? then 0 else 1) + r.queued + SumBy(SenderRefs, r.senders) + SumBy(WorkerRefs, r.workers)
  {
    hide SumBy;
    InitInv(s);
    RunInv(s, acts);
    var r := Run(s, acts);
    if Unheld(r) {
      SumZero(SenderRefs, r.senders);
      SumZero(WorkerRefs, r.workers);
    }
    if r.freed == 1 {
      forall i | 0 <= i < |r.senders| ensures r.senders[i] == Away { SenderCounts(r, i); }
      forall i | 0 <= i < |r.workers| ensures r.workers[i] == Seeking { WorkerCounts(r, i); }
    }
  }

  // ---- a terminated actor that runs again ----

  /** Past the last look at the state, which it is about to overwrite. */
  predicate PastCheck(p: Worker) { p.Poll? || p.MakeReady? || p.Suspend? }

  /** Would wake the actor, or may still put a message into its mailbox. */
  predicate Rouses(p: Sender) { p.Found? || p.Sending? || p.WakeSuspended? }

  ghost predicate CanWake(s: State)
  {
    || s.count > 0
    || (s.registered && |s.senders| > 0)
    || (exists j :: 0 <= j < |s.senders| && Rouses(s.senders[j]))
    || (exists j :: 0 <= j < |s.workers| && s.workers[j].Rewake?)
  }

  /** Some worker is about to make the actor ready, or to suspend it with something left that
      wakes it. */
  ghost predicate CanRevive(s: State)
  {
    exists i :: 0 <= i < |s.workers| && (s.workers[i].MakeReady? || (PastCheck(s.workers[i]) && CanWake(s)))
  }

  ghost predicate NonePast(s: State) { forall i :: 0 <= i < |s.workers| ==> !PastCheck(s.workers[i]) }

  /** Nothing is left that would make the actor run. */
  ghost predicate Quiet(s: State)
  {
    && (s.life == Suspended || (s.life == Terminated && !NonePast(s)))
    && !CanWake(s) && (forall i :: 0 <= i < |s.workers| ==> !s.workers[i].MakeReady?)
  }

  ghost predicate AtRest(s: State) { Inv(s) && ((s.life == Terminated && NonePast(s)) || Quiet(s)) }

  /** In a quiet state nobody is on the way to the queue. */
  lemma QuietOwner(s: State)
    requires OneOwner(s) && Quiet(s)
    ensures Waiting(s) == 0 && s.queued == 0
  {
    hide SumBy;
    if s.life == Terminated {
      var i :| 0 <= i < |s.workers| && PastCheck(s.workers[i]);
      WorkerCounts(s, i);
    }
  }

  lemma TerminatedRests(s: State, a: Action)
    requires Inv(s) && s.life == Terminated && NonePast(s)
    ensures Step(s, a).life == Terminated && NonePast(Step(s, a))
  {
    hide SumBy, OneOwner, Attended, Counted;
  }

  lemma QuietSender(s: State, j: nat)
    requires OneOwner(s) && Quiet(s) && j < |s.senders|
    ensures Quiet(SenderStep(s, j))
  {
    hide SumBy, OneOwner;
    QuietOwner(s);
    SenderCounts(s, j);
    var s' := SenderStep(s, j);
    assert !Rouses(s.senders[j]) && !s.registered;
    assert s'.workers == s.workers;
  }

  lemma QuietWorker(s: State, i: nat, rc: Report, taken: nat)
    requires OneOwner(s) && Quiet(s) && i < |s.workers|
    ensures var s' := WorkerStep(s, i, rc, taken); Quiet(s') || (s'.life == Terminated && NonePast(s'))
  {
    hide SumBy;
    QuietOwner(s);
    WorkerCounts(s, i);
    var s' := WorkerStep(s, i, rc, taken);
    assert s'.senders == s.senders && s'.registered == s.registered;
    assert !s.workers[i].Rewake? && !s.workers[i].MakeReady?;
  }

  lemma RestStep(s: State, a: Action)
    requires AtRest(s)
    ensures AtRest(Step(s, a))
  {
    hide SumBy, OneOwner, Attended, Counted, CanWake, SenderStep, WorkerStep;
    StepInv(s, a);
    if s.life == Terminated && NonePast(s) {
      TerminatedRests(s, a);
    } else {
      match a {
        case Send(j) => if j < |s.senders| { QuietSender(s, j); }
        case Work(i, rc, taken) => if i < |s.workers| { QuietWorker(s, i, rc, taken); }
        case Terminate => QuietTerminate(s);
      }
    }
  }

  lemma QuietTerminate(s: State)
    requires OneOwner(s) && Quiet(s)
    ensures var s' := TerminatorStep(s); Quiet(s') || (s'.life == Terminated && NonePast(s'))
  {
    hide SumBy;
    var s' := TerminatorStep(s);
    assert s'.workers == s.workers && s'.senders == s.senders && s'.count == s.count && (s'.registered ==> s.registered);
  }

  lemma {:induction false} RestRun(s: State, acts: seq<Action>)
    requires AtRest(s)
    ensures AtRest(Run(s, acts))
    decreases |acts|
  {
    hide AtRest, Step;
    if acts != [] {
      RestStep(s, acts[0]);
      RestRun(Step(s, acts[0]), acts[1..]);
    }
  }

  // Schedules that make it run.

  function Turn(i: nat): Action { Work(i, Processed, 0) }

  lemma RunFirst(s: State, a: Action, acts: seq<Action>)
    ensures Run(s, [a] + acts) == Run(Step(s, a), acts)
  {
    assert ([a] + acts)[1..] == acts;
  }

  lemma RunNone(s: State)
    ensures Run(s, []) == s
  {
  }

  lemma PushRuns(s: State, i: nat) returns (acts: seq<Action>)
    requires i < |s.workers| && s.workers[i].Push? && s.life == Ready
    ensures Run(s, acts).life == Running
  {
    hide Run;
    var t := Turn(i);
    acts := [t] + ([t] + ([t] + []));
    RunFirst(s, t, [t] + ([t] + []));
    RunFirst(Step(s, t), t, [t] + []);
    RunFirst(Step(Step(s, t), t), t, []);
    RunNone(Step(Step(Step(s, t), t), t));
    assert Step(s, t).workers[i].Seeking? && Step(s, t).queued > 0;
    assert Step(Step(s, t), t).workers[i].Claim?;
  }

  lemma MakeReadyRuns(s: State, i: nat) returns (acts: seq<Action>)
    requires i < |s.workers| && s.workers[i].MakeReady?
    ensures Run(s, acts).life == Running
  {
    hide Run;
    acts := PushRuns(Step(s, Turn(i)), i);
    RunFirst(s, Turn(i), acts);
    acts := [Turn(i)] + acts;
  }

  /** A worker that tries to wake the suspended actor. */
  lemma RewakeRuns(s: State, i: nat) returns (acts: seq<Action>)
    requires i < |s.workers| && s.workers[i].Rewake? && s.life == Suspended
    ensures Run(s, acts).life == Running
  {
    hide Run;
    acts := PushRuns(Step(s, Turn(i)), i);
    RunFirst(s, Turn(i), acts);
    acts := [Turn(i)] + acts;
  }

  lemma RecheckRuns(s: State, i: nat) returns (acts: seq<Action>)
    requires i < |s.workers| && s.workers[i].Recheck? && s.life == Suspended && s.count > 0
    ensures Run(s, acts).life == Running
  {
    hide Run;
    acts := RewakeRuns(Step(s, Turn(i)), i);
    RunFirst(s, Turn(i), acts);
    acts := [Turn(i)] + acts;
  }

  /** A sender that already has its message admitted wakes the actor itself. */
  lemma WakeRuns(s: State, i: nat, j: nat) returns (acts: seq<Action>)
    requires i < |s.workers| && s.workers[i].Recheck? && s.life == Suspended && s.count == 0
    requires j < |s.senders| && s.senders[j].WakeSuspended?
    ensures Run(s, acts).life == Running
  {
    hide Run;
    var a, t := Send(j), Turn(i);
    var s1 := Step(s, a);
    var s2 := Step(s1, a);
    var s3 := Step(s2, a);
    assert s3.queued > 0 && s3.life == Ready && s3.workers == s.workers && s3.count == 0;
    acts := ReleaseRuns(s3, i);
    RunFirst(s2, a, acts);
    RunFirst(s1, a, [a] + acts);
    RunFirst(s, a, [a] + ([a] + acts));
    acts := [a] + ([a] + ([a] + acts));
  }

  lemma ReleaseRuns(s: State, i: nat) returns (acts: seq<Action>)
    requires i < |s.workers| && s.workers[i].Recheck? && s.life == Ready && s.count == 0 && s.queued > 0
    ensures Run(s, acts).life == Running
  {
    hide Run;
    var t := Turn(i);
    var s1 := Step(s, t);
    var s2 := Step(s1, t);
    var s3 := Step(s2, t);
    assert s1.workers[i].Release? && s2.workers[i].Seeking? && s2.queued > 0 && s2.life == Ready;
    assert s3.workers[i].Claim? && s3.life == Ready;
    acts := [t] + ([t] + ([t] + ([t] + [])));
    RunFirst(s, t, [t] + ([t] + ([t] + [])));
    RunFirst(s1, t, [t] + ([t] + []));
    RunFirst(s2, t, [t] + []);
    RunFirst(s3, t, []);
    RunNone(Step(s3, t));
  }

  /** Steps a sender is away from having its message admitted. */
  function ToGo(p: Sender): nat
  {
    match p
    case WakeSuspended => 0
    case Sending => 1
    case Found => 2
    case Away => 3
    case Leaving => 4
    case _ => 5
  }

  /** A sender delivers, and the worker's re-check sees it. */
  lemma {:induction false} SenderRouses(s: State, i: nat, j: nat) returns (acts: seq<Action>)
    requires i < |s.workers| && s.workers[i].Recheck? && s.life == Suspended && s.count == 0 && s.capacity > 0
    requires j < |s.senders| && !s.senders[j].QueueRef? && !s.senders[j].QueuePush? && (Rouses(s.senders[j]) || s.registered)
    ensures Run(s, acts).life == Running
    decreases ToGo(s.senders[j])
  {
    hide Run;
    if s.senders[j].WakeSuspended? {
      acts := WakeRuns(s, i, j);
    } else {
      var s1 := Step(s, Send(j));
      assert s1.workers == s.workers && s1.life == Suspended && s1.registered == s.registered;
      if s.senders[j].Sending? { acts := RecheckRuns(s1, i); } else { acts := SenderRouses(s1, i, j); }
      RunFirst(s, Send(j), acts);
      acts := [Send(j)] + acts;
    }
  }

  lemma SuspendRuns(s: State, i: nat) returns (acts: seq<Action>)
    requires Inv(s) && i < |s.workers| && s.workers[i].Suspend? && CanWake(s)
    ensures Run(s, acts).life == Running
  {
    hide Run, SumBy;
    var s1 := Step(s, Turn(i));
    assert s1.life == Suspended && s1.workers[i].Recheck? && s1.senders == s.senders && s1.count == s.count;
    if s.count > 0 {
      acts := RecheckRuns(s1, i);
    } else if exists j :: 0 <= j < |s.workers| && s.workers[j].Rewake? {
      var j :| 0 <= j < |s.workers| && s.workers[j].Rewake?;
      acts := RewakeRuns(s1, j);
    } else {
      var j := Rouser(s);
      WorkerCounts(s, i);
      SenderCounts(s, j);
      acts := SenderRouses(s1, i, j);
    }
    RunFirst(s, Turn(i), acts);
    acts := [Turn(i)] + acts;
  }

  lemma Rouser(s: State) returns (j: nat)
    requires CanWake(s) && s.count == 0 && !exists j :: 0 <= j < |s.workers| && s.workers[j].Rewake?
    ensures j < |s.senders| && (Rouses(s.senders[j]) || s.registered)
  {
    if s.registered && |s.senders| > 0 { j := 0; } else { j :| 0 <= j < |s.senders| && Rouses(s.senders[j]); }
  }

  lemma ReviveRuns(s: State) returns (acts: seq<Action>)
    requires Inv(s) && CanRevive(s)
    ensures Run(s, acts).life == Running
  {
    hide Run, Inv, CanWake, Step;
    var i :| 0 <= i < |s.workers| && (s.workers[i].MakeReady? || (PastCheck(s.workers[i]) && CanWake(s)));
    if s.workers[i].MakeReady? {
      acts := MakeReadyRuns(s, i);
    } else if s.workers[i].Suspend? {
      acts := SuspendRuns(s, i);
    } else {
      var s1 := Step(s, Turn(i));
      PollStep(s, i);
      StepInv(s, Turn(i));
      if s1.workers[i].MakeReady? { acts := MakeReadyRuns(s1, i); } else { acts := SuspendRuns(s1, i); }
      RunFirst(s, Turn(i), acts);
      acts := [Turn(i)] + acts;
    }
  }

  lemma PollStep(s: State, i: nat)
    requires i < |s.workers| && s.workers[i].Poll? && CanWake(s)
    ensures var s1 := Step(s, Turn(i));
            i < |s1.workers| && (s1.workers[i].MakeReady? || s1.workers[i].Suspend?) && CanWake(s1)
  {
    var s1 := Step(s, Turn(i));
    assert s1.senders == s.senders;
    forall j | 0 <= j < |s.workers| && s.workers[j].Rewake? ensures s1.workers[j].Rewake? {
    }
  }

  /** The worker's stores are unconditional, so termination can be undone. From every reachable
      state with the actor terminated, some schedule makes it run again exactly if a worker past
      its check is about to make it ready, or to suspend it while something is left to wake it. */
  lemma RunsAgainIff(s: State, before: seq<Action>)
    requires Init(s) && Run(s, before).life == Terminated
    ensures var r := Run(s, before);
            (exists acts: seq<Action> :: Run(r, acts).life == Running) <==> CanRevive(r)
  {
    hide Inv, CanWake, Step;
    InitInv(s);
    RunInv(s, before);
    var r := Run(s, before);
    if CanRevive(r) {
      var acts := ReviveRuns(r);
    } else {
      assert AtRest(r);
      forall acts: seq<Action> ensures Run(r, acts).life != Running { RestRun(r, acts); }
    }
  }

  /** The first message makes the actor ready. */
  lemma FirstMessage(s: State) returns (acts: seq<Action>)
    requires Init(s) && |s.senders| > 0
    ensures var r := Run(s, acts);
            r.life == Ready && r.queued == 1 && r.workers == s.workers && r.terminator == NotYet
  {
    hide Run;
    var a := Send(0);
    var s3 := Step(Step(Step(s, a), a), a);
    var s5 := Step(Step(s3, a), a);
    var s7 := Step(Step(s5, a), a);
    assert s3.senders[0] == WakeSuspended && s3.life == Created && s3.queued == 0;
    assert s5.senders[0] == QueueRef && s5.life == Ready && s5.queued == 0;
    acts := [a] + ([a] + ([a] + ([a] + ([a] + ([a] + ([a] + []))))));
    RunFirst(s, a, [a] + ([a] + ([a] + ([a] + ([a] + ([a] + []))))));
    RunFirst(Step(s, a), a, [a] + ([a] + ([a] + ([a] + ([a] + [])))));
    RunFirst(Step(Step(s, a), a), a, [a] + ([a] + ([a] + ([a] + []))));
    RunFirst(s3, a, [a] + ([a] + ([a] + [])));
    RunFirst(Step(s3, a), a, [a] + ([a] + []));
    RunFirst(s5, a, [a] + []);
    RunFirst(Step(s5, a), a, []);
    RunNone(s7);
  }

  /** A worker claims it, runs it until it is preempted, and has looked at its state when
      another thread terminates it. */
  lemma TerminatedLate(s: State) returns (acts: seq<Action>)
    requires s.life == Ready && s.queued == 1 && |s.workers| > 0 && s.workers[0] == Seeking && s.terminator == NotYet
    ensures var r := Run(s, acts); r.life == Terminated && |r.workers| > 0 && r.workers[0] == MakeReady
  {
    hide Run;
    var t, p := Turn(0), Work(0, Preempted, 0);
    var s1 := Step(s, t);
    var s2 := Step(s1, t);
    var s3 := Step(s2, p);
    var s4 := Step(s3, t);
    assert s1.workers[0] == Claim && s2.workers[0] == Process && s2.life == Running;
    assert s3.workers[0] == Check(Preempted) && s3.life == Running && s4.workers[0] == MakeReady;
    acts := [t] + ([t] + ([p] + ([t] + ([Terminate] + []))));
    RunFirst(s, t, [t] + ([p] + ([t] + ([Terminate] + []))));
    RunFirst(s1, t, [p] + ([t] + ([Terminate] + [])));
    RunFirst(s2, p, [t] + ([Terminate] + []));
    RunFirst(s3, t, [Terminate] + []);
    RunFirst(s4, Terminate, []);
    RunNone(Step(s4, Terminate));
  }

  lemma {:induction false} RunAppend(s: State, a: seq<Action>, b: seq<Action>)
    ensures Run(s, a + b) == Run(Run(s, a), b)
    decreases |a|
  {
    hide Step;
    if a == [] {
      assert a + b == b;
    } else {
      assert (a + b)[1..] == a[1..] + b;
      RunAppend(Step(s, a[0]), a[1..], b);
    }
  }

  /** It happens with one sender and one worker. */
  lemma TerminatedRunsAgain(s: State) returns (before: seq<Action>, after: seq<Action>)
    requires Init(s) && |s.senders| > 0 && |s.workers| > 0
    ensures Run(s, before).life == Terminated && Run(s, before + after).life == Running
  {
    hide Run, Step;
    var first := FirstMessage(s);
    var late := TerminatedLate(Run(s, first));
    before := first + late;
    RunAppend(s, first, late);
    after := MakeReadyRuns(Run(s, before), 0);
    RunAppend(s, before, after);
  }
}
