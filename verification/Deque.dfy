/** The Chase-Lev work-stealing deque (src/scheduler/deque.c), one step per atomic
    operation of one owner and any number of thieves, in every interleaving. */
module Deque {

  type Actor = nat

  const CAPACITY := 1024

  function Ring(i: nat): (r: nat)
    ensures r < CAPACITY
  {
    i % CAPACITY
  }

  /** Where the owner stands inside push or pop, with what it has read so far. */
  datatype Owner =
    | Idle
    | PushTop(a: Actor, b: nat)             // bottom read, top to be read
    | PushSlot(a: Actor, b: nat)            // room found, slot to be written
    | PushBottom(a: Actor, b: nat)          // slot written, bottom to be stored
    | PopBottom(b: nat)                     // bottom read, decremented value to be stored
    | PopTop(b: nat)                        // bottom stored, top to be read
    | PopUndo(b: nat)                       // deque was empty, bottom to be restored
    | PopSlot(b: nat, t: nat)               // slot to be read
    | PopCas(b: nat, a: Actor)              // last element: top to be claimed
    | PopFix(b: nat, a: Actor, won: bool)   // bottom to be restored

  datatype Thief =
    | Resting
    | StealBottom(t: nat)                   // top read, bottom to be read
    | StealSlot(t: nat)                     // non-empty, slot to be read
    | StealCas(t: nat, a: Actor)            // top to be claimed

  /** The abstract deque, oldest first, and what has become of every push. */
  datatype History = History(contents: seq<Actor>, claimed: multiset<Actor>, pushed: multiset<Actor>, returned: multiset<Actor>)

  /** Shared memory, the threads' program counters, and the history. */
  datatype State = State(top: nat, bottom: nat, buf: seq<Actor>, owner: Owner, thieves: seq<Thief>, h: History)

  datatype Action = StartPush(a: Actor) | StartPop | OwnerStep | ThiefStep(i: nat)

  /** What a step hands to its caller. */
  datatype Event = Quiet | Full | Empty | Got(a: Actor)

  datatype Outcome = Outcome(s: State, e: Event)

  ghost predicate Init(s: State)
  {
    && s.top == 0 && s.bottom == 0 && |s.buf| == CAPACITY && s.owner == Idle
    && (forall i :: 0 <= i < |s.thieves| ==> s.thieves[i] == Resting)
    && s.h == History([], multiset{}, multiset{}, multiset{})
  }

  // ---- abstract operations ----

  function Append(h: History, a: Actor): History
  {
    h.(contents := h.contents + [a], pushed := h.pushed + multiset{a})
  }

  /** The newest (oldest) element leaves the deque and belongs to one thread. */
  function ClaimLast(h: History): History
  {
    if h.contents == [] then h
    else h.(contents := h.contents[..|h.contents| - 1], claimed := h.claimed + multiset{h.contents[|h.contents| - 1]})
  }

  function ClaimFirst(h: History): History
  {
    if h.contents == [] then h
    else h.(contents := h.contents[1..], claimed := h.claimed + multiset{h.contents[0]})
  }

  /** A claimed element is handed to the caller. */
  function Return(h: History, a: Actor): History
  {
    h.(claimed := h.claimed - multiset{a}, returned := h.returned + multiset{a})
  }

  // ---- steps ----

  function OwnerStep(s: State): Outcome
    requires |s.buf| == CAPACITY
  {
    match s.owner
    case Idle => Outcome(s, Quiet)
    case PushTop(a, b) =>
      if b - s.top >= CAPACITY then Outcome(s.(owner := Idle), Full) else Outcome(s.(owner := PushSlot(a, b)), Quiet)
    case PushSlot(a, b) => Outcome(s.(buf := s.buf[Ring(b) := a], owner := PushBottom(a, b)), Quiet)
    case PushBottom(a, b) => Outcome(s.(bottom := b + 1, owner := Idle, h := Append(s.h, a)), Quiet)
    case PopBottom(b) =>
      if b == 0 then Outcome(s.(owner := Idle), Empty) else Outcome(s.(bottom := b - 1, owner := PopTop(b - 1)), Quiet)
    case PopTop(b) =>
      if s.top > b then Outcome(s.(owner := PopUndo(b)), Quiet)
      else Outcome(s.(owner := PopSlot(b, s.top), h := if s.top < b then ClaimLast(s.h) else s.h), Quiet)
    case PopUndo(b) => Outcome(s.(bottom := b + 1, owner := Idle), Empty)
    case PopSlot(b, t) =>
      var a := s.buf[Ring(b)];
      if t == b then Outcome(s.(owner := PopCas(b, a)), Quiet)
      else Outcome(s.(owner := Idle, h := Return(s.h, a)), Got(a))
    case PopCas(b, a) =>
      if s.top == b then Outcome(s.(top := b + 1, owner := PopFix(b, a, true), h := ClaimFirst(s.h)), Quiet)
      else Outcome(s.(owner := PopFix(b, a, false)), Quiet)
    case PopFix(b, a, won) =>
      var s' := s.(bottom := b + 1, owner := Idle);
      if won then Outcome(s'.(h := Return(s.h, a)), Got(a)) else Outcome(s', Empty)
  }

  function ThiefStep(s: State, i: nat): Outcome
    requires |s.buf| == CAPACITY && i < |s.thieves|
  {
    match s.thieves[i]
    case Resting => Outcome(s.(thieves := s.thieves[i := StealBottom(s.top)]), Quiet)
    case StealBottom(t) =>
      if s.bottom <= t then Outcome(s.(thieves := s.thieves[i := Resting]), Empty)
      else Outcome(s.(thieves := s.thieves[i := StealSlot(t)]), Quiet)
    case StealSlot(t) => Outcome(s.(thieves := s.thieves[i := StealCas(t, s.buf[Ring(t)])]), Quiet)
    case StealCas(t, a) =>
      var s' := s.(thieves := s.thieves[i := Resting]);
      if s.top == t then Outcome(s'.(top := t + 1, h := Return(ClaimFirst(s.h), a)), Got(a)) else Outcome(s', Empty)
  }

  /** One atomic operation; a disabled action changes nothing. */
  function Step(s: State, act: Action): Outcome
    requires |s.buf| == CAPACITY
  {
    match act
    case StartPush(a) => Outcome(if s.owner == Idle then s.(owner := PushTop(a, s.bottom)) else s, Quiet)
    case StartPop => Outcome(if s.owner == Idle then s.(owner := PopBottom(s.bottom)) else s, Quiet)
    case OwnerStep => OwnerStep(s)
    case ThiefStep(i) => if i < |s.thieves| then ThiefStep(s, i) else Outcome(s, Quiet)
  }

  // ---- invariant ----

  /** One past the newest element that a thief may still take. */
  function End(s: State): nat
  {
    match s.owner
    case PopTop(b) => b + 1
    case PopUndo(b) => b + 1
    case PopSlot(b, t) => if t == b then b + 1 else b
    case PopCas(b, _) => b + 1
    case PopFix(b, _, _) => b + 1
    case _ => s.bottom
  }

  ghost predicate OwnerInv(s: State)
    requires |s.buf| == CAPACITY && s.top <= End(s) && |s.h.contents| == End(s) - s.top
  {
    match s.owner
    case Idle => s.h.claimed == multiset{}
    case PushTop(a, b) => b == s.bottom && s.h.claimed == multiset{}
    case PushSlot(a, b) => b == s.bottom && b - s.top < CAPACITY && s.h.claimed == multiset{}
    case PushBottom(a, b) => b == s.bottom && b - s.top < CAPACITY && s.buf[Ring(b)] == a && s.h.claimed == multiset{}
    case PopBottom(b) => b == s.bottom && s.h.claimed == multiset{}
    case PopTop(b) => b == s.bottom && s.h.claimed == multiset{}
    case PopUndo(b) => b == s.bottom && s.top == b + 1 && s.h.claimed == multiset{}
    case PopSlot(b, t) =>
      && b == s.bottom && t <= s.top && t <= b
      && s.h.claimed == if t < b then multiset{s.buf[Ring(b)]} else multiset{}
    case PopCas(b, a) => b == s.bottom && b <= s.top && (s.top == b ==> a == s.h.contents[0]) && s.h.claimed == multiset{}
    case PopFix(b, a, won) => b == s.bottom && s.top == b + 1 && s.h.claimed == if won then multiset{a} else multiset{}
  }

  ghost predicate ThiefInv(s: State, th: Thief)
  {
    match th
    case Resting => true
    case StealBottom(t) => t <= s.top
    case StealSlot(t) => t <= s.top && (t == s.top ==> s.h.contents != [])
    case StealCas(t, a) => t <= s.top && (t == s.top ==> s.h.contents != [] && a == s.h.contents[0])
  }

  ghost predicate SlotsInv(s: State)
    requires |s.buf| == CAPACITY && |s.h.contents| == End(s) - s.top
  {
    forall k :: 0 <= k < |s.h.contents| ==> s.buf[Ring(s.top + k)] == s.h.contents[k]
  }

  ghost predicate Inv(s: State)
  {
    && |s.buf| == CAPACITY
    && s.top <= End(s) && |s.h.contents| == End(s) - s.top <= CAPACITY
    && SlotsInv(s)
    && OwnerInv(s)
    && (forall i :: 0 <= i < |s.thieves| ==> ThiefInv(s, s.thieves[i]))
    && Conserved(s.h)
  }

  /** Every push has been returned, is still in the deque, or is claimed by one thread. */
  ghost predicate Conserved(h: History)
  {
    h.pushed == h.returned + multiset(h.contents) + h.claimed
  }

  lemma RingApart(i: nat, k: nat)
    requires 0 < k < CAPACITY
    ensures Ring(i) != Ring(i + k)
  {
  }

  lemma InitInv(s: State)
    requires Init(s)
    ensures Inv(s)
  {
  }

  lemma ConservedAppend(h: History, a: Actor)
    requires Conserved(h)
    ensures Conserved(Append(h, a))
  {
    assert multiset(h.contents + [a]) == multiset(h.contents) + multiset{a};
  }

  lemma ConservedClaimLast(h: History)
    requires Conserved(h)
    ensures Conserved(ClaimLast(h))
  {
    if h.contents != [] {
      var n := |h.contents| - 1;
      assert h.contents == h.contents[..n] + [h.contents[n]];
    }
  }

  lemma ConservedClaimFirst(h: History)
    requires Conserved(h)
    ensures Conserved(ClaimFirst(h))
  {
    if h.contents != [] { assert h.contents == [h.contents[0]] + h.contents[1..]; }
  }

  lemma ConservedReturn(h: History, a: Actor)
    requires Conserved(h) && a in h.claimed
    ensures Conserved(Return(h, a))
  {
  }

  lemma PushSlotInv(s: State)
    requires Inv(s) && s.owner.PushSlot?
    ensures Inv(OwnerStep(s).s)
  {
    hide Ring, ThiefInv, Conserved;
    var s' := OwnerStep(s).s;
    forall k | 0 <= k < |s.h.contents| ensures s'.buf[Ring(s.top + k)] == s.h.contents[k] {
      RingApart(s.top + k, s.owner.b - s.top - k);
    }
    forall i | 0 <= i < |s.thieves| ensures ThiefInv(s', s.thieves[i]) { ThiefKept(s, s', s.thieves[i]); }
  }

  /** A thief's knowledge survives any step that keeps top and the oldest element. */
  lemma ThiefKept(s: State, s': State, th: Thief)
    requires ThiefInv(s, th) && s.top <= s'.top
    requires s.top == s'.top && s.h.contents != [] ==> s'.h.contents != [] && s'.h.contents[0] == s.h.contents[0]
    ensures ThiefInv(s', th)
  {
  }

  lemma PushBottomInv(s: State)
    requires Inv(s) && s.owner.PushBottom?
    ensures Inv(OwnerStep(s).s)
  {
    hide Ring, ThiefInv, Conserved;
    var s' := OwnerStep(s).s;
    ConservedAppend(s.h, s.owner.a);
    forall k | 0 <= k < |s'.h.contents| ensures s'.buf[Ring(s'.top + k)] == s'.h.contents[k] {
      if k == |s.h.contents| { assert s'.top + k == s.owner.b; }
    }
    forall i | 0 <= i < |s.thieves| ensures ThiefInv(s', s.thieves[i]) { ThiefKept(s, s', s.thieves[i]); }
  }

  lemma PopTopInv(s: State)
    requires Inv(s) && s.owner.PopTop?
    ensures Inv(OwnerStep(s).s)
  {
    hide Ring, ThiefInv, Conserved;
    var s' := OwnerStep(s).s;
    if s.top < s.owner.b {
      var n := |s.h.contents| - 1;
      ConservedClaimLast(s.h);
      assert s.buf[Ring(s.top + n)] == s.h.contents[n] && s.top + n == s.owner.b;
      assert s'.h.claimed == multiset{s.h.contents[n]};
    }
    forall i | 0 <= i < |s.thieves| ensures ThiefInv(s', s.thieves[i]) { ThiefKept(s, s', s.thieves[i]); }
  }

  lemma PopSlotInv(s: State)
    requires Inv(s) && s.owner.PopSlot?
    ensures Inv(OwnerStep(s).s)
  {
    hide Ring, ThiefInv, Conserved;
    var s' := OwnerStep(s).s;
    if s.owner.t == s.owner.b {
      if s.top == s.owner.b { assert s.buf[Ring(s.top + 0)] == s.h.contents[0]; }
    } else {
      ConservedReturn(s.h, s.buf[Ring(s.owner.b)]);
    }
    forall i | 0 <= i < |s.thieves| ensures ThiefInv(s', s.thieves[i]) { ThiefKept(s, s', s.thieves[i]); }
  }

  lemma PopCasInv(s: State)
    requires Inv(s) && s.owner.PopCas?
    ensures Inv(OwnerStep(s).s)
  {
    hide Ring, ThiefInv, Conserved;
    var s' := OwnerStep(s).s;
    if s.top == s.owner.b { ConservedClaimFirst(s.h); }
    forall i | 0 <= i < |s.thieves| ensures ThiefInv(s', s.thieves[i]) { ThiefKept(s, s', s.thieves[i]); }
  }

  lemma OwnerStepInv(s: State)
    requires Inv(s)
    ensures Inv(OwnerStep(s).s)
  {
    hide Ring, ThiefInv, Inv, OwnerInv;
    assert |s.buf| == CAPACITY by { BufSize(s); }
    match s.owner {
      case PushSlot(a, b) => PushSlotInv(s);
      case PushBottom(a, b) => PushBottomInv(s);
      case PopTop(b) => PopTopInv(s);
      case PopSlot(b, t) => PopSlotInv(s);
      case PopCas(b, a) => PopCasInv(s);
      case _ => PlainOwnerStepInv(s);
    }
  }

  lemma PlainOwnerStepInv(s: State)
    requires Inv(s) && (s.owner.Idle? || s.owner.PushTop? || s.owner.PopBottom? || s.owner.PopUndo? || s.owner.PopFix?)
    ensures Inv(OwnerStep(s).s)
  {
    hide Ring, ThiefInv, Conserved;
    var s' := OwnerStep(s).s;
    if s.owner.PopFix? && s.owner.won { ConservedReturn(s.h, s.owner.a); }
    forall i | 0 <= i < |s.thieves| ensures ThiefInv(s', s.thieves[i]) { ThiefKept(s, s', s.thieves[i]); }
  }

  /** The oldest element is taken while the owner is anywhere in its own code. */
  lemma StealOwner(s: State, s': State)
    requires |s.buf| == CAPACITY && s.top <= End(s) && |s.h.contents| == End(s) - s.top && OwnerInv(s) && s.h.contents != []
    requires s' == s.(top := s.top + 1, thieves := s'.thieves, h := s'.h)
    requires s'.h.contents == s.h.contents[1..] && s'.h.claimed == s.h.claimed
    ensures End(s') == End(s) && OwnerInv(s')
  {
    hide Ring;
  }

  lemma StealSlots(s: State, s': State)
    requires |s.buf| == CAPACITY && |s.h.contents| == End(s) - s.top && SlotsInv(s) && s.h.contents != []
    requires s' == s.(top := s.top + 1, thieves := s'.thieves, h := s'.h) && s'.h.contents == s.h.contents[1..]
    ensures End(s') == End(s) && SlotsInv(s')
  {
    hide Ring, OwnerInv;
    forall k | 0 <= k < |s'.h.contents| ensures s'.buf[Ring(s'.top + k)] == s'.h.contents[k] {
      var l := k + 1;
      assert s.buf[Ring(s.top + l)] == s.h.contents[l];
      assert s'.top + k == s.top + l;
    }
  }

  lemma StealInv(s: State, i: nat)
    requires Inv(s) && i < |s.thieves| && s.thieves[i].StealCas? && s.top == s.thieves[i].t
    ensures Inv(ThiefStep(s, i).s)
    ensures s.h.contents != [] && ThiefStep(s, i).e == Got(s.h.contents[0])
  {
    hide Ring, ThiefInv, OwnerInv, SlotsInv, Conserved;
    var s' := ThiefStep(s, i).s;
    assert ThiefInv(s, s.thieves[i]);
    StealWins(s, s.thieves[i]);
    ConservedClaimFirst(s.h);
    ConservedReturn(ClaimFirst(s.h), s.h.contents[0]);
    assert s'.h.claimed == s.h.claimed;
    StealOwner(s, s');
    StealSlots(s, s');
    forall l | 0 <= l < |s'.thieves| ensures ThiefInv(s', s'.thieves[l]) {
      if l != i { ThiefKept(s, s', s.thieves[l]); } else { RestingInv(s'); }
    }
  }

  lemma StealWins(s: State, th: Thief)
    requires ThiefInv(s, th) && th.StealCas? && th.t == s.top
    ensures s.h.contents != [] && th.a == s.h.contents[0]
  {
  }

  lemma RestingInv(s: State)
    ensures ThiefInv(s, Resting)
  {
  }

  lemma ThievesOnly(s: State, ths: seq<Thief>)
    requires Inv(s) && forall i :: 0 <= i < |ths| ==> ThiefInv(s, ths[i])
    ensures Inv(s.(thieves := ths))
  {
    hide Ring, ThiefInv, Conserved;
    var s' := s.(thieves := ths);
    forall i | 0 <= i < |ths| ensures ThiefInv(s', ths[i]) { ThiefKept(s, s', ths[i]); }
  }

  lemma ThiefReads(s: State, i: nat)
    requires Inv(s) && i < |s.thieves| && !(s.thieves[i].StealCas? && s.top == s.thieves[i].t)
    ensures ThiefInv(s, ThiefStep(s, i).s.thieves[i])
  {
    hide Ring, Conserved;
    assert ThiefInv(s, s.thieves[i]);
    if s.thieves[i].StealSlot? && s.thieves[i].t == s.top { assert s.buf[Ring(s.top + 0)] == s.h.contents[0]; }
  }

  lemma ThiefStepInv(s: State, i: nat)
    requires Inv(s) && i < |s.thieves|
    ensures Inv(ThiefStep(s, i).s)
  {
    hide Ring, OwnerInv, SlotsInv, ThiefInv, Conserved;
    if s.thieves[i].StealCas? && s.top == s.thieves[i].t {
      StealInv(s, i);
    } else {
      ThiefReads(s, i);
      ThievesOnly(s, ThiefStep(s, i).s.thieves);
    }
  }

  lemma StepInv(s: State, act: Action)
    requires Inv(s)
    ensures Inv(Step(s, act).s)
  {
    hide Inv;
    assert |s.buf| == CAPACITY by { BufSize(s); }
    match act {
      case StartPush(a) => StartInv(s, act);
      case StartPop => StartInv(s, act);
      case OwnerStep => OwnerStepInv(s);
      case ThiefStep(i) => if i < |s.thieves| { ThiefStepInv(s, i); }
    }
  }

  lemma BufSize(s: State)
    requires Inv(s)
    ensures |s.buf| == CAPACITY
  {
  }

  lemma StartInv(s: State, act: Action)
    requires Inv(s) && (act.StartPush? || act.StartPop?)
    ensures Inv(Step(s, act).s)
  {
  }

  // ---- what the invariant means ----

  /** The state after any schedule. */
  ghost function Run(s: State, acts: seq<Action>): (r: State)
    requires |s.buf| == CAPACITY
    ensures |r.buf| == CAPACITY
    decreases |acts|
  {
    if acts == [] then s else Run(Step(s, acts[0]).s, acts[1..])
  }

  lemma {:induction false} RunInv(s: State, acts: seq<Action>)
    requires Inv(s)
    ensures |s.buf| == CAPACITY && Inv(Run(s, acts))
    decreases |acts|
  {
    BufSize(s);
    hide Inv;
    if acts != [] {
      StepInv(s, acts[0]);
      RunInv(Step(s, acts[0]).s, acts[1..]);
    }
  }

  /** In every schedule no push is returned twice and none is lost: what was pushed and not
      returned is still in the deque or already claimed by the owner. */
  lemma EachPushReturnedAtMostOnce(s: State, acts: seq<Action>)
    requires Init(s)
    ensures var h := Run(s, acts).h; h.pushed == h.returned + multiset(h.contents) + h.claimed && |h.claimed| <= 1
  {
    InitInv(s);
    RunInv(s, acts);
  }

  /** One atomic operation seen on the abstract deque. */
  ghost predicate AbstractStep(h: History, h': History, e: Event)
  {
    || (h' == h && !e.Got?)
    || (exists a :: h' == Append(h, a) && e == Quiet)
    || (h.contents != [] && h' == ClaimLast(h) && e == Quiet)
    || (h.contents != [] && h' == ClaimFirst(h) && e == Quiet)
    || (e.Got? && e.a in h.claimed && h' == Return(h, e.a))
    || (h.contents != [] && e == Got(h.contents[0]) && h' == Return(ClaimFirst(h), e.a))
  }

  lemma PushRefines(s: State)
    requires Inv(s) && (s.owner.PushTop? || s.owner.PushSlot? || s.owner.PushBottom?)
    ensures |s.buf| == CAPACITY && AbstractStep(s.h, OwnerStep(s).s.h, OwnerStep(s).e)
    ensures OwnerStep(s).e == Full ==> |s.h.contents| == CAPACITY
    ensures OwnerStep(s).e != Empty
  {
    hide Ring, SlotsInv, ThiefInv, Conserved;
    if s.owner.PushBottom? { assert OwnerStep(s).s.h == Append(s.h, s.owner.a); }
  }

  lemma PopRefines(s: State)
    requires Inv(s) && (s.owner.PopTop? || s.owner.PopSlot?)
    ensures |s.buf| == CAPACITY && AbstractStep(s.h, OwnerStep(s).s.h, OwnerStep(s).e) && OwnerStep(s).e != Full && OwnerStep(s).e != Empty
  {
    hide Ring, SlotsInv, ThiefInv, Conserved;
    if s.owner.PopSlot? && s.owner.t != s.owner.b { assert s.buf[Ring(s.owner.b)] in s.h.claimed; }
  }

  lemma PopEndRefines(s: State)
    requires Inv(s) && (s.owner.Idle? || s.owner.PopBottom? || s.owner.PopUndo? || s.owner.PopCas? || s.owner.PopFix?)
    ensures |s.buf| == CAPACITY && AbstractStep(s.h, OwnerStep(s).s.h, OwnerStep(s).e) && OwnerStep(s).e != Full
    ensures OwnerStep(s).e == Empty ==> s.h.contents == []
  {
    hide Ring, SlotsInv, ThiefInv, Conserved;
  }

  lemma OwnerRefines(s: State)
    requires Inv(s)
    ensures |s.buf| == CAPACITY && AbstractStep(s.h, OwnerStep(s).s.h, OwnerStep(s).e)
    ensures OwnerStep(s).e == Full ==> |s.h.contents| == CAPACITY
    ensures OwnerStep(s).e == Empty ==> s.h.contents == []
  {
    hide Inv, AbstractStep;
    BufSize(s);
    if s.owner.PushTop? || s.owner.PushSlot? || s.owner.PushBottom? { PushRefines(s); }
    else if s.owner.PopTop? || s.owner.PopSlot? { PopRefines(s); }
    else { PopEndRefines(s); }
  }

  lemma ThiefRefines(s: State, i: nat)
    requires Inv(s) && i < |s.thieves|
    ensures |s.buf| == CAPACITY && AbstractStep(s.h, ThiefStep(s, i).s.h, ThiefStep(s, i).e)
  {
    hide Ring, SlotsInv, OwnerInv, Conserved;
    assert ThiefInv(s, s.thieves[i]);
  }

  /** Every atomic operation is an operation of a plain double-ended queue or invisible to
      it: pushes and pops work on the newest end, steals take the oldest element, a failed
      push has seen a full deque and a failed pop an empty one. */
  lemma StepRefines(s: State, act: Action)
    requires Inv(s)
    ensures |s.buf| == CAPACITY && AbstractStep(s.h, Step(s, act).s.h, Step(s, act).e)
    ensures Step(s, act).e == Full ==> |s.h.contents| == CAPACITY
    ensures act.OwnerStep? && Step(s, act).e == Empty ==> s.h.contents == []
  {
    hide Inv, Append, ClaimLast, ClaimFirst, Return, Ring;
    BufSize(s);
    match act {
      case ThiefStep(i) => if i < |s.thieves| { ThiefRefines(s, i); }
      case OwnerStep => OwnerRefines(s);
      case _ =>
    }
  }

  /** A thief reports an empty deque only if it is empty, the owner is about to take the one
      element left, or another thread took the element it was after. */
  lemma ThiefEmpty(s: State, i: nat)
    requires Inv(s) && i < |s.thieves|
    ensures |s.buf| == CAPACITY
    ensures ThiefStep(s, i).e == Empty ==>
              || s.h.contents == []
              || (|s.h.contents| == 1 && s.bottom + 1 == End(s))
              || (s.thieves[i].StealBottom? && s.thieves[i].t < s.top)
              || (s.thieves[i].StealCas? && s.thieves[i].t < s.top)
  {
    hide Ring, SlotsInv, Conserved;
    assert ThiefInv(s, s.thieves[i]);
  }

  // ---- slots that are used again ----

  /** A thief past its emptiness test, with the position it wants. */
  predicate Aims(th: Thief, t: nat) { (th.StealSlot? || th.StealCas?) && th.t == t }

  lemma RingGap(t: nat, b: nat)
    requires t < b && Ring(t) == Ring(b)
    ensures b >= t + CAPACITY
  {
    if b < t + CAPACITY { RingApart(t, b - t); }
  }

  /** When the owner is about to write over the slot a thief aims at, the deque has moved on. */
  lemma OverwritingIsLate(s: State, i: nat, t: nat)
    requires Inv(s) && i < |s.thieves| && s.owner.PushSlot? && Aims(s.thieves[i], t) && Ring(s.owner.b) == Ring(t)
    ensures t < s.top
  {
    hide Ring, SlotsInv, Conserved;
    assert ThiefInv(s, s.thieves[i]);
    if t < s.owner.b { RingGap(t, s.owner.b); }
  }

  lemma TopGrows(s: State, act: Action)
    requires |s.buf| == CAPACITY
    ensures |Step(s, act).s.buf| == CAPACITY && s.top <= Step(s, act).s.top && |Step(s, act).s.thieves| == |s.thieves|
  {
    hide Ring;
  }

  lemma {:induction false} RunTopGrows(s: State, acts: seq<Action>)
    requires |s.buf| == CAPACITY
    ensures s.top <= Run(s, acts).top && |Run(s, acts).thieves| == |s.thieves|
    decreases |acts|
  {
    hide Step;
    if acts != [] {
      TopGrows(s, acts[0]);
      RunTopGrows(Step(s, acts[0]).s, acts[1..]);
    }
  }

  /** Slot reuse is harmless: once the slot a thief aims at has been written again, with another
      actor or with the very same one, that attempt never succeeds, whatever happens before it
      is made. */
  lemma StaleThiefFails(s0: State, before: seq<Action>, after: seq<Action>, i: nat, t: nat)
    requires Init(s0)
    requires var s := Run(s0, before);
             && |s.buf| == CAPACITY && i < |s.thieves|
             && s.owner.PushSlot? && Aims(s.thieves[i], t) && Ring(s.owner.b) == Ring(t)
    requires var r := Run(Step(Run(s0, before), Action.OwnerStep).s, after);
             i < |r.thieves| && r.thieves[i].StealCas? && r.thieves[i].t == t
    ensures var r := Run(Step(Run(s0, before), Action.OwnerStep).s, after);
            |r.buf| == CAPACITY && ThiefStep(r, i).e == Empty && ThiefStep(r, i).s.h == r.h
  {
    hide Inv, Ring, Step;
    InitInv(s0);
    RunInv(s0, before);
    var s := Run(s0, before);
    OverwritingIsLate(s, i, t);
    StepInv(s, Action.OwnerStep);
    TopGrows(s, Action.OwnerStep);
    RunTopGrows(Step(s, Action.OwnerStep).s, after);
  }

  function OwnerRun(s: State, n: nat): (r: State)
    requires |s.buf| == CAPACITY
    ensures |r.buf| == CAPACITY
    decreases n
  {
    if n == 0 then s else OwnerRun(OwnerStep(s).s, n - 1)
  }

  /** Whatever is in the deque, an undisturbed pop obtains the newest element. */
  lemma PopObtains(s: State) returns (n: nat)
    requires Inv(s) && |s.buf| == CAPACITY && s.owner == Idle && s.h.contents != []
    ensures var s' := OwnerRun(Step(s, StartPop).s, n);
            s'.owner == Idle && s'.h == Return(ClaimLast(s.h), s.h.contents[|s.h.contents| - 1])
  {
    hide Ring, ThiefInv, Conserved;
    var k := |s.h.contents| - 1;
    var s0 := Step(s, StartPop).s;
    var s1 := OwnerStep(s0).s;
    var s2 := OwnerStep(s1).s;
    assert s.buf[Ring(s.top + k)] == s.h.contents[k] && s.top + k == s.bottom - 1;
    assert s1.owner == PopTop(s.bottom - 1) && s2.owner == PopSlot(s.bottom - 1, s.top);
    if k > 0 {
      n := 3;
      PopOne(s2, s.h.contents[k]);
      assert OwnerRun(s0, 3) == OwnerRun(s1, 2) == OwnerRun(s2, 1);
    } else {
      n := 5;
      PopLast(s2, s.h.contents[0]);
      assert OwnerRun(s0, 5) == OwnerRun(s1, 4) == OwnerRun(s2, 3);
      assert s.h.contents[1..] == s.h.contents[..0];
    }
  }

  lemma PopOne(s: State, a: Actor)
    requires |s.buf| == CAPACITY && s.owner.PopSlot? && s.owner.t != s.owner.b && s.buf[Ring(s.owner.b)] == a
    ensures OwnerRun(s, 1) == s.(owner := Idle, h := Return(s.h, a))
  {
    assert OwnerRun(s, 1) == OwnerRun(OwnerStep(s).s, 0);
  }

  lemma PopLast(s: State, a: Actor)
    requires |s.buf| == CAPACITY && s.owner.PopSlot? && s.owner.t == s.owner.b == s.top && s.buf[Ring(s.owner.b)] == a
    ensures OwnerRun(s, 3) == s.(top := s.top + 1, bottom := s.top + 1, owner := Idle, h := Return(ClaimFirst(s.h), a))
  {
    var s1 := OwnerStep(s).s;
    var s2 := OwnerStep(s1).s;
    assert OwnerRun(s, 3) == OwnerRun(s1, 2) == OwnerRun(s2, 1) == OwnerRun(OwnerStep(s2).s, 0);
  }

  function ThiefRun(s: State, i: nat, n: nat): (r: State)
    requires |s.buf| == CAPACITY && i < |s.thieves|
    ensures |r.buf| == CAPACITY && |r.thieves| == |s.thieves|
    decreases n
  {
    if n == 0 then s else ThiefRun(ThiefStep(s, i).s, i, n - 1)
  }

  /** An undisturbed steal obtains the oldest element exactly if the owner is not taking it. */
  lemma StealObtains(s: State, i: nat)
    requires Inv(s) && |s.buf| == CAPACITY && i < |s.thieves| && s.thieves[i] == Resting && s.h.contents != []
    ensures ThiefRun(s, i, 4).h == Return(ClaimFirst(s.h), s.h.contents[0]) <==> s.top < s.bottom
  {
    hide Ring, OwnerInv, ThiefInv, Conserved, Return, ClaimFirst;
    var s1 := ThiefStep(s, i).s;
    var s2 := ThiefStep(s1, i).s;
    var s3 := ThiefStep(s2, i).s;
    var s4 := ThiefStep(s3, i).s;
    assert s1.thieves[i] == StealBottom(s.top);
    assert ThiefRun(s, i, 4) == ThiefRun(s1, i, 3) == ThiefRun(s2, i, 2);
    assert ThiefRun(s2, i, 2) == ThiefRun(s3, i, 1) == ThiefRun(s4, i, 0);
    assert s.buf[Ring(s.top + 0)] == s.h.contents[0];
    if s.top < s.bottom {
      assert s3.thieves[i] == StealCas(s.top, s.h.contents[0]);
    } else {
      assert s2.thieves[i] == Resting && s4.h == s.h;
      Shrinks(s.h);
    }
  }

  lemma Shrinks(h: History)
    requires h.contents != []
    ensures Return(ClaimFirst(h), h.contents[0]) != h
  {
    assert |ClaimFirst(h).contents| < |h.contents|;
  }

  // ---- nothing gets stuck ----

  lemma {:induction false} RunJoin(s: State, a: seq<Action>, b: seq<Action>)
    requires |s.buf| == CAPACITY
    ensures Run(s, a + b) == Run(Run(s, a), b)
    decreases |a|
  {
    hide Step;
    if a == [] {
      assert a + b == b;
    } else {
      assert (a + b)[1..] == a[1..] + b;
      TopGrows(s, a[0]);
      RunJoin(Step(s, a[0]).s, a[1..], b);
    }
  }

  function Times(n: nat): seq<Action> { if n == 0 then [] else [Action.OwnerStep] + Times(n - 1) }

  lemma {:induction false} OwnerActs(s: State, n: nat)
    requires |s.buf| == CAPACITY
    ensures Run(s, Times(n)) == OwnerRun(s, n)
    decreases n
  {
    if n > 0 {
      assert Times(n)[1..] == Times(n - 1);
      OwnerActs(OwnerStep(s).s, n - 1);
    }
  }

  /** Steps the owner is away from returning, at most. */
  function StepsLeft(o: Owner): nat
  {
    match o
    case Idle => 0
    case PushTop(_, _) => 3
    case PushSlot(_, _) => 2
    case PushBottom(_, _) => 1
    case PopBottom(_) => 5
    case PopTop(_) => 4
    case PopUndo(_) => 1
    case PopSlot(_, _) => 3
    case PopCas(_, _) => 2
    case PopFix(_, _, _) => 1
  }

  /** An owner left alone returns. */
  lemma {:induction false} OwnerReturns(s: State) returns (n: nat)
    requires |s.buf| == CAPACITY
    ensures OwnerRun(s, n).owner == Idle
    decreases StepsLeft(s.owner)
  {
    hide Ring;
    n := 0;
    if s.owner != Idle {
      var k := OwnerReturns(OwnerStep(s).s);
      n := k + 1;
    }
  }

  /** With the owner idle, pops empty the deque. */
  lemma {:induction false} Drain(s: State) returns (acts: seq<Action>)
    requires Inv(s) && s.owner == Idle
    ensures |s.buf| == CAPACITY && Inv(Run(s, acts)) && Run(s, acts).owner == Idle && Run(s, acts).h.contents == []
    decreases |s.h.contents|
  {
    hide Inv, Step, Return, ClaimLast;
    BufSize(s);
    acts := [];
    if s.h.contents != [] {
      var n := PopObtains(s);
      var pop := [StartPop] + Times(n);
      TopGrows(s, StartPop);
      OwnerActs(Step(s, StartPop).s, n);
      assert pop[1..] == Times(n);
      var r := Run(s, pop);
      RunInv(s, pop);
      PopShrinks(s.h);
      var rest := Drain(r);
      RunJoin(s, pop, rest);
      acts := pop + rest;
    }
  }

  lemma PopShrinks(h: History)
    requires h.contents != []
    ensures |Return(ClaimLast(h), h.contents[|h.contents| - 1]).contents| < |h.contents|
  {
  }

  lemma IdleInv(s: State)
    requires Inv(s) && s.owner == Idle && s.h.contents == []
    ensures s.h.claimed == multiset{} && s.h.returned == s.h.pushed
  {
  }

  /** Every pushed and not yet returned actor is still obtainable: from every reachable state
      some schedule returns them all. */
  lemma EveryPushObtainable(s0: State, before: seq<Action>) returns (acts: seq<Action>)
    requires Init(s0)
    ensures var r := Run(Run(s0, before), acts);
            r.h.contents == [] && r.h.claimed == multiset{} && r.h.returned == r.h.pushed
  {
    hide Inv, Step, Init;
    InitInv(s0);
    RunInv(s0, before);
    var s := Run(s0, before);
    BufSize(s);
    var n := OwnerReturns(s);
    OwnerActs(s, n);
    RunInv(s, Times(n));
    var rest := Drain(Run(s, Times(n)));
    RunJoin(s, Times(n), rest);
    acts := Times(n) + rest;
    IdleInv(Run(s, acts));
  }
}
