/** The dispatch loop over a chain of frames, its reduction quota and its reuse of frames for
    tail calls (src/vm/interpreter.c). */
module Interpreter {
  import opened Bytecode

  const STA_REDUCTION_QUOTA := 1000

  /** A frame with the method it runs. */
  datatype Activation = Activation(p: Program, f: Frame)

  /** What a send finds: a primitive that succeeds, a method with its argument and temporary
      slots filled in, or nothing. */
  datatype Target = Primitive(v: Value) | Method(callee: Activation) | Missing

  /** The rest of the system; lookup may depend on the whole history, the send included. Values
      other than SmallIntegers are objects, at addresses that are multiples of 16. */
  datatype Env = Env(w: World, lookup: seq<Event> -> Target, granule: Value -> nat)

  /** Innermost frame last. */
  datatype State = State(frames: seq<Activation>, trace: seq<Event>)

  datatype Run = Going(s: State) | Finished(v: Value, trace: seq<Event>) | Aborted

  function Last(frames: seq<Activation>): Activation
    requires frames != []
  {
    frames[|frames| - 1]
  }

  function Init(frames: seq<Activation>): seq<Activation>
    requires frames != []
  {
    frames[..|frames| - 1]
  }

  function PushOn(a: Activation, v: Value): Activation { a.(f := a.f.(stack := a.f.stack + [v])) }

  /** do_return: the value goes to the sender, or out. */
  function Return(frames: seq<Activation>, v: Value, trace: seq<Event>): Run
  {
    if frames == [] then Finished(v, trace) else Going(State(Init(frames) + [PushOn(Last(frames), v)], trace))
  }

  predicate AtReturn(a: Activation) { a.f.pc + 1 < |a.p.code| && a.p.code[a.f.pc] == OP_RETURN_TOP }

  /** The caller is done but for its return, has a sender, and its frame is large enough. */
  predicate Reuses(frames: seq<Activation>, caller: Activation, callee: Activation)
  {
    AtReturn(caller) && frames != [] && |callee.f.temps| <= |caller.f.temps|
  }

  function Invoke(env: Env, tco: bool, frames: seq<Activation>, caller: Activation, trace: seq<Event>): Run
  {
    match env.lookup(trace)
    case Primitive(v) => Going(State(frames + [PushOn(caller, v)], trace))
    case Method(callee) =>
      if tco && Reuses(frames, caller, callee) then Going(State(frames + [callee], trace))
      else Going(State(frames + [caller, callee], trace))
    case Missing => Aborted
  }

  function InstrAt(a: Activation): Instr { Decode(a.p.code, a.f.pc) }

  /** One turn of the loop. */
  function Step(env: Env, tco: bool, s: State): Run
    requires s.frames != []
  {
    var a, below := Last(s.frames), Init(s.frames);
    match Exec(env.w, a.p, a.f, s.trace, InstrAt(a))
    case Continue(f, t) => Going(State(below + [a.(f := f)], t))
    case Call(f, super, r, sel, args) => Invoke(env, tco, below, a.(f := f), s.trace + [Sent(super, r, sel, args)])
    case Answer(v) => Return(below, v, s.trace)
    case Fatal => Aborted
  }

  lemma StepKeepsFrames(env: Env, tco: bool, s: State)
    requires s.frames != []
    ensures Step(env, tco, s).Going? ==> Step(env, tco, s).s.frames != []
  {
  }

  /** k turns without interruption. */
  function Steps(env: Env, tco: bool, s: State, k: nat): Run
    decreases k
  {
    if k == 0 || s.frames == [] then Going(s)
    else
      var r := Step(env, tco, s);
      if r.Going? then Steps(env, tco, r.s, k - 1) else r
  }

  // ---- one quantum ----

  predicate IsSend(i: Instr) { i.Instr? && (i.op == OP_SEND || i.op == OP_SEND_SUPER) }

  predicate IsBack(i: Instr) { i.Instr? && i.op == OP_JUMP_BACK }

  function BytesLeft(frames: seq<Activation>): nat
  {
    if frames == [] || Last(frames).f.pc >= |Last(frames).p.code| then 0 else |Last(frames).p.code| - Last(frames).f.pc
  }

  datatype Quantum = Preempted(s: State) | Completed(v: Value, trace: seq<Event>) | Crashed

  /** Between two reductions the loop only moves forward in a method or leaves it. */
  lemma Forward(env: Env, tco: bool, s: State)
    requires s.frames != [] && Step(env, tco, s).Going?
    requires !IsSend(InstrAt(Last(s.frames))) && !IsBack(InstrAt(Last(s.frames)))
    ensures var s' := Step(env, tco, s).s;
            |s'.frames| < |s.frames| || (|s'.frames| == |s.frames| && BytesLeft(s'.frames) < BytesLeft(s.frames))
  {
    hide Pushed, Stored, Branched, Returned;
    var a := Last(s.frames);
    MovesForward(env.w, a.p, a.f, s.trace);
    var e := Exec(env.w, a.p, a.f, s.trace, InstrAt(a));
    if e.Continue? {
      var s' := Step(env, tco, s).s;
      assert Last(s'.frames) == a.(f := e.f);
    }
  }

  lemma MovesForward(w: World, p: Program, f: Frame, trace: seq<Event>)
    requires var i := Decode(p.code, f.pc); !IsSend(i) && !IsBack(i)
    ensures var e := Exec(w, p, f, trace, Decode(p.code, f.pc));
            && !e.Call? && (e.Continue? ==> e.f.pc > f.pc && f.pc < |p.code|)
  {
  }

  /** The loop from a given reduction count. A send is counted before it is executed, so that a
      preempted one is executed by the next quantum; a backward jump is counted after. */
  function Interpret(env: Env, s: State, reductions: nat): Quantum
    requires s.frames != [] && reductions < STA_REDUCTION_QUOTA
    decreases STA_REDUCTION_QUOTA - reductions, |s.frames|, BytesLeft(s.frames)
  {
    var i := InstrAt(Last(s.frames));
    if IsSend(i) && reductions + 1 == STA_REDUCTION_QUOTA then Preempted(s)
    else
      var r := Step(env, true, s);
      match r
      case Finished(v, t) => Completed(v, t)
      case Aborted => Crashed
      case Going(s') =>
        StepKeepsFrames(env, true, s);
        if IsBack(i) && reductions + 1 == STA_REDUCTION_QUOTA then Preempted(s')
        else if IsSend(i) || IsBack(i) then Interpret(env, s', reductions + 1)
        else Forward(env, true, s); Interpret(env, s', reductions)
  }

  lemma InterpretUnfolds(env: Env, s: State, reductions: nat)
    requires s.frames != [] && reductions < STA_REDUCTION_QUOTA
    ensures var i, r := InstrAt(Last(s.frames)), Step(env, true, s);
            var n := if IsSend(i) || IsBack(i) then reductions + 1 else reductions;
            && (r.Going? ==> r.s.frames != [])
            && Interpret(env, s, reductions)
               == if IsSend(i) && n == STA_REDUCTION_QUOTA then Preempted(s)
                  else match r
                    case Finished(v, t) => Completed(v, t)
                    case Aborted => Crashed
                    case Going(s') => if n == STA_REDUCTION_QUOTA then Preempted(s') else Interpret(env, s', n)
    ensures var i, r := InstrAt(Last(s.frames)), Step(env, true, s);
            r.Going? && !IsSend(i) && !IsBack(i) ==>
              |r.s.frames| < |s.frames| || (|r.s.frames| == |s.frames| && BytesLeft(r.s.frames) < BytesLeft(s.frames))
  {
    hide Step, Last, BytesLeft;
    StepKeepsFrames(env, true, s);
    var i, r := InstrAt(Last(s.frames)), Step(env, true, s);
    if r.Going? && !IsSend(i) && !IsBack(i) { Forward(env, true, s); }
  }

  // ---- what the loop returns ----

  const WORDS := 0x1_0000_0000_0000_0000

  /** STA_OOP_PREEMPTED: the word in which all bits are set. */
  const PREEMPTED := WORDS - 1

  /** 63-bit signed integers are the values that have a tagged word. */
  predicate Representable(v: Value) { v.Int? ==> -0x4000_0000_0000_0000 <= v.n < 0x4000_0000_0000_0000 }

  /** STA_SMALLINT_OOP and object addresses. */
  function OopOf(env: Env, v: Value): nat
  {
    if v.Int? then (2 * v.n + 1) % WORDS else env.granule(v) * 16
  }

  /** One integer has the very word that reports preemption. */
  lemma SentinelIsMinusOne(env: Env, v: Value)
    requires Representable(v)
    ensures OopOf(env, v) == PREEMPTED <==> v == Int(-1)
  {
    if v.Int? {
      assert v.n < 0 ==> (2 * v.n + 1) % WORDS == 2 * v.n + 1 + WORDS;
      assert v.n >= 0 ==> (2 * v.n + 1) % WORDS == 2 * v.n + 1;
    }
  }

  /** What the caller of the loop makes of it. */
  datatype Report = Again | Result(v: Value) | Abort

  function Reported(env: Env, q: Quantum): Report
  {
    match q
    case Preempted(_) => Again
    case Completed(v, _) => if OopOf(env, v) == PREEMPTED then Again else Result(v)
    case Crashed => Abort
  }

  /** An actor between quanta: the frame chain that is saved and resumed. */
  class Actor {
    var frames: seq<Activation>
    var trace: seq<Event>

    constructor (frames: seq<Activation>, trace: seq<Event>)
      ensures this.frames == frames && this.trace == trace
    {
      this.frames, this.trace := frames, trace;
    }

    ghost function Saved(): State
      reads this
    {
      State(frames, trace)
    }

    /** interpret_loop_ex on behalf of the scheduler. It terminates whatever the bytecode. */
    method RunQuantum(env: Env) returns (q: Quantum)
      requires frames != []
      modifies this
      ensures q == Interpret(env, old(Saved()), 0)
      ensures q.Preempted? ==> Saved() == q.s && frames != []
    {
      hide Step, Last, BytesLeft, Interpret, InstrAt;
      var reductions := 0;
      while true
        invariant frames != [] && reductions < STA_REDUCTION_QUOTA
        invariant Interpret(env, Saved(), reductions) == Interpret(env, old(Saved()), 0)
        decreases STA_REDUCTION_QUOTA - reductions, |frames|, BytesLeft(frames)
      {
        var s := State(frames, trace);
        InterpretUnfolds(env, s, reductions);
        var i := InstrAt(Last(frames));
        if IsSend(i) {
          reductions := reductions + 1;
          if reductions >= STA_REDUCTION_QUOTA { return Preempted(s); }
        }
        var r := Step(env, true, s);
        if r.Finished? { return Completed(r.v, r.trace); }
        if r.Aborted? { return Crashed; }
        frames, trace := r.s.frames, r.s.trace;
        if IsBack(i) {
          reductions := reductions + 1;
          if reductions >= STA_REDUCTION_QUOTA { return Preempted(r.s); }
        }
      }
    }

    /** sta_interpret_actor and sta_interpret_resume: the loop returns a single word, and the
        caller tells preemption from a result by comparing it with the sentinel. */
    method Resume(env: Env) returns (r: Report)
      requires frames != []
      modifies this
      ensures r == Reported(env, Interpret(env, old(Saved()), 0))
      ensures Interpret(env, old(Saved()), 0).Preempted? ==> Saved() == Interpret(env, old(Saved()), 0).s && frames != []
    {
      hide Interpret;
      var q := RunQuantum(env);
      if q.Crashed? { return Abort; }
      var word := if q.Preempted? then PREEMPTED else OopOf(env, q.v);
      if word == PREEMPTED { return Again; }
      r := Result(q.v);
    }
  }

  // ---- quanta and uninterrupted runs ----

  ghost predicate Reaches(env: Env, tco: bool, s: State, n: nat, q: Quantum)
  {
    match q
    case Preempted(s') => s'.frames != [] && Steps(env, tco, s, n) == Going(s')
    case Completed(v, t) => Steps(env, tco, s, n) == Finished(v, t)
    case Crashed => Steps(env, tco, s, n) == Aborted
  }

  /** A quantum is so many turns of the uninterrupted loop; one that is preempted has done at
      least one turn for every reduction but the last. */
  lemma {:induction false} QuantumRuns(env: Env, s: State, reductions: nat) returns (n: nat)
    requires s.frames != [] && reductions < STA_REDUCTION_QUOTA
    ensures Reaches(env, true, s, n, Interpret(env, s, reductions))
    ensures Interpret(env, s, reductions).Preempted? ==> n + reductions >= STA_REDUCTION_QUOTA - 1
    decreases STA_REDUCTION_QUOTA - reductions, |s.frames|, BytesLeft(s.frames)
  {
    hide Step, Last, BytesLeft;
    var i := InstrAt(Last(s.frames));
    if IsSend(i) && reductions + 1 == STA_REDUCTION_QUOTA {
      n := 0;
    } else {
      var r := Step(env, true, s);
      n := 1;
      if r.Going? {
        StepKeepsFrames(env, true, s);
        assert Steps(env, true, r.s, 0) == Going(r.s);
        if IsBack(i) && reductions + 1 == STA_REDUCTION_QUOTA {
        } else if IsSend(i) || IsBack(i) {
          n := QuantumRuns(env, r.s, reductions + 1);
          n := n + 1;
        } else {
          Forward(env, true, s);
          n := QuantumRuns(env, r.s, reductions);
          n := n + 1;
        }
      }
    }
  }

  /** Quantum after quantum, each resuming where the one before was preempted. */
  function Quanta(env: Env, s: State, count: nat): Quantum
    decreases count
  {
    if count == 0 || s.frames == [] then Preempted(s)
    else
      var q := Interpret(env, s, 0);
      if q.Preempted? then Quanta(env, q.s, count - 1) else q
  }

  lemma {:induction false} Chain(env: Env, tco: bool, s: State, k: nat, s': State, l: nat)
    requires Steps(env, tco, s, k) == Going(s')
    ensures Steps(env, tco, s, k + l) == Steps(env, tco, s', l)
    decreases k
  {
    hide Step;
    if k > 0 && s.frames != [] { Chain(env, tco, Step(env, tco, s).s, k - 1, s', l); }
  }

  lemma {:induction false} QuantaRun(env: Env, s: State, count: nat) returns (n: nat)
    requires s.frames != []
    ensures Reaches(env, true, s, n, Quanta(env, s, count))
    ensures Quanta(env, s, count).Preempted? ==> n >= count * (STA_REDUCTION_QUOTA - 1)
    decreases count
  {
    hide Steps, Interpret;
    n := 0;
    if count == 0 {
      NoSteps(env, true, s);
    } else {
      n := QuantumRuns(env, s, 0);
      var q := Interpret(env, s, 0);
      if q.Preempted? {
        var l := QuantaRun(env, q.s, count - 1);
        Chain(env, true, s, n, q.s, l);
        n := n + l;
      }
    }
  }

  lemma NoSteps(env: Env, tco: bool, s: State)
    ensures Steps(env, tco, s, 0) == Going(s)
  {
  }

  lemma {:induction false} StillGoing(env: Env, tco: bool, s: State, k: nat, n: nat)
    requires Steps(env, tco, s, k).Going? && n <= k
    ensures Steps(env, tco, s, n).Going?
    decreases n
  {
    hide Step;
    if n > 0 && s.frames != [] { StillGoing(env, tco, Step(env, tco, s).s, k - 1, n - 1); }
  }

  lemma {:induction false} OneEnd(env: Env, tco: bool, s: State, k: nat, n: nat)
    requires !Steps(env, tco, s, k).Going? && !Steps(env, tco, s, n).Going?
    ensures Steps(env, tco, s, k) == Steps(env, tco, s, n)
    decreases k
  {
    hide Step;
    if Step(env, tco, s).Going? { OneEnd(env, tco, Step(env, tco, s).s, k - 1, n - 1); }
  }

  function Outcome(r: Run): Quantum
    requires !r.Going?
  {
    match r case Finished(v, t) => Completed(v, t) case Aborted => Crashed
  }

  /** Chained quanta complete with a value and history exactly if the uninterrupted loop does,
      and abort exactly if it does. */
  lemma QuantaComplete(env: Env, s: State, end: Run)
    requires s.frames != [] && !end.Going?
    ensures (exists count: nat :: Quanta(env, s, count) == Outcome(end)) <==> (exists n: nat :: Steps(env, true, s, n) == end)
  {
    hide Steps, Quanta;
    if count: nat :| Quanta(env, s, count) == Outcome(end) {
      var n := QuantaRun(env, s, count);
    }
    if n: nat :| Steps(env, true, s, n) == end {
      var l := QuantaRun(env, s, n + 1);
      if Quanta(env, s, n + 1).Preempted? {
        StillGoing(env, true, s, l, n);
      } else {
        OneEnd(env, true, s, n, l);
        assert Quanta(env, s, n + 1) == Outcome(end);
      }
    }
  }

  // ---- what becomes of a message ----

  /** A message is being worked on, was answered, aborted the whole process, or was lost: reported
      as preempted with no frame to resume, so that its reply is never routed. */
  datatype Service = Pending(s: State) | Answered(v: Value, trace: seq<Event>) | Broken | LostReply

  /** The scheduler resumes the actor as long as it is told to. */
  function Serve(env: Env, s: State, count: nat): Service
    decreases count
  {
    if count == 0 || s.frames == [] then Pending(s)
    else
      var q := Interpret(env, s, 0);
      match Reported(env, q)
      case Again => if q.Preempted? then Serve(env, q.s, count - 1) else LostReply
      case Result(v) => Answered(v, q.trace)
      case Abort => Broken
  }

  function ServiceOf(env: Env, q: Quantum): Service
  {
    match q
    case Preempted(s) => Pending(s)
    case Completed(v, t) => if OopOf(env, v) == PREEMPTED then LostReply else Answered(v, t)
    case Crashed => Broken
  }

  lemma {:induction false} ServeIsQuanta(env: Env, s: State, count: nat)
    ensures Serve(env, s, count) == ServiceOf(env, Quanta(env, s, count))
    decreases count
  {
    hide Interpret, OopOf;
    if count > 0 && s.frames != [] {
      var q := Interpret(env, s, 0);
      if q.Preempted? { ServeIsQuanta(env, q.s, count - 1); }
    }
  }

  /** Preemption is invisible except for one value: a message is answered with v exactly if the
      uninterrupted loop finishes with v and v is not -1. It aborts exactly if the loop does. */
  lemma PreemptionIsInvisible(env: Env, s: State, v: Value, t: seq<Event>)
    requires s.frames != [] && Representable(v)
    ensures (exists count: nat :: Serve(env, s, count) == Answered(v, t))
            <==> (exists n: nat :: Steps(env, true, s, n) == Finished(v, t)) && v != Int(-1)
    ensures (exists count: nat :: Serve(env, s, count) == Broken) <==> (exists n: nat :: Steps(env, true, s, n) == Aborted)
  {
    hide Steps, Quanta, Serve, OopOf;
    ServedIff(env, s, v, t);
    QuantaComplete(env, s, Finished(v, t));
    QuantaComplete(env, s, Aborted);
    assert Outcome(Finished(v, t)) == Completed(v, t) && Outcome(Aborted) == Crashed;
  }

  lemma ServedIff(env: Env, s: State, v: Value, t: seq<Event>)
    requires Representable(v)
    ensures (exists count: nat :: Serve(env, s, count) == Answered(v, t))
            <==> (exists count: nat :: Quanta(env, s, count) == Completed(v, t)) && v != Int(-1)
    ensures (exists count: nat :: Serve(env, s, count) == Broken) <==> (exists count: nat :: Quanta(env, s, count) == Crashed)
  {
    hide Quanta, Serve, OopOf;
    SentinelIsMinusOne(env, v);
    if count: nat :| Serve(env, s, count) == Answered(v, t) {
      ServeIsQuanta(env, s, count);
      assert Quanta(env, s, count) == Completed(v, t);
    }
    if v != Int(-1) && exists count: nat :: Quanta(env, s, count) == Completed(v, t) {
      var count: nat :| Quanta(env, s, count) == Completed(v, t);
      ServeIsQuanta(env, s, count);
    }
    if count: nat :| Serve(env, s, count) == Broken {
      ServeIsQuanta(env, s, count);
      assert Quanta(env, s, count) == Crashed;
    }
    if count: nat :| Quanta(env, s, count) == Crashed { ServeIsQuanta(env, s, count); }
  }

  /** And a run that finishes with -1 always loses its reply. */
  lemma MinusOneIsLost(env: Env, s: State, t: seq<Event>, n: nat) returns (count: nat)
    requires s.frames != [] && Steps(env, true, s, n) == Finished(Int(-1), t)
    ensures Serve(env, s, count) == LostReply
  {
    hide Steps, Quanta, Serve, OopOf;
    SentinelIsMinusOne(env, Int(-1));
    QuantaComplete(env, s, Finished(Int(-1), t));
    count :| Quanta(env, s, count) == Completed(Int(-1), t);
    ServeIsQuanta(env, s, count);
  }

  /** The method `^ -1`, run by itself. */
  lemma MinusOneWitness(env: Env, receiver: Value, t: seq<Event>)
    ensures var a := Activation(Program([OP_PUSH_MINUS_ONE, 0, OP_RETURN_TOP, 0], [], receiver), Frame(0, [], []));
            && Steps(env, true, State([a], t), 2) == Finished(Int(-1), t)
            && Interpret(env, State([a], t), 0) == Completed(Int(-1), t)
            && Serve(env, State([a], t), 1) == LostReply
  {
    var p := Program([OP_PUSH_MINUS_ONE, 0, OP_RETURN_TOP, 0], [], receiver);
    var s := State([Activation(p, Frame(0, [], []))], t);
    var s1 := State([Activation(p, Frame(2, [Int(-1)], []))], t);
    assert Init(s.frames) == [] && Init(s1.frames) == [];
    assert [] + [Int(-1)] == [Int(-1)];
    assert Exec(env.w, p, Frame(0, [], []), t, Decode(p.code, 0)) == Continue(Frame(2, [Int(-1)], []), t);
    assert Step(env, true, s) == Going(s1);
    assert Step(env, true, s1) == Finished(Int(-1), t);
    assert Steps(env, true, s, 2) == Steps(env, true, s1, 1);
    assert Interpret(env, s1, 0) == Completed(Int(-1), t);
    SentinelIsMinusOne(env, Int(-1));
  }

  // ---- reusing frames ----

  /** as is bs without some callers that had nothing left to do but return. */
  ghost predicate Trimmed(as_: seq<Activation>, bs: seq<Activation>)
    decreases |bs|
  {
    if bs == [] then as_ == []
    else
      || (as_ != [] && Last(as_) == Last(bs) && Trimmed(Init(as_), Init(bs)))
      || (AtReturn(Last(bs)) && Trimmed(as_, Init(bs)))
  }

  /** The same innermost frame, on trimmed chains. */
  ghost predicate Related(a: State, b: State)
  {
    && a.trace == b.trace && a.frames != [] && b.frames != []
    && Last(a.frames) == Last(b.frames) && Trimmed(Init(a.frames), Init(b.frames))
  }

  ghost predicate Matches(ra: Run, rb: Run)
  {
    if ra.Going? then rb.Going? && Related(ra.s, rb.s) else rb == ra
  }

  lemma Extend(below: seq<Activation>, x: Activation)
    ensures Last(below + [x]) == x && Init(below + [x]) == below
  {
  }

  lemma {:induction false} TrimmedSame(as_: seq<Activation>, bs: seq<Activation>, x: Activation)
    requires Trimmed(as_, bs)
    ensures Trimmed(as_ + [x], bs + [x])
    ensures AtReturn(x) ==> Trimmed(as_, bs + [x])
  {
    Extend(as_, x);
    Extend(bs, x);
  }

  /** A finished caller passes the value on. */
  lemma ReturnThrough(env: Env, below: seq<Activation>, d: Activation, v: Value, trace: seq<Event>)
    requires AtReturn(d)
    ensures Step(env, false, State(below + [PushOn(d, v)], trace)) == Return(below, v, trace)
  {
    Extend(below, PushOn(d, v));
  }

  /** The run that follows a result. */
  ghost function Follow(env: Env, r: Run, m: nat): Run { if r.Going? then Steps(env, false, r.s, m) else r }

  lemma {:induction false} Unwind(env: Env, as_: seq<Activation>, bs: seq<Activation>, v: Value, trace: seq<Event>) returns (m: nat)
    requires Trimmed(as_, bs)
    ensures Matches(Return(as_, v, trace), Follow(env, Return(bs, v, trace), m))
    decreases |bs|
  {
    hide Step, AtReturn, PushOn, Last;
    m := 0;
    if bs != [] {
      Extend(Init(bs), PushOn(Last(bs), v));
      if as_ != [] && Last(as_) == Last(bs) && Trimmed(Init(as_), Init(bs)) {
        Extend(Init(as_), PushOn(Last(as_), v));
      } else {
        m := Unwind(env, as_, Init(bs), v, trace);
        ReturnThrough(env, Init(bs), Last(bs), v, trace);
        m := m + 1;
      }
    }
  }

  lemma StepSim(env: Env, a: State, b: State) returns (m: nat)
    requires Related(a, b)
    ensures m >= 1 && Matches(Step(env, true, a), Steps(env, false, b, m))
  {
    hide Exec, Trimmed, AtReturn, Last, Init;
    m := 1;
    var x, ba, bb := Last(a.frames), Init(a.frames), Init(b.frames);
    var r := Step(env, false, b);
    assert Steps(env, false, b, 1) == if r.Going? then Steps(env, false, r.s, 0) else r;
    match Exec(env.w, x.p, x.f, a.trace, InstrAt(x)) {
      case Continue(f, t) =>
        Extend(ba, x.(f := f));
        Extend(bb, x.(f := f));
      case Call(f, super, rcv, sel, args) =>
        InvokeSim(env, ba, bb, x.(f := f), a.trace + [Sent(super, rcv, sel, args)]);
      case Answer(v) =>
        var l := Unwind(env, ba, bb, v, a.trace);
        m := 1 + l;
      case Fatal =>
    }
  }

  lemma InvokeSim(env: Env, ba: seq<Activation>, bb: seq<Activation>, caller: Activation, trace: seq<Event>)
    requires Trimmed(ba, bb)
    ensures Matches(Invoke(env, true, ba, caller, trace), Invoke(env, false, bb, caller, trace))
  {
    hide Trimmed, AtReturn, Last, Init;
    match env.lookup(trace) {
      case Primitive(v) =>
        Extend(ba, PushOn(caller, v));
        Extend(bb, PushOn(caller, v));
      case Method(callee) =>
        assert ba + [caller, callee] == ba + [caller] + [callee] && bb + [caller, callee] == bb + [caller] + [callee];
        Extend(ba, callee);
        Extend(ba + [caller], callee);
        Extend(bb + [caller], callee);
        TrimmedSame(ba, bb, caller);
      case Missing =>
    }
  }

  lemma {:induction false} RunSim(env: Env, a: State, b: State, n: nat) returns (m: nat)
    requires Related(a, b)
    ensures Matches(Steps(env, true, a, n), Steps(env, false, b, m))
    ensures Steps(env, true, a, n).Going? ==> m >= n
    decreases n
  {
    hide Step, Trimmed, Last, Init;
    m := 0;
    if n > 0 {
      m := StepSim(env, a, b);
      var r := Step(env, true, a);
      if r.Going? {
        var b' := Steps(env, false, b, m).s;
        var l := RunSim(env, r.s, b', n - 1);
        Chain(env, false, b, m, b', l);
        m := m + l;
      }
    }
  }

  lemma {:induction false} TrimmedSelf(s: seq<Activation>)
    ensures Trimmed(s, s)
  {
    if s != [] { TrimmedSelf(Init(s)); }
  }

  /** Reusing the frames of finished callers changes neither values nor histories, nor whether
      there is an end at all. */
  lemma TailCallsAreInvisible(env: Env, s: State, end: Run)
    requires s.frames != [] && !end.Going?
    ensures (exists n: nat :: Steps(env, true, s, n) == end) <==> (exists n: nat :: Steps(env, false, s, n) == end)
  {
    hide Steps, Trimmed;
    TrimmedSelf(Init(s.frames));
    if n: nat :| Steps(env, true, s, n) == end {
      var m := RunSim(env, s, s, n);
    }
    if n: nat :| Steps(env, false, s, n) == end {
      var m := RunSim(env, s, s, n + 1);
      if Steps(env, true, s, n + 1).Going? {
        StillGoing(env, false, s, m, n);
      } else {
        OneEnd(env, false, s, m, n);
      }
    }
  }
}
