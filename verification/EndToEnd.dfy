/** A compiled method as the scheduler runs it: the compiler's machine, in which sends are
    answered at once, on the frame-chain machine with quotas and reused frames. */
module EndToEnd {
  import opened Common
  import opened Bytecode
  import opened Source
  import opened Codegen
  import opened CodegenCorrect
  import C = CodegenProof
  import I = Interpreter
  import W = Witnesses
  import Emitter
  import A = Assignment

  /** A send is answered as the surroundings have it: by a primitive, or by a method that runs,
      sending and storing in turn, and returns. */
  ghost predicate AnswersAt(env: I.Env, c: Setup, t: seq<Event>)
  {
    match env.lookup(t)
    case Primitive(v) => v == c.w.reply(t) && c.w.effects(t) == []
    case Method(callee) =>
      exists n: nat :: I.Steps(env, false, I.State([callee], t), n) == I.Finished(c.w.reply(t), t + c.w.effects(t))
    case Missing => false
  }

  predicate EndsInSend(t: seq<Event>) { t != [] && t[|t| - 1].Sent? }

  ghost predicate Answers(env: I.Env, c: Setup) { env.w == c.w && forall t :: EndsInSend(t) ==> AnswersAt(env, c, t) }

  /** One activation, by itself. */
  function Alone(j: C.Job, m: C.M): I.State { I.State([I.Activation(j.p, C.FrameOf(m))], m.trace) }

  // ---- a callee above its callers ----

  /** A run above other frames is the run by itself, up to its return. */
  ghost function Above(below: seq<I.Activation>, r: I.Run): I.Run
  {
    match r
    case Going(s) => I.Going(I.State(below + s.frames, s.trace))
    case Finished(v, t) => I.Return(below, v, t)
    case Aborted => I.Aborted
  }

  lemma StepAbove(env: I.Env, below: seq<I.Activation>, s: I.State)
    requires s.frames != []
    ensures I.Step(env, false, I.State(below + s.frames, s.trace)) == Above(below, I.Step(env, false, s))
  {
    hide Exec;
    var all, rest, a := below + s.frames, I.Init(s.frames), I.Last(s.frames);
    assert I.Last(all) == a && I.Init(all) == below + rest;
    match Exec(env.w, a.p, a.f, s.trace, I.InstrAt(a)) {
      case Continue(f, t) => assert below + rest + [a.(f := f)] == below + (rest + [a.(f := f)]);
      case Call(f, super, r, sel, args) =>
        InvokeAbove(env, below, rest, a.(f := f), s.trace + [Sent(super, r, sel, args)]);
      case Answer(v) =>
        if rest == [] {
          assert below + rest == below;
        } else {
          assert I.Last(below + rest) == I.Last(rest) && I.Init(below + rest) == below + I.Init(rest);
          assert below + I.Init(rest) + [I.PushOn(I.Last(rest), v)] == below + (I.Init(rest) + [I.PushOn(I.Last(rest), v)]);
        }
      case Fatal =>
    }
  }

  lemma InvokeAbove(env: I.Env, below: seq<I.Activation>, rest: seq<I.Activation>, caller: I.Activation, t: seq<Event>)
    ensures I.Invoke(env, false, below + rest, caller, t) == Above(below, I.Invoke(env, false, rest, caller, t))
  {
    match env.lookup(t) {
      case Primitive(v) => assert below + rest + [I.PushOn(caller, v)] == below + (rest + [I.PushOn(caller, v)]);
      case Method(callee) => assert below + rest + [caller, callee] == below + (rest + [caller, callee]);
      case Missing =>
    }
  }

  lemma {:induction false} CalleeReturns(env: I.Env, below: seq<I.Activation>, s: I.State, n: nat, v: Value, t: seq<Event>) returns (k: nat)
    requires s.frames != [] && below != [] && I.Steps(env, false, s, n) == I.Finished(v, t)
    ensures k >= 1 && I.Steps(env, false, I.State(below + s.frames, s.trace), k) == I.Return(below, v, t)
    decreases n
  {
    hide I.Step;
    StepAbove(env, below, s);
    var r := I.Step(env, false, s);
    var all := I.State(below + s.frames, s.trace);
    if r.Going? {
      I.StepKeepsFrames(env, false, s);
      k := CalleeReturns(env, below, r.s, n - 1, v, t);
      k := k + 1;
    } else {
      k := 1;
      var q := I.Return(below, v, t);
      assert I.Steps(env, false, all, 1) == I.Steps(env, false, q.s, 0);
    }
  }

  // ---- one machine on the other ----

  ghost predicate Matches(j: C.Job, r: C.Run, q: I.Run)
  {
    match r
    case Going(m) => q == I.Going(Alone(j, m))
    case Halted(v, t) => q == I.Finished(v, t)
    case Aborted => q == I.Aborted
  }

  lemma StepMatches(env: I.Env, j: C.Job, m: C.M) returns (k: nat)
    requires Answers(env, j.c)
    ensures k >= 1 && Matches(j, C.Step(j, m), I.Steps(env, false, Alone(j, m), k))
  {
    hide Exec;
    k := 1;
    var s := Alone(j, m);
    var a := I.Last(s.frames);
    assert I.Init(s.frames) == [] && a == I.Activation(j.p, C.FrameOf(m));
    var q := I.Step(env, false, s);
    assert q.Going? ==> I.Steps(env, false, s, 1) == I.Steps(env, false, q.s, 0);
    match Exec(j.c.w, j.p, C.FrameOf(m), m.trace, Decode(j.p.code, m.pc)) {
      case Continue(f, t) => assert [] + [a.(f := f)] == [a.(f := f)];
      case Call(f, super, r, sel, args) =>
        var t := m.trace + [Sent(super, r, sel, args)];
        assert t[|t| - 1].Sent?;
        k := CallMatches(env, j, m, a.(f := f), t);
      case Answer(v) =>
      case Fatal =>
    }
  }

  /** A send, answered at once or by a callee that returns. */
  lemma CallMatches(env: I.Env, j: C.Job, m: C.M, caller: I.Activation, t: seq<Event>) returns (k: nat)
    requires Answers(env, j.c) && EndsInSend(t) && I.Step(env, false, Alone(j, m)) == I.Invoke(env, false, [], caller, t)
    ensures k >= 1
    ensures I.Steps(env, false, Alone(j, m), k) == I.Going(I.State([I.PushOn(caller, j.c.w.reply(t))], t + j.c.w.effects(t)))
  {
    hide I.Step, I.PushOn;
    var s, end := Alone(j, m), t + j.c.w.effects(t);
    assert AnswersAt(env, j.c, t);
    var after := I.State([I.PushOn(caller, j.c.w.reply(t))], end);
    match env.lookup(t) {
      case Primitive(v) =>
        k := 1;
        assert end == t && [] + [I.PushOn(caller, v)] == [I.PushOn(caller, v)];
        assert I.Steps(env, false, s, 1) == I.Steps(env, false, after, 0);
      case Method(callee) =>
        var n: nat :| I.Steps(env, false, I.State([callee], t), n) == I.Finished(j.c.w.reply(t), end);
        k := CalleeReturns(env, [caller], I.State([callee], t), n, j.c.w.reply(t), end);
        assert [] + [caller, callee] == [caller] + [callee];
        assert I.Init([caller]) == [] && [] + [I.PushOn(caller, j.c.w.reply(t))] == after.frames;
        k := k + 1;
    }
  }

  lemma {:induction false} RunMatches(env: I.Env, j: C.Job, m: C.M, n: nat) returns (k: nat)
    requires Answers(env, j.c)
    ensures Matches(j, C.Steps(j, m, n), I.Steps(env, false, Alone(j, m), k))
    ensures C.Steps(j, m, n).Going? ==> k >= n
    decreases n
  {
    hide I.Step, C.Step, Answers, I.Steps;
    k := 0;
    if n == 0 {
      I.NoSteps(env, false, Alone(j, m));
    } else {
      k := StepMatches(env, j, m);
      var r := C.Step(j, m);
      if r.Going? {
        var l := RunMatches(env, j, r.m, n - 1);
        I.Chain(env, false, Alone(j, m), k, Alone(j, r.m), l);
        k := k + l;
      }
    }
  }

  /** The two machines halt with the same answers after the same histories. */
  lemma SameAnswers(env: I.Env, j: C.Job, m: C.M, v: Value, t: seq<Event>)
    requires Answers(env, j.c)
    ensures (exists n: nat :: C.Steps(j, m, n) == C.Halted(v, t)) <==> (exists k: nat :: I.Steps(env, false, Alone(j, m), k) == I.Finished(v, t))
  {
    hide C.Steps, I.Steps, Answers;
    if n: nat :| C.Steps(j, m, n) == C.Halted(v, t) {
      var k := RunMatches(env, j, m, n);
    }
    if k: nat :| I.Steps(env, false, Alone(j, m), k) == I.Finished(v, t) {
      var l := RunMatches(env, j, m, k + 1);
      if C.Steps(j, m, k + 1).Going? {
        I.StillGoing(env, false, Alone(j, m), l, k);
      } else {
        I.OneEnd(env, false, Alone(j, m), k, l);
        assert C.Steps(j, m, k + 1) == C.Halted(v, t);
      }
    }
  }

  /** A message that runs a compiled method, in quanta and with frames reused, is answered with
      v after the history t exactly if that is what the source means and v is not -1. */
  lemma ServedAsMeant(env: I.Env, c: Setup, mn: MethodNode, args: seq<Value>, trace: seq<Event>, v: Value, t: seq<Event>)
    requires Compilable(c, mn) && DefinitelyAssigned(c, mn) && |args| == |mn.args| && Answers(env, c) && I.Representable(v)
    ensures (exists count: nat :: I.Serve(env, Alone(JobOf(c, mn), Start(c, mn, args, trace)), count) == I.Answered(v, t))
            <==> (exists fuel: nat :: EvalMethod(true, c, mn, args, trace, fuel) == Outcome.Answered(v, t)) && v != Int(-1)
  {
    hide EvalMethod, GenMethod, C.Steps, I.Steps, I.Serve, Answers, DefinitelyAssigned, Compilable, Start;
    var j, m := JobOf(c, mn), Start(c, mn, args, trace);
    var s := Alone(j, m);
    HaltsExactly(c, mn, args, trace, v, t);
    SameAnswers(env, j, m, v, t);
    I.TailCallsAreInvisible(env, s, I.Finished(v, t));
    I.PreemptionIsInvisible(env, s, v, t);
  }

  // ---- an instance: foo sends bar in tail position ----

  const TailCode := [OP_PUSH_RECEIVER, 0, OP_SEND, 0, OP_RETURN_TOP, 0]
  const OneCode := [OP_PUSH_ONE, 0, OP_RETURN_TOP, 0]

  function Selector(t: seq<Event>): string { if EndsInSend(t) then t[|t| - 1].selector else "" }

  function Receiver(t: seq<Event>): Value { if EndsInSend(t) then t[|t| - 1].recv else Nil }

  /** foo: ^self bar */
  function FooFrame(r: Value, f: Frame): I.Activation { I.Activation(Program(TailCode, [Sym("bar")], r), f) }

  /** bar: ^1 */
  function BarFrame(r: Value, f: Frame): I.Activation { I.Activation(Program(OneCode, [], r), f) }

  function BarSent(r: Value): Event { Sent(false, r, "bar", []) }

  function TailLookup(t: seq<Event>): I.Target
  {
    if Selector(t) == "foo" then I.Method(FooFrame(Receiver(t), Frame(0, [], [])))
    else if Selector(t) == "bar" then I.Method(BarFrame(Receiver(t), Frame(0, [], [])))
    else I.Primitive(Nil)
  }

  function TailReply(t: seq<Event>): Value { if Selector(t) == "foo" || Selector(t) == "bar" then Int(1) else Nil }

  function TailEffects(t: seq<Event>): seq<Event> { if Selector(t) == "foo" then [BarSent(Receiver(t))] else [] }

  function NoVar(t: seq<Event>, r: Value, i: nat): Value { Nil }

  function NoGlobal(t: seq<Event>, key: string): Value { Nil }

  function Granule(v: Value): nat { 1 }

  const TailWorld := World(TailReply, TailEffects, NoVar, NoGlobal)
  const TailEnv := I.Env(TailWorld, TailLookup, Granule)

  lemma BarArity()
    ensures Arity("bar") == 0 && "foo" != "bar"
  {
    assert "bar"[1..] == "ar" && "ar"[1..] == "r" && "r"[1..] == "";
    assert Colons("r") == 0 && Colons("ar") == 0 && Colons("bar") == 0;
    assert "foo"[0] != "bar"[0];
  }

  lemma PushesReceiver(w: World, p: Program, trace: seq<Event>)
    requires p.code == TailCode
    ensures Exec(w, p, Frame(0, [], []), trace, Decode(p.code, 0)) == Continue(Frame(2, [p.receiver], []), trace)
  {
    assert [] + [p.receiver] == [p.receiver];
  }

  lemma SendsFirstLiteral(w: World, p: Program, trace: seq<Event>, sel: string)
    requires p.code == TailCode && |p.lits| > 0 && p.lits[0] == Sym(sel) && Arity(sel) == 0
    ensures Exec(w, p, Frame(2, [p.receiver], []), trace, Decode(p.code, 2)) == Call(Frame(4, [], []), false, p.receiver, sel, [])
  {
    hide Arity;
    assert [p.receiver][..0] == [] && [p.receiver][1..] == [];
  }

  lemma AnswersTop(w: World, p: Program, trace: seq<Event>, v: Value)
    requires p.code == TailCode
    ensures Exec(w, p, Frame(4, [v], []), trace, Decode(p.code, 4)) == Answer(v)
  {
  }

  /** foo up to its send. */
  lemma FooSends(tco: bool, below: seq<I.Activation>, a: I.Activation, t: seq<Event>)
    requires a.p.code == TailCode && a.f == Frame(0, [], [])
    ensures I.Step(TailEnv, tco, I.State(below + [a], t)) == I.Going(I.State(below + [a.(f := Frame(2, [a.p.receiver], []))], t))
  {
    hide Exec;
    I.Extend(below, a);
    PushesReceiver(TailWorld, a.p, t);
  }

  lemma TailCall(tco: bool, below: seq<I.Activation>, a: I.Activation, t: seq<Event>, sel: string)
    requires a.p.code == TailCode && |a.p.lits| > 0 && a.p.lits[0] == Sym(sel) && Arity(sel) == 0 && a.f == Frame(2, [a.p.receiver], [])
    ensures I.Step(TailEnv, tco, I.State(below + [a], t))
            == I.Invoke(TailEnv, tco, below, a.(f := Frame(4, [], [])), t + [Sent(false, a.p.receiver, sel, [])])
  {
    hide Exec, Arity;
    I.Extend(below, a);
    SendsFirstLiteral(TailWorld, a.p, t, sel);
  }

  lemma BarPushes(p: Program, t: seq<Event>)
    requires p.code == OneCode
    ensures Exec(TailWorld, p, Frame(0, [], []), t, Decode(p.code, 0)) == Continue(Frame(2, [Int(1)], []), t)
    ensures Exec(TailWorld, p, Frame(2, [Int(1)], []), t, Decode(p.code, 2)) == Answer(Int(1))
  {
    assert [] + [Int(1)] == [Int(1)];
  }

  lemma BarRuns(r: Value, t: seq<Event>)
    ensures I.Steps(TailEnv, false, I.State([BarFrame(r, Frame(0, [], []))], t), 2) == I.Finished(Int(1), t)
  {
    hide Exec;
    var b, b1 := BarFrame(r, Frame(0, [], [])), BarFrame(r, Frame(2, [Int(1)], []));
    var s, s1 := I.State([b], t), I.State([b1], t);
    BarPushes(b.p, t);
    assert I.Init([b]) == [] && I.Init([b1]) == [] && [] + [b1] == [b1];
    assert I.Step(TailEnv, false, s) == I.Going(s1);
    assert I.Step(TailEnv, false, s1) == I.Finished(Int(1), t);
    BarSteps(s, s1, t);
  }

  lemma BarSteps(s: I.State, s1: I.State, t: seq<Event>)
    requires s.frames != [] && s1.frames != [] && I.Step(TailEnv, false, s) == I.Going(s1) && I.Step(TailEnv, false, s1) == I.Finished(Int(1), t)
    ensures I.Steps(TailEnv, false, s, 2) == I.Finished(Int(1), t)
  {
    hide I.Step;
    assert I.Steps(TailEnv, false, s, 2) == I.Steps(TailEnv, false, s1, 1);
  }

  /** foo sends bar, which is recorded, and passes its value on. */
  lemma FooRuns(r: Value, t: seq<Event>) returns (n: nat)
    ensures I.Steps(TailEnv, false, I.State([FooFrame(r, Frame(0, [], []))], t), n) == I.Finished(Int(1), t + [BarSent(r)])
  {
    hide I.Step, Arity;
    BarArity();
    var a := FooFrame(r, Frame(0, [], []));
    var a1, a2 := a.(f := Frame(2, [r], [])), a.(f := Frame(4, [], []));
    var u := t + [BarSent(r)];
    assert u[|u| - 1] == BarSent(r);
    var bar := BarFrame(r, Frame(0, [], []));
    assert TailLookup(u) == I.Method(bar);
    var s, s1, s2, s3 := I.State([a], t), I.State([a1], t), I.State([a2, bar], u), I.State([I.PushOn(a2, Int(1))], u);
    assert [] + [a] == [a] && [] + [a1] == [a1] && [] + [a2, bar] == [a2, bar] && [a2] + [bar] == [a2, bar];
    FooSends(false, [], a, t);
    TailCall(false, [], a1, t, "bar");
    BarRuns(r, u);
    var k := CalleeReturns(TailEnv, [a2], I.State([bar], u), 2, Int(1), u);
    assert I.Init([a2]) == [] && [] + [I.PushOn(a2, Int(1))] == s3.frames;
    assert I.Steps(TailEnv, false, s2, k) == I.Going(s3);
    FooAnswers(r, u);
    I.Chain(TailEnv, false, s2, k, s3, 1);
    TwoMore(s, s1, s2, k + 1);
    n := k + 3;
  }

  lemma FooAnswers(r: Value, u: seq<Event>)
    ensures I.Steps(TailEnv, false, I.State([I.PushOn(FooFrame(r, Frame(4, [], [])), Int(1))], u), 1) == I.Finished(Int(1), u)
  {
    hide Exec;
    var b := I.PushOn(FooFrame(r, Frame(4, [], [])), Int(1));
    assert [] + [Int(1)] == [Int(1)];
    assert b == FooFrame(r, Frame(4, [Int(1)], [])) && I.Init([b]) == [];
    AnswersTop(TailWorld, b.p, u, Int(1));
    assert I.Step(TailEnv, false, I.State([b], u)) == I.Finished(Int(1), u);
  }

  lemma TwoMore(s: I.State, s1: I.State, s2: I.State, k: nat)
    requires s.frames != [] && s1.frames != [] && I.Step(TailEnv, false, s) == I.Going(s1) && I.Step(TailEnv, false, s1) == I.Going(s2)
    ensures I.Steps(TailEnv, false, s, k + 2) == I.Steps(TailEnv, false, s2, k)
  {
    hide I.Step;
    assert I.Steps(TailEnv, false, s, k + 2) == I.Steps(TailEnv, false, s1, k + 1);
  }

  lemma TailAnswers(c: Setup)
    requires c.w == TailWorld
    ensures Answers(TailEnv, c)
  {
    hide I.Steps, FooFrame, BarFrame;
    BarArity();
    forall t | EndsInSend(t) ensures AnswersAt(TailEnv, c, t) {
      if Selector(t) == "foo" {
        var n := FooRuns(Receiver(t), t);
      } else if Selector(t) == "bar" {
        BarRuns(Receiver(t), t);
        assert t + [] == t;
      }
    }
  }

  /** ^self foo */
  const AnswersFoo := MethodNode([], [], [Return(W.Foo)])

  lemma FooGen(c: Setup)
    ensures GenMethod(c, AnswersFoo) == Out(TailCode, [Sym("foo")], true, 0, true)
  {
    hide Gen, GenStmts;
    W.FooGen(c, []);
    Emitter.ReturnUnfolds(c, Return(W.Foo), true, [], []);
    Emitter.StmtsLast(c, [Return(W.Foo)], false, [], []);
    assert [OP_PUSH_RECEIVER, 0] + [OP_SEND, 0] + [OP_RETURN_TOP, 0] == TailCode;
  }

  lemma FooMeans(c: Setup, trace: seq<Event>, fuel: nat)
    requires c.w == TailWorld
    ensures EvalMethod(true, c, AnswersFoo, [], trace, fuel) == Outcome.Answered(Int(1), trace + [Sent(false, c.receiver, "foo", [])] + [BarSent(c.receiver)])
  {
    hide FormOf, EvalStmts;
    var st, t := Store(map[], trace), trace + [Sent(false, c.receiver, "foo", [])];
    assert [] + Nils(0) == [] && Bind([], []) == map[];
    assert t[|t| - 1] == Sent(false, c.receiver, "foo", []);
    W.FooPlain();
    assert Eval(true, c, [], Self, st, fuel) == Done(c.receiver, st);
    assert EvalArgs(true, c, [], [], st, fuel) == Values([], st);
    assert Eval(true, c, [], W.Foo, st, fuel) == Done(Int(1), st.(trace := t + [BarSent(c.receiver)]));
    W.EvalOne(true, c, [], Return(W.Foo), st, fuel);
  }

  lemma FooAssigned(c: Setup)
    ensures DefinitelyAssigned(c, AnswersFoo)
  {
    hide FormOf;
    W.FooPlain();
    var a := NameSet([]);
    assert A.AfterNode(c, [], Self, a) == Some(a);
    assert A.AfterArgs(c, [], [], a) == Some(a);
    assert A.AfterNode(c, [], W.Foo, a) == A.AfterRest(c, [], W.Foo, a) == Some(a);
    assert A.AfterStmts(c, [], [Return(W.Foo)], a) == Some(a);
    assert AnswersFoo.args + AnswersFoo.temps == [];
  }

  /** A message that runs `^self foo` is answered 1 after the history foo, bar; on the way bar takes
      over the frame of foo, so that the chain is one frame shorter than without reuse. */
  lemma TailInstance(c: Setup, trace: seq<Event>) returns (count: nat, s: I.State)
    requires c.w == TailWorld
    ensures var start := Alone(JobOf(c, AnswersFoo), Start(c, AnswersFoo, [], trace));
            && I.Serve(TailEnv, start, count) == I.Answered(Int(1), trace + [Sent(false, c.receiver, "foo", [])] + [BarSent(c.receiver)])
            && I.Steps(TailEnv, true, start, 3) == I.Going(s) && |s.frames| == 2
    ensures I.Step(TailEnv, true, s).Going? && |I.Step(TailEnv, true, s).s.frames| == 2
    ensures I.Step(TailEnv, false, s).Going? && |I.Step(TailEnv, false, s).s.frames| == 3
  {
    hide I.Steps, I.Serve, EvalMethod, GenMethod, I.Step, DefinitelyAssigned;
    FooGen(c);
    var end := trace + [Sent(false, c.receiver, "foo", [])] + [BarSent(c.receiver)];
    FooMeans(c, trace, 0);
    FooAssigned(c);
    TailAnswers(c);
    ServedAsMeant(TailEnv, c, AnswersFoo, [], trace, Int(1), end);
    var start := Alone(JobOf(c, AnswersFoo), Start(c, AnswersFoo, [], trace));
    count :| I.Serve(TailEnv, start, count) == I.Answered(Int(1), end);
    s := TailReuse(c, trace);
  }

  lemma TailReuse(c: Setup, trace: seq<Event>) returns (s: I.State)
    requires c.w == TailWorld
    ensures I.Steps(TailEnv, true, Alone(JobOf(c, AnswersFoo), Start(c, AnswersFoo, [], trace)), 3) == I.Going(s) && |s.frames| == 2
    ensures I.Step(TailEnv, true, s).Going? && |I.Step(TailEnv, true, s).s.frames| == 2
    ensures I.Step(TailEnv, false, s).Going? && |I.Step(TailEnv, false, s).s.frames| == 3
  {
    hide GenMethod, I.Step, Arity, FormOf;
    FooGen(c);
    BarArity();
    W.FooPlain();
    var r := c.receiver;
    var a := I.Activation(Program(TailCode, [Sym("foo")] + [c.owner], r), Frame(0, [], []));
    var start := Alone(JobOf(c, AnswersFoo), Start(c, AnswersFoo, [], trace));
    assert Start(c, AnswersFoo, [], trace) == C.M(0, [], [], trace);
    assert start == I.State([a], trace);
    var a1, a2 := a.(f := Frame(2, [r], [])), a.(f := Frame(4, [], []));
    var t := trace + [Sent(false, r, "foo", [])];
    assert t[|t| - 1] == Sent(false, r, "foo", []);
    var foo := FooFrame(r, Frame(0, [], []));
    var foo1, foo2 := FooFrame(r, Frame(2, [r], [])), FooFrame(r, Frame(4, [], []));
    assert TailLookup(t) == I.Method(foo);
    FooSends(true, [], a, trace);
    TailCall(true, [], a1, trace, "foo");
    assert [] + [a] == [a] && [] + [a1] == [a1] && [] + [a2, foo] == [a2, foo] && [a2] + [foo] == [a2, foo] && [a2] + [foo1] == [a2, foo1];
    FooSends(true, [a2], foo, t);
    s := I.State([a2, foo1], t);
    ThreeSteps(start, I.State([a1], trace), I.State([a2, foo], t), s);
    var u := t + [BarSent(r)];
    assert u[|u| - 1] == BarSent(r);
    assert TailLookup(u) == I.Method(BarFrame(r, Frame(0, [], [])));
    TailCall(true, [a2], foo1, t, "bar");
    TailCall(false, [a2], foo1, t, "bar");
    assert I.Reuses([a2], foo2, BarFrame(r, Frame(0, [], [])));
  }

  lemma ThreeSteps(s: I.State, s1: I.State, s2: I.State, s3: I.State)
    requires s.frames != [] && s1.frames != [] && s2.frames != []
    requires I.Step(TailEnv, true, s) == I.Going(s1) && I.Step(TailEnv, true, s1) == I.Going(s2) && I.Step(TailEnv, true, s2) == I.Going(s3)
    ensures I.Steps(TailEnv, true, s, 3) == I.Going(s3)
  {
    hide I.Step;
    assert I.Steps(TailEnv, true, s, 3) == I.Steps(TailEnv, true, s1, 2);
    assert I.Steps(TailEnv, true, s1, 2) == I.Steps(TailEnv, true, s2, 1);
    assert I.Steps(TailEnv, true, s2, 1) == I.Steps(TailEnv, true, s3, 0);
  }
}
