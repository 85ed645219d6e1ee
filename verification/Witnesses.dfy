/** Methods that the compiler accepts and whose code does not do what they mean. */
module Witnesses {
  import opened Common
  import opened Bytecode
  import opened Source
  import opened Codegen
  import opened CodegenProof
  import opened CodegenCorrect
  import Emitter

  // ---- tools ----

  lemma Bytes(code: seq<nat>, pc: nat, x: nat, y: nat)
    requires pc + 1 < |code| && code[pc] == x && code[pc + 1] == y
    ensures CodeAt(code, pc, [x, y])
  {
  }

  lemma Then(j: Job, m0: M, k: nat, m: M, m': M)
    requires Steps(j, m0, k) == Going(m) && Steps(j, m, 1) == Going(m')
    ensures Steps(j, m0, k + 1) == Going(m')
  {
    hide Steps;
    Chain(j, m0, k, m, 1);
  }

  lemma Nothing(j: Job, m: M)
    ensures Steps(j, m, 0) == Going(m)
  {
  }

  function IfTrue(b: bool, block: Node): Node { Send(false, BoolLit(b), "ifTrue:", [block]) }

  lemma IfTrueForm(b: bool, block: Node)
    requires block.Block?
    ensures FormOf(IfTrue(b, block)) == If(true, block)
  {
  }

  /** A conditional with a literal condition, for its value. */
  lemma IfTrueCode(c: Setup, b: bool, block: Node, names: seq<string>, lits: seq<Value>)
    requires block.Block?
    ensures var g := GenBlock(c, block, true, names, lits);
            Gen(c, IfTrue(b, block), true, names, lits)
            == Out([if b then OP_PUSH_TRUE else OP_PUSH_FALSE, 0] + IfCode(true, g.bytes, true), g.lits,
                   g.good && |g.bytes| + 2 <= 255, Max(|names|, g.peak), g.clean)
  {
    hide FormOf, GenBlock, IfCode;
    IfTrueForm(b, block);
    Emitter.SendUnfolds(c, IfTrue(b, block), true, names, lits);
    BoolCode(c, b, names, lits);
    RestIf(c, IfTrue(b, block), block, names, lits);
  }

  lemma BoolCode(c: Setup, b: bool, names: seq<string>, lits: seq<Value>)
    ensures Gen(c, BoolLit(b), true, names, lits) == Out([if b then OP_PUSH_TRUE else OP_PUSH_FALSE, 0], lits, true, |names|, true)
  {
  }

  lemma RestIf(c: Setup, node: Node, block: Node, names: seq<string>, lits: seq<Value>)
    requires node.Send? && block.Block? && FormOf(node) == If(true, block)
    ensures var g := GenBlock(c, block, true, names, lits);
            GenRest(c, node, true, names, lits)
            == g.(bytes := IfCode(true, g.bytes, true), good := g.good && |g.bytes| + 2 <= 255)
  {
    hide FormOf, GenBlock, IfCode;
  }

  lemma OneStatement(c: Setup, temps: seq<string>, stmt: Node, names: seq<string>, lits: seq<Value>)
    ensures GenBlock(c, Block(temps, [stmt]), true, names, lits).bytes == Gen(c, stmt, true, names + temps, lits).bytes
    ensures GenBlock(c, Block(temps, [stmt]), true, names, lits).lits == Gen(c, stmt, true, names + temps, lits).lits
    ensures GenBlock(c, Block(temps, [stmt]), true, names, lits).peak == Gen(c, stmt, true, names + temps, lits).peak
    ensures GenBlock(c, Block(temps, [stmt]), true, names, lits).clean == Gen(c, stmt, true, names + temps, lits).clean
  {
    hide Gen;
  }

  // ---- a temporary that is not nil ----

  /** true ifTrue: [|a| a := 1]. true ifTrue: [|b| ^b] */
  const SetA := Block(["a"], [Assign("a", IntLit(1))])
  const AnswerB := Block(["b"], [Return(Var("b"))])
  const Leftover := MethodNode([], [], [IfTrue(true, SetA), IfTrue(true, AnswerB)])

  const LeftoverCode := [OP_PUSH_TRUE, 0, OP_JUMP_FALSE, 6, OP_PUSH_ONE, 0, OP_STORE_TEMP, 0, OP_JUMP, 2, OP_PUSH_NIL, 0, OP_POP, 0,
                         OP_PUSH_TRUE, 0, OP_JUMP_FALSE, 6, OP_PUSH_TEMP, 0, OP_RETURN_TOP, 0, OP_JUMP, 2, OP_PUSH_NIL, 0, OP_POP, 0,
                         OP_RETURN_SELF, 0]

  lemma SetCode(c: Setup, n: int, x: string, names: seq<string>, lits: seq<Value>)
    requires names == [x] && (n == 1 || n == 2)
    ensures Gen(c, Assign(x, IntLit(n)), true, names, lits)
            == Out([if n == 1 then OP_PUSH_ONE else OP_PUSH_TWO, 0, OP_STORE_TEMP, 0], lits, !Hidden(x), 1, true)
  {
    hide Hidden;
    Emitter.AssignUnfolds(c, Assign(x, IntLit(n)), true, names, lits);
    assert Find(names, x) == 0;
    assert Gen(c, IntLit(n), true, names, lits) == GenInt(n, names, lits);
  }

  lemma AnswerCode(c: Setup, x: string, names: seq<string>, lits: seq<Value>)
    requires x in names && Find(names, x) <= 255
    ensures var o := Gen(c, Return(Var(x)), true, names, lits);
            o.bytes == [OP_PUSH_TEMP, Find(names, x), OP_RETURN_TOP, 0] && o.lits == lits && o.peak == |names| && o.clean
  {
    hide Hidden, Find;
    Emitter.ReturnUnfolds(c, Return(Var(x)), true, names, lits);
    assert Gen(c, Var(x), true, names, lits) == GenName(c, x, OP_PUSH_TEMP, OP_PUSH_INSTVAR, OP_PUSH_GLOBAL, names, lits);
  }

  lemma TwoStatements(c: Setup, s: Node, t: Node, names: seq<string>, lits: seq<Value>)
    requires !s.Return? && !s.Assign? && !t.Return?
    ensures var a := Gen(c, s, true, names, lits);
            var b := Gen(c, t, true, names, a.lits);
            GenStmts(c, [s, t], true, names, lits) == Out(a.bytes + [OP_POP, 0] + b.bytes, b.lits, a.good && b.good, Max(a.peak, b.peak), a.clean && b.clean)
  {
    hide Gen, GenStmts;
    var a := Gen(c, s, true, names, lits);
    Emitter.StmtsUnfold(c, [s, t], true, names, lits);
    assert [s, t][1..] == [t];
    Emitter.StmtsLast(c, [t], true, names, a.lits);
  }

  lemma GoodBlock(c: Setup, x: string, stmt: Node, lits: seq<Value>)
    requires !Hidden(x) && Gen(c, stmt, true, [x], lits).good
    ensures GenBlock(c, Block([x], [stmt]), true, [], lits).good
  {
    hide Gen;
    assert [] + [x] == [x];
  }

  lemma SetAGen(c: Setup)
    ensures GenBlock(c, SetA, true, [], []) == Out([OP_PUSH_ONE, 0, OP_STORE_TEMP, 0], [], true, 1, true)
  {
    hide Gen, GenStmts, GenBlock, Find;
    assert [] + ["a"] == ["a"];
    OneStatement(c, ["a"], Assign("a", IntLit(1)), [], []);
    SetCode(c, 1, "a", ["a"], []);
    GoodBlock(c, "a", Assign("a", IntLit(1)), []);
  }

  lemma AnswerBGen(c: Setup)
    ensures GenBlock(c, AnswerB, true, [], []) == Out([OP_PUSH_TEMP, 0, OP_RETURN_TOP, 0], [], true, 1, true)
  {
    hide Gen, GenStmts, GenBlock;
    assert [] + ["b"] == ["b"];
    OneStatement(c, ["b"], Return(Var("b")), [], []);
    assert Find(["b"], "b") == 0;
    AnswerCode(c, "b", ["b"], []);
    AnswerGood(c, "b");
    GoodBlock(c, "b", Return(Var("b")), []);
  }

  lemma LeftoverGen(c: Setup)
    ensures GenMethod(c, Leftover) == Out(LeftoverCode, [], true, 1, true)
  {
    hide Gen, GenStmts, GenBlock, GenRest, FormOf, Find, IfCode;
    SetAGen(c);
    IfTrueCode(c, true, SetA, [], []);
    AnswerBGen(c);
    IfTrueCode(c, true, AnswerB, [], []);
    TwoStatements(c, IfTrue(true, SetA), IfTrue(true, AnswerB), [], []);
    LeftoverShape();
  }

  lemma LeftoverShape()
    ensures LeftoverCode == [OP_PUSH_TRUE, 0] + IfCode(true, [OP_PUSH_ONE, 0, OP_STORE_TEMP, 0], true) + [OP_POP, 0]
                            + ([OP_PUSH_TRUE, 0] + IfCode(true, [OP_PUSH_TEMP, 0, OP_RETURN_TOP, 0], true)) + [OP_POP, 0] + [OP_RETURN_SELF, 0]
  {
  }

  lemma AnswerGood(c: Setup, x: string)
    requires !Hidden(x)
    ensures Gen(c, Return(Var(x)), true, [x], []).good
  {
    hide Hidden;
    Emitter.ReturnUnfolds(c, Return(Var(x)), true, [x], []);
    assert Find([x], x) == 0;
  }

  lemma EvalTwo(nils: bool, c: Setup, names: seq<string>, s: Node, t: Node, st: Store, fuel: nat)
    requires Eval(nils, c, names, s, st, fuel).Done?
    ensures EvalStmts(nils, c, names, [s, t], st, fuel) == Eval(nils, c, names, t, Eval(nils, c, names, s, st, fuel).st, fuel)
  {
    hide Eval;
    assert [s, t][1..] == [t];
    EvalOne(nils, c, names, t, Eval(nils, c, names, s, st, fuel).st, fuel);
  }

  lemma EvalOne(nils: bool, c: Setup, names: seq<string>, s: Node, st: Store, fuel: nat)
    ensures EvalStmts(nils, c, names, [s], st, fuel) == Eval(nils, c, names, s, st, fuel)
  {
    hide Eval;
  }

  /** A conditional whose condition is true means its block. */
  lemma EvalIfTrue(nils: bool, c: Setup, names: seq<string>, b: bool, block: Node, st: Store, fuel: nat)
    requires block.Block?
    ensures Eval(nils, c, names, IfTrue(b, block), st, fuel) == if b then EvalBlock(nils, c, names, block, st, fuel) else Done(Nil, st)
  {
    hide EvalBlock, FormOf;
    IfTrueForm(b, block);
    assert Eval(nils, c, names, BoolLit(b), st, fuel) == Done(OfBool(b), st);
  }

  lemma EvalSet(nils: bool, c: Setup, names: seq<string>, x: string, n: int, st: Store, fuel: nat)
    requires x in names
    ensures Eval(nils, c, names, Assign(x, IntLit(n)), st, fuel) == Done(Int(n), st.(vars := st.vars[x := Int(n)]))
  {
    assert Eval(nils, c, names, IntLit(n), st, fuel) == Done(Int(n), st);
  }

  lemma EvalAnswer(nils: bool, c: Setup, names: seq<string>, x: string, st: Store, fuel: nat)
    requires x in names && x in st.vars
    ensures Eval(nils, c, names, Return(Var(x)), st, fuel) == Answered(st.vars[x], st.trace)
  {
    assert Eval(nils, c, names, Var(x), st, fuel) == Done(st.vars[x], st);
  }

  /** What the method means: the second block's temporary is nil. */
  lemma LeftoverMeans(c: Setup, trace: seq<Event>, fuel: nat)
    ensures EvalMethod(true, c, Leftover, [], trace, fuel) == Answered(Nil, trace)
  {
    hide Eval, EvalStmts;
    var st := Store(map[], trace);
    assert [] + Nils(0) == [] && Bind([], []) == map[];
    SetAMeans(c, st, fuel);
    AnswerBMeans(c, st, fuel);
    EvalTwo(true, c, [], IfTrue(true, SetA), IfTrue(true, AnswerB), st, fuel);
  }

  lemma SetAMeans(c: Setup, st: Store, fuel: nat)
    requires st.vars == map[]
    ensures Eval(true, c, [], IfTrue(true, SetA), st, fuel) == Done(Int(1), st)
  {
    hide Eval, EvalStmts;
    EvalIfTrue(true, c, [], true, SetA, st, fuel);
    var e := st.(vars := Entered(true, st.vars, ["a"]));
    EvalSet(true, c, [] + ["a"], "a", 1, e, fuel);
    EvalOne(true, c, [] + ["a"], Assign("a", IntLit(1)), e, fuel);
    assert Left(map[], e.vars["a" := Int(1)], ["a"]) == map[];
  }

  lemma AnswerBMeans(c: Setup, st: Store, fuel: nat)
    requires st.vars == map[]
    ensures Eval(true, c, [], IfTrue(true, AnswerB), st, fuel) == Answered(Nil, st.trace)
  {
    hide Eval, EvalStmts;
    EvalIfTrue(true, c, [], true, AnswerB, st, fuel);
    var e := st.(vars := Entered(true, st.vars, ["b"]));
    EvalAnswer(true, c, [] + ["b"], "b", e, fuel);
    EvalOne(true, c, [] + ["b"], Return(Var("b")), e, fuel);
  }

  /** The code answers 1: both temporaries live in slot 0 and nothing resets it. */
  lemma LeftoverRuns(c: Setup, trace: seq<Event>)
    ensures Steps(JobOf(c, Leftover), Start(c, Leftover, [], trace), 10) == Halted(Int(1), trace)
  {
    hide GenMethod, Steps, CodeAt;
    LeftoverGen(c);
    var j, m := JobOf(c, Leftover), Start(c, Leftover, [], trace);
    assert m == M(0, [], [Nil], trace);
    LeftoverFront(j.p.code);
    LeftoverBack(j.p.code);
    LeftoverFirst(j, m);
    LeftoverSecond(j, M(12, [Int(1)], [Int(1)], trace));
    Chain(j, m, 5, M(12, [Int(1)], [Int(1)], trace), 5);
  }

  /** A true condition, tested: two steps. */
  lemma EntersTrue(j: Job, m: M, distance: nat)
    requires CodeAt(j.p.code, m.pc, [OP_PUSH_TRUE, 0]) && CodeAt(j.p.code, m.pc + 2, [OP_JUMP_FALSE, distance]) && distance <= 255
    ensures Steps(j, m, 2) == Going(Pc(m, 4))
  {
    hide Steps, CodeAt;
    PushStep(j, m, OP_PUSH_TRUE, 0, True);
    var m1 := Pc(m, 2).(stack := m.stack + [True]);
    BranchStep(j, m1, false, distance);
    assert m1.stack[..|m1.stack| - 1] == m.stack;
    Then(j, m, 1, m1, Pc(m, 4));
  }

  /** 1 or 2 stored in slot 0, then a jump over two bytes: three steps. */
  lemma StoresAndJumps(j: Job, m: M, n: int)
    requires (n == 1 || n == 2) && |m.temps| > 0
    requires CodeAt(j.p.code, m.pc, [if n == 1 then OP_PUSH_ONE else OP_PUSH_TWO, 0])
    requires CodeAt(j.p.code, m.pc + 2, [OP_STORE_TEMP, 0]) && CodeAt(j.p.code, m.pc + 4, [OP_JUMP, 2])
    ensures Steps(j, m, 3) == Going(Pc(m, 8).(stack := m.stack + [Int(n)], temps := m.temps[0 := Int(n)]))
  {
    hide Steps, CodeAt;
    PushStep(j, m, if n == 1 then OP_PUSH_ONE else OP_PUSH_TWO, 0, Int(n));
    var m1 := Pc(m, 2).(stack := m.stack + [Int(n)]);
    StoreStep(j, m1, OP_STORE_TEMP, 0, false, Int(n), m.temps[0 := Int(n)], m.trace);
    var m2 := Pc(m1, 2).(temps := m.temps[0 := Int(n)]);
    Then(j, m, 1, m1, m2);
    JumpStep(j, m2, 2);
    Then(j, m, 2, m2, Pc(m2, 4));
  }

  /** Slot 0 is answered: two steps. */
  lemma AnswersSlot(j: Job, m: M)
    requires CodeAt(j.p.code, m.pc, [OP_PUSH_TEMP, 0]) && CodeAt(j.p.code, m.pc + 2, [OP_RETURN_TOP, 0]) && |m.temps| > 0
    ensures Steps(j, m, 2) == Halted(m.temps[0], m.trace)
  {
    hide Steps, CodeAt;
    PushStep(j, m, OP_PUSH_TEMP, 0, m.temps[0]);
    var m1 := Pc(m, 2).(stack := m.stack + [m.temps[0]]);
    AnswerStep(j, m1, OP_RETURN_TOP, m.temps[0]);
    Chain(j, m, 1, m1, 1);
  }

  lemma LeftoverFront(code: seq<nat>)
    requires code == LeftoverCode
    ensures CodeAt(code, 0, [OP_PUSH_TRUE, 0]) && CodeAt(code, 2, [OP_JUMP_FALSE, 6]) && CodeAt(code, 4, [OP_PUSH_ONE, 0])
    ensures CodeAt(code, 6, [OP_STORE_TEMP, 0]) && CodeAt(code, 8, [OP_JUMP, 2])
  {
    hide CodeAt;
    Bytes(code, 0, OP_PUSH_TRUE, 0);
    Bytes(code, 2, OP_JUMP_FALSE, 6);
    Bytes(code, 4, OP_PUSH_ONE, 0);
    Bytes(code, 6, OP_STORE_TEMP, 0);
    Bytes(code, 8, OP_JUMP, 2);
  }

  lemma LeftoverBack(code: seq<nat>)
    requires code == LeftoverCode
    ensures CodeAt(code, 12, [OP_POP, 0]) && CodeAt(code, 14, [OP_PUSH_TRUE, 0]) && CodeAt(code, 16, [OP_JUMP_FALSE, 6])
    ensures CodeAt(code, 18, [OP_PUSH_TEMP, 0]) && CodeAt(code, 20, [OP_RETURN_TOP, 0])
  {
    hide CodeAt;
    Bytes(code, 12, OP_POP, 0);
    Bytes(code, 14, OP_PUSH_TRUE, 0);
    Bytes(code, 16, OP_JUMP_FALSE, 6);
    Bytes(code, 18, OP_PUSH_TEMP, 0);
    Bytes(code, 20, OP_RETURN_TOP, 0);
  }

  lemma LeftoverFirst(j: Job, m: M)
    requires CodeAt(j.p.code, 0, [OP_PUSH_TRUE, 0]) && CodeAt(j.p.code, 2, [OP_JUMP_FALSE, 6]) && CodeAt(j.p.code, 4, [OP_PUSH_ONE, 0])
    requires CodeAt(j.p.code, 6, [OP_STORE_TEMP, 0]) && CodeAt(j.p.code, 8, [OP_JUMP, 2])
    requires m.pc == 0 && m.stack == [] && m.temps == [Nil]
    ensures Steps(j, m, 5) == Going(M(12, [Int(1)], [Int(1)], m.trace))
  {
    hide Steps, CodeAt;
    EntersTrue(j, m, 6);
    StoresAndJumps(j, Pc(m, 4), 1);
    Chain(j, m, 2, Pc(m, 4), 3);
  }

  lemma LeftoverSecond(j: Job, m: M)
    requires CodeAt(j.p.code, 12, [OP_POP, 0]) && CodeAt(j.p.code, 14, [OP_PUSH_TRUE, 0]) && CodeAt(j.p.code, 16, [OP_JUMP_FALSE, 6])
    requires CodeAt(j.p.code, 18, [OP_PUSH_TEMP, 0]) && CodeAt(j.p.code, 20, [OP_RETURN_TOP, 0])
    requires m.pc == 12 && m.stack == [Int(1)] && m.temps == [Int(1)]
    ensures Steps(j, m, 5) == Halted(Int(1), m.trace)
  {
    hide Steps, CodeAt;
    PopStep(j, m);
    var m1 := M(14, [], [Int(1)], m.trace);
    EntersTrue(j, m1, 6);
    AnswersSlot(j, Pc(m1, 4));
    Chain(j, m1, 2, Pc(m1, 4), 2);
    Chain(j, m, 1, m1, 4);
  }

  /** Everything but definite assignment holds of the method, and the code answers 1 where the
      source means nil. */
  lemma BlockTempsAreNotReset(c: Setup, trace: seq<Event>, fuel: nat)
    ensures Compilable(c, Leftover) && !DefinitelyAssigned(c, Leftover)
    ensures EvalMethod(true, c, Leftover, [], trace, fuel) == Answered(Nil, trace)
    ensures Steps(JobOf(c, Leftover), Start(c, Leftover, [], trace), 10) == Halted(Int(1), trace)
  {
    hide GenMethod, Steps, EvalMethod, Start, JobOf;
    LeftoverGen(c);
    LeftoverMeans(c, trace, fuel);
    LeftoverRuns(c, trace);
    if DefinitelyAssigned(c, Leftover) {
      EntryDoesNotMatter(c, Leftover, [], trace, 0);
      var k := MethodRuns(c, Leftover, [], trace, 0);
      LeftoverMeans(c, trace, 0);
      OneEnd(JobOf(c, Leftover), Start(c, Leftover, [], trace), k, 10);
    }
  }

  // ---- names that are declared twice ----

  /** Index of the last occurrence: the innermost declaration, which the language means. */
  function Innermost(names: seq<string>, name: string): (i: nat)
    requires name in names
    ensures i < |names| && names[i] == name && forall k :: i < k < |names| ==> names[k] != name
  {
    var n := |names| - 1;
    if names[n] == name then n else assert names == names[..n] + [names[n]]; Innermost(names[..n], name)
  }

  ghost predicate Once(names: seq<string>, name: string)
  {
    forall i, k :: 0 <= i < k < |names| ==> names[i] != name || names[k] != name
  }

  /** Name lookup finds the innermost declaration exactly if there is only one. The counters of
      timesRepeat: are declarations like any other. */
  lemma FindsInnermostIff(names: seq<string>, name: string)
    requires name in names
    ensures Find(names, name) == Innermost(names, name) <==> Once(names, name)
  {
    hide Find, Innermost;
    var f, i := Find(names, name), Innermost(names, name);
    if f == i {
      forall a, b | 0 <= a < b < |names| ensures names[a] != name || names[b] != name {
        assert a < f || b > i;
      }
    }
  }

  /** |x| x := 1. true ifTrue: [|x| x := 2]. ^x */
  const InnerX := Block(["x"], [Assign("x", IntLit(2))])
  const Shadowed := MethodNode([], ["x"], [Assign("x", IntLit(1)), IfTrue(true, InnerX), Return(Var("x"))])

  const ShadowedCode := [OP_PUSH_ONE, 0, OP_POP_STORE_TEMP, 0, OP_PUSH_TRUE, 0, OP_JUMP_FALSE, 6, OP_PUSH_TWO, 0, OP_STORE_TEMP, 0,
                         OP_JUMP, 2, OP_PUSH_NIL, 0, OP_POP, 0, OP_PUSH_TEMP, 0, OP_RETURN_TOP, 0]

  lemma SetCodeAgain(c: Setup, forValue: bool, n: int, names: seq<string>, lits: seq<Value>)
    requires (n == 1 || n == 2) && |names| > 0 && names[0] == "x"
    ensures var o := Gen(c, Assign("x", IntLit(n)), forValue, names, lits);
            o.bytes == [if n == 1 then OP_PUSH_ONE else OP_PUSH_TWO, 0, if forValue then OP_STORE_TEMP else OP_POP_STORE_TEMP, 0]
            && o.lits == lits && o.clean && o.peak == |names|
  {
    hide Hidden;
    Emitter.AssignUnfolds(c, Assign("x", IntLit(n)), forValue, names, lits);
    assert Find(names, "x") == 0;
    assert Gen(c, IntLit(n), true, names, lits) == GenInt(n, names, lits);
  }

  lemma ShadowedGen(c: Setup)
    ensures var o := GenMethod(c, Shadowed); o.bytes == ShadowedCode && o.lits == [] && o.peak == 2 && o.clean
  {
    hide Gen, GenStmts, GenBlock, IfCode, FormOf;
    var x := ["x"];
    assert [] + x == x && x + x == ["x", "x"];
    var s0, s1, s2 := Assign("x", IntLit(1)), IfTrue(true, InnerX), Return(Var("x"));
    SetCodeAgain(c, false, 1, x, []);
    SetCodeAgain(c, true, 2, x + x, []);
    OneStatement(c, x, Assign("x", IntLit(2)), x, []);
    IfTrueCode(c, true, InnerX, x, []);
    assert Find(x, "x") == 0;
    AnswerCode(c, "x", x, []);
    assert [s0, s1, s2][1..] == [s1, s2] && [s1, s2][1..] == [s2];
    Emitter.StmtsUnfold(c, [s0, s1, s2], false, x, []);
    Emitter.StmtsUnfold(c, [s1, s2], false, x, []);
    Emitter.StmtsLast(c, [s2], false, x, []);
    ShadowedShape();
  }

  lemma ShadowedShape()
    ensures ShadowedCode == [OP_PUSH_ONE, 0, OP_POP_STORE_TEMP, 0] + [] +
                            ([OP_PUSH_TRUE, 0] + IfCode(true, [OP_PUSH_TWO, 0, OP_STORE_TEMP, 0], true) + [OP_POP, 0] + [OP_PUSH_TEMP, 0, OP_RETURN_TOP, 0])
  {
  }

  lemma ShadowedMeans(c: Setup, trace: seq<Event>, fuel: nat)
    ensures EvalMethod(true, c, Shadowed, [], trace, fuel) == Answered(Int(1), trace)
  {
    hide Eval, EvalStmts;
    var x := ["x"];
    var s0, s1, s2 := Assign("x", IntLit(1)), IfTrue(true, InnerX), Return(Var("x"));
    var st := Store(map["x" := Nil], trace);
    assert [] + x == x && [] + Nils(1) == [Nil];
    assert Bind(x, [Nil]) == map["x" := Nil];
    EvalSet(true, c, x, "x", 1, st, fuel);
    var st1 := Store(map["x" := Int(1)], trace);
    assert st.vars["x" := Int(1)] == st1.vars;
    InnerXMeans(c, st1, fuel);
    EvalAnswer(true, c, x, "x", st1, fuel);
    EvalTwo(true, c, x, s1, s2, st1, fuel);
    EvalMore(true, c, x, [s0, s1, s2], st, fuel);
    assert [s0, s1, s2][1..] == [s1, s2];
  }

  lemma EvalMore(nils: bool, c: Setup, names: seq<string>, stmts: seq<Node>, st: Store, fuel: nat)
    requires |stmts| > 1 && Eval(nils, c, names, stmts[0], st, fuel).Done?
    ensures EvalStmts(nils, c, names, stmts, st, fuel) == EvalStmts(nils, c, names, stmts[1..], Eval(nils, c, names, stmts[0], st, fuel).st, fuel)
  {
    hide Eval;
  }

  /** The inner variable is another one. */
  lemma InnerXMeans(c: Setup, st: Store, fuel: nat)
    requires st.vars == map["x" := Int(1)]
    ensures Eval(true, c, ["x"], IfTrue(true, InnerX), st, fuel) == Done(Int(2), st)
  {
    hide Eval, EvalStmts;
    EvalIfTrue(true, c, ["x"], true, InnerX, st, fuel);
    var e := st.(vars := Entered(true, st.vars, ["x"]));
    EvalSet(true, c, ["x"] + ["x"], "x", 2, e, fuel);
    EvalOne(true, c, ["x"] + ["x"], Assign("x", IntLit(2)), e, fuel);
    assert Left(st.vars, e.vars["x" := Int(2)], ["x"]) == st.vars;
  }

  lemma ShadowedBytes(code: seq<nat>)
    requires code == ShadowedCode
    ensures CodeAt(code, 0, [OP_PUSH_ONE, 0]) && CodeAt(code, 2, [OP_POP_STORE_TEMP, 0]) && CodeAt(code, 4, [OP_PUSH_TRUE, 0])
    ensures CodeAt(code, 6, [OP_JUMP_FALSE, 6]) && CodeAt(code, 8, [OP_PUSH_TWO, 0]) && CodeAt(code, 10, [OP_STORE_TEMP, 0])
    ensures CodeAt(code, 12, [OP_JUMP, 2]) && CodeAt(code, 16, [OP_POP, 0]) && CodeAt(code, 18, [OP_PUSH_TEMP, 0]) && CodeAt(code, 20, [OP_RETURN_TOP, 0])
  {
    hide CodeAt;
    Bytes(code, 0, OP_PUSH_ONE, 0);
    Bytes(code, 2, OP_POP_STORE_TEMP, 0);
    Bytes(code, 4, OP_PUSH_TRUE, 0);
    Bytes(code, 6, OP_JUMP_FALSE, 6);
    Bytes(code, 8, OP_PUSH_TWO, 0);
    Bytes(code, 10, OP_STORE_TEMP, 0);
    Bytes(code, 12, OP_JUMP, 2);
    Bytes(code, 16, OP_POP, 0);
    Bytes(code, 18, OP_PUSH_TEMP, 0);
    Bytes(code, 20, OP_RETURN_TOP, 0);
  }

  lemma ShadowedRun(j: Job, m: M)
    requires j.p.code == ShadowedCode && m.pc == 0 && m.stack == [] && m.temps == [Nil, Nil]
    ensures Steps(j, m, 10) == Halted(Int(2), m.trace)
  {
    hide Steps, CodeAt;
    ShadowedBytes(j.p.code);
    PushStep(j, m, OP_PUSH_ONE, 0, Int(1));
    var m1 := M(2, [Int(1)], [Nil, Nil], m.trace);
    StoreStep(j, m1, OP_POP_STORE_TEMP, 0, true, Int(1), [Nil, Nil][0 := Int(1)], m.trace);
    var m2 := M(4, [], [Nil, Nil][0 := Int(1)], m.trace);
    Then(j, m, 1, m1, m2);
    ShadowedRest(j, m2);
    Chain(j, m, 2, m2, 8);
  }

  lemma ShadowedRest(j: Job, m: M)
    requires CodeAt(j.p.code, 4, [OP_PUSH_TRUE, 0]) && CodeAt(j.p.code, 6, [OP_JUMP_FALSE, 6]) && CodeAt(j.p.code, 8, [OP_PUSH_TWO, 0])
    requires CodeAt(j.p.code, 10, [OP_STORE_TEMP, 0]) && CodeAt(j.p.code, 12, [OP_JUMP, 2]) && CodeAt(j.p.code, 16, [OP_POP, 0])
    requires CodeAt(j.p.code, 18, [OP_PUSH_TEMP, 0]) && CodeAt(j.p.code, 20, [OP_RETURN_TOP, 0])
    requires m.pc == 4 && m.stack == [] && |m.temps| > 0
    ensures Steps(j, m, 8) == Halted(Int(2), m.trace)
  {
    hide Steps, CodeAt;
    EntersTrue(j, m, 6);
    var m1 := Pc(m, 4);
    StoresAndJumps(j, m1, 2);
    var m2 := Pc(m1, 8).(stack := m1.stack + [Int(2)], temps := m1.temps[0 := Int(2)]);
    PopStep(j, m2);
    var m3 := Pc(m2, 2).(stack := []);
    AnswersSlot(j, m3);
    Chain(j, m2, 1, m3, 2);
    Chain(j, m1, 3, m2, 3);
    Chain(j, m, 2, m1, 6);
  }

  /** The assignment in the block overwrites the method's variable. */
  lemma InnerNamesAreLost(c: Setup, trace: seq<Event>, fuel: nat)
    ensures GenMethod(c, Shadowed).clean && !Once(["x"] + InnerX.temps, "x")
    ensures EvalMethod(true, c, Shadowed, [], trace, fuel) == Answered(Int(1), trace)
    ensures Steps(JobOf(c, Shadowed), Start(c, Shadowed, [], trace), 10) == Halted(Int(2), trace)
  {
    hide GenMethod, Steps, EvalMethod;
    ShadowedGen(c);
    ShadowedMeans(c, trace, fuel);
    assert Start(c, Shadowed, [], trace) == M(0, [], [Nil, Nil], trace);
    ShadowedRun(JobOf(c, Shadowed), Start(c, Shadowed, [], trace));
    var xx := ["x"] + InnerX.temps;
    assert xx[0] == "x" && xx[1] == "x";
  }

  // ---- a variable named like a hidden counter ----

  /** 1 timesRepeat: [|__tr_i| ^__tr_i] */
  const AnswerIndex := Block([HIDDEN_INDEX], [Return(Var(HIDDEN_INDEX))])
  const Repeats := Send(false, IntLit(1), "timesRepeat:", [AnswerIndex])
  const Counter := MethodNode([], [], [Repeats])

  const Counters := [HIDDEN_COUNT, HIDDEN_INDEX]

  lemma AnswerIndexGen(c: Setup, lits: seq<Value>)
    ensures var o := GenBlock(c, AnswerIndex, false, Counters, lits);
            o.bytes == [OP_PUSH_TEMP, 1, OP_RETURN_TOP, 0] && o.lits == lits && o.peak == 3 && o.clean
  {
    hide Gen, Hidden;
    var all := Counters + [HIDDEN_INDEX];
    assert all[0] == HIDDEN_COUNT != HIDDEN_INDEX && all[1] == HIDDEN_INDEX;
    assert Find(all, HIDDEN_INDEX) == 1;
    AnswerCode(c, HIDDEN_INDEX, all, lits);
    Emitter.StmtsLast(c, [Return(Var(HIDDEN_INDEX))], false, all, lits);
  }

  /** The code of the method, up to what is never reached. */
  lemma CounterGen(c: Setup)
    ensures var o := GenMethod(c, Counter);
            && o.clean && o.peak == 3 && o.lits == [Sym("<="), Sym("+")]
            && o.bytes == [OP_PUSH_ONE, 0] + TimesCode(0, 0, 1, [OP_PUSH_TEMP, 1, OP_RETURN_TOP, 0], true) + [OP_POP, 0] + [OP_RETURN_SELF, 0]
  {
    hide Gen, GenStmts, GenBlock, TimesCode, FormOf;
    assert FormOf(Repeats) == Times(AnswerIndex) by { RepeatsForm(); }
    Emitter.SendUnfolds(c, Repeats, true, [], []);
    assert Gen(c, IntLit(1), true, [], []) == Out([OP_PUSH_ONE, 0], [], true, 0, true) by { OneCode(c); }
    TimesLits();
    assert [] + Counters == Counters;
    AnswerIndexGen(c, [Sym("<=")]);
    RestTimes(c);
    Emitter.StmtsLast(c, [Repeats], true, [], []);
  }

  lemma RepeatsForm()
    ensures FormOf(Repeats) == Times(AnswerIndex)
  {
  }

  lemma OneCode(c: Setup)
    ensures Gen(c, IntLit(1), true, [], []) == Out([OP_PUSH_ONE, 0], [], true, 0, true)
  {
  }

  lemma TimesLits()
    ensures LitIndex([], Sym("<=")) == 0 && LitAdd([], Sym("<=")) == [Sym("<=")]
    ensures LitIndex([Sym("<=")], Sym("+")) == 1 && LitAdd([Sym("<=")], Sym("+")) == [Sym("<="), Sym("+")]
  {
    assert Sym("<=") != Sym("+") by { assert |"<="| != |"+"|; }
    assert [Sym("<=")] + [Sym("+")] == [Sym("<="), Sym("+")];
  }

  lemma RestTimes(c: Setup)
    ensures var b := GenBlock(c, AnswerIndex, false, Counters, [Sym("<=")]);
            b.lits == [Sym("<=")] ==>
              var o := GenRest(c, Repeats, true, [], []);
              o.bytes == TimesCode(0, 0, 1, b.bytes, true) && o.lits == [Sym("<="), Sym("+")] && o.peak == Max(b.peak, 2) && o.clean == b.clean
  {
    hide GenBlock, TimesCode, LitIndex, LitAdd, FormOf;
    RepeatsForm();
    TimesLits();
    assert [] + Counters == Counters;
  }

  /** The block's own variable is nil. */
  lemma CounterMeans(c: Setup, trace: seq<Event>, fuel: nat)
    requires c.w.reply(trace + [Sent(false, Int(1), "<=", [Int(1)])]) == True && fuel > 0
    ensures var t := trace + [Sent(false, Int(1), "<=", [Int(1)])];
            EvalMethod(true, c, Counter, [], trace, fuel) == Answered(Nil, t + c.w.effects(t))
  {
    hide EvalStmts, FormOf, EvalBlock;
    var st, t := Store(map[], trace), trace + [Sent(false, Int(1), "<=", [Int(1)])];
    assert [] + Nils(0) == [] && Bind([], []) == map[];
    RepeatsForm();
    EvalOne(true, c, [], Repeats, st, fuel);
    AnswerIndexMeans(c, Store(map[], t + c.w.effects(t)), fuel);
    assert Eval(true, c, [], IntLit(1), st, fuel) == Done(Int(1), st);
    assert EvalTimes(true, c, [], Repeats, AnswerIndex, Int(1), Int(1), st, fuel) == Answered(Nil, t + c.w.effects(t));
  }

  lemma AnswerIndexMeans(c: Setup, st: Store, fuel: nat)
    requires st.vars == map[]
    ensures EvalBlock(true, c, [], AnswerIndex, st, fuel) == Answered(Nil, st.trace)
  {
    hide Eval, EvalStmts;
    var e := st.(vars := Entered(true, st.vars, [HIDDEN_INDEX]));
    EvalAnswer(true, c, [] + [HIDDEN_INDEX], HIDDEN_INDEX, e, fuel);
    EvalOne(true, c, [] + [HIDDEN_INDEX], Return(Var(HIDDEN_INDEX)), e, fuel);
  }

  lemma CounterRun(j: Job, m: M)
    requires CodeAt(j.p.code, 0, [OP_PUSH_ONE, 0]) && CodeAt(j.p.code, 2, TimesCode(0, 0, 1, [OP_PUSH_TEMP, 1, OP_RETURN_TOP, 0], true))
    requires |j.p.lits| > 0 && j.p.lits[0] == Sym("<=") && m.pc == 0 && m.stack == [] && m.temps == [Nil, Nil, Nil]
    requires j.c.w.reply(m.trace + [Sent(false, Int(1), "<=", [Int(1)])]) == True
    ensures var t := m.trace + [Sent(false, Int(1), "<=", [Int(1)])];
            Steps(j, m, 10) == Halted(Int(1), t + j.c.w.effects(t))
  {
    hide Steps, CodeAt, TimesCode, TimesHead, TimesTest, TimesNext;
    var body := [OP_PUSH_TEMP, 1, OP_RETURN_TOP, 0];
    CounterSizes();
    OneStep(j, m);
    var m1 := M(2, [Int(1)], m.temps, m.trace);
    TimesParts(j.p.code, 2, 0, 0, 1, body, true);
    RunTimesHead(j, 0, m1, [], Int(1));
    var m2 := Pc(m1, |TimesHead(0)|).(stack := [], temps := m.temps[0 := Int(1)][1 := Int(1)]);
    RunTimesTest(j, 0, 0, m2, Store(map[], m.trace));
    var t := m.trace + [Sent(false, Int(1), "<=", [Int(1)])];
    var m3 := Pc(m2, |TimesTest(0, 0)|).(stack := [True], trace := t + j.c.w.effects(t));
    BranchStep(j, m3, false, |body| + |TimesNext(0, 1)| + 2);
    var m4 := Pc(m3, 2).(stack := []);
    assert body == [OP_PUSH_TEMP, 1] + [OP_RETURN_TOP, 0];
    CodeSplit(j.p.code, m4.pc, [OP_PUSH_TEMP, 1], [OP_RETURN_TOP, 0]);
    PushStep(j, m4, OP_PUSH_TEMP, 1, Int(1));
    var m5 := Pc(m4, 2).(stack := [Int(1)]);
    AnswerStep(j, m5, OP_RETURN_TOP, Int(1));
    Chain(j, m4, 1, m5, 1);
    Chain(j, m3, 1, m4, 2);
    Chain(j, m2, 3, m3, 3);
    Chain(j, m1, 3, m2, 6);
    Chain(j, m, 1, m1, 9);
  }

  lemma CounterSizes()
    ensures |TimesNext(0, 1)| == 8 && TimesDistance(0, 0, 1, 4) <= 255
  {
  }

  /** The block reads the counter instead of its own variable. */
  lemma CountersAreNotHidden(c: Setup, trace: seq<Event>, fuel: nat)
    requires c.w.reply(trace + [Sent(false, Int(1), "<=", [Int(1)])]) == True && fuel > 0
    ensures GenMethod(c, Counter).clean
    ensures var t := trace + [Sent(false, Int(1), "<=", [Int(1)])];
            && EvalMethod(true, c, Counter, [], trace, fuel) == Answered(Nil, t + c.w.effects(t))
            && Steps(JobOf(c, Counter), Start(c, Counter, [], trace), 10) == Halted(Int(1), t + c.w.effects(t))
  {
    hide GenMethod, Steps, EvalMethod, CodeAt, TimesCode;
    CounterGen(c);
    CounterMeans(c, trace, fuel);
    var j, m := JobOf(c, Counter), Start(c, Counter, [], trace);
    assert m == M(0, [], [Nil, Nil, Nil], trace);
    WholeCode(j.p.code);
    var code := TimesCode(0, 0, 1, [OP_PUSH_TEMP, 1, OP_RETURN_TOP, 0], true);
    CodeSplit3(j.p.code, 0, [OP_PUSH_ONE, 0] + code, [OP_POP, 0], [OP_RETURN_SELF, 0]);
    CodeSplit(j.p.code, 0, [OP_PUSH_ONE, 0], code);
    CounterRun(j, m);
  }

  // ---- jumps over more than 255 bytes ----

  /** A conditional whose jump is a multiple of 256 does not jump: the block runs although its
      condition is false. */
  lemma LostJump(j: Job, names: seq<string>, block: Node, lits: seq<Value>, m: M, base: seq<Value>, st: Store, fuel: nat) returns (k: nat)
    requires block.Block? && Ready(j, names, m, st) && m.stack == base + [False]
    requires var g := GenBlock(j.c, block, true, names, lits);
             && (|g.bytes| + 2) % 256 == 0 && CodeAt(j.p.code, m.pc, IfCode(true, g.bytes, true))
             && g.good && g.lits <= j.p.lits && g.peak <= |m.temps|
    ensures Runs(j, names, m, base, EvalBlock(false, j.c, Shown(names), block, st, fuel), true,
                 m.pc + |GenBlock(j.c, block, true, names, lits).bytes| + 6, k, fuel)
  {
    hide Steps, Rel, Distinct, CodeAt, Ends, EvalBlock, GenBlock;
    var g := GenBlock(j.c, block, true, names, lits);
    var end := m.pc + 2 + |g.bytes|;
    CodeSplit3(j.p.code, m.pc, JumpOver(OP_JUMP_FALSE, |g.bytes| + 2), g.bytes, JumpOver(OP_JUMP, 2) + [OP_PUSH_NIL, 0]);
    CodeSplit(j.p.code, end, JumpOver(OP_JUMP, 2), [OP_PUSH_NIL, 0]);
    assert JumpOver(OP_JUMP_FALSE, |g.bytes| + 2) == JumpOver(OP_JUMP_FALSE, 0);
    assert m.stack[..|m.stack| - 1] == base;
    BranchStep(j, m, false, 0);
    var m1 := m.(pc := m.pc + 2, stack := base);
    Popped(j, names, m, st, m.pc + 2, base);
    var out := EvalBlock(false, j.c, Shown(names), block, st, fuel);
    k := SimBlock(j, names, block, true, lits, m1, st, fuel);
    k := ThenJump(j, names, m1, base, out, true, end, k, fuel, 2);
    Lead(j, names, m, 1, m1, k, base, out, true, end + 4, fuel);
    k := 1 + k;
  }

  const Foo := Send(false, Self, "foo", [])

  function Foos(n: nat): seq<Node> { if n == 0 then [] else [Foo] + Foos(n - 1) }

  /** false ifTrue: [self foo. self foo. ...] with n statements. */
  function Skipped(n: nat): MethodNode { MethodNode([], [], [IfTrue(false, Block([], Foos(n)))]) }

  lemma FooPlain()
    ensures FormOf(Foo) == Plain && Arity("foo") == 0
  {
    assert "foo"[1..] == "oo" && "oo"[1..] == "o" && "o"[1..] == "";
    assert Colons("o") == 0 && Colons("oo") == 0 && Colons("foo") == 0;
  }

  /** `self foo` takes four bytes, with its selector as the first literal. */
  lemma FooGen(c: Setup, lits: seq<Value>)
    requires lits == [] || lits == [Sym("foo")]
    ensures Gen(c, Foo, true, [], lits) == Out([OP_PUSH_RECEIVER, 0] + [OP_SEND, 0], [Sym("foo")], true, 0, true)
  {
    hide FormOf, Arity;
    FooPlain();
    Emitter.SendUnfolds(c, Foo, true, [], lits);
    assert Gen(c, Self, true, [], lits) == Out([OP_PUSH_RECEIVER, 0], lits, true, 0, true);
    assert LitIndex(lits, Sym("foo")) == 0 && LitAdd(lits, Sym("foo")) == [Sym("foo")];
    FooRest(c, lits);
  }

  lemma FooRest(c: Setup, lits: seq<Value>)
    requires (lits == [] || lits == [Sym("foo")]) && LitIndex(lits, Sym("foo")) == 0 && LitAdd(lits, Sym("foo")) == [Sym("foo")]
    ensures FormOf(Foo) == Plain && GenRest(c, Foo, true, [], lits) == Out([OP_SEND, 0], [Sym("foo")], true, 0, true)
  {
    hide FormOf, Arity, LitIndex, LitAdd;
    FooPlain();
    assert GenArgs(c, [], [], lits) == Out([], lits, true, 0, true);
    assert [] + Wide(OP_SEND, 0) + [] == [OP_SEND, 0];
  }

  lemma {:induction false} FoosGen(c: Setup, n: nat, lits: seq<Value>)
    requires n > 0 && (lits == [] || lits == [Sym("foo")])
    ensures var o := GenStmts(c, Foos(n), true, [], lits);
            |o.bytes| == 6 * n - 2 && o.lits == [Sym("foo")] && o.good && o.peak == 0 && o.clean
    decreases n
  {
    hide Gen, GenStmts;
    FooGen(c, lits);
    var f := Foos(n);
    assert f[0] == Foo && f[1..] == Foos(n - 1);
    if n == 1 {
      Emitter.StmtsLast(c, f, true, [], lits);
    } else {
      assert |f| > 1 by { assert |Foos(n - 1)| > 0; }
      Emitter.StmtsUnfold(c, f, true, [], lits);
      FoosGen(c, n - 1, [Sym("foo")]);
    }
  }

  lemma FoosBlock(c: Setup, n: nat)
    requires n > 0
    ensures var o := GenBlock(c, Block([], Foos(n)), true, [], []);
            |o.bytes| == 6 * n - 2 && o.lits == [Sym("foo")] && o.good && o.peak == 0 && o.clean
  {
    hide GenStmts;
    FoosGen(c, n, []);
    var none: seq<string> := [];
    assert Foos(n) != [] && none + none == none;
  }

  /** Every statement of the block is a send. */
  lemma {:induction false} FoosEval(nils: bool, c: Setup, n: nat, st: Store, fuel: nat)
    requires n > 0
    ensures var r := EvalStmts(nils, c, [], Foos(n), st, fuel); r.Done? && |r.st.trace| >= |st.trace| + n
    decreases n
  {
    hide Eval, EvalStmts;
    FooEval(nils, c, st, fuel);
    var f := Foos(n);
    assert f[0] == Foo && f[1..] == Foos(n - 1);
    if n == 1 {
      assert f == [Foo];
      EvalOne(nils, c, [], Foo, st, fuel);
    } else {
      assert |f| > 1 by { assert |Foos(n - 1)| > 0; }
      EvalMore(nils, c, [], f, st, fuel);
      FoosEval(nils, c, n - 1, Eval(nils, c, [], Foo, st, fuel).st, fuel);
    }
  }

  lemma FooEval(nils: bool, c: Setup, st: Store, fuel: nat)
    ensures var r := Eval(nils, c, [], Foo, st, fuel); r.Done? && |r.st.trace| >= |st.trace| + 1
  {
    hide FormOf;
    FooPlain();
    assert Eval(nils, c, [], Self, st, fuel) == Done(c.receiver, st);
    assert EvalArgs(nils, c, [], [], st, fuel) == Values([], st);
  }

  lemma FoosBlockEval(c: Setup, n: nat, st: Store, fuel: nat)
    requires n > 0
    ensures var r := EvalBlock(false, c, [], Block([], Foos(n)), st, fuel); r.Done? && |r.st.trace| >= |st.trace| + n
  {
    hide EvalStmts;
    var none: seq<string> := [];
    assert Foos(n) != [] && none + none == none;
    FoosEval(false, c, n, st.(vars := Entered(false, st.vars, [])), fuel);
  }

  lemma SkippedMeans(c: Setup, n: nat, trace: seq<Event>, fuel: nat)
    ensures EvalMethod(true, c, Skipped(n), [], trace, fuel) == Answered(c.receiver, trace)
  {
    hide Eval, EvalStmts;
    var st := Store(map[], trace);
    assert [] + Nils(0) == [] && Bind([], []) == map[];
    EvalIfTrue(true, c, [], false, Block([], Foos(n)), st, fuel);
    EvalOne(true, c, [], IfTrue(false, Block([], Foos(n))), st, fuel);
  }

  /** The code of the method. */
  lemma SkippedGen(c: Setup, n: nat)
    requires n > 0
    ensures var g, o := GenBlock(c, Block([], Foos(n)), true, [], []), GenMethod(c, Skipped(n));
            && o.bytes == [OP_PUSH_FALSE, 0] + IfCode(true, g.bytes, true) + [OP_POP, 0] + [OP_RETURN_SELF, 0]
            && o.lits == [Sym("foo")] && o.peak == 0 && o.clean && (o.good <==> 6 * n <= 255)
  {
    hide Gen, GenStmts, GenBlock, IfCode;
    FoosBlock(c, n);
    IfTrueCode(c, false, Block([], Foos(n)), [], []);
    Emitter.StmtsLast(c, [IfTrue(false, Block([], Foos(n)))], true, [], []);
  }

  lemma EmptyScope(j: Job, m: M, st: Store)
    requires m.trace == st.trace && j.p.receiver == j.c.receiver
    ensures Ready(j, [], m, st) && Shown([]) == []
  {
  }

  /** For every multiple n of 128 the compiler accepts the method and its code makes n sends, with
      whatever follows from them, where the source means none: `false ifTrue: [...]` runs its block. */
  lemma LongJumpsAreLost(c: Setup, n: nat, trace: seq<Event>, fuel: nat) returns (k: nat, t: seq<Event>)
    requires n > 0 && n % 128 == 0
    ensures GenMethod(c, Skipped(n)).clean && !GenMethod(c, Skipped(n)).good
    ensures EvalMethod(true, c, Skipped(n), [], trace, fuel) == Answered(c.receiver, trace)
    ensures Steps(JobOf(c, Skipped(n)), Start(c, Skipped(n), [], trace), k) == Halted(c.receiver, t) && |t| >= |trace| + n
  {
    hide GenMethod, GenBlock, EvalMethod, EvalBlock, Steps, CodeAt, IfCode, Ready, Ends;
    SkippedGen(c, n);
    SkippedMeans(c, n, trace, fuel);
    var block := Block([], Foos(n));
    var j, m, st := JobOf(c, Skipped(n)), Start(c, Skipped(n), [], trace), Store(map[], trace);
    var g := GenBlock(c, block, true, [], []);
    FoosBlock(c, n);
    Multiple(n);
    WholeCode(j.p.code);
    IfSize(g.bytes);
    var code := [OP_PUSH_FALSE, 0] + IfCode(true, g.bytes, true);
    CodeSplit3(j.p.code, 0, code, [OP_POP, 0], [OP_RETURN_SELF, 0]);
    CodeSplit(j.p.code, 0, [OP_PUSH_FALSE, 0], IfCode(true, g.bytes, true));
    PushStep(j, m, OP_PUSH_FALSE, 0, False);
    var m1 := Pc(m, 2).(stack := m.stack + [False]);
    EmptyScope(j, m, st);
    EmptyScope(j, m1, st);
    assert g.lits <= j.p.lits;
    var l := LostJump(j, [], block, [], m1, [], st, fuel);
    FoosBlockEval(c, n, st, fuel);
    var out := EvalBlock(false, c, [], block, st, fuel);
    Lead(j, [], m, 1, m1, l, [], out, true, |code|, fuel);
    k := FallOff(j, [], m, st, out, |code|, 1 + l, fuel);
    t := out.st.trace;
  }

  lemma IfSize(b: seq<nat>)
    ensures |IfCode(true, b, true)| == |b| + 6
  {
  }

  lemma Multiple(n: nat)
    requires n % 128 == 0
    ensures (6 * n) % 256 == 0
  {
    var q := n / 128;
    assert n == 128 * q;
    assert 6 * n == 256 * (3 * q);
  }
}
