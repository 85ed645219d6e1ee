/** What compiling a method guarantees. */
module CodegenCorrect {
  import opened Bytecode
  import opened Source
  import opened Codegen
  import opened CodegenProof
  import opened Assignment

  // ---- the source meaning of a method ----

  function Bind(names: seq<string>, vs: seq<Value>): (vars: map<string, Value>)
    requires |names| == |vs|
    ensures vars.Keys == NameSet(names)
    decreases |names|
  {
    if names == [] then map[]
    else
      var n := |names| - 1;
      assert names == names[..n] + [names[n]];
      Bind(names[..n], vs[..n])[names[n] := vs[n]]
  }

  function Nils(n: nat): (s: seq<Value>)
    ensures |s| == n && forall i :: 0 <= i < n ==> s[i] == Nil
  {
    if n == 0 then [] else Nils(n - 1) + [Nil]
  }

  /** Arguments have their values, declared temporaries are nil, and falling off the end
      answers the receiver. With nils this is what the source means. */
  function EvalMethod(nils: bool, c: Setup, m: MethodNode, args: seq<Value>, trace: seq<Event>, fuel: nat): (r: Outcome)
    requires |args| == |m.args|
    ensures !r.Done?
  {
    var r := EvalStmts(nils, c, m.args + m.temps, m.body, Store(Bind(m.args + m.temps, args + Nils(|m.temps|)), trace), fuel);
    if r.Done? then Answered(c.receiver, r.st.trace) else r
  }

  /** What the compiler must be given for its output to be right: distinct names, none of them
      one of its own, blocks only inside control structures, at most 254 literals beside the
      owner class, at most 255 temporaries at a time and no jump over more than 255 bytes. */
  ghost predicate Compilable(c: Setup, m: MethodNode)
  {
    var o := GenMethod(c, m);
    Distinct(m.args + m.temps) && Visible(m.args + m.temps) && o.good && o.peak <= 255 && |o.lits| < 255
  }

  function JobOf(c: Setup, m: MethodNode): Job
  {
    var o := GenMethod(c, m);
    Job(c, Program(o.bytes, o.lits + [c.owner], c.receiver))
  }

  /** A fresh activation: arguments, then nil in every other slot. */
  function Start(c: Setup, m: MethodNode, args: seq<Value>, trace: seq<Event>): M
  {
    M(0, [], args + Nils(if GenMethod(c, m).peak < |args| then 0 else GenMethod(c, m).peak - |args|), trace)
  }

  // ---- preservation ----

  ghost predicate AllDiffer(names: seq<string>) { forall a, b :: 0 <= a < b < |names| ==> names[a] != names[b] }

  lemma {:induction false} BindAt(names: seq<string>, vs: seq<Value>, i: nat)
    requires |names| == |vs| && AllDiffer(names) && i < |names|
    ensures names[i] in Bind(names, vs) && Bind(names, vs)[names[i]] == vs[i]
    decreases |names|
  {
    var n := |names| - 1;
    if i < n { BindAt(names[..n], vs[..n], i); }
  }

  lemma StartReady(c: Setup, mn: MethodNode, args: seq<Value>, trace: seq<Event>)
    requires Compilable(c, mn) && |args| == |mn.args|
    ensures var names := mn.args + mn.temps;
            Ready(JobOf(c, mn), names, Start(c, mn, args, trace), Store(Bind(names, args + Nils(|mn.temps|)), trace))
    ensures |Start(c, mn, args, trace).temps| == GenMethod(c, mn).peak
  {
    hide GenMethod, Hidden, Bind;
    PeakCovers(c, mn);
    var names, vs := mn.args + mn.temps, args + Nils(|mn.temps|);
    assert AllDiffer(names);
    forall i | 0 <= i < |names| ensures Start(c, mn, args, trace).temps[i] == Bind(names, vs)[names[i]] && names[i] in Bind(names, vs) {
      BindAt(names, vs, i);
    }
  }

  lemma PeakCovers(c: Setup, mn: MethodNode)
    ensures |mn.args + mn.temps| <= GenMethod(c, mn).peak
  {
  }

  lemma ShownAll(names: seq<string>)
    requires Visible(names)
    ensures Shown(names) == names
  {
    ShownScope([], names);
    assert [] + names == names;
  }

  /** A body that ends in a return never falls off its end. */
  lemma {:induction false} LastReturn(c: Setup, names: seq<string>, stmts: seq<Node>, st: Store, fuel: nat)
    requires stmts != [] && stmts[|stmts| - 1].Return?
    ensures !EvalStmts(false, c, names, stmts, st, fuel).Done?
    decreases |stmts|
  {
    if |stmts| == 1 {
      ReturnLeaves(c, names, stmts[0], st, fuel);
    } else {
      var r := Eval(false, c, names, stmts[0], st, fuel);
      if r.Done? { LastReturn(c, names, stmts[1..], r.st, fuel); }
    }
  }

  ghost predicate Agrees(r: Run, out: Outcome, k: nat, fuel: nat)
  {
    match out
    case Answered(v, t) => r == Halted(v, t)
    case NotBoolean => r == Aborted
    case OutOfFuel => r.Going? && k >= fuel
    case _ => out.Unclaimed?
  }

  /** The code follows the evaluation that leaves block temporaries without a value. */
  lemma MethodSimulated(c: Setup, mn: MethodNode, args: seq<Value>, trace: seq<Event>, fuel: nat) returns (k: nat)
    requires Compilable(c, mn) && |args| == |mn.args|
    ensures Agrees(Steps(JobOf(c, mn), Start(c, mn, args, trace), k), EvalMethod(false, c, mn, args, trace, fuel), k, fuel)
  {
    hide Distinct, Hidden, Rel, Steps, CodeAt, GenStmts, EvalStmts, Bind, Shown;
    var j, m, names := JobOf(c, mn), Start(c, mn, args, trace), mn.args + mn.temps;
    var st := Store(Bind(names, args + Nils(|mn.temps|)), trace);
    StartReady(c, mn, args, trace);
    ShownAll(names);
    WholeCode(j.p.code);
    if mn.body == [] {
      k := 1;
      EndAnswer(j, names, m, st, [], OP_RETURN_SELF, c.receiver, true, 0, fuel);
      EmptyBody(c, names, st, fuel);
    } else {
      var last := mn.body[|mn.body| - 1].Return?;
      var o := GenStmts(c, mn.body, !last, names, []);
      if !last { CodeSplit3(j.p.code, 0, o.bytes, [OP_POP, 0], [OP_RETURN_SELF, 0]); }
      k := SimStmts(j, names, mn.body, !last, [], m, st, fuel);
      var out := EvalStmts(false, c, names, mn.body, st, fuel);
      if last {
        LastReturn(c, names, mn.body, st, fuel);
      } else {
        k := FallOff(j, names, m, st, out, |o.bytes|, k, fuel);
      }
    }
  }

  lemma EmptyBody(c: Setup, names: seq<string>, st: Store, fuel: nat)
    ensures EvalStmts(false, c, names, [], st, fuel) == Done(Nil, st)
  {
  }

  lemma WholeCode(code: seq<nat>)
    ensures CodeAt(code, 0, code)
  {
  }

  lemma FallOff(j: Job, names: seq<string>, m: M, st: Store, out: Outcome, pc: nat, l: nat, fuel: nat) returns (k: nat)
    requires Ready(j, names, m, st) && Runs(j, names, m, [], out, true, pc, l, fuel)
    requires CodeAt(j.p.code, pc, [OP_POP, 0]) && CodeAt(j.p.code, pc + 2, [OP_RETURN_SELF, 0])
    ensures Agrees(Steps(j, m, k), if out.Done? then Answered(j.c.receiver, out.st.trace) else out, k, fuel)
  {
    hide Distinct, Rel, Steps, CodeAt;
    k := l;
    if out.Done? {
      k := ThenPop(j, names, m, [], out, pc, l, fuel);
      DoneAt(j, names, m, [], out, false, pc + 2, k, fuel, st);
      AnswerStep(j, At(j, m, k), OP_RETURN_SELF, j.c.receiver);
      Chain(j, m, k, At(j, m, k), 1);
      k := k + 1;
    }
  }

  // ---- no variable is read before it is assigned ----

  /** Every temporary of a block is assigned before it is read; a check on the tree. */
  predicate DefinitelyAssigned(c: Setup, m: MethodNode)
  {
    AfterStmts(c, m.args + m.temps, m.body, NameSet(m.args + m.temps)).Some?
  }

  /** Then it does not matter what the temporaries of blocks hold on entry. */
  lemma EntryDoesNotMatter(c: Setup, mn: MethodNode, args: seq<Value>, trace: seq<Event>, fuel: nat)
    requires DefinitelyAssigned(c, mn) && |args| == |mn.args|
    ensures EvalMethod(false, c, mn, args, trace, fuel) == EvalMethod(true, c, mn, args, trace, fuel) != Unclaimed
  {
    hide EvalStmts, AfterStmts, Bind;
    var names := mn.args + mn.temps;
    var st := Store(Bind(names, args + Nils(|mn.temps|)), trace);
    StmtsSound(c, names, mn.body, NameSet(names), st, fuel);
    StmtsRefine(c, names, mn.body, st, st, fuel);
  }

  /** Running the compiled method does what the source means, block temporaries being nil on
      entry: the same answer after the same sends and stores in the same order, the same failure
      on a condition that is no boolean, and no end if the source has none. */
  lemma MethodRuns(c: Setup, mn: MethodNode, args: seq<Value>, trace: seq<Event>, fuel: nat) returns (k: nat)
    requires Compilable(c, mn) && DefinitelyAssigned(c, mn) && |args| == |mn.args|
    ensures EvalMethod(true, c, mn, args, trace, fuel) != Unclaimed
    ensures Agrees(Steps(JobOf(c, mn), Start(c, mn, args, trace), k), EvalMethod(true, c, mn, args, trace, fuel), k, fuel)
  {
    hide EvalMethod, Steps, GenMethod, Distinct, Visible;
    k := MethodSimulated(c, mn, args, trace, fuel);
    EntryDoesNotMatter(c, mn, args, trace, fuel);
  }

  // ---- both directions ----

  lemma {:induction false} StillGoing(j: Job, m: M, k: nat, n: nat)
    requires Steps(j, m, k).Going? && n <= k
    ensures Steps(j, m, n).Going?
    decreases n
  {
    hide Step;
    if n > 0 { StillGoing(j, Step(j, m).m, k - 1, n - 1); }
  }

  lemma {:induction false} OneEnd(j: Job, m: M, k: nat, n: nat)
    requires !Steps(j, m, k).Going? && !Steps(j, m, n).Going?
    ensures Steps(j, m, k) == Steps(j, m, n)
    decreases k
  {
    hide Step;
    if Step(j, m).Going? { OneEnd(j, Step(j, m).m, k - 1, n - 1); }
  }

  /** The compiled method halts with an answer exactly if the source does, aborts exactly if the
      source tests something that is no boolean, and otherwise runs for ever. */
  lemma HaltsExactly(c: Setup, mn: MethodNode, args: seq<Value>, trace: seq<Event>, v: Value, t: seq<Event>)
    requires Compilable(c, mn) && DefinitelyAssigned(c, mn) && |args| == |mn.args|
    ensures (exists k: nat :: Steps(JobOf(c, mn), Start(c, mn, args, trace), k) == Halted(v, t))
            <==> (exists fuel: nat :: EvalMethod(true, c, mn, args, trace, fuel) == Answered(v, t))
    ensures (exists k: nat :: Steps(JobOf(c, mn), Start(c, mn, args, trace), k) == Aborted)
            <==> (exists fuel: nat :: EvalMethod(true, c, mn, args, trace, fuel) == NotBoolean)
  {
    hide EvalMethod, Steps, GenMethod, Distinct, Visible, DefinitelyAssigned;
    var j, m := JobOf(c, mn), Start(c, mn, args, trace);
    if k: nat :| Steps(j, m, k) == Halted(v, t) { SourceEnds(c, mn, args, trace, k); }
    if k: nat :| Steps(j, m, k) == Aborted { SourceEnds(c, mn, args, trace, k); }
    if fuel: nat :| EvalMethod(true, c, mn, args, trace, fuel) == Answered(v, t) { var k := MethodRuns(c, mn, args, trace, fuel); }
    if fuel: nat :| EvalMethod(true, c, mn, args, trace, fuel) == NotBoolean { var k := MethodRuns(c, mn, args, trace, fuel); }
  }

  lemma SourceEnds(c: Setup, mn: MethodNode, args: seq<Value>, trace: seq<Event>, k: nat)
    requires Compilable(c, mn) && DefinitelyAssigned(c, mn) && |args| == |mn.args|
    requires !Steps(JobOf(c, mn), Start(c, mn, args, trace), k).Going?
    ensures EvalMethod(true, c, mn, args, trace, k + 1)
            == match Steps(JobOf(c, mn), Start(c, mn, args, trace), k) case Halted(v, t) => Answered(v, t) case _ => NotBoolean
  {
    hide EvalMethod, Steps, GenMethod, Distinct, Visible, DefinitelyAssigned;
    var j, m := JobOf(c, mn), Start(c, mn, args, trace);
    var n := MethodRuns(c, mn, args, trace, k + 1);
    if EvalMethod(true, c, mn, args, trace, k + 1).OutOfFuel? {
      StillGoing(j, m, n, k);
    } else {
      OneEnd(j, m, k, n);
    }
  }

  // ---- how far the jump encoding reaches ----

  /** A patched forward jump lands on its target exactly if the target is at most 255 bytes away. */
  lemma ForwardLands(w: World, p: Program, f: Frame, trace: seq<Event>, distance: nat)
    requires CodeAt(p.code, f.pc, JumpOver(OP_JUMP, distance))
    ensures Exec(w, p, f, trace, Decode(p.code, f.pc)) == Continue(f.(pc := f.pc + 2 + distance), trace) <==> distance <= 255
  {
    hide CodeAt;
    DecodeNarrow(p.code, f.pc, OP_JUMP, distance % 256);
  }

  /** The jump that closes a loop, emitted `distance - 2` bytes after the loop's start, lands on
      the start exactly if the distance needs no wide operand. */
  lemma BackLands(w: World, p: Program, f: Frame, trace: seq<Event>, start: nat, distance: nat)
    requires CodeAt(p.code, f.pc, Wide(OP_JUMP_BACK, distance % 65536)) && start + distance == f.pc + 2
    ensures Exec(w, p, f, trace, Decode(p.code, f.pc)) == Continue(f.(pc := start), trace) <==> distance <= 255
  {
    hide CodeAt;
    DecodeWide(p.code, f.pc, OP_JUMP_BACK, distance % 65536);
  }
}
