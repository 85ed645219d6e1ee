/** Running the emitted code does what the source means. */
module CodegenProof {
  import opened Common
  import opened Bytecode
  import opened Source
  import opened Codegen

  /** A compiled method in its surroundings. */
  datatype Job = Job(c: Setup, p: Program)

  /** One activation of it. */
  datatype M = M(pc: nat, stack: seq<Value>, temps: seq<Value>, trace: seq<Event>)

  datatype Run = Going(m: M) | Halted(v: Value, trace: seq<Event>) | Aborted

  function FrameOf(m: M): Frame { Frame(m.pc, m.stack, m.temps) }

  /** One turn of the dispatch loop; a send is answered by the surroundings. */
  function Step(j: Job, m: M): Run
  {
    match Exec(j.c.w, j.p, FrameOf(m), m.trace, Decode(j.p.code, m.pc))
    case Continue(f, t) => Going(M(f.pc, f.stack, f.temps, t))
    case Call(f, super, r, sel, args) =>
      var t := m.trace + [Sent(super, r, sel, args)];
      Going(M(f.pc, f.stack + [j.c.w.reply(t)], f.temps, t + j.c.w.effects(t)))
    case Answer(v) => Halted(v, m.trace)
    case Fatal => Aborted
  }

  function Steps(j: Job, m: M, k: nat): Run
    decreases k
  {
    if k == 0 then Going(m)
    else
      var r := Step(j, m);
      if r.Going? then Steps(j, r.m, k - 1) else r
  }

  lemma {:induction false} Chain(j: Job, m: M, k: nat, m': M, l: nat)
    requires Steps(j, m, k) == Going(m')
    ensures Steps(j, m, k + l) == Steps(j, m', l)
    decreases k
  {
    hide Step;
    if k > 0 { Chain(j, Step(j, m).m, k - 1, m', l); }
  }

  // ---- code in place ----

  ghost predicate CodeAt(code: seq<nat>, pc: nat, bytes: seq<nat>)
  {
    pc + |bytes| <= |code| && code[pc..pc + |bytes|] == bytes
  }

  lemma CodeSplit(code: seq<nat>, pc: nat, a: seq<nat>, b: seq<nat>)
    requires CodeAt(code, pc, a + b)
    ensures CodeAt(code, pc, a) && CodeAt(code, pc + |a|, b)
  {
    var ab := code[pc..pc + |a + b|];
    assert code[pc..pc + |a|] == ab[..|a|];
    assert code[pc + |a|..pc + |a| + |b|] == ab[|a|..];
  }

  lemma DecodeNarrow(code: seq<nat>, pc: nat, op: nat, operand: nat)
    requires CodeAt(code, pc, [op, operand]) && op != OP_WIDE
    ensures Decode(code, pc) == Instr(op, operand, 2)
  {
    assert code[pc..pc + 2][0] == op && code[pc..pc + 2][1] == operand;
  }

  lemma DecodeWide(code: seq<nat>, pc: nat, op: nat, operand: nat)
    requires CodeAt(code, pc, Wide(op, operand)) && op != OP_WIDE
    ensures Decode(code, pc) == Instr(op, operand, |Wide(op, operand)|)
  {
    if operand <= 255 {
      DecodeNarrow(code, pc, op, operand);
    } else {
      var b := code[pc..pc + 4];
      assert b[0] == OP_WIDE && b[1] == operand / 256 && b[2] == op && b[3] == operand % 256;
    }
  }

  // ---- single instructions ----

  function Pc(m: M, len: nat): M { m.(pc := m.pc + len) }

  lemma PushStep(j: Job, m: M, op: nat, operand: nat, v: Value)
    requires CodeAt(j.p.code, m.pc, Wide(op, operand)) && (op <= OP_PUSH_TWO || op == OP_DUP) && op != OP_WIDE && op != OP_NOP
    requires Pushed(j.c.w, j.p, FrameOf(m), m.trace, op, operand) == Some(v)
    ensures Steps(j, m, 1) == Going(Pc(m, |Wide(op, operand)|).(stack := m.stack + [v]))
  {
    hide Pushed, Wide, CodeAt;
    DecodeWide(j.p.code, m.pc, op, operand);
    var r := Step(j, m);
    assert Steps(j, m, 1) == Steps(j, r.m, 0);
  }

  lemma PopStep(j: Job, m: M)
    requires CodeAt(j.p.code, m.pc, [OP_POP, 0]) && m.stack != []
    ensures Steps(j, m, 1) == Going(Pc(m, 2).(stack := m.stack[..|m.stack| - 1]))
  {
    hide CodeAt;
    DecodeNarrow(j.p.code, m.pc, OP_POP, 0);
    var r := Step(j, m);
    assert Steps(j, m, 1) == Steps(j, r.m, 0);
  }

  lemma JumpStep(j: Job, m: M, distance: nat)
    requires CodeAt(j.p.code, m.pc, JumpOver(OP_JUMP, distance)) && distance <= 255
    ensures Steps(j, m, 1) == Going(Pc(m, 2 + distance))
  {
    hide CodeAt;
    DecodeNarrow(j.p.code, m.pc, OP_JUMP, distance);
    var r := Step(j, m);
    assert Steps(j, m, 1) == Steps(j, r.m, 0);
  }

  /** Jumps when the top of the stack is `on`. */
  lemma BranchStep(j: Job, m: M, on: bool, distance: nat)
    requires CodeAt(j.p.code, m.pc, JumpOver(if on then OP_JUMP_TRUE else OP_JUMP_FALSE, distance)) && distance <= 255 && m.stack != []
    ensures var v, rest := m.stack[|m.stack| - 1], m.stack[..|m.stack| - 1];
            Steps(j, m, 1) == if v == OfBool(on) then Going(Pc(m, 2 + distance).(stack := rest))
                              else if v == OfBool(!on) then Going(Pc(m, 2).(stack := rest)) else Aborted
  {
    hide CodeAt;
    DecodeNarrow(j.p.code, m.pc, if on then OP_JUMP_TRUE else OP_JUMP_FALSE, distance);
    var r := Step(j, m);
    assert r.Going? ==> Steps(j, m, 1) == Steps(j, r.m, 0);
  }

  lemma BackStep(j: Job, m: M, distance: nat)
    requires CodeAt(j.p.code, m.pc, Wide(OP_JUMP_BACK, distance)) && distance <= 255 && distance <= m.pc + 2
    ensures Steps(j, m, 1) == Going(m.(pc := m.pc + 2 - distance))
  {
    hide CodeAt;
    DecodeWide(j.p.code, m.pc, OP_JUMP_BACK, distance);
    var r := Step(j, m);
    assert Steps(j, m, 1) == Steps(j, r.m, 0);
  }

  lemma SendStep(j: Job, m: M, super: bool, index: nat, sel: string, base: seq<Value>, r: Value, args: seq<Value>)
    requires CodeAt(j.p.code, m.pc, Wide(if super then OP_SEND_SUPER else OP_SEND, index))
    requires index <= 255 && index < |j.p.lits| && j.p.lits[index] == Sym(sel)
    requires m.stack == base + [r] + args && |args| == Arity(sel)
    ensures var t := m.trace + [Sent(super, r, sel, args)];
            Steps(j, m, 1) == Going(Pc(m, 2).(stack := base + [j.c.w.reply(t)], trace := t + j.c.w.effects(t)))
  {
    hide CodeAt, Arity;
    DecodeWide(j.p.code, m.pc, if super then OP_SEND_SUPER else OP_SEND, index);
    var n := |m.stack| - Arity(sel);
    assert m.stack[..n - 1] == base && m.stack[n - 1] == r && m.stack[n..] == args;
    var s := Step(j, m);
    assert Steps(j, m, 1) == Steps(j, s.m, 0);
  }

  lemma AnswerStep(j: Job, m: M, op: nat, v: Value)
    requires CodeAt(j.p.code, m.pc, [op, 0]) && OP_RETURN_TOP <= op <= OP_RETURN_FALSE
    requires Returned(j.p, FrameOf(m), op) == Answer(v)
    ensures Steps(j, m, 1) == Halted(v, m.trace)
  {
    hide CodeAt, Returned;
    DecodeNarrow(j.p.code, m.pc, op, 0);
  }

  lemma StoreStep(j: Job, m: M, op: nat, operand: nat, pop: bool, v: Value, temps: seq<Value>, trace: seq<Event>)
    requires CodeAt(j.p.code, m.pc, Wide(op, operand)) && OP_STORE_TEMP <= op <= OP_POP_STORE_GLOBAL && m.stack != []
    requires Stored(j.p, FrameOf(Pc(m, |Wide(op, operand)|)), m.trace, op, operand)
             == Continue(Frame(m.pc + |Wide(op, operand)|, if pop then m.stack[..|m.stack| - 1] else m.stack, temps), trace)
    ensures Steps(j, m, 1) == Going(M(m.pc + |Wide(op, operand)|, if pop then m.stack[..|m.stack| - 1] else m.stack, temps, trace))
  {
    hide CodeAt, Stored, Wide;
    DecodeWide(j.p.code, m.pc, op, operand);
    var r := Step(j, m);
    assert Steps(j, m, 1) == Steps(j, r.m, 0);
  }

  // ---- the simulation ----

  /** Slot i holds the variable names[i], as far as it has a value. */
  ghost predicate Rel(names: seq<string>, vars: map<string, Value>, temps: seq<Value>)
  {
    && |names| <= |temps|
    && forall i :: 0 <= i < |names| && !Hidden(names[i]) && names[i] in vars ==> temps[i] == vars[names[i]]
  }

  /** The names the source knows about. */
  function Shown(names: seq<string>): seq<string>
  {
    if names == [] then []
    else
      var last := names[|names| - 1];
      Shown(names[..|names| - 1]) + (if Hidden(last) then [] else [last])
  }

  lemma {:induction false} ShownMember(names: seq<string>, x: string)
    ensures x in Shown(names) <==> x in names && !Hidden(x)
  {
    hide Hidden;
    if names != [] {
      ShownMember(names[..|names| - 1], x);
      assert names == names[..|names| - 1] + [names[|names| - 1]];
    }
  }

  lemma {:induction false} ShownScope(names: seq<string>, temps: seq<string>)
    requires Visible(temps)
    ensures Shown(names + temps) == Shown(names) + temps
  {
    hide Hidden;
    if temps == [] {
      assert names + temps == names;
    } else {
      var n := |temps| - 1;
      assert (names + temps)[..|names + temps| - 1] == names + temps[..n] && temps == temps[..n] + [temps[n]];
      ShownScope(names, temps[..n]);
    }
  }

  lemma ShownCounters(names: seq<string>)
    ensures Shown(names + [HIDDEN_COUNT, HIDDEN_INDEX]) == Shown(names)
  {
    var a := names + [HIDDEN_COUNT];
    assert (names + [HIDDEN_COUNT, HIDDEN_INDEX])[..|a|] == a && a[..|names|] == names;
  }

  /** Hidden counters are not disturbed. */
  ghost predicate Kept(names: seq<string>, temps: seq<Value>, temps': seq<Value>)
  {
    && |temps'| == |temps|
    && forall i :: 0 <= i < |names| && i < |temps| && Hidden(names[i]) ==> temps'[i] == temps[i]
  }

  ghost predicate Ready(j: Job, names: seq<string>, m: M, st: Store)
  {
    Distinct(names) && Rel(names, st.vars, m.temps) && m.trace == st.trace && j.p.receiver == j.c.receiver
  }

  ghost predicate Placed(j: Job, o: Out, m: M)
  {
    o.good && CodeAt(j.p.code, m.pc, o.bytes) && o.lits <= j.p.lits && o.peak <= |m.temps|
  }

  /** The run r of k steps got where the outcome says: to `pc` with the value on top of the
      stack exactly if it is wanted, to the answer, to the abort, or nowhere yet after at least
      as many steps as there was fuel. */
  ghost predicate Ends(names: seq<string>, base: seq<Value>, temps: seq<Value>, out: Outcome, forValue: bool, pc: nat,
                       r: Run, k: nat, fuel: nat)
  {
    match out
    case Done(v, st) =>
      && r.Going? && r.m.pc == pc
      && r.m.stack == (if forValue then base + [v] else base)
      && r.m.trace == st.trace && Rel(names, st.vars, r.m.temps) && Kept(names, temps, r.m.temps)
    case Answered(v, t) => r == Halted(v, t)
    case NotBoolean => r == Aborted
    case Unclaimed => true
    case OutOfFuel => r.Going? && k >= fuel
  }

  /** Putting k steps in front. */
  lemma Join(j: Job, names: seq<string>, m: M, k: nat, m': M, l: nat, base: seq<Value>, temps: seq<Value>,
             out: Outcome, forValue: bool, pc: nat, fuel: nat)
    requires Steps(j, m, k) == Going(m') && Kept(names, temps, m'.temps)
    requires Ends(names, base, m'.temps, out, forValue, pc, Steps(j, m', l), l, fuel)
    ensures Ends(names, base, temps, out, forValue, pc, Steps(j, m, k + l), k + l, fuel)
  {
    hide Steps, Rel;
    Chain(j, m, k, m', l);
  }

  lemma LitPlaced(j: Job, lits: seq<Value>, v: Value)
    requires LitAdd(lits, v) <= j.p.lits && LitIndex(lits, v) <= 255
    ensures Literal(j.p, LitIndex(lits, v)) == v && LitIndex(lits, v) < |j.p.lits| && j.p.lits[LitIndex(lits, v)] == v
  {
    hide LitAdd, LitIndex;
  }

  // ---- values and variables ----

  lemma EndPush(j: Job, names: seq<string>, m: M, st: Store, op: nat, operand: nat, v: Value, fuel: nat)
    requires Ready(j, names, m, st) && CodeAt(j.p.code, m.pc, Wide(op, operand))
    requires (op <= OP_PUSH_TWO || op == OP_DUP) && op != OP_WIDE && op != OP_NOP
    requires Pushed(j.c.w, j.p, FrameOf(m), m.trace, op, operand) == Some(v)
    ensures Ends(names, m.stack, m.temps, Done(v, st), true, m.pc + |Wide(op, operand)|, Steps(j, m, 1), 1, fuel)
  {
    hide Pushed, Wide, CodeAt, Steps, Distinct, Rel;
    PushStep(j, m, op, operand, v);
  }

  lemma EndInt(j: Job, names: seq<string>, n: int, lits: seq<Value>, m: M, st: Store, fuel: nat)
    requires Placed(j, GenInt(n, names, lits), m) && Ready(j, names, m, st)
    ensures Ends(names, m.stack, m.temps, Done(Int(n), st), true, m.pc + |GenInt(n, names, lits).bytes|, Steps(j, m, 1), 1, fuel)
  {
    hide Ends, CodeAt, Distinct, Rel, Steps;
    if n == -1 { EndPush(j, names, m, st, OP_PUSH_MINUS_ONE, 0, Int(n), fuel); }
    else if n == 0 { EndPush(j, names, m, st, OP_PUSH_ZERO, 0, Int(n), fuel); }
    else if n == 1 { EndPush(j, names, m, st, OP_PUSH_ONE, 0, Int(n), fuel); }
    else if n == 2 { EndPush(j, names, m, st, OP_PUSH_TWO, 0, Int(n), fuel); }
    else if 0 <= n <= 65535 { EndPush(j, names, m, st, OP_PUSH_SMALLINT, n, Int(n), fuel); }
    else {
      LitPlaced(j, lits, Int(n));
      EndPush(j, names, m, st, OP_PUSH_LIT, LitIndex(lits, Int(n)), Int(n), fuel);
    }
  }

  lemma EndRead(j: Job, names: seq<string>, name: string, lits: seq<Value>, m: M, st: Store, fuel: nat)
    requires Placed(j, GenName(j.c, name, OP_PUSH_TEMP, OP_PUSH_INSTVAR, OP_PUSH_GLOBAL, names, lits), m) && Ready(j, names, m, st)
    ensures Ends(names, m.stack, m.temps, EvalVar(j.c, Shown(names), name, st), true,
                 m.pc + |GenName(j.c, name, OP_PUSH_TEMP, OP_PUSH_INSTVAR, OP_PUSH_GLOBAL, names, lits).bytes|, Steps(j, m, 1), 1, fuel)
  {
    hide CodeAt, Distinct, Steps, Hidden, Shown;
    ShownMember(names, name);
    if name in names {
      if name in st.vars { EndPush(j, names, m, st, OP_PUSH_TEMP, Find(names, name), st.vars[name], fuel); }
    } else if name in j.c.instVars {
      EndPush(j, names, m, st, OP_PUSH_INSTVAR, Find(j.c.instVars, name), j.c.w.instVar(st.trace, j.c.receiver, Find(j.c.instVars, name)), fuel);
    } else if IsGlobal(j.c, name) {
      LitPlaced(j, lits, Assoc(name));
      EndPush(j, names, m, st, OP_PUSH_GLOBAL, LitIndex(lits, Assoc(name)), j.c.w.global(st.trace, name), fuel);
    }
  }

  lemma RelSet(names: seq<string>, vars: map<string, Value>, temps: seq<Value>, i: nat, v: Value)
    requires Distinct(names) && Rel(names, vars, temps) && i < |names| && !Hidden(names[i])
    ensures Rel(names, vars[names[i] := v], temps[i := v]) && Kept(names, temps, temps[i := v])
  {
  }

  lemma EndWrite(j: Job, names: seq<string>, name: string, forValue: bool, lits: seq<Value>, m: M, base: seq<Value>, v: Value, st: Store, fuel: nat)
    requires Placed(j, GenStore(j.c, name, forValue, names, lits), m) && Ready(j, names, m, st) && m.stack == base + [v]
    ensures Ends(names, base, m.temps, SetVar(j.c, Shown(names), name, v, st), forValue,
                 m.pc + |GenStore(j.c, name, forValue, names, lits).bytes|, Steps(j, m, 1), 1, fuel)
  {
    hide CodeAt, Distinct, Steps, Rel, Find, LitIndex, LitAdd, Hidden, Shown;
    ShownMember(names, name);
    assert m.stack[..|m.stack| - 1] == base;
    if name in names {
      var i := Find(names, name);
      StoreStep(j, m, if forValue then OP_STORE_TEMP else OP_POP_STORE_TEMP, i, !forValue, v, m.temps[i := v], m.trace);
      RelSet(names, st.vars, m.temps, i, v);
    } else if name in j.c.instVars {
      var i := Find(j.c.instVars, name);
      StoreStep(j, m, if forValue then OP_STORE_INSTVAR else OP_POP_STORE_INSTVAR, i, !forValue, v, m.temps, m.trace + [InstSet(j.c.receiver, i, v)]);
    } else if IsGlobal(j.c, name) {
      LitPlaced(j, lits, Assoc(name));
      StoreStep(j, m, if forValue then OP_STORE_GLOBAL else OP_POP_STORE_GLOBAL, LitIndex(lits, Assoc(name)), !forValue, v, m.temps,
                m.trace + [GlobalSet(name, v)]);
    }
  }

  // ---- putting runs together ----

  /** From m, after k steps. */
  ghost predicate Runs(j: Job, names: seq<string>, m: M, base: seq<Value>, out: Outcome, forValue: bool, pc: nat, k: nat, fuel: nat)
  {
    Ends(names, base, m.temps, out, forValue, pc, Steps(j, m, k), k, fuel)
  }

  /** The machine at the end of a run that is done. */
  ghost function At(j: Job, m: M, k: nat): M
    requires Steps(j, m, k).Going?
  {
    Steps(j, m, k).m
  }

  lemma DoneAt(j: Job, names: seq<string>, m: M, base: seq<Value>, out: Outcome, forValue: bool, pc: nat, k: nat, fuel: nat, st: Store)
    requires Runs(j, names, m, base, out, forValue, pc, k, fuel) && out.Done? && Ready(j, names, m, st)
    ensures Steps(j, m, k) == Going(At(j, m, k)) && At(j, m, k).pc == pc
    ensures At(j, m, k).stack == if forValue then base + [out.v] else base
    ensures Ready(j, names, At(j, m, k), out.st) && Kept(names, m.temps, At(j, m, k).temps) && |At(j, m, k).temps| == |m.temps|
  {
    hide Steps, Rel, Distinct;
  }

  lemma Lead(j: Job, names: seq<string>, m: M, k: nat, m': M, l: nat, base: seq<Value>, out: Outcome, forValue: bool, pc: nat, fuel: nat)
    requires Steps(j, m, k) == Going(m') && Kept(names, m.temps, m'.temps)
    requires Runs(j, names, m', base, out, forValue, pc, l, fuel)
    ensures Runs(j, names, m, base, out, forValue, pc, k + l, fuel)
  {
    hide Ends, Steps, Kept;
    Join(j, names, m, k, m', l, base, m.temps, out, forValue, pc, fuel);
  }

  lemma ThenJump(j: Job, names: seq<string>, m: M, base: seq<Value>, out: Outcome, forValue: bool, pc: nat, k: nat, fuel: nat, d: nat) returns (n: nat)
    requires Runs(j, names, m, base, out, forValue, pc, k, fuel)
    requires CodeAt(j.p.code, pc, JumpOver(OP_JUMP, d)) && d <= 255
    ensures Runs(j, names, m, base, out, forValue, pc + 2 + d, n, fuel)
  {
    hide Steps, Rel, CodeAt, JumpOver, Kept;
    n := k;
    if out.Done? {
      n := k + 1;
      JumpStep(j, At(j, m, k), d);
      Chain(j, m, k, At(j, m, k), 1);
    }
  }

  lemma ThenPop(j: Job, names: seq<string>, m: M, base: seq<Value>, out: Outcome, pc: nat, k: nat, fuel: nat) returns (n: nat)
    requires Runs(j, names, m, base, out, true, pc, k, fuel)
    requires CodeAt(j.p.code, pc, [OP_POP, 0])
    ensures Runs(j, names, m, base, out, false, pc + 2, n, fuel)
  {
    hide Steps, Rel, CodeAt, Kept;
    n := k;
    if out.Done? {
      n := k + 1;
      PopStep(j, At(j, m, k));
      Chain(j, m, k, At(j, m, k), 1);
    }
  }

  lemma ThenNil(j: Job, names: seq<string>, m: M, base: seq<Value>, out: Outcome, pc: nat, k: nat, fuel: nat) returns (n: nat)
    requires Runs(j, names, m, base, out, false, pc, k, fuel) && (out.Done? ==> out.v == Nil)
    requires CodeAt(j.p.code, pc, [OP_PUSH_NIL, 0])
    ensures Runs(j, names, m, base, out, true, pc + 2, n, fuel)
  {
    hide Steps, Rel, CodeAt, Kept;
    n := k;
    if out.Done? {
      n := k + 1;
      PushStep(j, At(j, m, k), OP_PUSH_NIL, 0, Nil);
      Chain(j, m, k, At(j, m, k), 1);
    }
  }

  lemma CodeSplit3(code: seq<nat>, pc: nat, a: seq<nat>, b: seq<nat>, c: seq<nat>)
    requires CodeAt(code, pc, a + b + c)
    ensures CodeAt(code, pc, a) && CodeAt(code, pc + |a|, b) && CodeAt(code, pc + |a| + |b|, c)
  {
    hide CodeAt;
    CodeSplit(code, pc, a + b, c);
    CodeSplit(code, pc, a, b);
  }

  // ---- control structures over finished parts ----

  lemma RunIf(j: Job, names: seq<string>, on: bool, body: seq<nat>, forValue: bool, m: M, base: seq<Value>, v: Value, st: Store,
              out: Outcome, k: nat, fuel: nat) returns (n: nat)
    requires CodeAt(j.p.code, m.pc, IfCode(on, body, forValue)) && |body| + (if forValue then 2 else 0) <= 255
    requires Ready(j, names, m, st) && m.stack == base + [v]
    requires v == OfBool(on) ==> Runs(j, names, m.(pc := m.pc + 2, stack := base), base, out, forValue, m.pc + 2 + |body|, k, fuel)
    ensures Runs(j, names, m, base, if v == OfBool(on) then out else if v == OfBool(!on) then Done(Nil, st) else NotBoolean, forValue,
                 m.pc + |IfCode(on, body, forValue)|, n, fuel)
  {
    hide Steps, Rel, Distinct, CodeAt;
    var d := |body| + (if forValue then 2 else 0);
    var tail := if forValue then JumpOver(OP_JUMP, 2) + [OP_PUSH_NIL, 0] else [];
    CodeSplit3(j.p.code, m.pc, JumpOver(if on then OP_JUMP_FALSE else OP_JUMP_TRUE, d), body, tail);
    assert m.stack[..|m.stack| - 1] == base;
    BranchStep(j, m, !on, d);
    var end := m.pc + 2 + |body|;
    if forValue { CodeSplit(j.p.code, end, JumpOver(OP_JUMP, 2), [OP_PUSH_NIL, 0]); }
    n := 1;
    if v == OfBool(on) {
      var m1 := m.(pc := m.pc + 2, stack := base);
      var l := k;
      if forValue { l := ThenJump(j, names, m1, base, out, true, end, k, fuel, 2); }
      Lead(j, names, m, 1, m1, l, base, out, forValue, m.pc + |IfCode(on, body, forValue)|, fuel);
      n := 1 + l;
    } else if v == OfBool(!on) {
      if forValue {
        n := ThenNil(j, names, m, base, Done(Nil, st), end + 2, 1, fuel);
      }
    }
  }

  lemma RunIfElse(j: Job, names: seq<string>, onTrue: seq<nat>, onFalse: seq<nat>, forValue: bool, m: M, base: seq<Value>, v: Value, st: Store,
                  out: Outcome, k: nat, fuel: nat) returns (n: nat)
    requires CodeAt(j.p.code, m.pc, IfElseCode(onTrue, onFalse)) && |onTrue| + 2 <= 255 && |onFalse| <= 255
    requires Ready(j, names, m, st) && m.stack == base + [v]
    requires v == True ==> Runs(j, names, m.(pc := m.pc + 2, stack := base), base, out, forValue, m.pc + 2 + |onTrue|, k, fuel)
    requires v == False ==> Runs(j, names, m.(pc := m.pc + 4 + |onTrue|, stack := base), base, out, forValue, m.pc + 4 + |onTrue| + |onFalse|, k, fuel)
    ensures Runs(j, names, m, base, if v == True || v == False then out else NotBoolean, forValue, m.pc + |IfElseCode(onTrue, onFalse)|, n, fuel)
  {
    hide Steps, Rel, Distinct, CodeAt;
    var jump := JumpOver(OP_JUMP, |onFalse|);
    CodeSplit(j.p.code, m.pc, JumpOver(OP_JUMP_FALSE, |onTrue| + 2) + onTrue + jump, onFalse);
    CodeSplit3(j.p.code, m.pc, JumpOver(OP_JUMP_FALSE, |onTrue| + 2), onTrue, jump);
    assert m.stack[..|m.stack| - 1] == base;
    BranchStep(j, m, false, |onTrue| + 2);
    var end := m.pc + |IfElseCode(onTrue, onFalse)|;
    n := 1;
    if v == True {
      var m1 := m.(pc := m.pc + 2, stack := base);
      var l := ThenJump(j, names, m1, base, out, forValue, m.pc + 2 + |onTrue|, k, fuel, |onFalse|);
      Lead(j, names, m, 1, m1, l, base, out, forValue, end, fuel);
      n := 1 + l;
    } else if v == False {
      Lead(j, names, m, 1, m.(pc := m.pc + 4 + |onTrue|, stack := base), k, base, out, forValue, end, fuel);
      n := 1 + k;
    }
  }

  lemma RunLogic(j: Job, names: seq<string>, stop: bool, rest: seq<nat>, m: M, base: seq<Value>, v: Value, st: Store,
                 out: Outcome, k: nat, fuel: nat) returns (n: nat)
    requires CodeAt(j.p.code, m.pc, LogicCode(stop, rest, true)) && |rest| + 2 <= 255
    requires Ready(j, names, m, st) && m.stack == base + [v]
    requires v == OfBool(!stop) ==> Runs(j, names, m.(pc := m.pc + 2, stack := base), base, out, true, m.pc + 2 + |rest|, k, fuel)
    ensures Runs(j, names, m, base, if v == OfBool(stop) then Done(v, st) else if v == OfBool(!stop) then out else NotBoolean, true,
                 m.pc + |LogicCode(stop, rest, true)|, n, fuel)
  {
    hide Steps, Rel, Distinct, CodeAt;
    var push := if stop then OP_PUSH_TRUE else OP_PUSH_FALSE;
    var jump := JumpOver(if stop then OP_JUMP_TRUE else OP_JUMP_FALSE, |rest| + 2);
    assert LogicCode(stop, rest, true) == jump + rest + (JumpOver(OP_JUMP, 2) + [push, 0]);
    CodeSplit3(j.p.code, m.pc, jump, rest, JumpOver(OP_JUMP, 2) + [push, 0]);
    var end := m.pc + 2 + |rest|;
    CodeSplit(j.p.code, end, JumpOver(OP_JUMP, 2), [push, 0]);
    assert m.stack[..|m.stack| - 1] == base;
    BranchStep(j, m, stop, |rest| + 2);
    n := 1;
    if v == OfBool(stop) {
      var m1 := m.(pc := end + 2, stack := base);
      EndPush(j, names, m1, st, push, 0, v, fuel);
      Lead(j, names, m, 1, m1, 1, base, Done(v, st), true, end + 4, fuel);
      n := 2;
    } else if v == OfBool(!stop) {
      var m1 := m.(pc := m.pc + 2, stack := base);
      var l := ThenJump(j, names, m1, base, out, true, end, k, fuel, 2);
      Lead(j, names, m, 1, m1, l, base, out, true, end + 4, fuel);
      n := 1 + l;
    }
  }

  // ---- block scopes ----

  lemma EnterBlock(j: Job, names: seq<string>, temps: seq<string>, m: M, st: Store)
    requires Ready(j, names, m, st) && Distinct(names + temps) && |names + temps| <= |m.temps|
    ensures Ready(j, names + temps, m, st.(vars := Entered(false, st.vars, temps)))
  {
    hide Distinct, Hidden;
    var all := names + temps;
    assert forall i :: |names| <= i < |all| ==> all[i] == temps[i - |names|] && all[i] in NameSet(temps);
  }

  lemma LeaveBlock(names: seq<string>, temps: seq<string>, base: seq<Value>, slots: seq<Value>, outer: map<string, Value>, out: Outcome,
                   forValue: bool, pc: nat, r: Run, k: nat, fuel: nat)
    requires Ends(names + temps, base, slots, out, forValue, pc, r, k, fuel) && Distinct(names + temps)
    ensures Ends(names, base, slots, if out.Done? then Done(out.v, out.st.(vars := Left(outer, out.st.vars, temps))) else out, forValue, pc, r, k, fuel)
  {
    hide Hidden;
    var all := names + temps;
    assert forall i :: 0 <= i < |names| ==> names[i] == all[i];
    assert forall l :: 0 <= l < |temps| ==> temps[l] == all[|names| + l];
  }

  // ---- timesRepeat: ----

  lemma RunTimesTest(j: Job, slot: nat, le: nat, m: M, st: Store)
    requires CodeAt(j.p.code, m.pc, TimesTest(slot, le)) && slot + 1 < |m.temps| && m.trace == st.trace
    requires le <= 255 && le < |j.p.lits| && j.p.lits[le] == Sym("<=")
    ensures var t := SendMsg(j.c, false, m.temps[slot + 1], "<=", [m.temps[slot]], st);
            Steps(j, m, 3) == Going(Pc(m, |TimesTest(slot, le)|).(stack := m.stack + [t.v], trace := t.st.trace))
  {
    hide Steps, CodeAt, Wide;
    CodeSplit3(j.p.code, m.pc, Wide(OP_PUSH_TEMP, slot + 1), Wide(OP_PUSH_TEMP, slot), Wide(OP_SEND, le));
    PushStep(j, m, OP_PUSH_TEMP, slot + 1, m.temps[slot + 1]);
    var m1 := Pc(m, |Wide(OP_PUSH_TEMP, slot + 1)|).(stack := m.stack + [m.temps[slot + 1]]);
    PushStep(j, m1, OP_PUSH_TEMP, slot, m.temps[slot]);
    var m2 := Pc(m1, |Wide(OP_PUSH_TEMP, slot)|).(stack := m1.stack + [m.temps[slot]]);
    Chain(j, m, 1, m1, 1);
    SendStep(j, m2, false, le, "<=", m.stack, m.temps[slot + 1], [m.temps[slot]]);
    Chain(j, m, 2, m2, 1);
  }

  lemma RunTimesNext(j: Job, slot: nat, plus: nat, m: M, st: Store)
    requires CodeAt(j.p.code, m.pc, TimesNext(slot, plus)) && slot + 1 < |m.temps| && m.trace == st.trace
    requires plus <= 255 && plus < |j.p.lits| && j.p.lits[plus] == Sym("+")
    ensures var t := SendMsg(j.c, false, m.temps[slot + 1], "+", [Int(1)], st);
            Steps(j, m, 4) == Going(Pc(m, |TimesNext(slot, plus)|).(temps := m.temps[slot + 1 := t.v], trace := t.st.trace))
  {
    hide Steps, CodeAt, Wide;
    var t := SendMsg(j.c, false, m.temps[slot + 1], "+", [Int(1)], st);
    CodeSplit(j.p.code, m.pc, Wide(OP_PUSH_TEMP, slot + 1) + [OP_PUSH_ONE, 0] + Wide(OP_SEND, plus), Wide(OP_POP_STORE_TEMP, slot + 1));
    CodeSplit3(j.p.code, m.pc, Wide(OP_PUSH_TEMP, slot + 1), [OP_PUSH_ONE, 0], Wide(OP_SEND, plus));
    PushStep(j, m, OP_PUSH_TEMP, slot + 1, m.temps[slot + 1]);
    var m1 := Pc(m, |Wide(OP_PUSH_TEMP, slot + 1)|).(stack := m.stack + [m.temps[slot + 1]]);
    OneStep(j, m1);
    var m2 := Pc(m1, 2).(stack := m1.stack + [Int(1)]);
    Chain(j, m, 1, m1, 1);
    SendStep(j, m2, false, plus, "+", m.stack, m.temps[slot + 1], [Int(1)]);
    var m3 := Pc(m2, 2).(stack := m.stack + [t.v], trace := t.st.trace);
    Chain(j, m, 2, m2, 1);
    StoreStep(j, m3, OP_POP_STORE_TEMP, slot + 1, true, t.v, m.temps[slot + 1 := t.v], m3.trace);
    Chain(j, m, 3, m3, 1);
    assert m3.stack[..|m3.stack| - 1] == m.stack;
  }

  lemma OneStep(j: Job, m: M)
    requires CodeAt(j.p.code, m.pc, [OP_PUSH_ONE, 0])
    ensures Steps(j, m, 1) == Going(Pc(m, 2).(stack := m.stack + [Int(1)]))
  {
    hide Steps, CodeAt;
    PushStep(j, m, OP_PUSH_ONE, 0, Int(1));
  }

  lemma RunTimesHead(j: Job, slot: nat, m: M, base: seq<Value>, count: Value)
    requires CodeAt(j.p.code, m.pc, TimesHead(slot)) && slot + 1 < |m.temps| && m.stack == base + [count]
    ensures Steps(j, m, 3) == Going(Pc(m, |TimesHead(slot)|).(stack := base, temps := m.temps[slot := count][slot + 1 := Int(1)]))
  {
    hide Steps, CodeAt, Wide;
    CodeSplit3(j.p.code, m.pc, Wide(OP_POP_STORE_TEMP, slot), [OP_PUSH_ONE, 0], Wide(OP_POP_STORE_TEMP, slot + 1));
    assert m.stack[..|m.stack| - 1] == base;
    StoreStep(j, m, OP_POP_STORE_TEMP, slot, true, count, m.temps[slot := count], m.trace);
    var m1 := Pc(m, |Wide(OP_POP_STORE_TEMP, slot)|).(stack := base, temps := m.temps[slot := count]);
    OneStep(j, m1);
    var m2 := Pc(m1, 2).(stack := base + [Int(1)]);
    Chain(j, m, 1, m1, 1);
    assert m2.stack[..|m2.stack| - 1] == base;
    StoreStep(j, m2, OP_POP_STORE_TEMP, slot + 1, true, Int(1), m1.temps[slot + 1 := Int(1)], m.trace);
    Chain(j, m, 2, m2, 1);
  }

  // ---- the simulation, following the evaluation ----

  /** The code of a node, run from a state that agrees with the store, ends as its evaluation says. */
  lemma {:induction false} SimNode(j: Job, names: seq<string>, node: Node, forValue: bool, lits: seq<Value>, m: M, st: Store, fuel: nat) returns (k: nat)
    requires Placed(j, Gen(j.c, node, forValue, names, lits), m) && Ready(j, names, m, st)
    ensures Runs(j, names, m, m.stack, Eval(false, j.c, Shown(names), node, st, fuel), forValue, m.pc + |Gen(j.c, node, forValue, names, lits).bytes|, k, fuel)
    decreases fuel, node, 2
  {
    hide Steps, Rel, Distinct, CodeAt, FormOf, Ends, GenName, GenInt, EvalVar, LitIndex, LitAdd;
    match node {
      case Assign(name, value) => k := SimAssign(j, names, node, forValue, lits, m, st, fuel);
      case Return(expr) => k := SimReturn(j, names, node, forValue, lits, m, st, fuel);
      case Send(_, _, _, _) =>
        if FormOf(node).Loop? { k := SimLoopNode(j, names, node, forValue, lits, m, st, fuel); }
        else { k := SimSend(j, names, node, forValue, lits, m, st, fuel); }
      case Block(_, _) => k := 0; EndUnclaimed(j, names, m, m.stack, forValue, m.pc, fuel);
      case _ => k := SimLeaf(j, names, node, forValue, lits, m, st, fuel);
    }
  }

  lemma EndUnclaimed(j: Job, names: seq<string>, m: M, base: seq<Value>, forValue: bool, pc: nat, fuel: nat)
    ensures Runs(j, names, m, base, Unclaimed, forValue, pc, 0, fuel)
  {
  }

  lemma EndNothing(j: Job, names: seq<string>, m: M, st: Store, v: Value, fuel: nat)
    requires Ready(j, names, m, st)
    ensures Runs(j, names, m, m.stack, Done(v, st), false, m.pc, 0, fuel)
  {
  }

  lemma SimLeaf(j: Job, names: seq<string>, node: Node, forValue: bool, lits: seq<Value>, m: M, st: Store, fuel: nat) returns (k: nat)
    requires node.Self? || node.NilLit? || node.BoolLit? || node.IntLit? || node.Lit? || node.Var?
    requires Placed(j, Gen(j.c, node, forValue, names, lits), m) && Ready(j, names, m, st)
    ensures Runs(j, names, m, m.stack, Eval(false, j.c, Shown(names), node, st, fuel), forValue, m.pc + |Gen(j.c, node, forValue, names, lits).bytes|, k, fuel)
  {
    hide Ends, CodeAt, Distinct, Rel, Steps, LitIndex, LitAdd, GenName, GenInt;
    if !forValue {
      k := 0;
      var out := Eval(false, j.c, Shown(names), node, st, fuel);
      if out.Done? { EndNothing(j, names, m, st, out.v, fuel); } else { EndUnclaimed(j, names, m, m.stack, false, m.pc, fuel); }
    } else {
      k := 1;
      match node {
        case Self => EndPush(j, names, m, st, OP_PUSH_RECEIVER, 0, j.c.receiver, fuel);
        case NilLit => EndPush(j, names, m, st, OP_PUSH_NIL, 0, Nil, fuel);
        case BoolLit(b) => EndPush(j, names, m, st, if b then OP_PUSH_TRUE else OP_PUSH_FALSE, 0, OfBool(b), fuel);
        case IntLit(n) => EndInt(j, names, n, lits, m, st, fuel);
        case Lit(v) =>
          LitPlaced(j, lits, v);
          EndPush(j, names, m, st, OP_PUSH_LIT, LitIndex(lits, v), v, fuel);
        case Var(name) => EndRead(j, names, name, lits, m, st, fuel);
      }
    }
  }

  /** An outcome that leaves the code does so whatever was to follow. */
  lemma Leaves(j: Job, names: seq<string>, m: M, base: seq<Value>, out: Outcome, forValue: bool, pc: nat, k: nat, fuel: nat,
               names': seq<string>, base': seq<Value>, forValue': bool, pc': nat)
    requires Runs(j, names, m, base, out, forValue, pc, k, fuel) && !out.Done?
    ensures Runs(j, names', m, base', out, forValue', pc', k, fuel)
  {
    hide Steps, Rel, Kept;
  }

  lemma {:induction false} SimAssign(j: Job, names: seq<string>, node: Node, forValue: bool, lits: seq<Value>, m: M, st: Store, fuel: nat) returns (k: nat)
    requires node.Assign?
    requires Placed(j, Gen(j.c, node, forValue, names, lits), m) && Ready(j, names, m, st)
    ensures Runs(j, names, m, m.stack, Eval(false, j.c, Shown(names), node, st, fuel), forValue, m.pc + |Gen(j.c, node, forValue, names, lits).bytes|, k, fuel)
    decreases fuel, node, 1
  {
    hide Steps, Rel, Distinct, CodeAt, Ends, GenStore, SetVar;
    var v := Gen(j.c, node.value, true, names, lits);
    var s := GenStore(j.c, node.name, forValue, names, v.lits);
    CodeSplit(j.p.code, m.pc, v.bytes, s.bytes);
    k := SimNode(j, names, node.value, true, lits, m, st, fuel);
    var out := Eval(false, j.c, Shown(names), node.value, st, fuel);
    var mid, end := m.pc + |v.bytes|, m.pc + |v.bytes| + |s.bytes|;
    if out.Done? {
      DoneAt(j, names, m, m.stack, out, true, mid, k, fuel, st);
      EndWrite(j, names, node.name, forValue, v.lits, At(j, m, k), m.stack, out.v, out.st, fuel);
      Lead(j, names, m, k, At(j, m, k), 1, m.stack, SetVar(j.c, Shown(names), node.name, out.v, out.st), forValue, end, fuel);
      k := k + 1;
    } else {
      Leaves(j, names, m, m.stack, out, true, mid, k, fuel, names, m.stack, forValue, end);
    }
  }

  lemma EndAnswer(j: Job, names: seq<string>, m: M, st: Store, base: seq<Value>, op: nat, v: Value, forValue: bool, pc: nat, fuel: nat)
    requires Ready(j, names, m, st) && CodeAt(j.p.code, m.pc, [op, 0])
    requires OP_RETURN_TOP <= op <= OP_RETURN_FALSE && Returned(j.p, FrameOf(m), op) == Answer(v)
    ensures Runs(j, names, m, base, Answered(v, st.trace), forValue, pc, 1, fuel)
  {
    hide Steps, Rel, Distinct, CodeAt, Returned;
    AnswerStep(j, m, op, v);
  }

  lemma {:induction false} SimReturn(j: Job, names: seq<string>, node: Node, forValue: bool, lits: seq<Value>, m: M, st: Store, fuel: nat) returns (k: nat)
    requires node.Return?
    requires Placed(j, Gen(j.c, node, forValue, names, lits), m) && Ready(j, names, m, st)
    ensures Runs(j, names, m, m.stack, Eval(false, j.c, Shown(names), node, st, fuel), forValue, m.pc + |Gen(j.c, node, forValue, names, lits).bytes|, k, fuel)
    decreases fuel, node, 1
  {
    hide Steps, Rel, Distinct, CodeAt, Ends;
    var end := m.pc + |Gen(j.c, node, forValue, names, lits).bytes|;
    k := 1;
    match node.expr {
      case NilLit => EndAnswer(j, names, m, st, m.stack, OP_RETURN_NIL, Nil, forValue, end, fuel);
      case BoolLit(b) => EndAnswer(j, names, m, st, m.stack, if b then OP_RETURN_TRUE else OP_RETURN_FALSE, OfBool(b), forValue, end, fuel);
      case Self => EndAnswer(j, names, m, st, m.stack, OP_RETURN_SELF, j.c.receiver, forValue, end, fuel);
      case _ => k := SimReturnTop(j, names, node, forValue, lits, m, st, fuel);
    }
  }

  lemma {:induction false} SimReturnTop(j: Job, names: seq<string>, node: Node, forValue: bool, lits: seq<Value>, m: M, st: Store, fuel: nat) returns (k: nat)
    requires node.Return? && !node.expr.NilLit? && !node.expr.BoolLit? && !node.expr.Self?
    requires Placed(j, Gen(j.c, node, forValue, names, lits), m) && Ready(j, names, m, st)
    ensures Runs(j, names, m, m.stack, Eval(false, j.c, Shown(names), node, st, fuel), forValue, m.pc + |Gen(j.c, node, forValue, names, lits).bytes|, k, fuel)
    decreases fuel, node, 0
  {
    hide Steps, Rel, Distinct, CodeAt, Ends;
    var end := m.pc + |Gen(j.c, node, forValue, names, lits).bytes|;
    var v := Gen(j.c, node.expr, true, names, lits);
    CodeSplit(j.p.code, m.pc, v.bytes, [OP_RETURN_TOP, 0]);
    k := SimNode(j, names, node.expr, true, lits, m, st, fuel);
    var out := Eval(false, j.c, Shown(names), node.expr, st, fuel);
    if out.Done? {
      DoneAt(j, names, m, m.stack, out, true, m.pc + |v.bytes|, k, fuel, st);
      EndAnswer(j, names, At(j, m, k), out.st, m.stack, OP_RETURN_TOP, out.v, forValue, end, fuel);
      Lead(j, names, m, k, At(j, m, k), 1, m.stack, Answered(out.v, out.st.trace), forValue, end, fuel);
      k := k + 1;
    } else {
      Leaves(j, names, m, m.stack, out, true, m.pc + |v.bytes|, k, fuel, names, m.stack, forValue, end);
    }
  }

  lemma {:induction false} SimSend(j: Job, names: seq<string>, node: Node, forValue: bool, lits: seq<Value>, m: M, st: Store, fuel: nat) returns (k: nat)
    requires node.Send? && !FormOf(node).Loop?
    requires Placed(j, Gen(j.c, node, forValue, names, lits), m) && Ready(j, names, m, st)
    ensures Runs(j, names, m, m.stack, Eval(false, j.c, Shown(names), node, st, fuel), forValue, m.pc + |Gen(j.c, node, forValue, names, lits).bytes|, k, fuel)
    decreases fuel, node, 1
  {
    hide Steps, Rel, Distinct, CodeAt, Ends, FormOf, EvalRest, GenRest, Shown;
    if node.super {
      var r := Op(true, OP_PUSH_RECEIVER, names, lits);
      CodeSplit(j.p.code, m.pc, r.bytes, GenRest(j.c, node, forValue, names, lits).bytes);
      EndPush(j, names, m, st, OP_PUSH_RECEIVER, 0, j.c.receiver, fuel);
      k := ThenRest(j, names, node, forValue, r, m, st, Done(j.c.receiver, st), 1, fuel);
    } else {
      var r := Gen(j.c, node.recv, true, names, lits);
      CodeSplit(j.p.code, m.pc, r.bytes, GenRest(j.c, node, forValue, names, r.lits).bytes);
      k := SimNode(j, names, node.recv, true, lits, m, st, fuel);
      k := ThenRest(j, names, node, forValue, r, m, st, Eval(false, j.c, Shown(names), node.recv, st, fuel), k, fuel);
    }
  }

  /** A send once the code of its receiver has run. */
  lemma {:induction false} ThenRest(j: Job, names: seq<string>, node: Node, forValue: bool, r: Out, m: M, st: Store, out: Outcome, l: nat, fuel: nat) returns (k: nat)
    requires node.Send? && !FormOf(node).Loop? && Ready(j, names, m, st)
    requires Runs(j, names, m, m.stack, out, true, m.pc + |r.bytes|, l, fuel)
    requires Placed(j, GenRest(j.c, node, forValue, names, r.lits), Pc(m, |r.bytes|))
    ensures Runs(j, names, m, m.stack, if out.Done? then EvalRest(false, j.c, Shown(names), node, out.v, out.st, fuel) else out, forValue,
                 m.pc + |r.bytes| + |GenRest(j.c, node, forValue, names, r.lits).bytes|, k, fuel)
    decreases fuel, node, 0, 1
  {
    hide Steps, Rel, Distinct, CodeAt, Ends, FormOf, EvalRest, GenRest, Shown;
    var mid := m.pc + |r.bytes|;
    var end := mid + |GenRest(j.c, node, forValue, names, r.lits).bytes|;
    k := l;
    if out.Done? {
      DoneAt(j, names, m, m.stack, out, true, mid, l, fuel, st);
      var n := SimRest(j, names, node, forValue, r.lits, At(j, m, l), m.stack, out.v, out.st, fuel);
      Lead(j, names, m, l, At(j, m, l), n, m.stack, EvalRest(false, j.c, Shown(names), node, out.v, out.st, fuel), forValue, end, fuel);
      k := l + n;
    } else {
      Leaves(j, names, m, m.stack, out, true, mid, l, fuel, names, m.stack, forValue, end);
    }
  }

  lemma {:induction false} SimRest(j: Job, names: seq<string>, node: Node, forValue: bool, lits: seq<Value>, m: M, base: seq<Value>, v: Value, st: Store, fuel: nat) returns (k: nat)
    requires node.Send? && !FormOf(node).Loop?
    requires Placed(j, GenRest(j.c, node, forValue, names, lits), m) && Ready(j, names, m, st) && m.stack == base + [v]
    ensures Runs(j, names, m, base, EvalRest(false, j.c, Shown(names), node, v, st, fuel), forValue, m.pc + |GenRest(j.c, node, forValue, names, lits).bytes|, k, fuel)
    decreases fuel, node, 0, 0
  {
    hide Steps, Rel, Distinct, CodeAt, Ends, FormOf;
    var form := FormOf(node);
    if form.If? { k := SimIf(j, names, node, forValue, lits, m, base, v, st, fuel); }
    else if form.IfElse? { k := SimIfElse(j, names, node, forValue, lits, m, base, v, st, fuel); }
    else if form.Logic? { k := SimLogic(j, names, node, forValue, lits, m, base, v, st, fuel); }
    else if form.Times? { k := SimTimes(j, names, node, forValue, lits, m, base, v, st, fuel); }
    else { k := SimPlain(j, names, node, forValue, lits, m, base, v, st, fuel); }
  }

  /** A state with the condition taken off the stack. */
  lemma Popped(j: Job, names: seq<string>, m: M, st: Store, pc: nat, base: seq<Value>)
    requires Ready(j, names, m, st)
    ensures Ready(j, names, m.(pc := pc, stack := base), st)
  {
  }

  lemma {:induction false} SimIf(j: Job, names: seq<string>, node: Node, forValue: bool, lits: seq<Value>, m: M, base: seq<Value>, v: Value, st: Store, fuel: nat) returns (k: nat)
    requires node.Send? && FormOf(node).If?
    requires Placed(j, GenRest(j.c, node, forValue, names, lits), m) && Ready(j, names, m, st) && m.stack == base + [v]
    ensures Runs(j, names, m, base, EvalRest(false, j.c, Shown(names), node, v, st, fuel), forValue, m.pc + |GenRest(j.c, node, forValue, names, lits).bytes|, k, fuel)
    decreases fuel, node, 0, 0, 0
  {
    hide Steps, Rel, Distinct, CodeAt, Ends, FormOf, EvalBlock, GenBlock;
    var form := FormOf(node);
    var b := GenBlock(j.c, form.then_, forValue, names, lits);
    var tail := if forValue then JumpOver(OP_JUMP, 2) + [OP_PUSH_NIL, 0] else [];
    CodeSplit3(j.p.code, m.pc, JumpOver(if form.on then OP_JUMP_FALSE else OP_JUMP_TRUE, |b.bytes| + (if forValue then 2 else 0)), b.bytes, tail);
    var l := 0;
    if v == OfBool(form.on) {
      Popped(j, names, m, st, m.pc + 2, base);
      l := SimBlock(j, names, form.then_, forValue, lits, m.(pc := m.pc + 2, stack := base), st, fuel);
    }
    k := RunIf(j, names, form.on, b.bytes, forValue, m, base, v, st, EvalBlock(false, j.c, Shown(names), form.then_, st, fuel), l, fuel);
  }

  lemma {:induction false} SimIfElse(j: Job, names: seq<string>, node: Node, forValue: bool, lits: seq<Value>, m: M, base: seq<Value>, v: Value, st: Store, fuel: nat) returns (k: nat)
    requires node.Send? && FormOf(node).IfElse?
    requires Placed(j, GenRest(j.c, node, forValue, names, lits), m) && Ready(j, names, m, st) && m.stack == base + [v]
    ensures Runs(j, names, m, base, EvalRest(false, j.c, Shown(names), node, v, st, fuel), forValue, m.pc + |GenRest(j.c, node, forValue, names, lits).bytes|, k, fuel)
    decreases fuel, node, 0, 0, 0
  {
    hide Steps, Rel, Distinct, CodeAt, Ends, FormOf, EvalBlock, GenBlock;
    var form := FormOf(node);
    var t := GenBlock(j.c, form.onTrue, forValue, names, lits);
    var e := GenBlock(j.c, form.onFalse, forValue, names, t.lits);
    CodeSplit(j.p.code, m.pc, JumpOver(OP_JUMP_FALSE, |t.bytes| + 2) + t.bytes + JumpOver(OP_JUMP, |e.bytes|), e.bytes);
    CodeSplit3(j.p.code, m.pc, JumpOver(OP_JUMP_FALSE, |t.bytes| + 2), t.bytes, JumpOver(OP_JUMP, |e.bytes|));
    var l := 0;
    var out := NotBoolean;
    if v == True {
      Popped(j, names, m, st, m.pc + 2, base);
      l := SimBlock(j, names, form.onTrue, forValue, lits, m.(pc := m.pc + 2, stack := base), st, fuel);
      out := EvalBlock(false, j.c, Shown(names), form.onTrue, st, fuel);
    } else if v == False {
      Popped(j, names, m, st, m.pc + 4 + |t.bytes|, base);
      l := SimBlock(j, names, form.onFalse, forValue, t.lits, m.(pc := m.pc + 4 + |t.bytes|, stack := base), st, fuel);
      out := EvalBlock(false, j.c, Shown(names), form.onFalse, st, fuel);
    }
    k := RunIfElse(j, names, t.bytes, e.bytes, forValue, m, base, v, st, out, l, fuel);
  }

  lemma {:induction false} SimLogic(j: Job, names: seq<string>, node: Node, forValue: bool, lits: seq<Value>, m: M, base: seq<Value>, v: Value, st: Store, fuel: nat) returns (k: nat)
    requires node.Send? && FormOf(node).Logic?
    requires Placed(j, GenRest(j.c, node, forValue, names, lits), m) && Ready(j, names, m, st) && m.stack == base + [v]
    ensures Runs(j, names, m, base, EvalRest(false, j.c, Shown(names), node, v, st, fuel), forValue, m.pc + |GenRest(j.c, node, forValue, names, lits).bytes|, k, fuel)
    decreases fuel, node, 0, 0, 0
  {
    hide Steps, Rel, Distinct, CodeAt, Ends, FormOf, EvalBlock, GenBlock;
    var form := FormOf(node);
    var b := GenBlock(j.c, form.rest, true, names, lits);
    var code := LogicCode(form.stop, b.bytes, true);
    assert LogicCode(form.stop, b.bytes, forValue) == code + (if forValue then [] else [OP_POP, 0]);
    CodeSplit(j.p.code, m.pc, code, if forValue then [] else [OP_POP, 0]);
    LogicBody(j.p.code, m.pc, form.stop, b.bytes);
    var l := 0;
    if v == OfBool(!form.stop) {
      Popped(j, names, m, st, m.pc + 2, base);
      l := SimBlock(j, names, form.rest, true, lits, m.(pc := m.pc + 2, stack := base), st, fuel);
    }
    k := RunLogic(j, names, form.stop, b.bytes, m, base, v, st, EvalBlock(false, j.c, Shown(names), form.rest, st, fuel), l, fuel);
    if !forValue {
      k := ThenPop(j, names, m, base, EvalRest(false, j.c, Shown(names), node, v, st, fuel), m.pc + |code|, k, fuel);
    }
  }

  lemma LogicBody(code: seq<nat>, pc: nat, stop: bool, rest: seq<nat>)
    requires CodeAt(code, pc, LogicCode(stop, rest, true))
    ensures CodeAt(code, pc + 2, rest)
  {
    hide CodeAt;
    var jump := JumpOver(if stop then OP_JUMP_TRUE else OP_JUMP_FALSE, |rest| + 2);
    var tail := JumpOver(OP_JUMP, 2) + [if stop then OP_PUSH_TRUE else OP_PUSH_FALSE, 0];
    assert LogicCode(stop, rest, true) == jump + rest + tail;
    CodeSplit3(code, pc, jump, rest, tail);
  }

  /** Arguments accumulate on the stack. */
  ghost predicate ArgsEnd(j: Job, names: seq<string>, m: M, rs: Args, pc: nat, k: nat, fuel: nat)
  {
    var r := Steps(j, m, k);
    match rs
    case Values(vs, st) =>
      r.Going? && r.m.pc == pc && r.m.stack == m.stack + vs && Ready(j, names, r.m, st) && Kept(names, m.temps, r.m.temps)
    case Cut(out) => Runs(j, names, m, m.stack, out, true, pc, k, fuel)
  }

  lemma {:induction false} SimArgs(j: Job, names: seq<string>, args: seq<Node>, lits: seq<Value>, m: M, st: Store, fuel: nat) returns (k: nat)
    requires Placed(j, GenArgs(j.c, args, names, lits), m) && Ready(j, names, m, st)
    ensures ArgsEnd(j, names, m, EvalArgs(false, j.c, Shown(names), args, st, fuel), m.pc + |GenArgs(j.c, args, names, lits).bytes|, k, fuel)
    decreases fuel, args, 1
  {
    hide Rel, Distinct, CodeAt, Ends, Gen, Eval, Step;
    k := 0;
    if args != [] {
      var a := Gen(j.c, args[0], true, names, lits);
      var rest := GenArgs(j.c, args[1..], names, a.lits);
      CodeSplit(j.p.code, m.pc, a.bytes, rest.bytes);
      k := SimNode(j, names, args[0], true, lits, m, st, fuel);
      var out := Eval(false, j.c, Shown(names), args[0], st, fuel);
      var mid, end := m.pc + |a.bytes|, m.pc + |a.bytes| + |rest.bytes|;
      if out.Done? {
        DoneAt(j, names, m, m.stack, out, true, mid, k, fuel, st);
        var m1 := At(j, m, k);
        var l := SimArgs(j, names, args[1..], a.lits, m1, out.st, fuel);
        ArgsJoin(j, names, m, k, m1, out.v, EvalArgs(false, j.c, Shown(names), args[1..], out.st, fuel), end, l, fuel);
        k := k + l;
      } else {
        Leaves(j, names, m, m.stack, out, true, mid, k, fuel, names, m.stack, true, end);
      }
    }
  }

  lemma ArgsJoin(j: Job, names: seq<string>, m: M, k: nat, m1: M, v: Value, rs: Args, pc: nat, l: nat, fuel: nat)
    requires Steps(j, m, k) == Going(m1) && m1.stack == m.stack + [v] && Kept(names, m.temps, m1.temps)
    requires ArgsEnd(j, names, m1, rs, pc, l, fuel) && (rs.Cut? ==> !rs.other.Done?)
    ensures ArgsEnd(j, names, m, if rs.Values? then Values([v] + rs.vs, rs.st) else rs, pc, k + l, fuel)
  {
    hide Steps, Rel, Distinct;
    Chain(j, m, k, m1, l);
  }

  lemma {:induction false} SimPlain(j: Job, names: seq<string>, node: Node, forValue: bool, lits: seq<Value>, m: M, base: seq<Value>, v: Value, st: Store, fuel: nat) returns (k: nat)
    requires node.Send? && FormOf(node).Plain?
    requires Placed(j, GenRest(j.c, node, forValue, names, lits), m) && Ready(j, names, m, st) && m.stack == base + [v]
    ensures Runs(j, names, m, base, EvalRest(false, j.c, Shown(names), node, v, st, fuel), forValue, m.pc + |GenRest(j.c, node, forValue, names, lits).bytes|, k, fuel)
    decreases fuel, node, 0, 0, 0
  {
    hide Steps, Rel, Distinct, CodeAt, Ends, FormOf, EvalArgs, GenArgs, LitIndex, LitAdd, SendMsg;
    var a := GenArgs(j.c, node.args, names, lits);
    var s := LitIndex(a.lits, Sym(node.selector));
    var send := Wide(if node.super then OP_SEND_SUPER else OP_SEND, s);
    CodeSplit3(j.p.code, m.pc, a.bytes, send, if forValue then [] else [OP_POP, 0]);
    var l := SimArgs(j, names, node.args, lits, m, st, fuel);
    k := RunPlain(j, names, node, a, m, base, v, EvalArgs(false, j.c, Shown(names), node.args, st, fuel), l, fuel);
    if !forValue {
      k := ThenPop(j, names, m, base, EvalRest(false, j.c, Shown(names), node, v, st, fuel), m.pc + |a.bytes| + 2, k, fuel);
    }
  }

  lemma RunPlain(j: Job, names: seq<string>, node: Node, a: Out, m: M, base: seq<Value>, v: Value, rs: Args, l: nat, fuel: nat) returns (k: nat)
    requires node.Send? && |node.args| == Arity(node.selector) && m.stack == base + [v]
    requires LitAdd(a.lits, Sym(node.selector)) <= j.p.lits && LitIndex(a.lits, Sym(node.selector)) <= 255
    requires CodeAt(j.p.code, m.pc + |a.bytes|, Wide(if node.super then OP_SEND_SUPER else OP_SEND, LitIndex(a.lits, Sym(node.selector))))
    requires ArgsEnd(j, names, m, rs, m.pc + |a.bytes|, l, fuel)
    requires if rs.Values? then |rs.vs| == |node.args| else !rs.other.Done?
    ensures Runs(j, names, m, base, if rs.Values? then SendMsg(j.c, node.super, v, node.selector, rs.vs, rs.st) else rs.other, true,
                 m.pc + |a.bytes| + 2, k, fuel)
  {
    hide Steps, Rel, Distinct, CodeAt, LitIndex, LitAdd, Arity;
    k := l;
    if rs.Values? {
      k := l + 1;
      LitPlaced(j, a.lits, Sym(node.selector));
      SendStep(j, At(j, m, l), node.super, LitIndex(a.lits, Sym(node.selector)), node.selector, base, v, rs.vs);
      Chain(j, m, l, At(j, m, l), 1);
    }
  }

  // ---- blocks and statements ----

  lemma {:induction false} SimBlock(j: Job, names: seq<string>, b: Node, forValue: bool, lits: seq<Value>, m: M, st: Store, fuel: nat) returns (k: nat)
    requires b.Block? && Placed(j, GenBlock(j.c, b, forValue, names, lits), m) && Ready(j, names, m, st)
    ensures Runs(j, names, m, m.stack, EvalBlock(false, j.c, Shown(names), b, st, fuel), forValue, m.pc + |GenBlock(j.c, b, forValue, names, lits).bytes|, k, fuel)
    decreases fuel, b, 1
  {
    hide Steps, Rel, Distinct, CodeAt, Ends, EvalStmts, GenStmts;
    if b.body == [] {
      k := EndEmpty(j, names, forValue, m, st, fuel);
    } else {
      EnterBlock(j, names, b.temps, m, st);
      ShownScope(names, b.temps);
      k := SimStmts(j, names + b.temps, b.body, forValue, lits, m, st.(vars := Entered(false, st.vars, b.temps)), fuel);
      LeaveBlock(names, b.temps, m.stack, m.temps, st.vars, EvalStmts(false, j.c, Shown(names + b.temps), b.body, st.(vars := Entered(false, st.vars, b.temps)), fuel), forValue,
                 m.pc + |GenBlock(j.c, b, forValue, names, lits).bytes|, Steps(j, m, k), k, fuel);
    }
  }

  lemma EndEmpty(j: Job, names: seq<string>, forValue: bool, m: M, st: Store, fuel: nat) returns (k: nat)
    requires CodeAt(j.p.code, m.pc, if forValue then [OP_PUSH_NIL, 0] else []) && Ready(j, names, m, st)
    ensures Runs(j, names, m, m.stack, Done(Nil, st), forValue, m.pc + (if forValue then 2 else 0), k, fuel)
  {
    hide Steps, Rel, Distinct, CodeAt, Ends;
    if forValue {
      k := 1;
      EndPush(j, names, m, st, OP_PUSH_NIL, 0, Nil, fuel);
    } else {
      k := 0;
      EndNothing(j, names, m, st, Nil, fuel);
    }
  }

  lemma {:induction false} SimStmts(j: Job, names: seq<string>, stmts: seq<Node>, forValue: bool, lits: seq<Value>, m: M, st: Store, fuel: nat) returns (k: nat)
    requires Placed(j, GenStmts(j.c, stmts, forValue, names, lits), m) && Ready(j, names, m, st)
    ensures Runs(j, names, m, m.stack, EvalStmts(false, j.c, Shown(names), stmts, st, fuel), forValue, m.pc + |GenStmts(j.c, stmts, forValue, names, lits).bytes|, k, fuel)
    decreases fuel, stmts, 1
  {
    hide Steps, Rel, Distinct, CodeAt, Ends, Gen, Eval;
    if stmts == [] {
      k := EndEmpty(j, names, forValue, m, st, fuel);
    } else if |stmts| == 1 || stmts[0].Return? {
      var value := forValue || stmts[0].Return?;
      k := SimNode(j, names, stmts[0], value, lits, m, st, fuel);
      if stmts[0].Return? {
        ReturnLeaves(j.c, Shown(names), stmts[0], st, fuel);
        var end := m.pc + |Gen(j.c, stmts[0], true, names, lits).bytes|;
        Leaves(j, names, m, m.stack, Eval(false, j.c, Shown(names), stmts[0], st, fuel), true, end, k, fuel, names, m.stack, forValue, end);
      }
    } else {
      k := SimSeq(j, names, stmts, forValue, lits, m, st, fuel);
    }
  }

  lemma ReturnLeaves(c: Setup, names: seq<string>, node: Node, st: Store, fuel: nat)
    requires node.Return?
    ensures !Eval(false, c, names, node, st, fuel).Done?
  {
  }

  lemma {:induction false} SimSeq(j: Job, names: seq<string>, stmts: seq<Node>, forValue: bool, lits: seq<Value>, m: M, st: Store, fuel: nat) returns (k: nat)
    requires |stmts| > 1 && !stmts[0].Return?
    requires Placed(j, GenStmts(j.c, stmts, forValue, names, lits), m) && Ready(j, names, m, st)
    ensures Runs(j, names, m, m.stack, EvalStmts(false, j.c, Shown(names), stmts, st, fuel), forValue, m.pc + |GenStmts(j.c, stmts, forValue, names, lits).bytes|, k, fuel)
    decreases fuel, stmts, 0
  {
    hide Steps, Rel, Distinct, CodeAt, Ends, Gen, Eval;
    var drop := !stmts[0].Assign?;
    var a := Gen(j.c, stmts[0], drop, names, lits);
    var rest := GenStmts(j.c, stmts[1..], forValue, names, a.lits);
    var pop := if stmts[0].Assign? then [] else [OP_POP, 0];
    CodeSplit3(j.p.code, m.pc, a.bytes, pop, rest.bytes);
    k := SimNode(j, names, stmts[0], drop, lits, m, st, fuel);
    var out := Eval(false, j.c, Shown(names), stmts[0], st, fuel);
    var mid := m.pc + |a.bytes| + |pop|;
    var end := mid + |rest.bytes|;
    if drop { k := ThenPop(j, names, m, m.stack, out, m.pc + |a.bytes|, k, fuel); }
    if out.Done? {
      DoneAt(j, names, m, m.stack, out, false, mid, k, fuel, st);
      var l := SimStmts(j, names, stmts[1..], forValue, a.lits, At(j, m, k), out.st, fuel);
      Lead(j, names, m, k, At(j, m, k), l, m.stack, EvalStmts(false, j.c, Shown(names), stmts[1..], out.st, fuel), forValue, end, fuel);
      k := k + l;
    } else {
      Leaves(j, names, m, m.stack, out, false, mid, k, fuel, names, m.stack, forValue, end);
    }
  }

  // ---- loops ----

  /** The parts of a loop's code, from its start. */
  lemma LoopParts(code: seq<nat>, pc: nat, on: bool, test: seq<nat>, body: seq<nat>, forValue: bool)
    requires CodeAt(code, pc, LoopCode(on, test, body, forValue)) && LoopDistance(|test|, |body|) <= 255
    ensures CodeAt(code, pc, test) && CodeAt(code, pc + |test|, JumpOver(if on then OP_JUMP_FALSE else OP_JUMP_TRUE, |body| + 2))
    ensures CodeAt(code, pc + |test| + 2, body) && CodeAt(code, pc + |test| + 2 + |body|, Wide(OP_JUMP_BACK, LoopDistance(|test|, |body|)))
    ensures forValue ==> CodeAt(code, pc + |test| + 4 + |body|, [OP_PUSH_NIL, 0])
    ensures |LoopCode(on, test, body, forValue)| == |test| + 4 + |body| + (if forValue then 2 else 0)
  {
    hide CodeAt;
    var jump := JumpOver(if on then OP_JUMP_FALSE else OP_JUMP_TRUE, |body| + 2);
    var back := Wide(OP_JUMP_BACK, LoopDistance(|test|, |body|));
    CodeSplit3(code, pc, test + jump + body, back, if forValue then [OP_PUSH_NIL, 0] else []);
    CodeSplit3(code, pc, test, jump, body);
  }

  lemma {:induction false} SimLoopNode(j: Job, names: seq<string>, node: Node, forValue: bool, lits: seq<Value>, m: M, st: Store, fuel: nat) returns (k: nat)
    requires node.Send? && FormOf(node).Loop?
    requires Placed(j, GenLoop(j.c, node, forValue, names, lits), m) && Ready(j, names, m, st)
    ensures Runs(j, names, m, m.stack, Eval(false, j.c, Shown(names), node, st, fuel), forValue, m.pc + |GenLoop(j.c, node, forValue, names, lits).bytes|, k, fuel)
    decreases fuel, node, 1
  {
    hide Steps, Rel, Distinct, CodeAt, Ends, FormOf, EvalLoop, GenBlock, LoopCode;
    var form := FormOf(node);
    var t := GenBlock(j.c, form.cond, true, names, lits);
    var b := if form.body.Some? then GenBlock(j.c, form.body.value, false, names, t.lits) else Out([], t.lits, true, |names|, true);
    LoopParts(j.p.code, m.pc, form.on, t.bytes, b.bytes, forValue);
    k := SimLoop(j, names, node, lits, t, b, m, st, fuel);
    if forValue {
      k := ThenNil(j, names, m, m.stack, EvalLoop(false, j.c, Shown(names), node, form.on, form.cond, form.body, st, fuel),
                   m.pc + |t.bytes| + 4 + |b.bytes|, k, fuel);
    }
  }

  /** One turn of a loop and those after it; each costs at least one step. */
  lemma {:induction false} SimLoop(j: Job, names: seq<string>, node: Node, lits: seq<Value>, t: Out, b: Out, m: M, st: Store, fuel: nat) returns (k: nat)
    requires node.Send? && FormOf(node).Loop? && Ready(j, names, m, st)
    requires t == GenBlock(j.c, FormOf(node).cond, true, names, lits)
    requires b == if FormOf(node).body.Some? then GenBlock(j.c, FormOf(node).body.value, false, names, t.lits) else Out([], t.lits, true, |names|, true)
    requires Placed(j, t, m) && Placed(j, b, Pc(m, |t.bytes| + 2)) && LoopDistance(|t.bytes|, |b.bytes|) <= 255
    requires CodeAt(j.p.code, m.pc + |t.bytes|, JumpOver(if FormOf(node).on then OP_JUMP_FALSE else OP_JUMP_TRUE, |b.bytes| + 2))
    requires CodeAt(j.p.code, m.pc + |t.bytes| + 2 + |b.bytes|, Wide(OP_JUMP_BACK, LoopDistance(|t.bytes|, |b.bytes|)))
    ensures Runs(j, names, m, m.stack, EvalLoop(false, j.c, Shown(names), node, FormOf(node).on, FormOf(node).cond, FormOf(node).body, st, fuel), false,
                 m.pc + |t.bytes| + 4 + |b.bytes|, k, fuel)
    decreases fuel, node, 0
  {
    hide Steps, Rel, Distinct, CodeAt, Ends, FormOf, EvalBlock, GenBlock;
    var form := FormOf(node);
    var mid, end := m.pc + |t.bytes|, m.pc + |t.bytes| + 4 + |b.bytes|;
    k := 0;
    if fuel == 0 {
      EndOutOfFuel(j, names, m, m.stack, end);
    } else {
      k := SimBlock(j, names, form.cond, true, lits, m, st, fuel);
      var out := EvalBlock(false, j.c, Shown(names), form.cond, st, fuel);
      if out.Done? {
        DoneAt(j, names, m, m.stack, out, true, mid, k, fuel, st);
        var l := LoopTurn(j, names, node, lits, t, b, At(j, m, k), m.pc, m.stack, out.v, out.st, fuel);
        Lead(j, names, m, k, At(j, m, k), l, m.stack, EvalLoop(false, j.c, Shown(names), node, form.on, form.cond, form.body, st, fuel), false, end, fuel);
        k := k + l;
      } else {
        Leaves(j, names, m, m.stack, out, true, mid, k, fuel, names, m.stack, false, end);
      }
    }
  }

  lemma EndOutOfFuel(j: Job, names: seq<string>, m: M, base: seq<Value>, pc: nat)
    ensures Runs(j, names, m, base, OutOfFuel, false, pc, 0, 0)
  {
  }

  /** The loop once its condition has the value v. */
  ghost function AfterTest(c: Setup, names: seq<string>, node: Node, v: Value, st: Store, fuel: nat): Outcome
    requires node.Send? && FormOf(node).Loop? && fuel > 0
  {
    var form := FormOf(node);
    if v == OfBool(!form.on) then Done(Nil, st)
    else if v != OfBool(form.on) then NotBoolean
    else
      var b := if form.body.Some? then EvalBlock(false, c, names, form.body.value, st, fuel) else Done(Nil, st);
      if !b.Done? then b else EvalLoop(false, c, names, node, form.on, form.cond, form.body, b.st, fuel - 1)
  }

  lemma {:induction false} LoopTurn(j: Job, names: seq<string>, node: Node, lits: seq<Value>, t: Out, b: Out, m: M, start: nat, base: seq<Value>,
                                    v: Value, st: Store, fuel: nat) returns (k: nat)
    requires node.Send? && FormOf(node).Loop? && Ready(j, names, m, st) && fuel > 0
    requires m.pc == start + |t.bytes| && m.stack == base + [v]
    requires t == GenBlock(j.c, FormOf(node).cond, true, names, lits)
    requires b == if FormOf(node).body.Some? then GenBlock(j.c, FormOf(node).body.value, false, names, t.lits) else Out([], t.lits, true, |names|, true)
    requires Placed(j, t, m.(pc := start)) && Placed(j, b, Pc(m, 2)) && LoopDistance(|t.bytes|, |b.bytes|) <= 255
    requires CodeAt(j.p.code, m.pc, JumpOver(if FormOf(node).on then OP_JUMP_FALSE else OP_JUMP_TRUE, |b.bytes| + 2))
    requires CodeAt(j.p.code, m.pc + 2 + |b.bytes|, Wide(OP_JUMP_BACK, LoopDistance(|t.bytes|, |b.bytes|)))
    ensures Runs(j, names, m, base, AfterTest(j.c, Shown(names), node, v, st, fuel), false, m.pc + 4 + |b.bytes|, k, fuel)
    decreases fuel, node, 0, 0
  {
    hide Steps, Rel, Distinct, CodeAt, Ends, FormOf, EvalBlock, GenBlock, EvalLoop;
    var form := FormOf(node);
    var end := m.pc + 4 + |b.bytes|;
    assert m.stack[..|m.stack| - 1] == base;
    BranchStep(j, m, !form.on, |b.bytes| + 2);
    k := 1;
    if v == OfBool(!form.on) {
      var m1 := m.(pc := end, stack := base);
      Popped(j, names, m, st, end, base);
      EndNothing(j, names, m1, st, Nil, fuel);
      Lead(j, names, m, 1, m1, 0, base, Done(Nil, st), false, end, fuel);
    } else if v != OfBool(form.on) {
      EndAborted(j, names, m, base, end, 1, fuel);
    } else {
      var m1 := m.(pc := m.pc + 2, stack := base);
      Popped(j, names, m, st, m.pc + 2, base);
      var l := 0;
      var out := Done(Nil, st);
      if form.body.Some? {
        l := SimBlock(j, names, form.body.value, false, t.lits, m1, st, fuel);
        out := EvalBlock(false, j.c, Shown(names), form.body.value, st, fuel);
      } else { EndNothing(j, names, m1, st, Nil, fuel); }
      Lead(j, names, m, 1, m1, l, base, out, false, m.pc + 2 + |b.bytes|, fuel);
      k := 1 + l;
      if out.Done? {
        DoneAt(j, names, m, base, out, false, m.pc + 2 + |b.bytes|, k, fuel, st);
        var m2 := At(j, m, k);
        BackStep(j, m2, LoopDistance(|t.bytes|, |b.bytes|));
        var m3 := m2.(pc := start);
        Popped(j, names, m2, out.st, start, base);
        var n := SimLoop(j, names, node, lits, t, b, m3, out.st, fuel - 1);
        var rest := EvalLoop(false, j.c, Shown(names), node, form.on, form.cond, form.body, out.st, fuel - 1);
        MoreFuel(j, names, m2, m3, n, base, rest, end, fuel);
        Lead(j, names, m, k, m2, 1 + n, base, rest, false, end, fuel);
        k := k + 1 + n;
      } else {
        Leaves(j, names, m, base, out, false, m.pc + 2 + |b.bytes|, k, fuel, names, base, false, end);
      }
    }
  }

  lemma EndAborted(j: Job, names: seq<string>, m: M, base: seq<Value>, pc: nat, k: nat, fuel: nat)
    requires Steps(j, m, k) == Aborted
    ensures Runs(j, names, m, base, NotBoolean, false, pc, k, fuel)
  {
  }

  /** The step that goes round pays for the fuel. */
  lemma MoreFuel(j: Job, names: seq<string>, m: M, m': M, n: nat, base: seq<Value>, out: Outcome, pc: nat, fuel: nat)
    requires Steps(j, m, 1) == Going(m') && m.temps == m'.temps && fuel > 0
    requires Runs(j, names, m', base, out, false, pc, n, fuel - 1)
    ensures Runs(j, names, m, base, out, false, pc, 1 + n, fuel)
  {
    hide Steps, Rel, Kept;
    Chain(j, m, 1, m', n);
  }

  lemma {:induction false} SimTimes(j: Job, names: seq<string>, node: Node, forValue: bool, lits: seq<Value>, m: M, base: seq<Value>, v: Value, st: Store, fuel: nat) returns (k: nat)
    requires node.Send? && FormOf(node).Times?
    requires Placed(j, GenRest(j.c, node, forValue, names, lits), m) && Ready(j, names, m, st) && m.stack == base + [v]
    ensures Runs(j, names, m, base, EvalRest(false, j.c, Shown(names), node, v, st, fuel), forValue, m.pc + |GenRest(j.c, node, forValue, names, lits).bytes|, k, fuel)
    decreases fuel, node, 0, 0, 1
  {
    hide Steps, Rel, Distinct, CodeAt, Ends, FormOf, GenBlock, EvalTimes, LitIndex, LitAdd, TimesCode, Hidden, Shown;
    var slot, le := |names|, LitIndex(lits, Sym("<="));
    var b := GenBlock(j.c, FormOf(node).body_, false, names + [HIDDEN_COUNT, HIDDEN_INDEX], LitAdd(lits, Sym("<=")));
    var plus := LitIndex(b.lits, Sym("+"));
    TimesParts(j.p.code, m.pc, slot, le, plus, b.bytes, forValue);
    RunTimesHead(j, slot, m, base, v);
    var m1 := Pc(m, |TimesHead(slot)|).(stack := base, temps := m.temps[slot := v][slot + 1 := Int(1)]);
    FreshSlots(j, names, m, m1, st);
    var end := m1.pc + TimesDistance(slot, le, plus, |b.bytes|);
    var l := SimTurns(j, names, node, lits, b, m1, v, Int(1), st, fuel);
    var out := EvalTimes(false, j.c, Shown(names), node, FormOf(node).body_, v, Int(1), st, fuel);
    Lead(j, names, m, 3, m1, l, base, out, false, end, fuel);
    k := 3 + l;
    if forValue { k := ThenNil(j, names, m, base, out, end, k, fuel); }
  }

  /** Writing above the variables in scope. */
  lemma FreshSlots(j: Job, names: seq<string>, m: M, m': M, st: Store)
    requires Ready(j, names, m, st) && m'.trace == m.trace
    requires |m'.temps| == |m.temps| && forall i :: 0 <= i < |names| && i < |m.temps| ==> m'.temps[i] == m.temps[i]
    ensures Ready(j, names, m', st) && Kept(names, m.temps, m'.temps)
  {
  }

  lemma TimesParts(code: seq<nat>, pc: nat, slot: nat, le: nat, plus: nat, body: seq<nat>, forValue: bool)
    requires CodeAt(code, pc, TimesCode(slot, le, plus, body, forValue)) && TimesDistance(slot, le, plus, |body|) <= 255
    ensures CodeAt(code, pc, TimesHead(slot))
    ensures TurnCode(code, pc + |TimesHead(slot)|, slot, le, plus, body)
    ensures var end := pc + |TimesHead(slot)| + TimesDistance(slot, le, plus, |body|);
            && (forValue ==> CodeAt(code, end, [OP_PUSH_NIL, 0]))
            && pc + |TimesCode(slot, le, plus, body, forValue)| == end + (if forValue then 2 else 0)
  {
    hide CodeAt, TimesHead, TimesTest, TimesNext;
    var head, test, next := TimesHead(slot), TimesTest(slot, le), TimesNext(slot, plus);
    var jump := JumpOver(OP_JUMP_FALSE, |body| + |next| + 2);
    var back := Wide(OP_JUMP_BACK, TimesDistance(slot, le, plus, |body|));
    CodeSplit3(code, pc, head + test + jump + body + next, back, if forValue then [OP_PUSH_NIL, 0] else []);
    CodeSplit3(code, pc, head + test + jump, body, next);
    CodeSplit3(code, pc, head, test, jump);
  }

  /** The repeated part: test, jump out, body, count up, jump back. */
  ghost predicate TurnCode(code: seq<nat>, pc: nat, slot: nat, le: nat, plus: nat, body: seq<nat>)
  {
    var test, next := TimesTest(slot, le), TimesNext(slot, plus);
    && CodeAt(code, pc, test) && CodeAt(code, pc + |test|, JumpOver(OP_JUMP_FALSE, |body| + |next| + 2))
    && CodeAt(code, pc + |test| + 2, body) && CodeAt(code, pc + |test| + 2 + |body|, next)
    && CodeAt(code, pc + |test| + 2 + |body| + |next|, Wide(OP_JUMP_BACK, TimesDistance(slot, le, plus, |body|)))
  }

  /** Everything a turn relies on. */
  ghost predicate TurnReady(j: Job, names: seq<string>, node: Node, lits: seq<Value>, b: Out, m: M, count: Value, i: Value, st: Store)
  {
    var slot, le, plus := |names|, LitIndex(lits, Sym("<=")), LitIndex(b.lits, Sym("+"));
    && node.Send? && FormOf(node).Times? && Ready(j, names, m, st)
    && b == GenBlock(j.c, FormOf(node).body_, false, names + [HIDDEN_COUNT, HIDDEN_INDEX], LitAdd(lits, Sym("<=")))
    && b.good && b.peak <= |m.temps| && LitAdd(b.lits, Sym("+")) <= j.p.lits && le <= 255 && plus <= 255
    && TimesDistance(slot, le, plus, |b.bytes|) <= 255 && TurnCode(j.p.code, m.pc, slot, le, plus, b.bytes)
    && slot + 1 < |m.temps| && m.temps[slot] == count && m.temps[slot + 1] == i
  }

  lemma {:induction false} SimTurns(j: Job, names: seq<string>, node: Node, lits: seq<Value>, b: Out, m: M, count: Value, i: Value, st: Store, fuel: nat) returns (k: nat)
    requires TurnReady(j, names, node, lits, b, m, count, i, st)
    ensures Runs(j, names, m, m.stack, EvalTimes(false, j.c, Shown(names), node, FormOf(node).body_, count, i, st, fuel), false,
                 m.pc + TimesDistance(|names|, LitIndex(lits, Sym("<=")), LitIndex(b.lits, Sym("+")), |b.bytes|), k, fuel)
    decreases fuel, node, 0, 0, 0
  {
    hide Steps, Rel, Distinct, CodeAt, Ends, FormOf, EvalBlock, GenBlock, LitIndex, LitAdd, Hidden, Shown, Kept, TimesTest, TimesNext;
    var slot, le, plus := |names|, LitIndex(lits, Sym("<=")), LitIndex(b.lits, Sym("+"));
    var end := m.pc + TimesDistance(slot, le, plus, |b.bytes|);
    k := 0;
    if fuel == 0 {
      EndOutOfFuel(j, names, m, m.stack, end);
    } else {
      LitPlaced(j, lits, Sym("<="));
      RunTimesTest(j, slot, le, m, st);
      var t := SendMsg(j.c, false, i, "<=", [count], st);
      var m1 := Pc(m, |TimesTest(slot, le)|).(stack := m.stack + [t.v], trace := t.st.trace);
      var d := |b.bytes| + |TimesNext(slot, plus)| + 2;
      assert m1.stack[..|m1.stack| - 1] == m.stack;
      BranchStep(j, m1, false, d);
      Chain(j, m, 3, m1, 1);
      k := 4;
      if t.v == False {
        var m2 := m1.(pc := end, stack := m.stack);
        FreshSlots(j, names, m, m2.(trace := st.trace), st);
        EndNothing(j, names, m2, t.st, Nil, fuel);
        Lead(j, names, m, 4, m2, 0, m.stack, Done(Nil, t.st), false, end, fuel);
      } else if t.v != True {
        EndAborted(j, names, m, m.stack, end, 4, fuel);
      } else {
        var m2 := m1.(pc := m1.pc + 2, stack := m.stack);
        FreshSlots(j, names, m, m2.(trace := st.trace), st);
        var l := TurnBody(j, names, node, lits, b, m, m2, count, i, st, t.st, fuel);
        k := 4 + l;
        Lead(j, names, m, 4, m2, l, m.stack, EvalTimes(false, j.c, Shown(names), node, FormOf(node).body_, count, i, st, fuel), false, end, fuel);
      }
    }
  }

  /** The rest of timesRepeat: once its test has answered true. */
  ghost function AfterTrue(c: Setup, names: seq<string>, node: Node, count: Value, i: Value, st: Store, fuel: nat): Outcome
    requires node.Send? && FormOf(node).Times? && fuel > 0
  {
    var o := EvalBlock(false, c, names, FormOf(node).body_, st, fuel);
    if !o.Done? then o
    else
      var n := SendMsg(c, false, i, "+", [Int(1)], o.st);
      EvalTimes(false, c, names, node, FormOf(node).body_, count, n.v, n.st, fuel - 1)
  }

  lemma CounterScope(j: Job, names: seq<string>, m: M, st: Store)
    requires Ready(j, names, m, st) && |names| + 2 <= |m.temps|
    ensures Ready(j, names + [HIDDEN_COUNT, HIDDEN_INDEX], m, st)
  {
    var all := names + [HIDDEN_COUNT, HIDDEN_INDEX];
    assert forall i :: 0 <= i < |names| ==> all[i] == names[i];
    assert forall i :: |names| <= i < |all| ==> Hidden(all[i]);
  }

  /** What a block in the extended scope leaves. */
  lemma CountersKept(j: Job, names: seq<string>, m: M, m': M, st: Store)
    requires Ready(j, names + [HIDDEN_COUNT, HIDDEN_INDEX], m', st) && Kept(names + [HIDDEN_COUNT, HIDDEN_INDEX], m.temps, m'.temps)
    requires |names| + 2 <= |m.temps| && Distinct(names)
    ensures Ready(j, names, m', st) && Kept(names, m.temps, m'.temps)
    ensures m'.temps[|names|] == m.temps[|names|] && m'.temps[|names| + 1] == m.temps[|names| + 1]
  {
    var all := names + [HIDDEN_COUNT, HIDDEN_INDEX];
    assert forall i :: 0 <= i < |names| ==> all[i] == names[i];
    assert all[|names|] == HIDDEN_COUNT && all[|names| + 1] == HIDDEN_INDEX;
  }

  lemma {:induction false} TurnBody(j: Job, names: seq<string>, node: Node, lits: seq<Value>, b: Out, m: M, m2: M, count: Value, i: Value,
                                    st0: Store, st: Store, fuel: nat) returns (k: nat)
    requires TurnReady(j, names, node, lits, b, m, count, i, st0) && Ready(j, names, m2, st) && fuel > 0
    requires m2 == m.(pc := m.pc + |TimesTest(|names|, LitIndex(lits, Sym("<=")))| + 2, trace := st.trace)
    ensures Runs(j, names, m2, m.stack, AfterTrue(j.c, Shown(names), node, count, i, st, fuel), false,
                 m.pc + TimesDistance(|names|, LitIndex(lits, Sym("<=")), LitIndex(b.lits, Sym("+")), |b.bytes|), k, fuel)
    decreases fuel, node, 0, 0, 0, 1
  {
    hide Steps, Rel, Distinct, CodeAt, Ends, FormOf, EvalBlock, GenBlock, LitIndex, LitAdd, Hidden, Shown, Kept, TimesTest, TimesNext, EvalTimes;
    var slot, le, plus := |names|, LitIndex(lits, Sym("<=")), LitIndex(b.lits, Sym("+"));
    var end := m.pc + TimesDistance(slot, le, plus, |b.bytes|);
    var all := names + [HIDDEN_COUNT, HIDDEN_INDEX];
    CounterScope(j, names, m2, st);
    ShownCounters(names);
    k := SimBlock(j, all, FormOf(node).body_, false, LitAdd(lits, Sym("<=")), m2, st, fuel);
    var o := EvalBlock(false, j.c, Shown(names), FormOf(node).body_, st, fuel);
    if o.Done? {
      DoneAt(j, all, m2, m.stack, o, false, m2.pc + |b.bytes|, k, fuel, st);
      var m3 := At(j, m2, k);
      CountersKept(j, names, m2, m3, o.st);
      var l := TurnNext(j, names, node, lits, b, m, m3, count, i, st0, o.st, fuel);
      var n := SendMsg(j.c, false, i, "+", [Int(1)], o.st);
      Lead(j, names, m2, k, m3, l, m.stack, EvalTimes(false, j.c, Shown(names), node, FormOf(node).body_, count, n.v, n.st, fuel - 1), false, end, fuel);
      k := k + l;
    } else {
      Leaves(j, all, m2, m.stack, o, false, m2.pc + |b.bytes|, k, fuel, names, m.stack, false, end);
    }
  }

  lemma {:induction false} TurnNext(j: Job, names: seq<string>, node: Node, lits: seq<Value>, b: Out, m: M, m3: M, count: Value, i: Value,
                                    st0: Store, st: Store, fuel: nat) returns (k: nat)
    requires TurnReady(j, names, node, lits, b, m, count, i, st0) && Ready(j, names, m3, st) && fuel > 0
    requires m3.pc == m.pc + |TimesTest(|names|, LitIndex(lits, Sym("<=")))| + 2 + |b.bytes| && m3.stack == m.stack
    requires |m3.temps| == |m.temps| && m3.temps[|names|] == count && m3.temps[|names| + 1] == i
    ensures var n := SendMsg(j.c, false, i, "+", [Int(1)], st);
            Runs(j, names, m3, m.stack, EvalTimes(false, j.c, Shown(names), node, FormOf(node).body_, count, n.v, n.st, fuel - 1), false,
                 m.pc + TimesDistance(|names|, LitIndex(lits, Sym("<=")), LitIndex(b.lits, Sym("+")), |b.bytes|), k, fuel)
    decreases fuel, node, 0, 0, 0, 0
  {
    hide Steps, Rel, Distinct, CodeAt, Ends, FormOf, GenBlock, LitIndex, LitAdd, Hidden, Shown, Kept, TimesTest, TimesNext, EvalTimes;
    var slot, le, plus := |names|, LitIndex(lits, Sym("<=")), LitIndex(b.lits, Sym("+"));
    var d := TimesDistance(slot, le, plus, |b.bytes|);
    var n := SendMsg(j.c, false, i, "+", [Int(1)], st);
    LitPlaced(j, b.lits, Sym("+"));
    RunTimesNext(j, slot, plus, m3, st);
    var m4 := Pc(m3, |TimesNext(slot, plus)|).(temps := m3.temps[slot + 1 := n.v], trace := n.st.trace);
    BackStep(j, m4, d);
    var m5 := m4.(pc := m.pc);
    FreshSlots(j, names, m3, m5.(trace := m3.trace), st);
    var l := SimTurns(j, names, node, lits, b, m5, count, n.v, n.st, fuel - 1);
    var rest := EvalTimes(false, j.c, Shown(names), node, FormOf(node).body_, count, n.v, n.st, fuel - 1);
    MoreFuel(j, names, m4, m5, l, m.stack, rest, m.pc + d, fuel);
    Lead(j, names, m3, 4, m4, 1 + l, m.stack, rest, false, m.pc + d, fuel);
    k := 5 + l;
  }
}
