/** The compiler's input and what it means (src/compiler/ast.h, src/compiler/codegen.c). */
module Source {
  import opened Common
  import opened Bytecode

  datatype Node =
    | Self
    | NilLit
    | BoolLit(b: bool)
    | IntLit(n: int)
    | Lit(v: Value)
    | Var(name: string)
    | Assign(name: string, value: Node)
    | Send(super: bool, recv: Node, selector: string, args: seq<Node>)
    | Return(expr: Node)
    | Block(temps: seq<string>, body: seq<Node>)

  /** The control structures that are recognised by selector and literal blocks. */
  datatype Form =
    | Plain
    | If(on: bool, then_: Node)
    | IfElse(onTrue: Node, onFalse: Node)
    | Loop(on: bool, cond: Node, body: Option<Node>)
    | Logic(stop: bool, rest: Node)
    | Times(body_: Node)

  function FormOf(node: Node): (f: Form)
    requires node.Send?
    ensures f.If? ==> f.then_.Block? && f.then_ < node
    ensures f.IfElse? ==> f.onTrue.Block? && f.onFalse.Block? && f.onTrue < node && f.onFalse < node
    ensures f.Loop? ==> f.cond.Block? && f.cond < node
    ensures f.Loop? && f.body.Some? ==> f.body.value.Block? && f.body.value < node
    ensures f.Logic? ==> f.rest.Block? && f.rest < node
    ensures f.Times? ==> f.body_.Block? && f.body_ < node
    ensures f != Plain ==> !node.super
  {
    var sel, args := node.selector, node.args;
    if node.super then Plain
    else if sel == "ifTrue:" && |args| == 1 && args[0].Block? then If(true, args[0])
    else if sel == "ifFalse:" && |args| == 1 && args[0].Block? then If(false, args[0])
    else if sel == "ifTrue:ifFalse:" && |args| == 2 && args[0].Block? && args[1].Block? then IfElse(args[0], args[1])
    else if sel == "ifFalse:ifTrue:" && |args| == 2 && args[0].Block? && args[1].Block? then IfElse(args[1], args[0])
    else if sel == "whileTrue:" && node.recv.Block? && |args| == 1 && args[0].Block? then Loop(true, node.recv, Some(args[0]))
    else if sel == "whileFalse:" && node.recv.Block? && |args| == 1 && args[0].Block? then Loop(false, node.recv, Some(args[0]))
    else if sel == "whileTrue" && node.recv.Block? && |args| == 0 then Loop(true, node.recv, None)
    else if sel == "whileFalse" && node.recv.Block? && |args| == 0 then Loop(false, node.recv, None)
    else if sel == "and:" && |args| == 1 && args[0].Block? then Logic(false, args[0])
    else if sel == "or:" && |args| == 1 && args[0].Block? then Logic(true, args[0])
    else if sel == "timesRepeat:" && |args| == 1 && args[0].Block? then Times(args[0])
    else Plain
  }

  // ---- names ----

  /** Index of the first occurrence, |names| if there is none. */
  function Find(names: seq<string>, name: string): (i: nat)
    ensures i <= |names|
    ensures i < |names| ==> names[i] == name
    ensures forall j :: 0 <= j < i ==> names[j] != name
    ensures name in names <==> i < |names|
  {
    if names == [] then 0 else if names[0] == name then 0 else 1 + Find(names[1..], name)
  }

  /** What a method is compiled and run against. */
  datatype Setup = Setup(w: World, receiver: Value, owner: Value, instVars: seq<string>, globals: set<string>)

  predicate IsGlobal(c: Setup, name: string) { |name| > 0 && 'A' <= name[0] <= 'Z' && name in c.globals }

  // ---- evaluation ----

  datatype Store = Store(vars: map<string, Value>, trace: seq<Event>)

  datatype Outcome =
    | Done(v: Value, st: Store)
    | Answered(v: Value, trace: seq<Event>)   // left by a return statement
    | NotBoolean                              // a condition was no boolean
    | Unclaimed                               // a variable without a value, or outside the fragment
    | OutOfFuel

  function OfBool(b: bool): Value { if b then True else False }

  function NameSet(names: seq<string>): set<string> { set x | x in names }

  function EvalVar(c: Setup, names: seq<string>, name: string, st: Store): Outcome
  {
    if name in names then if name in st.vars then Done(st.vars[name], st) else Unclaimed
    else if name in c.instVars then Done(c.w.instVar(st.trace, c.receiver, Find(c.instVars, name)), st)
    else if IsGlobal(c, name) then Done(c.w.global(st.trace, name), st)
    else Unclaimed
  }

  function SetVar(c: Setup, names: seq<string>, name: string, v: Value, st: Store): Outcome
  {
    if name in names then Done(v, st.(vars := st.vars[name := v]))
    else if name in c.instVars then Done(v, st.(trace := st.trace + [InstSet(c.receiver, Find(c.instVars, name), v)]))
    else if IsGlobal(c, name) then Done(v, st.(trace := st.trace + [GlobalSet(name, v)]))
    else Unclaimed
  }

  function SendMsg(c: Setup, super: bool, r: Value, sel: string, args: seq<Value>, st: Store): Outcome
  {
    var t := st.trace + [Sent(super, r, sel, args)];
    Done(c.w.reply(t), st.(trace := t + c.w.effects(t)))
  }

  /** Fuel counts loop iterations; `names` are the temporaries in scope. With nils the temporaries
      of a block start as nil, as the language has it; without, they start without a value. */
  function Eval(nils: bool, c: Setup, names: seq<string>, node: Node, st: Store, fuel: nat): Outcome
    decreases fuel, node, 2
  {
    match node
    case Self => Done(c.receiver, st)
    case NilLit => Done(Nil, st)
    case BoolLit(b) => Done(OfBool(b), st)
    case IntLit(n) => Done(Int(n), st)
    case Lit(v) => Done(v, st)
    case Var(name) => EvalVar(c, names, name, st)
    case Assign(name, value) =>
      var r := Eval(nils, c, names, value, st, fuel);
      if r.Done? then SetVar(c, names, name, r.v, r.st) else r
    case Return(expr) =>
      var r := Eval(nils, c, names, expr, st, fuel);
      if r.Done? then Answered(r.v, r.st.trace) else r
    case Block(_, _) => Unclaimed
    case Send(super, recv, _, _) =>
      var form := FormOf(node);
      if form.Loop? then EvalLoop(nils, c, names, node, form.on, form.cond, form.body, st, fuel)
      else
        var r := if super then Done(c.receiver, st) else Eval(nils, c, names, recv, st, fuel);
        if r.Done? then EvalRest(nils, c, names, node, r.v, r.st, fuel) else r
  }

  /** A send whose receiver has the value v. */
  function EvalRest(nils: bool, c: Setup, names: seq<string>, node: Node, v: Value, st: Store, fuel: nat): Outcome
    requires node.Send? && !FormOf(node).Loop?
    decreases fuel, node, 1
  {
    var form := FormOf(node);
    if form.If? then
      if v == OfBool(form.on) then EvalBlock(nils, c, names, form.then_, st, fuel)
      else if v == OfBool(!form.on) then Done(Nil, st) else NotBoolean
    else if form.IfElse? then
      if v == True then EvalBlock(nils, c, names, form.onTrue, st, fuel)
      else if v == False then EvalBlock(nils, c, names, form.onFalse, st, fuel) else NotBoolean
    else if form.Logic? then
      if v == OfBool(form.stop) then Done(v, st)
      else if v == OfBool(!form.stop) then EvalBlock(nils, c, names, form.rest, st, fuel) else NotBoolean
    else if form.Times? then EvalTimes(nils, c, names, node, form.body_, v, Int(1), st, fuel)
    else
      var rs := EvalArgs(nils, c, names, node.args, st, fuel);
      if rs.Values? then SendMsg(c, node.super, v, node.selector, rs.vs, rs.st) else rs.other
  }

  datatype Args = Values(vs: seq<Value>, st: Store) | Cut(other: Outcome)

  function EvalArgs(nils: bool, c: Setup, names: seq<string>, args: seq<Node>, st: Store, fuel: nat): (r: Args)
    ensures r.Values? ==> |r.vs| == |args|
    ensures r.Cut? ==> !r.other.Done?
    decreases fuel, args, 1
  {
    if args == [] then Values([], st)
    else
      var r := Eval(nils, c, names, args[0], st, fuel);
      if !r.Done? then Cut(r)
      else
        var rs := EvalArgs(nils, c, names, args[1..], r.st, fuel);
        if rs.Values? then Values([r.v] + rs.vs, rs.st) else rs
  }

  /** Nil in every one of the names. */
  function NilVars(names: seq<string>): map<string, Value> { map x | x in names :: Nil }

  /** The variables on entry to a block: its temporaries are nil or, with nils false, have no
      value. */
  function Entered(nils: bool, vars: map<string, Value>, temps: seq<string>): map<string, Value>
  {
    if nils then vars + NilVars(temps) else vars - NameSet(temps)
  }

  /** On exit the temporaries are gone and variables they hid are back. */
  function Left(outer: map<string, Value>, vars: map<string, Value>, temps: seq<string>): map<string, Value>
  {
    (vars - NameSet(temps)) + (outer - (outer.Keys - NameSet(temps)))
  }

  function EvalBlock(nils: bool, c: Setup, names: seq<string>, b: Node, st: Store, fuel: nat): Outcome
    requires b.Block?
    decreases fuel, b, 1
  {
    if b.body == [] then Done(Nil, st)
    else
      var r := EvalStmts(nils, c, names + b.temps, b.body, st.(vars := Entered(nils, st.vars, b.temps)), fuel);
      if r.Done? then Done(r.v, r.st.(vars := Left(st.vars, r.st.vars, b.temps))) else r
  }

  function EvalStmts(nils: bool, c: Setup, names: seq<string>, stmts: seq<Node>, st: Store, fuel: nat): Outcome
    decreases fuel, stmts, 1
  {
    if stmts == [] then Done(Nil, st)
    else
      var r := Eval(nils, c, names, stmts[0], st, fuel);
      if !r.Done? || |stmts| == 1 then r else EvalStmts(nils, c, names, stmts[1..], r.st, fuel)
  }

  function EvalLoop(nils: bool, c: Setup, names: seq<string>, node: Node, on: bool, cond: Node, body: Option<Node>, st: Store, fuel: nat): (r: Outcome)
    ensures r.Done? ==> r.v == Nil
    requires cond.Block? && cond < node && (body.Some? ==> body.value.Block? && body.value < node)
    decreases fuel, node, 0
  {
    if fuel == 0 then OutOfFuel
    else
      var t := EvalBlock(nils, c, names, cond, st, fuel);
      if !t.Done? then t
      else if t.v == OfBool(!on) then Done(Nil, t.st)
      else if t.v != OfBool(on) then NotBoolean
      else
        var b := if body.Some? then EvalBlock(nils, c, names, body.value, t.st, fuel) else Done(Nil, t.st);
        if !b.Done? then b else EvalLoop(nils, c, names, node, on, cond, body, b.st, fuel - 1)
  }

  /** i runs from 1 while `i <= count` answers true; both operators are real sends. */
  function EvalTimes(nils: bool, c: Setup, names: seq<string>, node: Node, b: Node, count: Value, i: Value, st: Store, fuel: nat): (r: Outcome)
    ensures r.Done? ==> r.v == Nil
    requires b.Block? && b < node
    decreases fuel, node, 0
  {
    if fuel == 0 then OutOfFuel
    else
      var t := SendMsg(c, false, i, "<=", [count], st);
      if t.v == False then Done(Nil, t.st)
      else if t.v != True then NotBoolean
      else
        var o := EvalBlock(nils, c, names, b, t.st, fuel);
        if !o.Done? then o
        else
          var n := SendMsg(c, false, i, "+", [Int(1)], o.st);
          EvalTimes(nils, c, names, node, b, count, n.v, n.st, fuel - 1)
  }
}
