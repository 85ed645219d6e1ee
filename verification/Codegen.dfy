/** What the code generator emits (src/compiler/codegen.c), as a function of the node, the
    names in scope and the literals collected so far. */
module Codegen {
  import opened Bytecode
  import opened Source

  /** bb_emit_wide. */
  function Wide(op: nat, operand: nat): (r: seq<nat>)
    ensures |r| == 2 || |r| == 4
    ensures |r| == 2 <==> operand <= 255
  {
    if operand <= 255 then [op, operand] else [OP_WIDE, operand / 256, op, operand % 256]
  }

  /** A forward jump after patching: one operand byte, whatever the distance. */
  function JumpOver(op: nat, distance: nat): (r: seq<nat>)
    ensures |r| == 2
  {
    [op, distance % 256]
  }

  /** lb_add: the index of v, which is appended unless it is already there. */
  function LitIndex(lits: seq<Value>, v: Value): (i: nat)
    ensures i <= |lits|
    ensures i < |lits| ==> lits[i] == v
    ensures forall j :: 0 <= j < i ==> lits[j] != v
  {
    if lits == [] then 0 else if lits[0] == v then 0 else 1 + LitIndex(lits[1..], v)
  }

  function LitAdd(lits: seq<Value>, v: Value): (r: seq<Value>)
    ensures lits <= r && LitIndex(lits, v) < |r| && r[LitIndex(lits, v)] == v
  {
    if LitIndex(lits, v) < |lits| then lits else lits + [v]
  }

  /** Emitted bytes, the literals afterwards, whether the node lies in the fragment (every
      operand fits its encoding, every name is declared, no name shadows another, blocks only
      as parts of control structures), the largest number of temporaries in scope, and whether
      the compiler accepts it (every name is declared, blocks only as parts of control
      structures). */
  datatype Out = Out(bytes: seq<nat>, lits: seq<Value>, good: bool, peak: nat, clean: bool)

  function Max(a: nat, b: nat): nat { if a < b then b else a }

  const HIDDEN_COUNT := "__tr_count"
  const HIDDEN_INDEX := "__tr_i"

  predicate Hidden(name: string) { name == HIDDEN_COUNT || name == HIDDEN_INDEX }

  /** Names in scope are distinct; only the hidden ones may recur. */
  predicate Distinct(names: seq<string>)
  {
    forall i, j :: 0 <= i < j < |names| && names[i] == names[j] ==> Hidden(names[i])
  }

  predicate Visible(names: seq<string>) { forall x :: x in names ==> !Hidden(x) }

  function Op(forValue: bool, op: nat, names: seq<string>, lits: seq<Value>): (o: Out)
    ensures lits <= o.lits && |names| <= o.peak && o.clean
  {
    Out(if forValue then [op, 0] else [], lits, true, |names|, true)
  }

  function GenLit(v: Value, names: seq<string>, lits: seq<Value>): (o: Out)
    ensures lits <= o.lits && |names| <= o.peak && o.clean
  {
    var i := LitIndex(lits, v);
    Out(Wide(OP_PUSH_LIT, i), LitAdd(lits, v), i <= 255, |names|, true)
  }

  function GenInt(n: int, names: seq<string>, lits: seq<Value>): (o: Out)
    ensures lits <= o.lits && |names| <= o.peak && o.clean
  {
    if n == -1 then Op(true, OP_PUSH_MINUS_ONE, names, lits)
    else if n == 0 then Op(true, OP_PUSH_ZERO, names, lits)
    else if n == 1 then Op(true, OP_PUSH_ONE, names, lits)
    else if n == 2 then Op(true, OP_PUSH_TWO, names, lits)
    else if 0 <= n <= 65535 then Out(Wide(OP_PUSH_SMALLINT, n), lits, true, |names|, true)
    else GenLit(Int(n), names, lits)
  }

  /** An access by name: temporaries first, then instance variables, then globals. */
  function GenName(c: Setup, name: string, tempOp: nat, instOp: nat, globalOp: nat, names: seq<string>, lits: seq<Value>): (o: Out)
    ensures lits <= o.lits && o.peak == |names| && (o.good ==> o.clean)
  {
    if Find(names, name) < |names| then Out(Wide(tempOp, Find(names, name)), lits, |names| <= 65536 && !Hidden(name), |names|, true)
    else if Find(c.instVars, name) < |c.instVars| then
      Out(Wide(instOp, Find(c.instVars, name)), lits, |c.instVars| <= 65536, |names|, true)
    else if IsGlobal(c, name) then
      var i := LitIndex(lits, Assoc(name));
      Out(Wide(globalOp, i), LitAdd(lits, Assoc(name)), i <= 255, |names|, true)
    else Out([], lits, false, |names|, false)
  }

  function GenStore(c: Setup, name: string, forValue: bool, names: seq<string>, lits: seq<Value>): (o: Out)
    ensures lits <= o.lits && o.peak == |names| && (o.good ==> o.clean)
  {
    if forValue then GenName(c, name, OP_STORE_TEMP, OP_STORE_INSTVAR, OP_STORE_GLOBAL, names, lits)
    else GenName(c, name, OP_POP_STORE_TEMP, OP_POP_STORE_INSTVAR, OP_POP_STORE_GLOBAL, names, lits)
  }

  function Gen(c: Setup, node: Node, forValue: bool, names: seq<string>, lits: seq<Value>): (o: Out)
    ensures lits <= o.lits && |names| <= o.peak && (o.good ==> o.clean)
    decreases node, 2
  {
    match node
    case Self => Op(forValue, OP_PUSH_RECEIVER, names, lits)
    case NilLit => Op(forValue, OP_PUSH_NIL, names, lits)
    case BoolLit(b) => Op(forValue, if b then OP_PUSH_TRUE else OP_PUSH_FALSE, names, lits)
    case IntLit(n) => if forValue then GenInt(n, names, lits) else Out([], lits, true, |names|, true)
    case Lit(v) => if forValue then GenLit(v, names, lits) else Out([], lits, true, |names|, true)
    case Var(name) =>
      if forValue then GenName(c, name, OP_PUSH_TEMP, OP_PUSH_INSTVAR, OP_PUSH_GLOBAL, names, lits) else Out([], lits, true, |names|, true)
    case Assign(name, value) =>
      var v := Gen(c, value, true, names, lits);
      var s := GenStore(c, name, forValue, names, v.lits);
      Out(v.bytes + s.bytes, s.lits, v.good && s.good, v.peak, v.clean && s.clean)
    case Return(expr) =>
      if expr.NilLit? then Op(true, OP_RETURN_NIL, names, lits)
      else if expr.BoolLit? then Op(true, if expr.b then OP_RETURN_TRUE else OP_RETURN_FALSE, names, lits)
      else if expr.Self? then Op(true, OP_RETURN_SELF, names, lits)
      else
        var v := Gen(c, expr, true, names, lits);
        v.(bytes := v.bytes + [OP_RETURN_TOP, 0])
    case Block(_, _) => Out([], lits, !forValue, |names|, !forValue)
    case Send(super, recv, _, _) =>
      var form := FormOf(node);
      if form.Loop? then GenLoop(c, node, forValue, names, lits)
      else
        var r := if super then Op(true, OP_PUSH_RECEIVER, names, lits) else Gen(c, recv, true, names, lits);
        var k := GenRest(c, node, forValue, names, r.lits);
        Out(r.bytes + k.bytes, k.lits, r.good && k.good, Max(r.peak, k.peak), r.clean && k.clean)
  }

  function IfCode(on: bool, body: seq<nat>, forValue: bool): seq<nat>
  {
    JumpOver(if on then OP_JUMP_FALSE else OP_JUMP_TRUE, |body| + (if forValue then 2 else 0)) + body +
    (if forValue then JumpOver(OP_JUMP, 2) + [OP_PUSH_NIL, 0] else [])
  }

  function IfElseCode(onTrue: seq<nat>, onFalse: seq<nat>): seq<nat>
  {
    JumpOver(OP_JUMP_FALSE, |onTrue| + 2) + onTrue + JumpOver(OP_JUMP, |onFalse|) + onFalse
  }

  function LogicCode(stop: bool, rest: seq<nat>, forValue: bool): seq<nat>
  {
    JumpOver(if stop then OP_JUMP_TRUE else OP_JUMP_FALSE, |rest| + 2) + rest + JumpOver(OP_JUMP, 2) +
    [if stop then OP_PUSH_TRUE else OP_PUSH_FALSE, 0] + (if forValue then [] else [OP_POP, 0])
  }

  /** What follows the receiver of a send. */
  function GenRest(c: Setup, node: Node, forValue: bool, names: seq<string>, lits: seq<Value>): (o: Out)
    requires node.Send? && !FormOf(node).Loop?
    ensures lits <= o.lits && |names| <= o.peak && (o.good ==> o.clean)
    decreases node, 1
  {
    var form := FormOf(node);
    if form.If? then
      var b := GenBlock(c, form.then_, forValue, names, lits);
      b.(bytes := IfCode(form.on, b.bytes, forValue), good := b.good && |b.bytes| + (if forValue then 2 else 0) <= 255)
    else if form.IfElse? then
      var t := GenBlock(c, form.onTrue, forValue, names, lits);
      var e := GenBlock(c, form.onFalse, forValue, names, t.lits);
      Out(IfElseCode(t.bytes, e.bytes), e.lits, t.good && e.good && |t.bytes| + 2 <= 255 && |e.bytes| <= 255, Max(t.peak, e.peak), t.clean && e.clean)
    else if form.Logic? then
      var b := GenBlock(c, form.rest, true, names, lits);
      b.(bytes := LogicCode(form.stop, b.bytes, forValue), good := b.good && |b.bytes| + 2 <= 255)
    else if form.Times? then GenTimes(c, node, forValue, names, lits)
    else
      var a := GenArgs(c, node.args, names, lits);
      var s := LitIndex(a.lits, Sym(node.selector));
      Out(a.bytes + Wide(if node.super then OP_SEND_SUPER else OP_SEND, s) + (if forValue then [] else [OP_POP, 0]),
          LitAdd(a.lits, Sym(node.selector)), a.good && s <= 255 && |node.args| == Arity(node.selector), a.peak, a.clean)
  }

  function GenArgs(c: Setup, args: seq<Node>, names: seq<string>, lits: seq<Value>): (o: Out)
    ensures lits <= o.lits && |names| <= o.peak && (o.good ==> o.clean)
    decreases args, 0
  {
    if args == [] then Out([], lits, true, |names|, true)
    else
      var a := Gen(c, args[0], true, names, lits);
      var r := GenArgs(c, args[1..], names, a.lits);
      Out(a.bytes + r.bytes, r.lits, a.good && r.good, Max(a.peak, r.peak), a.clean && r.clean)
  }

  /** emit_block_body_inline: the statements in a scope extended by the block's temporaries. */
  function GenBlock(c: Setup, b: Node, forValue: bool, names: seq<string>, lits: seq<Value>): (o: Out)
    requires b.Block?
    ensures lits <= o.lits && |names| <= o.peak && (o.good ==> o.clean)
    decreases b, 0
  {
    if b.body == [] then Op(forValue, OP_PUSH_NIL, names, lits)
    else
      var s := GenStmts(c, b.body, forValue, names + b.temps, lits);
      s.(good := s.good && Distinct(names + b.temps) && Visible(b.temps))
  }

  function GenStmts(c: Setup, stmts: seq<Node>, forValue: bool, names: seq<string>, lits: seq<Value>): (o: Out)
    ensures lits <= o.lits && |names| <= o.peak && (o.good ==> o.clean)
    decreases stmts, 0
  {
    if stmts == [] then Op(forValue, OP_PUSH_NIL, names, lits)
    else if |stmts| == 1 then Gen(c, stmts[0], forValue || stmts[0].Return?, names, lits)
    else if stmts[0].Return? then Gen(c, stmts[0], true, names, lits)
    else
      var a := Gen(c, stmts[0], !stmts[0].Assign?, names, lits);
      var r := GenStmts(c, stmts[1..], forValue, names, a.lits);
      Out(a.bytes + (if stmts[0].Assign? then [] else [OP_POP, 0]) + r.bytes, r.lits, a.good && r.good, Max(a.peak, r.peak), a.clean && r.clean)
  }

  /** The backward distance assumes that the jump itself takes two bytes. */
  function LoopDistance(test: nat, body: nat): nat { test + 2 + body + 2 }

  function LoopCode(on: bool, test: seq<nat>, body: seq<nat>, forValue: bool): seq<nat>
  {
    var back := Wide(OP_JUMP_BACK, LoopDistance(|test|, |body|) % 65536);
    test + JumpOver(if on then OP_JUMP_FALSE else OP_JUMP_TRUE, |body| + |back|) + body + back + (if forValue then [OP_PUSH_NIL, 0] else [])
  }

  function GenLoop(c: Setup, node: Node, forValue: bool, names: seq<string>, lits: seq<Value>): (o: Out)
    requires node.Send? && FormOf(node).Loop?
    ensures lits <= o.lits && |names| <= o.peak && (o.good ==> o.clean)
    decreases node, 0
  {
    var form := FormOf(node);
    var t := GenBlock(c, form.cond, true, names, lits);
    var b := if form.body.Some? then GenBlock(c, form.body.value, false, names, t.lits) else Out([], t.lits, true, |names|, true);
    Out(LoopCode(form.on, t.bytes, b.bytes, forValue), b.lits,
        t.good && b.good && LoopDistance(|t.bytes|, |b.bytes|) <= 255, Max(t.peak, b.peak), t.clean && b.clean)
  }

  // timesRepeat: keeps its limit and counter in two extra temporaries, at `slot` and `slot + 1`.

  function TimesHead(slot: nat): seq<nat> { Wide(OP_POP_STORE_TEMP, slot) + [OP_PUSH_ONE, 0] + Wide(OP_POP_STORE_TEMP, slot + 1) }

  function TimesTest(slot: nat, le: nat): seq<nat> { Wide(OP_PUSH_TEMP, slot + 1) + Wide(OP_PUSH_TEMP, slot) + Wide(OP_SEND, le) }

  function TimesNext(slot: nat, plus: nat): seq<nat>
  {
    Wide(OP_PUSH_TEMP, slot + 1) + [OP_PUSH_ONE, 0] + Wide(OP_SEND, plus) + Wide(OP_POP_STORE_TEMP, slot + 1)
  }

  function TimesDistance(slot: nat, le: nat, plus: nat, body: nat): nat { |TimesTest(slot, le)| + 2 + body + |TimesNext(slot, plus)| + 2 }

  function TimesCode(slot: nat, le: nat, plus: nat, body: seq<nat>, forValue: bool): seq<nat>
  {
    var back := Wide(OP_JUMP_BACK, TimesDistance(slot, le, plus, |body|) % 65536);
    TimesHead(slot) + TimesTest(slot, le) + JumpOver(OP_JUMP_FALSE, |body| + |TimesNext(slot, plus)| + |back|) + body +
    TimesNext(slot, plus) + back + (if forValue then [OP_PUSH_NIL, 0] else [])
  }

  function GenTimes(c: Setup, node: Node, forValue: bool, names: seq<string>, lits: seq<Value>): (o: Out)
    requires node.Send? && FormOf(node).Times?
    ensures lits <= o.lits && |names| <= o.peak && (o.good ==> o.clean)
    decreases node, 0
  {
    var le := LitIndex(lits, Sym("<="));
    var lits' := LitAdd(lits, Sym("<="));
    var b := GenBlock(c, FormOf(node).body_, false, names + [HIDDEN_COUNT, HIDDEN_INDEX], lits');
    var plus := LitIndex(b.lits, Sym("+"));
    assert lits <= lits' <= b.lits;
    Out(TimesCode(|names|, le, plus, b.bytes, forValue), LitAdd(b.lits, Sym("+")),
        b.good && le <= 255 && plus <= 255 && TimesDistance(|names|, le, plus, |b.bytes|) <= 255, Max(b.peak, |names| + 2), b.clean)
  }

  // ---- whole methods ----

  datatype MethodNode = MethodNode(args: seq<string>, temps: seq<string>, body: seq<Node>)

  /** sta_codegen: an explicit return at the end, or the receiver is answered. */
  function GenMethod(c: Setup, m: MethodNode): Out
  {
    var names := m.args + m.temps;
    if m.body == [] then Op(true, OP_RETURN_SELF, names, [])
    else if m.body[|m.body| - 1].Return? then GenStmts(c, m.body, false, names, [])
    else
      var o := GenStmts(c, m.body, true, names, []);
      o.(bytes := o.bytes + [OP_POP, 0] + [OP_RETURN_SELF, 0])
  }
}
