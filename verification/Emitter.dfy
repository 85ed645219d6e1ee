/** The code generator as it works (src/compiler/codegen.c): one pass over the tree that appends
    to a byte buffer, patches forward jumps and keeps a stack of temporary names. */
module Emitter {
  import opened Bytecode
  import opened Source
  import opened Codegen

  /** bb_patch_jump. A jump preceded by OP_WIDE would get a sixteen-bit offset. */
  function PatchJump(bytes: seq<nat>, jump: nat, target: nat): seq<nat>
    requires jump + 2 <= target <= |bytes|
  {
    var offset := target - (jump + 2);
    if jump >= 2 && bytes[jump - 2] == OP_WIDE then bytes[jump - 1 := offset / 256 % 256][jump + 1 := offset % 256]
    else bytes[jump + 1 := offset % 256]
  }

  /** Instructions only: the last one's opcode is never the OP_WIDE prefix. */
  ghost predicate Whole(code: seq<nat>) { |code| % 2 == 0 && (|code| >= 2 ==> code[|code| - 2] != OP_WIDE) }

  /** Jumps are emitted narrow after a whole instruction, so the test for a wide one never holds. */
  lemma Patched(prefix: seq<nat>, op: nat, rest: seq<nat>)
    requires Whole(prefix)
    ensures PatchJump(prefix + [op, 0] + rest, |prefix|, |prefix| + 2 + |rest|) == prefix + JumpOver(op, |rest|) + rest
  {
    var bytes := prefix + [op, 0] + rest;
    assert |prefix| >= 2 ==> bytes[|prefix| - 2] == prefix[|prefix| - 2];
  }

  lemma Split(prefix: seq<nat>, code: seq<nat>)
    requires prefix <= code
    ensures code == prefix + code[|prefix|..]
  {
  }

  lemma Assoc3(a: seq<nat>, b: seq<nat>, c: seq<nat>)
    ensures a + b + c == a + (b + c)
  {
  }

  /** Operands do not matter. */
  lemma WholeOperand(prefix: seq<nat>, op: nat, x: nat, y: nat, rest: seq<nat>)
    requires Whole(prefix) && Whole(prefix + [op, x] + rest)
    ensures Whole(prefix + [op, y] + rest)
  {
    var a, b := prefix + [op, x] + rest, prefix + [op, y] + rest;
    assert |rest| % 2 == 0;
    assert a[|a| - 2] == b[|b| - 2];
  }

  lemma IfShape(pre: seq<nat>, on: bool, b: seq<nat>, forValue: bool)
    ensures var op := if on then OP_JUMP_FALSE else OP_JUMP_TRUE;
            pre + IfCode(on, b, forValue)
            == if forValue then pre + JumpOver(op, |b + [OP_JUMP, 0]|) + b + JumpOver(OP_JUMP, 2) + [OP_PUSH_NIL, 0]
               else pre + JumpOver(op, |b|) + b
  {
  }

  lemma IfElseShape(pre: seq<nat>, t: seq<nat>, e: seq<nat>)
    ensures pre + IfElseCode(t, e) == pre + JumpOver(OP_JUMP_FALSE, |t + [OP_JUMP, 0]|) + t + JumpOver(OP_JUMP, |e|) + e
  {
  }

  lemma LogicShape(pre: seq<nat>, stop: bool, b: seq<nat>)
    ensures var op, push := if stop then OP_JUMP_TRUE else OP_JUMP_FALSE, if stop then OP_PUSH_TRUE else OP_PUSH_FALSE;
            && pre + LogicCode(stop, b, true) == pre + JumpOver(op, |b + [OP_JUMP, 0]|) + b + JumpOver(OP_JUMP, 2) + [push, 0]
            && pre + LogicCode(stop, b, false) == pre + LogicCode(stop, b, true) + [OP_POP, 0]
  {
  }

  lemma LoopShape(pre: seq<nat>, on: bool, t: seq<nat>, b: seq<nat>)
    ensures var back := Wide(OP_JUMP_BACK, LoopDistance(|t|, |b|) % 65536);
            pre + LoopCode(on, t, b, false) == pre + t + JumpOver(if on then OP_JUMP_FALSE else OP_JUMP_TRUE, |b + back|) + (b + back)
    ensures pre + LoopCode(on, t, b, true) == pre + LoopCode(on, t, b, false) + [OP_PUSH_NIL, 0]
  {
    hide Wide;
  }

  lemma TimesShape(pre: seq<nat>, slot: nat, le: nat, plus: nat, b: seq<nat>)
    ensures var rest := b + TimesNext(slot, plus) + Wide(OP_JUMP_BACK, TimesDistance(slot, le, plus, |b|) % 65536);
            pre + TimesCode(slot, le, plus, b, false) == pre + TimesHead(slot) + TimesTest(slot, le) + JumpOver(OP_JUMP_FALSE, |rest|) + rest
    ensures pre + TimesCode(slot, le, plus, b, true) == pre + TimesCode(slot, le, plus, b, false) + [OP_PUSH_NIL, 0]
  {
    hide Wide, TimesHead, TimesTest, TimesNext;
  }

  // ---- one layer of the specification at a time ----

  lemma AssignUnfolds(c: Setup, node: Node, forValue: bool, names: seq<string>, lits: seq<Value>)
    requires node.Assign?
    ensures var v := Gen(c, node.value, true, names, lits);
            var s := GenStore(c, node.name, forValue, names, v.lits);
            Gen(c, node, forValue, names, lits) == Out(v.bytes + s.bytes, s.lits, v.good && s.good, v.peak, v.clean && s.clean)
  {
    hide GenStore;
  }

  lemma ReturnUnfolds(c: Setup, node: Node, forValue: bool, names: seq<string>, lits: seq<Value>)
    requires node.Return? && !node.expr.NilLit? && !node.expr.BoolLit? && !node.expr.Self?
    ensures var v := Gen(c, node.expr, true, names, lits);
            Gen(c, node, forValue, names, lits) == v.(bytes := v.bytes + [OP_RETURN_TOP, 0])
  {
  }

  lemma SendUnfolds(c: Setup, node: Node, forValue: bool, names: seq<string>, lits: seq<Value>)
    requires node.Send? && !FormOf(node).Loop?
    ensures var r := if node.super then Op(true, OP_PUSH_RECEIVER, names, lits) else Gen(c, node.recv, true, names, lits);
            var k := GenRest(c, node, forValue, names, r.lits);
            Gen(c, node, forValue, names, lits) == Out(r.bytes + k.bytes, k.lits, r.good && k.good, Max(r.peak, k.peak), r.clean && k.clean)
  {
    hide GenRest, FormOf;
  }

  lemma LoopUnfolds(c: Setup, node: Node, forValue: bool, names: seq<string>, lits: seq<Value>)
    requires node.Send? && FormOf(node).Loop?
    ensures Gen(c, node, forValue, names, lits) == GenLoop(c, node, forValue, names, lits)
  {
    hide GenLoop, FormOf;
  }

  lemma StmtsNone(c: Setup, forValue: bool, names: seq<string>, lits: seq<Value>)
    ensures GenStmts(c, [], forValue, names, lits) == Op(forValue, OP_PUSH_NIL, names, lits)
  {
  }

  lemma StmtsLast(c: Setup, stmts: seq<Node>, forValue: bool, names: seq<string>, lits: seq<Value>)
    requires |stmts| == 1 || (|stmts| > 1 && stmts[0].Return?)
    ensures GenStmts(c, stmts, forValue, names, lits) == Gen(c, stmts[0], forValue || stmts[0].Return?, names, lits)
  {
    hide Gen;
  }

  lemma StmtsUnfold(c: Setup, stmts: seq<Node>, forValue: bool, names: seq<string>, lits: seq<Value>)
    requires |stmts| > 1 && !stmts[0].Return?
    ensures var a := Gen(c, stmts[0], !stmts[0].Assign?, names, lits);
            var r := GenStmts(c, stmts[1..], forValue, names, a.lits);
            GenStmts(c, stmts, forValue, names, lits)
            == Out(a.bytes + (if stmts[0].Assign? then [] else [OP_POP, 0]) + r.bytes, r.lits, a.good && r.good, Max(a.peak, r.peak), a.clean && r.clean)
  {
    hide Gen;
  }

  class Generator {
    const c: Setup
    var code: seq<nat>
    var lits: seq<Value>
    var temps: seq<string>
    var peak: nat
    var error: bool

    ghost predicate Valid()
      reads this
    {
      Whole(code) && |temps| <= peak
    }

    constructor (c: Setup)
      ensures Valid() && this.c == c && code == [] && lits == [] && temps == [] && peak == 0 && !error
    {
      this.c := c;
      code, lits, temps, peak, error := [], [], [], 0, false;
    }

    method Emit(op: nat, operand: nat)
      requires Valid() && op != OP_WIDE
      modifies `code
      ensures Valid() && code == old(code) + [op, operand]
    {
      code := code + [op, operand];
    }

    method EmitWide(op: nat, operand: nat)
      requires Valid() && op != OP_WIDE
      modifies `code
      ensures Valid() && code == old(code) + Wide(op, operand)
    {
      if operand <= 255 {
        Emit(op, operand);
      } else {
        code := code + [OP_WIDE, operand / 256, op, operand % 256];
      }
    }

    /** Complete the forward jump at `jump` to the current end. */
    method Land(jump: nat, ghost prefix: seq<nat>, ghost op: nat, ghost rest: seq<nat>)
      requires Valid() && Whole(prefix) && Whole(prefix + [op, 0] + rest)
      requires code == prefix + [op, 0] + rest && jump == |prefix|
      modifies `code
      ensures Valid() && code == prefix + JumpOver(op, |rest|) + rest
    {
      Patched(prefix, op, rest);
      code := PatchJump(code, jump, |code|);
      WholeOperand(prefix, op, 0, |rest| % 256, rest);
    }

    method AddLiteral(v: Value) returns (index: nat)
      modifies `lits
      ensures index == LitIndex(old(lits), v) && lits == LitAdd(old(lits), v)
    {
      index := 0;
      while index < |lits|
        invariant 0 <= index <= |lits| && lits == old(lits)
        invariant LitIndex(lits, v) == index + LitIndex(lits[index..], v)
      {
        if lits[index] == v { return; }
        index := index + 1;
      }
      lits := lits + [v];
    }

    method AddTemp(name: string) returns (index: nat)
      requires Valid()
      modifies `temps, `peak
      ensures Valid() && index == |old(temps)| && temps == old(temps) + [name] && peak == Max(old(peak), |temps|)
    {
      index := |temps|;
      temps := temps + [name];
      if |temps| > peak { peak := |temps|; }
    }

    method FindName(names: seq<string>, name: string) returns (index: nat)
      ensures index == Find(names, name)
    {
      index := 0;
      while index < |names|
        invariant 0 <= index <= |names|
        invariant Find(names, name) == index + Find(names[index..], name)
      {
        if names[index] == name { return; }
        index := index + 1;
      }
    }

    /** The state after emitting o: bytes appended, literals collected, scope as before. */
    ghost predicate Appended(o: Out, code0: seq<nat>, temps0: seq<string>, peak0: nat)
      reads this
    {
      Valid() && code == code0 + o.bytes && lits == o.lits && temps == temps0 && peak == Max(peak0, o.peak)
    }

    /** Errors stick. Without one, o was emitted; there is one exactly if the compiler does not
        accept the source. */
    ghost predicate Emitted(o: Out, code0: seq<nat>, temps0: seq<string>, peak0: nat, error0: bool)
      reads this
    {
      && Valid() && temps == temps0 && code0 <= code && (error0 ==> error)
      && (!error ==> Appended(o, code0, temps0, peak0))
      && (error <==> error0 || !o.clean)
    }

    method EmitName(name: string, tempOp: nat, instOp: nat, globalOp: nat)
      requires Valid() && tempOp != OP_WIDE && instOp != OP_WIDE && globalOp != OP_WIDE
      modifies `code, `lits, `error
      ensures Emitted(GenName(c, name, tempOp, instOp, globalOp, old(temps), old(lits)), old(code), old(temps), old(peak), old(error))
      ensures error == (old(error) || !(name in temps || name in c.instVars || IsGlobal(c, name)))
    {
      var i := FindName(temps, name);
      if i < |temps| { EmitWide(tempOp, i); return; }
      i := FindName(c.instVars, name);
      if i < |c.instVars| { EmitWide(instOp, i); return; }
      if IsGlobal(c, name) {
        i := AddLiteral(Assoc(name));
        EmitWide(globalOp, i);
        return;
      }
      error := true;
    }

    method EmitInt(n: int)
      requires Valid()
      modifies `code, `lits
      ensures Appended(GenInt(n, old(temps), old(lits)), old(code), old(temps), old(peak))
    {
      if n == -1 { Emit(OP_PUSH_MINUS_ONE, 0); }
      else if n == 0 { Emit(OP_PUSH_ZERO, 0); }
      else if n == 1 { Emit(OP_PUSH_ONE, 0); }
      else if n == 2 { Emit(OP_PUSH_TWO, 0); }
      else if 0 <= n <= 65535 { EmitWide(OP_PUSH_SMALLINT, n); }
      else {
        var i := AddLiteral(Int(n));
        EmitWide(OP_PUSH_LIT, i);
      }
    }

    /** emit_node. A block that is not part of a control structure is outside the model. */
    method EmitNode(node: Node, forValue: bool)
      requires Valid()
      modifies this
      ensures Emitted(Gen(c, node, forValue, old(temps), old(lits)), old(code), old(temps), old(peak), old(error))
      decreases node, 3
    {
      hide GenInt, GenName, LitIndex, LitAdd, Wide, FormOf;
      if error { return; }
      match node {
        case Self => if forValue { Emit(OP_PUSH_RECEIVER, 0); }
        case NilLit => if forValue { Emit(OP_PUSH_NIL, 0); }
        case BoolLit(b) => if forValue { Emit(if b then OP_PUSH_TRUE else OP_PUSH_FALSE, 0); }
        case IntLit(n) => if forValue { EmitInt(n); }
        case Lit(v) =>
          if forValue {
            var i := AddLiteral(v);
            EmitWide(OP_PUSH_LIT, i);
          }
        case Var(name) => if forValue { EmitName(name, OP_PUSH_TEMP, OP_PUSH_INSTVAR, OP_PUSH_GLOBAL); }
        case Assign(name, value) => EmitAssignment(node, forValue);
        case Return(expr) => EmitReturn(node, forValue);
        case Block(_, _) => error := error || forValue;
        case Send(_, _, _, _) => EmitSend(node, forValue);
      }
    }

    method EmitAssignment(node: Node, forValue: bool)
      requires Valid() && node.Assign?
      modifies this
      ensures Emitted(Gen(c, node, forValue, old(temps), old(lits)), old(code), old(temps), old(peak), old(error))
      decreases node, 0
    {
      hide GenName, Gen, Whole;
      AssignUnfolds(c, node, forValue, temps, lits);
      EmitNode(node.value, true);
      ghost var mid := code;
      if forValue {
        EmitName(node.name, OP_STORE_TEMP, OP_STORE_INSTVAR, OP_STORE_GLOBAL);
      } else {
        EmitName(node.name, OP_POP_STORE_TEMP, OP_POP_STORE_INSTVAR, OP_POP_STORE_GLOBAL);
      }
    }

    method EmitReturn(node: Node, forValue: bool)
      requires Valid() && node.Return?
      modifies this
      ensures Emitted(Gen(c, node, forValue, old(temps), old(lits)), old(code), old(temps), old(peak), old(error))
      decreases node, 0
    {
      match node.expr {
        case NilLit => Emit(OP_RETURN_NIL, 0);
        case BoolLit(b) => Emit(if b then OP_RETURN_TRUE else OP_RETURN_FALSE, 0);
        case Self => Emit(OP_RETURN_SELF, 0);
        case _ => EmitReturnTop(node, forValue);
      }
    }

    method EmitReturnTop(node: Node, forValue: bool)
      requires Valid() && node.Return? && !node.expr.NilLit? && !node.expr.BoolLit? && !node.expr.Self?
      modifies this
      ensures Emitted(Gen(c, node, forValue, old(temps), old(lits)), old(code), old(temps), old(peak), old(error))
      decreases node, 0, 0
    {
      hide Gen, Whole;
      ReturnUnfolds(c, node, forValue, temps, lits);
      EmitNode(node.expr, true);
      Emit(OP_RETURN_TOP, 0);
    }

    method EmitSend(node: Node, forValue: bool)
      requires Valid() && node.Send?
      modifies this
      ensures Emitted(Gen(c, node, forValue, old(temps), old(lits)), old(code), old(temps), old(peak), old(error))
      decreases node, 2
    {
      hide FormOf, GenRest, GenLoop, Gen, Whole;
      if FormOf(node).Loop? {
        EmitLoop(node, forValue);
        LoopUnfolds(c, node, forValue, old(temps), old(lits));
      } else {
        SendUnfolds(c, node, forValue, temps, lits);
        if node.super { Emit(OP_PUSH_RECEIVER, 0); } else { EmitNode(node.recv, true); }
        EmitRest(node, forValue);
      }
    }

    method EmitRest(node: Node, forValue: bool)
      requires Valid() && node.Send? && !FormOf(node).Loop?
      modifies this
      ensures Emitted(GenRest(c, node, forValue, old(temps), old(lits)), old(code), old(temps), old(peak), old(error))
      decreases node, 1
    {
      hide FormOf, GenRest;
      var form := FormOf(node);
      match form {
        case If(_, _) => EmitIf(node, forValue);
        case IfElse(_, _) => EmitIfElse(node, forValue);
        case Logic(_, _) => EmitLogic(node, forValue);
        case Times(_) => EmitTimes(node, forValue);
        case Plain => EmitPlain(node, forValue);
      }
    }

    method EmitPlain(node: Node, forValue: bool)
      requires Valid() && node.Send? && FormOf(node).Plain?
      modifies this
      ensures Emitted(GenRest(c, node, forValue, old(temps), old(lits)), old(code), old(temps), old(peak), old(error))
      decreases node, 0
    {
      hide FormOf, GenArgs, LitIndex, LitAdd, Wide, Whole, Arity;
      EmitArgs(node.args);
      var i := AddLiteral(Sym(node.selector));
      EmitWide(if node.super then OP_SEND_SUPER else OP_SEND, i);
      if !forValue { Emit(OP_POP, 0); }
    }

    /** A jump over t, which ends in a jump of its own. */
    method LandInner(jump: nat, ghost pre: seq<nat>, ghost op: nat, ghost t: seq<nat>)
      requires Valid() && Whole(pre) && Whole(pre + [op, 0] + t)
      requires code == pre + [op, 0] + t + [OP_JUMP, 0] && jump == |pre|
      modifies `code
      ensures var mid := pre + JumpOver(op, |t + [OP_JUMP, 0]|) + t;
              Valid() && Whole(mid) && code == mid + [OP_JUMP, 0]
    {
      hide Whole;
      ghost var rest := t + [OP_JUMP, 0];
      Assoc3(pre + [op, 0], t, [OP_JUMP, 0]);
      Land(jump, pre, op, rest);
      Assoc3(pre + JumpOver(op, |rest|), t, [OP_JUMP, 0]);
      WholeOperand(pre, op, 0, |rest| % 256, t);
    }

    method EmitIf(node: Node, forValue: bool)
      requires Valid() && node.Send? && FormOf(node).If?
      modifies this
      ensures Emitted(GenRest(c, node, forValue, old(temps), old(lits)), old(code), old(temps), old(peak), old(error))
      decreases node, 0
    {
      hide FormOf, GenBlock, Whole, JumpOver, IfCode;
      var form := FormOf(node);
      var jump := |code|;
      var op := if form.on then OP_JUMP_FALSE else OP_JUMP_TRUE;
      ghost var pre := code;
      Emit(op, 0);
      EmitBlock(form.then_, forValue);
      Split(pre + [op, 0], code);
      ghost var b := code[|pre| + 2..];
      if forValue {
        var end := |code|;
        Emit(OP_JUMP, 0);
        LandInner(jump, pre, op, b);
        Emit(OP_PUSH_NIL, 0);
        Land(end, pre + JumpOver(op, |b + [OP_JUMP, 0]|) + b, OP_JUMP, [OP_PUSH_NIL, 0]);
      } else {
        Land(jump, pre, op, b);
      }
      IfShape(pre, form.on, b, forValue);
    }

    method EmitIfElse(node: Node, forValue: bool)
      requires Valid() && node.Send? && FormOf(node).IfElse?
      modifies this
      ensures Emitted(GenRest(c, node, forValue, old(temps), old(lits)), old(code), old(temps), old(peak), old(error))
      decreases node, 0
    {
      hide FormOf, GenBlock, Whole, JumpOver, IfElseCode;
      var form := FormOf(node);
      var jump := |code|;
      ghost var pre := code;
      Emit(OP_JUMP_FALSE, 0);
      EmitBlock(form.onTrue, forValue);
      Split(pre + [OP_JUMP_FALSE, 0], code);
      ghost var t := code[|pre| + 2..];
      var end := |code|;
      Emit(OP_JUMP, 0);
      LandInner(jump, pre, OP_JUMP_FALSE, t);
      ghost var mid := pre + JumpOver(OP_JUMP_FALSE, |t + [OP_JUMP, 0]|) + t;
      EmitBlock(form.onFalse, forValue);
      Split(mid + [OP_JUMP, 0], code);
      ghost var e := code[|mid| + 2..];
      Land(end, mid, OP_JUMP, e);
      IfElseShape(pre, t, e);
    }

    method EmitLogic(node: Node, forValue: bool)
      requires Valid() && node.Send? && FormOf(node).Logic?
      modifies this
      ensures Emitted(GenRest(c, node, forValue, old(temps), old(lits)), old(code), old(temps), old(peak), old(error))
      decreases node, 0
    {
      hide FormOf, GenBlock, Whole, JumpOver, LogicCode;
      var form := FormOf(node);
      var jump := |code|;
      var op, push := if form.stop then OP_JUMP_TRUE else OP_JUMP_FALSE, if form.stop then OP_PUSH_TRUE else OP_PUSH_FALSE;
      ghost var pre := code;
      Emit(op, 0);
      EmitBlock(form.rest, true);
      Split(pre + [op, 0], code);
      ghost var b := code[|pre| + 2..];
      var end := |code|;
      Emit(OP_JUMP, 0);
      LandInner(jump, pre, op, b);
      Emit(push, 0);
      Land(end, pre + JumpOver(op, |b + [OP_JUMP, 0]|) + b, OP_JUMP, [push, 0]);
      LogicShape(pre, form.stop, b);
      if !forValue { Emit(OP_POP, 0); }
    }

    method EmitLoop(node: Node, forValue: bool)
      requires Valid() && node.Send? && FormOf(node).Loop?
      modifies this
      ensures Emitted(GenLoop(c, node, forValue, old(temps), old(lits)), old(code), old(temps), old(peak), old(error))
      decreases node, 0
    {
      hide FormOf, GenBlock, Wide, Whole, JumpOver, LoopCode;
      var form := FormOf(node);
      var top := |code|;
      ghost var pre := code;
      EmitBlock(form.cond, true);
      Split(pre, code);
      ghost var t := code[|pre|..];
      var jump := |code|;
      var op := if form.on then OP_JUMP_FALSE else OP_JUMP_TRUE;
      Emit(op, 0);
      if form.body.Some? { EmitBlock(form.body.value, false); }
      Split(pre + t + [op, 0], code);
      ghost var b := code[|pre| + |t| + 2..];
      EmitWide(OP_JUMP_BACK, (|code| + 2 - top) % 65536);
      ghost var back := Wide(OP_JUMP_BACK, LoopDistance(|t|, |b|) % 65536);
      Assoc3(pre + t + [op, 0], b, back);
      Land(jump, pre + t, op, b + back);
      LoopShape(pre, form.on, t, b);
      if forValue { Emit(OP_PUSH_NIL, 0); }
    }

    method EmitTimes(node: Node, forValue: bool)
      requires Valid() && node.Send? && FormOf(node).Times?
      modifies this
      ensures Emitted(GenRest(c, node, forValue, old(temps), old(lits)), old(code), old(temps), old(peak), old(error))
      decreases node, 0
    {
      hide FormOf, GenBlock, Wide, LitIndex, LitAdd, Whole, TimesCode, TimesHead, TimesTest, TimesNext, TimesDistance, JumpOver;
      var count := AddTemp(HIDDEN_COUNT);
      var index := AddTemp(HIDDEN_INDEX);
      assert temps == old(temps) + [HIDDEN_COUNT, HIDDEN_INDEX];
      EmitTimesHead(count, index);
      ghost var pre := code;
      EmitTurns(FormOf(node).body_, count, index);
      ghost var b := GenBlock(c, FormOf(node).body_, false, temps, LitAdd(old(lits), Sym("<=")));
      TimesShape(old(code), count, LitIndex(old(lits), Sym("<=")), LitIndex(b.lits, Sym("+")), b.bytes);
      if forValue { Emit(OP_PUSH_NIL, 0); }
      temps := temps[..|temps| - 2];
    }

    method EmitTurns(body: Node, count: nat, index: nat)
      requires Valid() && body.Block? && index == count + 1
      modifies this
      ensures Valid() && temps == old(temps) && old(code) <= code && (old(error) ==> error)
      ensures var b := GenBlock(c, body, false, old(temps), LitAdd(old(lits), Sym("<=")));
              var le, plus := LitIndex(old(lits), Sym("<=")), LitIndex(b.lits, Sym("+"));
              var rest := b.bytes + TimesNext(count, plus) + Wide(OP_JUMP_BACK, TimesDistance(count, le, plus, |b.bytes|) % 65536);
              && (!error ==> code == old(code) + TimesTest(count, le) + JumpOver(OP_JUMP_FALSE, |rest|) + rest
                             && lits == LitAdd(b.lits, Sym("+")) && peak == Max(old(peak), b.peak))
              && (error <==> old(error) || !b.clean)
      decreases body, 1
    {
      hide GenBlock, Wide, LitIndex, LitAdd, Whole, TimesTest, TimesNext, JumpOver;
      var top := |code|;
      var le := EmitTimesTest(count, index);
      ghost var pre := code;
      var jump := |code|;
      Emit(OP_JUMP_FALSE, 0);
      EmitBlock(body, false);
      Split(pre + [OP_JUMP_FALSE, 0], code);
      ghost var b := code[|pre| + 2..];
      var plus := EmitTimesNext(count, index);
      ghost var next := TimesNext(count, plus);
      EmitWide(OP_JUMP_BACK, (|code| + 2 - top) % 65536);
      ghost var back := Wide(OP_JUMP_BACK, TimesDistance(count, le, plus, |b|) % 65536);
      Assoc3(pre + [OP_JUMP_FALSE, 0], b, next);
      Assoc3(pre + [OP_JUMP_FALSE, 0], b + next, back);
      Land(jump, pre, OP_JUMP_FALSE, b + next + back);
    }

    method EmitTimesHead(count: nat, index: nat)
      requires Valid() && index == count + 1
      modifies `code
      ensures Valid() && code == old(code) + TimesHead(count)
    {
      hide Wide, Whole;
      EmitWide(OP_POP_STORE_TEMP, count);
      Emit(OP_PUSH_ONE, 0);
      EmitWide(OP_POP_STORE_TEMP, index);
    }

    method EmitTimesTest(count: nat, index: nat) returns (le: nat)
      requires Valid() && index == count + 1
      modifies `code, `lits
      ensures le == LitIndex(old(lits), Sym("<=")) && lits == LitAdd(old(lits), Sym("<="))
      ensures Valid() && code == old(code) + TimesTest(count, le)
    {
      hide Wide, Whole, LitIndex, LitAdd;
      EmitWide(OP_PUSH_TEMP, index);
      EmitWide(OP_PUSH_TEMP, count);
      le := AddLiteral(Sym("<="));
      EmitWide(OP_SEND, le);
    }

    method EmitTimesNext(count: nat, index: nat) returns (plus: nat)
      requires Valid() && index == count + 1
      modifies `code, `lits
      ensures plus == LitIndex(old(lits), Sym("+")) && lits == LitAdd(old(lits), Sym("+"))
      ensures Valid() && code == old(code) + TimesNext(count, plus)
    {
      hide Wide, Whole, LitIndex, LitAdd;
      EmitWide(OP_PUSH_TEMP, index);
      Emit(OP_PUSH_ONE, 0);
      plus := AddLiteral(Sym("+"));
      EmitWide(OP_SEND, plus);
      EmitWide(OP_POP_STORE_TEMP, index);
    }

    /** r is what remains to be emitted of o. */
    ghost predicate Remaining(r: Out, o: Out, code0: seq<nat>, peak0: nat, error0: bool)
      reads this
    {
      && code0 <= code && (error0 ==> error)
      && (!error ==> code + r.bytes == code0 + o.bytes && r.lits == o.lits && Max(peak, r.peak) == Max(peak0, o.peak))
      && (error0 || !o.clean <==> error || !r.clean)
    }

    method EmitArgs(args: seq<Node>)
      requires Valid()
      modifies this
      ensures Emitted(GenArgs(c, args, old(temps), old(lits)), old(code), old(temps), old(peak), old(error))
      decreases args, 0
    {
      hide Gen, Whole;
      ghost var o := GenArgs(c, args, temps, lits);
      var i := 0;
      while i < |args|
        invariant 0 <= i <= |args| && Valid() && temps == old(temps)
        invariant Remaining(GenArgs(c, args[i..], temps, lits), o, old(code), old(peak), old(error))
      {
        assert args[i..][0] == args[i] && args[i..][1..] == args[i + 1..];
        EmitNode(args[i], true);
        i := i + 1;
      }
      assert args[i..] == [];
    }

    /** emit_block_body_inline: the block's temporaries go on top of the scope and off again. */
    method EmitBlock(b: Node, forValue: bool)
      requires Valid() && b.Block?
      modifies this
      ensures Emitted(GenBlock(c, b, forValue, old(temps), old(lits)), old(code), old(temps), old(peak), old(error))
      decreases b, 0
    {
      hide GenStmts;
      if b.body == [] {
        if forValue { Emit(OP_PUSH_NIL, 0); }
        return;
      }
      var saved := |temps|;
      var i := 0;
      while i < |b.temps|
        invariant 0 <= i <= |b.temps| && Valid() && temps == old(temps) + b.temps[..i] && peak == Max(old(peak), |temps|)
        invariant code == old(code) && lits == old(lits) && error == old(error)
      {
        var _ := AddTemp(b.temps[i]);
        i := i + 1;
      }
      assert b.temps[..i] == b.temps;
      EmitStatements(b.body, forValue);
      temps := temps[..saved];
    }

    method EmitStatements(stmts: seq<Node>, forValue: bool)
      requires Valid()
      modifies this
      ensures Emitted(GenStmts(c, stmts, forValue, old(temps), old(lits)), old(code), old(temps), old(peak), old(error))
      decreases stmts, 0
    {
      hide Gen, Whole, GenStmts;
      if stmts == [] {
        if forValue { Emit(OP_PUSH_NIL, 0); }
        StmtsNone(c, forValue, old(temps), old(lits));
        return;
      }
      ghost var o := GenStmts(c, stmts, forValue, temps, lits);
      assert stmts[0..] == stmts;
      var i := 0;
      while i < |stmts| - 1 && !stmts[i].Return?
        invariant 0 <= i < |stmts| && Valid() && temps == old(temps)
        invariant Remaining(GenStmts(c, stmts[i..], forValue, temps, lits), o, old(code), old(peak), old(error))
      {
        ghost var rest := stmts[i..];
        assert rest[0] == stmts[i] && rest[1..] == stmts[i + 1..];
        EmitStatement(rest, stmts[i], forValue, o, old(code), old(peak), old(error));
        i := i + 1;
      }
      assert stmts[i..][0] == stmts[i];
      StmtsLast(c, stmts[i..], forValue, temps, lits);
      EmitNode(stmts[i], forValue || stmts[i].Return?);
    }

    /** A statement that is not the last: its value, if it leaves one, is dropped. */
    method EmitStatement(ghost rest: seq<Node>, stmt: Node, ghost forValue: bool, ghost o: Out,
                         ghost code0: seq<nat>, ghost peak0: nat, ghost error0: bool)
      requires Valid() && |rest| > 1 && rest[0] == stmt && !stmt.Return?
      requires Remaining(GenStmts(c, rest, forValue, temps, lits), o, code0, peak0, error0)
      modifies this
      ensures Valid() && temps == old(temps)
      ensures Remaining(GenStmts(c, rest[1..], forValue, temps, lits), o, code0, peak0, error0)
      decreases stmt, 4
    {
      hide Gen, Whole, GenStmts;
      StmtsUnfold(c, rest, forValue, temps, lits);
      ghost var a := Gen(c, stmt, !stmt.Assign?, temps, lits);
      ghost var r := GenStmts(c, rest[1..], forValue, temps, a.lits);
      if stmt.Assign? {
        EmitNode(stmt, false);
        Assoc3(old(code), a.bytes + [], r.bytes);
      } else {
        EmitNode(stmt, true);
        Emit(OP_POP, 0);
        Assoc3(old(code), a.bytes, [OP_POP, 0]);
        Assoc3(old(code), a.bytes + [OP_POP, 0], r.bytes);
      }
    }

    /** sta_codegen, up to the allocation of the method object, with the three header fields. */
    method EmitMethod(m: MethodNode) returns (ok: bool, numArgs: nat, numTemps: nat, numLits: nat)
      requires Valid() && code == [] && lits == [] && temps == [] && peak == 0 && !error
      modifies this
      ensures var o := GenMethod(c, m);
              && (ok <==> o.clean)
              && (ok ==> code == o.bytes && lits == o.lits + [c.owner] && numArgs == |m.args| % 256
                         && numTemps == o.peak % 256 && numLits == (|o.lits| + 1) % 256)
    {
      hide GenStmts;
      var i := 0;
      while i < |m.args|
        invariant 0 <= i <= |m.args| && Valid() && temps == m.args[..i] && peak == i && code == [] && lits == [] && !error
      {
        var _ := AddTemp(m.args[i]);
        i := i + 1;
      }
      i := 0;
      while i < |m.temps|
        invariant 0 <= i <= |m.temps| && Valid() && temps == m.args + m.temps[..i] && peak == |temps| && code == [] && lits == [] && !error
      {
        var _ := AddTemp(m.temps[i]);
        i := i + 1;
      }
      assert m.temps[..i] == m.temps;
      if m.body == [] {
        Emit(OP_RETURN_SELF, 0);
      } else {
        var explicit := m.body[|m.body| - 1].Return?;
        EmitStatements(m.body, !explicit);
        if !explicit && !error {
          Emit(OP_POP, 0);
          Emit(OP_RETURN_SELF, 0);
        }
      }
      ok, numArgs, numTemps, numLits := !error, 0, 0, 0;
      if ok {
        lits := lits + [c.owner];
        numArgs, numTemps, numLits := |m.args| % 256, peak % 256, |lits| % 256;
      }
    }
  }
}
