/** Instruction encoding and the single-frame part of the dispatch loop
    (src/vm/interpreter.h, src/vm/interpreter.c). */
module Bytecode {
  import opened Common

  const OP_NOP := 0x00
  const OP_WIDE := 0x01
  const OP_PUSH_RECEIVER := 0x02
  const OP_PUSH_NIL := 0x03
  const OP_PUSH_TRUE := 0x04
  const OP_PUSH_FALSE := 0x05
  const OP_PUSH_LIT := 0x06
  const OP_PUSH_TEMP := 0x07
  const OP_PUSH_INSTVAR := 0x08
  const OP_PUSH_GLOBAL := 0x09
  const OP_PUSH_SMALLINT := 0x0B
  const OP_PUSH_MINUS_ONE := 0x0C
  const OP_PUSH_ZERO := 0x0D
  const OP_PUSH_ONE := 0x0E
  const OP_PUSH_TWO := 0x0F
  const OP_STORE_TEMP := 0x10
  const OP_STORE_INSTVAR := 0x11
  const OP_STORE_GLOBAL := 0x12
  const OP_POP_STORE_TEMP := 0x13
  const OP_POP_STORE_INSTVAR := 0x14
  const OP_POP_STORE_GLOBAL := 0x15
  const OP_SEND := 0x20
  const OP_SEND_SUPER := 0x21
  const OP_RETURN_TOP := 0x30
  const OP_RETURN_SELF := 0x31
  const OP_RETURN_NIL := 0x32
  const OP_RETURN_TRUE := 0x33
  const OP_RETURN_FALSE := 0x34
  const OP_JUMP := 0x40
  const OP_JUMP_TRUE := 0x41
  const OP_JUMP_FALSE := 0x42
  const OP_JUMP_BACK := 0x43
  const OP_POP := 0x50
  const OP_DUP := 0x51

  datatype Value = Nil | True | False | Int(n: int) | Sym(name: string) | Assoc(key: string) | Ref(id: nat)

  /** Everything a method does that others can observe. */
  datatype Event =
    | Sent(super: bool, recv: Value, selector: string, args: seq<Value>)
    | InstSet(recv: Value, index: nat, v: Value)
    | GlobalSet(key: string, v: Value)

  /** The rest of the system as functions of the history, a send included as its last event: what
      a send answers, what else is sent and stored on its behalf, and what variables contain. */
  datatype World = World(
    reply: seq<Event> -> Value,
    effects: seq<Event> -> seq<Event>,
    instVar: (seq<Event>, Value, nat) -> Value,
    global: (seq<Event>, string) -> Value)

  datatype Instr = Instr(op: nat, operand: nat, len: nat) | NoInstr

  /** Two bytes, or four with OP_WIDE carrying the operand's high byte. */
  function Decode(code: seq<nat>, pc: nat): (r: Instr)
    ensures r.Instr? ==> r.len == 2 || r.len == 4
  {
    if pc + 1 >= |code| then NoInstr
    else if code[pc] != OP_WIDE then Instr(code[pc], code[pc + 1], 2)
    else if pc + 3 >= |code| then NoInstr
    else Instr(code[pc + 2], code[pc + 1] * 256 + code[pc + 3], 4)
  }

  predicate IsBinaryChar(c: char) { c in "+-*/<>=~@%&|!?\\," }

  function Colons(s: string): nat
  {
    if s == "" then 0 else (if s[0] == ':' then 1 else 0) + Colons(s[1..])
  }

  function Arity(selector: string): nat
  {
    if selector == "" then 0 else if IsBinaryChar(selector[0]) then 1 else Colons(selector)
  }

  /** A method's code, its literals and the receiver it runs with. */
  datatype Program = Program(code: seq<nat>, lits: seq<Value>, receiver: Value)

  /** One activation: program counter, expression stack, argument and temporary slots. */
  datatype Frame = Frame(pc: nat, stack: seq<Value>, temps: seq<Value>)

  /** What one instruction does to its frame and the history. */
  datatype Effect =
    | Continue(f: Frame, trace: seq<Event>)
    | Call(f: Frame, super: bool, recv: Value, selector: string, args: seq<Value>)
    | Answer(v: Value)
    | Fatal

  function Push(f: Frame, v: Value, len: nat): Frame { f.(stack := f.stack + [v], pc := f.pc + len) }

  function Top(f: Frame): Value
    requires f.stack != []
  {
    f.stack[|f.stack| - 1]
  }

  function Drop(f: Frame): Frame
    requires f.stack != []
  {
    f.(stack := f.stack[..|f.stack| - 1])
  }

  /** Literal operands are truncated to eight bits. */
  function Literal(p: Program, operand: nat): Value
  {
    if operand % 256 < |p.lits| then p.lits[operand % 256] else Nil
  }

  /** The value an OP_PUSH_* instruction pushes, if it is one. */
  function Pushed(w: World, p: Program, f: Frame, trace: seq<Event>, op: nat, operand: nat): Option<Value>
  {
    if op == OP_PUSH_RECEIVER then Some(p.receiver)
    else if op == OP_PUSH_NIL then Some(Nil)
    else if op == OP_PUSH_TRUE then Some(True)
    else if op == OP_PUSH_FALSE then Some(False)
    else if op == OP_PUSH_LIT then Some(Literal(p, operand))
    else if op == OP_PUSH_TEMP then if operand < |f.temps| then Some(f.temps[operand]) else None
    else if op == OP_PUSH_INSTVAR then Some(w.instVar(trace, p.receiver, operand))
    else if op == OP_PUSH_GLOBAL then
      if Literal(p, operand).Assoc? then Some(w.global(trace, Literal(p, operand).key)) else None
    else if op == OP_PUSH_SMALLINT then Some(Int(operand))
    else if op == OP_PUSH_MINUS_ONE then Some(Int(-1))
    else if op == OP_PUSH_ZERO then Some(Int(0))
    else if op == OP_PUSH_ONE then Some(Int(1))
    else if op == OP_PUSH_TWO then Some(Int(2))
    else if op == OP_DUP then if f.stack != [] then Some(Top(f)) else None
    else None
  }

  /** Store the top of the stack; the POP_ variants also remove it. */
  function Stored(p: Program, f: Frame, trace: seq<Event>, op: nat, operand: nat): Effect
    requires f.stack != []
  {
    var v := Top(f);
    if op == OP_STORE_TEMP || op == OP_POP_STORE_TEMP then
      if operand >= |f.temps| then Fatal
      else
        var g := f.(temps := f.temps[operand := v]);
        Continue(if op == OP_POP_STORE_TEMP then Drop(g) else g, trace)
    else if op == OP_STORE_INSTVAR || op == OP_POP_STORE_INSTVAR then
      Continue(if op == OP_POP_STORE_INSTVAR then Drop(f) else f, trace + [InstSet(p.receiver, operand, v)])
    else if op == OP_STORE_GLOBAL || op == OP_POP_STORE_GLOBAL then
      if !Literal(p, operand).Assoc? then Fatal
      else Continue(if op == OP_POP_STORE_GLOBAL then Drop(f) else f, trace + [GlobalSet(Literal(p, operand).key, v)])
    else Fatal
  }

  /** Jump if the popped value is the boolean `on`; anything else than a boolean is fatal. */
  function Branched(f: Frame, trace: seq<Event>, on: Value, off: Value, i: Instr): Effect
    requires i.Instr?
  {
    if f.stack == [] then Fatal
    else if Top(f) == on then Continue(Drop(f).(pc := f.pc + i.len + i.operand), trace)
    else if Top(f) == off then Continue(Drop(f).(pc := f.pc + i.len), trace)
    else Fatal
  }

  /** Pop the arguments and the receiver of a send; the pc is past the instruction. */
  function Sends(f: Frame, super: bool, selector: Value, len: nat): Effect
  {
    if !selector.Sym? || |f.stack| < Arity(selector.name) + 1 then Fatal
    else
      var n := |f.stack| - Arity(selector.name);
      Call(f.(stack := f.stack[..n - 1], pc := f.pc + len), super, f.stack[n - 1], selector.name, f.stack[n..])
  }

  function Returned(p: Program, f: Frame, op: nat): Effect
  {
    if op == OP_RETURN_TOP then if f.stack != [] then Answer(Top(f)) else Fatal
    else if op == OP_RETURN_SELF then Answer(p.receiver)
    else if op == OP_RETURN_NIL then Answer(Nil)
    else if op == OP_RETURN_TRUE then Answer(True)
    else if op == OP_RETURN_FALSE then Answer(False)
    else Fatal
  }

  /** One instruction of the dispatch loop. */
  function Exec(w: World, p: Program, f: Frame, trace: seq<Event>, i: Instr): Effect
  {
    if i.NoInstr? then Fatal
    else if i.op == OP_NOP then Continue(f.(pc := f.pc + i.len), trace)
    else if i.op <= OP_PUSH_TWO || i.op == OP_DUP then
      var v := Pushed(w, p, f, trace, i.op, i.operand);
      if v.Some? then Continue(Push(f, v.value, i.len), trace) else Fatal
    else if i.op <= OP_POP_STORE_GLOBAL then
      if f.stack == [] then Fatal else Stored(p, f.(pc := f.pc + i.len), trace, i.op, i.operand)
    else if i.op == OP_SEND || i.op == OP_SEND_SUPER then
      Sends(f, i.op == OP_SEND_SUPER, Literal(p, i.operand), i.len)
    else if OP_RETURN_TOP <= i.op <= OP_RETURN_FALSE then Returned(p, f, i.op)
    else if i.op == OP_JUMP then Continue(f.(pc := f.pc + i.len + i.operand), trace)
    else if i.op == OP_JUMP_TRUE then Branched(f, trace, True, False, i)
    else if i.op == OP_JUMP_FALSE then Branched(f, trace, False, True, i)
    else if i.op == OP_JUMP_BACK then
      if i.operand > f.pc + i.len then Fatal else Continue(f.(pc := f.pc + i.len - i.operand), trace)
    else if i.op == OP_POP then
      if f.stack == [] then Fatal else Continue(Drop(f).(pc := f.pc + i.len), trace)
    else Fatal
  }
}
