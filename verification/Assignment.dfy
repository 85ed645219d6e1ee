/** Definite assignment: a check on the tree that keeps a method from reading a temporary of an
    inlined block before assigning it. */
module Assignment {
  import opened Common
  import opened Bytecode
  import opened Source

  type Names = set<string>

  predicate Outer(c: Setup, name: string) { name in c.instVars || IsGlobal(c, name) }

  /** The variables that surely have a value after the node if those in `a` have one before, or
      None if it may read one that has none, or leaves the modelled language. */
  function AfterNode(c: Setup, names: seq<string>, node: Node, a: Names): Option<Names>
    decreases node, 2
  {
    match node
    case Var(x) => if x in names then (if x in a then Some(a) else None) else if Outer(c, x) then Some(a) else None
    case Assign(x, value) =>
      var r := AfterNode(c, names, value, a);
      if r.None? then None else if x in names then Some(r.value + {x}) else if Outer(c, x) then r else None
    case Return(expr) => AfterNode(c, names, expr, a)
    case Block(_, _) => None
    case Send(super, recv, _, _) =>
      if FormOf(node).Loop? then AfterLoop(c, names, node, a)
      else
        var r := if super then Some(a) else AfterNode(c, names, recv, a);
        if r.None? then None else AfterRest(c, names, node, r.value)
    case _ => Some(a)
  }

  function AfterRest(c: Setup, names: seq<string>, node: Node, a: Names): Option<Names>
    requires node.Send? && !FormOf(node).Loop?
    decreases node, 1
  {
    match FormOf(node)
    case If(_, b) => Meet(Some(a), AfterBlock(c, names, b, a))
    case IfElse(t, e) => Meet(AfterBlock(c, names, t, a), AfterBlock(c, names, e, a))
    case Logic(_, b) => Meet(Some(a), AfterBlock(c, names, b, a))
    case Times(b) =>
      var r := AfterBlock(c, names, b, a);
      if r.Some? && a <= r.value then Some(a) else None
    case Plain => AfterArgs(c, names, node.args, a)
  }

  function Meet(p: Option<Names>, q: Option<Names>): Option<Names>
  {
    if p.Some? && q.Some? then Some(p.value * q.value) else None
  }

  function AfterArgs(c: Setup, names: seq<string>, args: seq<Node>, a: Names): Option<Names>
    decreases args, 0
  {
    if args == [] then Some(a)
    else
      var r := AfterNode(c, names, args[0], a);
      if r.None? then None else AfterArgs(c, names, args[1..], r.value)
  }

  /** A block's own temporaries start without a value; variables they hide keep theirs. */
  function AfterBlock(c: Setup, names: seq<string>, b: Node, a: Names): Option<Names>
    requires b.Block?
    decreases b, 0
  {
    if b.body == [] then Some(a)
    else
      var own := NameSet(b.temps);
      var r := AfterStmts(c, names + b.temps, b.body, a - own);
      if r.None? then None else Some((r.value - own) + (a * own))
  }

  function AfterStmts(c: Setup, names: seq<string>, stmts: seq<Node>, a: Names): Option<Names>
    decreases stmts, 0
  {
    if stmts == [] then Some(a)
    else
      var r := AfterNode(c, names, stmts[0], a);
      if r.None? || |stmts| == 1 then r else AfterStmts(c, names, stmts[1..], r.value)
  }

  /** The condition is evaluated at least once, and every turn starts with what the first had. */
  function AfterLoop(c: Setup, names: seq<string>, node: Node, a: Names): Option<Names>
    requires node.Send? && FormOf(node).Loop?
    decreases node, 0
  {
    var form := FormOf(node);
    var t := AfterBlock(c, names, form.cond, a);
    if t.None? then None
    else
      var b := if form.body.Some? then AfterBlock(c, names, form.body.value, t.value) else t;
      if b.Some? && a <= b.value then t else None
  }

  // ---- the check is sound ----

  ghost predicate Sound(r: Outcome, after: Names) { r != Unclaimed && (r.Done? ==> after <= r.st.vars.Keys) }

  lemma {:induction false} NodeSound(c: Setup, names: seq<string>, node: Node, a: Names, st: Store, fuel: nat)
    requires AfterNode(c, names, node, a).Some? && a <= st.vars.Keys
    ensures Sound(Eval(false, c, names, node, st, fuel), AfterNode(c, names, node, a).value)
    decreases fuel, node, 2
  {
    hide FormOf;
    match node {
      case Assign(x, value) => NodeSound(c, names, value, a, st, fuel);
      case Return(expr) => NodeSound(c, names, expr, a, st, fuel);
      case Send(super, recv, _, _) =>
        if FormOf(node).Loop? {
          LoopSound(c, names, node, a, st, fuel);
        } else if super {
          RestSound(c, names, node, a, c.receiver, st, fuel);
        } else {
          NodeSound(c, names, recv, a, st, fuel);
          var r := Eval(false, c, names, recv, st, fuel);
          if r.Done? { RestSound(c, names, node, AfterNode(c, names, recv, a).value, r.v, r.st, fuel); }
        }
      case _ =>
    }
  }

  lemma {:induction false} RestSound(c: Setup, names: seq<string>, node: Node, a: Names, v: Value, st: Store, fuel: nat)
    requires node.Send? && !FormOf(node).Loop? && AfterRest(c, names, node, a).Some? && a <= st.vars.Keys
    ensures Sound(EvalRest(false, c, names, node, v, st, fuel), AfterRest(c, names, node, a).value)
    decreases fuel, node, 1
  {
    hide FormOf, EvalBlock, AfterBlock;
    match FormOf(node) {
      case If(_, b) => BlockSound(c, names, b, a, st, fuel);
      case IfElse(t, e) =>
        BlockSound(c, names, t, a, st, fuel);
        BlockSound(c, names, e, a, st, fuel);
      case Logic(_, b) => BlockSound(c, names, b, a, st, fuel);
      case Times(b) => TimesSound(c, names, node, b, a, v, Int(1), st, fuel);
      case Plain => ArgsSound(c, names, node.args, a, st, fuel);
    }
  }

  lemma {:induction false} ArgsSound(c: Setup, names: seq<string>, args: seq<Node>, a: Names, st: Store, fuel: nat)
    requires AfterArgs(c, names, args, a).Some? && a <= st.vars.Keys
    ensures var r := EvalArgs(false, c, names, args, st, fuel);
            if r.Values? then AfterArgs(c, names, args, a).value <= r.st.vars.Keys else r.other != Unclaimed
    decreases fuel, args, 1
  {
    if args != [] {
      NodeSound(c, names, args[0], a, st, fuel);
      var r := Eval(false, c, names, args[0], st, fuel);
      if r.Done? { ArgsSound(c, names, args[1..], AfterNode(c, names, args[0], a).value, r.st, fuel); }
    }
  }

  lemma {:induction false} BlockSound(c: Setup, names: seq<string>, b: Node, a: Names, st: Store, fuel: nat)
    requires b.Block? && AfterBlock(c, names, b, a).Some? && a <= st.vars.Keys
    ensures Sound(EvalBlock(false, c, names, b, st, fuel), AfterBlock(c, names, b, a).value)
    decreases fuel, b, 1
  {
    hide EvalStmts, AfterStmts;
    if b.body != [] {
      StmtsSound(c, names + b.temps, b.body, a - NameSet(b.temps), st.(vars := Entered(false, st.vars, b.temps)), fuel);
    }
  }

  lemma {:induction false} StmtsSound(c: Setup, names: seq<string>, stmts: seq<Node>, a: Names, st: Store, fuel: nat)
    requires AfterStmts(c, names, stmts, a).Some? && a <= st.vars.Keys
    ensures Sound(EvalStmts(false, c, names, stmts, st, fuel), AfterStmts(c, names, stmts, a).value)
    decreases fuel, stmts, 1
  {
    if stmts != [] {
      NodeSound(c, names, stmts[0], a, st, fuel);
      var r := Eval(false, c, names, stmts[0], st, fuel);
      if r.Done? && |stmts| > 1 { StmtsSound(c, names, stmts[1..], AfterNode(c, names, stmts[0], a).value, r.st, fuel); }
    }
  }

  lemma {:induction false} LoopSound(c: Setup, names: seq<string>, node: Node, a: Names, st: Store, fuel: nat)
    requires node.Send? && FormOf(node).Loop? && AfterLoop(c, names, node, a).Some? && a <= st.vars.Keys
    ensures var form := FormOf(node);
            Sound(EvalLoop(false, c, names, node, form.on, form.cond, form.body, st, fuel), AfterLoop(c, names, node, a).value)
    decreases fuel, node, 0
  {
    hide FormOf, EvalBlock, AfterBlock;
    var form := FormOf(node);
    if fuel > 0 {
      BlockSound(c, names, form.cond, a, st, fuel);
      var t := EvalBlock(false, c, names, form.cond, st, fuel);
      if t.Done? && t.v == OfBool(form.on) {
        var after := AfterBlock(c, names, form.cond, a).value;
        if form.body.Some? {
          BlockSound(c, names, form.body.value, after, t.st, fuel);
          var b := EvalBlock(false, c, names, form.body.value, t.st, fuel);
          if b.Done? { LoopSound(c, names, node, a, b.st, fuel - 1); }
        } else {
          LoopSound(c, names, node, a, t.st, fuel - 1);
        }
      }
    }
  }

  lemma {:induction false} TimesSound(c: Setup, names: seq<string>, node: Node, b: Node, a: Names, count: Value, i: Value, st: Store, fuel: nat)
    requires b.Block? && b < node && AfterBlock(c, names, b, a).Some? && a <= AfterBlock(c, names, b, a).value && a <= st.vars.Keys
    ensures Sound(EvalTimes(false, c, names, node, b, count, i, st, fuel), a)
    decreases fuel, node, 0
  {
    hide EvalBlock, AfterBlock;
    if fuel > 0 {
      var t := SendMsg(c, false, i, "<=", [count], st);
      if t.v == True {
        BlockSound(c, names, b, a, t.st, fuel);
        var o := EvalBlock(false, c, names, b, t.st, fuel);
        if o.Done? {
          var n := SendMsg(c, false, i, "+", [Int(1)], o.st);
          TimesSound(c, names, node, b, a, count, n.v, n.st, fuel - 1);
        }
      }
    }
  }

  // ---- values that are not read do not matter ----

  /** t knows everything s knows. */
  ghost predicate Below(s: Store, t: Store)
  {
    s.trace == t.trace && forall x :: x in s.vars ==> x in t.vars && t.vars[x] == s.vars[x]
  }

  /** What is known without nil temporaries is so with them. */
  ghost predicate Refines(r: Outcome, r': Outcome)
  {
    || r.Unclaimed?
    || (r.Done? && r'.Done? && r.v == r'.v && Below(r.st, r'.st))
    || (!r.Done? && r == r')
  }

  lemma {:induction false} NodeRefines(c: Setup, names: seq<string>, node: Node, s: Store, t: Store, fuel: nat)
    requires Below(s, t)
    ensures Refines(Eval(false, c, names, node, s, fuel), Eval(true, c, names, node, t, fuel))
    decreases fuel, node, 2
  {
    hide FormOf;
    match node {
      case Assign(x, value) => NodeRefines(c, names, value, s, t, fuel);
      case Return(expr) => NodeRefines(c, names, expr, s, t, fuel);
      case Send(super, recv, _, _) =>
        if FormOf(node).Loop? {
          LoopRefines(c, names, node, s, t, fuel);
        } else if super {
          RestRefines(c, names, node, c.receiver, s, t, fuel);
        } else {
          NodeRefines(c, names, recv, s, t, fuel);
          var r, r' := Eval(false, c, names, recv, s, fuel), Eval(true, c, names, recv, t, fuel);
          if r.Done? { RestRefines(c, names, node, r.v, r.st, r'.st, fuel); }
        }
      case _ =>
    }
  }

  lemma {:induction false} RestRefines(c: Setup, names: seq<string>, node: Node, v: Value, s: Store, t: Store, fuel: nat)
    requires node.Send? && !FormOf(node).Loop? && Below(s, t)
    ensures Refines(EvalRest(false, c, names, node, v, s, fuel), EvalRest(true, c, names, node, v, t, fuel))
    decreases fuel, node, 1
  {
    hide FormOf, EvalBlock;
    match FormOf(node) {
      case If(_, b) => BlockRefines(c, names, b, s, t, fuel);
      case IfElse(x, y) =>
        BlockRefines(c, names, x, s, t, fuel);
        BlockRefines(c, names, y, s, t, fuel);
      case Logic(_, b) => BlockRefines(c, names, b, s, t, fuel);
      case Times(b) => TimesRefines(c, names, node, b, v, Int(1), s, t, fuel);
      case Plain => ArgsRefine(c, names, node.args, s, t, fuel);
    }
  }

  lemma {:induction false} ArgsRefine(c: Setup, names: seq<string>, args: seq<Node>, s: Store, t: Store, fuel: nat)
    requires Below(s, t)
    ensures var r, r' := EvalArgs(false, c, names, args, s, fuel), EvalArgs(true, c, names, args, t, fuel);
            if r.Values? then r'.Values? && r.vs == r'.vs && Below(r.st, r'.st) else r.other.Unclaimed? || r == r'
    decreases fuel, args, 1
  {
    if args != [] {
      NodeRefines(c, names, args[0], s, t, fuel);
      var r, r' := Eval(false, c, names, args[0], s, fuel), Eval(true, c, names, args[0], t, fuel);
      if r.Done? { ArgsRefine(c, names, args[1..], r.st, r'.st, fuel); }
    }
  }

  lemma {:induction false} BlockRefines(c: Setup, names: seq<string>, b: Node, s: Store, t: Store, fuel: nat)
    requires b.Block? && Below(s, t)
    ensures Refines(EvalBlock(false, c, names, b, s, fuel), EvalBlock(true, c, names, b, t, fuel))
    decreases fuel, b, 1
  {
    hide EvalStmts;
    if b.body != [] {
      StmtsRefine(c, names + b.temps, b.body, s.(vars := Entered(false, s.vars, b.temps)), t.(vars := Entered(true, t.vars, b.temps)), fuel);
    }
  }

  lemma {:induction false} StmtsRefine(c: Setup, names: seq<string>, stmts: seq<Node>, s: Store, t: Store, fuel: nat)
    requires Below(s, t)
    ensures Refines(EvalStmts(false, c, names, stmts, s, fuel), EvalStmts(true, c, names, stmts, t, fuel))
    decreases fuel, stmts, 1
  {
    if stmts != [] {
      NodeRefines(c, names, stmts[0], s, t, fuel);
      var r, r' := Eval(false, c, names, stmts[0], s, fuel), Eval(true, c, names, stmts[0], t, fuel);
      if r.Done? && |stmts| > 1 { StmtsRefine(c, names, stmts[1..], r.st, r'.st, fuel); }
    }
  }

  lemma {:induction false} LoopRefines(c: Setup, names: seq<string>, node: Node, s: Store, t: Store, fuel: nat)
    requires node.Send? && FormOf(node).Loop? && Below(s, t)
    ensures var form := FormOf(node);
            Refines(EvalLoop(false, c, names, node, form.on, form.cond, form.body, s, fuel),
                    EvalLoop(true, c, names, node, form.on, form.cond, form.body, t, fuel))
    decreases fuel, node, 0
  {
    hide FormOf, EvalBlock;
    var form := FormOf(node);
    if fuel > 0 {
      BlockRefines(c, names, form.cond, s, t, fuel);
      var r, r' := EvalBlock(false, c, names, form.cond, s, fuel), EvalBlock(true, c, names, form.cond, t, fuel);
      if r.Done? && r.v == OfBool(form.on) {
        if form.body.Some? {
          BlockRefines(c, names, form.body.value, r.st, r'.st, fuel);
          var b, b' := EvalBlock(false, c, names, form.body.value, r.st, fuel), EvalBlock(true, c, names, form.body.value, r'.st, fuel);
          if b.Done? { LoopRefines(c, names, node, b.st, b'.st, fuel - 1); }
        } else {
          LoopRefines(c, names, node, r.st, r'.st, fuel - 1);
        }
      }
    }
  }

  lemma {:induction false} TimesRefines(c: Setup, names: seq<string>, node: Node, b: Node, count: Value, i: Value, s: Store, t: Store, fuel: nat)
    requires b.Block? && b < node && Below(s, t)
    ensures Refines(EvalTimes(false, c, names, node, b, count, i, s, fuel), EvalTimes(true, c, names, node, b, count, i, t, fuel))
    decreases fuel, node, 0
  {
    hide EvalBlock;
    if fuel > 0 {
      var u, u' := SendMsg(c, false, i, "<=", [count], s), SendMsg(c, false, i, "<=", [count], t);
      if u.v == True {
        BlockRefines(c, names, b, u.st, u'.st, fuel);
        var o, o' := EvalBlock(false, c, names, b, u.st, fuel), EvalBlock(true, c, names, b, u'.st, fuel);
        if o.Done? {
          var n, n' := SendMsg(c, false, i, "+", [Int(1)], o.st), SendMsg(c, false, i, "+", [Int(1)], o'.st);
          TimesRefines(c, names, node, b, count, n.v, n.st, n'.st, fuel - 1);
        }
      }
    }
  }
}
