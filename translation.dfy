/**
 * The translation of a syntax tree into three-address code, as functions:
 * the specification the visitor (TACVisitor) is proved against.  A
 * translation threads one state through the walk: the registry, the
 * loop-context stack and the counter that makes every created label fresh.
 *
 * Each function follows one visit method of the visitor, emitting the same
 * instructions, binding the same names and attaching the same labels in the
 * same order.  A labelled `break` or `continue` whose name no enclosing loop
 * carries aborts the translation: the outcome is `Err(name)` with the state
 * as it was when the lookup failed.
 */
module Translation {
  import opened Wrappers
  import opened Tac
  import opened TacRegistry
  import opened TacContext
  import opened Syntax

  datatype TState = TState(reg: RegState, scopes: seq<LoopInfo>, nextLabel: nat)

  /** The state a translation of a whole program starts from: a new registry, an empty loop stack, no label created. */
  const Initial: TState := TState(EmptyRegistry, [], 0)

  /** The value a sub-tree translates to (or the failure), and the state after it. */
  datatype Outcome = Outcome(result: Result<Value, string>, st: TState)

  /** `TACLabel.create()`: a fresh anonymous label. */
  function CreateLabel(s: TState): (Label, TState)
  {
    (Label(s.nextLabel, None), s.(nextLabel := s.nextLabel + 1))
  }

  /** `TACLabel.create(name)`: a fresh label with an explicit name. */
  function CreateNamedLabel(s: TState, name: string): (Label, TState)
  {
    (Label(s.nextLabel, Some(name)), s.(nextLabel := s.nextLabel + 1))
  }

  /** Appends an instruction; the value is the reference to it. */
  function Emit(s: TState, stmt: Stmt): (r: (Value, TState))
    ensures r.0 == Reference(|s.reg.records|)
  {
    (Reference(|s.reg.records|), s.(reg := s.reg.Register(stmt)))
  }

  function Bind(s: TState, ref: int, name: string): TState
  {
    s.(reg := s.reg.RegisterVarName(ref, name))
  }

  function Attach(s: TState, l: Label): TState
  {
    s.(reg := s.reg.RegisterLabel(l))
  }

  function EnterLoop(s: TState, entry: Label, exit: Label, name: Option<string>): TState
  {
    s.(scopes := [LoopInfo(LoopName(name), entry, exit)] + s.scopes)
  }

  function ExitLoop(s: TState): TState
    requires |s.scopes| > 0
  {
    s.(scopes := s.scopes[1..])
  }

  /** The translator may run `n` in state `s`: its unlabelled jumps find a loop. */
  predicate Fits(n: Node, s: TState)
  {
    JumpsInLoops(n, |s.scopes| > 0)
  }

  /**
   * Translates one node.  A translation that succeeds leaves the loop stack
   * as it found it.
   */
  function Translate(n: Node, s: TState): (o: Outcome)
    requires Fits(n, s)
    ensures o.result.Ok? ==> o.st.scopes == s.scopes
    decreases Size(n), 1
  {
    match n
    case Literal(t) => Outcome(Ok(Const(t)), s)
    case Name(id) => Outcome(Ok(Named(id)), s)
    case Enclosed(e) => Translate(e, s)
    case Binary(l, op, r) => TranslateBinary(l, op, r, s)
    case Unary(op, e) => TranslateUnary(op, e, s)
    case Assignment(t, op, v) => TranslateAssign(t, op, v, s)
    case Declarator(name, init) => TranslateDeclarator(name, init, s)
    case If(c, t, e) => TranslateIf(c, t, e, s)
    case While(l, c, b) => TranslateLoop(l, c, b, false, s)
    case Do(l, b, c) => TranslateLoop(l, c, b, true, s)
    case For(l, init, c, upd, b) => TranslateFor(l, init, c, upd, b, s)
    case Break(l) => TranslateBreak(l, s)
    case Continue(l) => TranslateContinue(l, s)
    case Method(name, b) => TranslateMethod(name, b, s)
    case Other(text, cs) => DefaultAction(text, cs, s)
  }

  /** Translates the nodes in order, discarding their values, up to the first failure. */
  function TranslateAll(ns: seq<Node>, s: TState): (o: Outcome)
    requires AllJumpsInLoops(ns, |s.scopes| > 0)
    ensures o.result.Ok? ==> o.st.scopes == s.scopes && o.result.value == NoValue
    decreases SizeAll(ns), 1
  {
    if ns == [] then Outcome(Ok(NoValue), s)
    else
      var o := Translate(ns[0], s);
      if o.result.Err? then o else TranslateAll(ns[1..], o.st)
  }

  /** `defaultAction`: translates every child and yields `Unknown`. */
  function DefaultAction(text: string, children: seq<Node>, s: TState): (o: Outcome)
    requires Fits(Other(text, children), s)
    ensures o.result.Ok? ==> o.st.scopes == s.scopes
    decreases Size(Other(text, children)), 0
  {
    var o := TranslateAll(children, s);
    if o.result.Err? then o else Outcome(Ok(Unknown(text)), o.st)
  }

  /**
   * `handleBinary`: the left operand, then the right one, then one
   * `Assign(arg1, arg2, op)`; the value is the reference to that record.
   */
  function TranslateBinary(left: Node, op: string, right: Node, s: TState): (o: Outcome)
    requires Fits(Binary(left, op, right), s)
    ensures o.result.Ok? ==> o.st.scopes == s.scopes
    ensures o.result.Ok? ==> o.result.value == Reference(|o.st.reg.records| - 1)
    decreases Size(Binary(left, op, right)), 0
  {
    var o1 := Translate(left, s);
    if o1.result.Err? then o1
    else
      var o2 := Translate(right, o1.st);
      if o2.result.Err? then o2
      else
        var (ref, s3) := Emit(o2.st, Apply(o1.result.value, GetByCode(op), o2.result.value));
        Outcome(Ok(ref), s3)
  }

  /** The name an increment or decrement binds: the operand's identifier, or "UNKNOWN". */
  function TargetName(arg: Value): string
  {
    if arg.Named? then arg.id else "UNKNOWN"
  }

  /** Prefix `++`/`--`: the update, bound to the variable, then a copy of the variable, which is the value. */
  function PrefixStep(arg: Value, op: Op, s: TState): Outcome
  {
    var name := TargetName(arg);
    var (inc, s1) := Emit(s, Apply(arg, op, Const("1")));
    var s2 := Bind(s1, inc.index, name);
    var (copy, s3) := Emit(s2, Copy(Named(name)));
    Outcome(Ok(copy), s3)
  }

  /** Postfix `++`/`--`: a copy of the variable, which is the value, then the update, bound to the variable. */
  function PostfixStep(arg: Value, op: Op, s: TState): Outcome
  {
    var name := TargetName(arg);
    var (oldValue, s1) := Emit(s, Copy(Named(name)));
    var (inc, s2) := Emit(s1, Apply(arg, op, Const("1")));
    var s3 := Bind(s2, inc.index, name);
    Outcome(Ok(oldValue), s3)
  }

  /** The unary visit: the operand first, then the operator's template. */
  function TranslateUnary(op: UnaryOp, operand: Node, s: TState): (o: Outcome)
    requires Fits(Unary(op, operand), s)
    ensures o.result.Ok? ==> o.st.scopes == s.scopes
    decreases Size(Unary(op, operand)), 0
  {
    var o1 := Translate(operand, s);
    if o1.result.Err? then o1
    else
      var arg := o1.result.value;
      match op
      case UnaryPlus => o1
      case UnaryMinus =>
        var (r, s2) := Emit(o1.st, Apply(Const("0"), MINUS, arg));
        Outcome(Ok(r), s2)
      case PrefixIncrement => PrefixStep(arg, PLUS, o1.st)
      case PrefixDecrement => PrefixStep(arg, MINUS, o1.st)
      case PostfixIncrement => PostfixStep(arg, PLUS, o1.st)
      case PostfixDecrement => PostfixStep(arg, MINUS, o1.st)
      case LogicalComplement =>
        var (r, s2) := Emit(o1.st, Apply(Const("1"), MINUS, arg));
        Outcome(Ok(r), s2)
      case BitwiseComplement => Outcome(Ok(Unknown("BITWISE_COMPLEMENT")), o1.st)
  }

  /** A reference is kept as it is; any other value is copied into a new record. */
  function AsReference(v: Value, s: TState): (o: Outcome)
    ensures o.result.Ok? && o.result.value.Reference?
    ensures o.st.scopes == s.scopes
  {
    if v.Reference? then Outcome(Ok(v), s)
    else
      var (r, s1) := Emit(s, Copy(v));
      Outcome(Ok(r), s1)
  }

  /**
   * The assignment visit: a compound assignment is the binary template with
   * the target as left operand; a plain one is the value made a reference.
   * Either way the reference is bound to the target's text and is the value.
   */
  function TranslateAssign(target: Node, compound: Option<string>, value: Node, s: TState): (o: Outcome)
    requires Fits(Assignment(target, compound, value), s)
    ensures o.result.Ok? ==> o.st.scopes == s.scopes
    decreases Size(Assignment(target, compound, value)), 0
  {
    var o1 :=
      if compound.Some? then TranslateBinary(target, compound.value, value, s)
      else
        var ov := Translate(value, s);
        if ov.result.Err? then ov else AsReference(ov.result.value, ov.st);
    if o1.result.Err? then o1
    else Outcome(o1.result, Bind(o1.st, o1.result.value.index, SourceText(target)))
  }

  /** The declarator visit: an initializer is made a reference bound to the declared name. */
  function TranslateDeclarator(name: string, init: Option<Node>, s: TState): (o: Outcome)
    requires Fits(Declarator(name, init), s)
    ensures o.result.Ok? ==> o.st.scopes == s.scopes
    decreases Size(Declarator(name, init)), 0
  {
    if init.None? then Outcome(Ok(NoValue), s)
    else
      var o1 := Translate(init.value, s);
      if o1.result.Err? then o1
      else
        var o2 := AsReference(o1.result.value, o1.st);
        Outcome(Ok(NoValue), Bind(o2.st, o2.result.value.index, name))
  }

  /**
   * The `if` visit.  With an else branch: `IfFalse(c, else)`, the then
   * branch, `GoTo(after)`, attach `else`, the else branch, attach `after`.
   * Without: `IfFalse(c, after)`, the then branch, attach `after`.
   */
  function TranslateIf(cond: Node, thenStmt: Node, elseStmt: Option<Node>, s: TState): (o: Outcome)
    requires Fits(If(cond, thenStmt, elseStmt), s)
    ensures o.result.Ok? ==> o.st.scopes == s.scopes
    decreases Size(If(cond, thenStmt, elseStmt)), 0
  {
    if elseStmt.Some? then
      var (elseLabel, s1) := CreateLabel(s);
      var (afterLabel, s2) := CreateLabel(s1);
      var oc := Translate(cond, s2);
      if oc.result.Err? then oc
      else
        var (_, s3) := Emit(oc.st, IfFalse(oc.result.value, elseLabel));
        var ot := Translate(thenStmt, s3);
        if ot.result.Err? then ot
        else
          var (_, s4) := Emit(ot.st, GoTo(afterLabel));
          var s5 := Attach(s4, elseLabel);
          var oe := Translate(elseStmt.value, s5);
          if oe.result.Err? then oe
          else Outcome(Ok(NoValue), Attach(oe.st, afterLabel))
    else
      var (afterLabel, s1) := CreateLabel(s);
      var oc := Translate(cond, s1);
      if oc.result.Err? then oc
      else
        var (_, s2) := Emit(oc.st, IfFalse(oc.result.value, afterLabel));
        var ot := Translate(thenStmt, s2);
        if ot.result.Err? then ot
        else Outcome(Ok(NoValue), Attach(ot.st, afterLabel))
  }

  /**
   * `handleWhile`, for `while` (isReverse false) and `do` (isReverse true):
   * push the loop, attach `start`, then the condition and its `IfFalse`
   * before the body (`while`) or after it (`do`), then `GoTo(start)`,
   * attach `after`, pop the loop.
   */
  function TranslateLoop(stmtLabel: Option<string>, cond: Node, body: Node, isReverse: bool, s: TState): (o: Outcome)
    requires JumpsInLoops(cond, true) && JumpsInLoops(body, true)
    ensures o.result.Ok? ==> o.st.scopes == s.scopes
    decreases 1 + Size(cond) + Size(body), 0
  {
    var (startLabel, s1) := CreateLabel(s);
    var (afterLabel, s2) := CreateLabel(s1);
    var s3 := EnterLoop(s2, startLabel, afterLabel, stmtLabel);
    var s4 := Attach(s3, startLabel);
    var o5 := LoopTest(cond, body, afterLabel, isReverse, s4);
    if o5.result.Err? then o5
    else
      var (_, s6) := Emit(o5.st, GoTo(startLabel));
      var s7 := Attach(s6, afterLabel);
      Outcome(Ok(NoValue), ExitLoop(s7))
  }

  /** The part of a loop between its two labels: the condition (with `IfFalse(c, after)`) and the body, in loop order. */
  function LoopTest(cond: Node, body: Node, afterLabel: Label, isReverse: bool, s: TState): (o: Outcome)
    requires JumpsInLoops(cond, true) && JumpsInLoops(body, true) && |s.scopes| > 0
    ensures o.result.Ok? ==> o.st.scopes == s.scopes
    decreases Size(cond) + Size(body), 2
  {
    if isReverse then
      var ob := Translate(body, s);
      if ob.result.Err? then ob
      else
        var oc := Translate(cond, ob.st);
        if oc.result.Err? then oc
        else Outcome(Ok(NoValue), Emit(oc.st, IfFalse(oc.result.value, afterLabel)).1)
    else
      var oc := Translate(cond, s);
      if oc.result.Err? then oc
      else
        var (_, s1) := Emit(oc.st, IfFalse(oc.result.value, afterLabel));
        Translate(body, s1)
  }

  /** The optional condition of a `for`, with its `IfFalse(c, after)`. */
  function ForCompare(compare: Option<Node>, afterLabel: Label, s: TState): (o: Outcome)
    requires compare.Some? ==> Fits(compare.value, s)
    ensures o.result.Ok? ==> o.st.scopes == s.scopes
    decreases if compare.Some? then Size(compare.value) else 0, 2
  {
    if compare.None? then Outcome(Ok(NoValue), s)
    else
      var oc := Translate(compare.value, s);
      if oc.result.Err? then oc
      else Outcome(Ok(NoValue), Emit(oc.st, IfFalse(oc.result.value, afterLabel)).1)
  }

  /**
   * The `for` visit: the initializers, push the loop, attach `start`, the
   * condition, the body, the updates, `GoTo(start)`, attach `after`, pop.
   * A `continue` jumps to `start`, so it skips the updates.
   */
  function TranslateFor(stmtLabel: Option<string>, init: seq<Node>, compare: Option<Node>, update: seq<Node>,
                        body: Node, s: TState): (o: Outcome)
    requires Fits(For(stmtLabel, init, compare, update, body), s)
    ensures o.result.Ok? ==> o.st.scopes == s.scopes
    decreases Size(For(stmtLabel, init, compare, update, body)), 0
  {
    var oi := TranslateAll(init, s);
    if oi.result.Err? then oi
    else
      var (startLabel, s1) := CreateLabel(oi.st);
      var (afterLabel, s2) := CreateLabel(s1);
      var s3 := EnterLoop(s2, startLabel, afterLabel, stmtLabel);
      var s4 := Attach(s3, startLabel);
      var oc := ForCompare(compare, afterLabel, s4);
      if oc.result.Err? then oc
      else
        var ob := Translate(body, oc.st);
        if ob.result.Err? then ob
        else
          var ou := TranslateAll(update, ob.st);
          if ou.result.Err? then ou
          else
            var (_, s6) := Emit(ou.st, GoTo(startLabel));
            var s7 := Attach(s6, afterLabel);
            Outcome(Ok(NoValue), ExitLoop(s7))
  }

  /** `break`: one `GoTo` to the exit of the innermost loop, or of the innermost loop with that name. */
  function TranslateBreak(jumpLabel: Option<string>, s: TState): (o: Outcome)
    requires jumpLabel.None? ==> |s.scopes| > 0
    ensures o.st.scopes == s.scopes
  {
    var target := if jumpLabel.Some? then BreakTarget(s.scopes, jumpLabel.value) else Ok(s.scopes[0].exitPoint);
    if target.Err? then Outcome(Err(target.error), s)
    else
      var (r, s1) := Emit(s, GoTo(target.value));
      Outcome(Ok(r), s1)
  }

  /** `continue`: one `GoTo` to the entry of the innermost loop, or of the innermost loop with that name. */
  function TranslateContinue(jumpLabel: Option<string>, s: TState): (o: Outcome)
    requires jumpLabel.None? ==> |s.scopes| > 0
    ensures o.st.scopes == s.scopes
  {
    var target := if jumpLabel.Some? then ContinueTarget(s.scopes, jumpLabel.value) else Ok(s.scopes[0].entryPoint);
    if target.Err? then Outcome(Err(target.error), s)
    else
      var (r, s1) := Emit(s, GoTo(target.value));
      Outcome(Ok(r), s1)
  }

  /** The method visit: attach `_method_<name>`, `BeginFunc`, the body, `EndFunc`. */
  function TranslateMethod(name: string, body: Option<Node>, s: TState): (o: Outcome)
    requires Fits(Method(name, body), s)
    ensures o.result.Ok? ==> o.st.scopes == s.scopes
    decreases Size(Method(name, body)), 0
  {
    var (methodLabel, s1) := CreateNamedLabel(s, "_method_" + name);
    var s2 := Attach(s1, methodLabel);
    var (_, s3) := Emit(s2, BeginFunc);
    var ob := if body.Some? then Translate(body.value, s3) else Outcome(Ok(NoValue), s3);
    if ob.result.Err? then ob
    else
      var (_, s4) := Emit(ob.st, EndFunc);
      Outcome(Ok(NoValue), s4)
  }
}
