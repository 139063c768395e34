/**
 * Jump targets of translated code.  Every `GoTo` and `IfFalse` the
 * translator emits targets a label that is attached, and so named, by the
 * time the enclosing construct is finished: `if` targets its own labels,
 * loops their start and exit labels, `break` and `continue` the labels of an
 * enclosing loop.  A translation from an empty registry and an empty loop
 * stack therefore leaves no jump to an unnamed label.
 */
module JumpFacts {
  import opened Wrappers
  import opened Tac
  import opened TacRegistry
  import opened TacContext
  import opened Syntax
  import opened Translation
  import opened TranslationFacts

  /** Every jump of `reg` targets a label that is named, or one of `pending`, the labels still to be attached. */
  ghost predicate Resolved(reg: RegState, pending: set<Label>)
  {
    forall i :: 0 <= i < |reg.records| && reg.records[i].IsJump() ==>
      reg.records[i].target in reg.labelNames || reg.records[i].target in pending
  }

  /** The labels of every enclosing loop are among `pending`. */
  ghost predicate ScopesPending(scopes: seq<LoopInfo>, pending: set<Label>)
  {
    forall i :: 0 <= i < |scopes| ==> scopes[i].entryPoint in pending && scopes[i].exitPoint in pending
  }

  /** The invariant a translation runs under. */
  ghost predicate Closed(s: TState, pending: set<Label>)
  {
    Resolved(s.reg, pending) && ScopesPending(s.scopes, pending)
  }

  lemma EmitResolved(s: TState, stmt: Stmt, pending: set<Label>)
    requires Resolved(s.reg, pending)
    requires stmt.IsJump() ==> stmt.target in s.reg.labelNames || stmt.target in pending
    ensures Resolved(Emit(s, stmt).1.reg, pending)
  {
    var t := Emit(s, stmt).1;
    forall i | 0 <= i < |t.reg.records| && t.reg.records[i].IsJump()
      ensures t.reg.records[i].target in t.reg.labelNames || t.reg.records[i].target in pending
    {
      if i < |s.reg.records| {
        assert t.reg.records[i] == s.reg.records[i];
      }
    }
  }

  /** Attaching a label names it, so it is no longer pending. */
  lemma AttachResolved(s: TState, l: Label, pending: set<Label>)
    requires Resolved(s.reg, pending + {l})
    ensures Resolved(Attach(s, l).reg, pending)
  {
  }

  lemma Widen(reg: RegState, p: set<Label>, q: set<Label>)
    requires Resolved(reg, p) && p <= q
    ensures Resolved(reg, q)
  {
  }

  /** A label that is already named need not be pending. */
  lemma Discharge(reg: RegState, pending: set<Label>, l: Label)
    requires Resolved(reg, pending + {l}) && l in reg.labelNames
    ensures Resolved(reg, pending)
  {
  }

  /** The jump targets of `break` and `continue` are labels of an enclosing loop. */
  lemma TargetsInScope(scopes: seq<LoopInfo>, name: string, pending: set<Label>)
    requires ScopesPending(scopes, pending)
    ensures BreakTarget(scopes, name).Ok? ==> BreakTarget(scopes, name).value in pending
    ensures ContinueTarget(scopes, name).Ok? ==> ContinueTarget(scopes, name).value in pending
  {
  }

  /** Every translation keeps its jumps resolved against the labels pending around it. */
  lemma {:induction false} TranslateResolved(n: Node, s: TState, pending: set<Label>)
    requires Fits(n, s) && Closed(s, pending)
    ensures var o := Translate(n, s);
      o.result.Ok? ==> Resolved(o.st.reg, pending)
    decreases Size(n), 1
  {
    match n
    case Literal(_) =>
    case Name(_) =>
    case Enclosed(e) => TranslateResolved(e, s, pending);
    case Binary(l, op, r) => BinaryResolved(l, op, r, s, pending);
    case Unary(op, e) => UnaryResolved(op, e, s, pending);
    case Assignment(t, op, v) => AssignResolved(t, op, v, s, pending);
    case Declarator(name, init) => DeclaratorResolved(name, init, s, pending);
    case If(c, t, e) =>
      if e.Some? {
        IfElseResolved(c, t, e.value, s, pending);
      } else {
        IfResolved(c, t, s, pending);
      }
    case While(l, c, b) => LoopResolved(l, c, b, false, s, pending);
    case Do(l, b, c) => LoopResolved(l, c, b, true, s, pending);
    case For(l, init, c, upd, b) => ForResolved(l, init, c, upd, b, s, pending);
    case Break(l) => BreakResolved(l, s, pending);
    case Continue(l) => ContinueResolved(l, s, pending);
    case Method(name, b) => MethodResolved(name, b, s, pending);
    case Other(text, cs) => AllResolved(cs, s, pending);
  }

  lemma {:induction false} AllResolved(ns: seq<Node>, s: TState, pending: set<Label>)
    requires AllJumpsInLoops(ns, |s.scopes| > 0) && Closed(s, pending)
    ensures var o := TranslateAll(ns, s);
      o.result.Ok? ==> Resolved(o.st.reg, pending)
    decreases SizeAll(ns), 1
  {
    if ns != [] {
      SizeAllBounds(ns, 0);
      assert ns[1..] == ns[0 + 1..];
      var o := Translate(ns[0], s);
      TranslateResolved(ns[0], s, pending);
      if o.result.Ok? {
        AllResolved(ns[1..], o.st, pending);
      }
    }
  }

  lemma {:induction false} BinaryResolved(left: Node, op: string, right: Node, s: TState, pending: set<Label>)
    requires Fits(Binary(left, op, right), s) && Closed(s, pending)
    ensures var o := TranslateBinary(left, op, right, s);
      o.result.Ok? ==> Resolved(o.st.reg, pending)
    decreases Size(Binary(left, op, right)), 0
  {
    var o1 := Translate(left, s);
    TranslateResolved(left, s, pending);
    if o1.result.Ok? {
      var o2 := Translate(right, o1.st);
      TranslateResolved(right, o1.st, pending);
      if o2.result.Ok? {
        EmitResolved(o2.st, Apply(o1.result.value, GetByCode(op), o2.result.value), pending);
      }
    }
  }

  lemma {:induction false} UnaryResolved(op: UnaryOp, operand: Node, s: TState, pending: set<Label>)
    requires Fits(Unary(op, operand), s) && Closed(s, pending)
    ensures var o := TranslateUnary(op, operand, s);
      o.result.Ok? ==> Resolved(o.st.reg, pending)
    decreases Size(Unary(op, operand)), 0
  {
    var o1 := Translate(operand, s);
    TranslateResolved(operand, s, pending);
    if o1.result.Ok? {
      var arg := o1.result.value;
      var name := TargetName(arg);
      match op
      case UnaryMinus =>
        EmitResolved(o1.st, Apply(Const("0"), MINUS, arg), pending);
      case LogicalComplement =>
        EmitResolved(o1.st, Apply(Const("1"), MINUS, arg), pending);
      case PrefixIncrement =>
        StepResolved(arg, PLUS, o1.st, pending);
      case PrefixDecrement =>
        StepResolved(arg, MINUS, o1.st, pending);
      case PostfixIncrement =>
        StepResolved(arg, PLUS, o1.st, pending);
      case PostfixDecrement =>
        StepResolved(arg, MINUS, o1.st, pending);
      case _ =>
    }
  }

  lemma StepResolved(arg: Value, op: Op, s: TState, pending: set<Label>)
    requires Resolved(s.reg, pending)
    ensures Resolved(PrefixStep(arg, op, s).st.reg, pending)
    ensures Resolved(PostfixStep(arg, op, s).st.reg, pending)
  {
    var name := TargetName(arg);
    var (inc, s1) := Emit(s, Apply(arg, op, Const("1")));
    EmitResolved(s, Apply(arg, op, Const("1")), pending);
    var s2 := Bind(s1, inc.index, name);
    EmitResolved(s2, Copy(Named(name)), pending);

    var (oldValue, t1) := Emit(s, Copy(Named(name)));
    EmitResolved(s, Copy(Named(name)), pending);
    EmitResolved(t1, Apply(arg, op, Const("1")), pending);
  }

  lemma {:induction false} AssignResolved(target: Node, compound: Option<string>, value: Node, s: TState,
                                          pending: set<Label>)
    requires Fits(Assignment(target, compound, value), s) && Closed(s, pending)
    ensures var o := TranslateAssign(target, compound, value, s);
      o.result.Ok? ==> Resolved(o.st.reg, pending)
    decreases Size(Assignment(target, compound, value)), 0
  {
    if compound.Some? {
      BinaryResolved(target, compound.value, value, s, pending);
    } else {
      TranslateResolved(value, s, pending);
      var ov := Translate(value, s);
      if ov.result.Ok? && !ov.result.value.Reference? {
        EmitResolved(ov.st, Copy(ov.result.value), pending);
      }
    }
  }

  lemma {:induction false} DeclaratorResolved(name: string, init: Option<Node>, s: TState, pending: set<Label>)
    requires Fits(Declarator(name, init), s) && Closed(s, pending)
    ensures var o := TranslateDeclarator(name, init, s);
      o.result.Ok? ==> Resolved(o.st.reg, pending)
    decreases Size(Declarator(name, init)), 0
  {
    if init.Some? {
      var o1 := Translate(init.value, s);
      TranslateResolved(init.value, s, pending);
      if o1.result.Ok? && !o1.result.value.Reference? {
        EmitResolved(o1.st, Copy(o1.result.value), pending);
      }
    }
  }

  lemma {:induction false} IfResolved(cond: Node, thenStmt: Node, s: TState, pending: set<Label>)
    requires Fits(If(cond, thenStmt, None), s) && Closed(s, pending)
    ensures var o := TranslateIf(cond, thenStmt, None, s);
      o.result.Ok? ==> Resolved(o.st.reg, pending)
    decreases Size(If(cond, thenStmt, None)), 0
  {
    var (afterLabel, s1) := CreateLabel(s);
    var inner := pending + {afterLabel};
    Widen(s1.reg, pending, inner);
    var oc := Translate(cond, s1);
    TranslateResolved(cond, s1, inner);
    if oc.result.Ok? {
      var stmt := IfFalse(oc.result.value, afterLabel);
      var (_, s2) := Emit(oc.st, stmt);
      EmitResolved(oc.st, stmt, inner);
      var ot := Translate(thenStmt, s2);
      TranslateResolved(thenStmt, s2, inner);
      if ot.result.Ok? {
        AttachResolved(ot.st, afterLabel, pending);
      }
    }
  }

  lemma {:induction false} IfElseResolved(cond: Node, thenStmt: Node, elseStmt: Node, s: TState, pending: set<Label>)
    requires Fits(If(cond, thenStmt, Some(elseStmt)), s) && Closed(s, pending)
    ensures var o := TranslateIf(cond, thenStmt, Some(elseStmt), s);
      o.result.Ok? ==> Resolved(o.st.reg, pending)
    decreases Size(If(cond, thenStmt, Some(elseStmt))), 0
  {
    var o := TranslateIf(cond, thenStmt, Some(elseStmt), s);
    var (elseLabel, s1) := CreateLabel(s);
    var (afterLabel, s2) := CreateLabel(s1);
    var outer := pending + {afterLabel};
    var inner := outer + {elseLabel};
    Widen(s2.reg, pending, inner);
    var oc := Translate(cond, s2);
    TranslateResolved(cond, s2, inner);
    if oc.result.Err? {
      return;
    }
    var stmt := IfFalse(oc.result.value, elseLabel);
    var (_, s3) := Emit(oc.st, stmt);
    EmitResolved(oc.st, stmt, inner);
    var ot := Translate(thenStmt, s3);
    TranslateResolved(thenStmt, s3, inner);
    if ot.result.Err? {
      return;
    }
    ElseTailResolved(ot.st, elseStmt, elseLabel, afterLabel, pending);
    assert o == (var oe := Translate(elseStmt, Attach(Emit(ot.st, GoTo(afterLabel)).1, elseLabel));
                 if oe.result.Err? then oe else Outcome(Ok(NoValue), Attach(oe.st, afterLabel)));
  }

  /** `GoTo(after)`, attach `else`, the else branch, attach `after`. */
  lemma {:induction false} ElseTailResolved(s: TState, elseStmt: Node, elseLabel: Label, afterLabel: Label,
                                            pending: set<Label>)
    requires Fits(elseStmt, s) && Resolved(s.reg, pending + {afterLabel} + {elseLabel}) && ScopesPending(s.scopes, pending)
    ensures var s5 := Attach(Emit(s, GoTo(afterLabel)).1, elseLabel);
      var oe := Translate(elseStmt, s5);
      oe.result.Ok? ==> Resolved(Attach(oe.st, afterLabel).reg, pending)
    decreases Size(elseStmt), 2
  {
    var outer := pending + {afterLabel};
    var inner := outer + {elseLabel};
    var (_, s4) := Emit(s, GoTo(afterLabel));
    EmitResolved(s, GoTo(afterLabel), inner);
    var s5 := Attach(s4, elseLabel);
    AttachResolved(s4, elseLabel, outer);
    var oe := Translate(elseStmt, s5);
    TranslateResolved(elseStmt, s5, outer);
    if oe.result.Ok? {
      AttachResolved(oe.st, afterLabel, pending);
    }
  }

  lemma {:induction false} LoopTestResolved(cond: Node, body: Node, afterLabel: Label, isReverse: bool, s: TState,
                                            pending: set<Label>)
    requires JumpsInLoops(cond, true) && JumpsInLoops(body, true) && |s.scopes| > 0
    requires Closed(s, pending) && afterLabel in pending
    ensures var o := LoopTest(cond, body, afterLabel, isReverse, s);
      o.result.Ok? ==> Resolved(o.st.reg, pending)
    decreases Size(cond) + Size(body), 2
  {
    if isReverse {
      var ob := Translate(body, s);
      TranslateResolved(body, s, pending);
      if ob.result.Ok? {
        var oc := Translate(cond, ob.st);
        TranslateResolved(cond, ob.st, pending);
        if oc.result.Ok? {
          EmitResolved(oc.st, IfFalse(oc.result.value, afterLabel), pending);
        }
      }
    } else {
      var oc := Translate(cond, s);
      TranslateResolved(cond, s, pending);
      if oc.result.Ok? {
        var stmt := IfFalse(oc.result.value, afterLabel);
        EmitResolved(oc.st, stmt, pending);
        TranslateResolved(body, Emit(oc.st, stmt).1, pending);
      }
    }
  }

  /**
   * The tail shared by the three loops, `GoTo(start)`, attach `after`, pop,
   * with `start` attached before the loop's condition and body.
   */
  lemma LoopEndResolved(s4: TState, o5: Outcome, startLabel: Label, afterLabel: Label, pending: set<Label>)
    requires startLabel in s4.reg.labelNames && Extends(s4, o5.st)
    requires o5.result.Ok? && |o5.st.scopes| > 0
    requires Resolved(o5.st.reg, pending + {startLabel, afterLabel})
    ensures var s7 := Attach(Emit(o5.st, GoTo(startLabel)).1, afterLabel);
      Resolved(ExitLoop(s7).reg, pending)
  {
    var inner := pending + {startLabel, afterLabel};
    var s6 := Emit(o5.st, GoTo(startLabel)).1;
    EmitResolved(o5.st, GoTo(startLabel), inner);
    assert inner == (pending + {startLabel}) + {afterLabel};
    AttachResolved(s6, afterLabel, pending + {startLabel});
    var s7 := Attach(s6, afterLabel);
    Discharge(s7.reg, pending, startLabel);
  }

  lemma {:induction false} LoopResolved(stmtLabel: Option<string>, cond: Node, body: Node, isReverse: bool, s: TState,
                                        pending: set<Label>)
    requires JumpsInLoops(cond, true) && JumpsInLoops(body, true) && Closed(s, pending)
    ensures var o := TranslateLoop(stmtLabel, cond, body, isReverse, s);
      o.result.Ok? ==> Resolved(o.st.reg, pending)
    decreases 1 + Size(cond) + Size(body), 0
  {
    var (startLabel, s1) := CreateLabel(s);
    var (afterLabel, s2) := CreateLabel(s1);
    var inner := pending + {startLabel, afterLabel};
    var s3 := EnterLoop(s2, startLabel, afterLabel, stmtLabel);
    var s4 := Attach(s3, startLabel);
    Widen(s.reg, pending, inner);
    assert Closed(s4, inner);
    var o5 := LoopTest(cond, body, afterLabel, isReverse, s4);
    LoopTestResolved(cond, body, afterLabel, isReverse, s4, inner);
    LoopTestSound(cond, body, afterLabel, isReverse, s4);
    if o5.result.Ok? {
      LoopEndResolved(s4, o5, startLabel, afterLabel, pending);
    }
  }

  lemma {:induction false} ForCompareResolved(compare: Option<Node>, afterLabel: Label, s: TState, pending: set<Label>)
    requires compare.Some? ==> Fits(compare.value, s)
    requires Closed(s, pending) && afterLabel in pending
    ensures var o := ForCompare(compare, afterLabel, s);
      o.result.Ok? ==> Resolved(o.st.reg, pending)
    decreases if compare.Some? then Size(compare.value) else 0, 2
  {
    if compare.Some? {
      var oc := Translate(compare.value, s);
      TranslateResolved(compare.value, s, pending);
      if oc.result.Ok? {
        EmitResolved(oc.st, IfFalse(oc.result.value, afterLabel), pending);
      }
    }
  }

  lemma {:induction false} ForResolved(stmtLabel: Option<string>, init: seq<Node>, compare: Option<Node>,
                                       update: seq<Node>, body: Node, s: TState, pending: set<Label>)
    requires Fits(For(stmtLabel, init, compare, update, body), s) && Closed(s, pending)
    ensures var o := TranslateFor(stmtLabel, init, compare, update, body, s);
      o.result.Ok? ==> Resolved(o.st.reg, pending)
    decreases Size(For(stmtLabel, init, compare, update, body)), 0
  {
    var oi := TranslateAll(init, s);
    AllResolved(init, s, pending);
    if oi.result.Err? {
      return;
    }
    var (startLabel, s1) := CreateLabel(oi.st);
    var (afterLabel, s2) := CreateLabel(s1);
    var inner := pending + {startLabel, afterLabel};
    var s3 := EnterLoop(s2, startLabel, afterLabel, stmtLabel);
    var s4 := Attach(s3, startLabel);
    Widen(oi.st.reg, pending, inner);
    assert Closed(s4, inner);
    var oc := ForCompare(compare, afterLabel, s4);
    ForCompareResolved(compare, afterLabel, s4, inner);
    ForCompareSound(compare, afterLabel, s4);
    if oc.result.Err? {
      return;
    }
    var ob := Translate(body, oc.st);
    TranslateResolved(body, oc.st, inner);
    TranslateSound(body, oc.st);
    if ob.result.Err? {
      return;
    }
    var ou := TranslateAll(update, ob.st);
    AllResolved(update, ob.st, inner);
    AllSound(update, ob.st);
    if ou.result.Err? {
      return;
    }
    ExtendsTrans(s4, oc.st, ob.st);
    ExtendsTrans(s4, ob.st, ou.st);
    LoopEndResolved(s4, ou, startLabel, afterLabel, pending);
  }

  lemma BreakResolved(jumpLabel: Option<string>, s: TState, pending: set<Label>)
    requires (jumpLabel.None? ==> |s.scopes| > 0) && Closed(s, pending)
    ensures var o := TranslateBreak(jumpLabel, s);
      o.result.Ok? ==> Resolved(o.st.reg, pending)
  {
    var target := if jumpLabel.Some? then BreakTarget(s.scopes, jumpLabel.value) else Ok(s.scopes[0].exitPoint);
    if jumpLabel.Some? {
      TargetsInScope(s.scopes, jumpLabel.value, pending);
    }
    if target.Ok? {
      EmitResolved(s, GoTo(target.value), pending);
    }
  }

  lemma ContinueResolved(jumpLabel: Option<string>, s: TState, pending: set<Label>)
    requires (jumpLabel.None? ==> |s.scopes| > 0) && Closed(s, pending)
    ensures var o := TranslateContinue(jumpLabel, s);
      o.result.Ok? ==> Resolved(o.st.reg, pending)
  {
    var target := if jumpLabel.Some? then ContinueTarget(s.scopes, jumpLabel.value) else Ok(s.scopes[0].entryPoint);
    if jumpLabel.Some? {
      TargetsInScope(s.scopes, jumpLabel.value, pending);
    }
    if target.Ok? {
      EmitResolved(s, GoTo(target.value), pending);
    }
  }

  lemma {:induction false} MethodResolved(name: string, body: Option<Node>, s: TState, pending: set<Label>)
    requires Fits(Method(name, body), s) && Closed(s, pending)
    ensures var o := TranslateMethod(name, body, s);
      o.result.Ok? ==> Resolved(o.st.reg, pending)
    decreases Size(Method(name, body)), 0
  {
    var (methodLabel, s1) := CreateNamedLabel(s, "_method_" + name);
    var s2 := Attach(s1, methodLabel);
    var (_, s3) := Emit(s2, BeginFunc);
    EmitResolved(s2, BeginFunc, pending);
    var ob := if body.Some? then Translate(body.value, s3) else Outcome(Ok(NoValue), s3);
    if body.Some? {
      TranslateResolved(body.value, s3, pending);
    }
    if ob.result.Ok? {
      EmitResolved(ob.st, EndFunc, pending);
    }
  }

  /**
   * A program translated from the initial state, with every unlabelled
   * `break` and `continue` inside a loop, leaves no jump whose target label
   * was never attached: the rendered listing names every jump target.
   */
  lemma {:induction false} NoDanglingJumps(n: Node)
    requires JumpsInLoops(n, false)
    ensures var o := Translate(n, Initial);
      o.result.Ok? ==>
        forall i :: 0 <= i < |o.st.reg.records| && o.st.reg.records[i].IsJump() ==>
          o.st.reg.records[i].target in o.st.reg.labelNames
  {
    TranslateResolved(n, Initial, {});
  }
}
