/**
 * Bindings affect rendering only.  A variable read always yields
 * `Named(id)`, and no visit looks a binding up, so translating a tree from
 * two states that differ only in their bindings yields the same value and
 * states that again differ only in their bindings.
 */
module BindingFacts {
  import opened Wrappers
  import opened Tac
  import opened TacRegistry
  import opened TacContext
  import opened Syntax
  import opened Translation

  /** The two states agree on everything but the bindings of the registry. */
  predicate SameButBindings(a: TState, b: TState)
  {
    && a.reg.records == b.reg.records
    && a.reg.labels == b.reg.labels
    && a.reg.labelNames == b.reg.labelNames
    && a.reg.labelCounter == b.reg.labelCounter
    && a.reg.varCounter == b.reg.varCounter
    && a.scopes == b.scopes
    && a.nextLabel == b.nextLabel
  }

  /** Two outcomes with the same value from states that differ only in their bindings. */
  predicate Alike(o: Outcome, o': Outcome)
  {
    o.result == o'.result && SameButBindings(o.st, o'.st)
  }

  /** A translation's value and everything but the bindings it leaves do not depend on the bindings it starts from. */
  lemma {:induction false} TranslateIgnoresBindings(n: Node, s: TState, s': TState)
    requires Fits(n, s) && SameButBindings(s, s')
    ensures Alike(Translate(n, s), Translate(n, s'))
    decreases Size(n), 1
  {
    match n
    case Literal(_) =>
    case Name(_) =>
    case Enclosed(e) => TranslateIgnoresBindings(e, s, s');
    case Binary(l, op, r) => BinaryIgnoresBindings(l, op, r, s, s');
    case Unary(op, e) => UnaryIgnoresBindings(op, e, s, s');
    case Assignment(t, op, v) => AssignIgnoresBindings(t, op, v, s, s');
    case Declarator(name, init) => DeclaratorIgnoresBindings(name, init, s, s');
    case If(c, t, e) =>
      if e.Some? {
        IfElseIgnoresBindings(c, t, e.value, s, s');
      } else {
        IfIgnoresBindings(c, t, s, s');
      }
    case While(l, c, b) => LoopIgnoresBindings(l, c, b, false, s, s');
    case Do(l, b, c) => LoopIgnoresBindings(l, c, b, true, s, s');
    case For(l, init, c, upd, b) => ForIgnoresBindings(l, init, c, upd, b, s, s');
    case Break(_) =>
    case Continue(_) =>
    case Method(name, b) => MethodIgnoresBindings(name, b, s, s');
    case Other(text, cs) => AllIgnoreBindings(cs, s, s');
  }

  lemma {:induction false} AllIgnoreBindings(ns: seq<Node>, s: TState, s': TState)
    requires AllJumpsInLoops(ns, |s.scopes| > 0) && SameButBindings(s, s')
    ensures Alike(TranslateAll(ns, s), TranslateAll(ns, s'))
    decreases SizeAll(ns), 1
  {
    if ns != [] {
      SizeAllBounds(ns, 0);
      assert ns[1..] == ns[0 + 1..];
      TranslateIgnoresBindings(ns[0], s, s');
      var o, o' := Translate(ns[0], s), Translate(ns[0], s');
      if o.result.Ok? {
        AllIgnoreBindings(ns[1..], o.st, o'.st);
      }
    }
  }

  lemma {:induction false} BinaryIgnoresBindings(left: Node, op: string, right: Node, s: TState, s': TState)
    requires Fits(Binary(left, op, right), s) && SameButBindings(s, s')
    ensures Alike(TranslateBinary(left, op, right, s), TranslateBinary(left, op, right, s'))
    decreases Size(Binary(left, op, right)), 0
  {
    TranslateIgnoresBindings(left, s, s');
    var o1, o1' := Translate(left, s), Translate(left, s');
    if o1.result.Ok? {
      TranslateIgnoresBindings(right, o1.st, o1'.st);
    }
  }

  lemma {:induction false} UnaryIgnoresBindings(op: UnaryOp, operand: Node, s: TState, s': TState)
    requires Fits(Unary(op, operand), s) && SameButBindings(s, s')
    ensures Alike(TranslateUnary(op, operand, s), TranslateUnary(op, operand, s'))
    decreases Size(Unary(op, operand)), 0
  {
    TranslateIgnoresBindings(operand, s, s');
  }

  lemma {:induction false} AssignIgnoresBindings(target: Node, compound: Option<string>, value: Node,
                                                 s: TState, s': TState)
    requires Fits(Assignment(target, compound, value), s) && SameButBindings(s, s')
    ensures Alike(TranslateAssign(target, compound, value, s), TranslateAssign(target, compound, value, s'))
    decreases Size(Assignment(target, compound, value)), 0
  {
    if compound.Some? {
      BinaryIgnoresBindings(target, compound.value, value, s, s');
    } else {
      TranslateIgnoresBindings(value, s, s');
    }
  }

  lemma {:induction false} DeclaratorIgnoresBindings(name: string, init: Option<Node>, s: TState, s': TState)
    requires Fits(Declarator(name, init), s) && SameButBindings(s, s')
    ensures Alike(TranslateDeclarator(name, init, s), TranslateDeclarator(name, init, s'))
    decreases Size(Declarator(name, init)), 0
  {
    if init.Some? {
      TranslateIgnoresBindings(init.value, s, s');
    }
  }

  /** The steps between visits keep two states alike. */
  lemma StepsAlike(a: TState, a': TState, stmt: Stmt, l: Label)
    requires SameButBindings(a, a')
    ensures SameButBindings(Emit(a, stmt).1, Emit(a', stmt).1)
    ensures SameButBindings(Attach(a, l), Attach(a', l))
  {
  }

  lemma {:induction false} IfIgnoresBindings(cond: Node, thenStmt: Node, s: TState, s': TState)
    requires Fits(If(cond, thenStmt, None), s) && SameButBindings(s, s')
    ensures Alike(TranslateIf(cond, thenStmt, None, s), TranslateIf(cond, thenStmt, None, s'))
    decreases Size(If(cond, thenStmt, None)), 0
  {
    var (afterLabel, s1) := CreateLabel(s);
    var (_, s1') := CreateLabel(s');
    TranslateIgnoresBindings(cond, s1, s1');
    var oc, oc' := Translate(cond, s1), Translate(cond, s1');
    if oc.result.Ok? {
      var stmt := IfFalse(oc.result.value, afterLabel);
      StepsAlike(oc.st, oc'.st, stmt, afterLabel);
      var s2, s2' := Emit(oc.st, stmt).1, Emit(oc'.st, stmt).1;
      TranslateIgnoresBindings(thenStmt, s2, s2');
      var ot, ot' := Translate(thenStmt, s2), Translate(thenStmt, s2');
      StepsAlike(ot.st, ot'.st, stmt, afterLabel);
    }
  }

  lemma {:induction false} IfElseIgnoresBindings(cond: Node, thenStmt: Node, elseStmt: Node, s: TState, s': TState)
    requires Fits(If(cond, thenStmt, Some(elseStmt)), s) && SameButBindings(s, s')
    ensures Alike(TranslateIf(cond, thenStmt, Some(elseStmt), s), TranslateIf(cond, thenStmt, Some(elseStmt), s'))
    decreases Size(If(cond, thenStmt, Some(elseStmt))), 0
  {
    var o, o' := TranslateIf(cond, thenStmt, Some(elseStmt), s), TranslateIf(cond, thenStmt, Some(elseStmt), s');
    var (elseLabel, s1) := CreateLabel(s);
    var (_, s1') := CreateLabel(s');
    var (afterLabel, s2) := CreateLabel(s1);
    var (_, s2') := CreateLabel(s1');
    TranslateIgnoresBindings(cond, s2, s2');
    var oc, oc' := Translate(cond, s2), Translate(cond, s2');
    if oc.result.Err? {
      assert o == oc && o' == oc';
      return;
    }
    var stmt := IfFalse(oc.result.value, elseLabel);
    StepsAlike(oc.st, oc'.st, stmt, elseLabel);
    var s3, s3' := Emit(oc.st, stmt).1, Emit(oc'.st, stmt).1;
    TranslateIgnoresBindings(thenStmt, s3, s3');
    var ot, ot' := Translate(thenStmt, s3), Translate(thenStmt, s3');
    if ot.result.Err? {
      assert o == ot && o' == ot';
      return;
    }
    ElseTailIgnoresBindings(ot.st, ot'.st, elseStmt, elseLabel, afterLabel);
  }

  /** The part of `if`-`else` after the then branch: the jump, the else branch and the `after` label. */
  lemma {:induction false} ElseTailIgnoresBindings(t: TState, t': TState, elseStmt: Node, elseLabel: Label, afterLabel: Label)
    requires SameButBindings(t, t') && Fits(elseStmt, t)
    ensures var s5, s5' := Attach(Emit(t, GoTo(afterLabel)).1, elseLabel), Attach(Emit(t', GoTo(afterLabel)).1, elseLabel);
      var oe, oe' := Translate(elseStmt, s5), Translate(elseStmt, s5');
      Alike(if oe.result.Err? then oe else Outcome(Ok(NoValue), Attach(oe.st, afterLabel)),
            if oe'.result.Err? then oe' else Outcome(Ok(NoValue), Attach(oe'.st, afterLabel)))
    decreases Size(elseStmt), 2
  {
    StepsAlike(t, t', GoTo(afterLabel), elseLabel);
    var s4, s4' := Emit(t, GoTo(afterLabel)).1, Emit(t', GoTo(afterLabel)).1;
    StepsAlike(s4, s4', GoTo(afterLabel), elseLabel);
    var s5, s5' := Attach(s4, elseLabel), Attach(s4', elseLabel);
    TranslateIgnoresBindings(elseStmt, s5, s5');
    var oe, oe' := Translate(elseStmt, s5), Translate(elseStmt, s5');
    if oe.result.Ok? {
      StepsAlike(oe.st, oe'.st, GoTo(afterLabel), afterLabel);
    }
  }

  lemma {:induction false} LoopTestIgnoresBindings(cond: Node, body: Node, afterLabel: Label, isReverse: bool,
                                                   s: TState, s': TState)
    requires JumpsInLoops(cond, true) && JumpsInLoops(body, true) && |s.scopes| > 0 && SameButBindings(s, s')
    ensures Alike(LoopTest(cond, body, afterLabel, isReverse, s), LoopTest(cond, body, afterLabel, isReverse, s'))
    decreases Size(cond) + Size(body), 2
  {
    var o, o' := LoopTest(cond, body, afterLabel, isReverse, s), LoopTest(cond, body, afterLabel, isReverse, s');
    var first := if isReverse then body else cond;
    TranslateIgnoresBindings(first, s, s');
    var o1, o1' := Translate(first, s), Translate(first, s');
    if o1.result.Err? {
      assert o == o1 && o' == o1';
      return;
    }
    if isReverse {
      TranslateIgnoresBindings(cond, o1.st, o1'.st);
      var oc, oc' := Translate(cond, o1.st), Translate(cond, o1'.st);
      if oc.result.Err? {
        assert o == oc && o' == oc';
        return;
      }
      var stmt := IfFalse(oc.result.value, afterLabel);
      StepsAlike(oc.st, oc'.st, stmt, afterLabel);
      assert o == Outcome(Ok(NoValue), Emit(oc.st, stmt).1);
      assert o' == Outcome(Ok(NoValue), Emit(oc'.st, stmt).1);
    } else {
      var stmt := IfFalse(o1.result.value, afterLabel);
      StepsAlike(o1.st, o1'.st, stmt, afterLabel);
      var s1, s1' := Emit(o1.st, stmt).1, Emit(o1'.st, stmt).1;
      TranslateIgnoresBindings(body, s1, s1');
      assert o == Translate(body, s1) && o' == Translate(body, s1');
    }
  }

  lemma {:induction false} LoopIgnoresBindings(stmtLabel: Option<string>, cond: Node, body: Node, isReverse: bool,
                                               s: TState, s': TState)
    requires JumpsInLoops(cond, true) && JumpsInLoops(body, true) && SameButBindings(s, s')
    ensures Alike(TranslateLoop(stmtLabel, cond, body, isReverse, s), TranslateLoop(stmtLabel, cond, body, isReverse, s'))
    decreases 1 + Size(cond) + Size(body), 0
  {
    var (startLabel, s1) := CreateLabel(s);
    var (afterLabel, s2) := CreateLabel(s1);
    var s4 := Attach(EnterLoop(s2, startLabel, afterLabel, stmtLabel), startLabel);
    var (_, s1') := CreateLabel(s');
    var (_, s2') := CreateLabel(s1');
    var s4' := Attach(EnterLoop(s2', startLabel, afterLabel, stmtLabel), startLabel);
    LoopTestIgnoresBindings(cond, body, afterLabel, isReverse, s4, s4');
  }

  lemma {:induction false} ForCompareIgnoresBindings(compare: Option<Node>, afterLabel: Label, s: TState, s': TState)
    requires (compare.Some? ==> Fits(compare.value, s)) && SameButBindings(s, s')
    ensures Alike(ForCompare(compare, afterLabel, s), ForCompare(compare, afterLabel, s'))
    decreases if compare.Some? then Size(compare.value) else 0, 2
  {
    if compare.Some? {
      TranslateIgnoresBindings(compare.value, s, s');
    }
  }

  lemma {:induction false} ForIgnoresBindings(stmtLabel: Option<string>, init: seq<Node>, compare: Option<Node>,
                                              update: seq<Node>, body: Node, s: TState, s': TState)
    requires Fits(For(stmtLabel, init, compare, update, body), s) && SameButBindings(s, s')
    ensures Alike(TranslateFor(stmtLabel, init, compare, update, body, s),
                  TranslateFor(stmtLabel, init, compare, update, body, s'))
    decreases Size(For(stmtLabel, init, compare, update, body)), 0
  {
    var o, o' := TranslateFor(stmtLabel, init, compare, update, body, s),
                 TranslateFor(stmtLabel, init, compare, update, body, s');
    AllIgnoreBindings(init, s, s');
    var oi, oi' := TranslateAll(init, s), TranslateAll(init, s');
    if oi.result.Err? {
      assert o == oi && o' == oi';
      return;
    }
    var (startLabel, s1) := CreateLabel(oi.st);
    var (afterLabel, s2) := CreateLabel(s1);
    var s4 := Attach(EnterLoop(s2, startLabel, afterLabel, stmtLabel), startLabel);
    var (_, s1') := CreateLabel(oi'.st);
    var (_, s2') := CreateLabel(s1');
    var s4' := Attach(EnterLoop(s2', startLabel, afterLabel, stmtLabel), startLabel);
    ForCompareIgnoresBindings(compare, afterLabel, s4, s4');
    var oc, oc' := ForCompare(compare, afterLabel, s4), ForCompare(compare, afterLabel, s4');
    if oc.result.Err? {
      assert o == oc && o' == oc';
      return;
    }
    TranslateIgnoresBindings(body, oc.st, oc'.st);
    var ob, ob' := Translate(body, oc.st), Translate(body, oc'.st);
    if ob.result.Err? {
      assert o == ob && o' == ob';
      return;
    }
    AllIgnoreBindings(update, ob.st, ob'.st);
    var ou, ou' := TranslateAll(update, ob.st), TranslateAll(update, ob'.st);
    if ou.result.Err? {
      assert o == ou && o' == ou';
      return;
    }
    StepsAlike(ou.st, ou'.st, GoTo(startLabel), afterLabel);
    var s6, s6' := Emit(ou.st, GoTo(startLabel)).1, Emit(ou'.st, GoTo(startLabel)).1;
    StepsAlike(s6, s6', GoTo(startLabel), afterLabel);
    assert o == Outcome(Ok(NoValue), ExitLoop(Attach(s6, afterLabel)));
    assert o' == Outcome(Ok(NoValue), ExitLoop(Attach(s6', afterLabel)));
  }

  lemma {:induction false} MethodIgnoresBindings(name: string, body: Option<Node>, s: TState, s': TState)
    requires Fits(Method(name, body), s) && SameButBindings(s, s')
    ensures Alike(TranslateMethod(name, body, s), TranslateMethod(name, body, s'))
    decreases Size(Method(name, body)), 0
  {
    var (methodLabel, s1) := CreateNamedLabel(s, "_method_" + name);
    var s3 := Emit(Attach(s1, methodLabel), BeginFunc).1;
    var (_, s1') := CreateNamedLabel(s', "_method_" + name);
    var s3' := Emit(Attach(s1', methodLabel), BeginFunc).1;
    if body.Some? {
      TranslateIgnoresBindings(body.value, s3, s3');
    }
  }
}
