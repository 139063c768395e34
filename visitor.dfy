/**
 * The translator (TACVisitor): a recursive walk over the syntax tree that
 * appends instructions to a shared registry, binds names, attaches labels and
 * pushes and pops loop descriptors on the context it is handed.
 *
 * Every visit method is proved to leave the registry, the context and the
 * label counter exactly as the corresponding function of module Translation
 * describes, and to return the value (or failure) that function gives.
 */
module TacVisitor {
  import opened Wrappers
  import opened Tac
  import opened TacRegistry
  import opened TacContext
  import opened Syntax
  import opened Translation

  class Visitor {
    const registry: Registry
    /** Stands in for the counter behind `TACLabel.create`: every label created is fresh. */
    var nextLabel: nat

    constructor (registry: Registry)
      ensures this.registry == registry && nextLabel == 0
    {
      this.registry := registry;
      nextLabel := 0;
    }

    /** The translation state the visitor, its registry and the context hold. */
    ghost function State(ctx: Context): TState
      reads this, registry, ctx
    {
      TState(registry.Model(), ctx.loopScopes, nextLabel)
    }

    /** `TACLabel.create()`. */
    method NewLabel() returns (l: Label)
      modifies this
      ensures l == Label(old(nextLabel), None) && nextLabel == old(nextLabel) + 1
    {
      l := Label(nextLabel, None);
      nextLabel := nextLabel + 1;
    }

    /** `TACLabel.create(name)`. */
    method NewNamedLabel(name: string) returns (l: Label)
      modifies this
      ensures l == Label(old(nextLabel), Some(name)) && nextLabel == old(nextLabel) + 1
    {
      l := Label(nextLabel, Some(name));
      nextLabel := nextLabel + 1;
    }

    /** Dispatches on the node kind, as the visitor's double dispatch does. */
    method Visit(n: Node, ctx: Context) returns (r: Result<Value, string>)
      requires JumpsInLoops(n, |ctx.loopScopes| > 0)
      modifies this, registry, ctx
      ensures Outcome(r, State(ctx)) == Translate(n, old(State(ctx)))
      decreases Size(n), 1
    {
      match n {
        case Literal(t) => r := Ok(Const(t));
        case Name(id) => r := Ok(Named(id));
        case Enclosed(e) => r := Visit(e, ctx);
        case Binary(left, op, right) => r := HandleBinary(left, op, right, ctx);
        case Unary(op, e) => r := VisitUnary(op, e, ctx);
        case Assignment(t, op, v) => r := VisitAssign(t, op, v, ctx);
        case Declarator(name, init) => r := VisitDeclarator(name, init, ctx);
        case If(c, t, e) => r := VisitIf(c, t, e, ctx);
        case While(l, c, b) => r := HandleWhile(l, c, b, false, ctx);
        case Do(l, b, c) => r := HandleWhile(l, c, b, true, ctx);
        case For(l, init, c, upd, b) => r := VisitFor(l, init, c, upd, b, ctx);
        case Break(l) => r := VisitBreak(l, ctx);
        case Continue(l) => r := VisitContinue(l, ctx);
        case Method(name, b) => r := VisitMethod(name, b, ctx);
        case Other(text, cs) => r := DefaultAction(text, cs, ctx);
      }
    }

    /** Visits each node in order (the source's `forEach`), stopping at the first failure. */
    method VisitAll(ns: seq<Node>, ctx: Context) returns (r: Result<Value, string>)
      requires AllJumpsInLoops(ns, |ctx.loopScopes| > 0)
      modifies this, registry, ctx
      ensures Outcome(r, State(ctx)) == TranslateAll(ns, old(State(ctx)))
      decreases SizeAll(ns), 1
    {
      var i := 0;
      while i < |ns|
        invariant 0 <= i <= |ns|
        invariant ctx.loopScopes == old(ctx.loopScopes)
        invariant AllJumpsInLoops(ns[i..], |ctx.loopScopes| > 0)
        invariant TranslateAll(ns[i..], State(ctx)) == TranslateAll(ns, old(State(ctx)))
      {
        SizeAllBounds(ns, i);
        ghost var s := State(ctx);
        assert ns[i..][1..] == ns[i + 1..];
        var v := Visit(ns[i], ctx);
        if v.Err? {
          return v;
        }
        i := i + 1;
      }
      return Ok(NoValue);
    }

    method DefaultAction(text: string, children: seq<Node>, ctx: Context) returns (r: Result<Value, string>)
      requires JumpsInLoops(Other(text, children), |ctx.loopScopes| > 0)
      modifies this, registry, ctx
      ensures Outcome(r, State(ctx)) == Translation.DefaultAction(text, children, old(State(ctx)))
      decreases Size(Other(text, children)), 0
    {
      r := VisitAll(children, ctx);
      if r.Ok? {
        r := Ok(Unknown(text));
      }
    }

    method HandleBinary(left: Node, op: string, right: Node, ctx: Context) returns (r: Result<Value, string>)
      requires JumpsInLoops(Binary(left, op, right), |ctx.loopScopes| > 0)
      modifies this, registry, ctx
      ensures Outcome(r, State(ctx)) == TranslateBinary(left, op, right, old(State(ctx)))
      ensures r.Ok? ==> r.value.Reference?
      decreases Size(Binary(left, op, right)), 0
    {
      var arg1 := Visit(left, ctx);
      if arg1.Err? {
        return arg1;
      }
      var arg2 := Visit(right, ctx);
      if arg2.Err? {
        return arg2;
      }
      var tacOp := GetByCode(op);
      var ref := registry.Register(Apply(arg1.value, tacOp, arg2.value));
      return Ok(ref);
    }

    method VisitUnary(op: UnaryOp, operand: Node, ctx: Context) returns (r: Result<Value, string>)
      requires JumpsInLoops(Unary(op, operand), |ctx.loopScopes| > 0)
      modifies this, registry, ctx
      ensures Outcome(r, State(ctx)) == TranslateUnary(op, operand, old(State(ctx)))
      decreases Size(Unary(op, operand)), 0
    {
      var a := Visit(operand, ctx);
      if a.Err? {
        return a;
      }
      var arg := a.value;
      match op {
        case UnaryPlus =>
          r := Ok(arg);
        case UnaryMinus =>
          var ref := registry.Register(Apply(Const("0"), MINUS, arg));
          r := Ok(ref);
        case PrefixIncrement =>
          r := Prefix(arg, PLUS, ctx);
        case PrefixDecrement =>
          r := Prefix(arg, MINUS, ctx);
        case PostfixIncrement =>
          r := Postfix(arg, PLUS, ctx);
        case PostfixDecrement =>
          r := Postfix(arg, MINUS, ctx);
        case LogicalComplement =>
          var ref := registry.Register(Apply(Const("1"), MINUS, arg));
          r := Ok(ref);
        case BitwiseComplement =>
          r := Ok(Unknown("BITWISE_COMPLEMENT"));
      }
    }

    /** Prefix `++`/`--`: the update, bound to the operand's name, then a copy that is the value. */
    method Prefix(arg: Value, op: Op, ctx: Context) returns (r: Result<Value, string>)
      modifies registry
      ensures Outcome(r, State(ctx)) == PrefixStep(arg, op, old(State(ctx)))
    {
      var targetName := TargetName(arg);
      var inc := registry.Register(Apply(arg, op, Const("1")));
      registry.RegisterVarName(inc.index, targetName);
      var copy := registry.Register(Copy(Named(targetName)));
      return Ok(copy);
    }

    /** Postfix `++`/`--`: a copy that is the value, then the update, bound to the operand's name. */
    method Postfix(arg: Value, op: Op, ctx: Context) returns (r: Result<Value, string>)
      modifies registry
      ensures Outcome(r, State(ctx)) == PostfixStep(arg, op, old(State(ctx)))
    {
      var targetName := TargetName(arg);
      var oldValue := registry.Register(Copy(Named(targetName)));
      var inc := registry.Register(Apply(arg, op, Const("1")));
      registry.RegisterVarName(inc.index, targetName);
      return Ok(oldValue);
    }

    /** A reference is kept; any other value is copied into a new record. */
    method AsReference(v: Value, ctx: Context) returns (ref: Value)
      modifies registry
      ensures Outcome(Ok(ref), State(ctx)) == Translation.AsReference(v, old(State(ctx)))
      ensures ref.Reference?
    {
      if v.Reference? {
        ref := v;
      } else {
        ref := registry.Register(Copy(v));
      }
    }

    method VisitAssign(target: Node, compound: Option<string>, value: Node, ctx: Context) returns (r: Result<Value, string>)
      requires JumpsInLoops(Assignment(target, compound, value), |ctx.loopScopes| > 0)
      modifies this, registry, ctx
      ensures Outcome(r, State(ctx)) == TranslateAssign(target, compound, value, old(State(ctx)))
      decreases Size(Assignment(target, compound, value)), 0
    {
      if compound.Some? {
        r := HandleBinary(target, compound.value, value, ctx);
      } else {
        r := Visit(value, ctx);
        if r.Ok? {
          var ref := AsReference(r.value, ctx);
          r := Ok(ref);
        }
      }
      if r.Ok? {
        registry.RegisterVarName(r.value.index, SourceText(target));
      }
    }

    method VisitDeclarator(name: string, init: Option<Node>, ctx: Context) returns (r: Result<Value, string>)
      requires JumpsInLoops(Declarator(name, init), |ctx.loopScopes| > 0)
      modifies this, registry, ctx
      ensures Outcome(r, State(ctx)) == TranslateDeclarator(name, init, old(State(ctx)))
      decreases Size(Declarator(name, init)), 0
    {
      if init.Some? {
        var value := Visit(init.value, ctx);
        if value.Err? {
          return value;
        }
        var ref := AsReference(value.value, ctx);
        registry.RegisterVarName(ref.index, name);
      }
      return Ok(NoValue);
    }

    method VisitIf(cond: Node, thenStmt: Node, elseStmt: Option<Node>, ctx: Context) returns (r: Result<Value, string>)
      requires JumpsInLoops(If(cond, thenStmt, elseStmt), |ctx.loopScopes| > 0)
      modifies this, registry, ctx
      ensures Outcome(r, State(ctx)) == TranslateIf(cond, thenStmt, elseStmt, old(State(ctx)))
      decreases Size(If(cond, thenStmt, elseStmt)), 0
    {
      ghost var s := State(ctx);
      if elseStmt.Some? {
        var elseLabel := NewLabel();
        var afterLabel := NewLabel();
        ghost var s2 := State(ctx);
        assert (elseLabel, CreateLabel(s).1) == CreateLabel(s);
        assert (afterLabel, s2) == CreateLabel(CreateLabel(s).1);
        var condition := Visit(cond, ctx);
        ghost var oc := Translate(cond, s2);
        if condition.Err? {
          return condition;
        }
        var _ := registry.Register(IfFalse(condition.value, elseLabel));
        ghost var s3 := State(ctx);
        assert s3 == Emit(oc.st, IfFalse(oc.result.value, elseLabel)).1;
        var t := Visit(thenStmt, ctx);
        ghost var ot := Translate(thenStmt, s3);
        if t.Err? {
          return t;
        }
        var _ := registry.Register(GoTo(afterLabel));
        registry.RegisterLabel(elseLabel);
        ghost var s5 := State(ctx);
        assert s5 == Attach(Emit(ot.st, GoTo(afterLabel)).1, elseLabel);
        var e := Visit(elseStmt.value, ctx);
        ghost var oe := Translate(elseStmt.value, s5);
        if e.Err? {
          return e;
        }
        registry.RegisterLabel(afterLabel);
        assert State(ctx) == Attach(oe.st, afterLabel);
      } else {
        var afterLabel := NewLabel();
        ghost var s1 := State(ctx);
        assert (afterLabel, s1) == CreateLabel(s);
        var condition := Visit(cond, ctx);
        ghost var oc := Translate(cond, s1);
        if condition.Err? {
          return condition;
        }
        var _ := registry.Register(IfFalse(condition.value, afterLabel));
        ghost var s2 := State(ctx);
        assert s2 == Emit(oc.st, IfFalse(oc.result.value, afterLabel)).1;
        var t := Visit(thenStmt, ctx);
        ghost var ot := Translate(thenStmt, s2);
        if t.Err? {
          return t;
        }
        registry.RegisterLabel(afterLabel);
        assert State(ctx) == Attach(ot.st, afterLabel);
      }
      return Ok(NoValue);
    }

    /** The loop template shared by `while` (isReverse false) and `do` (isReverse true). */
    method HandleWhile(stmtLabel: Option<string>, cond: Node, body: Node, isReverse: bool, ctx: Context)
      returns (r: Result<Value, string>)
      requires JumpsInLoops(cond, true) && JumpsInLoops(body, true)
      modifies this, registry, ctx
      ensures Outcome(r, State(ctx)) == TranslateLoop(stmtLabel, cond, body, isReverse, old(State(ctx)))
      decreases 1 + Size(cond) + Size(body), 0
    {
      ghost var s := State(ctx);
      var startLabel := NewLabel();
      var afterLabel := NewLabel();
      assert (startLabel, CreateLabel(s).1) == CreateLabel(s);
      assert (afterLabel, State(ctx)) == CreateLabel(CreateLabel(s).1);
      ctx.EnterLoop(startLabel, afterLabel, stmtLabel);
      registry.RegisterLabel(startLabel);
      ghost var s4 := State(ctx);
      assert s4 == Attach(EnterLoop(CreateLabel(CreateLabel(s).1).1, startLabel, afterLabel, stmtLabel), startLabel);

      r := LoopTest(cond, body, afterLabel, isReverse, ctx);
      ghost var o5 := Translation.LoopTest(cond, body, afterLabel, isReverse, s4);
      if r.Err? {
        assert TranslateLoop(stmtLabel, cond, body, isReverse, s) == o5;
        return r;
      }
      assert State(ctx) == o5.st && o5.result.Ok?;
      assert ctx.loopScopes == s4.scopes;

      var _ := registry.Register(GoTo(startLabel));
      registry.RegisterLabel(afterLabel);
      ghost var s7 := State(ctx);
      assert s7 == Attach(Emit(o5.st, GoTo(startLabel)).1, afterLabel);
      ctx.ExitLoop();
      assert State(ctx) == ExitLoop(s7);
      assert TranslateLoop(stmtLabel, cond, body, isReverse, s) == Outcome(Ok(NoValue), ExitLoop(s7));
      return Ok(NoValue);
    }

    /** The condition and the body of a loop, in loop order. */
    method LoopTest(cond: Node, body: Node, afterLabel: Label, isReverse: bool, ctx: Context)
      returns (r: Result<Value, string>)
      requires JumpsInLoops(cond, true) && JumpsInLoops(body, true) && |ctx.loopScopes| > 0
      modifies this, registry, ctx
      ensures Outcome(r, State(ctx)) == Translation.LoopTest(cond, body, afterLabel, isReverse, old(State(ctx)))
      decreases Size(cond) + Size(body), 2
    {
      ghost var s := State(ctx);
      var first := if isReverse then body else cond;
      var second := if isReverse then cond else body;
      var v := Visit(first, ctx);
      ghost var o1 := Translate(first, s);
      if v.Err? {
        return v;
      }
      assert ctx.loopScopes == s.scopes;
      if !isReverse {
        var _ := registry.Register(IfFalse(v.value, afterLabel));
        assert State(ctx) == Emit(o1.st, IfFalse(o1.result.value, afterLabel)).1;
      }
      ghost var s2 := State(ctx);
      var w := Visit(second, ctx);
      ghost var o2 := Translate(second, s2);
      if w.Err? || !isReverse {
        return w;
      }
      assert ctx.loopScopes == s.scopes;
      var _ := registry.Register(IfFalse(w.value, afterLabel));
      assert State(ctx) == Emit(o2.st, IfFalse(o2.result.value, afterLabel)).1;
      r := Ok(NoValue);
    }

    /** The optional condition of a `for` and its `IfFalse`. */
    method ForCompare(compare: Option<Node>, afterLabel: Label, ctx: Context) returns (r: Result<Value, string>)
      requires compare.Some? ==> JumpsInLoops(compare.value, |ctx.loopScopes| > 0)
      modifies this, registry, ctx
      ensures Outcome(r, State(ctx)) == Translation.ForCompare(compare, afterLabel, old(State(ctx)))
      decreases if compare.Some? then Size(compare.value) else 0, 2
    {
      if compare.Some? {
        var condition := Visit(compare.value, ctx);
        if condition.Err? {
          return condition;
        }
        var _ := registry.Register(IfFalse(condition.value, afterLabel));
      }
      return Ok(NoValue);
    }

    method VisitFor(stmtLabel: Option<string>, init: seq<Node>, compare: Option<Node>, update: seq<Node>, body: Node,
                    ctx: Context) returns (r: Result<Value, string>)
      requires JumpsInLoops(For(stmtLabel, init, compare, update, body), |ctx.loopScopes| > 0)
      modifies this, registry, ctx
      ensures Outcome(r, State(ctx)) == TranslateFor(stmtLabel, init, compare, update, body, old(State(ctx)))
      decreases Size(For(stmtLabel, init, compare, update, body)), 0
    {
      ghost var s := State(ctx);
      r := VisitAll(init, ctx);
      ghost var oi := TranslateAll(init, s);
      if r.Err? {
        return r;
      }
      var startLabel := NewLabel();
      var afterLabel := NewLabel();
      assert (startLabel, CreateLabel(oi.st).1) == CreateLabel(oi.st);
      assert (afterLabel, State(ctx)) == CreateLabel(CreateLabel(oi.st).1);
      ctx.EnterLoop(startLabel, afterLabel, stmtLabel);
      registry.RegisterLabel(startLabel);
      ghost var s4 := State(ctx);
      assert s4 == Attach(EnterLoop(CreateLabel(CreateLabel(oi.st).1).1, startLabel, afterLabel, stmtLabel), startLabel);

      r := ForCompare(compare, afterLabel, ctx);
      ghost var oc := Translation.ForCompare(compare, afterLabel, s4);
      if r.Err? {
        return r;
      }
      r := Visit(body, ctx);
      ghost var ob := Translate(body, oc.st);
      if r.Err? {
        return r;
      }
      r := VisitAll(update, ctx);
      ghost var ou := TranslateAll(update, ob.st);
      if r.Err? {
        return r;
      }

      var _ := registry.Register(GoTo(startLabel));
      registry.RegisterLabel(afterLabel);
      ghost var s7 := State(ctx);
      assert s7 == Attach(Emit(ou.st, GoTo(startLabel)).1, afterLabel);
      ctx.ExitLoop();
      assert State(ctx) == ExitLoop(s7);
      return Ok(NoValue);
    }

    method VisitBreak(jumpLabel: Option<string>, ctx: Context) returns (r: Result<Value, string>)
      requires jumpLabel.None? ==> |ctx.loopScopes| > 0
      modifies registry
      ensures Outcome(r, State(ctx)) == TranslateBreak(jumpLabel, old(State(ctx)))
    {
      var target: Result<Label, string>;
      if jumpLabel.Some? {
        target := ctx.BreakLoopNamed(jumpLabel.value);
      } else {
        var l := ctx.BreakLoop();
        target := Ok(l);
      }
      if target.Err? {
        return Err(target.error);
      }
      var ref := registry.Register(GoTo(target.value));
      return Ok(ref);
    }

    method VisitContinue(jumpLabel: Option<string>, ctx: Context) returns (r: Result<Value, string>)
      requires jumpLabel.None? ==> |ctx.loopScopes| > 0
      modifies registry
      ensures Outcome(r, State(ctx)) == TranslateContinue(jumpLabel, old(State(ctx)))
    {
      var target: Result<Label, string>;
      if jumpLabel.Some? {
        target := ctx.ContinueLoopNamed(jumpLabel.value);
      } else {
        var l := ctx.ContinueLoop();
        target := Ok(l);
      }
      if target.Err? {
        return Err(target.error);
      }
      var ref := registry.Register(GoTo(target.value));
      return Ok(ref);
    }

    method VisitMethod(name: string, body: Option<Node>, ctx: Context) returns (r: Result<Value, string>)
      requires JumpsInLoops(Method(name, body), |ctx.loopScopes| > 0)
      modifies this, registry, ctx
      ensures Outcome(r, State(ctx)) == TranslateMethod(name, body, old(State(ctx)))
      decreases Size(Method(name, body)), 0
    {
      var methodLabel := NewNamedLabel("_method_" + name);
      registry.RegisterLabel(methodLabel);
      var _ := registry.Register(BeginFunc);
      if body.Some? {
        r := Visit(body.value, ctx);
        if r.Err? {
          return r;
        }
      }
      var _ := registry.Register(EndFunc);
      return Ok(NoValue);
    }
  }
}
