/**
 * What every translation guarantees about the registry it writes to.
 *
 * A translation only appends: earlier records, the bindings of earlier
 * records and the labels of earlier positions stay as they were, the
 * temporary counter is untouched and the other counters only rise.  The
 * reference a sub-tree yields points to a record that sub-tree appended.
 * Hence every operand refers to an earlier record, the condition under which
 * rendering is idempotent.
 */
module TranslationFacts {
  import opened Wrappers
  import opened Tac
  import opened TacRegistry
  import opened TacContext
  import opened Syntax
  import opened Translation

  /** `t` continues `s` by appending only. */
  ghost predicate Extends(s: TState, t: TState)
  {
    && |s.reg.records| <= |t.reg.records|
    && t.reg.records[..|s.reg.records|] == s.reg.records
    && s.nextLabel <= t.nextLabel
    && s.reg.labelCounter <= t.reg.labelCounter
    && t.reg.varCounter == s.reg.varCounter
    && s.reg.labelNames.Keys <= t.reg.labelNames.Keys
    && (forall k :: k < |s.reg.records| ==> (k in s.reg.varNames <==> k in t.reg.varNames))
    && (forall k :: k < |s.reg.records| && k in s.reg.varNames ==> t.reg.varNames[k] == s.reg.varNames[k])
    && (forall k :: k < |s.reg.records| - 1 ==> (k in s.reg.labels <==> k in t.reg.labels))
    && (forall k :: k < |s.reg.records| - 1 && k in s.reg.labels ==> t.reg.labels[k] == s.reg.labels[k])
    && (forall l :: l in s.reg.labelNames && l.id < s.nextLabel ==> t.reg.labelNames[l] == s.reg.labelNames[l])
  }

  /** `v` is not a reference, or refers to a record appended between `s` and `t`. */
  predicate Fresh(v: Value, s: TState, t: TState)
  {
    v.Reference? ==> |s.reg.records| <= v.index < |t.reg.records|
  }

  /** The guarantees of one translation from `s` with outcome `o`. */
  ghost predicate Sound(s: TState, o: Outcome)
  {
    && Extends(s, o.st)
    && (o.result.Ok? ==> Fresh(o.result.value, s, o.st))
    && (RefsBefore(s.reg.records) ==> RefsBefore(o.st.reg.records))
  }

  /** A translation keeps the records it starts from as a prefix. */
  lemma TranslateAppends(n: Node, s: TState)
    requires Fits(n, s)
    ensures var t := Translate(n, s).st;
      |s.reg.records| <= |t.reg.records| && t.reg.records[..|s.reg.records|] == s.reg.records
  {
    TranslateSound(n, s);
  }

  /** A sequence of translations keeps the records it starts from as a prefix. */
  lemma AllAppends(ns: seq<Node>, s: TState)
    requires AllJumpsInLoops(ns, |s.scopes| > 0)
    ensures var t := TranslateAll(ns, s).st;
      |s.reg.records| <= |t.reg.records| && t.reg.records[..|s.reg.records|] == s.reg.records
  {
    AllSound(ns, s);
  }

  lemma ExtendsTrans(a: TState, b: TState, c: TState)
    requires Extends(a, b) && Extends(b, c)
    ensures Extends(a, c)
  {
    assert c.reg.records[..|a.reg.records|] == c.reg.records[..|b.reg.records|][..|a.reg.records|];
  }

  /** Sequencing two sound steps, the second yielding the value. */
  lemma SoundThen(s: TState, o1: Outcome, o2: Outcome)
    requires Sound(s, o1) && Sound(o1.st, o2)
    ensures Sound(s, o2)
  {
    ExtendsTrans(s, o1.st, o2.st);
  }

  /** Sequencing two sound steps, the first yielding the value. */
  lemma SoundKeep(s: TState, o1: Outcome, t: TState)
    requires Sound(s, o1) && Sound(o1.st, Outcome(Ok(NoValue), t))
    ensures Sound(s, Outcome(o1.result, t))
  {
    ExtendsTrans(s, o1.st, t);
  }

  /** Appending an instruction whose operands refer to earlier records. */
  lemma EmitSound(s: TState, stmt: Stmt)
    ensures Extends(s, Emit(s, stmt).1)
    ensures StmtRefsBefore(stmt, |s.reg.records|) ==> Sound(s, Outcome(Ok(Emit(s, stmt).0), Emit(s, stmt).1))
  {
    var t := Emit(s, stmt).1;
    assert t.reg.records[..|s.reg.records|] == s.reg.records;
    if StmtRefsBefore(stmt, |s.reg.records|) && RefsBefore(s.reg.records) {
      forall i | 0 <= i < |t.reg.records|
        ensures StmtRefsBefore(t.reg.records[i], i)
      {
        if i < |s.reg.records| {
          assert t.reg.records[i] == s.reg.records[i];
        }
      }
    }
  }

  /** Attaching a label created by the current translation. */
  lemma AttachSound(s0: TState, s: TState, l: Label)
    requires Extends(s0, s) && s0.nextLabel <= l.id
    ensures Extends(s0, Attach(s, l)) && Attach(s, l).reg.records == s.reg.records
  {
  }

  /** Binding a record the current translation appended. */
  lemma BindSound(s0: TState, s: TState, k: int, name: string)
    requires Extends(s0, s) && |s0.reg.records| <= k
    ensures Extends(s0, Bind(s, k, name))
  {
  }

  /**
   * Every translation appends only, yields a reference to a record it
   * appended (or no reference), and keeps operands pointing backwards.
   */
  lemma {:induction false} TranslateSound(n: Node, s: TState)
    requires Fits(n, s)
    ensures Sound(s, Translate(n, s))
    decreases Size(n), 1
  {
    match n
    case Literal(_) =>
    case Name(_) =>
    case Enclosed(e) => TranslateSound(e, s);
    case Binary(l, op, r) => BinarySound(l, op, r, s);
    case Unary(op, e) => UnarySound(op, e, s);
    case Assignment(t, op, v) => AssignSound(t, op, v, s);
    case Declarator(name, init) => DeclaratorSound(name, init, s);
    case If(c, t, e) =>
      if e.Some? {
        IfElseSound(c, t, e.value, s);
      } else {
        IfSound(c, t, s);
      }
    case While(l, c, b) => LoopSound(l, c, b, false, s);
    case Do(l, b, c) => LoopSound(l, c, b, true, s);
    case For(l, init, c, upd, b) => ForSound(l, init, c, upd, b, s);
    case Break(l) => BreakSound(l, s);
    case Continue(l) => ContinueSound(l, s);
    case Method(name, b) => MethodSound(name, b, s);
    case Other(text, cs) => DefaultSound(text, cs, s);
  }

  lemma {:induction false} AllSound(ns: seq<Node>, s: TState)
    requires AllJumpsInLoops(ns, |s.scopes| > 0)
    ensures Sound(s, TranslateAll(ns, s))
    decreases SizeAll(ns), 1
  {
    if ns != [] {
      SizeAllBounds(ns, 0);
      assert ns[1..] == ns[0 + 1..];
      var o := Translate(ns[0], s);
      TranslateSound(ns[0], s);
      if o.result.Ok? {
        AllSound(ns[1..], o.st);
        SoundThen(s, o, TranslateAll(ns[1..], o.st));
      }
    }
  }

  lemma {:induction false} DefaultSound(text: string, children: seq<Node>, s: TState)
    requires Fits(Other(text, children), s)
    ensures Sound(s, DefaultAction(text, children, s))
    decreases Size(Other(text, children)), 0
  {
    AllSound(children, s);
  }

  lemma {:induction false} BinarySound(left: Node, op: string, right: Node, s: TState)
    requires Fits(Binary(left, op, right), s)
    ensures Sound(s, TranslateBinary(left, op, right, s))
    decreases Size(Binary(left, op, right)), 0
  {
    var o1 := Translate(left, s);
    TranslateSound(left, s);
    if o1.result.Ok? {
      var o2 := Translate(right, o1.st);
      TranslateSound(right, o1.st);
      if o2.result.Ok? {
        var stmt := Apply(o1.result.value, GetByCode(op), o2.result.value);
        EmitSound(o2.st, stmt);
        ExtendsTrans(s, o1.st, o2.st);
        ExtendsTrans(s, o2.st, Emit(o2.st, stmt).1);
      }
    }
  }

  lemma {:induction false} StepSound(arg: Value, op: Op, s: TState)
    requires ValueBefore(arg, |s.reg.records|)
    ensures Sound(s, PrefixStep(arg, op, s))
    ensures Sound(s, PostfixStep(arg, op, s))
  {
    var name := TargetName(arg);
    var (inc, s1) := Emit(s, Apply(arg, op, Const("1")));
    EmitSound(s, Apply(arg, op, Const("1")));
    var s2 := Bind(s1, inc.index, name);
    EmitSound(s2, Copy(Named(name)));
    ExtendsTrans(s, s2, Emit(s2, Copy(Named(name))).1);

    var (oldValue, t1) := Emit(s, Copy(Named(name)));
    EmitSound(s, Copy(Named(name)));
    var (inc', t2) := Emit(t1, Apply(arg, op, Const("1")));
    EmitSound(t1, Apply(arg, op, Const("1")));
    ExtendsTrans(s, t1, t2);
    BindSound(s, t2, inc'.index, name);
  }

  lemma {:induction false} UnarySound(op: UnaryOp, operand: Node, s: TState)
    requires Fits(Unary(op, operand), s)
    ensures Sound(s, TranslateUnary(op, operand, s))
    decreases Size(Unary(op, operand)), 0
  {
    var o1 := Translate(operand, s);
    TranslateSound(operand, s);
    if o1.result.Ok? {
      var arg := o1.result.value;
      match op
      case UnaryMinus =>
        EmitSound(o1.st, Apply(Const("0"), MINUS, arg));
        SoundThen(s, o1, Outcome(Ok(Emit(o1.st, Apply(Const("0"), MINUS, arg)).0), Emit(o1.st, Apply(Const("0"), MINUS, arg)).1));
      case LogicalComplement =>
        EmitSound(o1.st, Apply(Const("1"), MINUS, arg));
        SoundThen(s, o1, Outcome(Ok(Emit(o1.st, Apply(Const("1"), MINUS, arg)).0), Emit(o1.st, Apply(Const("1"), MINUS, arg)).1));
      case PrefixIncrement =>
        StepSound(arg, PLUS, o1.st);
        SoundThen(s, o1, PrefixStep(arg, PLUS, o1.st));
      case PrefixDecrement =>
        StepSound(arg, MINUS, o1.st);
        SoundThen(s, o1, PrefixStep(arg, MINUS, o1.st));
      case PostfixIncrement =>
        StepSound(arg, PLUS, o1.st);
        SoundThen(s, o1, PostfixStep(arg, PLUS, o1.st));
      case PostfixDecrement =>
        StepSound(arg, MINUS, o1.st);
        SoundThen(s, o1, PostfixStep(arg, MINUS, o1.st));
      case _ =>
    }
  }

  /** Making a value fresh since `s0` a reference keeps it fresh since `s0`. */
  lemma AsReferenceSound(v: Value, s0: TState, s: TState)
    requires Extends(s0, s) && Fresh(v, s0, s)
    ensures var o := AsReference(v, s);
      Extends(s0, o.st) && Fresh(o.result.value, s0, o.st)
      && (RefsBefore(s.reg.records) ==> RefsBefore(o.st.reg.records))
  {
    if !v.Reference? {
      EmitSound(s, Copy(v));
      ExtendsTrans(s0, s, Emit(s, Copy(v)).1);
    }
  }

  lemma {:induction false} AssignSound(target: Node, compound: Option<string>, value: Node, s: TState)
    requires Fits(Assignment(target, compound, value), s)
    ensures Sound(s, TranslateAssign(target, compound, value, s))
    decreases Size(Assignment(target, compound, value)), 0
  {
    if compound.Some? {
      BinarySound(target, compound.value, value, s);
    } else {
      TranslateSound(value, s);
      var ov := Translate(value, s);
      if ov.result.Ok? {
        AsReferenceSound(ov.result.value, s, ov.st);
      }
    }
    var o1 :=
      if compound.Some? then TranslateBinary(target, compound.value, value, s)
      else
        var ov := Translate(value, s);
        if ov.result.Err? then ov else AsReference(ov.result.value, ov.st);
    if o1.result.Ok? {
      BindSound(s, o1.st, o1.result.value.index, SourceText(target));
    }
  }

  lemma {:induction false} DeclaratorSound(name: string, init: Option<Node>, s: TState)
    requires Fits(Declarator(name, init), s)
    ensures Sound(s, TranslateDeclarator(name, init, s))
    decreases Size(Declarator(name, init)), 0
  {
    if init.Some? {
      var o1 := Translate(init.value, s);
      TranslateSound(init.value, s);
      if o1.result.Ok? {
        AsReferenceSound(o1.result.value, s, o1.st);
        var o2 := AsReference(o1.result.value, o1.st);
        BindSound(s, o2.st, o2.result.value.index, name);
      }
    }
  }

  lemma {:induction false} IfSound(cond: Node, thenStmt: Node, s: TState)
    requires Fits(If(cond, thenStmt, None), s)
    ensures Sound(s, TranslateIf(cond, thenStmt, None, s))
    decreases Size(If(cond, thenStmt, None)), 0
  {
    var (afterLabel, s1) := CreateLabel(s);
    var oc := Translate(cond, s1);
    TranslateSound(cond, s1);
    if oc.result.Ok? {
      var stmt := IfFalse(oc.result.value, afterLabel);
      var (_, s2) := Emit(oc.st, stmt);
      EmitSound(oc.st, stmt);
      var ot := Translate(thenStmt, s2);
      TranslateSound(thenStmt, s2);
      ExtendsTrans(s, oc.st, s2);
      ExtendsTrans(s, s2, ot.st);
      AttachSound(s, ot.st, afterLabel);
    }
  }

  lemma {:induction false} IfElseSound(cond: Node, thenStmt: Node, elseStmt: Node, s: TState)
    requires Fits(If(cond, thenStmt, Some(elseStmt)), s)
    ensures Sound(s, TranslateIf(cond, thenStmt, Some(elseStmt), s))
    decreases Size(If(cond, thenStmt, Some(elseStmt))), 0
  {
    var o := TranslateIf(cond, thenStmt, Some(elseStmt), s);
    var (elseLabel, s1) := CreateLabel(s);
    var (afterLabel, s2) := CreateLabel(s1);
    var oc := Translate(cond, s2);
    TranslateSound(cond, s2);
    if oc.result.Err? {
      assert o == oc;
      return;
    }
    var stmt := IfFalse(oc.result.value, elseLabel);
    var (_, s3) := Emit(oc.st, stmt);
    EmitSound(oc.st, stmt);
    ExtendsTrans(s, oc.st, s3);
    var ot := Translate(thenStmt, s3);
    TranslateSound(thenStmt, s3);
    ExtendsTrans(s, s3, ot.st);
    if ot.result.Err? {
      assert o == ot;
      return;
    }
    ElseTailSound(s, ot, elseStmt, elseLabel, afterLabel);
  }

  /** `GoTo(after)`, attach `else`, the else branch, attach `after`. */
  lemma {:induction false} ElseTailSound(s: TState, ot: Outcome, elseStmt: Node, elseLabel: Label, afterLabel: Label)
    requires Sound(s, ot) && ot.result.Ok? && Fits(elseStmt, ot.st)
    requires s.nextLabel <= elseLabel.id && s.nextLabel <= afterLabel.id
    ensures var s5 := Attach(Emit(ot.st, GoTo(afterLabel)).1, elseLabel);
      var oe := Translate(elseStmt, s5);
      Sound(s, if oe.result.Err? then oe else Outcome(Ok(NoValue), Attach(oe.st, afterLabel)))
    decreases Size(elseStmt), 2
  {
    var (_, s4) := Emit(ot.st, GoTo(afterLabel));
    EmitSound(ot.st, GoTo(afterLabel));
    var s5 := Attach(s4, elseLabel);
    ExtendsTrans(s, ot.st, s4);
    AttachSound(s, s4, elseLabel);
    var oe := Translate(elseStmt, s5);
    TranslateSound(elseStmt, s5);
    ExtendsTrans(s, s5, oe.st);
    if oe.result.Ok? {
      AttachSound(s, oe.st, afterLabel);
    }
  }

  lemma {:induction false} LoopTestSound(cond: Node, body: Node, afterLabel: Label, isReverse: bool, s: TState)
    requires JumpsInLoops(cond, true) && JumpsInLoops(body, true) && |s.scopes| > 0
    ensures Sound(s, LoopTest(cond, body, afterLabel, isReverse, s))
    decreases Size(cond) + Size(body), 2
  {
    if isReverse {
      var ob := Translate(body, s);
      TranslateSound(body, s);
      if ob.result.Ok? {
        var oc := Translate(cond, ob.st);
        TranslateSound(cond, ob.st);
        if oc.result.Ok? {
          var stmt := IfFalse(oc.result.value, afterLabel);
          EmitSound(oc.st, stmt);
          ExtendsTrans(s, ob.st, oc.st);
          ExtendsTrans(s, oc.st, Emit(oc.st, stmt).1);
        } else {
          ExtendsTrans(s, ob.st, oc.st);
        }
      }
    } else {
      var oc := Translate(cond, s);
      TranslateSound(cond, s);
      if oc.result.Ok? {
        var stmt := IfFalse(oc.result.value, afterLabel);
        var (_, s1) := Emit(oc.st, stmt);
        EmitSound(oc.st, stmt);
        TranslateSound(body, s1);
        ExtendsTrans(s, oc.st, s1);
        ExtendsTrans(s, s1, Translate(body, s1).st);
      }
    }
  }

  /** The tail shared by the three loops: `GoTo(start)`, attach `after`, pop. */
  lemma LoopEndSound(s: TState, o5: Outcome, startLabel: Label, afterLabel: Label)
    requires Sound(s, o5) && o5.result.Ok? && |o5.st.scopes| > 0 && s.nextLabel <= afterLabel.id
    ensures var s7 := Attach(Emit(o5.st, GoTo(startLabel)).1, afterLabel);
      Sound(s, Outcome(Ok(NoValue), ExitLoop(s7)))
  {
    var s6 := Emit(o5.st, GoTo(startLabel)).1;
    EmitSound(o5.st, GoTo(startLabel));
    var s7 := Attach(s6, afterLabel);
    ExtendsTrans(s, o5.st, s6);
    AttachSound(s, s6, afterLabel);
  }

  lemma {:induction false} LoopSound(stmtLabel: Option<string>, cond: Node, body: Node, isReverse: bool, s: TState)
    requires JumpsInLoops(cond, true) && JumpsInLoops(body, true)
    ensures Sound(s, TranslateLoop(stmtLabel, cond, body, isReverse, s))
    decreases 1 + Size(cond) + Size(body), 0
  {
    var (startLabel, s1) := CreateLabel(s);
    var (afterLabel, s2) := CreateLabel(s1);
    var s3 := EnterLoop(s2, startLabel, afterLabel, stmtLabel);
    var s4 := Attach(s3, startLabel);
    AttachSound(s, s3, startLabel);
    var o5 := LoopTest(cond, body, afterLabel, isReverse, s4);
    LoopTestSound(cond, body, afterLabel, isReverse, s4);
    ExtendsTrans(s, s4, o5.st);
    if o5.result.Ok? {
      LoopEndSound(s, o5, startLabel, afterLabel);
    }
  }

  lemma {:induction false} ForCompareSound(compare: Option<Node>, afterLabel: Label, s: TState)
    requires compare.Some? ==> Fits(compare.value, s)
    ensures Sound(s, ForCompare(compare, afterLabel, s))
    decreases if compare.Some? then Size(compare.value) else 0, 2
  {
    if compare.Some? {
      var oc := Translate(compare.value, s);
      TranslateSound(compare.value, s);
      if oc.result.Ok? {
        var stmt := IfFalse(oc.result.value, afterLabel);
        EmitSound(oc.st, stmt);
        ExtendsTrans(s, oc.st, Emit(oc.st, stmt).1);
      }
    }
  }

  lemma {:induction false} ForSound(stmtLabel: Option<string>, init: seq<Node>, compare: Option<Node>, update: seq<Node>,
                                    body: Node, s: TState)
    requires Fits(For(stmtLabel, init, compare, update, body), s)
    ensures Sound(s, TranslateFor(stmtLabel, init, compare, update, body, s))
    decreases Size(For(stmtLabel, init, compare, update, body)), 0
  {
    var oi := TranslateAll(init, s);
    AllSound(init, s);
    if oi.result.Ok? {
      var (startLabel, s1) := CreateLabel(oi.st);
      var (afterLabel, s2) := CreateLabel(s1);
      var s3 := EnterLoop(s2, startLabel, afterLabel, stmtLabel);
      var s4 := Attach(s3, startLabel);
      ExtendsTrans(s, oi.st, s3);
      AttachSound(s, s3, startLabel);
      var oc := ForCompare(compare, afterLabel, s4);
      ForCompareSound(compare, afterLabel, s4);
      ExtendsTrans(s, s4, oc.st);
      if oc.result.Ok? {
        var ob := Translate(body, oc.st);
        TranslateSound(body, oc.st);
        ExtendsTrans(s, oc.st, ob.st);
        if ob.result.Ok? {
          var ou := TranslateAll(update, ob.st);
          AllSound(update, ob.st);
          ExtendsTrans(s, ob.st, ou.st);
          if ou.result.Ok? {
            LoopEndSound(s, Outcome(Ok(NoValue), ou.st), startLabel, afterLabel);
          }
        }
      }
    }
  }

  lemma BreakSound(jumpLabel: Option<string>, s: TState)
    requires jumpLabel.None? ==> |s.scopes| > 0
    ensures Sound(s, TranslateBreak(jumpLabel, s))
  {
    var target := if jumpLabel.Some? then BreakTarget(s.scopes, jumpLabel.value) else Ok(s.scopes[0].exitPoint);
    if target.Ok? {
      EmitSound(s, GoTo(target.value));
    }
  }

  lemma ContinueSound(jumpLabel: Option<string>, s: TState)
    requires jumpLabel.None? ==> |s.scopes| > 0
    ensures Sound(s, TranslateContinue(jumpLabel, s))
  {
    var target := if jumpLabel.Some? then ContinueTarget(s.scopes, jumpLabel.value) else Ok(s.scopes[0].entryPoint);
    if target.Ok? {
      EmitSound(s, GoTo(target.value));
    }
  }

  lemma {:induction false} MethodSound(name: string, body: Option<Node>, s: TState)
    requires Fits(Method(name, body), s)
    ensures Sound(s, TranslateMethod(name, body, s))
    decreases Size(Method(name, body)), 0
  {
    var (methodLabel, s1) := CreateNamedLabel(s, "_method_" + name);
    var s2 := Attach(s1, methodLabel);
    AttachSound(s, s1, methodLabel);
    var (_, s3) := Emit(s2, BeginFunc);
    EmitSound(s2, BeginFunc);
    ExtendsTrans(s, s2, s3);
    var ob := if body.Some? then Translate(body.value, s3) else Outcome(Ok(NoValue), s3);
    if body.Some? {
      TranslateSound(body.value, s3);
    }
    ExtendsTrans(s, s3, ob.st);
    if ob.result.Ok? {
      EmitSound(ob.st, EndFunc);
      ExtendsTrans(s, ob.st, Emit(ob.st, EndFunc).1);
    }
  }

  /**
   * Rendering the registry a translation leaves is stable: every reference
   * an instruction holds points to an earlier instruction, so a second
   * rendering binds the same temporaries and prints the same text.
   */
  lemma {:induction false} TranslatedRenderIdempotent(n: Node)
    requires JumpsInLoops(n, false)
    ensures var r := Translate(n, Initial).st.reg;
      && RefsBefore(r.records)
      && Render(AfterRender(r)) == Render(r)
  {
    TranslateSound(n, Initial);
    RenderIdempotent(Translate(n, Initial).st.reg);
  }
}
