/**
 * The expression templates seen from outside: for any operands, what a
 * binary, unary, assignment or declarator node appends to the registry, in
 * which order, which reference it yields and which name it binds.
 */
module ExpressionFacts {
  import opened Wrappers
  import opened Tac
  import opened TacRegistry
  import opened Syntax
  import opened Translation
  import opened TranslationFacts

  /**
   * `l op r`: the left operand is translated completely first, the right
   * one from the state it leaves, and then exactly one `Assign(l, r, op)`
   * is appended after all their records; the value is the reference to
   * that last record.  A failure in the left operand stops before the right
   * one is looked at.
   */
  lemma {:induction false} BinaryShape(l: Node, op: string, r: Node, s: TState)
    requires Fits(Binary(l, op, r), s)
    ensures var o, ol := Translate(Binary(l, op, r), s), Translate(l, s);
      && (ol.result.Err? ==> o == ol)
      && (ol.result.Ok? ==>
            var orr := Translate(r, ol.st);
            && (orr.result.Err? ==> o == orr)
            && (orr.result.Ok? ==>
                  && |s.reg.records| <= |ol.st.reg.records| <= |orr.st.reg.records|
                  && o.st.reg.records == orr.st.reg.records + [Apply(ol.result.value, GetByCode(op), orr.result.value)]
                  && o.st.reg.records[..|ol.st.reg.records|] == ol.st.reg.records
                  && o.result == Ok(Reference(|o.st.reg.records| - 1))))
  {
    var ol := Translate(l, s);
    var o := Translate(Binary(l, op, r), s);
    assert o == TranslateBinary(l, op, r, s);
    TranslateAppends(l, s);
    if ol.result.Ok? {
      var orr := Translate(r, ol.st);
      TranslateAppends(r, ol.st);
      if orr.result.Ok? {
        var a := orr.st.reg.records;
        assert o.st.reg.records == a + [Apply(ol.result.value, GetByCode(op), orr.result.value)];
        assert o.st.reg.records[..|ol.st.reg.records|] == a[..|ol.st.reg.records|];
      }
    }
  }

  /**
   * The operators that append at most one record: `+x` yields `x`'s value
   * and appends nothing, `-x` appends `0 - x`, `!x` appends `1 - x`, and
   * `~x` is not translated (its placeholder is the value).
   */
  lemma {:induction false} UnaryShape(op: UnaryOp, e: Node, s: TState)
    requires Fits(Unary(op, e), s)
    ensures var o, oe := Translate(Unary(op, e), s), Translate(e, s);
      var n := |oe.st.reg.records|;
      && (oe.result.Err? ==> o == oe)
      && (oe.result.Ok? ==>
            && (op == UnaryPlus ==> o == oe)
            && (op == UnaryMinus ==>
                  o.result == Ok(Reference(n)) && o.st == Emit(oe.st, Apply(Const("0"), MINUS, oe.result.value)).1
                  && o.st.reg.records == oe.st.reg.records + [Apply(Const("0"), MINUS, oe.result.value)])
            && (op == LogicalComplement ==>
                  o.result == Ok(Reference(n)) && o.st == Emit(oe.st, Apply(Const("1"), MINUS, oe.result.value)).1
                  && o.st.reg.records == oe.st.reg.records + [Apply(Const("1"), MINUS, oe.result.value)])
            && (op == BitwiseComplement ==> o == Outcome(Ok(Unknown("BITWISE_COMPLEMENT")), oe.st)))
  {
  }

  /** The operator an increment or decrement applies. */
  function StepOp(op: UnaryOp): Op
  {
    if op == PrefixIncrement || op == PostfixIncrement then PLUS else MINUS
  }

  /**
   * `++x`, `--x`, `x++`, `x--` on any operand: two records are appended.
   * Prefix: the update, then a copy of the variable, which is the value.
   * Postfix: the copy, which is the value, then the update.  The update is
   * bound to the operand's identifier, or to "UNKNOWN" when the operand is
   * not a variable read; the copy is left unbound.
   */
  lemma {:induction false} IncrementShape(op: UnaryOp, e: Node, s: TState)
    requires op in {PrefixIncrement, PrefixDecrement, PostfixIncrement, PostfixDecrement}
    requires Fits(Unary(op, e), s)
    ensures var o, oe := Translate(Unary(op, e), s), Translate(e, s);
      var n := |oe.st.reg.records|;
      && (oe.result.Err? ==> o == oe)
      && (oe.result.Ok? ==>
          var v := oe.result.value;
          var name := if v.Named? then v.id else "UNKNOWN";
          && (op in {PrefixIncrement, PrefixDecrement} ==>
            && o.result == Ok(Reference(n + 1))
            && o.st.reg.records == oe.st.reg.records + [Apply(v, StepOp(op), Const("1")), Copy(Named(name))]
            && o.st.reg.varNames == oe.st.reg.varNames[n := name])
          && (op in {PostfixIncrement, PostfixDecrement} ==>
            && o.result == Ok(Reference(n))
            && o.st.reg.records == oe.st.reg.records + [Copy(Named(name)), Apply(v, StepOp(op), Const("1"))]
            && o.st.reg.varNames == oe.st.reg.varNames[n + 1 := name]))
  {
    var oe := Translate(e, s);
    assert Translate(Unary(op, e), s) == TranslateUnary(op, e, s);
    if oe.result.Ok? {
      var v := oe.result.value;
      assert TargetName(v) == if v.Named? then v.id else "UNKNOWN";
      if op == PrefixIncrement || op == PrefixDecrement {
        PrefixStepShape(v, StepOp(op), oe.st);
      } else {
        PostfixStepShape(v, StepOp(op), oe.st);
      }
    }
  }

  /** The prefix template appends the update, bound to the target, then the copy, which is the value. */
  lemma PrefixStepShape(v: Value, op: Op, t: TState)
    ensures var o, n := PrefixStep(v, op, t), |t.reg.records|;
      && o.result == Ok(Reference(n + 1))
      && o.st.reg.records == t.reg.records + [Apply(v, op, Const("1")), Copy(Named(TargetName(v)))]
      && o.st.reg.varNames == t.reg.varNames[n := TargetName(v)]
  {
  }

  /** The postfix template appends the copy, which is the value, then the update, bound to the target. */
  lemma PostfixStepShape(v: Value, op: Op, t: TState)
    ensures var o, n := PostfixStep(v, op, t), |t.reg.records|;
      && o.result == Ok(Reference(n))
      && o.st.reg.records == t.reg.records + [Copy(Named(TargetName(v))), Apply(v, op, Const("1"))]
      && o.st.reg.varNames == t.reg.varNames[n + 1 := TargetName(v)]
  {
  }

  /**
   * `target = value`: a value that is already a reference is reused and
   * nothing is appended; any other value is copied into exactly one new
   * record.  That reference is bound to the target's text and is the value.
   */
  lemma {:induction false} PlainAssignShape(target: Node, value: Node, s: TState)
    requires Fits(Assignment(target, None, value), s)
    ensures var o, ov := Translate(Assignment(target, None, value), s), Translate(value, s);
      && (ov.result.Err? ==> o == ov)
      && (ov.result.Ok? ==>
          var v := ov.result.value;
          && (v.Reference? ==>
            && o.result == Ok(v)
            && o.st.reg.records == ov.st.reg.records
            && o.st.reg.varNames == ov.st.reg.varNames[v.index := SourceText(target)])
          && (!v.Reference? ==>
            && o.result == Ok(Reference(|ov.st.reg.records|))
            && o.st.reg.records == ov.st.reg.records + [Copy(v)]
            && o.st.reg.varNames == ov.st.reg.varNames[|ov.st.reg.records| := SourceText(target)]))
  {
  }

  /**
   * `target op= value` is the binary template on `target op value` (so the
   * target is read as the left operand), with its reference bound to the
   * target's text.
   */
  lemma {:induction false} CompoundAssignShape(target: Node, op: string, value: Node, s: TState)
    requires Fits(Assignment(target, Some(op), value), s)
    ensures Fits(Binary(target, op, value), s)
    ensures var o, ob := Translate(Assignment(target, Some(op), value), s), Translate(Binary(target, op, value), s);
      && (ob.result.Err? ==> o == ob)
      && (ob.result.Ok? ==>
            && ob.result.value.Reference?
            && o.result == ob.result
            && o.st.reg.records == ob.st.reg.records
            && o.st.reg.varNames == ob.st.reg.varNames[ob.result.value.index := SourceText(target)])
  {
  }

  /**
   * A declarator without an initializer appends and binds nothing; one with
   * an initializer makes its value a reference (copying it when it is not
   * one) and binds it to the declared name.  The value is always `NONE`.
   */
  lemma {:induction false} DeclaratorShape(name: string, init: Option<Node>, s: TState)
    requires Fits(Declarator(name, init), s)
    ensures var o := Translate(Declarator(name, init), s);
      && (init.None? ==> o == Outcome(Ok(NoValue), s))
      && (init.Some? ==>
            var oi := Translate(init.value, s);
            var n := |oi.st.reg.records|;
            && (oi.result.Err? ==> o == oi)
            && (oi.result.Ok? ==>
                  var v := oi.result.value;
                  && o.result == Ok(NoValue)
                  && o.st.reg.records == oi.st.reg.records + (if v.Reference? then [] else [Copy(v)])
                  && o.st.reg.varNames == oi.st.reg.varNames[(if v.Reference? then v.index else n) := name]))
  {
  }

  /** A variable read yields `Named(id)` and changes nothing, whatever is bound. */
  lemma {:induction false} ReadIsNamed(id: string, s: TState)
    ensures Translate(Name(id), s) == Outcome(Ok(Named(id)), s)
  {
  }
}
