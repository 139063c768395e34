/**
 * Worked translations of small programs, each stating the records, bindings
 * and labels the translator adds for it, from any state.
 */
module Scenarios {
  import opened Wrappers
  import opened Tac
  import opened TacRegistry
  import opened TacContext
  import opened Syntax
  import opened Translation
  import opened ShapeFacts

  /** `++x`: the increment is bound to `x` and the value is a copy of `x` made after it. */
  lemma {:induction false} PrefixIncrementOrder(x: string, s: TState)
    ensures var o := Translate(Unary(PrefixIncrement, Name(x)), s);
      var n := |s.reg.records|;
      && o.result == Ok(Reference(n + 1))
      && o.st.reg.records == s.reg.records + [Apply(Named(x), PLUS, Const("1")), Copy(Named(x))]
      && o.st.reg.varNames == s.reg.varNames[n := x]
  {
    assert Translate(Name(x), s) == Outcome(Ok(Named(x)), s);
    assert Translate(Unary(PrefixIncrement, Name(x)), s) == PrefixStep(Named(x), PLUS, s);
  }

  /** `x++`: the value is a copy of `x` made before the increment, which is bound to `x`. */
  lemma {:induction false} PostfixIncrementOrder(x: string, s: TState)
    ensures var o := Translate(Unary(PostfixIncrement, Name(x)), s);
      var n := |s.reg.records|;
      && o.result == Ok(Reference(n))
      && o.st.reg.records == s.reg.records + [Copy(Named(x)), Apply(Named(x), PLUS, Const("1"))]
      && o.st.reg.varNames == s.reg.varNames[n + 1 := x]
  {
    assert Translate(Name(x), s) == Outcome(Ok(Named(x)), s);
    assert Translate(Unary(PostfixIncrement, Name(x)), s) == PostfixStep(Named(x), PLUS, s);
  }

  /** `a = ~b`: the complement is not translated; its placeholder is copied into a record bound to `a`. */
  lemma {:induction false} ComplementIsCopiedUnknown(a: string, b: string, s: TState)
    ensures Fits(Assignment(Name(a), None, Unary(BitwiseComplement, Name(b))), s)
    ensures var o := Translate(Assignment(Name(a), None, Unary(BitwiseComplement, Name(b))), s);
      var n := |s.reg.records|;
      && o.result == Ok(Reference(n))
      && o.st.reg.records == s.reg.records + [Copy(Unknown("BITWISE_COMPLEMENT"))]
      && o.st.reg.varNames == s.reg.varNames[n := a]
  {
    assert JumpsInLoops(Name(a), |s.scopes| > 0) && JumpsInLoops(Name(b), |s.scopes| > 0);
    assert JumpsInLoops(Unary(BitwiseComplement, Name(b)), |s.scopes| > 0);
    assert Translate(Name(b), s) == Outcome(Ok(Named(b)), s);
    assert Translate(Unary(BitwiseComplement, Name(b)), s) == Outcome(Ok(Unknown("BITWISE_COMPLEMENT")), s);
  }

  // ---------------------------------------------------------------------------
  // Templates of statements whose condition is a variable, in terms of their bodies

  /** An `if` without `else`: `IfFalse(c, after)`, the branch, attach `after`. */
  lemma {:induction false} IfOfName(c: string, thenStmt: Node, s: TState)
    requires Fits(thenStmt, s)
    ensures Fits(If(Name(c), thenStmt, None), s)
    ensures var after := Label(s.nextLabel, None);
      var ot := Translate(thenStmt, Emit(CreateLabel(s).1, IfFalse(Named(c), after)).1);
      Translate(If(Name(c), thenStmt, None), s) == if ot.result.Err? then ot else Outcome(Ok(NoValue), Attach(ot.st, after))
  {
    assert JumpsInLoops(Name(c), |s.scopes| > 0);
    assert Translate(Name(c), CreateLabel(s).1) == Outcome(Ok(Named(c)), CreateLabel(s).1);
  }

  /** `if (c) x;` for a variable `x`: only the `IfFalse` is appended, and `after` is attached behind it. */
  lemma {:induction false} SingleIf(c: string, x: string, s: TState)
    ensures Fits(If(Name(c), Name(x), None), s)
    ensures var after := Label(s.nextLabel, None);
      Translate(If(Name(c), Name(x), None), s) == Outcome(Ok(NoValue), Attach(Emit(CreateLabel(s).1, IfFalse(Named(c), after)).1, after))
  {
    var after := Label(s.nextLabel, None);
    var s2 := Emit(CreateLabel(s).1, IfFalse(Named(c), after)).1;
    assert Translate(Name(x), s2) == Outcome(Ok(Named(x)), s2);
    assert JumpsInLoops(Name(x), |s.scopes| > 0);
    IfOfName(c, Name(x), s);
  }

  // ---------------------------------------------------------------------------
  // Scenarios

  /** Every label attached so far was created before `s.nextLabel`. */
  ghost predicate LabelsBelow(s: TState)
  {
    forall p :: p in s.reg.labels ==> s.reg.labels[p].id < s.nextLabel
  }

  /** The outcome of `if (c1) if (c2) x;`: two `IfFalse`, then the inner and the outer `after` attached. */
  lemma {:induction false} NestedIfsOutcome(c1: string, c2: string, x: string, s: TState)
    ensures Fits(If(Name(c1), If(Name(c2), Name(x), None), None), s)
    ensures var k := s.nextLabel;
      var outer, inner := Label(k, None), Label(k + 1, None);
      var s2 := Emit(CreateLabel(s).1, IfFalse(Named(c1), outer)).1;
      var s4 := Emit(CreateLabel(s2).1, IfFalse(Named(c2), inner)).1;
      Translate(If(Name(c1), If(Name(c2), Name(x), None), None), s) == Outcome(Ok(NoValue), Attach(Attach(s4, inner), outer))
  {
    var k := s.nextLabel;
    var outer, inner := Label(k, None), Label(k + 1, None);
    var s2 := Emit(CreateLabel(s).1, IfFalse(Named(c1), outer)).1;
    var s4 := Emit(CreateLabel(s2).1, IfFalse(Named(c2), inner)).1;
    assert s2.nextLabel == k + 1;
    SingleIf(c2, x, s2);
    var ot := Translate(If(Name(c2), Name(x), None), s2);
    assert ot == Outcome(Ok(NoValue), Attach(s4, inner));
    IfOfName(c1, If(Name(c2), Name(x), None), s);
    assert Translate(If(Name(c1), If(Name(c2), Name(x), None), None), s) == Outcome(Ok(NoValue), Attach(ot.st, outer));
  }

  /**
   * `if (c1) if (c2) x;`: both `after` labels are attached at the same
   * position, so the outer one replaces the inner one there.  The inner
   * label, attached first, gets the lower anonymous number; the inner
   * `IfFalse` jumps to it, yet no position carries it, so the listing has no
   * line for it.
   */
  lemma {:induction false} NestedIfsShareOnePosition(c1: string, c2: string, x: string, s: TState)
    requires LabelsBelow(s)
    ensures Fits(If(Name(c1), If(Name(c2), Name(x), None), None), s)
    ensures var o := Translate(If(Name(c1), If(Name(c2), Name(x), None), None), s);
      var n, k, c := |s.reg.records|, s.nextLabel, s.reg.labelCounter;
      var outer, inner := Label(k, None), Label(k + 1, None);
      && o.result == Ok(NoValue)
      && o.st.reg.records == s.reg.records + [IfFalse(Named(c1), outer), IfFalse(Named(c2), inner)]
      && o.st.reg.labels == s.reg.labels[n + 1 := outer]
      && o.st.reg.labelNames == s.reg.labelNames[inner := AnonLabelName(c)][outer := AnonLabelName(c + 1)]
      && forall p :: p in o.st.reg.labels ==> o.st.reg.labels[p] != inner
  {
    NestedIfsOutcome(c1, c2, x, s);
  }

  /** `while (b) break name;` inside loops where `name` resolves: the test, the jump, the loop end. */
  lemma {:induction false} BreakingLoop(b: string, name: string, s: TState)
    requires name != UNNAMED && BreakTarget(s.scopes, name).Ok?
    ensures var start, after := Label(s.nextLabel, None), Label(s.nextLabel + 1, None);
      var t5 := Emit(LoopEntry(None, s), IfFalse(Named(b), after)).1;
      TranslateLoop(None, Name(b), Break(Some(name)), false, s)
        == Outcome(Ok(NoValue), LoopExit(Emit(t5, GoTo(BreakTarget(s.scopes, name).value)).1, start, after))
  {
    var start, after := Label(s.nextLabel, None), Label(s.nextLabel + 1, None);
    var t4 := LoopEntry(None, s);
    var t5 := Emit(t4, IfFalse(Named(b), after)).1;
    var target := BreakTarget(s.scopes, name).value;
    assert JumpsInLoops(Name(b), true) && JumpsInLoops(Break(Some(name)), true);
    var o5 := LoopTest(Name(b), Break(Some(name)), after, false, t4);
    TestOfName(b, Break(Some(name)), after, t4);
    assert t5.scopes == [LoopInfo(UNNAMED, start, after)] + s.scopes;
    NamedBreakPastUnnamed(name, start, after, s.scopes, t5);
    assert o5 == Outcome(Ok(Reference(|t5.reg.records|)), Emit(t5, GoTo(target)).1);
    LoopOfTest(None, Name(b), Break(Some(name)), false, s);
  }

  /** A named `break` just inside an unlabelled loop jumps where it would outside that loop. */
  lemma {:induction false} NamedBreakPastUnnamed(name: string, start: Label, after: Label, scopes: seq<LoopInfo>, t: TState)
    requires name != UNNAMED && BreakTarget(scopes, name).Ok?
    requires t.scopes == [LoopInfo(UNNAMED, start, after)] + scopes
    ensures Translate(Break(Some(name)), t) == Outcome(Ok(Reference(|t.reg.records|)), Emit(t, GoTo(BreakTarget(scopes, name).value)).1)
  {
    BreakPastUnnamed(name, start, after, scopes);
  }

  /** A named `break` looks past an unlabelled loop, whose name differs. */
  lemma BreakPastUnnamed(name: string, start: Label, after: Label, scopes: seq<LoopInfo>)
    requires name != UNNAMED
    ensures BreakTarget([LoopInfo(UNNAMED, start, after)] + scopes, name) == BreakTarget(scopes, name)
  {
    var t := [LoopInfo(UNNAMED, start, after)] + scopes;
    assert t[1..] == scopes;
  }

  /** `BreakingLoop` seen through the dispatch of the `while` node. */
  lemma {:induction false} BreakingWhile(b: string, name: string, s: TState)
    requires name != UNNAMED && BreakTarget(s.scopes, name).Ok?
    ensures JumpsInLoops(While(None, Name(b), Break(Some(name))), true)
    ensures var start, after := Label(s.nextLabel, None), Label(s.nextLabel + 1, None);
      var t5 := Emit(LoopEntry(None, s), IfFalse(Named(b), after)).1;
      Translate(While(None, Name(b), Break(Some(name))), s)
        == Outcome(Ok(NoValue), LoopExit(Emit(t5, GoTo(BreakTarget(s.scopes, name).value)).1, start, after))
  {
    assert JumpsInLoops(Name(b), true) && JumpsInLoops(Break(Some(name)), true);
    BreakingLoop(b, name, s);
    assert Translate(While(None, Name(b), Break(Some(name))), s) == TranslateLoop(None, Name(b), Break(Some(name)), false, s);
  }

  /** The state `outer: while (a) while (b) break outer;` leaves. */
  function LabelledBreakState(a: string, b: string, s: TState): TState
  {
    var k := s.nextLabel;
    LoopExit(InnerLoopState(a, b, s), Label(k, None), Label(k + 1, None))
  }

  /** The state after the inner loop of `outer: while (a) while (b) break outer;`, still inside the outer one. */
  function InnerLoopState(a: string, b: string, s: TState): (t: TState)
    ensures |t.scopes| > 0
  {
    var k := s.nextLabel;
    var s5 := Emit(LoopEntry(Some("outer"), s), IfFalse(Named(a), Label(k + 1, None))).1;
    var t5 := Emit(LoopEntry(None, s5), IfFalse(Named(b), Label(k + 3, None))).1;
    LoopExit(Emit(t5, GoTo(Label(k + 1, None))).1, Label(k + 2, None), Label(k + 3, None))
  }

  /** A `while` test on a variable: the `IfFalse`, then the body. */
  lemma {:induction false} TestOfName(a: string, body: Node, after: Label, s: TState)
    requires JumpsInLoops(body, true) && |s.scopes| > 0
    ensures LoopTest(Name(a), body, after, false, s) == Translate(body, Emit(s, IfFalse(Named(a), after)).1)
  {
    assert JumpsInLoops(Name(a), true);
    assert Translate(Name(a), s) == Outcome(Ok(Named(a)), s);
  }

  /** The outcome of `outer: while (a) while (b) break outer;`. */
  lemma {:induction false} LabelledBreakOutcome(a: string, b: string, s: TState)
    ensures JumpsInLoops(While(None, Name(b), Break(Some("outer"))), true)
    ensures TranslateLoop(Some("outer"), Name(a), While(None, Name(b), Break(Some("outer"))), false, s)
      == Outcome(Ok(NoValue), LabelledBreakState(a, b, s))
  {
    var inner := While(None, Name(b), Break(Some("outer")));
    OuterTestOutcome(a, b, s);
    LoopOfTest(Some("outer"), Name(a), inner, false, s);
  }

  /** The outer test of `outer: while (a) while (b) break outer;`: its `IfFalse`, then the whole inner loop. */
  lemma {:induction false} OuterTestOutcome(a: string, b: string, s: TState)
    ensures JumpsInLoops(While(None, Name(b), Break(Some("outer"))), true)
    ensures LoopTest(Name(a), While(None, Name(b), Break(Some("outer"))), Label(s.nextLabel + 1, None), false, LoopEntry(Some("outer"), s))
      == Outcome(Ok(NoValue), InnerLoopState(a, b, s))
  {
    var k := s.nextLabel;
    var inner := While(None, Name(b), Break(Some("outer")));
    var s4 := LoopEntry(Some("outer"), s);
    var s5 := Emit(s4, IfFalse(Named(a), Label(k + 1, None))).1;
    assert s5.scopes[0] == LoopInfo("outer", Label(k, None), Label(k + 1, None));
    assert BreakTarget(s5.scopes, "outer") == Ok(Label(k + 1, None));
    var t5 := Emit(LoopEntry(None, s5), IfFalse(Named(b), Label(k + 3, None))).1;
    var w := LoopExit(Emit(t5, GoTo(Label(k + 1, None))).1, Label(k + 2, None), Label(k + 3, None));
    assert w == InnerLoopState(a, b, s);
    BreakingWhile(b, "outer", s5);
    assert Translate(inner, s5) == Outcome(Ok(NoValue), w);
    TestOfName(a, inner, Label(k + 1, None), s4);
  }

  /**
   * `outer: while (a) while (b) break outer;`: the `break` jumps to the
   * outer loop's `after` label, which is attached behind the outer loop's
   * last record; each loop ends with the jump back to its own `start`.
   */
  lemma {:induction false} LabelledBreakLeavesOuterLoop(a: string, b: string, s: TState)
    ensures Fits(While(Some("outer"), Name(a), While(None, Name(b), Break(Some("outer")))), s)
    ensures var o := Translate(While(Some("outer"), Name(a), While(None, Name(b), Break(Some("outer")))), s);
      var n, k := |s.reg.records|, s.nextLabel;
      var start, after, innerStart, innerAfter := Label(k, None), Label(k + 1, None), Label(k + 2, None), Label(k + 3, None);
      && o.result == Ok(NoValue)
      && o.st.reg.records == s.reg.records
           + [IfFalse(Named(a), after), IfFalse(Named(b), innerAfter), GoTo(after), GoTo(innerStart), GoTo(start)]
      && o.st.reg.labels == s.reg.labels[n - 1 := start][n := innerStart][n + 3 := innerAfter][n + 4 := after]
      && o.st.scopes == s.scopes
  {
    var inner := While(None, Name(b), Break(Some("outer")));
    assert JumpsInLoops(Name(a), true);
    LabelledBreakOutcome(a, b, s);
    assert Translate(While(Some("outer"), Name(a), inner), s) == TranslateLoop(Some("outer"), Name(a), inner, false, s);
    LabelledBreakStateFields(a, b, s);
  }

  lemma LabelledBreakStateFields(a: string, b: string, s: TState)
    ensures var t, n, k := LabelledBreakState(a, b, s), |s.reg.records|, s.nextLabel;
      var start, after, innerStart, innerAfter := Label(k, None), Label(k + 1, None), Label(k + 2, None), Label(k + 3, None);
      && t.reg.records == s.reg.records
           + [IfFalse(Named(a), after), IfFalse(Named(b), innerAfter), GoTo(after), GoTo(innerStart), GoTo(start)]
      && t.reg.labels == s.reg.labels[n - 1 := start][n := innerStart][n + 3 := innerAfter][n + 4 := after]
      && t.scopes == s.scopes
  {
  }

  /** The outcome of `while (a) break name;` when no enclosing loop is called `name`. */
  lemma {:induction false} UnknownLabelOutcome(a: string, name: string, s: TState)
    requires name != UNNAMED && forall j :: 0 <= j < |s.scopes| ==> s.scopes[j].name != name
    ensures TranslateLoop(None, Name(a), Break(Some(name)), false, s)
      == Outcome(Err(name), Emit(LoopEntry(None, s), IfFalse(Named(a), Label(s.nextLabel + 1, None))).1)
  {
    var after := Label(s.nextLabel + 1, None);
    var t4 := LoopEntry(None, s);
    var t5 := Emit(t4, IfFalse(Named(a), after)).1;
    assert FindLoop(t5.scopes, name).None?;
    assert Translate(Break(Some(name)), t5) == Outcome(Err(name), t5);
    TestOfName(a, Break(Some(name)), after, t4);
  }

  /**
   * `while (a) break name;` where no enclosing loop is called `name`: the
   * translation fails with `name` after the test was emitted, and the loop
   * it was inside is still on the stack.
   */
  lemma {:induction false} UnknownLabelAborts(a: string, name: string, s: TState)
    requires name != UNNAMED && forall j :: 0 <= j < |s.scopes| ==> s.scopes[j].name != name
    ensures Fits(While(None, Name(a), Break(Some(name))), s)
    ensures var o := Translate(While(None, Name(a), Break(Some(name))), s);
      var n, k := |s.reg.records|, s.nextLabel;
      && o.result == Err(name)
      && o.st.reg.records == s.reg.records + [IfFalse(Named(a), Label(k + 1, None))]
      && o.st.reg.labels == s.reg.labels[n - 1 := Label(k, None)]
      && o.st.scopes == [LoopInfo(UNNAMED, Label(k, None), Label(k + 1, None))] + s.scopes
  {
    assert JumpsInLoops(Name(a), true) && JumpsInLoops(Break(Some(name)), true);
    UnknownLabelOutcome(a, name, s);
    assert Translate(While(None, Name(a), Break(Some(name))), s) == TranslateLoop(None, Name(a), Break(Some(name)), false, s);
    LoopEntryFields(None, s);
  }

  /** The test of a loop: the loop is pushed and `start` attached behind the last record. */
  lemma LoopEntryFields(stmtLabel: Option<string>, s: TState)
    ensures var t, n, k := LoopEntry(stmtLabel, s), |s.reg.records|, s.nextLabel;
      && t.reg.records == s.reg.records
      && t.reg.labels == s.reg.labels[n - 1 := Label(k, None)]
      && t.scopes == [LoopInfo(LoopName(stmtLabel), Label(k, None), Label(k + 1, None))] + s.scopes
      && t.nextLabel == k + 2
  {
  }



  lemma {:induction false} ForDispatch(stmtLabel: Option<string>, init: seq<Node>, compare: Option<Node>, update: seq<Node>,
                    body: Node, s: TState)
    requires Fits(For(stmtLabel, init, compare, update, body), s)
    ensures Translate(For(stmtLabel, init, compare, update, body), s) == TranslateFor(stmtLabel, init, compare, update, body, s)
  {
  }

  /** A `for` condition on a variable: one `IfFalse` to `after`. */
  lemma {:induction false} CompareOfName(c: string, after: Label, s: TState)
    ensures ForCompare(Some(Name(c)), after, s) == Outcome(Ok(NoValue), Emit(s, IfFalse(Named(c), after)).1)
  {
    assert JumpsInLoops(Name(c), |s.scopes| > 0);
    assert Translate(Name(c), s) == Outcome(Ok(Named(c)), s);
  }

  /** An unlabelled `continue`: one jump to the innermost loop's entry. */
  lemma {:induction false} ContinueInnermost(s: TState)
    requires |s.scopes| > 0
    ensures Translate(Continue(None), s) == Outcome(Ok(Reference(|s.reg.records|)), Emit(s, GoTo(s.scopes[0].entryPoint)).1)
  {
    assert Translate(Continue(None), s) == TranslateContinue(None, s);
  }

  /** An unlabelled `break`: one jump to the innermost loop's exit. */
  lemma {:induction false} BreakInnermost(s: TState)
    requires |s.scopes| > 0
    ensures Translate(Break(None), s) == Outcome(Ok(Reference(|s.reg.records|)), Emit(s, GoTo(s.scopes[0].exitPoint)).1)
  {
    assert Translate(Break(None), s) == TranslateBreak(None, s);
  }

  /** `i++` holds no jump. */
  lemma {:induction false} PostfixNoJumps(i: string, inLoop: bool)
    ensures AllJumpsInLoops([Unary(PostfixIncrement, Name(i))], inLoop)
  {
    var update := [Unary(PostfixIncrement, Name(i))];
    assert JumpsInLoops(Name(i), inLoop) && JumpsInLoops(update[0], inLoop) && AllJumpsInLoops(update[1..], inLoop);
  }

  /** `i++` is the postfix template on `Named(i)`. */
  lemma {:induction false} PostfixOfName(i: string, s: TState)
    ensures Fits(Unary(PostfixIncrement, Name(i)), s)
    ensures Translate(Unary(PostfixIncrement, Name(i)), s) == PostfixStep(Named(i), PLUS, s)
  {
    assert JumpsInLoops(Name(i), |s.scopes| > 0);
    assert Translate(Name(i), s) == Outcome(Ok(Named(i)), s);
  }

  /** An update list holding only `i++`. */
  lemma {:induction false} PostfixUpdate(i: string, s: TState)
    ensures AllJumpsInLoops([Unary(PostfixIncrement, Name(i))], |s.scopes| > 0)
    ensures TranslateAll([Unary(PostfixIncrement, Name(i))], s) == Outcome(Ok(NoValue), PostfixStep(Named(i), PLUS, s).st)
  {
    var update := [Unary(PostfixIncrement, Name(i))];
    PostfixNoJumps(i, |s.scopes| > 0);
    PostfixOfName(i, s);
    var ou := PostfixStep(Named(i), PLUS, s);
    assert update[1..] == [];
    assert TranslateAll(update[1..], ou.st) == Outcome(Ok(NoValue), ou.st);
  }

  /** The state `for (; c; i++) continue;` leaves. */
  function ForContinueState(c: string, i: string, s: TState): TState
  {
    var start, after := Label(s.nextLabel, None), Label(s.nextLabel + 1, None);
    var s6 := Emit(Emit(LoopEntry(None, s), IfFalse(Named(c), after)).1, GoTo(start)).1;
    LoopExit(PostfixStep(Named(i), PLUS, s6).st, start, after)
  }

  /** The outcome of `for (; c; i++) continue;`. */
  lemma {:induction false} ForContinueOutcome(c: string, i: string, s: TState)
    ensures Fits(For(None, [], Some(Name(c)), [Unary(PostfixIncrement, Name(i))], Continue(None)), s)
    ensures TranslateFor(None, [], Some(Name(c)), [Unary(PostfixIncrement, Name(i))], Continue(None), s)
      == Outcome(Ok(NoValue), ForContinueState(c, i, s))
  {
    var start, after := Label(s.nextLabel, None), Label(s.nextLabel + 1, None);
    var s4 := LoopEntry(None, s);
    var s5 := Emit(s4, IfFalse(Named(c), after)).1;
    assert JumpsInLoops(Name(c), true) && JumpsInLoops(Continue(None), true);
    assert AllJumpsInLoops([], |s.scopes| > 0);
    PostfixNoJumps(i, true);
    assert TranslateAll([], s) == Outcome(Ok(NoValue), s);
    CompareOfName(c, after, s4);
    ContinueInnermost(s5);
    PostfixUpdate(i, Emit(s5, GoTo(start)).1);
  }

  lemma ForContinueStateFields(c: string, i: string, s: TState)
    ensures var t, n, k := ForContinueState(c, i, s), |s.reg.records|, s.nextLabel;
      var start, after := Label(k, None), Label(k + 1, None);
      && t.reg.records == s.reg.records
           + [IfFalse(Named(c), after), GoTo(start), Copy(Named(i)), Apply(Named(i), PLUS, Const("1")), GoTo(start)]
      && t.reg.labels == s.reg.labels[n - 1 := start][n + 4 := after]
      && t.reg.varNames == s.reg.varNames[n + 3 := i]
  {
  }

  /**
   * `for (; c; i++) continue;`: the `continue` jumps to the label attached
   * before the condition, the same target as the loop's closing jump, so it
   * skips the update the loop appends after the body.
   */
  lemma {:induction false} ForContinueSkipsUpdate(c: string, i: string, s: TState)
    ensures Fits(For(None, [], Some(Name(c)), [Unary(PostfixIncrement, Name(i))], Continue(None)), s)
    ensures var o := Translate(For(None, [], Some(Name(c)), [Unary(PostfixIncrement, Name(i))], Continue(None)), s);
      var n, k := |s.reg.records|, s.nextLabel;
      var start, after := Label(k, None), Label(k + 1, None);
      && o.result == Ok(NoValue)
      && o.st.reg.records == s.reg.records
           + [IfFalse(Named(c), after), GoTo(start), Copy(Named(i)), Apply(Named(i), PLUS, Const("1")), GoTo(start)]
      && o.st.reg.labels == s.reg.labels[n - 1 := start][n + 4 := after]
      && o.st.reg.varNames == s.reg.varNames[n + 3 := i]
  {
    ForContinueOutcome(c, i, s);
    ForDispatch(None, [], Some(Name(c)), [Unary(PostfixIncrement, Name(i))], Continue(None), s);
    ForContinueStateFields(c, i, s);
  }
}
