/**
 * The method `test` of the repository's sample program, `int i = 3;` and
 * `int b = (3 - i * 7) / 5;`, translated from a new registry and rendered.
 */
module MethodScenario {
  import opened Wrappers
  import opened Tac
  import opened TacRegistry
  import opened Syntax
  import opened Translation

  /**
   * A local declaration statement `int x = e;`: the expression statement
   * and the declaration expression around its one declarator (the type
   * belongs to the declarator, whose visit never looks at it).
   */
  function Declaration(decl: Node): Node
  {
    Other("stmt", [Other("decl", [decl])])
  }

  /** A one-node sequence translates as its node, the value dropped. */
  lemma {:induction false} SingleChild(n: Node, s: TState)
    requires Fits(n, s) && Translate(n, s).result.Ok?
    ensures AllJumpsInLoops([n], |s.scopes| > 0)
    ensures TranslateAll([n], s) == Outcome(Ok(NoValue), Translate(n, s).st)
  {
    assert [n][1..] == [];
    assert AllJumpsInLoops([n][1..], |s.scopes| > 0);
    assert TranslateAll([n][1..], Translate(n, s).st) == Outcome(Ok(NoValue), Translate(n, s).st);
  }

  /** A node of no known kind with one child: the child's effect, and the node's text. */
  lemma {:induction false} WrapperOutcome(text: string, n: Node, s: TState)
    requires Fits(n, s) && Translate(n, s).result.Ok?
    ensures Fits(Other(text, [n]), s)
    ensures Translate(Other(text, [n]), s) == Outcome(Ok(Unknown(text)), Translate(n, s).st)
  {
    SingleChild(n, s);
  }

  /** A declaration statement translates exactly as its declarator. */
  lemma {:induction false} DeclarationOutcome(decl: Node, s: TState)
    requires Fits(decl, s) && Translate(decl, s).result.Ok?
    ensures Fits(Declaration(decl), s)
    ensures Translate(Declaration(decl), s) == Outcome(Ok(Unknown("stmt")), Translate(decl, s).st)
  {
    WrapperOutcome("decl", decl, s);
    WrapperOutcome("stmt", Other("decl", [decl]), s);
  }

  /** A binary expression whose operands translate to `vl` and then `vr`: one `Assign` of the two. */
  lemma {:induction false} BinaryOutcome(l: Node, op: string, r: Node, s: TState, vl: Value, sl: TState, vr: Value, sr: TState)
    requires Fits(l, s) && Fits(r, s)
    requires Translate(l, s) == Outcome(Ok(vl), sl) && sl.scopes == s.scopes
    requires Translate(r, sl) == Outcome(Ok(vr), sr)
    ensures Fits(Binary(l, op, r), s)
    ensures Translate(Binary(l, op, r), s) == Outcome(Ok(Reference(|sr.reg.records|)), Emit(sr, Apply(vl, GetByCode(op), vr)).1)
  {
  }

  /** `int i = 3;` */
  const DeclareI: Node := Declarator("i", Some(Literal("3")))

  /** `int b = (3 - i * 7) / 5;` */
  const DeclareB: Node :=
    Declarator("b", Some(Binary(Enclosed(Binary(Literal("3"), "-", Binary(Name("i"), "*", Literal("7")))), "/", Literal("5"))))

  /** A literal initializer is copied into a record bound to the declared name. */
  lemma {:induction false} DeclareIOutcome(s: TState)
    ensures Fits(DeclareI, s)
    ensures Translate(DeclareI, s)
      == Outcome(Ok(NoValue), Bind(Emit(s, Copy(Const("3"))).1, |s.reg.records|, "i"))
  {
    assert JumpsInLoops(Literal("3"), |s.scopes| > 0);
    assert Translate(Literal("3"), s) == Outcome(Ok(Const("3")), s);
  }

  /** `3 - i * 7`: the product, then the difference that refers to it. */
  lemma {:induction false} DifferenceOutcome(s: TState)
    ensures var n := |s.reg.records|;
      var d := Binary(Literal("3"), "-", Binary(Name("i"), "*", Literal("7")));
      var s1 := Emit(s, Apply(Named("i"), Op("*"), Const("7"))).1;
      && Fits(d, s)
      && Translate(d, s) == Outcome(Ok(Reference(n + 1)), Emit(s1, Apply(Const("3"), MINUS, Reference(n))).1)
  {
    var n := |s.reg.records|;
    var b := |s.scopes| > 0;
    var s1 := Emit(s, Apply(Named("i"), Op("*"), Const("7"))).1;
    assert JumpsInLoops(Name("i"), b) && JumpsInLoops(Literal("7"), b) && JumpsInLoops(Literal("3"), b);
    assert Translate(Name("i"), s) == Outcome(Ok(Named("i")), s);
    assert Translate(Literal("7"), s) == Outcome(Ok(Const("7")), s);
    assert Translate(Literal("3"), s) == Outcome(Ok(Const("3")), s);
    var m := Binary(Name("i"), "*", Literal("7"));
    BinaryOutcome(Name("i"), "*", Literal("7"), s, Named("i"), s, Const("7"), s);
    BinaryOutcome(Literal("3"), "-", m, s, Const("3"), s, Reference(n), s1);
  }

  /** `(3 - i * 7) / 5`: the parenthesised difference, then the quotient that refers to it. */
  lemma {:induction false} InitializerOutcome(s: TState)
    ensures var n := |s.reg.records|;
      var e := DeclareB.initializer.value;
      var s1 := Emit(s, Apply(Named("i"), Op("*"), Const("7"))).1;
      var s2 := Emit(s1, Apply(Const("3"), MINUS, Reference(n))).1;
      && Fits(e, s)
      && Translate(e, s) == Outcome(Ok(Reference(n + 2)), Emit(s2, Apply(Reference(n + 1), Op("/"), Const("5"))).1)
  {
    var n := |s.reg.records|;
    var b := |s.scopes| > 0;
    var s1 := Emit(s, Apply(Named("i"), Op("*"), Const("7"))).1;
    var s2 := Emit(s1, Apply(Const("3"), MINUS, Reference(n))).1;
    var d := Binary(Literal("3"), "-", Binary(Name("i"), "*", Literal("7")));
    DifferenceOutcome(s);
    assert JumpsInLoops(Enclosed(d), b) && JumpsInLoops(Literal("5"), b);
    assert Translate(Enclosed(d), s) == Outcome(Ok(Reference(n + 1)), s2);
    assert Translate(Literal("5"), s2) == Outcome(Ok(Const("5")), s2);
    BinaryOutcome(Enclosed(d), "/", Literal("5"), s, Reference(n + 1), s2, Const("5"), s2);
  }

  /** The initializer of `b`: `i * 7`, then `3 - _`, then `_ / 5`, the last bound to `b`. */
  lemma {:induction false} DeclareBOutcome(s: TState)
    ensures Fits(DeclareB, s)
    ensures var n := |s.reg.records|;
      var s1 := Emit(s, Apply(Named("i"), Op("*"), Const("7"))).1;
      var s2 := Emit(s1, Apply(Const("3"), MINUS, Reference(n))).1;
      var s3 := Emit(s2, Apply(Reference(n + 1), Op("/"), Const("5"))).1;
      Translate(DeclareB, s) == Outcome(Ok(NoValue), Bind(s3, n + 2, "b"))
  {
    var n := |s.reg.records|;
    var s1 := Emit(s, Apply(Named("i"), Op("*"), Const("7"))).1;
    var s2 := Emit(s1, Apply(Const("3"), MINUS, Reference(n))).1;
    var s3 := Emit(s2, Apply(Reference(n + 1), Op("/"), Const("5"))).1;
    InitializerOutcome(s);
    assert AsReference(Reference(n + 2), s3) == Outcome(Ok(Reference(n + 2)), s3);
  }

  /** The body block of `test`. */
  const TestBody: Node := Other("body", [Declaration(DeclareI), Declaration(DeclareB)])

  /** The method `test`. */
  const TestMethod: Node := Method("test", Some(TestBody))

  /** The state after `int b = ...;` when `int i = 3;` ran first, from `s`. */
  function BodyState(s: TState): TState
  {
    var n := |s.reg.records| + 1;
    var sI := Bind(Emit(s, Copy(Const("3"))).1, |s.reg.records|, "i");
    var s1 := Emit(sI, Apply(Named("i"), Op("*"), Const("7"))).1;
    var s2 := Emit(s1, Apply(Const("3"), MINUS, Reference(n))).1;
    var s3 := Emit(s2, Apply(Reference(n + 1), Op("/"), Const("5"))).1;
    Bind(s3, n + 2, "b")
  }

  /** The block translates its two statements in order. */
  lemma {:induction false} BodyOutcome(s: TState)
    ensures Fits(TestBody, s)
    ensures Translate(TestBody, s) == Outcome(Ok(Unknown("body")), BodyState(s))
  {
    var b := |s.scopes| > 0;
    var sI := Bind(Emit(s, Copy(Const("3"))).1, |s.reg.records|, "i");
    DeclareIOutcome(s);
    DeclarationOutcome(DeclareI, s);
    DeclareBOutcome(sI);
    DeclarationOutcome(DeclareB, sI);
    SingleChild(Declaration(DeclareB), sI);
    var stmts := [Declaration(DeclareI), Declaration(DeclareB)];
    assert stmts[1..] == [Declaration(DeclareB)];
    assert AllJumpsInLoops(stmts, b);
    assert TranslateAll(stmts, s) == Outcome(Ok(NoValue), BodyState(s));
  }

  /** The label of the method. */
  const TestLabel: Label := Label(0, Some("_method_test"))

  /** The registry the method leaves: six records, two bindings, one label before the first record. */
  const TestRegistry: RegState :=
    RegState(
      [ BeginFunc,
        Copy(Const("3")),
        Apply(Named("i"), Op("*"), Const("7")),
        Apply(Const("3"), MINUS, Reference(2)),
        Apply(Reference(3), Op("/"), Const("5")),
        EndFunc ],
      map[1 := "i", 4 := "b"],
      map[-1 := TestLabel],
      map[TestLabel := "_method_test"],
      0, 0)

  /** Translated from a new registry, `test` is framed by its label, `BeginFunc` and `EndFunc`. */
  lemma TestMethodRecords()
    ensures Fits(TestMethod, Initial)
    ensures Translate(TestMethod, Initial) == Outcome(Ok(NoValue), TState(TestRegistry, [], 1))
  {
    assert "_method_" + "test" == "_method_test";
    var s3 := Emit(Attach(CreateNamedLabel(Initial, "_method_test").1, TestLabel), BeginFunc).1;
    BodyOutcome(s3);
    var t := Emit(BodyState(s3), EndFunc).1;
    assert JumpsInLoops(TestBody, false);
    assert TranslateMethod("test", Some(TestBody), Initial) == Outcome(Ok(NoValue), t);
    assert Translate(TestMethod, Initial) == Outcome(Ok(NoValue), t);
    assert t.reg.records == TestRegistry.records;
  }
}
