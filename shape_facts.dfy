/**
 * The instruction templates seen from outside: what a loop, a method and a
 * labelled jump leave at the end of the registry, whatever their
 * sub-trees emit in between.
 */
module ShapeFacts {
  import opened Wrappers
  import opened Tac
  import opened TacRegistry
  import opened TacContext
  import opened Syntax
  import opened Translation
  import opened TranslationFacts

  /** The last record of a registry that has one. */
  function LastRecord(r: RegState): Stmt
    requires |r.records| > 0
  {
    r.records[|r.records| - 1]
  }

  /** The state a loop's test starts in: both labels created, the loop pushed, `start` attached. */
  function LoopEntry(stmtLabel: Option<string>, s: TState): TState
  {
    var start, after := Label(s.nextLabel, None), Label(s.nextLabel + 1, None);
    Attach(EnterLoop(CreateLabel(CreateLabel(s).1).1, start, after, stmtLabel), start)
  }

  /** The end of a loop: `GoTo(start)`, attach `after`, pop the loop. */
  function LoopExit(s: TState, start: Label, after: Label): TState
    requires |s.scopes| > 0
  {
    ExitLoop(Attach(Emit(s, GoTo(start)).1, after))
  }

  /** A loop is its test between `LoopEntry` and `LoopExit`. */
  lemma {:induction false} LoopOfTest(stmtLabel: Option<string>, cond: Node, body: Node, isReverse: bool, s: TState)
    requires JumpsInLoops(cond, true) && JumpsInLoops(body, true)
    ensures var start, after := Label(s.nextLabel, None), Label(s.nextLabel + 1, None);
      var o5 := LoopTest(cond, body, after, isReverse, LoopEntry(stmtLabel, s));
      TranslateLoop(stmtLabel, cond, body, isReverse, s)
        == if o5.result.Err? then o5 else Outcome(Ok(NoValue), LoopExit(o5.st, start, after))
  {
  }

  /**
   * The loop tail: after `GoTo(start)` and the attachment of `after`, the
   * last record is that jump, `after` is the label of its position, the
   * name `start` was given is kept, and the loop is popped.
   */
  lemma LoopEndShape(s4: TState, o5: Outcome, startLabel: Label, afterLabel: Label)
    requires Extends(s4, o5.st) && o5.result.Ok? && |o5.st.scopes| > 0
    requires startLabel in s4.reg.labelNames && startLabel.id < s4.nextLabel && startLabel != afterLabel
    ensures var s7 := Attach(Emit(o5.st, GoTo(startLabel)).1, afterLabel);
      var r := s7.reg;
      && |r.records| == |o5.st.reg.records| + 1
      && LastRecord(r) == GoTo(startLabel)
      && |r.records| - 1 in r.labels && r.labels[|r.records| - 1] == afterLabel
      && startLabel in r.labelNames && r.labelNames[startLabel] == s4.reg.labelNames[startLabel]
      && ExitLoop(s7).scopes == o5.st.scopes[1..]
  {
  }

  /**
   * A `while` (isReverse false) or `do` (isReverse true) that succeeds
   * appends its records after the existing ones, ends with `GoTo(start)`
   * followed by the attachment of `after`, names `start` with the first
   * anonymous label number it uses (it is attached before the condition and
   * the body), and leaves the loop stack as it found it.
   */
  lemma {:induction false} LoopShape(stmtLabel: Option<string>, cond: Node, body: Node, isReverse: bool, s: TState)
    requires JumpsInLoops(cond, true) && JumpsInLoops(body, true)
    ensures var o := TranslateLoop(stmtLabel, cond, body, isReverse, s);
      var startLabel, afterLabel := Label(s.nextLabel, None), Label(s.nextLabel + 1, None);
      var r := o.st.reg;
      o.result.Ok? ==>
        && o.result.value == NoValue
        && |s.reg.records| < |r.records|
        && r.records[..|s.reg.records|] == s.reg.records
        && LastRecord(r) == GoTo(startLabel)
        && |r.records| - 1 in r.labels && r.labels[|r.records| - 1] == afterLabel
        && startLabel in r.labelNames && r.labelNames[startLabel] == AnonLabelName(s.reg.labelCounter)
        && o.st.scopes == s.scopes
    ensures LoopEntry(stmtLabel, s).reg.labels == s.reg.labels[|s.reg.records| - 1 := Label(s.nextLabel, None)]
  {
    var (startLabel, s1) := CreateLabel(s);
    var (afterLabel, s2) := CreateLabel(s1);
    var s3 := EnterLoop(s2, startLabel, afterLabel, stmtLabel);
    var s4 := Attach(s3, startLabel);
    LoopEntryFacts(stmtLabel, s);
    var o5 := LoopTest(cond, body, afterLabel, isReverse, s4);
    LoopTestSound(cond, body, afterLabel, isReverse, s4);
    if o5.result.Ok? {
      LoopEndShape(s4, o5, startLabel, afterLabel);
      var s7 := Attach(Emit(o5.st, GoTo(startLabel)).1, afterLabel);
      ExtendsTrans(s, s4, o5.st);
    }
  }

  /** Entering a loop appends nothing, keys `start` at the last position and pushes the loop. */
  lemma LoopEntryFacts(stmtLabel: Option<string>, s: TState)
    ensures var startLabel, afterLabel := Label(s.nextLabel, None), Label(s.nextLabel + 1, None);
      var s4 := LoopEntry(stmtLabel, s);
      && s4.reg.records == s.reg.records
      && s4.reg.labels == s.reg.labels[|s.reg.records| - 1 := startLabel]
      && s4.scopes == [LoopInfo(LoopName(stmtLabel), startLabel, afterLabel)] + s.scopes
  {
  }

  /** Leaving a loop appends `GoTo(start)`, keys `after` at it and pops the loop. */
  lemma LoopExitFacts(t: TState, startLabel: Label, afterLabel: Label)
    requires |t.scopes| > 0
    ensures var u := LoopExit(t, startLabel, afterLabel);
      && u.reg.records == t.reg.records + [GoTo(startLabel)]
      && u.reg.labels == t.reg.labels[|t.reg.records| := afterLabel]
      && u.scopes == t.scopes[1..]
  {
  }

  /** The test of a `while`: the condition, `IfFalse(c, after)`, then the body. */
  lemma {:induction false} WhileTestShape(cond: Node, body: Node, afterLabel: Label, t: TState)
    requires JumpsInLoops(cond, true) && JumpsInLoops(body, true) && |t.scopes| > 0
    ensures var o5 := LoopTest(cond, body, afterLabel, false, t);
      var oc := Translate(cond, t);
      && (oc.result.Err? ==> o5 == oc)
      && (oc.result.Ok? ==>
            var nc := |oc.st.reg.records|;
            var ob := Translate(body, Emit(oc.st, IfFalse(oc.result.value, afterLabel)).1);
            && o5 == ob
            && |t.reg.records| <= nc && oc.st.reg.records[..|t.reg.records|] == t.reg.records
            && (ob.result.Ok? ==>
                  && nc < |ob.st.reg.records|
                  && ob.st.reg.records == oc.st.reg.records + [IfFalse(oc.result.value, afterLabel)]
                       + ob.st.reg.records[nc + 1..]))
  {
    var oc := Translate(cond, t);
    TranslateAppends(cond, t);
    if oc.result.Ok? {
      var nc := |oc.st.reg.records|;
      var s5 := Emit(oc.st, IfFalse(oc.result.value, afterLabel)).1;
      var ob := Translate(body, s5);
      assert LoopTest(cond, body, afterLabel, false, t) == ob;
      TranslateAppends(body, s5);
      if ob.result.Ok? {
        var b := ob.st.reg.records;
        assert b == b[..nc + 1] + b[nc + 1..];
        assert b[..nc + 1] == s5.reg.records;
      }
    }
  }

  /** The test of a `do`: the body, the condition, then `IfFalse(c, after)`. */
  lemma {:induction false} DoTestShape(cond: Node, body: Node, afterLabel: Label, t: TState)
    requires JumpsInLoops(cond, true) && JumpsInLoops(body, true) && |t.scopes| > 0
    ensures var o5 := LoopTest(cond, body, afterLabel, true, t);
      var ob := Translate(body, t);
      && (ob.result.Err? ==> o5 == ob)
      && (ob.result.Ok? ==>
            var nb := |ob.st.reg.records|;
            var oc := Translate(cond, ob.st);
            && |t.reg.records| <= nb && ob.st.reg.records[..|t.reg.records|] == t.reg.records
            && (oc.result.Err? ==> o5 == oc)
            && (oc.result.Ok? ==>
                  && nb <= |oc.st.reg.records|
                  && o5.result == Ok(NoValue)
                  && o5.st == Emit(oc.st, IfFalse(oc.result.value, afterLabel)).1
                  && o5.st.reg.records == ob.st.reg.records + oc.st.reg.records[nb..]
                       + [IfFalse(oc.result.value, afterLabel)]))
  {
    var ob := Translate(body, t);
    TranslateAppends(body, t);
    if ob.result.Ok? {
      var nb := |ob.st.reg.records|;
      var oc := Translate(cond, ob.st);
      TranslateAppends(cond, ob.st);
      if oc.result.Ok? {
        assert LoopTest(cond, body, afterLabel, true, t)
          == Outcome(Ok(NoValue), Emit(oc.st, IfFalse(oc.result.value, afterLabel)).1);
        var c := oc.st.reg.records;
        assert c == c[..nb] + c[nb..];
      }
    }
  }

  /**
   * `while (c) b`: `start` is keyed at the last position before the loop
   * and the loop pushed; then come the condition's records,
   * `IfFalse(c, after)`, the body's records and `GoTo(start)`, and `after`
   * is keyed at that jump.  A failing condition or body is the outcome.
   */
  lemma {:induction false} WhileShape(stmtLabel: Option<string>, cond: Node, body: Node, s: TState)
    requires JumpsInLoops(cond, true) && JumpsInLoops(body, true)
    ensures var startLabel, afterLabel := Label(s.nextLabel, None), Label(s.nextLabel + 1, None);
      var s4 := LoopEntry(stmtLabel, s);
      var o := Translate(While(stmtLabel, cond, body), s);
      var oc := Translate(cond, s4);
      && s4.reg.records == s.reg.records
      && s4.reg.labels == s.reg.labels[|s.reg.records| - 1 := startLabel]
      && s4.scopes == [LoopInfo(LoopName(stmtLabel), startLabel, afterLabel)] + s.scopes
      && (oc.result.Err? ==> o == oc)
      && (oc.result.Ok? ==>
            var nc := |oc.st.reg.records|;
            var ob := Translate(body, Emit(oc.st, IfFalse(oc.result.value, afterLabel)).1);
            && |s.reg.records| <= nc && oc.st.reg.records[..|s.reg.records|] == s.reg.records
            && (ob.result.Err? ==> o == ob)
            && (ob.result.Ok? ==>
                  var r := o.st.reg;
                  && nc < |ob.st.reg.records|
                  && o.result == Ok(NoValue)
                  && r.records == oc.st.reg.records + [IfFalse(oc.result.value, afterLabel)]
                       + ob.st.reg.records[nc + 1..] + [GoTo(startLabel)]
                  && r.labels == ob.st.reg.labels[|r.records| - 1 := afterLabel]
                  && o.st.scopes == s.scopes))
  {
    var startLabel, afterLabel := Label(s.nextLabel, None), Label(s.nextLabel + 1, None);
    var s4 := LoopEntry(stmtLabel, s);
    assert Translate(While(stmtLabel, cond, body), s) == TranslateLoop(stmtLabel, cond, body, false, s);
    LoopOfTest(stmtLabel, cond, body, false, s);
    LoopEntryFacts(stmtLabel, s);
    WhileTestShape(cond, body, afterLabel, s4);
    var o5 := LoopTest(cond, body, afterLabel, false, s4);
    if o5.result.Ok? {
      LoopExitFacts(o5.st, startLabel, afterLabel);
    }
  }

  /**
   * `do b while (c)`: `start` is keyed and the loop pushed as for `while`;
   * then come the body's records, the condition's records,
   * `IfFalse(c, after)` and `GoTo(start)`, and `after` is keyed at that
   * jump.  The body is translated before the condition.
   */
  lemma {:induction false} DoShape(stmtLabel: Option<string>, cond: Node, body: Node, s: TState)
    requires JumpsInLoops(cond, true) && JumpsInLoops(body, true)
    ensures var startLabel, afterLabel := Label(s.nextLabel, None), Label(s.nextLabel + 1, None);
      var s4 := LoopEntry(stmtLabel, s);
      var o := Translate(Do(stmtLabel, body, cond), s);
      var ob := Translate(body, s4);
      && s4.reg.records == s.reg.records
      && s4.reg.labels == s.reg.labels[|s.reg.records| - 1 := startLabel]
      && s4.scopes == [LoopInfo(LoopName(stmtLabel), startLabel, afterLabel)] + s.scopes
      && (ob.result.Err? ==> o == ob)
      && (ob.result.Ok? ==>
            var nb := |ob.st.reg.records|;
            var oc := Translate(cond, ob.st);
            && |s.reg.records| <= nb && ob.st.reg.records[..|s.reg.records|] == s.reg.records
            && (oc.result.Err? ==> o == oc)
            && (oc.result.Ok? ==>
                  var r := o.st.reg;
                  && nb <= |oc.st.reg.records|
                  && o.result == Ok(NoValue)
                  && r.records == ob.st.reg.records + oc.st.reg.records[nb..]
                       + [IfFalse(oc.result.value, afterLabel), GoTo(startLabel)]
                  && r.labels == oc.st.reg.labels[|r.records| - 1 := afterLabel]
                  && o.st.scopes == s.scopes))
  {
    var startLabel, afterLabel := Label(s.nextLabel, None), Label(s.nextLabel + 1, None);
    var s4 := LoopEntry(stmtLabel, s);
    assert Translate(Do(stmtLabel, body, cond), s) == TranslateLoop(stmtLabel, cond, body, true, s);
    LoopOfTest(stmtLabel, cond, body, true, s);
    LoopEntryFacts(stmtLabel, s);
    DoTestShape(cond, body, afterLabel, s4);
    var o5 := LoopTest(cond, body, afterLabel, true, s4);
    if o5.result.Ok? {
      LoopExitFacts(o5.st, startLabel, afterLabel);
    }
  }

  /**
   * `if (c) t else e`: `else` and `after` are the next two anonymous
   * labels.  The condition is translated first, from the state with both
   * labels taken; a failing condition is the outcome, and otherwise its
   * records are followed by what `IfElseRest` appends (see `ThenElseShape`).
   */
  lemma {:induction false} IfElseShape(cond: Node, thenStmt: Node, elseStmt: Node, s: TState)
    requires Fits(If(cond, thenStmt, Some(elseStmt)), s)
    ensures var elseLabel, afterLabel := Label(s.nextLabel, None), Label(s.nextLabel + 1, None);
      var o := Translate(If(cond, thenStmt, Some(elseStmt)), s);
      var oc := Translate(cond, s.(nextLabel := s.nextLabel + 2));
      && (oc.result.Err? ==> o == oc)
      && (oc.result.Ok? ==>
            && |s.reg.records| <= |oc.st.reg.records| && oc.st.reg.records[..|s.reg.records|] == s.reg.records
            && o == IfElseRest(oc.st, oc.result.value, thenStmt, elseStmt, elseLabel, afterLabel))
  {
    IfElseSteps(cond, thenStmt, elseStmt, s);
    TranslateAppends(cond, s.(nextLabel := s.nextLabel + 2));
  }

  /** The `if`-`else` visit as its steps, with the two labels taken. */
  lemma {:induction false} IfElseSteps(cond: Node, thenStmt: Node, elseStmt: Node, s: TState)
    requires Fits(If(cond, thenStmt, Some(elseStmt)), s)
    ensures var elseLabel, afterLabel := Label(s.nextLabel, None), Label(s.nextLabel + 1, None);
      var oc := Translate(cond, s.(nextLabel := s.nextLabel + 2));
      Translate(If(cond, thenStmt, Some(elseStmt)), s)
        == if oc.result.Err? then oc else IfElseRest(oc.st, oc.result.value, thenStmt, elseStmt, elseLabel, afterLabel)
  {
    assert CreateLabel(CreateLabel(s).1).1 == s.(nextLabel := s.nextLabel + 2);
  }

  /** The `if`-`else` visit after its condition, which left `t` and the value `v`. */
  function IfElseRest(t: TState, v: Value, thenStmt: Node, elseStmt: Node, elseLabel: Label, afterLabel: Label): Outcome
    requires Fits(thenStmt, t) && Fits(elseStmt, t)
  {
    var ot := Translate(thenStmt, Emit(t, IfFalse(v, elseLabel)).1);
    if ot.result.Err? then ot
    else
      var oe := Translate(elseStmt, Attach(Emit(ot.st, GoTo(afterLabel)).1, elseLabel));
      if oe.result.Err? then oe else Outcome(Ok(NoValue), Attach(oe.st, afterLabel))
  }

  /**
   * After the condition of an `if`-`else`, which left `t` and the value `v`:
   * `IfFalse(v, else)`, the then branch, `GoTo(after)` and the else branch
   * are appended in that order.  `else` is keyed at the `GoTo`'s position
   * before the else branch is translated, and `after` at the last position
   * at the end.  A failing branch is the outcome.
   */
  lemma {:induction false} ThenElseShape(t: TState, v: Value, thenStmt: Node, elseStmt: Node, elseLabel: Label, afterLabel: Label)
    requires Fits(thenStmt, t) && Fits(elseStmt, t)
    ensures var o := IfElseRest(t, v, thenStmt, elseStmt, elseLabel, afterLabel);
      var nc := |t.reg.records|;
      var ot := Translate(thenStmt, Emit(t, IfFalse(v, elseLabel)).1);
      && (ot.result.Err? ==> o == ot)
      && (ot.result.Ok? ==>
            var nt := |ot.st.reg.records|;
            var s5 := Attach(Emit(ot.st, GoTo(afterLabel)).1, elseLabel);
            var oe := Translate(elseStmt, s5);
            && nc < nt
            && s5.reg.labels == ot.st.reg.labels[nt := elseLabel]
            && (oe.result.Err? ==> o == oe)
            && (oe.result.Ok? ==>
                  var r := o.st.reg;
                  && nt < |oe.st.reg.records|
                  && o.result == Ok(NoValue)
                  && r.records == t.reg.records + [IfFalse(v, elseLabel)]
                       + ot.st.reg.records[nc + 1..] + [GoTo(afterLabel)] + oe.st.reg.records[nt + 1..]
                  && r.labels == oe.st.reg.labels[|r.records| - 1 := afterLabel]
                  && o.st.scopes == t.scopes))
  {
    var nc := |t.reg.records|;
    var s3 := Emit(t, IfFalse(v, elseLabel)).1;
    var ot := Translate(thenStmt, s3);
    TranslateAppends(thenStmt, s3);
    if ot.result.Ok? {
      ElseTailShape(ot.st, elseStmt, elseLabel, afterLabel);
      var r := ot.st.reg.records;
      assert r == t.reg.records + [IfFalse(v, elseLabel)] + r[nc + 1..] by {
        assert r == r[..nc + 1] + r[nc + 1..];
      }
    }
  }

  /** The part of `if`-`else` after the then branch, from the state `t` it left. */
  lemma {:induction false} ElseTailShape(t: TState, elseStmt: Node, elseLabel: Label, afterLabel: Label)
    requires Fits(elseStmt, t)
    ensures var nt := |t.reg.records|;
      var s5 := Attach(Emit(t, GoTo(afterLabel)).1, elseLabel);
      var oe := Translate(elseStmt, s5);
      && s5.reg.labels == t.reg.labels[nt := elseLabel]
      && (oe.result.Ok? ==>
            var r := Attach(oe.st, afterLabel).reg;
            && nt < |oe.st.reg.records|
            && r.records == t.reg.records + [GoTo(afterLabel)] + oe.st.reg.records[nt + 1..]
            && r.labels == oe.st.reg.labels[|r.records| - 1 := afterLabel])
  {
    var nt := |t.reg.records|;
    var s5 := Attach(Emit(t, GoTo(afterLabel)).1, elseLabel);
    TranslateAppends(elseStmt, s5);
    var e := Translate(elseStmt, s5).st.reg.records;
    assert e == e[..nt + 1] + e[nt + 1..];
  }

  /**
   * `if (c) t` without `else`: `after` is the next anonymous label; the
   * condition's records, `IfFalse(c, after)`, then the branch, and `after`
   * is keyed at the last position.  A failing part is the outcome.
   */
  lemma {:induction false} IfShape(cond: Node, thenStmt: Node, s: TState)
    requires Fits(If(cond, thenStmt, None), s)
    ensures var afterLabel := Label(s.nextLabel, None);
      var o := Translate(If(cond, thenStmt, None), s);
      var oc := Translate(cond, s.(nextLabel := s.nextLabel + 1));
      && (oc.result.Err? ==> o == oc)
      && (oc.result.Ok? ==>
            var nc := |oc.st.reg.records|;
            var ot := Translate(thenStmt, Emit(oc.st, IfFalse(oc.result.value, afterLabel)).1);
            && |s.reg.records| <= nc && oc.st.reg.records[..|s.reg.records|] == s.reg.records
            && (ot.result.Err? ==> o == ot)
            && (ot.result.Ok? ==>
                  var r := o.st.reg;
                  && nc < |ot.st.reg.records|
                  && o.result == Ok(NoValue)
                  && r.records == oc.st.reg.records + [IfFalse(oc.result.value, afterLabel)] + ot.st.reg.records[nc + 1..]
                  && r.labels == ot.st.reg.labels[|r.records| - 1 := afterLabel]
                  && o.st.scopes == s.scopes))
  {
    var afterLabel := Label(s.nextLabel, None);
    var o := Translate(If(cond, thenStmt, None), s);
    assert o == TranslateIf(cond, thenStmt, None, s);
    var s1 := s.(nextLabel := s.nextLabel + 1);
    assert CreateLabel(s).1 == s1;
    var oc := Translate(cond, s1);
    TranslateAppends(cond, s1);
    if oc.result.Ok? {
      var nc := |oc.st.reg.records|;
      var s2 := Emit(oc.st, IfFalse(oc.result.value, afterLabel)).1;
      var ot := Translate(thenStmt, s2);
      TranslateAppends(thenStmt, s2);
      if ot.result.Ok? {
        var t := ot.st.reg.records;
        assert t == t[..nc + 1] + t[nc + 1..];
        assert t[..nc + 1] == s2.reg.records;
        assert o == Outcome(Ok(NoValue), Attach(ot.st, afterLabel));
      }
    }
  }

  /** A loop tail: the last record jumps to `Label(id, None)`, which has a name, and `Label(id + 1, None)` is attached after it. */
  predicate LoopTail(r: RegState, id: nat)
  {
    && |r.records| > 0
    && LastRecord(r) == GoTo(Label(id, None))
    && Label(id, None) in r.labelNames
    && |r.records| - 1 in r.labels && r.labels[|r.records| - 1] == Label(id + 1, None)
  }

  /**
   * A `for` that succeeds ends the same way: `GoTo(start)` as its last
   * record, `after` attached after it, both labels created by the loop
   * itself (after its initialization), and the loop stack as it found it.
   * In full: the initializers' records after the old ones; `start` keyed
   * at the last position before the loop and the loop pushed; the
   * condition with its `IfFalse(c, after)`; the body; the updates;
   * `GoTo(start)` with `after` keyed at it.  Each failing part is the
   * outcome.
   */
  lemma {:induction false} ForShape(stmtLabel: Option<string>, init: seq<Node>, compare: Option<Node>, update: seq<Node>,
                 body: Node, s: TState)
    requires Fits(For(stmtLabel, init, compare, update, body), s)
    ensures var o := TranslateFor(stmtLabel, init, compare, update, body, s);
      o.result.Ok? ==>
        && o.result.value == NoValue
        && |s.reg.records| < |o.st.reg.records|
        && o.st.reg.records[..|s.reg.records|] == s.reg.records
        && (exists id :: s.nextLabel <= id && LoopTail(o.st.reg, id))
        && o.st.scopes == s.scopes
    ensures var o := TranslateFor(stmtLabel, init, compare, update, body, s);
      var oi := TranslateAll(init, s);
      && |s.reg.records| <= |oi.st.reg.records| && oi.st.reg.records[..|s.reg.records|] == s.reg.records
      && (oi.result.Err? ==> o == oi)
      && (oi.result.Ok? ==>
            var startLabel, afterLabel := Label(oi.st.nextLabel, None), Label(oi.st.nextLabel + 1, None);
            var s4 := LoopEntry(stmtLabel, oi.st);
            var oc := ForCompare(compare, afterLabel, s4);
            && s4.reg.records == oi.st.reg.records
            && s4.reg.labels == oi.st.reg.labels[|oi.st.reg.records| - 1 := startLabel]
            && s4.scopes == [LoopInfo(LoopName(stmtLabel), startLabel, afterLabel)] + s.scopes
            && (oc.result.Err? ==> o == oc)
            && (oc.result.Ok? ==>
                  var ob := Translate(body, oc.st);
                  && |s4.reg.records| <= |oc.st.reg.records| && oc.st.reg.records[..|s4.reg.records|] == s4.reg.records
                  && |oc.st.reg.records| <= |ob.st.reg.records| && ob.st.reg.records[..|oc.st.reg.records|] == oc.st.reg.records
                  && (ob.result.Err? ==> o == ob)
                  && (ob.result.Ok? ==>
                        var ou := TranslateAll(update, ob.st);
                        && |ob.st.reg.records| <= |ou.st.reg.records| && ou.st.reg.records[..|ob.st.reg.records|] == ob.st.reg.records
                        && (ou.result.Err? ==> o == ou)
                        && (ou.result.Ok? ==>
                              && o.result == Ok(NoValue)
                              && o.st.reg.records == ou.st.reg.records + [GoTo(startLabel)]
                              && o.st.reg.labels == ou.st.reg.labels[|ou.st.reg.records| := afterLabel]
                              && o.st.scopes == s.scopes))))
  {
    ForEnds(stmtLabel, init, compare, update, body, s);
    ForOrder(stmtLabel, init, compare, update, body, s);
  }

  /** The end of a successful `for`, as `ForShape` states it. */
  lemma {:induction false} ForEnds(stmtLabel: Option<string>, init: seq<Node>, compare: Option<Node>, update: seq<Node>,
                 body: Node, s: TState)
    requires Fits(For(stmtLabel, init, compare, update, body), s)
    ensures var o := TranslateFor(stmtLabel, init, compare, update, body, s);
      o.result.Ok? ==>
        && o.result.value == NoValue
        && |s.reg.records| < |o.st.reg.records|
        && o.st.reg.records[..|s.reg.records|] == s.reg.records
        && (exists id :: s.nextLabel <= id && LoopTail(o.st.reg, id))
        && o.st.scopes == s.scopes
  {
    ForSound(stmtLabel, init, compare, update, body, s);
    var oi := TranslateAll(init, s);
    if oi.result.Ok? {
      AllSound(init, s);
      ForTail(stmtLabel, oi.st, compare, update, body);
    }
  }

  /** The order of a `for`'s parts, as `ForShape` states it. */
  lemma {:induction false} ForOrder(stmtLabel: Option<string>, init: seq<Node>, compare: Option<Node>, update: seq<Node>,
                 body: Node, s: TState)
    requires Fits(For(stmtLabel, init, compare, update, body), s)
    ensures var o := TranslateFor(stmtLabel, init, compare, update, body, s);
      var oi := TranslateAll(init, s);
      && |s.reg.records| <= |oi.st.reg.records| && oi.st.reg.records[..|s.reg.records|] == s.reg.records
      && (oi.result.Err? ==> o == oi)
      && (oi.result.Ok? ==>
            var startLabel, afterLabel := Label(oi.st.nextLabel, None), Label(oi.st.nextLabel + 1, None);
            var s4 := LoopEntry(stmtLabel, oi.st);
            var oc := ForCompare(compare, afterLabel, s4);
            && s4.reg.records == oi.st.reg.records
            && s4.reg.labels == oi.st.reg.labels[|oi.st.reg.records| - 1 := startLabel]
            && s4.scopes == [LoopInfo(LoopName(stmtLabel), startLabel, afterLabel)] + s.scopes
            && (oc.result.Err? ==> o == oc)
            && (oc.result.Ok? ==>
                  var ob := Translate(body, oc.st);
                  && |s4.reg.records| <= |oc.st.reg.records| && oc.st.reg.records[..|s4.reg.records|] == s4.reg.records
                  && |oc.st.reg.records| <= |ob.st.reg.records| && ob.st.reg.records[..|oc.st.reg.records|] == oc.st.reg.records
                  && (ob.result.Err? ==> o == ob)
                  && (ob.result.Ok? ==>
                        var ou := TranslateAll(update, ob.st);
                        && |ob.st.reg.records| <= |ou.st.reg.records| && ou.st.reg.records[..|ob.st.reg.records|] == ob.st.reg.records
                        && (ou.result.Err? ==> o == ou)
                        && (ou.result.Ok? ==>
                              && o.result == Ok(NoValue)
                              && o.st.reg.records == ou.st.reg.records + [GoTo(startLabel)]
                              && o.st.reg.labels == ou.st.reg.labels[|ou.st.reg.records| := afterLabel]
                              && o.st.scopes == s.scopes))))
  {
    var oi := TranslateAll(init, s);
    AllAppends(init, s);
    if oi.result.Ok? {
      ForSteps(stmtLabel, compare, update, body, oi.st);
      var startLabel, afterLabel := Label(oi.st.nextLabel, None), Label(oi.st.nextLabel + 1, None);
      var oc := ForCompare(compare, afterLabel, LoopEntry(stmtLabel, oi.st));
      if oc.result.Ok? {
        var ob := Translate(body, oc.st);
        if ob.result.Ok? {
          var ou := TranslateAll(update, ob.st);
          if ou.result.Ok? {
            assert TranslateFor(stmtLabel, init, compare, update, body, s)
              == Outcome(Ok(NoValue), LoopExit(ou.st, startLabel, afterLabel));
          }
        }
      }
    }
  }

  /** A `for` after its initializers: entry, condition, body, updates, exit. */
  lemma {:induction false} ForSteps(stmtLabel: Option<string>, compare: Option<Node>, update: seq<Node>, body: Node, t: TState)
    requires (compare.Some? ==> JumpsInLoops(compare.value, true)) && JumpsInLoops(body, true) && AllJumpsInLoops(update, true)
    ensures var startLabel, afterLabel := Label(t.nextLabel, None), Label(t.nextLabel + 1, None);
      var s4 := LoopEntry(stmtLabel, t);
      var oc := ForCompare(compare, afterLabel, s4);
      && s4.reg.records == t.reg.records
      && s4.reg.labels == t.reg.labels[|t.reg.records| - 1 := startLabel]
      && s4.scopes == [LoopInfo(LoopName(stmtLabel), startLabel, afterLabel)] + t.scopes
      && |s4.reg.records| <= |oc.st.reg.records| && oc.st.reg.records[..|s4.reg.records|] == s4.reg.records
      && (oc.result.Ok? ==>
            var ob := Translate(body, oc.st);
            && |oc.st.reg.records| <= |ob.st.reg.records| && ob.st.reg.records[..|oc.st.reg.records|] == oc.st.reg.records
            && (ob.result.Ok? ==>
                  var ou := TranslateAll(update, ob.st);
                  && |ob.st.reg.records| <= |ou.st.reg.records| && ou.st.reg.records[..|ob.st.reg.records|] == ob.st.reg.records
                  && (ou.result.Ok? ==>
                        var u := LoopExit(ou.st, startLabel, afterLabel);
                        && u.reg.records == ou.st.reg.records + [GoTo(startLabel)]
                        && u.reg.labels == ou.st.reg.labels[|ou.st.reg.records| := afterLabel]
                        && u.scopes == t.scopes)))
  {
    var startLabel, afterLabel := Label(t.nextLabel, None), Label(t.nextLabel + 1, None);
    var s4 := LoopEntry(stmtLabel, t);
    LoopEntryFacts(stmtLabel, t);
    var oc := ForCompare(compare, afterLabel, s4);
    ForCompareShape(compare, afterLabel, s4);
    if oc.result.Ok? {
      var ob := Translate(body, oc.st);
      TranslateAppends(body, oc.st);
      if ob.result.Ok? {
        var ou := TranslateAll(update, ob.st);
        AllAppends(update, ob.st);
        if ou.result.Ok? {
          LoopExitFacts(ou.st, startLabel, afterLabel);
        }
      }
    }
  }

  /**
   * The condition of a `for`: an absent one appends nothing; a present one
   * appends its own records and then `IfFalse(c, after)`, and a failing
   * one is the outcome.
   */
  lemma {:induction false} ForCompareShape(compare: Option<Node>, afterLabel: Label, t: TState)
    requires compare.Some? ==> Fits(compare.value, t)
    ensures var o := ForCompare(compare, afterLabel, t);
      && |t.reg.records| <= |o.st.reg.records| && o.st.reg.records[..|t.reg.records|] == t.reg.records
      && (compare.None? ==> o == Outcome(Ok(NoValue), t))
      && (compare.Some? ==>
            var oc := Translate(compare.value, t);
            && |t.reg.records| <= |oc.st.reg.records| && oc.st.reg.records[..|t.reg.records|] == t.reg.records
            && (oc.result.Err? ==> o == oc)
            && (oc.result.Ok? ==>
                  && o.result == Ok(NoValue)
                  && o.st.reg.records == oc.st.reg.records + [IfFalse(oc.result.value, afterLabel)]
                  && o.st.reg.labels == oc.st.reg.labels))
  {
    ForCompareSound(compare, afterLabel, t);
    if compare.Some? {
      TranslateAppends(compare.value, t);
    }
  }

  /** The part of a `for` after its initialization. */
  lemma {:induction false} ForTail(stmtLabel: Option<string>, s: TState, compare: Option<Node>, update: seq<Node>, body: Node)
    requires (compare.Some? ==> JumpsInLoops(compare.value, true)) && JumpsInLoops(body, true) && AllJumpsInLoops(update, true)
    ensures var (startLabel, s1) := CreateLabel(s);
      var (afterLabel, s2) := CreateLabel(s1);
      var s4 := Attach(EnterLoop(s2, startLabel, afterLabel, stmtLabel), startLabel);
      var oc := ForCompare(compare, afterLabel, s4);
      oc.result.Ok? ==>
        var ob := Translate(body, oc.st);
        ob.result.Ok? ==>
          var ou := TranslateAll(update, ob.st);
          ou.result.Ok? ==>
            && |s.reg.records| < |ou.st.reg.records| + 1
            && LoopTail(Attach(Emit(ou.st, GoTo(startLabel)).1, afterLabel).reg, s.nextLabel)
  {
    var (startLabel, s1) := CreateLabel(s);
    var (afterLabel, s2) := CreateLabel(s1);
    var s3 := EnterLoop(s2, startLabel, afterLabel, stmtLabel);
    var s4 := Attach(s3, startLabel);
    var oc := ForCompare(compare, afterLabel, s4);
    if oc.result.Ok? {
      var ob := Translate(body, oc.st);
      if ob.result.Ok? {
        var ou := TranslateAll(update, ob.st);
        if ou.result.Ok? {
          ForCompareSound(compare, afterLabel, s4);
          TranslateSound(body, oc.st);
          AllSound(update, ob.st);
          ExtendsTrans(s4, oc.st, ob.st);
          ExtendsTrans(s4, ob.st, ou.st);
          LoopEndShape(s4, ou, startLabel, afterLabel);
        }
      }
    }
  }

  /**
   * A method that succeeds attaches `_method_<name>` at the position before
   * its first record (it keeps that position and that name), its first
   * record is `BeginFunc` and its last `EndFunc`.
   */
  lemma {:induction false} MethodShape(name: string, body: Option<Node>, s: TState)
    requires Fits(Method(name, body), s)
    ensures var o := TranslateMethod(name, body, s);
      var r := o.st.reg;
      var methodLabel := Label(s.nextLabel, Some("_method_" + name));
      o.result.Ok? ==>
        && |s.reg.records| + 2 <= |r.records|
        && r.records[..|s.reg.records|] == s.reg.records
        && r.records[|s.reg.records|] == BeginFunc
        && LastRecord(r) == EndFunc
        && |s.reg.records| - 1 in r.labels && r.labels[|s.reg.records| - 1] == methodLabel
        && methodLabel in r.labelNames && r.labelNames[methodLabel] == "_method_" + name
    ensures var o := TranslateMethod(name, body, s);
      var r := o.st.reg;
      var methodLabel := Label(s.nextLabel, Some("_method_" + name));
      var s3 := Emit(Attach(CreateNamedLabel(s, "_method_" + name).1, methodLabel), BeginFunc).1;
      var ob := if body.Some? then Translate(body.value, s3) else Outcome(Ok(NoValue), s3);
      && s3.reg.records == s.reg.records + [BeginFunc]
      && s3.reg.labels == s.reg.labels[|s.reg.records| - 1 := methodLabel]
      && (ob.result.Err? ==> o == ob)
      && (ob.result.Ok? ==>
            && o.result == Ok(NoValue)
            && r.records == ob.st.reg.records + [EndFunc]
            && r.labels == ob.st.reg.labels)
  {
    var (methodLabel, s1) := CreateNamedLabel(s, "_method_" + name);
    var s2 := Attach(s1, methodLabel);
    var (_, s3) := Emit(s2, BeginFunc);
    var ob := if body.Some? then Translate(body.value, s3) else Outcome(Ok(NoValue), s3);
    if body.Some? {
      TranslateSound(body.value, s3);
    }
    if ob.result.Ok? {
      assert ob.st.reg.records[|s.reg.records|] == ob.st.reg.records[..|s3.reg.records|][|s.reg.records|];
      assert ob.st.reg.records[..|s.reg.records|] == ob.st.reg.records[..|s3.reg.records|][..|s.reg.records|];
      var s4 := Emit(ob.st, EndFunc).1;
      assert s4.reg.records[..|s.reg.records|] == ob.st.reg.records[..|s.reg.records|];
    }
  }

  /**
   * A labelled `break` or `continue` fails exactly when no enclosing loop
   * carries the name, and then appends nothing; otherwise its whole outcome
   * is one appended jump to the exit (break) or entry (continue) label of
   * the innermost loop with that name, and the reference to that jump.
   */
  lemma NamedJumpShape(name: string, s: TState)
    ensures var b, c := TranslateBreak(Some(name), s), TranslateContinue(Some(name), s);
      && (b.result.Err? <==> forall j :: 0 <= j < |s.scopes| ==> s.scopes[j].name != name)
      && (c.result.Err? <==> forall j :: 0 <= j < |s.scopes| ==> s.scopes[j].name != name)
      && (b.result.Err? ==> b == Outcome(Err(name), s) && c == Outcome(Err(name), s))
      && (b.result.Ok? ==>
            exists j :: && 0 <= j < |s.scopes| && s.scopes[j].name == name
                        && (forall k :: 0 <= k < j ==> s.scopes[k].name != name)
                        && b == Outcome(Ok(Reference(|s.reg.records|)), Emit(s, GoTo(s.scopes[j].exitPoint)).1)
                        && c == Outcome(Ok(Reference(|s.reg.records|)), Emit(s, GoTo(s.scopes[j].entryPoint)).1))
  {
    var i := FindLoop(s.scopes, name);
    if i.Some? {
      var j := i.value;
      assert 0 <= j < |s.scopes| && s.scopes[j].name == name;
    }
  }
}
