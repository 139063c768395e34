/**
 * The syntax tree the translator walks: a closed datatype standing in for the
 * parser's node classes.  Each node kind the visitor handles has its own
 * constructor; every other kind is `Other`, which keeps the node's text and
 * its children in the parser's child order.
 */
module Syntax {
  import opened Wrappers

  /** The unary operators of the parser. */
  datatype UnaryOp =
    | UnaryPlus
    | UnaryMinus
    | PrefixIncrement
    | PrefixDecrement
    | LogicalComplement
    | BitwiseComplement
    | PostfixIncrement
    | PostfixDecrement

  datatype Node =
    /** Any literal, carrying the text of its value ("null" for the null literal). */
    | Literal(text: string)
    /** A variable read. */
    | Name(id: string)
    /** A parenthesised expression. */
    | Enclosed(inner: Node)
    /** `left op right`, `op` being the operator's token. */
    | Binary(left: Node, op: string, right: Node)
    | Unary(unaryOp: UnaryOp, operand: Node)
    /** `target = value`, or `target op= value` when `compound` holds the binary token. */
    | Assignment(target: Node, compound: Option<string>, value: Node)
    /** One variable of a local declaration, with its optional initializer. */
    | Declarator(name: string, initializer: Option<Node>)
    | If(cond: Node, thenStmt: Node, elseStmt: Option<Node>)
    /**
     * The three loops.  `stmtLabel` is the label of the statement that
     * encloses the loop, if that statement is a labelled statement.
     */
    | While(stmtLabel: Option<string>, cond: Node, body: Node)
    | Do(stmtLabel: Option<string>, body: Node, cond: Node)
    | For(stmtLabel: Option<string>, initialization: seq<Node>, compare: Option<Node>, update: seq<Node>, body: Node)
    | Break(jumpLabel: Option<string>)
    | Continue(jumpLabel: Option<string>)
    | Method(name: string, methodBody: Option<Node>)
    /** Any other node kind: blocks, expression statements, labelled statements, declarations, ... */
    | Other(text: string, children: seq<Node>)

  /**
   * A termination measure for the translator's recursion.  A compound
   * assignment is translated as a binary expression over the same two
   * children, so it weighs one more than that expression.
   */
  function Size(n: Node): (r: nat)
    ensures r >= 1
  {
    match n
    case Literal(_) => 1
    case Name(_) => 1
    case Enclosed(e) => 1 + Size(e)
    case Binary(l, _, r) => 1 + Size(l) + Size(r)
    case Unary(_, e) => 1 + Size(e)
    case Assignment(t, _, v) => 2 + Size(t) + Size(v)
    case Declarator(_, init) => 1 + (if init.Some? then Size(init.value) else 0)
    case If(c, t, e) => 1 + Size(c) + Size(t) + (if e.Some? then Size(e.value) else 0)
    case While(_, c, b) => 1 + Size(c) + Size(b)
    case Do(_, b, c) => 1 + Size(b) + Size(c)
    case For(_, init, c, upd, b) => 1 + SizeAll(init) + (if c.Some? then Size(c.value) else 0) + SizeAll(upd) + Size(b)
    case Break(_) => 1
    case Continue(_) => 1
    case Method(_, b) => 1 + (if b.Some? then Size(b.value) else 0)
    case Other(_, cs) => 1 + SizeAll(cs)
  }

  function SizeAll(ns: seq<Node>): (r: nat)
    ensures r >= 1
  {
    if ns == [] then 1 else Size(ns[0]) + SizeAll(ns[1..])
  }

  /** Every node of a list weighs less than the list, and so does every suffix. */
  lemma {:induction false} SizeAllBounds(ns: seq<Node>, i: nat)
    requires i < |ns|
    ensures Size(ns[i]) < SizeAll(ns)
    ensures SizeAll(ns[i + 1..]) < SizeAll(ns)
  {
    if i > 0 {
      SizeAllBounds(ns[1..], i - 1);
      assert ns[1..][i - 1] == ns[i];
      assert ns[1..][i..] == ns[i + 1..];
    }
  }

  /** The source text of a node, as an assignment binds it to its target. */
  function SourceText(n: Node): string
  {
    match n
    case Literal(t) => t
    case Name(id) => id
    case Enclosed(e) => "(" + SourceText(e) + ")"
    case Binary(l, op, r) => SourceText(l) + " " + op + " " + SourceText(r)
    case Other(t, _) => t
    case _ => ""
  }

  /**
   * Every unlabelled `break` and `continue` in `n` lies inside a loop, the
   * loop being outside `n` when `inLoop` holds.  The innermost-loop lookups
   * need a non-empty loop stack: an unlabelled jump outside every loop (valid
   * Java for a `break` in a `switch`) makes `peek` return null and the lookup
   * throw a `NullPointerException`, which this predicate excludes rather than
   * models.
   */
  predicate JumpsInLoops(n: Node, inLoop: bool)
    decreases Size(n)
  {
    match n
    case Literal(_) => true
    case Name(_) => true
    case Enclosed(e) => JumpsInLoops(e, inLoop)
    case Binary(l, _, r) => JumpsInLoops(l, inLoop) && JumpsInLoops(r, inLoop)
    case Unary(_, e) => JumpsInLoops(e, inLoop)
    case Assignment(t, _, v) => JumpsInLoops(t, inLoop) && JumpsInLoops(v, inLoop)
    case Declarator(_, init) => init.Some? ==> JumpsInLoops(init.value, inLoop)
    case If(c, t, e) => JumpsInLoops(c, inLoop) && JumpsInLoops(t, inLoop) && (e.Some? ==> JumpsInLoops(e.value, inLoop))
    case While(_, c, b) => JumpsInLoops(c, true) && JumpsInLoops(b, true)
    case Do(_, b, c) => JumpsInLoops(b, true) && JumpsInLoops(c, true)
    case For(_, init, c, upd, b) =>
      AllJumpsInLoops(init, inLoop) && (c.Some? ==> JumpsInLoops(c.value, true))
      && JumpsInLoops(b, true) && AllJumpsInLoops(upd, true)
    case Break(l) => l.Some? || inLoop
    case Continue(l) => l.Some? || inLoop
    case Method(_, b) => b.Some? ==> JumpsInLoops(b.value, inLoop)
    case Other(_, cs) => AllJumpsInLoops(cs, inLoop)
  }

  predicate AllJumpsInLoops(ns: seq<Node>, inLoop: bool)
    decreases SizeAll(ns)
  {
    ns == [] || (JumpsInLoops(ns[0], inLoop) && AllJumpsInLoops(ns[1..], inLoop))
  }
}
