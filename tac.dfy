/**
 * The three-address-code data model: operand values, operations, labels and
 * instructions (the source's TACValue, TACOperation, TACLabel and TACStmt),
 * plus the decimal rendering of counters used by generated names.
 */
module Tac {
  import opened Wrappers

  /**
   * An operation tag.  `TACOperation.getByCode` maps an operator token to a
   * tag; the model keeps the token itself as the tag, so the mapping is
   * injective and the rendered text of an operation is its token.
   */
  datatype Op = Op(code: string)

  const PLUS: Op := Op("+")
  const MINUS: Op := Op("-")

  /** Maps a Java binary operator token to its operation tag. */
  function GetByCode(code: string): Op
  {
    Op(code)
  }

  /** Rendered text of an operation. */
  function OpText(op: Op): string
  {
    op.code
  }

  /**
   * Operand values.  `Const` carries the literal's text, `Named` a variable
   * identifier, `Reference` the index of the instruction whose result it is,
   * `Unknown` the text of an untranslated construct, and `NoValue` is the
   * source's `TACValue.NONE` returned by statements.
   */
  datatype Value =
    | Const(text: string)
    | Named(id: string)
    | Reference(index: int)
    | Unknown(text: string)
    | NoValue

  /**
   * A jump target.  Every `TACLabel.create` call yields a label with a fresh
   * `id`; `name` is present only for explicitly named labels.
   */
  datatype Label = Label(id: nat, name: Option<string>)

  /** The operator and second operand of a binary `Assign`. */
  datatype Binop = Binop(op: Op, arg2: Value)

  /**
   * Instructions.  `Assign(arg1, None)` is a copy of `arg1`;
   * `Assign(arg1, Some(Binop(op, arg2)))` computes `arg1 op arg2`.
   */
  datatype Stmt =
    | Assign(arg1: Value, binop: Option<Binop>)
    | GoTo(target: Label)
    | IfFalse(condition: Value, target: Label)
    | BeginFunc
    | EndFunc
  {
    predicate IsJump()
    {
      GoTo? || IfFalse?
    }
  }

  /** The copy instruction `Assign(v)`. */
  function Copy(v: Value): Stmt
  {
    Assign(v, None)
  }

  /** The binary instruction `Assign(a, b, op)`. */
  function Apply(a: Value, op: Op, b: Value): Stmt
  {
    Assign(a, Some(Binop(op, b)))
  }

  /** The decimal digit character for `d`. */
  function DigitChar(d: nat): (c: char)
    requires d < 10
    ensures '0' <= c <= '9'
    ensures c as int - '0' as int == d
  {
    ['0', '1', '2', '3', '4', '5', '6', '7', '8', '9'][d]
  }

  /** Decimal text of a counter, as Java's string concatenation prints an int. */
  function NatToString(n: nat): (s: string)
    ensures 1 <= |s|
    ensures n < 10 <==> |s| == 1
  {
    if n < 10 then [DigitChar(n)] else NatToString(n / 10) + [DigitChar(n % 10)]
  }

  /** Different counters print differently, so generated names never collide. */
  lemma {:induction false} NatToStringInjective(a: nat, b: nat)
    requires NatToString(a) == NatToString(b)
    ensures a == b
  {
    var sa, sb := NatToString(a), NatToString(b);
    if a < 10 || b < 10 {
      assert |sa| == 1 && |sb| == 1;
      assert DigitChar(a) == sa[0] == sb[0] == DigitChar(b);
    } else {
      assert sa[|sa| - 1] == DigitChar(a % 10);
      assert sb[|sb| - 1] == DigitChar(b % 10);
      assert sa[..|sa| - 1] == NatToString(a / 10);
      assert sb[..|sb| - 1] == NatToString(b / 10);
      NatToStringInjective(a / 10, b / 10);
    }
  }
}
