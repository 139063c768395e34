/**
 * The instruction registry (TACRegistry): an append-only, index-addressed list
 * of instructions, the display names bound to instruction results, the labels
 * attached to positions of the list, and the text listing it renders.
 *
 * `RegState` is the value of a registry; the functions over it are the
 * specification that the class `Registry` implements and that the translator
 * specification uses.
 */
module TacRegistry {
  import opened Wrappers
  import opened Tac

  datatype RegState = RegState(
    records: seq<Stmt>,
    varNames: map<int, string>,
    labels: map<int, Label>,
    labelNames: map<Label, string>,
    labelCounter: nat,
    varCounter: nat)
  {
    /** The position a label attached now is keyed by: the last record's index, -1 when there is none. */
    function EndPosition(): int
    {
      |records| - 1
    }

    function Register(stmt: Stmt): RegState
    {
      this.(records := records + [stmt])
    }

    function RegisterVarName(ref: int, name: string): RegState
    {
      this.(varNames := varNames[ref := name])
    }

    function RegisterLabel(l: Label): RegState
    {
      if l.name.Some? then
        this.(labels := labels[EndPosition() := l], labelNames := labelNames[l := l.name.value])
      else
        this.(labels := labels[EndPosition() := l],
              labelNames := labelNames[l := AnonLabelName(labelCounter)],
              labelCounter := labelCounter + 1)
    }
  }

  /** A registry as it is created: nothing recorded, nothing named. */
  const EmptyRegistry: RegState := RegState([], map[], map[], map[], 0, 0)

  /** The name generated for the `k`-th unnamed instruction result. */
  function TempName(k: nat): string
  {
    "_t" + NatToString(k)
  }

  /** The name given to the `k`-th anonymous label attached. */
  function AnonLabelName(k: nat): string
  {
    "_L" + NatToString(k)
  }

  // ---------------------------------------------------------------------------
  // Rendering

  /** The part of a registry that rendering updates: the bindings and the temporary counter. */
  datatype Names = Names(varNames: map<int, string>, varCounter: nat)

  /**
   * Operand text.  A reference prints its bound name, and "null" when it has
   * none (what appending a missing map entry prints).
   */
  function ValueString(v: Value, varNames: map<int, string>): string
  {
    match v
    case Reference(i) => if i in varNames then varNames[i] else "null"
    case Const(t) => t
    case Named(id) => id
    case Unknown(t) => t
    case NoValue => "NONE"
  }

  /** Label text: its registered name, "null" for a label never attached. */
  function LabelString(l: Label, labelNames: map<Label, string>): string
  {
    if l in labelNames then labelNames[l] else "null"
  }

  /** The `<name>:` line of the label attached at `pos`, if any. */
  function LabelLine(labels: map<int, Label>, labelNames: map<Label, string>, pos: int): string
  {
    if pos in labels then LabelString(labels[pos], labelNames) + ":\n" else ""
  }

  /** The destination name of record `i`, generating and caching `_t<k>` when it has none. */
  function NameDest(nm: Names, i: int): (string, Names)
  {
    if i in nm.varNames then (nm.varNames[i], nm)
    else (TempName(nm.varCounter), Names(nm.varNames[i := TempName(nm.varCounter)], nm.varCounter + 1))
  }

  /** The text of record `i` (without its leading tab and trailing newline) and the names after it. */
  function RenderStmt(stmt: Stmt, i: int, nm: Names, labelNames: map<Label, string>): (string, Names)
  {
    match stmt
    case Assign(arg1, binop) =>
      var (dest, nm') := NameDest(nm, i);
      var tail := if binop.Some?
        then "\t" + OpText(binop.value.op) + "\t" + ValueString(binop.value.arg2, nm'.varNames)
        else "";
      (dest + "\t:= " + ValueString(arg1, nm'.varNames) + tail, nm')
    case GoTo(l) => ("GOTO " + LabelString(l, labelNames), nm)
    case IfFalse(c, l) => ("IFF " + ValueString(c, nm.varNames) + " GOTO " + LabelString(l, labelNames), nm)
    case BeginFunc => ("BeginFunc", nm)
    case EndFunc => ("EndFunc", nm)
  }

  /**
   * The listing of the first `n` records: the label line at -1, then for each
   * record a tab, its text, a newline and the label line at its index.
   */
  function RenderPrefix(s: RegState, n: nat): (string, Names)
    requires n <= |s.records|
  {
    if n == 0 then (LabelLine(s.labels, s.labelNames, -1), Names(s.varNames, s.varCounter))
    else
      var (text, nm) := RenderPrefix(s, n - 1);
      var (line, nm') := RenderStmt(s.records[n - 1], n - 1, nm, s.labelNames);
      (text + "\t" + line + "\n" + LabelLine(s.labels, s.labelNames, n - 1), nm')
  }

  /** The whole listing and the names rendering leaves behind. */
  function Render(s: RegState): (string, Names)
  {
    RenderPrefix(s, |s.records|)
  }

  /**
   * The listing is built line by line in index order: the listing of the
   * first `a` records (beginning with the label line at -1) is a prefix of
   * the listing of the first `b`, and each record adds at least its
   * tab-prefixed, newline-terminated line.
   */
  lemma {:induction false} RenderExtends(s: RegState, a: nat, b: nat)
    requires a <= b <= |s.records|
    ensures RenderPrefix(s, 0).0 == LabelLine(s.labels, s.labelNames, -1)
    ensures |RenderPrefix(s, a).0| + 2 * (b - a) <= |RenderPrefix(s, b).0|
    ensures RenderPrefix(s, b).0[..|RenderPrefix(s, a).0|] == RenderPrefix(s, a).0
  {
    if a < b {
      RenderExtends(s, a, b - 1);
      var pa, pb1, pb := RenderPrefix(s, a).0, RenderPrefix(s, b - 1).0, RenderPrefix(s, b).0;
      assert pb[..|pb1|] == pb1;
      assert pb[..|pa|] == pb1[..|pa|];
    }
  }

  /** The registry after rendering: only its bindings and temporary counter differ. */
  function AfterRender(s: RegState): RegState
  {
    var nm := Render(s).1;
    s.(varNames := nm.varNames, varCounter := nm.varCounter)
  }

  // ---------------------------------------------------------------------------
  // The registry object

  class Registry {
    var records: seq<Stmt>
    var varNames: map<int, string>
    var labels: map<int, Label>
    var labelNames: map<Label, string>
    var labelCounter: nat
    var varCounter: nat

    function Model(): RegState
      reads this
    {
      RegState(records, varNames, labels, labelNames, labelCounter, varCounter)
    }

    constructor ()
      ensures Model() == EmptyRegistry
    {
      records, varNames, labels, labelNames := [], map[], map[], map[];
      labelCounter, varCounter := 0, 0;
    }

    /** Appends one record and returns a reference to it. */
    method Register(stmt: Stmt) returns (r: Value)
      modifies this
      ensures records == old(records) + [stmt]
      ensures r == Reference(|old(records)|) && r.index == |records| - 1
      ensures varNames == old(varNames) && labels == old(labels) && labelNames == old(labelNames)
      ensures labelCounter == old(labelCounter) && varCounter == old(varCounter)
      ensures Model() == old(Model()).Register(stmt)
    {
      records := records + [stmt];
      r := Reference(|records| - 1);
    }

    /** Binds a display name to a reference; a later binding replaces an earlier one. */
    method RegisterVarName(ref: int, name: string)
      modifies this
      ensures varNames == old(varNames)[ref := name]
      ensures ref in varNames && varNames[ref] == name
      ensures forall k :: k != ref ==> (k in varNames <==> k in old(varNames))
      ensures forall k :: k != ref && k in old(varNames) ==> varNames[k] == old(varNames)[k]
      ensures records == old(records) && labels == old(labels) && labelNames == old(labelNames)
      ensures labelCounter == old(labelCounter) && varCounter == old(varCounter)
      ensures Model() == old(Model()).RegisterVarName(ref, name)
    {
      varNames := varNames[ref := name];
    }

    /**
     * Attaches a label after the last record (at -1 when there is none),
     * replacing any label already at that position, and names it: an
     * explicit name is kept, an anonymous label is named `_L<k>` from the
     * label counter, which then rises by one.
     */
    method RegisterLabel(l: Label)
      modifies this
      ensures labels == old(labels)[|records| - 1 := l]
      ensures l.name.Some? ==> labelNames == old(labelNames)[l := l.name.value] && labelCounter == old(labelCounter)
      ensures l.name.None? ==>
        labelNames == old(labelNames)[l := AnonLabelName(old(labelCounter))] && labelCounter == old(labelCounter) + 1
      ensures records == old(records) && varNames == old(varNames) && varCounter == old(varCounter)
      ensures Model() == old(Model()).RegisterLabel(l)
    {
      labels := labels[|records| - 1 := l];
      if l.name.Some? {
        labelNames := labelNames[l := l.name.value];
      } else {
        labelNames := labelNames[l := AnonLabelName(labelCounter)];
        labelCounter := labelCounter + 1;
      }
    }

    method GenerateVarName() returns (name: string)
      modifies this`varCounter
      ensures name == TempName(old(varCounter)) && varCounter == old(varCounter) + 1
    {
      name := TempName(varCounter);
      varCounter := varCounter + 1;
    }

    function GetValueString(v: Value): string
      reads this
    {
      ValueString(v, varNames)
    }

    /**
     * Renders the listing.  Unnamed `Assign` destinations are named `_t<k>` on
     * the way and the names are kept, so rendering changes the bindings and
     * the temporary counter but nothing else.
     */
    method ToString() returns (text: string)
      modifies this`varNames, this`varCounter
      ensures (text, Names(varNames, varCounter)) == Render(old(Model()))
      ensures Model() == AfterRender(old(Model()))
    {
      text := LabelLine(labels, labelNames, -1);
      var i := 0;
      while i < |records|
        invariant 0 <= i <= |records|
        invariant records == old(records) && labels == old(labels) && labelNames == old(labelNames)
        invariant (text, Names(varNames, varCounter)) == RenderPrefix(old(Model()), i)
      {
        ghost var nm := Names(varNames, varCounter);
        var stmt := records[i];
        var line: string;
        match stmt {
          case Assign(arg1, binop) =>
            var dest: string;
            if i in varNames {
              dest := varNames[i];
            } else {
              dest := GenerateVarName();
              varNames := varNames[i := dest];
            }
            line := dest + "\t:= " + GetValueString(arg1);
            if binop.Some? {
              line := line + ("\t" + OpText(binop.value.op) + "\t" + GetValueString(binop.value.arg2));
            } else {
              line := line + "";
            }
          case GoTo(l) =>
            line := "GOTO " + LabelString(l, labelNames);
          case IfFalse(c, l) =>
            line := "IFF " + GetValueString(c) + " GOTO " + LabelString(l, labelNames);
          case BeginFunc =>
            line := "BeginFunc";
          case EndFunc =>
            line := "EndFunc";
        }
        assert (line, Names(varNames, varCounter)) == RenderStmt(stmt, i, nm, labelNames);
        text := text + "\t" + line + "\n" + LabelLine(labels, labelNames, i);
        i := i + 1;
      }
    }
  }

  // ---------------------------------------------------------------------------
  // Properties of rendering

  /** `v` is not a reference, or a reference to an index in [0, k). */
  predicate ValueBefore(v: Value, k: int)
  {
    v.Reference? ==> 0 <= v.index < k
  }

  /** Every operand of `stmt` refers to an instruction before index `k`. */
  predicate StmtRefsBefore(stmt: Stmt, k: int)
  {
    match stmt
    case Assign(arg1, binop) => ValueBefore(arg1, k) && (binop.Some? ==> ValueBefore(binop.value.arg2, k))
    case IfFalse(c, _) => ValueBefore(c, k)
    case _ => true
  }

  /** Every reference operand of record `i` points to an earlier record. */
  ghost predicate RefsBefore(records: seq<Stmt>)
  {
    forall i :: 0 <= i < |records| ==> StmtRefsBefore(records[i], i)
  }

  /** The number of `Assign` records before index `k` that have no binding of their own. */
  function Unbound(s: RegState, k: nat): nat
    requires k <= |s.records|
  {
    if k == 0 then 0
    else Unbound(s, k - 1) + (if s.records[k - 1].Assign? && k - 1 !in s.varNames then 1 else 0)
  }

  /** Exactly the bound indices and the `Assign` indices below `n` have a name in `names`. */
  ghost predicate NamedDomain(s: RegState, n: nat, names: map<int, string>)
    requires n <= |s.records|
  {
    forall k :: k in names <==> k in s.varNames || (0 <= k < n && s.records[k].Assign?)
  }

  /** Every bound index keeps its bound name in `names`. */
  ghost predicate KeepsBound(s: RegState, names: map<int, string>)
  {
    forall k :: k in s.varNames ==> k in names && names[k] == s.varNames[k]
  }

  /** The unbound `Assign` at index k below `n` is named `_t<c + u>`, u the unbound `Assign`s before k. */
  ghost predicate TempsNamed(s: RegState, n: nat, names: map<int, string>)
    requires n <= |s.records|
  {
    forall k {:trigger names[k]} {:trigger k in names} :: 0 <= k < n && s.records[k].Assign? && k !in s.varNames ==>
      k in names && names[k] == TempName(s.varCounter + Unbound(s, k))
  }

  /**
   * Naming by rendering, after the first `n` records of `s` left `nm`:
   * exactly the bound indices and the `Assign` indices below `n` are named;
   * bound names are kept; the unbound `Assign` at index k is named
   * `_t<c + u>` where `c` is the counter before rendering and `u` the number
   * of unbound `Assign`s before k; and the counter rose by the number of
   * unbound `Assign`s.
   */
  ghost predicate NamedAfter(s: RegState, n: nat, nm: Names)
    requires n <= |s.records|
  {
    && NamedDomain(s, n, nm.varNames)
    && KeepsBound(s, nm.varNames)
    && TempsNamed(s, n, nm.varNames)
    && nm.varCounter == s.varCounter + Unbound(s, n)
  }

  /** Rendering names records as `NamedAfter` describes. */
  lemma {:induction false} RenderNames(s: RegState, n: nat)
    requires n <= |s.records|
    ensures NamedAfter(s, n, RenderPrefix(s, n).1)
  {
    if n == 0 {
      assert RenderPrefix(s, 0).1 == Names(s.varNames, s.varCounter);
    } else {
      RenderNames(s, n - 1);
      RenderStepNames(s, n);
      NamedAfterStep(s, n, RenderPrefix(s, n - 1).1, RenderPrefix(s, n).1);
    }
  }

  /** One rendering step names record `n - 1` when it is an `Assign` without a name, and changes nothing else. */
  lemma RenderStepNames(s: RegState, n: nat)
    requires 0 < n <= |s.records|
    ensures var nm, nm' := RenderPrefix(s, n - 1).1, RenderPrefix(s, n).1;
      if s.records[n - 1].Assign? && n - 1 !in nm.varNames
      then nm' == Names(nm.varNames[n - 1 := TempName(nm.varCounter)], nm.varCounter + 1)
      else nm' == nm
  {
    var nm := RenderPrefix(s, n - 1).1;
    var stmt := s.records[n - 1];
    assert RenderPrefix(s, n).1 == RenderStmt(stmt, n - 1, nm, s.labelNames).1;
    if stmt.Assign? {
      assert RenderStmt(stmt, n - 1, nm, s.labelNames).1 == NameDest(nm, n - 1).1;
    }
  }

  /** Such a step keeps `NamedAfter`, one record further. */
  lemma NamedAfterStep(s: RegState, n: nat, nm: Names, nm': Names)
    requires 0 < n <= |s.records| && NamedAfter(s, n - 1, nm)
    requires if s.records[n - 1].Assign? && n - 1 !in nm.varNames
      then nm' == Names(nm.varNames[n - 1 := TempName(nm.varCounter)], nm.varCounter + 1)
      else nm' == nm
    ensures NamedAfter(s, n, nm')
  {
    var j := n - 1;
    assert (j in nm.varNames) == (j in s.varNames);
    if s.records[j].Assign? && j !in s.varNames {
      var x := TempName(nm.varCounter);
      assert nm'.varNames == nm.varNames[j := x];
      assert Unbound(s, n) == Unbound(s, j) + 1;
      DomainGrows(s, n, nm.varNames, x);
      BoundKept(s, j, x, nm.varNames);
      TempsGrow(s, n, nm.varNames, x);
    } else {
      assert Unbound(s, n) == Unbound(s, j);
      DomainKept(s, n, nm.varNames);
      TempsKept(s, n, nm.varNames);
    }
  }

  /** Naming record `n - 1`, an `Assign`, extends the domain by one record. */
  lemma DomainGrows(s: RegState, n: nat, names: map<int, string>, x: string)
    requires 0 < n <= |s.records| && s.records[n - 1].Assign?
    requires NamedDomain(s, n - 1, names)
    ensures NamedDomain(s, n, names[n - 1 := x])
  {
    forall k
      ensures k in names[n - 1 := x] <==> k in s.varNames || (0 <= k < n && s.records[k].Assign?)
    {
      if k != n - 1 {
        assert k in names[n - 1 := x] <==> k in names;
      }
    }
  }

  /** Naming nothing at record `n - 1` keeps the domain when that record needs no new name. */
  lemma DomainKept(s: RegState, n: nat, names: map<int, string>)
    requires 0 < n <= |s.records| && !(s.records[n - 1].Assign? && n - 1 !in s.varNames)
    requires NamedDomain(s, n - 1, names)
    ensures NamedDomain(s, n, names)
  {
    forall k
      ensures k in names <==> k in s.varNames || (0 <= k < n && s.records[k].Assign?)
    {
      if k != n - 1 {
        assert 0 <= k < n <==> 0 <= k < n - 1;
      }
    }
  }

  /** Naming an unbound index leaves every bound name alone. */
  lemma BoundKept(s: RegState, j: int, x: string, names: map<int, string>)
    requires j !in s.varNames && KeepsBound(s, names)
    ensures KeepsBound(s, names[j := x])
  {
  }

  /** Naming the unbound `Assign` at `n - 1` after the temporaries before it extends `TempsNamed`. */
  lemma TempsGrow(s: RegState, n: nat, names: map<int, string>, x: string)
    requires 0 < n <= |s.records| && s.records[n - 1].Assign? && n - 1 !in s.varNames
    requires TempsNamed(s, n - 1, names) && x == TempName(s.varCounter + Unbound(s, n - 1))
    ensures TempsNamed(s, n, names[n - 1 := x])
  {
  }

  /** `TempsNamed` extends past a record that needs no new name. */
  lemma TempsKept(s: RegState, n: nat, names: map<int, string>)
    requires 0 < n <= |s.records| && !(s.records[n - 1].Assign? && n - 1 !in s.varNames)
    requires TempsNamed(s, n - 1, names)
    ensures TempsNamed(s, n, names)
  {
  }

  /** Two binding maps agree on every index below `k`. */
  ghost predicate AgreeBelow(a: map<int, string>, b: map<int, string>, k: int)
  {
    forall i :: i < k ==> (i in a <==> i in b) && (i in a ==> a[i] == b[i])
  }

  /** Names given while rendering a prefix are the names the rest of the rendering sees. */
  lemma {:induction false} NamesStable(s: RegState, a: nat, b: nat)
    requires a <= b <= |s.records|
    ensures AgreeBelow(RenderPrefix(s, a).1.varNames, RenderPrefix(s, b).1.varNames, a)
  {
    RenderNames(s, a);
    RenderNames(s, b);
  }

  /** An operand before `k` prints the same under two bindings that agree below `k`. */
  lemma ValueStringAgree(v: Value, a: map<int, string>, b: map<int, string>, k: int)
    requires ValueBefore(v, k) && AgreeBelow(a, b, k)
    ensures ValueString(v, a) == ValueString(v, b)
  {
  }

  /**
   * Re-rendering a prefix from the names a full rendering left behind gives
   * the same text and adds no name.
   */
  lemma {:induction false} RerenderPrefix(s: RegState, n: nat)
    requires RefsBefore(s.records)
    requires n <= |s.records|
    ensures RenderPrefix(AfterRender(s), n) == (RenderPrefix(s, n).0, Render(s).1)
  {
    var s' := AfterRender(s);
    if n == 0 {
      RenderNames(s, |s.records|);
    } else {
      RerenderPrefix(s, n - 1);
      RerenderStep(s, n);
      assert s'.records == s.records && s'.labels == s.labels && s'.labelNames == s.labelNames;
    }
  }

  /** Record `n - 1` prints the same under the final names as under the names rendering had reached. */
  lemma RerenderStep(s: RegState, n: nat)
    requires RefsBefore(s.records)
    requires 0 < n <= |s.records|
    ensures var stmt, fin := s.records[n - 1], Render(s).1;
      RenderStmt(stmt, n - 1, fin, s.labelNames)
        == (RenderStmt(stmt, n - 1, RenderPrefix(s, n - 1).1, s.labelNames).0, fin)
  {
    var fin := Render(s).1;
    var nm := RenderPrefix(s, n - 1).1;
    var stmt := s.records[n - 1];
    assert StmtRefsBefore(stmt, n - 1);
    NamesStable(s, n - 1, |s.records|);
    match stmt {
      case Assign(arg1, binop) =>
        NamesStable(s, n, |s.records|);
        var nm' := NameDest(nm, n - 1).1;
        assert nm' == RenderPrefix(s, n).1;
        assert AgreeBelow(nm'.varNames, fin.varNames, n);
        ValueStringAgree(arg1, nm'.varNames, fin.varNames, n);
        if binop.Some? {
          ValueStringAgree(binop.value.arg2, nm'.varNames, fin.varNames, n);
        }
      case IfFalse(c, l) =>
        ValueStringAgree(c, nm.varNames, fin.varNames, n - 1);
      case _ =>
    }
  }

  /**
   * Rendering is idempotent on a registry whose operands refer to earlier
   * records: a second rendering prints the same text and leaves the names as
   * the first one left them.
   */
  lemma RenderIdempotent(s: RegState)
    requires RefsBefore(s.records)
    ensures Render(AfterRender(s)) == Render(s)
    ensures AfterRender(AfterRender(s)) == AfterRender(s)
  {
    RerenderPrefix(s, |s.records|);
  }

  /** An unbound `Assign` counts towards every later position. */
  lemma {:induction false} UnboundGrows(s: RegState, j: nat, k: nat)
    requires j < k <= |s.records|
    requires s.records[j].Assign? && j !in s.varNames
    ensures Unbound(s, j) < Unbound(s, k)
  {
    if k > j + 1 {
      UnboundGrows(s, j, k - 1);
    }
  }

  /** Different counters give different temporary names. */
  lemma TempNameInjective(a: nat, b: nat)
    requires TempName(a) == TempName(b)
    ensures a == b
  {
    assert NatToString(a) == TempName(a)[2..];
    assert NatToString(b) == TempName(b)[2..];
    NatToStringInjective(a, b);
  }

  /** The name rendering gives an unbound `Assign` destination. */
  lemma {:induction false} RenderedTempName(s: RegState, k: nat)
    requires k < |s.records| && s.records[k].Assign? && k !in s.varNames
    ensures k in Render(s).1.varNames
    ensures Render(s).1.varNames[k] == TempName(s.varCounter + Unbound(s, k))
  {
    RenderNames(s, |s.records|);
    TempNamedAt(s, |s.records|, Render(s).1, k);
  }

  /** One instance of `TempsNamed`. */
  lemma {:induction false} TempNamedAt(s: RegState, n: nat, nm: Names, k: nat)
    requires n <= |s.records| && TempsNamed(s, n, nm.varNames)
    requires k < n && s.records[k].Assign? && k !in s.varNames
    ensures k in nm.varNames && nm.varNames[k] == TempName(s.varCounter + Unbound(s, k))
  {
  }

  /**
   * Rendering gives distinct unbound destinations distinct temporaries, in
   * increasing index order.
   */
  lemma TempNamesDistinct(s: RegState, j: nat, k: nat)
    requires j < k < |s.records|
    requires s.records[j].Assign? && j !in s.varNames
    requires s.records[k].Assign? && k !in s.varNames
    ensures j in Render(s).1.varNames && k in Render(s).1.varNames
    ensures Render(s).1.varNames[j] != Render(s).1.varNames[k]
  {
    RenderedTempName(s, j);
    RenderedTempName(s, k);
    UnboundGrows(s, j, k);
    var a, b := s.varCounter + Unbound(s, j), s.varCounter + Unbound(s, k);
    if TempName(a) == TempName(b) {
      TempNameInjective(a, b);
    }
  }
}
