/**
 * The loop-context stack (TACContext): one descriptor per loop being
 * translated, innermost first, against which `break` and `continue` are
 * resolved.
 */
module TacContext {
  import opened Wrappers
  import opened Tac

  /** The name stored for a loop that carries no label. */
  const UNNAMED: string := "_unnamed"

  /** A loop descriptor: its name, the label `continue` jumps to and the label `break` jumps to. */
  datatype LoopInfo = LoopInfo(name: string, entryPoint: Label, exitPoint: Label)

  /** The name a loop is pushed with: its label, or `_unnamed`. */
  function LoopName(name: Option<string>): string
  {
    if name.Some? then name.value else UNNAMED
  }

  /**
   * The position of the innermost descriptor called `name`, scanning from
   * the top of the stack (index 0) outward; None when no descriptor has it.
   */
  function FindLoop(scopes: seq<LoopInfo>, name: string): (r: Option<nat>)
    ensures r.Some? ==> r.value < |scopes| && scopes[r.value].name == name
    ensures r.Some? ==> forall j :: 0 <= j < r.value ==> scopes[j].name != name
    ensures r.None? <==> forall j :: 0 <= j < |scopes| ==> scopes[j].name != name
  {
    if scopes == [] then None
    else if scopes[0].name == name then Some(0)
    else match FindLoop(scopes[1..], name)
      case Some(i) => Some(i + 1)
      case None => None
  }

  /** The entry label of the innermost loop called `name`, or the failure naming it. */
  function ContinueTarget(scopes: seq<LoopInfo>, name: string): Result<Label, string>
  {
    match FindLoop(scopes, name)
    case Some(i) => Ok(scopes[i].entryPoint)
    case None => Err(name)
  }

  /** The exit label of the innermost loop called `name`, or the failure naming it. */
  function BreakTarget(scopes: seq<LoopInfo>, name: string): Result<Label, string>
  {
    match FindLoop(scopes, name)
    case Some(i) => Ok(scopes[i].exitPoint)
    case None => Err(name)
  }

  /** An inner loop shadows an outer loop of the same name. */
  lemma {:induction false} InnerShadowsOuter(inner: LoopInfo, middle: seq<LoopInfo>, outer: LoopInfo, rest: seq<LoopInfo>)
    requires inner.name == outer.name
    ensures BreakTarget([inner] + middle + [outer] + rest, inner.name) == Ok(inner.exitPoint)
    ensures ContinueTarget([inner] + middle + [outer] + rest, inner.name) == Ok(inner.entryPoint)
  {
    var scopes := [inner] + middle + [outer] + rest;
    assert scopes[0] == inner;
  }

  /**
   * A labelled jump naming `_unnamed` resolves to the innermost unlabelled
   * loop, since unlabelled loops are stored under that name.
   */
  lemma UnnamedIsFoundByName(entry: Label, exit: Label, scopes: seq<LoopInfo>)
    ensures BreakTarget([LoopInfo(LoopName(None), entry, exit)] + scopes, "_unnamed") == Ok(exit)
  {
  }

  class Context {
    /** The descriptors, innermost first (the order `ArrayDeque.push` and iteration give). */
    var loopScopes: seq<LoopInfo>

    constructor ()
      ensures loopScopes == []
    {
      loopScopes := [];
    }

    /** Pushes a descriptor; a loop without a label is named `_unnamed`. */
    method EnterLoop(entryPoint: Label, exitPoint: Label, name: Option<string>)
      modifies this
      ensures loopScopes == [LoopInfo(LoopName(name), entryPoint, exitPoint)] + old(loopScopes)
    {
      loopScopes := [LoopInfo(LoopName(name), entryPoint, exitPoint)] + loopScopes;
    }

    /** Pops the innermost descriptor. */
    method ExitLoop()
      requires |loopScopes| > 0
      modifies this
      ensures loopScopes == old(loopScopes)[1..]
    {
      loopScopes := loopScopes[1..];
    }

    /** The entry label of the innermost loop. */
    method ContinueLoop() returns (l: Label)
      requires |loopScopes| > 0
      ensures l == loopScopes[0].entryPoint
    {
      var info := loopScopes[0];
      l := info.entryPoint;
    }

    /** The entry label of the innermost loop called `name`; fails when no enclosing loop has that name. */
    method ContinueLoopNamed(name: string) returns (r: Result<Label, string>)
      ensures r.Ok? <==> exists j :: 0 <= j < |loopScopes| && loopScopes[j].name == name
      ensures r == ContinueTarget(loopScopes, name)
    {
      var i := 0;
      while i < |loopScopes|
        invariant 0 <= i <= |loopScopes|
        invariant forall j :: 0 <= j < i ==> loopScopes[j].name != name
      {
        var info := loopScopes[i];
        if info.name == name {
          return Ok(info.entryPoint);
        }
        i := i + 1;
      }
      return Err(name);
    }

    /** The exit label of the innermost loop. */
    method BreakLoop() returns (l: Label)
      requires |loopScopes| > 0
      ensures l == loopScopes[0].exitPoint
    {
      var info := loopScopes[0];
      l := info.exitPoint;
    }

    /** The exit label of the innermost loop called `name`; fails when no enclosing loop has that name. */
    method BreakLoopNamed(name: string) returns (r: Result<Label, string>)
      ensures r.Ok? <==> exists j :: 0 <= j < |loopScopes| && loopScopes[j].name == name
      ensures r == BreakTarget(loopScopes, name)
    {
      var i := 0;
      while i < |loopScopes|
        invariant 0 <= i <= |loopScopes|
        invariant forall j :: 0 <= j < i ==> loopScopes[j].name != name
      {
        var info := loopScopes[i];
        if info.name == name {
          return Ok(info.exitPoint);
        }
        i := i + 1;
      }
      return Err(name);
    }
  }
}
