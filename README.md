# Three-address-code lowering of Java method bodies, modelled in Dafny

This project models the core of a small Java tool. The tool lowers a parsed
Java method body into three-address code (TAC): a flat list of instructions,
each performing at most one operation, with explicit conditional and
unconditional jumps for control flow. The core has three parts, each modelled
in its own imperative form and proved against a functional specification.

- **Instruction registry** (`TACRegistry`, `registry.dfy`). It is the class
  `TacRegistry.Registry`, with fields `records: seq<Stmt>`,
  `varNames: map<int, string>`, `labels: map<int, Label>`,
  `labelNames: map<Label, string>`, `labelCounter` and `varCounter`.
  - Appending, binding a display name and attaching a label are methods that
    change exactly those fields.
  - `ToString` is the rendering loop. While it prints, it names every unbound
    `Assign` destination `_t<k>` and keeps that name in `varNames`.
  - Each method is tied to a function on the value `RegState`. The rendering
    properties are lemmas about `Render`: names in index order, distinct
    temporaries, and rendering twice giving the same text.
- **Loop-context stack** (`TACContext`, `context.dfy`). It is the class
  `TacContext.Context`, whose `loopScopes` sequence lists the innermost loop
  first.
  - The named lookups are early-return loops, proved equal to the function
    `FindLoop`.
  - A name that no loop carries gives `Err(name)`. This stands for the
    source's `IllegalStateException`.
- **Translator** (`TACVisitor`, `visitor.dfy`). It is the class
  `TacVisitor.Visitor`. It walks a closed syntax-tree datatype
  (`Syntax.Node`, in `syntax.dfy`) and appends to a shared `Registry`.
  - Every visit method ensures that the registry, the context and the
    label-id counter end up exactly as the function `Translation.Translate`
    (`translation.dfy`) says, and that it returns the same value or failure.
  - The properties of the translation are lemmas about `Translate`:
    - `translation_facts.dfy`: it only appends, and operands point backwards.
    - `binding_facts.dfy`: bindings never influence translation.
    - `jump_facts.dfy`: no jump targets a label that is never attached.
    - `shape_facts.dfy` and `expression_facts.dfy`: the emission templates.
    - `scenarios.dfy`, `method_scenario.dfy` and `method_listing.dfy`:
      worked examples. The last two cover the method `test` of the sample
      program in `Main.java`, up to the text of its listing under the value
      and operation texts that "## Left out" describes.

Modelling decisions:

- `TACLabel.create()` is not part of this model. Each call yields
  `Label(id, name)` with a fresh `id` taken from a counter on the visitor.
- `TACOperation.getByCode` keeps the operator token as the operation tag, so
  an operation renders as its token.
- `TACValue`, `TACStmt`, `TACLabel`, `TACOperation` and `TACMark` are not
  part of this model. Their shapes are taken from how the core uses them.
  `Assign`'s optional operator and second operand are one
  `Option<Binop>`, because the source always sets both or neither.
- A `Const` carries the literal's text. `Unknown` carries the text of the
  untranslated construct. For `~x` that text is the operator's name,
  `BITWISE_COMPLEMENT`.
- The label of a loop's enclosing labelled statement (`getStmtLabel`) is an
  optional field of each loop node.
- The node text an assignment binds (`n.getTarget().toString()`) is
  `Syntax.SourceText`.

Behaviours of the code a reader may not expect:

- `labels` is a map keyed by position. A second label attached at the same
  position therefore replaces the first in the listing, although its name
  stays in `labelNames`. `Scenarios.NestedIfsShareOnePosition` shows this
  for two nested `if`s that end together.
- An `Unknown` value can end up inside an instruction. Plain assignment
  copies it (`Scenarios.ComplementIsCopiedUnknown`).
- A labelled `break` or `continue` naming `_unnamed` matches an unlabelled
  loop, since unlabelled loops are pushed under that name
  (`TacContext.UnnamedIsFoundByName`).

## Model

| member | source | states |
|---|---|---|
| `TacRegistry.Registry.constructor` | src/main/java/ru/draen/verif/tac/TACRegistry.java:6-11 | a new registry has no records, bindings or labels, and both counters at 0 |
| `TacRegistry.Registry.Register` | src/main/java/ru/draen/verif/tac/TACRegistry.java:13-16 | appends exactly one record at the end and returns `Reference(old length)`; earlier records, bindings, labels and counters are unchanged |
| `TacRegistry.Registry.RegisterVarName` | src/main/java/ru/draen/verif/tac/TACRegistry.java:18-20 | binds the name to the reference, replacing any earlier name; every other binding and every other field is unchanged |
| `TacRegistry.Registry.RegisterLabel` | src/main/java/ru/draen/verif/tac/TACRegistry.java:22-29 | keys the label at `length - 1` (-1 when empty), replacing any label there; an explicit name is kept and the counter is unchanged; an anonymous label is named `_L<counter>` and the counter rises by one; records, bindings and `varCounter` are unchanged |
| `TacRegistry.Registry.GenerateVarName` | src/main/java/ru/draen/verif/tac/TACRegistry.java:31-33 | returns `_t<varCounter>` and raises `varCounter` by one |
| `TacRegistry.Registry.ToString` | src/main/java/ru/draen/verif/tac/TACRegistry.java:43-86 | returns the listing `Render` specifies (label line at -1, then per record a tab, its line and the label line at its index); it changes only `varNames` and `varCounter`, to what rendering names |
| `TacRegistry.RenderExtends` | src/main/java/ru/draen/verif/tac/TACRegistry.java:47-84 | the listing begins with the label line at -1 and is built in index order: each record adds its tab-prefixed, newline-terminated line after the earlier ones |
| `TacRegistry.RenderNames` | src/main/java/ru/draen/verif/tac/TACRegistry.java:56-58 | after rendering, bound destinations keep their names; the unbound `Assign` at index k is named `_t<c+u>`, where c is the counter before and u the number of unbound `Assign`s before k; the counter rises by the number of unbound `Assign`s; nothing else is named |
| `TacRegistry.RenderedTempName` | src/main/java/ru/draen/verif/tac/TACRegistry.java:58 | an unbound `Assign` destination receives the temporary its rank among unbound `Assign`s gives |
| `TacRegistry.TempNamesDistinct` | src/main/java/ru/draen/verif/tac/TACRegistry.java:31-33 | two distinct unbound `Assign` destinations get distinct temporaries |
| `TacRegistry.RenderIdempotent` | src/main/java/ru/draen/verif/tac/TACRegistry.java:58 | when every operand refers to an earlier record, a second rendering prints the same text and leaves the same names as the first, because the names are cached |
| `Tac.NatToStringInjective` | src/main/java/ru/draen/verif/tac/TACRegistry.java:32 | different counters print as different decimal texts, so generated names never collide |
| `TacContext.FindLoop` | src/main/java/ru/draen/verif/tac/TACContext.java:22-27 | finds the innermost descriptor with the name, none before it has the name, and it is absent exactly when no descriptor has the name |
| `TacContext.InnerShadowsOuter` | src/main/java/ru/draen/verif/tac/TACContext.java:32-37 | an inner loop shadows an outer loop of the same name for both `break` and `continue` |
| `TacContext.UnnamedIsFoundByName` | src/main/java/ru/draen/verif/tac/TACContext.java:12 | an unlabelled loop is pushed as `_unnamed`, so a jump naming `_unnamed` finds it |
| `TacContext.Context.constructor` | src/main/java/ru/draen/verif/tac/TACContext.java:9 | a new context has no loop descriptors |
| `TacContext.Context.EnterLoop` | src/main/java/ru/draen/verif/tac/TACContext.java:11-13 | pushes `(name, or "_unnamed" when none; entry; exit)` on top of the unchanged stack |
| `TacContext.Context.ExitLoop` | src/main/java/ru/draen/verif/tac/TACContext.java:14-16 | pops exactly the top descriptor, so a push followed by a pop restores the stack |
| `TacContext.Context.ContinueLoop` | src/main/java/ru/draen/verif/tac/TACContext.java:18-21 | returns the innermost descriptor's entry label; needs a non-empty stack; changes nothing |
| `TacContext.Context.ContinueLoopNamed` | src/main/java/ru/draen/verif/tac/TACContext.java:22-27 | succeeds exactly when some descriptor has the name, returning the entry label of the innermost one; otherwise fails with the name; changes nothing |
| `TacContext.Context.BreakLoop` | src/main/java/ru/draen/verif/tac/TACContext.java:28-31 | returns the innermost descriptor's exit label; needs a non-empty stack; changes nothing |
| `TacContext.Context.BreakLoopNamed` | src/main/java/ru/draen/verif/tac/TACContext.java:32-37 | succeeds exactly when some descriptor has the name, returning the exit label of the innermost one; otherwise fails with the name; changes nothing |
| `Translation.Emit` | src/main/java/ru/draen/verif/tac/TACRegistry.java:13-16 | appending yields `Reference` to the old length |
| `Translation.Translate` | src/main/java/ru/draen/verif/TACVisitor.java:24-287 | the dispatch over node kinds; a translation that succeeds leaves the loop stack as it found it |
| `Translation.TranslateAll` | src/main/java/ru/draen/verif/TACVisitor.java:25-28 | translating a child list in order stops at the first failure; on success it yields no value and leaves the loop stack as found |
| `Translation.DefaultAction` | src/main/java/ru/draen/verif/TACVisitor.java:24-28 | the fallback translates every child and, on success, leaves the loop stack as found |
| `Translation.TranslateBinary` | src/main/java/ru/draen/verif/TACVisitor.java:31-40 | on success the value is a reference to the last record and the loop stack is unchanged |
| `Translation.TranslateUnary` | src/main/java/ru/draen/verif/TACVisitor.java:42-90 | on success the loop stack is unchanged |
| `Translation.AsReference` | src/main/java/ru/draen/verif/TACVisitor.java:99-101 | the result is always a reference, and the loop stack is unchanged |
| `Translation.TranslateAssign` | src/main/java/ru/draen/verif/TACVisitor.java:92-104 | on success the loop stack is unchanged |
| `Translation.TranslateDeclarator` | src/main/java/ru/draen/verif/TACVisitor.java:107-117 | on success the loop stack is unchanged |
| `Translation.TranslateIf` | src/main/java/ru/draen/verif/TACVisitor.java:144-165 | on success the loop stack is unchanged (the emission order is stated by `ShapeFacts.IfElseShape`, `ThenElseShape` and `IfShape`) |
| `Translation.TranslateLoop` | src/main/java/ru/draen/verif/TACVisitor.java:189-211 | `while` and `do` push one descriptor and pop it again, so on success the loop stack is as before (the emission order is stated by `ShapeFacts.WhileShape` and `DoShape`) |
| `Translation.LoopTest` | src/main/java/ru/draen/verif/TACVisitor.java:196-204 | the test and body of a loop leave the loop stack unchanged on success (their order for `while` and `do` is stated by `ShapeFacts.WhileTestShape` and `DoTestShape`) |
| `Translation.ForCompare` | src/main/java/ru/draen/verif/TACVisitor.java:176-179 | the optional `for` condition leaves the loop stack unchanged on success (its template is stated by `ShapeFacts.ForCompareShape`) |
| `Translation.TranslateFor` | src/main/java/ru/draen/verif/TACVisitor.java:168-187 | `for` pushes one descriptor and pops it again, so on success the loop stack is as before (the emission order is stated by `ShapeFacts.ForShape`) |
| `Translation.TranslateBreak` | src/main/java/ru/draen/verif/TACVisitor.java:222-227 | `break` never changes the loop stack, whether it succeeds or fails (its single `GoTo` is stated by `Scenarios.BreakInnermost` and `ShapeFacts.NamedJumpShape`) |
| `Translation.TranslateContinue` | src/main/java/ru/draen/verif/TACVisitor.java:229-234 | `continue` never changes the loop stack, whether it succeeds or fails (its single `GoTo` is stated by `Scenarios.ContinueInnermost` and `ShapeFacts.NamedJumpShape`) |
| `Translation.TranslateMethod` | src/main/java/ru/draen/verif/TACVisitor.java:240-248 | on success the loop stack is unchanged (its template is stated by `ShapeFacts.MethodShape`) |
| `TacVisitor.Visitor.constructor` | src/main/java/ru/draen/verif/TACVisitor.java:20-22 | the visitor writes to the registry it is given |
| `TacVisitor.Visitor.NewLabel` | src/main/java/ru/draen/verif/TACVisitor.java:147 | `TACLabel.create()` gives an anonymous label with a fresh id |
| `TacVisitor.Visitor.NewNamedLabel` | src/main/java/ru/draen/verif/TACVisitor.java:242 | `TACLabel.create(name)` gives a named label with a fresh id |
| `TacVisitor.Visitor.Visit` | src/main/java/ru/draen/verif/TACVisitor.java:16-287 | the new registry, context and label counter, and the value or failure, are exactly those `Translate` gives for the node |
| `TacVisitor.Visitor.VisitAll` | src/main/java/ru/draen/verif/TACVisitor.java:26 | the `forEach` over children equals `TranslateAll`, stopping at the first failure |
| `TacVisitor.Visitor.DefaultAction` | src/main/java/ru/draen/verif/TACVisitor.java:24-28 | it equals `Translation.DefaultAction`: every child is visited, and the value is `Unknown` |
| `TacVisitor.Visitor.HandleBinary` | src/main/java/ru/draen/verif/TACVisitor.java:31-40 | it equals `TranslateBinary`, and a successful value is a reference |
| `TacVisitor.Visitor.VisitUnary` | src/main/java/ru/draen/verif/TACVisitor.java:42-90 | it equals `TranslateUnary` |
| `TacVisitor.Visitor.Prefix` | src/main/java/ru/draen/verif/TACVisitor.java:53-66 | it equals `PrefixStep`: the update bound to the name, then the copy that is returned |
| `TacVisitor.Visitor.Postfix` | src/main/java/ru/draen/verif/TACVisitor.java:67-82 | it equals `PostfixStep`: the copy that is returned, then the update bound to the name |
| `TacVisitor.Visitor.AsReference` | src/main/java/ru/draen/verif/TACVisitor.java:99-101 | it equals `Translation.AsReference`, and the result is a reference |
| `TacVisitor.Visitor.VisitAssign` | src/main/java/ru/draen/verif/TACVisitor.java:92-104 | it equals `TranslateAssign` |
| `TacVisitor.Visitor.VisitDeclarator` | src/main/java/ru/draen/verif/TACVisitor.java:107-117 | it equals `TranslateDeclarator` |
| `TacVisitor.Visitor.VisitIf` | src/main/java/ru/draen/verif/TACVisitor.java:144-165 | it equals `TranslateIf` |
| `TacVisitor.Visitor.HandleWhile` | src/main/java/ru/draen/verif/TACVisitor.java:189-211 | it equals `TranslateLoop` |
| `TacVisitor.Visitor.LoopTest` | src/main/java/ru/draen/verif/TACVisitor.java:196-204 | it equals `Translation.LoopTest` |
| `TacVisitor.Visitor.ForCompare` | src/main/java/ru/draen/verif/TACVisitor.java:176-179 | it equals `Translation.ForCompare`, whose template `ShapeFacts.ForCompareShape` states |
| `TacVisitor.Visitor.VisitFor` | src/main/java/ru/draen/verif/TACVisitor.java:168-187 | it equals `TranslateFor`, whose emission order `ShapeFacts.ForShape` states |
| `TacVisitor.Visitor.VisitBreak` | src/main/java/ru/draen/verif/TACVisitor.java:222-227 | it equals `TranslateBreak`, whose single `GoTo` `Scenarios.BreakInnermost` (unlabelled) and `ShapeFacts.NamedJumpShape` (labelled) state |
| `TacVisitor.Visitor.VisitContinue` | src/main/java/ru/draen/verif/TACVisitor.java:229-234 | it equals `TranslateContinue`, whose single `GoTo` `Scenarios.ContinueInnermost` (unlabelled) and `ShapeFacts.NamedJumpShape` (labelled) state |
| `TacVisitor.Visitor.VisitMethod` | src/main/java/ru/draen/verif/TACVisitor.java:240-248 | it equals `TranslateMethod`, whose template `ShapeFacts.MethodShape` states |
| `TranslationFacts.TranslateSound` | src/main/java/ru/draen/verif/tac/TACRegistry.java:13-16 | every translation only appends: earlier records, bindings of earlier records and earlier labels are kept, and `varCounter` is untouched; the value is not a reference or refers to a record the sub-tree appended; every reference operand points to an earlier record |
| `TranslationFacts.TranslatedRenderIdempotent` | src/main/java/ru/draen/verif/tac/TACRegistry.java:43-86 | consider any program translated from a fresh registry and context; all its operands point backwards, and rendering its registry twice gives the same text |
| `BindingFacts.TranslateIgnoresBindings` | src/main/java/ru/draen/verif/TACVisitor.java:128-132 | reads never consult bindings: from two states that differ only in bindings, a translation yields the same value, records, labels and stack |
| `JumpFacts.NoDanglingJumps` | src/main/java/ru/draen/verif/TACVisitor.java:144-234 | consider a program translated from a fresh registry and context; every `GoTo`/`IfFalse` it emits targets a label that was attached and named |
| `ShapeFacts.LoopShape` | src/main/java/ru/draen/verif/TACVisitor.java:189-211 | a `while` or `do` only appends; its last record is `GoTo(start)`, followed by `after` attached; `start` gets the first anonymous number it uses, since it is attached before condition and body, and is keyed at the last position before the loop; the loop stack is as before |
| `ShapeFacts.LoopEntryFacts` | src/main/java/ru/draen/verif/TACVisitor.java:191-194 | entering a loop appends no record, keys `start` at the last position before the loop and pushes a descriptor holding the loop's name, `start` and `after` |
| `ShapeFacts.LoopExitFacts` | src/main/java/ru/draen/verif/TACVisitor.java:207-209 | leaving a loop appends exactly `GoTo(start)`, keys `after` at that jump and pops the innermost descriptor |
| `ShapeFacts.WhileTestShape` | src/main/java/ru/draen/verif/TACVisitor.java:200-203 | the test of a `while`: the condition's records after the old ones, then `IfFalse(c, after)`, then the body's records; the outcome is the body's, or the condition's when it fails |
| `ShapeFacts.DoTestShape` | src/main/java/ru/draen/verif/TACVisitor.java:196-199 | the test of a `do`: the body's records after the old ones, then the condition's, then `IfFalse(c, after)`; a failing body or condition is the outcome |
| `ShapeFacts.WhileShape` | src/main/java/ru/draen/verif/TACVisitor.java:189-211 | for any condition and body of a `while`: `start` keyed at the last position before the loop and the loop pushed; then the condition's records, `IfFalse(c, after)`, the body's records, `GoTo(start)`, with `after` keyed at that jump; a failing condition or body is the outcome; the loop stack is restored |
| `ShapeFacts.DoShape` | src/main/java/ru/draen/verif/TACVisitor.java:189-215 | for any body and condition of a `do`: the same entry; then the body's records, the condition's records, `IfFalse(c, after)`, `GoTo(start)`, with `after` keyed at that jump; the body is translated before the condition; failures are the outcome |
| `ShapeFacts.IfElseShape` | src/main/java/ru/draen/verif/TACVisitor.java:146-155 | for any condition and branches: `else` and `after` are the next two anonymous labels; the condition is translated first after the old records, a failing condition is the outcome, and the rest is `IfElseRest` |
| `ShapeFacts.ThenElseShape` | src/main/java/ru/draen/verif/TACVisitor.java:150-155 | after the condition: `IfFalse(v, else)`, the then branch's records, `GoTo(after)`, the else branch's records; `else` keyed at the `GoTo`'s position before the else branch, `after` keyed at the last position; a failing branch is the outcome |
| `ShapeFacts.IfShape` | src/main/java/ru/draen/verif/TACVisitor.java:156-161 | for any condition and branch of an `if` without `else`: the condition's records, `IfFalse(c, after)`, the branch's records, with `after` keyed at the last position; failures are the outcome |
| `ShapeFacts.ForShape` | src/main/java/ru/draen/verif/TACVisitor.java:168-187 | for any initializers, condition, updates and body of a `for`: the initializers' records after the old ones; then `start` keyed at the last position before the loop and the loop pushed; then the condition with its `IfFalse(c, after)`, the body, the updates, and `GoTo(start)` with `after` keyed at it; both labels are created by the loop after its initializers; each failing part is the outcome; the loop stack is restored |
| `ShapeFacts.ForCompareShape` | src/main/java/ru/draen/verif/TACVisitor.java:176-179 | an absent `for` condition appends nothing; a present one appends its own records and then `IfFalse(c, after)`; a failing one is the outcome |
| `ShapeFacts.MethodShape` | src/main/java/ru/draen/verif/TACVisitor.java:240-248 | a method attaches `_method_<name>` at the position before its first record; that record is `BeginFunc`; then come exactly the body's records (none without a body) and `EndFunc`, which keys no label; a failing body is the outcome |
| `ShapeFacts.NamedJumpShape` | src/main/java/ru/draen/verif/TACVisitor.java:222-234 | a labelled jump fails, appending nothing, exactly when no enclosing loop has the name; otherwise the whole outcome is one appended `GoTo` to the exit (break) or entry (continue) of the innermost loop with that name and the reference to it, with labels, bindings, names, counters and `nextLabel` unchanged |
| `ExpressionFacts.BinaryShape` | src/main/java/ru/draen/verif/TACVisitor.java:31-35 | the left operand is translated completely before the right; then exactly one `Assign(arg1, arg2, op)` follows their records; the value references it; a failing left operand stops the translation |
| `ExpressionFacts.UnaryShape` | src/main/java/ru/draen/verif/TACVisitor.java:43-90 | `+x` appends nothing and returns x; `-x` appends `0 - x`; `!x` appends `1 - x`; `~x` yields `Unknown` and appends nothing |
| `ExpressionFacts.IncrementShape` | src/main/java/ru/draen/verif/TACVisitor.java:53-82 | prefix appends the update then the copy it returns; postfix appends the copy it returns then the update; the update is bound to the operand's identifier, or `UNKNOWN` when the operand is not `Named` |
| `ExpressionFacts.PlainAssignShape` | src/main/java/ru/draen/verif/TACVisitor.java:96-102 | a reference value is reused and nothing is appended; any other value gets exactly one copy record; the result is bound to the target text |
| `ExpressionFacts.CompoundAssignShape` | src/main/java/ru/draen/verif/TACVisitor.java:93-96 | a compound assignment is the binary template with the target as left operand, bound to the target text |
| `ExpressionFacts.DeclaratorShape` | src/main/java/ru/draen/verif/TACVisitor.java:107-117 | without an initializer nothing is appended or bound; with one, its value becomes a reference (copied when it is not one) bound to the declared name; the value is `NONE` |
| `ExpressionFacts.ReadIsNamed` | src/main/java/ru/draen/verif/TACVisitor.java:128-132 | a variable read yields `Named(id)` and changes nothing |
| `Scenarios.PrefixIncrementOrder` | src/main/java/ru/draen/verif/TACVisitor.java:53-59 | `++x` appends `x + 1` bound to x, then the copy `x`, which is the value |
| `Scenarios.PostfixIncrementOrder` | src/main/java/ru/draen/verif/TACVisitor.java:67-74 | `x++` appends the copy `x`, which is the value, then `x + 1` bound to x |
| `Scenarios.ComplementIsCopiedUnknown` | src/main/java/ru/draen/verif/TACVisitor.java:86-102 | `a = ~b` copies the `Unknown` placeholder into a record bound to `a` |
| `Scenarios.IfOfName` | src/main/java/ru/draen/verif/TACVisitor.java:156-161 | an `if` without `else` is `IfFalse(c, after)`, the branch, then `after` attached |
| `Scenarios.SingleIf` | src/main/java/ru/draen/verif/TACVisitor.java:156-161 | `if (c) x;` appends only the `IfFalse` and attaches `after` behind it |
| `Scenarios.NestedIfsShareOnePosition` | src/main/java/ru/draen/verif/tac/TACRegistry.java:22-28 | two nested `if`s ending together attach both labels at one position; the outer replaces the inner in `labels`; both keep names, the inner with the lower number; no position holds the inner label |
| `Scenarios.LabelledBreakLeavesOuterLoop` | src/main/java/ru/draen/verif/TACVisitor.java:222-227 | in `outer: while (a) while (b) break outer;` the break jumps to the outer `after`; the exact records and label positions are given |
| `Scenarios.UnknownLabelAborts` | src/main/java/ru/draen/verif/tac/TACContext.java:32-36 | `while (a) break name;` with no loop called `name` fails with `name`; the test was emitted and the loop is still on the stack |
| `Scenarios.BreakInnermost` | src/main/java/ru/draen/verif/TACVisitor.java:222-227 | an unlabelled `break` appends one jump to the innermost loop's exit and returns the reference to it |
| `Scenarios.ContinueInnermost` | src/main/java/ru/draen/verif/TACVisitor.java:229-234 | an unlabelled `continue` appends one jump to the innermost loop's entry |
| `Scenarios.ForContinueSkipsUpdate` | src/main/java/ru/draen/verif/TACVisitor.java:169-187 | in `for (; c; i++) continue;` the `continue` jumps to the label attached before the condition, skipping the update; exact records, labels and bindings |
| `MethodScenario.DeclareBOutcome` | src/main/java/ru/draen/verif/Main.java:13 | `int b = (3 - i * 7) / 5;` appends `i * 7`, `3 - _`, `_ / 5` in that order and binds the last to `b` |
| `MethodScenario.TestMethodRecords` | src/main/java/ru/draen/verif/Main.java:11-14 | the method `test`, translated from a fresh state, gives six records, two bindings and its label at -1 |
| `MethodListing.TestMethodListing` | src/main/java/ru/draen/verif/Main.java:11-14 | the listing of `test` is `_method_test:` then `BeginFunc`, `i := 3`, `_t0 := i * 7`, `_t1 := 3 - _t0`, `b := _t1 / 5`, `EndFunc`, tab-separated, under the value and operation texts of "## Left out" |

## Left out

- JavaParser, its AST classes, and the `GenericVisitorWithDefaults` dispatch are replaced by the closed datatype `Syntax.Node`. The child order that `defaultAction` gets from `getChildNodes` is the given child list of `Other`.
- `LabelVisitor` and `getStmtLabel` are not part of this model. Their result is the optional `stmtLabel` field of each loop node.
- `Main.java` (the driver that parses text and prints) is not part of this model. Its method `test` is used as a worked example.
- The `main` method of the sample program in `Main.java` is not worked through; only `test` is.
- `TACValue`, `TACStmt`, `TACLabel`, `TACOperation` and `TACMark` are not part of this model. The `toString` texts of values and operations are abstract: a value prints its carried text, and an operation prints its token.
- Literal semantics (numeric, double, long) are left out. A `Const` is the literal's text.
- An unlabelled `break` or `continue` outside every loop makes Java's `peek` return null and throw a `NullPointerException`. This is a precondition (`Syntax.JumpsInLoops`) on the translator and on `ContinueLoop`/`BreakLoop`, not a modelled failure.
- The `IllegalStateException` of a failed named lookup is modelled as `Err(name)`. The state at the throw is kept, but nothing models catching it.
- `getValueString`'s `null` operand case is left out: no instruction holds a null operand. A missing binding or label name renders as `null`, as appending a missing map entry does in Java.
- `HashMap` hashing and record equality of `Reference` are left out. Maps keyed by `int` index stand for them.
- Java `int` overflow of the counters (after 2^31 names) is not modelled. Counters are unbounded naturals.
- `Translation.TranslateUnary`, `Translation.TranslateAssign`, `Translation.TranslateDeclarator`, `Translation.TranslateIf`, `Translation.TranslateLoop`, `Translation.LoopTest`, `Translation.ForCompare`, `Translation.TranslateFor`, `Translation.TranslateBreak`, `Translation.TranslateContinue`, `Translation.TranslateMethod`: the function's own contract states only that the loop stack is preserved. Their templates are stated by lemmas: `ExpressionFacts.UnaryShape`, `IncrementShape`, `PlainAssignShape`, `CompoundAssignShape`, `DeclaratorShape`; `ShapeFacts.IfElseShape`, `ThenElseShape`, `IfShape`, `WhileShape`, `DoShape`, `WhileTestShape`, `DoTestShape`, `LoopShape`, `ForCompareShape`, `ForShape`, `NamedJumpShape`, `MethodShape`; `Scenarios.BreakInnermost`, `ContinueInnermost`.
- A `break` inside a `switch` is not modelled as leaving the `switch`. The code's `BreakStmt` visit always looks up a loop, and a `switch` is a node of no known kind (`Other`). So an unlabelled `break` in a `switch` inside a loop jumps to that loop's exit, in the code and in the model.
