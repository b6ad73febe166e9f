# Context-aware subprocess disambiguation (xonsh `ast.py`)

xonsh mixes Python with bare shell commands. A line such as `ls -la` parses
as a Python expression statement; the `CtxAwareTransformer` in
`xonsh/ast.py` walks the parsed tree once, keeping a stack of the names bound
so far, and at every expression statement decides whether the statement is
Python (its leftmost name is bound) or a command. A command line is rewritten
into subprocess syntax, parsed again, and the parsed statement takes the
original's place and position; a line that does not parse is left alone.

The project models:

- `leftmostname`, the identifier an expression looks up first
  (`syntax.dfy`, module `Syntax`), over a datatype of the Python syntax the
  pass reads. Expressions and statements are separate datatypes, as in
  Python's grammar, where no expression contains a statement.
- the scope stack and its operations: bind in the innermost frame, bind in
  the global frame (index 1), remove from the innermost frame holding a name,
  push and pop a frame (`scopes.dfy`, module `Scopes`). Bound names are
  `Option<string>`, because `leftmostname` can give `None` and the source
  adds that `None` to a frame like any name.
- the whole walk as pure functions of the tree and the stack
  (`disambiguation.dfy`, module `Disambiguation`): `Walk` (one statement, by
  kind), `GenericWalk` (the suites of a statement, in field order),
  `WalkBlock`, `WalkHandlers`, and `Disambiguate` (one run from the root
  context).
- the transformer itself as a class with the fields `contexts` and `lines`
  (`transformer.dfy`, module `Transformer`), with one method per visitor and
  per helper of the source, each proved equal to the corresponding function.
- what the pass guarantees (`properties.dfy`, module `Properties`): a
  statement's walk changes the frames below the innermost one only by deleting
  names that a `del` inside it names and by adding, to the global frame, names
  that a `global` inside it declares (`WalkEvolves`). Function and class
  scoping, the persistence of bindings and of `global` declarations, and the
  keeping of bound expression statements follow from it.
- worked examples (`scenarios.dfy`, module `Scenarios`): assignment then
  use, a function-local name used after the function, `del` of a name never
  bound, a command whose first word is in the root context, and a `del`
  inside a function that removes a module-level name.

The parser and `subproc_line` are parameters: the parser is any function from
a line to `Parsed(body)` or `SyntaxError`, and `subproc_line` any function
from string to string. The one thing assumed of the parser is the contract of
its caller: a successful parse has at least one statement
(`ParserYieldsStatement`).

The model follows `xonsh/ast.py`, including where it may surprise a reader:
an assignment's value is not visited (`visit_Assign` does not call
`generic_visit`); augmented assignment binds nothing, since there is no visitor for
it; and a `None` leftmost name counts as bound once a target without a
leftmost name has added `None` to a frame.

## Model

| member | source | states |
|---|---|---|
| `Syntax.LeftmostName` | xonsh/ast.py:16-28 | the result is the name at the end of the chain of first operands (left operand of a binary operation or comparison, base of an attribute, subscript or starred expression, callee of a call, never its arguments), or `None` when that chain ends in anything but a name |
| `Syntax.StmtLeftmostName` | xonsh/ast.py:22-23 | an expression statement gives its value's leftmost name; a `Some` result only comes from an expression statement |
| `Syntax.Spine` | xonsh/ast.py:20-25 | the chain starts at the expression, each element is the first operand of the one before, and the last has no first operand |
| `Scopes.AddTop` | xonsh/ast.py:71-75 | the innermost frame gains the names, the frames below it and the depth stay as they are (`AddTopBound` gives its effect on binding) |
| `Scopes.AddGlobal` | xonsh/ast.py:171 | frame 1 gains the names, every other frame and the depth stay as they are (`AddGlobalBound` gives its effect on binding) |
| `Scopes.Push` | xonsh/ast.py:144 | one empty frame is added on top of the unchanged stack |
| `Scopes.Pop` | xonsh/ast.py:146 | the innermost frame is dropped and the rest kept: the stack is the result followed by its old top |
| `Scopes.PopPush` | xonsh/ast.py:144-146 | leaving a body drops exactly the frame entering it added |
| `Scopes.RemoveInnermost` | xonsh/ast.py:77-81 | removal keeps the depth (`RemoveInnermostCases` gives the frames) |
| `Scopes.RemoveInnermostAt` | xonsh/ast.py:78-81 | with frame `k` the innermost holder, the result is the stack with the name taken out of frame `k` alone |
| `Scopes.RemoveInnermostUnbound` | xonsh/ast.py:78-79 | removal of a name no frame holds leaves the stack as it is |
| `Scopes.Initial` | xonsh/ast.py:66 | a run starts with exactly two frames: the root names and an empty global frame |
| `Scopes.RemoveInnermostCases` | xonsh/ast.py:77-81 | removal takes the name out of the innermost frame holding it only, all other frames and the number of frames unchanged; when no frame holds it nothing changes |
| `Scopes.RemoveInnermostBound` | xonsh/ast.py:77-81 | after removal the name is still bound exactly when a frame outside the innermost holder also holds it |
| `Scopes.AddTopBound` | xonsh/ast.py:71-75 | binding in the innermost frame makes the new names bound and changes the binding of no other name |
| `Scopes.AddGlobalBound` | xonsh/ast.py:170-171 | binding in the global frame makes the new names bound and changes the binding of no other name, at any depth |
| `Disambiguation.TargetNames` | xonsh/ast.py:104-107 | a tuple or list target binds the leftmost name of each element; any other target binds exactly its own leftmost name |
| `Disambiguation.AssignedNames` | xonsh/ast.py:103-107 | the names of every target of the assignment are bound |
| `Disambiguation.ImportedName` | xonsh/ast.py:112-115 | an import binds its alias when it has one, and its name otherwise |
| `Disambiguation.ImportedNames` | xonsh/ast.py:111-115 | every imported name or its alias is bound, and never `None` |
| `Disambiguation.WithNames` | xonsh/ast.py:127-129 | the leftmost name of every present `as` target is bound |
| `Disambiguation.HandlerNames` | xonsh/ast.py:164-166 | the name of every named handler is bound, and never `None` |
| `Disambiguation.DeclaredNames` | xonsh/ast.py:171 | every declared name is in the set, and `None` never is (`AddGlobalBound` gives where the set is bound) |
| `Disambiguation.Reparse` | xonsh/ast.py:92-97 | fails exactly when the parser reports a syntax error for the rewritten line; otherwise gives the first parsed statement at the original line and column |
| `Disambiguation.Reparsed` | xonsh/ast.py:92-100 | on a successful parse, the first parsed statement moved to the original line and column; on a syntax error, the original statement |
| `Disambiguation.ExprVisited` | xonsh/ast.py:84-100 | the statement itself when its leftmost name is bound, its reparse otherwise, and at its own position either way |
| `Disambiguation.Disambiguate` | xonsh/ast.py:65-69 | one run returns one statement per top-level statement (`DisambiguateKeepsPositions` gives their positions) |
| `Disambiguation.Walk` | xonsh/ast.py:83-173 | visiting any statement leaves the stack as deep as it found it |
| `Disambiguation.GenericWalk` | xonsh/ast.py:130 | visiting the suites of a statement leaves the stack as deep as it found it |
| `Disambiguation.WalkBlock` | xonsh/ast.py:145 | visiting a statement list keeps its length and the stack's depth |
| `Disambiguation.WalkHandlers` | xonsh/ast.py:167 | visiting the handlers of a `try` keeps their number and the stack's depth |
| `Disambiguation.Unbind` | xonsh/ast.py:156-159 | `del` never changes the number of frames |
| `Transformer.CtxAwareTransformer.constructor` | xonsh/ast.py:37-46 | a new transformer holds the given parser and an empty scope stack |
| `Transformer.CtxAwareTransformer.CtxVisit` | xonsh/ast.py:48-69 | one run returns the module body walked from the frames `[root, {}]` over the given lines, as long as the tree, and leaves both fields cleared |
| `Transformer.CtxAwareTransformer.CtxUpdate` | xonsh/ast.py:71-72 | all given names are added to the innermost frame, nothing else changes |
| `Transformer.CtxAwareTransformer.CtxAdd` | xonsh/ast.py:74-75 | the name is added to the innermost frame, nothing else changes |
| `Transformer.CtxAwareTransformer.CtxRemove` | xonsh/ast.py:77-81 | the reverse search with early exit removes the name from the innermost frame holding it only, or changes nothing |
| `Transformer.CtxAwareTransformer.VisitExpr` | xonsh/ast.py:83-100 | the statement itself when its leftmost name is in some frame, searched innermost first; otherwise the first statement of the parsed subprocess form of its line, carrying the original line and column; the statement itself on a syntax error; the scope is not read beyond this and not changed |
| `Transformer.CtxAwareTransformer.VisitAssign` | xonsh/ast.py:102-108 | the innermost frame gains the leftmost name of every element of each tuple or list target and the leftmost name of every other target; no other frame changes; the node is returned unvisited |
| `Transformer.CtxAwareTransformer.VisitImport` | xonsh/ast.py:110-116 | the innermost frame gains each imported name's alias, or the name when it has none |
| `Transformer.CtxAwareTransformer.VisitImportFrom` | xonsh/ast.py:118-124 | as for `import`, per imported member |
| `Transformer.CtxAwareTransformer.BindImported` | xonsh/ast.py:111-115 | the loop shared by both import visitors binds exactly the imported names or aliases in the innermost frame |
| `Transformer.CtxAwareTransformer.BindWithTargets` | xonsh/ast.py:127-129 | the loop over the items binds exactly the `WithNames` of the items in the innermost frame |
| `Transformer.CtxAwareTransformer.VisitWith` | xonsh/ast.py:126-131 | the innermost frame gains the leftmost name of each `as` target that is present, then the body is visited |
| `Transformer.CtxAwareTransformer.VisitFor` | xonsh/ast.py:133-140 | the loop target binds as an assignment target does, then body and else-suite are visited |
| `Transformer.CtxAwareTransformer.VisitFunctionDef` | xonsh/ast.py:142-147 | the name is bound in the current innermost frame, the body is visited in a new frame, and that frame is dropped |
| `Transformer.CtxAwareTransformer.VisitClassDef` | xonsh/ast.py:149-154 | as for a function |
| `Transformer.CtxAwareTransformer.VisitDelete` | xonsh/ast.py:156-161 | each target that is a plain name is removed, in order, from the innermost frame holding it; other targets change nothing |
| `Transformer.CtxAwareTransformer.VisitTry` | xonsh/ast.py:163-168 | the innermost frame gains every handler name that is present, then all suites are visited |
| `Transformer.CtxAwareTransformer.VisitGlobal` | xonsh/ast.py:170-173 | the declared names are added to frame 1 whatever the depth |
| `Transformer.CtxAwareTransformer.Visit` | xonsh/ast.py:30 | dispatch by statement kind to the visitor of that kind, or to the generic visit |
| `Transformer.CtxAwareTransformer.GenericVisit` | xonsh/ast.py:30 | the suites of the statement are visited in field order and replaced by their visited forms |
| `Transformer.CtxAwareTransformer.VisitBlock` | xonsh/ast.py:30 | the statements of a list are visited in order, each seeing the scope the ones before it left |
| `Transformer.CtxAwareTransformer.VisitHandlers` | xonsh/ast.py:30 | each handler's body is visited in order |
| `Properties.RemoveInnermostFrames` | xonsh/ast.py:77-81 | each frame loses at most the name and gains nothing, and of any two frames at least one is unchanged: removal touches at most one frame |
| `Properties.UnbindOnlyRemovesPlainNames` | xonsh/ast.py:156-161 | `del` removes only names of its plain-name targets and never adds a name |
| `Properties.WalkEvolves` | xonsh/ast.py:83-173 | visiting a statement removes from any frame only names deleted inside it, and adds to frames below the innermost only names declared `global` inside it, and only to frame 1 |
| `Properties.WalkKeepsPosition` | xonsh/ast.py:83-173 | a visited statement stays at its line and column: visitors return the node, and a reparse copies both |
| `Properties.WalkBlockKeepsPositions` | xonsh/ast.py:96-97 | every statement of a visited list keeps its line and column |
| `Properties.DisambiguateKeepsPositions` | xonsh/ast.py:65-69 | every statement of a run's result sits at the line and column of the one it replaces |
| `Properties.DefinitionScoped` | xonsh/ast.py:142-154 | after a definition the stack has its old depth and a name is bound only if it was bound before, is the defined name, or is declared `global` in the body; names bound only in the body are gone |
| `Properties.HeaderBindingPersists` | xonsh/ast.py:102-173 | the names a statement's header binds (targets, imports, `as` names, handler names, the defined name, `global` names) are bound after it unless a `del` inside it deletes them |
| `Properties.ExprKeptWhenBound` | xonsh/ast.py:84-91 | an expression statement whose leftmost name the preceding statements bound is kept as it is |
| `Properties.EarlierBindingKeepsStatement` | xonsh/ast.py:84-91 | a binding statement keeps every later expression statement of the same list that starts with a name it binds, unless a `del` in between removes it |
| `Properties.WalkBlockAppend` | xonsh/ast.py:145 | visiting a list is visiting its two halves one after the other |
| `Properties.GlobalSurvivesBlock` | xonsh/ast.py:170-171 | the names of a `global` statement are in frame 1 after its list, unless a later statement deletes them |
| `Properties.GlobalSurvivesDefinition` | xonsh/ast.py:142-154 | a `global` inside a function or class body leaves its names in frame 1 after the body's frame is dropped, unless a later statement of the body deletes them |
| `Properties.RecursiveReferenceKept` | xonsh/ast.py:143-145 | the function's own name is bound while its body is visited, so a body that opens with a reference to the function keeps it |
| `Scenarios.UnboundStatementReparsed` | xonsh/ast.py:92-100 | an expression statement, at any position of a list, whose leftmost name the statements before it leave unbound becomes its reparse, or stays on a syntax error |
| `Scenarios.AssignedThenUsed` | xonsh/ast.py:102-108 | in `foo = 1`, `foo`, `bar` the statement `foo` is kept and `bar` is reparsed |
| `Scenarios.LocalUseKept` | xonsh/ast.py:142-147 | inside `def f():`, `x = 1` then `x` keeps the use |
| `Scenarios.LocalNameGone` | xonsh/ast.py:142-147 | that definition, visited where `x` is unbound, leaves `x` unbound |
| `Scenarios.FunctionLocalName` | xonsh/ast.py:142-147 | a name assigned inside a function keeps its use inside the body; the same name used after the function is reparsed |
| `Scenarios.DeleteOfUnboundName` | xonsh/ast.py:156-161 | `del` of one name that no frame holds returns the statement and leaves every frame unchanged |
| `Scenarios.DeleteUnbound` | xonsh/ast.py:77-81 | `del x` of a name never bound changes nothing, and a later `x` is reparsed |
| `Scenarios.RootNameKept` | xonsh/ast.py:65-91 | `ls -la` with `ls` in the root context is Python and is kept |
| `Scenarios.DelInFunction` | xonsh/ast.py:77-81 | `def f(): del x` with `x` bound only at module level removes it there: the search runs outwards from the function's frame |
| `Scenarios.DelInFunctionRemovesOuter` | xonsh/ast.py:156-161 | `x = 1`, `def f(): del x`, `x`: the last statement is reparsed |

## Left out

- The `ast` node classes and the `NodeTransformer` machinery are library code; the model has its own statement and expression datatypes and its own dispatch and generic visit. Expression-valued fields the pass never reads (argument lists, decorators, return annotations, keywords, conditions) are not represented: visiting an expression changes nothing, since no expression holds a statement.
- The tree is a value: each visit returns the visited statement instead of updating nodes in place, so the identity of node objects and the sharing of the returned tree with the argument are not modelled.
- `ctxupdate`, `ctxadd` and `ctxremove` are declared without `self` (xonsh/ast.py:71, 74, 77), so as written every call to them raises `TypeError`: each visit fails as soon as it reaches one of them, which `visit_Assign`, `visit_Import`, `visit_ImportFrom`, `visit_For`, `visit_FunctionDef` and `visit_ClassDef` always do, and `visit_With`, `visit_Delete` and `visit_Try` do when they have an `as` target, a plain-name target or a named handler. `visit_Global` updates frame 1 directly (xonsh/ast.py:171), calls none of them, and does not fail. The model gives them the evidently intended behaviour on `self.contexts`; the failing calls are not modelled.
- The root context is a dictionary in the source and frame 0 is that very object. The model keeps its keys as a set: `del` of a name bound only in the root frame removes it in the model, whereas a dictionary has no `remove` and the source would raise `AttributeError`; changes to the caller's dictionary through frame 0 are not modelled.
- Transformer.CtxAwareTransformer.VisitExpr: requires the line of an unbound statement to lie within the input; the source raises `IndexError` past the end and reads the last line for line 0.
- Disambiguation.Walk: requires every expression statement of the tree to lie within the input (`LinesWithin`), which a tree parsed from that input satisfies. The source reads the line only for an unbound statement (a bound one is returned before `self.lines` is read), raising `IndexError` past the end and reading the last line for line 0; the model does not cover trees whose lines fall outside the input.
- Disambiguation.Reparse: requires a successful parse to contain a statement (`ParserYieldsStatement`); an empty module would raise `IndexError` in the source. Exceptions other than a syntax error from the parser are not modelled.
- `subproc_line` (xonsh.tools) and the parser are not part of this model; both are parameters.
- `str.splitlines` is not modelled: the input arrives as a sequence of lines.
- Transformer.CtxAwareTransformer.CtxVisit: `del self.lines, self.contexts` is modelled as resetting both fields to empty; the unused `self.input` field is not modelled.
- Disambiguation.TargetNames, Disambiguation.AssignedNames, Disambiguation.ImportedNames, Disambiguation.WithNames, Disambiguation.HandlerNames, Disambiguation.DeclaredNames: each contract states that every name the source binds is in the set, not that the set holds nothing else; the exact sets are the function bodies, which the transformer's loops are proved to bind.
- Idempotence of running the pass twice is not stated: it depends on what the parser returns for a rewritten line, which is a parameter here.
