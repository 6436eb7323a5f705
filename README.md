# GraphicsFuzz: structified-field inlining, declaration removal and transformation selection

This project is a Dafny model of three pieces of GraphicsFuzz, a tool that
generates and reduces GLSL shaders.

1. **Inlining a structified field** (`InlineStructifiedField`). This reduction
   opportunity undoes the generator's *structification*. Structification wraps
   a value in a struct whose generated fields are named with the `_f` prefix.
   Applying the opportunity removes such a field from an outer struct and
   splices the inner struct's own fields into the outer struct at the same
   index. An inner field whose name carries the prefix gets the removed
   field's name in front of it. Every constructor call of the outer struct has
   its nested argument replaced by that argument's own arguments. Every lookup
   `x.<field>.f` becomes `x.<new name of f>`. The outer struct and the
   translation unit are objects that the method edits in place. The
   expression walk is specified by the function `Rewritten`, and the methods
   `Visit`, `VisitAll` and `VisitUnit` are proved against it. The walk can
   throw, for example on a failed cast or a null typer lookup. Those paths are
   modelled as `Crashed(fault)` outcomes.
2. **Removing a top-level declaration** (`FunctionOrStruct`). This reduction
   opportunity scans the translation unit's declaration list by index. It
   removes the first entry that is the declaration object itself, and it
   throws "Should be unreachable" when there is none. Its precondition is
   membership (`PreconditionHolds`).
3. **The generator's selection logic** (`Generate`). This part covers:
   - resolving `--disable` and `--enable_only` into the set of enabled
     transformations;
   - the list of transformations to try, in its fixed order;
   - the single-pass loop, which draws every candidate once and applies at
     least one;
   - the multi-pass mode, which keeps roughly half of the candidates and
     then applies them in passes from a pool that refills from `done`;
   - the number of control-flow complication iterations;
   - the bounds of randomised uniforms and of the node limit;
   - the idempotent declaration of the `injectionSwitch` uniform.

   The random generator is the class `Random.Rng`. It consumes a supplied
   stream of draws, `draws(0), draws(1), ...`, and reduces each draw into the
   range that the call promises.

The AST slice shared by these pieces is in `Ast`:
- types, with struct types compared by identity;
- `StructType`, whose field list is edited in place;
- expressions, each carrying a node identity, so that a typer keyed by node
  survives in-place rewriting;
- declarations;
- `TranslationUnit`.

`Seqs` holds the sequence helpers: `StartsWith`, `FirstIndex` and `Splice`.

## Model

| member | source | states |
|---|---|---|
| InlineStructifiedField.InlineStructifiedFieldReductionOpportunity.constructor | reducer/src/main/java/com/graphicsfuzz/reducer/reductionopportunities/InlineStructifiedFieldReductionOpportunity.java:47-57 | the field to inline must start with the structification prefix and name a field whose type, qualifiers aside, is a struct; the object then satisfies `Valid` |
| InlineStructifiedField.InlineStructifiedFieldReductionOpportunity.PreconditionHolds | reducer/src/main/java/com/graphicsfuzz/reducer/reductionopportunities/InlineStructifiedFieldReductionOpportunity.java:137-144 | true exactly when the outer struct has a field named `fieldToInline` |
| InlineStructifiedField.InlineStructifiedFieldReductionOpportunity.InlinedType | reducer/src/main/java/com/graphicsfuzz/reducer/reductionopportunities/InlineStructifiedFieldReductionOpportunity.java:66-67 | the inlined field's type with its qualifiers stripped: never a qualified type, and the field's own type when it was unqualified |
| InlineStructifiedField.InlineStructifiedFieldReductionOpportunity.InlinedIndex | reducer/src/main/java/com/graphicsfuzz/reducer/reductionopportunities/InlineStructifiedFieldReductionOpportunity.java:65 | the index returned is in range and holds the field named `fieldToInline` |
| InlineStructifiedField.InlineStructifiedFieldReductionOpportunity.ApplyReductionImpl | reducer/src/main/java/com/graphicsfuzz/reducer/reductionopportunities/InlineStructifiedFieldReductionOpportunity.java:60-131 | if the field is missing, or is not of struct type, it throws and nothing changes; otherwise the outer field list becomes prefix ++ renamed inner fields ++ suffix, the inner struct is left unchanged, the unit's expressions become their walked form (or, when the walk throws, the walk's fault is reported, the expressions before the failing one are rewritten and that one and the rest are as they were), and with distinct outer names the precondition no longer holds afterwards; declarations are untouched |
| InlineStructifiedField.SpliceInnerFields | reducer/src/main/java/com/graphicsfuzz/reducer/reductionopportunities/InlineStructifiedFieldReductionOpportunity.java:65-79 | `removeField` then the `insertField` loop give exactly `InlinedFields`, and the map filled in the loop is `NameMap` (old inner name to new name) |
| InlineStructifiedField.NewFieldNameShape | reducer/src/main/java/com/graphicsfuzz/reducer/reductionopportunities/InlineStructifiedFieldReductionOpportunity.java:74-76 | a name without the prefix is kept; a new name always ends with the old one; when the inlined field has the prefix, a new name has the prefix exactly when the old one does |
| InlineStructifiedField.InlinedFields | reducer/src/main/java/com/graphicsfuzz/reducer/reductionopportunities/InlineStructifiedFieldReductionOpportunity.java:65-79 | the new outer list has length old − 1 + inner count, and inner field `j` sits at `index + j` with its original type and its new name |
| InlineStructifiedField.NewFieldNameInjective | reducer/src/main/java/com/graphicsfuzz/reducer/reductionopportunities/InlineStructifiedFieldReductionOpportunity.java:74-76 | the renaming is injective: two inner names with the same new name are equal |
| InlineStructifiedField.NewFieldNameNotInlined | reducer/src/main/java/com/graphicsfuzz/reducer/reductionopportunities/InlineStructifiedFieldReductionOpportunity.java:74-76 | no new name equals the inlined field's name |
| InlineStructifiedField.RenamedDistinct | reducer/src/main/java/com/graphicsfuzz/reducer/reductionopportunities/InlineStructifiedFieldReductionOpportunity.java:72-78 | distinct inner field names stay distinct once renamed |
| InlineStructifiedField.InlinedFieldGone | reducer/src/main/java/com/graphicsfuzz/reducer/reductionopportunities/InlineStructifiedFieldReductionOpportunity.java:68-79 | with distinct outer names, the spliced list no longer has a field named `fieldToInline`, so `preconditionHolds` is false after apply |
| InlineStructifiedField.PatchConstructor | reducer/src/main/java/com/graphicsfuzz/reducer/reductionopportunities/InlineStructifiedFieldReductionOpportunity.java:85-94 | a constructor of another type is kept; a constructor of the outer struct has the argument at the inlined index replaced by that argument's own arguments, in order (count changes by k − 1); it throws exactly when that argument is missing or is not a constructor call |
| InlineStructifiedField.ReplaceArgByItsArgs | reducer/src/main/java/com/graphicsfuzz/reducer/reductionopportunities/InlineStructifiedFieldReductionOpportunity.java:88-92 | the `removeArg` / `insertArg` loop yields the argument list with the argument at `i` replaced by the nested arguments |
| InlineStructifiedField.PatchLookup | reducer/src/main/java/com/graphicsfuzz/reducer/reductionopportunities/InlineStructifiedFieldReductionOpportunity.java:97-128 | a lookup changes exactly when its base has the inner struct type and is a lookup of `fieldToInline` on a value of the outer struct type (and the member is mapped); it then becomes the base-of-base with the mapped member; it throws exactly when the base has the inner type and is a lookup whose own base has no recorded type or a non-struct one, or when it goes through the wrapper with an unmapped member; every other lookup, including one whose base's base is another struct type or whose base member is not `fieldToInline`, is returned unchanged |
| InlineStructifiedField.Rewritten | reducer/src/main/java/com/graphicsfuzz/reducer/reductionopportunities/InlineStructifiedFieldReductionOpportunity.java:82-130 | the post-order walk keeps every node's identity |
| InlineStructifiedField.RewrittenList | reducer/src/main/java/com/graphicsfuzz/reducer/reductionopportunities/InlineStructifiedFieldReductionOpportunity.java:82-130 | walking a list keeps its length and each element's identity |
| InlineStructifiedField.RewrittenListAppend | reducer/src/main/java/com/graphicsfuzz/reducer/reductionopportunities/InlineStructifiedFieldReductionOpportunity.java:82-130 | the walk visits the elements left to right, stopping at the first throw |
| InlineStructifiedField.FailureExtends | reducer/src/main/java/com/graphicsfuzz/reducer/reductionopportunities/InlineStructifiedFieldReductionOpportunity.java:82-130 | a throw in a prefix of the list is the throw of the whole walk |
| InlineStructifiedField.RewrittenLeavesNoWrapperLookups | reducer/src/main/java/com/graphicsfuzz/reducer/reductionopportunities/InlineStructifiedFieldReductionOpportunity.java:97-128 | after a walk that does not throw, no lookup `x.<fieldToInline>.f` whose base is directly the lookup of the inlined field on a value of the outer struct type remains |
| InlineStructifiedField.RewrittenListLeavesNoWrapperLookups | reducer/src/main/java/com/graphicsfuzz/reducer/reductionopportunities/InlineStructifiedFieldReductionOpportunity.java:97-128 | the same for every expression of a list that walks without a throw |
| InlineStructifiedField.Visit | reducer/src/main/java/com/graphicsfuzz/reducer/reductionopportunities/InlineStructifiedFieldReductionOpportunity.java:84-128 | the visitor on one expression computes exactly `Rewritten` |
| InlineStructifiedField.VisitAll | reducer/src/main/java/com/graphicsfuzz/reducer/reductionopportunities/InlineStructifiedFieldReductionOpportunity.java:84-128 | the visitor on a list computes exactly `RewrittenList` |
| InlineStructifiedField.VisitUnit | reducer/src/main/java/com/graphicsfuzz/reducer/reductionopportunities/InlineStructifiedFieldReductionOpportunity.java:82-130 | `visit(tu)` replaces every expression by its walked form; on a throw, the fault is the walk's and there is an index `j` whose expression is the one whose walk throws, the expressions before it are rewritten without a throw, and it and the rest are unchanged |
| InlineStructifiedField.VisitStep | reducer/src/main/java/com/graphicsfuzz/reducer/reductionopportunities/InlineStructifiedFieldReductionOpportunity.java:82-130 | one more expression walked either fails the whole walk or extends the rewritten prefix |
| InlineStructifiedField.InsertAfterRenamed | reducer/src/main/java/com/graphicsfuzz/reducer/reductionopportunities/InlineStructifiedFieldReductionOpportunity.java:78 | inserting at `index + k` extends the spliced prefix by the next renamed field |
| InlineStructifiedField.NameMapExtend | reducer/src/main/java/com/graphicsfuzz/reducer/reductionopportunities/InlineStructifiedFieldReductionOpportunity.java:77 | the `put` in the loop extends the name map by one inner field |
| Ast.WithoutQualifiers | reducer/src/main/java/com/graphicsfuzz/reducer/reductionopportunities/InlineStructifiedFieldReductionOpportunity.java:66-67 | the result carries no qualifier, and an unqualified type is returned as it is |
| Ast.StructType.RemoveField | reducer/src/main/java/com/graphicsfuzz/reducer/reductionopportunities/InlineStructifiedFieldReductionOpportunity.java:68 | the first field with that name is removed |
| Ast.StructType.InsertField | reducer/src/main/java/com/graphicsfuzz/reducer/reductionopportunities/InlineStructifiedFieldReductionOpportunity.java:78 | the new field lands at the given index |
| FunctionOrStruct.FunctionOrStructReductionOpportunity.constructor | reducer/src/main/java/com/graphicsfuzz/reducer/reductionopportunities/FunctionOrStructReductionOpportunity.java:28-33 | the opportunity stores the unit and the declaration it was created for |
| FunctionOrStruct.FunctionOrStructReductionOpportunity.PreconditionHolds | reducer/src/main/java/com/graphicsfuzz/reducer/reductionopportunities/FunctionOrStructReductionOpportunity.java:46-49 | true exactly when some entry of the declaration list is the declaration object |
| FunctionOrStruct.FunctionOrStructReductionOpportunity.ApplyReductionImpl | reducer/src/main/java/com/graphicsfuzz/reducer/reductionopportunities/FunctionOrStructReductionOpportunity.java:36-44 | if the declaration is present (the precondition), the first entry that is that object is removed; otherwise it throws "Should be unreachable" and nothing changes |
| FunctionOrStruct.WithoutFirstRemovesOne | reducer/src/main/java/com/graphicsfuzz/reducer/reductionopportunities/FunctionOrStructReductionOpportunity.java:37-41 | the length drops by one, entries before the index stay and entries after it move down by one, and exactly one copy of the declaration leaves the multiset |
| FunctionOrStruct.WithoutFirstKeepsOthers | reducer/src/main/java/com/graphicsfuzz/reducer/reductionopportunities/FunctionOrStructReductionOpportunity.java:37-41 | every other pair of declarations keeps its relative order |
| FunctionOrStruct.SoleOccurrenceGone | reducer/src/main/java/com/graphicsfuzz/reducer/reductionopportunities/FunctionOrStructReductionOpportunity.java:39-48 | a declaration that occurred once is absent afterwards, so `preconditionHolds` becomes false |
| Ast.TranslationUnit.RemoveTopLevelDeclaration | reducer/src/main/java/com/graphicsfuzz/reducer/reductionopportunities/FunctionOrStructReductionOpportunity.java:39 | the list becomes the old list without the entry at the index; the expression list is left as it was |
| Generate.RemoveAll | generator/src/main/java/com/graphicsfuzz/generator/tool/Generate.java:281 | `removeAll` keeps exactly the elements not named in the other list |
| Generate.DisableAll | generator/src/main/java/com/graphicsfuzz/generator/tool/Generate.java:272-283 | after disabling a list on a fresh set of flags, exactly the listed transformations are disabled |
| Generate.GetTransformationDisablingFlags | generator/src/main/java/com/graphicsfuzz/generator/tool/Generate.java:271-285 | both flags given is the incompatibility error (and only then); with `--disable`, enabled ⇔ not named; with `--enable_only`, enabled ⇔ named; with neither, everything is enabled |
| Generate.Rank | generator/src/main/java/com/graphicsfuzz/generator/tool/Generate.java:399-444 | every transformation has a position in the fixed order |
| Generate.RankIsPosition | generator/src/main/java/com/graphicsfuzz/generator/tool/Generate.java:399-444 | a transformation's rank is its position in the fixed order |
| Generate.AllTransformationsRanked | generator/src/main/java/com/graphicsfuzz/generator/tool/Generate.java:399-444 | each position of the fixed order holds the transformation of that rank |
| Generate.AdmittedUpToMembers | generator/src/main/java/com/graphicsfuzz/generator/tool/Generate.java:403-441 | after the first k checks, the list holds exactly the admitted transformations of rank below k |
| Generate.AdmittedUpToOrdered | generator/src/main/java/com/graphicsfuzz/generator/tool/Generate.java:403-441 | the list is in strictly increasing rank, so it holds no duplicates |
| Generate.AdmissibleExactly | generator/src/main/java/com/graphicsfuzz/generator/tool/Generate.java:399-444 | the full list holds exactly the admitted transformations, in order, and is empty exactly when none is admitted |
| Generate.PopulateTransformations | generator/src/main/java/com/graphicsfuzz/generator/tool/Generate.java:399-449 | it fails with "At least one transformation must be enabled" exactly when nothing is admitted; otherwise it holds exactly the enabled ones, with switch statements only where supported and dead output writes only for fragment shaders, in the fixed order |
| Generate.TakeOut | generator/src/main/java/com/graphicsfuzz/generator/tool/Generate.java:380-381 | removing an element leaves the rest of the multiset |
| Generate.RemoveRandom | generator/src/main/java/com/graphicsfuzz/generator/tool/Generate.java:380-381 | `remove(nextInt(size))` returns some element and the list without it, one shorter |
| Generate.ChosenSubMultiset | generator/src/main/java/com/graphicsfuzz/generator/tool/Generate.java:379-396 | what is applied or kept is a sub-multiset of what was drawn |
| Generate.ApplyTransformationsRandomly | generator/src/main/java/com/graphicsfuzz/generator/tool/Generate.java:366-397 | it fails exactly when populating fails; otherwise every candidate is drawn exactly once (the draws are a permutation of the list, one decision each), the applied list is the chosen draws in order, and at least one is applied |
| Generate.KeepRoughlyHalf | generator/src/main/java/com/graphicsfuzz/generator/tool/Generate.java:305-326 | every candidate is drawn once, the kept list is the chosen draws (a sub-multiset), and it is non-empty when the candidates were |
| Generate.NodeLimit | generator/src/main/java/com/graphicsfuzz/generator/tool/Generate.java:358-360 | the node limit lies in [5000, 22000) |
| Generate.ShaderLargeEnough | generator/src/main/java/com/graphicsfuzz/generator/tool/Generate.java:350-364 | the limit is 5000 plus the draw reduced below 17000, it lies in [5000, 22000), and the shader is large enough exactly when it has more nodes than that limit |
| Generate.ConcatSnoc | generator/src/main/java/com/graphicsfuzz/generator/tool/Generate.java:328-346 | joining one more pass appends it |
| Generate.ConcatGrowLast | generator/src/main/java/com/graphicsfuzz/generator/tool/Generate.java:331-339 | one more application extends the joined history at its end |
| Generate.ConcatStartNew | generator/src/main/java/com/graphicsfuzz/generator/tool/Generate.java:340-343 | starting a new, empty pass does not change the history |
| Generate.PassStep | generator/src/main/java/com/graphicsfuzz/generator/tool/Generate.java:331-339 | moving the applied transformation from the pool to `done` keeps pool ∪ done equal to the kept transformations |
| Generate.PassesExtend | generator/src/main/java/com/graphicsfuzz/generator/tool/Generate.java:340-343 | a completed pass holds every kept transformation exactly once |
| Generate.PassUnfinished | generator/src/main/java/com/graphicsfuzz/generator/tool/Generate.java:328-346 | while the pool is not empty, `done` lacks one of the kept transformations |
| Generate.ApplyTransformationsMultiPass | generator/src/main/java/com/graphicsfuzz/generator/tool/Generate.java:300-348 | it fails exactly when populating fails; otherwise the kept list is a non-empty sub-multiset of the candidates, and the applications form complete passes, each applying every kept transformation once, followed by an unfinished pass; before every application the shader had fewer than 22000 nodes, and it stops before the `fuel` bound only when the shader has more than 5000 nodes |
| Generate.StayedSmallStep | generator/src/main/java/com/graphicsfuzz/generator/tool/Generate.java:328-331 | one more application on a shader below the upper node bound extends the record of a shader that stayed below it |
| Generate.ApplyControlFlowComplication | generator/src/main/java/com/graphicsfuzz/generator/tool/Generate.java:456-479 | there are 3 plus a draw below 5 iterations, so between 3 and 7, and each picks one of the six control-flow transformations |
| Generate.RandomiseUnsetUniforms | generator/src/main/java/com/graphicsfuzz/generator/tool/Generate.java:487-494 | one value per unset uniform: int and uint values lie in [0, 32768) and bool values in {0, 1} |
| Generate.WithInjectionSwitchIdempotent | generator/src/main/java/com/graphicsfuzz/generator/tool/Generate.java:513-530 | after adding the injection switch it is declared, and adding it again changes nothing |
| Generate.AddInjectionSwitchIfNotPresent | generator/src/main/java/com/graphicsfuzz/generator/tool/Generate.java:513-522 | when the name is already a global, nothing changes; otherwise exactly one new `uniform vec2 injectionSwitch` declaration is appended; either way it is declared afterwards and expressions are untouched |
| Generate.AlreadyDeclaresInjectionSwitch | generator/src/main/java/com/graphicsfuzz/generator/tool/Generate.java:524-530 | true exactly when some top-level variables declaration declares `injectionSwitch` |
| Ast.GlobalVarNamesMembers | generator/src/main/java/com/graphicsfuzz/generator/tool/Generate.java:524-530 | a name is a global exactly when some variables declaration declares it |
| Ast.GlobalVarNamesAppend | generator/src/main/java/com/graphicsfuzz/generator/tool/Generate.java:524-530 | appending a declaration adds its variable names, if any, at the end of the global names |
| Ast.TranslationUnit.AddDeclaration | generator/src/main/java/com/graphicsfuzz/generator/tool/Generate.java:520-521 | the declaration is appended at the end |
| Random.Rng.NextInt | generator/src/main/java/com/graphicsfuzz/generator/tool/Generate.java:309 | a positive bound yields a value below it, taken from the next draw |
| Random.Rng.NextBoolean | generator/src/main/java/com/graphicsfuzz/generator/tool/Generate.java:321 | one draw becomes one boolean |
| Random.Rng.NextFloatBelowThreshold | generator/src/main/java/com/graphicsfuzz/generator/tool/Generate.java:451-454 | one draw is compared against `0.5 * 0.9^k` |

## Left out

- Parsing, argument handling, file output, `showStage`, `StatsVisitor`, `StripUnusedFunctions` and `StripUnusedGlobals` are I/O or code that is not part of this model. The shader's node count after `k` applications is the parameter `nodes(k)`.
- What each transformation does to the shader is not modelled. Transformations are identified only by their kind, and the textual record of applied transformations is the list of applied kinds.
- `spawnChild` and the draws that the transformations themselves consume are not modelled. Only the selection logic's own draws come from `Rng`.
- Random.Rng.NextFloatBelowThreshold: the float draw and the comparison `nextFloat() < 0.5 * 0.9^k` are a supplied predicate `below(draw, k)`, since floating point is not modelled.
- Generate.RandomiseUnsetUniforms: float uniforms and the internals of `UniformsInfo.setUniforms` are not modelled. The method draws only the int, uint and bool values, in the order given.
- Generate.ApplyTransformationsMultiPass: `applyTransformationsMultiPass` loops until the shader is large enough, which is only guaranteed if transformations grow it. The model adds a `fuel` bound on the number of applications.
- Generate.PopulateTransformations: the twelve `if (...) result.add(...)` statements are modelled as a function that filters the fixed order of transformations, not as a sequence of statements on a mutable list.
- Generate.GetTransformationDisablingFlags: `EnabledTransformations.namesToList` (parsing of the comma-separated names) is not part of this model; the flags arrive already parsed. `allTransformations()` is taken to be the twelve kinds that `populateTransformations` considers.
- The values of `Constants.STRUCTIFICATION_FIELD_PREFIX` (`"_f"`) and `Constants.INJECTION_SWITCH` (`"injectionSwitch"`) are taken from the wider code base, which is not part of this model.
- `Typer` is a given map from expression node to recorded type, built before the outer struct is edited. `StandardVisitor` is a post-order walk over the unit's expressions, in order. Expressions other than member lookups and constructor calls are opaque nodes with children.
- Ast.TranslationUnit.RemoveTopLevelDeclaration: the unit's expressions are a list kept apart from its declarations, so removing a function declaration does not remove the expressions of its body from later walks. The same holds for `FunctionOrStruct.FunctionOrStructReductionOpportunity.ApplyReductionImpl`.
- InlineStructifiedField.RewrittenLeavesNoWrapperLookups: the Java visitor rewrites only a lookup whose base is directly `x.<fieldToInline>`. A whole-value use of `x.<fieldToInline>`, or a chain through parentheses or another expression, is left as it is in the Java code and in the model, even though it names a field the outer struct no longer has.
- `StructType.equals` and `Declaration` membership are modelled as object identity.
- InlineStructifiedField.PatchLookup: in the Java code, a member name missing from the rename map makes `setMember(null)` store a null member without throwing. The model stops the walk with the `NullMember` fault instead.
- InlineStructifiedField.VisitUnit: a throw in the middle of one expression leaves that expression partly rewritten in the Java code. The model leaves the failing expression as it was.
- InlineStructifiedField.InlineStructifiedFieldReductionOpportunity.ApplyReductionImpl: a struct with a field of its own type is excluded by a precondition. GLSL forbids recursive struct types, and `StructType` objects that are their own field type cannot be built from GLSL source.
- `AbstractReductionOpportunity.applyReduction`, `VisitationDepth` and the finders that create these opportunities are not part of this model. Only `applyReductionImpl` and `preconditionHolds` are modelled.
