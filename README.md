# Graphix core in Dafny

Graphix is a declarative user-interface and animation engine. An XML
definition declares prototypes. Prototypes inherit parameters, children
and animation groups from a base prototype. Flattening turns them into
concrete object trees, and a tick-driven runtime then schedules the timed
effects of their animation groups. This project models the logic between
the XML edge and the renderer, and proves what it promises.

- **Value cells** (`ValueWrapper<T>`, `MathValue<T>`, and the expression
  nodes `Calc`, `If` and `Check`). A cell owns its value or forwards reads
  and writes along its `RemoteSource` chain. An expression node computes
  on every read, or once when it is precompiled. A static counter numbers
  the typed cells. Cells live in one store (`Store.CellStore`) and are
  named by their index, so a cell two owners share is one cell and a write
  through either is seen by both. Groups live in a second store
  (`Groups.GroupStore`) that holds the cell store, and prototypes in a
  third (`Scenes.Scene`). The runtime does not use the cell store: it reads
  cells from a snapshot (see "## Left out"). `Clone` and `MoveTargets` are
  modelled over the cell store (modules `Cells`, `Store`, `Retarget`,
  `Cloning`). C# `int` arithmetic wraps at 32 bits and
  divides toward zero (`CsInt`).
- **Statuses** (`Status`): hierarchical names with path lookup, `==`,
  `!=`, the prefix test and the base-path test.
- **Prototypes and flattening** (`PrototypeBase`,
  `PrototypeFlattenerHelper`, `AnimationGroup`, the activations including
  `ScriptActivator`, and the clone and retarget parts of the effects):
  - the base chain is flattened before the prototype itself;
  - overridden parameters are registered twice;
  - parameters and groups are deep-cloned through the cell store;
  - finally the new groups are redirected through the helper's maps. The
    cell-level walks (parameters, cells reached through other cells) are
    not modelled; see "## Left out".
- **Effect timing** (`AnimationEffect`):
  - the progress curves;
  - the start and end gates on the runtime clock;
  - the value each typed effect computes for a given progress, as
    functions (the runtime does not write it into a cell);
  - `RepeatMode`.
- **The runtime** (`AnimationRuntime`):
  - status changes start matching groups;
  - delayed status pushes wait in a queue;
  - AfterAnimation hooks;
  - one tick of the scheduler, which runs synchronous effects one at a
    time and asynchronous effects side by side.
- **Display channels** (`DisplayChannel`): the Unused / Used / Cooldown
  lock that guards the object list and registration. It also covers
  import, and status lookup.
- **Loader and exporter helpers** (`PrototypeLoader`, `PrototypeExporter`):
  - the registration tables and text converters;
  - `$` / `@` / `#` parameter binding;
  - `FindStatus`, `Filter` and `Include`;
  - the exporter's id assignment, type list and reference text.

Exceptions are values. An operation returns `Result<T>`, whose failure
names the .NET exception (`Fault`). Code that only computes is written as
functions. Code that updates objects is written as classes and methods,
and each method is proved equal to a specification function about which
the lemmas are stated.

An effect's `Clone` does not copy the `Repeat` cell, and its `MoveTargets`
does not redirect it. The model keeps that behaviour as written. The places
where the code evidently does not do what was meant are listed under
"## Findings". Each is modelled twice: once as written, with a lemma that
shows the discrepancy, and once corrected. The rest of the model uses the
corrected version.

## Model

| member | source | states |
|---|---|---|
| CsInt.Wrap | Graphix/Prototypes/Math/Calc.cs:145-152 | an unchecked int operation leaves the 32-bit two's-complement value: the result is an int, and an int is left as it is |
| CsInt.WrapMod | Graphix/Prototypes/Math/Calc.cs:145-152 | wrapping changes a value only by a multiple of 2^32 |
| CsInt.TruncDivRemainder | Graphix/Prototypes/Math/Calc.cs:158-160 | C#'s truncating `/` leaves a remainder smaller than the divisor with the dividend's sign |
| Text.ParseIntText | Graphix/PrototypeLoader.cs:117 | `int.Parse` reads every printed int back as that int |
| Text.ParseIntRange | Graphix/Prototypes/Math/Calc.cs:203-204 | `int.TryParse` succeeds exactly on signed decimal texts whose value is an int |
| Text.ParseUInt | Graphix/PrototypeLoader.cs:119 | `uint.Parse`: a FormatException exactly for texts outside the number style, otherwise the value if it is a uint and an OverflowException if not |
| Text.ParseUIntText | Graphix/PrototypeLoader.cs:119 | every printed uint parses back to itself |
| Text.ReplaceChar | Graphix/PrototypeLoader.cs:116 | `Replace(',', '.')` keeps the length and swaps exactly the commas |
| Text.Split | Graphix/PrototypeLoader.cs:120 | splitting on the bar character: at least one part, no part holds the separator |
| Text.SplitJoin | Graphix/PrototypeLoader.cs:120 | splitting a bar-joined list of bar-free names gives back the names |
| Text.JoinSplit | Graphix/PrototypeLoader.cs:120 | joining the parts of a split gives back the text |
| Text.ParseBoolText | Graphix/PrototypeLoader.cs:118 | `bool.Parse` reads "True" and "False", as `bool.ToString` prints them, back |
| Text.NatTextValue | Graphix/PrototypeLoader.cs:117 | the digits printed for a number read back as that number |
| Text.ParseSignedText | Graphix/PrototypeLoader.cs:117 | a printed int parses back as itself |
| Values.Cast | Graphix/ValueWrapper.cs:70 | the cast `(T)obj`: succeeds, unchanged, exactly when the value fits the type; NullReferenceException exactly for null into a value type |
| Values.Default | Graphix/ValueWrapper.cs:52 | `default(T)` fits the type and is null exactly for reference types |
| ScreenPositions.Make | Graphix/ScreenPos.cs:21-25 | the constructor keeps the value and the dimension it is given |
| ScreenPositions.Suffix | Graphix/ScreenPos.cs:31-43 | each dimension's unit suffix; only Absolute prints none |
| ScreenPositions.ToText | Graphix/ScreenPos.cs:31-43 | the printed position is the number followed by its dimension's suffix |
| ScreenPositions.ParseSound | Graphix/PrototypeLoader.cs:121-136 | a successful parse found the matching suffix and the number before it, commas read as points; a text with no suffix parsed whole in the current culture |
| ScreenPositions.ParseToText | Graphix/PrototypeLoader.cs:121-136 | printing a position and parsing the text back gives the position whenever the number's text parses back |
| ScreenPositions.ParseFirstSuffix | Graphix/PrototypeLoader.cs:123-124 | the first suffix tried ("%") decides when the text ends with it |
| ScreenPositions.NoEarlierSuffix | Graphix/PrototypeLoader.cs:123-134 | no suffix tried before a position's own matches its printed text |
| Repeats.SetInfinite | Graphix/Physic/AnimationEffect.cs:187 | assigning `Infinite` stores uint.MaxValue whatever is assigned: the mode is infinite and not none |
| Repeats.SetNone | Graphix/Physic/AnimationEffect.cs:189 | assigning `None` stores 0 whatever is assigned |
| Repeats.ToText | Graphix/Physic/AnimationEffect.cs:196-199 | "none" exactly for zero, "infinite" exactly for uint.MaxValue, else the count |
| Repeats.Parse | Graphix/PrototypeLoader.cs:119 | "none" gives 0, "infinite" gives uint.MaxValue, any other text goes through `uint.Parse` |
| Repeats.ParseToText | Graphix/PrototypeLoader.cs:119 | every repeat mode survives printing and parsing back |
| Statuses.Path | Graphix/Status.cs:50-53 | the names from the root down, ending with the status's own; a single name exactly for a root |
| Statuses.UpwardReversesPath | Graphix/Status.cs:123-124 | the names the stack loops push, from the status up, are its path reversed |
| Statuses.ToTextIsJoinedPath | Graphix/Status.cs:50-53 | `ToString` is the path joined with bars |
| Statuses.EqualIffSamePath | Graphix/Status.cs:89-95 | `==` holds exactly when the two paths are equal (null equals only null) |
| Statuses.NotEqualAsWrittenMeaning | Graphix/Status.cs:103-109 | what `!=` computes: names differ at every level both have and the depths differ |
| Statuses.NotEqualAsWrittenIsNotNegation | Graphix/Status.cs:103-109 | two distinct roots with different names are neither `==` nor `!=` |
| Statuses.NotEqual | Graphix/Status.cs:103-109 | the intended `!=`: true exactly when the paths differ |
| Statuses.FirstChild | Graphix/Status.cs:77 | `List.Find` on the sub-statuses: a sub-status with that name, and none only when no sub-status has it |
| Statuses.Find | Graphix/Status.cs:70-81 | `Find` returns the status the lookup along the names reaches, inside the catalog |
| Statuses.LookupPath | Graphix/Status.cs:70-81 | a status found from a root has exactly the given names as its path |
| Statuses.DescendReaches | Graphix/Status.cs:75-79 | with unique sibling names, descending along the rest of a path reaches that status |
| Statuses.LookupFindsStatus | Graphix/Status.cs:70-81 | with unique sibling names, `Find` from a status's root along its path returns that very status |
| Statuses.Root | Graphix/Status.cs:123 | the root reached by following parents is a root and an ancestor of the status |
| Statuses.IsSubsetOrEqualFrom | Graphix/Status.cs:117-129 | true exactly when `current`'s path is a prefix of `target`'s; null current gives true, null target false |
| Statuses.SubsetReflexive | Graphix/Status.cs:117-129 | every status is a subset of itself |
| Statuses.PushNames | Graphix/Status.cs:123-124 | the stack holds the names from the status up to its root, root on top |
| Statuses.PopCompare | Graphix/Status.cs:126-127 | pops pairs while they agree: true exactly when the first `count` pairs agree |
| Statuses.HasSameBasePath | Graphix/Status.cs:138-152 | both null false, one null true, a negative length ArgumentOutOfRangeException, else the first `minLength` root names agree and both paths are that long |
| Statuses.SameBasePathReflexive | Graphix/Status.cs:138-152 | a status has the same base path as itself up to its depth |
| Statuses.UpwardIsReversedPath | Graphix/Status.cs:123-127 | popping the names pushed from a status up to its root gives its path from the root down |
| MathCalc.PowInt | Graphix/Prototypes/Math/Calc.cs:174-177 | `(int)Math.Pow` on ints: an int result, exact whenever the true power is an int |
| MathCalc.DivInt | Graphix/Prototypes/Math/Calc.cs:158-160 | int division throws DivideByZeroException exactly for a zero divisor and OverflowException exactly for int.MinValue / -1; otherwise an int quotient truncated toward zero |
| MathCalc.First | Graphix/Prototypes/Math/Calc.cs:158 | the first operand is read and cast to the node's type; a value of another type does not pass |
| MathCalc.FoldExtend | Graphix/Prototypes/Math/Calc.cs:145-176 | the operand loop over one more operand takes exactly one more turn |
| MathCalc.FoldFailSticks | Graphix/Prototypes/Math/Calc.cs:145-176 | an exception in one turn ends the loop: later operands change nothing |
| MathCalc.InvalidMethodGivesNull | Graphix/Prototypes/Math/Calc.cs:290-291 | every type and method combination that `ValidMethod` rejects computes null |
| MathCalc.ValidMethodResultKind | Graphix/Prototypes/Math/Calc.cs:298-349 | a combination `ValidMethod` accepts computes a value of the node's own type, or null only for neg without operands |
| MathCalc.CalcShape | Graphix/Prototypes/Math/Calc.cs:70-292 | the seeded loops (add, mult, and, or, concat) fold every operand from their seed; the other loops fold the rest from the first operand, and without operands give the type's zero |
| MathCalc.FirstOperandFails | Graphix/Prototypes/Math/Calc.cs:158 | a method that reads the first operand fails when reading it fails |
| MathCalc.FoldKind | Graphix/Prototypes/Math/Calc.cs:145-176 | a loop started from a value of the node's type keeps that type in every turn |
| MathCalc.AddIsWrappedSum | Graphix/Prototypes/Math/Calc.cs:143-148 | int add over int operands is their mathematical sum wrapped to 32 bits |
| MathCalc.WrapAdd | Graphix/Prototypes/Math/Calc.cs:146 | wrapping the running sum after each turn gives the same total as wrapping once at the end |
| MathCalc.AndOrMeaning | Graphix/Prototypes/Math/Calc.cs:211-222 | bool and is true exactly when every operand is, bool or exactly when some operand is |
| MathCalc.ConcatMeaning | Graphix/Prototypes/Math/Calc.cs:275-280 | concat is the concatenation of the operands' texts, a null operand adding nothing |
| MathCalc.NandSkipsAfterFalse | Graphix/Prototypes/Math/Calc.cs:229-234 | nand does not read a later operand once the running value is false (a throwing operand is skipped), while and reads every operand |
| MathCalc.IntTextRoundTrip | Graphix/Prototypes/Math/Calc.cs:200-205 | an int node's fromString reads back any int operand's printed text |
| MathCalc.AndMeaning | Graphix/Prototypes/Math/Calc.cs:211-216 | Bool And over plain bools is true exactly when every operand is |
| MathCalc.OrMeaning | Graphix/Prototypes/Math/Calc.cs:217-222 | Bool Or over plain bools is true exactly when some operand is |
| MathCheck.Compare | Graphix/Prototypes/Math/Check.cs:58-114 | a comparison gives a bool, or null exactly for an ordering between values that are not both double, int, string or bool |
| MathCheck.NeqIsNotEq | Graphix/Prototypes/Math/Check.cs:64-79 | `neq` is the negation of `eq` on every pair of values |
| MathCheck.GreaterIsSwappedLess | Graphix/Prototypes/Math/Check.cs:80-111 | `gt` and `gteq` are `lt` and `lteq` with the operands swapped |
| MathCheck.OrderingIsTotal | Graphix/Prototypes/Math/Check.cs:80-111 | between comparable values `lteq` is the negation of `gt` and `lt` of `gteq` |
| MathCheck.LteqIsLtOrEq | Graphix/Prototypes/Math/Check.cs:64-95 | on numbers and bools `lteq` holds exactly when `lt` or `eq` does |
| MathCheck.StringsOrderedByLength | Graphix/Prototypes/Math/Check.cs:64-95 | strings are ordered by length but equal by content: "ab" and "cd" are `lteq` but neither `lt` nor `eq` |
| MathCheck.EqReflexive | Graphix/Prototypes/Math/Check.cs:64-71 | a value is `eq` to itself exactly when it is null, of one of the four known types or a status reference; other boxed values are distinct objects |
| MathIf.TruthyAgreesWithBoolConversion | Graphix/Prototypes/Math/If.cs:62-70 | a number as condition picks the branch the bool node's fromInt and fromDouble conversions give |
| MathIf.TruthyDoesNotParseText | Graphix/Prototypes/Math/If.cs:67 | a string condition is not parsed: "false" picks the true branch, though bool fromString reads it as false |
| Cells.OperandResult | Graphix/Prototypes/Math/Calc.cs:80 | each operand result is the read of that operand, a cell below the node in the read order |
| Cells.EvalAgree | Graphix/ValueWrapper.cs:59 | two stores that agree on every cell a read can reach read that cell alike |
| Cells.SoundPreservesEval | Graphix/Prototypes/Math/Calc.cs:55-64 | filling a precompile buffer with what the node computes changes the value of no read |
| Cells.AppendRanked | Graphix/PrototypeLoader.cs:1027-1084 | adding a cell that only refers to existing cells keeps every read finite |
| Cells.WriteTarget | Graphix/ValueWrapper.cs:60-65 | a write to a cell lands in the typed cell at the end of its remote chain, which has no remote source itself |
| Cells.WriteTargetReads | Graphix/ValueWrapper.cs:59-65 | the write target reads as the written cell does and has its type |
| Cells.WithValue | Graphix/ValueWrapper.cs:63 | storing a value changes a typed cell's own value and none of its references |
| Cells.WithRemote | Graphix/ValueWrapper.cs:75-79 | setting a remote source changes only that reference; type and id stay |
| Cells.RemoteRanked | Graphix/ValueWrapper.cs:57-79 | setting a typed cell's remote source keeps every read finite when no read from the source reaches the cell back: the store is ranked by lifting the cells that reach it above the source |
| Cells.RemoteCycleUnranked | Graphix/ValueWrapper.cs:57-79 | setting a typed cell's remote source to a cell whose read reaches it back leaves no ranking at all: the getter and the setter would follow the cycle forever |
| Cells.WriteTargetStable | Graphix/ValueWrapper.cs:60-65 | storing a value moves no other cell's write target |
| Cells.WriteEffect | Graphix/ValueWrapper.cs:60-70 | after storing a fitting value the store stays ranked and well typed, ids are unchanged, and the written cell reads that value |
| Cells.CoherentReadsComputed | Graphix/Prototypes/Math/Calc.cs:55-64 | when every full buffer holds what its node computes, a buffered read gives what the node computes |
| Cells.ReadKeepsCoherent | Graphix/Prototypes/Math/Calc.cs:55-64 | a successful read keeps that coherence |
| Store.SoundOperands | Graphix/Prototypes/Math/Calc.cs:145-176 | reading operands one by one changes none of their results |
| Store.CellEquals | Graphix/ValueWrapper.cs:178-183 | cell `==`: null equals only null; otherwise the read values are compared and equal reads give true |
| Store.NotEqualsNegates | Graphix/ValueWrapper.cs:191-196 | cell `!=` fails exactly when `==` does and otherwise is its negation |
| Store.CellEqualsSymmetric | Graphix/ValueWrapper.cs:178-183 | cell `==` is symmetric when both reads succeed |
| Store.AppendIds | Graphix/ValueWrapper.cs:49-50 | an id drawn from the counter keeps every id below the counter and all ids distinct until the counter wraps |
| Store.CellStore.Read | Graphix/ValueWrapper.cs:59 | the value getter gives the read the denotation describes; it only fills buffers and changes no cell above the read one |
| Store.CellStore.ReadNode | Graphix/Prototypes/Math/Calc.cs:55-64 | a node's read goes through its buffer when precompiled: a full buffer answers, an empty one is filled with what the node computes |
| Store.CellStore.Compute | Graphix/Prototypes/Math/If.cs:60-71 | an expression node computes as its calc, if or check description says, reading only its operands |
| Store.CellStore.ComputeCalc | Graphix/Prototypes/Math/Calc.cs:70-292 | a calc node's result is the value of its type and method over its operand results |
| Store.CellStore.FoldFromFirstOperand | Graphix/Prototypes/Math/Calc.cs:156-178 | the div, sub and pow loops read and cast the first operand and fold the rest from it |
| Store.CellStore.ComputeOnFirstOperand | Graphix/Prototypes/Math/Calc.cs:179-205 | neg and the conversions read only the first operand |
| Store.CellStore.FoldOperands | Graphix/Prototypes/Math/Calc.cs:143-176 | the operand loop gives the fold of the operand results from its seed, the first failure ending it |
| Store.CellStore.OperandStep | Graphix/Prototypes/Math/Calc.cs:229-240 | one turn combines the accumulator with the next operand, which is read only when the operator needs it |
| Store.CellStore.DrawId | Graphix/ValueWrapper.cs:49-50 | `id = cid++`: the id is the old counter, which then grows by one with 32-bit wrap-around |
| Store.CellStore.NewWrapper | Graphix/PrototypeLoader.cs:1072-1073 | a fresh typed cell exists, holds the default of its type, has no remote source and the id just drawn |
| Store.CellStore.NewMathValue | Graphix/PrototypeLoader.cs:1010-1018 | a fresh math value reads its source cast to its type and draws an id |
| Store.CellStore.NewCalc | Graphix/PrototypeLoader.cs:1029-1040 | a calc element fails with InvalidOperationException exactly when `ValidMethod` rejects it; otherwise a calc node with those operands is added |
| Store.CellStore.NewIf | Graphix/PrototypeLoader.cs:1042-1054 | an if element adds a node over its three branches with an empty buffer |
| Store.CellStore.NewCheck | Graphix/PrototypeLoader.cs:1056-1066 | a check element adds a node over its two operands with an empty buffer |
| Store.CellStore.SetPresent | Graphix/ValueWrapper.cs:86-91 | the `Exists` setter changes only the flag |
| Store.CellStore.SetRemote | Graphix/ValueWrapper.cs:79 | setting the remote source through the interface fails with InvalidCastException exactly for a source that is not a typed cell of the same type; nodes ignore it |
| Store.CellStore.Write | Graphix/ValueWrapper.cs:60-70 | the value setter fails exactly when the value does not fit the cell's type; otherwise it stores the value in the write target, after which the cell reads it |
| Store.CellStore.Equal | Graphix/ValueWrapper.cs:178-183 | `==` reads each operand once, left first, and gives the value comparison |
| Store.CellStore.NotEqual | Graphix/ValueWrapper.cs:191-196 | `!=` reads each operand once, left first, and gives the negated comparison |
| Store.CellStore.MoveTargets | Graphix/ValueWrapper.cs:141-149 | every reference slot reachable from the cell is replaced by its image in the conversion map; a typed cell only takes a typed cell of its type |
| Store.CellStore.MoveSlot | Graphix/Prototypes/Math/Calc.cs:373-378 | one slot is replaced by its image when mapped and the walk goes on into it |
| Store.CellStore.Clone | Graphix/ValueWrapper.cs:127-135 | the copy is a clone of the original: same shape, names, flags and values, fresh ids, cloned children, empty buffers |
| Store.CellStore.CloneMathValue | Graphix/Prototypes/Math/MathValue.cs:28-36 | a math value's copy draws its id before its source is cloned and clones that source |
| Store.CellStore.CloneCalc | Graphix/Prototypes/Math/Calc.cs:355-365 | a calc node's copy clones every operand in order |
| Store.CellStore.CloneIf | Graphix/Prototypes/Math/If.cs:77-87 | an if node's copy clones condition, false branch and true branch, in that order |
| Store.CellStore.CloneCheck | Graphix/Prototypes/Math/Check.cs:120-130 | a check node's copy clones both operands |
| Store.CellStore.CloneOperands | Graphix/Prototypes/Math/Calc.cs:363 | `ConvertAll(v => v.Clone())` clones every operand, in order |
| Store.CellStore.constructor | Graphix/ValueWrapper.cs:49 | the cell id counter starts at 0 with no cells |
| Retarget.Conv1 | Graphix/Prototypes/PrototypeBase.cs:327-328 | a reference is replaced by its image when the map has one and kept otherwise |
| Retarget.Conv1Idempotent | Graphix/Prototypes/PrototypeBase.cs:327-328 | when no image is itself a key, converting twice is converting once |
| Retarget.Moved | Graphix/Prototypes/Math/If.cs:93-113 | a moved cell keeps its shape and has every slot passed through the map |
| Retarget.SlotsMovedTransitive | Graphix/ValueWrapper.cs:141-149 | a walk that reaches a cell again leaves its slots where the first visit put them |
| Retarget.MovedIsFinal | Graphix/ValueWrapper.cs:141-149 | a moved cell moves no further |
| Retarget.CheckMoveAsWritten | Graphix/Prototypes/Math/Check.cs:136-150 | as written, the second operand's image is stored in the first operand and the second keeps its reference |
| Retarget.CheckMoveAsWrittenMisroutes | Graphix/Prototypes/Math/Check.cs:144-148 | with `Value2` mapped, the node ends up reading the image first and the old second operand second |
| Cloning.CloneReadsAlike | Graphix/ValueWrapper.cs:127-135 | a clone reads as its original does whenever the original's buffers hold what their nodes compute |
| Cloning.CloneOfGrows | Graphix/ValueWrapper.cs:127-135 | later additions to the store keep a clone a clone |
| Cloning.EvalPrefix | Graphix/ValueWrapper.cs:59 | adding cells changes no read of an existing cell |
| Cloning.CloneComputesAlike | Graphix/Prototypes/Math/Calc.cs:355-365 | a cloned expression node computes what the original computes |
| Effects.CurveInUnit | Graphix/Physic/AnimationEffect.cs:68-87 | every animation curve is 0 up to the start, 1 from the end on, and stays within 0..1 in between |
| Effects.CurveMonotone | Graphix/Physic/AnimationEffect.cs:68-87 | no animation curve ever runs backwards |
| Effects.StartNotLate | Graphix/Physic/AnimationEffect.cs:89-117 | an effect that may start records a start time that is not in the future, and the start gate changes no clock |
| Effects.StartGateOrder | Graphix/Physic/AnimationEffect.cs:91-116 | an existing TimeStart decides alone; otherwise TimeOffset after the last tile time; with neither the effect starts now |
| Effects.FinishStopsHalfwayAsWritten | Graphix/Physic/AnimationEffect.cs:130 | as written, an effect started by its offset at 1 with TimeFinish 2 is stopped at 2 having shown half its change |
| Effects.ProgressAgrees | Graphix/Physic/AnimationEffect.cs:121-147 | the corrected progress equals the written one when TimeStart started the effect or there is no TimeFinish |
| Effects.EndNotInFuture | Graphix/Physic/AnimationEffect.cs:119-146 | an effect that stops records an end time that is not in the future |
| Effects.DurationProgress | Graphix/Physic/AnimationEffect.cs:132-140 | with a positive TimeDuration the effect runs with progress below 1 until the duration has passed, then stops at progress 1 or more |
| Effects.FinishProgress | Graphix/Physic/AnimationEffect.cs:123-131 | with the start correctly taken into account, an effect with a later TimeFinish runs below progress 1 until TimeFinish and stops there at 1 or more |
| Effects.RunData.constructor | Graphix/Physic/AnimationRuntimeData.cs:7-34 | a fresh runtime record at the given clock, every other field at its default |
| Effects.RunData.CanStartAnimation | Graphix/Physic/AnimationEffect.cs:89-117 | the record after the start gate is what the gate function gives, and the typed start step runs exactly when the effect starts and is enabled |
| Effects.RunData.Animate | Graphix/Physic/AnimationEffect.cs:119-148 | the record after a tick is what the end gate gives; an enabled effect receives the progress, 1 when the length is zero |
| Effects.StartValue | Graphix/Physic/AnimationEffect.cs:275-280 | the start value is ValueStart when it exists, else the target's current value |
| Effects.LerpBetween | Graphix/Physic/AnimationEffect.cs:272 | for a curve value in 0..1 the interpolated point lies between start and finish and reaches them at 0 and 1 |
| Effects.DoubleStepBetween | Graphix/Physic/AnimationEffect.cs:266-273 | a double effect writes values between its start and its finish (ValueFinish, else start plus ValueChange), and the finish at the end |
| Effects.TruncBetween | Graphix/Physic/AnimationEffect.cs:353 | the `(int)` cast of a value between two ints lies between them |
| Effects.IntStepBetween | Graphix/Physic/AnimationEffect.cs:347-354 | with a ValueFinish an int effect writes an int between start and finish, and the finish at the end |
| Effects.BoolStepEnds | Graphix/Physic/AnimationEffect.cs:589-593 | a bool effect shows its start before it begins and its finish once it ends |
| Effects.ChannelInRange | Graphix/Physic/AnimationEffect.cs:429-432 | each colour channel is clamped to 0..255, with the end channels reached at 0 and 1 |
| Effects.ColorStepValid | Graphix/Physic/AnimationEffect.cs:422-434 | a colour effect always writes a valid colour, the start at the beginning and the finish at the end |
| Effects.PosStepType | Graphix/Physic/AnimationEffect.cs:509-523 | a position effect never mixes position types: it keeps the start's type or jumps straight to the finish |
| Effects.CutBelow | Graphix/Physic/AnimationEffect.cs:676 | the switch position `(int)(time * len)` stays below the length for a curve value below 1 |
| Effects.BlendEnds | Graphix/Physic/AnimationEffect.cs:674-685 | a fully switched blend is the finish padded with blanks, an unswitched one the start |
| Effects.BlendText | Graphix/Physic/AnimationEffect.cs:674-685 | the two index loops build the blend: the first `pos` characters from one text, the rest from the other, blanks past either end |
| Effects.AnimateString | Graphix/Physic/AnimationEffect.cs:666-687 | a string effect writes the finish once the curve reaches 1, the start while it is 0, the blend in between |
| Effects.AnimateStringShape | Graphix/Physic/AnimationEffect.cs:674-685 | between its ends a string effect shows as many characters as the longer text, the first ⌊c·len⌋ switched |
| Groups.GroupConv | Graphix/Prototypes/PrototypeBase.cs:351-354 | a group is replaced by its image when the group map has one and kept otherwise |
| Groups.MoveActMeaning | Graphix/Physic/AnimationActivation.cs:122-127 | a moved activation keeps its kind, refers to the images of its cells, and an AfterAnimation waits for the image of its group |
| Groups.MoveActIdempotent | Graphix/Physic/AnimationActivation.cs:183-187 | moving an activation twice through maps whose images are not keys is moving it once |
| Groups.ListedIsSlotsWithoutMode | Graphix/Physic/AnimationEffect.cs:255-262 | the cells an effect lists are all its cells except Mode, each once |
| Groups.MoveEffectMeaning | Graphix/Physic/AnimationEffect.cs:154-164 | a moved effect keeps its kind and its Repeat cell, refers to the images of all other cells, and a Call runs the image of its group |
| Groups.MoveKindMeaning | Graphix/Physic/AnimationEffect.cs:230-237 | the typed cells of a moved effect are the images of the original's |
| Groups.MoveEffectIdempotent | Graphix/Physic/AnimationEffect.cs:154-164 | moving an effect twice through maps whose images are not keys is moving it once |
| Groups.SlotsCloneOfGrows | Graphix/Physic/AnimationGroup.cs:53-61 | cells added to the store later keep every slot of a clone what it was |
| Groups.SlotsCloneOfBase | Graphix/Physic/AnimationGroup.cs:53-61 | slots cloned from a store that grew from an earlier one are clones relative to the earlier one too |
| Groups.SlotsCloneIn | Graphix/Physic/AnimationGroup.cs:53-61 | every slot of a clone lies in the store it was cloned into |
| Groups.SlotsReadAlike | Graphix/Physic/AnimationEffect.cs:166-178 | a cloned activation's or effect's slots read what the original's read; a new Repeat cell reads the default mode |
| Groups.ActCloneOfGrows | Graphix/Physic/AnimationGroup.cs:56 | cells added later keep an activation's clone a clone |
| Groups.EffectCloneOfGrows | Graphix/Physic/AnimationGroup.cs:57 | cells added later keep an effect's clone a clone |
| Groups.ActsCloneStep | Graphix/Physic/AnimationGroup.cs:56 | one more cloned activation extends the cloned prefix of the activation list |
| Groups.EffectsCloneStep | Graphix/Physic/AnimationGroup.cs:57 | one more cloned effect extends the cloned prefix of the effect list |
| Groups.GroupCloneAssembled | Graphix/Physic/AnimationGroup.cs:53-61 | activations, then effects, then EffectTiming cloned one after another, with the name kept and no hooks, make a clone of the group |
| Groups.GroupCloneOfGrows | Graphix/Physic/AnimationGroup.cs:53-61 | cells added later keep a group's clone a clone |
| Groups.GroupCloneOfBase | Graphix/Physic/AnimationGroup.cs:53-61 | a group cloned from a store that grew from an earlier one is a clone relative to the earlier one too |
| Groups.GroupCloneIn | Graphix/Physic/AnimationGroup.cs:53-61 | every cell of a cloned group lies in the store |
| Groups.GroupCloneReadsAlike | Graphix/Physic/AnimationGroup.cs:53-61 | a cloned group reads as its original: each activation cell, each effect cell but Repeat, and the EffectTiming read the original's values; each Repeat reads the default mode |
| Groups.CloneCell | Graphix/ValueWrapper.cs:127-135 | a cell cloned into the store is a clone of the original cell, placed after every existing cell |
| Groups.MoveGroupIdempotent | Graphix/Physic/AnimationGroup.cs:67-73 | moving a group twice through maps whose images are not keys is moving it once |
| Groups.MoveGroupEmpty | Graphix/Physic/AnimationGroup.cs:67-73 | empty maps leave a group as it is |
| Groups.MoveGroupIn | Graphix/Physic/AnimationGroup.cs:67-73 | a moved group's cells stay in the store when every image is in it |
| Groups.MoveGroupRedirects | Graphix/Physic/AnimationGroup.cs:67-73 | when no image is itself a key, no cell of a moved group but a Repeat cell is a conversion key, and no group a Call runs or an AfterAnimation waits for is a key of the group map |
| Groups.GroupStore.Add | Graphix/Physic/AnimationGroup.cs:36-42 | a new group is appended and its identity is its index |
| Groups.GroupStore.Clone | Graphix/Physic/AnimationGroup.cs:53-61 | the appended group is a clone of the original: the same name, no hooks, each activation and effect cloned in place through the cell store and the EffectTiming cloned; the cell store only grows |
| Groups.GroupStore.CloneActivations | Graphix/Physic/AnimationGroup.cs:56 | the activation loop clones each activation in order: the same kind and group, every cell a clone |
| Groups.GroupStore.CloneEffectList | Graphix/Physic/AnimationGroup.cs:57 | the effect loop clones each effect in order: the same kind, the target shared, a new default Repeat, every other cell a clone |
| Groups.GroupStore.CloneSlots | Graphix/Physic/AnimationEffect.cs:166-178 | each slot is kept, cloned or replaced by a new default Repeat cell, as its role says |
| Groups.GroupStore.CloneParam | Graphix/Prototypes/PrototypeBase.cs:135 | `current.Clone()` on a parameter cell: the new cell is a clone of it, placed after every existing cell |
| Groups.GroupStore.MoveTargets | Graphix/Physic/AnimationGroup.cs:67-73 | the group is replaced by its moved form and nothing else changes |
| Groups.MoveActivations | Graphix/Physic/AnimationGroup.cs:69 | the loop moves every activation in place |
| Groups.MoveEffectList | Graphix/Physic/AnimationGroup.cs:70 | the loop moves every effect in place |
| Groups.MoveActs | Graphix/Physic/AnimationGroup.cs:69 | moving the activations moves each one, in place |
| Groups.MoveEffects | Graphix/Physic/AnimationGroup.cs:70 | moving the effects moves each one, in place |
| Hooks.HookedAt | Graphix/Physic/AnimationRuntime.cs:113-118 | registering appends to each group exactly the hooks of the activations waiting for it, in activation order, and changes nothing else |
| Hooks.UnhookedAt | Graphix/Physic/AnimationRuntime.cs:125-130 | part way through unregistering, a group holds its earlier hooks plus those of the activations not yet unhooked |
| Hooks.UnhookUndoesHook | Graphix/Physic/AnimationRuntime.cs:108-131 | unregistering a group undoes its registration when none of its hooks was left over |
| Hooks.HookedValid | Graphix/Physic/AnimationRuntime.cs:113-118 | registering a group with its own activations keeps every hook pointing at a waiting activation |
| Hooks.RemoveFirstCount | Graphix/Physic/AnimationRuntime.cs:129 | `List.Remove` removes one occurrence of a present element and nothing otherwise |
| Hooks.UnhookedValid | Graphix/Physic/AnimationRuntime.cs:125-130 | unregistering keeps every hook valid and changes nothing but hooks |
| Hooks.HookGroup | Graphix/Physic/AnimationRuntime.cs:113-118 | each AfterAnimation of the group hooks itself on the group it waits for |
| Hooks.UnhookGroup | Graphix/Physic/AnimationRuntime.cs:125-130 | each AfterAnimation of the group removes its hook from the group it waits for |
| Prototypes.ChainChildren | Graphix/Prototypes/PrototypeBase.cs:122-129 | the children along the base chain, the most basic prototype's first, all created before the prototype |
| Prototypes.LookupParameterFinds | Graphix/Prototypes/PrototypeBase.cs:246-251 | the chain lookup finds a cell exactly when some prototype on the chain declares the name, and the cell is one declared there |
| Prototypes.GetElementFinds | Graphix/Prototypes/PrototypeBase.cs:177-185 | what `GetElement` finds has the name, and it finds something exactly when something reachable has the name |
| Prototypes.FirstElementFinds | Graphix/Prototypes/PrototypeBase.cs:181-183 | the children loop finds a prototype exactly when one is reachable from a child from the current one on |
| Prototypes.GetOwnElementFinds | Graphix/Prototypes/PrototypeBase.cs:193-201 | `GetOwnElement` finds something exactly when the prototype or something reachable from a child has the name |
| Prototypes.FirstNamedGroupFinds | Graphix/Prototypes/PrototypeBase.cs:220-225 | the group loop returns the first group with the name, none only when none has it |
| Prototypes.GetAnimationFinds | Graphix/Prototypes/PrototypeBase.cs:208-213 | what `GetAnimation` finds is a group on the chain with the name, found exactly when one exists |
| Prototypes.Helper.constructor | Graphix/Prototypes/PrototypeBase.cs:314-318 | a fresh helper has empty conversion and group maps |
| Prototypes.Helper.Import | Graphix/Prototypes/PrototypeBase.cs:292-298 | every entry of the other helper is copied in, overwriting an entry under the same key |
| Prototypes.MoveAllAppend | Graphix/Prototypes/PrototypeBase.cs:164-169 | moving along two lists of groups is moving along the first, then the second |
| Prototypes.MoveAllKeeps | Graphix/Prototypes/PrototypeBase.cs:164-169 | redirecting keeps every group's name, hooks and numbers of activations and effects, and leaves the groups not visited unchanged |
| Prototypes.MoveAllOnce | Graphix/Prototypes/PrototypeBase.cs:164-169 | when no image is a key, a group visited several times is moved once |
| Prototypes.MoveFlat | Graphix/Prototypes/PrototypeBase.cs:164-169 | the flat's own groups, then each child tree's, are redirected in order |
| Prototypes.MoveEach | Graphix/Prototypes/PrototypeBase.cs:166 | the loop redirects each of the flat's own groups |
| Prototypes.MoveChildren | Graphix/Prototypes/PrototypeBase.cs:167 | the loop redirects each child's tree in order |
| Prototypes.MoveAllRedirects | Graphix/Prototypes/PrototypeBase.cs:164-167 | when no image is a key, every group the walk visits ends redirected: no cell but Repeat a conversion key, no Call or AfterAnimation group a key of the group map |
| Prototypes.LookupParameterIn | Graphix/Prototypes/PrototypeBase.cs:246-251 | the chain lookup finds only cells of the store |
| Prototypes.RegisterParams | Graphix/Prototypes/PrototypeBase.cs:130-146 | the flat's parameters are the inherited names and the node's names; a name the node declares gets a clone of the node's cell, registered as the image of both the inherited and the node's cell; other inherited names are kept |
| Prototypes.InheritedParams | Graphix/Prototypes/PrototypeBase.cs:130-139 | the first loop clones the node's cell for exactly the inherited names the node declares too |
| Prototypes.InheritedNext | Graphix/Prototypes/PrototypeBase.cs:131-139 | one pass of the first loop: a name the node declares too gets a clone of the node's cell, registered for both cells; any other name keeps its inherited cell |
| Prototypes.OwnOnlyParams | Graphix/Prototypes/PrototypeBase.cs:140-146 | the second loop clones the node's cell for each name only the node declares and keeps the rest |
| Prototypes.OwnOnlyNext | Graphix/Prototypes/PrototypeBase.cs:141-146 | one pass of the second loop: a name only the node declares gets a clone of the node's cell, registered for it; an inherited name is left as it is |
| Scenes.MoveAllAbove | Graphix/Prototypes/PrototypeBase.cs:153 | redirecting the new flat's groups leaves every older group as it was |
| Scenes.ChildrenCompose | Graphix/Prototypes/PrototypeBase.cs:122-129 | the base's flattened children followed by the node's own are the flattened children of the chain |
| Scenes.AnimsCompose | Graphix/Prototypes/PrototypeBase.cs:147-152 | the base's group clones followed by the node's own carry the names of the chain's groups |
| Scenes.BodyCompose | Graphix/Prototypes/PrototypeBase.cs:120-157 | the steps of the private `Flatten` add up to the flattened body: base, children, parameters and group clones |
| Scenes.RegisterClonesAt | Graphix/Prototypes/PrototypeBase.cs:150 | after the group loop a group has an entry exactly when it had one or was cloned; untouched entries are kept |
| Scenes.RegisterClonesImage | Graphix/Prototypes/PrototypeBase.cs:150 | a cloned group maps to a clone made from it |
| Scenes.CloneOwnGroups | Graphix/Prototypes/PrototypeBase.cs:147-152 | each of the node's groups is cloned at the end of the store, in order; the group at each new id is a clone of the corresponding group, and each original maps to its clone |
| Scenes.CloneNext | Graphix/Prototypes/PrototypeBase.cs:149-151 | one pass of the clone loop: the next own group is cloned into the next new id, the clones so far stay clones of their originals, the store only grows and the group map gains exactly that pair |
| Scenes.CloneRegister | Graphix/Prototypes/PrototypeBase.cs:149-151 | one group is cloned into a new last group, which is a clone of it, and registered as the image of its original |
| Scenes.ClonedGroupsStep | Graphix/Prototypes/PrototypeBase.cs:147-152 | one more group clone extends the clones the group loop has made |
| Scenes.ClonedGroupsAt | Graphix/Prototypes/PrototypeBase.cs:147-152 | after the loop the group at each new id is a clone of the corresponding own group |
| Scenes.RegisterClonesStep | Graphix/Prototypes/PrototypeBase.cs:150 | registering one more clone updates the group map at that group only |
| Scenes.ParamsClonedGrows | Graphix/Prototypes/PrototypeBase.cs:130-146 | cells added later keep a flat's parameters clones |
| Scenes.ParamsCompose | Graphix/Prototypes/PrototypeBase.cs:122-146 | the base's parameter clones and the node's own make each parameter of the flat a clone of what the chain lookup finds for its name |
| Scenes.CloneInherits | Graphix/Prototypes/PrototypeBase.cs:74-83 | a clone sees what its original sees: the same parameter lookups, groups, children and render name along its chain |
| Scenes.Scene.New | Graphix/Prototypes/PrototypeBase.cs:62-67 | a new prototype has no name, no base, no children, groups or parameters |
| Scenes.Scene.Clone | Graphix/Prototypes/PrototypeBase.cs:74-83 | the clone is a new prototype based on the original, with its name and renderer and nothing of its own |
| Scenes.Scene.GetParameter | Graphix/Prototypes/PrototypeBase.cs:232-239 | the result is non-null exactly when the chain declares the name and is what the chain lookup then finds; an inherited cell is cloned into the node, and the new cell is a clone of the inherited one |
| Scenes.Scene.Flatten | Graphix/Prototypes/PrototypeBase.cs:91-94 | the flat prototype has the shape the flattening describes, its groups all new, the old groups unchanged, and each parameter a clone of what the chain lookup finds for its name |
| Scenes.Scene.FlattenWith | Graphix/Prototypes/PrototypeBase.cs:105-113 | the same with a given helper, the default render name filled in and the node's name; when no image of the helper is a key, every group of the result is redirected |
| Scenes.Scene.FlattenInto | Graphix/Prototypes/PrototypeBase.cs:120-157 | the private flattening builds the chain's body with the chain's render name, its parameters clones of the chain's, its groups redirected when no image is a key |
| Scenes.Scene.AddOwn | Graphix/Prototypes/PrototypeBase.cs:123-152 | the node's children, parameters and group clones are added to the base's body, every parameter a clone of what the chain lookup finds |
| Scenes.Scene.Redirect | Graphix/Prototypes/PrototypeBase.cs:153-167 | `MoveTargets` moves exactly the flat's groups (`MoveAll`), changes no older group, keeps every name, and leaves each group redirected when no image is a key |
| Scenes.Scene.FlattenChildren | Graphix/Prototypes/PrototypeBase.cs:123-129 | each child is flattened with a helper of its own, which is imported afterwards |
| Runtime.WithAsyncMeaning | Graphix/Physic/AnimationRuntime.cs:150-152 | an effect goes to the asynchronous list exactly when its Async flag is set, and each list keeps the group's order |
| Runtime.SplitByAsync | Graphix/Physic/AnimationRuntime.cs:150-152 | the synchronous and asynchronous lists together hold every effect once |
| Runtime.NewRun | Graphix/Physic/AnimationRuntime.cs:133-154 | a new running animation is well formed, has no synchronous effect started and a stopped shared record; a non-positive timing becomes 1 |
| Runtime.TriggeredExactly | Graphix/Physic/AnimationRuntime.cs:43-53 | a status change starts exactly the registered groups with an enabled matching activation, each once, in registration order |
| Runtime.SetStatus | Graphix/Physic/AnimationRuntime.cs:40-56 | the status setter keeps the runtime state well formed, only appends running animations and leaves the sound requests alone |
| Runtime.SetSameStatus | Graphix/Physic/AnimationRuntime.cs:42 | setting a status `==` to the current one changes nothing and raises no event |
| Runtime.SetNewStatus | Graphix/Physic/AnimationRuntime.cs:43-55 | a real change raises exactly one StatusChanged event with the old and new status, starts the triggered groups and commits the new status |
| Runtime.Flush | Graphix/Physic/AnimationRuntime.cs:73-80 | flushing applies every pending status and keeps the state well formed |
| Runtime.Drain | Graphix/Physic/AnimationRuntime.cs:87-106 | PerformStatus keeps the state and the queue well formed |
| Runtime.DrainAppliesDuePrefix | Graphix/Physic/AnimationRuntime.cs:87-106 | PerformStatus applies, in order, exactly the heads that are due and leaves the rest in order, the first remaining head's clock started |
| Runtime.AppliedAreDue | Graphix/Physic/AnimationRuntime.cs:96-97 | every applied head has waited its delay from the previous head's due tick; the first head left is not due |
| Runtime.ChainStartsAtDue | Graphix/Physic/AnimationRuntime.cs:96 | in a fresh queue each later head's clock starts exactly at the previous head's due tick |
| Runtime.DrainKeepsFresh | Graphix/Physic/AnimationRuntime.cs:87-106 | PerformStatus keeps every head after the first with an unstarted clock |
| Runtime.FlushEndsAtLast | Graphix/Physic/AnimationRuntime.cs:73-80 | after flushing a non-empty queue the current status has the last pushed status's path |
| Runtime.Start | Graphix/Physic/AnimationEffect.cs:752-936 | starting an effect keeps the state well formed and only appends running animations: a Call runs its group, a SetState sets the status, a registered action or a sound with a player is requested; a typed value effect changes nothing here (no cell write is modelled) |
| Runtime.Opening | Graphix/Physic/AnimationRuntime.cs:161-176 | the waiting effects whose gate opens now, in order, each with its fresh open record |
| Runtime.StillWaiting | Graphix/Physic/AnimationRuntime.cs:161-176 | the waiting effects whose gate stays closed, in order |
| Runtime.OpeningSplit | Graphix/Physic/AnimationRuntime.cs:161-176 | every waiting effect either opens or keeps waiting, and no other |
| Runtime.AsyncStep | Graphix/Physic/AnimationRuntime.cs:161-176 | after the waiting loop the opened effects animate, the others wait, and the synchronous part is unchanged |
| Runtime.StepAll | Graphix/Physic/AnimationRuntime.cs:177-181 | each animating asynchronous effect runs its end gate at the current time |
| Runtime.KeepRunning | Graphix/Physic/AnimationRuntime.cs:182 | `RemoveAll` keeps exactly the animating effects still running, in order |
| Runtime.SyncStart | Graphix/Physic/AnimationRuntime.cs:183-192 | the synchronous start keeps the state and the running animation well formed |
| Runtime.SyncAnimate | Graphix/Physic/AnimationRuntime.cs:193-194 | the running synchronous effect runs its end gate on the shared record and the index stays |
| Runtime.SyncOneAtATime | Graphix/Physic/AnimationRuntime.cs:183-192 | synchronous effects start one at a time in list order: the index advances by one only when the shared record was stopped and the next gate opens |
| Runtime.NeverFinishedAsWritten | Graphix/Physic/AnimationRuntime.cs:195 | as written, the synchronous index never reaches the number of synchronous effects, so the completion test never holds |
| Runtime.FinishedIsIdle | Graphix/Physic/AnimationRuntime.cs:195-201 | an animation the intended test finishes has nothing left to do on another tick |
| Runtime.HookRerunsFinished | Graphix/Physic/AnimationRuntime.cs:198-200 | as written, every hook of a finished group starts that same group again |
| Runtime.HookRuns | Graphix/Physic/AnimationRuntime.cs:198-200 | the intended chaining starts the group owning each enabled hook |
| Runtime.HookRunsOwners | Graphix/Physic/AnimationRuntime.cs:198-200 | the groups the intended chaining starts are exactly the owners of enabled hooks, each waiting for the finished group |
| Runtime.Perform | Graphix/Physic/AnimationRuntime.cs:156-202 | one tick of a running animation keeps the runtime state well formed; it runs the gates and the bookkeeping, not the cell writes |
| Runtime.PerformKeepsRunsOk | Graphix/Physic/AnimationRuntime.cs:156-202 | a tick keeps every running animation well formed, so the synchronous index never passes the last synchronous effect |
| Runtime.OneEffectFinishes | Graphix/Physic/AnimationRuntime.cs:183-201 | a one-effect group that starts and ends at once is finished by the intended test on its first tick and never by the test as written |
| Runtime.NewRunning | Graphix/Physic/AnimationRuntime.cs:133-154 | the split loop builds the running animation the specification describes |
| Runtime.FindMatch | Graphix/Physic/AnimationRuntime.cs:44-53 | the activation loop finds a match exactly when an enabled StatusChange's New and Old are subsets of the new and old status |
| Runtime.FindTriggered | Graphix/Physic/AnimationRuntime.cs:43-53 | the group loop lists the triggered groups in registration order |
| Runtime.ChangeStatus | Graphix/Physic/AnimationRuntime.cs:40-56 | the status setter on the state it changes |
| Runtime.FlushOn | Graphix/Physic/AnimationRuntime.cs:75-79 | the flush loop applies every pending status in order |
| Runtime.DrainOn | Graphix/Physic/AnimationRuntime.cs:93-105 | the PerformStatus loop computes what the drain describes |
| Runtime.StartOn | Graphix/Physic/AnimationEffect.cs:752-936 | an effect's start on the state it changes |
| Runtime.StartAsync | Graphix/Physic/AnimationRuntime.cs:161-176 | the waiting loop, which looks at the same position again after a removal, gives the opened and waiting lists and starts the opened effects in order |
| Runtime.Advance | Graphix/Physic/AnimationRuntime.cs:177-181 | the end-gate loop over the animating effects |
| Runtime.Prune | Graphix/Physic/AnimationRuntime.cs:182 | the stopped animating effects are removed |
| Runtime.StepSync | Graphix/Physic/AnimationRuntime.cs:183-192 | the synchronous start on the state it changes |
| Runtime.SyncEnd | Graphix/Physic/AnimationRuntime.cs:193-194 | the synchronous effect's end gate |
| Runtime.HookRunsFor | Graphix/Physic/AnimationRuntime.cs:198-200 | the loop over the hooks of a finished group gives the intended runs |
| Runtime.PerformOn | Graphix/Physic/AnimationRuntime.cs:156-202 | one tick of the running animation at a position, on the state it changes |
| Runtime.AnimationRuntime.constructor | Graphix/Physic/AnimationRuntime.cs:31-36 | a runtime with nothing registered, running or queued, no status, and a 40 ms timer |
| Runtime.AnimationRuntime.SetAnimationTimer | Graphix/Physic/AnimationRuntime.cs:205-212 | only a positive period is taken |
| Runtime.AnimationRuntime.ExecuteAnimation | Graphix/Physic/AnimationRuntime.cs:133-154 | a new running animation for the group is appended |
| Runtime.AnimationRuntime.SetCurrentStatus | Graphix/Physic/AnimationRuntime.cs:37-57 | the status setter on the runtime object |
| Runtime.AnimationRuntime.PushStatus | Graphix/Physic/AnimationRuntime.cs:63-71 | a status is queued with its delay and an unstarted clock |
| Runtime.AnimationRuntime.ClearStatusQueue | Graphix/Physic/AnimationRuntime.cs:82-85 | the queue is emptied |
| Runtime.AnimationRuntime.FlushStatusQueue | Graphix/Physic/AnimationRuntime.cs:73-80 | every pending status is applied in order and the queue is emptied |
| Runtime.AnimationRuntime.PerformStatus | Graphix/Physic/AnimationRuntime.cs:87-106 | the due heads are applied at the given tick and the queue stays fresh |
| Runtime.AnimationRuntime.Register | Graphix/Physic/AnimationRuntime.cs:108-120 | a group not yet registered is appended and its AfterAnimation activations hook themselves; a registered one changes nothing |
| Runtime.AnimationRuntime.UnRegister | Graphix/Physic/AnimationRuntime.cs:122-131 | the group's first occurrence is removed and its AfterAnimation activations unhook themselves |
| Runtime.AnimationRuntime.PerformAnimation | Graphix/Physic/AnimationRuntime.cs:156-202 | one tick of a running animation on the runtime object |
| Runtime.TriggeredGroups | Graphix/Physic/AnimationRuntime.cs:45-52 | the groups a status change starts are registered groups, in registration order |
| Runtime.NewRunsFor | Graphix/Physic/AnimationRuntime.cs:133-154 | each started group gets one well-formed run, in order |
| Runtime.OpenWaiting | Graphix/Physic/AnimationRuntime.cs:161-176 | one pass over a waiting asynchronous effect keeps the runtime state well formed |
| Channels.Switched | Graphix/DisplayChannel.cs:231-249 | assigning the current value of `Using` changes nothing; a change bumps the counter and makes the channel Used, or Cooldown with a timer waiting on the new counter |
| Channels.Woken | Graphix/DisplayChannel.cs:242-247 | a waking cooldown timer unlocks the channel only if its counter is still the latest, and leaves the waiting list |
| Channels.SwitchedOk | Graphix/DisplayChannel.cs:231-249 | the setter keeps the lock consistent: waiting counters increasing and at most the counter, Cooldown exactly while the latest timer waits |
| Channels.WokenOk | Graphix/DisplayChannel.cs:242-247 | a waking timer keeps the lock consistent |
| Channels.WokenMode | Graphix/DisplayChannel.cs:245-246 | after a timer wakes up the channel cools down exactly while the latest timer still waits |
| Channels.OnlyLatestUnlocks | Graphix/DisplayChannel.cs:245-246 | only the timer of the latest change unlocks the channel; an overtaken timer leaves the mode as it is |
| Channels.CooldownEnds | Graphix/DisplayChannel.cs:241-247 | a cooling channel always has the timer that will unlock it waiting |
| Channels.NoTaskNoCooldown | Graphix/DisplayChannel.cs:241-247 | once every timer has woken up the channel is not cooling down |
| Channels.CooldownRace | Graphix/DisplayChannel.cs:231-249 | leaving Used and letting the timer wake unlocks the channel; turning `Using` on again before the timer wakes keeps it locked |
| Channels.Registered | Graphix/DisplayChannel.cs:194-207 | on an unused channel a group not yet registered is appended and hooks its AfterAnimation activations; a registered one changes nothing |
| Channels.Unregistered | Graphix/DisplayChannel.cs:214-224 | on an unused channel the group is removed and its AfterAnimation activations unhook themselves, with every hook target still in the store |
| Channels.RegisterUndone | Graphix/DisplayChannel.cs:194-224 | registering a new group and unregistering it again restores the registrations and the hooks |
| Channels.RegisterAllAppend | Graphix/DisplayChannel.cs:181-187 | registering two lists of groups is registering the first, then the second |
| Channels.RegisterAllMeaning | Graphix/DisplayChannel.cs:181-207 | registering keeps the registration list duplicate-free and in the store, keeps earlier registrations in front, registers exactly the earlier groups and the new ones, and keeps every hook valid |
| Channels.LoadOrderPermutes | Graphix/DisplayChannel.cs:181-187 | `LoadAnimations` registers exactly the groups of the flattened tree, each as often as the tree holds it, children first |
| Channels.StatusOf | Graphix/DisplayChannel.cs:153-160 | `GetStatus` finds a status only for a non-null name, and what it finds has the bar-separated parts as its path |
| Channels.StatusOfText | Graphix/DisplayChannel.cs:153-160 | looking up a status's printed name finds that status, when its root is listed under the root's name, sibling names are unique and no name holds a bar |
| Channels.DisplayChannel.constructor | Graphix/DisplayChannel.cs:134-146 | a new channel has no name, status, objects, groups or running animations, and is unused |
| Channels.DisplayChannel.SetUsing | Graphix/DisplayChannel.cs:231-249 | the `Using` setter on the channel |
| Channels.DisplayChannel.CooldownElapsed | Graphix/DisplayChannel.cs:242-247 | a cooldown timer waking up on the channel |
| Channels.DisplayChannel.ObjectAt | Graphix/DisplayChannel.cs:35 | the indexer's getter gives the object at a valid index and ArgumentOutOfRangeException otherwise, whatever the lock |
| Channels.DisplayChannel.IndexOfObject | Graphix/DisplayChannel.cs:74-77 | `IndexOf` is the first position holding the object, -1 exactly when it is absent |
| Channels.DisplayChannel.SetObject | Graphix/DisplayChannel.cs:36-40 | the indexer's setter throws AccessViolationException unless the channel is unused, then ArgumentOutOfRangeException for a bad index, else replaces that object |
| Channels.DisplayChannel.AddObject | Graphix/DisplayChannel.cs:47-51 | `Add` throws unless unused, else appends |
| Channels.DisplayChannel.ClearObjects | Graphix/DisplayChannel.cs:53-57 | `Clear` throws unless unused, else empties the list |
| Channels.DisplayChannel.InsertObject | Graphix/DisplayChannel.cs:79-83 | `Insert` throws unless unused, then rejects a bad index, else places the object at the index and moves the rest up |
| Channels.DisplayChannel.RemoveObject | Graphix/DisplayChannel.cs:85-89 | `Remove` throws unless unused, else removes the first occurrence and tells whether there was one |
| Channels.DisplayChannel.RemoveObjectAt | Graphix/DisplayChannel.cs:91-95 | `RemoveAt` throws unless unused, then rejects a bad index, else drops that position |
| Channels.DisplayChannel.CopyObjectsTo | Graphix/DisplayChannel.cs:64-67 | `CopyTo` rejects a negative start and a too-small array, else copies the objects in from the start position, the rest of the array unchanged |
| Channels.DisplayChannel.GetStatus | Graphix/DisplayChannel.cs:153-160 | `GetStatus` on the channel's roots |
| Channels.DisplayChannel.Register | Graphix/DisplayChannel.cs:194-207 | `Register` throws unless unused, else registers as described |
| Channels.DisplayChannel.UnRegister | Graphix/DisplayChannel.cs:214-224 | `UnRegister` throws unless unused, else unregisters as described |
| Channels.DisplayChannel.LoadAnimations | Graphix/DisplayChannel.cs:181-187 | the children's trees are loaded first, then the object's own groups |
| Channels.DisplayChannel.LoadTrees | Graphix/DisplayChannel.cs:183-184 | the first loop loads each child's tree in turn |
| Channels.DisplayChannel.LoadTree | Graphix/DisplayChannel.cs:183-184 | one pass of the first loop: the next child's tree is registered after those of the children before it, and every group it names stays inside the store |
| Channels.DisplayChannel.RegisterEach | Graphix/DisplayChannel.cs:185-186 | the second loop registers each own group |
| Channels.DisplayChannel.Import | Graphix/DisplayChannel.cs:167-179 | `Import` throws unless unused, else appends each exported object and loads its groups, then copies the exported statuses in, replacing entries under the same key |
| Channels.MergeStatus | Graphix/DisplayChannel.cs:177-178 | the status loop gives the old map overwritten by the exported one |
| Channels.FirstIndex | Graphix/DisplayChannel.cs:74-77 | the first position holding an element, -1 exactly when it is absent |
| Channels.HookedTargets | Graphix/DisplayChannel.cs:203-205 | registering changes only hooks, so every AfterAnimation still waits on a group of the store |
| Channels.UnhookedTargets | Graphix/DisplayChannel.cs:219-222 | unregistering changes only hooks as well |
| Channels.RegisterAll | Graphix/DisplayChannel.cs:185-186 | registering a list of groups keeps the group count and every hook target in the store |
| Channels.LoadOrderBelow | Graphix/DisplayChannel.cs:181-187 | the groups `LoadAnimations` registers are groups of the store |
| Channels.LoadChildrenPermutes | Graphix/DisplayChannel.cs:183-184 | loading the children registers exactly their groups, each as often |
| Channels.RemovedOrdered | Graphix/DisplayChannel.cs:242-247 | a timer leaving the waiting list keeps the other counters increasing |
| Channels.RootsMerged | Graphix/DisplayChannel.cs:177-178 | copying exported root statuses over root statuses leaves only roots |
| Exporting.NewDict | Graphix/PrototypeExporter.cs:43-64 | a new `Dict` has no cell ids, no group ids, the counter at 0 and the loader's system values |
| Exporting.Chain | Graphix/PrototypeExporter.cs:263 | the walk along `RemoteSource` starts at the parameter itself |
| Exporting.Sight | Graphix/PrototypeExporter.cs:264-268 | one sight leaves ids, groups and system values alone and adds the cell to the search table unless it is a system value |
| Exporting.WalkSightsChain | Graphix/PrototypeExporter.cs:263-269 | the walk is one sight per cell of the remote chain, in order |
| Exporting.SightAllUsage | Graphix/PrototypeExporter.cs:263-269 | a cell known before gains one usage per sight; a cell first reached gets the next id and one usage fewer than its sights |
| Exporting.AddGroup | Graphix/PrototypeExporter.cs:239 | numbering a group throws ArgumentException exactly when the group already has an id |
| Exporting.Bump | Graphix/PrototypeExporter.cs:299-301 | counting usages in a math expression never adds a cell to the search table |
| Exporting.MathSeenBumps | Graphix/PrototypeExporter.cs:277-303 | `LookupMathParam` draws no ids; it only counts usages of cells already known |
| Exporting.BumpedNumbered | Graphix/PrototypeExporter.cs:277-303 | counting usages keeps the ids apart |
| Exporting.LookupMathParam | Graphix/PrototypeExporter.cs:277-303 | the recursive math lookup over Calc operands, If branches and Check values counts what `MathSeen` says |
| Exporting.MathPart | Graphix/PrototypeExporter.cs:258-262 | only a cell named "Math" has its expression looked up, and that lookup only counts usages |
| Exporting.LookupParam | Graphix/PrototypeExporter.cs:256-270 | `LookupParam` does what `ParamSeen` says |
| Exporting.ParamSeenNumbered | Graphix/PrototypeExporter.cs:256-270 | a parameter lookup fails exactly on a cell named "Math" that is no math value; otherwise ids stay apart and only new cells get ids |
| Exporting.ParamSeenKnows | Graphix/PrototypeExporter.cs:256-270 | afterwards the known cells are the earlier ones plus the remote chain outside the system values; groups and system values are unchanged |
| Exporting.ParamSeenUsage | Graphix/PrototypeExporter.cs:256-270 | outside math values each sight on the chain counts one usage, except the first sight of a new cell |
| Exporting.RunAppend | Graphix/PrototypeExporter.cs:232-248 | running two step lists in turn is running their concatenation |
| Exporting.RunNumbered | Graphix/PrototypeExporter.cs:232-248 | the lookup steps keep every id apart and below the counter |
| Exporting.RunKnows | Graphix/PrototypeExporter.cs:232-248 | the steps add exactly the groups they number and know every cell they reach outside the system values |
| Exporting.DoFails | Graphix/PrototypeExporter.cs:239-240 | one step fails exactly on a group numbered before or a bad math cell |
| Exporting.RunFails | Graphix/PrototypeExporter.cs:232-248 | the steps fail exactly when one numbers a group numbered before or looks up a bad math cell |
| Exporting.LookupAll | Graphix/PrototypeExporter.cs:241-246 | the nested loops over activations' and effects' cells run one lookup per cell, in order |
| Exporting.LookupOrderPermutes | Graphix/PrototypeExporter.cs:232-248 | `CreateLookup` numbers the same groups as the flattened tree holds, each as often, only in another order |
| Exporting.Enumerate | Graphix/PrototypeExporter.cs:235-236 | a parameter dictionary enumerates in some order of its names, each name once, giving each name's cell at that name's position |
| Exporting.MakePlan | Graphix/PrototypeExporter.cs:232-248 | every parameter dictionary of the tree is given an enumeration: an order of its names and the cells under them |
| Exporting.EnumeratedCells | Graphix/PrototypeExporter.cs:235-236 | the enumerated cells are exactly the parameter cells |
| Exporting.EnumeratedKnown | Graphix/PrototypeExporter.cs:235-236 | the parameter cells are known exactly when the enumerated cells are |
| Exporting.AnimStepsOf | Graphix/PrototypeExporter.cs:237-247 | the group loop numbers the groups in order and looks up their cells in order |
| Exporting.TreeStepsGroups | Graphix/PrototypeExporter.cs:232-248 | a tree's steps number its groups children first and reach only cells of the store |
| Exporting.TreeStepsClean | Graphix/PrototypeExporter.cs:258-262 | a tree's steps meet no bad math cell exactly when no flat of the tree leads to one |
| Exporting.TreeStepsKnown | Graphix/PrototypeExporter.cs:232-248 | a tree's cells are known exactly when every cell the tree leads to is |
| Exporting.LookupGroup | Graphix/PrototypeExporter.cs:239-246 | one pass of the group loop numbers the group, looks up its timing, then its activations' and effects' cells |
| Exporting.LookupGroups | Graphix/PrototypeExporter.cs:237-247 | the group loop runs each group's pass in order |
| Exporting.LookupOwn | Graphix/PrototypeExporter.cs:235-247 | an object's own lookup is its parameters, then its groups |
| Exporting.CreateLookup | Graphix/PrototypeExporter.cs:232-248 | `CreateLookup` runs each child's lookup, then the object's own |
| Exporting.LookupChildren | Graphix/PrototypeExporter.cs:234 | the loop over the children runs each child's lookup in turn |
| Exporting.LookupChild | Graphix/PrototypeExporter.cs:234 | one child's lookup continues the earlier children's, and its failure is the failure of the whole loop |
| Exporting.ChildStepsNext | Graphix/PrototypeExporter.cs:234 | the children's lookup with one more child goes on with that child's |
| Exporting.ChildStepsStops | Graphix/PrototypeExporter.cs:234 | once a child's lookup throws, the later children are not looked up |
| Exporting.LookupFails | Graphix/PrototypeExporter.cs:232-248 | `CreateLookup` throws exactly when a group is numbered twice or a flat leads to a bad math cell |
| Exporting.LookupNumbered | Graphix/PrototypeExporter.cs:232-248 | a successful `CreateLookup` keeps the ids apart and draws ids only for new cells and groups |
| Exporting.LookupKnows | Graphix/PrototypeExporter.cs:232-248 | a successful `CreateLookup` adds exactly the tree's groups and knows every cell the tree leads to outside the system values |
| PrototypeExport.Filter | Graphix/PrototypeExporter.cs:206-211 | every cell reached more than once is added with its id; the loop throws ArgumentException exactly when such a cell is in the dictionary already |
| PrototypeExport.UsedAdd | Graphix/PrototypeExporter.cs:208-210 | one more search entry adds its cell to the filtered cells exactly when it was reached again |
| PrototypeExport.UsedIds | Graphix/PrototypeExporter.cs:206-211 | the ids the filter hands out are apart from one another and from every group's, and below the counter |
| PrototypeExport.AddNewAppend | Graphix/PrototypeExporter.cs:218-224 | adding render names from two lists is adding the first, then the second |
| PrototypeExport.AddNewMeaning | Graphix/PrototypeExporter.cs:218-224 | the existing list stays in front, no name occurs twice, and exactly the names of both occur |
| PrototypeExport.First | Graphix/PrototypeExporter.cs:220 | the first index of an element holds that element and no earlier index does |
| PrototypeExport.AddNewOrder | Graphix/PrototypeExporter.cs:218-224 | new names are listed in the order of their first occurrence |
| PrototypeExport.FindTypes | Graphix/PrototypeExporter.cs:218-224 | `FindTypes` adds the object's render name unless listed, then its children's, preorder |
| PrototypeExport.ParamValueReference | Graphix/PrototypeExporter.cs:489 | with direct referencing a cell with an id is written "#id", and the number names that cell only |
| PrototypeExport.ParamValueOwnIdUnused | Graphix/PrototypeExporter.cs:485-488 | without direct referencing the cell's own id is never written |
| PrototypeExport.ParamValueSystem | Graphix/PrototypeExporter.cs:490 | a system value without a reference is written "$name", and the name leads back to that cell only |
| PrototypeExport.ParamValueText | Graphix/PrototypeExporter.cs:493 | otherwise the value's text is written: null for a null value, the exception when reading or printing throws |
| PrototypeExport.FilterIntoEmpty | Graphix/PrototypeExporter.cs:192 | filtering into the fresh dictionary never throws and gives exactly the cells reached more than once |
| PrototypeExport.WholeSteps | Graphix/PrototypeExporter.cs:190-191 | the loop over the objects looks them up as one tree whose children they are |
| PrototypeExport.ExportFails | Graphix/PrototypeExporter.cs:186-192 | the export's lookup throws exactly when a group is held twice or an object leads to a cell named "Math" that is no math value |
| PrototypeExport.ExportIds | Graphix/PrototypeExporter.cs:186-199 | after a successful lookup no two cells or groups share an id, every group has one, and system values keep their names |
| PrototypeExport.ExportRun | Graphix/PrototypeExporter.cs:188-191 | the objects' lookup ends with ids apart, no cell ids yet and an id for every group |
| PrototypeExport.ExportRunKeys | Graphix/PrototypeExporter.cs:188-191 | the groups the objects' lookup numbers are exactly the groups of the objects, and the system values are kept |
| PrototypeExport.Exporter.constructor | Graphix/PrototypeExporter.cs:80-84 | a new exporter has no objects and no statuses |
| PrototypeExport.Exporter.ImportFlatten | Graphix/PrototypeExporter.cs:90-95 | each loaded object's flattening is appended in the loader's order and the loader's statuses are copied in, replacing same keys |
| PrototypeExport.Exporter.Types | Graphix/PrototypeExporter.cs:171-172 | the type list holds each render name of the objects' trees once, in order of first occurrence |
| PrototypeExport.Exporter.Lookup | Graphix/PrototypeExporter.cs:188-192 | the lookup and filter of `ExportObjects` compute the specified export dictionary |
| Loading.EnumParse | Graphix/PrototypeLoader.cs:137-139 | `Enum.Parse` fails only with an ArgumentException or an OverflowException, and text that is no number parses to the value of the members it names |
| Loading.EnumParseNumber | Graphix/PrototypeLoader.cs:137-139 | a printed int parses as that number, whether or not a member has it |
| Loading.NumberNamesNone | Graphix/PrototypeLoader.cs:137-139 | no member is named by text starting with a digit or a sign |
| Loading.MemberValueAt | Graphix/PrototypeLoader.cs:137-139 | the first member with the given name gives the value |
| Loading.MemberParses | Graphix/PrototypeLoader.cs:137-139 | a member's name, in any letter case when case is ignored, parses to that member's value |
| Loading.ColorFromParts | Graphix/PrototypeLoader.cs:148-169 | one to four int parts give a valid colour or an ArgumentException; a wrong number of parts or a part that is no int gives Black |
| Loading.ColorAsWritten | Graphix/PrototypeLoader.cs:140-171 | as written, null text converts to Black |
| Loading.ColorOf | Graphix/PrototypeLoader.cs:140-171 | null is Black; a part-wise colour is valid; a known colour is the one its name gives, ignoring case |
| Loading.ColorNumberAsWritten | Graphix/PrototypeLoader.cs:144-155 | as written, any single int converts to the KnownColor of that value and never to the grey of that level |
| Loading.ColorOfGrey | Graphix/PrototypeLoader.cs:153-155 | a single number is the opaque grey of that level within 0..255 and an ArgumentException outside it |
| Loading.ArgbTextShape | Graphix/PrototypeLoader.cs:148 | a colour printed as "r,g,b,a" splits back into its parts and is no single number |
| Loading.ArgbPartsParse | Graphix/PrototypeLoader.cs:164-165 | each printed channel parses as an int and the four give back the colour |
| Loading.FourParts | Graphix/PrototypeLoader.cs:164-169 | four int parts give the colour with those channels, alpha last |
| Loading.ColorOfArgbText | Graphix/PrototypeLoader.cs:140-171 | every valid colour printed as "r,g,b,a" converts back to itself, as written and corrected |
| Loading.ButtonOf | Graphix/PrototypeLoader.cs:174 | a ClickButton value is a member exactly when it is 0 to 3 |
| Loading.ClickButtonAsWritten | Graphix/PrototypeLoader.cs:172-177 | as written, an undefined value is no member, and anything but Left was accepted by `Enum.TryParse` |
| Loading.ClickButtonUndefinedAsWritten | Graphix/PrototypeLoader.cs:174-175 | as written, "7" converts to the undefined ClickButton 7 |
| Loading.ClickButtonOf | Graphix/PrototypeLoader.cs:172-177 | corrected, a button other than Left is always one `Enum.TryParse` gave |
| Loading.ClickButtonNames | Graphix/PrototypeLoader.cs:172-177 | each member's name in any letter case converts to that member, as written and corrected |
| Loading.Register | Graphix/PrototypeLoader.cs:49-57 | registering a name the table has already changes nothing; a new name gets the entry |
| Loading.KindTable | Graphix/PrototypeLoader.cs:53-54 | every registered converter has both cell types |
| Loading.Registry.constructor | Graphix/PrototypeLoader.cs:93-332 | the static constructor lists the nine core prototypes in order, registers the thirteen built-in parameter types, the seven activators and twelve effects, and no system values |
| Loading.Registry.AddDotNetPrototype | Graphix/PrototypeLoader.cs:31-36 | a type already listed is not listed again; a new one is appended |
| Loading.Registry.AddParameterType | Graphix/PrototypeLoader.cs:49-57 | the cell type, the math cell type and the converter are registered together, the first time only |
| Loading.Registry.AddActivator | Graphix/PrototypeLoader.cs:71-75 | the activation type is registered under its name the first time only |
| Loading.Registry.AddEffect | Graphix/PrototypeLoader.cs:84-88 | the effect type is registered under its name the first time only |
| Loading.EnumValue | Graphix/PrototypeLoader.cs:137-138 | the Align and Valign converters succeed exactly when `Enum.Parse` does, with that value |
| Loading.DoubleValue | Graphix/PrototypeLoader.cs:116 | the Double converter gives a double or a FormatException |
| Loading.IntValue | Graphix/PrototypeLoader.cs:117 | the Int converter succeeds exactly on int text, with that int |
| Loading.BoolValue | Graphix/PrototypeLoader.cs:118 | the Bool converter succeeds exactly on bool text, with that bool |
| Loading.RepeatValue | Graphix/PrototypeLoader.cs:119 | the Repeat converter succeeds exactly when the text is "none", "infinite" or a uint, with that mode |
| Loading.PosValue | Graphix/PrototypeLoader.cs:121-136 | the ScreenPos converter gives a screen position |
| Loading.ModeValue | Graphix/PrototypeLoader.cs:139 | the AnimMode converter gives an animation mode |
| Loading.ColorValue | Graphix/PrototypeLoader.cs:140-171 | the Color converter gives a colour or an ArgumentException |
| Loading.FindStatus | Graphix/PrototypeLoader.cs:379-388 | no parts find nothing, and a status found has the parts as its path |
| Loading.Convert | Graphix/PrototypeLoader.cs:115-178 | each converter's value fits the type it was registered with, and a found status has the text's parts as its path |
| Loading.StatusValue | Graphix/PrototypeLoader.cs:120 | the Status converter gives null or the status whose path is the bar-separated text |
| Loading.TextValue | Graphix/PrototypeLoader.cs:115-178 | every converter but the Status one gives a value of its registered type |
| Loading.StatusValueText | Graphix/PrototypeLoader.cs:120 | a status's printed name converts back to that status |
| Loading.StatusValueAgrees | Graphix/PrototypeLoader.cs:379-388 | the loader's `FindStatus` and the channel's `GetStatus` find the same status |
| Loading.NearestFirst | Graphix/PrototypeLoader.cs:980-987 | the "@name" search binds the first prototype up the chain that answers, and nothing only when none does |
| Loading.KeepInto | Graphix/PrototypeLoader.cs:403-417 | copying the entries that pass the filter by `Dictionary.Add` throws ArgumentException exactly on a key already there, else adds them all |
| Loading.KeepStep | Graphix/PrototypeLoader.cs:405-406 | keeping one more entry that passes the filter adds it |
| Loading.MergedUnion | Graphix/PrototypeLoader.cs:429-452 | without overwriting the old entries stay and new keys are added; with overwriting the other loader wins every shared key not fixed |
| Loading.MergeInto | Graphix/PrototypeLoader.cs:429-452 | the merge loop of `Include` gives the specified merge |
| Loading.MergeStep | Graphix/PrototypeLoader.cs:431-435 | merging one more entry |
| Loading.AppendNew | Graphix/PrototypeLoader.cs:453-457 | the loaded files gain the other loader's files not yet listed, in order |
| Loading.KeepBase | Graphix/PrototypeLoader.cs:402-406 | the filtered loader always holds a plain PrototypeBase under its key |
| Loading.KeepRoots | Graphix/PrototypeLoader.cs:413-417 | filtering root statuses keeps only roots |
| Loading.MergedRoots | Graphix/PrototypeLoader.cs:445-452 | merging root statuses gives only roots |
| Loading.Loader.constructor | Graphix/PrototypeLoader.cs:365-372 | a new loader holds only a new PrototypeBase under "PrototypeBase", with no objects, statuses, files or ids |
| Loading.Loader.ValueOf | Graphix/PrototypeLoader.cs:996-1001 | text that is no reference, when it binds, assigns a converted value |
| Loading.Loader.RegisteredValueFits | Graphix/PrototypeLoader.cs:999 | a value from the converter registered under a parameter's name fits that parameter's cell type, so the assignment never fails |
| Loading.Loader.SetParameter | Graphix/PrototypeLoader.cs:963-1002 | null clears Exists; "$name", "#name" and "@name" bind the remote source or throw KeyNotFound; other text throws when a reference is forced and is otherwise converted and assigned |
| Loading.Loader.SetValue | Graphix/PrototypeLoader.cs:996-1001 | the last case converts and assigns the text, or throws |
| Loading.Loader.BindNearest | Graphix/PrototypeLoader.cs:977-988 | "@name" binds the nearest answer up the parent chain, and changes nothing when there is none |
| Loading.Loader.AssignTo | Graphix/PrototypeLoader.cs:999-1000 | the value is written and the cell marked as existing |
| Loading.Loader.BindTo | Graphix/PrototypeLoader.cs:974-975 | the remote source is set and the cell marked as existing |
| Loading.Loader.FilterAsWritten | Graphix/PrototypeLoader.cs:399-420 | as written, `Filter` throws ArgumentException exactly when the prototype filter keeps the "PrototypeBase" key |
| Loading.Loader.Filter | Graphix/PrototypeLoader.cs:399-420 | corrected, the new loader holds exactly the prototypes, objects and statuses that pass the filters, over a fresh PrototypeBase, and no files |
| Loading.Loader.Include | Graphix/PrototypeLoader.cs:427-458 | the other loader's data is merged in; with overwriting shared keys take its entries, except a plain PrototypeBase; its files are appended when new |

## Left out

- XML reading and writing is not modelled. This covers `PrototypeLoader.Load`, the `Manage*`/`Setup*` readers, `CreateMathValue`, `GenerateSubMathValue` and `GetLibPath`. It also covers `MakeXmlDom`, `SaveFlatDom`, the `Create*` writers, `ExportStatus` and every `ToXml`. These only move data between the file system, the DOM and the model. The store's `NewCalc`, `NewIf`, `NewCheck`, `NewMathValue` and `NewWrapper` construct what those readers construct.
- Reflection (`Activator.CreateInstance`, `GetProperty`, `DynamicInvoke`) becomes closed datatypes and lookup tables.
- The order in which a .NET `Dictionary` enumerates is not modelled. A parameter dictionary's order is an input (`Exporting.Enumerate`, `Exporting.MakePlan`). So is the order of the loader's objects (`ImportFlatten`'s `loaded`). The loops over a dictionary are stated as map operations whose result does not depend on the order.
- The exporter's value comparer is identity, which the model's indices give directly. The hash of a `Dictionary<IValueWrapper, …>` keyed by value is taken as identity as well.
- Exporting.Sight: the exporter's `long` counter and usage counts are unbounded integers, so overflow past 2^63 is not modelled.
- Floating point is modelled as `real`. This covers doubles, `Math.Pow` and the double branch of `Calc` (`OutsideModel` beyond the checks on an empty or invalid operation). Double parsing and printing are `Platform` parameters of the converters.
- Loading.DoubleValue: states only that a double comes out or a FormatException is thrown, because parsing is a parameter.
- Loading.PosValue: states only the kind of the result; the suffix parse is stated by `ScreenPositions.ParseSound` and `ScreenPositions.ParseToText`.
- Loading.ModeValue: an AnimMode number that names no mode is `OutsideModel`; an undefined enum value has no meaning in the runtime.
- Loading.ColorValue: the channels of a KnownColor come from the platform table `knownArgb`. So do the KnownColor, Align, Valign and Keys member lists.
- Loading.ColorAsWritten: its own contract states only the null case; what it does is stated by `ColorNumberAsWritten` and `ColorOfArgbText`.
- Loading.Loader.ValueOf: states only the shape of a binding; `SetParameter` and `RegisteredValueFits` state what is assigned.
- Culture-sensitive `StartsWith` and `EndsWith` are taken as ordinal.
- Loading.Loader.SetParameter: the "@name" search takes the answers of the prototypes up the parent chain as its `chain` input instead of walking `Parent` itself. The fresh `PrototypeBase` a new loader creates is given as the prototype index `base`.
- Loading.Loader.Include: requires `other != this`; including a loader into itself is not modelled.
- Store.CellStore.Read: also `Store.CellStore.Write`, `Store.CellStore.Equal` and `Store.CellStore.NotEqual`. `SetRemote` (Graphix/ValueWrapper.cs:79) and the loader's "#name", "$name" and "@name" bindings accept a remote source that closes a cycle, and the getter and setter at Graphix/ValueWrapper.cs:57-66 then recurse until the stack overflows. These four members require a ranking of the store instead, so a read, write or comparison on such a store is not modelled. `Cells.RemoteRanked` and `Cells.RemoteCycleUnranked` state exactly when setting a source keeps a ranking.
- Store.CellStore.Write: requires a ranking for the same reason as `Store.CellStore.Read`; on a remote-source cycle the source's setter recurses forever.
- Store.CellStore.Equal: requires a ranking for the same reason; comparing a cell on a remote-source cycle never returns in the source.
- Store.CellStore.NotEqual: requires a ranking for the same reason.
- Store.CellStore.MoveTargets: a reference cycle through overridden parameters makes the source recurse forever. The model's walk carries a `fuel` bound and fails with StackOverflow when it runs out, so what an unbounded walk would do is not captured.
- Runtime.AnimationRuntime.SetAnimationTimer: the timer thread (`StartTimer`, `timerLoop`, `Thread.Sleep`) is not modelled. `Environment.TickCount` is the parameter `now` of each tick.
- Channels.DisplayChannel.CooldownElapsed: the one-second `Task.Delay` is the event of the timer waking, carrying the counter it captured. Timing and thread interleaving are not modelled.
- The background work that `AnimAction` and `PlaySound` start is recorded only as action and sound requests. Sound playback, rendering (Direct2D), the click hit test and the script engine are not part of this model. This includes `ScriptAccess`'s key matching and `ScriptEffect`.
- Scenes.Scene.Flatten: the cell-level `MoveTargets` walks are not modelled. These are the parameter loop (Graphix/Prototypes/PrototypeBase.cs:168), the walk from a group's EffectTiming (Graphix/Physic/AnimationGroup.cs:72) and the walks inside `helper.Convert` for activation and effect cells. So a cloned cell keeps the remote source and the operands its clone copied, and only the group-level references (the cells a group names directly, Call and AfterAnimation groups) are redirected. `Store.CellStore.MoveTargets` models the walk on its own.
- Scenes.Scene.FlattenWith: the redirect is stated only when no image of the helper's maps is itself a key (`ImagesNotKeys`, `GroupImagesNotKeys`); the model does not prove that flattening establishes that condition.
- Groups.GroupStore.Clone: the constructors `new AnimationGroup()` and the effects' and activations' constructors make throwaway default cells that the clone then replaces. Those cells, and the ids they draw from the static counter, are not modelled, so the clone's cells are numbered as if only the kept cells were drawn. The effect constructor's Repeat cell is modelled, since the clone keeps it.
- Runtime.Perform: a tick runs the gates, the split into synchronous and asynchronous effects and the bookkeeping, but no typed effect writes its animated value into its target cell (the start and animate steps of a `Value` effect leave the state as it is). The values an effect would write are stated by the `Effects` functions on their own.
- Runtime.Perform: every cell the runtime reads (flags, timings, the effect parameters) comes from a `Reads` snapshot fixed for the whole call, so a write by one effect is never seen by a later read in the same tick. `Runtime.AnimationRuntime.PerformAnimation` inherits both abstractions.
- Runtime.Start: starting a typed value effect writes nothing, and its reads come from the same fixed `Reads` snapshot.
- Runtime.AnimationRuntime.PerformStatus: `Environment.TickCount` wraps to negative after about 24.9 days of uptime. The model's `now` is an unbounded integer, so the due test is not modelled across that wrap.
- Loading.Loader.SetValue: a converter that throws surfaces through `DynamicInvoke` as a `TargetInvocationException` wrapping it. The model returns the converter's own fault instead.
- Channels.DisplayChannel.IndexOfObject: `List.IndexOf` and `List.Remove` on the object list compare references. The model compares flat prototypes as values, so two equal but distinct objects are one object to `IndexOfObject` and `RemoveObject`.
- Logging, `PrototypeLoaderAccess` and the demo application are not part of this model.
- The built-in prototype classes (`DisplayBase`, `Text`, `Image`, …) contribute only their registered names and default parameters, which enter as prototypes of the arena.

## Findings

| source | as written | input that shows it | evidently intended | confidence | as-written member | corrected member |
|---|---|---|---|---|---|---|
| Graphix/Prototypes/Math/Check.cs:144-148 | when Value2 is in the conversion map, its image is assigned to Value1 and Value2 keeps the original | a check node with Value1 = cell 1 and Value2 = cell 7, conversion {7 ↦ 9}: the result is (9, 7) | Value2 becomes 9 and Value1 stays 1 | high, not executed | Retarget.CheckMoveAsWrittenMisroutes | Retarget.Moved |
| Graphix/Status.cs:103-109 | `!=` returns false as soon as the names are equal, and otherwise compares the parents with `!=` | two roots named "a" and "b": `==` and `!=` are both false | `!=` is the negation of `==` | high, not executed | Statuses.NotEqualAsWrittenIsNotNegation | Statuses.NotEqual |
| Graphix/Physic/AnimationEffect.cs:130 | the length to TimeFinish is measured from `TimeStart.Value` even when TimeStart does not exist (its value is then 0) | TimeOffset 1 after the previous effect, TimeFinish 2, no TimeStart: the effect starts at 1 and is stopped at 2 at progress 0.5 | the length is measured from the actual start time | medium, not executed | Effects.FinishStopsHalfwayAsWritten | Effects.FinishProgress |
| Graphix/Physic/AnimationRuntime.cs:195 | the completion test asks for `SyncIndex >= Sync.Count`, which the index never reaches, so no animation is ever removed | a group with one effect that starts and ends at once | the animation is removed once its last synchronous effect has run and nothing asynchronous is left | high, not executed | Runtime.NeverFinishedAsWritten | Runtime.OneEffectFinishes |
| Graphix/Physic/AnimationRuntime.cs:198-200 | each hook runs `anim.Effect`, and a hook sits on the group it waits for, so the finished group runs again | any group with an AfterAnimation hook | the group owning the hook starts | medium, not executed | Runtime.HookRerunsFinished | Runtime.HookRunsOwners |
| Graphix/PrototypeLoader.cs:144-155 | `Enum.TryParse` accepts any number, so a single number converts to the KnownColor of that value | "128" converts to KnownColor 128 | "128" is the opaque grey 128 | medium, not executed | Loading.ColorNumberAsWritten | Loading.ColorOfGrey |
| Graphix/PrototypeLoader.cs:174-176 | `Enum.TryParse` accepts any number, so an undefined ClickButton passes through | "7" converts to the undefined ClickButton 7 | text that names no button converts to Left | medium, not executed | Loading.ClickButtonUndefinedAsWritten | Loading.ClickButtonOf |
| Graphix/PrototypeLoader.cs:402-406 | the new loader already holds "PrototypeBase", and `Add` of the kept entry under that key throws | `Filter` with every list empty: ArgumentException | the kept PrototypeBase entry takes the key and `Filter` never throws | high, not executed | Loading.Loader.FilterAsWritten | Loading.Loader.Filter |
