# go2gen in Dafny

go2gen translates Go source that uses the draft `check` expression and `handle` block
(the Go 2 error-handling proposal) into plain Go. Its core works in stages:

- **Token rewriting.** `rewrite.go` turns `check e` into `_go2check(e)`. It also turns
  `handle err { … }` into `if _go2handle { … }`, renaming every use of `err` in the
  body `_go2handleErr`. `process.go` instead cuts `check` and `handle err` out of the text. It
  records where, in the cut text, each checked expression and each handler block
  begins.
- **Syntax-tree passes.** `ast.go` and `transform.go` replace every checked expression
  by fresh variables, one per result value, named by type with the help of
  `typevar.go` and `sanitizeType`. Before the statement they insert the declaration
  and an `if err != nil { … }`. That block runs the function's earlier handlers,
  newest first, then a default handler. A pass is repeated while the type checker
  still has checks to type.
- **Printing.** `ast.go` prints the file and then removes runs of blank lines inside
  functions. `cut.go` sorts those cuts, removes duplicates and deletes them from
  the text.
- **The command.** `main.go` is go2gen's command. Its `replaceChecks` wraps each
  `check` operand in a `_go2check ( … )` call at the token level. Its `convertAST`
  turns every such call into `_go2valN, …, _go2errM := e` followed by
  `if _go2errM != nil { panic(_go2errM) }`. `resultCount` and the argument map
  (`argMap`) decide how many variables each call gets.

One module per source file:

| module | file | form |
|---|---|---|
| `TypeVar` | typevar.go | functions over strings; the two helper loops as methods |
| `Cut` | cut.go | insertion sort and `Apply` in place on an `array<Cut>`; `Uniq` as a loop |
| `Rewrite` | rewrite.go | class `Rewriter` with the rewriter's fields; each method is tied to a state-transition function |
| `Process` | process.go | the scanning loop as a method, specified by a recursive function |
| `AstRules`, `AstPass`, `AstPrint` | ast.go | value-level rules; class `Context` holding the pass's maps; the blank-line cutter |
| `TransformPass` | transform.go | class `TransformContext` over the same node table |
| `Convert` | main.go | classes `ArgMap` and `Converter`; the `replaceChecks` and code-insertion loops; a specification of the tree walk |

Shared modules:

- `Wrappers`: `Option`/`Result`.
- `GoStrings`: `strconv.Itoa`, `strings.Index` and `strings.Replace`.
- `GoToken`: the tokens `go/scanner` returns.
- `GoTree`: a small statement/expression syntax and a preorder node table with parent
  links, standing in for `go/ast` nodes and their identity.
- `Splicing`: the "write `src[i:start]`, then the new value, continue from `end`" loop
  that appears in `cut.go`, `rewrite.go` and `process.go`.

Conventions:

- A Go panic becomes `Err(message)`, carrying the message the source uses.
- A Go map read at a missing key gives the zero value.
- Three things are inputs: the scanner's tokens, the type checker's answers, and the
  order in which `astutil.Apply` visits nodes.

## Model

| member | source | states |
|---|---|---|
| TypeVar.CapitalizeShape | typevar.go:5-10 | `capitalize` keeps "" as is and the length. It upper-cases the first character only (an ASCII letter; any other character stays), keeps the rest, and is idempotent. |
| TypeVar.MapKeyClose | typevar.go:34-47 | The depth-counting scan returns -1 or the index of a `]` inside the string. |
| TypeVar.MapTypeToVar | typevar.go:32-49 | The loop of `mapTypeToVar` computes what the recursive definition of `typeToVar` gives for a `map[` spelling. That includes the panic when no depth-0 `]` exists. |
| TypeVar.ArrTypeToVar | typevar.go:51-58 | The loop of `arrTypeToVar` computes what the recursive definition gives for an array spelling, including the panic. |
| TypeVar.DefaultStep | typevar.go:22-28 | In the default branch, a name holding a `.` is encoded as what follows the first `.`. |
| TypeVar.MapStep | typevar.go:32-49 | With a depth-0 `]`, a map spelling is `mapOf` + capitalized key + `To` + capitalized value. |
| TypeVar.SliceStep | typevar.go:16-17 | `[]T` is `slc` + capitalize(encoding of T). |
| TypeVar.ArrayStep | typevar.go:51-58 | An array spelling is `arr` + capitalize(encoding of what follows the first `]`). |
| TypeVar.PointerStep | typevar.go:20-21 | `*T` is `ptr` + capitalize(encoding of T). |
| TypeVar.QualifiedNameDropped | typevar.go:22-28 | A package path before the first `.` is dropped from a plain name. |
| TypeVar.ScanSpelling | typevar.go:34-46 | Scanning across any well-formed nested type spelling meets no depth-0 `]` and comes out at the depth it entered. This is why the key of a map of maps is cut at the right bracket. |
| TypeVar.TypeToVarOfSpelling | typevar.go:12-30 | For every well-formed type (named, qualified, pointer, slice, array, map, nested), `typeToVar` of the spelling `go/types` prints is the constructor-by-constructor encoding. It never panics on such a spelling. |
| TypeVar.NamedToVar | typevar.go:22-28 | The named (possibly qualified) case of the encoding theorem. |
| TypeVar.PointerToVar | typevar.go:20-21 | The pointer case of the encoding theorem. |
| TypeVar.SliceToVar | typevar.go:16-17 | The slice case of the encoding theorem. |
| TypeVar.ArrayToVar | typevar.go:18-19 | The array case of the encoding theorem. |
| TypeVar.MapToVar | typevar.go:14-15 | The map case of the encoding theorem. |
| TypeVar.TypeToVarVectorNamed | typevar_test.go:11-12 | `foo` → `foo`; `pkg.foo` → `foo`. |
| TypeVar.TypeToVarVectorPointer | typevar_test.go:13-14 | `*foo` → `ptrFoo`; `**foo` → `ptrPtrFoo`. |
| TypeVar.TypeToVarVectorSlice | typevar_test.go:15 | `[]foo` → `slcFoo`. |
| TypeVar.TypeToVarVectorArray | typevar_test.go:16 | `[123]foo` → `arrFoo`. |
| TypeVar.TypeToVarVectorMap | typevar_test.go:18 | `map[int]bool` → `mapOfIntToBool`. |
| TypeVar.TypeToVarVectorNested | typevar_test.go:17 | `[][][123]**foo` → `slcSlcArrPtrPtrFoo`. |
| TypeVar.TypeToVarVectorMapOfMap | typevar_test.go:19 | `map[map[int]bool][123]*foo` → `mapOfMapOfIntToBoolToArrPtrFoo`: the key is cut at the `]` of depth 0. |
| TypeVar.TypeToVarRejects | typevar.go:32-58 | The two panics: a `map[` with no depth-0 `]`, and an array spelling with no `]`. |
| TypeVar.PlainNameUnchanged | typevar.go:24-27 | A dot-free name that starts no type constructor is returned unchanged. |
| Cut.Less | cut.go:33-46 | `Less` panics with "overlapping cuts" exactly for pairs that overlap or touch without being equal. `true` means a ends before b starts. `false` means b ends before a starts, or the cuts are equal. |
| Cut.LessStrict | cut.go:33-46 | On proper cuts `Less` is irreflexive and asymmetric. |
| Cut.LessPanicsOnContact | cut.go:36-45 | Distinct overlapping or touching cuts panic in either order. |
| Cut.Swap | cut.go:48-50 | `Swap` exchanges two elements and leaves the multiset unchanged. |
| Cut.Sort | cut.go:25-27 | The sort permutes the cuts. If it returns without a panic, they are sorted. A list whose pairs are all comparable never panics, and a panic carries the "overlapping cuts" message. |
| Cut.InsertDown | cut.go:25-27 | One insertion step permutes the array and extends the sorted prefix by one, unless a comparison panics, which requires an incomparable pair. |
| Cut.SortedComparable | cut.go:33-46 | If some arrangement of proper cuts is sorted, every pair of them is comparable. So a sort that finishes proves the input was free of overlaps. |
| Cut.Uniq | cut.go:15-23 | The `Uniq` loop computes the list with consecutive duplicates dropped. |
| Cut.DedupSpec | cut.go:15-23 | `Uniq` leaves no consecutive duplicate and keeps the same members. It leaves a list with no consecutive duplicates as it is. |
| Cut.DedupStrict | cut.go:15-23 | After a sort, `Uniq` leaves every cut wholly before the next. |
| Cut.ApplyDeletes | cut.go:52-71 | Splicing the sorted, deduplicated cuts keeps exactly the bytes no original cut covers, in order. |
| Cut.Apply | cut.go:52-71 | `Apply` permutes the array into sorted order and splices its deduplicated cuts. On proper cuts it panics with "overlapping cuts" exactly when two of them overlap or touch. Otherwise, for cuts inside the string, it returns the bytes no cut covers, whatever order the cuts came in. |
| Cut.ApplyVectorOne | cut_test.go:11 | `{1,2}` on "hello world" gives "hllo world". |
| Cut.ApplyVectorTwo | cut_test.go:12 | `{7,8},{0,5}` on "hello world" gives " wrld". |
| Cut.SpliceVectorTwo | cut_test.go:12 | The splice of the sorted cuts `{0,5},{7,8}` gives " wrld". |
| Cut.ApplyVectorPanic | cut_test.go:13 | `{1,5},{3,7}` is not comparable, so `Apply` panics. |
| Splicing.Splice | cut.go:56-70 | The builder loop (the same code as rewrite.go:99-115 and process.go:68-80) computes the recursive splice. |
| Splicing.SpliceOkIff | rewrite.go:99-115 | The splice fails with the slice-bounds panic exactly when some edit starts before the point reached or lies outside the source. |
| Splicing.SpliceLength | rewrite.go:99-115 | The output length is the input length minus the bytes the edits cover plus the bytes they write. |
| Splicing.SpliceSuffix | rewrite.go:99-115 | After the first k edits, the output continues with the splice of the remaining edits from the k-th edit's end. |
| Splicing.SpliceKeepsGap | rewrite.go:102-113 | In the output, each edit's value is followed by the unchanged source bytes up to the next edit. |
| Splicing.SpliceDeletes | cut.go:56-70 | Splicing in-bounds deletions keeps exactly the bytes outside every deletion. |
| Splicing.SpliceNoEdits | rewrite.go:113 | With no edits the source comes back unchanged. |
| GoStrings.Itoa | main.go:162-165 | `strconv.Itoa` of a counter is a non-empty string of decimal digits. |
| GoStrings.ItoaInjective | ast.go:266 | Different counters print differently, so generated names with one prefix never coincide. |
| GoStrings.IndexOfFirst | typevar.go:24 | `strings.Index` with one byte returns the first occurrence, or -1 exactly when the byte is absent. |
| GoStrings.ReplaceAllConcat | ast.go:593-594 | `strings.Replace(…, -1)` of one character distributes over concatenation. |
| GoStrings.ReplaceAllAvoids | ast.go:593-594 | A character that is absent from the input (or is the one replaced) and absent from the replacement is absent from the result. |
| Rewrite.CountSpec | rewrite.go:40-55 | Each delimiter moves its own counter by one and no other; every other token leaves the counters as they are. |
| Rewrite.CountCloses | rewrite.go:40-55 | A closing delimiter undoes its opening one. |
| Rewrite.ScanStep | rewrite.go:118-127 | A scan keeps the recorded changes and clears a pending rewind; it never increases the work left and a scan that does not return EOF decreases it. |
| Rewrite.Rewriter.constructor | rewrite.go:79-91 | `newRewriter`: the source and its tokens are kept, nothing is scanned or recorded, no error is set. |
| Rewrite.Rewriter.Scan | rewrite.go:118-127 | `scan` returns the saved token when a rewind is pending and the next token otherwise, and updates the index/token/literal fields accordingly. |
| Rewrite.Rewriter.StateInit | rewrite.go:129-152 | `stateInit` leaves the rewriter in the state the scan-to-EOF loop reaches, or stores the message of the first panic in the error field (the deferred recover). |
| Rewrite.Rewriter.StateCheck | rewrite.go:154-194 | `stateCheck` records "_go2check(" over "check ", follows nested checks, and panics on EOF or on a negative delimiter count, exactly as the check state function says. |
| Rewrite.Rewriter.StateHandle | rewrite.go:196-252 | `stateHandle` requires an identifier and a left brace, records "if _go2handle", renames the error variable, rejects nested check/handle, and stops after the operator that closes the braces. |
| Rewrite.Rewriter.Rewrite | rewrite.go:93-116 | `rewrite` returns the stored error if `stateInit` set one and otherwise splices the recorded changes into the source. |
| Rewrite.RewriteChecksAndHandles | rewrite.go:16-18 | The entry point returns the rewriting of the source for the scanner's tokens. |
| Rewrite.InitLoop | rewrite.go:135-151 | The scan-to-EOF loop only appends changes. |
| Rewrite.CheckState | rewrite.go:154-194 | A check only appends changes and never increases the work left. |
| Rewrite.HandleState | rewrite.go:196-252 | A handler only appends changes and never increases the work left. |
| Rewrite.NoKeywordsUnchanged | rewrite.go:93-152 | A source in which no token is spelled `check` or `handle` comes back unchanged. |
| Rewrite.CheckBalanced | rewrite.go:154-194 | A successful check records one "_go2check(" and one ")" more than it started with, whatever checks it nests. |
| Rewrite.ChecksClosed | rewrite.go:129-194 | When the rewriting succeeds, every "_go2check(" it records is matched by an inserted ")". |
| Rewrite.CheckShape | rewrite.go:155-185 | A successful check replaces "check " by "_go2check(" at the keyword and ends by inserting ")" right before an expression-ending token, which it leaves to be re-read. |
| Rewrite.HandleLoopRenames | rewrite.go:220-251 | The handler's body loop records exactly one renaming per body token spelled like the error variable, and nothing else. |
| Rewrite.HandleShape | rewrite.go:196-252 | A successful handle is followed by an identifier and `{`, replaces "handle <ident>" by "if _go2handle", and then renames exactly the uses of the identifier in the body. |
| Rewrite.RewriteVectorCheck | rewrite_test.go:21 | "check nil" → "_go2check(nil)". |
| Rewrite.RewriteVectorCheckAdd | rewrite_test.go:22-28 | "check add(1, 2)" → "_go2check(add(1, 2))": the check closes at the semicolon after the call's `)`. |
| Rewrite.RewriteVectorNested | rewrite_test.go:23-29 | "check add(check add(1, 1), check add(1, 1))" → "_go2check(add(_go2check(add(1, 1)), _go2check(add(1, 1))))": each inner check closes at the `,` or `)` of its own depth and the outer one at the semicolon. |
| Rewrite.RewriteVectorHandle | rewrite_test.go:24-30 | "handle err { print(err) \n\t os.Exit(1) \n }" → "if _go2handle { print(_go2handleErr) \n\t os.Exit(1) \n }": only the use of `err` is renamed, and `os.Exit` is left alone. |
| Rewrite.RewriteVectorNoSpace | rewrite.go:155-159 | "check(x)" → "_go2check(x))": the opening change always covers six bytes, so it swallows the argument's parenthesis and the result is unbalanced. |
| Rewrite.ChangesOrdered | rewrite.go:93-116 | When every `check` is followed by at least one byte before the next token, the recorded changes are in order and inside the source, so `rewrite` fails exactly when `stateInit` does: the splice never panics. |
| Rewrite.RewriteUnspacedPanics | rewrite.go:97-113 | "check;" is lexed output whose loop succeeds, yet its six-byte opening change ends past the `)` inserted at byte 5, so the splice panics on the slice bounds. |
| Process.Process | process.go:23-83 | The method's loop and splice compute the recursive definition of `process`. |
| Process.CollectPlain | process.go:37-66 | Without either keyword the scan records nothing. |
| Process.NoMarkersUnchanged | process.go:23-83 | A source with neither keyword comes back unchanged with two empty maps. |
| Process.CollectConsistent | process.go:35-65 | The running offset always equals the number of bytes cut, and the two maps hold exactly one position per cut, at the token following the keyword in the shortened text. |
| Process.CollectOrdered | process.go:37-66 | The cuts are recorded in order, as in-bounds deletions, so the splice after the loop cannot fail. |
| Process.CollectFails | process.go:43-64 | The scan fails only with one of its three messages. |
| Process.ProcessedSpec | process.go:23-83 | On scanner output, `process` fails exactly when the scan does, with one of the three messages; otherwise the text is the source minus the cut bytes, in order, with one map entry per cut. |
| Process.MarkersPointAtNext | process.go:48-51 | Each recorded position points, in the shortened text, at the bytes that followed the removed keyword, unchanged up to the next cut. |
| Process.ProcessVectorCheckNil | process_test.go:20-27 | "check nil" → "nil", check marked at 1. |
| Process.ProcessVectorCheckAdd | process_test.go:28-35 | "check add(1, 2)" → "add(1, 2)", check marked at 1. |
| Process.ProcessVectorNested | process_test.go:36-45 | The nested checks are all cut and marked at 1, 5 and 16. |
| Process.ProcessVectorHandle | process_test.go:46-53 | "handle errFoo { … }" → "{ … }", with "errFoo" recorded at 1. |
| Process.ProcessVectorAtoi | process_test.go:54-63 | Three checks joined by `+` are cut and marked at 1, 11 and 21. |
| Process.ProcessVectorHandleAlone | process.go:53-56 | "handle" alone fails with "token after handle isn't literal", because the scanner inserts a semicolon. |
| AstRules.RenameAbsent | ast.go:582-589 | `replaceIdent` leaves a statement without the old identifier unchanged. |
| AstRules.RenameExprAbsent | ast.go:582-589 | The same for expressions. |
| AstRules.RenameRoundTrip | ast.go:582-589 | Renaming to an identifier the statement does not use, and back, restores the statement. |
| AstRules.RenameExprRoundTrip | ast.go:582-589 | The same for expressions. |
| AstRules.RenameRemoves | ast.go:582-589 | After renaming to a different name the old identifier no longer occurs. |
| AstRules.RenameExprRemoves | ast.go:582-589 | The same for expressions. |
| AstRules.TrimReports | ast.go:516-548 | `trimTerminatingStatements` reports exactly the terminating-statement rules it implements: return, a call of `panic`, a block with a terminating statement, an if whose both branches terminate. |
| AstRules.TrimListReports | ast.go:533-540 | A block is reported terminating exactly when one of its statements is. |
| AstRules.FirstTerminating | ast.go:534-539 | The index of the first terminating statement of a list, or -1, and no terminating statement before it. |
| AstRules.TrimListKeepsPrefix | ast.go:533-540 | Trimming a block keeps its statements, each trimmed, up to and including the first terminating one and drops the rest. |
| AstRules.TrimKeepsTerminating | ast.go:516-548 | A trimmed statement is terminating exactly when the original is. |
| AstRules.TrimListEndsTerminating | ast.go:533-540 | When trimming reports true, the block's last statement is terminating. |
| AstRules.TrimIdempotent | ast.go:516-548 | Trimming twice is trimming once. |
| AstRules.TrimListIdempotent | ast.go:533-540 | The same for statement lists. |
| AstRules.RenameKeepsTerminating | ast.go:300-308 | Renaming the error variable (never to or from `panic`) does not change whether a handler terminates. |
| AstRules.SanitizeType | ast.go:592-615 | The loop of `sanitizeType` computes the bracket-by-bracket definition, including the "mismatched delimiters" panic. |
| AstRules.SanitizedClean | ast.go:592-615 | A sanitized type name holds no `.`, `*` or `[`. |
| AstRules.SanitizedNoBrackets | ast.go:593-594 | Without brackets only the dots and stars change. |
| AstRules.SanitizedUnclosed | ast.go:601-604 | A `[` with no `]` anywhere panics. |
| AstRules.SanitizedPlain | ast.go:592-615 | A name with no dot, star or bracket is kept as it is. |
| AstRules.FlattenedDot | ast.go:593 | Every `.` disappears. |
| AstRules.FlattenedStar | ast.go:594 | Every `*` is spelled `pointer`. |
| AstRules.BracketsSlice | ast.go:606-611 | An empty bracket pair is spelled `slice`. |
| AstRules.BracketsArray | ast.go:606-611 | A bracket pair with something inside is spelled `array`. |
| AstRules.BracketsNoOpen | ast.go:596-614 | The bracket loop leaves no `[`. |
| AstRules.SanitizeVectorSlice | ast.go:592-615 | `[]int` is sanitized to `sliceint`. |
| AstRules.FreshNames | ast.go:263-269 | The i-th generated name is prefix + type name + the block's counter for that type plus the earlier uses of the same type name in this check. |
| AstRules.BumpedCounts | ast.go:265-268 | Afterwards each type's counter has grown by the number of names of that type. |
| AstRules.NameResults | ast.go:263-269 | The naming loop returns the fresh names and the bumped counters. |
| AstRules.FreshNameInjective | ast.go:266 | Names built from one type name differ when their counters differ. |
| AstRules.FreshNamesDistinct | ast.go:263-269 | Two values of one check with the same type name get different names. |
| AstRules.CounterBelowAfter | ast.go:263-269 | Every counter a check hands out is below the block's counter afterwards, so later checks in the block never reuse a name of the same type. |
| AstRules.FreshNamesAcrossTypesCollide | ast.go:266 | Names of different types can meet: `T1` at counter 0 and `T` at counter 10 are both spelled prefix + `T10`. |
| AstRules.SanitizeAll | ast.go:245-248 | Each tuple element type is sanitized in order; a failure exists exactly where some element fails. |
| AstRules.TupleNames | ast.go:244-248 | The tuple loop computes `SanitizeAll`. |
| AstRules.ResultNames | ast.go:239-259 | On success the type names are non-empty and the last is `error`. |
| AstRules.TypeNames | ast.go:239-259 | The switch and the two checks after it compute `ResultNames`. |
| AstRules.ResultNamesErrors | ast.go:241-259 | The three panics in the order they are met: neither named nor tuple, an empty tuple, a last value that is not `error`. A named type gives `["error"]`. |
| AstRules.ParentRule | ast.go:273-293 | The parent switch fails exactly for a plain expression parent with fewer than two names. The declared names keep their number and the error name last. |
| AstRules.Blanked | ast.go:285-287 | Under an expression statement every name but the error becomes `_`. |
| AstRules.ParentRuleShapes | ast.go:273-293 | Each case's action: an expression statement is deleted and its names blanked; a call with more than two names gets the value names as its arguments; otherwise the check is replaced by its first name. |
| AstRules.ZeroValue | ast.go:550-580 | `zeroValueString`: `false`, `""`, `0` and `nil` for booleans, strings, other basics and the rest. Structs are spelled with `{}`. The two panics occur exactly for struct type expressions that are not an identifier, a package-qualified selector or a struct literal. |
| AstRules.PanicWithErr | ast.go:501-510 | `panicWithErrStmt` is terminating and mentions the variable. |
| AstRules.ZeroValues | ast.go:483-494 | One zero value per field, in order. |
| AstRules.DefaultHandleStmt | ast.go:457-499 | As written, and as the pass uses it: `panic(err)` unless the last result is `error`; otherwise a return of one zero value per result field, with `err` last; always terminating. |
| AstRules.PerValue | ast.go:483-494 | One field per declared value, the last having the type of the last field. |
| AstRules.DefaultHandleStmtShortReturn | ast.go:483-494 | `(a, b int, err error)` declares three values, yet the handler as written returns two. |
| AstRules.DefaultHandler | ast.go:457-499 | Corrected: the return carries one value per declared result with `err` last; always terminating. The pass does not use it. |
| AstRules.DefaultHandlerZeroes | ast.go:483-494 | Every zero value the corrected handler returns is the zero value of the result in its place. |
| AstRules.NewestFirst | ast.go:295-302 | The handler loop chains the handlers registered before the statement, newest first, each renamed to the check's error name. |
| AstRules.HandleBodyTerminates | ast.go:295-308 | With a terminating default, the handler body ends in a terminating statement and is the chain, each statement trimmed, up to it. |
| AstRules.HandleBodyDefaultOnly | ast.go:295-308 | With no handler before the statement, the body is the renamed default handler alone. |
| AstRules.InsertedAbsent | ast.go:324-335 | Without the statement in the block, the list is unchanged. |
| AstRules.InsertedBefore | ast.go:324-335 | The assignment and the if land right before the first occurrence of the statement, and nothing else moves. |
| AstRules.InsertBefore | ast.go:324-335 | The search loop computes `Inserted`. |
| AstPass.NearestFuncIsNearest | ast.go:114-135 | The function `buildTrees` records for a node encloses it, and no other enclosing function lies below that one. |
| AstPass.NearestBlockIsNearest | ast.go:114-135 | The same for the innermost enclosing block. |
| AstPass.Drop | ast.go:346-363 | Deleting statements keeps exactly the pieces not named, and keeps a list with none of them as it is. |
| AstPass.CollectSound | ast.go:137-211 | After the collection walk, each function's handle blocks are in source order with their error names, and every statement counts only its own function's earlier handlers. Every recorded check lies outside every handle block. |
| AstPass.CollectFromKeeps | ast.go:144-210 | The walk's invariant (checks, handlers, counts, skipped subtrees) holds from any node to the end. |
| AstPass.GeneratedExits | ast.go:295-322 | The generated statements are the assignment of the check's names followed by an `if` on the error name. Its body is the renamed handler chain and then `defaultHandleStmt2` as written, and ends in a terminating statement. |
| AstPass.GeneratedShortReturn | ast.go:295-322 | In a function `(a, b int, err error)` with no earlier handler, the generated `if` returns `0` and the error: two values for three results, as `defaultHandleStmt2` is written. |
| AstPass.ErrNameNotPanic | ast.go:263-271 | The error value's name is `error` or a fresh name built on it, never `panic`. |
| AstPass.ExpandedKeeps | ast.go:237-335 | Expanding one check keeps the set of pending checks and every block's original statements, in order. It keeps every generated `if` ending in a terminating statement. |
| AstPass.ConsumeFromKeeps | ast.go:213-343 | A whole postorder pass only removes checks it could type, keeps every block's original statements in order, and keeps every handler `if` terminating. |
| AstPass.DeleteFromDrops | ast.go:346-363 | `deleteExprStmts` removes exactly the marked expression statements from their blocks, and unmarks them. |
| AstPass.DropTwice | ast.go:356-360 | Deleting in two rounds is deleting the union. |
| AstPass.ClauseStmtNotInserted | ast.go:324-335 | A check's statement in the body of a case or comm clause is not in its block's list, so the insertion loop finds nothing and no statement is generated for it. |
| AstPass.StmtListsPlain | ast.go:114-135 | The parsed block lists hold each statement in its parent block. |
| AstPass.Context.constructor | ast.go:365-381 | A context starts with the file and with every map empty. |
| AstPass.Context.BuildTrees | ast.go:114-135 | `buildTrees` adds, for every node, its function and block owners, and a fresh counter map per block. It changes nothing else. |
| AstPass.Context.CollectHandlersAndChecks | ast.go:137-211 | The walk's effect is the collection specification: the handler chains, error names, handler counts, checks and statement lists it gives, or its panic message. A handle block is deleted from the list that holds it, a block's or a case or comm clause's body. |
| AstPass.Context.CollectOne | ast.go:144-209 | The callback on one node does what one collection step specifies. It passes over nodes below a deleted handle block and outside any function or block. It registers a handle block and deletes it from its parent's list (a block or a case or comm clause). It fails when the marker is not on a block, or when the parent holds no list. It records a statement's handler count and makes it current. It collects each check position once, and fails when no statement is current. |
| AstPass.Context.DeleteHandle | ast.go:157-165 | A handle block is appended to its function's chain, gets its marker's error name, and is removed from its parent block's list. Nothing else changes. |
| AstPass.Context.ConsumeOne | ast.go:217-340 | The postorder callback on one node does what one consumption step specifies, with the default handler `defaultHandleStmt2` as written. |
| AstPass.Context.Expand | ast.go:239-335 | Naming, editing the parent and inserting the generated statements for one check do what `Expanded` specifies. The `if` ends with `defaultHandleStmt2` as written. |
| AstPass.Context.NameIn | ast.go:263-269 | Numbering the values after the block's counters. |
| AstPass.Context.Apply | ast.go:273-335 | The check's place is edited by the parent rule and the generated statements are inserted before its statement, and nothing else changes. |
| AstPass.Context.Generate | ast.go:295-322 | The handler loop and the two generated statements, with `defaultHandleStmt2` as written, or its panic. |
| AstPass.Context.ConsumeTypedChecks | ast.go:213-344 | One pass over the postorder walk returns the number of checks left, or the panic it meets. Its generated handlers end with `defaultHandleStmt2` as written. |
| AstPass.Context.RunPass | ast.go:402-410 | A pass without an error keeps every generated handler body ending in a return or a panic, and returns the number of checks left, which never grows. The default handler is `defaultHandleStmt2` as written. |
| AstPass.Context.DeleteExprStmts | ast.go:346-363 | The deletion walk's effect is `DeleteFrom`'s result: a marked statement is removed from the list that holds it, a block's or a case or comm clause's body. The error is returned when the statement is in no list. |
| AstPass.Transform | ast.go:365-424 | The driver stops either with an error, or with no checks left, or with "UNDEFINED TYPE" exactly when checks remain after a pass that typed none. Every inserted `if` in the result ends in a return or a panic. The default handler is `defaultHandleStmt2` as written, and handle blocks and expression statements are deleted from case and comm clause bodies too. |
| AstPrint.FlushStep | ast.go:62-70 | A byte other than a newline turns the pending run of extra newlines into one cut from its first to its last index. |
| AstPrint.ScanDone | ast.go:61-78 | When the span has been read, a byte is cut exactly when it is a newline that follows a newline and comes before some other byte of the span. A run at the very end of the span is not cut. |
| AstPrint.SpanCuts | ast.go:58-78 | The inner loop's cuts lie inside the function and remove only the newlines after the first of a run. They are in strict order. A byte is cut exactly when it is such a doubled newline. |
| AstPrint.BlankCuts | ast.go:56-79 | Over all functions, a byte is cut exactly when it is a doubled newline of some function. When each function's text opens with a byte other than a newline, every cut starts right after the first newline of its run. |
| AstPrint.Trim | ast.go:32-82 | `go2File.string` after printing: when every function's text opens with a byte other than a newline, the cuts never clash. The result is then the text with exactly those doubled newlines removed. |
| TransformPass.FuncAbove | transform.go:133-141 | The function recorded for a node is a function strictly above it. |
| TransformPass.BlockAbove | transform.go:143-147 | The block recorded for a node is a block strictly above it. |
| TransformPass.StmtOf | transform.go:149-159 | The statement recorded for an expression is a statement above it, reached through expressions only. |
| TransformPass.FuncAboveIsNearest | transform.go:133-141 | No function lies strictly between a node and its recorded function. |
| TransformPass.BlockAboveIsNearest | transform.go:143-147 | No block lies strictly between a node and its recorded block. |
| TransformPass.StmtOfIsNearest | transform.go:149-159 | The recorded statement is the nearest statement above the expression. |
| TransformPass.BuildTreeInfo | transform.go:107-165 | `buildTreeInfo`'s maps give every node its function, block and statement as defined above, mark function bodies, and hold a fresh counter map per block. |
| TransformPass.ListAtPrefix | transform.go:167-199 | The first walk's lists never disagree: every prefix of a block's list that ends at a statement is exactly what was visible at that statement. |
| TransformPass.ListAtElems | transform.go:183-196 | Every statement in a block's list lies in that block or an enclosing one and was met earlier. |
| TransformPass.HistIncreasing | transform.go:167-199 | What is visible at a statement is in source order. |
| TransformPass.VisibleLists | transform.go:167-199 | The first walk builds, for every block, the list defined by `ListAt`: the copy of the enclosing list taken when the block was met, then the block's own statements. |
| TransformPass.LinkAll | transform.go:201-209 | After the loop over all lists, every pointer goes from a listed statement to the one listed just before it. Every statement of a list but the first has a pointer. |
| TransformPass.LinkBack | transform.go:202-209 | The inner loop points every statement of a list but the first back at the one before it. |
| TransformPass.LexicalStmtTree | transform.go:167-212 | The statement tree maps exactly the listed statements that have a predecessor, each to the statement listed just before it. The order of the map iteration does not matter, because only one map fits. |
| TransformPass.GatherSound | transform.go:214-262 | The collection walk from nothing records every handle block with its error name and removes it from its list. It collects each marked, non-binary expression outside the handle blocks once per position, in source order, and no collected check lies within a recorded handle block. |
| TransformPass.GatheredExprs | transform.go:240-258 | Every collected check is an expression node of the file. |
| TransformPass.Handles | transform.go:284-293 | A failure is always "handle not a block". |
| TransformPass.HandlesMeaning | transform.go:284-293 | Collecting handle blocks from a list succeeds exactly when no handle marker sits on a non-block. It keeps exactly the handle blocks. |
| TransformPass.WalkedStep | transform.go:284-295 | Walking back one step moves to a strictly earlier statement, so the walk terminates. |
| TransformPass.ChainVisible | transform.go:278-306 | A check's handler chain is exactly the handle blocks visible at its statement (earlier in its block or in an enclosing block), nearest first. |
| TransformPass.HandlesOrdered | transform.go:284-293 | The chain keeps the walk's nearest-first order. |
| TransformPass.VarNames | transform.go:342-346 | Each tuple element's fragment is `typeToVar` of its spelling; a failure is the failure of some element. |
| TransformPass.TupleVars | transform.go:342-346 | The tuple loop computes `VarNames`. |
| TransformPass.ValueTypes | transform.go:337-357 | A named type gives `["error"]`; another shape and an empty tuple panic with their messages. On success the last fragment is `error`. |
| TransformPass.ValueTypesOfTuple | transform.go:342-346 | A tuple's fragments are those of its elements, in order. |
| TransformPass.TypeVars | transform.go:337-357 | The switch and the two checks after it compute `ValueTypes`. |
| TransformPass.ExpandedKeeps | transform.go:335-423 | Expanding one check keeps the pending checks and every block's original statements in order. Every generated handler body stays trimmed. |
| TransformPass.ConsumeFromKeeps | transform.go:308-429 | A postorder pass only removes checks it could type, keeps the original statements in order, and keeps every generated body trimmed. |
| TransformPass.TransformContext.constructor | transform.go:270-276 | A transform context starts with every map empty and the parsed block lists. |
| TransformPass.TransformContext.CollectChecksAndHandles | transform.go:214-262 | The walk's effect is the gathering specification: the checks in source order, the handlers' error names and the lists without handle blocks, or the panic. A handle block is dropped from the list that holds it, a block's or a case or comm clause's body. |
| TransformPass.TransformContext.GatherOne | transform.go:219-259 | The callback on one node does exactly one gathering step. A handle block records its error name and is dropped from its parent's list (a block or a case or comm clause), with its contents skipped; a handle on a non-block is the "handle not a block" panic, and a parent holding no list is the deletion panic. A unary check expression is collected once per position. The context's checks, deletions, counters and edits are left untouched. |
| TransformPass.TransformContext.ChainFrom | transform.go:283-295 | The loop over the statement tree computes the check's handler chain. |
| TransformPass.TransformContext.CheckRecord | transform.go:280-305 | The record of one check is its function, block, statement and chain, as `InfoOf` says. |
| TransformPass.TransformContext.BuildHandlerChains | transform.go:278-306 | `buildHandlerChains` fails exactly when some check's chain meets a handle marker on a non-block. Otherwise every collected check gets its record and earlier records stay. |
| TransformPass.TransformContext.CheckRecords | transform.go:280-305 | The loop over the collected checks succeeds exactly when every check's chain succeeds. On failure it reports the handle-not-a-block message. On success its keys are exactly the collected checks, each with its function, block, statement and handler chain. |
| TransformPass.TransformContext.ConsumeOne | transform.go:312-428 | The postorder callback on one node does what one consumption step specifies. |
| TransformPass.TransformContext.Expand | transform.go:335-423 | Naming, editing the parent and inserting the generated statements for one check do what `Expanded` specifies. |
| TransformPass.TransformContext.ChainBody | transform.go:388-393 | The loop copies the chain's handle blocks, each renamed to the check's error name. |
| TransformPass.TransformContext.Apply | transform.go:366-423 | The check's place is edited by the parent rule and the generated statements are inserted before its statement. |
| TransformPass.TransformContext.ConsumeTypedChecks | transform.go:308-429 | One postorder pass does what `ConsumeFrom` specifies. |
| TransformPass.TransformContext.DeleteExprStmts | transform.go:431-448 | The deletion walk does what `DeleteFrom` specifies: each marked statement leaves the list that holds it, a block's or a case or comm clause's body. |
| TransformPass.TreeAndStmts | transform.go:455-456 | `buildTreeInfo` and `lexicalStmtTree` together give the per-node information and the statement tree. |
| TransformPass.Prepare | transform.go:452-459 | Before the passes, the context holds a record for exactly the collected checks, the handlers' error names, the lists without handle blocks and fresh counters. |
| TransformPass.Transform2 | transform.go:450-485 | The driver stops with an error, or with no checks left, or with "UNDEFINED TYPE" exactly when checks remain. Every generated handler body in the result is trimmed. Handle blocks and expression statements are deleted from case and comm clause bodies too. |
| Convert.JoinFromMeaning | main.go:97-104 | Joining several parts fails with "more than one multiple return" exactly when some part holds more than one name. Otherwise the result is the parts concatenated in order. |
| Convert.JoinedSingles | main.go:89-105 | When every part is a single name, `get` succeeds with one name per part, in order. |
| Convert.ArgMap.constructor | main.go:115 | A new argument map is empty. |
| Convert.ArgMap.Add | main.go:82-87 | `add` ignores an empty list of names and otherwise appends it to the node's parts. |
| Convert.ArgMap.Get | main.go:89-105 | `get` returns nothing for no part, the part itself for one, and otherwise the joined single names. |
| Convert.AddedAlone | main.go:82-95 | After adding names to a node that had none, `get` returns exactly those names. |
| Convert.CheckToNodes | main.go:242-282 | `checkToNodes` panics exactly on an empty name list. Otherwise it yields a define-assignment of the expression to all the names, then an `if` that panics with the last name. |
| Convert.NamesDiffer | main.go:160-166 | A value name never equals an error name, and names of the same kind are equal only for equal counters. |
| Convert.ValsUnique | main.go:160-166 | One check gets n distinct names, and the last one is its error's. |
| Convert.ValsFresh | main.go:160-166 | A check named after the counters moved past an earlier one shares no name with it. |
| Convert.ResultCount | main.go:60-78 | For an identifier, the count is its signature's result count, and it fails unless the object is a function. Any callee other than an identifier or a function literal is an error. |
| Convert.GroupedResultsMiscounted | main.go:63-67 | As written, a literal `func() (a, b int, err error)` counts 2 values although it returns 3. |
| Convert.NoResultsDereferenceNil | main.go:63-67 | As written, a function literal with no results dereferences a nil list; as intended it counts 0. |
| Convert.ResultCountCountsNames | main.go:63-67 | As intended, a function literal counts one value per result name, or one per unnamed result. The count equals the number of fields when no field groups names. |
| Convert.LatestFirstConcat | main.go:198-204 | Inserting a statement's code walks its stack from the top, so checks collected later come first. |
| Convert.CheckRules | main.go:119-175 | On a check node that is not inside a rejected subtree, the preorder callback replaces the check by its argument exactly when the check is accepted. An accepted check moves the counters by its value count. A rejected one is pruned with an error and leaves the counters alone. |
| Convert.CheckVisitRules | main.go:125-175 | For a call with one argument under a parent that is not a check, the same holds: it is accepted exactly when its argument's result count is known and positive, and a single value sits in an expression statement. |
| Convert.CheckCode | main.go:160-174 | An accepted check pushes the assignment and the `if` for its freshly named values on its statement's stack. It hands every name but the error's to its parent when it has more than one value. |
| Convert.CountersGrow | main.go:160-166 | The counters never decrease during the walk. |
| Convert.ErrorSticks | main.go:131-157 | As intended, an error once recorded is still there at the end of the walk. |
| Convert.RejectionReported | main.go:112-210 | As intended, a check the walk rejects makes `convertAST` return an error. |
| Convert.AsWrittenClearsError | main.go:141-148 | As written, an accepted check whose argument is a call clears an error recorded for an earlier check; as intended the error stays. |
| Convert.InsertCode | main.go:198-204 | The insertion loop puts the stacked code before the statement, latest check first. |
| Convert.Converter.constructor | main.go:107-110 | A new converter follows the given rule and starts both counters at zero. |
| Convert.Converter.Allocate | main.go:160-166 | The naming loop produces the n names defined by the counters, and moves them past those names. |
| Convert.Converter.EnterNode | main.go:119-176 | The preorder callback does what `EnterStep` specifies under the converter's rule, on its counters and the argument map. `AsWritten` is main.go as written; `Intended` counts one value per result name and keeps a recorded error. |
| Convert.Converter.VisitCheck | main.go:125-175 | The callback on a check does what `CheckVisit` specifies under the converter's rule (as written, or with the corrected count and error). |
| Convert.Converter.AcceptCheck | main.go:160-175 | Accepting a check names its values, records the parent's arguments and the code, and replaces the check by its argument, as `Accept` says. |
| Convert.Converter.LeaveNode | main.go:178-206 | The postorder callback does what `LeaveStep` specifies: argument replacement from `get`, and code inserted before a statement. |
| Convert.Converter.ConvertAST | main.go:112-210 | Over the events of the walk, `convertAST` returns the error of the specification under the converter's rule (`AsWritten` for main.go as written). On success it leaves the counters and the tree edits as specified. |
| Convert.TrackDepth | main.go:399-416 | A token removes the innermost open check exactly when it writes a closing. |
| Convert.TrackToken | main.go:399-416 | The delimiter switch computes `Track`. |
| Convert.WriteToken | main.go:393-425 | One pass of the scanning loop writes a token's pieces and updates the stack as `Step` says. |
| Convert.ReplaceChecks | main.go:363-433 | `replaceChecks` writes the rendering of `Pieces`, or returns "scan error" when a check is still open at the end. |
| Convert.PiecesBalanced | main.go:393-430 | Every closing the pass writes closes a check call it opened, and a successful pass leaves none open. |
| Convert.PiecesKeepTokens | main.go:387-426 | A successful pass writes the text of every token except the `check`s, in order, and one opening per `check`. |
| Convert.StepPeriod | main.go:411-416 | A period with nothing open in the innermost check closes it as written. As intended it is written and the check stays open. |
| Convert.SelectorClosedEarly | main.go:393-416 | As written, `check x.` closes the call before the period, so the selection applies to the check's result. |
| Convert.SelectorChecked | main.go:393-416 | As intended (a period continues the checked operand; every other operator still ends the check), `check x.` keeps the call open across the period. |
| Convert.RulesAgreeWithoutPeriods | main.go:393-416 | Without a period the two rules write the same pieces: as intended, `check a() + check b()` still closes each check before the `+`. |

## Left out

- `go/scanner`: its output is an input sequence of tokens (offset, kind, literal), semicolons it inserts included. Scanning itself is not modelled.
- `go/parser`, `go/types` and the package loading of parse.go are left out. parse.go is not part of this model. The type checker's answer for each pass is an input function from the pass number to a map from expression to type shape, or an error.
- `astutil.Apply`: the order in which it enters and leaves nodes is an input (a postorder list, or a list of enter/leave events for `convertAST`). The model does not re-derive it from the tree. Nodes a cursor inserts or replaces are not visited again.
- Syntax trees are preorder node tables with parent links. Edits in place become maps from a node to its new arguments, its replacement and the statements inserted before it. A block's list is a sequence of original statements and generated ones. Pointer aliasing between `go/ast` nodes is therefore not modelled.
- Each pass works on one file. The loop over a package's files in `transform` and `transform2` is not modelled, because the per-file state is what the passes share.
- Go's map iteration order: `go2File.string` collects function spans from a map and `lexicalStmtTree` visits a map of lists. The spans are an input sequence. The lists are visited by block, and `LexicalStmtTree` shows that the result does not depend on the order.
- `go/format` printing and re-parsing in `go2File.string`: only the blank-line cut computation over given function spans is modelled. The copy of `go2File.string` in transform.go (transform.go:31-81) repeats the one in ast.go and is modelled once.
- `sort.Sort` in `Cut.Sort` is an insertion sort, as `sort.Sort` uses for short slices. Only the sorted, permuted result matters to `Apply`, and that holds for any correct sort.
- `Cut.Len` is the length of the array.
- The `fmt.Println` debugging output, `nodeString` (transform.go:488) and `ProcessFile` (I/O) are left out.
- main.go's `main` and `parseDir` (I/O) are left out. `resultCount` looks up `types.Signature` objects, which become an input `Obj`: no object, a non-function, or a signature with its number of results.
- `replaceArgs` (main.go:212-222) returns an error for a node that is neither a call nor an assignment, and `convertAST` ignores it. The model records argument edits only for calls and assignments and drops the rest silently, as the source does.
- `zeroValueString` reads `types.Info`. The underlying type of each result is an input enumeration: bool, string, other basic, struct or other.
- `varPrefix` is not defined in the source, so the prefix of fresh names is a parameter.
- The error returned by `process.go` for end of input right after `check` or after `handle ID` is modelled. Lexed Go source never produces that input, because the scanner inserts a semicolon after an identifier at end of input.
- Quirks that the model keeps as the source has them:
  - `rewrite.go` assumes `check` is followed by exactly one byte, so `check(x)` becomes `_go2check(x))`, and `check;` makes the splice panic on its slice bounds (`RewriteUnspacedPanics`).
  - ast.go generates no statements for a check whose statement sits in a case or comm clause body, because it looks for the statement in the enclosing block's list only (`ClauseStmtNotInserted`).
  - ast.go's pass uses `defaultHandleStmt2` as written, so its short return is what the pass generates (`GeneratedShortReturn`).
  - `replaceChecks` counts a closer of an enclosing call against the innermost check, so `f(check x)` ends in "scan error".
  - Fresh names of different types can collide, because the counter is appended to the name with no separator (`FreshNamesAcrossTypesCollide`).
  - transform.go's "lats value of check expression must be error" message keeps its spelling.
  - A check whose statement is in no block makes transform.go write to a nil map, which panics.
  - transform.go appends no default handler.
- TypeVar.CapitalizeShape: `capitalize` is modelled on characters, upper-casing ASCII letters only. Go's `strings.ToUpper(s[0:1])` works on the first byte: a non-ASCII first byte is an invalid UTF-8 string, which becomes U+FFFD, three bytes long, so the length is not kept there. The model does not cover type names that start with a non-ASCII letter.
- AstPass.Transform: states how the driver stops, and that every generated handler body ends at its first terminating statement. It does not state the final block lists in full; those follow pass by pass from `ConsumeFrom` and `DeleteFrom`.
- TransformPass.Transform2: states how the driver stops, and that every generated handler body is trimmed. It does not state the final block lists in full, for the same reason.

## Findings

| source | as written | input that shows it | evidently intended | confidence | as-written member | corrected member |
|---|---|---|---|---|---|---|
| main.go:141-147 | `numResults, applyErr = cm.resultCount(innerCall)` overwrites `applyErr`, so a later check whose argument is a call clears the error of an earlier rejected check | `x := check g()` with `g` returning only `error` (rejected), then a later `check f()` with `f` returning `(int, error)`: `convertAST` returns nil and the rejected check stays in the tree | an error once recorded is returned | not executed | `Convert.AsWrittenClearsError` | `Convert.ErrorSticks`, `Convert.RejectionReported` |
| main.go:63-67 | a function literal counts `len(lit.Type.Results.List)`, one per result field | `check func() (a, b int, err error) { … }()` counts 2 values for 3 results | one value per result name, or per unnamed result | not executed | `Convert.GroupedResultsMiscounted` | `Convert.ResultCountCountsNames` |
| main.go:67 | a function literal with no results dereferences the nil `Results` | `check func() { }()` panics with a nil pointer dereference | the count is 0, reported as "check on func with no return values" | not executed | `Convert.NoResultsDereferenceNil` | `Convert.ResultCountCountsNames` |
| ast.go:483-494 | `defaultHandleStmt2` emits one zero value per result field | a function `(a, b int, err error)` gets `return 0, err`, two values for three results; the pass uses this handler as written (`AstPass.GeneratedShortReturn`) | one zero value per result name, then the error | not executed | `AstRules.DefaultHandleStmtShortReturn` | `AstRules.DefaultHandler`, `AstRules.DefaultHandlerZeroes` |
| main.go:411-416 | with no delimiter open, any operator closes the innermost check, the period of a selector included | `check os.Open(name)` becomes `_go2check ( os ) . Open ( name )` | a period continues the checked operand; every other operator still closes the check | not executed | `Convert.SelectorClosedEarly` | `Convert.SelectorChecked` |
