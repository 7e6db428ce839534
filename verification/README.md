# Verification model of the Jik seed compiler

Jik is translated to C by a seed compiler written in C. This project models the parts of
that compiler and of its C runtime whose correctness is not visible from one function, and
proves them in Dafny 4.11:

    dafny verify dfyconfig.toml

## What is modelled

**Regions** (`Region*.dfy`). A core language with parameters, locals, literals, containers,
calls and loops; the specs the region checker keeps (a kind, a source and a region name per
value), from what the parser and the scopes write down; every rule of the integrity pass and
of the post-check; the whole driver as a class that overwrites the specs of each function;
and an interpreter with a heap of regions, where a run may be cut off anywhere.
`RegionDriver.CheckedProgramSound` is the language's central promise: let the driver accept a
program, and let one more round leave the specs as they are; then no run stores a reference
outside the referring object's own region or reads a freed region, and a completed run has
freed every region it made. Nothing is assumed of the final specs but that last round and
the fragment below: that the table is complete, that a spec carries the source of the
variable it names, and that the classification taken on the first pass still holds, are
proved over the history of the passes (`RegionPlaces`, `RegionSteps`, `RegionHistory`,
`RegionInvariant`, `RegionClassified`, `RegionStillSafe`). The classification itself is proved
to be the greatest self-consistent set, whatever the order of functions.

The promise holds in a fragment. `RegionWitness` is a program with a call that meets all of the
theorem's premises. Outside the fragment are programs that the checker accepts although a run
breaks the promise. Each is here with a history of the driver that accepts it, starting from the
parser's specs (`RegionTraces`), and with the run; but for the last two, no further visit would
change the final specs. `RegionCounterexamples`: stores into composite globals, `foreign Region` parameters, and a
first literal argument with a region of its own. `RegionSafeFunctions`: rebinding inside a
region-safe function, and a ternary over two of its parameters. `RegionSiblings`: two
declarations of one name in sibling blocks, which share one entry of the table; passes that
change nothing then accept the final specs if and only if all bindings of a name agree
(`RegionFixpoint.IdlePassIsStable`). `RegionEarlyStop`: the driver can stop right after the pass
that found the last spec; `return mk(_)` is then accepted, though one more visit would reject
it, and returns an object of the freed local region.

What the checker has to accept is told without any of its passes (`RegionSiting`): a siting
gives every name, literal and call a place (the local region, the region of the arguments,
static storage, or no single region for `foreign` values), and is right when at each node of the
body the values that meet live together, where a literal without suffix lives where it is
stored, returned, passed or joined. On functions with right sitings no pass reports an error; a
pass knows whatever depends on what was known before it (`RegionLearning`); the inference loop
infers every spec if each place can be told from earlier ones and all of them are counted; and
where one more round changes nothing, every literal is in its place and the post-check accepts
(`RegionRounds.SitedIsInferred`, `RegionRounds.SitedIsAccepted`). Both provisos are needed, for
the driver gives up on `x := pick(q).pop()` (`RegionSitedPrograms.PickIsRefused`) and refuses
`link(late(q), S{})` after stopping a round too early (`RegionLateArguments.LateIsRefused`).

Temporary containers for `foreign` parameters may mix regions (section 8.5.6 of the language
overview). That is a documented exception to confinement and part of the fragment: such a
container points into older regions only, so there is still no dangling read
(`RegionMixed.MixedContainerUnconfined` has the pointer, `CheckedProgramSound` the safety).
`RegionMixed` also has two ways out of the exception that the checker leaves open: handing the
container on to an ordinary parameter, and making one in the region of a `foreign` value.

**Expressions** (`Precedence*.dfy`, `CompoundAssignments.dfy`, `CGrammar.dfy`, `JikGrammar.dfy`,
`JikParser.dfy`). The Jik precedence
chain as a parser with a cursor, which reads exactly the yields of the trees of its grammar
(`JikGrammar.dfy`), the typing rules of the binary operators, the text the code
generator prints, and a recursive-descent reading of sections 6.4, 6.5.2, 6.5.3, 6.5.5, 6.5.6, 6.5.8,
6.5.9, 6.5.13, 6.5.14 and 6.5.15 of ISO C11. A well-typed Jik tree is read back by C as
itself exactly when it has no directly nested unary minus, and what C reads is then worth what
the Jik expression is, for any interpretation of names, calls, fields and operators
(`PrecedenceValues`: short-circuits, string equality by text, `is` tests, the common type of a
ternary); compound assignments are read back
exactly when, besides, their right operand binds tighter than the operator.

**Errors** (`Error*.dfy`). `fail`, propagating `try`, `try/except` and `must` with their
meaning as exceptions, the flag-and-goto C they become, and a simulation proof between the
two, including the 255 message bytes that survive and the balance of local regions made and
freed. `error_code()` and `error_msg()` may stand anywhere: the generated C declares every
error cell it reads exactly when each of them lies inside some `try/except`
(`func main(): return error_code()` is accepted and does not), and for all such programs the
current error is that of the innermost `try/except`, which is the error caught around the
reader unless a nested try shadows it. `ErrorRuntime` holds the emitter with its counter of
temporaries and the error cell with its 256-byte buffer.

**Runtime and compiler data structures.** Open-addressing tables for any hash function
(`ProbeTable`, `HashTables`), the arena and the region allocator (`Allocators`,
`RegionAllocator`), growable vectors and character buffers (`Vectors`): arrays changed in
place, proved against maps, sequences and disjoint ranges.

**Graphs and paths.** The recursive-composite check (`RecursiveTypes`), the default
initialisers it makes terminate and complete (`DefaultInits`), the traversal of cyclic type
graphs (`TypeGraph`), module discovery and merge order (`ImportOrder`), path normalisation
(`Path*.dfy`).

**Literals, tables, matches.** String literals from Jik source through the generated C text
to the bytes a C compiler reads (`Literals`, `Lexing`), enum tables (`EnumTables`) and match
statements (`MatchLowering`).

Where the code and its documentation disagree, the model follows the code. README.md:30
promises that compiler checks prevent references across regions with incompatible lifetimes;
`RegionCounterexamples`, `RegionSafeFunctions`, `RegionSiblings`, `RegionEarlyStop` and
`RegionMixed` show where they do not, and
docs/overview/08-memory-management.md section 8.5.5 calls the store of `RegionSiblings` a compile error.

Fatal diagnostics and `jik_die` are `Err` results. Functions of unlimited size are cut off by
fuel only in the two interpreters, and every theorem about them holds for any fuel.

## Model

| member | source | states |
|---|---|---|
| RegionDriver.CheckedProgramSound | src/seed/regcheck.c:1276-1309 | If the driver accepts a program of the fragment, starting from what the parser and the scopes wrote, and one more round leaves the specs as they are, then every run (any choices, cut off anywhere) reads no freed region, every pointer of a live object leads into the object's own region (into an older one from a temporary mixed container), and a finished run has freed every region but the global one |
| RegionDriver.HistoryKeeps | src/seed/regcheck.c:145-159 | The history of an accepted function: its final specs are complete, carry the source of the variable they name, and are region-safe if the classification on the first pass said so |
| RegionStart.PassKeepsParams | src/seed/regcheck.c:106-143 | No pass adds a name to the table of a function or changes the entry of a parameter |
| RegionPlaces.PlacesFit | src/seed/ast.c:1695-1760 | In a parse tree the place of a literal or automatic call decides whether a pass may move its spec |
| RegionSteps.PassStep | src/seed/regcheck.c:471-497 | A pass never changes a known spec of a literal that is only read, nor the spec of one outside other literals that has left the local region; a ternary over two local literals stays one |
| RegionHistory.ReadForetells | src/seed/regcheck.c:510-588 | In whatever state an expression is read, a known spec has the source it ends with, and if that is the argument region it is the final spec |
| RegionInvariant.PassInv | src/seed/regcheck.c:1102-1111 | A pass keeps this of every name and call, and a source once copied from the table into a literal stays the right one |
| RegionClassified.PassTies | src/seed/ast.c:1695-1760 | In a region-safe function a literal and the elements that take over its spec stay alike |
| RegionStillSafe.BodyStillSafe | src/seed/regcheck.c:705-848 | What was region-safe on the specs of the first pass is region-safe on the final ones |
| RegionSoundness.ProgramSound | src/seed/regcheck.c:1160-1274 | The same promise from the checks at single nodes of specs that are complete and consistent |
| RegionSoundness.RunSound | src/seed/regcheck.c:430-457 | A call whose arguments obey the same-region rule never hands back a reference into its own freed region: the result is alive and lies in the argument region; nothing that existed is freed or moved |
| RegionSoundness.EvalSound | src/seed/regcheck.c:510-588 | Evaluating any expression in the fragment keeps every live pointer leading to a live object and yields a value that lies where its spec says |
| RegionSoundness.ExecSound | src/seed/regcheck.c:892-1158 | Every statement keeps every live pointer leading to a live object and its locals where the spec table says |
| RegionSoundness.ResettingKeepsRegion | src/seed/codegen.c:775-777 | When a struct literal's code is generated, its spec is handed down to the literals below it once more: in an accepted program that spec and the literal's own denote one region, so nothing moves |
| RegionSoundness.CalleeMode | src/seed/regcheck.c:1022-1062 | An accepted call site gives the callee arguments of one region, and the spec written on the call denotes that region |
| RegionSoundness.ReturnSpec | src/seed/regcheck.c:1064-1090 | What an accepted return statement returns has the source of the arguments, never a local or foreign one |
| RegionFixpoint.IdlePassIsStable | src/seed/regcheck.c:892-1158 | A pass that ends with the specs it started from accepted them at each of its visits if and only if every composite binding of a name writes what the table holds for it |
| RegionFixpoint.IdleCountIsComplete | src/seed/regcheck.c:671-693 | When counting unknowns finds none and changes nothing, every needed spec has a known kind and source |
| RegionPasses.Checker.FunctionPass | src/seed/regcheck.c:892-1158 | The loop over one function's nodes is the composition of the visits, overwriting only that function's specs |
| RegionPasses.PassAllEach | src/seed/regcheck.c:892-1158 | The pass over all functions succeeds exactly when each function's pass does, and leaves exactly its specs |
| RegionPasses.CountAllEach | src/seed/regcheck.c:671-693 | The total is 0 exactly when each function's count is |
| RegionPasses.Checker.IntegrityPass | src/seed/regcheck.c:892-1158 | The loop over the functions computes the composition of their passes, or its first diagnostic |
| RegionPasses.Checker.CollectUnknowns | src/seed/regcheck.c:671-693 | The loop over the functions computes the sum of their unknown specs and the specs after reading them all |
| RegionPasses.Checker.Classify | src/seed/regcheck.c:832-848 | The removal loop ends within number of functions + 1 rounds with the greatest set whose members are safe when exactly that set is assumed safe |
| RegionPasses.Checker.BodySafe | src/seed/regcheck.c:798-830 | The early-exit loop decides safety of a whole body |
| RegionPasses.Checker.InferSpecs | src/seed/regcheck.c:1289-1309 | The driver loop terminates; it accepts exactly when the number of unknown specs falls with every round down to none, and otherwise ends with the diagnostic of the round that failed |
| RegionPasses.Checker.PostPass | src/seed/regcheck.c:1233-1274 | Accepts exactly when every node of every function passes |
| RegionPasses.Checker.CheckRegions | src/seed/regcheck.c:1276-1309 | The driver accepts if and only if its history exists: a first pass with every function taken for safe, the greatest classification on its result, rounds that end without unknown specs, and a passed post-check; the specs it leaves are the last of that history |
| RegionRounds.SitedIsAccepted | src/seed/regcheck.c:1276-1309 | If the values that meet at every node of every function can be given common places (a literal without suffix going where it is stored, returned, passed or joined; nothing local, `foreign` or global being returned), the first pass succeeds; the inference loop succeeds or gives up on an unknown spec; and where one more round changes nothing, the driver accepts and every literal has a spec of its place |
| RegionRounds.SitedIsInferred | src/seed/regcheck.c:1289-1309 | ... it does not give up when each place can be told from earlier ones and every bound or yielded composite is counted while it is unknown: then each round leaves fewer unknown specs |
| RegionSitedPass.PassSited | src/seed/regcheck.c:892-1158 | On a function with a right siting a pass over any of its nodes reports no error, from any specs below the siting; what it learns is what the siting says, and what was known stays known |
| RegionLearning.PassLearns | src/seed/regcheck.c:892-1158 | If what a node depends on is known before a pass, then after it the name the node binds or the call, copy, element or suffix it holds is known, and the literals it stores, returns or passes are in their places, containers for `foreign` parameters included |
| RegionLearning.StoreTakesTarget | src/seed/regcheck.c:929-974 | A local literal stored into a value of the arguments' region takes the very spec of the target |
| RegionInferred.IdleIsAccepted | src/seed/regcheck.c:1160-1274 | Once nothing is unknown and a round changes nothing, every literal of the function, nested ones included, is where the siting puts it, and every node passes the post-check |
| RegionSitedPrograms.PutIsAccepted | src/seed/regcheck.c:954-974 | One pass accepts `put(p): p.inner = S{T{}}; return U{}` and moves all three literals out of the local region |
| RegionSitedPrograms.PickIsRefused | src/seed/ast.c:1655-1683 | `x := pick(q).pop()` has a right siting, each place told from earlier ones, but the driver gives up: an element taken from a vector is not counted, so the number of unknown specs stands still for a round |
| RegionLateArguments.LateIsRefused | src/seed/regcheck.c:1022-1062 | `link(late(q), S{})` has a right siting, ordered and counted, and all is inferred; the loop stops before the literal moves, and the post-check refuses it |
| RegionAccepted.NodesOfPart | src/seed/ast.c:1395-1645 | The preorder list of an expression contains the list of each part |
| RegionAccepted.SpecStable | src/seed/regcheck.c:510-588 | Reading the spec of a checked expression changes no spec, and yields a complete one with the source of the variable it names |
| RegionWitness.WitnessMeetsPremises | src/seed/regcheck.c:1276-1309 | The soundness theorem is not empty: a program that allocates, calls with two parameters and stores meets its premises |
| RegionCounterexamples.GlobalStoreDriven | src/seed/regcheck.c:177-196 | The driver accepts storing an argument into a composite global, and ends with specs no visit would change |
| RegionCounterexamples.GlobalStoreBreaks | src/seed/regcheck.c:177-196 | ... and a run of it leaves a pointer from the global region into the argument's region |
| RegionCounterexamples.ForeignRegionDriven | src/seed/regcheck.c:106-143 | Likewise for storing an object made in a `foreign Region` parameter into an ordinary parameter |
| RegionCounterexamples.ForeignRegionBreaks | src/seed/regcheck.c:106-143 | ... although the two need not be in one region |
| RegionSafeFunctions.SafeRebindingDriven | src/seed/regcheck.c:705-723 | Likewise for a region-safe function whose local is rebound from one parameter to another and then stored through |
| RegionSafeFunctions.SafeRebindingBreaks | src/seed/regcheck.c:705-723 | ... which stores across the regions of the two parameters |
| RegionSafeFunctions.SafeTernaryDriven | src/seed/regcheck.c:557-583 | Likewise for a region-safe function that stores through a ternary over two parameters, which has the spec of the first |
| RegionSafeFunctions.SafeTernaryBreaks | src/seed/regcheck.c:557-583 | ... which stores across their regions when the second branch is taken |
| RegionCounterexamples.FirstLiteralDriven | src/seed/regcheck.c:1030-1056 | Likewise for a first literal argument with a region of its own, which is never compared with the other arguments |
| RegionCounterexamples.FirstLiteralBreaks | src/seed/regcheck.c:1030-1056 | ... and the callee may store across the two regions |
| RegionSiblings.SiblingAccepted | src/seed/regcheck.c:145-159 | Two declarations of one name in sibling blocks: the driver accepts, another round changes nothing in the end, nothing is unknown, the post-check, the classification and every condition of the fragment hold; only the two bindings disagree |
| RegionSiblings.SiblingBreaks | src/seed/regcheck.c:145-159 | ... and a run leaves a live object in the argument's region that points to a freed one |
| RegionMixed.MixedContainerDriven | src/seed/regcheck.c:380-428 | The documented exception: the driver accepts a temporary container for a `foreign` parameter that holds elements of another region |
| RegionMixed.MixedContainerInFragment | src/seed/regcheck.c:1160-1172 | ... it is part of the fragment, so the soundness theorem covers it |
| RegionMixed.MixedContainerUnconfined | src/seed/regcheck.c:380-428 | ... strict confinement gives way, but the container points to a live object of an older region |
| RegionMixed.HandedOnDriven | src/seed/regcheck.c:1030-1056 | The driver also accepts a mixed container that is handed on as the only argument of an ordinary parameter, which is compared with nothing |
| RegionMixed.HandedOnBreaks | src/seed/regcheck.c:1030-1056 | ... and the caller's object ends up pointing into the freed region |
| RegionMixed.MadeThereDriven | src/seed/regcheck.c:1160-1172 | The driver accepts a container literal in the region of a `foreign` value, which is not compared with its elements |
| RegionMixed.MadeThereBreaks | src/seed/regcheck.c:1160-1172 | ... so it outlives a local element, though no name leads to it |
| RegionEarlyStop.EarlyStopDriven | src/seed/regcheck.c:1290-1303 | The driver accepts a program with `return mk(_)`, from the parser's specs, after a pass that wrote the last spec; one more visit would have rejected it |
| RegionEarlyStop.EarlyStopBreaks | src/seed/regcheck.c:1290-1303 | ... and the call returns an object of the region it has just freed |
| Precedence.PrecedenceAgreement | src/seed/codegen.c:1339-1389 | A well-typed tree of the Jik grammar is read back by C as the same tree if and only if it has no directly nested unary minus |
| PrecedenceValues.PrintedValue | src/seed/codegen.c:1339-1389 | For any interpretation: the tree C reads from the text printed for a well-typed expression without nested minus is worth what the Jik expression is, or has no value where it has none; `and`, `or` and the ternary leave out the same operand, strings are compared by their text, `is Some`, `is None` and `is tag` ask what they say |
| PrecedenceValues.ValueHasType | src/seed/semantic.c:1022-1169 | The value of a well-typed expression has its type, which is why only strings reach the string comparison and only variants the tag test |
| PrecedenceValues.ReadingMeetsPremises | src/seed/codegen.c:1365-1379 | Every environment without the runtime's own names has an interpretation that meets the premises |
| Precedence.UntypedTreesDisagree | src/seed/semantic.c:1106-1169 | Without the typing rules of the comparison operators C would group some Jik trees the other way |
| CompoundAssignments.CompoundAssignment | src/seed/parser.c:686-710 | The ungrouped tree of `x op= r` is read back as built if and only if r is not a binary expression that binds no tighter than op, and neither operand has a directly nested minus |
| PrecedencePrint.PrintIsGlyphs | src/seed/codegen.c:1339-1389 | What the generator prints is the text of the C expression it stands for |
| Precedence.EmitOwn | src/seed/parser.c:428-570 | A well-typed tree of each Jik level becomes a C expression of its own C level, so no parenthesis is missing |
| PrecedenceLexing.ReadsPrinted | src/seed/codegen.c:1348-1362 | Two adjacent minus signs are the only way a printed text is not read back; then it is read as nothing or as a tree with a decrement |
| PrecedenceSurface.ReadsBack | src/seed/codegen.c:1339-1389 | The C grammar reads the text of every expression of the right shape as its tree |
| JikParser.Parser.ParseBinary | src/seed/parser.c:448-546 | Each binary level reads a tree e and leaves `rest` whenever the tokens are the yield of e, a tree of the level, and a `rest` that does not extend it; what it reads is always the yield of a left-associative tree of the level; it fails exactly when the grammar does |
| JikParser.Parser.ParseUnary | src/seed/parser.c:428-446 | Likewise for `not` and `-` |
| JikParser.Parser.ParseIs | src/seed/parser.c:498-518 | Likewise for `is`, which does not chain |
| JikParser.Parser.ParseTernary | src/seed/parser.c:557-570 | Likewise for a whole expression |
| JikGrammar.LevelExact | src/seed/parser.c:428-546 | The grammar of each level reads e and leaves a `rest` that does not extend it if and only if e is a tree of the level and the tokens are its yield and `rest` |
| JikGrammar.ExprExact | src/seed/parser.c:557-575 | Likewise for whole expressions |
| ErrorGuarantees.LoweringPreservesMeaning | src/seed/codegen.c:1688-1930 | For any function of any program that passes the checks and inspects errors only inside some try/except, called with its flag unset: the C code never gets stuck (no undeclared region or cell, no throwing call started with a set flag), prints the same, returns the same value with the flag unset exactly when the source returns, otherwise carries the same code and the raised message itself if it is shorter than 256 bytes, else its first 255, and frees as many local regions as it makes |
| ErrorGuarantees.HandlerPrintsMessage | support/include/core.h:598-623 | For every message m and code: in the C run of `try f() except: print(error_msg())`, where f fails with m, what is printed is m, or its first 255 bytes if m has 256 or more |
| ErrorGuarantees.LexicalMeaningPreserved | src/seed/codegen.c:608-625 | The same against the errors caught around the reader, for programs where no nested try shadows an inspection |
| ErrorScoping.CellsDeclaredIffCovered | src/seed/codegen.c:608-625 | The generated C of a checked program declares every error cell it mentions if and only if every `error_code()` and `error_msg()` lies inside some try/except |
| ErrorGuarantees.UncoveredReadsNoCell | src/seed/parser.c:1841-1849 | `func main(): return error_code()` passes the checks and its C mentions an undeclared cell |
| ErrorScoping.SameCall | src/seed/codegen.c:1895-1909 | Where no inspection is shadowed, the innermost error is the one caught around the reader: every call has the same answer and output |
| ErrorScoping.NonThrowingNeverRaises | src/seed/semantic.c:2531-2586 | The static checks alone keep errors inside: a function that does not throw never raises |
| ErrorGuarantees.NestedTryReadsInnerCell | src/seed/codegen.c:1895-1909 | An accepted program whose inner try hides the error caught around it: read lexically it returns 7, with the innermost error, and in C, 0 |
| ErrorLowering.SimInvoke | src/seed/codegen.c:1759-1796 | One call simulates: same answer, the caller's cell untouched on success, one region made and freed |
| ErrorLowering.SimAll | src/seed/codegen.c:1688-1930 | Every block simulates from every matching state, whatever the counter of temporaries |
| ErrorRuntime.ErrorCell.Set | support/include/core.h:598-609 | The cell is set with the code; its message has the length of m, at most 255, and byte for byte that beginning of m, followed by the terminator in the 256-byte buffer |
| ErrorRuntime.ErrorCell.Clear | support/include/core.h:611-617 | The cell is the unset one again |
| ErrorRuntime.ErrorCell.Message | support/include/core.h:619-623 | Reading up to the first NUL gives all of the kept text |
| ProbeTable.ProbeIsLookup | src/seed/htab.h:68-78 | Probing ends at a full slot exactly when the map has the key, and there is its value |
| ProbeTable.StoreIsUpdate | src/seed/htab.h:110-122 | Writing the probed slot turns slots that hold m into slots that hold m with the key updated |
| ProbeTable.BindingsAreTheMap | src/seed/htab.h:137-150 | The slots in order give the whole map |
| HashTables.FindEntry | src/seed/htab.h:68-78 | Probing terminates while a slot is empty and finds the key's slot or the first empty one on its path, for any hash function |
| HashTables.Rehash | src/seed/htab.h:80-98 | Re-inserting into a larger array keeps the map |
| HashTables.StringTable.Set | src/seed/htab.h:110-122 | Map update; size stays the number of keys and at most 3/4 of the capacity |
| HashTables.StringTable.Get | src/seed/htab.h:124-130 | Map lookup |
| HashTables.TableIterator.MoveNext | src/seed/htab.h:137-150 | Each step hands out a binding not seen before, it stops exactly when all were seen, and never scans past the array |
| HashTables.Entries | src/seed/htab.h:132-150 | The usual loop meets every binding, each once |
| HashTables.NoRepeats | src/seed/htab.h:132-150 | ... so no key appears twice among them |
| HashTables.Dict.Set | support/include/core.h:1151-1171 | Map update that grows only to insert |
| HashTables.Dict.From | support/include/core.h:1132-1140 | The literal's pairs in order, later ones overriding |
| HashTables.Dict.Clear | support/include/core.h:1142-1149 | The empty map at unchanged capacity |
| HashTables.Dict.Get | support/include/core.h:1173-1182 | Map lookup |
| Allocators.Arena.NewChunk | src/seed/alloc.c:32-53 | Whenever the doubling loop can end, it ends with the first capacity of the doubling sequence that suffices, aligned and at most 2^63 |
| Allocators.DoublingReaches | src/seed/alloc.c:35-38 | With size_t wrap-around the loop can end if and only if the wanted capacity is at most 2^63 |
| Allocators.SafeSizes | src/seed/alloc.c:60-82 | A request stays in its chunk exactly if it fits or is at most 2^63 - 15; it leaves its chunk exactly from 2^64 - 15 on, where the sum wraps; between them the loop never ends |
| Allocators.Arena.OffsetWithinCapacity | src/seed/alloc.c:66-68 | Rounding up the used part never passes the capacity, so the subtraction cannot wrap |
| Allocators.Arena.Alloc | src/seed/alloc.c:60-87 | For every size whose loop ends: the piece lies in its chunk, aligned and disjoint from every earlier one, exactly for the sizes of `SafeSizes`; otherwise it leaves a fresh chunk of 1 MB. A request that fits is served from the current chunk, at its rounded-up used size; any other gets a fresh chunk of the least capacity |
| Allocators.Arena.Realloc | src/seed/alloc.c:89-98 | Likewise; a piece in its chunk gets what fits of the old bytes and no other piece changes |
| RegionAllocator.Region.Alloc | support/include/core.h:410-443 | Fails exactly when a size leaves size_t; otherwise a piece of the rounded size, disjoint from all others, and total_mem is the sum of the block capacities. A request that fits continues the current block; any other gets a fresh block of the block size or its own rounded size, whichever is larger |
| RegionAllocator.Region.Calloc | support/include/core.h:445-454 | Zeroed, with nothing else changed |
| RegionAllocator.Region.Realloc | support/include/core.h:456-486 | Shrinking keeps the piece, growing moves it with its bytes; nothing else changes |
| RegionAllocator.Region.Free | support/include/core.h:383-405 | Gives back every block of the region once |
| Vectors.Vector.Push | support/include/core.h:911-923 | Appends; fails exactly when the grown capacity leaves size_t |
| Vectors.Vector.Extend | support/include/core.h:925-946 | Appends the other vector's elements, also when it is the vector itself |
| Vectors.Vector.Pop | support/include/core.h:948-953 | Removes and returns the last element; fails exactly on the empty vector |
| Vectors.Vector.Slice | support/include/core.h:955-979 | Succeeds exactly for 0 <= start <= stop <= size and then holds those elements in an array of its own |
| Vectors.GrowCapacity | support/include/core.h:933-936 | The 2n+1 loop terminates, from capacity 0 too, and fails exactly when the reached capacity leaves size_t |
| Vectors.GrownIsTight | support/include/core.h:933-936 | It never reaches more than twice the need |
| Vectors.CharBuffer.Append | support/include/core.h:700-715 | Appends with the terminator in place, although capacity leaves no room for it after creation |
| Vectors.CharBuffer.AppendChar | support/include/core.h:717-730 | Likewise for one character |
| RecursiveTypes.CycleSearch.HasCycleTo | src/seed/semantic.c:953-988 | One visited set is enough: a positive answer is a real chain, a negative one leaves a closed set that avoids the target |
| RecursiveTypes.CycleSearch.Check | src/seed/semantic.c:990-1019 | Rejects if and only if some struct or variant holds itself outside every Option, and names a member on such a cycle |
| DefaultInits.Inference.Infer | src/seed/semantic.c:1259-1307 | Terminates on any declarations; on acyclic ones it never meets a raised flag |
| DefaultInits.Inference.Default | src/seed/semantic.c:2015-2130 | Terminates; unless a raised flag was met, the answer is the default of the type as the declarations tell it: zero, an empty container over the default of its element, None, a new struct of that name, or a variant of that name with its first declared member and the default of that member's type exactly if it has one |
| DefaultInits.Inference.InferAll | src/seed/semantic.c:1259-1307 | A raised flag is met if and only if the recursive-composite check would reject; otherwise every member that needs an initialiser, and no other, ends with the default of its type |
| DefaultInits.DefaultIsUnique | src/seed/semantic.c:2015-2130 | The declarations give a type at most one default |
| Graphs.NoSinkHasCycle | src/seed/compiler.c:626-643 | A finite set whose members all have an edge into it holds a cycle |
| Graphs.OrderedIsAcyclic | src/seed/compiler.c:626-643 | A name listed after everything it has an edge to lies on no cycle |
| TypeGraph.IsInferred | src/seed/types.c:172-245 | False if and only if something unfinished is reachable without passing a flagged composite; restores every flag |
| TypeGraph.IsInferredFromClean | src/seed/types.c:172-245 | From a clean state: true if and only if nothing unfinished is reachable, and clean again |
| TypeGraph.FlagIsEnough | src/seed/types.c:192-211 | Cutting the search at flagged composites loses no unfinished type |
| ImportOrder.Loader.Discover | src/seed/compiler.c:543-574 | Succeeds if and only if every reachable module can be loaded, and then lists exactly the reachable modules, each once |
| ImportOrder.Loader.Merge | src/seed/compiler.c:611-644 | Terminates; reports a cycle if and only if a discovered module lies on one; otherwise merges every module once, after all its imports |
| ImportOrder.Loader.StuckIsCyclic | src/seed/compiler.c:626-643 | A round without progress means the waiting modules contain a cycle |
| ImportOrder.Loader.CycleError | src/seed/compiler.c:592-609 | The message is the cycle one exactly when a module is unprocessed |
| PathNormalize.Normalize | src/seed/compiler.c:54-128 | The buffers compute the text of the path's root and segment stack, within len + 2 characters; from every directory, walking the segments of the result ends where walking those of the path ends |
| PathMeaning.NormalizeKeepsMeaning | src/seed/compiler.c:54-128 | The result denotes the same root and segments if and only if no inner segment ends in ':' and a rootless result does not begin like a drive |
| PathSyntax.FoldLeadsAlike | src/seed/compiler.c:83-121 | Walking directories: entering the segments a path is reduced to leads from any directory (the root for an absolute path) where entering all its segments leads, with ".." leaving the last name and stopping at the root |
| PathMeaning.NormalizeKeepsDestination | src/seed/compiler.c:54-128 | The text of the result leads from every directory where the path leads if and only if no inner segment ends in ':' and a rootless result does not begin like a drive |
| PathMeaning.InAndOut | src/seed/compiler.c:98-113 | An ordinary segment and ".." after it add nothing, whatever comes before |
| PathMeaning.DriveColonIsSafe | src/seed/compiler.c:54-128 | When the only ':' is a drive's: same meaning, normal form, and a fixed point |
| PathMeaning.ColonMergesSegments | src/seed/compiler.c:115-121 | Otherwise an ordinary segment ending in ':' swallows the '/' after it |
| PathSyntax.FoldIsNormal | src/seed/compiler.c:83-121 | No empty or "." segment remains, and ".." only as a leading run of a path that is not absolute |
| Literals.SanitizeString | src/seed/codegen.c:101-141 | The loop emits the escapes of the bytes, all printable ASCII |
| Literals.GeneratedLiteralReadBack | src/seed/codegen.c:101-141 | For every NUL-free byte string a C compiler reads the literal as those bytes and stops at its closing quote, also when an octal escape is followed by digits |
| Literals.EveryStringHasALiteral | src/seed/lexer.c:181-221 | Every NUL-free byte string can be written as a Jik literal, each byte as its two hexadecimal digits in either case |
| Literals.MeansDenoted | src/seed/lexer.c:181-221 | In numbers: `\n`, `\t` and `\r` are bytes 10, 9 and 13, a backslash and the quotes are themselves, and `\x` takes the value of two hexadecimal digits of either case |
| Literals.PiecesMeanAsInC | src/seed/lexer.c:181-221 | Every escape and plain character of a Jik literal means what the same text means in C, if no further hexadecimal digit follows a hexadecimal pair |
| Lexing.Lexer.LexString | src/seed/lexer.c:314-342 | Succeeds exactly on text that continues with valid pieces and a closing quote, and yields their bytes, each in numbers |
| Lexing.Lexer.DecodeEscape | src/seed/lexer.c:181-221 | Decides each escape and leaves the cursor on its last character |
| Lexing.LiteralReachesC | src/seed/codegen.c:864 | A Jik literal reaches C as the bytes it denotes; what the lexer rejects is no literal |
| EnumTables.Check | src/seed/semantic.c:2290-2456 | Accepts if and only if every table has one entry for each member and none else, and only reads tables declared before it |
| EnumTables.Initialize | src/seed/codegen.c:303-317 | After initialisation each array holds, at each member's value, what the entry written for that member denotes |
| EnumTables.Evaluate | src/seed/codegen.c:1641-1650 | A generated lookup is in bounds, reads a table already filled, and yields the denoted value |
| EnumTables.LookupMember | src/seed/codegen.c:1641-1650 | Looking up a member's value yields the entry written for it |
| MatchLowering.Check | src/seed/typecheck.c:648-740 | Accepts if and only if the cases name different known tags, all of them unless there is `other` |
| MatchLowering.ExactlyOneArm | src/seed/codegen.c:1283-1337 | For every tag the chain runs exactly one arm: the one that names it, or `other` |

## Left out

- CheckedProgramSound: holds for the programs of `RegionDriver.InScope`; outside it the checker accepts programs that break the promise (the counterexamples). The round that changes nothing is not one the driver makes: it may stop a round earlier (`EarlyStopDriven`).
- CheckedProgramSound: takes from the parser and the semantic phase that the syntax is a tree, that a local has no name of its own function's parameters (src/seed/semantic.c:493-546), and that parameter names differ, which the C compiler enforces.
- SitedIsAccepted: a right siting asks more than the checker in three places. A literal with a suffix has to live where it is put (the checker moves one whose suffix names a local value, and overwrites one inside a moved literal); a first literal argument has to agree with the others; and operands are well typed. The round that changes nothing is asked for as in CheckedProgramSound.
- SitedIsInferred: what is enough for the loop not to give up; a composite taken from a vector is excluded, although the loop does not stall on each of these.
- Region language: no `break`, `continue` or `match` statements (with their payload bindings), pair loops (`for k, v in d`), default field initialisers, `concat` or `error_msg`; `copy` copies no pointers; strings hold none. Implicit `@` regions are resolved before the model starts.
- Functions not defined in Jik: a call of one stops the interpreter, and its unknown composite result is counted like that of any other call.
- An unknown source where the post-check asserts a known one is a rejection; what the classification and the post-check retarget in a ternary while they read is not written back.
- LoweringPreservesMeaning: programs that inspect an error outside every `try/except` do not compile as C (`UncoveredReadsNoCell`) and are excluded; where a nested try shadows an inspection the C code keeps the innermost error, not the lexical one (`NestedTryReadsInnerCell`).
- Errors: expressions are integers without side effects; names are resolved and the variable of a try body is not used in its except body; arguments are evaluated left to right; the region tree option is off.
- PrintedValue: expressions are worth a value or none and have no effects, so the order in which C evaluates operands does not show; option tests and string comparison go by the runtime's names without their type prefix.
- PrecedenceAgreement: variant payload access, which prints an accessor call, and the type of a ternary of `None` are not in the expression model; `must` and option unwrap are calls.
- Allocation failure of malloc, and absolute addresses: alignment is of offsets within a block, with the mask of a power of two written as rounding.
- NewChunk: a request whose doubling loop never ends has no result; `SafeSizes` says which these are. After a piece that leaves its chunk nothing more is promised of the arena.
- Dict: the `ok` flag of a slot is set exactly when its key is and is not a separate field; `size_t` overflow of the doubled capacity is not modelled.
- Vector: a region that runs out is the allocator's error, not the vector's; bounds checks take an index already converted to size_t; builds without bounds checks are not modelled.
- InferAll: tags without payload and extern structs need no initialiser from this recursion; the retyping loop around it is not part of this model.
- Discover: reading files, the form of `use` declarations, aliases and platform rules; a module is its resolved imports and its tokens.
- LexString: line and column bookkeeping, multi-line strings and character literals. Peeking two characters ahead reads past the terminator in the source when a text ends in `\x`; the model reads a NUL there, and the literal is rejected either way.
- EnumTables: entry expressions are numbers, members, sums and lookups; variant keys are their tags.
- MatchLowering: payload binding and the bodies of arms.
- The command line, configuration, diagnostics text, file reading, compiler probing and foreign C blocks.
- The full type inference loop and full syntax tree: only the typing rules the precedence proof needs.
- The capacity of the compiler's own vector after `extend` (src/seed/vec.h), which the source leaves unchanged; the runtime vector is modelled instead.
