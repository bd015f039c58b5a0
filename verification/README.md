# Models of the vendored engines

The application in this repository is a thin layer over two engines that it ships as
sources: the Lua 5.4 core and a streaming HTTP parser. This project models the parts of
them whose correctness rests on invariants that no single function shows, and proves
those invariants with Dafny 4.11. `dafny verify dfyconfig.toml` checks everything.

**The collector** (`lgc.c`). `Heap`, `Coloring`, `GcFacts`, `MutatorFacts` and `Collector`
model the incremental collector: three colours with two whites, gray lists, barriers in
both directions, tables with weak values, ephemeron tables and tables with weak keys and values, threads without
barriers, finalization, and the sweep of the object lists a few elements at a time. The heap is a map from
addresses to objects; the C lists are sequences, and a link into a list is a position in
it. `Generations` and `Generational` model the generational mode: seven ages, the sublists of
the object list, touched objects and young collections.

**The code generator** (`lcode.c`). `LuaCode` is the virtual machine as far as logical and
comparison expressions use it. `CodeFacts`, `ExpFacts`, `ExpSteps` and `ExprMeaning` say what
unfinished code, delayed expressions and jump lists threaded through the code stand for, and
`CodeGen` is the generator itself, proved to compile every such expression. `JumpThreading` is the
final pass over the code, and `LineInfo` the compressed line table with its readers.

**The HTTP parser** (`http_parser.c`). `HttpMachine` has the reaction to a byte in each
state; `HttpStream` folds it over the input. `HttpParser` is the parser as it is written,
with marks, callbacks and runs of bytes handled at once, and is proved to refine the fold. `HttpRun`
and `HttpFacts` hold what is needed for that, `HttpChunks` and `HttpLength` the round trips of
chunked bodies and bodies of a declared length (section 4.1 and section 3.3.2 of RFC 7230),
`HttpLimit` the effect of the 32-bit count of header bytes, and `UrlParser` the two passes over a URL.

**Lists inside other things.** `OpenUpvalues` and `TbcList` (`lfunc.c`) are the sorted list of open
upvalues and the 16-bit encoded list of to-be-closed variables; `StringChains` and `StringTable`
(`lstring.c`) the table of short strings, rehashed in place; `RefTable` (`lauxlib.c`) the
allocator of references whose free list lives in the table it allocates from.

What comes from outside is a parameter: whether an allocation succeeds, which strings a
collection finds dead, which border a table's length is, what the callback at the end of the
headers answers, how the input is cut into buffers.

## Model

| member | source | states |
|---|---|---|
| `Collector.GlobalState.Run` | external/lua/lgc.c:1583-1643 | For every run of allocations, loads, barriered stores, stack writes, changes of roots, finalizer marks, string interning and collector steps, in any order: the invariant holds at the end and whatever a path leads to from the roots is still in the heap; the one store it leaves out is that of `SetMetatable` |
| `Collector.GlobalState.SetMetatable` | external/lua/lapi.c:932-968 | Setting a metatable keeps the invariant if and only if it is not a white one for a table with weak keys and values that was visited in this cycle |
| `Collector.MetatableFreed` | external/lua/lgc.c:542-560 | In the other case: a state, the call, the atomic phase and a sweep, after which the registry leads to a table whose metatable is gone |
| `GcFacts.NothingDangles` | external/lua/lgc.h:14-24 | In every state that satisfies the invariant, no path from the roots, over strong or weak references, ends in a freed object or in one that the sweep under way will free |
| `Collector.GlobalState.Step` | external/lua/lgc.c:1583-1643 | One operation of the mutator or one collector step, from any state with the invariant, leads to a state with the invariant |
| `Collector.GlobalState.SingleStep` | external/lua/lgc.c:1583-1643 | One step of the state machine (pause, propagate, atomic, three sweeps, end of the sweep, finalizers) keeps the invariant, for normal and emergency collections |
| `Collector.GlobalState.PropagateMark` | external/lua/lgc.c:658-671 | Visiting one gray object keeps the tri-colour invariant, marks only what the closure of the marked objects holds, and makes progress: fewer white objects, or as many and a shorter gray list |
| `Collector.GlobalState.TraverseWeakValue` | external/lua/lgc.c:446-466 | A table with weak values is parked in the list its contents ask for, with its keys marked and black only if it holds nothing white |
| `Collector.GlobalState.TraverseEphemeron` | external/lua/lgc.c:480-520 | In either direction of traversal: marks the values of marked keys only, says whether it marked any, and parks the table in the list its entries ask for |
| `Collector.GlobalState.ConvergeEphemerons` | external/lua/lgc.c:689-708 | Terminates for any order of the tables; afterwards an object that is no string is marked if and only if it belongs to the least set that holds the marked objects and is closed under strong references and under "marked key, marked value" |
| `Heap.LeastIsMarked` | external/lua/lgc.c:682-708 | Marks that are justified and closed are exactly the least closed set, strings aside |
| `Collector.GlobalState.AtomicMark` | external/lua/lgc.c:1523-1543 | From the start of the atomic phase until the first convergence: the roots are marked, and nothing but what old marks and roots require |
| `Collector.GlobalState.AtomicPhase` | external/lua/lgc.c:1523-1563 | After the atomic phase marked objects point to marked ones only, weak references included, but for metatables replaced too late; roots and objects to be finalized are marked; strings aside nothing is marked that does not belong to the closure of the earlier marks, the roots and those objects; the object lists are a rearrangement; the white flips |
| `Collector.GlobalState.ClearByKeys` | external/lua/lgc.c:723-735 | Empties slots only, and leaves no entry with a white key in the tables of the list |
| `Collector.GlobalState.ClearByValues` | external/lua/lgc.c:742-760 | Empties slots only, and leaves nothing white among the values of the tables in the part of the list that it clears, tables with weak keys and values included |
| `Collector.GlobalState.SweepList` | external/lua/lgc.c:822-843 | Frees exactly the dead among the first elements of a list, keeps the order of the others, and turns them white |
| `Collector.GlobalState.SweepToLive` | external/lua/lgc.c:849-855 | Sweeps up to and past the first live object; the link it returns is inside the list or null |
| `Collector.GlobalState.EnterSweep` | external/lua/lgc.c:1484-1489 | The state after the atomic phase is a valid state of the first sweep |
| `Collector.GlobalState.CheckFinalizer` | external/lua/lgc.c:1017-1039 | An object moves once from `allgc` to the head of `finobj`, also in the middle of a sweep; the sweep link stays inside the list being swept |
| `Collector.GlobalState.SeparateTobefnz` | external/lua/lgc.c:972-989 | White objects (or all) of `finobj` go to the end of `tobefnz` in order, the others stay in order |
| `Collector.GlobalState.Udata2Finalize` | external/lua/lgc.c:884-896 | Outside a sweep, where the state machine calls it: the first object to be finalized goes back to the head of `allgc` and is no longer marked for finalization |
| `Collector.GlobalState.NewObject` | external/lua/lgc.c:258-267 | A new object, white, at the head of `allgc`, keeps the invariant in every phase |
| `Collector.GlobalState.WriteBack` | external/lua/lgc.c:230-240 | A store into a table with the backward barrier keeps the invariant in every phase |
| `Collector.GlobalState.WriteForward` | external/lua/lgc.c:208-227 | A store with the forward barrier keeps the invariant: while it must hold the value is marked, in a sweep the black object is swept |
| `Collector.GlobalState.WriteStack` | external/lua/lgc.c:627-653 | A store into a stack needs no barrier |
| `Collector.GlobalState.InternString` | external/lua/lstring.c:200-203 | A dead string that is found again is revived by flipping its white |
| `Collector.GlobalState.FixString` | external/lua/lgc.c:243-251 | In the pause, a string just created is moved to `fixedgc` and stays gray |
| `Collector.GlobalState.AbandonCycle` | external/lua/lgc.c:1708-1712 | A cycle can be abandoned while the invariant holds: everything becomes white by a sweep |
| `Generational.GlobalState.Run` | external/lua/lgc.c:1249-1281 | For every run of allocations, barriered stores, stack writes, root changes and young collections the generational invariant holds and nothing reachable is missing |
| `Generational.GlobalState.YoungCollection` | external/lua/lgc.c:1249-1281 | What the roots reach is still there and unchanged, only young objects are freed, and the invariant holds again: a black old object points to old objects only, a black one old since the last collection or touched before it to none that is new |
| `Generational.GlobalState.MarkOld` | external/lua/lgc.c:1219-1230 | Every object of age Old1, all of which lie between `firstold1` and `reallyold`, becomes Old and is queued for one more visit |
| `Generational.GlobalState.Atomic` | external/lua/lgc.c:1523-1543 | Afterwards what is not white points to nothing white and the roots are not white; only touched tables and old threads are back in a gray list |
| `Generational.GlobalState.PropagateMark` | external/lua/lgc.c:430-437 | A visited object goes back to the gray list exactly if it was touched in this cycle or is an old thread; one touched before becomes Old |
| `Generational.GlobalState.SweepGen` | external/lua/lgc.c:1113-1148 | Frees the white objects of a sublist in place, makes the others one age older, turns new ones white, and finds the first object of age Old1 |
| `Generational.GlobalState.CorrectGrayList` | external/lua/lgc.c:1170-1196 | Touched tables become black and stay in the list for one more collection; old threads stay gray |
| `Generational.GlobalState.Barrier` | external/lua/lgc.c:208-219 | The forward barrier of the generational mode keeps the invariant; the value it marks was never old |
| `Generational.GlobalState.BarrierBack` | external/lua/lgc.c:230-240 | The backward barrier keeps the invariant, and finds a black object old and not touched in this cycle |
| `Generational.GlobalState.Write` | external/lua/lgc.h:175-188 | Any store into a table or closure, with the barrier its guard asks for, keeps the generational invariant |
| `Generational.GlobalState.Atomic2Gen` | external/lua/lgc.c:1290-1309 | After a full marking exactly the white objects are freed and the generational invariant is established |
| `Generations.PathMarked` | external/lua/lgc.c:658-671 | After marking, the end of every path from the roots is not white |
| `Generations.CollectedValid` | external/lua/lgc.c:1113-1148 | From marking, one step of age and the correction of the gray list the invariant follows for all objects at once |
| `Generations.CollectedRef` | external/lua/lgc.c:1113-1131 | An object and what it points to age so that the pair is allowed again |
| `CodeGen.FuncState.Expression` | external/lua/lcode.c:914-947 | For every expression over locals, constants, comparisons, `not`, `and`, `or`: running the emitted code leaves its value in the next register, or raises its error; locals and all other registers below keep their values; pending jumps of enclosing code and earlier constants stay. It fails only if the expression is too deep for the free registers, the code is longer than a jump can reach, or the table of constants is full |
| `CodeGen.FuncState.StoreLocal` | external/lua/lcode.c:1048-1056 | The same for an assignment to a local variable: its register gets the value and no other active local changes; it fails for the same reasons only |
| `CodeGen.FuncState.Subexpr` | external/lua/lcode.c:1633-1776 | The code for an expression, with its value still delayed and its two jump lists open, stands for the value of the expression |
| `CodeGen.FuncState.PosfixJunction` | external/lua/lcode.c:1702-1719 | Joining the operands of `and` and `or`: one jump list of both |
| `CodeGen.FuncState.PosfixRel` | external/lua/lcode.c:1740-1772 | Comparisons, with operands swapped and constants in place where the code does so |
| `CodeGen.FuncState.Infix` | external/lua/lcode.c:1633-1676 | What has to happen to the first operand before the second is read |
| `CodeGen.FuncState.PrefixNot` | external/lua/lcode.c:1612-1627 | `not` of an expression in any state stands for the negation of its value |
| `ExprMeaning.JunctionTransforms` | external/lua/lcode.c:1707-1719 | Short circuit: the joined code means the first operand if it decides, the second otherwise |
| `ExprMeaning.NotTransforms` | external/lua/lcode.c:1186-1214 | Negated code means the negation |
| `ExprMeaning.CompareTransforms` | external/lua/lcode.c:1549-1606 | A test and its jump mean the comparison of the operands |
| `ExprMeaning.FreshStretch` | external/lua/lcode.c:232-236 | The end of code without pending jumps is a place where an expression can be compiled |
| `CodeGen.FuncState.CodeNot` | external/lua/lcode.c:1186-1214 | The lists change places and lose their values |
| `CodeGen.FuncState.GoIfTrue` | external/lua/lcode.c:1133-1154 | Code that falls through exactly for true values |
| `CodeGen.FuncState.GoIfFalse` | external/lua/lcode.c:1160-1180 | Code that falls through exactly for false values |
| `CodeGen.FuncState.JumpOnCond` | external/lua/lcode.c:1115-1127 | A jump on a truth value; `not` just emitted is taken back and the condition inverted |
| `CodeGen.FuncState.CodeOrder` | external/lua/lcode.c:1549-1574 | The four forms of an order test, with small integers on either side |
| `CodeGen.FuncState.CodeEq` | external/lua/lcode.c:1581-1606 | The three forms of an equality test |
| `CodeGen.FuncState.Exp2Reg` | external/lua/lcode.c:914-936 | The delayed value and all jumps that carry one end in the register; the others get their booleans loaded |
| `CodeGen.FuncState.Exp2NextReg` | external/lua/lcode.c:942-947 | The value is in the next register, which is reserved |
| `CodeGen.FuncState.Exp2AnyReg` | external/lua/lcode.c:954-969 | The value is in some register, a local one only if nothing jumps to it |
| `CodeGen.FuncState.Exp2RK` | external/lua/lcode.c:1028-1036 | The value is a constant index or in a register |
| `CodeGen.FuncState.FreeReg` | external/lua/lcode.c:491-496 | The register that is freed is the last one in use: the assertion holds |
| `CodeGen.FuncState.FreeExps` | external/lua/lcode.c:527-531 | Two operands are freed in the order of a stack |
| `CodeGen.FuncState.NeedValue` | external/lua/lcode.c:898-905 | Says whether some jump of a list does not produce a value |
| `CodeGen.FuncState.Concat` | external/lua/lcode.c:181-192 | Traversal of the result is the first list followed by the second; no other instruction changes |
| `CodeGen.FuncState.PatchListAux` | external/lua/lcode.c:288-298 | Every jump of a list, and no other, gets its target, by whether it carries a value |
| `CodeGen.FuncState.PatchTestReg` | external/lua/lcode.c:259-271 | A test that produces a value gets its register, or loses it |
| `CodeGen.FuncState.RemoveValues` | external/lua/lcode.c:277-280 | No test of the list produces a value any more |
| `CodeGen.FuncState.PatchToHere` | external/lua/lcode.c:312-315 | The jumps of a list lead to the next instruction |
| `CodeGen.FuncState.Nil` | external/lua/lcode.c:131-147 | Registers are set to nil, joined to a previous instruction when the ranges touch and no jump leads between them |
| `CodeFacts.ExecAppend` | external/lua/lopcodes.h:197-290 | Running code and then what was appended to it |
| `CodeFacts.ExecPatched` | external/lua/lcode.c:259-298 | Running patched code: a run of the old code, with the jumps that were settled taken and their registers written |
| `ExpSteps.ChainJoin` | external/lua/lcode.c:181-192 | Lists threaded through the jumps: relinking the last element joins two disjoint lists |
| `JumpThreading.Finish` | external/lua/lcode.c:1843-1871 | The in-place pass of jump threading keeps, from every entry, the first instruction reached that is no jump, or the divergence; for cycles and chains of any length |
| `JumpThreading.FinalTarget` | external/lua/lcode.c:1826-1836 | At most 100 hops lead to the place returned |
| `JumpThreading.RedirectSame` | external/lua/lcode.c:1864-1868 | Leading one jump to a place where its hops lead keeps all destinations |
| `LineInfo.FuncState.SaveLineInfo` | external/lua/lcode.c:329-344 | The encoding stands for the lines so far and the new one; a byte is used only where it fits, and absolute entries come at most 128 instructions apart |
| `LineInfo.FuncState.RemoveLastLineInfo` | external/lua/lcode.c:353-365 | The encoding stands for the lines before the last; after an absolute entry the next one will be absolute |
| `LineInfo.FuncState.FixLine` | external/lua/lcode.c:1783-1786 | The line of the last instruction is replaced in the recorded lines |
| `LineInfo.FuncState.ReplaceLast` | external/lua/lcode.c:1115-1121 | Removing the last instruction and emitting another replaces its line |
| `LineInfo.GetBaseLine` | external/lua/ldebug.c:60-76 | Finds the last absolute entry not after the instruction, from the estimate; its assertion holds |
| `LineInfo.Estimate` | external/lua/ldebug.c:66-69 | `pc / 128 - 1` is negative or a valid lower bound |
| `LineInfo.GetFuncLine` | external/lua/ldebug.c:83-95 | Returns the recorded line of every instruction |
| `LineInfo.ChangedLine` | external/lua/ldebug.c:847-865 | Agrees with comparing the two recorded lines |
| `HttpParser.Parser.Execute` | external/http-parser/http_parser.c:641-2155 | Working off a buffer with marks and runs is the fold of the byte reactions: same fields, same count, same events once adjacent data are joined, same errors and exits, for every buffer on which the 32-bit count cannot wrap; and within a header name or value the exact condition for every buffer |
| `HttpParser.ExecuteSplit` | external/http-parser/http_parser.c:641-2155 | Split invariance: without error and exit, a buffer can be given in two parts with the same fields, count and joined events |
| `HttpParser.ExecuteAll` | external/http-parser/http_parser.c:641-2155 | The same for any number of parts |
| `HttpStream.FeedSplit` | external/http-parser/http_parser.c:641-2155 | Feeding two stretches of bytes one after the other is feeding them at once |
| `HttpParser.SplitRun` | external/http-parser/http_parser.c:154-161 | Within a header name or value, that of Content-Length and the spaces after it included, of any length: accepted at once, respectively in two parts, if and only if the wrapped counts are within the limit where they are checked |
| `HttpParser.RunSplit` | external/http-parser/http_parser.c:1482-1706 | The bytes of one run, cut anywhere, are two runs, the second from the fields the first leaves |
| `HttpLimit.CutMatters` | external/http-parser/http_parser.c:1377-1381 | For every limit from 24 on, in a name, in a value and after the digits of a length: for every length whose wrapped count is within the limit, and every cut at which the count has reached it, a request leads to a state in which bytes are accepted at once and rejected in two parts |
| `HttpLimit.WrappingLengths` | external/http-parser/http_parser.c:154-161 | All lengths up to 2^32 + 1 that exceed 2^32 together with the limit are such, with a cut after the first byte |
| `HttpParser.WrapAround` | external/http-parser/http_parser.c:154-161 | A run that starts below the limit and ends with a wrapped count within it is accepted whole, but not when cut where the count has reached the limit |
| `HttpFacts.ReactFields` | external/http-parser/http_parser.c:720-2116 | Every reaction keeps: matcher indices in bounds; chunk states only with a chunked encoding; lengths in chunk and body states neither zero nor the sentinel |
| `HttpFacts.ChunkStartsAnew` | external/http-parser/http_parser.c:1996-2010 | The count is fresh where a chunk size starts: `nread == 1` holds there |
| `HttpRun.OneMark` | external/http-parser/http_parser.c:2135-2139 | At the end of a buffer at most one mark is set |
| `HttpRun.ActReport` | external/http-parser/http_parser.c:641-2155 | Marks and callbacks of one reaction report exactly what the reaction does, byte for byte |
| `HttpRun.HandledMarks` | external/http-parser/http_parser.c:641-2155 | Marks are where the state has an open data field, and nowhere else |
| `HttpParser.Parser.RunHeaderField` | external/http-parser/http_parser.c:1256-1384 | A header name up to its end or that of the buffer, skipped or matched, is the fold of its bytes |
| `HttpParser.Parser.RunHeaderValue` | external/http-parser/http_parser.c:1482-1706 | The same for a header value, with the byte that is skipped unseen where the limit is exceeded anyway |
| `HttpParser.Parser.ReadBody` | external/http-parser/http_parser.c:1944-1985 | Body bytes taken in one stretch are the fold of the single ones |
| `HttpParser.Parser.AtEof` | external/http-parser/http_parser.c:685-706 | The end of the input completes a message that ends with the connection, is fine between messages, and an error elsewhere |
| `HttpChunks.ChunkedRoundTrip` | external/http-parser/http_parser.c:1996-2116 | For every list of non-empty chunks within the limits: the body data are the concatenation, chunk headers and completions alternate, there is one completion of the message |
| `HttpChunks.FeedDigits` | external/http-parser/http_parser.c:1996-2060 | The size of a chunk is the number its digits write |
| `HttpChunks.FeedData` | external/http-parser/http_parser.c:2078-2107 | What is left of a chunk is its size less the bytes delivered |
| `HttpParser.ExecuteChunked` | external/http-parser/http_parser.c:1996-2116 | The same round trip through the parser, for any way of cutting the input into buffers |
| `HttpLength.FeedLength` | external/http-parser/http_parser.c:1482-1560 | The digits of a Content-Length value are accepted exactly while the number stays below the limit, and the length is the number they write |
| `HttpLength.HeadersKeepLength` | external/http-parser/http_parser.c:1206-1800 | Whatever headers follow, the declared length stays until the body begins |
| `HttpLength.FeedIdentity` | external/http-parser/http_parser.c:1944-1979 | In the body what is left is the length less the bytes delivered, which are one piece of data |
| `HttpLength.DeclaredLength` | external/http-parser/http_parser.c:1944-1995 | After the digits and any headers that lead to a body: it is as long as they say, counted down byte by byte, reported as one, and followed by one completion |
| `HttpLength.LengthRoundTrip` | external/http-parser/http_parser.c:1482-1995 | A message whose headers end with its length, and its body: exactly the value, the end of the headers, the data and one completion are reported |
| `UrlParser.Url.ParseUrl` | external/http-parser/http_parser.c:2423-2543 | On success, for input below 2^16 bytes: fields in bounds, disjoint and in order, every byte outside them a delimiter, the port the decimal value of its field, and the conditions on host and CONNECT |
| `UrlParser.Url.FindParts` | external/http-parser/http_parser.c:2437-2500 | The first pass splits the input into parts with nothing but delimiters between them |
| `UrlParser.Url.ParseHost` | external/http-parser/http_parser.c:2336-2415 | User info, host and port inside the authority, in order, with nothing but delimiters between them |
| `UrlParser.Url.ParsePort` | external/http-parser/http_parser.c:2515-2540 | The port is the value of its digits, if it fits |
| `OpenUpvalues.LuaState.FindUpval` | external/lua/lfunc.c:87-99 | The one upvalue of a level, found or created; the list stays strictly decreasing, with one upvalue for each slot |
| `OpenUpvalues.LuaState.NewUpval` | external/lua/lfunc.c:65-80 | A new upvalue is spliced in at its place; no other variable changes |
| `OpenUpvalues.LuaState.UnlinkUpval` | external/lua/lfunc.c:182-187 | Exactly one element leaves the list, and links and back links fit again |
| `OpenUpvalues.LuaState.CloseUpvals` | external/lua/lfunc.c:193-207 | Closes exactly the upvalues at or above the level; each keeps the value of its variable |
| `OpenUpvalues.LuaState.SetVal` | external/lua/lfunc.c:87-99 | An assignment through an upvalue is seen by every closure that shares it and by no other |
| `OpenUpvalues.LuaState.SetSlot` | external/lua/lfunc.c:193-207 | A stack write is seen through the open upvalue of the slot and no other |
| `OpenUpvalues.OnePerLevel` | external/lua/lfunc.c:87-99 | Two open upvalues of one level are the same |
| `TbcList.LuaState.NewTbcUpval` | external/lua/lfunc.c:168-179 | The deltas, with dummy nodes for distances over 65535, encode the list with the new level |
| `TbcList.LuaState.PopTbcList` | external/lua/lfunc.c:213-220 | Lands on the previous real entry or the stack base |
| `TbcList.LuaState.Close` | external/lua/lfunc.c:227-237 | Closes exactly the variables at or above the level, the last one first |
| `TbcList.OneDecoding` | external/lua/lfunc.c:213-220 | The deltas stand for one list of levels only |
| `StringTable.StringTable.TableRehash` | external/lua/lstring.c:62-77 | In place and in either direction, for powers of two: no string is lost or doubled, and each is in the bucket of its hash |
| `StringTable.StringTable.Resize` | external/lua/lstring.c:85-103 | With a collection inside the request for memory: growing always works; shrinking works if and only if each string that the collection removes has its place in the part that is kept. Then the table is whole, has its new size, or the old one if there is no memory, and has lost those strings only |
| `StringTable.StringTable.CheckSizes` | external/lua/lgc.c:869-876 | While `gcstopem` is set the table is always shrunk safely; at the end of a young collection exactly under the condition of `Resize` |
| `StringTable.ShrinkLosesString` | external/lua/lstring.c:85-95 | For a table of any size, with one string in its upper half, which is dead: shrinking fails |
| `StringTable.BucketOf` | external/lua/lstring.c:164-171 | In a half rehashed table the bucket a string is looked for in is its own, or empty |
| `StringTable.StringTable.Intern` | external/lua/lstring.c:188-215 | The string with these bytes: the one there is, untouched, or a new one; equal bytes, equal string; the count is true |
| `StringTable.StringTable.Remove` | external/lua/lstring.c:164-171 | Exactly one string leaves the table, if its place among all buckets is among those in use, and otherwise it is not found |
| `StringTable.StringTable.Collect` | external/lua/lmem.c:162-170 | A collection removes the dead strings and no others, if and only if each is where it is looked for |
| `StringTable.StringTable.GrowStrTab` | external/lua/lstring.c:174-182 | Doubles the table if it can; too many strings mean a full collection and an error if and only if it frees none; besides it the request for memory may run one |
| `StringTable.StringTable.Search` | external/lua/lstring.c:188-202 | Finds the string with these bytes if and only if there is one |
| `StringChains.NewBucket` | external/lua/lstring.c:66-77 | A rehashed string never lands in a bucket that still waits for its turn |
| `RefTable.References.Ref` | external/lua/lauxlib.c:661-686 | For any border that the length may be: the reference is new, not the header, and holds its value; all other keys are untouched |
| `RefTable.References.Unref` | external/lua/lauxlib.c:689-698 | The key heads the free list, the other references keep their values |
| `RefTable.Appended` | external/lua/lauxlib.c:680-685 | A key after a border is neither a live reference, nor free, nor the header |
| `RefTable.Reused` | external/lua/lauxlib.c:675-679 | The first free key leaves the list; it was not live |
| `RefTable.Freed` | external/lua/lauxlib.c:689-698 | After the two writes the key heads the free list, which stays free of cycles and of live references |
| `RefTable.WalkEnds` | external/lua/lauxlib.c:654-660 | A walk along the free list meets no live reference and ends after as many steps as there are free keys |

## Findings

- Split invariance of the HTTP parser depends on the 32-bit count of header bytes. It holds for
  all inputs with `max_header_size + length <= 2^32` (`HttpParser.ExecuteSplit`). Within one header
  name or value, that of Content-Length included, `HttpParser.SplitRun` gives the exact condition for
  any length, in both directions. `HttpLimit.CutMatters` starts with a new parser, reads the request
  line `GET /` and the start of a header up to a name, a value or the spaces after a length, and then
  shows bytes that are accepted at once and rejected in two parts, for every length after which the
  wrapped count is within the limit again.
- A table with weak keys and values is visited once in a cycle and then waits in `allweak`, gray
  (`lgc.c:542-560`); it is not visited again in the atomic phase (`lgc.c:1523-1563`). The forward barrier of
  `lua_setmetatable` does nothing for a gray object, so that a white metatable set in between is not
  marked. `Collector.GlobalState.SetMetatable` keeps the invariant if and only if this is not so, and
  `Collector.MetatableFreed` goes on to the sweep that frees the metatable of a table in the registry.
- A string table that shrinks is rehashed before its array is reallocated, while its size is still the
  old one. If the request for memory runs a collection (`lmem.c:162-170`), `luaS_remove` looks for a dead string of
  the upper half in an empty bucket and follows a null link. `StringTable.StringTable.Resize` works if and only if there is no
  such string, `StringTable.ShrinkLosesString` shows a table where there is one. A collection step
  excludes this by `gcstopem`; the end of a young collection (`lgc.c:1235-1242`) does not
  (`StringTable.StringTable.CheckSizes`).
- The table `unhex` of the HTTP parser (`http_parser.c:224-233`) lists 128 entries; the others are
  zero, so that a byte counts as a digit of a chunk size if and only if it is a hexadecimal digit or at least 128
  (`HttpChars.HexDigit`), with value 0 then. The model follows the code, and the round trip is stated for digits below 128.
- `LOWER` of a tab is not a tab (`http_parser.c:419`, `1624`; `HttpChars.NoLowerTab`), so that the cases which skip a tab between tokens of a
  header value never see one. The model follows the code.
- The count of header bytes is not reset after the trailers of a chunked message
  (`http_parser.c:1795-1804`), so that they count towards the limit of the next message; see the 2 in
  `HttpChunks.ChunkedRoundTrip`.

## Left out

- Collector: open upvalues and `remarkupvals`, protos, userdata and their user values as kinds of
  their own; closures stand for objects with a forward barrier.
- Collector: whether a table is weak is fixed when it is created.
- Collector: memory accounting and pacing, `checkSizes`, the string cache, the release of memory; a
  finalizer is an arbitrary sequence of further steps of the mutator.
- Collector: dead keys are entries emptied.
- Collector.GlobalState.FixString: in the pause only, where the strings of a new state are fixed.
- Collector.GlobalState.Udata2Finalize: not in a sweep phase (the branch at `lgc.c:891-892`), in which only the closing of a state can call it.
- Collector.GlobalState.AtomicPhase: which strings are marked is bounded from below only.
- Generational mode: weak tables, finalizers and their lists, the change to and from the incremental mode by pacing; white is one colour, since
  no object is created during a young collection.
- CodeGen.FuncState.Expression: the bounds under which it succeeds are sufficient, not exact: a register may be saved where an operand is a local variable or a constant.
- Code generator: floating point, arithmetic, upvalues, indexing, calls, varargs, and metamethods; a comparison of
  values without an order is an error. Integers are unbounded. An expression descriptor is passed by value.
- Code generator: jumps back (`luaK_patchlist` to an earlier label) have the structural contract of
  `CodeGen.FuncState.PatchListAux` only.
- JumpThreading.Finish: does not model the changes to return instructions in the same loop.
- Line information: lines are natural numbers; no bound on the number of instructions.
- HTTP parser: callbacks return 0 and do not pause; the answer at the end of the headers is a function of the
  fields; the strict build only; null callbacks; the fields after an error.
- UrlParser.Url.ParseUrl: says nothing of inputs of 2^16 bytes and more, where offsets are cut to 16 bits.
- OpenUpvalues.LuaState.CloseUpvals: without the collector's barrier for a closed upvalue.
- OpenUpvalues.LuaState.NewUpval: without the list of threads with upvalues.
- To-be-closed variables: what a close method does; a variable without one is the error of `checkclosemth`.
- String table: the hash function is any function of the bytes, `lmod` is the remainder, and a
  failing allocation of the string itself is left out.
- References: tables of 2^31 elements and more, where the C cast to `int` loses digits.
- Everything else in the repository: sockets, TLS, protocol buffers, the libraries and the parser of Lua.
