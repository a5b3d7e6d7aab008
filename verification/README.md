# gproc: a model with proofs

gproc runs a program on many nodes at once. A user's process packs the program and its libraries, a
master hands the request to slaves, and slaves hand it on to slaves below them; the files travel with the
request, and connections close upwards as programs end. This project models the five pieces of logic that
this rests on and proves properties of them for all inputs, all runs or all reachable states.

Check everything with `dafny verify dfyconfig.toml`.

## Files by component

**Walking values over a recursive type graph** (`src/typeapply`).
`TypeGraph` holds types as a finite graph and what it means to reach the target. `ReachSearch` is the
memoised search on the cache it updates, `Compiler` is the compilation of traversers, `Traversal` runs a
traverser on a value and defines the plain walks it is measured against. `TypeApply` has the class with the
package's table, updated in place; each of its methods is proved equal to the function of the same name.
A typeInfo is an index into a growing list, so that an address captured by a traverser keeps its meaning.
`CompileOrder` is the order in which types are compiled, as a depth-first walk of the type graph alone.
The rest are the theorems. `ReachCorrect`, `CompilerCorrect` and `TraversalCorrect` are about one search, one
compilation and one run; `Knots` and `Asking` relate them to the walk of `CompileOrder`, `Links` and `Meeting`
say what that means for a run on a given value; `Traps` and `Histories` are about all sequences of calls, and
`DoExact` is about `Do` itself. `RequestType` applies it to the requests that nodes send to one another.
`AccessPaths` says what the members of a value are without any walk, and `FirstSearch` what a search does before
anything has been denied.
`DoExamples` has small type graphs, among them the type that the package's own test walks. Three conditions come
up, each a property of the finite type graph alone:

* `TrapFree`: the map case of `canReach` publishes an answer for its key while the element is searched.
  If that answer is `no`, a type that only reaches through the map caches the wrong `no` for good. A *trap*
  is a map and such a type. Every call of `Do` that returns is right, on every value and after every history,
  if and only if the graph has no trap (`DoExact.CallsRightIffTrapFree`).
* `KnotFree`: only struct traversers look up the typeInfo when they run; the others capture their callee
  when they are compiled. A *knot* is a pointer, map, array or slice type on a cycle through its own member
  type. Whether a knot does harm depends on where the types are entered: `struct List { Next *List; ... }`
  panics if it is first walked by value and has a second element, and is walked in full if it is first walked
  by pointer (`DoExamples.ListByValue`, `DoExamples.ListByPointer`). What a call
  does is decided by the walk of `CompileOrder` over the types the call asks for, past those compiled before:
  it returns, is right and leaves no dummy captured if and only if no pointer, map, array or slice type meets
  an open type on that walk (`DoExact.CallIsRightIff`); and the call itself goes well if and only if its value
  holds nothing but nil and empty values of the types that do (`DoExact.CallExact`). No history at all goes wrong
  if and only if there is no knot (`Histories.NoDummyIffKnotFree`).
* `HiddenFree`: `canReach` ignores unexported fields but the struct traverser does not, and reflect refuses
  to pass on what it finds there. Walking completes on every value of every type if and only if no struct
  that reaches the target has an unexported field whose type reaches it.

All three together hold if and only if every call returns and is right, on every value and after every history
(`DoExact.CallsTotalIff`).

**Values and files on one stream** (`src/filemarshal`, and the relay in `src/gproc/common.go`).
`Disk` is a file system as a map of paths and says when placing files succeeds. `FileMarshal` has the
stream format and the encoder, `FileDecoder` the decoder, both with their state updated in place.
`MarshalLaws` has the round trips, over one value and over any number of values on one stream. The source
promises that the receiver's type may lack some of the sender's fields. It may lack directories and links;
`LackingInSync` shows that if a regular file is lacking, the receiver stops short of the end of the value,
whether it accepts the value or not. `Relay` takes requests down a tree of nodes, and `Originator` joins it
to the pack that makes the request.

**Delegation** (`src/gproc`: node lists, the registry of slaves, the master, the slaves, and the wait at the
top). `NodeList` parses the node language. `Registry` has the two maps of registered slaves. `Delegation`
says which requests a command sends, to which nodes and how often, and which programs get started. `Completion`
is the protocol by which connections close, as a state machine in which all nodes move independently, a slave
serves one request at a time, requests may fail to get through, to dial back or to start their program, and
output may fail to be passed on. `Orphans` says which connections can be open below a closed one, `Returning`
when the user's process returns, `CompletionOrder` which steps come before which in every run, and
`CompletionRuns` has runs in which it goes wrong. `CommandTree` joins the
two halves: the requests of a command form the tree that the protocol runs on.

**Two closures** (`src/ldd`, and the pack visitor in `src/gproc/mexec.go`). `Ldd` is the work list over
needed libraries, with its bounded channel. `Pack` is the walk that lists what to take along; `PackLaws`
says what gets listed, and `Paths` has the cleaning and joining of paths that a link's target goes through.

**The postfix interpreter** (`src/forth`, `src/utils/startkane.go`). `Text` has the pieces of `strings` and
`strconv`. `Forth` has the operators with Go's truncating division and wrap-around, `ForthMachine` the
interpreter with its stack and with the operator table that all interpreters share, both updated in place,
`ForthOperators` says what each operator does, `ForthLaws` and `ForthCompile` have the laws, and `StartKane`
the tree of nodes that the bootstrap expression computes.

## Where the code differs from what is said about it

* The comment at src/typeapply/typeapply.go:107-109 says that only structs recurse while a type is being
  compiled; pointers, maps, arrays and slices do too (`Histories.NoDummyIffKnotFree`, `DoExamples.KnotExample`).
* The comment at src/filemarshal/filemarshal.go:65-76 says that some fields may not occur in the receiver's
  type (`MarshalLaws.LackingInSync`, `MarshalLaws.LackingMixesUp`).
* README:41 describes `ifelse` as replacing the top by the next element if the top is zero. The code
  (src/forth/forth.go:236-245) keeps the next element if the top is not zero, and the one below it if it is.
* README:44 says that `hostbase` strips letters and dots. The code strips letters, blanks and dashes.
* Nothing prevents startkane's parent expression from wrapping around; it names the intended parent exactly
  for the numbers given in `StartKane.ParentIsRight`.
* The comment at src/typeapply/typeapply.go:48-52 promises every publicly accessible member. A trap makes a call
  miss one, and a hidden field that reaches the target makes it panic (`DoExamples.TrapExample`,
  `DoExamples.HiddenExample`).
* The pack visitor's `alreadyVisited` does not keep a link from being listed twice (`PackLaws.LinkListedTwice`);
  it does if and only if no link leads back to its own name (`PackLaws.ListsOnceIffAcyclic`).
* The comment at src/gproc/slave.go:237 has a slave wait for all the slaves below it. A slave whose program cannot
  be started panics instead (src/gproc/slave.go:275-277, src/gproc/common.go:179-183), which closes its connection
  while programs below it still run (`CompletionRuns.ReturnsEarly`, `Orphans.SafeIffNoOrphans`).
* The comment at src/gproc/common.go:381-383 has one token for each client that has disconnected. A token is also
  issued when output cannot be passed on, and the process then panics (src/gproc/common.go:403-408). So below a
  slave that has ended early, slaves end while programs below them still run (`CompletionRuns.BreaksOff`,
  `Orphans.OutlivesIffFine`).
* A slave counts its workers before it sends anything. If one of them cannot be reached, with nothing wrong above
  it, the user's process never returns (`CompletionRuns.WaitsForEver`, `Returning.LostNeverReturns`). A slave whose
  child ends before it asks for its slaves waits for it for ever at src/gproc/slave.go:127, and takes no further
  request (`CompletionRuns.HeldForEver`).

## Model

| member | source | states |
|---|---|---|
| ReachSearch.CanReach | src/typeapply/typeapply.go:190-231 | The search ends, on the set of types not in progress. It clears every visiting flag it sets, writes no typeInfo that existed before, gives a type a new typeInfo only if the old one was undecided, and leaves its answer in the cache |
| ReachSearch.Search | src/typeapply/typeapply.go:202-229 | The switch on the kind changes nothing that existed before but the answer of the type's own typeInfo |
| ReachSearch.SearchFields | src/typeapply/typeapply.go:207-214 | So does the loop over the fields |
| ReachSearch.Finish | src/typeapply/typeapply.go:196-230 | Clearing the flag of the typeInfo allocated on entry makes the result an extension of the cache found on entry |
| ReachCorrect.Decides | src/typeapply/typeapply.go:190-231 | In a graph without traps, every answer in the cache, partial ones included, is right after a search if it was before, in any state of types in progress |
| ReachCorrect.SearchDecides | src/typeapply/typeapply.go:203-228 | The same for the switch, for the type in progress |
| ReachCorrect.MapDecides | src/typeapply/typeapply.go:216-218 | The same for a map, whose answer for its key is published while its element is searched |
| ReachCorrect.OnlyWay | src/typeapply/typeapply.go:204-224 | Without traps, a type whose single way to the target leads through a map in progress does not reach it |
| ReachCorrect.NoSelfRoute | src/typeapply/typeapply.go:90-95 | A type that reaches only through itself does not reach, which justifies hardening "don't know" to "no" |
| ReachCorrect.Finds | src/typeapply/typeapply.go:190-231 | If a route to the target avoids all types in progress, the search answers yes |
| ReachCorrect.FieldsFind | src/typeapply/typeapply.go:207-214 | So does the loop over fields, from any field before the one the route goes through |
| FirstSearch.SearchExact | src/typeapply/typeapply.go:190-231 | In every graph, traps included: with nothing in progress and nothing denied yet, the search answers yes for the types that reach and "don't know" for all others, and still nothing is denied |
| Compiler.GetTrav | src/typeapply/typeapply.go:84-187 | Compiling ends, on the set of types without a traverser. A typeInfo with a definite answer stays where it is, and a typeInfo with a traverser is not touched |
| Compiler.CompileFields | src/typeapply/typeapply.go:128-134 | So does the loop over all fields, exported or not |
| Compiler.Hardened | src/typeapply/typeapply.go:92-95 | Hardening touches no other typeInfo and leaves the type without a traverser |
| Compiler.Tied | src/typeapply/typeapply.go:110-142 | The typeInfo given the dummy is still the live one when the finished traverser replaces it |
| CompilerCorrect.SearchSound | src/typeapply/typeapply.go:85 | Called with nothing in progress on a sound cache, the search answers yes if and only if the type reaches the target, and the cache stays sound |
| CompilerCorrect.ListsKept | src/typeapply/typeapply.go:120-142 | Addresses captured by a struct traverser remain the live entries of their types through every later change |
| CompilerCorrect.BuiltKept | src/typeapply/typeapply.go:112-182 | Every traverser stays well built through every later change |
| CompilerCorrect.GetTravSound | src/typeapply/typeapply.go:84-187 | A traverser is returned if and only if the type reaches the target, it has the shape of its type, lists exactly the fields that reach, and the cache stays sound |
| Traversal.Run | src/typeapply/typeapply.go:98-182 | A run, which compiles for dynamic types as it goes, only ever grows the cache |
| TraversalCorrect.RunSound | src/typeapply/typeapply.go:98-182 | Running a traverser gives the outcome of the plain walk, or panics because a dummy was captured somewhere |
| TraversalCorrect.FieldsRun | src/typeapply/typeapply.go:136-142 | The pruned list of fields gives what walking all fields gives |
| TraversalCorrect.EntriesRun | src/typeapply/typeapply.go:147-157 | Likewise for the entries of a map, with a missing traverser on either side |
| TraversalCorrect.NoMembers | src/typeapply/typeapply.go:87-89 | Pruning loses nothing: a value whose type cannot reach has no target-typed members |
| TraversalCorrect.WalkIsMembers | src/typeapply/typeapply.go:48-52 | A walk that completes has called f on exactly the publicly accessible members |
| AccessPaths.MembersByWays | src/typeapply/typeapply.go:48-52 | The members are what is found at the ends of all ways that take publicly accessible parts up to the first value of the target type, once for each way, in the order of the ways: fields, items, and entries with the key before the element |
| TraversalCorrect.DoFindsMembers | src/typeapply/typeapply.go:53-79 | On any sound cache, if Do completes, f was called on exactly the publicly accessible members, in walking order; without captured dummies Do is the plain walk |
| CompileOrder.NoBad | src/typeapply/typeapply.go:104-187 | Without knots, the depth-first walk never lets a pointer, map, array or slice type meet an open type, from any state in progress |
| CompileOrder.KnotIsBad | src/typeapply/typeapply.go:110-167 | With a knot, the walk that enters it at its member type does, for the knot's own type |
| CompileOrder.NoBadIffKnotFree | src/typeapply/typeapply.go:104-187 | So no history goes wrong if and only if there is no knot |
| Knots.Steps | src/typeapply/typeapply.go:84-187 | What one call of getTraverserFunc does to the traversers of all types: nothing where one is cached or none is called for, else the dummy, the members, and the tie |
| Knots.GetTravVisits | src/typeapply/typeapply.go:104-187 | From any sound cache, in any state in progress: compiling gives a traverser to exactly the types that the depth-first walk visits, touches no other, and lets exactly the types that the walk names bad capture the dummy |
| Knots.CompileVisits | src/typeapply/typeapply.go:112-182 | The same for the switch on the kind, for the type in progress |
| Links.GetTravLinked | src/typeapply/typeapply.go:112-182 | Compiling keeps every traverser's parts to be the finished traversers of the part types, or the dummy |
| Meeting.FitsThen | src/typeapply/typeapply.go:53-79 | If the bad types of a list of requests for traversers are known, so are they for its first part, and for the rest after that |
| Meeting.RunMeets | src/typeapply/typeapply.go:98-182 | A run panics if and only if its value holds, on the way to its targets, a non-nil, non-empty value of a bad type |
| Asking.StaysPureIff | src/typeapply/typeapply.go:68-75 | Compiling any sequence of types, from any sound cache without captured dummies, captures none if and only if the walk in that order, past what is compiled, names no bad type |
| Asking.RunAsks | src/typeapply/typeapply.go:98-182 | A run that returns has asked for the types found in the value's interfaces, in walking order, and for nothing else; one that panics has asked for some of them |
| Asking.DoAsks | src/typeapply/typeapply.go:53-79 | So has Do, after the type of its argument |
| Traps.PoisonReach | src/typeapply/typeapply.go:216-218 | While a map shows its partial "no", the second type of a trap, once searched, is denied and stays so |
| Traps.SpreadReach | src/typeapply/typeapply.go:202-229 | A search that has finished has searched everything the type mentions publicly, up to targets |
| Histories.AfterSound | src/typeapply/typeapply.go:68-75 | Without traps, every cache that any history of calls builds is sound |
| Histories.TrapSprings | src/typeapply/typeapply.go:216-218 | With a trap, an explicit history of two or three calls leaves a type that reaches denied for good |
| Histories.AnswersRightIffTrapFree | src/typeapply/typeapply.go:190-231 | All cached answers are right after every history if and only if the type graph has no trap |
| Histories.PureAfterIff | src/typeapply/typeapply.go:104-187 | Without traps, the cache of a history holds no captured dummy if and only if the walk of the type graph in its order names no bad type |
| Histories.CapturedExactly | src/typeapply/typeapply.go:104-187 | And the types whose traversers hold the dummy are exactly those that the walk names |
| Histories.NoDummyIffKnotFree | src/typeapply/typeapply.go:104-142 | Without traps, no history captures a dummy if and only if there is no knot |
| HiddenFields.WalkCompletes | src/typeapply/typeapply.go:128-142 | If no reaching struct hides a reaching field, walking never panics |
| HiddenFields.CompletesIffHiddenFree | src/typeapply/typeapply.go:128-134 | Walking completes on every value, finding its publicly accessible members, if and only if no reaching struct hides a reaching field |
| MapOrder.SwapKeepsMembers | src/typeapply/typeapply.go:149-156 | Exchanging two neighbouring map entries at any depth keeps the multiset of calls |
| MapOrder.ReorderedSameMembers | src/typeapply/typeapply.go:149-156 | So does any reordering of maps |
| DoExact.DoHistory | src/typeapply/typeapply.go:53-79 | A call of Do, with all it compiles for dynamic types on the way, leads from one history's cache to another's |
| DoExact.DoIsRight | src/typeapply/typeapply.go:48-79 | Without traps, whatever was walked before, a Do that returns has called f on exactly the outermost target-typed members, once for each way of reaching them, in walking order |
| DoExact.CallIsRightIff | src/typeapply/typeapply.go:48-79 | On any sound cache without captured dummies, recursive types included, with no trap and no hidden field: a call returns, has called f on exactly the publicly accessible members and leaves no dummy captured, if and only if the walk over the types it asks for names no bad type |
| DoExact.CallAfterIsRightIff | src/typeapply/typeapply.go:48-79 | The same for a call after any history, on the type graph and the order of the calls alone |
| DoExact.CallExact | src/typeapply/typeapply.go:48-79 | With no trap and no hidden field, after any history, one that captured dummies included: a call returns, having called f on exactly the publicly accessible members, if and only if its value holds no non-nil, non-empty value of a type that the walk over the types asked for, by the history and by the call, names bad |
| DoExact.TrapMisses | src/typeapply/typeapply.go:216-218 | After the history that springs a trap, a call on any value of the trap's second type returns without calling f |
| DoExact.CallsRightIffTrapFree | src/typeapply/typeapply.go:48-79 | Every call that returns is right, on every value and after every history, if and only if the type graph has no trap |
| DoExact.KnotPanics | src/typeapply/typeapply.go:110-167 | With a knot, a call on some value of its type, after one other call, panics |
| DoExact.WalkPanics | src/typeapply/typeapply.go:128-142 | On any sound cache, a call panics on every value on which the plain walk does |
| DoExact.DoNeverPanics | src/typeapply/typeapply.go:48-79 | Without traps, knots and hidden fields every call returns, having called f on exactly the publicly accessible members |
| DoExact.CallsTotalIff | src/typeapply/typeapply.go:48-79 | Every call returns and is right, on every value and after every history, if and only if the type graph has no trap, no knot and no hidden reaching field |
| DoExamples.TrapExample | src/typeapply/typeapply.go:216-218 | A concrete type graph with a trap, and a value with a target that a call after two others does not find |
| DoExamples.KnotExample | src/typeapply/typeapply.go:104-118 | A linked list, walked by value on a fresh cache: its pointer type captures the dummy |
| DoExamples.SelfLinkedPanics | src/typeapply/typeapply.go:53-118 | Any struct whose first field points to its own type, walked by value on a fresh cache, panics as soon as that pointer is not nil |
| DoExamples.ListByPointer | src/typeapply/typeapply_test.go:10-13 | Walked by pointer on a fresh cache, a linked list of any length yields all its targets |
| DoExamples.ListByValue | src/typeapply/typeapply_test.go:10-13 | Walked by value on a fresh cache, a linked list yields all its targets if and only if it has one element |
| DoExamples.HiddenExample | src/typeapply/typeapply.go:128-142 | A struct with an exported and an unexported target makes Do panic on a fresh cache |
| DoExamples.BigByPointer | src/typeapply/typeapply_test.go:19-77 | On a fresh cache Do finds every target in every value of the test's pointer type, whatever its interface field holds |
| RequestType.EncodeFinds | src/filemarshal/filemarshal.go:86-94 | Whatever was walked before, the walk over a request inside Encode calls f on exactly its files, in order |
| RequestType.DecodeFinds | src/filemarshal/filemarshal.go:142-148 | So does the walk inside Decode, over a pointer to a pointer to a request |
| TypeApply.TypeMap.CanReach | src/typeapply/typeapply.go:190-231 | The search as written, on the table in place, is the function that the theorems are about |
| TypeApply.TypeMap.SearchStruct | src/typeapply/typeapply.go:207-214 | So is its loop |
| TypeApply.TypeMap.GetTraverserFunc | src/typeapply/typeapply.go:84-187 | So is compiling |
| TypeApply.TypeMap.CompileStruct | src/typeapply/typeapply.go:120-135 | So is its loop over the fields, with the address captured after each |
| TypeApply.TypeMap.RunTraverser | src/typeapply/typeapply.go:98-182 | So is running a traverser, with f called in the order of the outcome |
| TypeApply.TypeMap.RunMap | src/typeapply/typeapply.go:147-157 | So is the loop over map entries |
| TypeApply.TypeMap.RunList | src/typeapply/typeapply.go:161-167 | So is the loop over items |
| TypeApply.TypeMap.Do | src/typeapply/typeapply.go:53-79 | So is Do |
| Disk.OverwriteBytes | src/filemarshal/filemarshal.go:194-211 | The bytes of a file after writing are those written, and beyond them those that were there before |
| Disk.OverwriteExact | src/filemarshal/filemarshal.go:194-211 | Without truncation the file ends as the data if and only if it was no longer than the data before |
| Disk.PlaceExact | src/filemarshal/filemarshal.go:160-215 | What every path holds after an item was placed: the item, if only directories lie on the way and nothing else is in its place; what was there before; or a directory that was missing on the way. Placing fails only for files |
| Disk.AllInPlace | src/filemarshal/filemarshal.go:161-196 | Files, directories and links whose ways are free all end up in place in whatever order, nothing else is disturbed, and nothing but directories appears beside them |
| FileMarshal.NamesOfHas | src/filemarshal/filemarshal.go:86-94 | Each non-empty name in the value is on the list exactly once |
| FileMarshal.NamesDistinct | src/filemarshal/filemarshal.go:86-94 | No name is on the list twice |
| FileMarshal.NamesOrder | src/filemarshal/filemarshal.go:86-94 | The names are in the order in which they first occur |
| FileMarshal.CollectNames | src/filemarshal/filemarshal.go:86-94 | The loop yields the names in order of first occurrence, and the first file of each |
| FileMarshal.ChunksFit | src/filemarshal/filemarshal.go:99-123 | Chunks make up the file; all but the last have 8192 bytes, and that one is not empty |
| FileMarshal.TakeFile | src/filemarshal/filemarshal.go:202-215 | Reading chunks to the first empty one gives back a sent file whole, and leaves what follows it unread |
| FileMarshal.TakeExact | src/filemarshal/filemarshal.go:202-215 | On any stream, a file is read whole if and only if an empty chunk comes before the end and before anything that is no chunk, and then up to that chunk |
| FileMarshal.Encoder.SendFile | src/filemarshal/filemarshal.go:111-127 | The read loop emits exactly the chunks and the terminator |
| FileMarshal.Encoder.Encode | src/filemarshal/filemarshal.go:77-128 | The value, its names, and the contents of its regular files, up to the first that cannot be opened |
| FileMarshal.EncodesIff | src/filemarshal/filemarshal.go:97-108 | Encoding succeeds if and only if every regular file that is the first of its name can be opened |
| FileMarshal.ReceivesExactly | src/filemarshal/filemarshal.go:159-221 | Of what a listed file is decoded, by its type: when it is refused, what it leaves unread, and how it is rewritten |
| FileMarshal.AcceptedHas | src/filemarshal/filemarshal.go:132-228 | A value is only accepted if each of its listed regular files is in place as a regular file, and each of its listed links has a target |
| FileMarshal.DecodeSurvives | src/filemarshal/filemarshal.go:160-215 | Whatever is sent, accepted or refused: every directory and every link that was there is there as it was, and every file is still a file |
| FileMarshal.ReceiveSent | src/filemarshal/filemarshal.go:150-226 | Fed with what was sent for the names, the receiver does what placing the files directly would do, rewrites the value, and stops at the end of what was sent |
| FileMarshal.DecodeEncode | src/filemarshal/filemarshal.go:77-228 | Decoding what was encoded consumes exactly its messages, recovers the body, and puts the first file of every name in place |
| FileDecoder.WriteOn | src/filemarshal/filemarshal.go:202-215 | Writing chunk after chunk amounts to writing the whole from the start |
| FileDecoder.IndexFiles | src/filemarshal/filemarshal.go:142-148 | The index has, for each non-empty name, the places of its files in walking order, the first one first |
| FileDecoder.CopyOver | src/filemarshal/filemarshal.go:153-224 | Every later file of the name is overwritten by the first |
| FileDecoder.Decoder.ReadInto | src/filemarshal/filemarshal.go:194-215 | The chunk loop leaves the file overwritten by all chunks up to the terminator, or up to where the stream breaks off |
| FileDecoder.Decoder.PlaceFile | src/filemarshal/filemarshal.go:159-221 | One listed file: a directory, a link with its target moved, or a regular file with its chunks; directories and links that are there already stay as they are |
| FileDecoder.Decoder.Decode | src/filemarshal/filemarshal.go:132-228 | The decoder as written, on its input and disk in place, is the function that the theorems are about, error paths included; no directory or link that was there is changed |
| MarshalLaws.RoundTripFiles | src/filemarshal/filemarshal.go:150-226 | After a round trip every named file is the first of its name with an absolute link target moved under the root; files without a name are untouched |
| MarshalLaws.RoundTripIsIdentity | src/filemarshal/filemarshal.go:77-228 | The value comes back unchanged if and only if files that share a name are equal and no link is moved |
| MarshalLaws.StreamRoundTrip | src/filemarshal/filemarshal.go:65-76 | Any number of values on one stream come out one by one, complete and in order, with nothing left over |
| MarshalLaws.LackingInSync | src/filemarshal/filemarshal.go:150-154 | A receiver whose value lacks a regular file does not read to the end of what was sent, whether it accepts the value or gives up on it; one that accepts reads to the end if and only if no regular file is lacking |
| MarshalLaws.LackingMixesUp | src/filemarshal/filemarshal.go:150-154 | A receiver lacking the first of two files writes its contents into the second |
| Relay.BuildFiles | src/gproc/common.go:336-347 | The loop makes one file, read from under the node's root, for each directory, regular file and link among the commands, in their order |
| Relay.FirstOf | src/gproc/common.go:337-347 | Under any root, the first command of a destination is the first file of its name |
| Relay.CmdOf | src/gproc/common.go:337-347 | And the first file of a name comes from such a command |
| Relay.HopCompatible | src/gproc/common.go:336-347 | Under a fresh root the files of a request do not get into each other's way |
| Relay.Hop | src/gproc/slave.go:185-189 | One hop: the receiver reads the request to its end, with the commands untouched, and holds every file, directory and link |
| Relay.EveryNodeServed | src/gproc/common.go:331-371 | At any depth, every node ends with each regular file as the originator has it, each directory, and each link with its own root in front of an absolute target exactly once, and keeps what it had |
| Originator.PackedWellFormed | src/gproc/mexec.go:206-270 | What a pack of a directory tree lists is a request that the relay serves |
| Originator.PackedRequestServed | src/gproc/mexec.go:106-122 | From the walk to the last node: every node of the tree ends, under its own root, with a copy of each regular file, directory and link that was walked to, as they are on the originator's disk |
| NodeList.ParseNodeList | src/gproc/common.go:430-463 | The parser, with its early exit on a bad range, is the function that the theorems are about |
| NodeList.ParseRange | src/gproc/common.go:434-455 | One term is refused if and only if it is a falling range, and yields its names and its rest otherwise |
| NodeList.IdsHas | src/gproc/common.go:451-453 | A range holds the decimal name of each number in it, once |
| NodeList.IdsAre | src/gproc/common.go:451-453 | The names are in ascending order, one for each number |
| NodeList.EndOfRange | src/gproc/common.go:446-451 | An end of a range that does not fit the machine counts as the nearest number that does, and one that is no number as zero |
| NodeList.SubnodesAreSingle | src/gproc/slave.go:211-215 | No Subnodes holds a comma: parsed again it yields one entry, so a slave that uses only the first loses nothing |
| NodeList.ParseShown | src/gproc/common.go:430-463 | Parsing a printed list recovers each term's first segment and its printed remainder |
| NodeList.EveryLevelParses | src/gproc/slave.go:211-235 | Level by level, every segment of a printed term is recovered, up to the empty entry that precedes a range |
| Registry.AddKeepsInverse | src/gproc/common.go:577-591 | Registering keeps the two maps inverse if and only if id and address are fresh or already paired |
| Registry.RemoveKeepsInverse | src/gproc/common.go:593-599 | Removing what is registered keeps them inverse |
| Registry.StaleAddress | src/gproc/common.go:586-587 | A slave that comes back on a new address leaves its old one behind |
| Registry.RunKeepsInverse | src/gproc/common.go:577-599 | Over every run of registrations and removals the maps stay inverse |
| Registry.Slaves.Add | src/gproc/common.go:577-591 | The id stands for the address and the address for the id; every other id and every other address is there exactly as before |
| Registry.Slaves.Remove | src/gproc/common.go:593-599 | Both entries of the slave go, and all others stay as they were |
| Registry.Slaves.Get | src/gproc/common.go:608-616 | Looks an id up, or else an address, with the empty id standing for a missing address |
| Registry.Slaves.ServIntersect | src/gproc/common.go:622-638 | "." yields every registered address once; any other list yields the addresses found, in order |
| Registry.Slaves.SendCommandsToANodeSet | src/gproc/master.go:51-66 | The first count is that of the nodes that could be dialed, the second that of the others; exactly those that could not be dialed are gone from both maps, and everything else is as before |
| Delegation.FindKid | src/gproc/common.go:608-616 | A slave is found exactly under its id and its address |
| Delegation.SelectedCount | src/gproc/common.go:622-638 | A well-formed segment selects each slave it names once and nobody else, the empty entry of a range notwithstanding |
| Delegation.SentInOrder | src/gproc/master.go:51-66 | One request goes to each selected slave, in the order of selection |
| Delegation.TermRuns | src/gproc/slave.go:210-235 | One term sends a request to each node whose path it matches, once, and what it leaves there is well formed, ill-formed or unanswered as the segments and the nodes say |
| Delegation.CommandRuns | src/gproc/master.go:72-88 | A command sends a request to a node once for each comma term a non-empty prefix of whose segments matches the node's path, except that the master asks a slave that does not answer only once; a bad range in the first segment of any term sends nothing |
| Delegation.RegistryFollows | src/gproc/master.go:54-60 | The slaves that a later term can reach are those that the master's registry has left once it has dropped what failed |
| Delegation.ProgramsRun | src/gproc/slave.go:198-214 | A command starts the program at a node once for each term that matches its path and leaves it a well-formed list, and at most once more for each that matches and leaves it a bad range |
| Delegation.StartedAny | src/gproc/slave.go:198-214 | Every number in between is possible |
| Delegation.MatchDepth | src/gproc/slave.go:210-235 | No request goes deeper than a term has segments |
| Delegation.WholePathRuns | src/gproc/slave.go:198-235 | Every node on the way to one that a request is sent to is sure to run the program |
| Delegation.SlaveFirstLevel | src/gproc/slave.go:191-199 | A request that gets through arrives once at its first hop |
| Delegation.SendToSet | src/gproc/master.go:34-67 | The count returned is the number of requests that got through directly below |
| Delegation.SendCommandsToNodes | src/gproc/master.go:72-88 | Over all terms, with slaves that fail dropped in between, the count reported to the user's process is the number of requests that got through directly below the master |
| CommandTree.RequestsTree | src/gproc/master.go:72-88 | The requests of a command, numbered in the order in which they are sent, form a tree of the completion protocol: each hangs below a request for the slave above, which arrived well formed |
| CommandTree.CommandReturnsIff | src/gproc/mexec.go:129-137 | Where every process that is reached dials back and starts its program: in every maximal run the user's process returns if and only if no term names, below the first level, a slave that does not answer under slaves that do |
| CommandTree.CommandDone | src/gproc/mexec.go:129-137 | And when it does, every request that arrived anywhere is done |
| CommandTree.CountIsSent | src/gproc/mexec.go:129-137 | The count that the user's process is told is the number of tokens that it has to wait for |
| Completion.StepKeepsInv | src/gproc/slave.go:222-245 | Every step of every node, failed dials, dial-backs, starts and copies included, keeps the books: tokens expected and tokens taken add up to the workers counted, tokens are lost only where the process two levels up has ended, and no host serves two requests |
| Completion.RunKeepsInv | src/gproc/slave.go:174-247 | Every interleaving keeps them |
| Completion.RunsEnd | src/gproc/slave.go:174-247 | Every run has at most seven steps for each node |
| CompletionOrder.StartsInOrder | src/gproc/slave.go:174-235 | In every run a request is sent before it is taken, and by a node that has been started |
| CompletionOrder.ClosesLast | src/gproc/slave.go:237-245 | A slave closes its connection after its own program has ended and after it has taken a token for every slave it counted |
| CompletionOrder.ReapsLast | src/gproc/common.go:399-405 | A token is taken for a slave whose program has ended, unless that could not be started |
| CompletionOrder.ReturnsLast | src/gproc/mexec.go:129-137 | The user's process returns after the end of every program that was started with nothing wrong above it |
| CompletionOrder.BreaksInOrder | src/gproc/common.go:403-408 | A token is lost only after the process two levels up has ended, and a process gives up only when it lost a token or was handed a bad range |
| CompletionOrder.EndedIsSilent | src/gproc/slave.go:198-247 | A process that has ended sends no request and takes no token |
| CompletionOrder.NoStepTwice | src/gproc/slave.go:174-247 | No step is made twice |
| Orphans.ClosedKids | src/gproc/slave.go:238-245 | A slave whose process has ended, with nothing wrong from the top down to it, has taken a token from every slave it counted, each for a closed connection |
| Orphans.ClosedMeansDone | src/gproc/slave.go:237-245 | In every reachable state, below a closed connection every program has ended and every connection is closed, down to where a program could not be started or a list was ill-formed, at any distance above |
| Orphans.OrphanRun | src/gproc/common.go:403-408 | If a request gets through to a slave and to one below it, with a program that cannot be started at or above the upper one, at any distance, a run closes the upper connection while the lower program runs |
| Orphans.OutlivesIffFine | src/gproc/common.go:403-408 | A slave's connection outlives that of a slave below it, in every run, if and only if nothing is wrong with the slave or with anything above it |
| Orphans.SafeIffNoOrphans | src/gproc/slave.go:174-277 | In every state of every run nothing is open below a closed connection, if and only if no slave that is reached, and whose program cannot be started, has a slave below it that is reached too |
| CompletionRuns.ReturnsEarly | src/gproc/slave.go:275-277 | A run in which the user's process returns while programs further down still run |
| CompletionRuns.BreaksOff | src/gproc/common.go:403-408 | A run in which a slave below one that ended early loses a token and ends while the program below it still runs |
| Orphans.ReturnMeansDone | src/gproc/mexec.go:129-137 | When the user's process returns, nothing is open below each slave that was sent to, if there is no such pair; and everything is done down to where something above went wrong |
| Returning.NeverStuck | src/gproc/common.go:392-411 | If no request that is waited for is lost and no slave is held, some step is bound to be possible in every reachable state until the user's process has returned; the master's failed dials do not matter |
| Returning.LostNeverReturns | src/gproc/slave.go:222-242 | If a request that is waited for is lost, no run at all ends with the user's process having returned |
| Returning.MaximalRunsComplete | src/gproc/mexec.go:129-137 | If none is lost and no slave is held, a run that cannot go on has ended with the user's process returned and every slave that it waited for done |
| Returning.ReturnsIffNoneLost | src/gproc/mexec.go:129-137 | Where no slave is held, every maximal run ends with the user's process returned if and only if no request that it waits for is lost |
| Returning.MayReturnIffNoneLost | src/gproc/mexec.go:129-137 | Some run does, if and only if no request that it waits for is lost |
| CompletionRuns.WaitsForEver | src/gproc/slave.go:222-242 | A run in which a slave waits for a worker that could not be dialed, and nothing can happen any more |
| CompletionRuns.HeldForEver | src/gproc/slave.go:123-134 | A maximal run in which no request is lost, and the user's process does not return, because a slave that is named twice is held by the first request |
| Ldd.ClosedHasNeeded | src/ldd/ldd.go:35-78 | Names closed under imports contain everything needed, at any distance |
| Ldd.EdgesWithin | src/ldd/ldd.go:22 | Distinct names have no more dependency edges than a set that contains them |
| Ldd.FindExact | src/ldd/ldd.go:46-62 | An absolute name stands for the file under the root, any other for the file of that name in the first library directory where one opens |
| Ldd.Locate | src/ldd/ldd.go:46-62 | The search as written finds it: a directory's file if and only if that opens and no earlier directory's does, and nothing if and only if none opens |
| Ldd.NeededExactly | src/ldd/ldd.go:64-70 | What is needed besides the command is what the files of needed names import |
| Ldd.Send | src/ldd/ldd.go:68-70 | All names go down the channel if and only if they fit it |
| Ldd.FollowLinks | src/ldd/ldd.go:92-106 | The loop gathers exactly the chain of links, each read at the path that the one before leads to in the directory of the library, and makes every name on it known |
| Ldd.OpenNext | src/ldd/ldd.go:64-106 | Opening a name, queueing its imports and following its links keeps the invariant: whatever an opened name imports is known or queued |
| Ldd.BlocksOnlyIf | src/ldd/ldd.go:22-70 | A send can only block if the needed names have more than 256 dependency edges |
| Ldd.NothingLeft | src/ldd/ldd.go:35-109 | With the queue empty, the list is complete |
| Ldd.NeededListed | src/ldd/ldd.go:11-16 | If links are faithful, a complete list has every needed name, by the path it was found under or as the name of a link |
| Ldd.EntriesLayout | src/ldd/ldd.go:83-106 | The list has a section for each name that was opened, its path and then its links, and nothing else |
| Ldd.Lddroot | src/ldd/ldd.go:16-110 | The search ends. On success the list has the paths and links of distinct needed names, each opened once, in the order in which they were mentioned first, and, if links are faithful, every needed name was opened or met as a link; on failure something needed is missing or broken; it blocks only beyond 256 dependency edges |
| Pack.WalkPathReads | src/gproc/mexec.go:274-291 | The path walked for a link is its target if that is absolute, and otherwise its target in the link's own directory, cleaned as a whole, however it was split and joined |
| Paths.CleanDown | src/gproc/mexec.go:274-291 | One more plain segment is added to a cleaned path |
| Paths.CleanSame | src/gproc/mexec.go:274-291 | Empty segments and single dots change nothing, and two dots take a plain segment back |
| Paths.CleanUp | src/gproc/mexec.go:274-291 | Two dots with nothing to take back are dropped at the root and kept elsewhere |
| Pack.CmdTold | src/gproc/mexec.go:196-267 | What is listed for a path: its trimmed name, its kind, and for a link the text of the link |
| Pack.WalkAll | src/gproc/mexec.go:154-171 | A walk ends, on directories not yet visited and the rank of links; it only adds to the list and to the marks |
| Pack.PackVisitor.VisitDir | src/gproc/mexec.go:173-216 | A new directory is listed, marked, and entered unless it ends in "/."; a marked one is left alone; each command listed tells name, kind and link text of its path |
| Pack.PackVisitor.VisitFile | src/gproc/mexec.go:222-272 | A file is listed, with the text of the link if it is one, its size added, a link's target walked, and only then is the name marked; the list and the byte count stay in step |
| Pack.PackVisitor.WalkFrom | src/gproc/mexec.go:154-171 | The walk as written is the function that the theorems are about |
| PackLaws.NonLinksOnce | src/gproc/mexec.go:177-271 | A name is never listed again once it was listed as anything but a link, links back to themselves included |
| PackLaws.EachOnce | src/gproc/mexec.go:222-272 | From any point of a walk, with any links in progress, nothing is listed twice if no link leads back to its own name |
| PackLaws.WalkCloses | src/gproc/mexec.go:154-272 | What a newly listed directory or link leads to, and exists, is listed too |
| PackLaws.PackOrder | src/gproc/mexec.go:154-272 | A directory is listed before what it holds, and a link before what it leads to |
| PackLaws.ListsExactlyReachable | src/gproc/mexec.go:154-272 | A name is listed if and only if something of that name exists and can be reached from a start through entries of directories that do not end in "/." and through links |
| PackLaws.PackListsOnce | src/gproc/mexec.go:173-272 | Directories and regular files are listed once in any case, everything is if no link leads back to its own name |
| PackLaws.WalkMarks | src/gproc/mexec.go:173-272 | From any point of a walk: what is newly marked was newly listed, and what was newly listed is marked, with all it leads to |
| PackLaws.CycleListedTwice | src/gproc/mexec.go:257-271 | A walk that starts at a link leading back to its own name lists that name twice |
| PackLaws.ListsOnceIffAcyclic | src/gproc/mexec.go:173-272 | Every pack lists everything once if and only if no link leads back to its own name |
| PackLaws.TotalIsSizes | src/gproc/mexec.go:259-261 | The byte count is the sum of the sizes of the listed regular files, each as often as it is listed |
| PackLaws.LinkListedTwice | src/gproc/mexec.go:257-271 | Starting at a link into the directory that holds it, the walk lists the link twice |
| Text.SplitJoin | src/forth/forth.go:139 | Splitting undoes joining parts that lack the separator |
| Text.JoinSplit | src/forth/forth.go:139 | And joining undoes splitting, for every text |
| Text.CutIsSplit | src/gproc/common.go:435 | Cutting at the first separator splits off the first part |
| Text.AtoiItoa | src/forth/forth.go:167-180 | Decimal printing and parsing are inverse on the machine's integers |
| Text.AtoiReads | src/forth/forth.go:167-173 | A number may have a sign and leading zeros; one that does not fit is clamped and reported |
| Text.AtoiSyntax | src/forth/forth.go:167-173 | Nothing else is read as a number |
| Text.DigitAt | src/forth/forth.go:175-180 | Each digit counts its power of ten, and there is no leading zero |
| Text.ItoaInjective | src/utils/startkane.go:44 | Different numbers print differently |
| ForthLaws.ApplyUnder | src/forth/forth.go:175-258 | Every operator leaves alone what lies below its arguments |
| ForthLaws.ExecUnder | src/forth/forth.go:138-152 | A program that does not run out of stack has the same outcome on any deeper stack, whose lower part it leaves untouched |
| ForthLaws.EvalUnder | src/forth/forth.go:159-165 | An expression that evaluates on a fresh interpreter evaluates to the same value on a used one |
| ForthLaws.ThreeEvals | src/gproc/main.go:69-81 | The three evaluations on one interpreter give what three fresh ones would |
| ForthLaws.LeftoversFeedTheNext | src/gproc/main.go:69-81 | Without the proviso that each succeeds on its own it is false: leftovers of one evaluation feed the next |
| ForthLaws.MoreRoom | src/forth/forth.go:260-267 | More room for nesting words changes no outcome that was reached with less |
| ForthLaws.WordMeansDefinition | src/forth/forth.go:260-267 | Replacing a word by its definition anywhere in a program preserves every outcome, failures included |
| ForthLaws.FullExpansion | src/forth/forth.go:260-267 | In an acyclic dictionary full expansion ends with no word left and with the outcome of the original |
| ForthOperators.Swaps | src/forth/forth.go:217-222 | swap exchanges the two top elements, on any stack, and stops on fewer |
| ForthOperators.Dups | src/forth/forth.go:230-234 | dup repeats the top element |
| ForthOperators.Joins | src/forth/forth.go:224-228 | strcat puts the top element behind the next |
| ForthOperators.Chooses | src/forth/forth.go:236-245 | ifelse keeps the next element if the top is not zero, and the one below that if it is |
| ForthOperators.Computes | src/forth/forth.go:175-208 | The arithmetic operators take their left argument from below their right one; dividing by zero crashes |
| ForthOperators.QuotExact | src/forth/forth.go:196-208 | Division truncates: the remainder is smaller than the divisor and has the sign of the dividend |
| ForthOperators.RoundupExact | src/forth/forth.go:210-215 | roundup gives the least multiple that is not smaller, as long as the sum does not wrap around |
| ForthOperators.Pushes | src/forth/forth.go:138-152 | Whatever is no operator is pushed, and empty tokens do nothing |
| ForthOperators.Strips | src/forth/forth.go:255-258 | hostbase drops the lower-case letters, blanks and dashes that a name starts with, and nothing else |
| ForthOperators.IntroMeans | src/forth/forth.go:13-18 | The expression in the package's introduction yields, for a host whose name ends in a number, the number divided by 20 if that leaves no remainder, and the remainder otherwise |
| ForthMachine.Machine.Binary | src/forth/forth.go:175-215 | The two-argument operators on the stack in place, in the order in which they pop |
| ForthMachine.Machine.Choose | src/forth/forth.go:236-245 | ifelse on the stack in place |
| ForthMachine.Machine.SwapTop | src/forth/forth.go:217-222 | swap on the stack in place: the two top elements change places |
| ForthMachine.Machine.Duplicate | src/forth/forth.go:230-234 | dup on the stack in place |
| ForthMachine.Machine.IEval | src/forth/forth.go:138-152 | The loop over tokens is the function that the laws are about |
| ForthMachine.Machine.Eval | src/forth/forth.go:159-165 | So is Eval |
| ForthMachine.Machine.NewWord | src/forth/forth.go:38-267 | Defining a word changes its entry of the package's table and no other |
| ForthMachine.DefineAndRun | src/forth/forth.go:38-267 | A word defined through one interpreter runs on another |
| ForthCompile.CompileCorrect | src/forth/forth.go:138-258 | Running a compiled expression pushes exactly its meaning on an untouched stack, and fails exactly when the expression does, for the same reason |
| ForthCompile.EvalShown | src/forth/forth.go:159-165 | Evaluating the printed expression returns its meaning and leaves the stack as it was |
| ForthCompile.MachineIsExact | src/forth/forth.go:175-215 | Within range and without division by zero the machine computes what ordinary arithmetic does |
| StartKane.ParentMeans | src/utils/startkane.go:47 | What the parent expression yields on node n, wrap-around included |
| StartKane.RoundingIsRight | src/forth/forth.go:210-215 | Rounding up on the machine gives the least multiple of 20 not below n if and only if the sum does not wrap around |
| StartKane.ParentIsRight | src/utils/startkane.go:47 | Evaluated on node n, the expression names the root for a multiple of 20 and the chief of the block otherwise, if and only if the numbers fit the machine |
| StartKane.RunLevel | src/utils/startkane.go:34-67 | One pass starts the nodes of its level in order and reaps as many |
| StartKane.EachNodeOnce | src/utils/startkane.go:34-75 | The two passes start each node of the range exactly once |
| StartKane.LevelSorted | src/utils/startkane.go:34-67 | The nodes of a level are started in ascending order |
| StartKane.DepthTwo | src/utils/startkane.go:34-75 | Every node of the second level has its parent on the first if and only if the highest number is a multiple of 20 |

## Left out

* Sockets, dialing, gob and json bytes, process spawning, private mounts, ioctl and credentials: message
  lists, a flag for whether a dial succeeds, and completion steps stand for them.
* Go's reflect and the type mutex: an abstract type graph, and calls under the mutex as single steps. The
  tables of different target types do not share anything, so one target is modelled.
* typeInfo as heap objects: an index into an append-only list stands for the pointer.
* Values with cycles: the source recurses for ever on them, and the model has trees.
- HiddenFields.CompletesIffHiddenFree: assumes that no struct contains itself by value, because the language demands it.
- DoExact.CallsRightIffTrapFree: assumes the same, as do KnotPanics and CallsTotalIff.
* A nil *File as the argument of f in `Encode`, and errors of the inner encoder and decoder other than an
  exhausted stream or a message of the wrong kind.
* Owner, group and permission bits of files; a failing chown, which the source ignores.
* Destinations that are or lead through a link, "." or "..", and doubled slashes: paths are compared as text, and
  a regular file is refused where a link is.
* An empty target of a link: the source indexes out of range and crashes, the model refuses the value.
- FileMarshal.DecodeEncode: assumes that every placement succeeds, which Disk.AllInPlace and Relay.HopCompatible establish, because a failed open ends decoding early.
- MarshalLaws.LackingInSync: assumes that files known to both sides are of the same kind, because otherwise chunks are taken for the wrong reason.
- Relay.EveryNodeServed: assumes fresh roots, rooted destinations, non-empty link targets, and that only directories lie on the way to other destinations, as in any walk of a directory tree.
* The inside of os.File, in the type of requests.
- Originator.PackedRequestServed: assumes that the walk sees a directory tree with rooted names and non-empty link targets, as EveryNodeServed does.
* Which nodes a request is relayed to is in Delegation; Relay sends it to every node of its tree.
- Delegation.CommandRuns: assumes that ids and addresses cannot be mistaken for one another, as the comment above Get does, because a name that is both would select a slave twice.
* Loops over ranges that end at the largest machine integer, which would not end in the source.
* The registration handshake and unlocked access to the registry: each operation is a single step.
- Returning.ReturnsIffNoneLost: assumes that no request that is waited for shares its slave with one at or below a program that cannot be started or a bad range, because such a request can hold the slave for ever, as HeldForEver shows.
- Returning.MayReturnIffNoneLost: assumes that a request that meets a bad range is the only one for its slave, because the slave is held from then on.
- CommandTree.CommandReturnsIff: assumes the same of slaves that are handed a bad range, and that processes that are reached dial back and start their programs; RequestsTree is for any fates.
* Standard output of the user's process going away, and listening or receiving failing in a slave.
* The data that the I/O proxies copy, beyond whether it can be passed on, and standard input.
* ELF parsing and the file system under the library search: functions from paths to imports and link targets.
- Ldd.Lddroot: assumes a finite set of names closed under imports and that every chain of links ends, because otherwise the source does not return; that all needed names are known also assumes that a link imports whatever its target does.
- Pack.WalkAll: assumes that no chain of links loops, because otherwise the source does not return.
- PackLaws.ListsExactlyReachable: assumes that paths trimmed to the same name are alike, as do CycleListedTwice and ListsOnceIffAcyclic, because the visitor lists and marks trimmed names and walks untrimmed ones.
* Directories that cannot be read, and the 64-bit width of the byte count.
* The exception list applied to libraries before packing, the web pages, templates, logging, flags and
  the other start programs (start.go, startkf.go, startstrongbox.go).
* Unbounded recursion through words that call themselves is an outcome of its own, reached when the room
  given for nesting is used up; the source would exhaust its memory.
