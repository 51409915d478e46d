# A verified model of the Go indexer's index and parsing stage

The indexer walks Go packages, records symbols, the places where they are declared and the
references between them, and sends out a project in which every object (a file or a directory)
carries a numbered containment tree. A consumer sees only the numbers: instance Y is inside
instance X exactly when `X.enter < Y.enter < X.exit`. This project models the parts that have to
be right for those numbers to mean anything, and proves that they are.

## What is modelled

**Containment numbering** (`pkg/index/numbering.go`). `Containment` has the range-and-kind
predicate, the outermost-first order and, as the reference definition, the quadratic scan for the
last container. `Sweep`, `Walk`, `References` and `Numbering` are the code's own algorithms as
methods over arrays and instance objects: the stack sweep, the merge of stated parents, the child
lists, the explicit-stack walk in strides of 1024, the fallback when the merge is cyclic, and the
interleaved sweep that places references. `Forest` says with rules between neighbours only what a
numbering of a forest is, and derives everything else, its uniqueness included. `DerivedTree`,
`Stated`, `Chain`, `Counting` and `Guarantees` state what the numbers mean. `sort.SliceStable` is
a function with the contract of a stable sort (`StableOrder`), which determines its result.

**The index** (`pkg/index/proto_index.go`). `Store` is the project as a value and every producer
call as a function on it; `ProtoIndex` is the class, whose methods update its fields and objects in
place and are proved against those functions. `StoreInvariant` is what every reachable project
keeps; `Runs` proves it of every call in any order, with maps ranged over in any order, and the
class carries it in `Valid()`. On top of that stand `Directories`, `Wholes`, `Finalised` and
`LongFiles` (exactly which files get the module, directory, file chain), `Effects`, `Resolution` and
`Duplicates` (when a reference is there twice), `Repeats`, `Determined` (finalising twice) and
`Owners` (two ways of attributing a reference). `Reachable` makes any ranges and stated parents with
a run of calls, and `Witnesses` has the runs that go against what the original says. `Fields` and
`Creations` say of each call, with every condition and value written out, what it leaves in every
field and what it leaves alone; `Growth` and `Histories` follow calls through the rest of a run.

**The parsing stage** (`pkg/parser/parsing_stage.go`, `parser.go`). `Stage` is a state machine in
which the caller, blocked sender goroutines, the dispatching loop and the workers take one atomic
step at a time, in any interleaving, with a failure possible at any point of any item. `Schedules`
has the results over whole runs.

**Function literals** (`pkg/parser/file_parser.go`). `Syntax` is an abstract syntax tree that keeps
byte ranges and the nodes that matter for instances, with the calls to AddSymbol that a file
makes; the class in `FileParser` is the walks themselves with their table of named literals.
`OnePass` is the reference definition: one walk that knows where it stands, which the passes of the
parser amount to. `LiteralCount` and `LiteralTree` have the results on literals, the latter about
the tree that the numbering above builds. `FileRun` joins the parts: whatever else is called before, between and after a file's
calls, the tables of the index stay in step with them (`Ledger`, `FileSteps`), and the numbers of
the file's object put each literal where `LiteralTree` says.

## What does not hold as stated in the repository

- A comment in the numbering (pkg/index/numbering.go:218-223) says that a cycle cannot be stated,
  because a stated parent is always an earlier instance. Derived parents can be later instances,
  so it can: `Stated.CycleCanBeStated`, and on a run of accepted calls `Witnesses.CycleRun`.
  `Stated.MergedIsForestIffHopsEnd` says exactly when stated parents are all honoured,
  `Stated.OneStatedIsHonoured` the same for a single one in terms of ranges, and
  `Stated.CyclesFallBack` what happens otherwise.
- A check in the index's own tests (pkg/index/numbering_test.go:227-250) expects a strictly wider
  range to enclose in numbers too. Two co-extensive siblings show otherwise (`Witnesses.SiblingsRun`),
  and so does a well-nested file with a parent stated elsewhere (`Witnesses.ElsewhereRun`).
  `Guarantees.IntervalsAreWaysUp` is the exact condition, whatever was stated: going up by range from
  container to container, each containing every closer one, as far as an instance with a stated
  parent, and from that parent on in the same way. Well-nested ranges with nothing stated meet it
  (`Guarantees.LaminarIntervalsAreRanges`).
- A length is narrowed to 32 bits unchecked (pkg/index/proto_index.go:609, 230 and 387).
  `LongFiles.LengthFitsIffChained`: the lengths for which every file of declarations that was added
  in time ends up under module, directory and file are those up to 2^31 - 1 and those that wrap
  around to it. `LongFiles.ChainedIffWithin` is the exact condition for a single file, whatever was
  stated: its declarations end within it, or stated parents without a cycle bring in all that do not.
- The finalisers create each symbol once, so a file added later gets no instance of its module or
  its directory (`Witnesses.LateRun`). `Finalised.ContainersComeInTime` is the exact condition for
  each of the two, and `Finalised.MarshalledFilesAreChained` the one for the chain.
- A resolution forgets what the last one added, and one that fails keeps its log: references can be
  there twice, as `Duplicates.AskedTwice`, `Duplicates.RepeatedAfterFailure` and
  `Duplicates.FailedTwice` show on whole runs. `Resolution.ResolvedAgain` is the exact condition for
  that not to happen, for resolutions that fail and for those that do not.
- A literal in the array length of a local type is named after the function around it and lies
  inside the type: `LiteralTree.LocalTypeComesBetween`. `LiteralTree.LiteralIsInNamesake` and
  `FileRun.LiteralIsUnderNamesake` say exactly when that happens: when the call states no owner and
  the closest instance around the literal is a type or an interface method.

## Model

| member | source | states |
|---|---|---|
| StableOrder.StableOrderIsUnique | pkg/index/numbering.go:159-168 | a strict weak order has only one stable order, so any stable sort gives the same positions |
| StableOrder.InsertKeepsOrder | pkg/index/numbering.go:159-168 | inserting the next position after its equals keeps a permutation sorted and stable |
| StableOrder.SliceStable | pkg/index/numbering.go:159-168 | the result is a permutation, sorted, with equal elements in their original order |
| Containment.ContainsLaws | pkg/index/numbering.go:121-129 | containment is irreflexive and transitive and implies the earlier place in the sort order, inverted ranges included |
| Containment.BetweenContains | pkg/index/numbering.go:186-198 | what stands between a container and its content without being contained contains that content itself |
| Containment.OrderOf | pkg/index/numbering.go:155-168 | the stable outermost-first order of any extents |
| Containment.DerivedIsInnermost | pkg/index/numbering.go:170-198 | the derived parent contains the instance, no container stands later in the order, and -1 means none exists |
| Sweep.MakeRoom | pkg/index/numbering.go:186-198 | popping leaves on top exactly the last container that the quadratic scan finds |
| Sweep.DeriveParents | pkg/index/numbering.go:181-198 | the one-pass sweep equals the quadratic scan, with nothing assumed of the ranges |
| DerivedTree.DerivedIsForest | pkg/index/numbering.go:217-222 | range derivation is acyclic whatever the ranges |
| DerivedTree.DerivedAncestorIsRun | pkg/index/numbering.go:170-198 | the derived subtree of an instance is exactly the run of instances after it that it contains |
| DerivedTree.DerivedAncestorContains | pkg/index/numbering.go:170-198 | every derived ancestor contains the instance |
| DerivedTree.DerivedAncestorIffContainersNest | pkg/index/numbering.go:170-198 | in the tree of ranges alone a container is an ancestor if and only if it contains every closer container too |
| DerivedTree.ContainerNeedNotBeAncestor | pkg/index/numbering_test.go:227-250 | two co-extensive siblings: a strict container that is no ancestor |
| DerivedTree.LaminarAncestorIsContainer | pkg/index/numbering.go:170-198 | for well-nested ranges ancestry is containment |
| DerivedTree.LaminarOwnerAncestry | pkg/index/numbering.go:304-317 | for well-nested ranges a reference's owner and its ancestors are all instances that cover it |
| Stated.MergedIsForestIffHopsEnd | pkg/index/numbering.go:200-232 | stated parents are all honoured if and only if going from child to stated parent and up by range never comes around |
| Stated.SeparateStatedAreHonoured | pkg/index/numbering.go:200-232 | no stated parent in the derived subtree of a stated child is enough |
| Stated.EarlierStatedAreHonoured | pkg/index/numbering.go:200-232 | stated parents that stand before their children in the sort order are enough |
| Stated.OneStatedIsHonoured | pkg/index/numbering.go:200-232 | one stated parent is honoured if and only if it is not in the run of instances its child contains |
| Stated.CycleCanBeStated | pkg/index/numbering.go:217-223 | an earlier instance stated as parent that closes a cycle |
| Stated.CyclesFallBack | pkg/index/numbering.go:217-232 | a cyclic merge gives the tree of an object for which nothing was stated |
| Stated.MergedAncestorIsOnWayUp | pkg/index/numbering.go:200-232 | the ancestors in the merged tree are what the way up meets: by range to the first stated child, from its stated parent on likewise |
| Numbering.MergeStated | pkg/index/numbering.go:206-212 | stated parents in range replace derived ones, in whatever order the map is ranged over |
| Walk.ChildLists | pkg/index/numbering.go:241-254 | each list holds exactly the children of its node, in the sort order, and the roots those of none |
| Walk.NumberForest | pkg/index/numbering.go:259-302 | all instances are reached if and only if the parents form a forest, and then the fields are its numbering |
| WalkProof.EnterStep | pkg/index/numbering.go:274-293 | entering the next child keeps numbers, rules, sibling order and stack |
| WalkProof.ExitStep | pkg/index/numbering.go:294-298 | leaving a node does |
| WalkProof.EndOfRun | pkg/index/numbering.go:259-302 | what a walk that has come to its end leaves, forest or not |
| Forest.IntervalIsAncestry | pkg/index/numbering.go:33-43 | intervals enclose each other exactly along ancestry, and unrelated intervals are disjoint |
| Forest.DirectChildren | proto/index.proto:73-109 | inside and one level deeper selects exactly the children |
| Forest.NumberingIsUnique | pkg/index/numbering.go:45-48 | the rules between neighbours leave one numbering only |
| Counting.NumbersAreExactlyTheStrides | pkg/index/numbering.go:19 | the 2n numbers are 1024, 2048, ..., 2n times 1024, each used once |
| Counting.IntervalWidth | pkg/index/numbering.go:10-19 | an interval is 1024 wide for each enter and exit in its subtree but one, and never less than 1024 |
| Counting.LevelsCountAncestors | pkg/index/numbering.go:21-31 | the level counts the proper ancestors, the fold depth the folded ones |
| Counting.PointIsInsideOwner | pkg/index/numbering.go:304-306 | a point one step inside an instance is inside that instance, its ancestors and nothing else |
| References.LastCoveringIsOpen | pkg/index/numbering.go:314-317 | the innermost instance covering a reference is still on the stack when the reference is placed |
| References.FindOwner | pkg/index/numbering.go:355-363 | searching the stack from the top finds the last instance in sort order that covers the reference |
| References.PlaceBefore | pkg/index/numbering.go:345-375 | draining places all references that start before the next instance, each inside its owner |
| References.NumberRefs | pkg/index/numbering.go:318-396 | every reference ends one step inside the innermost instance covering it, or the first root |
| Numbering.NumberWithFallback | pkg/index/numbering.go:214-239 | the numbering of the merged parents, or of the derived ones when the merge is cyclic |
| Numbering.NumberObjectTree | pkg/index/numbering.go:131-239 | the fields of all instances and references are the numbers that ranges, kinds, folded flags and stated parents determine: the multiples of 1024 up to 2048n, intervals at least 1024 wide |
| Numbering.NumbersAreDetermined | pkg/index/numbering.go:45-48 | two numberings of the same object are equal, references included |
| Guarantees.IntervalsAreTheTree | pkg/index/numbering.go:33-43 | interval containment is ancestry in the tree finally chosen, whatever was stated |
| Guarantees.IntervalsAreWaysUp | pkg/index/numbering_test.go:227-250 | one interval encloses another if and only if its instance is on the other's way up, in terms of ranges and stated parents alone, cycles included |
| Guarantees.LevelsCountIntervals | proto/index.proto:73-109 | level and fold depth counted from the intervals alone |
| Guarantees.ReferenceIsHeldByOwner | pkg/index/numbering.go:304-317 | a reference is 1 past its owner's enter, one level deeper, and the intervals around it are those of its owner and the owner's ancestors, whatever was stated |
| Guarantees.LaminarIntervalsAreRanges | pkg/index/numbering.go:112-129 | for well-nested ranges and nothing stated, intervals enclose exactly as ranges contain |
| Guarantees.LaminarReferenceIsHeldByCovers | pkg/index/numbering.go:304-317 | and a non-empty reference is inside exactly the instances covering it if and only if some instance does cover it |
| Chain.ContainersAreOutermost | pkg/index/numbering.go:72-98 | with module, directory and file over the whole object there is one root and all else is under the file |
| Chain.ContainersInNumbers | pkg/index/numbering.go:72-98 | the same in levels and intervals |
| Chain.ChainedIffInNumbers | pkg/index/numbering.go:72-98 | the numbers show the chain of three with all the rest inside if and only if the tree has it |
| Store.ToInt32 | pkg/index/proto_index.go:609-616 | the signed 32-bit value congruent to the argument modulo 2^32, and the argument itself when it fits |
| Store.FirstFailure | pkg/index/proto_index.go:977-986 | the first log entry whose target is neither known nor cgo's |
| Store.ResolveOutcome | pkg/index/proto_index.go:977-986 | a resolution succeeds if and only if no entry is such; otherwise it ends in an error, or in a nil dereference when the referring file is unknown too |
| StoreInvariant.RanksKnown | pkg/index/numbering.go:50-58 | every symbol of the project is ranked by its own kind, directories included |
| StoreInvariant.RanksInNumbers | pkg/index/numbering.go:142-149 | modules rank 0, directories 1, files 2 and everything else 3, unknown symbols included |
| StoreInvariant.InstancesAreDistinct | pkg/index/proto_index.go:707-718 | no two declared instances share symbol, file and extent, and no two a slot |
| StoreSteps.AddModuleKeeps | pkg/index/proto_index.go:508-529 | adding a module keeps ids, slots and caches in agreement |
| StoreSteps.AddFileKeeps | pkg/index/proto_index.go:548-639 | adding a file does |
| StoreSteps.AddSymbolKeeps | pkg/index/proto_index.go:641-763 | adding a symbol does, clamping, dropped spans and stated parents included |
| StoreSteps.DeclaredKeepsLookup | pkg/index/proto_index.go:748-760 | the lookup cache stays equal to the scan of the per-file lists, oldest first |
| StoreSteps.ProtoSpanInside | pkg/index/proto_index.go:805-832 | a span that is kept lies inside its extent |
| Finalise.ResolveReferencesKeeps | pkg/index/proto_index.go:972-1024 | resolving references keeps the invariant, complete or stopped |
| Finalise.CreateModuleSymbolsKeeps | pkg/index/proto_index.go:198-291 | creating module symbols does, in any order of the modules |
| Finalise.CreateDirectorySymbolsKeeps | pkg/index/proto_index.go:300-416 | creating directory symbols does, in any order of the three maps |
| Runs.StepKeeps | pkg/index/proto_index.go:76-120 | each producer call keeps the invariant and the shape of every file's object |
| Runs.EveryRunIsSound | pkg/index/proto_index.go:76-120 | so does every run of calls in any order |
| Repeats.AddModuleAgain | pkg/index/proto_index.go:508-529 | a module added again is the same module |
| Repeats.AddFileAgain | pkg/index/proto_index.go:561-568 | the same contents for a path give the same file and other contents are refused |
| Repeats.AddSymbolAgain | pkg/index/proto_index.go:707-718 | the same symbol and extent again gives the same instance and changes nothing, whatever else the call says |
| Effects.SymbolAsAsked | pkg/index/proto_index.go:665-689 | the call's symbol has its name and scope, is of its kind when new, and is what references to the file and name find |
| Fields.AcceptedExactly | pkg/index/proto_index.go:641-663 | a call is accepted if and only if module and file are known, the kind is set and both offsets are between 0 and 2^31 - 1 |
| Fields.NamesAsAsked | pkg/index/proto_index.go:665-763 | a call changes the one entry of its file and name, the one of its name and scope, and lists its instance once under its file and under its own name, scope and kind; all other entries stay |
| Fields.ModuleAsAsked | pkg/index/proto_index.go:508-529 | a new name gets a fresh id and a module of that name without symbol or files; nothing else changes |
| Fields.FileAsAsked | pkg/index/proto_index.go:548-639 | a new path gets a FILE symbol of that name and an object with the contents and one unfolded instance over all of it, and joins its module; when it is refused, and what stays, exactly |
| Fields.ReferenceAsLogged | pkg/index/proto_index.go:942-970 | a reference is logged whole, or refused for want of a target line or of any start |
| Fields.ReferencesAsAsked | pkg/index/proto_index.go:972-1024 | a resolution adds to a file one reference for each place and found target that the log asks for before the first missing target, with the construct around it kept exactly when it fits and encloses, and nothing else; and how it ends |
| Histories.DeclaredIsFound | pkg/index/proto_index.go:686-689 | once declared in a file, a name is found there in every later project of the run, as a symbol of that name |
| Histories.ListsAreHistory | pkg/index/proto_index.go:738-763 | the instances listed for a file or a key are those that calls so far declared there, each with the call's kind, extent and id, and no others |
| Histories.ReferenceArrives | pkg/index/proto_index.go:942-1024 | declared in one file and used from any known file, a name's reference is in that file after a resolution that goes through, for the rest of the run |
| Histories.ImportArrives | pkg/index/proto_index.go:246-291 | an import from a known file is, once module symbols are created, a reference to the symbol of the module it names, for the rest of the run |
| Growth.NothingIsFolded | pkg/index/numbering.go:21-31 | no instance in any project of any run is folded |
| Growth.FoldDepthsAreZero | pkg/index/numbering.go:21-31 | so all fold depths are 0, of instances and of references |
| Effects.InstanceAsAsked | pkg/index/proto_index.go:690-763 | one instance more, cut off at the file's end, with exactly the spans that lie inside it and its parent stated exactly when that is declared in the same file; or the one that is there |
| Effects.ModulesAsAsked | pkg/index/proto_index.go:198-242 | each file whose module still needs a symbol gets one whole-file instance of a symbol with its own module's name, and no other file changes |
| Effects.ImportsAsAsked | pkg/index/proto_index.go:246-291 | a file gets one reference for each distinct module symbol and place it imports it at |
| Creations.ModuleSymbolsAsAsked | pkg/index/proto_index.go:198-242 | the new symbols are those of the modules that had none, under their names, and the tables, logs and files stay |
| Creations.ImportsByName | pkg/index/proto_index.go:246-291 | an import from a known file leads to the MODULE symbol of the name it gives, if and only if there is a module of that name; each place and module once |
| Creations.SentinelsHoldEdges | pkg/index/proto_index.go:396-415 | the references on sentinels are empty ranges naming directories, and no others |
| Creations.DirectoriesTouch | pkg/index/proto_index.go:300-416 | creating directories leaves tables, logs, modules and all objects but files alone |
| Paths.ParentIsCloser | pkg/index/proto_index.go:418-430 | going up from any string ends at the root |
| Paths.ParentOfEntry | pkg/index/proto_index.go:418-430 | on clean absolute paths the parent is the path without its last element |
| Paths.SlashAtEnd | pkg/index/proto_index.go:418-430 | slashes at the end of a path make no difference to its parent |
| Paths.CollectDirs | pkg/index/proto_index.go:311-322 | the loops collect each file's directory and all above it |
| Paths.DirsAreLeast | pkg/index/proto_index.go:311-322 | that is the smallest set closed upwards with every file's own directory |
| Paths.DirsAre | pkg/index/proto_index.go:311-322 | for clean paths it is the root and every non-empty beginning of a path that is followed by a slash |
| Directories.DirectoriesAreCreated | pkg/index/proto_index.go:333-374 | one symbol and one empty object with one instance for each directory |
| Directories.DirectoryOnFile | pkg/index/proto_index.go:376-394 | each file gets one unfolded whole-file instance of the symbol of its own directory and nothing else changes in it |
| Directories.DirectoriesFormATree | pkg/index/proto_index.go:396-415 | each directory is referred to once by the sentinel of the one above, and by no other |
| Directories.DirectoriesHangFromRoot | pkg/index/proto_index.go:396-415 | going up from any directory ends, and only at the root directory |
| Finalised.FittingLengthCovers | pkg/index/proto_index.go:608-616 | the narrowed length bounds every declarable extent if and only if the length fits |
| Wholes.StepIsExact | pkg/index/proto_index.go:198-242 | each call gives a file its module's instance exactly when it creates the symbol of that module, its directory's exactly when it creates those of directories, and takes neither away |
| Finalised.ContainersComeInTime | pkg/index/proto_index.go:198-242 | after any run and a Marshal a file has its module's instance if and only if the module had no symbol when the file was added, its directory's if and only if directories had none |
| Declarations.RunDeclaresOnly | pkg/index/proto_index.go:657-689 | a run whose calls ask for no FILE, MODULE or DIRECTORY symbol has declared none |
| Finalised.CoveredFileHasContainers | pkg/index/proto_index.go:690-736 | a file with both instances has the three containers around all declarations that end within them, and stated parents only among declarations |
| Finalised.ChainedIffContainers | pkg/index/numbering.go:72-98 | a file whose length fits is the chain if and only if it has both instances, whatever parents were stated |
| Finalised.MarshalledFilesAreChained | pkg/index/proto_index.go:173-182 | after any run of declarations and a Marshal, module, directory and file have levels 0, 1 and 2 and every declaration is strictly inside the file, if and only if the file was added in time |
| LongFiles.ChainedIffWithin | pkg/index/proto_index.go:608-616 | a file with both instances is the chain if and only if nothing in it ends beyond its narrowed length, or the stated parents close no cycle and every declaration that nothing contains has one |
| LongFiles.LengthFitsIffChained | pkg/index/proto_index.go:608-616 | a length fits if and only if every file of that length, added in time in any run of declarations, ends up as the chain |
| Determined.SecondMarshalChangesNothing | pkg/index/proto_index.go:173-193 | a second Marshal or Upload leaves the project as it is, in any order of the maps |
| Determined.SecondMarshalNumbersTheSame | pkg/index/proto_index.go:173-193 | and gives every instance and reference the same numbers |
| Resolution.LogAddsFirsts | pkg/index/proto_index.go:976-1019 | the entries so far add to a file the first entry of each token, in order |
| Resolution.ResolvedFromScratch | pkg/index/proto_index.go:972-1024 | a resolution leaves one reference for each distinct target and token of the file's usable entries up to the first failure, in order of first occurrence, full spans enclosing their tokens |
| Resolution.ResolvedAgain | pkg/index/proto_index.go:972-1024 | after any resolution, failing or not, tokens are distinct if and only if they were before and no usable entry up to the first failure names one that was there |
| Duplicates.AskedTwice | pkg/index/proto_index.go:972-1024 | a run that resolves the same reference twice and ends with it in the file twice |
| Duplicates.RepeatedAfterFailure | pkg/index/proto_index.go:977-986 | a run whose first resolution fails and whose second repeats what the first had added |
| Duplicates.FailedTwice | pkg/index/proto_index.go:977-986 | a run whose resolutions both fail and both add the same reference |
| Reachable.EveryObjectCanBeMade | pkg/index/proto_index.go:641-763 | for any ranges in a file and any earlier ones stated as parents there is a run that makes them and ends in a Marshal, with exactly these extents and stated parents |
| Witnesses.CycleRun | pkg/index/numbering.go:217-223 | a run in which an accepted stated parent closes a cycle and does not enclose its child |
| Witnesses.SiblingsRun | pkg/index/numbering_test.go:227-250 | a run after which a strictly wider range does not enclose, with nothing stated |
| Witnesses.ElsewhereRun | pkg/index/numbering_test.go:227-250 | a run with well-nested ranges after which the closest container does not enclose, its content having been given another parent |
| Witnesses.LateRun | pkg/index/proto_index.go:198-242 | a run in which a file added after a Marshal ends with neither instance and is no chain |
| Owners.SmallestCovering | pkg/index/proto_index.go:1063-1077 | the scan finds the first of the narrowest declared extents around a reference |
| Owners.SmallestIsOwner | pkg/index/proto_index.go:1063-1077 | for well-nested extents that is the instance owning the reference in the numbering |
| ProtoIndex.AppendInstance | pkg/index/proto_index.go:738-747 | one object gets the instance, the others stay, and objects share nothing |
| ProtoIndex.AppendRef | pkg/index/proto_index.go:1013-1018 | the same for a reference |
| ProtoIndex.FindOnlyMatch | pkg/index/proto_index.go:858-868 | the only entry of a symbol and kind, if there is exactly one |
| ProtoIndex.ProtoIndex.constructor | pkg/index/proto_index.go:132-171 | a fresh index is the empty project |
| ProtoIndex.ProtoIndex.AddModule | pkg/index/proto_index.go:508-529 | refines the call on the project and keeps the index valid |
| ProtoIndex.ProtoIndex.AddModuleImport | pkg/index/proto_index.go:531-546 | appends to the import log and nothing else |
| ProtoIndex.ProtoIndex.AddFile | pkg/index/proto_index.go:548-639 | refines the call; -1 and no change for an unknown module or other contents |
| ProtoIndex.ProtoIndex.AddSymbol | pkg/index/proto_index.go:641-763 | refines the call; (-1, -1) and no change when a check fails |
| ProtoIndex.ProtoIndex.FindSymbolInstanceId | pkg/index/proto_index.go:834-846 | exactly the declared instances of that name, scope and kind, oldest first |
| ProtoIndex.ProtoIndex.FindSymbolId | pkg/index/proto_index.go:848-871 | the instance when exactly one matches in the file, and an error otherwise |
| ProtoIndex.ProtoIndex.AddReference | pkg/index/proto_index.go:942-970 | logs an acceptable reference and rejects the others unchanged |
| ProtoIndex.ProtoIndex.ResolveReferences | pkg/index/proto_index.go:972-1024 | refines the resolution and tells how it ends: resolved, a missing target, or a nil file while reporting one |
| ProtoIndex.ProtoIndex.CreateModuleSymbols | pkg/index/proto_index.go:198-242 | refines the creation for a complete enumeration of the modules |
| ProtoIndex.ProtoIndex.ResolveModuleImports | pkg/index/proto_index.go:246-291 | refines the resolution of imports and clears their log |
| ProtoIndex.ProtoIndex.CreateDirectorySymbols | pkg/index/proto_index.go:300-416 | refines the creation for complete enumerations of the three maps, once only and not without files |
| ProtoIndex.ProtoIndex.NumberObjectTrees | pkg/index/numbering.go:49-70 | numbers every object from the project alone and changes nothing else |
| ProtoIndex.ProtoIndex.Marshal | pkg/index/proto_index.go:173-182 | finalises the project and leaves on every object the numbers the finalised project determines |
| StageProof.CountedKept | pkg/parser/parsing_stage.go:44-107 | every move keeps the wait group equal to what is queued, held or being parsed |
| StageProof.TakenOnceKept | pkg/parser/parsing_stage.go:80-88 | every move keeps the items let through distinct and equal to those seen |
| StageProof.AccountedKept | pkg/parser/parsing_stage.go:67-76 | every action of a started item has been performed, is to come, or was skipped by a failure |
| StageProof.NothingLostKept | pkg/parser/parsing_stage.go:44-52 | what has been submitted is seen, queued or waiting to be queued |
| StageProof.OutputAgreesKept | pkg/parser/file_parser.go:517-539 | each performed use is logged or deferred once, and logged only for an indexed file |
| StageProof.PhasedKept | pkg/parser/parsing_stage.go:89-113 | nothing starts after the wait, and loop and workers end in turn after the close |
| Schedules.RunAgrees | pkg/parser/parsing_stage.go:44-113 | all of these in every state of every interleaving |
| Schedules.WaitGroupCountsWork | pkg/parser/parsing_stage.go:44-98 | the wait group is never negative and zero only when nothing is under way |
| Schedules.ParsedIsClosure | pkg/parser/parsing_stage.go:95-107 | when Wait returns without error, exactly the closure of the roots has been parsed, each item once and to its end |
| Schedules.SubmissionWaits | pkg/parser/parsing_stage.go:41-52 | a submission goes into the channel while fewer than 1000 items are in it, and is left to a goroutine otherwise |
| Schedules.ActionIsPerformed | pkg/parser/file_parser.go:517-539 | a use of a type is logged at once if and only if its file is in the index, and deferred otherwise; a receiver always is deferred |
| Schedules.CloseFindsNothing | pkg/parser/parsing_stage.go:109-113 | Close finds no waiting sender and an empty channel, and returns when loop and workers are gone |
| Schedules.NoStateIsStuck | pkg/parser/parsing_stage.go:41-88 | in no reachable state is everything blocked, although both channels are bounded |
| Schedules.MoveGoesOn | pkg/parser/parsing_stage.go:57-93 | every move lets a new item through or lowers the weight of what is left |
| Schedules.EveryScheduleEnds | pkg/parser/parsing_stage.go:57-93 | with finitely many items no schedule goes on forever |
| Schedules.EveryScheduleFinishes | pkg/parser/parsing_stage.go:95-113 | with at least one worker Wait and Close return under every schedule |
| Schedules.FinalLogCounts | pkg/parser/parser.go:218-262 | resolving the deferred references leaves every use of an indexed file as often as it was performed |
| Schedules.LogIsDetermined | pkg/parser/parser.go:158-168 | after an error-free stage the log holds exactly the closure's uses of files the closure adds |
| Schedules.SchedulesAgree | pkg/parser/parser.go:158-168 | any two schedules leave the same files and the same references, counted |
| Schedules.OneItemRun | pkg/parser/parsing_stage.go:44-113 | a complete run, from the submission of one item to the return of Close |
| NamedLiterals.NamedKeys | pkg/parser/file_parser.go:384-385 | the table of named literals holds exactly those that have been added |
| NamedLiterals.FileIsFresh | pkg/parser/file_parser.go:875-939 | on a well-nested file none of whose literals has a name, the walks with their table make the calls that the syntax alone determines |
| FileParser.FileParser.FuncLitParser | pkg/parser/file_parser.go:363-389 | adds the literal under its namesake with its owner, records its name and walks its body |
| FileParser.FileParser.FunctionBodyParser | pkg/parser/file_parser.go:137-174 | adds what the body's literals and members are, in order |
| FileParser.FileParser.InitialiserFuncLits | pkg/parser/file_parser.go:855-873 | claims for its name the outermost literals of an initialiser that are not named yet, in turn |
| FileParser.FileParser.ValueSpecParser | pkg/parser/file_parser.go:770-835 | adds each declared name with its extent and then the unnamed literals of its own value |
| FileParser.FileParser.LooseWalk | pkg/parser/file_parser.go:878-937 | adds members and the literals that have no name when the walk comes to them |
| FileParser.FileParser.Parse | pkg/parser/file_parser.go:875-939 | adds what the walk from the present table amounts to; with an empty table on a well-nested file, each call of the one contextual walk as often as that makes it |
| OnePass.FileIsHere | pkg/parser/file_parser.go:805-939 | every function, declared name, type, interface method and literal of a well-nested file is added exactly once, with its extent, name and owner, and nothing else is |
| OnePass.DecimalReads | pkg/parser/file_parser.go:372 | the offset in a literal's name is written in digits that read as that offset |
| LiteralCount.EachLiteralIsAddedOnce | pkg/parser/file_parser.go:886-898 | every function literal of a well-nested file is added exactly once |
| Literals.BodyIsPlaced | pkg/parser/file_parser.go:167-174 | everything a body adds is on top or directly inside another instance, literals inside their namesakes |
| Namesakes.TwoPasses | pkg/parser/file_parser.go:818-828 | claiming literals first and finding the rest later adds what one walk would |
| Attribution.FunctionLiteralIsPlaced | pkg/parser/file_parser.go:167-174 | nothing else in the file comes between a literal of a function and what it is directly inside |
| Attribution.NameLiteralIsPlaced | pkg/parser/file_parser.go:805-828 | a literal of an initialiser is owned by its name, which starts before it, or lies directly inside another instance |
| LiteralTree.StatedStartEarlier | pkg/parser/file_parser.go:847-873 | the owners stated for initialisers are always honoured, whatever else is in the object beside the literals |
| LiteralTree.LiteralIsInNamesake | pkg/parser/file_parser.go:363-389 | a literal's parent is a type or method if and only if the call states no owner and the closest instance around is one; it is the instance whose name the literal's extends in all other cases |
| LiteralTree.LocalTypeComesBetween | pkg/parser/file_parser.go:176-184 | a literal inside a local type, named after the function and lying in the type |
| Calls.FileOwnersFirst | pkg/parser/file_parser.go:814-828 | a file adds a name before the literals whose owner it is |
| Calls.OwnedRangeIsSole | pkg/parser/file_parser.go:847-873 | a literal with an owner shares its range with nothing else the file adds |
| FileSteps.MarkedStep | pkg/index/proto_index.go:690-763 | a call of the file's own keeps recorded instances, keys and stated parents exactly those of the calls made |
| FileSteps.UnmarkedStep | pkg/index/proto_index.go:690-763 | so does any other call, for another file or for an extent around no literal, such as a comment's |
| FileRun.CallsMakeObject | pkg/parser/file_parser.go:875-939 | after a run with the file's calls, in any order with owners first and among any others, the file's object holds the instances asked for and the owners as stated parents; also for a length that is narrowed, nothing beginning with the first byte |
| FileRun.LiteralIsUnderNamesake | pkg/parser/file_parser.go:363-389 | in the numbers of that object each literal is a direct child of its namesake, with the same exact exception |
| FileRun.EveryFileCanBeMade | pkg/parser/file_parser.go:875-939 | for every well-nested file there is a run that makes its calls, all accepted |

## Left out

- Bookkeeping maps that mirror others are folded into tables of the same content: symbols, objects and files are found by position, and the content hash is equality of contents.
- Integer counters and DFS numbers are unbounded; 64-bit ids, 64-bit DFS numbers and 32-bit levels would need more instances than fit in memory to overflow. Lengths and import offsets, which are narrowed unchecked, are narrowed in the model too.
- Logging, locking inside a single method (each is one atomic step), the wire encoding and its cloning are not modelled; Marshal and Upload coincide.
- ProtoIndex.ProtoIndex.AddFile: does not clean the path or make it relative to the module, because the strings of paths are taken as AddFile has cleaned them; module path, file type strings, project name and root path are not kept.
- ProtoIndex.ProtoIndex.Marshal: does not model the encoded bytes, only the project and the numbers that are encoded.
- FileParser.FileParser.FunctionBodyParser: does not model the references that the body logs nor the table from variables to their literals, which decide nothing about instances.
- FileParser.FileParser.ValueSpecParser: does not model the documentation instances and type references of a declaration.
- FileParser.FileParser.Parse: does not model the references of imports, documentation instances, nor the references that the walks log.
- FileRun.CallsMakeObject: leaves out a file whose length does not survive the narrowing to 32 bits and which declares something at its very first byte, where the package clause of every Go file stands.
- FileRun.LiteralIsUnderNamesake: speaks of literals in functions and in initialisers of their own name; one outside both is named after the package, which has no instance in the file.
- Stage.Initial: items that share an id are taken to do the same when parsed, as two packages listing one file may not; all four kinds of item have an id, so items without one are not modelled.
- Stage: what AddReference refuses is a matter of the reference alone, the same at once and deferred, so the log is that of the calls made.
- Syntax: documentation instances and the interface methods of function signatures are not in the tree; for the index they are calls that `FileRun` admits between the file's own, their ranges lying around no literal. A literal in a constant array length inside a signature or inside an interface's type declaration is never visited by the original, and the tree has no place for it.
- Syntax: the methods of one interface are added before anything nested in them; the model's syntax adds each where it stands; the results of `FileRun` hold of the same calls in any order in which owners come first.
- FileParser: walks are those of files whose declarations have type information and whose calls succeed; the results about a file take its ranges to nest and follow one another, as the Go parser lays them out.
- The assignment stage, builtin lookup, package loading and type-checker facts, git and file reading, the command line and the matchers over finished symbols are outside.
