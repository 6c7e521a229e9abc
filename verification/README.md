# A verified model of libbpf's harder parts

This project models parts of libbpf and of the packet helpers beside it in Dafny and proves
what they are meant to guarantee. The source files are C; citations are by path and line.

* **BTF deduplication** (`BtfTypes`, `CanonicalMap`, `Equivalence`, `CanonicalIndex`,
  `Traversal`, `ForwardDecls`, `RefTypes`, `Dedup`, `BtfCompaction`, `BtfInPlace`,
  `DedupMinimal`, `AmbiguousDecls`). A type graph is
  reduced to one canonical type per meaning: primitive types, structs (compared by a
  side-by-side traversal of cyclic graphs), forward declarations and reference types, then
  compaction and remapping in place. The meaning of a type is what can be observed of
  records along paths of references. `Traversal` says exactly what the side-by-side
  traversal answers and records. Main results: `Dedup.Dedup.Canonicalize`,
  `BtfInPlace.DedupSection`, `BtfCompaction.MeaningPreserved` (nothing is lost) and
  `DedupMinimal.QuotientExact` (nothing is left to merge).
* **BTF sections** (`BtfEncoding`, `BtfSection`, `BtfByteOrder`, `BtfBuilder`): the words of
  records, parsing, both byte orders, and building.
* **The chained hash map** (`HashMap`, `HashMapRuns`), on which the deduplicator relies.
* **The loader generator** (`Ebpf`, `FdFlow`, `LoaderGen`, `LoaderRun`, `LoaderLimit`). Load
  commands are turned into an eBPF program with hand-counted jumps and a block of clean-up
  code. `Ebpf` has a small machine (jumps as in section 4.3 of RFC 9669, two-slot immediates
  as in section 5.4 of RFC 9669) and structured code with a proved compiler to relative jumps;
  `FdFlow` an analysis of where open descriptors are, proved sound for the machine;
  `LoaderGen` the generator itself, each emitter proved to emit compiled structured code;
  `LoaderRun` what follows for every run, and `LoaderLimit` what happens with more programs
  than there is room for. Main results: `LoaderRun.LoaderRuns`, `LoaderLimit.EndsExactly`.
* **The user ring buffer** (`RingBuf`), as interleaved steps at every load and store of
  shared memory. Main results: `RingBuf.Delivery`, `RingBuf.ConsumeComplete`.
* **Definition order of C dumps** (`DumpOrder`), **netlink attributes** (`Netlink`, section
  2.2 of RFC 3549), **line information of compiled functions** (`LineInfo`) and **VLAN
  tags** (`Vlan`, clause 9 of IEEE 802.1Q).

Conventions of the model:

* The type section is counted in 32-bit words: every record and the section are whole
  multiples of four bytes. The type word of a forward declaration, which the source leaves
  unused, is zero.
* Allocation failures are nondeterministic and give the source's error code.
* A struct may embed another only along the order that the source relies on at
  btf.c:4370-4373; the deduplicator is given that order, and likewise a base that refers
  only to itself.
* The traversal of two graphs compares names by offset: equal strings have equal offsets
  once strings were deduplicated.
* With forward declarations the source resolves by name, and the comment at
  btf.c:3968-3974 says that this can go wrong. `MeaningPreserved` holds for every type that
  is clear: each declared name that can be seen from it has one meaning, that is, every
  type of that name and kind means what the declarations of it mean (`BtfTypes.OneMeaning`,
  C's one definition per name). Ambiguous names elsewhere in the graph do no harm.
  `AmbiguousDecls` has a graph with an ambiguous name on which every successful run replaces
  a definition by a different one. `NamesPreserved` holds for all graphs.
* Completeness (`QuotientExact`) is stated for what the comment at btf.c:3978-3980 takes
  for granted: the types of one compilation unit are already deduplicated. Declarations
  elsewhere in the graph do no harm to types from which no declared name is seen.
* In the loader's world, a command that opens a descriptor answers with an error or with a
  positive number not in use, other calls answer anything, and reading kernel memory at
  address zero clears the destination. The caller loads one BTF, creates an inner map only
  when the one before was taken over by its map of maps (src/lib/libbpf/src/libbpf.c:5043-5052),
  and gives the same numbers of programs and maps at the beginning and the end
  (src/lib/libbpf/src/libbpf.c:7831-7852).
* The generator does not check the number of programs, though its stack frame has words for
  32 descriptors (src/lib/libbpf/src/gen_loader.c:19 and 34-38); any number is modelled. Loads
  and stores from where R10 points on, and loads more than 512 bytes below, are wrong
  accesses.
* Modules that lookups open are closed by the number that the lookup gave. Where a loader
  closes such a number, or an inner map's slot that nothing was put into since its last
  close, the model cannot tell whether it is a descriptor that should stay open; `strays`
  notes that, and what the context has is then only claimed to be what commands answered.
* The comment at btf_dump.c:441-443 calls a link between two definitions weak if there is a
  pointer on its way and behind it any named type. The code begins anew inside every struct
  that it enters, as the example at btf_dump.c:416-432 needs; the model follows the code.
* The ring buffer's reserving and consuming halves in this repository use one record
  format; the model composes them. Positions do not wrap around.
* The helper that moves the head of a packet may always refuse, and does if no Ethernet
  header would be left.

## Model

| member | source | states |
|---|---|---|
| `BtfTypes.EqualCommonIsEquality` | src/lib/libbpf/src/btf.c:3391-3396 | for kinds that are nothing but a header, comparing headers is comparing types |
| `BtfTypes.EqualIntTag` | src/lib/libbpf/src/btf.c:3410-3419 | true exactly for equal integers or declaration tags |
| `BtfTypes.EqualEnum` | src/lib/libbpf/src/btf.c:3469-3479 | true exactly for equal enums, with all enumerators |
| `BtfTypes.CompatEnum` | src/lib/libbpf/src/btf.c:3486-3498 | true exactly for enums of one name of which one is a forward declaration or both are equal |
| `BtfTypes.ShallowEqualStruct` | src/lib/libbpf/src/btf.c:3526-3545 | true exactly for structs that differ at most in the type ids of members |
| `BtfTypes.EqualArray` | src/lib/libbpf/src/btf.c:3570-3582 | true exactly for equal arrays |
| `BtfTypes.CompatArray` | src/lib/libbpf/src/btf.c:3589-3595 | true exactly for arrays that differ at most in their type ids |
| `BtfTypes.EqualFuncProto` | src/lib/libbpf/src/btf.c:3624-3643 | true exactly for equal prototypes |
| `BtfTypes.CompatFuncProto` | src/lib/libbpf/src/btf.c:3650-3670 | true exactly for prototypes that differ at most in their type ids |
| `BtfTypes.BisimilarStep` | src/lib/libbpf/src/btf.c:3926-3974 | types that mean the same have records of one shape, and their references mean the same, pairwise |
| `CanonicalMap.RootStep` | src/lib/libbpf/src/btf.c:3852-3857 | the root of a linked type is the root of what it is linked to, and any other type is its own root |
| `CanonicalMap.FollowStops` | src/lib/libbpf/src/btf.c:3852-3857 | following links reaches the root in fewer steps than there are types |
| `CanonicalMap.StoppingIsForest` | src/lib/libbpf/src/btf.c:3852-3857 | conversely, if following links stops from every type, the map is a forest |
| `CanonicalMap.LinkToTerminal` | src/lib/libbpf/src/btf.c:4228-4262 | redirecting one canonical type to another keeps the map free of cycles |
| `CanonicalMap.LinkFromTerminal` | src/lib/libbpf/src/btf.c:4228-4262 | linking a canonical type to any type that does not lead to it keeps the map free of cycles |
| `Dedup.ResolveTypeId` | src/lib/libbpf/src/btf.c:3852-3857 | the loop ends and returns the root of the type |
| `Dedup.Dedup.ResolveFwdId` | src/lib/libbpf/src/btf.c:3863-3877 | a forward declaration is replaced by the struct it was resolved to, anything else stays |
| `Dedup.Dedup.HypotMapAdd` | src/lib/libbpf/src/btf.c:3156-3171 | the pair is recorded in the map and at the end of the list, or the list cannot grow and nothing changes |
| `Dedup.Dedup.ClearHypotMap` | src/lib/libbpf/src/btf.c:3173-3181 | whatever was recorded, all entries are unprocessed and the list is empty afterwards |
| `Dedup.Dedup.AreIdenticalArrays` | src/lib/libbpf/src/btf.c:3886-3896 | true exactly for arrays with equal records |
| `Dedup.Dedup.AreIdenticalStructs` | src/lib/libbpf/src/btf.c:3899-3923 | true exactly for structs that are equal member by member, down to nested anonymous copies; ends although structs are compared recursively |
| `Equivalence.HypothesisAgrees` | src/lib/libbpf/src/btf.c:3926-4016 | if every pair of a hypothesis is locally fine under the hypothesis, the two types of each pair mean the same, if either of them is clear: every observation along every path of references agrees, declarations standing for their definitions |
| `Equivalence.RelatedObserve` | src/lib/libbpf/src/btf.c:3926-4016 | types related by a sound hypothesis, one of them clear, show the same record shape at the end of every path, also where the path goes through a forward declaration that was resolved before |
| `Equivalence.NewPairsClose` | src/lib/libbpf/src/btf.c:4018-4176 | pairs that are fine assuming each other are fine once the outermost pair is accepted |
| `Dedup.Dedup.IsEquiv` | src/lib/libbpf/src/btf.c:4018-4176 | the traversal ends on cyclic graphs (fewer unrecorded entries at each new pair); its answer, the pairs it records, their order and the flag are exactly those of `Traversal.Equiv`, unless the list cannot grow; acceptance relates the two types and every pair recorded on the way; a type of a deduplicated unit from which no declared name is seen, and that means the same as the canonical one, is never refused |
| `Traversal.EquivInvalid` | src/lib/libbpf/src/btf.c:4172-4174 | the traversal fails only on a graph with a type of a kind that it does not compare |
| `Dedup.Dedup.MatchRecorded` | src/lib/libbpf/src/btf.c:4034-4060 | a canonical type already paired accepts exactly the same candidate or a verbatim copy of it |
| `Dedup.Dedup.CheckPair` | src/lib/libbpf/src/btf.c:4062-4176 | one pair: kinds, names and forward declarations compared as the source does, then the references, exactly as `Traversal.Pair` says; the same guarantees as the traversal |
| `CanonicalIndex.AcceptedPairsSound` | src/lib/libbpf/src/btf.c:4204-4265 | when a candidate is accepted, every recorded pair may be merged |
| `Dedup.MergeHypotMap` | src/lib/libbpf/src/btf.c:4204-4265 | the map becomes that of merging the listed records in order; it stays a forest whose links join only types that may represent each other |
| `Dedup.MergeRecord` | src/lib/libbpf/src/btf.c:4211-4264 | one recorded pair: exactly which root is pointed at which, by the side on which a forward declaration is and by what is processed |
| `CanonicalIndex.MergedJoins` | src/lib/libbpf/src/btf.c:4211-4264 | a merge that changes the map makes the two sides of the record one type; everything that resolved to neither of them resolves as before |
| `CanonicalMap.LinkJoins` | src/lib/libbpf/src/btf.c:4228-4262 | pointing one canonical type at another joins exactly their two trees |
| `CanonicalIndex.SettleKeeps` | src/lib/libbpf/src/btf.c:3820-3824 | recording a verdict and filing the type in the table keeps the invariant of all passes |
| `Dedup.Dedup.Prep` | src/lib/libbpf/src/btf.c:3676-3734 | all base types are filed under their signatures |
| `Dedup.Dedup.FindExact` | src/lib/libbpf/src/btf.c:3770-3780 | returns a filed type that is equal, if there is one |
| `Dedup.ResolveEnum` | src/lib/libbpf/src/btf.c:3781-3801 | an enum is mapped to a canonical compatible one; canonical forward declarations met on the way are redirected to it |
| `Dedup.Dedup.PrimType` | src/lib/libbpf/src/btf.c:3742-3825 | after the step the type has a canonical representative and no two canonical equal types are filed |
| `Dedup.Dedup.PrimTypes` | src/lib/libbpf/src/btf.c:3827-3837 | all primitive types are mapped |
| `Dedup.Dedup.TryStruct` | src/lib/libbpf/src/btf.c:4323-4338 | a candidate with the same shape is compared; an accepted one becomes the representative and the hypothesis is merged; answer and map are exactly those of `Traversal.Tried`; a struct of a unit without duplicates is refused only if it means something else |
| `Dedup.Dedup.StructType` | src/lib/libbpf/src/btf.c:4289-4345 | the struct gets a representative that may stand for it, the first candidate that is accepted; if it becomes canonical itself, no canonical struct means the same |
| `Dedup.Dedup.StructTypes` | src/lib/libbpf/src/btf.c:4347-4357 | all structs and unions are mapped, by exactly one step for each in order (`Traversal.StructRun`), and outside the base no two canonical ones mean the same |
| `ForwardDecls.FillUniqueNames` | src/lib/libbpf/src/btf.c:4529-4561 | a name is in the map exactly if a canonical struct or union has it, with its id exactly if only one has it |
| `ForwardDecls.ResolveFwd` | src/lib/libbpf/src/btf.c:4563-4594 | a forward declaration is linked exactly if its name belongs to one canonical struct or union of its kind |
| `ForwardDecls.ResolveFwds` | src/lib/libbpf/src/btf.c:4628-4650 | every canonical forward declaration is resolved where its name is unique, and nothing else changes |
| `Dedup.Dedup.RefType` | src/lib/libbpf/src/btf.c:4383-4507 | a reference type is mapped after everything it refers to; -ELOOP only if references form a cycle that no ranking allows |
| `Dedup.Dedup.RefTypes` | src/lib/libbpf/src/btf.c:4509-4522 | all types are mapped |
| `RefTypes.SettleRef` | src/lib/libbpf/src/btf.c:4392-4503 | two reference types with equal records after their references were replaced by roots mean the same and may be merged |
| `RefTypes.RefDone` | src/lib/libbpf/src/btf.c:4359-4381 | if the pass succeeds, the given reference types form no cycle |
| `CanonicalIndex.SignatureWorks` | src/lib/libbpf/src/btf.c:3381-3608 | types that the comparators may find equal have the same signature, so looking only among equal signatures misses nothing |
| `Dedup.Dedup.Canonicalize` | src/lib/libbpf/src/btf.c:3039-3102 | on success every type leads to a canonical one that may represent it; references of reference types became roots, in the types and in the words of the section, and nothing else changed; no two canonical types outside the base are duplicates; there was no reference cycle; definitions of the base stay themselves, and canonical structs stay apart in meaning; -EINVAL only on a kind that is not compared |
| `BtfCompaction.NewIdIncreasing` | src/lib/libbpf/src/btf.c:4663-4709 | kept types are renumbered in increasing order |
| `BtfCompaction.NewIdOnto` | src/lib/libbpf/src/btf.c:4663-4709 | every new id is taken by a kept type |
| `BtfCompaction.FinalIdInRange` | src/lib/libbpf/src/btf.c:4717-4729 | every id is remapped to an id of the compacted section |
| `BtfCompaction.DedupedGraphOk` | src/lib/libbpf/src/btf.c:4663-4761 | the result is a well-formed type section |
| `BtfCompaction.DedupedIsQuotient` | src/lib/libbpf/src/btf.c:4663-4761 | every kept type has its given content, each reference replaced by the new id of the canonical type it referred to |
| `BtfCompaction.MeaningPreserved` | src/lib/libbpf/src/btf.c:2902-3038 | each given id that is clear (no ambiguous declaration can be seen from it) and the id it is remapped to show the same record shape along every path of references, declarations standing for their definitions in both sections |
| `BtfCompaction.PlainMeaningPreserved` | src/lib/libbpf/src/btf.c:2902-3038 | for an id from which no declared name can be seen, every record observed along every path is the same |
| `BtfCompaction.KeptMeaning` | src/lib/libbpf/src/btf.c:4663-4761 | the same for the clear types that are kept, base types with their unchanged references among them |
| `BtfCompaction.DefinitionKept` | src/lib/libbpf/src/btf.c:4663-4761 | what had a definition still has one |
| `DedupMinimal.MeaningDecides` | src/lib/libbpf/src/btf.c:2902-3038 | on what a compiler emits (units without duplicates, every cycle through a struct), types that mean the same, and from which no declared name is seen, get the same canonical type |
| `DedupMinimal.QuotientExact` | src/lib/libbpf/src/btf.c:2902-3038 | there, for every type from which no declared name is seen: another id stands for the same type afterwards if and only if it meant the same before |
| `DedupMinimal.NothingLeftToMerge` | src/lib/libbpf/src/btf.c:2902-3038 | there, no two types of the new section that come from such types mean the same |
| `DedupMinimal.AllFromPlain` | src/lib/libbpf/src/btf.c:2902-3038 | without forward declarations that is every type of the new section but variables, data sections and tags |
| `AmbiguousDecls.TriedS` | src/lib/libbpf/src/btf.c:3968-3974 | with two different structs of one name and a declaration of it, the traversal accepts a struct using the first against one using the declaration, and merging points the declaration at the first struct |
| `AmbiguousDecls.TriedT` | src/lib/libbpf/src/btf.c:3968-3974 | after that it accepts another struct using the declaration against one using the second, and merging replaces the first struct by the second |
| `AmbiguousDecls.RunAt` | src/lib/libbpf/src/btf.c:4347-4357 | the map after every prefix of the struct pass over this graph |
| `AmbiguousDecls.MeaningLost` | src/lib/libbpf/src/btf.c:2902-3038 | every successful run of all passes over this graph gives a section in which a struct was replaced by a different one |
| `AmbiguousDecls.DedupAmbiguous` | src/lib/libbpf/src/btf.c:3039-3102 | the deduplicator run on this graph: it fails only for want of memory, and else has that result |
| `AmbiguousDecls.TwoMeanings` | src/lib/libbpf/src/btf.c:3968-3974 | the two structs differ and are not clear, which is what `MeaningPreserved` asks for |
| `BtfCompaction.NamesPreserved` | src/lib/libbpf/src/btf.c:3968-3974 | whatever the declarations: an id still stands for a type of the same name in the same C namespace, and a definition never became a declaration |
| `BtfInPlace.Memmove` | src/lib/libbpf/src/btf.c:4690-4690 | moving words towards the front within one buffer copies them all |
| `BtfInPlace.CompactTypes` | src/lib/libbpf/src/btf.c:4663-4709 | the section and its index are compacted in place without overwriting a record or offset not read yet; fails exactly if a kept record has an unknown kind |
| `BtfInPlace.RemapTypes` | src/lib/libbpf/src/btf.c:4741-4761 | every type id in the section is replaced in place, and no other word changes |
| `BtfInPlace.RemappedIsDeduped` | src/lib/libbpf/src/btf.c:4717-4761 | replacing the ids of the kept records gives the deduplicated types |
| `BtfInPlace.CompactAndRemap` | src/lib/libbpf/src/btf.c:4663-4761 | after the passes, compaction and remapping cannot fail and leave exactly the deduplicated section and its index |
| `BtfInPlace.DedupSection` | src/lib/libbpf/src/btf.c:3039-3102 | the whole of deduplication from words to words: a written section becomes the section of the deduplicated types with its index; fails only for want of memory, on a kind that is not compared, or on a reference cycle |
| `BtfEncoding.InfoRoundTrip` | src/lib/libbpf/src/btf.c:1546-1549 | the info word determines kind, member count and flag, for at most 65535 members |
| `BtfEncoding.DecodeRecord` | src/lib/libbpf/src/btf.c:288-327 | reading the words of a written record gives the type back |
| `BtfEncoding.RecordPutRef` | src/lib/libbpf/src/btf.c:4817-4888 | replacing a type id of a record overwrites one word |
| `BtfSection.PartitionUnique` | src/lib/libbpf/src/btf.c:413-449 | a section can be split into records in at most one way |
| `BtfSection.ParseTypeSec` | src/lib/libbpf/src/btf.c:413-449 | succeeds exactly if the section is a sequence of whole records of known kinds, and returns their offsets |
| `BtfSection.FlatPartition` | src/lib/libbpf/src/btf.c:413-449 | records laid out one after the other are split at exactly their offsets |
| `BtfSection.WrittenPutRef` | src/lib/libbpf/src/btf.c:4392-4483 | overwriting the word of one type id in a section replaces one reference of one type |
| `BtfByteOrder.Bswap32Involution` | src/lib/libbpf/src/btf.c:329-334 | swapping bytes twice changes nothing |
| `BtfByteOrder.SwapTypeRest` | src/lib/libbpf/src/btf.c:336-411 | all words of a record behind its header are swapped, none beyond |
| `BtfByteOrder.WriteSwapped` | src/lib/libbpf/src/btf.c:1281-1292 | every record of a section is swapped when its size is still readable: the tail before the header |
| `BtfByteOrder.ParseSwapped` | src/lib/libbpf/src/btf.c:413-449 | a section in the other byte order is swapped while it is parsed, header before tail; fails exactly if the swapped section is no sequence of records |
| `BtfByteOrder.ParseHeader` | src/lib/libbpf/src/btf.c:220-267 | accepts exactly the headers in either byte order that have the magic number and a fitting layout, and says which order it was |
| `BtfByteOrder.BuiltHeaderValid` | src/lib/libbpf/src/btf.c:220-267 | headers of built BTF are accepted |
| `BtfByteOrder.RawData` | src/lib/libbpf/src/btf.c:1255-1303 | writes header, types and strings in the chosen byte order |
| `BtfByteOrder.New` | src/lib/libbpf/src/btf.c:220-449 | loads what such an image holds |
| `BtfByteOrder.SaveAndLoad` | src/lib/libbpf/src/btf.c:1255-1303 | saving in either byte order and loading gives back the same header, types, index and strings |
| `BtfBuilder.GrownRecord` | src/lib/libbpf/src/btf.c:2009-2062 | one more member changes the info word of a record and adds words at its end |
| `BtfBuilder.GrowLast` | src/lib/libbpf/src/btf.c:2009-2062 | growing the last type keeps the index of a section right while it has fewer than 65535 members |
| `BtfBuilder.OverflowBreaks` | src/lib/libbpf/src/btf.c:1546-1549 | with 65535 members already there, the count wraps to zero and the index no longer splits the section |
| `BtfBuilder.Builder.AddRecord` | src/lib/libbpf/src/btf.c:1551-1563 | appends a record and its offset; ids are dense; both header lengths stay equal |
| `BtfBuilder.Builder.GrowType` | src/lib/libbpf/src/btf.c:2020-2062 | gives the last type a member; exactly from 65535 members on the index is wrong afterwards |
| `BtfBuilder.Builder.AddField` | src/lib/libbpf/src/btf.c:2009-2062 | refuses exactly what the source does; else the member with its name, type and bit offset, a bit field setting the flag, as long as there are fewer than 65535 |
| `BtfBuilder.Builder.IndexIsParsed` | src/lib/libbpf/src/btf.c:413-449 | in every state that building leads to, parsing the section gives the same index |
| `BtfBuilder.ShiftRecord` | src/lib/libbpf/src/btf.c:1630-1643 | shifts every non-void type id of one record in place |
| `BtfBuilder.Builder.AddBtf` | src/lib/libbpf/src/btf.c:1648-1730 | appends all records of another section with every non-void id shifted by one constant, and returns the first new id |
| `HashMap.HashBits` | src/lib/libbpf/src/hashmap.h:15-29 | the bucket number is in range |
| `HashMap.Table.FindEntry` | src/lib/libbpf/src/hashmap.c:130-152 | finds the first entry of the chain with an equal key, or none if the table has none |
| `HashMap.Table.Grow` | src/lib/libbpf/src/hashmap.c:101-128 | growing loses and duplicates no entry and puts each into the bucket of its hash |
| `HashMap.Table.Insert` | src/lib/libbpf/src/hashmap.c:154-204 | add, set, update and append do to the multiset of entries exactly what each promises, with the right error |
| `HashMap.Table.Find` | src/lib/libbpf/src/hashmap.c:206-218 | reports a key exactly if it is there, with one of its values |
| `HashMap.Table.Delete` | src/lib/libbpf/src/hashmap.c:220-240 | removes one entry with the key, or reports that there is none |
| `HashMap.Table.KeyEntries` | src/lib/libbpf/src/hashmap.h:202-208 | visits exactly the entries with an equal key |
| `HashMapRuns.RunRefines` | src/lib/libbpf/src/hashmap.c:95-240 | over every run without append the table is a plain map: each call reports what the map would |
| `HashMapRuns.Drive` | src/lib/libbpf/src/hashmap.c:95-240 | requests carried out on an empty table, one after the other, do to its entries what the strategies promise, each in turn; if none appends, the table answers each as a plain map does, and ends as that map |
| `HashMapRuns.Perform` | src/lib/libbpf/src/hashmap.c:154-240 | one request does to the table what its operation says |
| `HashMapRuns.StepRefines` | src/lib/libbpf/src/hashmap.c:154-240 | each call does to the table what it does to the map |
| `Ebpf.CompileCorrect` | src/lib/libbpf/src/gen_loader.c:96-108 | the machine running compiled code does what the structured code says: every jump lands where its block ends, and never in the second half of a 64-bit immediate |
| `FdFlow.FlowSound` | src/lib/libbpf/src/gen_loader.c:24-38 | code for which the flow analysis gives a result makes no wrong access, leaves for the clean-up label only with an error in R7, and otherwise ends as the result says |
| `FdFlow.BpfSound` | src/lib/libbpf/src/gen_loader.c:266-275 | a command that opens a descriptor leaves it in the result register only |
| `FdFlow.SaveSound` | src/lib/libbpf/src/gen_loader.c:444-445 | storing the pending descriptor into a free slot leaves every open descriptor in a slot |
| `FdFlow.CloseSound` | src/lib/libbpf/src/gen_loader.c:344-354 | after a close the slot it was read from holds no open descriptor |
| `FdFlow.NoSecondError` | src/lib/libbpf/src/gen_loader.c:138-153 | code that begins after an error never jumps to the clean-up label again |
| `LoaderGen.Gen.Emit` | src/lib/libbpf/src/gen_loader.c:50-102 | appends one slot, or sets the error and appends nothing more |
| `LoaderGen.Gen.AddData` | src/lib/libbpf/src/gen_loader.c:156-173 | new data lies behind all earlier data, in whole multiples of eight bytes |
| `LoaderGen.Gen.EmitRelStore` | src/lib/libbpf/src/gen_loader.c:211-218 | stores only to the given place, outside the descriptor slots |
| `LoaderGen.Gen.MoveBlob2Blob` | src/lib/libbpf/src/gen_loader.c:220-228 | copies a word without touching the descriptor slots |
| `LoaderGen.Gen.MoveCtx2Blob` | src/lib/libbpf/src/gen_loader.c:238-250 | the jump over the store counts right; no descriptor slot is touched |
| `LoaderGen.Gen.MoveStack2Ctx` | src/lib/libbpf/src/gen_loader.c:260-264 | the context word becomes the word of the slot |
| `LoaderGen.Gen.MoveBlob2Ctx` | src/lib/libbpf/src/gen_loader.c:230-236 | the context word becomes the word of the slot |
| `LoaderGen.Gen.EmitSysBpf` | src/lib/libbpf/src/gen_loader.c:266-275 | one command is issued; its result is in R7 and not yet checked |
| `LoaderGen.Gen.EmitCheckErr` | src/lib/libbpf/src/gen_loader.c:282-295 | the jump goes exactly to the clean-up label, or the generator error is set |
| `LoaderGen.Gen.EmitDebug` | src/lib/libbpf/src/gen_loader.c:298-324 | emits nothing without logging, else a fixed number of slots, and changes no lasting register |
| `LoaderGen.Gen.EmitClose` | src/lib/libbpf/src/gen_loader.c:344-354 | the jump over the close counts right with and without logging; both ways leave the slot without an open descriptor |
| `LoaderGen.Gen.EmitCloseStack` | src/lib/libbpf/src/gen_loader.c:356-360 | the slot of the stack frame holds no open descriptor afterwards |
| `LoaderGen.Gen.EmitCloseBlob` | src/lib/libbpf/src/gen_loader.c:362-368 | the slot of the descriptor array holds no open descriptor afterwards; six or twelve slots long |
| `LoaderGen.Gen.constructor` | src/lib/libbpf/src/gen_loader.c:113-154 | for every number of programs and maps and both log levels: the first jump is over the length of the clean-up code, taken to 16 bits; the clean-up code has three instructions for every word of the stack frame that the programs would need; for at most 32 programs it closes every slot and returns R7 |
| `LoaderGen.Gen.LoadBtf` | src/lib/libbpf/src/gen_loader.c:417-446 | issues BPF_BTF_LOAD, checks it and saves the descriptor |
| `LoaderGen.Gen.MapCreate` | src/lib/libbpf/src/gen_loader.c:448-524 | issues BPF_MAP_CREATE, checks it and saves the descriptor in the slot for inner maps or the next map slot; a map of maps closes the inner map; wrong index or too many maps set the error |
| `LoaderGen.Gen.AddMapFd` | src/lib/libbpf/src/gen_loader.c:178-186 | slots are given out in order, at most 64 |
| `LoaderGen.Gen.CopyInitialValue` | src/lib/libbpf/src/gen_loader.c:1055-1068 | the three jumps count right: the value is copied from user or kernel memory, or not at all |
| `LoaderGen.Gen.MapUpdateElem` | src/lib/libbpf/src/gen_loader.c:1034-1079 | issues BPF_MAP_UPDATE_ELEM and checks it |
| `LoaderGen.Gen.PopulateOuterMap` | src/lib/libbpf/src/gen_loader.c:1081-1106 | issues BPF_MAP_UPDATE_ELEM and checks it |
| `LoaderGen.Gen.MapFreeze` | src/lib/libbpf/src/gen_loader.c:1108-1123 | issues BPF_MAP_FREEZE and checks it |
| `LoaderGen.Gen.GetKsym` | src/lib/libbpf/src/gen_loader.c:584-611 | returns the entry of a known symbol with one more reference, or a new one; a symbol has one entry |
| `LoaderGen.Gen.AddKfuncFd` | src/lib/libbpf/src/gen_loader.c:188-197 | the slot for a kernel function is never a map slot |
| `LoaderGen.Gen.RelocateKfunc` | src/lib/libbpf/src/gen_loader.c:664-733 | the four jumps count right on every way through; nothing that the loader holds is touched |
| `LoaderGen.Gen.RelocateTypeless` | src/lib/libbpf/src/gen_loader.c:754-785 | a missing symbol is no error, any other failure goes to the clean-up label |
| `LoaderGen.Gen.RelocateKsym` | src/lib/libbpf/src/gen_loader.c:801-849 | the jumps into and around the block that clears the source register count right |
| `LoaderGen.Gen.CleanupRelos` | src/lib/libbpf/src/gen_loader.c:902-932 | all symbols are forgotten and their array slots given back, while the result of the load command stays in R7 |
| `LoaderGen.Gen.EmitAttach` | src/lib/libbpf/src/gen_loader.c:540-560 | a failed lookup goes to the clean-up label |
| `LoaderGen.Gen.RecordExtern` | src/lib/libbpf/src/gen_loader.c:562-581 | the symbol is noted for the next program |
| `LoaderGen.Gen.RecordReloCore` | src/lib/libbpf/src/gen_loader.c:851-865 | one more relocation is counted for the next program |
| `LoaderGen.Gen.RecordAttachTarget` | src/lib/libbpf/src/gen_loader.c:526-538 | kind and name length are noted for the next program; exactly a name of 128 or more characters is an error |
| `LoaderGen.Gen.ProgLoad` | src/lib/libbpf/src/gen_loader.c:934-1032 | relocates, issues BPF_PROG_LOAD, checks it after the modules were closed, and saves the descriptor in the next slot; from the 33rd program on there is no slot, and the store is emitted all the same |
| `LoaderGen.Gen.Finish` | src/lib/libbpf/src/gen_loader.c:370-406 | -EFAULT unless the numbers of programs and maps fit; else closes the BTF, hands all descriptors over in the context and returns zero; if the numbers are those of the beginning, what was emitted is a finished program |
| `LoaderRun.PrologueRuns` | src/lib/libbpf/src/gen_loader.c:120-137 | the first seven instructions clear the stack frame and jump as far as the last of them says |
| `LoaderRun.Enters` | src/lib/libbpf/src/gen_loader.c:120-137 | for every number of programs and maps for which the clean-up code is shorter than 32768 instructions, the first jump leads exactly behind it |
| `LoaderRun.CleanRuns` | src/lib/libbpf/src/gen_loader.c:138-153 | from the clean-up label the run ends with nothing open and returns the error |
| `LoaderRun.LoaderRuns` | src/lib/libbpf/src/gen_loader.c:113-154 | every run of a finished loader for at most 32 programs, whatever calls answer, ends without a wrong access or a jump astray. Either every command was issued and none failed, zero is returned, the context word of every map and program has the answer of its own command, a descriptor that is still open, and every open descriptor was handed over; or the error of the last call is returned, a prefix of the commands was issued and nothing is open |
| `LoaderRun.FailureCleansUp` | src/lib/libbpf/src/gen_loader.c:282-295 | every run of such a loader ends, and if any command has failed, with nothing open and the error returned |
| `LoaderLimit.EndsExactly` | src/lib/libbpf/src/gen_loader.c:113-154 | the exact condition: all runs of a program that the generator has finished without an error end so if and only if it was made for at most 32 programs, or it issues no command and its clean-up code is within the reach of the first jump |
| `LoaderLimit.RefusedGoesBad` | src/lib/libbpf/src/gen_loader.c:142-146 | made for more than 32 programs, a loader whose commands are refused loads a word beyond its stack frame while it cleans up |
| `LoaderLimit.JumpAstray` | src/lib/libbpf/src/gen_loader.c:134-137 | if the clean-up code is longer than a jump can reach, no run ends: the first jump leads out of the program, back to its beginning for ever, or into the clean-up code, where a word out of bounds is loaded |
| `LoaderLimit.ManyGoBad` | src/lib/libbpf/src/gen_loader.c:1029-1030 | with more than 32 programs loaded, every run makes a wrong access |
| `LoaderLimit.StoresBeyond` | src/lib/libbpf/src/gen_loader.c:1029-1030 | if every command succeeds, that is the store of the descriptor of the 33rd program where the stack frame ends |
| `LoaderLimit.LoadPrograms` | src/lib/libbpf/src/libbpf.c:7206-7242 | a loader for n programs without maps, made without an error, ends in all its runs if and only if n is at most 32 |
| `RingBuf.HeaderWords` | src/lib/libbpf/src/ringbuf.c:216-225 | the consumer's rounded length of any header word is the reserved length; a commit clears the busy bit and sets the discard bit as asked |
| `RingBuf.HeaderRecovered` | src/lib/libbpf/src/ringbuf.c:453-470 | commit finds the header that reserve wrote, also across the end of the ring, and the sample lies inside the double mapping |
| `RingBuf.OffsetWraps` | src/lib/libbpf/src/ringbuf.c:227-268 | reading from a masked position reaches the cells of the record |
| `RingBuf.WriteHdrKeeps` | src/lib/libbpf/src/ringbuf.c:482-521 | writing a header touches no live record |
| `RingBuf.PublishKeeps` | src/lib/libbpf/src/ringbuf.c:482-521 | a published record is behind all others, aligned and within one ring of the consumer |
| `RingBuf.ExchangeKeeps` | src/lib/libbpf/src/ringbuf.c:453-470 | a commit changes only its own record and fixes its sample |
| `RingBuf.TakeKeeps` | src/lib/libbpf/src/ringbuf.c:227-268 | the callback gets the size reserved and the bytes committed, and the consumer steps over exactly one record |
| `RingBuf.StepKeeps` | src/lib/libbpf/src/ringbuf.c:227-521 | every load and store of either side, in any interleaving, keeps the invariant |
| `RingBuf.LiveDisjoint` | src/lib/libbpf/src/ringbuf.c:482-521 | no two live records share a cell of the ring |
| `RingBuf.HeadersFound` | src/lib/libbpf/src/ringbuf.c:227-268 | header words are looked for only where there are headers |
| `RingBuf.Delivery` | src/lib/libbpf/src/ringbuf.c:227-268 | in every run the callbacks are exactly those due for the records passed: submitted ones, in reservation order, once, with their size and bytes; no busy record is passed; the consumer position is a record boundary, also after a callback error, at most one ring behind |
| `RingBuf.ConsumeComplete` | src/lib/libbpf/src/ringbuf.c:227-268 | a consuming call that returns without error has passed every record of a prefix that was committed when it began, and returns the number of callbacks |
| `RingBuf.HistoryGrows` | src/lib/libbpf/src/ringbuf.c:227-521 | committed records and callbacks made never change |
| `DumpOrder.Dumper.OrderType` | src/lib/libbpf/src/btf_dump.c:469-614 | ends if every cycle of references passes through a struct or union; on success every definition that the type needs is queued: those in its layout, and those in the layout of an anonymous struct written inside it, also behind a pointer; -ELOOP only if a struct leads back to itself where it cannot be declared forward |
| `DumpOrder.Dumper.OrderComposite` | src/lib/libbpf/src/btf_dump.c:515-544 | a named struct or union behind a pointer is left; else it is queued behind its members |
| `DumpOrder.Dumper.OrderProto` | src/lib/libbpf/src/btf_dump.c:584-604 | result and parameters of a function are traversed in turn; what an anonymous struct among them needs is queued; the link is strong if one of theirs is |
| `DumpOrder.Queued` | src/lib/libbpf/src/btf_dump.c:535-542 | queueing a type that has everything it needs keeps the order right and no struct or union twice |
| `DumpOrder.CompleteBehind` | src/lib/libbpf/src/btf_dump.c:416-448 | what a type needs behind a pointer is among what it needs |
| `DumpOrder.NoNeedOfItself` | src/lib/libbpf/src/btf_dump.c:448-460 | a queued struct or union does not need itself, by whatever path: one that does is never queued |
| `DumpOrder.Dumper.DumpType` | src/lib/libbpf/src/btf_dump.c:277-297 | over any run of successful calls no struct or union is queued twice, and every definition that a queued type needs was queued before it; -ELOOP only on a strong cycle |
| `Netlink.Request.Add` | src/lib/libbpf/src/nlattr.h:141-158 | refuses an attribute that does not fit or has data without length or length without data; else appends it with its payload |
| `Netlink.Request.BeginNested` | src/lib/libbpf/src/nlattr.h:160-168 | opens a nested attribute exactly if its header fits |
| `Netlink.Request.EndNested` | src/lib/libbpf/src/nlattr.h:170-174 | the innermost open attribute becomes one with the attributes added since |
| `Netlink.Parse` | src/lib/libbpf/src/nlattr.c:104-134 | ends on arbitrary bytes; fails exactly if an attribute of a known type breaks the policy; else holds for every type the last attribute with it |
| `Netlink.ScanBuilt` | src/lib/libbpf/src/nlattr.c:25-43 | parsing a built stream finds each attribute at its place and nothing else |
| `Netlink.RoundTrip` | src/lib/libbpf/src/nlattr.c:104-155 | parsing a built stream gives for every type the last attribute added with it and its exact payload; the payload of a nested one is a built stream again |
| `LineInfo.Dissect` | src/lib/libbpf/src/bpf_prog_linfo.c:22-86 | succeeds exactly if the records can be split: each function begins at the first record of its address behind the one before, with addresses growing and inside the function in all but the last; then the ranges partition all records |
| `LineInfo.Find` | src/lib/libbpf/src/bpf_prog_linfo.c:180-216 | not found exactly if the function, the record or a low enough address does not exist; else the record before the first one above the address |
| `LineInfo.CoversGreatest` | src/lib/libbpf/src/bpf_prog_linfo.c:180-216 | where addresses grow that is the greatest record at or below the address |
| `Vlan.Packet.Pop` | src/common/rewrite_helpers.h:22-64 | removes exactly the four bytes of the outermost tag and returns its 16 bits; a frame without a whole tag is left alone |
| `Vlan.Packet.Push` | src/common/rewrite_helpers.h:69-108 | inserts exactly one tag behind the addresses, or leaves the frame alone |
| `Vlan.PopPush` | src/common/rewrite_helpers.h:22-108 | popping undoes pushing |
| `Vlan.PopsUndoPushes` | src/common/rewrite_helpers.h:22-108 | as many pops as pushes return the tags in reverse order and restore every byte |
| `Vlan.ParseEth` | src/common/parsing_helpers.h:79-122 | skips up to two tags, as far as they are whole |
| `Vlan.ParsePushed` | src/common/parsing_helpers.h:79-122 | after up to that many pushes on an untagged frame, parsing finds its type, the masked ids outermost first, and the place behind the last tag |

## Left out

- Dedup.Dedup.Canonicalize: string deduplication and the `.BTF.ext` sections are not part of the model; names are offsets that are equal for equal strings.
- BtfCompaction.MeaningPreserved: that no ambiguous declaration can be seen from a type is sufficient; one from which it can may still come out right, depending on the order of types.
- DedupMinimal.QuotientExact: types from which a declared name is seen are left out, since the traversal may refuse types that differ only in what is declared; variables, data sections and tags on them are never merged.
- BtfBuilder.Builder.AddBtf: type ids are shifted, string offsets are kept as they are; the roll back after a failed call is not modelled.
- BtfBuilder.Builder.AddRecord: stands for the commit step that all `btf__add_*` calls share; their checks of names, sizes and encodings are left out, except those of fields.
- BtfByteOrder.New: the checks of the string section are left out.
- BtfByteOrder.SaveAndLoad: only for the layout that saving produces (types first, strings directly behind them).
- HashMapRuns.RunRefines: append is left out of the plain map, which has one value for a key; `HashMapRuns.Drive` and `HashMap.Table.Insert` cover it on the multiset of entries.
- LoaderGen.Gen.AddData: where data lies is modelled, not what is in it; so the contents of command attributes are not part of the model.
- LoaderGen.Gen.RelocateKfunc: descriptors of kernel modules that lookups open are not tracked, nor is their closing exactly once.
- LoaderGen.Gen.MapCreate: an inner map while the one before was not taken over is left out, as its descriptor would be lost; the slot of an inner map is not cleared after its close, as in the source, and that it is closed exactly once is not claimed.
- LoaderGen.Gen.LoadBtf: a second BTF in one loader is left out, as the descriptor of the first would be lost; the source loads one (src/lib/libbpf/src/libbpf.c:7834-7837).
- LoaderRun.LoaderRuns: memory outside the descriptor slots reads as anything, and what the in-kernel verifier would check is not modelled beyond wrong accesses to tracked memory.
- RingBuf.Delivery: the header's length word and its padding are one cell; memory ordering is sequentially consistent.
- DumpOrder.Dumper.DumpType: a typedef of a function type can be queued twice, which the source does not rule out, so only structs and unions are claimed to be queued once; the state after a failed call is not described, and the C text itself, name clashes, padding and typed data are left out.
- DumpOrder.Dumper.OrderType: which types are marked as referenced is an input; that a parameter of a function type that is used without a pointer is complete is not claimed, as C does not ask for it and the source does not ensure it.
- Netlink.Parse: the duplicate warning and the reading of kernel error messages are left out; numbers in attribute headers are taken as little endian.
- LineInfo.Dissect: copying the records out of the kernel's answer is left out.
- Vlan.ParseEth: the network and transport parsers beside it, which only compare bounds, are left out.
- BTF loading from files and the kernel, CO-RE relocation, object and program loading, USDT, ELF handling, perf buffers and the command line tools are not part of this model.
