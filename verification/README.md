# A model of the dex2oat output writers

`dex2oat` writes three things that must agree byte for byte: oat data (compiled code and the tables that lead to it),
an ELF file around the oat data, and images of heap objects that point into both.  Each writer first computes a layout
and later writes the bytes, deciding again and again from offsets alone what it has already done.  This project models
the writers and proves that plan and execution agree.

| file | what it holds |
|---|---|
| `Alignment.dfy`, `Streams.dfy` | rounding; the output stream as a position and a log of what was written where |
| `OatClasses.dfy` | the OatClass records, the walk of the method visitors, and the runtime's reader of the records |
| `OatRegions.dfy` | dex files, lookup tables, class offset tables and OatClass records of the oat file |
| `VmapTables.dfy` | placing and writing vmap tables, and the 32-bit offsets to them |
| `CodeLayout.dfy`, `CodeWriter.dfy` | placing method code with deduplication and call thunks; writing it again from offsets |
| `OatWriter.dfy` | a whole run of the oat writer, with its size counters |
| `PatchStream.dfy` | linker patches and their delta-encoded ULEB128 stream (section 7.6 of DWARF version 4) |
| `SrcMap.dfy` | the compressed source map and its binary search |
| `ElfSections.dfy`, `ElfDynamic.dfy`, `ElfPrediction.dfy` | section placement, the predicted dynamic section, and the comparison of the two |
| `ProgramHeaders.dfy` | merging sections into segments (System V generic ABI, chapter 5, "Program Header") |
| `ElfWriter.dfy`, `Dex2Oat.dfy` | the ELF writer, and the driver that makes it and the oat writer meet |
| `OatReader.dfy` | the runtime's walk over the dex file records of an oat file |
| `ClassPruner.dfy` | which classes an app image leaves out |
| `ImageWorklist.dfy` | the traversal that gives objects slots, interns strings and rewrites references |
| `ImageBins.dfy`, `ImageInfo.dfy` | bins of one image, their offsets and the image sections |
| `NativeRelocations.dfy` | the places of runtime methods, conflict tables and interface method tables, which classes and images share |
| `LockWords.dfy`, `ObjectHeap.dfy` | bin slots and image offsets in lock words, the hash codes they displace, and the addresses read from them |
| `ImageChain.dfy` | the addresses of several images and oat files |
| `ImageObjects.dfy`, `ImageLayout.dfy` | objects and references; all images from the roots to the copies and their references |

Some promises turn out to be conditional, and the exact condition is proved for each:

* The write pass recognises new code by `code_offset_ > offset_`.  That is right unless a Thumb-2 method without code is
  repeated before any further code is reserved (`CodeLayout.ComparisonFindsNewCode`).  For exactly the walks without such
  a repeat, the pass ends where the first one ended and every method finds its code (`CodeWriter.WriteCodeDexFiles`).  The
  final CHECKs of WriteCode do not notice every other walk (`CodeWriter.UnsafeWalkEndsInPlace`).  The quickening compiler
  avoids such methods (`CodeWriter.NoEmptyThumbIsSafe`).
* The predicted loaded size steps over `.hash` with the size of `.dynsym`.  It is right exactly when no page ends between
  the two (`ElfPrediction.LoadedSizeRightIff`); file names of up to 255 characters are safe, one of 3764 is not.
* The section index in the symbols of `.bss` is right exactly when `.text` is not empty (`ElfPrediction.SymbolsAreRight`).
* A source map lookup agrees with the uncompressed list exactly when the first and the last retained entry at the queried
  address have the same target (`SrcMap.FindAgreesIff`); strictly increasing keys are safe.
* A bin slot survives its lock word exactly if its index is below 2^27 (`LockWords.BinSlotSurvivesIff`), and an image
  offset keeps the read barrier bits clear exactly below 2^30 (`ObjectHeaps.ObjectHeap.AssignImageOffset`).

## Model

| member | source | states |
|---|---|---|
| `ClassPruner.Pruner.PruneInternal` | compiler/image_writer.cc:717-804 | for every class graph, an answer of true means that an unwanted class can be reached, an answer of false that none can be reached avoiding the classes on the current path, or that a cycle was cut; every memo entry equals reachability; terminates because the path grows |
| `ClassPruner.Pruner.PruneAny` | compiler/image_writer.cc:751-791 | the chain of disjunctions over a list of successors answers for all of them |
| `ClassPruner.Pruner.PruneSuccessors` | compiler/image_writer.cc:751-791 | interfaces, component, static-field classes and superclass together: true if an unwanted class can be reached through one of them, false only if through none |
| `ClassPruner.Pruner.CombineSuccessors` | compiler/image_writer.cc:792-803 | the successors' answers settle the class; a false seen through a cycle is only final for the root |
| `ClassPruner.Pruner.Prune` | compiler/image_writer.cc:711-715 | the root answer is exactly reachability of a directly prunable class outside the boot image, whatever was asked before |
| `ClassPruner.Pruner.KeepClass` | compiler/image_writer.cc:806-825 | for an app image, a class is kept exactly if it is in the boot image or belongs to a set of classes that can be kept together, whatever was asked before; for other images exactly the image classes are kept |
| `ClassPruner.KeptIffKeepable` | compiler/image_writer.cc:711-825 | outside the boot image, the kept classes are the largest set of image classes of the app class loader, none erroneous, whose superclass, interfaces, component and static-field classes are null, in the boot image or in the set |
| `ClassPruner.KeptIsClosed` | compiler/image_writer.cc:724-825 | a kept app class is an image class, not of the boot class loader and not erroneous, and its interfaces, component, static-field classes and superclass are null, in the boot image, or kept |
| `ClassPruner.SuccessorsAreFields` | compiler/image_writer.cc:751-794 | the pruner follows exactly the superclass, the interfaces, the component of an object array and, if the class is resolved, the classes in or of its static fields |
| `ClassPruner.BootClassMayReachPruned` | compiler/image_writer.cc:806-825 | closure is about classes outside the boot image: a kept boot image class may refer to a class that is pruned |
| `ClassPruner.FirstStep` | compiler/image_writer.cc:732-736 | a prunable class is unwanted itself or reaches an unwanted class without returning to itself, so the false of a cut cycle loses nothing |
| `SrcMap.Map.PushBack` | compiler/compiled_method.h:129-140 | the map holds the compressed form of everything pushed |
| `SrcMap.Map.LowerBound` | compiler/compiled_method.h:144-148 | binary search finds the first element that is not below the key |
| `SrcMap.Map.Find` | compiler/compiled_method.h:144-157 | the search returns what a linear lookup in the compressed list returns |
| `SrcMap.CompressKeepsNaive` | compiler/compiled_method.h:129-140 | dropping a repeated target does not change the answer of any query |
| `SrcMap.CompressKeepsRuns` | compiler/compiled_method.h:129-140 | the map keeps exactly the first push of every run of pushes with one target |
| `SrcMap.FindAgreesOnIncreasing` | compiler/compiled_method.h:100-157 | with strictly increasing keys, Find returns the last pushed entry at or below the query, for every query |
| `SrcMap.FindAgreesIff` | compiler/compiled_method.h:129-157 | for any pushes the code accepts, the exact condition under which Find agrees with the uncompressed list |
| `SrcMap.SortedAgreesIff` | compiler/compiled_method.h:129-157 | the same condition for sorted pushes |
| `SrcMap.TiesDisagree` | compiler/compiled_method.h:100-157 | two entries of one key on which Find and the list disagree |
| `PatchStream.LessIsStrictTotalOrder` | compiler/compiled_method.h:352-366 | operator< is irreflexive, transitive and total, and two patches are unordered exactly if operator== holds |
| `PatchStream.EncodeUnsignedLeb128` | runtime/leb128.h:130-141 | the bytes appended are the base-128 digits of the value |
| `PatchStream.DecodeUnsignedLeb128` | runtime/leb128.h:31-54 | reading an encoded 32-bit value gives it back and stops behind it |
| `PatchStream.EncodeOatPatches` | compiler/elf_builder.h:509-518 | the buffer grows by the stream of steps between the locations |
| `PatchStream.DecodeOatPatches` | runtime/elf_file.cc:1391-1401 | the runtime's loop visits exactly the encoded locations |
| `OatClasses.MakeOatClass` | compiler/oat_writer.cc:2354-2406 | for every pattern of compiled methods: the type, a bitmap that marks exactly the compiled ones, and the prefix plus entry size times rank as offset of each; the running offset ends at SizeOf |
| `OatClasses.BitmapHolds` | compiler/oat_writer.cc:2384-2389 | the bitmap of a class has a bit for every method, in as few words as possible |
| `OatClasses.SetBitsAreRank` | runtime/oat_file.cc:1268-1288 | counting the bits below a method in the bitmap gives its rank |
| `OatClasses.ReaderFindsEntry` | runtime/oat_file.cc:1268-1288 | the runtime computes for each method the entry that the writer gave it, and none for the others |
| `OatClasses.VisitDexMethods` | compiler/oat_writer.cc:1331-1370 | the visitors meet the compiled methods of all classes in one fixed order |
| `OatClasses.ClassesInOrder` | compiler/oat_writer.cc:1331-1370 | the classes of a dex file come behind those of the dex files before it |
| `OatClasses.MethodsAreVisited` | compiler/oat_writer.cc:574-597 | every compiled method is visited, with its own reference and code, as entry number rank of its class, behind the entries of all classes before |
| `OatClasses.VisitsAreMethods` | compiler/oat_writer.cc:574-597 | every visit is that of a compiled method, at that place |
| `OatRegions.WriteDexFiles` | compiler/oat_writer.cc:1809-1892 | every dex file lands at its aligned offset; padding and bytes add up to the region |
| `OatRegions.ReserveTypeLookupTables` | compiler/oat_writer.cc:2273-2287 | lookup tables follow the dex files, aligned, for exactly the files that have one |
| `OatRegions.ReserveClassOffsets` | compiler/oat_writer.cc:2289-2299 | class offset tables follow the lookup tables, aligned |
| `OatRegions.WriteOatDexFiles` | compiler/oat_writer.cc:2067-2096 | the records fill the space reserved behind the header, each field at its place, and their counters add up to it |
| `OatRegions.WriteOatDexFile` | compiler/oat_writer.cc:2301-2342 | the six fields that Write emits lie one behind the other and together take SizeOf bytes, which the counters grow by |
| `OatRegions.WriteClassOffsets` | compiler/oat_writer.cc:1669-1685 | each table is written at its reserved offset |
| `OatRegions.InitOatClasses` | compiler/oat_writer.cc:1396-1415 | OatClass records follow each other from the end of the tables, each of its own size |
| `OatRegions.WriteClasses` | compiler/oat_writer.cc:1687-1695 | each record is written at its reserved offset, with every field at its place in it, and the counters add up to the sizes |
| `OatRegions.WriteClass` | compiler/oat_writer.cc:2430-2467 | the three or five fields that Write emits lie one behind the other and together take SizeOf bytes, which the counters grow by |
| `OatRegions.BitmapIffSome` | compiler/oat_writer.cc:2447-2448 | bitmap size and bitmap are written exactly for the type kOatClassSomeCompiled, so the CHECK holds |
| `OatRegions.EntryIsWritten` | runtime/oat_file.cc:1268-1288 | the entry that the runtime computes for a compiled method lies among the method offsets that Write has emitted, at its rank |
| `OatRegions.EntryInFile` | runtime/oat_file.cc:1268-1288 | the same for all records of a file |
| `VmapTables.InitOatMaps` | compiler/oat_writer.cc:839-872 | every distinct data pointer gets one place, at the first visit that needs it; headers hold its negated offset modulo 2^32 |
| `VmapTables.AdjustedLeadsBack` | compiler/oat_writer.cc:724-737 | the negated offset, shifted by the code offset modulo 2^32, leads from the code back to the table |
| `VmapTables.AdjustOffsets` | compiler/oat_writer.cc:724-737 | headers that lead, modulo 2^32, from address 0 back to their tables lead there from the code afterwards; methods without a table keep 0 |
| `VmapTables.LeadsBackIsDistance` | compiler/oat_writer.cc:734-737 | below 2^32, with the table in front of the code, such a header is the distance between them, and the write pass gets the offset back |
| `VmapTables.TableBelow` | compiler/oat_writer.cc:839-866 | a new table lies at the running offset, a known one wholly below it |
| `VmapTables.HeaderSays` | compiler/oat_writer.cc:1280-1300 | a header is non-zero exactly for methods with a table, and decodes to the reserved offset |
| `VmapTables.MapMet` | compiler/oat_writer.cc:1297-1313 | at a visit with a table, the decoded offset is the running offset exactly if the table is new; otherwise it is in the file already |
| `VmapTables.WriteMaps` | compiler/oat_writer.cc:1280-1318 | each distinct table is written exactly once, at its first visit, at its reserved offset |
| `VmapTables.SameTable` | compiler/oat_writer.cc:845-860 | methods that share a data pointer share its place |
| `CodeLayout.ReservedApart` | compiler/oat_writer.cc:815-824 | what is reserved for different methods never overlaps: new code lies behind all earlier code, and its thunk between the two |
| `CodeLayout.VisitMethod` | compiler/oat_writer.cc:678-760 | one visit of the first pass extends the plan by one reservation and keeps offset, dedupe map, thunks, code offsets and patch locations as the plan says |
| `CodeLayout.VisitMethods` | compiler/oat_writer.cc:678-831 | the first pass over any walk: each visit uses the code of the first visit it can share with, or reserves new code, with a thunk exactly where the patcher asks for one; code offsets are equal for exactly the visits that are to have the same code |
| `CodeLayout.OffsetsTellCode` | compiler/oat_writer.cc:692-708 | two methods have the same code offset exactly if they use the code of the same first visit |
| `CodeLayout.OffsetsAreShared` | compiler/oat_writer.cc:692-812 | two methods have the same code offset exactly if their code, vmap and patch arrays are the same, or, in debuggable code, if they are the same method and code for it was met by the first of the two |
| `CodeLayout.AlignIsNext` | compiler/oat_writer.cc:815-824 | code goes to the next address that is a multiple of 8 on 32-bit ARM and MIPS and of 16 elsewhere |
| `CodeLayout.ReservedAligned` | compiler/oat_writer.cc:815-824 | every method header and every thunk is at such an address |
| `CodeLayout.InitOatCodeDexFiles` | compiler/oat_writer.cc:1463-1480 | the first pass with the final thunk: code offsets that are shared exactly as they should be, thunks, the list of all addresses in new code, and the size of the file |
| `CodeLayout.LocationsListed` | compiler/oat_writer.cc:747-760 | the patch locations are one entry for every patch of type RecordPosition, Method, Call, Type or String in new code, at its place in that code, in the order of the walk |
| `CodeLayout.ListedIffAddress` | compiler/oat_writer.cc:747-760 | a location is recorded exactly if new code has such a patch there |
| `CodeLayout.ComparisonFindsNewCode` | compiler/oat_writer.cc:1007 | code_offset_ > offset_ holds exactly for new code, unless a Thumb-2 method without code is repeated before more code is reserved |
| `CodeLayout.Stalls` | compiler/oat_writer.cc:747-750 | the running offset of the first pass and the number of its thunks stand still until code is new again |
| `CodeLayout.LocationsAscend` | compiler/oat_writer.cc:747-760 | with sorted patches inside their code, the absolute patch locations ascend over the whole file |
| `CodeWriter.WriteThunks` | compiler/linker/arm/relative_patcher_arm_base.cc:54-77 | a thunk is written, at its location, exactly if the aligned offset is that location |
| `CodeWriter.WriteBody` | compiler/oat_writer.cc:1013-1031 | padding, header and code of one method, each where it belongs |
| `CodeWriter.WriteMethod` | compiler/oat_writer.cc:991-1109 | one visit of the write pass: nothing, or thunk, padding, header and code |
| `CodeWriter.ThunkMetIffReserved` | compiler/linker/arm/relative_patcher_arm_base.cc:54-77 | at new code, the write pass meets a thunk exactly if the first pass reserved one there |
| `CodeWriter.StaysInStep` | compiler/oat_writer.cc:991-1109 | a visit keeps offset and thunk counter of both passes equal, and new code lands at its place |
| `CodeWriter.LosesStep` | compiler/oat_writer.cc:1007 | at a repeated Thumb-2 method without code, the comparison takes old code for new |
| `CodeWriter.RepeatMisplaces` | compiler/oat_writer.cc:1007-1031 | the header of such a repeat is written exactly where the next new method belongs, which then misses its place |
| `CodeWriter.RepeatOvershoots` | compiler/oat_writer.cc:1007-1031 | without a next new method, the write pass ends behind the reserved end |
| `CodeWriter.LandsIffSafe` | compiler/oat_writer.cc:991-1109 | all code lands at its place and the passes end together for exactly the walks without such a repeat; so do all comparisons come out right |
| `CodeWriter.WriteMethods` | compiler/oat_writer.cc:991-1109 | for every walk, safe or not: exactly the methods whose comparison holds are written, each where the offset stands then, and no other method header is |
| `CodeWriter.WriteCodeDexFiles` | compiler/oat_writer.cc:1738-1759 | the same with the final thunk: it ends where the first pass ended with the code of every visit in the file, for exactly the walks without such a repeat; then every thunk is at its location too |
| `CodeWriter.FindsOwnCode` | compiler/oat_writer.cc:692-808 | at its code offset each visit finds a header and the code of a visit with the same arrays, or, in debuggable code, of the same method |
| `CodeWriter.NoEmptyThumbIsSafe` | compiler/dex/dex_to_dex_compiler.cc:353-357 | without Thumb-2 methods that have no code, every walk is safe |
| `CodeWriter.EmptyThumbTwiceIsUnsafe` | compiler/oat_writer.cc:1007 | the smallest unsafe walk |
| `CodeWriter.UnsafeWalkEndsInPlace` | compiler/oat_writer.cc:1600-1606 | an unsafe walk after which offset and size agree, although the header of the repeat is where that of another method belongs |
| `OatWriters.PlaceTrampolines` | compiler/oat_writer.cc:1426-1461 | the trampolines lie aligned, one behind the other, from the executable offset |
| `OatWriters.TrampolinesApart` | compiler/oat_writer.cc:1426-1461 | trampolines are aligned for the instruction set and lie one behind the other |
| `OatWriters.WriteTrampolines` | compiler/oat_writer.cc:1709-1736 | each trampoline is written at its place; padding and bytes add up |
| `OatWriters.WriteDexData` | compiler/oat_writer.cc:427-447 | everything up to the lookup tables is written or reserved, and counted once |
| `OatWriters.WriteRecords` | compiler/oat_writer.cc:2067-2120 | the records go into the space left in front of the dex files, touching nothing else, and the stream moves on behind the lookup tables |
| `OatWriters.ComputeWholeLayout` | compiler/oat_writer.cc:469-516 | records, tables, trampolines, code and dex cache arrays are laid out one behind the other |
| `OatWriters.PlaceDexCaches` | compiler/oat_writer.cc:506-516 | the arrays of the dex files lie one behind the other from the page behind the oat data |
| `OatWriters.LayoutHeaders` | compiler/oat_writer.cc:724-737 | below 4 GiB every vmap table lies in front of all code, as the offset encoding needs |
| `OatWriters.RuntimeFindsTable` | runtime/oat_quick_method_header.h:60-85 | from the header that a method finds, possibly a shared one, the runtime arrives at the method's own vmap table |
| `OatWriters.RuntimeFindsCode` | runtime/oat_file.cc:1268-1288 | from any compiled method the runtime gets to its entry in the record of its class, which is that of its own visit, and from there to its own code |
| `OatWriters.WriteClassRegions` | compiler/oat_writer.cc:1669-1695 | class offset tables and records are written at their places and counted once |
| `OatWriters.WriteMapRegion` | compiler/oat_writer.cc:1697-1707 | vmap tables are written at their places and counted once, and the padding before the code is skipped |
| `OatWriters.WriteRodataRegions` | compiler/oat_writer.cc:1482-1526 | class offset tables, records and vmap tables are written at their places, in ascending order, and counted once |
| `OatWriters.WriteCodeRegions` | compiler/oat_writer.cc:1709-1736 | trampolines, code and thunks are written at their places, in ascending order, and counted once; the code ends at size_ with everything in place for exactly the safe walks |
| `OatWriters.WriteCodeBehindRodata` | compiler/oat_writer.cc:1528-1606 | the code is added to what is in the file already without touching it, and the final CHECKs pass with everything in place for exactly the safe walks |
| `OatWriters.WriteHeaderInFront` | compiler/oat_writer.cc:1612-1667 | the header goes into the space left in front of everything else |
| `OatWriters.OatWriter.WriteAndOpenDexFiles` | compiler/oat_writer.cc:416-467 | dex files and their records are in the file, nothing overlaps, and stream, size and counters are as the next phase expects |
| `OatWriters.OatWriter.PrepareLayout` | compiler/oat_writer.cc:469-525 | the layout is complete, and the padding before the code is counted in advance |
| `OatWriters.OatWriter.WriteRodata` | compiler/oat_writer.cc:1482-1526 | the stream and the counters arrive at the executable offset, with every table in the file and nothing written over |
| `OatWriters.OatWriter.WriteCode` | compiler/oat_writer.cc:1528-1610 | for exactly the safe walks the final CHECKs pass with tables, trampolines, headers, code and thunks in the file at their places and none written over; they are that the stream ends at oat_data_offset_ + size_ and the counters add up to size_ |
| `OatWriters.OatWriter.WriteHeader` | compiler/oat_writer.cc:1612-1667 | the header is written at the beginning and the stream returns to the end; nothing else changes |
| `ElfSections.PlaceOne` | compiler/elf_builder.h:118-148 | a section started behind the others keeps all of them in place |
| `ElfSections.AlignTogether` | compiler/elf_builder.h:743-749 | file positions and addresses a whole number of pages apart stay so under any section alignment |
| `ElfSections.FlagChangeStartsPage` | compiler/elf_builder.h:128-134 | sections with different flags never share a page, in the file or in memory |
| `ElfDynamic.AddString` | compiler/elf_builder.h:294-299 | the new name can be read at the returned offset, and all earlier names still can |
| `ElfDynamic.MakeHash` | compiler/elf_builder.h:675-687 | one bucket whose chain leads through all symbols |
| `ElfDynamic.SearchFrom` | runtime/elf_file.cc:771-805 | the runtime's search along the chain finds the first symbol of a name, or nothing |
| `ElfDynamic.Basename` | compiler/elf_builder.h:623-627 | the soname is what follows the last slash |
| `ElfDynamic.AddCodeSymbols` | compiler/elf_builder.h:645-661 | the symbols of .rodata and .text, with readable names |
| `ElfDynamic.AddBssSymbols` | compiler/elf_builder.h:662-669 | the symbols of .bss, if there is one |
| `ElfDynamic.PrepareDynamicSection` | compiler/elf_builder.h:619-710 | the cached tables hold the predicted addresses, readable names, the soname and a chain through all symbols |
| `ElfPrediction.CodeIsRight` | compiler/elf_builder.h:118-166 | .rodata starts at the second page; .rodata and .text have file offsets equal to their addresses |
| `ElfPrediction.FrontIsRight` | compiler/elf_builder.h:634-643 | .text, .bss, .MIPS.abiflags and .dynstr are placed where they were predicted |
| `ElfPrediction.BackIsPlaced` | compiler/elf_builder.h:689-696 | .dynsym and .hash are placed where they were predicted; .dynamic on the page behind .hash |
| `ElfPrediction.LoadedSizeRightIff` | compiler/elf_builder.h:697-720 | the predicted address of .dynamic and the loaded size are right exactly when no page ends between the two ends of .hash |
| `ElfPrediction.OnePageFits` | compiler/elf_builder.h:697 | fitting in one page is enough |
| `ElfPrediction.FileNamesFit` | compiler/elf_builder.h:697 | every file name of at most 255 characters is safe |
| `ElfPrediction.LongNameMisses` | compiler/elf_builder.h:697 | a name that is not |
| `ElfPrediction.SymbolsAreRight` | compiler/elf_builder.h:645-669 | by name, through the bucket of any hash value, the dynamic linker finds every section at its real address and size; the section index is right but for .bss behind an empty .text |
| `ElfPrediction.EntriesAreRight` | compiler/elf_builder.h:699-708 | the addresses in .dynamic are the real ones in every case |
| `ElfPrediction.QuickChecks` | compiler/elf_builder.h:849-877 | the section order of ElfWriterQuick never trips the alignment CHECK |
| `ElfPrediction.QuickHeadersFit` | compiler/elf_builder.h:600-605 | it never needs more than sixteen program headers |
| `ElfWriters.StartSection` | compiler/elf_builder.h:118-148 | a started section lies at the next suitable place in file and memory |
| `ElfWriters.EndSection` | compiler/elf_builder.h:151-166 | its size is what the stream has moved, and the next section can follow |
| `ElfWriters.WriteNoBitsSection` | compiler/elf_builder.h:188-194 | a section without bits takes memory but no file space |
| `ElfPrediction.QuickRights` | compiler/elf_builder.h:486-488 | .text is mapped to be read and executed, .bss and .dynamic to be read and written, and everything else to be read; no other segment can be executed, and .bss takes no bytes of the file |
| `ElfPrediction.QuickLocations` | compiler/elf_builder.h:879-895 | the last header locates .dynamic, and on MIPS the one before it the ABI flags; there are no others behind the segments |
| `ElfWriters.QuickProgramHeaders` | compiler/elf_builder.h:598-605 | the file gets loadable program headers with these rights in every case |
| `ElfWriters.WriteDynamic` | compiler/elf_writer_quick.cc:208-217 | .bss, .MIPS.abiflags, .dynstr, .dynsym, .hash and .dynamic follow .text in this order with the cached sizes |
| `ElfWriters.ElfWriterQuick.StartRoData` | compiler/elf_writer_quick.cc:182-187 | .rodata starts at file offset and address 4096 |
| `ElfWriters.ElfWriterQuick.SetLoadedSectionSizes` | compiler/elf_writer_quick.cc:169-180 | the dynamic section is prepared from the announced sizes |
| `ElfWriters.ElfWriterQuick.End` | compiler/elf_writer_quick.cc:189-206 | ends .rodata or .text with the bytes written to it |
| `ElfWriters.ElfWriterQuick.StartText` | compiler/elf_writer_quick.cc:195-200 | .text is the second section, empty or not |
| `ElfWriters.ElfWriterQuick.WriteDynamicSection` | compiler/elf_writer_quick.cc:208-217 | the sections follow in their order with the cached sizes; the CHECK of the loaded size holds exactly when .hash fits |
| `ElfWriters.ElfWriterQuick.Finish` | compiler/elf_builder.h:554-612 | the CHECK of the end of memory holds exactly when .hash fits, and the program headers load everything with its rights |
| `ElfWriters.MemoryIsRight` | compiler/elf_builder.h:554-580 | in memory .rodata begins at 4096, and the sections end with the announced size exactly when .hash fits |
| `ProgramHeaders.AddSection` | compiler/elf_builder.h:849-877 | a section joins the last segment, starts one on its own page, or trips the CHECK; the segments so far stay loadable |
| `ProgramHeaders.MakeLoads` | compiler/elf_builder.h:849-878 | for allocated sections before all others: the CHECK never fires exactly if each loaded section can join or is page-aligned; then segments are page-disjoint, ascending and map each section at its address |
| `ProgramHeaders.MakeOthers` | compiler/elf_builder.h:879-895 | exactly the loaded sections with a header type get a header, in section order |
| `ProgramHeaders.MakeProgramHeaders` | compiler/elf_builder.h:826-901 | the whole table: PT_PHDR of the right size, the segments, and the other headers |
| `ProgramHeaders.OneSegment` | compiler/elf_builder.h:849-878 | exactly one segment maps a loaded section |
| `ProgramHeaders.RightsOfSegment` | compiler/elf_builder.h:839-877 | a segment has the rights of the sections in it; the first, with the file headers, is read-only |
| `ProgramHeaders.HeadersAreLoaded` | compiler/elf_builder.h:829-847 | the program headers themselves are inside the first segment |
| `ProgramHeaders.OtherInsideLoad` | compiler/elf_builder.h:879-895 | PT_DYNAMIC and the like describe bytes inside a segment, at the same place |
| `Dex2Oat.AnnounceOatFile` | dex2oat/dex2oat.cc:1700-1720 | the ELF writer is told the sizes that the oat writer will use; the loaded file covers the oat data |
| `Dex2Oat.StartTextSection` | dex2oat/dex2oat.cc:1742 | .text starts where WriteCode expects the stream |
| `Dex2Oat.WriteRodataSection` | dex2oat/dex2oat.cc:1733-1740 | .rodata ends with exactly the executable offset as its size |
| `Dex2Oat.WriteTextSection` | dex2oat/dex2oat.cc:1742-1747 | .text ends with exactly the rest of the oat data |
| `Dex2Oat.WriteOatSections` | dex2oat/dex2oat.cc:1733-1756 | .rodata and .text end with exactly the announced sizes |
| `Dex2Oat.EncodePatchSection` | compiler/oat_writer.cc:747-760 | the patch section encodes exactly the recorded locations, which ascend and are all the addresses in the code |
| `Dex2Oat.FinishOatFile` | dex2oat/dex2oat.cc:1764-1771 | dynamic section, patch section and headers: all CHECKs hold exactly when .hash fits, the headers load every section |
| `Dex2Oat.WriteOatData` | dex2oat/dex2oat.cc:1733-1766 | .rodata, .text and header are complete and counted, and the patch locations can be encoded |
| `Dex2Oat.FinishBehindOat` | dex2oat/dex2oat.cc:1764-1771 | the rest of the ELF file leaves the oat data as it is, and the patch section has the size of the patch stream |
| `Dex2Oat.WriteOatFile` | dex2oat/dex2oat.cc:1722-1771 | a whole file: all comparisons succeed exactly when .hash fits; it can be loaded, everything is in place and counted, nothing is written over, and the patch section has the size of the patch stream |
| `Dex2Oat.StartOatFile` | dex2oat/dex2oat.cc:1389-1404 | from construction to the dex files: both writers share the stream, and oat data starts with .rodata at 4096 |
| `Dex2Oat.PrepareOatFile` | dex2oat/dex2oat.cc:1700-1720 | every valid input leads to a layout and an announcement that the second loop can start from |
| `Dex2Oat.CreateOatFile` | dex2oat/dex2oat.cc:1700-1771 | the whole run from nothing but a valid input with a safe walk and sorted patches: if the layout it computes stays below 4 GiB, which the method reports, all comparisons succeed exactly when .hash fits, the program headers load the announced sections, and everything is in place, counted once and not written over |
| `Dex2Oat.CreateOatFiles` | dex2oat/dex2oat.cc:1700-1771 | all oat files: each run is as for one file, and the image writer has the address range of each, in order behind the images, as announced |
| `Dex2Oat.CreatedAsAnnounced` | dex2oat/dex2oat.cc:1722-1771 | every file that was written has the sections and sizes that were announced before |
| `Dex2Oat.LoadedWhereAnnounced` | compiler/image_writer.cc:2385-2412 | .rodata of a written file lies where the image writer believes the oat data to begin, the oat data ends inside the address range of the file, and the sections end where the range ends exactly if all comparisons hold |
| `OatReader.ReadRecord` | runtime/oat_file.cc:268-432 | the runtime reads exactly the six fields that the writer has written for a dex file, in their order and places, and the checks refuse exactly what leads out of the oat data, is not aligned, or has no name |
| `OatReader.Setup` | runtime/oat_file.cc:236-455 | for any file, all records are read where the writer puts them, the file is accepted exactly if every record passes the checks, and the dex cache arrays are looked for in .bss one behind the other |
| `OatReader.WriterIsAccepted` | runtime/oat_file.cc:268-455 | what the writer lays out passes the checks if every dex location has a name and every dex file a header; the arrays are where the writer believes them to be |
| `OatReader.RuntimeAccepts` | runtime/oat_file.cc:236-455 | so the runtime accepts every finished oat file with such dex files |
| `Dex2Oat.BssDistance` | compiler/oat_writer.cc:506-516 | .bss is as far from .rodata in memory as the oat writer assumes |
| `Dex2Oat.DexCachesInBss` | compiler/oat_writer.cc:506-516 | the offsets of the dex cache arrays are true distances from .rodata to their bytes in .bss, which they fill in order |
| `ImageBins.ComputeBinOffsets` | compiler/image_writer.cc:1492-1517 | bins lie one behind the other, aligned for their contents; mirror bins and method bins leave no gaps |
| `ImageBins.CreateImageSections` | compiler/image_writer.cc:1552-1606 | the sections are ordered and disjoint, and every bin is inside its section |
| `ImageBins.Pack` | compiler/image_writer.cc:594-611 | taking the next bytes of a bin keeps all slots packed |
| `ImageBins.ItemsDisjoint` | compiler/image_writer.cc:1492-1547 | no two of all objects, fields, methods, IMTs, conflict tables and dex cache blocks overlap in the image |
| `ImageBins.ItemInBin` | compiler/image_writer.cc:353-365 | each of them is inside its bin, at a multiple of 8 for objects, of 4 for fields and of the pointer size otherwise |
| `ImageBins.MirrorObjectsFill` | compiler/image_writer.cc:1514-1517 | every byte between the first object and image_end_ belongs to an object |
| `ImageBins.NativeBehindObjects` | compiler/image_writer.cc:1492-1517 | native data starts behind image_end_ |
| `ImageBins.NativeSizes` | runtime/art_method.h:641-644 | the sizes of methods, interface method tables, conflict tables and array headers, in words and pointers |
| `ImageInfos.ObjectBin` | compiler/image_writer.cc:503-592 | classes are kept apart by whether they are initialized and whether all their static fields are final; strings, plain objects with dex caches, and all others have bins of their own |
| `ImageInfos.ImageInfo.AssignObject` | compiler/image_writer.cc:490-611 | an object gets the next aligned bytes of the bin for its kind, and image_end_ grows by them |
| `ImageInfos.ImageInfo.AssignArray` | compiler/image_writer.cc:1105-1136 | prefix and elements of an array lie where an access through the array looks for them |
| `ImageInfos.ImageInfo.AssignFields` | compiler/image_writer.cc:1105-1136 | the same for the fields of a class |
| `ImageInfos.ImageInfo.AssignMethods` | compiler/image_writer.cc:1137-1175 | the same for its methods, all in the dirty bin if any is dirty |
| `ImageInfos.ImageInfo.PrepareDexCacheArraySlots` | compiler/image_writer.cc:416-428 | a block for the arrays of every dex file |
| `ImageInfos.ImageInfo.PlaceBins` | compiler/image_writer.cc:1492-1528 | after any mix of assignments, all bins and sections have their places inside the page-rounded image |
| `ImageInfos.ItemInSection` | compiler/image_writer.cc:1552-1606 | whatever has a slot lies, aligned, in the section of its bin: fields in the field section, methods in the method section, and so on |
| `NativeRelocations.Relocations.TryAssignImTable` | compiler/image_writer.cc:1219-1234 | an interface method table that is not null, not in the boot image and has no place yet gets one, and otherwise nothing changes |
| `NativeRelocations.Relocations.TryAssignConflictTable` | compiler/image_writer.cc:1236-1252 | the same for a conflict table; the CHECK fails exactly for a new table in the boot image |
| `NativeRelocations.Relocations.AssignRuntimeMethod` | compiler/image_writer.cc:1254-1267 | a runtime method gets a place behind its conflict table; the CHECKs fail exactly if it has one already or its new table is in the boot image; places never change and are never shared |
| `NativeRelocations.Relocations.AssignImtMethods` | compiler/image_writer.cc:1176-1187 | the CHECKs fail exactly if a runtime method outside the boot image without a place is met whose conflict table has none either and is in the boot image; otherwise every runtime method of the table outside the boot image has its one place, new ones have their conflict tables placed, and nothing else gets a place |
| `LockWords.BinSlotSurvivesIff` | compiler/image_writer.cc:2313-2334 | bin and index come back from the lock word, with clear read barrier bits, exactly if the index is below 2^27 |
| `LockWords.SlotBits` | compiler/image_writer.cc:2323-2326 | a bin slot is its index with the bits of the bin or-ed into bits 27 to 29 |
| `LockWords.StatesOfWords` | runtime/lock_word.h:111-140 | default words, thin locks, fat locks and hash codes have their states, and a hash code comes back |
| `LockWords.ForwardSurvives` | runtime/lock_word.h:120-123 | an aligned address survives forwarding |
| `ObjectHeaps.ObjectHeap.SetImageBinSlot` | compiler/image_writer.cc:384-414 | fails exactly for locked objects; saves exactly the hash code |
| `ObjectHeaps.ObjectHeap.AssignImageOffset` | compiler/image_writer.cc:337-365 | the slot in the lock word is replaced by the offset of that slot; the DCHECK of the read barrier bits holds exactly for offsets below 2^30 |
| `ObjectHeaps.ObjectHeap.CopyObject` | compiler/image_writer.cc:1889-1946 | the copy goes to the offset in the lock word, gets the saved hash code or a clear word, and every reference becomes the address of its target |
| `ObjectHeaps.ObjectHeap.GetImageAddress` | compiler/image_writer.h:80-88 | null and boot image objects stay as they are; any other target is found, through its lock word, where its slot will be |
| `ObjectHeaps.ObjectHeap.RestoreHashes` | compiler/image_writer.cc:1836-1846 | exactly the saved hash codes go back |
| `ObjectHeaps.WriteObjects` | compiler/image_writer.cc:337-414 | over the whole life of the lock words: copies and hashed originals end with their own hash codes, references lead to the places of their targets; fails exactly if an object is locked |
| `ImageWorklist.FindInternedString` | compiler/image_writer.cc:952-975 | the one interned string of a content, if there is one |
| `ImageWorklist.TryAssignBinSlot` | compiler/image_writer.cc:1062-1213 | every call settles its reference, returns what the reference becomes, and keeps tables, slots and stack consistent |
| `ImageWorklist.VisitReferences` | compiler/image_writer.cc:1302-1344 | all references of an object are rewritten and settled |
| `ImageWorklist.ProcessWorkStack` | compiler/image_writer.cc:1372-1382 | the loop ends, because objects without slots run out, with every object that has a slot visited |
| `ImageWorklist.AssignRoots` | compiler/image_writer.cc:1427-1450 | roots and interned strings are settled |
| `ImageWorklist.VisitBootImage` | compiler/image_writer.cc:1456-1473 | for an app image, the references of boot image objects are rewritten too |
| `ImageWorklist.ImageWriter.Traverse` | compiler/image_writer.cc:1427-1476 | exactly the reachable objects outside the boot image have a slot, each once, in an image of their own or that of a root or object that leads to them; all references are rewritten; intern tables never share a content |
| `ImageWorklist.ImageWriter.EnsureBinSlotsAssigned` | compiler/image_writer.cc:1269-1275 | the CHECK passes exactly if every live object outside the boot image is reachable |
| `ImageWorklist.SlotsAreReachable` | compiler/image_writer.cc:1372-1382 | having a slot is the same as being reachable |
| `ImageWorklist.ReachableIffPath` | compiler/image_writer.cc:1302-1344 | reachable means at the end of a chain of references from a root |
| `ImageWorklist.RewrittenIsSettled` | compiler/image_writer.cc:1205-1213 | a rewritten reference is null, in the boot image, or leads to an object with a slot |
| `ImageWorklist.RewrittenKeepsMeaning` | compiler/image_writer.cc:1205-1213 | a reference is left as it is unless it leads from a visited object to a string outside the boot image; then it leads to a string of the same content, in the boot image exactly if an app image finds it there |
| `ImageWorklist.EqualStringsMeet` | compiler/image_writer.cc:1205-1212 | references to equal strings outside the boot image become the same reference, whatever the order |
| `ImageWorklist.InternString` | compiler/image_writer.cc:1073-1081 | the first string of a content becomes the interned one and has its slot in the image of its table |
| `ImageLayout.AssignObjects` | compiler/image_writer.cc:490-611 | different objects get different slots, large enough for them, at the next bytes of their bins |
| `ImageLayout.LayOutImage` | compiler/image_writer.cc:490-611 | the objects of one image: every slot and offset fits into a lock word if each index is below 2^27 and the image below 4 GiB |
| `ImageLayout.LayOutImages` | compiler/image_writer.cc:1492-1528 | the same for all images, each object in the image it belongs to |
| `ImageLayout.WriteImages` | compiler/image_writer.cc:1384-1550 | from the traversed heap to the copies: every reachable object has its own place in its image and is copied there with its hash code and its references; fails exactly if an object is locked |
| `ImageLayout.HasRoom` | compiler/image_writer.cc:2313-2334 | tells exactly whether every slot and offset of every image fits into a lock word |
| `ImageLayout.WriteReached` | compiler/image_writer.cc:1384-1550 | the same for a traversal whose room is not yet known: it stops exactly if a slot or offset does not fit |
| `ImageLayout.CreateImages` | compiler/image_writer.cc:1384-1550 | the whole run from the roots: stops exactly if a live object is not reachable, a lock word has no room, or a reachable object is locked; otherwise exactly the reachable objects have places, all their own, and each is copied with its hash code and with fields that mean what those of the original did |
| `ImageLayout.CopyInImage` | compiler/image_writer.cc:1889-1912 | a copy lies, aligned to 8 bytes, below image_end_ in the address range of its image |
| `ImageLayout.CopiesApart` | compiler/image_writer.cc:1492-1547 | copies never overlap, in one image or in two |
| `ImageLayout.ReferenceFindsCopy` | compiler/image_writer.cc:1914-1946 | a reference in a copy is null, leads into the boot image, or holds the address of the copy of its target |
| `ImageLayout.CopiesKeepGraph` | compiler/image_writer.cc:1889-1946 | every field of every copy means what the field of the original did before the traversal: null, the same boot image object, the copy of the same object, or for a string one of the same content |
| `ImageLayout.AddressesTell` | compiler/image_writer.h:80-88 | copied references are equal exactly if the references were, so the copies have the shape of the object graph; boot image targets count as apart from new ones |
| `ImageLayout.PointersTell` | compiler/image_writer.h:80-88 | the same for the pointers as numbers, if the boot image lies outside the address range of the new images |
| `ImageLayout.PlacesApart` | compiler/image_writer.cc:1492-1547 | no two places of all images overlap in memory |
| `ImageLayout.NativesApart` | compiler/image_writer.cc:1990-2002 | different native objects have disjoint locations, in one image or in two |
| `ImageLayout.NativeApartFromCopy` | compiler/image_writer.cc:1990-2002 | native objects never overlap the copy of an object |
| `ImageLayout.ElementInArray` | compiler/image_writer.h:92-103 | the address of a dex cache array element is in the array of its dex file, as far behind its start as the layout says, and inside the image |
| `ImageLayout.ElementApart` | compiler/image_writer.h:92-103 | the element overlaps no other array, object or native data of any image |
| `ImageChain.Images.PlaceImages` | compiler/image_writer.cc:1519-1528 | images lie one behind the other from the base |
| `ImageChain.Images.UpdateOatFileLayout` | compiler/image_writer.cc:2385-2412 | one oat file gets its addresses and passes its end on to the next |
| `ImageChain.Images.UpdateAll` | dex2oat/dex2oat.cc:1700-1720 | in index order, oat files lie one behind the other from the end of the last image |
| `ImageChain.RangesDisjoint` | compiler/image_writer.cc:2385-2412 | no two images and no two oat files overlap, and there are no gaps |
| `ImageChain.OatBehindImages` | compiler/image_writer.cc:2385-2412 | every oat file lies behind every image, and oat data inside its oat file |

## Left out

- Failing streams, files, memory maps, compression and checksums: every write and seek succeeds.
- The contents of code, dex files, headers and tables: the stream records what kind of bytes go where.
- Patching the code of a method before it is written, and the table of method addresses for the image.
- The relative patchers' decision whether a call needs a thunk: an input; the model is of one oat file per patcher.
- The warning about multiple definitions and the patcher's map from methods to offsets, except where debuggable code is shared through it.
- Frame sizes and spill masks of methods that share code.
- The five counters of the trampolines are one, and 32-bit counters and section sizes do not wrap around.
- Type lookup tables are reserved and counted, but written to mapped memory outside the stream.
- Visitors and section objects are values threaded through methods, so aliasing between them is not modelled.
- Debug sections, MIPS ABI flags contents, ELF header constants, section names and section headers.
- Which image a class or dex cache belongs to: an input.
- The CHECKs that no field or method array is met twice: their places are kept as items, not by pointer.
- The order in which slots are assigned across images: each image gets its objects in the order of the traversal.
- The ArtMethod pointer of a reflected method, which FixupObject takes from the first image's base, and pointer arrays.
- Dex2Oat.CreateOatFiles: each file goes through both loops before the next and the image writer is told of all in the end; the writers share nothing, so the order does not show in the results.
- CodeWriter.WriteCodeDexFiles: of the thunks only those for relative calls; the thunks for the Cortex-A53 erratum (compiler/linker/arm64/relative_patcher_arm64.cc) and their counter `size_misc_thunks_` are not modelled.
- ObjectHeaps.WriteObjects: lock words without read barriers; unhashed originals keep their forwarding address, as in the code.
- Copying and fixing up native data, image headers and bitmaps.
- Options, profiles, watchdogs and the driver's threads.
