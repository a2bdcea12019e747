# VerkOS algorithms in Dafny

VerkOS is a small operating system with its own tools. This project models the parts of it whose
correctness is a matter of algorithms rather than of hardware, and proves what they are for:

- **bzip2** (`Bz*`): the compressor and decompressor of `vbzip2`, stage by stage and as a whole, down
  to the bits of the format. Everything `compress` writes is read back by `decompress`, exactly as long
  as no code length had to be clamped.
- **gzip** (`Gz*`, `Inflate`, `Gzip`): LZ77 with hash chains, fixed Huffman codes, the inflater for all
  block types, and the container.
- **Copy-on-write address spaces** (`Vm*`): page allocator, reference counts, three-level page tables,
  fork by sharing, faults and teardown. The simple specification is a machine in which fork copies.
- **TCP** (`Tcp*`): two sockets over a network that loses, repeats and reorders.
- **The scheduler** (`Sched*`): round robin on any number of processors under one lock.
- **FAT32** (`Fat*`): table, chains, files and directory records on one array of device sectors.
- **Arithmetic modulo 2^255 - 19** (`Ed*`): sixteen signed limbs in 64-bit integers.
- **Device trees** (`Fdt*`): the boot loader's writer and the kernel's reader, written separately, undo
  each other.
- **Pipes and descriptors** (`Pipe*`): reference-counted file objects named from the slots of every
  process, the ring between a pipe's ends, and every run of the calls.

Each part has the same shape. A specification in functions and predicates (what a bit string decodes to,
what a page table maps, what a directory holds) comes first; methods and classes that follow the C code
step by step are proved against it; and the promises are theorems about the specification, so that they
hold of what the methods do. `Bits`, `Seqs`, `Options`, `Pigeonhole` and `CountingSort` are shared.

All files are verified together, with `dafny verify dfyconfig.toml`.

## Model

| member | source | states |
|---|---|---|
| Bzip2.RoundTrip | pkg/vbzip2/vbzip2.c:102-219 | Decompressing what was compressed gives back the input, for every input and every level 1 to 9, over any number of blocks in one bit stream, provided no tree depth was clamped at 17 in any block. |
| Bzip2.SmallRoundTrip | pkg/vbzip2/vbzip2.c:102-219 | For inputs of at most 5204 bytes that needs no proviso. |
| BzEncoder.Compress | pkg/vbzip2/vbzip2.c:207-219 | The loops that write produce exactly the bytes of the specification that RoundTrip is about. |
| BzDecoder.Decompress | pkg/vbzip2/vbzip2.c:102-113 | On every byte string, the loops that read return exactly what the specification reads: the data, a refusal, or nothing claimed where the C code leaves its arrays. |
| BzBlock.BlockRoundTrip | pkg/vbzip2/vbzip2.c:34-101 | A written block decodes to its raw bytes, checksum verified, and leaves the stream at its end. |
| BzBlock.BlockSymbolsIff | pkg/vbzip2/vbzip2.c:64-79 | A written block's symbols are read up to where they were written if and only if every code it uses fits its length. |
| BzBlock.UsedFitIff | pkg/vbzip2/vbzip2.c:117-141 | The codes a compressed block uses all fit if and only if no depth was clamped: the end-of-block symbol always occurs, and its code is one that would not fit. |
| BzBlock.SymbolsBackIff | pkg/vbzip2/vbzip2.c:153-206 | So a compressed block's symbols come back if and only if no depth was clamped. |
| BzClamped.InputClamps | pkg/vbzip2/vbzip2.c:134-134 | A concrete input of 132,089 bytes, one block, on which a depth is clamped and a code in use does not fit. |
| BzLightest.LightestDeep | pkg/vbzip2/vbzip2.c:126-134 | A leaf of weight one lies at most one level above the deepest leaf, because merging the two lightest never puts a lighter node higher than a heavier one. |
| BzDeep.SteepDeep | pkg/vbzip2/vbzip2.c:126-134 | Symbols whose weights grow fast enough are merged last, one by one, so the tree is as deep as they are many on top of the rest. |
| BzClamped.TextPlan | pkg/vbzip2/vbzip2.c:160-184 | What the sort, the move-to-front stage and the counting make of a text that counts on odometers: a lower bound for every symbol's frequency. |
| BzText.OrderAscends | pkg/vbzip2/vbzip2.c:148-161 | The rotations of such a text in order, given explicitly. |
| BzUnBwt.UnBwtBwt | pkg/vbzip2/vbzip2.c:81-89 | The inverse transform gives back every non-empty string, periodic ones included, from the last column and the row of the original. |
| BzUnBwt.Unwind | pkg/vbzip2/vbzip2.c:81-89 | The packed counting links and the walk in place compute that inverse. |
| BzBwt.BwtCmp | pkg/vbzip2/vbzip2.c:148-152 | The comparison is negative, zero or positive exactly as the rows sort, ties by starting index. |
| BzBwt.Transform | pkg/vbzip2/vbzip2.c:159-164 | Last column and row of the original, for the sorted rows. |
| BzRle1.DecodeEncode | pkg/vbzip2/vbzip2.c:142-146 | Decoding undoes the first run-length stage, from any point in a run. |
| BzRle1.Rle1 | pkg/vbzip2/vbzip2.c:142-146 | The loop computes that stage. |
| BzMtf.DecodeEncode | pkg/vbzip2/vbzip2.c:170-182 | Move-to-front with bijective base-2 zero runs is undone by the decoder, whatever run is pending. |
| BzMtf.EncodeColumn | pkg/vbzip2/vbzip2.c:170-181 | The array rotations and run flushes compute that symbol stream. |
| BzTree.HuffmanCovers | pkg/vbzip2/vbzip2.c:126-131 | The tree that merging builds has every symbol as a leaf exactly once. |
| BzTree.HuffmanHeight | pkg/vbzip2/vbzip2.c:126-131 | A tree of height h weighs at least Fib(h + 2). |
| BzLengths.FitIffUnclamped | pkg/vbzip2/vbzip2.c:117-141 | For every frequency table, all canonical codes fit their lengths if and only if no depth was clamped, and then the Kraft sum is exactly one. |
| BzLengths.LightIsUnclamped | pkg/vbzip2/vbzip2.c:117-136 | Below a total weight of 6765 nothing is clamped. |
| BzLengths.LastCodeFails | pkg/vbzip2/vbzip2.c:134-140 | When a depth is clamped, a last symbol that occurs at most once gets the longest length and a code beyond it. |
| BzMkLengths.MkLengths | pkg/vbzip2/vbzip2.c:117-136 | The heap, parent arrays and explicit stack compute the clamped depths in that tree. |
| BzTables.GenCodes | pkg/vbzip2/vbzip2.c:137-141 | The numbering loop assigns the canonical codes. |
| BzTables.BuildTables | pkg/vbzip2/vbzip2.c:49-63 | The limit, base and perm arrays are those of the canonical codes for every usable length table. |
| BzHuffman.WordDecodes | pkg/vbzip2/vbzip2.c:70-70 | A symbol's code word is read as that symbol, in exactly its length, if and only if the code fits the length. |
| BzHuffman.FitIffKraft | pkg/vbzip2/vbzip2.c:137-141 | All canonical codes fit if and only if the lengths satisfy Kraft's inequality. |
| BzCrc.TableStepIsEightShifts | pkg/vbzip2/vbzip2.c:19-20 | One step by table equals eight single-bit steps of the checksum. |
| BzBitIO.BitWriter.Put | pkg/vbzip2/vbzip2.c:28-29 | Exactly the low bits of the value are appended, most significant first. |
| BzBitIO.BitReader.Get | pkg/vbzip2/vbzip2.c:26-27 | The bits at the reader's position are returned as a number, zeros past the end. |
| GzDeflate.Deflate | pkg/vgzip/vgzip.c:177-212 | For every input below 2^31 bytes: matches have length 3 to 258 and distance 1 to 32768, they expand to the input, and inflating the output, whatever follows it, gives the input. |
| GzDeflate.OneToken | pkg/vgzip/vgzip.c:185-208 | Each round emits one literal or match that is right at its place, and keeps the hash chains. |
| Inflate.TokensBack | pkg/vgzip/vgzip.c:80-93 | A block of tokens in fixed codes inflates to their expansion, overlapping copies included, and ends at its last bit. |
| Inflate.InflateBack | pkg/vgzip/vgzip.c:94-135 | So does the whole stream, with whatever follows it. |
| GzInflate.InflateAll | pkg/vgzip/vgzip.c:94-135 | On every byte string the loops return what the specification reads for stored, fixed and dynamic blocks. |
| GzInflate.HuffBuild | pkg/vgzip/vgzip.c:56-63 | Counts and the symbol list are those of the lengths. |
| GzInflate.HuffDecode | pkg/vgzip/vgzip.c:64-74 | The bit-by-bit scan returns the symbol the canonical code means. |
| GzHuffman.WordDecodes | pkg/vgzip/vgzip.c:55-74 | For lengths 0 to 15, a symbol's code word is decoded to it in exactly its length if and only if the code fits. |
| GzHuffman.FitIffKraft | pkg/vgzip/vgzip.c:55-74 | All codes fit if and only if the Kraft sum is at most one. |
| GzFixed.LitDecodes | pkg/vgzip/vgzip.c:105-114 | Every fixed literal or length code is decoded to its symbol. |
| GzTokens.LenCovered | pkg/vgzip/vgzip.c:152-156 | The symbol chosen for a length can express it. |
| GzTokens.DistCovered | pkg/vgzip/vgzip.c:157-161 | The symbol chosen for a distance can express it. |
| GzTokens.CopyIs | pkg/vgzip/vgzip.c:91-91 | Copying byte by byte from behind, overlap included, reproduces a run that repeats. |
| GzCrc.TableStepIs | pkg/vgzip/vgzip.c:20-31 | One step by table of the reflected checksum equals eight single-bit steps. |
| Gzip.Compress | pkg/vgzip/vgzip.c:215-223 | What is written opens to the input. |
| Gzip.Decompress | pkg/vgzip/vgzip.c:224-237 | On every byte string the result is what the container says, optional header fields and checksum included. |
| Gzip.ContainerOpens | pkg/vgzip/vgzip.c:215-237 | Header, any body that inflates to the data, checksum and size open to the data. |
| VmKernel.Kernel.Fork | pkg/stam/vm.c:306-356 | Every space keeps its view and the child's equals the parent's, page by page; each page of the parent is counted exactly once more; and it succeeds whenever one page and two more for each mapped page are left. |
| VmKernel.Kernel.CowFault | pkg/stam/vm.c:99-152 | No view changes, one entry becomes writable; it succeeds exactly when the entry was shared read-only and, if others hold the page, a page is left. |
| VmKernel.Kernel.Store | pkg/stam/vm.c:99-152 | A store, after a fault where needed, changes one word of the storing space's view and no other view. |
| VmKernel.Kernel.FreeSpace | pkg/stam/vm.c:358-382 | The space and its tables are gone, every other view is unchanged, and all ownership invariants hold. |
| VmKernel.Kernel.MapPage | pkg/stam/vm.c:154-183 | One page of one view changes, tables being made on the way; failure changes no view. |
| VmKernel.Kernel.UserOk | pkg/stam/vm.c:229-267 | A range is accepted only if it is below the limit and every page of it is mapped, and writable when asked; reading is refused only for an unmapped page. |
| VmKernel.Kernel.NewSpace | pkg/stam/vm.c:284-304 | A new space maps nothing and changes no other. |
| VmKernel.Kernel.AllocPage | pkg/stam/mmu.c:172-198 | A page nobody has is returned cleared, unless the free list and the bump range are both exhausted. |
| VmKernel.Kernel.FreePage | pkg/stam/mmu.c:151-160 | The page goes back to the list, which stays without repetition. |
| VmRun.Run | pkg/stam/vm.c:99-382 | Over every sequence of loads, stores, forks and exits, every process sees what it would if fork had copied everything; the run stops only at a fork of a process that maps a page whose count is full. From an empty machine on, as long as loads go to unmapped pages and forks find memory, every page has exactly one holder more than its count, there are no more spaces than living processes, and with at most 255 of those the run does not stop. |
| VmRun.Perform | pkg/stam/vm.c:99-382 | The same for one operation, which fails only without the right or without memory; a load to an unmapped page, a fork that succeeds, a store and an exit leave no count astray and no space without a process. |
| VmFork.ForkWhole | pkg/stam/vm.c:313-348 | Sharing one page and linking it into the child is a step of copying it. |
| VmBounds.HoldersAtMost | pkg/stam/mmu.c:103-138 | A page has at most as many holders as there are spaces. |
| VmBounds.RoomToFork | pkg/stam/mmu.c:103-109 | With at most 255 spaces no count is full. |
| VmBounds.NothingLost | pkg/stam/vm.c:358-382 | Where counts are exact, a page in use has a holder. |
| VmBounds.CountFollowsIff | pkg/stam/mmu.c:103-109 | Sharing keeps "holders are the count plus one" if and only if the count was below 255. |
| VmBounds.FullCountFrees | pkg/stam/mmu.c:103-132 | Shared once more at 255, a page has 257 holders; when any 256 of them have let go, one after another, it is on the free list, it was not before, and one entry still holds it. |
| VmFull.CountOverflows | pkg/stam/mmu.c:103-132 | On every machine with 772 free pages, one load and 255 forks make such a state: the count is 255 and the next fork is about to share the page; and then that follows. |
| TcpStream.StreamSafety | pkg/stam/tcp.c:138-433 | Over every run, as long as no send was abandoned and fewer than 2^32 - 2 bytes were given, what was received is a beginning of what was given; end of stream means all of it; and a finished send has arrived. |
| TcpAbandoned.AbandonedSendBreaks | pkg/stam/tcp.c:383-383 | A run with an abandoned send after which the receiver has the first and third byte of three. |
| TcpConverse.AbandonBreaks | pkg/stam/tcp.c:353-387 | In every run: when an end abandons its first send and takes its numbers back while both ends are open, the run can go on so that the other end's program has read what is no beginning of what was given. |
| TcpSeq.AcceptIff | pkg/stam/tcp.c:84-84 | The two modular comparisons accept an acknowledgement exactly when it lies between the oldest unacknowledged and the next number. |
| TcpSeq.AckIff | pkg/stam/tcp.c:217-230 | In positions of the stream: accepted exactly when not older than what is acknowledged. |
| TcpSocket.Socket.Input | pkg/stam/tcp.c:190-245 | The socket fields change, and replies go out, as the specification of a segment's arrival says. |
| TcpSocket.Socket.Recv | pkg/stam/tcp.c:393-410 | Bytes leave the buffer from the front; end of stream only when it is empty and the end was seen. |
| TcpSocket.Socket.StartChunk | pkg/stam/tcp.c:359-373 | The next chunk is numbered and sent. |
| Sched.Exclusion | pkg/stam/sched.c:285-359 | After every run of steps on any number of processors, a thread runs exactly when it is current on exactly one, idlers run only at home, and every processor has something to run. |
| Sched.ApplyInv | pkg/stam/sched.c:481-609 | Each step keeps that: schedule, block on console, child or pipe with or without a deadline, wake, signal. |
| Sched.BoundedWaiting | pkg/stam/sched.c:252-265 | A runnable thread a processor may run has run somewhere by the time that processor has made as many decisions as there are threads. |
| SchedTable.Table.ScheduleLocked | pkg/stam/sched.c:285-359 | The loop over the table makes the decision of the specification. |
| SchedTable.Table.NextRunnable | pkg/stam/sched.c:252-265 | The scan finds the first eligible slot after the given one, cyclically. |
| SchedTable.Table.SignalTo | pkg/stam/sched.c:554-567 | Every addressed thread gets the signal and is woken; the count is of those reached. |
| FatVolume.Volume.Write | pkg/stam/fat.c:390-450 | The range at the offset is replaced, at most at the end; every other file and every other directory record is unchanged; on a full disk exactly the prefix stored is counted; and the volume stays in order if and only if the end stays below 2^32. |
| FatVolume.Volume.Read | pkg/stam/fat.c:341-372 | Exactly the bytes of the file from the offset on, as many as there are. |
| FatVolume.Volume.Truncate | pkg/stam/fat.c:452-466 | The file is empty, exactly its clusters are free, nothing else changes. |
| FatVolume.Volume.Create | pkg/stam/fat.c:485-554 | The first free record, or one in a new cluster when there is none, becomes an empty file's; it fails exactly when the name does not fit or nothing is free; no other record changes. |
| FatVolume.Volume.Mkdir | pkg/stam/fat.c:617-661 | The new entry is a directory of one cluster with its own two records, naming itself and its parent, and nothing else; without a cluster it stays an empty file. |
| FatVolume.Volume.Unlink | pkg/stam/fat.c:663-686 | For any record a lookup can find: refused exactly for the root and for a directory in which something but "." and ".." is listed; otherwise exactly the clusters the record leads to are free and it is marked deleted; and the volume is in order if and only if it was refused, or the record is an entry, not a directory's own "." or "..", and no other entry lay in what was removed. |
| FatVolume.Volume.DirFind | pkg/stam/fat.c:263-317 | The first record listed under the name, with a handle that says what the record says, and for an entry what the volume says. |
| FatOwn.RecordLeads | pkg/stam/fat.c:263-317 | What a lookup's record leads to: an entry's own chain, the directory's for its ".", its parent's for its "..", or by cluster 0 the root's. |
| FatBroken.RemoveSelf | pkg/stam/fat.c:663-686 | Removing any empty directory by the path of its own "." succeeds, and its entry then names a free cluster, so that the volume is not in order however clusters are assigned. |
| FatBroken.HideAndRemove | pkg/stam/fat.c:471-686 | Creating "..." in any empty directory, whenever that can be done, and removing the directory succeeds, and the file's record lies in no directory. |
| FatBroken.LoseFile | pkg/stam/fat.c:471-686 | That run from a new disk on: make a directory, create "..." in it, remove it. |
| FatBroken.LoseDirectory | pkg/stam/fat.c:617-686 | And the other: make a directory, remove it by its own ".". |
| FatMaking.FormattedDirs | pkg/vmkfs/vmkfs.c:177-198 | The volume the formatter leaves, of any size, is in order. |
| FatVolume.Volume.DirWriteback | pkg/stam/fat.c:380-388 | First cluster and length of one record change, no byte of any other. |
| FatVolume.Volume.NthEntry | pkg/stam/fat.c:567-611 | The record listed under a number, or none. |
| FatVolume.Volume.FatSet | pkg/stam/fat.c:139-153 | The entry changes in every copy of the table, each keeping its reserved bits. |
| FatVolume.Volume.ClusAlloc | pkg/stam/fat.c:159-184 | The first free cluster, marked and cleared, or none if none is free. |
| FatVolume.Volume.FreeChain | pkg/stam/fat.c:457-462 | Ends on every table and frees what the specification says. |
| FatMaking.BareIff | pkg/stam/fat.c:666-676 | The test for an empty directory passes exactly when every entry in it is named "." or "..". |
| FatNames.Make83 | pkg/stam/fat.c:471-483 | A name that does not fit 8.3 is refused, any other is stored upper-cased and padded. |
| FatNames.ThreeDots | pkg/stam/fat.c:471-483 | The name of three dots is stored under the name of the parent directory. |
| FatDisk.SectorsApart | pkg/stam/fat.c:212-214 | Different sectors of clusters are different sectors of the device. |
| FatChains.FreeFromChain | pkg/stam/fat.c:452-466 | On a well-formed table freeing from a chain's head frees exactly that chain and leaves every other entry. |
| FatChains.NonZeroFalls | pkg/stam/fat.c:457-462 | Each round of freeing takes one entry, so it ends on every table, cyclic ones too. |
| FatState.FitsIff | pkg/stam/fat.c:390-450 | The chain length that is kept is the size over the cluster size, rounded up. |
| FatFiles.BytesOver | pkg/stam/fat.c:420-436 | Rewriting part of a sector rewrites that part of the file and nothing else. |
| EdArith.Mul | pkg/vboot/ed25519.h:163-170 | For limbs below 2^26 no intermediate leaves a signed 64-bit integer, the result is the product modulo p, and its limbs are below 2^17. |
| EdArith.Car | pkg/vboot/ed25519.h:119-127 | Carrying keeps the value modulo p, without overflow. |
| EdBounds.CarrySettles | pkg/vboot/ed25519.h:119-127 | How small limbs are after a carry. |
| EdPack.Pack | pkg/vboot/ed25519.h:132-148 | The 32 bytes are the little-endian digits of the value modulo p. |
| EdPack.Unpack | pkg/vboot/ed25519.h:157-160 | The limbs have the value of the bytes modulo 2^255, which is that with the top bit cleared, for every input. |
| EdPower.Inv | pkg/vboot/ed25519.h:172-176 | The result is the (p - 2)-th power modulo p, with limbs in bounds throughout. |
| EdPower.Pow2523 | pkg/vboot/ed25519.h:177-181 | The result is the ((p - 5) / 8)-th power modulo p. |
| FdtBlob.BlobWalks | pkg/stam/fdt.c:81-96 | Over the finished blob of any tree, repeated calls from the root return the other nodes in preorder with their depths, and then none. |
| FdtBlob.BlobNode | pkg/stam/fdt.c:98-122 | At each node its own name is found, and for each property name the value of its own first property of that name, or none if it has none. |
| FdtBlob.BlobOpens | pkg/stam/fdt.c:25-56 | The header of a finished blob leads to its tokens and names, and the root is the first node. |
| FdtBlob.Generate | pkg/vboot/fdtgen.h:43-150 | A tree is written whole, or 0 is returned, exactly when it does not fit its parts of the buffer; nothing outside the buffer is written. |
| FdtWriter.Generator.Finish | pkg/vboot/fdtgen.h:122-150 | The names, moved up over themselves, header and zeroes make a finished blob; 0 exactly when something asked for did not fit. |
| FdtWriter.Generator.Intern | pkg/vboot/fdtgen.h:69-84 | A name is stored once and stays where it is; its place is returned. |
| FdtWriter.Generator.PutBytes | pkg/vboot/fdtgen.h:52-63 | Bytes and their padding go behind the structure block, or the overflow is noted and stays. |
| FdtReader.StepsOver | pkg/stam/fdt.c:59-79 | The reader steps from each written token to the next. |
| FdtReader.FindNext | pkg/stam/fdt.c:81-96 | On every blob the loop returns what following the tokens gives. |
| FdtReader.FindProp | pkg/stam/fdt.c:103-122 | On every blob the loop returns the first matching property before the first other token. |
| PipeState.CountsExact | pkg/stam/file.c:255-305 | Between calls a file object's count is the number of slots, in all processes, that name it, and an object is taken exactly if a slot names it. |
| PipeRun.Run | pkg/stam/file.c:255-485 | For every sequence of pipe, dup, dup3, close, open, fork, exit, read and write by any processes, from the empty table: each call does what its specification says; at every moment the bytes a pipe has returned since it was made are a beginning of the bytes it has accepted, less than a page behind; end of file is reported when all have been returned; and nothing is accepted after it. |
| PipeRun.Perform | pkg/stam/file.c:255-485 | One call keeps that. |
| PipeRun.PrefixAlways | pkg/stam/file.c:390-485 | From the log of calls alone: what came out of a pipe is a beginning of what went in, at every moment. |
| PipeTable.Table.Read | pkg/stam/file.c:351-402 | The outcome is determined: the oldest bytes, as many as asked for or there are; end of file exactly when the ring is empty and there is no writer, and then all written bytes were read and no slot of any process names the write end; otherwise it waits. |
| PipeTable.Table.Write | pkg/stam/file.c:472-485 | The outcome is determined: bytes go in behind, until all are in or the ring is full; refused exactly when there is no reader, and then no slot of any process names the read end. |
| PipeTable.Table.Pipe2 | pkg/stam/syscall.c:620-634 | Two slots name the ends of a pipe nobody had, with empty streams; it fails only when every pipe is in use or fewer than two file objects or slots are free, and then no slot has changed and nothing leaks. |
| PipeTable.Table.Dup | pkg/stam/syscall.c:579-585 | The first empty slot names the same object; on failure nothing at all has changed. |
| PipeTable.Table.Dup3 | pkg/stam/syscall.c:586-600 | The second slot names what the first does, and what it named before is let go. |
| PipeTable.Table.Close | pkg/stam/syscall.c:573-578 | The slot is empty and no other changes. |
| PipeTable.Table.Fork | pkg/stam/sched.c:189-200 | The child names what the parent names, each object counted once more for each slot. |
| PipeTable.Table.Exit | pkg/stam/sched.c:446-452 | The process names nothing any more; what only it named is free. |
| PipeState.ClosedOk | pkg/stam/file.c:268-289 | Giving back a reference keeps all counts right; the last one of an end closes that end, and the last end frees the pipe. |
| PipeRing.PutIs | pkg/stam/file.c:347-349 | A byte put into a ring that is not full is the last of its contents. |

## Findings

Properties that the code does not have for all inputs, each with an input and with the exact condition.

- **bzip2 clamps code lengths without repairing them** (pkg/vbzip2/vbzip2.c:134). A depth above 17 is
  stored as 17, so the lengths no longer form a prefix code. Input: `BzClamped.Input`, 132,089 bytes
  (`BzClamped.InputClamps`). Condition: a block's symbols are read back if and only if no depth of its
  tree exceeds 17 (`BzBlock.SymbolsBackIff`); it cannot happen below a total weight of 6765
  (`BzLengths.LightIsUnclamped`).
- **A page's reference count stops at 255** (pkg/stam/mmu.c:103-109). Input: one page and 256 forks of its
  process (`VmFull.CountOverflows`). The page then has 257 holders and a count for 256, and is freed while
  one holder is left (`VmBounds.FullCountFrees`). Condition: sharing keeps the count right if and only if it
  was below 255 (`VmBounds.CountFollowsIff`), which at most 255 living processes guarantee (`VmRun.Run`).
- **An abandoned send gives its sequence numbers away again** (pkg/stam/tcp.c:383). Input: the run of
  `TcpAbandoned.AbandonedSendBreaks`. Condition: the stream is safe over every run in which no send was
  abandoned (`TcpStream.Sane`), and wherever a first send is abandoned with its numbers taken back while both
  ends are open, the run can go on to break it (`TcpConverse.AbandonBreaks`). A bound on what the peer has
  taken at that moment would not do: a delayed copy of the abandoned segment can arrive later.
- **An entry named "..." hides in its directory** (pkg/stam/fat.c:471-483 and 671-675). It is recorded as
  ".." (`FatNames.ThreeDots`), which the test for an empty directory passes over, so the directory can be
  removed and the entry's clusters are lost. Input: `FatBroken.LoseFile`, and `FatBroken.HideAndRemove` for
  any empty directory.
- **A directory can be removed by its own "."** (pkg/stam/fat.c:663-686). The path "/d/." finds the first
  record of d; its clusters are freed and the record is marked deleted, while d's entry goes on naming them.
  Input: `FatBroken.LoseDirectory`, and `FatBroken.RemoveSelf` for any empty directory. With ".." it is the
  parent, if nothing but dots is listed there.
- **Condition for both** (`FatVolume.Volume.Unlink`): after `fat_unlink` the volume is in order if and only if
  the call was refused, or the record is an entry and, where that is a directory, no other entry lay in it.
  The test for an empty directory passes exactly when every entry in it is named "." or ".."
  (`FatMaking.BareIff`).
- **A name that begins with the byte 0xe5 makes no entry** (pkg/stam/fat.c:513-517). The record reads as
  deleted. Condition: `FatVolume.Volume.Create` makes an entry if and only if the first byte differs from
  0xe5; after `FatVolume.Volume.Mkdir` with such a name a cluster hangs nowhere.
- **A file's length wraps at 2^32** (pkg/stam/fat.c:447). Condition: after a write the volume is in order
  if and only if the end of what was stored is below 2^32 (`FatVolume.Volume.Write`).

## Left out

- bzip2 and gzip: command line, file handling and the growth of buffers; `qsort` is a sorting function with
  the comparison's order. Local C arrays of fixed size are sequences. Where the C code would leave an array or
  read an entry it never set, the specification says so and claims nothing of what follows.
- Bzip2.RoundTrip: that a clamped block never decompresses to its input is not claimed, only that its symbols
  do not come back.
- Address spaces: caches and translation buffers, device and block mappings in the tables (`split`, `map_user_page_raw`
  outside fork), `vm_user_strlen`, contiguous allocation by `alloc_pages`; the array of counts is taken as
  allocated, and each operation as one step under its lock.
- TCP: one connection between two endpoints; header bytes, checksums and the lookup of the socket; waiting loops
  are single steps, so nothing is said about progress; behaviour after an abandoned send or a reset.
- Scheduler: the thread set is fixed; creation, exit, reaping and process groups beyond signals.
- FAT: path splitting, long names, device errors, the free-count hint sector, several handles on one file; records
  are looked up by short name.
- Ed25519: the group law, signatures and SHA-512; the constant-time selection masks are a conditional swap.
- Device trees: `fdt_find_path`, `fdt_reg` and cell sizes; sizes are below 2^31, so that the writer's unsigned sums
  do not wrap. Where the reader would use a token it never read, or bytes behind the blob, nothing is claimed.
- Pipes: the other kinds of file object (console, memory, initrd, disk, sockets) are one kind with a count; a call
  that would block says so and is tried again, so nothing is said about who wakes whom; each call is one step.
- Firmware, system calls, network tools, editor, terminal and `awk`: plumbing around small logic.
