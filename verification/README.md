# A verified model of the TOGPU driver

TOGPU hands received network packets to a GPU. Its kernel module copies two
kernel functions elsewhere so that their entries can be patched, makes socket
buffers live in memory shared with the GPU, finds that memory by walking page
tables, and waits on a one-word mailbox while AES kernels work on a packet. This
project models those parts in Dafny and proves what they are for. Check it with
`dafny verify dfyconfig.toml`.

## What is modelled

- **Instruction decoder** (`Bytes`, `Inat`, `InatTables`, `Decode`, `Insn`):
  `struct insn` is the class `InsnDecoder.Insn`; every getter is proved against a
  pure function of seven stages, `Decode.Chain`. The tables of `inat-tables.h`
  are `InatTables.TABLES`; the decoder is proved for any tables that are
  `Inat.WellFormed`, and the listed ones are. About it: `PrefixScan`, `Locality`,
  `Lengths`, `RoundTrip`, `Reencoding`. `DecodeLaws` says on byte values which bytes
  an instruction has and what they stand for; `KnownDecodings` spells out some.
- **Relocator** (`Reloc`, `CopyLoop`, `Relocated`, `Hook`, `Examples`): copying a
  function and rewriting its rel32 and RIP-relative fields, and the hook around
  it. `Relocated.RelocationPreservesMeaning` and `Relocated.SameBoundaries` are
  the main results, and `SymbolHook.HookFaithfully` states them of the memory after
  a successful hook.
- **AES kernels** (`AesSpec`, `AesWords`, `AesRounds`, `AesTables`, `AesMemory`,
  `Packet`, `AesCounter`, `AesKernels`, `AesFourThreads`, `AesListed`, `AesPayload`,
  `AesKnown`): FIPS 197 on bytes, the table lookups on 32-bit words that refine it,
  the listed tables, and the blockwise, XTS, counter and four-thread kernels on
  packets in memory, down to byte positions and the example of appendix C.1.
- **Slot allocator and mailbox** (`Slots`, `SkbPool`, `SlotRuns`, `SlotLeaks`,
  `Mailbox`): the slot table and socket buffers as classes, all runs of them as a
  state machine, which mappings lose slots, and all interleavings of the handshake.
- **Page walk** (`FlatScan`, `WalkTrace`, `PageWalk`, `ByteRange`, `GpuPages`,
  `SlotPages`): the four nested loops with their retry, against the list of all
  callbacks and a flat scan of the pages; which page each slot gets, and when all
  buffers lie in mapped pages.
- **Opcode map compiler** (`OpcodeText`, `OpcodeLines`, `MapTables`, `MapRuns`,
  `MapCompiler`, `MapText`, `KnownLines`): the awk script line by line, why lookup in
  the tables it emits is direct reading of the map, and what that is in terms of the
  map's text.

## How to read it

Code that changes state is a class or method tied, by its `ensures`, to a
function on values (`View() == ...`); the properties are lemmas about those
functions. Memory past the end of a byte string reads as 0 in the decoder, so
that its results hold for any bytes. Addresses are unsigned 64-bit numbers with
their wrap-around written out. In the page walk an address is a page number, and
`*_addr_end` is the next multiple of an entry's size or the end of the range.

Some things the code does that its comments or its design do not suggest:

- A VEX instruction with opcode byte e8 or e9 takes the CALL/JMP branch of
  `copy_and_fixup_insn` (`Relocation.Mistaken`). Its own RIP-relative operand is then
  never rewritten, and so right exactly when its target is inside:
  `EncodedExamples.VexOperandLost`. If it ends the function, four bytes are written
  behind the copy: `EncodedExamples.HookVex`. Operands that are not rewritten
  (rel8, Jcc and xbegin) stay right exactly when their target is inside, too.
- The copy loop stops at the first instruction boundary at or after the trimmed
  end, which can lie past the size allocated: `EncodedExamples.HookCut`.
  `Relocated.CopyStaysInside` gives the exact condition under which all bytes
  written lie within that size.
- Counter mode clears the high half of the counter block in place of carrying it.
- A release recognises a slot only up to the next multiple of 32 MB after `kva`,
  and vmap gives no more than a page boundary. A buffer in a later slot goes to the
  native release with the address of the slot, which stays used. Exactly the
  mappings at a multiple of 32 MB lose nothing: `SlotLeaks.LosslessIffAligned`.
- The allocator takes all 8192 slots for mapped, however many pages were found:
  `SlotPages.MappedIffFull`. The page walk compares addresses for equality, so that
  it does not end on every range of bytes: `ByteRange.WalkEnds`.
- The page array is written without a check against its end; whether the walk stays
  in it depends on the usable pages of the range alone: `GpuPages.WalkStaysInside`.
- Looking up an unknown escape name in the map makes an entry for it, so that naming
  the escape afterwards is an error. An AVXcode line gives a table without a
  referrer its own name; the primary table is the one with neither.
- With all slots used the search for a free one never ends: `Slots.SearchEnds`.
- `walk_page` may call `pmd_entry` more than once for one entry, after a retry.
- In a line of the opcode map, a single left-over last field is taken for one
  more mnemonic and is no error; a line without flags can be redefined.

Assumptions about the environment are preconditions or guards of events:
`SlotRuns.Allowed` for the allocator (native buffers lie outside the mapped
memory, START needs a mapping, a new mapping, at any page boundary, is made only
while stopped and with no switched buffer live), `Mailbox.Enabled` for the
handshake (one producer), `Runnable` for the kernels (10, 12 or 14 rounds and a
schedule long enough).

## Model

| member | source | states |
|---|---|---|
| Inat.LayoutFields | togpu/driver/inat.h:64-95 | The masks and shifts of inat.h read from a packed attribute word exactly the four numbers that were put in |
| Inat.LayoutFlags | togpu/driver/inat.h:83-91 | The seven flag bits of a packed word are read back exactly |
| Inat.LayoutOrNumbers | togpu/driver/inat.h:64-96 | The bitwise or of two attribute words has, in each number, the or of the two numbers: working on fields is working on words |
| Inat.LayoutOrFlags | togpu/driver/inat.h:83-91 | The same for the flags |
| Inat.LayoutInjective | togpu/driver/inat.h:64-96 | No two attributes share a word, so that the datatype loses nothing |
| Inat.EscapeRankDrops | togpu/driver/insn.c:200-211 | Over tables whose escapes are ranked, every turn of the escape loop lowers the rank of the escape number, whatever the byte and the last prefix: the measure that ends the loop |
| InatTables.TablesWellFormed | togpu/driver/inat-tables.h:5-1033 | The tables as listed meet everything the decoder relies on: escape ranks, which bytes are size prefixes, bounds on ModRM and immediate bytes for every attribute and every group refinement, and e8/e9 as rel32 branches |
| PrefixScan.ScanKeeps | togpu/driver/insn.c:72-101 | Invariant of the prefix loop: the stored bytes are distinct, non-zero and exactly those consumed, and sizes are toggled once for 66 and 67 |
| PrefixScan.SetLastKeeps | togpu/driver/insn.c:102-112 | The swap puts the last prefix into bytes[3] and leaves the set of stored prefixes unchanged |
| PrefixScan.LegacyPrefixes | togpu/driver/insn.c:72-112 | For any bytes: the run consumed is all legacy prefixes, bytes[3] ends as the last one (0 for none), the non-zero stored bytes are exactly the set consumed, the scan stops at a non-prefix or at a fifth distinct one, and opnd_bytes/addr_bytes are toggled exactly once iff 66/67 occurs |
| PrefixScan.SizesSane | togpu/driver/insn.c:47-50 | After every stage, operand and address sizes stay in {2, 4, 8} |
| Lengths.InstructionLength | togpu/driver/insn.c:175-215 | Whatever the bytes, 1 to 12 bytes follow the legacy prefixes and there are 1 to 3 opcode bytes |
| Lengths.LengthExact | togpu/driver/insn.c:509-517 | The 8-bit length is the true length and non-zero with up to 243 prefix bytes, and is exact exactly below 256 bytes |
| Lengths.LengthTruncated | togpu/driver/insn.c:509-517 | In general the length field is the true length modulo 256 |
| Locality.DecodeLocal | togpu/driver/insn.c:62-517 | Decoding depends only on the bytes of the instruction itself: any byte string that agrees on them decodes to the same struct, although prefix scanning peeks ahead |
| Locality.ReachConsumed | togpu/driver/insn.c:129-170 | What prefix and VEX scanning only peeked at is consumed by the time ModRM has been read |
| Locality.VexRecorded | togpu/driver/insn.h:131-136 | insn_is_avx says yes exactly when VEX bytes were consumed |
| Reencoding.DecodeReencode | togpu/driver/insn.c:62-500 | Round trip: REX, VEX, opcode, ModRM, SIB, displacement and both immediates, re-encoded from the decoded fields, are exactly the bytes from the end of the legacy prefixes to the end of the instruction |
| Reencoding.OffsetsTrue | togpu/driver/insn.h:155-182 | Below 256 prefix bytes, the bytes of every field are found at its insn_offset_* sum |
| Reencoding.OffsetsAdjacent | togpu/driver/insn.h:155-182 | The fields lie end to end and the last one ends where the instruction ends |
| Reencoding.OffsetIsCursor | togpu/driver/insn.h:155-182 | Each sum is the value that next_byte had when the field was read |
| DecodeLaws.PrefixLaw | togpu/driver/insn.c:62-173 | With the listed tables, on byte values: what follows n legacy prefixes is one byte of REX for 40 to 4f in 64-bit code, then three bytes of VEX for c4 and two for c5 (in 32-bit code only before c0 to ff); the operand size is 8 with REX.W, VEX.W of three bytes or a forced size, else 2 or 4 by 66, and the address size goes by 67 |
| DecodeLaws.PrefixesTaken | togpu/driver/insn.c:77-101 | Up to four legacy prefix bytes before another byte are all taken, and that one is not |
| DecodeLaws.OpcodeLaw | togpu/driver/insn.c:184-213 | The opcode is one byte after VEX or unless it is 0f, three with 38 or 3a behind 0f, else two; its attribute is the listed entry of that map, for opcodes with variants the one of the last prefix 66, f3 or f2, and nothing if it needs VEX and has none or has VEX and does not take it |
| DecodeLaws.ModrmLaw | togpu/driver/insn.c:231-245 | A ModRM byte follows exactly when that attribute has one, and refines the attribute of a group |
| DecodeLaws.AddressingBytes | togpu/driver/insn.c:277-355 | By the ModRM and SIB byte values: a SIB byte for r/m 4 below c0; a displacement of 1 byte for 40 to 7f, of 4 for 80 to bf, for r/m 5 below 40 and for r/m 4 below 40 with a SIB byte whose low bits are 5, else none; in 16-bit addressing 1, 2 and 2 for r/m 6 |
| DecodeLaws.ImmediateBytes | togpu/driver/insn.c:358-500 | The sizes of both immediates by the class of the operand, the operand size and the address size, moffset and the second immediate included |
| DecodeLaws.FieldNumbers | togpu/driver/insn.c:231-500 | Every field is the little-endian number at its place, displacement and immediates signed but for the segment of a far pointer, and the fields end where the instruction does |
| DecodeLaws.RipRelativeBytes | togpu/driver/insn.c:255-268 | RIP-relative addressing is ModRM 05, 0d, 15, 1d, 25, 2d, 35 or 3d, always with four bytes of displacement and no SIB byte |
| KnownDecodings.GsLoad | togpu/driver/insn.c:346-349 | 65 48 8b 04 25 28 00 00 00 has length 9 and displacement 0x28 |
| KnownDecodings.MovAbs | togpu/driver/insn.c:396-415 | 48 b8 and eight bytes has length 10 and two halves of an immediate, each signed |
| KnownDecodings.MovWord | togpu/driver/insn.c:396-404 | 66 b8 and two bytes has length 4 |
| KnownDecodings.AddWide | togpu/driver/insn.c:380-393 | 48 05 and four bytes of ff has length 6 and immediate -1 |
| KnownDecodings.LoadOffset | togpu/driver/insn.c:358-377 | a1 and eight bytes has length 9 in 64-bit code, its address in two halves |
| KnownDecodings.LoadShortOffset | togpu/driver/insn.c:358-366 | 67 a1 and two bytes has length 4 in 32-bit code |
| KnownDecodings.AddWord | togpu/driver/insn.c:380-393 | 66 05 fe ff has length 4 and immediate -2 |
| KnownDecodings.JumpToItself | togpu/driver/insn.c:463-466 | eb fe has length 2 and offset -2 |
| KnownDecodings.LoadBp | togpu/driver/insn.c:336-338 | 67 8b 46 fe in 32-bit code has one byte of displacement, -2 |
| KnownDecodings.Enter | togpu/driver/insn.c:492-496 | c8 has a word and then a byte |
| KnownDecodings.FarCall | togpu/driver/insn.c:418-438 | 9a in 32-bit code has a signed offset and an unsigned segment |
| KnownDecodings.LoadWord | togpu/driver/insn.c:339-344 | 67 8b 06 in 32-bit code has two bytes of displacement |
| KnownDecodings.Rsqrtss | togpu/driver/inat.c:32-53 | f3 0f 52 c1 has a ModRM byte and length 4 |
| KnownDecodings.Pshufb | togpu/driver/insn.c:200-211 | 66 0f 38 00 05 has three opcode bytes and a RIP-relative operand |
| InsnDecoder.Insn.constructor | togpu/driver/insn.c:41-52 | insn_init: a valid struct at stage 0 |
| InsnDecoder.Insn.GetPrefixes | togpu/driver/insn.c:62-173 | Leaves the struct of the staged function, from whatever stage it is called at |
| InsnDecoder.Insn.GetOpcode | togpu/driver/insn.c:175-216 | The same up to the opcode, with the loop over escapes |
| InsnDecoder.Insn.GetModrm | togpu/driver/insn.c:222-246 | The same up to ModRM and the group refinement |
| InsnDecoder.Insn.IsRipRelative | togpu/driver/insn.c:255-268 | True exactly for mod 0, r/m 5 in 64-bit code; asks for ModRM and changes nothing beyond it |
| InsnDecoder.Insn.GetSib | togpu/driver/insn.c:277-296 | The same up to SIB |
| InsnDecoder.Insn.GetDisplacement | togpu/driver/insn.c:305-355 | The same up to the displacement |
| InsnDecoder.Insn.GetImmediate | togpu/driver/insn.c:447-502 | The same up to the immediates, with all immediate and moffset helpers |
| InsnDecoder.Insn.GetLength | togpu/driver/insn.c:509-517 | The complete struct of the staged function, even where a length of 0 makes it run again |
| InsnDecoder.CallAll | togpu/driver/insn.c:62-517 | Lazy decoding is confluent: after any getter calls, in any order and number, the struct is the staged one at the furthest stage asked for |
| InsnDecoder.FurthestOrderFree | togpu/driver/insn.c:69-70 | That stage depends only on which getters were called, not on order or repetition |
| InsnDecoder.LengthLast | togpu/driver/insn.c:509-517 | A final insn_get_length gives the struct that it gives when called alone |
| Relocation.OffsetLeadsBack | togpu/driver/xt_TOGPU_hook.c:34-42 | The truncated 32-bit offset, sign-extended from where it was computed, leads back to the target if and only if the target is within signed 32-bit reach |
| Relocation.RewriteDecodes | togpu/driver/xt_TOGPU_hook.c:50-98 | Any bytes that carry the rewritten instruction decode to the original struct with only the offset replaced |
| Relocation.FieldPositions | togpu/driver/xt_TOGPU_hook.c:72-73 | The place that gets written is the 4-byte immediate or displacement, inside the instruction, or the end of a VEX instruction taken for a CALL or JMP |
| Relocation.MistakenImmediate | togpu/driver/xt_TOGPU_hook.c:60-66 | Such a VEX instruction has no immediate, so that what is taken for its target is its own end |
| Relocation.OperandRelocated | togpu/driver/xt_TOGPU_hook.c:60-95 | Any instruction moved elsewhere refers to what it should (same address outside the function, moved address inside) if and only if its target is inside, or its operand is one that is rewritten and the target is within reach |
| CopyLoop.CopyFits | togpu/driver/xt_TOGPU_hook.c:245-264 | For any instructions: no byte is written past the allocated size if and only if an instruction boundary lies between the trimmed end and the size, and no rewrite of an instruction reaches past it |
| CopyLoop.CopyHolds | togpu/driver/xt_TOGPU_hook.c:245-262 | At every instruction boundary the memory holds the relocated instruction after the loop, later turns notwithstanding |
| CopyLoop.CopyFrame | togpu/driver/xt_TOGPU_hook.c:57-58 | The loop, successful or not, writes nothing before its start and nothing past its write extent, the furthest byte of any instruction or rewrite |
| Relocated.CopyDecodes | togpu/driver/xt_TOGPU_hook.c:245-262 | At every instruction boundary the copy decodes to the original struct, its rewritten offset aside |
| Relocated.InternalTargetOffset | togpu/driver/xt_TOGPU_hook.c:60-66 | A target inside the function is meant to become the same offset of the copy |
| Relocated.SameBoundaries | togpu/driver/xt_TOGPU_hook.c:245-262 | An offset is an instruction boundary of the copy if and only if it is one of the original |
| Relocated.RelocationPreservesMeaning | togpu/driver/xt_TOGPU_hook.c:50-98 | For every instruction of the function, the relative operand in the copy refers to what it should if and only if its target is inside the function, or it is rewritten and in reach |
| Relocated.CopyFaithful | togpu/driver/xt_TOGPU_hook.c:245-262 | All of this for a whole function at once: every instruction, every operand, every boundary |
| Relocated.CopyStaysInside | togpu/driver/xt_TOGPU_hook.c:213-262 | No byte is written past the allocated size if and only if an instruction boundary lies between the trimmed end and the size and the function does not end in a VEX instruction taken for a CALL or JMP; the memory behind it is then unchanged |
| Relocated.ExtentIsStop | togpu/driver/xt_TOGPU_hook.c:57-95 | Without such an instruction the bytes written end where the copy ends |
| Relocated.CopyWritesOnlyCopy | togpu/driver/xt_TOGPU_hook.c:57-95 | Memory outside the write extent is unchanged, for any function |
| SymbolHook.KernSym.Fixup | togpu/driver/xt_TOGPU_hook.c:60-95 | The branches that decide which word is rewritten, with what value and where |
| SymbolHook.KernSym.CopyFunction | togpu/driver/xt_TOGPU_hook.c:245-262 | The decode-and-copy loop in memory is the copy on values that the lemmas of Relocated are about |
| SymbolHook.KernSym.Trim | togpu/driver/xt_TOGPU_hook.c:232-234 | Stops after the last non-zero byte of the function |
| SymbolHook.KernSym.Hook | togpu/driver/xt_TOGPU_hook.c:193-287 | Every error exit with its code and its effect, and on success the copy, the saved entry and the patched entry |
| SymbolHook.HookFaithfully | togpu/driver/xt_TOGPU_hook.c:193-281 | After success the entry jumps to the hook, the buffer holds a faithful copy of the function as it was, and memory before and, under the condition of CopyStaysInside, behind the buffer is unchanged |
| SymbolHook.KernSym.Restore | togpu/driver/xt_TOGPU_hook.c:289-304 | Puts the saved entry back exactly when the symbol is hooked |
| SymbolHook.HookAndRestore | togpu/driver/xt_TOGPU_hook.c:193-304 | Hooking and restoring leaves the text as it was, whatever the outcome of the hook |
| EncodedExamples.JumpDecodes | togpu/driver/xt_TOGPU_hook.c:272-275 | E9 and four bytes decode to a five-byte jump by that signed offset |
| EncodedExamples.EntryJumpsToHook | togpu/driver/xt_TOGPU_hook.c:272-275 | The patched entry is a jump to the hook if and only if the hook is in reach |
| EncodedExamples.VexOperandLost | togpu/driver/xt_TOGPU_hook.c:60-70 | A RIP-relative VEX instruction with opcode byte e8/e9 is taken for a CALL: in the copy, wherever in the function it stands, its operand is right if and only if its target is inside the function |
| EncodedExamples.VexCounterexample | togpu/driver/xt_TOGPU_hook.c:60-70 | With the listed tables, the copy of vpsubsb at 0x1000, moved by 0x10000, refers to 0x12008 in place of 0x2008 |
| EncodedExamples.VexWritesPast | togpu/driver/xt_TOGPU_hook.c:72-75 | A function that is just this instruction: its size is a boundary, and yet byte 10 of a copy of 8 bytes is written |
| EncodedExamples.CutWritesPast | togpu/driver/xt_TOGPU_hook.c:232-262 | A nop and a jump of five bytes with a size of 5: the walk stops at 6, and byte 5 of the copy is written |
| EncodedExamples.HookVex | togpu/driver/xt_TOGPU_hook.c:193-281 | Hooking the first of these functions succeeds and leaves that byte behind its buffer |
| EncodedExamples.HookCut | togpu/driver/xt_TOGPU_hook.c:193-281 | So does hooking the second |
| AesSpec.InvMixColumnsUndoes | togpu/driver/xt_TOGPU_kernel.cu:1234-1349 | Section 5.3.3 of FIPS 197: InvMixColumns undoes MixColumns, from the GF(2^8) coefficients |
| AesSpec.InvMixColumnsLinear | togpu/driver/xt_TOGPU_kernel.cu:1234-1349 | Section 5.3.5: InvMixColumns distributes over AddRoundKey |
| AesSpec.DecryptUndoesEncrypt | togpu/driver/xt_TOGPU_kernel.cu:1121-1349 | The equivalent inverse cipher undoes the cipher for any S-box bijection, any round keys and any number of rounds, when its schedule is reversed with InvMixColumns on the middle keys |
| AesWords.EncLookup | togpu/driver/xt_TOGPU_kernel.cu:1132-1135 | One statement of a round, four table lookups and a round key word, is a column of MixColumns plus the key |
| AesWords.DecLookup | togpu/driver/xt_TOGPU_kernel.cu:1249-1252 | The same for InvMixColumns and the decryption tables |
| AesRounds.EncWordsMeaning | togpu/driver/xt_TOGPU_kernel.cu:1132-1135 | The four statements of a round are SubBytes, ShiftRows, MixColumns and AddRoundKey of section 5.1 |
| AesRounds.DecWordsMeaning | togpu/driver/xt_TOGPU_kernel.cu:1249-1252 | The four statements of a decryption round are the round of section 5.3.5 |
| AesRounds.EncLastMeaning | togpu/driver/xt_TOGPU_kernel.cu:1204-1231 | The masked lookups of the last round are the last round of section 5.1 |
| AesRounds.EncryptWords | togpu/driver/xt_TOGPU_kernel.cu:1121-1232 | The unrolled rounds compute the cipher of section 5.1, for 10, 12 and 14 rounds and any keys |
| AesRounds.DecryptWords | togpu/driver/xt_TOGPU_kernel.cu:1234-1349 | The unrolled rounds compute the equivalent inverse cipher |
| AesTables.TablesMatch | togpu/driver/xt_TOGPU_kernel.cu:121-799 | All 2560 listed constants are the S-box values times the columns of the two matrices |
| AesTables.SboxBijective | togpu/driver/xt_TOGPU_kernel.cu:393-799 | The values that Te4 and Td4 repeat are inverse bijections |
| AesTables.SboxMeaning | togpu/driver/xt_TOGPU_kernel.cu:393-459 | Those of Te4 are the S-box of section 5.1.1: inverse in GF(2^8), then the affine transformation |
| AesMemory.LoadBlock | togpu/driver/xt_TOGPU_kernel.cu:809-813 | Four little-endian loads, turned around by __byte_perm, are the columns of the block in memory |
| AesMemory.StoreBlock | togpu/driver/xt_TOGPU_kernel.cu:809-813 | The stores write that block and leave all other bytes |
| Packet.MapBlocksFrame | togpu/driver/xt_TOGPU_kernel.cu:1121-1124 | Bytes before 32 and from 32 + 16n on are unchanged by n threads |
| Packet.MapBlocksAt | togpu/driver/xt_TOGPU_kernel.cu:1121-1124 | Each of the first n blocks is what its own thread makes of it, and no others change |
| Packet.OrderFree | togpu/driver/xt_TOGPU_kernel.cu:1121-1124 | Any order in which each thread runs once, in place, gives the same packet |
| Packet.MapBlocksWhole | togpu/driver/xt_TOGPU_kernel.cu:1121-1124 | With the position written out: n threads replace bytes 32 to 31 + 16n block by block and leave the bytes before and behind as they are |
| Packet.MapChunksAt | togpu/driver/xt_TOGPU_kernel.cu:1121-1124 | Bytes 16i to 16i + 15 of a payload become what thread i makes of those 16 bytes |
| Packet.MapBlocksUndone | togpu/driver/xt_TOGPU_kernel.cu:1121-1349 | A blockwise inverse restores the packet byte for byte |
| AesKernels.EncryptPacket | togpu/driver/xt_TOGPU_kernel.cu:1121-1232 | A launch of n threads replaces bytes 32 to 31 + 16n by the encryption of their n blocks, in place, and no other byte |
| AesKernels.DecryptPacket | togpu/driver/xt_TOGPU_kernel.cu:1234-1349 | The same for decryption |
| AesKernels.XtsEncryptPacket | togpu/driver/xt_TOGPU_kernel.cu:1458-1589 | In the same place, every block is encrypted between two additions of the tweak of its thread (section 5.3.1 of IEEE Std 1619-2007) |
| AesKernels.XtsDecryptPacket | togpu/driver/xt_TOGPU_kernel.cu:1591-1721 | The same for section 5.4.1 |
| AesKernels.CtrPacket | togpu/driver/xt_TOGPU_kernel.cu:1003-1119 | In the same place, every block has the encrypted counter block of its thread added |
| AesPayload.EncryptedAt | togpu/driver/xt_TOGPU_kernel.cu:1121-1232 | Block i of the payload is the cipher applied to the 16 bytes that were there |
| AesPayload.DecryptedAt | togpu/driver/xt_TOGPU_kernel.cu:1234-1349 | The same for decryption |
| AesPayload.XtsEncryptedAt | togpu/driver/xt_TOGPU_kernel.cu:1458-1589 | It is encrypted between two additions of the 16 bytes of entry i of ivs |
| AesPayload.XtsDecryptedAt | togpu/driver/xt_TOGPU_kernel.cu:1591-1721 | The same for decryption |
| AesPayload.CountedAt | togpu/driver/xt_TOGPU_kernel.cu:863-879 | It has an encrypted block added that is eight zero bytes and, big endian, the number in bytes 8 to 15 of the counter plus i, modulo 2^64 |
| AesKnown.KnownBlock | togpu/driver/xt_TOGPU_kernel.cu:1121-1232 | Appendix C.1 of FIPS 197: with the listed S-box and the round keys of 00 01 .. 0f, the cipher takes 00 11 .. ff to 69 c4 e0 d8 6a 7b 04 30 d8 cd b7 80 70 b4 c5 5a |
| AesKnown.EncryptKnown | togpu/driver/xt_TOGPU_kernel.cu:1121-1232 | So does the kernel with one thread, of a packet that has that block at byte 32 |
| AesCounter.BigAdd | togpu/driver/xt_TOGPU_kernel.cu:863-873 | The counter block is eight zero bytes and the big-endian sum |
| AesCounter.CounterNumber | togpu/driver/xt_TOGPU_kernel.cu:863-873 | That sum stands for the low 64 bits of the counter plus the index of the thread, modulo 2^64 |
| AesCounter.CounterBlocksDistinct | togpu/driver/xt_TOGPU_kernel.cu:863-879 | Counter blocks of two threads coincide if and only if their indexes are equal modulo 2^64 |
| AesKernels.PacketRestored | togpu/driver/xt_TOGPU_kernel.cu:1121-1349 | Decrypting an encrypted packet restores every byte |
| AesKernels.XtsPacketRestored | togpu/driver/xt_TOGPU_kernel.cu:1458-1721 | XTS decryption after XTS encryption with the same tweaks restores every byte |
| AesKernels.CtrPacketRestored | togpu/driver/xt_TOGPU_kernel.cu:1003-1119 | Counter mode applied twice restores every byte |
| AesListed.EncryptThenDecrypt | togpu/driver/xt_TOGPU_kernel.cu:121-1349 | The round trip in memory with the tables as listed |
| AesListed.XtsEncryptThenDecrypt | togpu/driver/xt_TOGPU_kernel.cu:1458-1721 | The XTS round trip with the tables as listed |
| AesListed.CtrTwice | togpu/driver/xt_TOGPU_kernel.cu:1003-1119 | The counter mode round trip with the tables as listed |
| AesFourThreads.GroupRound | togpu/driver/xt_TOGPU_kernel.cu:1351-1367 | What four threads write from their neighbours' words is one round of their own block and of no other |
| AesFourThreads.EncryptFourThreads | togpu/driver/xt_TOGPU_kernel.cu:1357-1404 | In lockstep, each of the 64 blocks at byte 1024 * bid + 16y becomes exactly what a single thread of aes_encrypt_bpt makes of it, and bytes of other grid blocks stay |
| Slots.SearchEnds | togpu/driver/xt_TOGPU_main.c:255-259 | The search loop ends if and only if some slot other than 0 is free, and then at the first free one in cyclic order |
| Slots.SlotRecognised | togpu/driver/xt_TOGPU_main.c:285-293 | For a page-aligned mapping, slot i is recognised if and only if kva mod 2^25 + i * 2^12 < 2^25; its index is then computed right |
| Slots.AllocationLaw | togpu/driver/xt_TOGPU_main.c:246-269 | In plain numbers: a buffer is switched exactly while running, without fragments and up to 4096 bytes long; it is then at kva + 0x1000 * i for a free i from 1 to 8191, with the distances of data and end from head that it had and its tail at its data, and slot i keeps its native head; otherwise nothing changes |
| Slots.SwitchedExample | togpu/driver/xt_TOGPU_main.c:248-269 | Mapped at 0x2000000, a buffer with 64 bytes of headroom goes to slot 1 with head 0x2001000 and data and tail 0x2001040 |
| Slots.ReleaseLaw | togpu/driver/xt_TOGPU_main.c:283-302 | In plain numbers: a release moves head, data, tail and end to the address in the slot, all by the same distance, and clears the slot, if the address is in the same 32 MB as kva and its slot is used; otherwise it changes nothing |
| Slots.ReleaseUndoesAlloc | togpu/driver/xt_TOGPU_main.c:235-310 | Release after allocation hands the native release the original head with the present offsets and frees the slot, even after STOP, if and only if the slot lies below the next multiple of 32 MB |
| SkbPool.TogpuPool.FindFreeSlot | togpu/driver/xt_TOGPU_main.c:255-259 | The in-place search leaves nfgpu_next at the slot that the specification names, and changes nothing else |
| SkbPool.TogpuPool.NetdevAllocSkb | togpu/driver/xt_TOGPU_main.c:235-274 | The whole new state of the slot table and of the buffer, for switched and native buffers |
| SkbPool.TogpuPool.SkbReleaseData | togpu/driver/xt_TOGPU_main.c:276-311 | The whole new state, for recognised and other buffers |
| SkbPool.TogpuPool.SetBuffers | togpu/driver/xt_TOGPU_main.c:418-435 | A failed mapping clears all slots; a successful one keeps them |
| SkbPool.TogpuPool.Stop | togpu/driver/xt_TOGPU_main.c:494-508 | STOP leaves the mapping address, so that live buffers can still be released |
| SkbPool.TogpuPool.NfgpuTarget | togpu/driver/xt_TOGPU_main.c:188-196 | Nothing while stopped; while running, slot number i if and only if the head is in the same 32 MB as kva and i pages behind it, i below 8192 |
| SlotRuns.ApplyKeeps | togpu/driver/xt_TOGPU_main.c:235-310 | Every event keeps the invariant that ties slots, owners and live buffers together |
| SlotRuns.RunsSafe | togpu/driver/xt_TOGPU_main.c:235-508 | Over every run, with mappings at any page boundary: slot 0 is never used, nfgpu_next stays in 1 to 8191, a slot is non-zero if and only if exactly one live buffer sits in it or it has leaked, switched buffers share no byte, used slots equal live switched buffers and leaked slots; a release handed back the head that had been given if and only if its slot lay below the next multiple of 32 MB, and with it the native end, and the native data unless it had been moved |
| SlotRuns.SlotOccupied | togpu/driver/xt_TOGPU_main.c:255-264 | A slot is non-zero if and only if one live buffer, and only one, sits in it, or it has leaked; never both |
| SlotRuns.BuffersDisjoint | togpu/driver/xt_TOGPU_main.c:264-269 | No two live switched buffers share a byte |
| SlotRuns.Conservation | togpu/driver/xt_TOGPU_main.c:264-302 | As many slots are used as switched buffers are live and slots have leaked |
| SlotRuns.ReleaseFinds | togpu/driver/xt_TOGPU_main.c:284-297 | A release finds the slot of a switched buffer if and only if it lies below the next multiple of 32 MB, and takes no native buffer for one |
| SlotLeaks.LosslessIffAligned | togpu/driver/xt_TOGPU_main.c:285-302 | In all runs over a page-aligned mapping no slot leaks and every head is handed back, if and only if the mapping is at a multiple of 32 MB |
| SlotLeaks.LosingRunLoses | togpu/driver/xt_TOGPU_main.c:255-302 | For every other mapping a run, two buffers live at a time, that loses its first slot out of reach |
| SlotLeaks.FailingRun | togpu/driver/xt_TOGPU_main.c:285-302 | Mapped at 0x1fff000, the first buffer released goes back with head 0x2000000 and data 0x2000040 in place of 0x4000100 and 0x4000140, and slot 1 stays used |
| Mailbox.ConsumedInOrder | togpu/driver/xt_TOGPU_main.c:203-206 | Under every interleaving, what the GPU loop takes is what was published, in order and each once, at most one behind; the same for what it has worked on and what has returned; every index is in 1 to 8191 |
| Mailbox.ReturnsWhenServed | togpu/driver/xt_TOGPU_main.c:206 | nfgpu_target returns only when its own index was the last one taken and worked on |
| Mailbox.NoDeadlock | togpu/driver/xt_TOGPU_kernel.cu:1748-1779 | From every reachable state with a waiting target, at most three accesses of the GPU loop let it return |
| Mailbox.PublishedIsSlot | togpu/driver/xt_TOGPU_main.c:188-196 | A live buffer is handed over if and only if the device is running and the buffer is switched and in a slot below the next multiple of 32 MB, with the index of that slot |
| Mailbox.HandOver | togpu/driver/xt_TOGPU_main.c:188-196 | So says the method, for any buffer in use in any state that keeps the invariant |
| Mailbox.NothingAfterStop | togpu/driver/xt_TOGPU_main.c:188-196 | After STOP and until START no buffer in use is handed over, in any run |
| PageWalk.Walk.WalkPteRange | togpu/driver/xt_TOGPU_pagewalk.c:33-51 | Calls back for the pages of a table in order, up to the first non-zero result |
| PageWalk.Walk.WalkPmdEntry | togpu/driver/xt_TOGPU_pagewalk.c:61-91 | One entry with its retries, which end because splits and clears make progress: pmd_entry once for each look, then its pages or one hole; about pages it reports what the flat scan does |
| PageWalk.Walk.WalkPmdRange | togpu/driver/xt_TOGPU_pagewalk.c:53-95 | The loop over an entry's range agrees with the flat scan |
| PageWalk.Walk.WalkPudRange | togpu/driver/xt_TOGPU_pagewalk.c:97-122 | The same one level up |
| PageWalk.Walk.WalkPage | togpu/driver/xt_TOGPU_pagewalk.c:212-269 | The callbacks, whichever are set, are exactly those of the trace read off the tables before the walk, in order: all of them, or up to the first that returns non-zero, which is returned. With a pte_entry callback, what they say of pages is what the flat scan of the range says |
| FlatScan.ScanPartitions | togpu/driver/xt_TOGPU_pagewalk.c:186-211 | With holes reported, item k of the scan is about page k of the range: a partition, ascending, each page once |
| FlatScan.ScanVisits | togpu/driver/xt_TOGPU_pagewalk.c:186-211 | Without, exactly the pages that are no holes, ascending |
| FlatScan.WentOn | togpu/driver/xt_TOGPU_pagewalk.c:60-92 | Walks of adjacent ranges compose, with their logs, errors and pages |
| GpuPages.GpuBuffer.SkbPteProcess | togpu/driver/xt_TOGPU_main.c:344-371 | Appends a present page and nothing else; the caller has to leave room |
| GpuPages.GpuBuffer.CollectPages | togpu/driver/xt_TOGPU_main.c:391-411 | Over a range of any size with at most 8192 usable pages, the array ends up with exactly these in ascending order and is not overrun |
| GpuPages.WalkStaysInside | togpu/driver/xt_TOGPU_main.c:344-411 | Every callback of the walk finds room in the array if and only if the range has at most 8192 usable pages |
| GpuPages.FirstOverrun | togpu/driver/xt_TOGPU_main.c:348-366 | Otherwise the first callback without room comes when exactly 8192 pages are collected |
| GpuPages.OnePageMore | togpu/driver/xt_TOGPU_main.c:391-411 | A range of 8193 usable pages has one too many |
| GpuPages.SlotIsPage | togpu/driver/xt_TOGPU_main.c:348-366 | Page i collected is page i of the range if and only if all pages up to it are usable |
| GpuPages.PresentCount | togpu/driver/xt_TOGPU_main.c:348-366 | Never more pages than the range has, and as many exactly when all are usable |
| GpuPages.AllPagesCollected | togpu/driver/xt_TOGPU_main.c:348-366 | Of 32 MB of usable pages exactly 8192 are collected, in address order |
| SlotPages.SamePage | togpu/driver/xt_TOGPU_kernel.cu:1757-1758 | Byte d of the buffer at kva + i * 0x1000 is in the page that the GPU finds at offset i * 0x1000 + d, if and only if all pages of the range up to that one are usable |
| SlotPages.AllSlotsArePages | togpu/driver/xt_TOGPU_kernel.cu:1757-1758 | Of 32 MB of usable pages, it is for every byte of every slot |
| SlotPages.MappedIffFull | togpu/driver/xt_TOGPU_main.c:255-269 | In all runs over a mapping of n pages every switched buffer lies in mapped pages, if and only if n is at least 8192 |
| SlotPages.MappedIffUsable | togpu/driver/xt_TOGPU_main.c:344-425 | For a range of 32 MB, if and only if all of its pages are usable |
| ByteRange.LoopEnds | togpu/driver/xt_TOGPU_pagewalk.c:39-47 | The loop over the entries of a table, on byte addresses with wrap-around, meets its end if and only if start and end have the same offset in a page |
| ByteRange.WalkEnds | togpu/driver/xt_TOGPU_pagewalk.c:53-95 | It does so in every table of a range if and only if both ends are at page boundaries, or they lie in one table and have the same offset |
| OpcodeText.ConvertOperands | togpu/driver/gen-insn-attr-x86.awk:227-246 | Rejected if and only if some immediate is unknown or a later one is not Ib; otherwise the class of the first, SCNDIMM if there is a second, MODRM if some operand needs it |
| OpcodeText.ImmFlagsPlain | togpu/driver/gen-insn-attr-x86.awk:51-61 | The listed table of immediates is one that the results below hold for |
| OpcodeLines.SplitJoin | togpu/driver/gen-insn-attr-x86.awk:283 | Splitting undoes joining with commas |
| OpcodeLines.ParseLine | togpu/driver/gen-insn-attr-x86.awk:273-291 | The loop over fields is the parser |
| OpcodeLines.ParseRender | togpu/driver/gen-insn-attr-x86.awk:273-291 | Parsing undoes writing alternatives out as fields |
| OpcodeLines.AlternativeFlags | togpu/driver/gen-insn-attr-x86.awk:293-326 | The accumulated flags of an alternative, field by field |
| MapTables.LineBuilt | togpu/driver/gen-insn-attr-x86.awk:327-344 | An accepted line adds to the four tables what it says for its index and nothing else |
| MapTables.EscapeReads | togpu/driver/inat.c:32-53 | Lookup in compiled tables is direct reading: after a mandatory prefix, if any alternative is tagged, the union of those tagged with it; else the union of the untagged, with the VARIANT mark |
| MapTables.GroupReads | togpu/driver/inat.c:55-77 | The same by ModRM reg, or-ed with what the referring opcode says apart from the group number |
| MapTables.AvxReads | togpu/driver/inat.c:79-89 | VEX lookup: the union of the alternatives for VEX.pp, the untagged ones for 0 |
| MapText.PrefixSelects | togpu/driver/gen-insn-attr-x86.awk:69-71 | In an accepted file whose primary table has the lines of 66, f3 and f2, lookup of an escape opcode after f3 unites exactly the flags of the alternatives whose extras have (F3) and not (66), if any alternative has one of the three; so for 66, and for f2 without the other two |
| MapText.PrefixSelectsInGroup | togpu/driver/gen-insn-attr-x86.awk:69-71 | The same for the table of a group |
| MapText.VexSelects | togpu/driver/gen-insn-attr-x86.awk:69-71 | And of a VEX map, with 1, 2 and 3 of the prefix field for 66, f3 and f2 |
| MapText.PrefixNumbers | togpu/driver/gen-insn-attr-x86.awk:78-81 | With those lines 66, f3 and f2 select the first, second and third variant in the emitted tables |
| MapText.ListedOnce | togpu/driver/gen-insn-attr-x86.awk:263-265 | What an accepted line says of an index, if anything, is all that its table says of it |
| KnownLines.LookupOf52 | togpu/driver/x86-opcode-map.txt:393 | From any accepted file with the three prefix lines and this line in the table of an escape: opcode 52 has a ModRM byte and takes VEX after f3, and is nothing after 66 and f2 |
| KnownLines.LineSays52 | togpu/driver/x86-opcode-map.txt:393 | The line has one alternative without and one for f3, both with ModRM and VEX |
| KnownLines.CallLine | togpu/driver/x86-opcode-map.txt:274 | CALL Jz (f64): immediate class 6, forced to 64 bits |
| KnownLines.PushLine | togpu/driver/x86-opcode-map.txt:113 | PUSH rAX/r8 (d64): forced to 64 bits |
| KnownLines.RexLine | togpu/driver/x86-opcode-map.txt:104 | DEC has no flags and REX.W prefix number 12 |
| KnownLines.EscLine | togpu/driver/x86-opcode-map.txt:257 | ESC has a ModRM byte |
| KnownLines.GroupLine | togpu/driver/x86-opcode-map.txt:164 | Grp1 Eb,Ib (1A): the group, a ModRM byte and immediate class 1 |
| KnownLines.VexPrefixLine | togpu/driver/x86-opcode-map.txt:237 | 2bytes-VEX is prefix number 13; an unknown prefix name is an error |
| KnownLines.VexOnlyLine | togpu/driver/x86-opcode-map.txt:595 | (66),(oVEX): only with VEX, after 66 |
| KnownLines.WordOperands | togpu/driver/x86-opcode-map.txt:240 | Iw,Ib: immediate class 2 and a second immediate; Id: class 3 |
| KnownLines.OffsetOperands | togpu/driver/x86-opcode-map.txt:198-199 | AL,Ob and Ov: a memory offset |
| KnownLines.ByteOperands | togpu/driver/x86-opcode-map.txt:147 | Jb and Ib: immediate class 1 |
| KnownLines.WideOperands | togpu/driver/gen-insn-attr-x86.awk:51-61 | Iq: class 4; Ap: class 5 |
| KnownLines.LongOperands | togpu/driver/x86-opcode-map.txt:223 | Iv: class 7 |
| KnownLines.BadOperands | togpu/driver/gen-insn-attr-x86.awk:227-246 | A word after a byte, and an immediate in no class, are errors |
| KnownLines.PrefixNumbersListed | togpu/driver/gen-insn-attr-x86.awk:77-90 | LOCK is 4, Address-Size 11, 2bytes-VEX 13, 3bytes-VEX 14 |
| KnownLines.SegmentNumbersListed | togpu/driver/gen-insn-attr-x86.awk:82-87 | The segment prefixes are 5 to 10 |
| MapCompiler.Compiler.OpcodeRule | togpu/driver/gen-insn-attr-x86.awk:248-345 | An opcode line updates the variables as the step on values does, or fails exactly when it does |
| MapCompiler.Compiler.ReferrerRule | togpu/driver/gen-insn-attr-x86.awk:116-125 | The rule for Referrer lines, with the entry that looking up an unknown name makes |
| MapCompiler.Compiler.AvxCodeRule | togpu/driver/gen-insn-attr-x86.awk:127-138 | The rule for AVXcode lines |
| MapCompiler.Compiler.GrpTableRule | togpu/driver/gen-insn-attr-x86.awk:140-146 | The rule for GrpTable lines |
| MapCompiler.Compiler.EndTableRule | togpu/driver/gen-insn-attr-x86.awk:159-215 | Keeps the tables that have entries and clears the variables |
| MapRuns.NextKeeps | togpu/driver/gen-insn-attr-x86.awk:110-345 | Every accepted line keeps: tables hold the lines read so far, finished tables stay as stored, names have distinct numbers |
| MapRuns.EscapeTableAnswers | togpu/driver/inat.c:32-53 | Wherever the table of an escape stands in an accepted file, lookup through the arrays emitted at the end reads the lines of that table |
| MapRuns.GroupTableAnswers | togpu/driver/inat.c:55-77 | The same for the table of a group and any attribute that refers to it |
| MapRuns.AvxTableAnswers | togpu/driver/inat.c:79-89 | The same for the table of a VEX map, by map and prefix field, whether or not it is also an escape table |
| MapRuns.PrimaryTableAnswers | togpu/driver/inat.c:27-30 | The primary table in an accepted file, which may also hold AVX-only tables, is emitted as the untagged reading of its lines |

## Left out

- Lookup of symbols, page attributes of the patched code, device registration, ioctl plumbing, logging, profiling and CUDA runtime calls: foreign interfaces. Their results are parameters (`found`, `buffer`, `mapped`).
- 32-bit operation of the relocator and the 32-bit offset macro; the decoder is modelled in both modes.
- Bytes changing between two getter calls on one instruction.
- A function that wraps around the address space (`Relocation.Func.Valid`), in `Relocated.CopyStaysInside` and the hook.
- Instructions of 256 bytes or more, possible only with some 244 prefix bytes: their 8-bit length is truncated, and `Relocated.WholeFunction` excludes functions with such ones. `CopyLoop.CopyFits` and `CopyLoop.CopyFrame` hold for them, too.
- The kernel memory beyond the allocated copy: `KernSym` has an arena with 512 bytes of room after the copy, so that a malformed last instruction has somewhere to write; `Relocated.CopyStaysInside` says when none of it is written.
- `aes_decrypt_bp4t`: it uses two round keys in all rounds and is not the inverse of its partner.
- `aes_lctr_crypt`, which stops after one round, `add_uint128`, which is not used, and the key schedule, which the repository does not contain; schedules are parameters.
- The round count that `aes_test` passes, and the word with the packet length, which the two sides write and read at different offsets.
- Concurrency inside a launch, but for the order of threads (`Packet.OrderFree`) and for lockstep statements (`AesFourThreads`).
- Derivation of XTS tweaks from a sector number: the kernels get one tweak for each thread.
- Allocation and release on several processors at once, cloned buffers, and mapping again while switched buffers are live: the code has no handling for them.
- The memory that was unmapped by STOP: START without a new mapping is allowed in runs, since only addresses are modelled.
- `skb->len` and the packet's bytes in the mailbox model: a step of the GPU loop stands for all its work on a packet.
- Ranges that are not whole pages, but for `ByteRange`: past the end of a table the walk reads what is not an entry.
- Huge TLB mappings, `ALLOC_VMAP_PAGES`, and callbacks that change page tables; a huge page takes some number of attempts to split, and may be gone then.
- GpuPages.GpuBuffer.CollectPages: runs the callbacks in the order of the walk's log after the walk, since they do not influence it; its precondition is the exact condition of `GpuPages.WalkStaysInside`, since past the end of the array the original has no defined behaviour.
- How awk splits a line into fields, comment lines, and an index that is not written the way the tables are printed: a line comes with its number and its fields.
- MapRuns.NextKeeps: a file is accepted only if no table comes twice, a group table has no AVXcode line, and numbers of escapes and groups fit the attribute word, as the emitted C code needs; the script itself does not check this.
- That the listed tables of `inat-tables.h` are the output for `x86-opcode-map.txt`; each is treated on its own.
- The iptables extension, launcher, boot scripts and installers: no deep property.
