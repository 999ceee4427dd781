# Verified models of five parts of Linux 1.0

A Dafny model of the parts of the Linux 1.0 kernel that do the most with the least text, and proofs
that each does what it is for. Every part is code that works in place with loops and pointers, and
every part has a simple meaning that the clever code has to agree with.

`dafny verify dfyconfig.toml` checks all of it.

## What is modelled

**The kernel's decompressor** (`zBoot/inflate.c`, `zBoot/misc.c`). `Rfc1951.dfy` is DEFLATE as a decoder
on values: a bit string, an unbounded history, and what comes out. `Inflate.InflateAll` is the
original's `inflate`, with its bit buffer, circular window and linked tables, and its contract is that
decoder; `Rfc1951Strict.dfy` says how the decoder stands to the letter of the format, and
`Rfc1951Values.dfy` gives its constants in words and byte strings with what they decode to. On the way:
canonical Huffman codes (`Huffman.dfy`); `huft_build` as a loop over codes whose invariant is that
everything placed so far decodes, whatever bits follow (`HuftTables.dfy`, `HuftPlan.dfy`,
`HuftNarrow.dfy`, `HuftBuild.dfy`, `HuftMain.dfy`); the bit buffer as the front of the unread stream
(`BitReader.dfy`); the window as the last 32K of a history (`Window.dfy`); and the table-driven CRC
against the shift register (`Crc.dfy`).

**The bucket allocator** (`lib/malloc.c`, without CONFIG_DEBUG_MALLOC). Each stretch of `kmalloc` and
`kfree_s` that runs with interrupts off is one method of `Malloc.Kernel`, and `Run` puts them together
in any order, calls waiting for a page included. One invariant over memory, descriptors, chains, calls
under way and objects in use is kept by every section (`BucketLists.dfy`, `MallocState.dfy`,
`MallocSteps.dfy`, `MallocPages.dfy`, `MallocKeeps.dfy`, `Malloc.dfy`); `MallocSlots.dfy` says over the
pages themselves when an object can be had at once.

**The console** (`drivers/char/console.c`). `Terminal.dfy` and `Escape.dfy` are the terminal on rows of
cells with no video memory in sight; `Console.Vc` is the original over an array of cells, with `origin`,
`scr_end` and `pos`, and `ConWrite` shows that it is that terminal for every byte string, on the path
that moves `origin` and on the one that copies. What the terminal does is said again without its code,
from the bytes that are typed (`Typing.dfy`) to where the cursor is (`MotionLaws.dfy`), what each cell
shows (`ScreenLaws.dfy`, `ControlLaws.dfy`), and what the modes, the rendition and the answers are
(`ModeLaws.dfy`); `TerminalLaws.dfy` has what these share, and `CursorReports.dfy` follows a cursor report
from the terminal to a program and back.

**The floating-point emulator** (`drivers/FPU-emu/reg_ld_str.c`, `fpu_trig.c`). Rounding is stated after
section 4 of IEEE 754-1985 in `FpuRound.dfy`, and `round_to_int`, the stores of doubles and singles
(`FpuStore.dfy`, `FpuSingle.dfy`) and the decimal stores (`FpuBcd.dfy`) are correct roundings in all four
modes. Loads are exact, and a load followed by a store gives back the same bits, a signalling NaN made
quiet (`FpuLoad.dfy`). `fprem` leaves the exact remainder (`FpuRem.dfy`), and `fsave` followed by
`frstor` carries the state over (`FpuState.dfy`, `FpuFrame.dfy`), its words bit by bit (`FpuWords.dfy`).
`FpuValues.dfy` has the formats and the rounding modes in literal words.

**Smaller structures**: the lists of serial ports that share an interrupt and the loop of the interrupt
routine (`Lists.dfy`, `SerialPorts.dfy`, `SerialIrq.dfy`), the ring of buffers in `block_read`
(`BlockRead.dfy`), and the bitmaps of I/O ports (`IoPort.dfy`).

## How the model stands to the code

- Words of the decompressor and the emulator are natural numbers with `<<`, `>>` and masks written as
  arithmetic; or-ing or xor-ing bits that do not meet is addition. Where a width matters (a shift out of
  32 bits, limbs modulo 2^64, a parameter below 2^32) it is written out. CRC registers, I/O bitmaps and
  character attributes are bit vectors.
- Pointers are indexes or addresses: tables of `huft_build` are a growing sequence, ports and
  descriptors are numbers, and console addresses are counted in cells.
- What cannot be seen from the code is a parameter: what registers read, which buffers a read brings,
  whether a page or an interrupt is granted.
- Storage the original leaves uninitialised has a value of its own (`Garbage`, `Unset`), and a decoder
  that reads it ends as `Wild`; `InflateAll` shows that this happens only for data that the format does
  not allow.
- The assembler routines `shrxs`, `reg_div`, `normalize_nuo` and `div_small` are methods with their exact
  mathematical contract.

## Where the code and its descriptions differ

- `huft_build` is described as returning 1 for an incomplete set and 2 for one with no codes at all. It
  returns 0 for a set without codes, and for an incomplete one whose longest code has one bit;
  `Classify` and `Usable` follow the code.
- `huft_build` looks for a table width up to the `l` bits that links are made for, but starts at what
  the next code needs and tests the bound only after adding a bit. A table below the root can come out
  wider, and codes that its links should lead to are then looked up in entries never written.
  `HuftMain.Build` says for which sets this happens (those that do not `Fit`), `HuftMain.Unfit` is one,
  and `Inflate.DynamicFits` shows that `inflate` meets none of them.
- The code length symbol 16 with no length before it repeats the length 0; the format calls for a
  previous length. The reference decoder has the original's answer. `Rfc1951Strict.dfy` has the format's,
  shows for every input that this is the only difference it makes, and gives data that shows it
  (`Rfc1951Strict.CopiesNothing`).
- `reg_store_double` and `reg_store_single` decide about underflow by a test that its comment explains
  with rounding to 53 or 24 bits first. `FpuStore.UnderflowTest` and `FpuSingle.UnderflowTest` give the
  range in which the two disagree, and `FpuStore.UnderflowMissed` and `FpuSingle.UnderflowMissed` are
  numbers in it. For lower exponents both are just whether bits are lost (`FpuStore.LowerStays`,
  `FpuSingle.LowerStays`).
- Two repairs of `prev` in `kfree_s` never run: `prev` is accurate whenever a page is given up.
- `gotoxy` promises the nearest margin for a place out of bounds. In origin mode a row that reaches 2^31
  when the top margin is added wraps around, and the cursor goes to the first row.
  `TerminalLaws.GotoNearest` says that this is the only case, and `CursorReports.RowWraps` gives bytes that
  lead to it.
- A cursor saved under origin mode comes back shifted down by the top margin.
  `TerminalLaws.SaveRestore` says exactly when its row is the one saved, `TerminalLaws.SavedMoves` is a
  case in which it is not. A cursor report has the same fault twice over, since its row is already counted
  from the top of the screen (`CursorReports.ReportReturns`, `CursorReports.ReportMoves`).
- In origin mode `gotoxy` adds the top margin also to rows reckoned from the cursor's own, which are
  counted from the top of the screen: a move to the side leaves the row, and one up or down lands the
  margin's number of rows lower. `MotionLaws.RowKept` says exactly when the row is kept, and
  `MotionLaws.RowLeft` is a case in which it is not.
- Counts in control sequences are taken modulo 2^32 and then as signed: `ESC [ 4294967295 A` goes down
  (`MotionLaws.CountWraps`). The laws of `MotionLaws.dfy` say for every count where the cursor goes, and
  exactly when that is the nearest place (`MotionLaws.Right`).
- In `invert_screen` a precedence slip makes the test for an underline always the same.
  `TerminalLaws.InvertDiffers` says where that shows: in the underlined characters of a console without
  colour.
- Copying a screen two cells at a time is right exactly for an even number of cells
  (`Cells.PairsExact`), so consoles here have an even number of columns.
- `set_serial_info` compares interrupt numbers before it turns 2 into 9, so asking for 2 on a port that
  has 9 restarts the port.

## Model

| member | source | states |
|---|---|---|
| Huffman.MatchUnique | Linux1.0/zBoot/inflate.c:196-273 | two canonical codes that begin the same bits are the same code, for every length set that is not oversubscribed: the code is a prefix code |
| Huffman.MatchExists | Linux1.0/zBoot/inflate.c:168-174 | in a set that uses up the code space every bit string begins with some code |
| Huffman.KraftIsLastCode | Linux1.0/zBoot/inflate.c:168-174 | the last code computed length by length measures the Kraft sum of the lengths |
| Huffman.DecodeFinds | Linux1.0/zBoot/inflate.c:361-370 | reading bit by bit finds symbol `s` whenever the bits begin with its canonical code, from any shorter start |
| Huffman.DecodeSound | Linux1.0/zBoot/inflate.c:361-370 | whatever bit-by-bit decoding answers is a symbol whose code begins the bits |
| HuftTables.LookSame | Linux1.0/zBoot/inflate.c:256-283 | a change of table entries that no lookup of `w` reads does not change what `w` decodes to |
| HuftTables.ShapeSteady | Linux1.0/zBoot/inflate.c:256-288 | links lead to tables no wider than `l`, and every step through the tables drops at least a bit |
| HuftTables.PathToLevel | Linux1.0/zBoot/inflate.c:216-268 | bits that begin with the prefix of a table on the stack are led to that table by the links |
| HuftPlan.FillPlaced | Linux1.0/zBoot/inflate.c:272-288 | filling every `1 << (k - w)`-th entry puts the next code in place and disturbs no earlier one |
| HuftPlan.NoEarlier | Linux1.0/zBoot/inflate.c:216-268 | no earlier code is met where a new table is linked in |
| HuftPlan.OpenPlaced | Linux1.0/zBoot/inflate.c:240-265 | linking in an empty table keeps every code placed so far |
| HuftNarrow.EndsBefore | Linux1.0/zBoot/inflate.c:223-237 | where fewer than 2^(l - 1) strings are left without a code, each table has a code that ends before its last bit |
| HuftNarrow.LastWidth | Linux1.0/zBoot/inflate.c:223-237 | where more are left, the width found for the last table of the level is more than `l` |
| HuftNarrow.FillMade | Linux1.0/zBoot/inflate.c:272-288 | in every set an entry is written only for bits that begin with a code ending in that table |
| HuftNarrow.OpenMade | Linux1.0/zBoot/inflate.c:256-268 | in every set links go from the part of a table that `l` bits reach to a table one level down |
| HuftNarrow.NotNarrowStray | Linux1.0/zBoot/inflate.c:216-288 | in a set that is not narrow the last code leads to an entry that was never written |
| HuftBuild.ChooseWidth | Linux1.0/zBoot/inflate.c:223-237 | for a set that fills the code space the width found covers the next code, is at most the rest of the depth and the root width, or one more than the next code needs, and is exact at the last level |
| HuftBuild.Increment | Linux1.0/zBoot/inflate.c:291-295 | the backwards increment, on a code kept with its first bit lowest, adds one to the code, and wraps from all ones to zero |
| HuftBuild.OpenTables | Linux1.0/zBoot/inflate.c:216-268 | tables are opened down to the level the next code needs, with every earlier code still decoding |
| HuftBuild.FillRow | Linux1.0/zBoot/inflate.c:286-288 | exactly the entries `first`, `first + step`, and so on of the table get the entry |
| HuftBuild.PlaceCode | Linux1.0/zBoot/inflate.c:213-288 | one turn of the loop puts the code of `*p` in the tables: everything placed before and it decode as they should, and for every set links and written entries stay as HuftNarrow describes them |
| HuftBuild.BackUp | Linux1.0/zBoot/inflate.c:297-302 | the stack that is left is a prefix of the old one, the next code is under every table on it, and it is under none of the tables taken off; if there are any, a table is opened before the next entries are filled |
| HuftBuild.BuildTables | Linux1.0/zBoot/inflate.c:196-306 | after the loops every code of the filled-out counts is looked up through the linked tables as the entry it should have, if the set is narrow; if it is not, the code of all ones is looked up in an entry that was never written |
| HuftBuild.OneTableIsFlat | Linux1.0/zBoot/inflate.c:216-268 | when no code is longer than the root table there are no links at all |
| HuftMain.CountLengths | Linux1.0/zBoot/inflate.c:136-141 | `c[k]` is the number of symbols of length `k` |
| HuftMain.Bounds | Linux1.0/zBoot/inflate.c:152-164 | `k` is a length that occurs with none shorter, `g` the longest that occurs |
| HuftMain.LeftOver | Linux1.0/zBoot/inflate.c:168-174 | `y` is what the codes leave of the code space, and is negative exactly when they oversubscribe it |
| HuftMain.Offsets | Linux1.0/zBoot/inflate.c:179-183 | each offset is the number of shorter codes |
| HuftMain.SortValues | Linux1.0/zBoot/inflate.c:188-192 | `v` holds the symbols ordered by length and, within a length, by symbol |
| HuftMain.KraftAtMax | Linux1.0/zBoot/inflate.c:168-174 | what is left over at the longest length tells the Kraft sum apart from one |
| HuftMain.NoGarbage | Linux1.0/zBoot/inflate.c:273-274 | bits that begin with no symbol's code meet the invalid-code entry when every symbol has a code |
| HuftMain.CompleteDecodes | Linux1.0/zBoot/inflate.c:309-310 | for a complete set every bit string decodes to a symbol |
| HuftMain.SmallFit | Linux1.0/zBoot/inflate.c:227-237 | sets of lengths up to `2 * l`, and complete ones of fewer than 2^l symbols, Fit |
| HuftMain.Unfit | Linux1.0/zBoot/inflate.c:227-237 | lengths 1, 2, 3 and 3 with tables of one bit, which do not Fit although they are complete |
| HuftMain.Build | Linux1.0/zBoot/inflate.c:99-311 | huft_build: the return code is the classification of the lengths by Kraft sum (2 above one, 1 below one unless the longest code is one bit, else 0); and for every bit string the linked tables give the entry and bit count of the canonical code: if it returns 0, exactly for the sets that Fit (the operations given being numbers of extra bits or 99), and if it returns 1, at least for those; for sets that Fit no lookup takes more than the width at once and each drops a bit, and the width is the one asked for unless all codes are longer or shorter |
| InflateTables.LengthTable | Linux1.0/zBoot/inflate.c:51-57 | cplens and cplext are the lengths and extra bits of section 3.2.5 of RFC 1951 |
| InflateTables.DistTable | Linux1.0/zBoot/inflate.c:58-65 | cpdist and cpdext are the distances and extra bits of that section |
| InflateTables.DistanceRange | Linux1.0/zBoot/inflate.c:392-405 | every distance the format can express is from 1 to 32768 |
| InflateTables.UsableIff | Linux1.0/zBoot/inflate.c:309-310 | the sets of lengths called usable in the reference are exactly the empty ones and those that huft_build classifies as 0 |
| InflateTables.LitMeaning | Linux1.0/zBoot/inflate.c:361-391 | what a literal/length entry makes the decoder do is what the symbol means |
| InflateTables.DistMeaning | Linux1.0/zBoot/inflate.c:392-405 | what a distance entry makes the decoder do is what the symbol means |
| InflateTables.FixedLitComplete | Linux1.0/zBoot/inflate.c:511-524 | the fixed literal/length code is complete |
| InflateTables.FixedDistIncomplete | Linux1.0/zBoot/inflate.c:527-536 | the fixed distance code of 30 five-bit lengths is incomplete, and huft_build's classification of it is 1 |
| BitReader.RefillKeeps | Linux1.0/zBoot/inflate.c:84-84 | or-ing a byte in above the bits at hand keeps the stream of unread bits |
| BitReader.DumpKeeps | Linux1.0/zBoot/inflate.c:85-85 | shifting bits out of the buffer removes exactly them from the stream |
| BitReader.Reader.FillInbuf | Linux1.0/zBoot/misc.c:202-224 | the next byte of the input is returned and the buffer holds what follows it; failure exactly at the end of the input, with the place unchanged |
| BitReader.Reader.NeedBits | Linux1.0/zBoot/inflate.c:84-84 | NEEDBITS for up to 16 bits: at least `n` bits are at hand, never more than 23, no byte is taken that is not needed, and the stream of unread bits is the one before; it fails only when the input has fewer than `n` bits left |
| BitReader.Reader.DumpBits | Linux1.0/zBoot/inflate.c:85-85 | DUMPBITS: the unread stream loses its first `n` bits |
| BitReader.Reader.GetBits | Linux1.0/zBoot/inflate.c:402-404 | need, mask and dump together read the `n`-bit number at the front of the stream; fewer than sixteen bits at hand stay so |
| BitReader.Reader.LookUp | Linux1.0/zBoot/inflate.c:361-370 | following links through the tables consumes exactly the bits of the code and yields the entry the tables give for the bits of the stream; in tables that never ask for more than nine bits, fewer than sixteen bits at hand stay so, and the input ends too soon only if fewer than eight bits come after the code |
| BitReader.Reader.Undo | Linux1.0/zBoot/inflate.c:801-807 | handing whole bytes back leaves fewer than eight bits at hand and, exactly if as many bytes are still in inbuf, a read position from which all wholly unread bytes remain to be read; with fewer than sixteen bits at hand, as there always are at the end of inflate, they are still there |
| Crc.StepXor | Linux1.0/zBoot/misc.c:181-181 | a shift of the register is linear over exclusive or |
| Crc.ByteStep | Linux1.0/zBoot/misc.c:181-181 | one table step is eight bitwise steps with the byte fed in |
| Crc.PatternIsPoly | Linux1.0/zBoot/misc.c:259-265 | the pattern built from the exponents is the reflected CRC-32 polynomial |
| Crc.EntryIsSteps | Linux1.0/zBoot/misc.c:269-279 | a table entry computed with the sentinel bit is the register after eight shifts |
| Crc.MakeCrc | Linux1.0/zBoot/misc.c:250-280 | the whole table: entry `i` is what eight bitwise steps make of `i` |
| Crc.UpdCrc | Linux1.0/zBoot/misc.c:168-186 | after any chunk the register is the bitwise CRC-32 register of everything so far |
| Crc.CheckValue | Linux1.0/zBoot/misc.c:161-188 | the CRC-32 of the nine digits is 0xCBF43926 |
| Window.RepeatAdd | Linux1.0/zBoot/inflate.c:408-426 | a copy of `m + n` bytes is a copy of `m` and then of `n` at the same distance |
| Window.RepeatPlain | Linux1.0/zBoot/inflate.c:412-417 | a copy that does not reach its own output copies old bytes |
| Window.RingPut | Linux1.0/zBoot/inflate.c:378-383 | storing a byte in the window keeps it a picture of the last 32K of the history |
| Window.RingCopyBlock | Linux1.0/zBoot/inflate.c:412-417 | a block copy whose source does not reach what it writes leaves a picture of the history with that much of the LZ77 copy appended |
| Window.RingFlush | Linux1.0/zBoot/inflate.c:427-431 | starting over at the beginning of a full window leaves a picture of the last 32K |
| Window.MemCpy | Linux1.0/zBoot/misc.c:152-159 | the ascending byte copy is a block copy whenever the destination is below the source or past its end |
| Window.OutWindow.Flush | Linux1.0/zBoot/misc.c:230-240 | output and crc gain exactly the bytes of the window, and the history is unchanged |
| Window.OutWindow.Put | Linux1.0/zBoot/inflate.c:378-383 | the history gains one byte, with a flush when the window is full |
| Window.OutWindow.Copy | Linux1.0/zBoot/inflate.c:408-433 | the whole copy loop, chunked at the window end, overlapping or not: the history becomes LZ77's copy from an unbounded history, and the loop terminates |
| Rfc1951.CodesAfter | Linux1.0/zBoot/inflate.c:336-438 | codes that refer to nothing before their own history decode alike after any earlier output |
| Rfc1951.BlockAfter | Linux1.0/zBoot/inflate.c:730-773 | a block of any kind that refers to nothing before its own history decodes alike after any earlier output |
| Rfc1951.InflateAfter | Linux1.0/zBoot/inflate.c:777-818 | a whole data set that refers to nothing before its own history decodes alike after any earlier output |
| Rfc1951Strict.LengthsExactly | Linux1.0/zBoot/inflate.c:628-670 | the code lengths as the format reads them are those of the reference, unless the first symbol is 16 |
| Rfc1951Strict.StrictExactly | Linux1.0/zBoot/inflate.c:628-670 | for every input the format decodes as the original does, but calls data bad in which a block that is come to begins its code lengths with the symbol 16 |
| Rfc1951Strict.StrictAgrees | Linux1.0/zBoot/inflate.c:777-818 | the two agree exactly when there is no such block or the data is bad anyway, and what the format allows the original decodes alike |
| Rfc1951Strict.CopiesNothing | Linux1.0/zBoot/inflate.c:628-670 | ninety-six bits that the original decodes to nothing and the format calls bad, whatever follows them |
| Rfc1951Values.OrderLaw | Linux1.0/zBoot/inflate.c:49-50 | the places of the code length symbols: 16, 17, 18 and 0, then 8 + d at every even place and 8 - d at every odd one |
| Rfc1951Values.FirstAndLast | Linux1.0/zBoot/inflate.c:51-64 | the first and last lengths and distances and their extra bits as numbers |
| Rfc1951Values.LengthSymbol | Linux1.0/zBoot/inflate.c:625-669 | 16 repeats the last length three to six times by two bits, 17 and 18 give zeros, three to ten by three bits and eleven to 138 by seven |
| Rfc1951Values.FixedLengths | Linux1.0/zBoot/inflate.c:508-530 | the fixed lengths by ranges of symbols: 8, 9, 7 and 8 bits, and 5 for distances |
| Rfc1951Values.FixedCode | Linux1.0/zBoot/inflate.c:508-522 | the fixed codes as section 3.2.6 lists them |
| Rfc1951Values.StoredByte | Linux1.0/zBoot/inflate.c:442-495 | six bytes with a stored block and the byte they decode to |
| Rfc1951Values.FixedByte | Linux1.0/zBoot/inflate.c:498-548 | three bytes with a block of fixed codes and the byte they decode to |
| Rfc1951Values.DynamicBytes | Linux1.0/zBoot/inflate.c:552-709 | sixteen bytes with a block of its own codes, of one to three bits, whose lengths use symbols 17 and 18, and the six bytes they decode to |
| Inflate.ReadLit | Linux1.0/zBoot/inflate.c:359-370 | a literal/length code is read as the canonical code has it |
| Inflate.ReadDistance | Linux1.0/zBoot/inflate.c:392-405 | a distance code and its extra bits are read as the format has them |
| Inflate.CopyPair | Linux1.0/zBoot/inflate.c:385-434 | a length/distance pair does to bits and history what the format says |
| Inflate.DecodeOne | Linux1.0/zBoot/inflate.c:359-435 | one turn of the decoding loop is one step of the reference decoder |
| Inflate.InflateCodes | Linux1.0/zBoot/inflate.c:336-438 | for any two sets of lengths whose tables decode them, the codes of a block are decoded as the reference decodes them, errors included |
| Inflate.StoredLoop | Linux1.0/zBoot/inflate.c:473-484 | the stored bytes go to the history one by one |
| Inflate.InflateStored | Linux1.0/zBoot/inflate.c:442-494 | a stored block: alignment, length and its complement, and the bytes, or an error where the format has one |
| Inflate.InflateFixed | Linux1.0/zBoot/inflate.c:498-548 | a block with the fixed codes is decoded as the reference decodes it, although huft_build returns 1 for the distance code |
| Inflate.OrderIsPermutation | Linux1.0/zBoot/inflate.c:49-50 | each of the nineteen code length symbols has exactly one place in border |
| Inflate.ReadCodeLengthLengths | Linux1.0/zBoot/inflate.c:602-609 | the code length code's lengths land in the places the format gives them, the rest zero |
| Inflate.ReadLengthSymbol | Linux1.0/zBoot/inflate.c:630-632 | a code length symbol is looked up in one step, without a check of the entry, because its tables have no links and no invalid entry is reached |
| Inflate.ReadLengthsOnce | Linux1.0/zBoot/inflate.c:628-670 | one turn of the loop: what the reference reads from here is what it reads after one length or one of the three repetitions; a repetition past the end is an error |
| Inflate.ReadLengths | Linux1.0/zBoot/inflate.c:627-671 | reading all the code lengths gives exactly the lengths the reference reads, or an error where it has one |
| Inflate.DynamicTrees | Linux1.0/zBoot/inflate.c:679-724 | with two usable sets of lengths the codes that follow are decoded as the reference decodes them; with another set the block is an error |
| Inflate.DynamicFits | Linux1.0/zBoot/inflate.c:683-700 | tables of the widths used here decode every set of lengths that huft_build accepts |
| Inflate.NineBits | Linux1.0/zBoot/inflate.c:690-730 | a complete set of at most 288 lengths is looked up at most nine bits at a time |
| Inflate.InflateDynamic | Linux1.0/zBoot/inflate.c:552-726 | a dynamic block is decoded as section 3.2.7 of RFC 1951 has it |
| Inflate.InflateBlock | Linux1.0/zBoot/inflate.c:730-773 | the block header chooses the kind of block; type 3 is an error |
| Inflate.InflateBlocks | Linux1.0/zBoot/inflate.c:786-798 | blocks are decoded up to and including the one marked last, as the reference decodes the data set |
| Inflate.Finish | Linux1.0/zBoot/inflate.c:801-811 | the output and its CRC are complete, and with fewer than sixteen bits at hand, as inflate comes here, inptr is at the first byte not used |
| Inflate.ReferenceAfter | Linux1.0/zBoot/inflate.c:777-818 | data that decodes on its own decodes the same whatever the window held before |
| Inflate.InflateAll | Linux1.0/zBoot/inflate.c:777-818 | the whole decompressor: on success the output and its CRC are exactly the reference decoding of the input, and inptr stands after the last byte used, inside inbuf, for input of any length; every input the reference decodes with a byte to spare is decompressed; every error is an error of the data or its end |
| BucketLists.ChainRemove | Linux1.0/lib/malloc.c:490-496 | unlinking an element leaves the list of the others, in order |
| BucketLists.Pigeonhole | Linux1.0/lib/malloc.c:480-499 | two duplicate-free lists of one length, one inside the other, have the same elements: a free list as long as the page has objects holds them all |
| MallocState.SlotPage | Linux1.0/lib/malloc.c:241-260 | the objects of a bucket page lie inside it and do not overlap |
| MallocState.BucketIdle | Linux1.0/lib/malloc.c:478-480 | the count is zero exactly when no object of the page is with a caller |
| MallocSlots.Sizes | Linux1.0/lib/malloc.c:99-113 | the object sizes are the powers of two from 16 to a page, all different, and fill a page |
| MallocSlots.SlotIs | Linux1.0/lib/malloc.c:236-260 | the objects of a page are the multiples of their size in it |
| MallocSlots.FoundIff | Linux1.0/lib/malloc.c:201-203 | looking through a bucket's chain finds a free object exactly when some page of that size has one that nobody holds |
| MallocSteps.TakeKeeps | Linux1.0/lib/malloc.c:269-277 | handing out the first free object keeps the allocator's invariant |
| MallocSteps.ListedRetire | Linux1.0/lib/malloc.c:485-498 | moving an idle descriptor to the free list keeps every list intact |
| MallocKeeps.PopKeeps | Linux1.0/lib/malloc.c:221-223 | taking a free descriptor keeps the invariant, the descriptor being with that call alone |
| MallocKeeps.PushKeeps | Linux1.0/lib/malloc.c:229-232 | putting the descriptor back when no page is to be had keeps the allocator's invariant, the call being over |
| MallocKeeps.SpliceKeeps | Linux1.0/lib/malloc.c:149-158 | adding a page of new descriptors to the free list keeps the invariant |
| MallocKeeps.AdoptKeeps | Linux1.0/lib/malloc.c:236-267 | putting a new page on its chain with all its objects free keeps the invariant |
| MallocKeeps.GiveKeeps | Linux1.0/lib/malloc.c:475-479 | taking an object back keeps the invariant, but that its page may be idle |
| MallocKeeps.RetireKeeps | Linux1.0/lib/malloc.c:480-500 | giving up an idle page, its descriptor moved from its chain to the free list, restores the invariant |
| MallocKeeps.WriteKeeps | Linux1.0/lib/malloc.c:269-277 | whatever a caller writes inside an object it holds keeps the invariant |
| MallocKeeps.LiveApart | Linux1.0/lib/malloc.c:241-277 | in every state that keeps the invariant, objects in use never overlap |
| MallocKeeps.FreeApart | Linux1.0/lib/malloc.c:241-260 | free objects are aligned, inside their page, and share no byte with one in use; count and free list add up to the page |
| MallocKeeps.PageOnce | Linux1.0/lib/malloc.c:221-267 | a page that a descriptor has, or is to have, belongs to no other, to no call without one, and is no page of descriptors |
| MallocKeeps.OneOwner | Linux1.0/lib/malloc.c:221-267 | each descriptor is on one bucket chain, on the free list, or with one call, and on no two of them; no page belongs to two descriptors, chained or about to be |
| MallocKeeps.AtRest | Linux1.0/lib/malloc.c:478-500 | when nothing is held every bucket chain is empty, and when no call is under way either only pages of descriptors are left, with every descriptor on the free list |
| Malloc.Kernel.FindBucket | Linux1.0/lib/malloc.c:190-194 | the smallest bucket that fits, or none above one page |
| Malloc.Kernel.FirstFree | Linux1.0/lib/malloc.c:201-203 | the first descriptor with a free object, or 0 when there is none on the chain |
| Malloc.Kernel.Start | Linux1.0/lib/malloc.c:190-223 | kmalloc until it waits or returns: an object exactly when some page cut into objects of the smallest fitting size has one that nobody holds, and then such an object; NULL for more than a page; else suspended, asking for a page of descriptors exactly when no descriptor is free and otherwise for a page with the first free one in hand |
| Malloc.Kernel.TakeDesc | Linux1.0/lib/malloc.c:221-223 | the first free descriptor is taken off the list, whose head is then the next one, and is from then on held by the call alone |
| Malloc.Kernel.PageArrives | Linux1.0/lib/malloc.c:216-225 | a page that nobody had belongs to the call |
| Malloc.Kernel.PageRefused | Linux1.0/lib/malloc.c:216-217 | without a page the call ends and its descriptor is the first free one again |
| Malloc.Kernel.InitDescs | Linux1.0/lib/malloc.c:144-158 | the descriptors of the page are linked in order, the last to the old list, and no other descriptor changes |
| Malloc.Kernel.AddDescs | Linux1.0/lib/malloc.c:144-158 | the 256 descriptors of a new page go on the free list before the others, which stay as they were, and the call goes on without the page |
| Malloc.Kernel.Splice | Linux1.0/lib/malloc.c:218-223 | the page's descriptors go on the free list and its first one to the call, in one section |
| Malloc.Kernel.ThreadPage | Linux1.0/lib/malloc.c:240-260 | the objects of the page are linked in order and nothing outside the page is written |
| Malloc.Kernel.Publish | Linux1.0/lib/malloc.c:236-277 | the page goes on its chain with its size, its first object goes to the caller, and every other object of it is free, in one section; no other descriptor changes page or size |
| Malloc.Kernel.Take | Linux1.0/lib/malloc.c:269-277 | the first free object of the page is handed out; it was with nobody |
| Malloc.Kernel.FindDesc | Linux1.0/lib/malloc.c:425-443 | the descriptor of the page, with its predecessor on the chain, is found if it is on a chain of a bucket of at least the size; else none of those chains has one for the page |
| Malloc.Kernel.Retire | Linux1.0/lib/malloc.c:480-500 | the page is given back and its descriptor is the first free one; `prev` is always accurate, so the two repairs in the original never run |
| Malloc.Kernel.Kfree | Linux1.0/lib/malloc.c:382-503 | an object is found exactly when the size given is from 0 to that of its page's objects; its page is given up exactly when no other object on it is held, and its descriptor is then the first free one; otherwise the object can be had again |
| Malloc.Kernel.Run | Linux1.0/lib/malloc.c:170-503 | any interleaving of the interrupts-off sections of any calls, with callers writing to their objects, keeps the invariant; objects never overlap, no descriptor is ever lost, and with none in use and no call under way every bucket page is back and every descriptor is on the free list |
| Cells.UpTwice | Linux1.0/drivers/char/console.c:909-917 | shifting a window by `m` and by `n` is shifting it by both |
| Cells.DownTwice | Linux1.0/drivers/char/console.c:889-897 | shifting down by `m` and by `n` is shifting down by both |
| Cells.UpDown | Linux1.0/drivers/char/console.c:418-493 | a scroll up followed by a scroll down loses only the lines scrolled out |
| Cells.CopyUp | Linux1.0/drivers/char/console.c:460-471 | copying and erasing in memory is the scroll of the screen that lies there |
| Cells.MoveOrigin | Linux1.0/drivers/char/console.c:429-456 | moving the origin by a row and erasing the row after the old end is the scroll of the screen |
| Cells.CopyBack | Linux1.0/drivers/char/console.c:432-447 | copying all but the first row back to the start of memory and erasing the last is the scroll of the screen |
| Cells.CopyDown | Linux1.0/drivers/char/console.c:479-492 | the descending copy and an erased first row are the scroll down of the screen |
| Cells.PairsExact | Linux1.0/drivers/char/console.c:432-447 | the copy of cells two at a time is right for every screen exactly when an even number of cells is moved |
| Terminal.NextTab | Linux1.0/drivers/char/console.c:1043-1047 | the cursor goes to the first tab stop on its right, or to the last column when there is none |
| Terminal.Inverted | Linux1.0/drivers/char/console.c:747-756 | inverse video changes the attribute of each cell by itself |
| Escape.NextOk | Linux1.0/drivers/char/console.c:1012-1309 | every byte leaves the automaton in order: fewer than NPAR parameters, below 2^32, margins and tables valid, wrap pending only in the last column |
| Escape.NextStays | Linux1.0/drivers/char/console.c:1012-1309 | parsing by itself never moves the cursor |
| Escape.Region | Linux1.0/drivers/char/console.c:1240-1252 | a scrolling region that is accepted has at least two lines, lies on the screen and sends the cursor home; any other changes nothing |
| Escape.Put | Linux1.0/drivers/char/console.c:1011-1309 | one byte keeps cursor, margins, parser and screen in order |
| Escape.Written | Linux1.0/drivers/char/console.c:1011-1309 | any string of bytes keeps cursor, margins, parser and screen in order |
| TerminalLaws.ScrolledRow | Linux1.0/drivers/char/console.c:418-473 | a scroll moves whole rows of its band, blanks the last ones and touches no other row |
| TerminalLaws.GotoNearest | Linux1.0/drivers/char/console.c:300-330 | for all 32-bit coordinates the cursor goes to the nearest column, and to the nearest allowed row exactly unless in origin mode the row counted from the top margin reaches 2^31 |
| TerminalLaws.SaveRestore | Linux1.0/drivers/char/console.c:919-947 | a saved cursor comes back with its rendition; its row does exactly when origin mode is off or does not shift it |
| TerminalLaws.SavedMoves | Linux1.0/drivers/char/console.c:919-947 | a cursor saved in origin mode that comes back two rows below |
| TerminalLaws.InvertDiffers | Linux1.0/drivers/char/console.c:747-756 | what the code does to a cell is what its test was meant to do except on a console without colour for an attribute whose low three bits are 1 |
| CursorReports.NumberBack | Linux1.0/drivers/char/console.c:711-724 | a number below a thousand is read back from the digits it is reported with |
| Typing.PutDigits | Linux1.0/drivers/char/console.c:1139-1147 | digits typed into a parameter make it their decimal number, modulo 2^32, and change nothing else |
| CursorReports.PlaceTyped | Linux1.0/drivers/char/console.c:1125-1206 | the bytes of a cursor position sequence, from the escape on, move the cursor to the place of its two numbers and leave the screen alone |
| CursorReports.ReportReturns | Linux1.0/drivers/char/console.c:726-735 | a cursor report written back as a position sequence brings the cursor to the same column always, and to the same row exactly when origin mode is off or does not shift it |
| CursorReports.ReportMoves | Linux1.0/drivers/char/console.c:726-735 | a cursor reported in origin mode that comes back four rows below |
| CursorReports.RowWraps | Linux1.0/drivers/char/console.c:300-330 | bytes that put any terminal of ten lines into origin mode with margins and then send the cursor to a row that wraps around: it goes to the first row of the screen, outside the margins |
| Typing.CommandTyped | Linux1.0/drivers/char/console.c:1079-1148 | a control sequence of one parameter or none, typed on a terminal in any state between two, finds its decimal number, and starts with a fresh parser |
| MotionLaws.UpTyped | Linux1.0/drivers/char/console.c:1174-1197 | ESC [ n A and F take the cursor n rows up, F also to the first column, none and zero meaning one; nearest on the screen exactly while the number fits in 32 bits; nothing else changes |
| MotionLaws.DownTyped | Linux1.0/drivers/char/console.c:1178-1193 | the same of B, e and E, down |
| MotionLaws.AcrossTyped | Linux1.0/drivers/char/console.c:1182-1189 | the same of C and a, right, and D, left |
| MotionLaws.ToTyped | Linux1.0/drivers/char/console.c:1170-1201 | the same of G and the grave accent, to a column, and d, to a row |
| MotionLaws.HomeTyped | Linux1.0/drivers/char/console.c:1202-1206 | the same of H and f with one number or none, to a row and the first column |
| MotionLaws.CellTyped | Linux1.0/drivers/char/console.c:1202-1206 | the same of H and f with two numbers, to a row and a column |
| MotionLaws.Reached | Linux1.0/drivers/char/console.c:306-330 | a place that is on the screen, and in the region in origin mode, is reached |
| MotionLaws.RowKept | Linux1.0/drivers/char/console.c:1182-1189 | a move along the row stays on it exactly when origin mode is off or does not shift it |
| MotionLaws.RowLeft | Linux1.0/drivers/char/console.c:1182-1185 | a step to the right in origin mode that ends two rows below |
| MotionLaws.CountWraps | Linux1.0/drivers/char/console.c:1174-1177 | a count of 2^32 - 1 up is one row down |
| MotionLaws.MarginsTyped | Linux1.0/drivers/char/console.c:1240-1252 | ESC [ m ; n r sets margins of two lines at least on the screen and homes the cursor, or does nothing |
| MotionLaws.TopTyped | Linux1.0/drivers/char/console.c:1240-1252 | with one number or none the region reaches to the last line |
| MotionLaws.SaveTyped | Linux1.0/drivers/char/console.c:919-931 | ESC 7 and ESC [ s keep place, rendition and character sets, and change nothing else |
| MotionLaws.RestoreTyped | Linux1.0/drivers/char/console.c:933-947 | ESC 8 and ESC [ u send the cursor to the place kept and bring rendition and character sets back |
| ScreenLaws.EraseDisplayTyped | Linux1.0/drivers/char/console.c:546-575 | ESC [ p J, cell by cell: from the cursor on, up to and with it, or all; other numbers do nothing |
| ScreenLaws.EraseLineTyped | Linux1.0/drivers/char/console.c:577-605 | ESC [ p K, cell by cell, in the cursor's row alone |
| ScreenLaws.InsertCharsTyped | Linux1.0/drivers/char/console.c:879-887 | ESC [ n @: each cell right of the cursor comes from n columns to its left, or is blank |
| ScreenLaws.DeleteCharsTyped | Linux1.0/drivers/char/console.c:899-907 | ESC [ n P: each cell from the cursor on comes from n columns to its right, or is blank |
| ScreenLaws.InsertLinesTyped | Linux1.0/drivers/char/console.c:889-897 | ESC [ n L: each row from the cursor to the bottom margin comes from n rows above, or is blank |
| ScreenLaws.DeleteLinesTyped | Linux1.0/drivers/char/console.c:909-917 | ESC [ n M: each row from the cursor to the bottom margin comes from n rows below, or is blank |
| ControlLaws.LineFeedTyped | Linux1.0/drivers/char/console.c:1050-1056 | bytes 10 to 12: a row down, or at the bottom margin and below the last row the region scrolls up by one; in new-line mode also to the first column |
| ControlLaws.IndexTyped | Linux1.0/drivers/char/console.c:1085-1094 | ESC D the same, ESC E from the first column, ESC M a row up or the region scrolls down |
| ControlLaws.ReturnTyped | Linux1.0/drivers/char/console.c:517-521 | byte 13 goes to the first column and forgets a pending wrap |
| ControlLaws.BackspaceTyped | Linux1.0/drivers/char/console.c:523-530 | byte 8 goes one column back unless in the first |
| ControlLaws.TabTyped | Linux1.0/drivers/char/console.c:1041-1049 | byte 9 goes to the next tab stop on the right or the last column, and keeps a pending wrap |
| ControlLaws.ShiftTyped | Linux1.0/drivers/char/console.c:1057-1064 | bytes 14 and 15 choose G1 and G0 |
| ControlLaws.BreakTyped | Linux1.0/drivers/char/console.c:1034-1077 | bytes 24 and 26 break a sequence off, 27 begins one, 155 is ESC [, also in the middle of one; 7 and 127 change nothing |
| ControlLaws.PrintTyped | Linux1.0/drivers/char/console.c:1012-1027 | a printed character: a pending wrap is done first, insert mode makes room, its translation is stored in the attribute in force, and in the last column a wrap is pending if that mode is set; every other cell stays |
| ControlLaws.EscTyped | Linux1.0/drivers/char/console.c:1095-1125 | ESC H sets a tab stop, ESC Z is answered, ESC > and ESC = choose the keypad, and what is not known does nothing |
| ControlLaws.CharsetTyped | Linux1.0/drivers/char/console.c:1281-1306 | ESC ( and ESC ) choose G0 and G1 by B, 0, U and K, and the one in use translates at once |
| ControlLaws.AlignTyped | Linux1.0/drivers/char/console.c:1270-1280 | ESC # 8 fills the screen with E in the erase attribute |
| ControlLaws.ResetTyped | Linux1.0/drivers/char/console.c:952-991 | ESC c: the value of every field afterwards, and a blank screen |
| ModeLaws.AttrIs | Linux1.0/drivers/char/console.c:611-630 | the attribute by its parts: colours change places in reverse or on an inverted screen but not both, blinking and brightness turn their bits over, and what underlining and half intensity do with and without colour |
| ModeLaws.EraseIs | Linux1.0/drivers/char/console.c:631-635 | blank cells are spaces in the plain colours, which change places on an inverted screen |
| ModeLaws.RenditionTyped | Linux1.0/drivers/char/console.c:647-702 | ESC [ p m: intensity, underline, blink and reverse, and the foreground and background by red, green and blue, for every p; the rest stays |
| ModeLaws.RenditionsTyped | Linux1.0/drivers/char/console.c:647-702 | two numbers act one after the other |
| ModeLaws.ModeTyped | Linux1.0/drivers/char/console.c:800-808 | ESC [ p h and l: 4 is insert mode and 20 new-line mode, nothing else |
| ModeLaws.PrivateModeTyped | Linux1.0/drivers/char/console.c:758-799 | ESC [ ? p h and l: which mode each p is, what 3, 5 and 6 do to screen and cursor, and that nothing else changes |
| ModeLaws.InvertIs | Linux1.0/drivers/char/console.c:747-756 | an inverted cell keeps its character and exchanges its colours, or without colour turns six bits over |
| ModeLaws.ModesTyped | Linux1.0/drivers/char/console.c:758-808 | two modes of one sequence act one after the other |
| ModeLaws.TabsTyped | Linux1.0/drivers/char/console.c:1226-1236 | ESC [ g clears the tab stop at the cursor and ESC [ 3 g all of them |
| ModeLaws.ReportTyped | Linux1.0/drivers/char/console.c:726-740 | ESC [ 5 n is answered that all is well and ESC [ 6 n with the row and the column from 1, in decimal digits |
| ModeLaws.NameTyped | Linux1.0/drivers/char/console.c:1222-1225 | ESC [ c is answered with the terminal's name |
| ModeLaws.SettermTyped | Linux1.0/drivers/char/console.c:811-836 | ESC [ p ; q ]: the colours for underlining and half intensity, and the default attribute |
| ModeLaws.UnknownTyped | Linux1.0/drivers/char/console.c:1149-1266 | other final characters do nothing, and after a question mark only h and l do anything |
| ModeLaws.FunctionKeyTyped | Linux1.0/drivers/char/console.c:1133-1136 | ESC [ [ and one more byte do nothing |
| Console.Vc.Stos | Linux1.0/drivers/char/console.c:449-456 | the ascending fill: exactly the `n` cells from `at` on become `v` |
| Console.Vc.Movs | Linux1.0/drivers/char/console.c:433-435 | the ascending copy by pairs moves a block of an even number of cells, overlapping source and destination included |
| Console.Vc.MovsDown | Linux1.0/drivers/char/console.c:479-482 | the descending copy by pairs moves a block of an even number of cells upwards, overlapping included |
| Console.Vc.ScrollByOrigin | Linux1.0/drivers/char/console.c:428-458 | scrolling by moving `origin`, with the copy back at the end of memory, scrolls the screen by a row and writes only the console's memory |
| Console.Vc.ScrollByCopy | Linux1.0/drivers/char/console.c:460-471 | scrolling any band of rows by copying scrolls the screen by a row and writes only the console's memory |
| Console.Vc.Scrup | Linux1.0/drivers/char/console.c:418-473 | scrup does the same to the screen whether it moves the origin or copies, and keeps pos, origin and scr_end in step inside video memory |
| Console.Vc.Scrdown | Linux1.0/drivers/char/console.c:475-493 | scrdown moves a band of rows down by one and blanks its first |
| Console.Vc.Gotoxy | Linux1.0/drivers/char/console.c:305-330 | the cursor goes where the terminal machine sends it, clamped to the screen or the margins, and `pos` follows |
| Console.Vc.Lf | Linux1.0/drivers/char/console.c:495-504 | a line feed on the last line of the region or below it scrolls the region up and drops a pending wrap; above it the cursor moves down and a pending wrap stays |
| Console.Vc.Ri | Linux1.0/drivers/char/console.c:506-515 | a reverse line feed on the first line of the region or above it scrolls the region down and drops a pending wrap; below it the cursor moves up and a pending wrap stays |
| Console.Vc.Cr | Linux1.0/drivers/char/console.c:517-521 | the cursor and `pos` go to the first column and no wrap is pending |
| Console.Vc.Bs | Linux1.0/drivers/char/console.c:523-530 | the cursor and `pos` go one column back, unless in the first, and no wrap is pending |
| Console.Vc.Tab | Linux1.0/drivers/char/console.c:1041-1049 | the cursor and `pos` go to the next tab stop or the last column |
| Console.Vc.CsiJ | Linux1.0/drivers/char/console.c:546-575 | the part of the screen after, before or around the cursor is blanked, or nothing for other parameters; of the terminal only the pending wrap changes |
| Console.Vc.CsiK | Linux1.0/drivers/char/console.c:577-606 | the part of the line after, before or around the cursor is blanked, or nothing for other parameters |
| Console.Vc.InsertChar | Linux1.0/drivers/char/console.c:839-852 | inserting one character cell moves the rest of the line on by one and blanks the cell at the cursor |
| Console.Vc.DeleteChar | Linux1.0/drivers/char/console.c:860-871 | deleting one character cell moves the rest of the line back by one and blanks the last cell |
| Console.Vc.CsiAt | Linux1.0/drivers/char/console.c:879-887 | inserting one character cell at a time is one shift of the rest of the line by the count, with the count's default and limit |
| Console.Vc.CsiP | Linux1.0/drivers/char/console.c:899-907 | deleting one character cell at a time is one shift of the rest of the line by the count, with the count's default and limit |
| Console.Vc.InsertLine | Linux1.0/drivers/char/console.c:854-858 | the rows from the cursor's to the bottom margin move down by one and the cursor's becomes blank |
| Console.Vc.DeleteLine | Linux1.0/drivers/char/console.c:873-877 | the rows below the cursor's up to the bottom margin move up by one and the last becomes blank, the origin moving or not |
| Console.Vc.CsiL | Linux1.0/drivers/char/console.c:889-897 | inserting lines one at a time is one shift by the count |
| Console.Vc.CsiM | Linux1.0/drivers/char/console.c:909-917 | deleting lines one at a time is one shift by the count, the origin moving or not |
| Console.Vc.InvertScreen | Linux1.0/drivers/char/console.c:747-756 | the cells of the screen are inverted and no other memory |
| Console.Vc.SetModes | Linux1.0/drivers/char/console.c:758-809 | set_mode over all its parameters does to modes, cursor and screen what they do one after the other on the terminal machine |
| Console.Vc.RestoreCur | Linux1.0/drivers/char/console.c:933-947 | the cursor goes where gotoxy sends the saved place, and rendition and character sets are the saved ones |
| Console.Vc.ResetTerminal | Linux1.0/drivers/char/console.c:952-992 | modes, margins, parser, tab stops and rendition get their initial values, the cursor goes home and the screen is erased |
| Console.Vc.AlignScreen | Linux1.0/drivers/char/console.c:1272-1279 | the screen alignment test fills the screen with the letter E in the erase attribute and changes no other memory of the machine |
| Console.Vc.PrintChar | Linux1.0/drivers/char/console.c:1012-1027 | a printable character: the pending wrap is done first, insert mode shifts the line, the cell is stored, and the cursor moves or a wrap becomes pending in the last column |
| Console.Vc.ConWrite | Linux1.0/drivers/char/console.c:994-1310 | for every byte string the screen, cursor and modes become what the terminal machine says, pos, origin and scr_end stay in step inside video memory, and no memory outside the console's is written |
| Console.WriteBoth | Linux1.0/drivers/char/console.c:418-473 | for every byte string an origin-moving console shows what a copying one shows |
| FpuRound.RoundedUnique | Linux1.0/drivers/FPU-emu/reg_ld_str.c:1129-1158 | there is at most one correct rounding in each mode |
| FpuValues.RoundedHalves | Linux1.0/drivers/FPU-emu/reg_ld_str.c:1129-1158 | two and a half and one and a half in every mode |
| FpuRound.BitsRound | Linux1.0/drivers/FPU-emu/reg_ld_str.c:1126-1156 | deciding by the first lost bit and whether any other is set rounds correctly in all four modes |
| FpuRound.RoundToInt | Linux1.0/drivers/FPU-emu/reg_ld_str.c:1106-1162 | round_to_int: the significand becomes the correctly rounded integer, and the return value tells whether and which way it differs; the two overflow returns inside the switch are never taken |
| FpuStore.RoundNormal | Linux1.0/drivers/FPU-emu/reg_ld_str.c:536-588 | a 64-bit significand is correctly rounded to 53 bits in all four modes, with the carry into the exponent and the direction of the loss |
| FpuStore.DoubleOf | Linux1.0/drivers/FPU-emu/reg_ld_str.c:486-613 | the words of a number without the sign say the correctly rounded value, denormals included, or infinity above the range |
| FpuStore.StoreDouble | Linux1.0/drivers/FPU-emu/reg_ld_str.c:478-669 | the stored double is the register's value correctly rounded in the last place of its size, in all four modes, with carry, denormals and the step to the smallest normal; infinity on overflow; zeros and infinities as they are, NaNs with their leading bits and made quiet, the indefinite for an empty register; loss and underflow flags as given |
| FpuStore.UnderflowTest | Linux1.0/drivers/FPU-emu/reg_ld_str.c:513-518 | the test that decides about flagging underflow is the one its comment describes except in one stated range below the smallest normal number |
| FpuStore.UnderflowMissed | Linux1.0/drivers/FPU-emu/reg_ld_str.c:513-518 | a number in that range: to 53 bits it stays below the smallest normal number, yet no underflow is flagged |
| FpuStore.LowerStays | Linux1.0/drivers/FPU-emu/reg_ld_str.c:513-518 | with lower exponents no number rounds up to the smallest normal one, and underflow is flagged exactly when bits are lost |
| FpuSingle.RoundNormal | Linux1.0/drivers/FPU-emu/reg_ld_str.c:730-781 | a 64-bit significand is correctly rounded to 24 bits in all four modes, with the carry into the exponent and the direction of the loss |
| FpuSingle.StoreSingle | Linux1.0/drivers/FPU-emu/reg_ld_str.c:673-858 | the stored single is the register's value correctly rounded in the last place of its size, in all four modes, denormals included; infinity on overflow; zeros, infinities, NaNs and the empty register as for doubles; loss and underflow flags as given |
| FpuSingle.UnderflowTest | Linux1.0/drivers/FPU-emu/reg_ld_str.c:702-708 | the test that decides about flagging underflow is the one its comment describes except in one stated range below the smallest normal number |
| FpuSingle.UnderflowMissed | Linux1.0/drivers/FPU-emu/reg_ld_str.c:702-708 | a number in that range: to 24 bits it stays below the smallest normal number, yet no underflow is flagged |
| FpuSingle.LowerStays | Linux1.0/drivers/FPU-emu/reg_ld_str.c:702-708 | with lower exponents no number rounds up to the smallest normal one, and underflow is flagged exactly when bits are lost |
| FpuValues.DoubleFields | Linux1.0/drivers/FPU-emu/reg_ld_str.c:587-660 | the words of a double as sign, eleven bits of exponent and 52 of fraction, and their value |
| FpuValues.DoubleOne | Linux1.0/drivers/FPU-emu/reg_ld_str.c:587-660 | the words of one, and the smallest double |
| FpuValues.DoubleScale | Linux1.0/drivers/FPU-emu/reg_ld_str.c:496-560 | the place and the number of bits lost for every exponent, from the size of a unit |
| FpuValues.DoubleOverflow | Linux1.0/drivers/FPU-emu/reg_ld_str.c:590-600 | a rounded number overflows exactly when it is 2^1024 or more |
| FpuValues.SingleFields | Linux1.0/drivers/FPU-emu/reg_ld_str.c:780-850 | the word of a single as sign, eight bits of exponent and 23 of fraction, and its value |
| FpuValues.SingleOne | Linux1.0/drivers/FPU-emu/reg_ld_str.c:780-850 | the word of one, and the smallest single |
| FpuValues.SingleOverflow | Linux1.0/drivers/FPU-emu/reg_ld_str.c:780-800 | a rounded number overflows exactly when it is 2^128 or more |
| FpuLoad.DoubleOrder | Linux1.0/drivers/FPU-emu/reg_ld_str.c:148-218 | the words of two finite doubles, taken as numbers, are ordered as their values, so that no two words of one sign have one value |
| FpuLoad.DoubleUnique | Linux1.0/drivers/FPU-emu/reg_ld_str.c:148-218 | a finite double is determined bit for bit by its sign and value |
| FpuLoad.LoadDouble | Linux1.0/drivers/FPU-emu/reg_ld_str.c:148-218 | the register has exactly the value of the double, normalised, denormals included; zeros, infinities and NaNs get their tags and a NaN its fraction |
| FpuLoad.DoubleThrough | Linux1.0/drivers/FPU-emu/reg_ld_str.c:148-669 | every double that is loaded and stored comes back bit for bit in every rounding mode with nothing lost, but a signalling NaN comes back quiet |
| FpuLoad.SingleUnique | Linux1.0/drivers/FPU-emu/reg_ld_str.c:226-289 | a finite single is determined bit for bit by its sign and value |
| FpuLoad.LoadSingle | Linux1.0/drivers/FPU-emu/reg_ld_str.c:226-289 | the register has exactly the value of the single, normalised, denormals included; zeros, infinities and NaNs get their tags and a NaN its fraction |
| FpuLoad.SingleThrough | Linux1.0/drivers/FPU-emu/reg_ld_str.c:226-858 | every single that is loaded and stored comes back bit for bit in every rounding mode with nothing lost, but a signalling NaN comes back quiet |
| FpuBcd.ValueUnique | Linux1.0/drivers/FPU-emu/reg_ld_str.c:1079-1086 | decimal digits are determined by the number they write |
| FpuBcd.PutDigits | Linux1.0/drivers/FPU-emu/reg_ld_str.c:1079-1086 | the nine bytes are decimal and write the number, and no other byte changes |
| FpuBcd.StoreBcd | Linux1.0/drivers/FPU-emu/reg_ld_str.c:1029-1096 | the digits of the register's value correctly rounded to an integer, and its sign, for exactly the values that round to eighteen digits; else the indefinite value; no other memory changes |
| FpuBcd.LoadBcd | Linux1.0/drivers/FPU-emu/reg_ld_str.c:392-438 | the register is exactly the number that the bytes write, bytes that are not decimal included, without overflow of 64 bits |
| FpuBcd.BcdThrough | Linux1.0/drivers/FPU-emu/reg_ld_str.c:392-1096 | ten bytes that are loaded and stored keep number and sign where eighteen digits can write it and become the indefinite value where not; decimal bytes with a plain sign byte come back as they were |
| FpuValues.BcdValue | Linux1.0/drivers/FPU-emu/reg_ld_str.c:392-438 | the nine bytes of an eighteen-digit number |
| FpuValues.IndefiniteForm | Linux1.0/drivers/FPU-emu/reg_ld_str.c:1055-1066 | the indefinite decimal value has the form of a negative quiet NaN, and is no number |
| FpuRem.Halves | Linux1.0/drivers/FPU-emu/fpu_trig.c:747-754 | a 64-bit product from its four 32-bit parts |
| FpuRem.RemKernel | Linux1.0/drivers/FPU-emu/fpu_trig.c:739-757 | the limb arithmetic gives the remainder modulo 2^64 |
| FpuRem.ChopTwice | Linux1.0/drivers/FPU-emu/fpu_trig.c:796-802 | chopping the quotient to 64 bits and then to an integer is chopping it once |
| FpuRem.DividesOnce | Linux1.0/drivers/FPU-emu/fpu_trig.c:796-816 | quotient and remainder are determined by what is asked of them |
| FpuRem.Fprem | Linux1.0/drivers/FPU-emu/fpu_trig.c:763-857 | for exponents less than 64 apart, st(0) becomes its remainder by st(1) exactly, with its own sign, and the condition codes hold the last three bits of the quotient |
| FpuState.DenormalBack | Linux1.0/drivers/FPU-emu/reg_ld_str.c:1443-1452 | a number too small for a normal one comes back from its ten bytes exactly when the bits a denormal drops are zero |
| FpuState.RegisterBack | Linux1.0/drivers/FPU-emu/reg_ld_str.c:47-144 | every representable register comes back from its ten bytes |
| FpuValues.ExtendedForm | Linux1.0/drivers/FPU-emu/reg_ld_str.c:47-94 | a normal ten-byte real by sign, exponent from 16383 and significand |
| FpuValues.ExtendedValues | Linux1.0/drivers/FPU-emu/reg_ld_str.c:47-145 | one, the zeros, infinity, the indefinite NaN and unsupported forms as words |
| FpuState.SummedSame | Linux1.0/drivers/FPU-emu/reg_ld_str.c:1214-1217 | a status word in order is not changed by setting its summary bits again |
| FpuWords.ControlBits | Linux1.0/drivers/FPU-emu/reg_ld_str.c:1350-1375 | each bit of the control word in memory |
| FpuWords.ClearedBits | Linux1.0/drivers/FPU-emu/reg_ld_str.c:1206-1211 | each bit of the control word loaded |
| FpuWords.StatusBits | Linux1.0/drivers/FPU-emu/status_w.h:49-50 | each bit of the status word, with the stack top in bits 11 to 13 |
| FpuWords.SummedBits | Linux1.0/drivers/FPU-emu/reg_ld_str.c:1213-1218 | the summary and busy bits set or cleared, each other bit as it was |
| FpuWords.PendingBits | Linux1.0/drivers/FPU-emu/reg_ld_str.c:1215-1215 | an exception is pending exactly when one of the six status bits is set whose mask bit is clear |
| FpuFrame.WriteToExtended | Linux1.0/drivers/FPU-emu/reg_ld_str.c:1405-1463 | the ten bytes written are the register's extended format, a denormal correctly rounded, and nothing else is written |
| FpuFrame.Fpu.TagWordOf | Linux1.0/drivers/FPU-emu/reg_ld_str.c:1286-1313 | the word has two bits for each register in order: valid, zero, special or empty |
| FpuFrame.TagOf | Linux1.0/drivers/FPU-emu/reg_ld_str.c:1219-1225 | the two bits that fldenv takes from the tag word for a register are the ones tag_word put there: 0 valid, 1 zero, 2 special, 3 empty |
| FpuFrame.Fpu.Rounding | Linux1.0/drivers/FPU-emu/control_w.h:34-37 | bits 10 and 11 of the control word choose the rounding mode |
| FpuFrame.Fpu.Fstenv | Linux1.0/drivers/FPU-emu/reg_ld_str.c:1350-1379 | the environment in memory, control and status word bit by bit, the tags by register, and the pointers; afterwards the six mask bits are set, the summary and busy bits clear, and all else is as it was |
| FpuFrame.Fpu.Fsave | Linux1.0/drivers/FPU-emu/reg_ld_str.c:1383-1397 | the image of the whole state, for every state, its words bit by bit, and a unit initialised anew: registers empty and otherwise as they were |
| FpuFrame.Fpu.Fldenv | Linux1.0/drivers/FPU-emu/reg_ld_str.c:1195-1250 | control and status word bit by bit, top, tags and pointers from memory, whatever is there; the summary and busy bits tell whether an exception has happened whose mask bit is clear; a register keeps what it holds |
| FpuFrame.RetagBack | Linux1.0/drivers/FPU-emu/reg_ld_str.c:1219-1247 | a register that was marked empty gets back the tag of what it holds |
| FpuFrame.Fpu.Frstor | Linux1.0/drivers/FPU-emu/reg_ld_str.c:1261-1283 | the words as fldenv loads them, and each stack register is the ten bytes saved for it, or empty; the pointers are those in memory |
| FpuFrame.ImageBack | Linux1.0/drivers/FPU-emu/reg_ld_str.c:1350-1397 | what frstor makes of an image fsave wrote, register by register |
| FpuFrame.SaveRestore | Linux1.0/drivers/FPU-emu/reg_ld_str.c:1261-1397 | fsave and then frstor, on the same unit or another, bring back top, emptiness, every representable register, every bit of the control word but 6, 7 and 13 to 15, the rounding mode, every bit of the status word but the summary and busy bits, which tell of unmasked exceptions, the two offsets, and the selectors but for the bits that fstenv does not keep |
| SerialPorts.JoinKeeps | Linux1.0/drivers/char/serial.c:828-832 | linking a port in at the head keeps every list acyclic, linked both ways and made of the right ports |
| SerialPorts.LeaveKeeps | Linux1.0/drivers/char/serial.c:872-877 | unlinking a port keeps every list acyclic, linked both ways and made of the right ports |
| SerialPorts.Driver.Startup | Linux1.0/drivers/char/serial.c:721-849 | the port comes up at the head of its interrupt's list, or nothing changes; other ports change only in their links |
| SerialPorts.Driver.Shutdown | Linux1.0/drivers/char/serial.c:855-908 | the port is taken out of its list, whose others keep their order; other ports change only in their links |
| SerialPorts.Driver.Configure | Linux1.0/drivers/char/serial.c:1158-1225 | a change of interrupt or address goes through shutdown and startup, with 2 becoming 9; other ports keep their interrupt, their state and their lists |
| SerialPorts.Driver.Run | Linux1.0/drivers/char/serial.c:721-908 | any run keeps each IRQ_ports list acyclic, linked both ways, and made of exactly the initialized ports with that interrupt |
| SerialIrq.RingMore | Linux1.0/drivers/char/serial.c:356-368 | a character put at the head changes no unread one |
| SerialIrq.MarkOf | Linux1.0/drivers/char/serial.c:354-367 | which marker goes before a character for each condition, and that break comes before parity, frame and overrun |
| SerialIrq.ReceiveChars | Linux1.0/drivers/char/serial.c:331-378 | what was unread stays and is followed by exactly the characters and markers that the chip delivers while two places are free, whatever the registers say |
| SerialIrq.ArrivalsPlain | Linux1.0/drivers/char/serial.c:331-378 | with no condition marked every second reading is a character, up to a status that says no more or the last free place; the character read then is lost |
| SerialIrq.CheckModemStatus | Linux1.0/drivers/char/serial.c:419-461 | with hardware flow control the transmitter is stopped exactly while the other end is not clear, and another look at it is asked for exactly when it has just been let go on |
| SerialIrq.Serve | Linux1.0/drivers/char/serial.c:502-518 | if the first reading says that data is ready, exactly the characters that receive_chars accepts from the readings that follow are added to the unread ones, and otherwise none; the modem status is read twice exactly when a stopped transmitter is let go on, and the transmitter is stopped as the last reading says |
| SerialIrq.RsInterrupt | Linux1.0/drivers/char/serial.c:493-536 | the loop ends for every sequence of register values, and its trace tells all it does: port after port of the interrupt's list, served in the first pass when it has a terminal and later when its interrupt register says so, each queue ending as it was with all its turns received added, pass after pass while somebody is served, 66 at most |
| SerialIrq.PlaceOf | Linux1.0/drivers/char/serial.c:493-536 | pass k comes to place q of the list with visit n k + q |
| SerialIrq.FirstPass | Linux1.0/drivers/char/serial.c:496-503 | every port with a terminal is served in the first pass, and whole passes are made |
| SerialIrq.TraceOnce | Linux1.0/drivers/char/serial.c:493-536 | the register values decide all that an interrupt does |
| BlockRead.Plan | Linux1.0/fs/block_dev.c:121-130 | the blocks planned cover the bytes wanted and none lies past the end of the device |
| BlockRead.RingPut | Linux1.0/fs/block_dev.c:147-154 | the ring never overwrites a buffer that has not been delivered |
| BlockRead.EmptyRing | Linux1.0/fs/block_dev.c:197-205 | with less than a full ring, equal pointers mean an empty one |
| BlockRead.Fill | Linux1.0/fs/block_dev.c:142-162 | buffers are asked for in order, until there are no more to ask for, the ring is full, or the first one asked for is ready or not there |
| BlockRead.DeliverBuffer | Linux1.0/fs/block_dev.c:168-194 | one buffer is waited for, delivered and released, or only released when its block cannot be read |
| BlockRead.Drain | Linux1.0/fs/block_dev.c:168-197 | buffers are delivered in order, each released once; unless the last block taken could not be read, all were good, and if it could not, every block before it was |
| BlockRead.ReleaseAll | Linux1.0/fs/block_dev.c:200-205 | every block read ahead and not delivered is released, so none is held afterwards |
| BlockRead.ReadBlocks | Linux1.0/fs/block_dev.c:133-205 | the two stages over and over deliver exactly the bytes before the first block that cannot be read, and leave no buffer acquired |
| BlockRead.Read | Linux1.0/fs/block_dev.c:97-210 | the bytes delivered are the device's from the position on, byte by byte, exactly as many as come before the first block that cannot be read, or as many as are wanted; an error only when that is none; every buffer acquired is released once, whichever buffers are up to date, locked or unreadable |
| BlockRead.UpToBadOnce | Linux1.0/fs/block_dev.c:168-205 | the number of bytes so described is determined |
| BlockRead.ByteAt | Linux1.0/fs/block_dev.c:110-130 | byte i of a reading at a position is the device's byte there, wherever blocks begin |
| IoPort.FirstRange | Linux1.0/kernel/ioport.c:55-64 | a partial first word: exactly the bits of the run change |
| IoPort.SetBitmap | Linux1.0/kernel/ioport.c:47-79 | exactly the bits of the run change, for every bitmap and run |
| IoPort.CheckBitmap | Linux1.0/kernel/ioport.c:81-109 | true exactly when one of the bits of the run is set |
| IoPort.BitNumbers | Linux1.0/kernel/ioport.c:47-79 | bits are numbered from the lowest of the first word on |
| IoPort.Registrar.SnarfRegion | Linux1.0/kernel/ioport.c:158-166 | the bitmap stands for the regions claimed before and this one, clipped to its size |
| IoPort.Registrar.CheckRegion | Linux1.0/kernel/ioport.c:168-175 | true exactly when the region meets one claimed before, both clipped to the bitmap |

## Left out

- HuftMain.Build: the return value 3, memory running out, does not occur: malloc in misc.c halts instead. Freeing tables is left out, since free does nothing there.
- HuftMain.Build: for an incomplete set that does not Fit nothing is said of the tables; inflate goes on with no such set.
- Inflate.InflateAll: promises success only when a byte follows the data, because the original looks ahead and halts at the end of the input. One does: as fill_inbuf reads, the input ends one byte after `input_len`. Distances that reach before the start of the output copy whatever the window held (`w.pre`).
- The gzip header and trailer around the compressed kernel, and PKZIP_BUG_WORKAROUND and CRYPT, which are not defined.
- Malloc.Kernel.Run: page addresses come from outside; that a page handed out is nobody's is what the page allocator promises. `printk`, the statistics of get_free_pages and the priority argument are left out, and a freed argument is 0, an object in use, or outside every bucket page.
- MallocKeeps.WriteKeeps: memory has one word at each address, and a caller writes one at an address inside its object. A store of several bytes at the very end of an object that reaches into the next one is not a write inside it, and has no picture here.
- Malloc.Kernel.Start: work that a call does on a page only it knows is grouped with the section that makes the page known, and kmalloc called with interrupts already off is one of the schedules.
- Console.Vc.ConWrite: has from 1 to 255 lines and an even number of 2 to 160 columns, 160 being what the tab stops have bits for. Translation tables are arbitrary. The cursor and origin registers of the adapter, blanking, sound, selection, keyboard lights, switching consoles and what happens to a reply when the input queue is full are left out.
- Console.Vc.ConWrite: the parser is the function `Escape.Next` in the method as in the terminal; what is refined there is everything done to screen, cursor, modes and memory. What each sequence comes to is said by the laws from typed bytes, for one and two parameters; more act one after the other.
- FpuRem.Fprem: chops only and has exponents less than 64 apart; fprem1's nearest quotient and the partial remainder for larger differences are left out, because their shifts have no clean exactness statement.
- FpuStore.StoreDouble: has all exceptions masked. Flags are results: which way precision was lost and whether underflow is flagged. Overflow stores infinity in every mode, as the original does.
- FpuSingle.StoreSingle: has all exceptions masked.
- FpuBcd.StoreBcd: has the invalid operation masked, and infinities and NaNs with the exponent that the emulator gives them.
- FpuLoad.LoadDouble: says whether a denormal operand is flagged, but not what an unmasked exception does.
- FpuFrame.SaveRestore: covers registers that the ten-byte format can hold; `FpuState.DenormalBack` says exactly which of the smallest ones those are. A register that is empty comes back empty, its contents unspecified. The 16-bit format is left out.
- Loads and stores of integers: they are `round_to_int` and a range check each, and would add only easy members.
- Checks of user memory, re-entrancy checks and PARANOID branches of the emulator, and its transcendental functions.
- SerialPorts.Driver.Startup: hardware set-up, speed, timers and IRQ_timeout are left out; whether the interrupt is granted is a parameter.
- SerialPorts.Driver.Configure: is the superuser's call; the checks of lines 1166 to 1188 are one parameter.
- SerialIrq.RsInterrupt: transmit_chars, carrier-detect events, throttling and the flags beside the queue are left out; register values are any sequence.
- BlockRead.Read: the device has whole blocks, and a block for which getblk gives no buffer reads as zeros. Which blocks can be read, and which buffers are up to date or locked when they are looked at, is arbitrary. Writing, and the merging of requests in ll_rw_block, are left out.
- IoPort.Registrar.CheckRegion: arguments do not wrap around 32 bits. The system calls sys_ioperm and sys_iopl are left out.
- Kernel parts other than these five.
