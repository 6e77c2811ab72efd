# The DEFLATE codec of zlib 1.2.3 and four smaller cores, verified

This project models the compressor and the decompressor under
`coline/smartlib/Crypto/zlib` for raw DEFLATE streams (RFC 1951) and proves that
what the one has written the other gives back, whatever the calls on either side, unless
the output of a block has run into the memory that still holds its tokens. The compressor
keeps both in one allocation (`deflate.c:293-305`), and nothing in the release code guards
against that; the project shows where it happens, that what is then read is wrong, and under
which settings it cannot happen.
It follows the C files' own form: arrays that are changed in place, classes for
`deflate_state`, `inflate_state`, the tree descriptors and the bit buffer, and the
same loops, branches and constants. Beside it stand the checksums of zlib, the
Huffman decoder of `stb_image.c`, the DES code and the two buffers of UDT.

How the proofs are built up, file by file:

- **Huffman trees** (`trees.c`). `Heap`, `HuffmanMerge`, `HuffmanOrder`, `HuffmanDepths`,
  `HuffmanLengths`, `HuffmanBuild` and `BuildTree` model `pqdownheap`, `build_tree`,
  `gen_bitlen` and `gen_codes` in place. `OptimalLengths` is an independent lower bound
  over all prefix codes, and the cheapest way to deal out given lengths; `Canonical` and `BitOrder` hold the canonical code of RFC 1951
  section 3.2.2.
- **Writing blocks** (`trees.c`). `BitWriter` is the bit buffer with the pending bytes,
  `Overlay` the memory that these share with the tokens, `RunLengths` the run-length code of
  code lengths, `TokenCodes` and `StaticTrees` the constant tables, `Senders` the loops that
  write, `BlockPieces`, `TreeCodes` and `BlockTrees` what they write and how many bits that
  takes, `Costs` bounds on that, and `Trees` the class `Encoder` with `_tr_tally`,
  `build_bl_tree`, `_tr_flush_block`, `_tr_stored_block` and `_tr_align`. `Overtaken` is a
  block whose output reaches its own tokens.
- **Matching** (`deflate.c`). `RunningHash` and `HashChains` are the dictionary, `Lz77` what
  tokens stand for, `Deflate` the class `Compressor` with `fill_window`, `longest_match`,
  `deflate_stored`, `deflate_fast`, `deflate_slow` and `deflate` itself. `Restarts` is about the
  blocks after a full flush, which do not refer to anything before it.
- **Decoding** (`inftrees.c`, `inflate.c`, `inffast.c`). `InflateSpec` is a decoder for RFC 1951
  that reads bits off a number and knows codes only as canonical codes; `InflateRuns`,
  `InflateSound` and `FixedCodes` are about its runs. `FormatTables` says what the constant tables
  are in the words of the RFC, and `KnownStream` and `KnownBlocks` are three streams byte for
  byte. `DecodeTable`, `TableFill`, `SubTables`,
  `SymbolSort` and `InflateTable` build the lookup tables, `Window` is the circular window,
  and `BitReservoir`, `TableLookup`, `FastSteps` and `Inflate` relate the resumable machine
  and its fast path to the decoder step by step. `FastSlow` compares the two paths.
- **Together**. `ReadBack`, `HeaderBack` and `Blocks` show that the decoder reads back what the
  senders wrote, and `EndToEnd` composes compressor and decompressor.
- **Checksums** (`crc32.c`, `adler32.c`). `Crc` takes CRC-32 as shifting and adding one bit at a
  time and proves the tables, the word loop and the combination of two checksums against that;
  `Adler` does the same for the deferred reductions of Adler-32. `Bitwise` is exclusive or.
- **The other decoder** (`stb_image.c`). `BitSwaps` proves the bit reversal by masks, `Zhuffman`
  the nine-bit table and the comparison with the last code of each length.
- **DES** (`des.c`). `Des` is the block function, any S-boxes, and its key schedule; `DesCbc` the
  contexts of DES, triple DES and DESX that are chained from call to call, and `CbcBytes` what
  chaining and whitening mean for the bytes. `DesStandard` compares the permutations and key
  tables with FIPS 46-3.
- **UDT's buffers** (`buffer.cpp`). `SndBuffer` is the circular list that grows by splicing,
  `MessageBounds` the messages that its boundary bits give back, `RcvBuffer` the ring of units.

## Model

| member | source | states |
|---|---|---|
| EndToEnd.RoundTrip | coline/smartlib/Crypto/zlib/deflate.c:552-825 | Lossless, end to end, for every stream none of whose blocks has put out bytes over its own unread tokens: whatever calls of `deflate` have finished it and delivered it, and whatever calls of `inflate` have come to the end of its bytes (or of those and anything after them), the decompressor is in DONE and has put out exactly the data. The hypothesis holds, and can be checked before the call, at level 0, with Z_FIXED and windowBits of at most 9, with Z_HUFFMAN_ONLY and memLevel of at least 4, and whenever the data are at most (8 * lit_bufsize - 17) / 9 bytes |
| EndToEnd.FlushedData | coline/smartlib/Crypto/zlib/deflate.c:751-767 | After a sync or full flush that left room, a decompressor given the bytes delivered so far has put out all the input so far and waits for the next block, unless the stream is spoiled by a block over its own tokens |
| EndToEnd.RestartedData | coline/smartlib/Crypto/zlib/deflate.c:812-820 | Decompression can start again from a full flush: whatever calls came before and after it, a new decompressor that is given only the bytes after the last full flush of a finished stream puts out exactly the data after it, unless the stream is spoiled |
| EndToEnd.RestartedFlush | coline/smartlib/Crypto/zlib/deflate.c:812-820 | So it can before the stream is finished, after any flush to a byte boundary |
| EndToEnd.PartOfData | coline/smartlib/Crypto/zlib/inflate.c:554-1153 | A decompressor given only part of a finished stream that is not spoiled, or too little room, has put out a prefix of the data, never anything else |
| EndToEnd.Compress2 | coline/smartlib/Crypto/zlib/compress.c:22-59 | When it succeeds, its result fits the destination and is a complete stream for the source unless a block has put out bytes over its own tokens, which none does at level 0 or when the source has at most 14561 bytes; it refuses exactly the levels outside -1..9; and it never runs out of room when the destination is as large as the conservative bound of `deflateBound` |
| EndToEnd.SpoiledBy | coline/smartlib/Crypto/zlib/deflate.c:293-305 | What every call keeps, the work lying in `FlushBlock` and `Emit`: a stream is spoiled if and only if for some block written there is a token before which more than lit_bufsize + 2k bytes were pending, k being the number of the token |
| EndToEnd.WithinBound | coline/smartlib/Crypto/zlib/deflate.c:489-511 | What every call keeps, the work lying in what each form of block costs (`Trees.ByteCost`) and in which blocks are flushed before they are full: for any level, window, memory level and strategy, the output for n bytes whose blocks were flushed only when full or at the end, and the six bytes of a zlib header and trailer, come to at most n + (n+7)/8 + (n+63)/64 + 11, the stream not being spoiled |
| EndToEnd.StreamDecodes | coline/smartlib/Crypto/zlib/uncompr.c:26-61 | A complete stream with anything after it is one from which `uncompress` gets the data: with `Compress2` and `Uncompress` this makes the pair lossless |
| EndToEnd.Uncompress | coline/smartlib/Crypto/zlib/uncompr.c:26-61 | It returns data if and only if the source begins with a stream for exactly those data and they fit the room |
| Deflate.Compressor.Deflate | coline/smartlib/Crypto/zlib/deflate.c:552-825 | `deflate` for a raw stream: no input is lost or repeated, output is only ever appended and never exceeds the room, Z_STREAM_END means that all input has been compressed and all output delivered, a sync or full flush that leaves room has everything on a byte boundary, after a full flush no block refers to anything before it, which the state keeps together with the place in data, blocks and bytes, and Z_FINISH returns Z_OK only when all the room is used; unless the stream is spoiled, that output is a list of valid blocks that stand for exactly the input |
| Deflate.Compressor.DeflateFast | coline/smartlib/Crypto/zlib/deflate.c:1448-1546 | Greedy matching keeps the invariant that the flushed blocks and the tokens of the current one stand for exactly the bytes before strstart, every match being true and within MAX_DIST |
| Deflate.Compressor.DeflateSlow | coline/smartlib/Crypto/zlib/deflate.c:1554-1674 | Lazy matching keeps the same invariant less the one deferred byte while match_available, and the pending match is true of the data |
| Deflate.Compressor.DeflateStored | coline/smartlib/Crypto/zlib/deflate.c:1390-1439 | Level 0: the data go out in stored blocks of at most 0xffff bytes that never leave the window before they are flushed |
| Deflate.Compressor.LongestMatch | coline/smartlib/Crypto/zlib/deflate.c:1027-1168 | The longest match: the result is at least prev_length or lookahead, whichever is less, and unless it is at least nice_match or lookahead, no string that the prev links lead to from cur_match on while they lie above the limit, max_chain_length of them or a quarter of that when prev_length is at least good_match, agrees with the one at strstart on more bytes, up to 258 and lookahead. When it is longer than prev_length, match_start names a place in the window whose bytes equal those at strstart, no further than MAX_DIST and not before the last full flush, although the third byte is never compared |
| Deflate.Compressor.TokenFast | coline/smartlib/Crypto/zlib/deflate.c:1469-1540 | The string at strstart is entered as the head of its chain and compared with the string that was the head before, and the token is the match found if it has three bytes, by the rules of `longest_match` for the strategy, and else the byte; strstart moves past just that |
| Deflate.Compressor.PassSlow | coline/smartlib/Crypto/zlib/deflate.c:1576-1662 | Lazy evaluation: with the length found for the current string, short matches being dropped as the source does, the match found for the byte before becomes a token if and only if it has three bytes and the current one is no longer; otherwise that byte is told, if it was held back, and the current one is held back with its match |
| Deflate.Compressor.FillWindow | coline/smartlib/Crypto/zlib/deflate.c:1266-1347 | The window holds the end of the data, all positions slide together, and on return strstart is at most window_size - MIN_LOOKAHEAD and either there is lookahead enough or no input |
| HashChains.ChainedSlides | coline/smartlib/Crypto/zlib/deflate.c:1290-1325 | Sliding preserves the index: every surviving head and prev link names the same string, w_size lower, and nothing else stays |
| RunningHash.ThirdByteTells | coline/smartlib/Crypto/zlib/deflate.c:1119-1133 | Strings with equal first two bytes and equal hash keys have equal third bytes, which is why `longest_match` may skip that comparison |
| Trees.Encoder.FlushBlock | coline/smartlib/Crypto/zlib/trees.c:921-1016 | The bits written are a valid block that says the tokens or the stored bytes, unless its output reaches its tokens, which is recorded if and only if it does; the block is chosen by the sizes in bytes; a static block takes exactly 3 + static_len bits and a dynamic one exactly 3 + opt_len |
| Trees.NeverOvertakes | coline/smartlib/Crypto/zlib/trees.c:1083-1112 | A block never reaches its tokens, whichever form is chosen for it, if it stands for few bytes, if only static trees are allowed and no distance is above 256, or if it has only literals and lit_bufsize is at least 1024 |
| Trees.Encoder.RoomLeft | coline/smartlib/Crypto/zlib/deflate.c:293-297 | What one block leaves pending, all its tokens read as tallied, fits the 4 * lit_bufsize bytes of the allocation |
| Trees.Encoder.BuildBlTree | coline/smartlib/Crypto/zlib/trees.c:803-831 | The code length tree has a code for every symbol that the run-length coded lengths use, the trees describe themselves completely, no zero length is sent last, and opt_len grows by exactly what their representation takes |
| Trees.Encoder.Align | coline/smartlib/Crypto/zlib/trees.c:892-915 | One empty static block, and a second one if and only if the end of block code before it, the ten bits and those not yet put out leave a decoder fewer than nine bits to look at; the output is not added to |
| BuildTree.TreeState.Build | coline/smartlib/Crypto/zlib/trees.c:619-701 | `build_tree`: a prefix code for all symbols in use, forced ones included, none longer than the limit and more frequent symbols never with the greater length, with canonical bit-reversed codes; opt_len and static_len grow by exactly the bits that the original frequencies take; optimal whenever no leaf had to be shortened |
| BuildTree.NoPrefixCodeIsShorter | coline/smartlib/Crypto/zlib/trees.c:619-701 | When the first pass reports no overflow, which it never does if the frequencies sum to less than a Fibonacci number, no prefix code whatever for the symbols in use has a smaller sum of frequency times length |
| BuildTree.NoDealCostsLess | coline/smartlib/Crypto/zlib/trees.c:549-566 | Overflow or not, no other way to give the leaves the same lengths has a smaller sum of frequency times length |
| HuffmanLengths.HeavierIsHigher | coline/smartlib/Crypto/zlib/trees.c:659-690 | In the merged tree a heavier node never lies deeper than a lighter one |
| HuffmanMerge.MergeAll | coline/smartlib/Crypto/zlib/trees.c:659-690 | The heap loop joins the two lightest nodes each time until one is left, which is what makes the tree optimal |
| HuffmanLengths.Repair | coline/smartlib/Crypto/zlib/trees.c:535-547 | The overflow loop ends with the same number of leaves, none above the limit, and the Kraft sum exactly one |
| HuffmanLengths.GenBitlen | coline/smartlib/Crypto/zlib/trees.c:490-567 | The lengths assigned are those of a complete code within the limit, a leaf of higher frequency never having the greater length, whether or not the repair had to run; bl_count counts the leaves of each length, the bit totals are exactly those of the lengths assigned even after the repair has changed them, and overflow is the number of tree nodes that had to be cut |
| HuffmanBuild.GenCodes | coline/smartlib/Crypto/zlib/trees.c:577-608 | Every symbol gets its canonical code, bit-reversed |
| RunLengths.RunsRoundTrip | coline/smartlib/Crypto/zlib/trees.c:752-797 | The code lengths of any tree, run-length coded as `send_tree` does and expanded as the CODELENS state does, come back, and every repeat count fits its field |
| RunLengths.ScanTree | coline/smartlib/Crypto/zlib/trees.c:707-746 | `scan_tree` counts exactly the symbols that `send_tree` will send |
| Senders.SendTree | coline/smartlib/Crypto/zlib/trees.c:752-797 | The lengths of a tree go out as the symbols and extra bits of their runs |
| Senders.CompressBlock | coline/smartlib/Crypto/zlib/trees.c:1072-1119 | Reading each token from the memory that it writes into, it sends all of them and the end of block code if and only if before each token k at most lit_bufsize + 2k bytes are pending; otherwise it stops, having sent just the tokens before the first one that was reached |
| Overtaken.FarOvertakes | coline/smartlib/Crypto/zlib/trees.c:1083-1112 | With the default memory, a static block of 16383 matches of 258 bytes from 20000 back does reach its tokens |
| Overtaken.WrongDistance | coline/smartlib/Crypto/zlib/trees.c:1083-1088 | Before the 13110th of these is read, 42604 bytes are pending and the upper byte of its distance in memory is 31 where it was 78, so that another match is read |
| TokenCodes.DistCodes | coline/smartlib/Crypto/zlib/trees.c:274-289 | The distance tables of `tr_static_init` name for each distance the code whose base and extra bits can express it |
| BitWriter.Writer.SendBits | coline/smartlib/Crypto/zlib/trees.c:192-212 | The bytes put out and the bits still buffered are, as one number, the pieces sent, least significant bit first |
| Blocks.ReadClosed | coline/smartlib/Crypto/zlib/inflate.c:587-1125 | A decoder of RFC 1951 reads any list of valid blocks written one after the other, the last one marked, to its end, and has the output that the blocks stand for |
| InflateTable.InflateTable | coline/smartlib/Crypto/zlib/inftrees.c:32-329 | It accepts exactly the complete length sets (and a lone one-bit code where allowed), never runs out of the table space it is given, and the table finds for every bit string the symbol whose bit-reversed canonical code the string starts with, or the invalid marker when there is none |
| Inflate.InflateState.Inflate | coline/smartlib/Crypto/zlib/inflate.c:554-1153 | After any call the machine stands for the RFC 1951 decoder run on the input used so far, its output is the decoder's output, and it stops only at the end, on bad data, when the decoder has no further step on the input given, or when the next byte finds no room |
| FormatTables.PlacesDecoded | coline/smartlib/Crypto/zlib/inflate.c:855-862 | Of the code length code lengths read, the first three are those of 16 to 18, the next that of 0 and then that of 8, and for k from 1 to 7 the two after these are in turn those of 8 - k and 8 + k; what is not sent is zero |
| FormatTables.PlacesSent | coline/smartlib/Crypto/zlib/trees.c:838-855 | They are sent in that order |
| FormatTables.LengthTable | coline/smartlib/Crypto/zlib/inftrees.c:59-65 | Extra bits and bases of the length codes by formula: none up to code 264 and for 285, otherwise one more for every four codes |
| FormatTables.DistanceTable | coline/smartlib/Crypto/zlib/inftrees.c:66-73 | The same of the distance codes, one more bit for every two codes |
| FormatTables.FixedCode | coline/smartlib/Crypto/zlib/inflate.c:216-224 | The canonical codes of the fixed lengths are the four ranges of RFC 1951 section 3.2.6 |
| KnownStream.KnownOutput | coline/smartlib/Crypto/zlib/inflate.c:837-960 | A dynamic block of 25 bytes in which code lengths 7 and 8 have codes of different lengths is decoded to its nineteen bytes |
| KnownBlocks.KnownFixed | coline/smartlib/Crypto/zlib/inflate.c:787-800 | A block with the fixed codes, literals of eight and nine bits and an overlapping match is decoded to its twelve bytes |
| KnownBlocks.KnownStored | coline/smartlib/Crypto/zlib/inflate.c:807-835 | A stored block is decoded to its byte |
| Inflate.InflateState.InflateFast | coline/smartlib/Crypto/zlib/inffast.c:67-285 | The fast path, with its unchecked reads, window wrap and overlapping copies, moves the same decoder forward, stays within input and room, and gives back unused bytes |
| FastSlow.FastSlowAgree | coline/smartlib/Crypto/zlib/inffast.c:26-66 | Two machines at the same bit of the same data, whichever came there by the fast path and whichever by the slow, have put out the same bytes and are in the same mode |
| Inflate.ChunkIndependence | coline/smartlib/Crypto/zlib/inflate.c:470-552 | Output and final mode depend only on the concatenated input, not on how input and output room were cut into calls |
| Inflate.PartialOutput | coline/smartlib/Crypto/zlib/inflate.c:470-552 | With less input, or less room, the output is a prefix |
| Window.SlidingWindow.Update | coline/smartlib/Crypto/zlib/inflate.c:323-371 | The circular window holds the last min(total output, wsize) bytes put out, ending at the write position |
| Crc.CrcTables.Crc32Little | coline/smartlib/Crypto/zlib/crc32.c:262-293 | With the tables that `make_crc_table` fills, the word-at-a-time loop gives for every buffer and alignment the CRC-32 defined one bit at a time (RFC 1952 section 8), and goes on from the checksum of what came before |
| Crc.Residue | coline/smartlib/Crypto/zlib/crc32.c:219-253 | For every string, the checksum of the string with its own checksum after it, lowest byte first, is 0x2144df1c, which fixes polynomial, direction and conditioning |
| Crc.MakePoly | coline/smartlib/Crypto/zlib/crc32.c:113-128 | The exclusive-or pattern made from the exponents of the polynomial is the constant used elsewhere |
| Crc.Crc32Combine | coline/smartlib/Crypto/zlib/crc32.c:370-423 | The checksum of two strings one after the other, from their two checksums and the second's length, by squaring operators |
| Crc.Combined | coline/smartlib/Crypto/zlib/crc32.c:370-423 | The law behind it: the checksum of a joined string is that of the first run through as many zero bits as the second has, added to that of the second |
| Crc.Gf2MatrixSquare | coline/smartlib/Crypto/zlib/crc32.c:359-367 | From the operator that appends n zero bits, the one that appends twice as many |
| Adler.Adler32 | coline/smartlib/Crypto/zlib/adler32.c:57-125 | For every buffer and every starting value the sums of RFC 1950 section 8.2 modulo 65521, exact for reduced starting values and reduced for halves of up to 65521, all intermediate values staying within 32 bits |
| Adler.Adler32Combine | coline/smartlib/Crypto/zlib/adler32.c:128-149 | For any two values with halves of at most 65521 and any length, each half of the result is in 1..65521 and congruent to its sum, all within 32 bits |
| Adler.CombineExact | coline/smartlib/Crypto/zlib/adler32.c:128-149 | The combination of any two values that stand for two strings, checksums or themselves combined, stands for the joined string: its halves, of at most 65521, are congruent to those of the checksum; it is the checksum if and only if neither sum comes to a multiple of 65521, where the half is 65521 instead of 0 |
| Adler.Continued | coline/smartlib/Crypto/zlib/adler32.c:57-125 | Running on over more data from any such value, combined or not, gives the checksum itself |
| Adler.CombineFails | coline/smartlib/Crypto/zlib/adler32.c:144-148 | Two strings for which it is not |
| BitSwaps.BitReverse16 | coline/smartlib/Smart/CommonLib/stb_image.c:2003-2010 | Four rounds of masks and shifts reverse the order of sixteen bits |
| Zhuffman.ZHuffman.ZBuildHuffman | coline/smartlib/Smart/CommonLib/stb_image.c:2020-2062 | It accepts exactly the length lists that are not oversubscribed, complete or not, and the tables it builds describe their canonical code |
| Zhuffman.ZHuffmanDecode | coline/smartlib/Smart/CommonLib/stb_image.c:2110-2135 | By table or by comparison, it returns the one symbol whose bit-reversed canonical code starts the bits ahead and takes just that code off; -1 if and only if no code starts them |
| Zhuffman.ZBuf.ZReceive | coline/smartlib/Smart/CommonLib/stb_image.c:2100-2108 | The next n bits of what is left of the stream, which loses just these |
| Des.CryptUndone | coline/smartlib/Crypto/Crypto/des.c:609-677 | With the pairs of subkeys in the opposite order, the sixteen rounds between their two permutations undo themselves, whatever the S-boxes |
| Des.DesFunc | coline/smartlib/Crypto/Crypto/des.c:609-677 | `desfunc` in place is that block function |
| Des.SchedulesOpposite | coline/smartlib/Crypto/Crypto/des.c:570-591 | `cookey` for deciphering gives the pairs for enciphering in the opposite order |
| Des.DesKey | coline/smartlib/Crypto/Crypto/des.c:527-568 | The permuted, rotated and gathered bits of the key, in the order for either direction |
| Des.ParityIgnored | coline/smartlib/Crypto/Crypto/des.c:532-536 | Keys that differ in their parity bits only have the same subkeys |
| DesStandard.InitialIs | coline/smartlib/Crypto/Crypto/des.c:609-635 | The exchanges of masked bits before the rounds are the initial permutation: the bits at even places of the eight bytes, last byte first, make the left half and those at odd places the right one, both turned left by one |
| DesStandard.MangledIs | coline/smartlib/Crypto/Crypto/des.c:595-607 | Box i is given the six bits around its four bits of the half that the standard selects, added to six bits of the subkey |
| DesStandard.CookedIs | coline/smartlib/Crypto/Crypto/des.c:570-591 | These are bits 6i+1 to 6i+6 of the 48 that the round has |
| DesStandard.FirstChoice | coline/smartlib/Crypto/Crypto/des.c:21-26 | The first table of the key is permuted choice 1, column by column |
| DesStandard.Shifts | coline/smartlib/Crypto/Crypto/des.c:17-19 | Both halves of the key turn by two places in each round, and by one in rounds 1, 2, 9 and 16 |
| DesStandard.SecondChoice | coline/smartlib/Crypto/Crypto/des.c:28-33 | The second one is permuted choice 2 |
| DesCbc.CbcContext.Update | coline/smartlib/Crypto/Crypto/des.c:328-367 | For DES, triple DES and DESX: whole blocks are converted in CBC mode, as the rows of `CbcBytes` say block by block, in place if output and input are one, and the chain goes on from call to call; other lengths are refused and nothing is changed |
| CbcBytes.EncryptedAt | coline/smartlib/Crypto/Crypto/des.c:335-360 | Block i of the ciphertext is the block cipher of block i of the message exclusive or, byte by byte, block i - 1 of the ciphertext, or the initial vector for the first; for DESX the block cipher has the two whiteners added the same way |
| CbcBytes.DecryptedAt | coline/smartlib/Crypto/Crypto/des.c:335-360 | Block i of the text is the inverse of block i received exclusive or the block received before it |
| CbcBytes.VectorsTold | coline/smartlib/Crypto/Crypto/des.c:337-360 | Under one key, a message that is not empty has the same ciphertext for two initial vectors only if they are equal |
| CbcBytes.EqualBlocks | coline/smartlib/Crypto/Crypto/des.c:337-360 | Equal blocks of a message are sent as equal blocks if and only if they are chained to equal blocks |
| CbcBytes.BitsFlip | coline/smartlib/Crypto/Crypto/des.c:337-360 | Flipping bits of one ciphertext block flips the same bits of the next text block and leaves all other blocks but its own as they were |
| DesCbc.RoundTrip | coline/smartlib/Crypto/Crypto/des.c:328-367 | For every key, initial vector and message of whole blocks, deciphering gives the message back |
| DesCbc.RoundTripBack | coline/smartlib/Crypto/Crypto/des.c:328-367 | Enciphering gives back every message of whole blocks that was deciphered first |
| DesCbc.AnyCalls | coline/smartlib/Crypto/Crypto/des.c:328-367 | The same however the message is cut into calls on one side and the result on the other |
| SndBuffer.SendBuffer.AddBuffer | coline/smartlib/Smart/SocketPlus/buffer.cpp:119-161 | A message of any length goes to the end of the queue as fragments with their numbers and boundary bits, and the list grows first if they do not fit; what was queued stays |
| SndBuffer.SendBuffer.Increase | coline/smartlib/Smart/SocketPlus/buffer.cpp:266-323 | Splicing new blocks into the circle leaves the queue, the place read up to and the place to write to as they were |
| SndBuffer.SendBuffer.AckData | coline/smartlib/Smart/SocketPlus/buffer.cpp:249-259 | Just the acknowledged fragments leave the front of the queue |
| SndBuffer.SendBuffer.ReadData | coline/smartlib/Smart/SocketPlus/buffer.cpp:203-216 | The next fragment that was not sent yet, and none if all were; the queue stays |
| SndBuffer.SendBuffer.ReadAgain | coline/smartlib/Smart/SocketPlus/buffer.cpp:218-247 | A fragment within its time is given again; for one that has outlived it the scan counts at least the queued fragments of its message from there on, and just these if and only if another message is queued behind them or the block after the queue bears another number; it goes round for ever if and only if all blocks bear that number |
| SndBuffer.SendBuffer.DistanceIsCount | coline/smartlib/Smart/SocketPlus/buffer.cpp:125-127 | Following links from the first block leads to the last one after as many steps as there are fragments and not before, and there is always a free block |
| SndBuffer.PiecesWhole | coline/smartlib/Smart/SocketPlus/buffer.cpp:121-141 | The fragments of a message together are the message; none is empty and all but the last are full |
| SndBuffer.MsgNoFields | coline/smartlib/Smart/SocketPlus/buffer.cpp:130-160 | Message number, order flag and boundary bits can be told apart if and only if the counter, which nothing wraps around, is below 2^29 |
| MessageBounds.MessagesBack | coline/smartlib/Smart/SocketPlus/buffer.cpp:119-161 | Cutting the queue from each first bit to the next last bit gives back the messages that were added, in their order, as long as their numbers leave these two bits free |
| MessageBounds.OneMessageBack | coline/smartlib/Smart/SocketPlus/buffer.cpp:130-160 | One message is cut as it was added if and only if it is a single fragment or its number is below 2^30 |
| RcvBuffer.ReceiveBuffer.ReadBuffer | coline/smartlib/Smart/SocketPlus/buffer.cpp:384-419 | As many bytes as there are and fit, in order, continuing within a unit where the last call stopped; finished units are released and counted off, and units beyond the acknowledged place stay at their places |
| RcvBuffer.ReceiveBuffer.ReadsArePrefix | coline/smartlib/Smart/SocketPlus/buffer.cpp:384-419 | What the two operations together keep: that `readBuffer` delivers and `ackData` appends in order, so that in every state calls can lead to the bytes read are a prefix of those acknowledged; the work lies in those two, which preserve it |
| RcvBuffer.ReceiveBuffer.AckData | coline/smartlib/Smart/SocketPlus/buffer.cpp:457-463 | The payloads in the acknowledged places join the end of the stream, in order |
| RcvBuffer.ReceiveBuffer.AddData | coline/smartlib/Smart/SocketPlus/buffer.cpp:367-382 | A unit is stored at its offset and counted unless the place is taken, where -1 is returned and nothing is stored |

## Left out

- Headers and trailers of zlib and gzip streams (`wrap` other than 0), and with them the use of Adler-32 and CRC-32 on a stream.
- Preset dictionaries, `inflateSync`, `inflateBack`, `deflateCopy`, `deflateReset` and `deflatePending`; Z_BLOCK.
- File I/O, allocation callbacks and allocation failure, version and error strings, `set_data_type`, debug assertions as code.
- Deflate.Compressor.Deflate: `deflateParams`, which may switch between the three compression functions in the middle of a stream, and `deflateTune` are not modelled; the searches take at least four links, as the source's comment on its configuration table demands.
- Senders.CompressBlock: where the pending bytes have reached the next token, the source reads on, and what it then puts out is not modelled: the model stops there and the stream counts as spoiled. The debug assertion in `trees.c:1111` asks for a little more than the exact condition. The shared memory is one sequence of bytes, distances in it are little-endian.
- Trees.Encoder.FlushBlock: trees and tables are passed to the senders as the values of the arrays at that time.
- EndToEnd.RestartedData: the place is that of the last full flush; for an earlier one the same holds of the state at that time.
- HuffmanLengths.GenBitlen: when leaves had to be shortened the lengths are the cheapest for their counts, not the cheapest within the limit; the source does not look for these.
- `prev[]` is taken to start out as zeros; the source leaves it uninitialised and never uses an entry it has not written.
- RunningHash.ThirdByteTells: hash keys are numbers, and exclusive or is defined bit by bit on them.
- Inflate.ChunkIndependence: TYPE and TYPEDO, and the HEAD mode before the first call, count as one mode, since they differ only in whether the state was entered.
- Inflate.InflateState.InflateFast: the comment in `inffast.c` asks for fewer than eight buffered bits on entry; a call resumed in the midst of a code does not always meet that, and the fast path is proved without it.
- InflateTable.InflateTable: a code length code without any symbols is accepted, as the source accepts it; a block with such a code then fails later.
- BuildTree.TreeState.Build: the source's comment says that a forced code is for symbol 0 or 1; when only symbol 1 is in use, forced symbols can go up to 2, and the model follows the code.
- EndToEnd.Compress2: the bound proved is the conservative one of `deflateBound`. The tight one, `compressBound`, is not a bound for every length: incompressible data go into stored blocks of 16383 bytes with five bytes of overhead each, where it allows five in 16384, so that some hundred million bytes exhaust its margin of eleven.
- Crc.CrcTables.Crc32Little: there are no big-endian tables; the eightfold unrolled loop is the one-word loop.
- Zhuffman.ZHuffman.ZBuildHuffman: the configuration modelled is a release build; where `assert` is compiled in, `sizes[i] <= (1 << i)` aborts on a length with more codes than its bits can tell apart, where the release build returns 0 from the later test.
- Adler.Adler32: bytes are summed one at a time where the source unrolls sixteen; a null buffer is `None`.
- The rest of `stb_image.c`, and the block loops of its inflate decoder.
- Des.DesFunc: S-boxes, with the permutation after them, are arbitrary functions of six bits, so nothing is said about the strength or the test vectors of DES; the SHB_TIMING and DES386 variants and the erasure of work variables are not modelled.
- DesCbc.CbcContext.Update: the three context types are one class, since their loops differ only in what one block goes through.
- SndBuffer.SendBuffer.ReadAgain: where the scan never ends, the method stops when it has come round; the number in a block that nothing has filled yet is arbitrary.
- SndBuffer.SendBuffer.AddBuffer: each block owns its bytes, where the source points into one of several arrays; failing allocation, locks and the file variants are not modelled.
- RcvBuffer.ReceiveBuffer.AddData: the offset is one that the caller checked against the free space, and the unit is free; message mode (`readMsg`, `dropMsg`), the file variant and the first constructor, which leaves the slots uninitialised, are not modelled.
