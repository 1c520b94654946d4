# DEFLATE, AES-256, hashes and checksums: a verified model

The project models the algorithmic core of the C code in `miniz.c` (DEFLATE compression and decompression, checksums,
and the name index of the ZIP reader), `aes.c`, `sha1.c`, `md5.c` and `sha256.c`, in the configuration that is
compiled: no unaligned loads (miniz.h:221-229), a 64-bit bit buffer in the decoder, the 64 KB token buffer, AES-256.
Code that works in place is modelled by classes, arrays and loops. Each such method is proved against a definition of
the format, and the theorems relate those definitions.

## The theorems

* **There and back.** Whatever the input, the compression settings, the cuts of the input into calls and the flushes
  between them, the bytes delivered when the compressor says "done" decode to exactly that input, the decoder takes
  exactly those bytes even if others follow, and the checksum it reads is the input's (`RoundTrip`). The compressor's
  side is the loop invariant of `Compressor`: the recorded tokens always expand to the input parsed so far, the
  ring and its mirror hold the window, and stale hash entries never give a wrong match. Compression fails only if the
  receiver refuses bytes. After a flush a decoder that has been given just the bytes delivered puts out all of the
  input so far, and asks for more only then. What comes after a full flush decodes without what was before.
* **The parse.** The hash chains link each place to the one before it whose three bytes have the same hash
  (`HashChains`). The search gives the first of the longest matches on the chain, as far as the probes go
  (`MatchSearch`), so no match at the nearest places, one for each probe but the last, is longer than what it gives.
  What is recorded, what waits for the next place and how far the parser moves is exactly what the lazy rule says
  (`LazyParsing`), and blocks end exactly when the token buffer is full or the data does not compress.
* **Any bytes at all.** `TableDecoding.StreamReading` says what the decoder's tables make of every sequence of bytes:
  an end, too few bytes, a refusal. `Inflater.Decompress`, suspended and resumed at any byte of input or output, arrives
  exactly there: "done" means that there is an end and that all of its output is out. `TableDecoding.CleanStream` says
  when this is RFC 1951: the two differ exactly for the streams that are read to an end although they use length symbol
  286 or 287, or bits that are no code word of a code of at most one symbol. `TableExamples` has a stream of each kind.
  A stream that is cut short is found too short, at any cut (`CutStreams`).
* **Codes.** Radix sort, in-place minimum-redundancy lengths (proved complete and of least total weighted length
  among all prefix codes), length limiting, which adds at most 374 bits for each symbol in use, canonical codes
  (prefix-free; the encoder's and the decoder's are the same), code-length runs, and the decoder's 10-bit table with its
  overflow tree, which gives the symbol and the length that bit-by-bit decoding gives.
* **Blocks.** Dynamic, static and stored blocks each decode to what their tokens expand to. Which of the three is sent,
  and the bits of it, are said exactly: the lists of code lengths are cut and packed as short as the rule allows. Every block fits the output
  buffer, whatever its form, so the assertion that says so (miniz.c:1365) never fails: a dynamic block is compared with
  a code that gives each literal 9 bits and each match 25, just what they take in the token buffer.
* **AES.** The in-place cipher and inverse cipher are those of FIPS 197, and undo each other for every state and key.
  The S-box is the affine image of the inverse in GF(2^8), and the example of FIPS 197 appendix C.3 is worked out.
  CBC and CTR (SP 800-38A) over any cuts into calls are the modes over the whole buffer, although the chaining vector
  points into the buffer that is being overwritten.
* **Hashes and checksums.** MD5, SHA-1 and SHA-256 fed in pieces give the digest of the whole. The SHA-256 constants
  are the cube and square roots of the first primes, and the digests of "abc" are worked out. Adler-32 with its
  deferred reductions never passes 32 bits and is the byte-by-byte sum, given in closed form. The table-driven CRC-32 is the remainder of
  polynomial division, and notices every burst of up to 32 bits.
* **Names.** The heapsorted index lists every entry in order. A name is found exactly when a name of the directory has
  the same bytes but for the case of ASCII letters. The binary search finds a name exactly when the scan does, except for the names of 2^32 bytes and more that `ZipReader.AgreesExactly` describes.

## How it is laid out

| files | part |
|---|---|
| Bits, Division, CanonicalCode, Deflate | bit strings, canonical codes, and RFC 1951 as functions on bit strings |
| RadixSort, PrefixCost, HuffmanMerging, HuffmanTree, MinimumRedundancy, LengthLimit, LimitCost, HuffmanTable | building a code |
| DeflateEncoding, CodeLengthPacking, DynamicHeader, BlockDecoding, OlderHistory | what is sent, and that it is read back |
| BitWriter, TokenBuffer, BlockBody, BlockSize, BlockHeaders, BlockWriter | writing blocks |
| LzParsing, MatchSearch, HashChains, LazyParsing, Compressor | finding matches and parsing the input |
| TableDecoding, CutStreams, TableExamples, DynamicExample | what the decoder makes of any bytes, and how that relates to the format |
| DecodeTable, BitReader, SymbolReader, OutputWindow, InflateSpec, InflateSteps, Inflater, InflateMemory | the decoder |
| RoundTrip | the two together |
| Adler32, Crc32 | checksums |
| GaloisField, Aes, AesInPlace, AesModes, AesExample | AES |
| BlockStream, Words, Md5, Sha1, Sha256 | hashes |
| Primes, AbcMessage, Md5Example, Sha1Example, Sha256Example | the constants of the hashes, and the digests of "abc" |
| FileNames, NameIndex, ZipReader | the ZIP name index |

## What the code does where its documentation says otherwise

* A decoder whose checksum did not match answers ADLER32_MISMATCH again on every later call; the comment at
  miniz.h:975 says the next call answers DONE. The model follows the code (miniz.c:2861, 2911): once the state is
  `Finished`, the last clause of `Inflater.Decompress` says that every call gives the answer of the first.
* Bytes put out by a call that answers FAILED_CANNOT_MAKE_PROGRESS are not added to the running checksum, because
  that status is negative (miniz.c:2885). The ghost field `summed` of `Inflater` says which bytes are.
* The decoder accepts some streams that are not of the format. Length symbols 286 and 287 stand for matches of length 0
  (miniz.c:2433-2434, 2752-2753). A code of at most one symbol is accepted (miniz.c:2588-2600), and bits that begin with
  no code word of it read an empty entry of the table or of the tree, which is symbol 0 (miniz.c:2387-2419). Which
  streams these are is `TableDecoding.CleanStream` and `TableDecoding.UncleanLookup`.
* A raw block is sent if the block gets expanded, says the comment at miniz.c:1303. The code also sends one when the
  packed block is a byte shorter than the data (miniz.c:1304), and its header and padding can then make it longer than
  the packed block, by 56 bits at most (`BlockWriter.ShorterSent`).
* The fallback for a compressed block that does not fit (miniz.c:1324-1330), which the code calls extremely unlikely if
  not impossible, is never needed.
* A binary search for a name of 2^32 bytes or more keeps only 32 bits of its length (miniz.c:4451), and so can find an
  entry that the scan refuses to look for.

## Model

| member | source | states |
|---|---|---|
| RoundTrip.RoundTrip | miniz.c:1913-1979 | for every input, all settings and any bytes after the stream: a complete stream of the compressor decodes to the input, ends exactly where the compressor's bytes end, and carries the input's Adler-32 |
| RoundTrip.ThereAndBack | miniz.c:2033-2046 | compressing in one call and decompressing into a buffer that is large enough gives the input back, with any settings; the compressor reports failure only if the receiver refused bytes |
| RoundTrip.FlushedReading | miniz.c:1350-1362 | after a flush the bytes delivered read as a stream that is too short and whose output is the whole input so far; any longer stream that is not refused starts with that input |
| RoundTrip.AsksAfterAll | miniz.c:1350-1362 | however it was fed, a decoder that has taken all the bytes of a flush and asks for more has put out the whole input so far |
| RoundTrip.DecodeFlushed | miniz.c:2431-2914 | given just the bytes of a flush and room for a byte more than the input, one call puts out the whole input so far |
| Compressor.Compressor.Compress | miniz.c:1913-1979 | one call, with any flush: a complete stream when done, a stream for the input so far after a flush, all input taken; what is sent after a full flush decodes, from there on and with nothing before it, to the input after it; bad parameters exactly for the calls the code refuses; "put failed" exactly if the receiver refused, and no other failure |
| Compressor.Compressor.CompressNormal | miniz.c:1747-1890 | the parser's loop keeps its invariant: tokens and pending matches stand for the input parsed, the ring and its mirror hold the window, all input is taken, and none is left over on a flush; without one the parser does not move before 258 bytes are ahead |
| Compressor.Compressor.Step | miniz.c:1800-1884 | one step, and a block is written exactly if the token buffer has fewer than 8 bytes left, or the block stands for more than 31 KB and does not compress or is to be raw |
| Compressor.Compressor.Advance | miniz.c:1801-1874 | the tokens recorded, the match that waits and the bytes moved past are those of the lazy rule, for the match that is tried at the lookahead |
| Compressor.Compressor.Choose | miniz.c:1802-1831 | what is tried is the run at distance 1, or what the search finds; of that nothing is taken if it is three bytes from 8 KB away or more, if its distance is the place in the ring, or if it is short and short ones are filtered |
| Compressor.Compressor.TriesNearest | miniz.c:1476-1518 | no match at the nearest places with the same hash, since the last full flush, is longer than the one that is tried: as many of these places as there are probes, less one, but none before a place whose number is a multiple of 65536, which the chain takes for its end |
| Compressor.Compressor.ForgetHistory | miniz.c:1970-1975 | after a full flush the chains are empty and the history starts anew; from here on everything decodes without what was before |
| MatchSearch.FindMatch | miniz.c:1476-1518 | the first of the longest matches on the chain that are longer than the one before, or none if there is none; of the chain it has seen all, or a place for each probe but the last, or a match of the whole lookahead |
| HashChains.LinkedNext | miniz.c:1771-1773 | entering a place keeps the chains: each hash has its last place, and each place in the window the one before it with the same hash |
| HashChains.NearestTried | miniz.c:1476-1518 | a search along such chains gives a match as long as any at the nearest places with the same hash, one for each probe but the last |
| LazyParsing.TriedOk | miniz.c:1806-1827 | what is tried is a true match of 3 to 258 bytes within the history, or nothing |
| OlderHistory.BlockIsMore | miniz.c:1970-1975 | a block that decodes after some output decodes to the same bytes if more output came before that |
| BlockWriter.BlockWriter.FlushBlock | miniz.c:1250-1400 | the block's tokens, the fallbacks, the flush and the end of the stream: what is delivered decodes to the block; success unless the receiver refused |
| BlockWriter.BlockWriter.WriteBlock | miniz.c:1265-1363 | the bits sent, exactly: the header before the first block, the final bit, the block, and what the flush adds; they decode to the block; no byte was dropped, and the output buffer is not full (the assertion at miniz.c:1365) |
| BlockWriter.BlockWriter.SendBlock | miniz.c:1296-1330 | which form is sent: with the fixed codes if they are asked for or the block stands for fewer than 48 bytes, otherwise with its own; the bytes themselves if the ring has them, and they are asked for or the packed block is not shorter by two bytes |
| BlockWriter.ShorterSent | miniz.c:1303-1305 | what is sent is the stored block or at least 43 bits shorter, whenever the ring has the bytes; it is never more than 56 bits longer than the packed block, unless raw blocks are asked for |
| BlockWriter.FlagsAre | miniz.c:1268-1291 | the zlib header is 7801, 785E, 789C or 78DA, by the number of probes |
| BlockWriter.DynamicFits | miniz.c:1324-1330 | with its header and the codes built for it, any token buffer of 64 KB takes at most 677214 bits |
| BlockSize.BodySmall | miniz.c:1191-1236 | the bits of the tokens and the end of the block, in the codes built for them, are at most those of the token buffer and 119689 more |
| BitWriter.BitWriter.PutBits | miniz.c:918-934 | the low n bits are appended to all bits sent, wherever the bytes are by now |
| TokenBuffer.TokenBuffer.RecordLiteral | miniz.c:1706-1717 | appends one literal; flag bytes, payloads and symbol counts stay those of the tokens |
| TokenBuffer.TokenBuffer.RecordMatch | miniz.c:1719-1745 | appends one match; flag bytes, payloads and symbol counts stay those of the tokens |
| TokenBuffer.TokenBuffer.Close | miniz.c:1265-1266 | the buffer is exactly the packed form of the tokens, with no stale flag bit |
| TokenBuffer.ReadToken | miniz.c:1196-1231 | reading a packed buffer with its shifting flag byte gives the next token and leaves the rest |
| BlockBody.CompressLzCodes | miniz.c:1191-1236 | the bits sent are the codes and extra bits of exactly the recorded tokens and the end of the block; success exactly if the output buffer has room left |
| DeflateEncoding.BodyRoundTrip | miniz.c:1191-1236 | for every token list, RFC 1951 decoding of the bits sent gives the expansion of the tokens, overlapping copies included, and stops after them |
| DeflateEncoding.LenTables | miniz.c:1207-1209 | for every match length the symbol and extra bits sent are those that stand for it in the decoder's tables; 285 stands for 258 alone |
| DeflateEncoding.DistTables | miniz.c:1211-1223 | for every distance the symbol and extra bits sent are those that stand for it in the decoder's tables |
| BlockHeaders.StartDynamicBlock | miniz.c:984-1067 | the header sent opens a dynamic block whose two codes can send every token of the block and its end; all three lists of lengths end where only zeros follow, or at the least length, and the two are packed run by run |
| BlockHeaders.StartStaticBlock | miniz.c:1069-1091 | the codes set up are the fixed codes of RFC 1951 section 3.2.6 |
| DynamicHeader.HeaderRoundTrip | miniz.c:1046-1066 | from the bits of a dynamic header the decoder gets back both lists of code lengths |
| CodeLengthPacking.PackCodeSizes | miniz.c:1002-1044 | the list is packed run by run, each into as many of the longest repeats as go into it and what is left; it unpacks to the code sizes, never starts with a repeat, fits the array, and its symbols are counted right |
| CodeLengthPacking.RunOfLast | miniz.c:2648-2656 | decoding: symbol 16 takes two bits, x and then y, and repeats the last length 3 + x + 2y times; it is refused if there is none |
| CodeLengthPacking.RunOfZeros | miniz.c:2648-2656 | decoding: symbol 17 takes three bits, of value v, and gives 3 + v zeros |
| CodeLengthPacking.LongRunOfZeros | miniz.c:2648-2656 | decoding: symbol 18 takes seven bits, of value v, and gives 11 + v zeros |
| CodeLengthPacking.LengthsRoundTrip | miniz.c:2637-2664 | for every packed list, decoding the bits of its items gives the unpacked list and stops after them |
| BlockDecoding.DynamicBlockAt | miniz.c:984-1067 | a dynamic block decodes to the expansion of its tokens, wherever it stands in a stream |
| BlockDecoding.StaticBlockAt | miniz.c:1069-1091 | a static block decodes to the expansion of its tokens, wherever it stands in a stream |
| BlockDecoding.StoredBlockAt | miniz.c:1300-1318 | a stored block, padded to a byte boundary, decodes to its bytes |
| RadixSort.RadixSortSyms | miniz.c:747-778 | the result, in either buffer, is the stable sort by the 16-bit key, also when the second pass is skipped |
| MinimumRedundancy.CalculateMinimumRedundancy | miniz.c:781-834 | for ascending positive frequencies with sum below 65536: lengths from 1 to 24, never increasing, Kraft sum exactly 1, and of least total weighted length among all prefix codes; symbols stay in place |
| HuffmanTree.TreeIsOptimal | miniz.c:781-834 | the leaf depths of the merged tree cost no more than any prefix code for the same weights |
| LengthLimit.EnforceMaxCodeSize | miniz.c:841-863 | from a complete histogram of at most 2^limit symbols the loop ends with a complete histogram within the limit and the same number of symbols; by rank, the codes that were changed take at most twice as many units of space as there are codes |
| LimitCost.NearlyOptimal | miniz.c:841-863 | the lengths limited to 15 bits cost at most 374 bits for each symbol in use more than any prefix code of at most 15 bits |
| HuffmanTree.LeafWeight | miniz.c:781-834 | the weight of a leaf, times the Fibonacci number of its depth, is at most the total weight |
| HuffmanTable.OptimizeHuffmanTable | miniz.c:865-916 | every symbol that occurs gets a length within the limit, no rarer symbol a shorter one, the code is complete, the code words are the canonical ones, reversed, and with the limit of 15 no other code is better by more than 374 bits for each symbol of the table |
| HuffmanTable.ReverseCode | miniz.c:908-915 | sending the result lowest bit first sends the code highest bit first |
| CanonicalCode.PrefixFree | miniz.c:902-915 | for every feasible list of lengths, two symbols whose code words begin the same bits are one symbol |
| CanonicalCode.CompleteDecodes | miniz.c:2587-2600 | for every complete list of lengths, any fifteen bits begin with the code word of a symbol |
| DecodeTable.BuildTable | miniz.c:2571-2636 | accepts exactly the codes that are complete or use at most one symbol, and fills tables that decode them; every index stays inside |
| DecodeTable.Decode | miniz.c:2387-2419 | for any fifteen bits, table and tree give exactly what a lookup takes: the symbol and length of the code word the bits begin with, or symbol 0 and the bits that lead out of the code |
| SymbolReader.ReadSymbol | miniz.c:2356-2419 | what a lookup at the position takes is read, its bits taken and no more, or there are too few bits in the input for any lookup and nothing is taken |
| TableDecoding.CleanStream | miniz.c:2431-2914 | the tables' reading of a stream and RFC 1951 agree exactly if the reading has no end or is clean, that is uses only code words and symbols of the format |
| TableDecoding.CompleteIsClean | miniz.c:2387-2419 | a lookup in a complete code always gives the symbol of a code word |
| TableDecoding.UncleanLookup | miniz.c:2587-2600 | a lookup in an accepted code gives no code word's symbol only if the code has at most one symbol, none fits, and then gives symbol 0 |
| TableExamples.MeaninglessLength | miniz.c:2752-2753 | the stream 4B 1C 03 00, with length symbol 286, is read as one byte, and is no stream of RFC 1951 |
| TableExamples.StrayingCode | miniz.c:2387-2419 | a stream of 13 bytes with bits that are no code word is read as one zero byte, and is no stream of RFC 1951 |
| TableExamples.FixedLitCodes | miniz.c:2539-2553 | the fixed codes are those of the table in RFC 1951 section 3.2.6 |
| TableExamples.FixedDistCodes | miniz.c:2539-2553 | the fixed distance codes are five bits, in order |
| DynamicExample.ReadsText | miniz.c:2555-2664 | a dynamic block of 37 bytes, whose header has runs of all three kinds, is read cleanly as 48 letters |
| CutStreams.StreamCut | miniz.c:2356-2385 | a stream of RFC 1951 of which only the first m bits are there is too short, with a prefix of the output, or its last block is there whole |
| BitReader.BitReader.Get | miniz.c:2320-2354 | the next n bits of the stream, or an exhausted input with the position unchanged |
| BitReader.BitReader.PutBack | miniz.c:2869-2875 | whole bytes read ahead go back to the input without moving the position in the stream |
| OutputWindow.OutputWindow.CopyByte | miniz.c:2779-2790 | one byte of a match, through the ring, is the byte that many back in the output |
| OutputWindow.OutputWindow.CopyRun | miniz.c:2818-2833 | copying three bytes at a time, overlapping or not, is copying byte by byte |
| RoundTrip.HeaderDecides | miniz.c:2474-2485 | which two first bytes are taken for a zlib header: a multiple of 31, method 8, no preset dictionary, and with a ring a window of at most 32 KB |
| Inflater.Inflater.Decompress | miniz.c:2431-2914 | one call, for any bytes and any cut of them into pieces and output windows: output is a prefix of what the tables read; "done" or a mismatch only if they read an end, with all of its output out and exactly its bytes taken; failure only if they refuse; the assertion at miniz.c:2847 fails only if earlier calls took more than the blocks of a stream that is not of the format; asks for input or room only when it needs them, and with all bytes taken only if they are too short; mismatch exactly if the sums differ, and again on every later call; BadParam exactly for a ring that is no power of two |
| Inflater.Inflater.Run | miniz.c:2469-2857 | from any resume point the machine runs to a stop that keeps the invariant |
| Inflater.Inflater.GiveBack | miniz.c:2865-2884 | at exit no whole byte past the stream's position is kept that this call read |
| InflateMemory.StreamInflates | miniz.c:2431-2914 | what the decoder can inflate is exactly the streams of the format, with their data, and the streams that are read to an end though not cleanly |
| InflateMemory.CutInflates | miniz.c:2956-2963 | a stream of the format that is cut anywhere before its end inflates to nothing |
| InflateMemory.MemToMem | miniz.c:2956-2963 | for any bytes: succeeds exactly if they inflate and the data fits, and then the buffer holds it; a stream that is cut short fails |
| InflateMemory.MemToCallback | miniz.c:2965-2993 | through the 32 KB ring, what the callback gets is a prefix of the data, in order; success only if the bytes inflate and it got all of it; a stream of the format fails only if the callback refuses, one that is cut short always |
| InflateMemory.MemToHeap | miniz.c:2918-2953 | a buffer is returned only if the bytes inflate, and holds the data; for a stream of the format one is returned if memory suffices for doubling, for one that is cut short never |
| Adler32.Adler32 | miniz.c:41-67 | the loop that reduces every 5552 bytes never passes 32 bits and gives the sum reduced at every byte |
| Adler32.AdlerAppend | miniz.c:2885-2910 | the checksum continued over a second piece is that of both |
| Adler32.AdlerIs | miniz.c:41-67 | the checksum in closed form: one more than the sum of the bytes, and the sum of the bytes times their distance from the end and of the length, each modulo 65521 |
| Crc32.Crc32 | miniz.c:96-159 | the table-driven loop, four bytes a round, is the bitwise shift register, continued from any checksum |
| Crc32.TableIs | miniz.c:98-137 | each of the 256 entries is what eight steps of the register make of its index |
| Crc32.CrcDivides | miniz.c:96-159 | started with 0, the checksum is the complement of the remainder of long division by the generator of RFC 1952 section 8 |
| Crc32.CrcComposes | miniz.c:96-159 | checking a message in two pieces is checking it at once |
| Crc32.BurstDetected | miniz.c:96-159 | messages that differ only within 32 consecutive bits have different checksums |
| Aes.DecryptEncrypt | aes.c:410-458 | for every state and every expanded key the inverse cipher undoes the cipher |
| Aes.SboxBack | aes.c:79-115 | the second table undoes the first |
| AesExample.SboxIs | aes.c:79-96 | every byte but 0 has an inverse in GF(2^8), and its entry in the table is the affine image of it (FIPS 197 section 5.1.1) |
| AesExample.RconIs | aes.c:118-119 | the round constants are the powers of x in GF(2^8) |
| AesExample.Example | aes.c:410-433 | FIPS 197 appendix C.3: with the key 00 01 .. 1F, 00112233445566778899AABBCCDDEEFF becomes 8EA2B7CA516745BFEAFC49904B496089 |
| Aes.WordIs | aes.c:151-222 | the expanded key satisfies the recurrence of FIPS 197 section 5.2 |
| AesInPlace.Cipher | aes.c:410-433 | in place, sixteen bytes become their encryption and no other byte changes |
| AesInPlace.InvCipher | aes.c:436-458 | in place, sixteen bytes become their decryption and no other byte changes |
| AesInPlace.KeyExpansion | aes.c:151-222 | the loop writes the expanded key |
| GaloisField.UnmixedMixed | aes.c:305-363 | mixing a column and unmixing it gives it back, from multiplication in GF(2^8) |
| GaloisField.MultiplyIsProduct | aes.c:325-335 | the five-term product of the code is multiplication in GF(2^8), for the factors it is used with |
| AesModes.AesContext.CbcEncryptBuffer | aes.c:498-511 | one call: the buffer becomes its CBC encryption and the vector the last block, although the vector used points into the buffer |
| AesModes.AesContext.CbcDecryptBuffer | aes.c:513-526 | one call: the buffer becomes its CBC decryption and the vector the last block of ciphertext |
| AesModes.AesContext.CtrXcryptBuffer | aes.c:535-566 | one call, of any length: each byte is combined with its byte of the key stream, and the vector is the next counter |
| AesModes.CbcRoundTrip | aes.c:498-526 | for every key, vector and list of blocks, CBC decryption undoes CBC encryption (SP 800-38A section 6.2) |
| AesModes.CbcThereAndBack | aes.c:498-526 | a buffer encrypted in calls of some lengths and decrypted in calls of others is unchanged |
| AesModes.CbcEncryptCalls | aes.c:498-511 | any number of calls encrypt as one would |
| AesModes.CbcDecryptCalls | aes.c:513-526 | any number of calls decrypt as one would |
| AesModes.CtrRoundTrip | aes.c:535-566 | applied twice from the same vector, CTR gives the text back, for every length |
| AesModes.CtrSplit | aes.c:535-566 | a buffer cut at a multiple of 16 is processed as the whole is |
| AesModes.CounterValue | aes.c:548-560 | the n-th counter is the vector, read as a big-endian number, plus n modulo 2^128 |
| BlockStream.FoldMore | sha1.c:198-226 | only the state and the bytes after the last whole block matter for what is added later |
| BlockStream.CountMore | sha1.c:208-211 | two 32-bit counters with a carry count the message's bits modulo 2^64 |
| Words.ByteAtIs | sha1.c:260-263 | byte k of a length is its digit of 256^k, for the length field of all three hashes |
| Sha1.NextWord | sha1.c:31-49 | the 16-word circular schedule gives the words of the 80-word one |
| Sha1.Transform | sha1.c:54-177 | in place, the state becomes the compression of FIPS 180-4 section 6.1.2 |
| Sha1.Context.Update | sha1.c:198-226 | appends a piece to the message; state, buffer and counters stay those of the message |
| Sha1.Context.Final | sha1.c:231-281 | the digest of the whole message with the padding of FIPS 180-4 section 5.1.1 |
| Sha1.Hash | sha1.c:283-295 | hashing a message byte by byte gives its digest |
| Sha1.HashPieces | sha1.c:198-281 | for every cut into pieces, the digest is that of the concatenation |
| Sha1Example.ConstantIs | sha1.c:45-49 | the four constants are the square roots of 2, 3, 5 and 10, to 30 binary places |
| Sha1Example.Example | sha1.c:54-281 | the digest of "abc" is a9993e364706816aba3e25717850c26c9cd0d89d |
| Md5Example.Example | md5.c:156-272 | the digest of "abc" is 900150983cd24fb0d6963f7d28e17f72, as in RFC 1321 section A.5 |
| Md5.OrderIs | md5.c:193-270 | the word numbers written in the 64 steps follow the orders of RFC 1321 section 3.4 |
| Md5.Transform | md5.c:184-272 | in place, the state becomes the compression of RFC 1321 section 3.4 |
| Md5.Context.Update | md5.c:114-151 | appends a piece to the message; state, buffer and counters stay those of the message |
| Md5.Context.Final | md5.c:156-180 | the digest of the whole message with the padding of RFC 1321 section 3.1 |
| Md5.HashPieces | md5.c:114-180 | for every cut into pieces, the digest is that of the concatenation |
| Sha256.Transform | sha256.c:44-83 | in place, the state becomes the compression of FIPS 180-4 section 6.2.2 |
| Sha256.Context.Update | sha256.c:99-112 | appends a piece to the message, byte by byte |
| Sha256.Context.Final | sha256.c:114-158 | the digest of the whole message, whether the padding needs one block or two |
| Sha256.HashPieces | sha256.c:99-158 | for every cut into pieces, the digest is that of the concatenation |
| Sha256Example.ConstantIs | sha256.c:32-41 | each of the 64 constants is the first 32 bits of the fraction of the cube root of its prime |
| Sha256Example.InitialIs | sha256.c:89-96 | each word of the initial state is the first 32 bits of the fraction of the square root of its prime |
| Sha256Example.Example | sha256.c:44-158 | the digest of "abc" is ba7816bf8f01cfea414140de5dae2223b00361a396177a9cb410ff61f20015ad |
| FileNames.FoldedAlike | miniz.c:3226 | two names fold to the same exactly if they have the same length and each two bytes are equal, or letters of 65..90 and 97..122 that are 32 apart |
| FileNames.FoldedIs | miniz.c:3226 | the folded name is the one of those without capitals |
| FileNames.FilenameLess | miniz.c:3537-3554 | the comparison loop decides the dictionary order of the names without regard to ASCII case |
| FileNames.FilenameCompare | miniz.c:4427-4442 | zero exactly if the names agree but for case; the sign is right unless the name sought has 2^31 bytes or more |
| NameIndex.SortByFilename | miniz.c:3566-3617 | heapsort leaves the indices in name order and keeps each of them |
| NameIndex.SiftDown | miniz.c:3583-3596 | restores the heap below start and moves nothing from end on |
| ZipReader.BinarySearch | miniz.c:4444-4482 | finds an entry with the name sought, or there is none in the directory |
| ZipReader.Reader.LocateFile | miniz.c:4493-4555 | the search where the code uses it, and otherwise the first match of the scan with its path, case and comment options |
| ZipReader.ScanFinds | miniz.c:4512-4555 | without options the scan gives the first entry whose name has the same bytes but for the case of letters, and none if there is none |
| ZipReader.SearchFinds | miniz.c:4444-4482 | what the search may answer is exactly such an entry, and that there is none exactly if there is none |
| ZipReader.SearchAgrees | miniz.c:4502-4510 | for names the format can hold, search and scan both find or both do not, and find the same entry if no two names differ only in case |
| ZipReader.AgreesExactly | miniz.c:4444-4482 | search and scan disagree exactly for names of 2^32 bytes or more whose length cut to 32 bits leaves the name of an entry |
| ZipReader.LongNameFound | miniz.c:4451 | such a name: 2^32 bytes are found as the empty name |

## Left out

- BlockWriter.BlockWriter.FlushBlock: the block counter `m_block_index` is unbounded here and has 32 bits in the code, so after 2^32 blocks a second zlib header would be written that the model does not have.
- Inflater.Inflater.Decompress: with a ring, it is not said what comes of a match from before the first byte of output: it copies what the ring held, and such a stream has no goal. The assertion at miniz.c:2847 is modelled as an abort (`AssertFailed`); it fails only for a stream that is read to an end though not cleanly, and only if earlier calls have taken more bytes than its blocks have.
- InflateMemory.MemToCallback: nothing is said of a stream with a match from before the output, and one that is read to an end though not cleanly may be answered with failure, because of that assertion.
- InflateMemory.MemToHeap: a stream that is read to an end though not cleanly may be answered with failure, because of that assertion.
- Inflater.Inflater.constructor: a ring has at least 32768 bytes, as miniz.h:920 demands; for smaller rings nothing is claimed. The flags are fixed for a stream, except HAS_MORE_INPUT; COMPUTE_ADLER32 without a zlib header is not modelled.
- Sha1.Context.Update: the buffered bytes and the piece together have fewer than 2^32 bytes, as the 32-bit loop counters demand; the same for MD5.
- Sha256.Context.Update: a piece has fewer than 2^32 bytes; with more, the 32-bit counter of the loop would never reach the length.
- GaloisField.MultiplyIsProduct: for second factors below 32, which are the ones the five terms cover; the code uses 9, 11, 13 and 14.
- The output-buffer mode of the compressor (`m_pOut_buf` and `tdefl_flush_output_buffer`): only delivery through the callback is modelled, and the callback is a class that may refuse bytes.
- The variants with unaligned loads (miniz.c:1096-1189, 1423-1474, 2791-2816) and `tdefl_compress_fast`, which are not compiled.
- The symbol tables of the encoder (miniz.c:686-744) are formulas here, and the decoder's base and extra-bit tables (miniz.c:2433-2436) are transcribed. `DeflateEncoding.LenTables` and `DeflateEncoding.DistTables` prove that the two agree for every length and distance; the formulas have the values of the tables at every index.
- The rest of the ZIP container: reading, checking and writing headers, zip64, extraction. The directory is a list of names and comments, in the order of the directory.
- stdio wrappers, allocation, PNG output, the zlib-style wrappers, `mz_deflateBound`, AES-128 and AES-192, ECB entry points, and the wiping of buffers.
- The Lua bindings, the C++ engine and the bundled libraries.
