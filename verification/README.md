# Verified models of the bundled JPEG encoder, arithmetic decoder and HTTP parser

This Dafny project models two of the libraries that the repository carries under `3rdparty/` and
proves what they promise: the entropy coding, scan scripts, pass control and buffering of libjpeg,
and the incremental HTTP parser.

## What is modelled

**Arithmetic coding** (`IntervalCoder`, `Arith*`). `IntervalCoder` is an exact coder on unbounded
integers. `ArithEncoder` is the encoder of `jcarith.c` with its registers, stacked 0xFF bytes and
pending zeros; its class invariant says that registers and bytes spell the base of the exact
interval. `ArithDecoder` is the decoder of `jdarith.c`. `ArithRoundTrip` joins the two for single
decisions, the block modules for DC differences, bands and refinements, `ArithScanRoundTrip` for
scans of any mode, and `ArithProgression` for all scans of a script, each decoded into the image
that the scans before it left. What both sides share is pinned down apart from them: the adaptation
of the bins in `ArithAdaptation`, the decisions and bins of blocks and whole scans as flat lists in
`ArithDecisions` and `ArithPrediction`. `ArithLayout` deals the blocks of an image out to the MCUs of single
and interleaved scans, and `ArithImage` goes from an accepted script to the coefficients at the
end. A *plan* lists the decisions still to come and a *history* those made; a decoder method says
what it returns if the history and the plan are those that the data was made from, and what it
keeps on any data.

**Huffman coding** (`Huffman*`). Tables (section C.2 of ITU-T T.81), the construction of optimal
tables with the repair of section K.2 and a proof that before the repair no code lengths are
better, the bit packer, the sequential encoder with restart markers, the statistics pass, and the
AC scans of progressive images with runs of ends of block and buffered correction bits. *Items* are
the symbols and additional bits of a scan. The decoders here are specifications after sections F.2
and G.1 of ITU-T T.81. First AC scans and refinements are one scheme in `HuffmanRuns`: a coefficient
that the decoder knows gets a correction bit, any other is new. `HuffmanFinalTable` says which
lengths the finished tables have, `HuffmanIntervals` what each restart interval holds on its own.

**Scripts and passes** (`ScanScript`, `ScriptLaws`, `Passes`). The script validator, the in-place reduction, the
recommended progression, and the sequence of gathering and output passes.

**Buffering** (`ContextRows`, `Suspension`, `BlockRows`). The ring of row groups that the downsampler sees
through wraparound pointers, and the loops that go on after a destination refused an MCU.

**HTTP** (`Http*`). `HttpModel` is the parser as a machine that takes one byte, in strict mode;
`HttpParser` is the object with its inner loops over names, values and bodies and its marks. The
application is any function from what it has heard and the fields of the parser to its answer at
the end of the headers. A *stream* is what was heard, with adjacent data put together. Grammars of
methods, URLs, versions and headers say what each part of a message means, and `HttpConnections` and
`HttpResponses` put them together: a message written out is heard as it was.

`Numbers` holds shifts and byte strings as numbers, `Stuffing` the stuffing of 0xFF bytes,
`Coefficients` blocks, zigzag order and the point transform. Some predicates are written
`forall x :: Expand(x) ==> body` with a predicate that is always true: the body is then used only
where a proof mentions it.

## Where the code does not do what it seems to promise

- An error drops data that was not handed over yet, while the end of a buffer hands it over. So the
  way a stream is cut can change what an application hears before an error:
  `HttpCuts.FragmentationAtError` says exactly when, by the bytes after each cut, and
  `HttpCuts.CutIsHeard` gives a request for which it does.
- A Content-Length or chunk size is rejected by the digits before the last one, so some numbers
  that would fit are rejected: `HttpLengths` gives the exact condition, and `BigLengthRefused` and
  `BigSizeRefused` such numbers.
- The arithmetic decoder rejects a magnitude over 32768, which the encoder sends without complaint
  for DC differences of coefficients that are far out of range: `ArithScanRoundTrip.DecodeScan` fails
  exactly in that case, and `TooFarApart` is one.
- The end of a connection that completes a message leaves the state as it is, so a second end
  completes the message again: `HttpFraming.HeardInOrder` says that going on like this is the only
  way to hear something out of order, and `HttpEnd.EndIsHeardTwice` gives a response for which it is.

## Model

| member | source | states |
|---|---|---|
| `AriTable.AriTabUnpacks` | `3rdparty/libjpeg/jaricom.c:20-36` | The shifts and masks of the coders recover the three columns and the switch bit from every packed table entry |
| `IntervalCoder.FixedBinStays` | `3rdparty/libjpeg/jcarith.c:231-260` | Whatever decisions are coded, the fixed bin stays in state 113 |
| `IntervalCoder.StepContains` | `3rdparty/libjpeg/jcarith.c:219-260` | Exact coder: every number inside the interval after a decision was inside the interval before it, in the part given to that decision |
| `ArithAdaptation.AdaptedByte` | `3rdparty/libjpeg/jcarith.c:236-260` | The state byte after a decision is the one that the packed table entry gives: the next state after a more probable symbol, or the other one exclusive-or-ed with the symbol, so that the top bit switches it |
| `ArithAdaptation.EncodedNoLessLikely` | `3rdparty/libjpeg/jcarith.c:219-260` | Coding a decision never makes its own symbol less likely: after a less probable symbol, either it is the more probable one now or its estimate is strictly larger; after a more probable symbol that renormalizes, the symbol stays and the estimate of the other one does not grow; otherwise nothing changes |
| `ArithAdaptation.DecodedNoLessLikely` | `3rdparty/libjpeg/jdarith.c:150-182` | The same of the decoder, whatever data it reads |
| `ArithAdaptation.FreshBinSwitches` | `3rdparty/libjpeg/jcarith.c:241-247` | A first decision of 1 in a fresh bin leaves state 1 with 1 as the more probable symbol |
| `ArithAdaptation.IntervalDivided` | `3rdparty/libjpeg/jcarith.c:230-247` | The two symbols of a decision share the interval: the part of estimate Qe goes to the less probable symbol, unless it is the larger one, and both together are the whole interval |
| `ArithEncoding.ArithEncoder.constructor` | `3rdparty/libjpeg/jcarith.c:831-906` | The start state refines the exact coder with nothing coded |
| `ArithEncoding.ArithEncoder.ArithEncode` | `3rdparty/libjpeg/jcarith.c:219-311` | The registers, stacked 0xFF bytes, pending zeros and bytes written still spell the base of the exact interval: one more decision coded |
| `ArithEncoding.ArithEncoder.EncodeStep` | `3rdparty/libjpeg/jcarith.c:219-311` | One decision refines one step of the exact coder through renormalization, carries, stacking and pending zeros |
| `ArithEncoding.ArithEncoder.ByteOut` | `3rdparty/libjpeg/jcarith.c:262-310` | Splitting off a byte keeps base = value of all bytes produced, shifted, plus the register, whichever of the three byte branches is taken |
| `ArithEncoding.ArithEncoder.SpacerBits` | `3rdparty/libjpeg/jcarith.c:262-290` | When a byte is due the register is bounded by the spacer bits: a carry always finds a byte to go to, and never leaves it 0xFF |
| `ArithEncoding.ArithEncoder.CarryOut` | `3rdparty/libjpeg/jcarith.c:268-281` | A carry raises the number spelled so far by exactly one and turns the stacked bytes into pending zeros |
| `ArithEncoding.ArithEncoder.FlushPending` | `3rdparty/libjpeg/jcarith.c:286-303` | Bytes that no carry can reach any more are written without changing the number they spell |
| `ArithEncoding.ArithEncoder.FinishPass` | `3rdparty/libjpeg/jcarith.c:133-211` | The segment written is a stuffed byte string without a final zero byte that lies in the final interval read with zeros after its end, and no byte string that does so is shorter |
| `ArithEncoding.ShortestCode` | `3rdparty/libjpeg/jcarith.c:140-192` | The roundest number of the final interval has no shorter spelling |
| `ArithEncoding.ArithEncoder.ChooseFinal` | `3rdparty/libjpeg/jcarith.c:140-147` | The final code chosen is the aligned number of the interval with the most final zero bits |
| `Stuffing.StuffHasNoMarker` | `3rdparty/libjpeg/jcarith.c:147-192` | Every 0xFF of a segment is followed by a zero byte, so no marker appears in it |
| `Stuffing.StuffLast` | `3rdparty/libjpeg/jcarith.c:172-192` | A segment ends in a zero byte only if that byte is stuffing |
| `ArithDecoding.FixedBinKept` | `3rdparty/libjpeg/jdarith.c:106-182` | On any input bytes and any contexts asked for, the fixed bin stays in state 113 |
| `ArithDecoding.ArithDecoder.DecodeStep` | `3rdparty/libjpeg/jdarith.c:106-182` | The loop computes the specified decoder step and keeps 0 <= c < a * 2^ct, for any input |
| `ArithDecoding.ArithDecoder.Renormalize` | `3rdparty/libjpeg/jdarith.c:112-150` | Renormalization ends with a normal interval, for any input |
| `ArithDecoding.ArithDecoder.ArithDecode` | `3rdparty/libjpeg/jdarith.c:106-182` | If a decision was expected next, the decoder answers with its bit |
| `ArithRoundTrip.Lookahead` | `3rdparty/libjpeg/jdarith.c:152-160` | Comparing with the bytes read so far decides like comparing with all of them: the lazy cut point is sound |
| `ArithRoundTrip.DecideInStep` | `3rdparty/libjpeg/jdarith.c:152-182` | A code in the part of the interval given to a decision makes the decoder answer with that decision and stay in step |
| `ArithRoundTrip.BinaryRoundTrip` | `3rdparty/libjpeg/jdarith.c:106-182` | Any code for the final interval, followed by a marker, decodes to the decisions that were coded, and leaves the same statistics |
| `ArithModel.PreviousRefined` | `3rdparty/libjpeg/jcarith.c:605-640` | A coefficient at plane al is what the planes above hold plus the correction that a refinement adds |
| `ArithDecisions.ConditioningIntervals` | `3rdparty/libjpeg/jcarith.c:400-435` | The conditioning categories of section F.1.4.4.1.2 of ITU-T T.81 by the difference itself: 0 if and only if |v| <= floor(2^(L-1)), 4 or 8 by sign if and only if it is above that and at most 2^U, 12 or 16 by sign if and only if it is above 2^U |
| `ArithDecisions.DcListed` | `3rdparty/libjpeg/jcarith.c:386-434` | The decisions for a DC difference as a flat list: zero or not, sign, the length of |v| - 1 in ones up to a zero, and its bits below the top one, each in the bin the tables of section F.1.4 give |
| `ArithDecisions.AcListed` | `3rdparty/libjpeg/jcarith.c:474-545` | The decisions for a band as a flat list, coefficient by coefficient: end of block or not, zeros, sign, the length of |v| - 1 and its lower bits, in the bins of its position, above and below Kx |
| `ArithDecisions.RefineListed` | `3rdparty/libjpeg/jcarith.c:610-676` | The same for a refinement: end of block only behind the last coefficient known, a bit for each known coefficient, and a sign for each new one |
| `ArithPrediction.ScanIsWritten` | `3rdparty/libjpeg/jcarith.c:355-823` | The plan of a whole scan, in every mode, is the flat list for its blocks in order, where the DC value of a block is predicted from the block of the same component before it, and conditioned by the difference of that one |
| `BitPlanes.TruncatedIsMultiple` | `3rdparty/libjpeg/jcarith.c:474-545` | A coefficient sent down to plane al is a multiple of 2^al less than 2^al from the original: DC rounded down, AC towards zero |
| `BitPlanes.TransformIsQuotient` | `3rdparty/libjpeg/jchuff.c:660-684` | The point transform divides by 2^al, rounding towards zero |
| `ArithBlockEncoding.EncodeDcDiff` | `3rdparty/libjpeg/jcarith.c:386-434` | Codes the decisions for a DC difference and leaves its conditioning category |
| `ArithBlockEncoding.EncodeAcBand` | `3rdparty/libjpeg/jcarith.c:474-545` | Codes the decisions for a band of coefficients after the point transform |
| `ArithBlockEncoding.EncodeRefineBand` | `3rdparty/libjpeg/jcarith.c:610-676` | Codes the decisions of a refinement, with the end of the previous planes found as the code does |
| `ArithBlockDecoding.DecodeDcDiff` | `3rdparty/libjpeg/jdarith.c:267-313` | Returns the difference and category that were coded, and fails exactly if the magnitude exceeds 32768; on any data only 49 DC bins are used |
| `ArithBlockDecoding.DecodeAcBand` | `3rdparty/libjpeg/jdarith.c:346-393` | Stores the coefficients that were coded, leaves everything outside the band alone, and on any data uses only 245 AC bins |
| `ArithBlockDecoding.DecodeRefineBand` | `3rdparty/libjpeg/jdarith.c:449-492` | Adds one bit plane to a band that holds the planes above it; on any data only 245 AC bins are used |
| `ArithBlockDecoding.PreviousEnd` | `3rdparty/libjpeg/jdarith.c:459-466` | The decoder finds the same end of the previous planes that the encoder found, so both ask for an end of block at the same positions |
| `ArithScanCoding.McuEncoder.EncodeMcu` | `3rdparty/libjpeg/jcarith.c:686-823` | Codes the decisions of all blocks of an MCU and updates DC values and contexts, in any mode |
| `ArithScanCoding.McuDecoder.DecodeBlock` | `3rdparty/libjpeg/jdarith.c:503-623` | If the data holds the decisions for a block, the block comes out as far as the scan sends it; an error is met exactly when a DC difference is too large. On any data only the first 49 DC bins and 245 AC bins of its component and the fixed bin are used |
| `ArithScanCoding.McuDecoder.DecodeMcu` | `3rdparty/libjpeg/jdarith.c:503-623` | The same for an MCU, with the DC state in step; on any data only those bins of the components of the scan are used |
| `ArithScanCoding.DcRefined` | `3rdparty/libjpeg/jdarith.c:412-420` | The bit of a DC refinement completes the value to the next plane |
| `ArithScanRoundTrip.EncodeScan` | `3rdparty/libjpeg/jcarith.c:133-211` | The bytes of a scan spell the decisions of all its MCUs |
| `ArithScanRoundTrip.DecodeScan` | `3rdparty/libjpeg/jdarith.c:503-623` | Decodes every block sent; fails exactly if a DC difference is too large, and leaves other blocks alone |
| `ArithScanRoundTrip.SendScan` | `3rdparty/libjpeg/jcarith.c:686-823` | Encoding a scan and decoding its bytes followed by a marker gives back every block, for any number of MCUs, components and conditioning values |
| `ArithScanRoundTrip.TooFarApart` | `3rdparty/libjpeg/jdarith.c:280-300` | Two blocks with DC 0x7FFF and -0x8000 in one component: a scan that can be coded but not decoded |
| `ArithScanRoundTrip.SendTooFarApart` | `3rdparty/libjpeg/jdarith.c:280-300` | Coding and decoding that scan ends in the decoder error |
| `ArithProgression.SendScript` | `3rdparty/libjpeg/jcmaster.c:414-455` | For a script that continues what it sends, decoding all scans in order leaves every coefficient truncated at the last bit plane sent of it |
| `ArithProgression.CompleteIsExact` | `3rdparty/libjpeg/jcparam.c:559-630` | A coefficient whose last plane is 0 is exact at the end |
| `ArithProgression.InRangeIsCodable` | `3rdparty/libjpeg/jdarith.c:280-300` | With DC values of 15 bits, or a plane left for later, no decoder error is met |
| `ArithLayout.MemberAtIndex` | `3rdparty/libjpeg/jcmaster.c:618-638` | The membership list of an MCU and the rows and columns within it reach every block of every component, each at the index computed for it |
| `ArithLayout.PlaceIsMember` | `3rdparty/libjpeg/jcmaster.c:602-638` | In an interleaved scan every block of a component, filled-up ones included, is the one in the MCU and at the place computed from its row and column |
| `ArithLayout.MemberIsPlace` | `3rdparty/libjpeg/jcmaster.c:602-638` | No other MCU and place lead to that block |
| `ArithLayout.FrameForOk` | `3rdparty/libjpeg/jcmaster.c:319-351` | For any sampling factors and sizes in blocks that fit the interleaved MCUs there is a numbering of the blocks as the layouts ask for |
| `LayoutOrder.MembersInOrder` | `3rdparty/libjpeg/jcmaster.c:618-645` | The blocks of an MCU are listed component by component, each from left to right and from top to bottom |
| `LayoutOrder.McuPlaceIs` | `3rdparty/libjpeg/jcmaster.c:602-638` | MCU column c of MCU row r holds the rectangle of blocks of each component that begins at block row r * v and block column c * h |
| `LayoutOrder.SinglePlaceIs` | `3rdparty/libjpeg/jcmaster.c:576-605` | In a scan of one component the MCUs are its real blocks, row by row |
| `ArithImage.SetupFits` | `3rdparty/libjpeg/jcmaster.c:527-640` | The parameters, membership and layout made for an entry of the script form a scan that sends exactly the real blocks of its components, and filled-up blocks only if it is interleaved |
| `ArithImage.FollowedShaped` | `3rdparty/libjpeg/jcmaster.c:357-520` | Every entry of a script that was accepted, and reduced if blocks are small, can be set up, and the scans continue each other |
| `ArithImage.FollowedLast` | `3rdparty/libjpeg/jcmaster.c:490-520` | Reduction keeps the last plane sent of every coefficient inside the small block |
| `ArithImage.SmallIsCodable` | `3rdparty/libjpeg/jdarith.c:280-300` | With DC values of 15 bits no scan of any accepted script meets the decoder error |
| `ArithImage.SendImage` | `3rdparty/libjpeg/jcmaster.c:357-640` | From acceptance to exactness: the scans of any accepted script, reduced and set up as the code does, decode into an image of zeros with an error exactly if a DC difference is too large, and otherwise leave every coefficient of every real block at the last plane sent of it, the original itself if that is plane 0 |
| `ScanScript.ValidateScript` | `3rdparty/libjpeg/jcmaster.c:358-482` | Accepts exactly the valid scripts, and otherwise names the first scan at fault or reports missing data |
| `ScriptLaws.ValidIsLegal` | `3rdparty/libjpeg/jcmaster.c:358-482` | What is accepted, without the state of the validator: every scan has one to four components in frame order; in a progressive script it is DC alone or AC of one component whose DC came before, and of each of its coefficients the scan either is the first and has Ah = 0, or sends the plane just below the latest scan before it; in a sequential one no component comes twice; and DC of every component comes |
| `ScanScript.ValidDescends` | `3rdparty/libjpeg/jcmaster.c:414-455` | In an accepted script every coefficient is sent with Ah = 0 first and then in contiguous descending bit planes |
| `ScanScript.ScanContinues` | `3rdparty/libjpeg/jcmaster.c:428-450` | Each scan of an accepted script continues what was sent of every coefficient it covers, and AC comes after DC |
| `ScanScript.ValidContinues` | `3rdparty/libjpeg/jcmaster.c:414-455` | An accepted script meets the condition of progressive exactness |
| `ScanScript.SequentialIsComplete` | `3rdparty/libjpeg/jcmaster.c:456-481` | An accepted sequential script sends every coefficient completely |
| `ScanScript.ReduceScript` | `3rdparty/libjpeg/jcmaster.c:493-522` | Compaction in place gives the reduced script |
| `ScanScript.ReducedPlanes` | `3rdparty/libjpeg/jcmaster.c:493-522` | Reduction keeps the planes sent of every coefficient that a small block has, and sends nothing of others |
| `ScanScript.ReducedContinues` | `3rdparty/libjpeg/jcmaster.c:493-522` | A reduced script still continues what it sends |
| `ScanScript.SimpleProgression` | `3rdparty/libjpeg/jcparam.c:559-630` | Fills exactly the entries that were allocated, for every number of components |
| `ScanScript.GeneralIsComplete` | `3rdparty/libjpeg/jcparam.c:618-630` | The all-purpose script is accepted and ends with every coefficient at Al = 0, for every number of components |
| `ScanScript.ColourIsComplete` | `3rdparty/libjpeg/jcparam.c:598-617` | So does the script for YCbCr images |
| `ScriptLaws.ColourScans` | `3rdparty/libjpeg/jcparam.c:598-617` | The ten scans for YCbCr images, one by one |
| `ScriptLaws.GeneralScans` | `3rdparty/libjpeg/jcparam.c:618-630` | Every scan of the all-purpose script by its position, for every number of components |
| `HuffmanTable.MakeDerivedTable` | `3rdparty/libjpeg/jchuff.c:161-246` | Succeeds exactly for acceptable tables, and then gives every listed symbol its canonical code and length |
| `HuffmanTable.FillCodes` | `3rdparty/libjpeg/jchuff.c:203-228` | Succeeds exactly if the lengths leave code space over, and then assigns the canonical codes |
| `HuffmanTable.CodeStart` | `3rdparty/libjpeg/jchuff.c:203-228` | A code takes the code space between the codes before it and those after it |
| `HuffmanTable.AcceptableIsDecodable` | `3rdparty/libjpeg/jchuff.c:192-245` | Codes of an accepted table have at most 16 bits, are prefix-free and never all ones |
| `HuffmanOptimal.FindSmallest` | `3rdparty/libjpeg/jchuff.c:1281-1302` | Finds the smallest nonzero count, the last of equals, or that there is none |
| `HuffmanOptimal.MergeTrees` | `3rdparty/libjpeg/jchuff.c:1308-1326` | Merging two chains keeps a forest of full trees with linked chains, and leaves one chain less |
| `HuffmanOptimal.BuildTree` | `3rdparty/libjpeg/jchuff.c:1281-1327` | The chains become one full binary tree of the counted symbols: the Kraft sum is exactly 1, and the code lengths are those of merging the two smallest counts until one is left, ties going to the larger symbol |
| `HuffmanLimit.CountLengths` | `3rdparty/libjpeg/jchuff.c:1329-1339` | Counts the symbols of each length, and fails exactly if one is over 32 bits |
| `HuffmanLimit.ShorterExists` | `3rdparty/libjpeg/jchuff.c:1352-1363` | While codes over 16 bits are left, a prefix at least two bits shorter exists to be split |
| `HuffmanLimit.LimitLengths` | `3rdparty/libjpeg/jchuff.c:1341-1363` | The repair is that of Figure K.3 of ITU-T T.81 step by step, each time giving up two of the longest codes over 16 bits and splitting a code at least two bits shorter; it ends with all codes of at most 16 bits, as many as before, and Kraft sum 1 |
| `HuffmanLimit.DropReserved` | `3rdparty/libjpeg/jchuff.c:1365-1368` | One code of the largest length in use is given up, all other counts stay, and code space is left over |
| `HuffmanLimit.GenOptimalTable` | `3rdparty/libjpeg/jchuff.c:1256-1389` | The table made passes every check of jpeg_make_c_derived_tbl and has a code for exactly the counted symbols, ordered by Huffman length; its length counts are those of the Huffman lengths, repaired as Figure K.3 does, less one code of the largest length in use. It is made if and only if Huffman's procedure makes no code longer than 32 bits, so always if the total count is below LeastCount(33) |
| `HuffmanDeepest.ReservedIsDeepest` | `3rdparty/libjpeg/jchuff.c:1267-1327` | No symbol has a longer Huffman code than the reserved one |
| `HuffmanFinalTable.LengthsAreHuffmans` | `3rdparty/libjpeg/jchuff.c:1341-1389` | If no Huffman length exceeds 16, every symbol of the finished table has just its Huffman length |
| `HuffmanFinalTable.CodeLengthsAreHuffmans` | `3rdparty/libjpeg/jchuff.c:192-245` | So have the codes derived from that table |
| `HuffmanLimit.LeastCountOf33` | `3rdparty/libjpeg/jchuff.c:1332-1335` | That lower bound is 9227465 |
| `HuffmanOverflow.LeastCountOverflows` | `3rdparty/libjpeg/jchuff.c:1281-1335` | The bound is attained: counts with that total, Fibonacci numbers from the reserved symbol down, do make a code of 33 bits |
| `HuffmanMinimal.HuffmanCost` | `3rdparty/libjpeg/jchuff.c:1281-1324` | The bits that the counted symbols take are the counts merged at each step, added up |
| `HuffmanMinimal.LowerBound` | `3rdparty/libjpeg/jchuff.c:1281-1324` | No lengths of any depth that fit the code space take fewer bits than that |
| `HuffmanMinimal.HuffmanIsMinimal` | `3rdparty/libjpeg/jchuff.c:1281-1324` | Optimality: of all lengths for the counted symbols with a Kraft sum of at most 1, those of the merging procedure take the fewest bits |
| `HuffmanBits.BitWriter.EmitBits` | `3rdparty/libjpeg/jchuff.c:307-340` | Appends exactly the given bits to the segment, of which all full bytes are written, stuffed |
| `HuffmanBits.BitWriter.FlushBits` | `3rdparty/libjpeg/jchuff.c:386-403` | Fills the last byte with one-bits and nothing else |
| `HuffmanBits.BitWriter.EmitRestart` | `3rdparty/libjpeg/jchuff.c:490-507` | Ends the padded segment, writes the marker and starts anew |
| `HuffmanModel.SymbolRoundTrip` | `3rdparty/libjpeg/jchuff.c:161-246` | A decoder that reads bit by bit recovers every coded symbol and no more |
| `HuffmanModel.AdditionalRoundTrip` | `3rdparty/libjpeg/jchuff.c:935-960` | The additional bits of a value determine it |
| `HuffmanModel.AcRoundTrip` | `3rdparty/libjpeg/jchuff.c:964-1002` | The AC coefficients of a block are recovered from their codes, runs of zeros and end of block included |
| `HuffmanModel.BlockRoundTrip` | `3rdparty/libjpeg/jchuff.c:916-1008` | A block is recovered from its bits |
| `HuffmanScanModel.ScanRoundTrip` | `3rdparty/libjpeg/jchuff.c:1016-1065` | The segments of a scan with restart markers decode to all its MCUs |
| `HuffmanEncoding.HuffmanEncoder.EncodeOneBlock` | `3rdparty/libjpeg/jchuff.c:916-1008` | Emits exactly the symbols and bits of a block, and fails exactly if a coefficient is out of range or a symbol has no code |
| `HuffmanEncoding.HuffmanEncoder.EncodeMcu` | `3rdparty/libjpeg/jchuff.c:1016-1065` | The same for an MCU, with the restart marker that may be due |
| `HuffmanEncoding.EncodeScan` | `3rdparty/libjpeg/jchuff.c:1016-1095` | A scan is stuffed segments with numbered restart markers between them that hold the codes padded with ones |
| `HuffmanStream.SendScan` | `3rdparty/libjpeg/jchuff.c:1016-1095` | Encoding a scan and decoding its bytes gives back every coefficient; encoding fails exactly if a block is illegal or a symbol has no code |
| `HuffmanIntervals.PiecesNumber` | `3rdparty/libjpeg/jchuff.c:1016-1065` | With a restart interval r, n MCUs make ceil(n / r) pieces |
| `HuffmanIntervals.PieceAt` | `3rdparty/libjpeg/jchuff.c:1016-1065` | Piece j is MCUs j * r to min((j + 1) * r, n) - 1 |
| `HuffmanIntervals.SendIntervals` | `3rdparty/libjpeg/jchuff.c:1016-1095` | The bytes of a sequential scan are as many stuffed segments as there are pieces, markers 0xD0 + j % 8 between them, and segment j decodes alone, from zero predictions, to piece j, with nothing but ones to fill its last byte left over; without an interval it is one segment |
| `HuffmanRunLengths.ScanLeads` | `3rdparty/libjpeg/jchuff.c:964-1002` | Sixteen zeros are coded only ahead of more zeros or a coefficient of the same block |
| `HuffmanGather.Gatherer.HtestOneBlock` | `3rdparty/libjpeg/jchuff.c:1122-1190` | Counts exactly the symbols that the output pass emits for the block, and fails exactly if a coefficient is out of range |
| `HuffmanGather.GatherScan` | `3rdparty/libjpeg/jchuff.c:1197-1249` | Over a whole scan with restarts the counts are those of the symbols the output pass emits |
| `HuffmanGather.TallyCounts` | `3rdparty/libjpeg/jchuff.c:1122-1190` | A count is positive exactly for a symbol that occurs |
| `HuffmanOccurrences.TallyIsOccurrences` | `3rdparty/libjpeg/jchuff.c:1122-1190` | Each symbol is counted as often as it stands among the items of its table, which is as often as its code is written |
| `HuffmanTwoPass.FinishGather` | `3rdparty/libjpeg/jchuff.c:1397-1441` | One table for each table in use: every symbol of the scan then has a code |
| `HuffmanTwoPass.OptimizeAndSend` | `3rdparty/libjpeg/jchuff.c:1397-1441` | Gathering, making tables and sending never meets a missing code, and the scan decodes to every coefficient |
| `HuffmanRuns.EobSize` | `3rdparty/libjpeg/jchuff.c:464-470` | The length of a run of ends of block needs at most 14 additional bits, so the safety check never fails |
| `HuffmanRunsRoundTrip.SkipSixteen` | `3rdparty/libjpeg/jchuff.c:844-858` | A decoder that passes sixteen zeros reads exactly the correction bits buffered before the sixteenth |
| `HuffmanRunsRoundTrip.ReadsEnds` | `3rdparty/libjpeg/jchuff.c:458-482` | A run of ends of block with its correction bits, read from where it began, completes all blocks it stands for |
| `HuffmanRunsRoundTrip.ScanRoundTrip` | `3rdparty/libjpeg/jchuff.c:786-910` | All blocks of an AC scan, first or refinement, are recovered from its bits |
| `HuffmanRunLengths.BandIsFrugal` | `3rdparty/libjpeg/jchuff.c:703-714` | A run of ends of block that another one follows has the full length 0x7FFF or more than 937 correction bits, and sixteen zeros are coded only ahead of a new coefficient of the block |
| `HuffmanProgressive.RunEncoder.EmitEobrun` | `3rdparty/libjpeg/jchuff.c:458-482` | Emits the pending run and then its correction bits in order, with EOBRUN at most 0x7FFF, and clears both |
| `HuffmanProgressive.RunEncoder.EncodeMcuFirst` | `3rdparty/libjpeg/jchuff.c:628-733` | A block of a first AC scan; EOBRUN stays below 0x7FFF between blocks |
| `HuffmanProgressive.RunEncoder.EncodeMcuRefine` | `3rdparty/libjpeg/jchuff.c:786-910` | A block of a refinement; correction bits never leave the buffer of 1000, at most 937 wait between blocks, and only behind a pending run |
| `HuffmanProgressive.RunEncoder.Prepare` | `3rdparty/libjpeg/jchuff.c:810-831` | Finds absolute values and the last newly nonzero coefficient |
| `HuffmanProgressive.EncodeBlocks` | `3rdparty/libjpeg/jchuff.c:628-910` | Encodes all blocks; fails exactly if a coefficient is out of range or a symbol has no code |
| `HuffmanBandStream.IntervalsCover` | `3rdparty/libjpeg/jchuff.c:509-540` | Restart intervals hold all blocks of a scan, each once, and as many as the interval says |
| `HuffmanBandStream.EncodePieces` | `3rdparty/libjpeg/jchuff.c:509-540` | The bytes are the padded and stuffed intervals, whose runs end with them, and numbered restart markers between them; fails exactly if some interval cannot be sent |
| `HuffmanBandStream.SendBand` | `3rdparty/libjpeg/jchuff.c:628-910` | Encoding an AC scan and decoding its bytes gives the band at plane Al of every block, given the band at plane Ah, for any restart interval |
| `Passes.Compress` | `3rdparty/libjpeg/jcmaster.c:807-857` | All passes together gather and write exactly the specified actions, and end |
| `Passes.MasterControl.PrepareForPass` | `3rdparty/libjpeg/jcmaster.c:665-739` | Every pass is set up for the scan whose turn it is, also if its parameters were selected by the pass before; no scan past the script is selected |
| `Passes.MasterControl.FinishPass` | `3rdparty/libjpeg/jcmaster.c:767-799` | The state between passes is kept, or all scans are written |
| `Passes.MasterControl.RemainingPasses` | `3rdparty/libjpeg/jcapimin.c:155-189` | The pass loop ends with all scans written |
| `Passes.OutputsInOrder` | `3rdparty/libjpeg/jcmaster.c:665-799` | Scans 0 to N - 1 are written once each, in order |
| `Passes.FrameHeaderOnce` | `3rdparty/libjpeg/jcmaster.c:722-755` | The frame header is written once, before the first scan header |
| `Passes.OutputsPrepared` | `3rdparty/libjpeg/jcmaster.c:696-732` | Each output follows its own scan header, and nothing is written in between; when optimizing, its statistics are gathered first if ss != 0 or ah == 0, or if the image data comes in with it, and otherwise never |
| `Passes.NothingElse` | `3rdparty/libjpeg/jcmaster.c:665-799` | Nothing is gathered or begun in vain: statistics are followed by the headers of their scan, and a scan header by its scan |
| `ContextRows.ContextBuffer.constructor` | `3rdparty/libjpeg/jcprepct.c:268-308` | The five groups of pointers wrap around the three groups of rows |
| `ContextRows.ContextBuffer.PreProcess` | `3rdparty/libjpeg/jcprepct.c:197-261` | However rows come in, the k-th row group the downsampler sees is image rows clamp(k*v - v + i, 0, H - 1), and every output slot is filled unless rows are missing |
| `ContextRows.ContextBuffer.Downsample` | `3rdparty/libjpeg/jcprepct.c:243-258` | What is seen through the pointers is the row group with the one above and the one below, and the ring advances |
| `ContextRows.ContextBuffer.GroupsSoFar` | `3rdparty/libjpeg/jcprepct.c:197-261` | How many row groups went out depends only on how many rows came in |
| `BlockRows.WindowIsNearest` | `3rdparty/libjpeg/jcprepct.c:197-261` | Every place of a window shows the image row nearest to it: the row itself, or beyond an edge the first or the last one |
| `Suspension.BeforeIsAll` | `3rdparty/libjpeg/jccoefct.c:143-221` | The MCUs before a place are all of those that precede it and no others |
| `Suspension.BeforeInOrder` | `3rdparty/libjpeg/jccoefct.c:143-221` | They come in raster order, none of them twice |
| `BlockRows.SingleHasAllBlocks` | `3rdparty/libjpeg/jcmaster.c:326-351` | From the image height and the sampling factors: the MCUs of a scan of one component are its block rows, each once, row y of iMCU row r being block row r * v + y of ceil(height * v / unit) |
| `BlockRows.InterleavedHasAllMcus` | `3rdparty/libjpeg/jccoefct.c:69-93` | In an interleaved scan each iMCU row is one row of MCUs |
| `Suspension.CoefController.CompressData` | `3rdparty/libjpeg/jccoefct.c:143-221` | Wherever the destination refuses an MCU, the next call goes on there: accepted MCUs stay a prefix of the raster order |
| `Suspension.MainController.ProcessData` | `3rdparty/libjpeg/jcmainct.c:113-158` | The row counter is given back by one exactly while suspended, and never falls below zero, with and without context rows |
| `Suspension.MainController.WriteScanlines` | `3rdparty/libjpeg/jcapistd.c:102-110` | Rows are converted once each, in order, whatever is refused; without a refusal all lines are taken |
| `Suspension.MainController.WriteImage` | `3rdparty/libjpeg/jcapistd.c:77-113` | Of any number of calls, each one that is not refused gets on by a line or all lines are written, so that finitely many refusals do not keep next_scanline from the image height |
| `Suspension.MainController.AllWritten` | `3rdparty/libjpeg/jcmainct.c:139-157` | When next_scanline reaches the image height, all rows were converted once, or with context rows all row groups went out with their clamped windows, and all MCUs were accepted once, in order |
| `HttpModel.StepKeeps` | `3rdparty/http-parser/http_parser.c:699-2062` | Every byte keeps what the assertions of the parser say of its fields other than nread, unless it is an error |
| `HttpRun.StepShaped` | `3rdparty/http-parser/http_parser.c:668-697` | Data is handed over where a byte leaves the states that read it and begins where a byte enters them; nothing else is told while it is pending |
| `HttpRun.RunInPieces` | `3rdparty/http-parser/http_parser.c:699-2062` | The machine that takes one byte at a time does not see how its input is cut |
| `HttpCalls.CallIsRun` | `3rdparty/http-parser/http_parser.c:90-128` | Unless an error interrupts data, the notifications of a call are those of the bytes one at a time, adjacent data put together |
| `HttpParser.ValueSkips` | `3rdparty/http-parser/http_parser.c:1543-1565` | Skipping to the nearer line end by memchr does what the bytes do one at a time |
| `HttpParser.BodyGoes` | `3rdparty/http-parser/http_parser.c:1875-1916` | Reading a block of a body does what its bytes do one at a time |
| `HttpParser.HttpParser.TakeField` | `3rdparty/http-parser/http_parser.c:1316-1443` | The inner loop over a header name does what its bytes do one at a time |
| `HttpParser.HttpParser.TakeValue` | `3rdparty/http-parser/http_parser.c:1518-1702` | So does the inner loop over a header value |
| `HttpParser.HttpParser.TakeBody` | `3rdparty/http-parser/http_parser.c:1875-1925` | So does a block read, its callback and the completion of the message included |
| `HttpParser.HttpParser.Execute` | `3rdparty/http-parser/http_parser.c:626-2084` | A call ends with the fields, the bytes taken and the notifications of the machine that takes one byte at a time; a call that stops, for an error or another protocol, takes no byte after that |
| `HttpParser.LeftOver` | `3rdparty/http-parser/http_parser.c:2052-2076` | At most one mark is set at the end of a buffer, and handing over all five kinds hands over what is pending |
| `HttpMethods.MethodRead` | `3rdparty/http-parser/http_parser.c:945-1069` | A word and a space at the start of a request are no error if and only if the word is the name of a method, and then exactly that method is remembered |
| `HttpUrls.UrlRead` | `3rdparty/http-parser/http_parser.c:478-625` | A URL and a space are no error if and only if the grammar takes it: a path or asterisk and anything visible, or an absolute URL with at most one at sign in a row; after CONNECT an authority |
| `HttpStartLine.RequestVersion` | `3rdparty/http-parser/http_parser.c:1144-1264` | The version of a request line is no error if and only if both numbers are at most 999 and the first does not begin with zero, and is then remembered |
| `HttpStartLine.StatusLineRead` | `3rdparty/http-parser/http_parser.c:749-943` | A status line is no error if and only if its three numbers are at most 999, and they are then remembered |
| `HttpHeaders.NameIsKnown` | `3rdparty/http-parser/http_parser.c:1266-1443` | A header name is recognized if and only if it is one of the words the parser knows, in any case |
| `HttpHeaders.HeaderMeaning` | `3rdparty/http-parser/http_parser.c:1266-1777` | What a header line means, for any machine: chunked is newly set if and only if the name is transfer-encoding and the value is chunked and then only spaces, keep-alive, close and upgrade likewise for connection and proxy-connection with one token, upgrade by its name alone, in any case of letters; the length is that of content-length, or it is an error |
| `HttpStartLine.HeadersEndTold` | `3rdparty/http-parser/http_parser.c:1779-1830` | At the end of the headers the application is told what was read; another protocol is announced if and only if the method is CONNECT or there are an Upgrade header and a Connection header that names it |
| `HttpStartLine.MessageEnds` | `3rdparty/http-parser/http_parser.c:2086-2127` | After any message the parser goes on if and only if the end of the message could be told and the connection is kept: unless closed if both version numbers are positive, only if kept alive otherwise |
| `HttpStartLine.NothingAfterLast` | `3rdparty/http-parser/http_parser.c:702-710` | After the last message anything but a line end is an error |
| `HttpHeadings.LinesTell` | `3rdparty/http-parser/http_parser.c:1266-1777` | All header lines are heard name by name and value by value, in order and as they were, and the flags and the length at their end are those that the lines say |
| `HttpContents.ChunksTell` | `3rdparty/http-parser/http_parser.c:1927-2045` | Each chunk is heard as a chunk header with its size, its data and a chunk completion, in order |
| `HttpMessages.ContentTells` | `3rdparty/http-parser/http_parser.c:1779-2045` | After the headers just what they announce is heard: nothing, a body of the length given, or chunks and trailing headers; then the message is complete, and the parser goes on if and only if the connection persists |
| `HttpConnections.RequestTells` | `3rdparty/http-parser/http_parser.c:626-2084` | Round trip: a request written out as method, URL, version, header lines and body is taken whole and heard as it was, for all requests the grammar takes that ask for no other protocol |
| `HttpConnections.RequestsTell` | `3rdparty/http-parser/http_parser.c:626-2084` | So are any number of requests one after another, as long as each but the last lets the connection persist |
| `HttpConnections.RequestsInPieces` | `3rdparty/http-parser/http_parser.c:626-2084` | And however their bytes are cut into buffers |
| `HttpResponses.ResponseTells` | `3rdparty/http-parser/http_parser.c:626-2084` | A response written out as version, status code, reason, header lines and body is taken whole and heard as it was, if it says where it ends |
| `HttpFragments.FragmentationInvariance` | `3rdparty/http-parser/http_parser.c:626-2084` | However a stream is cut into non-empty buffers, the fields end the same, as many bytes are taken and, without an error, the application hears the same; after a call that stopped, for an error or another protocol, the pieces left are not handed over, just as the one buffer is not read on |
| `HttpCuts.StepBreaks` | `3rdparty/http-parser/http_parser.c:1316-2045` | Whether the bytes to come break the data that is being read follows them one at a time: it is broken by the first byte that neither continues nor ends it |
| `HttpCuts.LossIsBreak` | `3rdparty/http-parser/http_parser.c:90-128` | Data that was pending before some bytes is lost exactly if those bytes break it |
| `HttpCuts.FragmentationAtError` | `3rdparty/http-parser/http_parser.c:90-128` | However a stream is cut, the application hears the same, unless a cut falls in data that the bytes after it break; then, and only then, it hears more |
| `HttpCuts.CutIsHeard` | `3rdparty/http-parser/http_parser.c:1112-1142` | A concrete request for which a cut changes what is heard |
| `HttpFraming.StepFramed` | `3rdparty/http-parser/http_parser.c:1779-2045` | Every byte keeps the notifications in order, and the fields in step with them: after its headers a message goes on exactly as the headers and the application say, and is complete only when its body is |
| `HttpFraming.RunInStep` | `3rdparty/http-parser/http_parser.c:1779-2045` | So does every run |
| `HttpFraming.ChunksBalance` | `3rdparty/http-parser/http_parser.c:1991-2045` | Chunk headers and chunk completions alternate; they balance outside a chunk |
| `HttpFraming.BodiesAddUp` | `3rdparty/http-parser/http_parser.c:1825-2045` | Body bytes heard and still missing make up what headers and chunk sizes announce, counted when they are announced |
| `HttpFraming.AfterEndIsWrong` | `3rdparty/http-parser/http_parser.c:639-655` | After the end of the connection has completed a message, any further call makes the application hear something out of order |
| `HttpFraming.HeardInOrder` | `3rdparty/http-parser/http_parser.c:626-2084` | What an application hears in any number of calls, the end of the connection included, is in order, balanced and adds up, if and only if it does not go on after an end that completed a message |
| `HttpEnd.EndIsHeardTwice` | `3rdparty/http-parser/http_parser.c:645-655` | A new response parser, the bytes of a response without length and two ends of the connection: the last two notifications both say that the message is complete, the first end is in order and the second one is not |
| `HttpLengths.ContentLengthIsItsDigits` | `3rdparty/http-parser/http_parser.c:1572-1597` | A Content-Length value is accepted if and only if it is digits and spaces and all but its last digit are within the limit; it is then the number its digits stand for and never the value for no length |
| `HttpLengths.ChunkSizeIsItsDigits` | `3rdparty/http-parser/http_parser.c:1927-1975` | A chunk size is accepted if and only if all but its last digit are within the limit, and is then the number its digits stand for |
| `HttpLengths.BigLengthRefused` | `3rdparty/http-parser/http_parser.c:1582-1592` | The length 18446744073709551610 fits 64 bits and is refused |
| `HttpLengths.BigSizeRefused` | `3rdparty/http-parser/http_parser.c:1966-1974` | So is the chunk size FFFFFFFFFFFFFFF0 |

## Left out

- Destinations, sources, markers other than restart markers and the end of a scan, tables in the file, and memory management: the output is a byte sequence, the input one that ends in a marker.
- Restart markers in arithmetic coding: every restart interval is a segment of its own, coded and decoded from the start state. `read_restart_marker` is not part of this model.
- The widths of the arithmetic registers: A, C, SC and ZC are integers, and only the bounds on A and C that the proofs need are stated.
- Statistics bins are pairs of state and symbol and not packed bytes; `AriTable.AriTabUnpacks` covers the packing of the table.
- HuffmanLimit.GenOptimalTable: asks for at most 254 symbols and a total count below 1000000000, as the code does by its byte-sized length counts and its search limit.
- HuffmanTwoPass.OptimizeAndSend: asks that every component of the scan is in some MCU, as it always is.
- Suspension inside the Huffman encoders, and output buffers that fill up within an MCU.
- DC scans of progressive Huffman images, which add nothing to the sequential DC coding, and statistics passes of progressive Huffman scans.
- HuffmanBandStream.EncodePieces: a restart interval has an encoder of its own, which is what the one encoder is after a restart marker.
- Decoding with the tables of the Huffman decoder of the library: the decoders here are specifications.
- ContextRows.ContextBuffer.PreProcess: one colour component; the buffers of all components are filled alike. Colour conversion and downsampling are not modelled, rows stand for themselves.
- The DCT and the filling of MCUs with dummy blocks in `compress_data`; in `ArithProgression` padding blocks may hold anything.
- ArithImage.SendImage: leaves out the limit of ten blocks in an MCU, without which it is stated, and keeps the blocks of an image in any order instead of in arrays of rows.
- Suspension.MainController.ProcessData: counts rows instead of holding samples, and models the simple main controller with a strip buffer.
- `compress_output`, which steps through the MCUs with the loops and counters of `compress_data` and takes its blocks from memory; `jpeg_finish_compress` makes a refusal there an error.
- HttpModel.StepKeeps: leaves out the assertion that `nread` is 1 at the start of a chunk size, since the count of header bytes is not modelled.
- Passes: what the entropy coder and the coefficient controller do within a pass, which is proved in their own modules.
- HttpParser.HttpParser.Execute: does not model the count of header bytes and its overflow error, callbacks that fail or pause the parser, and the search limit of `memchr`, which matters only beyond that overflow.
- Non-strict mode, the tables of error names, the parsing of URLs into fields, and host names.
- HttpHeaders.HeaderMeaning: leaves out Connection headers with a list of tokens, where empty elements and proper beginnings of the words known end up in odd states, empty values, values continued on the next line, and lines that end in a line feed alone; `HttpParser.HttpParser.Execute` covers the bytes of all of them.
- HttpConnections.RequestTells: leaves out requests that ask for another protocol, empty lines before a request, and spaces after the first one before the URL; `HttpStartLine.HeadersEndTold` says when a protocol is asked for.
- HttpResponses.ResponseTells: leaves out responses that last until the end of the connection; `HttpFraming.HeardInOrder` covers their ends.
