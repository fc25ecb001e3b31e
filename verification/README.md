# A verified model of the decoder driver's session and bitstream translators

The driver turns VA-API decode requests into work for a stateful V4L2 decoder. This project models the two parts
of it that are hard to get right by testing, and a smaller third one:

* **The decode session** (`Slots`, `Session*`): slot pools, tokens, publication, drain, restart and resolution
  change, against a firmware that returns buffers when and in whatever order it likes. `SessionModel` is the
  session as a state machine whose runs are sequences of indivisible actions; `SessionTokens`, `SessionSlots`,
  `SessionImport`, `SessionTheorems`, `SessionTargets` and `SessionLockstep` prove what holds in every run, and
  `SessionEffects` what each action does to tokens, targets, slots and counters, field by field;
  `SessionMisplaced`, `SessionStranding`, `SessionReconfigure` and `SessionGenerations` prove exactly when lockstep,
  publication and a resolution change go wrong, and `SessionRebuilds` has two runs in which a change does;
  `SessionService` is the session as a class. Its service loop, drain loop and entry points record the actions they
  perform, so each of those theorems applies to every execution of the code.
* **The bitstream translators** (`Bits`, `Codes`, `BitIO`, `BitReading`, `Hevc*`, `Av1*`): the byte-packing writer
  and the reader, the H.265 slice header rewriter, reference picture sets and scaling lists, AV1 global motion, tile
  spacing, skip mode and the one-picture hold-back. The decoder's side is written from the standards: sections 6.5.3,
  7.3.4, 7.3.6, 7.3.7, 7.4.2, 7.4.8, 8.3.2, 8.3.4 and 9.2 of H.265, sections 4.10.5 to 4.10.7, 5.9.3, 5.9.15, 5.9.22
  and 5.9.24 to 5.9.29 of the AV1 specification. The writers are methods over a `BitWriter`, and what they write is
  proved to be read back.
* **The plane copy** (`Planes`): copying a frame to a stable buffer and reading an image, and why it makes no
  difference to a reader whether the frame or its copy is read.

Bytes are numbers below 256 and bit strings are sequences of booleans, the most significant bit first. Deadlines are
numbers of rounds chosen by the environment; what the kernel, the firmware and the allocator answer is arbitrary,
except that the kernel returns only buffers it was given.

## What the proofs found

* **Lockstep needs every early picture.** `LockstepFromTheStart` gives the exact condition under which no run with an
  in-order firmware misplaces a picture in the first Import pool: every picture submitted before the pool is built must
  still be waited for and have a fitting buffer and a descriptor. If one is missing, one more submit and a drain are
  enough. A picture that is released (or whose submit timed out) in the Configured state leaves no backlog entry
  (src/iris/session.cc:257-263), although the comment on release (src/iris/session.cc:666-669) relies on there being
  one. `LockstepBreaks` is a run in which, up to the pool, the client only submits pictures with fitting buffers and
  releases one, and from the pool on the firmware is in order; two surfaces are failed.
* The comment in release (src/iris/session.cc:686-688) says that the session has failed when continuing a resolution
  change throws. It has not: release calls it outside pump, and when the format is refused or the allocation fails
  `ContinueReconfigure` leaves the session in Configured, ready to try again.
* A submit can be accepted while a resolution change is still waiting for frames. The comment above the first wait loop
  (src/iris/session.cc:349-352) says that nothing is accepted until the pool is rebuilt, but the second
  (src/iris/session.cc:362-367) can leave with a free slot right after pump entered Reconfiguring. By `AwaitSlot` that
  happens only if no OUTPUT slot was free when the first loop ended; `AcceptedWhileReconfiguring` is such a run.
* A copy without a buffer or an engine (src/iris/session.cc:582) strands its token: it leaves the map, and its target is
  not told. `StrandsWithoutBuffer` says exactly which completion does that, in terms of what was submitted;
  `StrandingRun` is a run, and `NothingIsStranded` the guarantee for callers that provide what they ask for.
* **A change of resolution can reorder the backlog.** enter_streaming keeps what is queued and appends the pending
  pictures that are not (src/iris/session.cc:257-262). If LAST comes in the buffer of the oldest picture, that picture
  is queued again behind younger ones. `EveryPool` is the exact condition for any Import pool of a session: what is
  gathered must be, in order, what is left to decode. `ReorderedByTheChange` is a run in which every picture is waited
  for with a fitting buffer, nothing has been misplaced, and the new pool does not work.
* A token that survives a drain can still be failed by the rebuild: when the new pool is an Import pool and the target
  was submitted with a buffer but for display. `RebuildFails` is the exact condition; `RebuildFailsRun` is a run.
* leb128 (src/codec/bitwriter.h:80-89) writes nine or ten bytes from 2^56 on; the standard's reader stops after eight.
  ue writes no bits at all for 2^32 - 1.
* The held AV1 picture is built with the sequence parameters of its successor when that is a key frame
  (src/codec/av1.cc:37-41, 54-55). `OwnSequence` says exactly when a picture gets its own: unless a key frame of another
  size, or with other chroma quantisation, follows at once. `ForeignSequence` is a stream of two widths.
* For a half circle exactly, relative_dist places a reference both before and after; `SkipModeMeaning` shows the one
  case in which this makes a reference at the current position count as an earlier one.

## Model

| member | source | states |
|---|---|---|
| Bits.FromBytesInjective | src/codec/bitwriter.h:15-21 | the bits of a byte string determine its bytes |
| Codes.UeRoundTrip | src/codec/bitwriter.h:31-40 | the decoder of section 9.2 reads back every value below 2^32 - 1 and consumes exactly its bits, whatever follows |
| Codes.UeWraps | src/codec/bitwriter.h:31-40 | nothing at all is written for 2^32 - 1 |
| Codes.SeRoundTrip | src/codec/bitwriter.h:42-45 | signed values of up to 30 bits are read back, with any suffix |
| Codes.SuRoundTrip | src/codec/bitwriter.h:50-53 | two's complement cut to n bits is read back wherever the value fits n bits |
| Codes.NsRoundTrip | src/codec/bitwriter.h:57-70 | section 4.10.7 reads back every value below n, in either code length |
| Codes.Leb128RoundTrip | src/codec/bitwriter.h:80-89 | section 4.10.5 reads back every value below 2^56 |
| Codes.Leb128Limit | src/codec/bitwriter.h:80-89 | and no other value: exactly those below 2^56 are read back |
| BitIO.BitWriter.DataBits | src/codec/bitwriter.h:112-118 | the bytes are the bits written so far, padded with zeros to a whole byte |
| BitIO.BitWriter.Bit | src/codec/bitwriter.h:15-21 | appends one bit at any bit offset and keeps the padding zero |
| BitIO.BitWriter.WriteBits | src/codec/bitwriter.h:23-27 | appends the low digits of a value, most significant first |
| BitIO.BitWriter.Ue | src/codec/bitwriter.h:31-40 | appends the Exp-Golomb code, wrap-around included |
| BitIO.BitWriter.Se | src/codec/bitwriter.h:42-45 | appends the signed Exp-Golomb code |
| BitIO.BitWriter.Su | src/codec/bitwriter.h:50-53 | appends n-bit two's complement |
| BitIO.BitWriter.Ns | src/codec/bitwriter.h:57-70 | appends the non-symmetric code |
| BitIO.BitWriter.Leb128 | src/codec/bitwriter.h:80-89 | appends the little-endian base-128 code, loop included |
| BitIO.BitWriter.TrailingBits | src/codec/bitwriter.h:92-97 | appends a one bit and the zeros up to the byte boundary; the bytes are then exactly the bits |
| BitIO.BitWriter.ByteAlign | src/codec/bitwriter.h:100-104 | appends only the zeros up to the byte boundary |
| BitReading.UnescapeEscape | src/codec/bitwriter.h:128-140 | removing emulation prevention undoes adding it, for every payload |
| BitReading.EscapeProtects | src/codec/bitwriter.h:196-210 | after two zero bytes an escaped payload never has 0, 1 or 2, and has 3 exactly where one was inserted; an inserted byte is always followed by one below 4 |
| BitReading.UnescapeAfterHeader | src/codec/bitwriter.h:128-140 | the header bytes are kept verbatim and only their trailing zeros matter to what follows |
| BitReading.AppendEscapedNal | src/codec/bitwriter.h:196-210 | appends start code, header and the escaped bytes of the writer |
| BitReading.NalCeilLog2 | src/codec/bitwriter.h:186-192 | Ceil(Log2(n)), and zero for zero |
| BitReading.ReadsUe | src/codec/bitwriter.h:160-166 | where a code word stands, the zero-extending reader returns its value and stops right behind it |
| BitReading.BitReader.constructor | src/codec/bitwriter.h:128-140 | keeps what section 7.4.2 calls the payload |
| BitReading.BitReader.Bit | src/codec/bitwriter.h:146-152 | reads one bit of the kept bytes, zero beyond their end |
| BitReading.BitReader.Ue | src/codec/bitwriter.h:160-166 | reads the value at the position and moves behind it |
| BitReading.BitReader.Copy | src/codec/bitwriter.h:173-177 | appends exactly the existing bits between the position and the end |
| HevcSlice.PicSizeCovers | src/codec/hevc.cc:220-222 | the number of coding tree blocks is that of the one arrangement of rows and columns that covers the picture with none to spare |
| HevcReferences.CollectReferences | src/codec/hevc.cc:103-139 | rejects exactly the reference arrays with colliding picture order counts; otherwise returns, by VA's own fields, the short-term references before the current picture, those after it and the long-term ones, each in order |
| HevcReferences.CollectedExact | src/codec/hevc.cc:107-123 | a reference is in a set if and only if it repeats a present entry of VA's array that is long-term, or short-term and earlier, or short-term and later; each set is in the strict order of section 8.3.2 |
| HevcReferences.ListsPermute | src/codec/hevc.cc:127-137 | the two initial lists are duplicate-free permutations of each other |
| HevcRps.WriteRps | src/codec/hevc.cc:143-181 | appends the code of the explicit set, or fails with the status of the first entry that cannot be coded |
| HevcRps.RpsRoundTrip | src/codec/hevc.cc:143-181 | the syntax of sections 7.3.6.1 and 7.3.7 reads back every explicit set, whatever follows |
| HevcRps.WrittenRpsParses | src/codec/hevc.cc:143-181 | what is written is parsed under the generated SPS, and NumPicTotalCurr is that of VA |
| HevcRps.RpsMeaning | src/codec/hevc.cc:143-181 | sections 7.4.8 and 8.3.2 derive from it exactly VA's picture order counts and used flags, short-term and long-term |
| HevcRps.RpsWritable | src/codec/hevc.cc:152-176 | it is written if and only if neighbouring short-term counts are at most 32768 apart and the first long-term entry is in reach |
| HevcSliceParsing.HeaderParses | src/codec/hevc.cc:186-317 | the parser of section 7.3.6.1 reads back every conforming header written for the generated parameter sets |
| HevcRewriteMeaning.Rewrites | src/codec/hevc.cc:186-341 | a header is accepted if and only if its sets and lists are writable, and the output is that header with VA's references, the rest of the header, alignment and the same slice data |
| HevcSliceTheorems.SliceMeaningPreserved | src/codec/hevc.cc:186-341 | under the generated parameter sets the output is parsed as a header that has the same value in every field but the PPS, the forced flags, the explicit set and the list modification; the rest and the slice data are bit-identical |
| HevcSliceTheorems.GraphReproduced | src/codec/hevc.cc:103-181 | from the rewritten header sections 7.4.8 and 8.3.2 derive a short-term picture before or after the current one, or a long-term one, with its flag, if and only if VA reports such a frame |
| HevcSliceTheorems.TailContextKept | src/codec/hevc.cc:186-341 | the slice type, flags and active counts that the rest of the header is read with are those it was written for, although the generated default counts are cut to fifteen |
| HevcSliceTheorems.SomeSliceIsAccepted | src/codec/hevc.cc:186-341 | the hypotheses of the theorem are met: whatever follows the header, a P slice with two references in reversed list order is carried at some data offset and accepted |
| HevcSliceTheorems.CurrentPocsAre | src/codec/hevc.cc:127-137 | the pictures a decoder puts into its initial lists are VA's, in the rewriter's order |
| HevcSliceTheorems.ListsReproduced | src/codec/hevc.cc:288-317 | list construction of section 8.3.4 gives VA's RefPicList entry by entry, in both lists, also when nothing is written |
| HevcSliceTheorems.AcceptedExactly | src/codec/hevc.cc:284-317 | a conforming slice is accepted if and only if its sets can be written and, when inter coded, VA offers a frame, and every list has at most fifteen active entries, each a frame that VA offers |
| HevcRejections.AddressRefused | src/codec/hevc.cc:217-224 | a later slice segment is refused exactly if its address is not VA's |
| HevcRejections.TypeRefused | src/codec/hevc.cc:226-229 | a slice type is refused exactly if it is above two or not VA's |
| HevcRejections.ShortTermRefused | src/codec/hevc.cc:242-262 | a short-term set is refused exactly if it refers to sets the stream lacks, is predicted without a length from VA, or has more than sixteen entries |
| HevcRejections.LongTermRefused | src/codec/hevc.cc:263-280 | a long-term section is refused exactly if it refers to more entries of the SPS than there are, or has more than sixteen |
| HevcRejections.EndRefused | src/codec/hevc.cc:322-334 | the end is refused exactly if VA's offset is before what was parsed or beyond the NAL unit, or no one bit is among the last eight before it |
| HevcRewriter.RewriteSlice | src/codec/hevc.cc:186-341 | rejects NAL units of fewer than three bytes, with a set forbidden bit, a type above 31, another layer or no temporal id, and otherwise emits the rewritten bits as a NAL unit or returns the first error |
| HevcRewriter.RewriteType | src/codec/hevc.cc:226-237 | keeps the reserved bits and the type, checks the type against VA's, forces the output flag |
| HevcRewriter.RewriteTiming | src/codec/hevc.cc:238-283 | replaces the short-term and long-term syntax by the explicit set |
| HevcRewriter.RewriteLists | src/codec/hevc.cc:284-317 | replaces the list modification by VA's lists, spelled as positions in the initial lists |
| HevcRewriter.FindAlignment | src/codec/hevc.cc:329-334 | finds the last one bit before the slice data, within eight bits and not before what was parsed, or reports that there is none |
| HevcRewriter.RewrittenNal | src/codec/hevc.cc:186-341 | from NAL unit to NAL unit: undoing emulation prevention on the output gives its header bytes and exactly the bits that parse as the rewritten header |
| HevcScaling.ScanIsStandard | src/codec/hevc.cc:65-75 | for every side the walk is the up-right diagonal scan of section 6.5.3 and has side times side cells |
| HevcScaling.VisitsEachCellOnce | src/codec/hevc.cc:65-75 | it visits exactly the cells of the block, none twice |
| HevcScaling.Delta | src/codec/hevc.cc:68-73 | every difference is in [-128, 127] and the decoder's modular sum gives the value back |
| HevcScaling.DecodedMatrix | src/codec/hevc.cc:53-76 | for every side, section 7.3.4 returns the DC value and, at the scan position of each cell, the value that VA has in that row and column |
| HevcScaling.ScalingRoundTrip | src/codec/hevc.cc:48-78 | all matrices of all sizes are read back, whatever follows |
| HevcScaling.ScalingMeaning | src/codec/hevc.cc:48-78 | a decoder ends up with six, six, six and two matrices, each with VA's DC value and VA's value in every row and column |
| HevcScaling.WriteScalingLists | src/codec/hevc.cc:48-78 | appends the syntax of all matrices |
| Av1Motion.RecenterIsBijective | src/codec/av1_obu.cc:466-473 | recentring and the specification's inverse are inverse bijections on [0, mx) for every reference in the lower half |
| Av1Motion.SubexpRoundTrip | src/codec/av1_obu.cc:475-498 | decode_subexp returns the value, from every step of the code |
| Av1Motion.WriteSubexp | src/codec/av1_obu.cc:475-498 | terminates and appends the code |
| Av1Motion.SignedRoundTrip | src/codec/av1_obu.cc:500-515 | decode_signed_subexp_with_ref returns the value for every range and every reference in it |
| Av1Motion.ReferenceInRange | src/codec/av1_obu.cc:519-541 | a saved parameter of any type and precision lands in the range of the parameter that is coded against it |
| Av1Motion.ReferenceOfCoded | src/codec/av1_obu.cc:536-538 | a parameter that was coded as some number is, as a reference of the same type, worth that number |
| Av1Motion.ParamRoundTrip | src/codec/av1_obu.cc:519-541 | read_global_param, written out from section 5.9.25, returns the written parameter, for every type, index, precision and saved reference, exactly if a stream can carry it, and otherwise the next one below that a stream can |
| Av1Motion.WriteParam | src/codec/av1_obu.cc:519-541 | appends the code of one parameter, shifted down to the grid of the syntax |
| Av1Motion.WarpRoundTrip | src/codec/av1_obu.cc:564-582 | a decoder reads back the type and all six parameters, the derived ones included |
| Av1Motion.MotionRoundTrip | src/codec/av1_obu.cc:543-585 | and so for all references of a frame |
| Av1Motion.DecodedIsDecodable | src/codec/av1_obu.cc:543-585 | whatever the bits are, a warp that a decoder reads is one that the round trip covers |
| Av1HoldBack.WriteGlobalMotion | src/codec/av1_obu.cc:543-585 | accepts exactly the frames whose types exist and appends their motion, coded against the parameters of the primary reference's slot |
| Av1HoldBack.HistoryReferencesInRange | src/codec/av1_obu.cc:589-608 | over any history of frames the reference of every parameter is in range |
| Av1HoldBack.PreviousOverHistory | src/codec/av1_obu.cc:553-563 | over any history, the parameters a frame is coded against are those of the last picture that refreshed the slot of its primary reference; the defaults without one, or if nothing refreshed it |
| Av1HoldBack.References.UpdateMotion | src/codec/av1_obu.cc:589-608 | exactly the refreshed slots get the frame's parameters, or the defaults of an intra frame |
| Av1HoldBack.SlotHistory | src/codec/av1.cc:96-101 | a slot holds the order hint of the last picture that refreshed it and, for each reference, that picture's parameters, or the defaults after an intra frame |
| Av1HoldBack.SlotUntouched | src/codec/av1.cc:98-101 | a slot that no picture refreshed is empty |
| Av1HoldBack.AV1.Translate | src/codec/av1.cc:29-75 | releases the previous picture, built with the slots its successor says it refreshed, and holds this one |
| Av1HoldBack.AV1.Flush | src/codec/av1.cc:77-86 | releases the last picture with no slot refreshed |
| Av1HoldBack.AV1.Build | src/codec/av1.cc:91-104 | builds from the state before the picture and updates exactly the refreshed slots |
| Av1HoldBack.AV1.EachOnce | src/codec/av1.cc:29-104 | an error-free stream releases its pictures in order, each once |
| Av1HoldBack.OwnSequence | src/codec/av1.cc:35-55 | a unit is built with the sequence parameters in force for its picture exactly if no key frame with other parameters follows at once |
| Av1HoldBack.SameState | src/codec/av1_obu.cc:418-430 | two pictures give the same sequence parameters exactly if their sizes agree and both or neither quantise the chroma planes alike |
| Av1HoldBack.StateFits | src/codec/av1_obu.cc:418-430 | the sizes are the picture's, in the fewest bits that hold them, and the level is the lowest of table A.3 that allows the picture, or the highest of the table |
| Av1HoldBack.ForeignSequence | src/codec/av1.cc:35-55 | two key frames of 320 and 640 columns, of which the first is built with the width of the second |
| Av1Tiles.TileLog2 | src/codec/av1_obu.cc:55-61 | the smallest k with the block size times 2^k at least the target |
| Av1Tiles.CeilingLog2 | src/codec/av1_obu.cc:41-52 | Ceil(Log2(n)), and zero for zero and one |
| Av1Tiles.CountGivesLog2 | src/codec/av1_obu.cc:217-241 | for every number of superblocks and every legal logarithm, the number of tiles gives the logarithm back |
| Av1Tiles.UniformRecovered | src/codec/av1_obu.cc:217-241 | the counts of a legal stream are accepted and the increment bits are read back as its logarithms |
| Av1Tiles.LimitsUnique | src/codec/av1_obu.cc:210-214 | the limits of the logarithms are determined by the frame |
| Av1Tiles.WriteUniform | src/codec/av1_obu.cc:199-241 | accepts exactly the counts whose logarithms section 5.9.15 can express, and appends their bits |
| Av1Order.DistIsRepresentative | src/codec/av1_obu.cc:64-71 | relative_dist is the one number in [-m, m) that is congruent to a - b modulo 2m |
| Av1Order.Neighbours | src/codec/av1_obu.cc:817-841 | the search returns the first of the nearest earlier references and the first of the nearest later ones |
| Av1Order.SkipModeFlag | src/codec/av1_obu.cc:815-863 | the flag is written exactly when section 5.9.22 allows it |
| Av1Order.SkipModeMeaning | src/codec/av1_obu.cc:844-862 | with nothing later, it takes two different earlier distances, or the half-circle case |
| Slots.SlotPool.RequeueCapture | src/iris/slots.cc:115-128 | queues exactly the slots that are neither queued nor held, and none of an Import pool |
| Slots.RequeuedExactly | src/iris/slots.cc:115-128 | slot by slot: queued afterwards if it was or is not held, and the kernel gets each newly queued one once |
| Slots.SlotPool.QueueCaptureImport | src/iris/slots.cc:130-151 | takes the free slot that last carried the descriptor, else the first free one, and records the token |
| Slots.SlotPool.TakeCapture | src/iris/slots.cc:153-159 | the slot is no longer queued and its token is handed out once |
| Slots.SlotPool.QueueCaptureScratch | src/iris/slots.cc:161-178 | lends the driver's buffer, without a token, to the first free slot, or fails |
| Slots.SlotPool.ReleaseCapture | src/iris/slots.cc:91-103 | refuses while any slot is held and otherwise empties pool and kernel queue |
| Slots.SlotPool.MarkAllCaptureReturned | src/iris/slots.cc:220-226 | clears every queued flag and token |
| SessionTokens.TokensAreConserved | src/iris/session.cc:335-408 | in every run tokens increase, each is pending or settled once, and pending targets and map entries correspond |
| SessionTheorems.EachTokenHasOneFate | src/iris/session.cc:468-603 | every issued token is pending or has exactly one fate: published, failed, released or stranded |
| SessionTheorems.NothingIsStranded | src/iris/session.cc:567-603 | with an engine, and a buffer with every copy or import target, no token is stranded in any run |
| SessionStranding.StrandsWithoutBuffer | src/iris/session.cc:567-582 | in every run a token is stranded exactly by the undamaged completion of its picture from an Mmap pool, if its target was submitted for a copy or an import and without a buffer, or there is no engine |
| SessionStranding.StrandingRun | src/iris/session.cc:581-582 | a run of four actions that strands a token: its target still counts as pending and was told nothing |
| SessionTheorems.FailedHoldsNothing | src/iris/session.cc:853-870 | a failed session has nothing pending and no backlog |
| SessionTheorems.SlotHasOneOwner | src/iris/slots.cc:115-128 | in every run a slot is with the firmware, with exactly one target, or free; it is in the kernel's queue at most once, and just when it is flagged |
| SessionTheorems.HeldFramesAreCurrent | src/iris/session.cc:781-801 | a pool is torn down only when no target holds a frame, and no frame of an old pool is ever held |
| SessionTheorems.DrainKeepsOwed | src/iris/session.cc:803-826 | when a drain ends exactly the tokens with a queued OUTPUT buffer are pending, and all others have failed |
| SessionEffects.Submitted | src/iris/session.cc:369-397 | in every run a submitted unit is in the first free OUTPUT slot under a new token, and its target waits for it with what it was given, or, from an Import pool only, was told at once |
| SessionEffects.OutputReturned | src/iris/session.cc:468-489 | in every run a rejected OUTPUT buffer takes its pending token out of the map as failed and tells its target at once; any other returned OUTPUT buffer only frees its slot |
| SessionEffects.CompletionTaken | src/iris/session.cc:491-606 | in every run, for each kind of completion, which token it settles and with what fate, what becomes of the target, field by field, and what is counted |
| SessionEffects.MisplacedTold | src/iris/session.cc:541-562 | a misplaced picture tells exactly the two targets involved, and is counted once and as one or two errors |
| SessionEffects.ReleasedTarget | src/iris/session.cc:663-677 | in every run a released target keeps only its policy and buffer, and its token is on record as released |
| SessionEffects.TimedOutTarget | src/iris/session.cc:646-650 | in every run a target whose wait timed out is told, its token is gone, and no other target changes |
| SessionEffects.DrainEnded | src/iris/session.cc:803-826 | at the end of a drain exactly the targets whose OUTPUT buffer is back are told, and each is counted once |
| SessionEffects.SessionFailed | src/iris/session.cc:853-870 | when the session fails exactly the targets that wait for a token are told, and nothing is pending |
| SessionEffects.SlotsRequeued | src/iris/slots.cc:115-128 | in every run requeueing an Mmap pool leaves every slot with the firmware that no target holds |
| SessionEffects.DrainIsFed | src/iris/session.cc:704-715 | in every run, after a drain of an Import pool was fed, the firmware has a buffer to write into |
| SessionEffects.PoolStopped | src/iris/session.cc:769-797 | stopping CAPTURE takes back every buffer with its token and keeps which descriptor each slot last carried; tearing down leaves no slot |
| SessionEffects.PoolBuilt | src/iris/session.cc:209-234 | in every run the new pool is one of client buffers exactly if the codec is qualified, output is in decode order and the oldest pending picture asks for Import with a buffer of the pool's layout; a vain request is put on record |
| SessionEffects.GatheredExactly | src/iris/session.cc:257-262 | entering an Import pool keeps the backlog in front and appends, oldest first, exactly the pending pictures with a buffer that are not in it |
| SessionEffects.HandsOverNext | src/iris/session.cc:273-322 | with nothing in flight, entries without a descriptor and those whose target cannot take a picture are dropped, the latter told; of the first other one the buffer goes into a free slot, unless it is laid out for another geometry, for which everything waits |
| SessionEffects.TakersAreSpared | src/iris/session.cc:286-300 | handing out buffers loses no pending picture whose target can take it |
| SessionEffects.CountersAreExact | src/iris/session.cc:335-606 | in every run the pictures submitted are those pending and those with a fate, and the pictures completed are those published |
| SessionReconfigure.OwedStayPending | src/iris/session.cc:759-801 | of the tokens pending when a drain ends exactly the owed ones are pending after any continuation of stream-off, teardown, rebuild, OUTPUT returns and other callers' submits and releases, if the target has a buffer or the pools are the driver's own |
| SessionReconfigure.RebuildFails | src/iris/session.cc:251-301 | building a pool fails a pending token exactly if it is an Import pool, the token's target was submitted with a buffer and for display, and its turn comes before any buffer is handed over |
| SessionRebuilds.RebuildFailsRun | src/iris/session.cc:251-301 | a run in which a token that is still owed after the drain is failed by the rebuild |
| SessionImport.PublishedByItsCompletion | src/iris/session.cc:491-565 | only a token's own undamaged completion publishes it, and in an Import pool only from the slot queued for it |
| SessionImport.CompletedByItsCompletion | src/iris/session.cc:535-603 | a target is completed only by the completion that carries its token |
| SessionImport.RunsAreSingle | src/iris/session.cc:273-322 | in every run an Import token's buffer is waiting, in one slot, or spent |
| SessionTheorems.ImportCompletion | src/iris/session.cc:513-562 | a completion is published if and only if buffer and token agree; a misplaced one fails both targets and is counted; an unknown one is dropped |
| SessionTheorems.ImportFailsClosed | src/iris/session.cc:541-562 | once a token's buffer has come back with anything but its picture, the token is not published within the pool's lifetime |
| SessionTargets.TargetsAreTold | src/iris/session.cc:663-677 | from any point of a run, a target that its caller leaves alone stays as it is until it is told, success meaning published; a released, reused or told target is never touched by a late completion |
| SessionLockstep.RunsInLockstep | src/iris/session.cc:273-322 | with an in-order firmware at one geometry nothing is misplaced in any run: the undecoded tokens are the one in flight and the backlog, and a backlog while streaming means one buffer is out |
| SessionMisplaced.LockstepFromTheStart | src/iris/session.cc:251-271 | no in-order continuation of a new Import pool's run misplaces a picture, if and only if every picture submitted so far is waited for and has a descriptor and a fitting buffer; the pool is in lockstep under the same condition |
| SessionGenerations.EveryPool | src/iris/session.cc:251-271 | for every Import pool of a session with an in-order firmware, the first or after any changes of resolution: no in-order continuation misplaces a picture, if and only if the gathered backlog is what is left to decode, in order, each with a descriptor and a fitting buffer |
| SessionGenerations.LockstepStaysOrderly | src/iris/session.cc:273-322 | a session in lockstep stays one to which that condition applies at the next pool |
| SessionRebuilds.ReorderedByTheChange | src/iris/session.cc:251-271 | a run in which a change of resolution queues an older picture behind a younger one, so that the new pool misplaces pictures |
| SessionLockstep.LockstepBreaks | src/iris/session.cc:251-271 | a run whose client submits only fitting pictures and releases one before the pool exists, and whose firmware is in order from the pool on: nothing is misplaced up to there, and one picture is later |
| SessionService.Session.QueueImportNext | src/iris/session.cc:273-322 | hands over the next usable backlog entry when nothing is in flight |
| SessionService.Session.HandleOutputReturns | src/iris/session.cc:468-489 | the loop ends when the device has nothing more to return, and does nothing but record returned OUTPUT buffers, one action each |
| SessionService.Session.TakeOutput | src/iris/session.cc:469-487 | frees the slot; an error takes the token it carried out of the map and tells its target at once, and changes no other target |
| SessionService.Session.HandleCaptureReturns | src/iris/session.cc:491-565 | the loop ends when the device has nothing more to return or a copy fails, and does nothing but record returned CAPTURE buffers, one action each |
| SessionService.Session.Dispatch | src/iris/session.cc:503-562 | what a completion does to the target it names, in every case |
| SessionService.Session.Publish | src/iris/session.cc:567-606 | completes the target directly, by copy or in place, or leaves it failed or stranded |
| SessionService.Session.ConfigureCapture | src/iris/session.cc:171-249 | one action builds the pool, of Import memory exactly when the contract for it holds, and starts streaming; when the format is refused or the allocation fails, at most the note that Import was rejected has changed |
| SessionService.Session.Drain | src/iris/session.cc:692-736 | STOP, then only drain work; succeeds with LAST seen and only owed tokens pending, fails the session only without LAST, and otherwise stays in the drain |
| SessionService.Session.Restart | src/iris/session.cc:738-757 | ends streaming again or failed |
| SessionService.Session.Reconfigure | src/iris/session.cc:759-779 | succeeds after a complete drain and stream-off, waiting with a frame held, or with teardown and a new pool |
| SessionService.Session.ContinueReconfigure | src/iris/session.cc:781-801 | changes nothing exactly while a frame is held; otherwise tears down and builds the new pool, or is left in Configured |
| SessionService.Session.Teardown | src/iris/session.cc:793-798 | the check inside release_capture never fails |
| SessionService.Session.Pump | src/iris/session.cc:425-453 | an error inside it fails the session; on success a start or a change that was announced has been acted on, and free slots were handed out first, and again last unless a change is waiting |
| SessionService.Session.AwaitSlot | src/iris/session.cc:348-367 | finds a free OUTPUT slot; it can end in a resolution change only if none was free when the first wait was over |
| SessionReconfigure.AcceptedWhileReconfiguring | src/iris/session.cc:348-367 | a run in which the slot comes back and a resolution change starts to wait for a displayed frame while a submit waits, and the submit is accepted |
| SessionService.Session.Submit | src/iris/session.cc:335-408 | one access unit is queued exactly once on success, at most once on an error, and not at all for a failed or finished session |
| SessionService.Session.Wait | src/iris/session.cc:608-658 | returns success only for a published token, and an error only for a target that was told, or when the session has failed or is stuck in a drain |
| SessionService.Session.Release | src/iris/session.cc:679-690 | the target is neither pending nor holding a frame, whatever the deferred reconfiguration does |
| SessionService.Session.Finish | src/iris/session.cc:828-851 | the session ends finished or failed |
| Planes.CopyRowsAt | src/iris/publish.cc:47-55 | every byte of every row arrives at its place: rows do not overwrite each other |
| Planes.CopyRowsOutside | src/iris/publish.cc:47-55 | no byte outside the rows changes |
| Planes.PlanesFit | src/iris/publish.cc:17-25 | a layout that validates has both planes in bounds and the luma rows before the chroma rows |
| Planes.Copy | src/iris/publish.cc:32-58 | copies both planes when formats agree and both layouts validate, and otherwise changes nothing and says why |
| Planes.FrameByByte | src/iris/publish.cc:40-55 | the copy has every byte of every luma and chroma row where its layout says, and every other byte is unchanged |
| Planes.ValidatesExactly | src/iris/publish.cc:17-25 | a layout validates exactly if the picture is within its visible part and storage rows and there is room for each chroma row |
| Planes.FillImage | src/va/image.cc:32-48 | below 2^16 in both directions the image describes its two planes, one after the other without gaps, exactly if they fit into 2^32 bytes |
| Planes.CopyPixels | src/va/image.cc:52-81 | reads the visible part of both planes, which ImageByByte says byte by byte |
| Planes.ImageByByte | src/va/image.cc:65-79 | a packed image has every byte of every visible luma and chroma row of the surface in its place, and every other byte is unchanged |
| Planes.DirectEqualsCopy | src/iris/publish.cc:27-59 | a packed image can be read from a frame and from its copy wherever both layouts validate, and the bytes read are the same |
| Planes.StableLayoutValidates | src/iris/alloc.cc:56-84 | every stable layout validates for its own picture |
| Planes.StableLayoutExactly | src/iris/alloc.cc:56-84 | pitch, rows of both planes and size are each the least multiple of their alignment that suffices; refused exactly if empty or of 2^32 bytes or more |

## Left out

- Calls into the kernel, DMA-BUF fences, descriptor handling, EGL, allocation, tracing and options: their outcomes are
  parameters or arbitrary choices.
- Two threads in one session: every call holds the mutex. wait() drops it between rounds; the theorems about runs cover
  other callers' actions there, the method `Session.Wait` does not interleave them.
- Targets are known by number and kept in a map of the session instead of being the callers' structures, and a frame is a
  pool generation and an index instead of a counted reference; aliasing between targets is not modelled beyond that.
- The destructor of the session, the choice of the CAPTURE format and of the visible rectangle, and the cold-start timeout.
- The progress counter that re-arms the bound in wait(): the bound is an arbitrary number of rounds.
- The device's rule that a stopped stream is started again only after all OUTPUT buffers are back.
- Lockstep with OUTPUT errors, with firmware error markers or after a misplaced picture: it is not claimed by the code.
- The elements of a slice header after the list modification (prediction weights, filters, entry points) are opaque bits
  that are copied. Parsing them is not part of this model.
- Separate colour planes: the translator rejects such streams before a slice is rewritten (src/codec/hevc.cc:359).
- VPS, SPS and PPS printing beyond the fields that the slice header depends on; std::sort is modelled as insertion sort.
- BitReader.Ue for thirty-two zeros: the shift by 32 is undefined in C++ and is taken to give zero.
- The 32-bit arithmetic of tile_log2, of relative_dist and of plane layouts is modelled without wrap-around; geometry
  and hints are assumed small enough for it, as StableLayout requires.
- The AV1 uncompressed header around tile information, motion and skip mode; a temporal unit is represented by
  everything it is built from, and whether the writer rejects it is arbitrary.
- Non-uniform AV1 tile sizes, H.264, VP9, the VA object tables and entry points.
- Av1HoldBack.AV1.Translate: promises nothing about a stream after a rejected picture or after a flush, because the
  property is about error-free runs that a flush ends.
- SessionService.Session.ConfigureCapture: does not cover a kernel error after the buffers have been granted (in exporting,
  queueing or starting them), which leaves a pool behind in Configured; such calls are assumed to succeed.
- Av1Motion.WriteParam: does not cover parameters whose shifted value the syntax cannot carry, nor saved parameters that
  no frame can have; the source writes them unchecked.
- Av1HoldBack.WriteGlobalMotion: does not cover warps that no decoder can end up with, which VA cannot report; what the
  source writes for a parameter off the grid of the syntax is in Av1Motion.ParamRoundTrip.
- Copy: does not model the GPU engine, because its result is not specified by this repository.
