# Verification of the playback core

A Dafny model of the parts of this player that transform streams of bytes and samples under arbitrary chunking, and
of the protocols between its threads. `dafny verify dfyconfig.toml` checks all of it. Each part has a simple
specification, the code's fast or incremental form beside it, and a proof that the two agree on every input and run.

| files | part |
|---|---|
| `complex`, `polynomials`, `bits`, `fft`, `fft_inplace` | the in-place FFT against the discrete Fourier transform |
| `convolution`, `spectra`, `fir_engine`, `fir_stream`, `fir_response` | the partitioned FIR engine against direct convolution |
| `limiter` | the lookahead limiter |
| `options`, `chain_swap`, `chain_documents` | ownership of DSP chains between threads, and which one is heard |
| `bytes`, `dsd2pcm`, `dsd2pcm_bits`, `dsd2pcm_translate` | the table-driven DSD filter against the 96-tap FIR |
| `ogg`, `ogg_scanner`, `ogg_pages`, `ogg_streams`, `ogg_delivery` | the resumable Ogg page scanner and the metadata slot |
| `ogg_wrap`, `ogg_ring`, `ogg_ring_pages` | the scanner over the stream buffer, which divides what it receives at its end |
| `sockets`, `icy`, `icy_delivery`, `framing` | metadata splitting and packet framing over arbitrary `recv` results |
| `playback`, `playback_passes` | the controller and the decode thread |
| `ring_buffer`, `buffer` | the ring buffer as a FIFO, and its in-place rotation |
| `machine`, `scheduler`, `scheduler_safety`, `scheduler_runs`, `scheduler_terms`, `scheduler_heard`, `scheduler_timeline`, `scheduler_delays`, `scheduler_choices`, `output` | `_output_frames` |
| `samples`, `words`, `pack`, `crossfade` | gain, sample packing and crossfade |
| `dop` | DSD over PCM markers |
| `chunk_table`, `alac_blocks`, `alac` | the MP4 chunk table and the walk over its blocks |
| `config_files`, `config_disk` | saving and rolling back the DSP configuration |

Samples and coefficients of the DSP parts are exact reals. All that is asked of the twiddle factors is root(2) = -1 and
root(2m)^2 = root(m) for powers of two; that they lie on the unit circle, so that conjugates invert them, is proved from
that. Elsewhere integers are unbounded, and wrap-around, truncation and shifts are written out where the code relies on
them.

## Where the code does less than one might expect

Each of these is proved with a concrete input or run, and with the exact condition under which the code does it.

- The limiter's lookahead alone does not keep the output under the ceiling (`Limiter.LoneAttackOvershoots`,
  `Limiter.WithinCeilingIff`).
- A failed stream start can discard a newer configuration for an older one (`ChainSwap.NewerDocumentLost`,
  `ChainSwap.PutBackKeepsNewestIff`).
- A stray 'O' in front of an Ogg page hides it from the search (`OggPages.JunkCanHideAPage`, `OggPages.PatternFoundIff`).
- An Ogg page that begins in the last three bytes of the stream buffer is not read: the step back of the next call goes
  to bytes that are not part of the buffer (`OggRingPages.HeaderCut`, `OggRingPages.RingPagesAreFramed`, `OggWrap.FaithfulIff`).
- Metadata has one slot: an ICY block or an Ogg header can be overwritten before the controller takes it
  (`IcyDelivery.BlockLost`, `IcyDelivery.EveryBlockTakenIff`, `OggDelivery.HeaderLost`, `OggDelivery.HeaderTakenIff`).
- A track marked, or a stream started, while an earlier track still waits for its start makes the earlier one play at
  the wrong rate, format or gain (`SchedulerTerms.LostMark`, `SchedulerTerms.OwnTermsIffCalm`).
- Command 'f' between the two halves of a delay leaves the delay half done, and the next track that needs one gets no
  first half (`SchedulerDelays.LostHalf`, `SchedulerDelays.FlushedDelayIff`).
- The silence before a timed start reaches past it when less than a frame is left (`SchedulerChoices.StartOvershoots`,
  `SchedulerChoices.SilenceUntilStart`).
- Silence of a pause that the device refuses is not made up for (`SchedulerTimeline.PauseCutShort`,
  `SchedulerTimeline.PauseKeptIff`).
- `_buf_unwrap` can leave writep at the wrap, and draining that buffer makes it look full (`Buffer.DrainedLooksFull`);
  its scratch branch needs twice the gap before readp (`Buffer.UnwrapRefused`, `Buffer.Buffer.Unwrap`).
- A crossfade whose incoming stretch passes the wrap continues from the wrong place (`Crossfade.Misaligned`,
  `Crossfade.AlignedIff`).
- The first ALAC block can be read from the wrong place when the skip to it is put off (`AlacBlocks.FirstBlockMisread`,
  `AlacBlocks.FirstBlock`).
- An interrupted save can lose the only valid configuration if that was the backup (`ConfigFiles.SaveLosesBackup`,
  `ConfigFiles.SaveSurvivesIff`), and a rollback does not check the backup it installs
  (`ConfigFiles.RollbackToBadBackup`, `ConfigFiles.RollbackSurvivesIff`).

## Model

| member | source | states |
|---|---|---|
| Bits.RevNext | dsp.c:94 | The carry loop that runs from the top bit down turns the reversal of i into the reversal of i + 1. |
| Bits.RevInvolution | dsp.c:94 | Reversing the bits twice is the identity, so exchanging i with its reversal is a permutation. |
| FftInPlace.NextReversed | dsp.c:94 | The loop over `bit` leaves j equal to the bit reversal of i. |
| FftInPlace.BitReversedAt | dsp.c:94 | The recursive even/odd reordering is the bit-reversing permutation: entry k is x[reversed k]. |
| FftInPlace.BitReverse | dsp.c:94 | The first loop, exchanging pairs in place, leaves the array in bit-reversed order. |
| FftInPlace.ButterflyBlock | dsp.c:94 | The innermost loop, with its running twiddle power, does one butterfly on one block and leaves the rest alone. |
| FftInPlace.ButterflyPass | dsp.c:94 | The middle loop does one butterfly on every block of the stage. |
| Fft.PassAdvances | dsp.c:94 | Each pass takes the array from one stage, transforms of strided subsequences, to the next. |
| Fft.HalfTurn | dsp.c:94 | From root(2) = -1 and root(2m)^2 = root(m) alone, the half-length power of every twiddle factor is -1. |
| Fft.StagedIsPoly | dsp.c:94 | Bin k of the last stage is the polynomial with the input as coefficients at the k-th power of the root. |
| Fft.StagedIsDft | dsp.c:94 | The last stage is the n-point discrete Fourier transform, for every power of two n. |
| Fft.RootsCancel | dsp.c:94 | The powers of a non-trivial n-th root of unity add up to zero. |
| Fft.CoefficientWeight | dsp.c:94 | Coefficient o contributes to coefficient j of the transform taken back n times itself if o = j, else nothing. |
| Fft.TransformTwice | dsp.c:94 | Forward and then back multiplies every coefficient by the length. |
| Fft.InverseOfForward | dsp.c:94 | The inverse transform, with its division by n, undoes the forward one on every input. |
| FftInPlace.InPlaceFft | dsp.c:94 | `_fft` as written, in place, leaves the discrete Fourier transform of the array or its scaled inverse. |
| Convolution.OverlapAdd | dsp.c:131 | One block of output of a short filter is the head of this block's product plus the tail of the block before. |
| Convolution.PartitionsAddUp | dsp.c:99 | Cutting the taps into partitions, each delayed by its offset, changes no output sample. |
| Convolution.BlocksMakePartitions | dsp.c:131 | Products of blocks with partitions, summed over the partitions, make up the partitioned filter. |
| Convolution.OverlapAddIsConvolution | dsp.c:131 | Overlap-add over enough partitions is the direct FIR, for any tap count, block size and signal. |
| Convolution.ConvolutionTheorem | dsp.c:131 | Multiplying two polynomials convolves their coefficients when there is room for the tail. |
| Convolution.ImpulseResponse | dsp.c:130-131 | The direct FIR brings out its taps, one after another, for a unit impulse. |
| Spectra.AccumulatedInverse | dsp.c:131 | The inverse transform of the accumulated products of spectra is the sum of the block products in time. |
| FirEngine.SlotIsModulo | dsp.c:131 | The ring index (head + count - p) mod count is the slot of the block p blocks ago. |
| FirEngine.SlotAges | dsp.c:131 | Advancing the head makes every kept block one older and frees the oldest slot. |
| FirEngine.TransformPartitions | dsp.c:99 | The partition loop of `_prepare_fir`: partition p is the transform of taps pP to pP + P - 1, padded with zeros. |
| FirEngine.Lane.constructor | dsp.c:99 | The engine starts as if it had seen no sample. |
| FirEngine.Lane.LoadSpectrum | dsp.c:131 | The new block is padded and transformed into its slot of the ring. |
| FirEngine.Lane.Accumulate | dsp.c:131 | The double loop over partitions and bins accumulates every spectrum of the ring with its partition. |
| FirEngine.Lane.OverlapAndKeep | dsp.c:131 | The first half plus the kept tail is played, and the second half becomes the tail. |
| FirEngine.Lane.ConvolveBlock | dsp.c:131 | After the new block, slot p behind the head holds the transform of the block p blocks ago, and the work array all block products. |
| FirEngine.Lane.ProcessBlock | dsp.c:131 | A full block keeps the ring, the tail and the output block equal to what the whole signal so far demands. |
| FirEngine.PlayedAndKept | dsp.c:131 | The played sample is the direct FIR delayed by P, and the kept tail is the rest of the block's product. |
| FirStream.Engine.Sample | dsp.c:130 | A sample goes in and the output for P frames ago comes out; the other channel is untouched. |
| FirStream.Engine.Advance | dsp.c:131 | The frame is counted, and a full block is processed in both channels. |
| FirStream.Engine.Run | dsp.c:130-131 | For every stream of stereo frames output n is zero for n < P and else the direct convolution at n - P, in both channels. |
| FirStream.Engine.Flush | dsp.c:141 | A flush makes the engine forget every sample, whatever its position in a block or in the ring. |
| FirResponse.ResponseAtBin | dsp.c:73-91 | Adding the stored partitions of bin k with the sign (-1)^(kp) gives the transfer function of all taps at that bin. |
| Limiter.GainRange | dsp.c:137 | The gain stays in (0, 1] and is never above the current target. |
| Limiter.DelayedAndShrunk | dsp.c:137 | A sample leaves `size` frames after it entered, silence before; on its own side of zero, no larger than it entered, and exactly as it entered when no peak so far passed the ceiling. |
| Limiter.Recovery | dsp.c:137 | In k frames the gain recovers at most the k-th power of 1 - release of its distance from 1, exactly that when nothing is loud. |
| Limiter.LoudSampleBound | dsp.c:137 | A sample over the ceiling leaves with magnitude at most |x| - (1-release)^size * (|x| - ceiling). |
| Limiter.BoundIsExact | dsp.c:137 | A lone attack in a quiet passage leaves with exactly that magnitude. |
| Limiter.ResidueOvershoots | dsp.c:137 | That magnitude is above the ceiling exactly when the sample was: lookahead alone does not keep the output under it. |
| Limiter.LoneAttackOvershoots | dsp.c:137 | A stream with ceiling one half that leaves at 511/512. |
| Limiter.GainIsLeastMean | dsp.c:137 | The gain is the least of the release-weighted averages of the targets of the stretches that end with the current frame. |
| Limiter.WithinCeilingIff | dsp.c:137 | For any sample and any peaks, a sample leaves within the ceiling exactly when one of those averages is small enough for it. |
| Limiter.GainFloor | dsp.c:137 | The gain never falls below the target of the largest peak seen. |
| Limiter.LoudestSampleIff | dsp.c:137 | The loudest sample so far leaves within the ceiling exactly when the peak is that high again as it leaves. |
| Limiter.Line.constructor | dsp.c:101 | The delay lines start silent and the gain at 1. |
| Limiter.Line.Limit | dsp.c:137 | One frame through the limiter: the sample of exactly `size` frames ago comes out at the gain of this frame, in both channels. |
| Limiter.Line.Flush | dsp.c:141 | A flush makes the limiter forget every sample and every peak. |
| ChainSwap.StepKeepsInv | dsp.c:116-141 | Every step of any thread keeps exact ownership: each live chain has one owner, and nothing refers to a freed one. |
| ChainSwap.RunKeepsInv | dsp.c:116-141 | So does every run. |
| ChainSwap.EveryInterleaving | dsp.c:116-141 | In every interleaving no chain is freed twice or used after it was freed, an active stream has a current chain, and shutdown frees them all. |
| ChainSwap.FaultIsSeen | dsp.c:116 | A second free, and a use after one, raise the flag that no run raises. |
| ChainSwap.NobodyWaits | dsp.c:116-140 | Until shutdown each thread can take its next step, whatever the other is at. |
| ChainDocuments.StepPlays | dsp.c:128-138 | A step begins to play the document that a starting stream or a block took, newer than the one before, or leaves the one playing. |
| ChainDocuments.NewestIsHeard | dsp.c:116-140 | In every interleaving the documents that begin to be played get newer and newer, and until shutdown the one playing is the one begun last. |
| ChainDocuments.FromTheStart | dsp.c:116-140 | So it is for every run from the start. |
| ChainDocuments.BlockPlays | dsp.c:138-140 | A block that finds a published chain, whatever the watcher does meanwhile: if it can be prepared it is current, and the one before retires for 256 frames and is then freed; if not it is freed and the one before goes on. |
| ChainDocuments.TakesForStream | dsp.c:128 | A stream start takes what is in the slot, unless there is no chain at all. |
| ChainDocuments.StreamPlays | dsp.c:128 | A starting stream plays a new chain made from the one it took, or else from the current one, and frees all older ones; if that fails the current chain stays. |
| ChainSwap.StepKeepsOrder | dsp.c:116 | Configurations reach the pending slot in the order they were accepted, except through a put-back. |
| ChainSwap.PutBackKeepsNewestIff | dsp.c:128 | Putting a configuration back after a failed stream start keeps the newest one exactly when the slot is still empty. |
| ChainSwap.NewerDocumentLost | dsp.c:128 | A run in which a document that arrives in between is discarded for the older one. |
| Dsd2Pcm.SignOfReversed | dsd2pcm/dsd2pcm.c:131-135 | Bit m of a byte is bit 7 - m of its entry in the reversal table. |
| Dsd2PcmBits.SamplesOfByte | dsd2pcm/dsd2pcm.c:141 | The samples of a byte, plus or minus one, tell which byte it is, the first sample its most significant bit. |
| Dsd2PcmBits.OneBit | dsd2pcm/dsd2pcm.c:180-223 | Each of the last 96 bits weighs twice the coefficient its distance from the middle of the window says. |
| Dsd2Pcm.TableIsDot | dsd2pcm/dsd2pcm.c:136-146 | A table entry is the dot product of eight taps with the eight bits of its index. |
| Dsd2Pcm.NewerShare | dsd2pcm/dsd2pcm.c:214-218 | For the newer six bytes a lookup is the byte's share of the 96-tap filter. |
| Dsd2Pcm.OlderShare | dsd2pcm/dsd2pcm.c:214-218 | For the older six the same table on the reversed byte is, because the filter is symmetric. |
| Dsd2Pcm.LookupsAreDirect | dsd2pcm/dsd2pcm.c:213-219 | Twelve lookups are the direct 96-tap symmetric FIR over the last twelve bytes as bits of plus and minus one. |
| Dsd2PcmTranslate.Tables.CarryReversed | dsd2pcm/dsd2pcm.c:133 | The toggling carry loop increments a bit-reversed counter. |
| Dsd2PcmTranslate.Tables.FillReversed | dsd2pcm/dsd2pcm.c:131-135 | The reversal table holds the reversal of every byte. |
| Dsd2PcmTranslate.Tables.FillTables | dsd2pcm/dsd2pcm.c:136-146 | Every entry of the six tables is the sum of its eight products. |
| Dsd2PcmTranslate.StoredStep | dsd2pcm/dsd2pcm.c:208-212 | A new byte ages the others; bytes of age six and more are stored reversed, and each was reversed exactly once. |
| Dsd2PcmTranslate.StoredAtReset | dsd2pcm/dsd2pcm.c:180-185 | After a reset the FIFO is that of a stream preceded by 0x96 bytes and then six bytes 0x69. |
| Dsd2PcmTranslate.Context.Step | dsd2pcm/dsd2pcm.c:207-221 | One byte gives the direct filter over the last twelve bytes of the whole history, in either bit order. |
| Dsd2PcmTranslate.Context.Translate | dsd2pcm/dsd2pcm.c:193-223 | A call filters the source bytes, first bit first, or last bit first where lsbf is set: the history gains their bits in that order, and the outputs are the direct filter; the rest of the destination is untouched. |
| Dsd2PcmTranslate.NormalBits | dsd2pcm/dsd2pcm.c:208-209 | In the history the first bit in time is the most significant bit of the byte, or the least significant where lsbf is set. |
| Dsd2PcmTranslate.OutputFromBits | dsd2pcm/dsd2pcm.c:180-223 | Output n is the 96-tap filter on the last 96 bits up to source byte n. |
| Dsd2PcmTranslate.OutputsInChunks | dsd2pcm/dsd2pcm.c:193-223 | Splitting a stream between calls changes no sample. |
| Dsd2PcmTranslate.ConvertInTwoCalls | dsd2pcm/dsd2pcm.c:126-223 | With the filter's own taps, a stream through a fresh context, cut anywhere between two calls, is the 96-tap filter on its bits in their order, after the pre-history. |
| Ogg.FeedInChunks | stream.c:313-464 | The byte-at-a-time machine the scanner is measured against does not depend on how the stream is cut; how far a call follows it is OggWrap.FaithfulIff. |
| Ogg.FeedCopies | stream.c:320-325 | Copying into the buffer of a phase in one go is copying byte by byte. |
| Ogg.FeedSkips | stream.c:330-331 | Jumping over a body in one go is skipping it byte by byte. |
| Ogg.StepBack | stream.c:334-340 | Going back to the start of a recognised pattern that is still there and copying it into the header is what recognising it byte by byte does. |
| OggScanner.MemFind | stream.c:302-307 | Whatever part of the pattern was recognised before these bytes and wherever that lies, the search stops at the pattern, or remembers how much of it ends the data. |
| OggScanner.Scanner.Turn | stream.c:317-463 | A turn of the loop, a step back below the new bytes included, keeps the result of the call, and (bytes left + matched, rank of the phase) decreases. |
| OggScanner.Scanner.OnSegments | stream.c:358-393 | The lacing values give the page size, and the serial number and granule decide whether the page is followed. |
| OggScanner.Scanner.StreamOgg | stream.c:313-464 | With any bytes below the new ones in memory, the loop terminates and leaves the state of feeding the new bytes one at a time, except that a pattern begun before them is taken back and copied from what lies there. |
| OggWrap.FaithfulIff | stream.c:334-340 | For all states and bytes: a call is where the byte machine is after each of its bytes exactly when it completes no pattern begun before it, or what lies below its bytes is that beginning. |
| OggWrap.HeaderMissed | stream.c:334-357 | Otherwise the header is dropped and the search goes on behind it, where the byte machine goes on to the lacing values. |
| OggWrap.PageMissed | stream.c:334-357 | A whole page without an 'O' behind its header leaves no trace then. |
| OggRing.HoldsStep | stream.c:739-759 | After every call, in the buffer, as far as it goes down from writep, lies the recognised part of the pattern. |
| OggRing.InStepIff | stream.c:739-759 | Over any run of calls in a buffer of any size, the scanner is where the byte machine is after every byte exactly when no call completes a pattern that began in front of the buffer's end, except by luck with the bytes below the buffer. |
| OggRing.InStepEnds | stream.c:739-759 | And then the run leaves what the byte machine makes of all that was received. |
| OggRing.SeveredCall | stream.c:334-340 | One call is divided from its pattern exactly when the last byte of a pattern falls in the first three places of the buffer. |
| OggRing.UndividedIff | stream.c:739-759 | So whether a run is in step does not depend on how it was received, only on where the patterns of the stream fall. |
| OggRingPages.SeveredIffCut | stream.c:313-464 | In a stream of pages only where the pages begin counts, whatever their bodies contain. |
| OggRingPages.RingPagesAreFramed | stream.c:313-464 | However a stream of pages is received in the ring, it is reported page by page if no page begins in the last three places of the buffer; that is also necessary to be in step, unless the bytes below the buffer happen to fit. |
| OggRingPages.CutPageIsLost | stream.c:739-759 | A page that does begin there and has no 'O' behind its header is lost whole. |
| OggRingPages.HeaderCut | stream.c:739-759 | A run of two calls in which the only header of a stream is lost so. |
| OggPages.PageBytes | stream.c:328-456 | From a page boundary, one page is captured or skipped as a whole, and the scanner is at a page boundary again. |
| OggPages.PagesAreFramed | stream.c:313-464 | On any sequence of well-formed pages the byte machine reads every header at a page boundary, also when bodies contain the pattern; for the buffer see OggRingPages.RingPagesAreFramed. |
| OggStreams.LacingAddsUp | stream.c:365-366 | The lacing values of a packet of n bytes add up to n. |
| OggStreams.FieldsRead | stream.c:372-377 | The scanner reads flags, granule position and serial number where RFC 3533 puts them. |
| OggStreams.OnePage | stream.c:371-393 | Every case of a page: which are captured, which skipped, and when a stream begins or ends to be followed. |
| OggStreams.BeforeTheStream | stream.c:371-384 | With no stream followed, pages that start none are skipped, and nothing else changes. |
| OggStreams.WithinTheStream | stream.c:371-456 | While a stream is followed its header pages are captured in order, parsed one after another, and pages of other streams in between are skipped. |
| OggStreams.HeadersAreFound | stream.c:371-456 | Whatever comes before, whatever is interleaved: from the first page of a stream on its header pages are captured until a parse finishes; then the metadata is in the slot and no stream is followed. |
| OggStreams.StreamIsLetGo | stream.c:376-384 | A page of the stream with any other granule position ends the following: it and all later pages are skipped until one starts a stream. |
| OggPages.PatternFoundIff | stream.c:302-307 | Between pages the pattern is recognised exactly when nothing was half recognised before it. |
| OggPages.JunkCanHideAPage | stream.c:305 | One stray 'O' in front of a page makes the search miss it. |
| OggPages.JunkIsHarmless | stream.c:302-307 | Junk without an 'O' does not. |
| OggScanner.Scanner.Take | slimproto.c:690-695 | The controller's pass copies what the slot holds if the flag is up, and lowers the flag. |
| OggDelivery.FeedAllIsLater | stream.c:420-449 | Scanning only adds headers, and each raises the flag; without one, flag and intact slot stay as they are. |
| OggDelivery.HeaderTakenIff | stream.c:420-449 | With controller passes anywhere between calls, a header is taken whole exactly when one falls after it is completed and before the slot is written again. |
| OggDelivery.ActKeepsSlot | stream.c:420-449 | A slot that was not written since holds the header completed last. |
| OggDelivery.TakenOnce | slimproto.c:690-695 | Headers are taken in order, and none is taken twice. |
| OggDelivery.HeaderLost | stream.c:420-446 | A run of two pages in which the first header is never taken. |
| Icy.FeedInChunks | stream.c:684-767 | The splitter does not depend on how the stream is cut. |
| Icy.Splitter.Pass | stream.c:684-767 | One pass, whatever recv returns and whatever space there is, does to the state what the bytes it took do one by one. |
| Icy.SegmentIsSplit | stream.c:684-767 | One interval of audio and one metadata block are split into just those. |
| Icy.SplitUndoesMux | stream.c:684-767 | All the audio is appended in order, and every non-empty block completed once and in order. |
| Icy.PositionIsKnown | stream.c:701-703 | meta_next and meta_left locate the position after any number of bytes of an interval. |
| Icy.Splitter.Take | slimproto.c:690-695 | The controller's pass copies what the slot holds if the flag is up, and lowers the flag. |
| IcyDelivery.AfterIsFeedAll | stream.c:684-767 | Between two passes of the controller the stream is split as without it. |
| IcyDelivery.InBlock | stream.c:706-720 | While a block comes in, only fragments of it can be taken. |
| IcyDelivery.InAudio | stream.c:734-767 | While audio comes in the slot keeps the block, and the first take gets it. |
| IcyDelivery.EveryBlockTakenIff | stream.c:701-732 | Of any stream, with controller passes anywhere, a block is taken whole exactly when one falls between its last byte and the next length byte. |
| IcyDelivery.BlocksCaught | slimproto.c:690-695 | A controller that takes only between blocks gets exactly the blocks it is in time for, in order. |
| IcyDelivery.BlockLost | stream.c:701-702 | A run in which a block is overwritten before it is taken. |
| Framing.FeedInChunks | slimproto.c:588-627 | The framing does not depend on how the stream is cut. |
| Framing.Reader.OnRead | slimproto.c:588-627 | One read, whatever recv returns, does to the state what the bytes it took do one by one, within the buffer. |
| Framing.PacketIsFramed | slimproto.c:598-603 | A packet of 4 to 4096 bytes is dispatched as a whole, and the loop ends after it exactly when it names another server. |
| Framing.ServedIff | slimproto.c:583 | All packets are served exactly when none but the last names another server. |
| Framing.ServerNamed | slimproto.c:500-510 | The address in a 'serv' packet tells whether the loop ends: all but 0.0.0.0 do, and 0.0.0.1 if the network server's name can be looked up. |
| Framing.PacketsAreFramed | slimproto.c:583-627 | Exactly the packets sent are dispatched, in order, up to and with the first that names another server. |
| Framing.ConnectionIsServed | slimproto.c:583-627 | So it is from the beginning of a connection, for packets of 4 to 4096 bytes. |
| Framing.BadLength | slimproto.c:621-624 | A length outside 4 to 4096 ends the connection, and nothing after it is dispatched. |
| Playback.SinceMeans | slimproto.c:698-771 | The bookkeeping of the promises: an event is outstanding exactly when it is in the log after the last marker. |
| Playback.DecodeKeepsInv | slimproto.c:698-721 | The part of a controller pass under the decode mutex keeps the promises. |
| Playback.OutputKeepsInv | slimproto.c:723-776 | So does the part under the output mutex. |
| Playback.OpenKeepsInv | decode.c:280-318 | Opening a codec makes one more start possible, and no more. |
| Playback.StepKeepsInv | slimproto.c:344-428 | Every step of the controller, the decode thread and the other threads keeps the promises. |
| Playback.EveryInterleaving | slimproto.c:672-780 | In every interleaving each codec_open is followed by at most one start and one of STMd and STMn, only after a start, STMd only if decoding completed and STMn only if it failed; STMl, STMu and STMo go out at most once per stream. |
| PlaybackPasses.DecodeReports | slimproto.c:698-721 | Exactly when a pass starts decoding, with STMl or with the output, and reports its end, and as what. |
| PlaybackPasses.OutputReports | slimproto.c:749-771 | Exactly when it sends STMu and STMo, and when it wakes the output. |
| PlaybackPasses.CommandS | slimproto.c:344-396 | Command 's' as a whole: what it opens and begins, and when it does nothing. |
| PlaybackPasses.WaitsForCont | slimproto.c:702-711 | A stream that is to wait for 'cont' is not decoded before, whatever else happens. |
| PlaybackPasses.ContOnce | slimproto.c:403-420 | 'cont' releases a stream that waits for it, and no other. |
| PlaybackPasses.ContReleases | slimproto.c:403-420 | After it the next pass starts a ready decoder. |
| PlaybackPasses.FlushedStaysStopped | decode.c:248-256 | After a flush no decoder is started before a codec is opened. |
| PlaybackPasses.TrackStarts | slimproto.c:344-771 | A run from command 's' to the start of decoding and of the output. |
| PlaybackPasses.TrackEnds | slimproto.c:690-771 | A run from there to the end, in which STMd and then STMu are sent. |
| RingBuffer.MoveUnwrapped | buffer.c:112-117 | Moving an unwrapped buffer keeps every byte in order. |
| RingBuffer.MoveWrapped | buffer.c:124-130 | So do the three copies for a wrapped buffer with room. |
| RingBuffer.MoveWhole | buffer.c:124-131 | So do the two copies when the tail fits behind the head. |
| RingBuffer.MoveWithScratch | buffer.c:135-146 | So do the five copies through the scratch zone, when twice the gap fits before readp. |
| Buffer.Buffer.constructor | buffer.c:153-166 | A buffer starts empty, and of no size if asked for less than two bytes. |
| Buffer.Buffer.BufUsed | buffer.c:33-35 | The bytes in use are those of the FIFO. |
| Buffer.Buffer.BufContRead | buffer.c:41-43 | What can be read in one piece is a prefix of the FIFO and lies at readp. |
| Buffer.Buffer.Append | buffer.c:45-57 | Bytes written at writep and counted join the end of the FIFO. |
| Buffer.Buffer.IncReadp | buffer.c:49-52 | It goes round by any count; bytes that are there leave the front of the FIFO, except when a buffer whose writep stands at the wrap is drained. |
| Buffer.Buffer.Flush | buffer.c:59-64 | A flush empties it. |
| Buffer.Buffer.MoveDirectly | buffer.c:124-133 | The branch with free room keeps the FIFO and moves readp back by the gap. |
| Buffer.Buffer.MoveByScratch | buffer.c:135-146 | The scratch branch does too. |
| Buffer.Buffer.Unwrap | buffer.c:103-151 | The FIFO is kept and `cont` bytes, or all there are, lie in one piece; it fails exactly when a wrapped buffer's moved head overlaps the tail and the last copy would have negative length, never with twice the gap before readp. |
| Buffer.UnwrapByScratch | buffer.c:135-146 | A run through the scratch branch: three bytes before the wrap become five in one piece. |
| Buffer.UnwrapRefused | buffer.c:143 | A run in which the move cannot be done, a copy having a negative length. |
| Buffer.DrainedLooksFull | buffer.c:131 | A run: five bytes are held, unwrapped and all read, and the buffer of size 8 then reports eight. |
| Buffer.Buffer.Adjust | buffer.c:67-82 | The size becomes the largest multiple of the unit, or the whole allocation if that is none, and the buffer is empty. |
| Buffer.Buffer.IncReadpUnits | buffer.c:67-82 | Reading whole units keeps the reader on a unit boundary ... |
| Buffer.Buffer.NoUnitStraddles | buffer.c:66-82 | ... and on a unit boundary no unit straddles the wrap. |
| Scheduler.OfferedFits | output.c:144-193 | Unless the read pointer stands on a track start, each turn of the loop offers at least one frame, and none past the end of the ring or of the track. |
| SchedulerSafety.SilentCall | output.c:144-306 | A silent call writes silence only and changes nothing else. |
| SchedulerSafety.SoundingCall | output.c:144-306 | A playing call hands over the next frames of the ring in order and stops at a track start. |
| SchedulerSafety.CallHandsOverOneTrack | output.c:60-312 | For any write callback: the frames accepted are returned, at most `avail`; all silence, or the next frames of one track at its gains. |
| SchedulerChoices.CallSoundsIff | output.c:81-141 | A call sounds exactly when there are frames, and it runs, has buffered more than the threshold, has paused long enough or has come to its start time; otherwise it is silent. |
| SchedulerChoices.SilenceUntilStart | output.c:121-133 | The silence before a timed start does not reach past it, and leaves less than a frame, exactly when it is not less than a frame away. |
| SchedulerChoices.StartOvershoots | output.c:135-139 | A call that writes a hundred frames with half a frame to go. |
| SchedulerChoices.OfferedIsMost | output.c:143-147 | Each turn offers all that is left, or all up to the end of the ring or the mark. |
| SchedulerChoices.ChannelLevels | output.c:73-76 | Each channel has the gain of its own volume and the replay gain, negated where the output is inverted. |
| SchedulerChoices.ChannelsApart | output.c:73-76 | A channel of volume 0 is silent whatever the other does, and at full volume its samples go out as they are. |
| SchedulerChoices.OtherFormatsUntouched | output.c:194-198 | Frames that are not PCM go out bit for bit, at any volume. |
| SchedulerChoices.CallCounts | output.c:176-187 | The position counts the frames played since the track start, which also notes the time. |
| SchedulerRuns.OutputKeepsDue | output.c:60-312 | What a call plays is exactly what it takes off the frames due, each with the rate, format and gain of its track. |
| SchedulerRuns.MarkedDue | pcm.c:305 | A new mark replaces the one before it, taken or not, and all that is buffered is played with the current setup. |
| SchedulerTerms.EveryFrameOnce | output.c:60-312 | Over any run, with any callbacks, commands, marks and frames, every frame that is not dropped is played once and in order. |
| SchedulerTerms.FreshIsComplete | output.c:60-312 | Every state of the output is one a run can start from with all its buffered frames owed. |
| SchedulerHeard.StepHeardIff | output.c:149-189 | After a step all that was heard is on its own terms exactly when it was before and the step plays no frame owed on terms other than the current ones. |
| SchedulerHeard.HeardRightIff | output.c:60-312 | Over a whole run all frames heard were heard on their own terms exactly when every call was in time. |
| SchedulerHeard.WholeRun | output.c:60-312 | From any state and over any run: every frame once and in order; heard right exactly when every call is in time; right at every moment, the buffered frames included, exactly when calm; and calm runs are in time. |
| SchedulerHeard.GainRestored | slimproto.c:384 | The converse fails: a gain set and set back while frames wait is not calm and changes nothing. |
| SchedulerTerms.MarkedOnOwnTerms | slimproto.c:384 | A track that is marked waits with its rate, its format and the gain that command 's' set before the mark. |
| SchedulerTerms.FlushStaysRight | output.c:497-508 | Command 'f' drops the frames behind the mark and leaves the others on their terms. |
| SchedulerTerms.StaysRightIff | output.c:149-189 | A step leaves every frame on the rate, format and gain of its own track exactly when it is undisturbed. |
| SchedulerTerms.OwnTermsIffCalm | output.c:60-312 | Over any run every frame is on the terms of its own track at every moment, exactly when no 's' with another gain and no mark arrives while frames wait behind a mark on terms other than the current, and no frames follow such an 's' without a mark. |
| SchedulerTerms.LostMark | pcm.c:305 | A run in which a frame at 96 kHz is played at 44.1 kHz, its track's mark having been replaced. |
| SchedulerTimeline.StartRest | output.c:150-188 | At the mark the first half of a delay changes nothing still to be heard, and the track start is processed once. |
| SchedulerTimeline.PausedRest | output.c:108-119 | A pause shortens by the silence written. |
| SchedulerTimeline.CallAdvances | output.c:60-312 | With a callback that takes everything, each call emits the next events of the rest and makes progress. |
| SchedulerTimeline.HeardInOrder | output.c:60-312 | However many frames each call asks for, what is heard is the rest in order and then silence, all of it after enough calls. |
| SchedulerTimeline.RateChange | output.c:149-188 | A rate change with delay d: the old track, cur*d/2000 silent frames, the track start once, next*d/2000 silent frames, the new track. |
| SchedulerTimeline.FormatChange | output.c:149-188 | A change of format does the same with the delay for DSD. |
| SchedulerTimeline.Gapless | output.c:149-188 | Tracks of one rate and format follow one another without a frame of silence. |
| SchedulerDelays.StaysHalfwayIff | output.c:163-176 | A step leaves delay_active up only between the halves of a delay exactly when it is no command 'f' between them and no new mark in another place. |
| SchedulerDelays.AlwaysHalfwayIff | output.c:163-176 | Over any run, so do all its steps exactly when none of them falls between the halves of a delay. |
| SchedulerDelays.WholeDelay | output.c:163-176 | And then a track whose mark is still to be reached gets both halves of its delay. |
| SchedulerDelays.FlushedDelayIff | output.c:497-508 | The track marked next after command 'f' has the silence at the old rate in its change exactly when the command did not fall between the halves of a delay. |
| SchedulerDelays.FlagStaysUp | output.c:163-176 | However many tracks without a delay are played, the flag stays as it was. |
| SchedulerDelays.LostHalf | output.c:497-508 | A command 'f' between the halves costs the next track that needs a delay its first half. |
| SchedulerTimeline.SilenceAccepted | output.c:290-300 | A silent call leaves nothing over exactly when the callback refuses none of its pieces. |
| SchedulerTimeline.PauseKeptIff | output.c:113-118 | A pause is counted down before the write, so it keeps its length exactly when the callback takes all that it is going to be offered. |
| SchedulerTimeline.PauseCutShort | output.c:113-118 | A pause of 100 frames of which 50 are over without a frame of silence. |
| Output.Output.Choose | output.c:77-142 | The state selection as it runs. |
| Output.Output.StartOfTrack | output.c:150-188 | The processing of a track mark as it runs: one half of the delay at a time. |
| Output.Output.WriteOnce | output.c:144-306 | One turn of the write loop as it runs. |
| Output.Output.OutputFrames | output.c:60-312 | `_output_frames` as it runs leaves the state, hands over the frames and returns the number of the scheduler's function. |
| Samples.GainSaturates | output_pack.c:33-38 | The 48-bit clamp before the shift is the 32-bit clamp of the shifted product. |
| Samples.UnityGain | output_pack.c:33-38 | A gain leaves every 32-bit sample alone exactly when it is FIXED_ONE, the clamped product included. |
| Samples.GainIsMonotone | output_pack.c:33-38 | A gain that is not negative keeps the order of samples, through saturation too. |
| Pack.MixDown | output_pack.c:48-71 | The mono copies in place: both channels become the average, the right or the left one. |
| Pack.MonoFrames | output_pack.c:47-71 | Mono carries the channel asked for, or the mean of both, in both channels. |
| Pack.TwoFrames | output_pack.c:254-256 | The three words written for two frames are bytes 1 to 3 of the four samples in order. |
| Pack.PutTwoFrames | output_pack.c:248-267 | The two-frame word path writes the bytes the byte path writes twice. |
| Pack.PutFrame | output_pack.c:269-277 | The byte path writes bytes 1 to 3 of both samples. |
| Pack.PackedAt | output_pack.c:167-357 | Frame i of the output comes from frame i of the input and from no other. |
| Pack.UnpackedSample | output_pack.c:167-357 | Putting a packed sample's bytes together again gives its most significant bits. |
| Pack.UnpackedAt | output_pack.c:167-357 | A device reading the output gets, for every frame, the left sample at the left gain and then the right one at the right gain. |
| Pack.PackS16 | output_pack.c:167-181 | S16_LE at any gain, the unity branch included: bytes 2 and 3 of each gained sample. |
| Pack.PackS24 | output_pack.c:203-217 | S24_LE: bytes 1 to 3 of each gained sample and its sign. |
| Pack.PackS243Unity | output_pack.c:241-279 | S24_3LE at unity gain, for any frame count and alignment, is the general form with gain one. |
| Pack.PackS243Gained | output_pack.c:280-316 | S24_3LE at any gain: bytes 1 to 3 of each gained sample in order. |
| Pack.PackS32 | output_pack.c:319-330 | S32_LE: the four bytes of each gained sample. |
| Pack.ScaleAndPack | output_pack.c:46-361 | The whole function: mono copies, then the packed form of the gained samples, and no other byte changed. |
| Crossfade.ApplyCross | output_pack.c:366-383 | The mixing loop in place, in the ring, with the wrapping cross pointer. |
| Crossfade.CrossedInParts | output_pack.c:366-383 | Calls that carry the cross pointer on mix what one long call would. |
| Crossfade.CrossedAt | output_pack.c:366-383 | While the two stretches stay apart each sample is the saturated mix of the two originals, and the rest is untouched. |
| Crossfade.EndsOfFade | output_pack.c:366-383 | At the ends of a fade one track is heard alone, as it is. |
| Crossfade.MixIsSum | output_pack.c:366-383 | In between, the sum of the two gained samples, cut off at the ends of the range. |
| Crossfade.AlignedIff | output.c:272 | The pointer computed anew for every write is the right place in the ring exactly when it does not pass the wrap. |
| Crossfade.Misaligned | output.c:272 | A place past the wrap that is read from the start of the ring. |
| Dop.IsStreamDop | dop.c:36-60 | True exactly when 32 alternating marker frames come with only marker frames before them. |
| Dop.BadMarker | dop.c:40-50 | A stream with different or invalid marker bytes in one of the first 32 frames is not recognised. |
| Dop.SameMarkers | dop.c:42-48 | Nor is one whose markers do not change. |
| Dop.Phase.UpdateDop | dop.c:64-85 | The markers of a block alternate from where the last call ended, and payloads are kept or complemented. |
| Dop.PhasePersists | dop.c:64-85 | However frames are divided into audio, inverted and silent blocks, frame i leaves with the i-th marker of one alternation. |
| Dop.MarkedWord | dop.c:70-73 | A marked word has the marker on top, the payload bytes kept or complemented, and a zero lowest byte. |
| Dop.PayloadFound | dop.c:64-85 | In either channel the two payload bytes of the channel's own sample are found below the marker, as they are or complemented. |
| Dop.StreamIsDetected | dop.c:36-85 | Any 32 consecutive frames of what is emitted are recognised. |
| Dop.PackedStreamIsDetected | output_pack.c:241-279 | Also after packing to 24 bits at the unity gain the scheduler forces, read at byte 2 of every three. |
| ChunkTable.MoreRuns | alac.c:242-258 | A further run changes nothing before its first chunk. |
| ChunkTable.SamplesOfRun | alac.c:225-266 | Each chunk from a run's first up to the next run's has the samples of the run. |
| ChunkTable.ValidRunsIff | alac.c:225-246 | A table is valid exactly when every run has samples and the first chunks of the runs lie in the track and ascend. |
| ChunkTable.Fill | alac.c:247-256 | A run's chunks are numbered one after another. |
| ChunkTable.BuildTable | alac.c:225-266 | Exactly the valid run-length tables are accepted, and each chunk's entry is the number of samples in all earlier chunks. |
| AlacBlocks.ExpandedTable | alac.c:225-266 | The expanded table of a valid one that starts at chunk 1 is one the decoder can follow. |
| AlacBlocks.DecodeKeepsCourse | alac.c:372-514 | A call keeps the read pointer, up to the skip it owes, on the next block; it fails only if the decoder does. |
| AlacBlocks.StatusIff | alac.c:372-514 | Exactly when a call decodes a block, completes the track or fails, and that it reads no more than is there. |
| AlacBlocks.SkipPutOffIff | alac.c:485-500 | The skip to the next chunk is put off exactly when not all of it is there. |
| AlacBlocks.AllBlocksDecoded | alac.c:372-514 | When every call finds what it needs, all the blocks come out. |
| AlacBlocks.EveryBlockFromItsPlace | alac.c:372-514 | However the data arrives, block k reaches the decoder from its chunk's offset plus the sizes of the chunk's earlier blocks. |
| AlacBlocks.StartsOnCourse | alac.c:269-287 | At the media data the walk starts on course exactly when the first chunk is not behind it. |
| AlacBlocks.FirstBlock | alac.c:275-287 | The block taken by the call that reads the header comes from its place exactly when the skip to it was not put off. |
| AlacBlocks.FirstBlockMisread | alac.c:275-287 | A file in which it does not. |
| Alac.Track.constructor | alac.c:269-287 | The fields as the header leaves them. |
| Alac.Track.DecodeStep | alac.c:372-514 | `alac_decode`'s stepping as it runs: the state and outcome of the function, on course after every call that does not fail. |
| ConfigFiles.SaveSurvives | dsp_config.c:74-82 | A save started with a valid document in place can be interrupted after any step. |
| ConfigFiles.SaveSurvivesIff | dsp_config.c:80 | Once past validation and the removal of the old backup, exactly then. |
| ConfigFiles.SaveLosesBackup | dsp_config.c:80 | With only the backup valid, an interrupted save can leave nothing to start from. |
| ConfigFiles.RollbackSurvives | dsp_config.c:83 | A rollback to a valid backup can be interrupted after any step. |
| ConfigFiles.RollbackSurvivesIff | dsp_config.c:83 | Once the configuration is moved aside, exactly then: the backup is not checked. |
| ConfigFiles.RollbackToBadBackup | dsp_config.c:83 | A rollback that replaces a valid configuration by an invalid backup. |
| ConfigFiles.SaveInstalls | dsp_config.c:74-82 | Success means the new document in place and the old one behind it; failure leaves the old one in place or in the backup. |
| ConfigFiles.SaveSucceedsIff | dsp_config.c:74-82 | A save succeeds exactly when the document can be written and is accepted and the renames succeed. |
| ConfigFiles.SaveCleansUp | dsp_config.c:74-82 | The temporary file is gone after a save, unless it could not be removed. |
| ConfigFiles.SaveUndone | dsp_config.c:80 | When the new document cannot be moved into place the old one is moved back, or left in the backup. |
| ConfigFiles.RollbackInstalls | dsp_config.c:83 | A rollback succeeds exactly when there is a backup and the renames succeed, and then it is in place. |
| ConfigFiles.RollbackUndone | dsp_config.c:83 | When the backup cannot be moved into place the configuration is moved back, or left aside. |
| ConfigFiles.RejectedDocument | dsp_config.c:77-79 | A rejected document never touches the configuration or its backup. |
| ConfigFiles.SaveThenRollback | dsp_config.c:74-83 | A successful save and a successful rollback after it restore the old document. |
| ConfigDisk.Disk.Save | dsp_config.c:74-82 | The save as it runs goes through exactly the states of the function. |
| ConfigDisk.Disk.Rollback | dsp_config.c:83 | So does the rollback. |

## Left out

- Floating-point rounding, the values of sines, powers and exponentials, coefficient resampling, biquads, true-peak
  estimation and the final rounding in `dsp_process`.
- FirStream.Engine.Run: the bypass path of `_fir_sample`, which returns its input, is not modelled.
- FirEngine.Lane.LoadSpectrum: each slot of the spectra is an array of its own, where the code has one allocation per
  channel.
- Limiter.Line.Limit: the peak is an input, as in the code; that the detector's peak is at least the sample is assumed by
  the lemmas that need it.
- ChainSwap.EveryInterleaving: a chain is its identity; what is in it, and the gain ramp's samples, are not modelled.
- Dsd2PcmTranslate.Context.Translate: the destination stride is 1 and the source stride not negative, as in every call in
  dsd.c:491-714, and table entries are not rounded to `float`.
- OggScanner.Scanner.StreamOgg: the search for tags in a captured page (stream.c:394-449) is any function of the page;
  failed allocations and the libogg variant are not modelled.
- OggRing.InStepIff: while Ogg is received, nothing but reception writes to the buffer or moves its write pointer; the
  decoders that rotate or realign it are not those of Ogg streams. What lies in front of the buffer is any three bytes.
- IcyDelivery.EveryBlockTakenIff: HTTP headers, which share the slot before the first block, are not modelled.
- OggDelivery.HeaderTakenIff: the controller's passes fall between calls of `stream_ogg`, which holds the lock, and the
  calls are those of the byte machine, so a page divided by the end of the buffer is not completed in the code.
- Icy.Splitter.Pass: closing the stream when `recv` fails, and HTTP headers, are not modelled; a failed `recv` changes nothing.
- Framing.Reader.OnRead: leaving the loop when `recv` fails or the program is stopped is not modelled either, and whether
  the name of the network server resolves is a parameter.
- Playback.EveryInterleaving: the stream and output threads are any change of their state; STMs, STMc and headers are not counted.
- Buffer.Buffer.Unwrap: `malloc` succeeds (the recursion of buffer.c:147-150 is left out), as is `_buf_resize`, which
  drops the contents.
- SchedulerSafety.CallHandsOverOneTrack: the skip-ahead state (output.c:92-106), fades and crossfades
  (output.c:200-280) are not modelled, the ring is counted in frames, and channel flags do not reach the callback.
- SchedulerTerms.OwnTermsIffCalm: the full flush of command 'q' (output.c:477-495) and the mark moved back by a crossfade
  (output.c:369) are not steps of a run.
- SchedulerTimeline.HeardInOrder: between the calls no server command arrives and the decoder adds nothing.
- Crossfade.AlignedIff: the gains of a crossfade and its start and end are inputs.
- Pack.ScaleAndPack: big-endian hosts and the DSD formats are not modelled; the packing loops read the input as a value.
- Dop.IsStreamDop: the marker bytes of the two channels come as sequences, where the code steps pointers over frames.
- AlacBlocks.EveryBlockFromItsPlace: places in the file are below 4 GiB, a chunk table is present, and resuming a partly
  received header is not modelled.
- ConfigFiles.SaveSurvives: validation is any predicate; JSON and option parsing, path lengths and a directory entry
  that is not durable are not modelled.
- `_apply_gain`, the audio back ends, codec wrappers, discovery, IR, GPIO and logging are not part of this model.
