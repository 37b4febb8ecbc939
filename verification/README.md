# libpg2sdr: verified models

A Dafny model of the parts of libpg2sdr, its SoapySDR module and its firmware
utility whose correctness is decided by code rather than by hardware: the
streaming engine, transfer dispatch and timestamps, the DSP kernels and their
history wrapper, the ADC and tuner PLL searches, register batching, the
configuration state machine and frequency plan, the SoapySDR read queue, the
flash updater and the DFU checksum. C doubles are modelled as real numbers;
integer widths are written out where they matter.

`dafny verify dfyconfig.toml` checks the whole project.

| file | what it models |
|---|---|
| `ActiveList.dfy`, `StreamEngine.dfy` | the protocol between the streaming thread, libusb callbacks and stop requests: what no run ever does |
| `StreamProgress.dfy` | the same protocol: what runs achieve, from starting to draining |
| `StreamDispatch.dfy`, `StreamTimestamps.dfy`, `StreamOrder.dfy`, `StreamWrap.dfy` | cutting transfers into runs, conversion, timestamps over a whole stream, and across the 32-bit wrap |
| `Fixed16.dfy`, `Halfband.dfy`, `HalfbandNeon.dfy`, `HalfbandNeonExact.dfy`, `HalfbandRange.dfy` | the half-band decimator: scalar and vector kernels, when they agree, range, linearity |
| `HalfbandTaps.dfy`, `CreatedFilter.dfy` | checking and quantising taps, and what the resulting filter guarantees the kernels |
| `DspHistory.dfy`, `Cascade.dfy`, `Converter.dfy` | history between calls, cascades of stages, the chain over two work buffers |
| `Unpack.dfy`, `Fs4Mix.dfy`, `BlockPayload.dfy` | unpacking ADC words and the Fs/4 mixer, scalar and vector, and what they make of a run of blocks |
| `AdcPll.dfy`, `AdcOptimal.dfy`, `RatePlan.dfy` | divisor search and its optimality over the hardware's settings, decimation choice, transfer sizes |
| `TunerPll.dfy`, `TunerRegs.dfy` | the synthesiser arithmetic, change sets and payloads |
| `FrequencyPlan.dfy`, `Device.dfy`, `DeviceSettings.dfy` | LO offset, aliasing and inversion; the device's settings and pending flags; what the settings mean for ADC, tuner and filter |
| `ReadQueue.dfy` | the SoapySDR stream's queue |
| `FlashWriter.dfy`, `FlashPlan.dfy`, `DfuCrc.dfy` | the firmware writer, its requests byte by byte, and the image checksum |
| `RealMath.dfy`, `Wrappers.dfy` | shared arithmetic facts and vocabulary |

Where the code keeps state in an object the model is a class, and its methods
are tied to functions about which the theorems are proved. The streaming engine
is a machine of atomic steps, because its subject is interleaving.

## Where the code does less than its comments say

Each of these is a lemma with a witness or an exact condition.

- The streaming loops clear `completion_flag`, run an acquire-release fence and
  then check for work. That fence does not order a store before later loads, so
  the clear may reach memory late and wipe out a callback's wake-up. Wake-ups are
  never lost exactly when the barrier does order them, or the streaming thread handles
  all libusb events itself (`WakeupsKeptIff`).
- Draining takes a transfer for finished as soon as its callback has marked it COMPLETED
  (src/stream.c:464), although the callback then reads it once more (src/stream.c:466).
  When another thread handles the events of the same libusb context, such as a second
  device's, the transfers can be freed in between, barrier or not (`FreedInCallbackRun`).
  They never are exactly when the streaming thread handles all events itself
  (`FreedAfterCallbacksIff`).
- Half-band taps that pass `taps_valid` can trip an assertion in `create`: a single
  tap, or a zero outermost tap where the layout has a nonzero one
  (`TrimAssertionsIff`). A negative centre tap passes too, but then the scaling sum
  is not the sum of magnitudes (`ScaleSumIff`). It may be zero; negative, and then what
  comes out is a pure delay of the opposite polarity or an undefined conversion
  (`NegativeSumIff`); or too small, so that sums overflow 32 bits (`NegativeCentreSumsOverflow`).
- "Scale taps so that the output cannot ever overflow" holds for the default taps, but
  rounding can push other valid taps past the bound (`QuantisedTapsCanOverflow`);
  `CreatedOverflowFreeIff` is the exact condition on the taps a caller passes.
- The vector kernel saturates where the scalar one does not. The two agree on all inputs
  exactly when neither pair of its lanes can leave 32 bits (`KernelsAgreeIff`), which holds
  for every filter created from taps with a positive centre or a negative scaling sum
  (`CreatedFits`, `NegativeSumFits`).
- In low-IF mode the bandpass limits are taken from the LO although the tuned frequency
  sits one undersampling offset away, so from the second zone on the filter is asked for
  the wrong band, even an inverted one (`BandIsWantedIff`, `LowIfBandWitness`).
- Low-IF conversion never undoes the mirroring of even zones (`LandsInLowIf`).
- The planned transfer is empty when a user buffer is smaller than one block, or a block
  larger than 2 MiB (`TransferFits`); src/stream.c:478 then divides by the zero sample count.
- The tuner's feedback integer reaches 269, one more than its 6-bit field can hold,
  exactly within nine modulator steps of the upper limit (`OverflowIff`), and then
  reads back as 13 (`PllRoundTrip`).
- `pg2sdr_set_bandpass_table` forgets the current filter without marking the bandpass
  as pending, so the next apply does nothing and the driver has no filter although
  the chip keeps the old one (`FilterCurrentIff`, `ReplacedTableIsNotApplied`).
- Timestamps are documented as a running count of samples (include/pg2sdr.h:481-491) and
  stored in 64 bits, but computed in 32. They count modulo 2^32 divided by the decimation
  ratio, for every sequence number (`TimestampsCount`), so from one buffer to the next they
  continue exactly while they stay below that (`ContinuesIff`).
- An empty transfer still makes a callback, without samples (`EmptyTransfer`). Short
  transfers are turned into errors (src/stream.c:539), so this needs the empty planned
  transfer just named, such as a buffer of 1 sample at a ratio of 2 with blocks of 1000.
  Its buffer has zero bytes (src/stream.c:518), so the header the timestamp is taken from
  is read outside the allocation.

## Model

| member | source | states |
|---|---|---|
| StreamEngine.StepPreserves | src/stream.c:333-400 | every atomic step of the streaming thread, a callback or a stop request keeps the invariant on list, transfer states, order, mutex and wake-ups, with or without an ordering barrier |
| StreamEngine.ActiveListCorrect | src/stream.c:632-657 | in every interleaving, with callbacks even before the append, the active list has no duplicates, a correct tail, and exactly the non-idle transfers apart from one in mid-submission or mid-removal; libusb owns exactly the busy ones |
| StreamEngine.NoDeadBranch | src/stream.c:340-391 | the list head is never NULL when dereferenced, and the branch for an active transfer in an unexpected state is never reached |
| StreamEngine.DispatchOrder | src/stream.c:378-391 | transfers reach user code in the order libusb accepted them |
| StreamEngine.FreedWhenIdle | src/stream.c:674-710 | when a successful drain leads to freeing, libusb has no transfer in flight, the list is empty and every transfer is idle; a callback may still be running, see FreedAfterCallbacksIff |
| StreamEngine.FreedInCallbackRun | src/stream.c:461-467 | a concrete run, with and without an ordering barrier, frees a transfer while its callback is between its two stores |
| StreamEngine.FreedAfterCallbacksIff | src/stream.c:723-734 | no run, for any number of transfers, frees a transfer under a running callback exactly when callbacks run inside the streaming thread's own waits only; the barrier makes no difference |
| StreamEngine.NoLostWakeup | src/stream.c:340-363 | given an ordering barrier, or callbacks in the thread's own waits only, no reachable state has the streaming or draining thread parked on a clear flag while its transfer has completed or a stop request has finished |
| StreamEngine.UnfencedRun | src/stream.c:37 | without either, a concrete run parks the thread although its only transfer has completed |
| StreamEngine.WakeupsKeptIff | src/stream.c:341-363 | no wake-up is lost in any run, for any number of transfers, exactly when the barrier orders the clear before the checks or the thread handles all events itself |
| StreamProgress.QuietRunStreams | src/stream.c:333-393 | in every run in which nothing fails and nobody asks to stop, callbacks in any interleaving, the thread never starts to drain |
| StreamProgress.Starts | src/stream.c:660-671 | started with n transfers, the thread submits all of them in order within 3n + 1 statements and then streams |
| StreamProgress.Delivers | src/stream.c:340-391 | ten statements after the thread finds its head completed, the head has been handed to user code once and submitted again: it is in flight, last on the active list, and no other transfer has changed |
| StreamProgress.DeliversAny | src/stream.c:333-391 | for every number of transfers, with or without ordering or own events, there are runs that deliver any number of transfers and keep all of them in flight |
| StreamProgress.StopIsObeyed | src/stream.c:433-455 | a stop request made while the thread waits brings it to draining with nothing delivered or submitted in between |
| StreamProgress.StopInCallbackIsObeyed | src/stream.c:433-455 | a stop request from within the user callback lets that transfer be submitted again, and then the thread drains |
| StreamProgress.FailureDrains | src/stream.c:355-393 | a refused submission, a failed wait, a failed transfer or rejected contents lead to draining with nothing more delivered; a refused transfer is idle again |
| StreamProgress.StoppingIsFinal | src/stream.c:344-347 | once draining has begun, or is due before the next delivery, nothing is delivered or submitted any more in any run |
| StreamProgress.DrainEnds | src/stream.c:674-734 | once no transfer is busy, draining ends in freeing within a number of statements given by the transfers and those still listed |
| ActiveList.AppendIsLast | src/stream.c:648-656 | appending through the tail pointer extends the list by one element at the end, also when it was empty |
| ActiveList.PopIsRest | src/stream.c:382-386 | removing the head leaves the rest of the list, with the tail cleared when it becomes empty |
| StreamDispatch.RunsPartition | src/stream.c:599-628 | the runs joined are the transfer's blocks, every run has consecutive 32-bit sequence numbers, and no two neighbouring runs could be joined |
| StreamDispatch.RunConsistent | src/stream.c:200-221 | after any run the partial-sample counter equals what the decimators still hold, the buffer's count is (held + new) / ratio, and it fits the user's buffer if the transfer does |
| StreamDispatch.Dispatcher.DispatchContiguous | src/stream.c:200-226 | one run becomes one callback with the timestamp of its first block, or is dropped without touching converter or counter when no buffer is available |
| StreamDispatch.Dispatcher.DispatchTransfer | src/stream.c:584-629 | succeeds exactly when the transfer is whole blocks with right headers, and then dispatches all runs in order; at a bad header only the runs already closed have been dispatched |
| StreamTimestamps.NextTimestamp | src/stream.c:218-220 | over contiguous blocks the next timestamp is the previous plus the count; after a gap it is never smaller, and larger once a whole output sample is missing |
| StreamWrap.NextModulo | src/stream.c:218-220 | for all sequence numbers, wrapping or not, the next timestamp over contiguous blocks is the previous plus the count, modulo 2^32 divided by the ratio |
| StreamWrap.ContinuesIff | src/stream.c:218 | the timestamps continue without a jump exactly when their sum, times the ratio, stays below 2^32 |
| StreamWrap.TimestampsCount | include/pg2sdr.h:481-491 | in every stream without gaps, of any length and from any first block, each buffer's timestamp is that of the first sample plus the number of samples delivered before, with that modulus |
| StreamWrap.BuffersPerTransfer | src/stream.c:598-628 | a transfer gives one buffer per stretch of consecutive sequence numbers, one if it is empty, and before a bad header one per stretch already closed |
| StreamTimestamps.TimestampsOrdered | src/stream.c:200-226 | over any forward-moving stream with gaps and dropped runs, no buffer starts before the previous one ended |
| StreamOrder.RunsForward | src/stream.c:599-628 | the runs cut from blocks with increasing sequence numbers, gaps included, move forward and end where the blocks end |
| StreamOrder.StreamInOrder | src/stream.c:200-226 | over any list of transfers whose block numbers move forward, with gaps, dropped runs and malformed transfers, no buffer starts before the previous one ended and the partial-sample counter stays what the decimators hold |
| StreamTimestamps.TransferContinuesFold | src/stream.c:599-629 | dispatching transfer after transfer is the same as dispatching all their runs in one go |
| StreamTimestamps.DeliveredIsOneConversion | src/stream.c:106-188 | all samples handed to callbacks, joined, equal one conversion of everything that was not dropped, and their number is that of the ADC samples divided by the ratio |
| StreamTimestamps.EmptyTransfer | src/stream.c:598-628 | a transfer without blocks reaches the callback as a buffer without samples and changes neither converter nor counter |
| Halfband.EvenPlusCentre | dsp/impl/halfband_decimate.generic.c:44-52 | skipping the zero taps loses nothing: even taps plus centre equal the full filter |
| Halfband.ScalarSumFits | dsp/impl/halfband_decimate.generic.c:45-52 | no partial sum of the scalar kernel leaves the 32-bit range for taps whose magnitudes sum below 65536 |
| Halfband.BlockScalar | dsp/impl/halfband_decimate.generic.c:34-58 | the scalar kernel writes every second output of the full FIR filter and nothing else |
| HalfbandNeon.LanesMakeDot | dsp/impl/halfband_decimate.neon.c:56-101 | the sums of every fourth product, from each of the first four taps, are together the full dot product |
| HalfbandNeon.VectorTotal | dsp/impl/halfband_decimate.neon.c:98-101 | saturating adds of the four accumulators and the narrowing add give i and q of the outputs at two neighbouring positions |
| HalfbandNeon.BlockNeon | dsp/impl/halfband_decimate.neon.c:40-129 | for every even count the vector loop writes the saturating-lane outputs, the tail the exact ones, each in its place, from samples the scalar kernel also reads |
| HalfbandNeonExact.KernelsAgreeIff | dsp/impl/halfband_decimate.neon.c:40-129 | the vector and the scalar kernel agree on all inputs exactly when the extreme sums of both lane pairs fit 31 bits |
| HalfbandNeonExact.SaturatesToNearest | dsp/impl/halfband_decimate.neon.c:91-101 | a saturated lane holds the 32-bit value nearest to the exact one |
| HalfbandNeonExact.TapBoundFits | dsp/impl/halfband_decimate.neon.c:91-101 | magnitudes summing to at most 32767 are enough for that |
| HalfbandRange.NearlyLinear | tests/dsp_test.cc:81-130 | each component of a filtered sum differs from the sum of the filtered blocks by 0 or 1 |
| HalfbandRange.ImpulseResponse | tests/dsp_test.cc:14-57 | the response of a block to a single sample is the taps, every second one, scaled by 2^-15, in every output and component |
| HalfbandRange.OverflowFreeIff | tests/dsp_test.cc:132-180 | no input overflows an output exactly when the two full-scale inputs matched to the tap signs do not |
| HalfbandRange.TapBoundPreventsOverflow | dsp/src/dsp.c:128-135 | magnitudes summing to at most 32767 rule out overflow |
| HalfbandTaps.TapsValid | dsp/src/dsp.c:65-87 | accepts exactly the odd-length, symmetric tap sets with zeros at even distances from a nonzero, largest centre; a missing array is refused |
| HalfbandTaps.TrimAssertionsIff | dsp/src/dsp.c:105-115 | for accepted taps the trimming assertions hold exactly when there is more than one tap and no zero outermost tap where a nonzero one is due |
| HalfbandTaps.ValidButTripping | dsp/src/dsp.c:105-114 | two accepted tap sets, one for each way to trip a trimming assertion |
| HalfbandTaps.ScaleSumIff | dsp/src/dsp.c:95-99 | the scaling sum is the sum of all magnitudes exactly when the centre tap is positive |
| HalfbandTaps.NegativeCentreWitness | dsp/src/dsp.c:95-99 | an accepted tap set with a negative centre for which the scaling sum is zero |
| HalfbandTaps.PositiveCentreConverts | dsp/src/dsp.c:128-135 | taps with a positive centre that trip no assertion quantise within 16 bits |
| HalfbandTaps.NegativeSumIff | dsp/src/dsp.c:95-135 | accepted taps with a negative scaling sum can be converted exactly when the centre outweighs 65535 times all other taps together, and then every outer tap becomes 0 and the centre +32767 |
| HalfbandTaps.FlippedWitness | dsp/src/dsp.c:95-135 | accepted taps with centre -1 that trip no assertion quantise to a centre of +32767 |
| HalfbandTaps.Create | dsp/src/dsp.c:90-136 | for all taps whose conversion C defines, negative centres included: the quantised filter is trimmed and padded to the shape both kernels rely on, each tap scaled and truncated |
| HalfbandTaps.CreatedOverflowFreeIff | dsp/src/dsp.c:128-135 | whether any input overflows the created filter, decided by two sums over the quantised input taps |
| HalfbandTaps.CreatedMagnitudes | dsp/src/dsp.c:128-135 | with a positive centre rounding adds at most half of one for every tap to the intended 32767 |
| CreatedFilter.CreatedFits | dsp/src/dsp.c:90-136 | with a positive centre the vector lanes cannot saturate, whatever the taps, and up to 65536 taps the scalar sums fit 32 bits |
| CreatedFilter.NegativeSumFits | dsp/src/dsp.c:90-136 | a filter created from taps with a negative scaling sum fits both kernels too |
| CreatedFilter.NegativeCentreSumsOverflow | dsp/src/dsp.c:95-135 | accepted taps with a negative centre and a positive scaling sum whose filter some input drives out of 32 bits |
| CreatedFilter.CreateDecimator | dsp/src/dsp.c:90-162 | all taps whose conversion C defines give a reset decimator with the quantised filter; with a positive centre (and at most 65536 taps) or a negative scaling sum it suits either kernel |
| HalfbandTaps.CreateDefault | dsp/src/dsp.c:41-47 | the default taps quantise to magnitudes summing to 32755, so no input overflows |
| HalfbandTaps.QuantisedTapsCanOverflow | dsp/src/dsp.c:128-131 | a valid tap set whose quantised filter some input does overflow |
| DspHistory.StageChunks | tests/dsp_test.cc:195-228 | two calls produce what one call on the joined input produces and leave the same history |
| DspHistory.ResetImpulse | tests/dsp_test.cc:14-57 | the same for a stage after a reset, for an impulse of any height at any input: the taps come out from the last to the first |
| DspHistory.CallBlocksExact | dsp/src/dsp-history.inc:73-98 | with a kernel that computes the full filter, the block over the topped-up history and the block over the rest of the input are together the filter of carried plus new samples |
| DspHistory.Decimator.Process | dsp/src/dsp-history.inc:43-103 | with either kernel, saturating or not, the outputs are the kernel's on those two blocks, which for an exact kernel are the full filter's, and exactly the unused rest is kept; input and output buffers must differ |
| DspHistory.Decimator.Reset | dsp/src/dsp.c:155-162 | after a reset the history is one context less one of zeros |
| Cascade.CascadeChunks | src/stream.c:150-180 | a cascade of stages is indifferent to where a stream is cut |
| Cascade.CascadeCount | src/stream.c:204-220 | a cascade emits the inputs so far divided by 2^stages, rounded down, and what it holds back is the remainder |
| Cascade.FeedJoins | src/stream.c:150-180 | any list of chunks, fed one by one, gives the output of one call on all of them |
| Cascade.FreshPending | dsp/src/dsp.c:155-162 | after a reset nothing is held back |
| Converter.Chain.Convert | src/stream.c:150-180 | running the stages alternately through two work buffers of half the input's length, as allocated at src/stream.c:274, realises the cascade, output and every stage's history; every stage's output fits and no stage reads the buffer it writes |
| Unpack.PackedSamples | dsp/impl/unpack_raw_adc_data.generic.c:41-60 | unpacking loses nothing: packing the samples gives the words back |
| Unpack.SamplesPacked | dsp/impl/unpack_raw_adc_data.generic.c:41-60 | every buffer of 12-bit samples times 16 is the unpacking of some words |
| Unpack.GroupScaled | dsp/impl/unpack_raw_adc_data.generic.c:50-58 | unpacked samples are multiples of 16 |
| Unpack.UnpackScalar | dsp/impl/unpack_raw_adc_data.generic.c:41-82 | the masks and shifts of the scalar kernel compute the half-word definition, plain or with every second sample negated |
| Unpack.LaneIsGroup | dsp/impl/unpack_raw_adc_data.neon.c:122-142 | shift-left, two shift-right-inserts, the mask and the sign lanes give one group of eight samples |
| Unpack.UnpackNeon | dsp/impl/unpack_raw_adc_data.neon.c:39-163 | for every length the twelve-word loop plus tail stores what the scalar kernel stores |
| Fs4Mix.MixIsRotation | dsp/impl/fs4_mix.generic.c:37-46 | the mixer's sign table is multiplication by successive powers of -i |
| Fs4Mix.MixOfInverted | src/stream.c:114-141 | mixing the inverted unpacking gives the complex conjugate of mixing the plain one |
| Fs4Mix.MixChunks | dsp/src/dsp.c:164-172 | mixing in chunks of multiples of four equals mixing the whole |
| Fs4Mix.MixChunksIff | dsp/src/dsp.c:166 | mixing chunk by chunk equals mixing the whole, whatever follows, exactly for first chunks of a multiple of four, which is why the length is asserted |
| BlockPayload.ValueKeepsBits | dsp/impl/fs4_mix.generic.c:34-48 | taking the mixer's 16-bit patterns as integers, as the filters do, loses nothing |
| BlockPayload.RunPayload | src/stream.c:106-153 | the payloads of a run of blocks, joined, are one mixing of the run's unpacked samples, for samples per block a multiple of eight, with or without inversion, and the plain samples in low-IF mode |
| BlockPayload.RunSampleAt | src/stream.c:106-147 | sample by sample over a run of any number of blocks: as it is in low-IF mode, else times the matching power of -i, or of i when the spectrum is to be inverted |
| BlockPayload.RunUnpacking | src/stream.c:134-141 | unpacking block by block equals unpacking all words of the run at once, also with inversion |
| Fs4Mix.MixScalar | dsp/impl/fs4_mix.generic.c:34-48 | the scalar loop computes the rotation |
| Fs4Mix.MixNeon | dsp/impl/fs4_mix.neon.c:39-81 | the eight-sample vector loop and its tail store the same |
| AdcPll.MakePITable | src/adc.c:83-109 | each table entry is the legal factorisation with the smallest I, or unset if there is none, for arbitrary divisor limits |
| AdcPll.IsBetterIsLexicographic | src/adc.c:51-81 | the comparator's branches amount to: admissible, and lexicographically less by error, or by cost with integer winning ties |
| AdcPll.IsBetterIsStrictWeakOrder | src/adc.c:51-81 | on admissible candidates the comparator is a strict weak order |
| AdcPll.PickIsFirstMinimum | src/adc.c:148-216 | keeping the better candidate while scanning returns the first minimum of all admissible candidates |
| AdcPll.FindDivisors | src/adc.c:111-226 | the nested loops compute the specified search, including the crystal-only case and the range error |
| AdcPll.FoundIsFirstBest | src/adc.c:125-226 | a result is a crystal division within tolerance, or the first best admissible candidate with matching frequency, CCO, divisors and error |
| AdcPll.FractionalCandidateAccurate | src/adc.c:160-192 | rounding and correcting M keeps the CCO in range with a frequency error of at most 734/s Hz |
| AdcPll.SearchSucceedsIff | src/adc.c:111-226 | with fractional M and a tolerance of at least 734/275e6 the search succeeds exactly for targets from 275e6/16384 Hz to 80 MHz |
| AdcOptimal.NoSettingIsBetter | src/adc.c:111-226 | for any divisor in the searched range, N up to 256 and M up to 32768 whose CCO is in range and whose rate is within the tolerance, the search succeeds, fractional or not, and unless the crystal is used its result costs at most that M, or is at least as accurate when accuracy is asked for |
| AdcOptimal.IntegerCandidateNear | src/adc.c:194-219 | an integer candidate's CCO is within half a step of the frequency asked for |
| AdcOptimal.ScaledMIsNearest | src/adc.c:160-192 | the fractional M gives a multiple of the CCO step in range that is nearest to the frequency asked for |
| AdcOptimal.CrystalIff | src/adc.c:125-144 | the crystal is used directly exactly when that is allowed and some divisor from 1 to 256 is within the tolerance |
| AdcOptimal.CrystalDivides | src/adc.c:125-144 | and that divisor is then programmed, one as zero, with the PLL off |
| AdcOptimal.FoundSettings | src/adc.c:111-226 | every result is within the tolerance and, unless it uses the crystal, runs the dividers and the CCO within the hardware's limits, stated in numbers |
| RatePlan.ManualIsLargest | src/config.c:562-568 | explicit decimation uses the largest stage count up to the request whose ADC rate is within the limit |
| RatePlan.AutoIsLeast | src/config.c:569-579 | automatic decimation uses the least stage count at which doubling stops |
| RatePlan.TransferFits | src/config.c:613-623 | a transfer is the largest number of whole blocks within both the USB limit and one user buffer, and is empty exactly when one block exceeds either |
| RatePlan.PlanSucceedsIff | src/config.c:592-609 | a rate can be applied exactly when the ADC rate it needs is within the limit and not below the slowest rate the PLL reaches |
| RatePlan.RateAcceptedIff | src/config.c:554-609 | the same in terms a caller can check: the rate itself in low-IF mode, or the rate times some power of two that the decimation setting allows, lies between the PLL minimum and the limit |
| TunerPll.FindDivider | src/tuner.c:321-323 | the doubling loop ends with the least of 2..64 that lifts the VCO to its minimum, or 64 |
| TunerPll.SnapAvoidsForbidden | src/tuner.c:341-353 | the modulator numerator is 0 or in [8, 2^18-8] and never strictly within 8 of 2^17 |
| TunerPll.SolutionGood | src/tuner.c:314-367 | every result is within nine modulator steps (18 ref / (2^18 seldiv)) of the request, with registers in range |
| TunerPll.FindPllParameters | src/tuner.c:314-367 | succeeds exactly for feedback ratios in [13, 269) and returns the solution for the least divider |
| TunerPll.PllFields | src/tuner.c:314-367 | every field of the result in numbers: divider, reference divider, feedback integer and modulator value for each zone of the fraction |
| TunerPll.IntegerRatioExact | src/tuner.c:336-358 | a request for an integer feedback ratio is met exactly, with modulator value 0 |
| TunerPll.OutsideZonesClose | src/tuner.c:336-358 | outside the zones around 0, 1/2 and 1 the output is within two modulator steps |
| TunerPll.OverflowIff | src/tuner.c:344-348 | the feedback integer becomes 269 exactly within nine steps of the upper limit |
| TunerPll.OverflowWitness | src/tuner.c:336-348 | a crystal and request for which the feedback integer becomes 269 |
| TunerPll.SameFieldsClose | src/config.c:523-532 | configurations that program the same registers have outputs within one modulator step |
| TunerRegs.BatchedEqualsSequential | src/tuner.c:461-496 | for any list of field writes to registers 5 to 31, sending the collected change set does what the writes do one by one |
| TunerRegs.OtherBitsKept | include/internal/tuner-regs.h:74-78 | bits outside every written mask keep their value |
| TunerRegs.ChangeSet.SetBits | include/internal/tuner-regs.h:74-78 | records a write over earlier ones of the same register, so that sending the set has the effect of what was recorded before, followed by the write |
| TunerRegs.ChangeSet.PreparePayload | src/tuner.c:461-496 | the payload spans exactly the changed registers with values then masks, is empty iff nothing changed, and leaves the set empty |
| TunerRegs.PllRoundTrip | src/tuner.c:412-447 | the programmed registers decode to the divider, reference divider, 16-bit modulator value and feedback integer, the last exactly up to 268 |
| TunerRegs.PllProgrammed | src/tuner.c:394-447 | bit by bit, whatever the registers held: image rejection, LDO, autotune clock, modulator power-down exactly without a fraction, VCO current, mode and bias, and every divider field |
| TunerRegs.WholeIsValue | include/internal/tuner-regs.h:74-78 | a register read as a number is its eight bits weighted by powers of two |
| TunerRegs.ConfigurePll | src/tuner.c:394-447 | programming through one payload leaves every field as the configuration calls for, the modulator powered down exactly without a fraction, twice two to the divider field the divider, and all other bits untouched |
| FrequencyPlan.LandsAtQuarter | src/config.c:479-507 | for every undersampling zone and both sidebands a signal d from the tuned frequency lands at Fs/4 + d exactly when the inversion the driver decides on is applied (or d is 0) |
| FrequencyPlan.LandsInLowIf | src/config.c:487-496 | in low-IF mode, for both sidebands and every zone, a signal at distance a from the tuned frequency, on the selected side, appears at a exactly in odd zones or at a = Fs/4 |
| Device.BandIsWantedIff | src/config.c:716-737 | mapping the requested cutoffs to the IF keeps their meaning for every signal and every pair of cutoffs, in both modes, sidebands and all zones, exactly in baseband mode or in the first zone |
| Device.BandInLowIf | src/config.c:509-513 | in low-IF mode the band asked of the filter means the cutoffs shifted by the undersampling offset |
| Device.LowIfBandWitness | src/config.c:716-737 | in the second zone at 10 MHz cutoffs of 1 to 2 MHz give a band from 5 down to 2 MHz, and a signal between them is mixed to 6.5 MHz |
| Device.Device.SetConversionMode | src/config.c:51-84 | refused while streaming or for an unknown mode without any change; a new mode marks rate, frequency and bandpass pending |
| Device.Device.SetBufferSize | src/config.c:99-121 | refused for zero or while streaming; otherwise marks the rate pending iff the size changes |
| Device.Device.SetSideband | src/config.c:291-308 | a new sideband marks frequency and bandpass pending |
| Device.Device.SetFrequency | src/config.c:324-335 | marks the frequency pending iff it changes |
| Device.Device.SetBandpass | src/config.c:355-374 | orders the limits and marks the bandpass pending iff they change |
| Device.Device.SetBandpassTable | src/bandpass.c:36-63 | replaces the table and forgets the chosen filter; an empty table is refused |
| Device.Device.ApplyRateChange | src/config.c:544-627 | fails without effect while streaming or when no plan exists; otherwise ADC and sizes are a fresh computation |
| Device.Device.ApplyFreqChange | src/config.c:629-669 | on success the tuner is programmed for the requested frequency plus the current offset; a failed programming invalidates it |
| Device.Device.ApplyBandpassChange | src/config.c:671-769 | on success the filter is the table's choice for the current band; a failed programming forgets it; it fails only if the hardware does |
| Device.Device.ApplyChanges | src/config.c:398-428 | BAD_STATE exactly when a rate change is pending while streaming, and then nothing has changed; while the hardware works it succeeds exactly when the pending rate can be planned and the oscillator frequency reached; success clears all flags; with nothing pending it is a no-op |
| Device.PerformAll | include/pg2sdr.h:1288-1312 | every sequence of setters, applies (failing or not) and streaming starts and stops keeps derived state current or marked pending |
| Device.Device.StartStreaming | src/stream.c:228-252 | an idle device starts exactly when resources last, an ADC configuration exists and everything pending could be applied |
| Device.Device.ReportedFrequency | src/config.c:438-445 | a reported frequency is within ten modulator steps of the request |
| Device.Device.ReportedRate | src/config.c:430-436 | a reported sample rate is within 10 ppm of the request |
| Device.Device.TransferSizes | src/config.c:613-624 | with no rate change pending, transfers are as many whole blocks as fit the USB limit and one user buffer, and empty exactly when one block does not |
| Device.Device.FilterCurrentIff | src/config.c:742-748 | with nothing pending the filter is the right one exactly when the table was not replaced since it was chosen |
| DeviceSettings.RateOfSettings | src/config.c:544-627 | with no rate change pending, in the device's own settings: the ratio is 1 in low-IF mode and otherwise twice a power of two, the rate times it is within the ADC limit, an explicit decimation is used as far as the limit allows, the automatic one doubles until the margin is reached, and the ADC configuration is within 10 ppm and the cheapest there is |
| DeviceSettings.FilterOfSettings | src/config.c:671-769 | with nothing pending, the tuner holds the table's choice for a band inside the selected Nyquist zone into which the mixer brings exactly the signals between the cutoffs, shifted in low-IF mode |
| DeviceSettings.LandsAsSet | src/config.c:487-507 | in baseband mode a signal x from the tuned frequency is received x from Fs/4, with the oscillator and inversion the settings call for |
| DeviceSettings.ReportedBand | src/config.c:447-477 | the reported cutoffs enclose exactly the signals that the mixer brings between the filter's corners |
| Device.ReplacedTableIsNotApplied | src/bandpass.c:54-58 | after a table replacement applying changes succeeds, does nothing, and leaves no filter recorded while the chip keeps the old one |
| ReadQueue.Stream.StreamCallback | soapy/soapy-pg2sdr.cc:1182-1204 | a buffer is dropped whole exactly when it would exceed the limit, else accepted last; the counter stays the number of queued samples; the library is asked to stop exactly when a stop is wanted |
| ReadQueue.Stream.EnqueueError | soapy/soapy-pg2sdr.cc:1164-1170 | the worker's error joins the queue behind everything accepted |
| ReadQueue.Stream.Arrive | soapy/soapy-pg2sdr.cc:1182-1204 | of any list of arrivals the queue takes, in order, exactly those that fit when their turn comes |
| ReadQueue.Stream.Read | soapy/soapy-pg2sdr.cc:1072-1151 | whatever arrives meanwhile, a read returns samples with consecutive timestamps from the one it reports, fewer than asked only at a failure, a timestamp gap or a queue that stayed empty to the end of the wait; everything that arrives while there is room is accepted; a taken failure is reported by every later read |
| ReadQueue.Stream.NothingLost | soapy/soapy-pg2sdr.cc:1072-1204 | samples returned, the rest of the pending buffer and the queue are together exactly the accepted samples, once and in order |
| ReadQueue.Stream.FailureAfterSamples | soapy/soapy-pg2sdr.cc:1099-1109 | a failure surfaces only when every sample accepted before it has been returned |
| ReadQueue.Stream.Deactivate | soapy/soapy-pg2sdr.cc:1035-1070 | every buffer that arrives before the worker has ended asks the library to stop; then whatever was not read is forgotten and a new start accepted |
| FlashWriter.PlanAgreesWithNaive | cli/pg2-util/write.c:318-380 | skipping work changes nothing: the issued requests leave the same flash as erasing and writing everything, the image padded with 0xFF and all else untouched |
| FlashWriter.PlanProper | cli/pg2-util/write.c:368-374 | every write lands on a blank, aligned page and every erase is aligned, so the assertion never fails |
| FlashWriter.ErasedIff | cli/pg2-util/write.c:342-363 | a sector is erased exactly when forced or when one of its sixteen pages both differs from the image and is not blank |
| FlashPlan.FinalBytes | cli/pg2-util/write.c:318-380 | afterwards each byte of flash is the image's, or 0xFF up to the end of the last sector, or what it was |
| FlashPlan.ErasedBytes | cli/pg2-util/write.c:342-363 | the same exact condition for erasing, on the bytes of flash and image |
| FlashPlan.WrittenBytes | cli/pg2-util/write.c:365-376 | a page is written exactly when, after the erase if there is one, its bytes differ from the image |
| FlashPlan.PlanDistinct | cli/pg2-util/write.c:318-380 | no request is issued twice |
| FlashWriter.RerunDoesNothing | cli/pg2-util/write.c:313-316 | an unforced run on updated flash issues no request |
| FlashWriter.WriteImage | cli/pg2-util/write.c:318-380 | on success the requests, the returned page count and the memory are those of the plan; on an I/O error the requests are a prefix of it and nothing outside the covered sectors changed |
| FlashWriter.VerifyImage | cli/pg2-util/write.c:388-409 | accepts only flash that holds the image, and all of it when reads succeed |
| FlashWriter.IsErasedPage | cli/pg2-util/write.c:300-306 | true exactly for pages of 0xFF |
| FlashWriter.Flash.Read | cli/pg2-util/io.c:183-204 | reads any range, split at page boundaries, into its place in the buffer |
| FlashWriter.Flash.WritePage | cli/pg2-util/io.c:206-234 | NOR semantics for aligned pages; an unaligned address is refused; the dry run only records the request |
| FlashWriter.Flash.EraseSector | cli/pg2-util/io.c:236-260 | sets an aligned sector to 0xFF; an unaligned address is refused; the dry run only records the request |
| FlashWriter.UpdateVerifyRerun | cli/pg2-util/write.c:318-409 | after an update verification passes and a second unforced write does nothing |
| FlashWriter.DryRunThenReal | cli/pg2-util/io.c:158-159 | a dry run issues the requests and returns the count of the real run, leaving the flash alone |
| DfuCrc.TableCorrect | cli/pg2-util/image.c:248-313 | each of the 256 table entries is the bitwise CRC of its index |
| DfuCrc.CalcDfuCrc | cli/pg2-util/image.c:316-322 | the table-driven loop computes the bitwise reflected CRC-32 of every buffer |
| DfuCrc.KnownAnswer | cli/pg2-util/image.c:316-322 | the digits 1 to 9 give the published check value of CRC-32, before its final inversion |
| DfuCrc.AppendedCrcIff | cli/pg2-util/image.c:162-167 | a little-endian word appended to a buffer drives the state to zero exactly when it is the buffer's CRC |
| DfuCrc.SuffixCrcMatches | cli/pg2-util/image.c:162-167 | the image reader's comparison passes exactly when the CRC of the whole image is zero |
| DfuCrc.OneByteDetected | cli/pg2-util/image.c:316-322 | buffers that differ in exactly one byte have different CRCs |
| DfuCrc.BurstDetected | cli/pg2-util/image.c:316-322 | buffers that differ only inside a window of four bytes have different CRCs |

## Left out

- StreamEngine.NoLostWakeup: the memory model is reduced to one store buffer for the cleared flag; other reorderings are not modelled.
- StreamEngine: when draining itself fails nothing is freed and no more is claimed; libusb, timeouts and control transfers are nondeterministic outcomes. It is written on values rather than as a class so that steps of several actors can interleave.
- StreamProgress.Delivers: counts the thread's own statements with no other actor in between; that libusb completes transfers and the scheduler runs the thread in time is not modelled, so there is no claim that every run makes progress.
- StreamDispatch.Dispatcher.DispatchContiguous: the drop when no buffer is available is modelled as src/stream.c:209-211 intends it; in the code `get_buffer` writes through the pointer before anyone tests it (src/stream.c:81), so a failed allocation crashes and the drop cannot be reached.
- StreamDispatch.Dispatcher.DispatchTransfer: blocks are given as header and converted payload, which BlockPayload relates to the words received; overrun status bits are only logged by the code.
- StreamTimestamps.TimestampsOrdered: assumes that sequence number times samples per block stays below 2^32; the wrapped product in the timestamp computation is covered by StreamWrap, without gaps. Transfers without blocks carry the stale sequence number of an earlier header and are not part of a forward-moving stream, here or in StreamOrder.
- StreamTimestamps.EmptyTransfer: the sequence number read from outside the zero-byte buffer is an arbitrary input, and the undefined conversion at src/stream.c:478 that comes first is not modelled.
- BlockPayload.RunPayload: assumes samples per block to be a multiple of eight; otherwise the unpacking loop leaves gaps of old samples between blocks.
- AdcOptimal.NoSettingIsBetter: covers the divisors the loop tries; it stops before the last one for which the CCO would still be in range, floor(550e6 / target), as src/adc.c:148-152 has it. The tolerance is at most 10 ppm, which is what the library asks for.
- RatePlan.TransferFits: buffer size times ratio is not wrapped to 32 bits.
- HalfbandTaps.Create: leaves out taps whose scaling sum is zero or that quantise beyond 16 bits, both of which need a negative centre, because the conversion to int16_t is then undefined in C, and taps that trip an assertion; float rounding is not modelled.
- DspHistory.Decimator.Process: requires tap magnitudes summing to at most 65535, beyond which the scalar kernel's 32-bit sums overflow with undefined result. The kernels take the samples they read as a value.
- Converter.Chain.Convert: requires kernels that compute the full filter, as those of the default taps do.
- TunerRegs.PllRoundTrip: the VCO bias value is an input, because its conversion from a possibly negative double is undefined in C; the lock loop that follows is not modelled.
- TunerRegs.ChangeSet.PreparePayload: assumes that the byte buffer is not the entry array, which the types already say.
- Device.Device.ApplyBandpassChange: the penalty scan that picks a table row is a parameter; memory allocation failures are left out.
- Device.Device.ApplyFreqChange: the image-rejection bit is not reprogrammed by the code when a sideband change leaves the LO registers equal; the model claims nothing about it.
- Device.Device.StartStreaming: allocation and USB failures are one input.
- ReadQueue.Stream.Read: arrivals are a finite list, so a producer that delivers empty buffers for ever is not covered; sample format conversion and the nanosecond timestamp are left out.
- FlashWriter.WriteImage: assumes that the image fits the flash; the file-backed I/O object, which refuses all writes, is left out.
- DfuCrc.TableCorrect: the table is a function by rows of sixteen entries instead of an array.
- Device discovery, hotplug, boot and memory loaders, logging, command lines, JSON output, gain tables, LED patterns and the kernel dispatcher are plumbing or easy beside the above.
- Firmware metadata, boot-mode patching and the vector-table sum of the image reader.
- Conversion after a sideband or undersampling change in mid-stream, for which the code gives no clean guarantee.
- The block header layout and magic number come from a protocol header that is not part of this model; both are parameters.
