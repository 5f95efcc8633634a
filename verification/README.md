# Verification of the Langford radio driver and its tools

A Dafny model of the parts of the Langford repository in which data, registers and arithmetic can
go wrong, with proofs about them.

* **Streaming engine** (`sw/langford_driver/langford.c`). `TxStream` and `RxStream` describe the user
  calls, the kernel threads and the FPGA's descriptor FIFO as step systems over shared state. A step is
  one access: a test or an update under a mutex, one byte of a copy outside it, one register access, one
  move of the device. A *schedule* is any sequence of steps; the theorems hold after every schedule, for
  every ring capacity and every smaller block size (`Sizes` instantiates them with the driver's own).
  `TxThread`, `RxThread`, `TxCall` and `RxCall` hold the two threads and the two calls as loops over
  mutable state, preempted before every access, and prove that they take only steps of those systems.
  `TxFaults` and `RxFaults` settle which blocked calls can still return and when reception goes on.
  `Duplex` runs both halves at once, where the receive thread's space check reads the indices that the
  transmit half moves, one after the other. `Stops` settles what a thread that ends leaves with the device.
* **Registers and serial ports.** `Pio` is the read-modify-write register file behind `ioctl`. `Serial`
  drives pins through it: `WriteReg` into a synthesiser that shifts on rising CLK and latches on rising
  LE, `LangordSpiWrite` into a slave that samples while selected. `SynthRegs` packs the synthesiser's
  fields and decodes them as the chip does. `Words` has 32-bit words as their bits.
* **Synthesiser tuning.** `Tuning` and `Fsynth` cover `set_freq`, the residual correction in the digital
  converter, and the whole path from a requested frequency to what the hardware registers then say.
* **Reference driver** (`libs/reference/adf4350.c`). `IntegerTuning` has its integer arithmetic and
  read-back, `ShadowRegs` its shadow register cache when any transfer may fail, `Adf4350` its
  `set_freq` as a whole. `adf4350_tune_r_cnt` is not part of this model; `Adf4350.TunesReference` states
  what is needed of it.
* **Address translation.** `AddressTable` covers the table between DMA and bus addresses.
* **Offline receiver** (`sw/dsp/langford_dsp/main.cpp`). `HalfBand` proves the sliding-window filter
  against its difference equation and what passes it, `Decimator` the factor, the down conversion and the cascade over
  swapped buffers.

`Options`, `Ring`, `Division` and `Divisors` are shared. Frequencies and filter values are exact reals or integers.

## Where the code departs from its intent

Each is stated with the exact condition under which the code does what it means to.

* The receive thread checks for space in the transmit ring (`langford.c:196`). The space check is a
  parameter of `RxStream`. Everything about descriptors and DMA slots holds under either check; what
  concerns the receive ring holds with the check on that ring, and also on any run whose drains happened to
  have room. With the check as written, some schedule without a single move of the transmit half loses a
  whole ring of received bytes, for every pair of sizes with which a drain ever passes it
  (`Duplex.WrongRingLosesData`).
* Each pass that finds no space counts a finished buffer down without draining it (`langford.c:171`).
  Reception dies after exactly 27 of them (`RxStream.WedgedForever`), and under either check some schedule
  in which nobody reads makes 27 of them (`RxFaults.ReceptionDies`, `Duplex.ReceptionDiesAsWritten`), so
  repairing line 196 alone does not prevent it. As written, with both threads running and in rings of any size,
  another block can still be drained if and only if fewer were skipped and a copy is under way or the check can
  pass (`Duplex.AliveAsWrittenIff`). It always can in rings of more than two blocks and a byte
  (`Duplex.LargeRingPassable`); in smaller ones a waiting writer can end reception with no pass skipped
  (`Duplex.SmallRingStarves`). With the check on the receive ring another block can be drained if and only if
  fewer were skipped, a block and two bytes fit, and the waiting read does not want more than a ring without
  space for a block holds (`Duplex.AliveIntendedIff`).
* The check holds the mutex of the other ring, so the two indices it reads can be of different moments. They
  can show room that the transmit ring has at no moment (`Duplex.PassesWithoutRoom`).
* The comment that the copies outside the mutexes never meet (`langford.c:28-33`) is false of the receive pair:
  they do, as soon as the ring holds less than the read takes or a block more than fits
  (`RxFaults.OverlapIff`), and some schedule gets there (`Duplex.CopiesOverlap`).
* Both threads ask for strictly more than a block of data or space (`langford.c:196`, `langford.c:340`). So the last
  block written is never sent without further writes (`TxStream.NeverAllSent`). Calls that pass the length checks
  of lines 457 and 504 can then wait forever. After `w > 0` written bytes a waiting write returns on some
  schedule if and only if it is of at most `cap - 1 - ((w - 1) % blk + 1)` bytes (`TxFaults.WriteReturnsIff`): at
  the driver's sizes, after one block, a write of 33292288 bytes hangs (`Sizes.SecondWriteReturnsIff`). As written, a
  waiting read that finds `f` bytes returns on some schedule if and only if it is of at most `f` bytes, or
  reception can go on and it is of at most `cap - g + f % g` bytes, `g` being the greatest common divisor of the
  ring and the block (`Duplex.ReadReturnsAsWrittenIff`, with the exact bound when reception cannot go on). At the
  driver's sizes a first read of more than 33292288 bytes hangs (`Sizes.FirstReadReturnsIff`), but after one
  delivered byte one of 33554431 can return (`Sizes.OneByteUnlocks`), because blocks go on to be drained over
  unread ones. With the check on the receive ring the bound after `d` delivered bytes is
  `cap - 2 - (cap - 2 + d) % blk` (`RxFaults.ReadReturnsIff`).
* A thread that stops at the start of a pass leaves the device whatever slots are queued, and one that waits
  for FIFO level zero leaves it up to four transfers under way; `cdev_release` then frees the DMA buffers
  (`langford.c:110`, `langford.c:296`, `langford.c:1005-1017`). The device is left none if and only if no transfer
  is under way and, without the wait, nothing is queued (`Stops.TxStopReleasesIff`, `Stops.RxStopReleasesIff`, and a
  schedule for each exit).
* `GPIOout` and `RxBaseband` share bit 30 of PIO5 (`langford.c:598-599`).
* The range checks of `ioctl_helper` have no lower bound, and `cdev_ioctl` reports success whatever the
  helper returns (`langford.c:649`, `langford.c:743`).
* `fsynth` powers the synthesiser down for the request 0, but tests only the 32 low bits of the request
  (`fsynth.cpp:101`): the legal request of 4294967296 Hz leaves it powered down with the dividers of its
  constructor, and converts a phase of about 1.5e11 to an `int` (line 174). A legal request leaves the channel
  powered up with its output on, on target and with a setting the chip allows if and only if its object started
  so, it is another request and its setting is as follows (`Fsynth.AchievedIff`, `Fsynth.FourGigahertz`; from a
  fresh object, `Fsynth.FreshAchievedIff`).
* The constructor's comment names 555 MHz (`fsynth.hpp:16`); with the program's reference its fields stand for some
  12 kHz less (`Fsynth.FreshFrequency`).
* `set_freq` assigns the prescaler to itself (`adf4351_regs.hpp:449`), so a VCO frequency above 3 GHz keeps
  the 4/5 prescaler. Its rounded `FRAC` can equal `MOD` (line 434), and its integer part is cut to 16 bits.
  The stored setting is one the chip allows if and only if the prescaler selected before is that for the VCO
  frequency, from the constructor's at most 3 GHz, and the fraction is more than half a step below the next
  integer (`Fsynth.AdmissibleIff`); 4 GHz and 2218625000 Hz are not such requests (`Fsynth.InadmissibleRequests`).
* `adf4350_set_freq` divides by a zero modulus when the channel spacing is above the phase detector frequency:
  for a request it accepts, if and only if the first tuning that is not too fine for the modulus is too
  coarse (`Adf4350.Synthesiser.SetFreq`). `adf4350_store` accepts such spacings; above 32 MHz every request faults
  (`Adf4350.WideSpacingFaults`). The test of line 163 rejects only in steps of 1 Hz from a phase detector at 1 Hz,
  where the integer part wraps (`Adf4350.PassedOverIff`).
* `adf4350_set_freq` chooses the prescaler for the request before it doubles it (`adf4350.c:128`): right if
  and only if it is not doubled or ends at 3 GHz or less, so not for 1.6 GHz (`Adf4350.PrescalerRightIff`,
  `Adf4350.PrescalerWrong`). It adds one, not half the divisor, before dividing (line 159); its band select
  divider of 256 does not fit 8 bits (line 165), and a reference counter above 1023 spills into the bits
  beside its field (line 191). `adf4350_show` wraps at 32 bits (line 285).
* The default settings for register 2 separate polarity and charge pump current by a comma where a `|` is meant
  (`adf4350.c:59-60`), so the pump works at its least current (`Adf4350.DefaultCurrent`). The mask of line 198 lets
  only the lower of the two noise mode bits through (`Adf4350.UserInEffect`).
* After a failed transfer, retrying the same write can report success while double-buffered registers
  are not in effect (`adf4350.c:72-80`). After a success they are if and only if the call had register 0, 1
  or 4 to write, or registers 1 and 4 were cached with the values they had when register 0 was last sent
  (`ShadowRegs.SuccessInEffectIff`).
* The decimation factor of a negative request is never found (`main.cpp:67-72`).
* `DownConvert` reads before its tables if and only if there is a sample and the phase step is negative and no
  multiple of the table size (`main.cpp:260`).

## Model

| member | source | states |
|---|---|---|
| `Ring.FilledMeaning` | sw/langford_driver/langford.c:66-83 | the fill count is the one distance below the capacity from start to end; filled plus available is capacity minus one |
| `Ring.RegionsApart` | sw/langford_driver/langford.c:28-33 | regions sized by the two counters share no index |
| `TxStream.StepKeeps` | sw/langford_driver/langford.c:292-439 | every step of the user, the thread or the device keeps the invariant on stream, copies, queue, slots and thread locals |
| `TxStream.NothingLostOrReordered` | sw/langford_driver/langford.c:331-418 | after any schedule the device has finished a prefix of the bytes the user wrote; the rest is in DMA slots and ring, in order |
| `TxStream.PartialReadsInOrder` | sw/langford_driver/langford.c:402-418 | bytes of a block still being transferred are the next ones of the written stream |
| `TxStream.RefillNeverOverlapsDevice` | sw/langford_driver/langford.c:324-383 | a slot being refilled is neither queued nor being read, and every slot the device owns holds the block it was queued with |
| `TxStream.CopiesNeverOverlap` | sw/langford_driver/langford.c:28-33 | the user's copy and the thread's copy never touch the same ring index |
| `TxStream.FifoNeverFull` | sw/langford_driver/langford.c:295-303 | at most 28 descriptors are queued; between passes the slot indices meet and the wait for FIFO room never waits |
| `TxStream.NeverAllSent` | sw/langford_driver/langford.c:340 | after every schedule the device has finished a proper prefix of what was written, so the last block waits for further writes |
| `TxStream.LongWriteWaits` | sw/langford_driver/langford.c:504-513 | from every reachable state, a waiting write longer than what the bytes held back leave room for never leaves its wait loop |
| `TxThread.WriteThread.RefillLoop` | sw/langford_driver/langford.c:331-393 | the refill loop takes only steps of the system and ends with at most four slots left to the delay |
| `TxThread.WriteThread.EnqueueLoop` | sw/langford_driver/langford.c:397-418 | the enqueue loop takes only steps of the system and hands out all refilled slots |
| `TxStream.PromiseKept` | sw/langford_driver/langford.c:324-418 | until the thread is asked to stop, no step of anyone takes back a block that the present pass is due to take, and the thread adds none within the pass |
| `TxThread.WriteThread.Pass` | sw/langford_driver/langford.c:292-418 | a pass that starts from n queued descriptors and f bytes in the ring hands out at least min(28 - n, (f - 1)/blk) blocks more, and exactly that many if nobody else moves; it ends before that exactly if the thread is asked to stop |
| `TxThread.WriteThread.Run` | sw/langford_driver/langford.c:279-443 | the thread tests for a stop at both ends of every pass and goes on exactly as long as it finds none; preempted before every access, it is a run of the step system with all the thread's steps of every pass, so the device receives what was written |
| `TxCall.WriteCall.Write` | sw/langford_driver/langford.c:494-533 | a call that returns has appended exactly its data to the written stream; one still waiting after the given number of failed tests has added nothing |
| `RxStream.StepKeeps` | sw/langford_driver/langford.c:106-265 | every step keeps the invariant on queue, slots, counters and, while drains had room, the ring |
| `RxStream.DrainedIsReceived` | sw/langford_driver/langford.c:162-217 | under either space check the k-th drained block is the data of the k-th descriptor, and the slot being drained is not the device's |
| `RxStream.EnqueuedSlotIsFree` | sw/langford_driver/langford.c:139-159 | no slot is handed out again before its block is drained |
| `RxStream.SlotsAccountedFor` | sw/langford_driver/langford.c:106-171 | slots between the indices are active, completed or given up; the device level never exceeds the active count; at most 27 are given up |
| `RxStream.WedgedForever` | sw/langford_driver/langford.c:228-237 | after 27 passes without space no schedule enqueues, receives or drains anything again |
| `RxStream.ReadsFollowReception` | sw/langford_driver/langford.c:195-217 | with the check on the receive ring, reads return a prefix of what was received and the rest of the drained blocks is in the ring |
| `RxStream.ReachableSound` | sw/langford_driver/langford.c:106-265 | with the check on the receive ring, every state reached satisfies what the results on reads and reception ask for |
| `RxStream.LongReadWaits` | sw/langford_driver/langford.c:457-466 | with the check on the receive ring, a waiting read longer than the most whole blocks let the ring hold never leaves its wait loop |
| `RxStream.CopiesNeverOverlap` | sw/langford_driver/langford.c:28-33 | the receive pair's copies never touch the same ring index, with the check on the receive ring |
| `RxThread.ReadThread.DrainLoop` | sw/langford_driver/langford.c:171-237 | the drain loop, skipped passes included, takes only steps of the system |
| `RxThread.ReadThread.Pass` | sw/langford_driver/langford.c:106-237 | every pass leaves the device 31 descriptors ahead of what had been drained when it started, and drains or gives up all but the last four blocks received by then, exactly those if nobody else moves; it ends before that exactly if the thread is asked to stop |
| `RxThread.ReadThread.Run` | sw/langford_driver/langford.c:93-270 | the thread tests for a stop at both ends of every pass and goes on exactly as long as it finds none; it is a run of the step system with all the thread's steps of every pass, and drains what the device received, in order |
| `RxCall.ReadCall.Read` | sw/langford_driver/langford.c:448-489 | a call that returns has delivered exactly the requested number of bytes, the next ones received; one still waiting after the given number of failed tests has delivered nothing |
| `RxFaults.DrainRightIffRoom` | sw/langford_driver/langford.c:196-217 | a drain through either check leaves the stream intact if and only if the receive ring has room for the block |
| `RxFaults.LongerReadWaits` | sw/langford_driver/langford.c:457-466 | under either check, a waiting read longer than the largest fill in its class modulo the greatest common divisor of ring and block never leaves its wait loop |
| `RxFaults.OverlapIff` | sw/langford_driver/langford.c:28-33 | the copies of the receive pair touch one index if and only if the ring holds less than the read takes or a block more than its capacity |
| `RxFaults.ReadReturnsIff` | sw/langford_driver/langford.c:457-466 | with the check on the receive ring, a waiting read returns on some schedule if and only if the ring holds enough, or reception is alive and the length is within the exact bound |
| `RxFaults.ReceptionDies` | sw/langford_driver/langford.c:171-237 | with the check on the receive ring, from every initial state some schedule in which nobody reads skips 27 passes |
| `TxFaults.WriteReturnsIff` | sw/langford_driver/langford.c:504-513 | with the thread running, a waiting write returns on some schedule if and only if its length is within the exact bound |
| `Duplex.Opens` | sw/langford_driver/langford.c:912-923 | every block size and every larger capacity has an initial state of both halves |
| `Duplex.StepKeeps` | sw/langford_driver/langford.c:106-439 | every step of either half keeps the invariants of both, the check using the two transmit indices as it read them one after the other |
| `Duplex.WrongRingLosesData` | sw/langford_driver/langford.c:196 | with the check as written some schedule of the receive half alone makes one ring of drained bytes vanish, for every pair of sizes with which a drain ever passes it |
| `Duplex.CopiesOverlap` | sw/langford_driver/langford.c:28-33 | with the check as written some schedule without a transmit move has the copies of the receive pair at one index of the ring |
| `Duplex.AliveAsWrittenIff` | sw/langford_driver/langford.c:195-237 | with the check as written and both threads running, in rings of any size, another block is drained on some schedule if and only if fewer than 27 passes were skipped and a copy is under way or the check can pass |
| `Duplex.LargeRingPassable` | sw/langford_driver/langford.c:195-196 | in rings of more than two blocks and a byte it always can |
| `Duplex.PassesWithoutRoom` | sw/langford_driver/langford.c:195-196 | in a ring of a block and two bytes that was ever written to, a drain can pass the check though at no moment of any schedule there is room for it |
| `Duplex.ReadReturnsAsWrittenIff` | sw/langford_driver/langford.c:196-217 | with the check as written and both threads running, in rings of any size, a waiting read returns on some schedule if and only if it is within the exact bound |
| `Duplex.FirstReadReturnsIff` | sw/langford_driver/langford.c:457-466 | in a ring of whole blocks the first read can return if and only if it leaves a block of the capacity |
| `Duplex.OneByteUnlocks` | sw/langford_driver/langford.c:457-466 | once a byte was delivered, a read of all but one byte of such a ring can return |
| `Duplex.SmallRingStarves` | sw/langford_driver/langford.c:195-237 | in every ring of at most two blocks and a byte some schedule ends reception with no pass skipped |
| `Duplex.ReceptionDiesAsWritten` | sw/langford_driver/langford.c:171-237 | with the check as written too, from every initial state some schedule in which nobody reads skips 27 passes |
| `Duplex.AliveIntendedIff` | sw/langford_driver/langford.c:196-237 | with the check on the receive ring another block is drained on some schedule of both halves if and only if fewer than 27 passes were skipped, a block and two bytes fit, and the waiting read does not deadlock with the thread |
| `Sizes.TxStarts` | sw/langford_driver/langford.h:74-88 | the driver's own ring and block sizes satisfy the start condition |
| `Sizes.DriverLosesData` | sw/langford_driver/langford.h:74-88 | at the driver's own sizes the check as written can lose 33554432 bytes |
| `Sizes.FirstReadReturnsIff` | sw/langford_driver/langford.h:74-88 | at those sizes, as written, the first read can return if and only if it is of at most 33292288 bytes |
| `Sizes.OneByteUnlocks` | sw/langford_driver/langford.h:74-88 | at those sizes, as written, a read of 33554431 bytes can return after one delivered byte |
| `Sizes.FirstReadReturnsIntendedIff` | sw/langford_driver/langford.h:74-88 | with the check on the receive ring the first read has the same limit, and after one delivered byte the limit is 33292287 |
| `Sizes.SecondWriteReturnsIff` | sw/langford_driver/langford.h:74-88 | at those sizes, after one block was written, a write can return if and only if it is of fewer than 33292288 bytes |
| `Stops.TxStopReleasesIff` | sw/langford_driver/langford.c:421-437 | a write thread that ends after its wait leaves an empty FIFO and at most four transfers; the device is left no slot if and only if no transfer is under way and, at the other exit, the FIFO is empty |
| `Stops.RxStopReleasesIff` | sw/langford_driver/langford.c:244-262 | the same of the read thread, under either space check |
| `Stops.TxStopsWithQueue` | sw/langford_driver/langford.c:296 | a schedule on which the write thread ends with a slot queued |
| `Stops.TxStopsInTransfer` | sw/langford_driver/langford.c:421-437 | one on which it ends after the wait with a slot still to be read |
| `Stops.RxStopsWithQueue` | sw/langford_driver/langford.c:110 | a schedule on which the read thread ends with 31 slots queued |
| `Stops.RxStopsInTransfer` | sw/langford_driver/langford.c:244-262 | one on which it ends after the wait with four transfers, one of which goes on to store |
| `Pio.PlacesAre` | sw/langford_driver/langford.c:543-712 | register, bit offset and width of all 68 fields, one by one, and that no other number is a GET command |
| `Pio.FieldsApart` | sw/langford_driver/langford.c:543-611 | no two register fields share a bit, but for `GPIOout` and `RxBaseband` |
| `Pio.RegisterFile.IoctlHelper` | sw/langford_driver/langford.c:538-716 | GET returns the field, SET replaces it, refused and unknown commands change nothing and return -EINVAL |
| `Pio.RegisterFile.CdevIoctl` | sw/langford_driver/langford.c:722-749 | the same effects, with success reported even for refused commands |
| `Pio.SetRefinesUpdate` | sw/langford_driver/langford.c:638-711 | a SET in range updates exactly its field and, for the aliased pair, the shared bit |
| `Pio.SetsRefineMap` | sw/langford_driver/langford.c:621-712 | after any sequence of SETs in range, GET answers as a map from fields to values does |
| `Pio.GetReturnsLastSet` | sw/langford_driver/langford.c:621-712 | GET returns the last value set unless the alias was set since |
| `Pio.RefusedIff` | sw/langford_driver/langford.c:649-702 | the check refuses an argument if and only if it is not negative and too large for a field of fewer than 32 bits |
| `Pio.FaithfulIffNonNegative` | sw/langford_driver/langford.c:649-702 | an argument that passes the check is stored faithfully if and only if it is not negative |
| `Pio.NegativeArgumentClobbers` | sw/langford_driver/langford.c:649-653 | setting one pin to -1 raises another chip's pin |
| `Serial.Board.WriteReg` | sw/langford_driver/libs/fsynth.cpp:184-228 | between opening and closing the device file, the synthesiser of the channel latches exactly the word, at its own address and as one more word, from any earlier pin state, through bits 0 to 3 of PIO1 for channel 1 and 4 to 7 for channel 2; nothing else changes |
| `Serial.SpiBus.Write` | sw/langford_driver/langford_spi.cpp:15-39 | one selection with exactly 8 edges a byte, the low bits of the content most significant first; other bits untouched |
| `SynthRegs.GetReg` | sw/langford_driver/libs/adf4351_regs.hpp:298-349 | the accumulated word is the packing of the register's fields |
| `SynthRegs.PackHolds` | sw/langford_driver/libs/adf4351_regs.hpp:300-347 | any packing without overlaps gives each field back from its position |
| `SynthRegs.WordAddress` | sw/langford_driver/libs/adf4351_regs.hpp:299 | each word carries its own address in the low three bits |
| `SynthRegs.DecodePacked` | sw/langford_driver/libs/adf4351_regs.hpp:298-349 | a chip holding the six words decodes every field as it was packed |
| `SynthRegs.SpareBits` | sw/langford_driver/libs/adf4351_regs.hpp:298-349 | the bits of the six words beside the fields are clear but for two of register 5, which are always set |
| `SynthRegs.DescendingTakesEffect` | sw/langford_driver/libs/fsynth.cpp:119-123 | whatever a synthesiser with double-buffered registers did before, after the words of registers 5 down to 0 it works with all six |
| `SynthRegs.AscendingLeavesStale` | sw/langford_driver/libs/fsynth.cpp:119 | after registers 0 up to 5 it works with the words of 1 and 4 it had latched before |
| `SynthRegs.ProgramSynth` | sw/langford_driver/libs/fsynth.cpp:117-123 | the chip latches the words of registers 5 to 0 in that order and no others, so it reads all fields as set and works with them; the other chip and all other bits are untouched |
| `Tuning.FindVco` | sw/langford_driver/libs/adf4351_regs.hpp:378-383 | every legal target gets the least doubling into the VCO's range, at most six |
| `Tuning.FindDividers` | sw/langford_driver/libs/adf4351_regs.hpp:409-428 | for every reference up to 250 MHz for which the ratio fits an int, the search ends at the least divider in the design range, at most 8, with the least band select divider, at most 250, and a large enough integer part |
| `Tuning.FracNearest` | sw/langford_driver/libs/adf4351_regs.hpp:434 | the fraction is rounded to nearest; it equals the modulus exactly within half a step of the next integer |
| `Tuning.FracReachesModulus` | sw/langford_driver/libs/adf4351_regs.hpp:434 | a frequency for which it does |
| `Tuning.OutputNearTarget` | sw/langford_driver/libs/adf4351_regs.hpp:430-444 | the output of a rounded setting is within pfd/(2*MOD*RFdiv) of the target |
| `Tuning.TunedNearTarget` | sw/langford_driver/libs/adf4351_regs.hpp:430-454 | so is the chip holding it, when the integer part fits its field |
| `Fsynth.Fsynth.SetFreq` | sw/langford_driver/libs/adf4351_regs.hpp:352-495 | stores the dividers the search describes, switches the auxiliary output off and changes no other field; returns a frequency within half a step, which is the chip's if and only if the integer part fits 16 bits; the stored setting is one the chip allows for exactly the admissible requests |
| `Fsynth.TunedUniquely` | sw/langford_driver/libs/adf4351_regs.hpp:371-454 | target, reference and modulus determine the setting |
| `Fsynth.AdmissibleIff` | sw/langford_driver/libs/adf4351_regs.hpp:434-449 | a stored setting has a numerator below its modulus and the prescaler its VCO frequency requires if and only if that prescaler was selected before and the fraction does not round up to the modulus |
| `Fsynth.InadmissibleRequests` | sw/langford_driver/libs/adf4351_regs.hpp:434-449 | a request that fails for the prescaler and one that fails for the numerator |
| `Fsynth.Fsynth.constructor` | sw/langford_driver/libs/fsynth.hpp:15-56 | the initial fields by their numbers, which fit their widths |
| `Fsynth.SetDDCFreq` | sw/langford_driver/libs/fsynth.cpp:149-181 | while the phase fits an int, the remaining error is less than one phase step on the side the direction bit says and the phase is not negative; otherwise the phase is what the conversion leaves; it is all of PIO3 or PIO4 and the direction bit 16 or 17 of PIO5, by channel, and no other bit changes |
| `Fsynth.Tune` | sw/langford_driver/libs/fsynth.cpp:99-145 | end to end, for every accepted request: unless its 32 low bits are zero the chip and converter registers stand for a frequency within one phase step of it and every field but the dividers, the auxiliary output and the noise mode is as initialised; else the synthesiser is powered down with its dividers as they were; the words are latched in an order in which they take effect; nothing outside this channel's pins, phase and direction changes |
| `Fsynth.AchievedIff` | sw/langford_driver/libs/fsynth.cpp:101 | a legal request ends powered up with the output on, on target and with a setting the chip allows if and only if the object was so before, it is not 4294967296 and it is admissible |
| `Fsynth.FreshAchievedIff` | sw/langford_driver/libs/fsynth.cpp:99-101 | from the constructor's object that is if and only if it is not 4294967296, leads to at most 3 GHz and to a fraction that does not round up to the modulus |
| `Fsynth.FourGigahertz` | sw/langford_driver/libs/fsynth.cpp:101 | the legal request of 4294967296 Hz ends powered down with every field but the noise mode as it was, so off target unless the modulus is the program's |
| `Fsynth.FreshFrequency` | sw/langford_driver/libs/fsynth.hpp:16-19 | the constructor's modulus is not the program's, and with the program's reference its fields stand for 12 kHz less than the 555 MHz named there |
| `ShadowRegs.ShadowCache.SyncConfig` | sw/langford_driver/libs/reference/adf4350.c:67-92 | the loop's effect on cache and chip, for any failing transfer |
| `ShadowRegs.ShadowCache.RegAccess` | sw/langford_driver/libs/reference/adf4350.c:94-115 | invalid registers are refused; a write changes its shadow register, to the value with the three low bits clear, and no other, and with success all six are cached; a read returns the cached word |
| `ShadowRegs.SyncComplete` | sw/langford_driver/libs/reference/adf4350.c:71-91 | success leaves cache and shadow equal, having sent exactly what differed in descending order, register 0 last if 1 or 4 was sent |
| `ShadowRegs.SyncFailed` | sw/langford_driver/libs/reference/adf4350.c:83-86 | failure stops at one register: all above are up to date, all below untouched |
| `ShadowRegs.RunAgrees` | sw/langford_driver/libs/reference/adf4350.c:67-92 | over any run with any failures, every register ever written holds `regs_hw[i]` or'ed with `i` |
| `ShadowRegs.SuccessInEffectIff` | sw/langford_driver/libs/reference/adf4350.c:72-80 | after a success all six are latched; they are in effect if and only if register 0, 1 or 4 had changed, or the cached 1 and 4 are those of when register 0 was last sent |
| `ShadowRegs.NoFailureInEffect` | sw/langford_driver/libs/reference/adf4350.c:72-80 | as long as no transfer fails, what is cached is in effect |
| `ShadowRegs.RetryLeavesStale` | sw/langford_driver/libs/reference/adf4350.c:72-92 | a failed write of register 0 and a retry report success with register 1 not in effect |
| `IntegerTuning.StepsNearestIff` | sw/langford_driver/libs/reference/adf4350.c:159-160 | the quotient is the floor, plus one for a remainder one short of the divisor; it is a nearest integer exactly for that remainder and those up to half |
| `IntegerTuning.RoundsDown` | sw/langford_driver/libs/reference/adf4350.c:159-160 | a request for which it is not |
| `IntegerTuning.StoredFraction` | sw/langford_driver/libs/reference/adf4350.c:161-174 | the stored fraction is below one, in lowest terms and equal to the unreduced one |
| `IntegerTuning.ReportWithinIff` | sw/langford_driver/libs/reference/adf4350.c:284-287 | the reported frequency is within fpfd/(M*2^k) + 1 of the request if and only if the reduced number of steps fits 32 bits |
| `IntegerTuning.WideSpacingRecombines` | sw/langford_driver/libs/reference/adf4350.c:285 | it always does from a channel spacing of 2 Hz on |
| `IntegerTuning.ReportWraps` | sw/langford_driver/libs/reference/adf4350.c:285 | a request at 1 Hz spacing that is reported four gigahertz off |
| `Adf4350.Synthesiser.Search` | sw/langford_driver/libs/reference/adf4350.c:147-163 | the search ends at the first tuning that is not too fine for the modulus, with the unreduced setting for it unless its modulus is zero |
| `Adf4350.PassedOverIff` | sw/langford_driver/libs/reference/adf4350.c:154-163 | a tuning is passed over if and only if the spacing is too fine for the modulus, or, in steps of 1 Hz from 1 Hz, the integer part wraps below its minimum |
| `Adf4350.Synthesiser.SetFreq` | sw/langford_driver/libs/reference/adf4350.c:117-223 | refused requests change nothing; for all others the first tuning that is not too fine decides: below the channel spacing the division by the modulus faults, else the fields hold the setting in lowest terms for the request and one synchronisation of their words is made |
| `Adf4350.Synthesiser.StoreSpacing` | sw/langford_driver/libs/reference/adf4350.c:250-254 | every channel spacing but zero is accepted |
| `Adf4350.WideSpacingFaults` | sw/langford_driver/libs/reference/adf4350.c:151-161 | with a spacing above 32 MHz every request in range faults at the first tuning, whatever the reference |
| `Adf4350.FittingSpacingTunes` | sw/langford_driver/libs/reference/adf4350.c:151-163 | with a spacing that fits the first tuning, unless that is of 1 Hz, every request in range is set at that tuning |
| `Adf4350.PredefinedFactorUsed` | sw/langford_driver/libs/reference/adf4350.c:147-163 | with such a spacing a predefined reference division factor in range is the one used |
| `Adf4350.PrescalerRightIff` | sw/langford_driver/libs/reference/adf4350.c:128-141 | the prescaler in effect is that for the VCO frequency if and only if the request was not doubled or ends at 3 GHz or less |
| `Adf4350.PrescalerWrong` | sw/langford_driver/libs/reference/adf4350.c:128-141 | a request of 1.6 GHz for which it is not |
| `Adf4350.BandDividerRightIff` | sw/langford_driver/libs/reference/adf4350.c:165 | the stored band select divider is the least right one if and only if the phase detector runs at 31.875 MHz or less |
| `Adf4350.DividersInEffect` | sw/langford_driver/libs/reference/adf4350.c:183-220 | the words in effect decode to the setting's dividers; the integer part if and only if it fits 16 bits |
| `Adf4350.ReferenceInEffect` | sw/langford_driver/libs/reference/adf4350.c:190-194 | the reference counter in effect is the one searched for if and only if it fits 10 bits; then doubler, halver and double buffering are as asked |
| `Adf4350.UserInEffect` | sw/langford_driver/libs/reference/adf4350.c:190-198 | with a counter that fits, the user's polarity, lock detection, current, multiplexer and lower noise mode bit of register 2 are in effect; reset, floating, power-down, the upper noise mode bit and bit 31 are clear |
| `Adf4350.DefaultCurrent` | sw/langford_driver/libs/reference/adf4350.c:59-60 | with the driver's own settings the polarity is in effect and the current is the least, not that of 2500 uA |
| `Adf4350.FixedInEffect` | sw/langford_driver/libs/reference/adf4350.c:200-220 | bit by bit, what the user's settings and the constants put into registers 3, 4 and 5 |
| `Adf4350.NothingElseInEffect` | sw/langford_driver/libs/reference/adf4350.c:183-188 | each word in effect has its own address; in registers 0 and 1 nothing is set beside the dividers and the prescaler |
| `Adf4350.Synthesiser.ShowsRequest` | sw/langford_driver/libs/reference/adf4350.c:284-287 | what is shown after tuning is within fpfd/(M*2^k) + 1 of the request exactly when the steps recombine, always so from 2 Hz spacing on |
| `AddressTable.Bridge.DetectMask` | sw/langford_driver/langford.c:1166-1171 | whatever the page size of the bridge, the mask read back is that of the bits an entry keeps; only the first entry is disturbed |
| `AddressTable.Bridge.WriteTable` | sw/langford_driver/langford.c:895-909 | entries 0 to 31 end with the pages of the receive buffers and 32 to 63 with those of the transmit buffers, for any page size; with pages of 2^20 bytes the descriptors of both threads then reach their own buffers |
| `AddressTable.ReceiveReaches` | sw/langford_driver/langford.c:146 | the receive thread's descriptor of buffer i reaches every byte of it in its page |
| `AddressTable.TransmitReaches` | sw/langford_driver/langford.c:404 | so does the transmit thread's |
| `AddressTable.DescriptorReachesBuffer` | sw/langford_driver/langford.c:146 | translating a descriptor reaches every byte of a receive or transmit buffer that does not cross its page |
| `AddressTable.CrossingReachesIff` | sw/langford_driver/langford.c:146 | beyond the page it does if and only if the next slot's buffer lies in the following page |
| `AddressTable.DescriptorsApart` | sw/langford_driver/langford.c:404 | different buffers use different entries and no two bytes the same DMA address |
| `HalfBand.SumIsOutput` | sw/dsp/langford_dsp/main.cpp:228-234 | the sum over the windows is the difference equation |
| `HalfBand.TruncatesTowardZero` | sw/dsp/langford_dsp/main.cpp:235 | storing an output in the integer buffer drops its fraction |
| `HalfBand.DecimateBy2` | sw/dsp/langford_dsp/main.cpp:214-237 | for every length the new buffer starts with the truncated outputs at odd times; an odd length leaves one element more |
| `HalfBand.Causal` | sw/dsp/langford_dsp/main.cpp:224-236 | an output depends on no later sample |
| `HalfBand.Linear` | sw/dsp/langford_dsp/main.cpp:224-236 | the filter is linear |
| `HalfBand.ForwardsSmooth` | sw/dsp/langford_dsp/main.cpp:228-229 | its feed-forward part adds each sample to the one before it, ten times over |
| `HalfBand.AlternatingVanishes` | sw/dsp/langford_dsp/main.cpp:228-229 | so nothing passes at half the sampling rate |
| `HalfBand.SteadyPasses` | sw/dsp/langford_dsp/main.cpp:218-234 | where eleven inputs are steady and the outputs have settled, they are the inputs to a billionth |
| `HalfBand.QuarterPasses` | sw/dsp/langford_dsp/main.cpp:218-234 | at a quarter of the sampling rate, the edge of the pass band asked for, the power is kept to a ten millionth |
| `HalfBand.ThirdStops` | sw/dsp/langford_dsp/main.cpp:218-234 | of a signal at a third of the sampling rate less than one part in 464 million of the power passes |
| `Decimator.DecimationFactor` | sw/dsp/langford_dsp/main.cpp:67-72 | the loop ends if and only if the request is not negative, after as many passes as its logarithm; the factor is two to that logarithm |
| `Decimator.LargestPower` | sw/dsp/langford_dsp/main.cpp:67-72 | a power of two is within the request if and only if it is no larger than that |
| `Decimator.PhaseAdvances` | sw/dsp/langford_dsp/main.cpp:260 | the running phase is the multiple of the step, modulo the table size, for every step that stays in the tables |
| `Decimator.DownConvert` | sw/dsp/langford_dsp/main.cpp:254-264 | no access is before the tables if and only if there are no samples or the step is not negative or a multiple of the table size; then both buffers hold the samples times the table entries of the phase |
| `Decimator.DecimatedLength` | sw/dsp/langford_dsp/main.cpp:152 | repeated halving leaves the quotient by the power of two |
| `Decimator.Cascade` | sw/dsp/langford_dsp/main.cpp:132-154 | as many decimations as the factor has doublings, in four buffers that stay distinct |
| `Decimator.Process` | sw/dsp/langford_dsp/main.cpp:66-154 | for every request that is not negative and every phase step that stays in the tables, the signals written out are the mixed samples decimated by the factor |

## Left out

* Several simultaneous readers or several simultaneous writers of the device file: the code does not
  serialise them; one of each is assumed.
* The device holds at most four popped descriptors (`DMATXDESCDELAY`, `DMARXDESCDELAY`), finishes them in
  order, and its FIFOs are empty when a thread starts; the driver's delays rely on this.
* Memory barriers, DMA cache synchronisation, sleeps and yields: steps are sequentially consistent, and
  sections under a mutex are single steps, but for the space check as written, whose two reads `Duplex` takes
  apart; in `RxStream` and `RxThread` what it sees moves arbitrarily.
* Duplex.AliveAsWrittenIff: says nothing of a state between the two reads of the check.
* Duplex.ReadReturnsAsWrittenIff: likewise.
* The waits for FIFO level zero at thread shutdown: in the step systems, but the thread methods end before them.
  What freeing memory the device still owns leads to is left out.
* Fairness: that a call returns is proved of some schedule, that it does not of all.
* A run from an open to the next: each theorem starts from freshly opened buffers.
* PCI probe and remove, allocation and its failure paths, interrupts, failing accesses to user memory.
* Floating-point rounding: `set_freq`, `SetDDCFreq` and the filter are over exact reals.
* TxCall.WriteCall.Write: a call still waiting after a given number of tests is reported as such, because the
  loop in the code has no bound.
* RxCall.ReadCall.Read: likewise.
* SynthRegs.ProgramSynth: which registers are double buffered is what the reference driver takes the chip to do
  (`adf4350.c:75-79`).
* Fsynth.Tune: likewise. Argument parsing is not modelled. Each of its calls opens and closes the device file, and the first
  open and last close run `PowerPeriph` (`langford.c:930`, `langford.c:1011`), which writes the converter and DSP
  enable bits of PIO1 and PIO5: what it says is unchanged needs another handle open or those bits as a close
  leaves them.
* Serial.Board.WriteReg: opening the device file always succeeds, what opening and closing do to the peripherals is
  left out as for `Fsynth.Tune`, and the chip enable pin has no effect on the synthesiser model.
* Fsynth.SetDDCFreq: likewise.
* Fsynth.Fsynth.SetFreq: a reference of about 1 Hz or less, for which the ratio does not fit the `int` it is converted
  to (`adf4351_regs.hpp:417`), is excluded; the language gives no value there.
* Tuning.FindDividers: likewise.
* ShadowRegs.ShadowCache.SyncConfig: a transfer that reports an error is taken as not delivered, and every
  error as one value.
* ShadowRegs.RunAgrees: a transfer that is delivered and still reports an error would leave the synthesiser ahead of
  the cache.
* ShadowRegs.SuccessInEffectIff: the same exclusion.
* ShadowRegs.NoFailureInEffect: that registers 1 and 4 and no others are double buffered is what the driver takes the
  chip to do (`adf4350.c:75-79`); nothing here says that register 2, for one, takes effect at once.
* Adf4350.Synthesiser.SetFreq: what becomes of the 16-bit reference counter after the last value that
  `adf4350_tune_r_cnt` can give is an outcome of its own (`Exhausted`); a zero channel spacing, which the driver refuses
  when it is set, is excluded.
* Lock detect, reference frequency and power-down attributes of the reference driver: register 2's power-down
  bit is covered as a change of the shadow registers.
* Decimator.DownConvert: what a read before the tables returns; the trigonometric table values are arbitrary.
* HalfBand.SteadyPasses: that the outputs do settle is left out; it says what then holds.
* HalfBand.QuarterPasses: likewise, that the outputs come to the signal's rate.
* HalfBand.ThirdStops: likewise.
* HalfBand.DecimateBy2: that an output fits the `int` it is converted to (`main.cpp:235`), and a product of the down
  conversion as well, is left out; the buffers hold unbounded integers.
* `ComputePower`, reading and writing sample files, the command-line utilities and the GNU Radio blocks.
* The `lmh6521` attenuator's serial word: an easy 16-bit instance of `Serial.SpiBus.Write`.
* The Windows driver, and the copies of production code under `libs/dev`.
