# Verification models for jwdpmi

jwdpmi is a C++ library for protected-mode DOS programs. These Dafny modules model its state-heavy parts and prove what
they keep to, over every run and every input:

- **OPL sound chip** (`OplLayout`, `OplRegisters`, `OplPolicy`, `OplVoices`): voices of two or four operators are placed
  on eighteen overlapping channels. Voices and slots point at each other, and a cache of the chip's registers must agree
  with the chip. The policy that chooses a place is a function on a snapshot, proved against a meaning that does not
  mention the search; the methods that search the slots are proved against that function, and the methods that place,
  evict, move and remove voices keep the invariant `OplVoices.Inv` over all chips and voices.
- **Interrupts** (`IrqLists`, `IrqNesting`, `IrqService`, `IrqMask`, `IrqMaskSteps`): the doubly linked handler lists of
  the IRQ lines with their aggregated flags and hooked vectors. The servicing of interrupts that nest at will: a tree of
  services is played on a value, which has the masks, the interrupt controller's lines in service, and every
  end-of-interrupt command sent (`IrqNesting`), and the kernel that does it with frames and globals is proved equal to that
  (`IrqService`). And nested masks of single lines, whose counters remember how the line was, with whole operations
  (`IrqMask`) and with every access to a port or counter as a step that an interrupt may follow (`IrqMaskSteps`).
- **Exception trampolines** (`Trampolines`): handler chains that run through blocks of executable memory, which share one
  pool and its free list with one-shot redirections.
- **Scheduler** (`Scheduler`): the iterator over the ordered thread set, which erases dead threads as it passes them.
- **Remote debugging packets** (`GdbCodec`, `GdbStandard`): run-length compression in place, framing, checksum and
  hexadecimal digits, and the stub's receiver; and a receiver that follows the GDB Remote Serial Protocol (section E.1,
  "Overview", of the GDB manual).
- **Scancodes** (`Scancode`, `Keyboard`): the prefix decoder for the three scancode sets, and the undoing of the keyboard
  controller's translation; and what keyboards send, by the names of their keys, which must come back as those keys.
- **Serial port** (`Uart`): the engine that fills the UART's transmit buffer from a stream and from realtime bytes, and
  takes what arrives.
- **Real-time clock** (`RtcDate`) and **shared mutex** (`SharedMutex`).

`Basics` holds what they share. Objects that the library updates in place are classes here; what their methods do is stated
with functions on values, about which the lemmas speak. The clock, the chips, the ports, the host and the other side of a
serial line are parameters or abstract state: a time is an ordered number, the environment's answers come as arguments.
`dafny verify dfyconfig.toml` checks everything.

## What the models show about the code

Where a property fails, the model keeps the code as it is, and the exact condition is proved.

- The constructor of `basic_opl` sweeps consecutive registers where operator registers have gaps, and misses the last four
  operators of each bank: the cache agrees with the chip afterwards exactly when those were zero already. On an OPL2 the
  third setup byte goes where the first one went, and the byte of joined pairs goes to the timer control register: both
  registers end as zero, so that the waveforms just enabled are disabled again, and the timers just masked are not masked
  (`OplRegisters.BasicOpl.constructor`).
- Every interrupt of a tree of nested ones is answered exactly once as long as handlers leave the lines' flags alone
  (`IrqNesting.AnsweredExactlyOnce`). A handler that changes its line's flags and then acknowledges has it answered once
  exactly when it was answered automatically or the change leaves open who answers
  (`IrqNesting.ChangingIsAnsweredOnceExactly`); else the answers are two (`IrqNesting.AnsweredTwice`), or none, after which
  the line and those of lower rank are blocked (`IrqNesting.NeverAnswered`).
- The comment on `no_reentry` (include/jw/dpmi/irq_config_flags.h:29-31) promises that the line is masked during service.
  It is masked exactly when `no_interrupts` is set too (`IrqNesting.MaskedExactly`), and its handlers can have it come in
  again exactly when not both are set (`IrqNesting.ReentryExactly`). For handlers that leave the flags of lines and the
  interrupt flag alone, `no_reentry` has no say in it at all (`IrqNesting.QuietReentryExactly`); a line with that flag alone
  is served while it is being served (`IrqNesting.ServedDespiteNoReentry`).
- `irq_controller::assign` reads `enabled` after `remove` has cleared it, so a handler that moves from one line to another
  comes out disabled (`IrqLists.IrqTable.Assign`).
- `irq_mask::enabled` answers true for an idle line that is masked: it is right exactly about lines that are held
  (`IrqMask.Masks.Enabled`).
- Interrupts are on while `irq_mask::cli` works. Handlers that leave the lines as they were do no harm there
  (`IrqMaskSteps.BalancedIsHarmless`), nor does anything that unmasks no line in a gap (`IrqMaskSteps.GapsAreHarmless`);
  for each gap it is proved exactly when one `unmask` in it goes wrong (`IrqMaskSteps.FirstGapExactly`,
  `IrqMaskSteps.SecondGapExactly`, `IrqMaskSteps.ThirdGapExactly`).
- When the memory for a handler function runs out, the constructor of `exception_trampoline` leaves the vector leading into
  the block that `create` then returns to the pool (`Trampolines.Exceptions.Create`).
- A thread that can run may be delayed by every thread created meanwhile; without creations the bound is the number of
  threads (`Scheduler.BoundedWaiting`). With creations there is none: for every number of switches there is a run of as many
  that passes by a thread which could run throughout (`Scheduler.NoBoundWithCreations`).
- The stub escapes nothing. A payload comes back from its own sending and receiving, followed by the expansion of runs,
  exactly when there is neither `#` nor `*` in it (`GdbCodec.GoesThroughExactly`). A receiver that follows the protocol, which
  has no `$` in a packet and takes `}` for an escape, gets it exactly when there is none of `#`, `$`, `*` and `}` in it
  (`GdbStandard.StandardExactly`).
- In set 1, the release of the wake key is 0xe0 0xe3, and the second byte is taken for a prefix: whatever else is typed, in
  any set, comes back as it was typed exactly as long as that does not occur (`Keyboard.TypingComesBackExactly`). Behind the
  controller's translation, F7 is lost as well (`Keyboard.TranslatedComesBackExactly`).
- The two tables for set 1 scancodes differ at 0x00 and 0x41 (the F7 key); the two decoding routes agree exactly on streams
  without bytes whose low seven bits are one of those (`Scancode.RoutesMeanTheSame`).
- `rtc::now` multiplies days in 32 bits: right exactly up to the seventh of February 2106
  (`RtcDate.RightExactlyForThirtyTwoBits`).
- `shared_mutex` excludes exactly as long as its counter has a value for every participant (`SharedMutex.ExcludesExactly`).

## Model

| member | source | states |
|---|---|---|
| `OplLayout.PairingIsExact` | include/jw/audio/opl.h:68-87 | the tables from pairs to channels and back are each other's inverse, and a pair's halves are two different channels |
| `OplLayout.SlotOfChannel` | include/jw/audio/opl.h:61-66 | which operator slots a channel owns |
| `OplLayout.UsesByChannel` | include/jw/audio/opl.h:61-80 | the operators of a voice are those of its channel, or of both channels of its pair |
| `OplLayout.OperatorsMeetExactlyWhenOverlapping` | include/jw/audio/opl.h:61-87 | two places share an operator if and only if they are the same or one is a pair and the other one of its halves |
| `OplLayout.RegistersAreDistinct` | src/opl.cpp:165-189 | no two bytes of any records share a chip register |
| `OplLayout.WithKey` | src/opl.cpp:466-467 | setting the key bit changes that bit and nothing else |
| `OplLayout.WithConnection` | src/opl.cpp:489-495 | setting the connection bit changes that bit and nothing else |
| `OplRegisters.SweptCells` | src/opl.cpp:94-98 | the constructor's operator loop reaches exactly the first fourteen operators of each bank, and no register of another kind |
| `OplRegisters.BasicOpl.DriverWrite` | src/opl.cpp:48-78 | although selecting a register is skipped when the driver believes it selected, exactly the register asked for is written, and what the driver believes stays true |
| `OplRegisters.WritesElsewhere` | src/opl.cpp:64-76 | writing a record byte's register touches no other record byte that has a register for itself; on the OPL2, whose register numbers are cut to eight bits, no other than those of 0x01 and 0x04 |
| `OplRegisters.BasicOpl.DoWrite` | src/opl.cpp:198-208 | the bytes that differ from the cache, or all if forced, are written in order, each to its register or, on the OPL2, to the one of the lower bank; the cache has them all |
| `OplRegisters.BasicOpl.WriteRecord` | src/opl.cpp:191-208 | writing only bytes that differ leaves the chip with the whole new value wherever it agreed before, and touches no other record |
| `OplRegisters.PackIsBits` | src/opl.cpp:210-217 | each pair has its own bit in register 0x104 |
| `OplRegisters.BasicOpl.WriteOperator` | src/opl.cpp:165-172 | keeps the cache equal to the chip, for all operators that the chip has, and records the operator |
| `OplRegisters.BasicOpl.WriteChannel` | src/opl.cpp:174-189 | keeps the cache equal to the chip, for all channels that it has; of the secondary channel of an active pair only the first byte is written; a key that goes on is struck once |
| `OplRegisters.BasicOpl.WriteFourOp` | src/opl.cpp:155-158 | keeps the cache equal to the chip |
| `OplRegisters.BasicOpl.SetFourOp` | src/opl.cpp:210-217 | changes the one pair, keeps the cache equal to the chip |
| `OplRegisters.BasicOpl.WritePercussion` | src/opl.cpp:160-163 | keeps the cache equal to the chip |
| `OplRegisters.BasicOpl.WriteSetup` | src/opl.cpp:144-147 | keeps the cache equal to the chip |
| `OplRegisters.BasicOpl.WriteTimer` | src/opl.cpp:149-153 | keeps the cache equal to the chip but for the control register, whose reset bit does not stay |
| `OplRegisters.BasicOpl.constructor` | src/opl.cpp:80-99 | the cache agrees with the chip afterwards if and only if the operators that the sweep misses were zero before; on the OPL2 registers 0x01 and 0x04 are zero then, unlike the bytes cached for them |
| `OplRegisters.BasicOpl.Init` | src/opl.cpp:101-122 | sets up everything that is no operator or channel, coherently but for those two registers of the OPL2 |
| `OplRegisters.BasicOpl.ClearOperators` | src/opl.cpp:94-98 | zeros exactly the registers swept |
| `OplRegisters.BasicOpl.ClearChannels` | src/opl.cpp:88-92 | zeros the registers of all channels |
| `OplPolicy.ConsiderKeepsBest` | src/opl.cpp:327-343 | one more candidate keeps the running best the winner among all candidates seen, as defined by pairwise comparison; of equal ones the last wins |
| `OplPolicy.ScanFindsVacantOrBest` | src/opl.cpp:345-416 | a search ends at the first vacant place, or with the winner among the occupants of all places |
| `OplPolicy.ProbeMeaning` | src/opl.cpp:349-395 | what a search examines at a place stands for exactly the voices that inserting there evicts |
| `OplPolicy.ProbeIsOfThoseThatCount` | src/opl.cpp:376-392 | where two voices would be evicted, the sounding ones count, or both: the examined priority and start are their highest and latest, the examined end is the latest of both |
| `OplPolicy.RefusedExactlyWhenOutranked` | src/opl.cpp:315-459 | a voice is refused if and only if every place the mode permits holds a sounding voice of higher priority; a place chosen is permitted and holds none |
| `OplPolicy.QuietPlaceIsPreferred` | src/opl.cpp:327-343 | if any permitted place is free or silent, nothing sounding is evicted, whatever the priorities |
| `OplPolicy.ChosenEndsFirst` | src/opl.cpp:327-343 | the voice evicted is the one that ends, and then starts, earliest among those examined that may be evicted |
| `OplPolicy.ForceKeepsOutOfPairs` | src/opl.cpp:428-439 | with `force`, or `auto_force` while a pair is joined, no 2-operator voice goes into a pair, and it is refused if and only if it is outranked at every unpaired place |
| `OplPolicy.OthersRefuseOnlyWhenOutranked` | src/opl.cpp:428-458 | in all other modes it is refused if and only if it is outranked everywhere |
| `OplPolicy.FreeUnpairedIsTaken` | src/opl.cpp:428-428 | in every mode the first unpaired place that is free is taken, and keeps the voice out of the pairs |
| `OplPolicy.QuietUnpairedKeepsOutOfPairs` | src/opl.cpp:441-447 | with `yes`, or `automatic` while a pair is joined, an unpaired place where nothing sounds keeps the voice out of the pairs |
| `OplPolicy.PairsAreAsGood` | include/jw/audio/opl.h:242-250 | with `no`, with the automatic modes while no pair is joined, and with `yes` and `automatic` when something sounds at every unpaired place, pairs are as good as any place: a free one is taken before a voice gives way, and the voice that does is the first of all to end |
| `OplPolicy.FirstFreePairedIsTaken` | src/opl.cpp:358-416 | then, with no unpaired place free, the first pair with a free one gives it, primary before secondary |
| `OplPolicy.FirstFreeOfAllIsTaken` | src/opl.cpp:418-453 | a 4-operator voice, and any on an OPL2, gets the first free place |
| `OplPolicy.ScanOnePairMore` | src/opl.cpp:358-416 | a joined pair is examined once, both halves of another |
| `OplVoices.Opl.WriteVoice` | src/opl.cpp:481-497 | a voice's settings reach exactly its own operators and channels; the lower connection bit goes to the primary channel, the upper one to the secondary |
| `OplVoices.Opl.Remove` | src/opl.cpp:461-479 | key off, sustain level and release rate of its operators at their maximum, slot and owner cleared; every other voice keeps its sound, and nothing is struck |
| `OplVoices.Opl.RemoveAt` | src/opl.cpp:461-464 | the same for whatever is at a place, if anything |
| `OplVoices.Opl.MakeRoomForFour` | src/opl.cpp:286-291 | evicts the pair's voice and those on both halves, and joins the pair |
| `OplVoices.Opl.MakeRoomForTwo` | src/opl.cpp:275-283 | evicts the channel's voice and the one on its pair, and splits the pair |
| `OplVoices.Opl.Evict` | src/opl.cpp:270-298 | the voices that lose their owner are exactly those that share an operator with the place; the place's pair is joined or split, and no other |
| `OplVoices.Opl.Start` | src/opl.cpp:252-259 | the chip plays the voice, key on; other voices keep their sound |
| `OplVoices.Opl.InsertAt` | src/opl.cpp:270-298 | the voice leaves wherever it was and plays here, struck once; the voices evicted are exactly those overlapping; all others keep their owner and, here and on the chip left, their sound; the invariant of all chips and voices holds |
| `OplVoices.Opl.Probe` | src/opl.cpp:345-397 | what is examined at a place is what the policy function says |
| `OplVoices.Opl.SearchIn` | src/opl.cpp:345-356 | the loop over places is the policy's scan |
| `OplVoices.Opl.SearchPairs` | src/opl.cpp:358-416 | the loop over pairs, for a 2-operator voice, is the policy's scan of the pairs |
| `OplVoices.Opl.ChoosePlace` | src/opl.cpp:418-458 | the search, by chip type and mode, finds the place that the policy function names, whose meaning mode by mode is in the rows above |
| `OplVoices.Opl.Release` | src/opl.cpp:305-310 | key off before striking again keeps the invariant and the other voices |
| `OplVoices.Opl.Strike` | src/opl.cpp:303-313 | a voice already here keeps its place and plays anew: the chip strikes it once more, unless the chip's key is on and the voice's own is off |
| `OplVoices.Opl.Insert` | src/opl.cpp:300-459 | refuses, strikes again, or places as the policy says; evicts exactly the overlapping voices, none of which sounds with higher priority unless priorities are ignored; joins or splits no other pair; strikes the one voice; all other sounds stay, here and on the chip that the voice leaves |
| `OplVoices.PairsStayJoined` | include/jw/audio/opl.h:249-250 | with `auto_force`, whatever is inserted, pairs once joined stay joined, so the mode stays forced |
| `OplVoices.Opl.Stop` | src/opl.cpp:261-268 | key off on voice and chip; the end is never put later; the invariant holds; nothing is struck |
| `OplVoices.Opl.Update` | src/opl.cpp:231-239 | the settings reach the chip, frequency bits included; the key bit of chip and voice stays as it is, and so do other sounds |
| `OplVoices.Opl.MoveConstruct` | include/jw/audio/opl.h:378-389 | the new voice takes settings, place and slot; the old one ends without owner and with its key off |
| `OplVoices.Opl.MoveAssign` | include/jw/audio/opl.h:391-396 | the place held before is given up, with no other voice's sound touched; then settings, place and slot pass over, and the source is left without owner and with its key off |
| `OplVoices.Opl.Move` | src/opl.cpp:499-504 | the slot now holds the new voice, and nothing else changes |
| `OplVoices.Opl.Detach` | include/jw/audio/opl.h:333-333 | destroying a voice takes it off its chip |
| `OplVoices.Opl.RemoveAll` | src/opl.cpp:219-223 | destroying an allocator leaves none of its voices an owner, and others theirs |
| `OplVoices.ChipAdded` | include/jw/audio/opl.h:278-278 | the invariant holds with a new allocator over a chip of its own |
| `OplVoices.VoiceAdded` | include/jw/audio/opl.h:332-332 | and with a new voice |
| `OplVoices.OnlyTheUnusedMayGo` | include/jw/audio/opl.h:333-333 | a voice may disappear if and only if it is on no chip, and an allocator if and only if no voice is on it |
| `OplVoices.LiveVoicesShareNoOperator` | src/opl.cpp:270-298 | in every state between calls, no two voices on a chip share an operator or a key channel |
| `OplVoices.EvictedAreThoseOverlapping` | src/opl.cpp:270-298 | the voices in the slots that inserting clears are exactly the chip's voices that overlap the place |
| `OplVoices.EvictedAreNotOutranking` | src/opl.cpp:327-343 | at a place where the newcomer is not outranked, no voice to be evicted sounds with higher priority |
| `OplVoices.ElsewhereSoundsTheSame` | src/opl.cpp:481-497 | changing records at one place leaves the sound of every place that does not overlap it alone |
| `IrqLists.Line.Append` | src/irq.cpp:308-314 | a handler is linked at the end; list and flags stay consistent |
| `IrqLists.Line.Bypass` | src/irq.cpp:333-336 | the neighbours' links and the ends of the list pass the handler by, all others are unchanged |
| `IrqLists.Line.Unlink` | src/irq.cpp:331-340 | the list is the old one without the handler, linked both ways |
| `IrqLists.Line.Enable` | src/irq.cpp:279-280 | the line's flags stay those of its enabled handlers |
| `IrqLists.Line.Disable` | src/irq.cpp:291-296 | collected anew, the line's flags are those of the handlers still enabled |
| `IrqLists.Line.Call` | include/jw/dpmi/detail/irq_controller.h:34-44 | the chain of calls runs exactly the enabled handlers from here on, in order of assignment |
| `IrqLists.IrqTable.constructor` | include/jw/dpmi/detail/irq_controller.h:146-156 | no line is in use, every vector is the original |
| `IrqLists.IrqTable.Enable` | src/irq.cpp:272-283 | enables an assigned handler, and says which lines to unmask |
| `IrqLists.IrqTable.Disable` | src/irq.cpp:285-297 | disables, with all lines consistent |
| `IrqLists.IrqTable.Hook` | include/jw/dpmi/detail/irq_controller.h:168-177 | a line's vector is taken over when it comes into use, and its previous value kept |
| `IrqLists.IrqTable.Unhook` | include/jw/dpmi/detail/irq_controller.h:179-183 | the vector is given back; the line data goes with the last line |
| `IrqLists.IrqTable.Assign` | src/irq.cpp:299-322 | the handler is the last of its new line and of no other; enabled before or not, it comes out disabled if it moved |
| `IrqLists.IrqTable.Remove` | src/irq.cpp:324-348 | the handler is off its line; a line left empty gives its vector back |
| `IrqLists.IrqTable.Dispatch` | src/irq.cpp:148-196 | an interrupt runs exactly the line's enabled handlers, in order of assignment |
| `IrqLists.EnabledInOrder` | include/jw/dpmi/detail/irq_controller.h:34-44 | those are all the enabled handlers and no others, in the order of the list |
| `IrqNesting.ExactlyOneEoi` | src/irq.cpp:165-196 | one end of interrupt is owed if and only if it was automatic, or nobody acknowledged, or the flags at the first acknowledgement agree with those at entry on who sends it |
| `IrqNesting.ServiceKeepsRecords` | src/irq.cpp:161-164 | a tree of services puts every service that begins on record with its line and the flags at entry, the outermost first, and never takes one off |
| `IrqNesting.ServiceIsAnswered` | src/irq.cpp:158-196 | whatever handlers do and however interrupts nest, every service that begins is answered, in the end, as its record says, on its own line, and answers to others are undisturbed |
| `IrqNesting.AnsweredExactlyOnce` | src/irq.cpp:158-196 | when no handler changes flags, every service of the tree is answered exactly once, and the interrupt controller has the same lines in service as before |
| `IrqNesting.ChangingIsAnsweredOnceExactly` | include/jw/dpmi/detail/irq_controller.h:189-195 | a handler that changes its line's flags and then acknowledges has it answered once if and only if it was automatic or the change leaves open who answers |
| `IrqNesting.AnsweredTwice` | src/irq.cpp:186-195 | taking `late_eoi` off before acknowledging makes two ends of interrupt |
| `IrqNesting.NeverAnswered` | src/irq.cpp:186-195 | putting it on makes none, and lines of the same or a lower rank get through no more |
| `IrqNesting.FallbackExactly` | src/irq.cpp:181-183 | a service is the same as one with the fallback handler's acts behind those of the others, if the line had a fallback handler at the start and no handler of the line acknowledges, and else the same as one without them |
| `IrqNesting.AcknowledgedExactly` | src/irq.cpp:179-183 | an acknowledgement goes on record if and only if a handler of the line makes one, or the line has a fallback handler and that makes one; with flags left alone, with the line's flags |
| `IrqNesting.FlagsSetExactly` | src/irq.cpp:179-183 | the flags that handlers set stay, and those that the fallback handler sets, if and only if it runs |
| `IrqNesting.ServiceRestores` | include/jw/dpmi/detail/interrupt_id.h:51-68 | a service starts with clear exception globals, and gives them, the interrupt flag and all masks back as they were |
| `IrqNesting.OpenServiceServes` | src/irq.cpp:176-183 | with all lines unmasked, answered automatically and open to interrupts, the interrupts of the tree are all served, in order, those in a fallback handler if and only if it runs |
| `IrqNesting.MaskedExactly` | src/irq.cpp:174-184 | an unmasked line is masked when its handlers are entered and when they are through if and only if both `no_interrupts` and `no_reentry` are set; whatever nests in them, every line ends masked as deep as it was |
| `IrqNesting.MaskedServiceServesNot` | src/irq.cpp:174-184 | while a line is masked, no tree of interrupts of other lines has a service of it begin |
| `IrqNesting.ReentryExactly` | src/irq.cpp:174-184 | some handlers of a line can have it served again inside its own service if and only if not both flags are set |
| `IrqNesting.SteadyReentryExactly` | src/irq.cpp:174-184 | handlers that leave flags alone can if and only if, besides, they can answer it |
| `IrqNesting.QuietReentryExactly` | src/irq.cpp:174-184 | handlers that leave the interrupt flag alone too can if and only if `no_interrupts` is off and they can answer it, whatever `no_reentry` says |
| `IrqNesting.LowerOnesInterruptExactly` | include/jw/dpmi/irq_config_flags.h:19-27 | handlers that leave flags alone can be interrupted by another line of the same or a lower rank if and only if neither `late_eoi` nor `always_chain` is set |
| `IrqNesting.BlockedAtFirstExactly` | include/jw/dpmi/irq_config_flags.h:19-27 | such a line gets through from the start if and only if neither of those, nor `no_auto_eoi`, nor `no_interrupts` is set |
| `IrqNesting.ServedDespiteNoReentry` | include/jw/dpmi/irq_config_flags.h:29-31 | with `no_reentry` alone, a line is served inside its own service |
| `IrqService.Kernel.DoAcknowledge` | include/jw/dpmi/detail/irq_controller.h:189-195 | the first acknowledgement sends the end of interrupt unless it is deferred or sent; later ones send nothing |
| `IrqService.Kernel.Perform` | src/irq.cpp:179-183 | the acts of a handler are carried out, with every nested interrupt that gets through, as on values; the frame on top and the count are the same afterwards |
| `IrqService.Kernel.RunHandlers` | src/irq.cpp:174-184 | the kernel runs the handlers, and the fallback handler, as on values, where `IrqNesting.FallbackExactly` says when that is |
| `IrqService.Kernel.Enter` | src/irq.cpp:161-177 | a frame is pushed, the globals are put aside, the end of interrupt is sent at once if the flags allow it, interrupt flag and mask are set as the flags ask |
| `IrqService.Kernel.Conclude` | src/irq.cpp:184-195 | the mask is lifted, and what is owed at the end is sent |
| `IrqService.Kernel.HandleIrq` | include/jw/dpmi/detail/interrupt_id.h:51-68 | the kernel does exactly what the tree of services says on values; the stack of frames, the count, the saved globals and the interrupt flag are as before |
| `IrqMask.ReleasedLineIsRestored` | include/jw/dpmi/irq_mask.h:147-193 | for every interleaving of nested masks and unmasks, a line released in full is as before, or unmasked if it was unmasked in between |
| `IrqMask.Masks.Cli` | include/jw/dpmi/irq_mask.h:171-181 | the line is held one level deeper and masked; other lines' bits and counters are undisturbed |
| `IrqMask.Masks.Sti` | include/jw/dpmi/irq_mask.h:183-193 | the line is held one level less, and returns to its saved state at the last |
| `IrqMask.Masks.Unmask` | include/jw/dpmi/irq_mask.h:147-160 | an idle line is unmasked now, a held one once it is released |
| `IrqMask.Masks.Enabled` | include/jw/dpmi/irq_mask.h:162-168 | true if and only if the line is idle and masked, which is the right answer if and only if the line is held |
| `IrqMask.Masks.Run` | include/jw/dpmi/irq_mask.h:147-193 | ports and counters carry out any nested history for all lines at once |
| `IrqMaskSteps.BalancedIsHarmless` | include/jw/dpmi/irq_mask.h:147-193 | code that masks and unmasks in pairs, nested in any gap between any two accesses, leaves every line as it was |
| `IrqMaskSteps.GapsAreHarmless` | include/jw/dpmi/irq_mask.h:147-193 | as long as nothing is unmasked in a gap, every line comes out as if whole operations were carried out one after the other, and a held line is masked |
| `IrqMaskSteps.FirstGapExactly` | include/jw/dpmi/irq_mask.h:174-175 | an `unmask` between reading and writing the port is lost if and only if the line is idle, masked and on that port |
| `IrqMaskSteps.SecondGapExactly` | include/jw/dpmi/irq_mask.h:175-178 | one between writing the port and loading the counter goes wrong if and only if it is of the line being masked and nobody held it; the line then is held, but not masked |
| `IrqMaskSteps.ThirdGapExactly` | include/jw/dpmi/irq_mask.h:178-180 | one between loading and storing the counter goes wrong if and only if it is of the line being masked, and that was not held or is to return to being masked |
| `Trampolines.Chain.Install` | include/jw/dpmi/detail/cpu_exception.h:165-204 | the chain is the old one with the new handler in front, which passes on to what was hooked before |
| `Trampolines.Chain.Bypass` | src/cpu_exception.cpp:257-275 | neighbours, vector and chain-to addresses pass the handler by, all others are unchanged |
| `Trampolines.Chain.Uninstall` | src/cpu_exception.cpp:253-278 | removed from anywhere, the chain is the old one without the handler |
| `Trampolines.Chain.Chase` | include/jw/dpmi/detail/cpu_exception.h:171-204 | following the vector visits exactly the chain's handlers, newest first, and ends at the host's handler |
| `Trampolines.WithoutLinks` | src/cpu_exception.cpp:257-275 | a handler passed by on all sides can be left out of the chain |
| `Trampolines.Pool.constructor` | src/cpu_exception.cpp:403-405 | all blocks are on the free list, in order |
| `Trampolines.Pool.Allocate` | src/cpu_exception.cpp:30-37 | takes the first free block, or reports that there is none |
| `Trampolines.Pool.Deallocate` | src/cpu_exception.cpp:39-44 | the block is the first free one |
| `Trampolines.Exceptions.Allocate` | src/cpu_exception.cpp:30-37 | the block taken is neither free nor on any chain, for either kind of user |
| `Trampolines.Exceptions.Deallocate` | src/cpu_exception.cpp:347-352 | a redirection's block becomes free again, chains are undisturbed |
| `Trampolines.Exceptions.Create` | include/jw/dpmi/detail/cpu_exception.h:131-145 | installs in front, or fails; the state stays valid if and only if the failure is not that memory ran out, which leaves the one vector leading into a free block and all else in order |
| `Trampolines.Exceptions.Abandon` | include/jw/dpmi/detail/cpu_exception.h:189-199 | after that failure the vector leads to the block, the block is free, and the chain is no longer valid |
| `Trampolines.Exceptions.Destroy` | include/jw/dpmi/detail/cpu_exception.h:147-151 | in any order: the chain closes around the handler, its block is the first free one, other chains are unchanged; when no handler is left, the vector is the original again |
| `Trampolines.Exceptions.BlocksAreConserved` | src/cpu_exception.cpp:24-44 | free blocks, handlers of all vectors and blocks otherwise taken always add up to the pool |
| `Trampolines.Exceptions.HandlersAreDistinct` | include/jw/dpmi/detail/cpu_exception.h:159-194 | no block is on two chains or twice on one, and every handler is on one |
| `Scheduler.NextCanRun` | src/scheduler.cpp:188-218 | the thread switched to is the first after the current one, in cyclic order, that is neither suspended nor finished; possibly the current one itself |
| `Scheduler.ErasesExactlyTheDead` | src/scheduler.cpp:193-200 | a switch erases a thread if and only if it passes it and the thread is finished and detached |
| `Scheduler.TurnedOneMore` | src/scheduler.cpp:188-218 | the closed form of a switch follows from single steps of the iterator |
| `Scheduler.BoundedWaiting` | src/scheduler.cpp:188-218 | a thread that can run at every switch is chosen within as many switches as there are threads, plus one for each thread created meanwhile, however flags change |
| `Scheduler.NoBoundWithCreations` | include/jw/detail/scheduler.h:240-247 | for every number of switches, a run in which the current thread creates another before each one keeps a thread waiting that can run at all of them and was next to begin with |
| `Scheduler.DeadLeaveInTime` | include/jw/thread.h:206-214 | a finished, detached thread is gone within one rotation, plus one switch for each thread created meanwhile |
| `Scheduler.OnlyDeadLeave` | src/scheduler.cpp:193-200 | no thread leaves that is never both finished and detached at a switch |
| `Scheduler.Scheduler.Advance` | src/scheduler.cpp:190-204 | one step of the iterator: to the next thread in cyclic order, erasing a dead one |
| `Scheduler.Scheduler.Prepare` | src/scheduler.cpp:208-217 | a thread that has not started gets a copy of the main thread's context, returning to the thread function |
| `Scheduler.Scheduler.Search` | src/scheduler.cpp:188-218 | the loop ends, at the queue that the closed form names |
| `Scheduler.Scheduler.SwitchThread` | src/scheduler.cpp:179-224 | the queue afterwards is the closed form of the queue before; globals are saved with the old thread and restored with the new; one that starts does so on a copy of the main thread's registers; no thread that has started loses its context; the main thread stays first |
| `Scheduler.Scheduler.CreateThread` | include/jw/detail/scheduler.h:240-247 | the new thread has the highest number, and so stands right before those that precede the current one |
| `Scheduler.Scheduler.constructor` | src/scheduler.cpp:29-39 | only the main thread, running |
| `GdbCodec.ComesBackExactlyWithoutStar` | src/debug.cpp:842-860 | a stepwise decoder gives a compressed payload back if and only if there is no `*` in it |
| `GdbCodec.ExpandUndoesCompress` | src/debug.cpp:842-860 | from any output so far, decoding what compression made appends the payload |
| `GdbCodec.CompressIsShort` | src/debug.cpp:821-860 | compression makes nothing longer, so a payload that passes the size check fits its frame |
| `GdbCodec.RunsBecomeShort` | src/debug.cpp:842-860 | exactly how long a run of any length becomes: three bytes for every 98, and at most five for the rest |
| `GdbCodec.CompressKeepsFree` | src/debug.cpp:852-856 | `#`, `$` and bytes outside 0x20 to 0x7e occur after compression if and only if they did before: no count byte is any of those |
| `GdbCodec.ReceivedExactlyWithoutHash` | src/debug.cpp:862-866 | the receiver splits a frame at the right `#` and finds the compressed body, leaving what follows, if and only if there is no `#` in the payload |
| `GdbCodec.AnsweredExactly` | src/debug.cpp:963-970 | a packet is taken and answered with `+` if and only if the two characters are the digits of its checksum, answered with `-` if and only if they are other digits, and else with nothing; the sender takes `+` and nothing else for an acknowledgement, and on `-` sends its last frame again |
| `GdbCodec.FrameIsAcknowledged` | src/debug.cpp:816-976 | between two stubs, a frame whose payload has no `#` is answered with `+`, which is taken for an acknowledgement, also when it is sent again |
| `GdbCodec.GoesThroughExactly` | src/debug.cpp:816-976 | sent, received by the stub's own receiver and expanded, a payload comes back if and only if there is neither `#` nor `*` in it |
| `GdbStandard.StandardExactly` | src/debug.cpp:839-869 | from the frame, a receiver that rejects `$` in packets, expands runs and undoes escapes gets the payload if and only if there is none of `#`, `$`, `*` and `}` in it |
| `GdbCodec.TwoDigits` | src/debug.cpp:444-473 | two characters decode to a byte if and only if they are that byte's digits |
| `GdbCodec.DigitsAreLowerCase` | src/debug.cpp:444-473 | the digits are those from 0 to 9 and from a to f, and no other characters |
| `GdbCodec.ChecksumIsTotal` | src/debug.cpp:724-730 | the checksum is the sum of all bytes, modulo 256 |
| `GdbCodec.HexRoundTrip` | src/debug.cpp:475-523 | characters decode to bytes if and only if they are what those bytes encode to, for any length |
| `GdbCodec.Sum` | src/debug.cpp:724-730 | the loop computes the checksum, modulo 256 |
| `GdbCodec.Encode` | src/debug.cpp:506-523 | the loop writes the digits and nothing else |
| `GdbCodec.DecodeDigits` | src/debug.cpp:444-473 | the loop computes the number, cut to 32 bits, or fails on anything that is no digit |
| `GdbCodec.ReverseDecode` | src/debug.cpp:475-486 | the loop reads as many bytes as fit, or fails on anything that is no digit |
| `GdbCodec.FindEndOfRun` | src/debug.cpp:845-849 | the end of the run at the front |
| `GdbCodec.Emit` | src/debug.cpp:850-858 | writes a run compressed or as it is, in no more room than the run had |
| `GdbCodec.PackRun` | src/debug.cpp:843-860 | compressing one run leaves everything behind it unread and unchanged, even in the same buffer |
| `GdbCodec.Pack` | src/debug.cpp:839-860 | compressing a payload inside the frame's own buffer gives what compressing a copy gives |
| `GdbCodec.Stub.Transmit` | src/debug.cpp:839-869 | the buffer and the line get exactly the frame |
| `GdbCodec.Stub.AwaitAck` | src/debug.cpp:827-837 | goes on only once acknowledged; a packet that comes instead ends the attempt |
| `GdbCodec.Stub.Send` | src/debug.cpp:816-870 | halts on payloads that do not fit; sends the frame last, or leaves the transmit buffer alone |
| `GdbCodec.Stub.GetLine` | src/debug.cpp:942-943 | reads up to the first `#`, unless the buffer is full or the input ends before |
| `GdbCodec.Stub.CheckSum` | src/debug.cpp:963-975 | answers 0x2b if the two characters are the digits of the body's checksum, 0x2d if they are other digits, and nothing if they are no digits |
| `GdbCodec.Stub.ReceivePacket` | src/debug.cpp:939-975 | the rest of a packet, as the parser on values says, with flags and answer; 0x2d to one that is too long |
| `GdbCodec.Stub.Receive` | src/debug.cpp:900-976 | whatever comes in is taken as the parser on values says; a packet whose two characters match its body is received and answered 0x2b, one with other digits is not, and is answered 0x2d |
| `Scancode.TablesAgree` | src/scancode.cpp:8-38 | the two tables differ at 0x00 and 0x41 and nowhere else |
| `Scancode.CodeMeansTheSame` | src/scancode.cpp:228-271 | after any prefix, a set 1 code and its translation undone mean the same key if and only if it is not one of those |
| `Scancode.RoutesMeanTheSame` | include/jw/io/detail/scancode.h:53-62 | decoding as set 1, and undoing translation byte by byte and decoding as set 2, give the same events and the same pending state if and only if no byte's low seven bits are 0x00 or 0x41 |
| `Scancode.DecodeUndone` | include/jw/io/detail/scancode.h:53-62 | a break code that comes apart into two bytes is one event |
| `Scancode.FirstSequence` | src/scancode.cpp:234-275 | the first complete sequence is one event, and the rest decodes as if it stood alone |
| `Scancode.RemainderMeansTheSame` | src/scancode.cpp:234-277 | taking complete sequences out of the queue leaves the same pending |
| `Scancode.ChunksMeanTheSame` | src/scancode.cpp:228-278 | for every set and every way of cutting a stream into chunks, draining after each gives the events and the pending state of the whole |
| `Scancode.DecodeInParts` | src/scancode.cpp:234-275 | decoding carries its state over any cut |
| `Scancode.ScancodeQueue.Put` | include/jw/io/detail/scancode.h:53-62 | queues a byte, with its translation undone if asked |
| `Scancode.ScancodeQueue.Extract` | src/scancode.cpp:228-278 | takes out exactly the first complete sequence and returns its event, which `Keyboard.StrokeComesBack` says is the key typed, or takes nothing |
| `Scancode.ScancodeQueue.Drain` | src/keyboard.cpp:70-70 | takes out all complete sequences, and returns the events of the whole queue |
| `Keyboard.KeyIsTheOneMeant` | src/scancode.cpp:40-86 | for every prefix and set 2 code, the key decoded is the one that keyboards mean by it, by name; where they mean none, a plain code is taken as one of set 3, and another is kept with its prefix |
| `Keyboard.SetsHaveTheSameKeys` | src/scancode.cpp:28-38 | every key of set 1 is the key of set 2 behind the same prefix |
| `Keyboard.StrokeComesBack` | src/scancode.cpp:228-278 | what a keyboard sends for a key going down or up, in any set, is decoded to that key and direction, whatever follows, but for the wake key going up in set 1 |
| `Keyboard.TypingComesBackExactly` | src/scancode.cpp:228-278 | any sequence of keys going down and up comes back as it was typed, with nothing pending, if and only if, in set 1, the wake key does not go up |
| `Keyboard.TranslatedComesBackExactly` | include/jw/io/detail/scancode.h:53-62 | a set 1 key undone to set 2 comes back if and only if it is not F7, nor the wake key going up |
| `Uart.Streambuf.WriteData` | src/rs232.cpp:574-574 | needs room in the sixteen-byte buffer, which every caller has |
| `Uart.Streambuf.ReadStatus` | src/rs232.cpp:471-478 | bytes leave the UART in order; an empty transmitter has none left; errors stay until data is read |
| `Uart.Streambuf.Put` | src/rs232.cpp:564-589 | realtime bytes first, then stream bytes up to the stop if sending is allowed, as many as there is room for; from an empty transmitter on, nothing that may go is left waiting beside a free place |
| `Uart.Streambuf.PutRealtime` | src/rs232.cpp:568-576 | as many realtime bytes as fit, in order |
| `Uart.Streambuf.PutStream` | src/rs232.cpp:578-589 | as many stream bytes as fit before the stop, in order |
| `Uart.Streambuf.GetAll` | src/rs232.cpp:515-562 | receives one byte for each reading with data, each with the errors reported for it, and stops at the first without; what the buffer gets and whether sending is allowed afterwards follow from those |
| `Uart.Streambuf.Exchange` | src/rs232.cpp:496-590 | however the UART drains, no byte is lost, repeated or reordered, and none of the stream leaves while that is forbidden; what is received, what becomes of it, and where the exchange ends is as the course of its readings says; if it ends with the transmitter empty, then the UART is full or nothing that may be sent is left |
| `Uart.Streambuf.DoSync` | src/rs232.cpp:495-597 | the same for the whole call, both ways, which at most queues one byte for flow control, as the room left in the receive buffer demands; in the end interrupts come exactly while there is something to send |
| `Uart.ReceivedIsData` | src/rs232.cpp:495-562 | what an exchange receives is the data of its readings, in order, up to the one where it ends, with as many as asked for; after an overflow, sixteen at least, the first of them unannounced |
| `Uart.Port.OneArrives` | src/rs232.cpp:507-535 | a byte is stored unless it is for flow control, ends the input, or finds no room; 0x11 and 0x13 without error switch sending on and off |
| `Uart.Port.RxInParts` | src/rs232.cpp:519-539 | what arrives in parts is stored as it would be at once, up to the room there is |
| `Uart.Port.CanTxInParts` | src/rs232.cpp:507-514 | the last byte for flow control decides, in whatever parts they come |
| `Uart.PlainPortStoresAll` | src/rs232.cpp:515-535 | without flow control by bytes, without breaks that end the input, and with room, the reader gets every byte that arrives |
| `Uart.Streambuf.Store` | src/rs232.cpp:381-385 | characters written behind the stop do not count as meant to be sent |
| `Uart.Streambuf.InterruptExactlyWhenUseful` | src/rs232.cpp:432-445 | interrupts come exactly while an empty UART would be given a byte, unless the port is closing with nothing left but a stream that may not be sent |
| `Uart.Streambuf.UpdateTxStop` | src/rs232.cpp:423-430 | everything up to the position is appended to what is meant to be sent |
| `Uart.Streambuf.QueueRealtime` | src/rs232.cpp:257-263 | the byte is appended to the realtime bytes |
| `Uart.Streambuf.constructor` | src/rs232.cpp:141-228 | nothing is meant to be sent but the first byte for flow control |
| `Uart.OfMore` | src/rs232.cpp:568-589 | writing bytes of one kind appends to that kind and leaves the order of the other |
| `RtcDate.FormulaCountsDays` | src/chrono.cpp:417-423 | for every date since 1970 the closed form is the number of days counted by years and months |
| `RtcDate.YearsByLeaps` | src/chrono.cpp:417-423 | days before a year, by counting leap years |
| `RtcDate.RightExactlyForThirtyTwoBits` | src/chrono.cpp:425-428 | the time is right if and only if the day is at most number 49710 |
| `RtcDate.LastRightDay` | src/chrono.cpp:425-425 | that is the seventh of February 2106 |
| `RtcDate.RightInThisCentury` | src/chrono.cpp:412-428 | with two decimal digits for the year it is always right |
| `RtcDate.BcdRoundTrip` | src/chrono.cpp:46-49 | a number comes back from exactly its own digits |
| `SharedMutex.StepKeepsFlag` | include/jw/shared_mutex.h:31-56 | every atomic operation of any participant keeps the flag held by at most one, and set exactly while it is held |
| `SharedMutex.StepKeepsCount` | include/jw/shared_mutex.h:31-56 | and keeps the counter right, and zero while access is exclusive |
| `SharedMutex.RunExcludes` | include/jw/shared_mutex.h:31-56 | in every reachable state an exclusive holder is alone, and the counter is the number of participants that have entered |
| `SharedMutex.ExcludesExactly` | include/jw/shared_mutex.h:14-15 | this holds in all runs if and only if there are at most as many participants as the counter has values |
| `SharedMutex.LockAlone` | include/jw/shared_mutex.h:31-38 | without interference an attempt succeeds if and only if nobody has entered; given up or failed, it leaves no trace |
| `SharedMutex.ShareAlone` | include/jw/shared_mutex.h:49-56 | without interference an attempt succeeds whoever else shares, and giving it up undoes it |

## Left out

- OplRegisters.BasicOpl.WriteTimer: the control register is excluded from coherence, because its interrupt reset bit does not stay set in the chip.
- OplRegisters.BasicOpl.constructor: takes the chip over after detection, which leaves some register selected on the driver's side and the chip's alike.
- OplVoices.Opl.Insert: the estimate of when a sound will have faded, and the readings of the clock, are arguments; the request comes before the largest time there is.
- OPL2 registers of the upper bank: numbers are cut to eight bits there, and bytes of the upper bank have no register for themselves; that nothing else is disturbed is proved for all writes but to operators and channels that the chip does not have.
- Copying voices, `opl_config` updates, `basic_opl::reset`, frequencies, detection of the chip and all waiting between accesses.
- IrqLists.IrqTable.Assign: handlers registered as fallback are not on the lists modelled; `IrqService` has them as a second set of handlers for a line.
- IrqService.Kernel.HandleIrq: the stack switch, the saved floating-point state, statistics and the halts on exceptions and, in debug builds, on a missing end of interrupt; a handler's work is any sequence of acknowledgements, flag changes, changes of globals and of the interrupt flag, and nested interrupts. An interrupt that cannot get through at its moment is dropped from the tree; a pending one is a tree in which it comes up later. The handler that `always_chain` chains to is taken to send the end of interrupt.
- IrqMask.Masks.Run: whole operations are single steps here, while interrupts may fall between their accesses in the code; `IrqMaskSteps` has every access as a step. No line is masked 2147483648 levels deep at once, where the count would reach the counter's saved bit.
- Trampolines.Exceptions.Create: running the handlers, entry points for the two frame layouts and the code bytes of a block; that the link of a free block lies over those bytes is why a vector into one is harmful.
- Real-mode interrupt chains, asynchronous signals and the redirection of control out of an exception.
- Scheduler.Scheduler.SwitchThread: flags do not change during one switch; between switches they may change in any way. With no thread that can run, the loop of the code never ends; the model asks for one. Stacks, unwinding, `atexit` lists and invoked functions are left out, as is the wrap of thread numbers.
- GdbCodec.Stub.Receive: input that ends stands for a line that reports its end; waiting for more is left out, and so is what the stub prints. A request to resend answers with whatever the transmit buffer holds.
- GdbCodec.DecodeDigits: bytes of 0x80 and above are taken as no digits. The table in the code ends at 0x7f, and its size test rejects bytes above 0x80 only: what lies behind the table, where 0x80 is looked up, is not part of the model.
- GDB escapes of binary data, commands, registers, stepping and breakpoints.
- Scancode.ScancodeQueue.Put: the capacity of the queue. Names of keys stand for their numbers.
- Uart.Streambuf.Exchange: readings of the UART are an argument, and the loop may run out of them; waiting for more is left out. Where error marks stand in received data, `underflow` and putback, closing, line parameters and the dispatch by interrupt identification are left out.
- RtcDate.UnixTime: fractions of a second and the registers' update cycle.
- SharedMutex.Step: operations are atomic and seen in one order by all; waiting and the deadlock error in interrupts are left out.
- Locked memory, DPMI calls, ports, video, PCI, PS/2 commands, Sound Blaster, MPU-401 and the other mutexes and futures.
