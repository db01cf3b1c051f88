# IScanU in Dafny

IScanU writes every instruction word of a range onto a guarded page, executes it on a real processor and
compares what happens with what a disassembler says. This project models the parts of it whose behaviour is
decided by their own code, and proves what they are for.

**Scan engine** (`words`, `feeder`, `scanner`, `manager`). A unit is the state a handler changes; a handler call
is one atomic step, an alarm of the manager another, and the processor's answer (a fault or a hang, now or later)
is free. `UnitModel` and `RunModel` are the step relation, `ScannerUnit` and `Manager` the code in its own form,
proved against it. Instruction words are 32 bits and wrap around.

**Variable-length search** (`rv64gc`, `rv64gcrun`). The two-mode enumerator of RV64GC, with the page as an array,
against an arbitrary processor; and a whole run, with the parcels shared out over units.

**Blacklists** (`bits`, `blacklist`). Both blacklists, at any word width, each against the set of words its masks
stand for.

**Mask compression** (`firstpass`). The first pass of the analysis scripts.

**A64 semantics** (`tcg`, `a64flags`, `bitfield`, `shiftaliases`, `rndshift`, `logicalimm`, `exclusives`). The words
the translator emits, given the plain meaning of each TCG operation, against the definitions of the Arm
Architecture Reference Manual (DDI 0487): `AddWithCarry` and `ConditionHolds` of Appendix J1, the bitfield moves
and `EXTR` of section C6.2, the logical immediates of section C3.4.2. Words are natural numbers below a power of
two and their width is a parameter, so that each result holds for W and X registers alike.

**RISC-V decoder** (`riscvops`, `riscvoperands`, `riscvwords`, `riscvparcels`, `riscvparcelwords`, `riscvdisas`,
`riscvpseudo`). Opcode and operand decoding, decompression and the lift to pseudo-instructions, on 64-bit words, for
RV32, RV64 and RV128, against the RISC-V Unprivileged ISA 20191213: the formats of section 2.3, the compressed
instructions of chapter 16, the fixed bits of chapter 24 and the pseudo-instructions of chapter 25; and the words the
decoder knows of the privileged architecture and of RV128.

**Mnemonics** (`mnemonics`). The linked list of customised mnemonics kept by Capstone, against a finite map.

`arithmetic` and `wrappers` hold what the others share.

Some promises turned out not to hold everywhere. The code is kept as it is; each has its exact condition and an
input or a run that shows it:

- The split of a range over units is a partition exactly if there is more than one word or only one unit
  (`Manager.SplitCorrectIff`, `Manager.SingleWordSplit`).
- An alarm signals a unit that has moved on exactly if all its handler calls since the last alarm were hangs
  with no blacklisted word after them (`RunModel.SignalMeansNoVisibleCall`, `RunModel.FalseAlarmReached`).
- A compressed line stands for its group exactly if its first word has no bit under the mask
  (`FirstPass.LineMeansGroupIff`, `FirstPass.OneToFourMisread`).
- A store-exclusive without a reservation succeeds exactly at address -1, if the value left in the monitor is in
  memory (`ExclusiveModel.ClearedMonitorMatchesLastAddress`, `ExclusiveModel.LastByteWithoutReservation`). After a
  load wider than the store, memory can be written and failure reported all the same, which the comment in the
  translator does not say (`ExclusiveModel.FailedButWrittenIff`, `ExclusiveModel.FailedButWrittenReached`).
- A lifted instruction is read back exactly unless it is shown as `ret` with an offset
  (`RiscvPseudo.ShownReadsBack`, `RiscvPseudo.ReturnLosesOffset`).
- `riscvcOnlyFetch` answers with a word beyond the range in exactly one case (`Feeder.RiscvcOnlyFetch`,
  `Feeder.OvershootFromTwo`).
- A variable-length run tries every admissible 4-byte word the processor wants more of, but those with a nonzero
  upper half on the last parcel of each unit (`VleRun.RunTriesAllBut`, `VleRun.SecondWordLeftOut`).

## Model

| member | source | states |
|---|---|---|
| Words.AdmissibleSplit | src/Feeder.cpp:9-26 | the admissible words of a stretch are those of its first part followed by those of the rest, across the wrap-around |
| Feeder.Exhaustive | src/Feeder.cpp:9-26 | answers with the next word that is not blacklisted, having passed over exactly the blacklisted words before it, or reports that the final word has been passed; the counter moves by the words skipped |
| Feeder.RiscvgOnlyFetch | arch/RV64G/ArchFunctions.cpp:65-82 | the same in steps of 4 when current and final word are congruent; when they are not, it never stops at the final word |
| Feeder.RiscvcOnlyFetch | arch/RV64GC/ArchFunctions.cpp:106-131 | the first word after the current one that is neither blacklisted nor congruent to 3 modulo 4; none exactly if there is none in range, except that final + 1 is answered in exactly one case; with the largest word as final it never stops there but goes on from 0 |
| Feeder.OvershootFromTwo | arch/RV64GC/ArchFunctions.cpp:106-131 | such a case: from word 2 with 3 as the final word and nothing blacklisted it answers 4 |
| UnitModel.NextWordInSteps | src/Feeder.cpp:9-26 | the stage's answer is determined by its specification, is one step further along the list of admissible words, and never goes past the final word |
| UnitModel.EntryKeepsInv | src/Handlers.cpp:87-105 | entry establishes that the words analysed followed by the words still to come are the words of the range, with every word passed accounted for by a counter |
| UnitModel.FaultKeepsInv | src/Handlers.cpp:19-39 | a fault keeps that invariant |
| UnitModel.HangKeepsInv | src/Handlers.cpp:107-126 | a hang keeps that invariant |
| ScannerUnit.Scanner.constructor | src/ScannerManagerMC.cpp:36-42 | a new unit waits at the first word of its range with its counters at zero |
| ScannerUnit.Scanner.EntryHandler | src/Handlers.cpp:87-105 | does the entry step: searches on if the first word is blacklisted, otherwise writes it |
| ScannerUnit.Scanner.FaultHandler | src/Handlers.cpp:19-39 | does the fault step: analyses the current word, counts it and writes the next one or stops |
| ScannerUnit.Scanner.HangHandler | src/Handlers.cpp:107-126 | does the hang step: as for a fault, but the word is not counted as executed |
| ScannerUnit.Scanner.PtraceLoop | src/Scanner.cpp:94-145 | the tracing loop ends, having analysed exactly the admissible words of the range in order: the same as the handlers |
| ScannerUnit.Scanner.SkipBannedStart | src/Scanner.cpp:113-118 | the loop is entered in the state after the entry step |
| ScannerUnit.Scanner.ScanOne | src/Scanner.cpp:120-138 | one iteration is one fault step |
| RunModel.RunKeepsInv | src/Handlers.cpp:19-126 | every interleaving of start, fault, hang and alarm steps keeps the invariant of every unit |
| RunModel.FinishedRunCoversRange | src/Handlers.cpp:64-82 | when the manager declares the run finished, the units together have analysed exactly the admissible words of the range, in order, and written no others |
| RunModel.EachWordOnce | src/Handlers.cpp:19-126 | the same word by word: analysed exactly if in range and not blacklisted, and none twice |
| RunModel.NeverBanned | src/Handlers.cpp:87-104 | at no moment of any run has a blacklisted word been written for execution or analysed |
| RunModel.CountersAddUp | src/Handlers.cpp:26-28 | at every moment numInstrExec, the hangs and a blacklisted first word add up to the distance from the start; at the stop to that of the final word, and one more if it was analysed |
| RunModel.CallsAreAnalyses | src/Handlers.cpp:24 | over any run the analyses are as many as the fault and hang handler calls |
| RunModel.HandlerCallsBounded | src/Handlers.cpp:19-126 | no run has more handler calls than there are admissible words, and a finished run has exactly as many |
| RunModel.CanFinish | src/Handlers.cpp:64-82 | no reachable state is stuck: whatever words are the ones that hang, some continuation finishes the run in which exactly those are handled by hang signals, with at most two alarms for each of them and one more |
| RunModel.CallsCounted | src/Handlers.cpp:71-76 | the counter stands still over a series of handler calls exactly if all were hangs with nothing skipped |
| RunModel.SignalMeansNoVisibleCall | src/Handlers.cpp:71-76 | the alarm newly signals a unit exactly if it has not stopped and every call since the last alarm left the counter alone |
| RunModel.PendingUntilHandled | src/Handlers.cpp:64-126 | over any calls of its handlers a unit stays signalled exactly if none of them was for a hang |
| RunModel.FalseAlarm | src/Handlers.cpp:71-76 | so a unit that handled a hang and moved on is signalled once more |
| RunModel.FalseAlarmReached | src/Handlers.cpp:64-82 | a run that gets there: start, alarm, hang, alarm leaves a unit signalled that has just moved on to its second word |
| Manager.SplitIsEven | src/ScannerManagerMC.cpp:28-62 | the ranges handed out are non-empty, consecutive, make up [first, last], and have between q and q + n words |
| Manager.SplitExact | src/ScannerManagerMC.cpp:28-62 | there are as many units as threads, but no more than the range has steps and never none; each is given the quotient, the first one word more and the last the remainder too |
| Manager.SingleWordSplit | src/ScannerManagerMC.cpp:28-33 | with one word and several units, every later range is inverted and would take its unit through all words |
| Manager.SplitCorrectIff | src/ScannerManagerMC.cpp:28-62 | the split is a partition of the range exactly if there is more than one word or one unit |
| Manager.RunCoversRange | src/ScannerManagerMC.cpp:28-62 | for any number of units, blacklist and interleaving, a finished run over the ranges handed out has analysed every admissible word of [first, last] exactly once and nothing else |
| Manager.ScannerManager.constructor | src/ScannerManagerMC.cpp:28-62 | sets up one new unit for each of those ranges, with the number of units clamped |
| Manager.ScannerManager.SetUpUnits | src/ScannerManagerPtrace.cpp:28-59 | the loop advancing the bounds hands out those ranges one after the other, with the bounds truncated to words |
| Manager.ScannerManager.AlarmHandler | src/Handlers.cpp:64-82 | signals and updates every unit as the alarm step says, and declares the run finished exactly if all units had stopped |
| Manager.ScannerManager.Inspect | src/Handlers.cpp:67-76 | the part of one unit in that loop |
| VleModel.Deconstruct | arch/RV64GC/ArchFunctions.cpp:134-153 | construct undoes the taking apart of a word into parcel and upper half |
| VleModel.AttemptMade | arch/RV64GC/ArchFunctions.cpp:73-84 | an attempt, with or without a size error, adds itself to exactly the attempts made before it |
| VleModel.CloserLowersRank | arch/RV64GC/ArchFunctions.cpp:138-193 | the lexicographic order on parcels left, size and upper halves left is well-founded, with an explicit bound |
| VleModel.SweepTriesWhatIsDue | arch/RV64GC/ArchFunctions.cpp:138-193 | what a stopped unit has tried: each admissible parcel at size 2, and each that raised a size error with exactly its admissible upper halves, those of the last parcel only up to that of the final word |
| VleModel.FullSweepOnce | arch/RV64GC/ArchFunctions.cpp:138-193 | no attempt is made twice |
| VleUnit.RiscvUnit.constructor | src/Scanner.cpp:36-52 | the page is all filler and the instruction pointer leaves room for one 2-byte instruction at its end |
| VleUnit.RiscvUnit.WriteStdPage | src/Scanner.cpp:31-33 | fills the page with filler |
| VleUnit.RiscvUnit.WriteInstruction | src/Scanner.cpp:26-28 | the last bytes of the page become the low bytes of the word, the rest stays filler |
| VleUnit.RiscvUnit.PageReads | src/Scanner.cpp:26-33 | what the processor reads there, least significant byte first, is the low half of the word or all of it, and the filler 0x9002 at every even offset before it |
| VleUnit.RiscvUnit.VleExhaustive | arch/RV64GC/ArchFunctions.cpp:138-193 | chooses the next attempt: lexicographically closer to the end and with nothing admissible left out, or stops when all attempts are made; the page is ready for the chosen size; numInstrExec moves by exactly the words gone past |
| VleUnit.RiscvUnit.NextUpper | arch/RV64GC/ArchFunctions.cpp:155-176 | the next admissible upper half, or the final word reached, or the switch back to 2 bytes when none is left; counts each upper half gone past |
| VleUnit.RiscvUnit.NextParcel | arch/RV64GC/ArchFunctions.cpp:178-192 | the next admissible parcel, or none below that of the final word; counts each parcel gone past |
| VleUnit.RiscvUnit.Analyse | arch/RV64GC/ArchFunctions.cpp:73-84 | a fault just beyond a 2-byte instruction raises sizeError and nothing else |
| VleUnit.RiscvUnit.EntryHandler | src/Handlers.cpp:87-105 | leaves the unit running on the first admissible parcel or finished |
| VleUnit.RiscvUnit.FaultHandler | src/Handlers.cpp:19-39 | at its return the instruction ends at the page end, its bytes are those of the current word and all others are filler; one attempt has been made, the measure has decreased, and numInstrExec and the hangs add up to the attempts and the words gone past |
| VleUnit.RiscvUnit.HangHandler | src/Handlers.cpp:107-126 | the same for a hang, across both size switches; the attempt is not counted by numInstrExec |
| VleUnit.RiscvUnit.Scan | arch/RV64GC/ArchFunctions.cpp:138-193 | against any processor the run ends, with exactly the attempts due made once each, each parcel extended exactly if the processor raised a size error on it, and numInstrExec accounting for all but the hangs |
| VleRun.ScanRanges | src/ScannerManagerMC.cpp:28-62 | the units of a whole run, each over the range handed out to it, all end with the attempts due |
| VleRun.UnitTries | arch/RV64GC/ArchFunctions.cpp:138-193 | a unit tries exactly what is wanted of its own parcels but the 4-byte words on its last one with a nonzero upper half |
| VleRun.RunTriesAllBut | arch/RV64GC/ArchFunctions.cpp:138-193 | any number of units together try exactly what is wanted of the whole range, but the 4-byte words with a nonzero upper half on the last parcel of some unit: how many parcels lose their extensions is how many units there are |
| VleRun.SecondWordLeftOut | arch/RV64GC/ArchFunctions.cpp:155-160 | with the parcels 0 and 1 for one unit and a processor that always wants more, the word 0x00010001 is never tried |
| VleRun.TriedByOne | arch/RV64GC/ArchFunctions.cpp:138-193 | no attempt is made by two units |
| MaskExpansion.MatchesBits | src/Blacklist.cpp:71-94 | comparing under the care mask is agreeing on every bit that is not a don't-care bit |
| MaskExpansion.FillInjective | src/Blacklist.cpp:41-54 | different counter values fill in to different words |
| MaskExpansion.MatchIsFilled | src/Blacklist.cpp:41-54 | each matching word is the filling of exactly its own don't-care bits packed together |
| MaskExpansion.ExpansionIsTheMatchSet | src/Blacklist.cpp:30-56 | the expansion of a mask with k don't-care bits is the set of the words that match it, and has 2^k elements |
| MaskExpansion.ExpansionDenotes | src/Blacklist.cpp:30-56 | adding it to a set that stands for some masks gives the set for those and the new one |
| Blacklists.CountDontCares | src/Blacklist.cpp:31-37 | counts the set bits of the don't-care mask |
| Blacklists.Instance | src/Blacklist.cpp:42-53 | the nested loops with the carried k deal the counter's bits out to the don't-care positions in increasing order |
| Blacklists.Blacklist.constructor | src/Blacklist.cpp:4-11 | the set stands for the masks of the start list |
| Blacklists.Blacklist.Add | src/Blacklist.cpp:30-56 | the set becomes the one for the masks so far and the new one |
| Blacklists.Blacklist.InsertInstances | src/Blacklist.cpp:41-55 | inserts the whole expansion and nothing else |
| Blacklists.Blacklist.AddWord | src/Blacklist.cpp:26-28 | adds one word, like a mask without don't-care bits |
| Blacklists.Blacklist.Search | src/Blacklist.cpp:17-24 | finds a word exactly if some mask added matches it |
| Blacklists.LowMemoryBlacklist.constructor | src/Blacklist.cpp:61-65 | the pairs stand for the masks of the start list |
| Blacklists.LowMemoryBlacklist.Add | src/Blacklist.cpp:89-94 | adds the pair of value and care mask |
| Blacklists.LowMemoryBlacklist.AddWord | src/Blacklist.cpp:83-87 | adds the word with every bit cared for |
| Blacklists.LowMemoryBlacklist.Search | src/Blacklist.cpp:71-81 | finds a word exactly if some mask added matches it |
| Blacklists.SearchBoth | src/Blacklist.cpp:17-94 | after the same additions both blacklists answer alike on every word |
| FirstPass.IsPower2Correct | analysis/firstPass.py:9-10 | the bit trick recognises exactly the powers of two, negative numbers included |
| FirstPass.GroupsMakeUpInput | analysis/firstPass.py:21-42 | the groups joined together are the input |
| FirstPass.GroupFits | analysis/firstPass.py:27-31 | a group is the longest prefix of its run with a power of two as its length |
| FirstPass.GroupShape | analysis/firstPass.py:22-35 | a group is an arithmetic run with a power of two as its step, cut from a run that cannot be extended |
| FirstPass.GroupReaches | analysis/firstPass.py:21-37 | the other way round: words a power of two apart, a power of two of them, all get into the group |
| FirstPass.LineOfGroup | analysis/firstPass.py:26-37 | a group of a power of two of words is written as its first word and a mask with one bit for each doubling, from the step up |
| FirstPass.LineMeansGroupIff | analysis/firstPass.py:32-37 | the words matching (first, mask) are exactly the group, if and only if first & mask is 0 |
| FirstPass.OneToFourMisread | analysis/firstPass.py:21-37 | the list 1, 2, 3, 4 is written as one line that matches 0 and not 4 |
| FirstPass.EveryLine | analysis/firstPass.py:21-42 | the lines written belong to the groups one by one, each with that condition |
| FirstPass.OutputMeansInput | analysis/firstPass.py:21-42 | if it holds of every line, the words that match some line are exactly the words of the input |
| FirstPass.Compress | analysis/firstPass.py:18-42 | writes the line of each group in order, and rejects lists of fewer than two words |
| FirstPass.CutGroup | analysis/firstPass.py:22-40 | one iteration goes on to the start of the next group and writes the line of this one |
| FirstPass.TrimLength | analysis/firstPass.py:27-31 | the bit length of the difference, less one unless the run has a power of two as its length, is the exponent sought |
| FirstPass.SpreadOnes | analysis/firstPass.py:32-35 | the mask has one bit for each doubling of the group, from the position of the step up |
| Tcg.SExtractBit | exp/translate-a64.c:3644 | where each bit of a signed extraction comes from |
| Tcg.DepositBit | exp/translate-a64.c:3670 | where each bit of a deposit comes from |
| A64Flags.OverflowFromSigns | exp/translate-a64.c:794-798 | the exact signed sum overflows if and only if the operands agree in sign and the result does not |
| A64Flags.AddMeets | exp/translate-a64.c:787-798 | the emitted double-word addition and sign words are AddWithCarry |
| A64Flags.SubMeets | exp/translate-a64.c:834-846 | the emitted subtraction and comparison are AddWithCarry of the complement with carry 1 |
| A64Flags.TwoStepSum | exp/translate-a64.c:896-899 | adding the carry first loses none: at most one of the two additions overflows |
| A64Flags.AdcMeets | exp/translate-a64.c:896-905 | the emitted two-step addition is AddWithCarry with the carry |
| A64Flags.SumIs | exp/translate-a64.c:779-823 | the result of an addition is the sum modulo the width, of which a W register keeps nothing above its low half |
| A64Flags.DifferenceIs | exp/translate-a64.c:826-870 | the same for a subtraction |
| A64Flags.FlagState.SetNZ64 | exp/translate-a64.c:759-763 | N and Z of a 64-bit result in 32-bit registers |
| A64Flags.FlagState.AddCC | exp/translate-a64.c:779-823 | result and NZCV are those of AddWithCarry at the width sf selects |
| A64Flags.FlagState.SubCC | exp/translate-a64.c:826-870 | the same for subtraction |
| A64Flags.FlagState.AdcCC | exp/translate-a64.c:887-934 | the same with the carry flag added |
| A64Flags.FlagState.Clear | exp/translate-a64.c:4273-4277 | a flag register is cleared or left alone by the masks, on hosts with ANDC and without |
| A64Flags.FlagState.ForceFlags | exp/translate-a64.c:4260-4305 | the masks leave the flags alone if the condition held and otherwise make them the literal nzcv |
| A64Flags.ConditionMeans | exp/translate-a64.c:4236-4239 | what each of the sixteen conditions says of two numbers, signed and unsigned, after they were compared |
| A64Flags.FlagState.ConditionalCompare | exp/translate-a64.c:4236-4305 | the flags are those of the comparison if the condition held of the old flags and the literal nzcv otherwise |
| Bitfields.SignedExtraction | exp/translate-a64.c:3640-3645 | SBFM with a low field is a signed extraction |
| Bitfields.UnsignedExtraction | exp/translate-a64.c:3646-3648 | UBFM with a low field is an extraction |
| Bitfields.Insertion | exp/translate-a64.c:3650-3652 | BFM with a low field is an extraction deposited at bit 0 |
| Bitfields.InsertionHigh | exp/translate-a64.c:3657-3670 | BFM with a field that wraps is a deposit |
| Bitfields.UnsignedHigh | exp/translate-a64.c:3657-3676 | UBFM with a field that wraps is a deposit into zero |
| Bitfields.SignedHigh | exp/translate-a64.c:3661-3676 | SBFM with a field that wraps is a sign-extended deposit into zero |
| Bitfields.ExtractRotation | exp/translate-a64.c:3721-3731 | EXTR of a register with itself is a rotation |
| Bitfields.ExtractByShifts | exp/translate-a64.c:3732-3741 | EXTR is two shifts or-ed together, with the high half cleared for W registers |
| Bitfields.BitfieldLow | exp/translate-a64.c:3640-3682 | the paths for si >= ri give the rotate-and-select result |
| Bitfields.BitfieldHigh | exp/translate-a64.c:3653-3682 | the paths for si < ri give the rotate-and-select result |
| Bitfields.ExtractWord | exp/translate-a64.c:3712-3741 | the three paths of EXTR select from the concatenation of the registers |
| Bitfields.MoveReadsLow | exp/translate-a64.c:3625-3682 | a bitfield move of W registers depends on nothing but their low halves |
| Bitfields.PairReadsLow | exp/translate-a64.c:3703-3741 | the same for EXTR |
| Bitfields.RegisterFile.DisasBitfield | exp/translate-a64.c:3613-3683 | for all fields, contents and aliasings, the destination alone becomes the rotate-and-select result, zero-extended; undefined encodings change nothing |
| Bitfields.RegisterFile.DisasExtract | exp/translate-a64.c:3691-3743 | the same for EXTR |
| ShiftAliases.UbfmIsLsr | exp/translate-a64.c:3646 | LSR as a UBFM is unsigned division by a power of two |
| ShiftAliases.UbfmIsLsl | exp/translate-a64.c:3672-3676 | LSL as a UBFM is multiplication by a power of two modulo the width |
| ShiftAliases.SbfmIsAsr | exp/translate-a64.c:3643 | ASR as an SBFM is signed division by a power of two, rounding down |
| ShiftAliases.UbfmIsZeroExtend | exp/translate-a64.c:3646 | UXTB and UXTH as UBFM are remainders |
| ShiftAliases.SbfmIsSignExtend | exp/translate-a64.c:3643 | SXTB, SXTH and SXTW as SBFM keep the signed value of the low bits |
| ShiftAliases.SelectionIsMask | exp/translate-a64.c:3399-3480 | a bitfield move selects the bits of the mask that its fields give as a logical immediate |
| RoundingShifts.DivideDoubleWord | exp/translate-a64.c:7254-7263 | the quotient of a double word by a power of two, half by half |
| RoundingShifts.Combine | exp/translate-a64.c:7260-7262 | the two halves shifted and or-ed are that quotient |
| RoundingShifts.SarIs | exp/translate-a64.c:7277 | the arithmetic shift is division rounding down |
| RoundingShifts.WideSum | exp/translate-a64.c:7234-7247 | the double-width addition loses nothing of element plus rounding constant |
| RoundingShifts.NarrowSum | exp/translate-a64.c:7249 | for narrower elements neither does the single-width one |
| RoundingShifts.RoundWide | exp/translate-a64.c:7233-7263 | the double-width path is the exact rounded quotient, the shift by the full width included |
| RoundingShifts.ShiftNarrow | exp/translate-a64.c:7265-7279 | the single-width shifts are exact quotients, the shift by the full width included |
| RoundingShifts.NothingLeft | exp/translate-a64.c:7224-7229 | the early return's zero is the right result |
| RoundingShifts.ShiftedWord | exp/translate-a64.c:7232-7280 | rounding and shifting give the word of the exact rounded quotient on every path |
| RoundingShifts.HandleShriWithRndacc | exp/translate-a64.c:7211-7291 | the result is old + floor((src + 2^(shift-1)) / 2^shift) modulo the width, or without the constant when not rounding, for either signedness and every shift |
| LogicalImmediates.CountLeadingZeros | disas/capstone/capstone-4.0.1/MathExtras.h:424-440 | counts the zeros above the highest set bit |
| LogicalImmediates.BitfieldReplicate | exp/translate-a64.c:3399-3407 | for any element, bit i of the result is bit i modulo e of it |
| LogicalImmediates.RowOfElement | exp/translate-a64.c:3476-3477 | a row of copies of one element of the manual's pattern is that pattern |
| LogicalImmediates.MaskedRotationBit | exp/translate-a64.c:3472-3475 | for any element, the masked pair of shifts rotates it by r |
| LogicalImmediates.Bitmask64 | exp/translate-a64.c:3410-3414 | the low bits set |
| LogicalImmediates.RotatedByShifts | exp/translate-a64.c:3471-3475 | so it turns a run of ones into the manual's element |
| LogicalImmediates.Element | exp/translate-a64.c:3468-3475 | s + 1 ones rotated right by r |
| LogicalImmediates.LogicImmDecodeWmask | exp/translate-a64.c:3421-3480 | accepts exactly the valid fields and returns their immediate |
| LogicalImmediates.TranslatorImmediate | exp/translate-a64.c:3503-3523 | with the 32-bit case: accepts and returns what the manual gives for the register size |
| LogicalImmediates.LowHalf | exp/translate-a64.c:3521-3523 | the low half of a 64-bit immediate is the 32-bit one |
| LogicalImmediates.RorBit | disas/capstone/capstone-4.0.1/arch/AArch64/AArch64AddressingModes.h:119-122 | one step rotates any element by one bit |
| LogicalImmediates.RorTimesBit | disas/capstone/capstone-4.0.1/arch/AArch64/AArch64AddressingModes.h:143-144 | r steps rotate any element by r bits |
| LogicalImmediates.RorTimesIsMaskedRotation | disas/capstone/capstone-4.0.1/arch/AArch64/AArch64AddressingModes.h:143-144 | which is what the translator's masked pair of shifts does |
| LogicalImmediates.RotateElement | disas/capstone/capstone-4.0.1/arch/AArch64/AArch64AddressingModes.h:139-144 | a run of s + 1 ones rotated by r single-bit steps is the manual's element |
| LogicalImmediates.FillRegister | disas/capstone/capstone-4.0.1/arch/AArch64/AArch64AddressingModes.h:146-150 | for any element, doubling fills the register with copies of it |
| LogicalImmediates.DecodeLogicalImmediate | disas/capstone/capstone-4.0.1/arch/AArch64/AArch64AddressingModes.h:127-153 | returns the same immediate as the translator's decoder, for both register sizes |
| LogicalImmediates.IsValidDecodeLogicalImmediate | disas/capstone/capstone-4.0.1/arch/AArch64/AArch64AddressingModes.h:158-178 | accepts the same fields as the translator's decoder, though it compares the length with 0 and not with 1 |
| LogicalImmediates.DecodeBoth | disas/capstone/capstone-4.0.1/arch/AArch64/AArch64AddressingModes.h:127-178 | run on the same fields, translator and disassembler accept the same and return the same immediate, that of the manual |
| ByteMemory.LoadOfPoke | exp/translate-a64.c:2112-2114 | a value stored is loaded again modulo its size, in either byte order |
| ByteMemory.LoadBytewise | exp/translate-a64.c:2012-2053 | the least significant byte of a value is at its lowest address, or at its highest in the other byte order |
| ExclusiveModel.RunKeepsAgreement | exp/translate-a64.c:2012-2125 | over any run of any number of CPUs each monitor shows the CPU's reservation or is clear |
| ExclusiveModel.FaultIff | exp/translate-a64.c:2012-2125 | an access faults exactly if it is not aligned to its size or not all in memory, and then changes nothing; a store-exclusive to another address than the monitored one is no access |
| ExclusiveModel.SuccessMeansUnchanged | exp/translate-a64.c:2055-2125 | away from address -1 a store-exclusive reports 0 exactly if the CPU holds a reservation there and memory still holds the reserved value; then the new value is stored; every completed one clears the monitor |
| ExclusiveModel.ClearedMonitorMatchesLastAddress | exp/translate-a64.c:2074-2124 | with a clear monitor it reports 0 exactly at address -1 with the stale value in memory |
| ExclusiveModel.LastByteWithoutReservation | exp/translate-a64.c:2074-2124 | so a byte store to the last address can report success without any reservation |
| ExclusiveModel.WrittenIff | exp/translate-a64.c:2111-2117 | memory is written exactly if the values agree at the size of the store; 0 is reported exactly if they agree in full |
| ExclusiveModel.FailedButWrittenIff | exp/translate-a64.c:2111-2117 | failure is reported and memory changed exactly if the address is the monitored one, the values agree at the size of the store though the monitored one is too large for it, and the value stored is a different one |
| ExclusiveModel.FailedButWrittenReached | exp/translate-a64.c:2012-2125 | a run from clear monitors that gets there: a two-byte load-exclusive, then a one-byte store-exclusive |
| ExclusiveModel.WrittenBackIsNotNoticed | exp/translate-a64.c:2003-2011 | a location written and written back in between does not prevent success |
| ExclusiveCounter.StepCounts | exp/translate-a64.c:2012-2125 | only a successful store-exclusive moves the counter, and by one |
| ExclusiveCounter.CounterCountsSuccesses | exp/translate-a64.c:2012-2125 | over any run of any number of CPUs the counter is its initial value plus the successful store-exclusives, modulo its size |
| Exclusives.Cpu.GenClrex | exp/translate-a64.c:1505-1508 | clears the monitor |
| Exclusives.Cpu.GenLoadExclusive | exp/translate-a64.c:2012-2053 | does the load-exclusive step |
| Exclusives.Cpu.GenStoreExclusive | exp/translate-a64.c:2055-2125 | does the store-exclusive step |
| RiscvOperands.LayoutFound | disas/RV-disas/riscv-disas.c:1488-1603 | for each of the sixteen layouts of 32-bit words, all operands it can hold are read back from the word that encodes them, scattered immediates, rounding modes and fence sets included, whatever the other bits |
| RiscvOperands.LayoutKept | disas/RV-disas/riscv-disas.c:1488-1984 | the operands read from any word by any of them are ones it can hold, and encoded again give the bits of the word |
| RiscvWords.DecodedIff | disas/RV-disas/riscv-disas.c:998-1486 | for each of the 226 operations of 32-bit words and every word: the decoder comes up with the operation exactly if the word has the fixed bits the standard gives it |
| RiscvWords.LegalIsWordOp | disas/RV-disas/riscv-disas.c:852-1486 | the decoder comes up with no operations but these, the compressed ones and the illegal one |
| RiscvWords.LowBitsPlain | disas/RV-disas/riscv-disas.c:852-1486 | a compressed operation comes only from low bits other than 11, one of 32 bits only from 11 |
| RiscvWords.Formats | disas/RV-disas/riscv-disas.c:318-638 | each operation has the format the standard gives it, where funct3 is a rounding mode exactly if it is not among the fixed bits |
| RiscvWords.WordDecoded | disas/RV-disas/riscv-disas.c:852-1984 | an operation with any operands it can have is decoded from the word made of its fixed bits and those operands |
| RiscvWords.AnyHeld | disas/RV-disas/riscv-disas.c:318-638 | apart from floating-point operations and virtual-memory fences, these are all operands its layout can hold |
| RiscvWords.WordKept | disas/RV-disas/riscv-disas.c:852-1984 | and each legal word with low bits 11 is made in that way of what it is decoded to, in every bit but those of a fence the decoder does not look at |
| RiscvParcels.RegisterFound | disas/RV-disas/riscv-disas.c:1538-1568 | a register put in any of the places the standard has for one is read back from there, whatever the other bits |
| RiscvParcels.RegisterTaken | disas/RV-disas/riscv-disas.c:1538-1568 | the register read from any of them fits it, and put back gives the bits of the word |
| RiscvParcels.ImmediateFound | disas/RV-disas/riscv-disas.c:1605-1702 | for each of the sixteen ways to scatter an immediate, and for none: one put in the standard's places is read back, whatever the other bits |
| RiscvParcels.ImmediateTaken | disas/RV-disas/riscv-disas.c:1605-1702 | the immediate read in any of those ways is one it can hold, and put back gives the bits of the word |
| RiscvParcels.RdWhere | disas/RV-disas/riscv-disas.c:1706-1984 | for every 16-bit layout the decoder reads the destination in the standard's place for it |
| RiscvParcels.Rs1Where | disas/RV-disas/riscv-disas.c:1706-1984 | the same for the first source, which two-operand layouts tie to the destination |
| RiscvParcels.Rs2Where | disas/RV-disas/riscv-disas.c:1706-1984 | the same for the second source |
| RiscvParcels.ImmWhere | disas/RV-disas/riscv-disas.c:1706-1984 | the same for the immediate |
| RiscvParcels.AllApart | disas/RV-disas/riscv-disas.c:1706-1984 | no two operands of a 16-bit layout share a bit of the word |
| RiscvParcels.TakenApart | disas/RV-disas/riscv-disas.c:1706-1984 | the operands read from any word by any 16-bit layout are ones it can hold, and encoded again give the bits of the word |
| RiscvParcels.PutTogether | disas/RV-disas/riscv-disas.c:1706-1984 | all operands a 16-bit layout can hold, registers and immediate together, are read back from the word that encodes them, whatever its other bits |
| RiscvParcelWords.ParcelIffLowBits | disas/RV-disas/riscv-disas.c:852-1486 | a legal word is decoded to a compressed operation exactly if its low bits are not 11 |
| RiscvParcelWords.ParcelIff | disas/RV-disas/riscv-disas.c:852-997 | for each compressed operation, instruction set and word: the decoder comes up with the operation exactly if the word has the bits of its row in the standard and is not one of the words another row takes |
| RiscvParcelWords.IllegalIff | disas/RV-disas/riscv-disas.c:852-997 | the 16-bit words without an operation, as bit patterns |
| RiscvParcelWords.ParcelKept | disas/RV-disas/riscv-disas.c:852-1984 | a word decoded to a compressed operation is the bits of its row and its operands in their places, and nothing more |
| RiscvParcelWords.ParcelDecoded | disas/RV-disas/riscv-disas.c:852-1984 | any operands of its layout over the bits of its row are decoded to the compressed operation, unless the word is one another row takes |
| RiscvParcelWords.DecodedAlike | disas/RV-disas/riscv-disas.c:852-1984 | no two 16-bit words are decoded to the same compressed operation with the same operands, under any instruction set |
| RiscvDecoder.ParcelExpands | disas/RV-disas/riscv-disas.c:852-1486 | a compressed operation is decoded only where the instruction set has an expansion for it |
| RiscvDecoder.TargetWord | disas/RV-disas/riscv-disas.c:852-1984 | for every operation that is an expansion and all operands its layout can hold, the word made of them is taken apart into just these |
| RiscvDecoder.LayoutFits | disas/RV-disas/riscv-disas.c:1706-1984 | the operands of a 16-bit layout are in range for the layout of its expansion |
| RiscvDecoder.ExpansionLayout | disas/RV-disas/riscv-disas.c:318-638 | the tables expand each compressed operation to one with the layout that takes its operands |
| RiscvDecoder.ExpandedIsPlain | disas/RV-disas/riscv-disas.c:2307-2344 | after decompression no compressed operation is left, and the record is in range |
| RiscvDecoder.ExpansionIsAnEncoding | disas/RV-disas/riscv-disas.c:2307-2344 | for every 16-bit word and instruction set, what decompression leaves is illegal or exactly what the decoder says of the 32-bit word made of it |
| RiscvParcelWords.Abbreviation | disas/RV-disas/riscv-disas.c:318-638 | for each compressed operation and every 16-bit word of its row: what decompression leaves is what the decoder says of the 32-bit word that chapter 16 has it abbreviate, built from the bits of the 16-bit word; it is illegal exactly for the reserved immediates of zero, given as bit patterns |
| RiscvPseudo.TableChosen | disas/RV-disas/riscv-disas.c:105-314 | for every operation and all operands, the first row of its table whose constraints hold is that of the most particular pseudo-instruction |
| RiscvPseudo.LiftIs | disas/RV-disas/riscv-disas.c:2289-2303 | the lift shows that pseudo-instruction and changes nothing else |
| RiscvPseudo.PrintsGiven | disas/RV-disas/riscv-disas.c:592-637 | a pseudo-instruction prints exactly the operands that chapter 25 leaves open |
| RiscvPseudo.InstanceIff | disas/RV-disas/riscv-disas.c:592-637 | what it stands for with the operands printed is the instruction exactly if the other operands are those chapter 25 gives |
| RiscvPseudo.ShownMeans | disas/RV-disas/riscv-disas.c:105-314 | so what is shown stands for the instruction it is shown for, unless it is ret and the offset is not zero |
| RiscvPseudo.NoneMissed | disas/RV-disas/riscv-disas.c:105-314 | no instruction that some pseudo-instruction stands for is shown as it is |
| RiscvPseudo.ExpandedWellFormed | disas/RV-disas/riscv-disas.c:2348-2360 | what reaches the lift has only the operands of its layout |
| RiscvPseudo.LiftKeepsLegality | disas/RV-disas/riscv-disas.c:2289-2303 | lifting neither makes nor breaks a legal instruction |
| RiscvPseudo.ShownReadsBack | disas/RV-disas/riscv-disas.c:2348-2363 | the same for every word given to the disassembler: what is shown stands for what was decoded, except for the offset of ret |
| RiscvPseudo.ReturnLosesOffset | disas/RV-disas/riscv-disas.c:2289-2303 | jalr x0, 4(x1), the word 0x00408067, is shown as ret with nothing printed, just like the word 0x00008067 |
| RiscvPseudo.ShownAlike | disas/RV-disas/riscv-disas.c:2348-2363 | two words shown alike, and not as ret, are decoded alike |
| RiscvDisassembler.CheckConstraints | disas/RV-disas/riscv-disas.c:1988-2089 | holds exactly if every constraint of the row does |
| RiscvDisassembler.Record.DecompressInst | disas/RV-disas/riscv-disas.c:2307-2344 | replaces a compressed operation by its expansion, or by an illegal one if it needs an immediate and has none |
| RiscvDisassembler.Record.LiftPseudo | disas/RV-disas/riscv-disas.c:2289-2303 | takes the first row whose constraints all hold, or changes nothing |
| RiscvDisassembler.DisasmInst | disas/RV-disas/riscv-disas.c:2348-2363 | leaves the lifted expansion, and accepts exactly the words whose expansion is legal |
| MnemonicModel.LastCallDecides | disas/capstone/capstone-4.0.1/cs.c:696-750 | the map has a name for an id exactly if the last call about it set one, and then that one |
| Mnemonics.Handle.Acyclic | disas/capstone/capstone-4.0.1/cs.c:696-750 | following next never comes back |
| Mnemonics.Handle.Find | disas/capstone/capstone-4.0.1/cs.c:729-747 | finds the node of an id and the one before it, or none exactly if the map has no such id |
| Mnemonics.Handle.Replace | disas/capstone/capstone-4.0.1/cs.c:706-711 | replaces the name of one id, cut to the buffer |
| Mnemonics.Handle.Insert | disas/capstone/capstone-4.0.1/cs.c:716-724 | adds a new id at the head |
| Mnemonics.Handle.UnlinkHead | disas/capstone/capstone-4.0.1/cs.c:736-738 | removes one id at the head |
| Mnemonics.Handle.UnlinkAfter | disas/capstone/capstone-4.0.1/cs.c:739-741 | removes one id further down |
| Mnemonics.Handle.Customise | disas/capstone/capstone-4.0.1/cs.c:698-749 | the list, edited in place, stays linked and without repeated or zero ids, and changes as the map does |
| Mnemonics.Handle.OptMnemonic | disas/capstone/capstone-4.0.1/cs.c:696-750 | after any sequence of calls the list is the map those calls amount to |
| Mnemonics.Handle.FillMnemonic | disas/capstone/capstone-4.0.1/cs.c:573-585 | the mnemonic is the last one set for the id and not deleted since, or else the one printed |

## Left out

Weaker or narrower than the code, on purpose:

- Manager.SplitIsEven: with a single word and several units the ranges are wrong; the exact condition is
  Manager.SplitCorrectIff.
- Feeder.RiscvgOnlyFetch: where current and final word are not congruent and every word of the residue class is
  blacklisted, the code searches forever; the method requires that this is not so.
- Feeder.RiscvcOnlyFetch: with the largest 32-bit word as final and nothing to fetch at all, the code searches
  forever; the method requires that this is not so.
- ScannerUnit.Scanner.PtraceLoop: the processor's answers are left out, since the loop does the same whatever they are;
  where the entry search finds nothing the code waits forever and the model returns.
- VleUnit.RiscvUnit.Scan: assumes that an executed instruction does not write the page, and that a size error is
  raised only at size 2.
- VleUnit.RiscvUnit.constructor: the first word is a parcel not above that of the final word, as in every range
  handed out in a variable-length run (src/main.cpp:25-57).
- VleModel.SweepTriesWhatIsDue: the last parcel of a unit is extended only with the upper halves up to that of the
  final word, because of the early return at arch/RV64GC/ArchFunctions.cpp:158; for a whole run this is
  VleRun.RunTriesAllBut.
- VleRun.RunTriesAllBut: not for a single word shared out over several units, where the ranges are wrong.
- Blacklists.Blacklist.Add: at most 30 don't-care bits, because of the shift of a 32-bit 1 at src/Blacklist.cpp:41.
- Blacklists.Blacklist.InsertInstances: the same.
- Blacklists.Blacklist.constructor: the same for the masks of the start list.
- FirstPass.Compress: the words of the list are natural numbers; reading and writing files is left out.
- A64Flags.FlagState.ConditionalCompare: the condition is tested by ConditionHolds of the manual; arm_test_cc is
  not part of this model.
- ExclusiveCounter.CounterCountsSuccesses: the counter is not at address -1 and is accessed only as a whole.
- Exclusives.Cpu.GenStoreExclusive: single registers only, one byte order for a whole run, and an access that is
  not aligned or not in memory is a fault that changes nothing. The highest address of memory stands for -1.
- RiscvPseudo.ShownReadsBack: printing operands as text, register and CSR names and pc-relative targets are left out.
- RiscvParcelWords.Abbreviation: follows the code where it differs from chapter 16; c.jr with x0 and other reserved
  forms are accepted, and c.andi with a zero immediate is not.
- RiscvWords.WordKept: says nothing of the bits of fence and fence.i that the decoder does not look at.

Not modelled:

- A hang signal still pending when a unit stops: the stopped worker waits with that signal unmasked
  (src/Utility.cpp:41-48), so hangHandler could analyse the last word once more. The model drops it.
- Signals, mmap, fork, ptrace, affinity, files, timestamps and log text; handlers are atomic.
- The processor: each word's outcome is arbitrary.
- Performance counters (src/Handlers.cpp:45-61).
- The decoders of Capstone other than the logical-immediate one, its formatter, bindings and tools.
- analysis/rangeCompress.cpp, whose logarithms are undefined for a difference of 0 and one off otherwise.
- The paired exclusives and compare-and-swap of pairs, which call helpers that are not shown.
- The rest of the logical-immediate instructions beyond their immediate.
- Floating point, cryptography, SVE, system registers and the bookkeeping of TCG temporaries.
- Plotting scripts, and the later passes over their output.
