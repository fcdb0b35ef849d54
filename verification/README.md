# 86Box: DMA, ACPI, MP tables, automation, debugger and the NoContraction pass

A Dafny model of the parts of 86Box (a PC emulator) where several functions keep
one promise together, and proofs of those promises for every input, every run
or every reachable state. Code that updates state in place is a class whose
methods are proved equal to functions on values; what the functions mean is
proved beside them.

- **DMA** (`DmaChannel`, `DmaController`, `Dma8237`, `DmaByteCount`,
  `DmaScatterGather`, `DmaWrittenList`, `DmaChaining`, `SoftRequest`,
  `BusMaster`): one channel of the 8237, the EISA 82374EB and PS/2-era
  extensions as functions of the channel and memory; the controller whose
  requests keep its lists consistent; what a whole programmed run, a
  byte-counted run, a descriptor list read or written, a chained buffer and a
  software-requested run transfer; bus-master copies.
- **ACPI** (`AcpiChip`, `AcpiBits`, `AcpiRegisters`, `AcpiDevice`, `AcpiSci`,
  `AcpiSmi`, `PmTimer`): the SCI line and SMI# of four southbridges over every
  run, their register maps bit by bit, and the PM timer.
- **MP tables** (`MpMemory`, `MpSearch`, `MpRoutes`, `MpRepair`, `MpSkip`,
  `MpExamples`): finding the Intel MultiProcessor floating pointer, repairing
  processor APIC ids, learning IRQ routes, and when a table already seen may be
  skipped.
- **Automation** (`TimedCommands`, `PositionRing`, `SerialSearch`, `AudioRing`,
  `FrameQueue`): commands that take emulated time, position-numbered rings, a
  search that follows a growing stream, recorded audio and frames.
- **Debugger** (`Breakpoints`, `DebuggerRead`): the lock-free breakpoint list
  and reading memory a page at a time.
- **NoContraction** (`NoContraction`): the SPIR-V script that drops
  decorations that guard nothing.

`dafny verify dfyconfig.toml` checks the project.

## Where the code does not do what one might expect

Each is kept as the code has it, with a lemma or a run that shows it and one
that says exactly when the promise holds.

- A multiply that reaches an add through memory can lose the add's decoration
  (`NoContraction.GuardLostThroughMemory`, `PairGuardedExactly`). A second run
  of the script keeps everything the first kept, and ends in an error when
  nothing was left (`NoContraction.SecondRun`).
- A breakpoint set all along is missed by a scan that two toggles overlap
  (`Breakpoints.TwoTogglesCanHide`); with one it never is.
- The search for text in serial output can miss a match when more bytes arrive
  between two checks than the ring's size less the text's length, plus one, in
  a ring of any size (`SerialSearch.OneMoreCanHide`, `SerialCanHide`;
  `CheckExactly`).
- `audio pull` counts frames that were never in the recording as lost once all
  of a stopped recording has left the ring (`AudioRing.LossOvercounted`, at
  every rate; the exact condition is in `AudioRing.Stream.Pull`).
- Between `audio start` and its first block, `audio pull` answers from the
  recording before it. A pull that follows that reply's next, once the block has
  come, skips the new recording's first frames and reports none lost, under the
  same segment number (`AudioRing.RestartMissesFrame`). Two pulls are of one
  segment exactly when no segment was started between them
  (`AudioRing.PullTwice`); within a recording that is unless it had begun none,
  has fewer than 16 behind it and hears more than it skips (`SegmentChanges`).
- The PM timer armed less than 256 ticks before its top bit toggles reports
  nothing for that toggle; every later one it reports once
  (`PmTimer.EveryToggleOnce`).
- A descriptor list written by a device reports its end on an 8- or 16-bit
  channel even where IRQ13 was chosen, and on a 32-bit EISA channel only where
  EOP was (`DmaController.Controller.WriteList`).
- The ring buffer stop register is compared with the address a channel has moved
  on to, less its last transfer. Where the address wrapped at the end of its
  window (or an odd buffer was cut short) that is not where the transfer was, and
  a stop there is missed (`DmaChaining.StopMissed`; `StopExactly`, `StopLinear`).
- The end of a chained buffer written on an 8- or 16-bit channel is told by the
  mask, so it is told where the chain ends and not where a buffer does
  (`DmaChaining.ChainWrite`).
- When the MP table's entry walk meets an entry it does not know, the ids
  already written stay and the checksum is not redone
  (`MpExamples.ChecksumBroken`, `MpRepair.EarlyExitBreaks`, `EarlyExitSum`).
- Near 4 GB the entry walk can go past a table's end and on at address 0, so that
  a table skipped as unchanged would now teach another route
  (`MpExamples.SkipMissesRoute`). It is so exactly for the tables whose walk
  strays while something is still open (`MpSkip.SkippedExactly`).
- An MP table met in ROM and later, with the same bytes, in RAM is skipped as
  unchanged: it is neither repaired nor, where tables are hidden, hidden
  (`MpExamples.RomThenRam`, `Unrepaired`; `MpRepair.SkipExactly`).
- RTC_STS cleared and set again between two 16 ms polls does not reach the SCI
  line (`AcpiSci.RtcMissed`, in a run from reset `AlarmLost`; `PollDrives`). On VIA and ALi RTC_STS can bring the
  SMI# level up (`AcpiSmi.RtcRise`), and the poll that follows never raises
  SMI# for it (`AcpiSmi.PollQuiet`).
- A step takes its time exactly when the end of its first quantum, its deadline
  and the end of its last quantum fall in one turn of the 64-bit clock; else it
  ends at once or misses its deadline (`TimedCommands.StepExactly`,
  `StepMistimed`, `StepOverruns`).
- A debugger stop can bring two keys closer than the key gap
  (`TimedCommands.StopBreaksTheGap`); keys keep it exactly when no key request
  is taken up before the gap after the last key is over (`SpacedExactly`).

## Model

| member | source | states |
|---|---|---|
| Dma8237.KthTransfer | src/dma.c:3240-3418 | For every programmed channel, memory and data, and every k: transfer k moves the bytes at start ± k·width inside its 64 or 128 KB window, from memory or to it, restarting after the programmed count with auto-initialise, and terminal count comes at exactly each last one |
| Dma8237.TransferStep | src/dma.c:840-878 | From the closed-form state after k transfers, one more gives the closed form after k+1, or a masked channel with its status bit set |
| Dma8237.OneShot | src/dma.c:840-878 | Without auto-initialise exactly the programmed count of transfers happen, then none, however often the device asks |
| Dma8237.ReadOnlyThenAdvance | src/dma.c:3143-3325 | Reading without counting and then advancing leaves the same channel, data and terminal count as the plain read, on every channel state |
| DmaByteCount.OffsetsTile | src/dma.c:714-747 | The transfers of a byte-counted run tile its bytes: none skipped or doubled, each within a width, only the first and last narrow, all others on a boundary |
| DmaByteCount.NextStep | src/dma.c:714-729 | What the transfer-size rule answers is the next step of that tiling |
| DmaByteCount.KthTransfer | src/dma.c:3049-3103 | Transfer k of the run moves exactly its tile's bytes at its address and ends the run at the last tile, with the count at rest or reloaded |
| DmaByteCount.RunTiles | src/dma.c:3049-3103 | By induction over the run, whatever memory and data each transfer sees |
| DmaScatterGather.StatusInvariant | src/dma.c:757-846 | Over every sequence of commands, reads, writes and late counts the scatter-gather status bits stay consistent: an active list has a current or a waiting buffer, one with none waiting has no link left, and active excludes terminated |
| DmaScatterGather.ReadServes | src/dma.c:3049-3079 | One read while a list is served takes the next bytes of the current buffer, hands over what memory holds there (two bytes of a four-byte step without EISA), and leaves the channel at the rest of it, at the next buffer, or ended as the command chose |
| DmaScatterGather.Drain | src/dma.c:757-846 | From any point of a list, reads visit exactly the bytes left, in order, and then the list has ended |
| DmaScatterGather.StartVisitsList | src/dma.c:940-972 | A start command on any well-formed descriptor table visits every buffer's bytes in list order and nothing else, then gives no data. The buffers are those the table's bytes spell: start, the count of 24 bits on an EISA controller and of 16, the low bit dropped, on any other, zero for all, and the mark on the last |
| DmaScatterGather.FetchReads | src/dma.c:757-788 | Fetching a descriptor reads exactly those bytes of the table, wherever it lies |
| DmaWrittenList.WriteMirrors | src/dma.c:3081-3103 | One write of a list goes where a read would and leaves the channel as a read would, whatever is written, while the descriptors are intact; its end is told by TC on a 32-bit EISA channel, on any other by the mask |
| DmaWrittenList.ListWrite | src/dma.c:757-846 | No write of a list whose buffers lie apart from its table touches a descriptor, so the walk stays that of the table |
| DmaWrittenList.WritesDrain | src/dma.c:3327-3418 | The writes of a whole list fill its buffers in order, and the end is told once, where EOP was chosen or the channel is not 32 bits wide |
| DmaChaining.ChainRead | src/dma.c:840-878 | One read of a chained buffer: the bytes at the address; the rest of the buffer, the next one loaded, or the channel masked, and the end told by TC |
| DmaChaining.ChainWrite | src/dma.c:840-878 | One write: the same, its end told by TC on a 32-bit channel and by the mask on any other |
| DmaChaining.StopExactly | src/dma.c:2641-2660 | The ring buffer stop masks the channel exactly when the dword of the address the check winds back to is the stop's; it changes nothing else |
| DmaChaining.StopLinear | src/dma.c:2641-2660 | With a linear address that stays in range that is exactly when the transfer was in the stop's dword |
| DmaChaining.StopMissed | src/dma.c:2641-2660 | A transfer at the stop, at the end of its 64 KB, that does not stop the channel |
| DmaChaining.StartCommand | src/dma.c:940-972 | What a start leaves: active with a buffer waiting, no interrupt, the end choice renewed if the command makes one |
| DmaChaining.StopCommand | src/dma.c:940-972 | What a stop leaves: terminated and masked, IRQ13 if it was active and chose it, and no data for the next read |
| DmaChaining.NoCommand | src/dma.c:940-972 | Any other command changes the end choice only |
| DmaController.Controller.SgCommand | src/dma.c:940-972 | Start and stop commands leave every channel's list status consistent, and touch one channel |
| DmaController.Controller.Advance | src/dma.c:3221-3238 | The late count of a read that did not count, nothing if there is none; a consistent list status stays so |
| DmaController.Controller.Read | src/dma.c:3240-3325 | A read request gives no data exactly when the channel is off, masked with no software request in service, not set to read, or its controller or the one it hangs off is switched off; else its data, terminal count and new channel, the other seven unchanged and every list status consistent |
| DmaController.Controller.ReadOnly | src/dma.c:3143-3219 | A read that leaves its count pending is refused exactly when a read is, hands over the same data and keeps every list status consistent |
| DmaController.Controller.Read32 | src/dma.c:3049-3079 | A 32-bit read, narrow unless the channel is 32 bits wide and EISA, is refused exactly when a read is and keeps every list status consistent |
| DmaController.Controller.Write | src/dma.c:3327-3418 | A write request is refused exactly when the channel is off, masked, not set to write or verify, or its controller is off; else it changes memory in the moved bytes only. Every list status stays consistent |
| DmaController.Controller.Write32 | src/dma.c:3081-3103 | A 32-bit write, its first and last dwords partial, is refused exactly when a write is, changes memory in the moved bytes only and keeps every list status consistent |
| DmaController.Controller.ReadList | src/dma.c:940-972 | A device that starts a list and reads until it is masked gets exactly the bytes of the buffers the table's bytes spell, in order, terminal count on the last read if the command chose it, and no other channel is touched |
| DmaController.Controller.WriteList | src/dma.c:3327-3418 | A device that starts a list and writes until it is masked fills exactly the buffers the table's bytes spell, in order, with what it sent, changes no other byte of memory, and is told of the end on the last write: with EOP chosen, and on any channel but a 32-bit EISA one with IRQ13 chosen too |
| SoftRequest.PickedIsLowest | src/dma.c:176-212 | The picked channel is eligible, and the lowest one that owns the bus if any does |
| SoftRequest.HolderPicked | src/dma.c:176-212 | A channel that holds the bus is the one picked |
| SoftRequest.PickExactly | src/dma.c:176-212 | None is picked exactly when the controller is off or nothing enabled and unmasked asks; else the lowest owner of the bus, or without owners the first in turn after the last served, or by number |
| SoftRequest.ReadyExactly | src/dma.c:214-251 | A channel may transfer exactly when it is on, asks, does not cascade and, for channel 0 and software requests only, comes first among all who ask |
| SoftRequest.FinishCounts | src/dma.c:309-347 | Counting one transfer, register by register: count, terminal count, request, EOP, mask or reload, ownership, DACK and the channel last served |
| SoftRequest.MovedCounts | src/dma.c:253-347 | A transfer begun and made takes the bus first and moves the address one on within 64 KB |
| SoftRequest.ReadAccessed | src/dma.c:2914-2963 | The address of a read and the address and count it leaves, from the registers before |
| SoftRequest.WriteAccessed | src/dma.c:2965-3006 | The same for a write |
| SoftRequest.NextProgress | src/dma.c:309-347 | Each round lowers the count of one requested channel or finishes it (TC, request gone, masked unless it reinitialises), every other channel as it was |
| SoftRequest.NextServes | src/dma.c:1088-1115 | Each round transfers at the picked channel's address and moves it one on, or reloads it, and leaves every other channel's address, count and requests |
| SoftRequest.WorkShrinks | src/dma.c:1088-1115 | The service loop ends: the work left strictly falls each round |
| SoftRequest.LoopOutcome | src/dma.c:1088-1115 | Every request the loop took away was finished, status and mask bits only ever rise, modes stay, and a channel not asked for is untouched |
| SoftRequest.LoopStops | src/dma.c:1088-1115 | The loop stops only when no standing request is eligible, the channel picked has the illegal type, or it may not transfer |
| SoftRequest.LoopAddresses | src/dma.c:1088-1115 | Over the whole loop the transfers of each channel are at consecutive addresses from its own, and leave its address behind the last or reloaded |
| SoftRequest.NotPreempted | src/dma.c:176-251 | A block transfer once begun is not interrupted by another channel |
| SoftRequest.BlockRuns | src/dma.c:1088-1115 | From every register state a block once picked gets all its transfers in a row, the last finishing it: its count plus one, one less with a transfer uncounted, one with EOP. They are at consecutive addresses, up or down within 64 KB, and the address ends behind the last or reloaded |
| SoftRequest.Xt8237.FinishTransfer | src/dma.c:309-347 | Counts one transfer of one channel, or finishes it: status set, request and ownership gone, reinitialised or masked |
| SoftRequest.Xt8237.ReadChannel | src/dma.c:2914-2963 | Counts a read left uncounted first; then one transfer, at the address it finds, exactly if the channel is ready and reads or verifies; what it does to every register |
| SoftRequest.Xt8237.WriteChannel | src/dma.c:2965-3006 | One transfer, at the current address, exactly if the channel is ready and writes or verifies, dropping an uncounted one, with what it does to every register; else nothing changes |
| SoftRequest.Xt8237.Serve | src/dma.c:1088-1115 | The service loop in place ends from every register state, every request it took away finished and no channel without one touched, and stops only when it must. The transfers it makes on each channel are at consecutive addresses, up or down within 64 KB, and leave the address behind the last or reloaded |
| BusMaster.Bus.Read | src/dma.c:3533-3564 | For every address, length, unit size and fast prefix: exactly the bytes at addr.. (modulo 4 GB) arrive, and nothing past the length |
| BusMaster.Bus.Write | src/dma.c:3566-3597 | Exactly the bytes of the range change, though the tail is read, patched and written back as a whole unit |
| AcpiSci.LineAlwaysRight | src/acpi.c:208-289 | In every awake state any run from reset reaches, on all four chips, SCI is driven exactly when SCI_EN is set and, bit by bit, an enabled status is: timer, global, button or RTC, and of the general-purpose inputs 0, 9 and 11 on the PIIX4, those of its register on the others; RTC_STS as of the last update |
| AcpiSci.NextLine | src/acpi.c:1326-1401 | Every step keeps that: register writes, events, polls, waking, reset |
| AcpiSci.PollDrives | src/acpi.c:2930-2938 | After a poll the line counts RTC_STS as it is now, in exactly all cases but one |
| AcpiSci.RtcMissed | src/acpi.c:2930-2938 | The one case, for every state that can meet it |
| AcpiSci.AlarmLost | src/acpi.c:2930-2938 | A run from reset on every chip in which an enabled alarm is set, awake and polled, and SCI stays low |
| AcpiBits.SciByBits | src/acpi.c:208-250 | The SCI level of each chip as a formula over single bits of status, enable and SCI_EN |
| AcpiBits.SmiByBits | src/acpi.c:333-380 | The SMI# level of each chip so |
| AcpiBits.WakeByBits | src/acpi.c:467-487 | What wakes each chip so |
| AcpiRegisters.WriteByBits | src/acpi.c:1326-1753 | For every chip, byte written, register and bit: the bit afterwards, by the chip's map of where each register's bits are stored, written ones cleared, or left alone, and what a write brings about besides |
| AcpiRegisters.ControlByBits | src/acpi.c:1326-1753 | So for the 32-bit global control register, but its end-of-SMI bit |
| AcpiRegisters.WriteElse | src/acpi.c:1326-1401 | A write clears RTC_STS, or puts the machine to sleep, exactly when it says so |
| AcpiRegisters.EventByBits | src/acpi.c:3029-3068 | Events, polls, buttons and waking raise exactly their bits and clear none, but the override the button's |
| AcpiRegisters.ResetByBits | src/acpi.c:3239-3294 | Every bit after reset |
| AcpiRegisters.InputLine | src/acpi.c:208-250 | On the PIIX4, awake, ring and USB events never change SCI; lid, thermal and general-purpose inputs raise it when enabled |
| AcpiRegisters.SmiTaken | src/acpi.c:291-318 | An assertion of SMI# is taken exactly when enabled and, on VIA, not locked while one is active; what it leaves |
| AcpiRegisters.LockByBits | src/acpi.c:1602-1708 | The VIA lock and the clearing of its active SMI |
| AcpiSmi.NextOwed | src/acpi.c:382-419 | A step raises an edge exactly when it brings the SMI# level from low to high while awake, besides what it raises itself, and on waking when SMI# is due |
| AcpiSmi.EdgesOverRun | src/acpi.c:382-419 | Over every run on every chip the number of edges is the number owed, the level told bit by bit |
| AcpiSmi.RisesAnswered | src/acpi.c:333-409 | In every run on every chip each rise of the level is answered by the very step that brings it about, with an edge or its own assertion of SMI#, and no step asserts an edge without a rise |
| AcpiSmi.ViaDirectRise | src/acpi.c:1602-1708 | The two VIA writes that raise SMI# themselves leave no rise without one, and raise no edge without a rise |
| AcpiSmi.PollQuiet | src/acpi.c:2932-2938 | The RTC poll never raises SMI# |
| AcpiSmi.RtcRise | src/acpi.c:333-358 | Exactly when RTC_STS brings the level up: never on the PIIX4 |
| AcpiDevice.Device.WriteReg | src/acpi.c:1326-1753 | Any byte written to the chip's registers sets, keeps or clears each bit of each register as the chip's map says, leaves SCI driven as SCI_EN and the enabled statuses say, and raises exactly the SMI# edges owed |
| AcpiDevice.Device.TimerOverflow | src/acpi.c:142-149 | The timer's status leaves SCI right and raises no SMI# |
| AcpiDevice.Device.GpeEvent | src/acpi.c:3029-3068 | A general-purpose event sets its status bits; awake it leaves SCI right and raises the edge owed, asleep it can only wake the machine |
| AcpiDevice.Device.PressButton | src/acpi.c:2868-2879 | A press of the power button awake leaves SCI right and raises the edge owed; asleep it wakes the machine |
| AcpiDevice.Device.OverrideButton | src/acpi.c:2893-2907 | The four-second override leaves SCI right and raises no edge |
| AcpiDevice.Device.RtcInterrupt | src/pic.c:1240-1243 | The RTC's interrupt sets RTC_STS and leaves the line as it was last driven |
| AcpiDevice.Device.PollButton | src/acpi.c:2909-2941 | The 16 ms poll leaves SCI right and raises no edge; the line then counts RTC_STS as it is now in exactly all cases but one |
| AcpiDevice.Device.WakeNow | src/acpi.c:2949-2999 | Waking makes the line right again, and raises an edge if SMI# is due |
| AcpiDevice.Device.ResetChip | src/acpi.c:3239-3294 | Reset leaves the line low and right |
| PmTimer.NextTarget | src/acpi.c:112-130 | The next event is a top-bit toggle at least 256 ticks and at most half a period plus 256 away |
| PmTimer.TogglesAreMultiples | src/acpi.c:112-130 | The top bit changes exactly at multiples of half the period |
| PmTimer.NextIsFollowing | src/acpi.c:112-130 | A callback aims at the toggle after its own exactly when it is less than 256 ticks early and at most half a period minus 256 late |
| PmTimer.BeforeTarget | src/acpi.c:112-130 | A toggle comes before the first target exactly if it is less than 256 ticks away when the timer is armed |
| PmTimer.EveryToggleOnce | src/acpi.c:112-149 | Callbacks within that window report every toggle after the timer is armed exactly once, unless it was less than 256 ticks away then: that one by none |
| PmTimer.ReadsAdvance | src/acpi.c:2484-2501 | Charging a read its cycles puts the next read at least one tick later |
| PmTimer.FewestCycles | src/acpi.c:3305-3315 | The cycles charged are the fewest that last longer than a tick |
| PmTimer.ReadsDiffer | src/acpi.c:3305-3315 | So two reads less than a period apart never return the same value |
| MpSearch.SearchRanges | src/apic_platform.c:301-349 | The ranges the MP specification has searched, inside the first megabyte |
| MpSearch.SearchRange | src/apic_platform.c:363-415 | The first valid floating pointer of a range, however the granules are read |
| MpSearch.FindTable | src/apic_platform.c:363-415 | The lowest address on a 16-byte boundary of the searched ranges at which the sixteen bytes are a floating pointer, with the table address its bytes 4 to 7 spell, or none |
| MpSearch.FirstHitIsFirst | src/apic_platform.c:363-415 | A hit is valid and nothing before it was; no hit means no candidate was |
| MpSearch.HitIsPointer | src/apic_platform.c:363-415 | A candidate is taken exactly when its bytes spell the signature, its length byte is one, its sixteen bytes sum to zero and it points to a signed table, or to none and names a default configuration |
| MpSearch.SearchedIs | src/apic_platform.c:301-349 | The candidates are the 16-byte boundaries of the BIOS area and of the first kilobyte of the EBDA with the last below 640K, or without an EBDA of the kilobytes around the end of base memory, from the two BIOS words |
| MpSearch.LowestFound | src/apic_platform.c:363-415 | The first hit is the lowest floating pointer among them |
| MpRepair.RepairBytes | src/apic_platform.c:458-540 | The repair changes the processor ids and the checksum, and no other byte |
| MpRepair.RepairByBytes | src/apic_platform.c:458-540 | The repair told from the table's bytes: which header it takes, where it walks, which ids it sets, the checksum it writes |
| MpRepair.TableLenIs | src/apic_platform.c:867-929 | The length remembered, from the table's bytes |
| MpRepair.HiddenExactly | src/apic_platform.c:1020-1030 | Hiding writes 0xff over a signature and nothing else |
| MpRepair.HiddenGone | src/apic_platform.c:1020-1030 | After it neither signature is there |
| MpRoutes.RoutesByBytes | src/apic_platform.c:715-809 | The routes of a table are, in order, exactly those its entries' bytes teach, legacy and PCI, with the buses named by the bytes of entries before |
| MpRoutes.RouteExactly | src/apic_platform.c:715-809 | A route is learned if and only if a vectored interrupt entry teaches it: pin and source from the entry's bytes, its bus one of that kind met before it |
| MpRoutes.NameSpelled | src/apic_platform.c:543-554 | A bus name trimmed of blanks and cut at a NUL is a given name exactly when its bytes spell it and a NUL, or only blanks and NULs, follow |
| MpRepair.RepairWrites | src/apic_platform.c:458-540 | The repair writes something exactly when the walk meets an enabled boot processor entry with another id |
| MpRepair.RepairChecksum | src/apic_platform.c:458-540 | A completed repair leaves a table that sums to zero |
| MpRepair.EarlyExitSum | src/apic_platform.c:458-540 | One that stops at an unknown entry leaves the sum off by exactly what the ids changed |
| MpRepair.EarlyExitBreaks | src/apic_platform.c:458-540 | With exactly one id to set it breaks every checksum that was right |
| MpExamples.ChecksumBroken | src/apic_platform.c:458-540 | A table that is found, checks out and, repaired, no longer does |
| MpExamples.BiosFound | src/apic_platform.c:363-415 | The search finds that table: signed, checksummed, behind a valid floating pointer in the BIOS area |
| MpRepair.RepairIdempotent | src/apic_platform.c:458-540 | Repairing twice is repairing once |
| MpRepair.RepairKeepsRoutes | src/apic_platform.c:715-809 | The routes learned are the same before and after the repair |
| MpRepair.SkipSound | src/apic_platform.c:989-1045 | A table equal to the one remembered teaches the same routes, and needs no repair if it was repaired then, for every table whose walk does not stray past 4 GB |
| MpSkip.SkippedExactly | src/apic_platform.c:989-1045 | For a table the repair walks and has nothing left to do in: every memory with the same table bytes teaches the same routes and needs no repair, if and only if the walk does not stray |
| MpExamples.SkipMissesRoute | src/apic_platform.c:715-809 | Two memories with the same table bytes ending below 4 GB: the table would be skipped, and would teach a route in one and not in the other |
| MpRepair.SkipExactly | src/apic_platform.c:985-1037 | Skipping loses no write exactly when the table cannot be written, or is exposed and has no id to set |
| MpExamples.RomThenRam | src/apic_platform.c:985-1002 | Every table met in ROM and then in RAM with the same bytes is skipped, whatever there was to repair |
| MpExamples.Unrepaired | src/apic_platform.c:985-1002 | A found, well-formed table with a boot processor id to set, met in ROM and then in RAM, keeps the wrong id |
| MpRepair.Platform.Fixup | src/apic_platform.c:458-540 | The repair in place. Told from the bytes: each processor entry the walk meets gets the right id if enabled and marked as the boot processor, the checksum makes the sum zero, nothing else changes |
| MpRepair.Platform.LearnRoutes | src/apic_platform.c:715-809 | Learning the routes in place: exactly those the entries' bytes teach, in the table's order |
| MpRepair.Platform.Unchanged | src/apic_platform.c:867-929 | The comparison with the remembered table, in granules or by byte |
| MpRepair.Platform.Remember | src/apic_platform.c:867-929 | What is remembered |
| MpRepair.Platform.Post | src/apic_platform.c:985-1037 | A table seen: skipped exactly if it is the one remembered, with what that loses; or learned from (exactly the routes its bytes teach), repaired, hidden, and remembered byte for byte |
| MpExamples.PostTwice | src/apic_platform.c:985-1037 | An exposed table posted again at once is skipped, unless nothing is remembered of it |
| TimedCommands.EveryRun | src/automation.c:2568-2646 | In every run each request handed over completes exactly once, a command runs only for the one request outstanding, the machine is held as last asked when none does, and the keys delivered are those asked for in order, none twice, less those a debugger stop cut off |
| TimedCommands.SpacedExactly | src/automation.c:2137-2156 | In every run without overflow, debugger stops included, keys are at least the gap apart if and only if no key request was taken up before the gap after the last key was over |
| TimedCommands.StepExactly | src/automation.c:1664-1704 | A step of m ms runs for exactly ceil(m/quantum) quanta, the hold restored, if and only if the end of its first quantum, its deadline and the end of its last fall in one turn of the 64-bit clock |
| TimedCommands.StepMistimed | src/automation.c:1664-1672 | With the first quantum and the deadline in different turns it ends at once, or not when it should |
| TimedCommands.StepOverruns | src/automation.c:2644-2645 | With the clock wrapping in the last quantum it misses its deadline |
| TimedCommands.WaitExactly | src/automation.c:2568-2646 | A wait ends at once if its condition holds when it is asked for, else at the end of the first quantum at which it does or the 64-bit clock has reached the deadline, and not before; the request is then completed and the machine held as it was |
| TimedCommands.AsAsked | src/automation.c:2568-2646 | Over every run the hold is the last one asked for and, without a debugger stop, the keys delivered are those of the requests in order |
| TimedCommands.KeyExactly | src/automation.c:2137-2156 | A quantum while typing delivers the next key exactly when the gap is over, and completes when none is left |
| TimedCommands.NoOverflow | src/automation.c:2568-2646 | A run that ends before the 64-bit clock would wrap never overflows |
| TimedCommands.Step | src/automation.c:2077-2085 | A step handed over, taken up and run, in place, takes its quanta and leaves the machine held as before |
| TimedCommands.StopBreaksTheGap | src/automation.c:2592-2604 | A debugger stop can bring two keys to the same millisecond |
| TimedCommands.Automation.PollRequest | src/automation.c:2568-2575 | Taking up a request keeps the account of requests, holds and keys |
| TimedCommands.Automation.RunQuantum | src/automation.c:2587-2646 | A quantum, or a debugger stop in its place, keeps the account of requests, holds and keys |
| TimedCommands.Automation.Submit | src/automation.c:2568-2575 | Handing a request over keeps the account of requests, holds and keys |
| PositionRing.Ring.Put | src/automation.c:568-578 | A byte enters the ring at its position |
| PositionRing.Ring.Add | src/automation.c:1781-1788 | A text enters the log ring |
| PositionRing.Ring.Read | src/automation.c:1806-1824 | The history from a position on, and exactly what was lost before it |
| PositionRing.SerialRead | src/automation.c:680-722 | The reply of the serial read request, refusals included |
| PositionRing.ReadTwice | src/automation.c:680-722 | Two serial reads, the second from the first's next, with anything sent between: none is given twice, what is missing is exactly what is reported lost, and with it they are the history |
| SerialSearch.Contains | src/automation.c:641-667 | The search in the ring is a search in everything ever sent, from the position reached |
| SerialSearch.EveryWait | src/automation.c:641-667 | Over every wait, what is found is the first occurrence there was, and none is missed while the gaps fit |
| SerialSearch.CheckExactly | src/automation.c:641-667 | A check misses exactly what slid out between two checks |
| SerialSearch.OneMoreCanHide | src/automation.c:641-667 | One byte more than fits can hide a match, in a ring of any size from two bytes |
| SerialSearch.SerialCanHide | src/automation.c:641-667 | A match is missed in the serial ring of 65536 bytes with one byte more than fits between two checks |
| AudioRing.PullSlot | src/automation.c:1288-1296 | The slot a pull reads is the one the frame went to |
| AudioRing.Stream.Block | src/automation.c:986-1069 | A block of sound: the ring holds the last of everything since the rate last changed; a segment goes on, or starts where the skipped frames end, at once after a new rate ended one, while fewer than 16 have ended, which is its number |
| AudioRing.Stream.CloseSegment | src/automation.c:966-985 | An open segment ends at the stream's total, and counts as one more up to the limit |
| AudioRing.Stream.Pull | src/automation.c:1250-1307 | The segment's frames from a position on, as they were heard; the reported loss is the segment's if and only if not all of it has left the ring or none is asked for from before the ring, and always while it is open |
| AudioRing.PullTwice | src/automation.c:1250-1307 | Two pulls, the second from the first's next, with any sound, stops, starts and rates between: of one segment exactly when none was started between; then they join exactly unless a loss is reported, and the gap while recording is the loss reported; otherwise, past the start of the first, frames between them are missed |
| AudioRing.SegmentChanges | src/automation.c:1036-1066 | Within one recording at one rate a segment is started exactly if none had been, fewer than 16 have ended and more frames are heard than are skipped |
| AudioRing.OneForEachRate | src/automation.c:986-1069 | After blocks of any rates, nothing skipped, as many segments have ended as the rate has changed, sixteen at most, and the last block is in one unless sixteen have |
| AudioRing.RestartMissesFrame | src/automation.c:1268-1273 | A new recording pulled before its first block and after it: a frame in neither reply, none reported lost, the same segment number |
| AudioRing.LossOvercounted | src/automation.c:1276-1288 | At every rate, one frame recorded and half a minute or more heard after it: every frame past the ring's thirty seconds is reported lost |
| FrameQueue.DecodesAppend | src/automation.c:1393-1487 | A queued frame extends what a client can decode |
| FrameQueue.DecodesSplit | src/automation.c:2228-2274 | A pull of part of the queue decodes that part and leaves the rest decodable |
| FrameQueue.XorTwice | src/automation.c:1440-1487 | A difference applied to its base gives the frame |
| FrameQueue.Recorder.Capture | src/automation.c:1393-1487 | A frame is queued last or counted lost, exactly as the queue's bytes and the codec say; what is queued stays decodable, and after a loss a key frame is due |
| FrameQueue.Recorder.Pull | src/automation.c:2228-2274 | The oldest frames come out and decode to exactly the frames captured |
| Breakpoints.ToggleChangesOne | src/debugger.c:318-339 | A toggle adds or removes one address and nothing else |
| Breakpoints.EveryScanHonest | src/debugger.c:151-158 | Over every interleaving, a scan overlapped by at most one edit reports every address set throughout and none set neither before nor after |
| Breakpoints.EveryEditEnds | src/debugger.c:318-339 | Over every interleaving an edit has taken effect on the list once its own thread has taken n + 4 steps |
| Breakpoints.EveryScanEnds | src/debugger.c:151-158 | And a scan has reported, on its address and the list it found, once its thread has taken n + 1 |
| Breakpoints.TwoTogglesCanHide | src/debugger.c:318-339 | Two can hide one |
| Breakpoints.BreakpointList.Present | src/debugger.c:303-314 | Membership |
| Breakpoints.BreakpointList.Toggle | src/debugger.c:318-339 | The toggle in place, its result included |
| DebuggerRead.Walk32ByPage | src/debugger.c:445-500 | 32-bit paging translates a byte as its page, for 4 KB and 4 MB pages |
| DebuggerRead.WalkPaeByPage | src/debugger.c:445-500 | PAE paging translates a byte as its page, for 4 KB and 2 MB pages |
| DebuggerRead.Walk32Is | src/debugger.c:445-500 | 32-bit paging in plain arithmetic: directory, table and offset by division, 4 MB pages with PSE-36, none exactly when an entry is not present |
| DebuggerRead.WalkPaeIs | src/debugger.c:445-500 | PAE paging so: 2, 9, 9 and 12 bits or 2, 9 and 21, none past 4 GB or where an entry is not present |
| DebuggerRead.TranslateIs | src/debugger.c:445-500 | Which of them, or none, translates an address |
| DebuggerRead.PageTranslates | src/debugger.c:445-500 | A page's translation gives each byte's exactly when A20 leaves that byte's offset alone |
| DebuggerRead.ByteOfPage | src/debugger.c:502-541 | The page's translation shows a byte as its own would if A20 keeps its offset, and looks at a different address if not |
| DebuggerRead.MemRead | src/debugger.c:502-541 | Reading a range by translating each page once shows what translating each byte would, the translation being plain arithmetic on the page tables' entries, with every A20 mask that keeps the 4 KB offset (as all of src/mem/mem.c do), and with any other for each byte whose offset it keeps |
| NoContraction.Minimise | scripts/nocon-min.py:74-146 | The script's output or its refusal, for every module, told from its lines alone |
| NoContraction.Consumers | scripts/nocon-min.py:98-104 | The consumer map is exactly who consumes what |
| NoContraction.FilterKeepsCode | scripts/nocon-min.py:138-145 | Definitions and uses survive the filter |
| NoContraction.OrderKept | scripts/nocon-min.py:138-145 | Lines keep their order, and exactly the dropped decorations go |
| NoContraction.StaysExactly | scripts/nocon-min.py:113-133 | Which decorations stay |
| NoContraction.AnswersByLine | scripts/nocon-min.py:74-146 | Told from the lines alone, the last definition of an id counting: what is refused, and otherwise that exactly the decorations go whose target's line and users do not need them |
| NoContraction.KeepsByLine | scripts/nocon-min.py:113-133 | Which decorations stay, by lines |
| NoContraction.RouteStaysGuarded | scripts/nocon-min.py:113-133 | On every route from a multiply through forwarding operations to an add, both ends keep their decorations |
| NoContraction.EscapingMultiplyStays | scripts/nocon-min.py:113-133 | A multiply used by anything not known to be harmless stays decorated |
| NoContraction.PairGuardedExactly | scripts/nocon-min.py:113-133 | When a multiply and an add end up guarded, however the value travels |
| NoContraction.GuardLostThroughMemory | scripts/nocon-min.py:113-133 | Through memory the guard can be lost |
| NoContraction.SecondRun | scripts/nocon-min.py:74-146 | The script is idempotent on its output, or reports nothing to do |

## Left out

- DmaScatterGather.StartVisitsList: lists served upwards in the advanced modes with no stop register; not lists served downwards or ended by the ring buffer stop.
- DmaController.Controller.WriteList: lists whose buffers do not lie on their own descriptors; what overwriting a descriptor does is not described.
- MpSkip.SkippedExactly: a table whose extended part ends exactly at 4 GB is walked for routes and not for repair; for it only `MpRepair.SkipSound` is proved.
- SerialSearch.EveryWait: the match is complete while the gaps fit the ring; `CheckExactly` says what happens otherwise.
- TimedCommands.SpacedExactly: no claim once a 64-bit time has overflowed.
- DMA page and count register programming, the byte flip-flop, PS/2 and Marty refresh channels, memory-to-memory and block-transfer extras.
- Mapping handlers: memory is flat bytes; which parts may be read directly is a parameter.
- ACPI on SMC and SiS chips, GPIO, IRQ line steering, APM ports, throttling and the reset values of particular machines; global status bits set by other chips' code.
- Floating-point clock ratios are real numbers.
- The MP tables' writability, the remembered mapping pointers and the log.
- Parsing requests, word splitting, replies' text, sockets, authentication, WAV, PNG and base64 output; sound levels and waits for sound beyond their timing.
- Packed frame compression, whose only property used is that it loses nothing; the recording interval and the directory mode.
- 64-bit wrap of ring positions.
- Debugger stepping, registers and resets.
- The NoContraction script's parsing, its counters of unmodelled opcodes and its messages; what `FNegate` forwards.
- Everything else in the repository: other devices, configuration, the user interface.
