# A verified model of mini-vmm

mini-vmm is a small KVM-based virtual machine monitor for x86-64. This project models its
hard core in Dafny 4.11 and proves what that core is for. `dafny verify dfyconfig.toml` checks
everything.

Four parts, in the order of `src/`:

* **Stopping** (`StopProtocol`, `StopSafety`, `StopTermination`). The vCPU threads, the main
  thread inside `vm_run` and the console thread as one interleaved step system over the shared
  flags, the signal, KVM_RUN and both locks. Every shared load, store, signal, lock operation
  and KVM_RUN transition is one step. The theorems are about every number of vCPUs and every
  interleaving: no wakeup is lost by a stop that begins after the threads have been created,
  the machine then comes to rest within a bound, without deadlock and without any help from
  its guests, and for a stop at any time the vCPUs it leaves asleep are characterised exactly.
* **Booting** (`Bytes`, `GuestRam`, `PageTables`, `Segments`, `ElfLoader`, `BzImage`,
  `ZeroPage`, `Firmware`, `MpTable`, `AcpiTables`, `BootLinux`, `BootPayload`). One class owns
  guest RAM; each writer of the boot path is a method proved against the bytes it is to leave
  there, and each has a reader: the page walker, the segment decoder, the firmware parsers, the
  boot-protocol fields. `BootLinux.Boot` and `BootPayload.Boot` compose them: nobody clobbers anybody, and
  what the guest needs first is identity mapped.
* **Devices** (`Serial8250`, `SerialRuns`, `I8042`, `I8042Runs`, `Console`). Classes over
  registers and ring buffers refine models on queues; the theorems are about runs: interrupt
  levels alternate, the handler terminates and leaves room for a fresh edge, no byte is lost
  uncounted, one edge per keyboard byte, the escape sequence stops the machine exactly when it
  should.
* **Maps and tables** (`GuestMemory`, `IoBus`, `Cpuid`, `PioTrace`). First-match searches with
  64-bit wrap-around equal integer models exactly when no range reaches 2^64; rewriting in
  place is idempotent; encodings read back.

Code that changes state in the program is a method or a class here, and its `ensures` ties the
new state to a specification function; the lemmas are about those functions. Addresses and
registers are natural numbers with every wrap-around and truncation of the C code written out.
The table below lists the operations and the results; the lemmas that lead up to them are in
the files.

Where the code and its documentation disagree the model follows the code:
`boot_layout_validate` is documented to check overlap and alignment of the tables
(`include/boot/gdt_pgtable.h:112`), but checks neither; `PageTables.ValidateMisses` gives an
accepted layout for each. `PageTables.WellPlaced` states what is missing, every default layout
that validation accepts is proved to satisfy it (`PageTables.DefaultLayoutFits`), and the
theorems about the tables assume it only where they need it.

Properties that hold only conditionally are stated with their exact condition, as an
if-and-only-if; where a witness is named, it is a concrete input that fails the condition:

* a stop leaves every vCPU safe: `StopSafety.StuckExactlyInWindow`, witness
  `EarlyPassCanLoseWakeup`;
* slots stay disjoint: `GuestMemory.AddKeeps` and `RunKeeps`, witness `LastPageTwice`;
  translation is the integer model: `GuestMemory.TranslateIsModelIff`;
* devices stay disjoint: `IoBus.RegisterKeeps` and `RegistrationsDisjoint`, witness
  `LastBytesTwice`; lookup is the address map: `IoBus.LookupIsModelIff`;
* the serial interrupt handler terminates: `SerialRuns.HandlerTerminatesIff`;
* kernel and payload are mapped: `BootLinux.KernelMappedIff`, `BootPayload.PayloadMappedIff`;
* a pending parameter survives: `I8042Runs.PendingSurvives`.

The payload check of `--mode long64` compares a sum that could wrap. It is exact for every
payload that reaches it (`BootPayload.PayloadOkExact`), because `mem_load_file` has bounded the
payload by RAM before (`src/main.c:520`, `:542`); `BootPayload.PayloadWraps` shows that this
bound is needed.

## Model

| member | source | states |
|---|---|---|
| `StopProtocol.LocalStepMoves` | src/vm.c:366-385 | Outside `vm_request_stop` a step of a vCPU thread changes only its own record, takes a lock only when free and gives back only its own. |
| `StopProtocol.StepInv` | src/smp.c:260-332 | The invariant (thread bookkeeping, mutual exclusion on `io_lock` and on the UART lock) holds after every step of every thread: a vCPU is absent iff not yet created, its flag is set iff it is between store and clear, joined threads have exited, and each lock is held exactly where the program counter says so. |
| `StopProtocol.Vm.RequestStop` | src/smp.c:260-275 | After `vm_request_stop` every vCPU has both flags set, and exactly the live started threads other than the caller have the signal pending. |
| `StopProtocol.UninterruptedPass` | src/smp.c:260-275 | The interleaved statements of a pass, run without interruption, have exactly the effect of the sequential procedure. |
| `StopSafety.RunInv` | src/smp.c:260-332 | The invariant holds in every reachable state, for every number of vCPUs and every interleaving. |
| `StopSafety.StepEffect` | src/smp.c:264-274 | No step of any thread clears a stop flag of a vCPU, takes away a pending signal without leaving KVM_RUN, or lets a vCPU past `immediate_exit`. |
| `StopSafety.SafeForever` | src/vm.c:434-454 | A vCPU that has both flags set and is not asleep in KVM_RUN without a signal stays that way for ever, and once outside KVM_RUN never enters it again. |
| `StopSafety.PassMoves` | src/smp.c:260-275 | A thread's position in `vm_request_stop` moves only by its own steps, one statement at a time. |
| `StopSafety.SignalsCreatedThread` | src/smp.c:271-273 | In every reachable state a thread about to signal vCPU j signals one that pthread_create has made, and never itself. |
| `StopSafety.NoLostWakeup` | src/smp.c:251-275 | No lost wakeup: once a pass that began after every `thread_started` store has finished, no vCPU is inside KVM_RUN without a pending signal, and in every continuation none enters it again. |
| `StopSafety.StuckExactlyInWindow` | src/smp.c:260-321 | Over every run and every whole pass, also one that begins during creation: at its end vCPU j is unsafe if and only if the pass read `thread_started` of j between `pthread_create` and the store while j was asleep in KVM_RUN, and since then neither another pass has signalled j nor its guest has exited by itself; and an unsafe vCPU is one marked stopped and asleep. |
| `StopSafety.SafeOutsideWindow` | src/smp.c:260-321 | A whole pass no step of which falls into that window leaves every vCPU safe, even if it begins before creation is done. |
| `StopSafety.EarlyPassCanLoseWakeup` | src/smp.c:313-319 | The window is real: a concrete run with one vCPU ends its console pass with the vCPU asleep and main blocked in `pthread_join`. |
| `StopTermination.WorkBound` | src/vm.c:259-274 | With accesses of at most c device callbacks the measure is at most n(8n + 3c + 26) + 5. |
| `StopTermination.StepDrops` | src/vm.c:430-466 | After the stop every vCPU and main step lowers the measure, a UART lock taken anew for each element of a string access included, and no console step raises it. |
| `StopTermination.StepsAreBounded` | src/vm.c:430-466 | Whatever the console types, the vCPU and main threads take at most as many further steps as the measure says. |
| `StopTermination.SerialHolder` | src/vm.c:370-384 | Lock order: a vCPU thread that holds the UART lock also holds `io_lock`. |
| `StopTermination.OnlySleepBlocks` | src/devices/serial8250.c:289-304 | In every reachable state, before or after a stop, until `vm_run` returns: some vCPU or main step other than a guest exit is enabled, or the console is about to release the UART lock, or a vCPU is asleep in its guest without a signal. The locks alone never block for good. |
| `StopTermination.NoDeadlock` | src/smp.c:254-258 | After the stop, until `vm_run` returns, such a step exists without the help of any guest. |
| `StopTermination.HungCannotMove` | src/smp.c:313-319 | The state the early pass leaves behind is one in which no such step exists: main waits in `pthread_join` for a vCPU asleep in its guest. |
| `StopTermination.DoneMeansExited` | src/smp.c:324-331 | When `vm_run` has returned, every created thread has exited. |
| `StopTermination.StopTerminates` | src/smp.c:277-332 | Stop terminates: after such a pass every continuation has at most n(8n + 3c + 26) + 5 vCPU and main steps, where c bounds the device callbacks of its accesses, and one that cannot go on without a guest exiting by itself has joined every thread and returned from `vm_run`. |
| `GuestRam.Ram.Copy` | src/mem.c:187-198 | A copy into guest RAM replaces exactly the bytes from `gpa` on. |
| `GuestRam.Ram.Clear` | src/mem.c:153-172 | Zeroing a range replaces exactly that range by zeros. |
| `GuestRam.Ram.Store` | src/boot/gdt_pgtable.c:171-172 | A little-endian store truncates to its width and changes nothing else. |
| `GuestRam.Ram.Fetch` | src/boot/gdt_pgtable.c:405 | A load returns the little-endian value of the stored bytes. |
| `PageTables.BuiltSame` | src/boot/gdt_pgtable.c:144-225 | Whether RAM holds the tables depends on the table bytes alone. |
| `PageTables.FillPdLarge` | src/boot/gdt_pgtable.c:176-181 | 2 MiB granularity: exactly the first map_size / 2 MiB entries of the page directory map their own 2 MiB, the others are not present. |
| `PageTables.FillPt` | src/boot/gdt_pgtable.c:205-207 | A page table maps each of its 512 pages to itself. |
| `PageTables.FillPdSmall` | src/boot/gdt_pgtable.c:194-210 | 4 KiB granularity: every table fits into RAM or the call fails; then each directory entry points to a full table of its own. |
| `PageTables.BuildPageTable` | src/boot/gdt_pgtable.c:144-225 | The exact success and unsupported conditions for every layout whose map size does not wrap when rounded up; on success the tables are in RAM if they are well placed, and no byte outside them is ever changed. |
| `PageTables.DumpPageWalk` | src/boot/gdt_pgtable.c:384-432 | The walking loop computes the recursive walk from the root. |
| `PageTables.WalkIsIdentity` | src/boot/gdt_pgtable.c:384-432 | Page walk is identity: for every address, both granularities and every 2 MiB multiple up to 1 GiB, addresses below map_size map to themselves and all others below 2^48 are not present. |
| `PageTables.GranularitiesAgree` | src/boot/gdt_pgtable.c:176-222 | Tables of the two granularities give the same translation of every address. |
| `PageTables.DefaultLayoutFits` | src/boot/gdt_pgtable.c:62-114 | Validation accepts the default addresses exactly for multiples of 2 MiB up to 512 GiB with RAM past the last table, and all it accepts of them is well placed. |
| `PageTables.ValidateMisses` | src/boot/gdt_pgtable.c:74-114 | Of other addresses it accepts tables that overlap and tables that are not page-aligned. |
| `Segments.SegmentRoundTrip` | src/boot/gdt_pgtable.c:39-60 | `seg_from_desc` loses no bit: an inverse gives back every 64-bit descriptor. |
| `Segments.BuildGdt` | src/boot/gdt_pgtable.c:116-133 | Succeeds iff the GDT fits into RAM and then stores exactly the null, code, data and empty TSS descriptors. |
| `Segments.SetupLinux64` | src/boot/gdt_pgtable.c:357-382 | Stores the null, null, code, data table and loads registers whose cached code and data segments agree with it, inside the GDT limit. |
| `Segments.CachesAgree` | src/boot/gdt_pgtable.c:274-355 | In both long-mode paths the descriptor at GDTR.base + selector decodes to the cached segment, for CS and for the data segments. |
| `Segments.LongModeIsConsistent` | src/boot/gdt_pgtable.c:300-324 | CS is a present flat 64-bit code segment, the data segments present flat writable ones, and CR0, CR4 and EFER form the set long mode needs. |
| `ElfLoader.LastCoverWins` | src/boot/elf_loader.c:123-124 | A byte covered by several segments is the one of the last. |
| `ElfLoader.UncoveredStays` | src/boot/elf_loader.c:97-149 | A byte no segment covers keeps its former value. |
| `ElfLoader.PlaceAll` | src/boot/elf_loader.c:97-149 | The loop places every segment, keeps lo and hi exact, and translates the entry by the first segment that recognises it. |
| `ElfLoader.EntryIsLoaded` | src/boot/elf_loader.c:139-147 | The translated entry lies in a loaded segment, whether e_entry was physical or virtual. |
| `ElfLoader.LoadVmlinux` | src/boot/elf_loader.c:56-163 | Succeeds exactly on loadable files; then every guest byte is that of the last covering PT_LOAD (file byte or bss zero) or unchanged, and lo, hi and the entry are exact. |
| `BzImage.LoadBzImage` | src/boot/bzimage.c:44-154 | Succeeds exactly on loadable images; RAM [load, load + need) is the payload then zeros and nothing else changes; entry, bounds and header as described by the file. |
| `BzImage.LoadKernel` | src/boot/kernel_loader.c:27-68 | The file header alone decides the format; the result is the kernel description and RAM image that go with it. |
| `BzImage.KernelStaysInRange` | src/boot/elf_loader.c:132-135 | Loading a kernel of either format changes nothing outside [lo, hi). |
| `ZeroPage.AddE820` | src/boot/zeropage.c:18-29 | Appends at the index in e820_entries and increments it. |
| `ZeroPage.WriteHeader` | src/boot/zeropage.c:96-130 | boot_params starts as zeros with the kernel's header, or the forged one, and the loader fields. |
| `ZeroPage.LoadInitrd` | src/boot/zeropage.c:34-75 | Succeeds exactly when the initrd is nonempty and the highest 2 MiB boundary under the limit is at or above the kernel end; then it is there and described, unless it lies over boot_params. |
| `ZeroPage.WriteCmdline` | src/boot/zeropage.c:134-151 | The NUL-terminated command line is at its address and both pointer fields are set. |
| `ZeroPage.Setup` | src/boot/zeropage.c:77-167 | Succeeds exactly on acceptable configurations; nothing else changes, and boot_params, command line and initrd are in place unless the initrd lies over the others, which no kernel end above 0 allows. |
| `ZeroPage.BzHeaderAccepted` | src/boot/zeropage.c:104-108 | The length check never rejects a header that `bzimage_load` produced. |
| `ZeroPage.HeaderIsKernels` | src/boot/zeropage.c:98-130 | The final setup header is the kernel's below its length and zero above, apart from the loader-owned fields. |
| `ZeroPage.LoaderFields` | src/boot/zeropage.c:128-151 | type_of_loader, LOADED_HIGH, the command line pointer and the ACPI root pointer read back as stored. |
| `ZeroPage.ForgedHeader` | src/boot/zeropage.c:111-127 | A vmlinux gets a header with both signatures, protocol 2.15, LOADED_HIGH and the default alignment and initrd limit. |
| `ZeroPage.InitrdDescribed` | src/boot/zeropage.c:67-70 | The initrd boot_params describes is the one in memory. |
| `ZeroPage.MemoryMap` | src/boot/zeropage.c:155-162 | The guest reads exactly three E820 entries that tile [0, ram) and reserve only [0x9fc00, 1 MiB). |
| `ZeroPage.InitrdIsHighest` | src/boot/zeropage.c:47-56 | The chosen address is 2 MiB aligned, ends within RAM and limit, and no higher aligned address would. |
| `Firmware.ChecksumWorks` | src/boot/mptable.c:109-118 | Storing the checksum into a zero byte of a table makes the table sum to 0 mod 256. |
| `Firmware.SumMemory` | src/boot/acpi.c:160-168 | The summing loop over guest memory returns the checksum of the bytes there. |
| `Firmware.SplitFlatten` | src/boot/mptable.c:149-216 | Walking a run of self-describing entries by their lengths recovers exactly the entries and ends at its end. |
| `MpTable.Setup` | src/boot/mptable.c:120-235 | Whatever RAM held, on success the 1 KiB region is exactly the anchor, the table and zeros, and nothing else changed; the exact success condition. |
| `MpTable.EntriesMean` | src/boot/mptable.c:149-196 | The entries mean CPUs 0..n-1 and one I/O APIC. |
| `MpTable.EntriesRoute` | src/boot/mptable.c:149-216 | Every processor is enabled and exactly CPU 0 boots, IRQ i of the declared ISA bus goes to pin i of the declared I/O APIC, LINT0 of every CPU takes ExtINT and LINT1 NMI. |
| `MpTable.EntriesSplit` | src/boot/mptable.c:149-216 | Walking the entries by type ends exactly at the declared length. |
| `MpTable.ReadsBack` | src/boot/mptable.c:120-231 | MP table parses back: in any memory holding the region the guest's walk recovers APIC ids 0..n-1 and the I/O APIC, with both checksums 0 mod 256. |
| `AcpiTables.WriteMadt` | src/boot/acpi.c:231-270 | The MADT is complete iff it fits into the region. |
| `AcpiTables.WriteRsdp` | src/boot/acpi.c:283-291 | The root pointer with both nested checksums. |
| `AcpiTables.Setup` | src/boot/acpi.c:187-301 | Whatever RAM held, on success the 64 KiB region is exactly the image of the five tables and nothing else changed; the exact success condition. |
| `AcpiTables.TwoChecksums` | src/boot/acpi.c:290-291 | The second root pointer checksum does not spoil the first. |
| `AcpiTables.EntriesMean` | src/boot/acpi.c:235-266 | The MADT entries mean the enabled APIC ids in order and the I/O APIC. |
| `AcpiTables.EntriesSplit` | src/boot/acpi.c:235-266 | Walking the entries by their length bytes ends exactly at the end. |
| `AcpiTables.MadtReads` | src/boot/acpi.c:231-270 | The MADT reads back as the topology it was built for, for every CPU count the size check admits. |
| `AcpiTables.FadtFields` | src/boot/acpi.c:216-229 | The FADT points at the DSDT by both fields and names the fixed hardware at the offsets of the specification. |
| `AcpiTables.ReadsBack` | src/boot/acpi.c:187-301 | ACPI tables parse back: following the root pointer checks every checksum and recovers the APIC ids, the I/O APIC, the FADT and the DSDT. |
| `BootLinux.ZeroConfig` | src/main.c:422-435 | The configuration handed on has the kernel end and initrd, and an initrd limit below 1 GiB. |
| `BootLinux.WriteFirmware` | src/main.c:415-420 | MP table and ACPI tables together, confined to [0x9fc00, 0xa0000) and [0xe0000, 0xf0000). |
| `BootLinux.WriteTables` | src/main.c:444-454 | Default page tables and GDT, confined to [0x1000, 0x1020) and [0x2000, 0x5000), and registers whose segments agree with memory. |
| `BootLinux.Composed` | src/main.c:402-454 | Later writers keep what earlier ones wrote: from the contracts of the single steps, all eight parts hold in final RAM. |
| `BootLinux.Boot` | src/main.c:379-457 | Boot writers never clobber each other: succeeds exactly on a loadable and bootable kernel, and then kernel range, MP table, ACPI tables, boot_params, command line, initrd, page tables and GDT are in RAM exactly as written, and every other byte is unchanged. |
| `BootLinux.FirmwareReads` | src/main.c:414-420 | Both firmware descriptions in final RAM check out and give the same topology, CPUs 0..n-1. |
| `BootLinux.GuestMapping` | src/main.c:426-452 | Boot-protocol mapping: in every successful boot with an initrd, the entry point, the kernel range, boot_params, the command line and every initrd byte translate to themselves. |
| `BootLinux.KernelMappedIff` | src/main.c:440-448 | Without the initrd check, the kernel range is mapped exactly when it ends within the first GiB. |
| `BootLinux.GuestFinds` | src/boot/zeropage.c:128-167 | Following the pointers in boot_params the guest reads the command line, the root pointer and the initrd bytes. |
| `BootLinux.HeaderFromFile` | src/boot/bzimage.c:110-150 | The header bytes of boot_params are the file's up to its length and zero beyond, with code32_start set to the load address, apart from the loader-owned fields. |
| `BootPayload.PayloadOkExact` | src/main.c:353-375 | For every payload `mem_load_file` has placed in RAM and every validated layout the overlap check passes iff the payload shares no address with [gdt, end of tables). |
| `BootPayload.PayloadAndTables` | src/main.c:352-375 | An accepted payload shares no byte with the tables or the GDT, so neither disturbs the others. |
| `BootPayload.Boot` | src/main.c:519-556 | Long mode with a raw payload: succeeds exactly when payload and tables fit into RAM without overlap and the map is at most 1 GiB; then payload, page tables and GDT all stand in final RAM, every other byte is unchanged, and the registers agree with the GDT in memory. |
| `BootPayload.PayloadMappedIff` | src/main.c:531-556 | Under those tables an address of any size maps to itself iff it is below the map size, and the whole payload iff it ends there. |
| `BootLinux.SomeKernelBoots` | src/main.c:379-457 | The conditions of a successful boot can be met: a one-page vmlinux boots with one CPU, 16 MiB and an initrd. |
| `Serial8250.RingPush` | src/devices/serial8250.c:110-114 | The ring is full exactly at 255 bytes; otherwise a store at head appends to the queue. |
| `Serial8250.RingPop` | src/devices/serial8250.c:161-164 | Advancing tail removes the oldest byte of the queue. |
| `Serial8250.Device.UpdateIrq` | src/devices/serial8250.c:77-102 | IIR and level become the fixed function of the other state, and the callback is told exactly when the level changes. |
| `Serial8250.Device.Read` | src/devices/serial8250.c:146-200 | A register read returns the data and leaves the state the register model describes. |
| `Serial8250.Device.TxByte` | src/devices/serial8250.c:104-121 | In loopback the byte goes to the receive FIFO if there is room, otherwise to the host. |
| `Serial8250.Device.Write` | src/devices/serial8250.c:202-256 | A register write leaves the state and the host output the register model describes. |
| `Serial8250.Device.PushRx` | src/devices/serial8250.c:289-304 | Refuses a byte exactly when 255 are queued, otherwise appends it. |
| `SerialRuns.StepSettled` | src/devices/serial8250.c:146-256 | IIR and level are the fixed function of the other registers after every operation, whatever its offset and size. |
| `SerialRuns.LevelsAlternate` | src/devices/serial8250.c:94-101 | Over every run the levels sent to the callback strictly alternate and the last one is the level of the line, which is the fixed function of the state. |
| `SerialRuns.FifoConserves` | src/devices/serial8250.c:158-165 | Over every run, the bytes accepted, behind those queued at the start, are those delivered and cleared followed by those still queued, in order; loopback and host bytes alike. |
| `SerialRuns.FifoCounts` | src/devices/serial8250.c:233-239 | From reset: accepted = read + cleared + queued, and at most 255 are queued. |
| `SerialRuns.ReadsInOrder` | src/devices/serial8250.c:158-165 | Without FIFO clears the guest reads a prefix of the accepted bytes, in acceptance order, and the rest is queued. |
| `SerialRuns.RegistersReadBack` | src/devices/serial8250.c:157-252 | Registers read back what was written, without reserved bits, and a write to LCR, MCR or SCR shows at no other of them; DLAB switches offsets 0 and 1 to the divisor latch and protects IER and the FIFO. |
| `SerialRuns.ProbeFindsA16550A` | src/devices/serial8250.c:46-51 | IIR shows the FIFO bits iff they were enabled, and under LCR 0xBF offset 2 reads zero and swallows writes. |
| `SerialRuns.LoopbackIsSilent` | src/devices/serial8250.c:91-117 | In loopback nothing reaches the host and the line stays low. |
| `SerialRuns.LoopbackEchoes` | src/devices/serial8250.c:104-116 | Bytes stored in loopback join the FIFO in order; those beyond its 255 are lost. |
| `SerialRuns.LoopbackMeasuresFifo` | src/devices/serial8250.c:104-137 | A driver that stores any bytes in loopback and polls LSR and RBR gets back exactly the first 255 of them, in order. |
| `SerialRuns.LoopbackLines` | src/devices/serial8250.c:123-144 | RTS, DTR, OUT1 and OUT2 come back as CTS, DSR, RI and DCD and nothing else is set; the loop test that stores 0x1A reads 0x90. |
| `SerialRuns.HandlerFinishes` | src/devices/serial8250.c:77-102 | Without new input the handler finishes within a bound, no cause is left and the line is low. |
| `SerialRuns.HandlerTerminatesIff` | src/devices/serial8250.c:158-176 | The handler terminates iff LCR is not 0xBF and DLAB does not hide RBR while received data is the cause. |
| `SerialRuns.NextEventIsAnEdge` | src/devices/serial8250.c:94-101 | After the handler the next received or transmitted byte the guest has enabled sends level 1: a fresh rising edge. |
| `I8042.RingPush` | src/devices/i8042.c:125-137 | Storing behind the last entry appends to the queue. |
| `I8042.RingPop` | src/devices/i8042.c:139-151 | Advancing head removes the oldest entry. |
| `I8042.Controller.Update` | src/devices/i8042.c:108-123 | The line is set to: queue nonempty, head from the keyboard, KBDINT on, KBDDIS off; changes are sent. |
| `I8042.Controller.Push` | src/devices/i8042.c:125-137 | Appends unless sixteen entries are queued. |
| `I8042.Controller.Pop` | src/devices/i8042.c:139-151 | Takes the oldest entry; the line falls and rises again if the next one wants it. |
| `I8042.Controller.WriteKbd` | src/devices/i8042.c:159-196 | The keyboard's replies to every byte, with and without a pending parameter. |
| `I8042.Controller.Command` | src/devices/i8042.c:205-255 | Effect of every controller command; asks for a reset exactly on the reset pulses. |
| `I8042.Controller.DataWrite` | src/devices/i8042.c:257-287 | Effect of a data byte under every pending command; asks for a reset exactly on an output port write with bit 0 clear. |
| `I8042.Controller.ReadDataPort` | src/devices/i8042.c:292-310 | Returns the oldest byte, padded with zeros to the access size. |
| `I8042.Controller.ReadStatusPort` | src/devices/i8042.c:299-306 | The status register of the queue and the last port written. |
| `I8042Runs.RunKeeps` | src/devices/i8042.c:108-287 | In every reachable state the level is: queue nonempty, head from the keyboard, KBDINT on, KBDDIS off; it is the last level sent; at most sixteen entries are queued, none of them from the mouse. |
| `I8042Runs.NoMouseData` | src/devices/i8042.c:275-278 | The AUXDATA bit of the status register is never set. |
| `I8042Runs.CommandEdges` | src/devices/i8042.c:205-255 | Controller commands and their answers never interrupt. |
| `I8042Runs.StepEdges` | src/devices/i8042.c:108-151 | In one operation with interrupts enabled the rising edges are the keyboard bytes that reach the head. |
| `I8042Runs.OneEdgePerByte` | src/devices/i8042.c:116-151 | One edge per keyboard byte: in any run that keeps KBDINT on and KBDDIS off the rising edges equal the keyboard bytes that ever reached the queue head. |
| `I8042Runs.ControlByteRoundTrip` | src/devices/i8042.c:213-222 | Write-CTR then read-CTR returns the byte written, in any state. |
| `I8042Runs.AnswersAreClean` | src/devices/i8042.c:205-247 | A command's answer is alone in the buffer whatever was unread, and the line is low. |
| `I8042Runs.PendingSurvives` | src/devices/i8042.c:216-222 | The pending command changes exactly on commands that take a parameter and survives all others. |
| `I8042Runs.ParameterArrives` | src/devices/i8042.c:205-266 | Whatever commands without a parameter come between write-CTR and its byte, the byte goes to the control register. |
| `I8042Runs.DisabledIsQuiet` | src/devices/i8042.c:117-123 | While the keyboard is disabled no data byte raises the line, except one that rewrites the control byte. |
| `I8042Runs.DisableAndEnable` | src/devices/i8042.c:223-244 | The disable command makes the keyboard quiet, and the enable command then gives back the control byte with KBDDIS clear. |
| `I8042Runs.RepliesQueue` | src/devices/i8042.c:125-156 | Keyboard replies are appended in order and those beyond sixteen entries are lost. |
| `I8042Runs.KeyboardId` | src/devices/i8042.c:177-181 | From an empty buffer the identify command lets the driver read ACK, 0xAB, 0x83 and nothing more. |
| `I8042.Controller.WritePort` | src/devices/i8042.c:312-324 | A port write goes to the controller or the data path, remembers which port it was, and reports a requested reset. |
| `Console.ReadOne` | src/console.c:48-63 | One byte moves the escape automaton and pushes what it should, or stops. |
| `Console.Thread` | src/console.c:34-66 | Stops at the first completed Ctrl-A x and pushes exactly the decoded bytes before it; otherwise reads to end of file. |
| `Console.StopsOnOddRun` | src/console.c:48-62 | An x stops the machine iff it follows an odd number of consecutive Ctrl-A bytes. |
| `Console.EscapeRoundTrip` | src/console.c:56-63 | Every byte string can be typed: with Ctrl-A doubled it arrives unchanged and never stops the machine. |
| `Console.QuitAfter` | src/console.c:50-55 | Ctrl-A x after any escaped text stops right there with everything before delivered. |
| `GuestMemory.Memory.FindClash` | src/mem.c:38-51 | Finds a clash iff some used slot overlaps by the 64-bit test. |
| `GuestMemory.Memory.AddRegion` | src/mem.c:19-83 | Exact status and table for every request; a region the kernel rejects is rolled back and not counted; `nr_slots` counts the used slots. |
| `GuestMemory.Memory.Destroy` | src/mem.c:120-139 | No slot stays used and the count is zero. |
| `GuestMemory.Memory.Init` | src/mem.c:85-118 | When mmap fails, NoMemory and nothing changed; otherwise RAM is one page-aligned slot at address 0 and its size is recorded iff the region was added. |
| `GuestMemory.Memory.GpaToHva` | src/mem.c:141-172 | The loop and checks compute the first-match translation. |
| `GuestMemory.Memory.Read` | src/mem.c:174-185 | Succeeds iff the range translates and returns the guest bytes there. |
| `GuestMemory.Memory.Write` | src/mem.c:187-198 | Succeeds iff the range translates; then the guest byte map is updated on exactly that range. |
| `GuestMemory.AddKeeps` | src/mem.c:36-75 | For any 64-bit region: adding it keeps the used slots aligned and pairwise disjoint if and only if it is refused, or whichever of it and an older slot reaches 2^64, the other ends at or below its start. |
| `GuestMemory.RunKeeps` | src/mem.c:19-139 | Over any sequence of adds, rolled-back adds and destroys: every table on the way is well formed if and only if every region added met that condition. |
| `GuestMemory.RunBelow` | src/mem.c:19-139 | So a run whose regions end below 2^64 never spoils the table, and leaves no slot that reaches 2^64, which is what translation needs. |
| `GuestMemory.LastPageTwice` | src/mem.c:42 | The last page of the address space defeats the overlap check of the VMM: it can be added twice, provided the kernel takes a region whose end wraps. |
| `GuestMemory.TranslateIsModel` | src/mem.c:153-172 | Where slots end below 2^64, `gpa_to_hva` succeeds exactly when [gpa, gpa + len) over unbounded integers is nonempty and inside one slot, with the right host address. |
| `GuestMemory.TranslateIsModelIff` | src/mem.c:141-172 | It does so for every address and length iff no used slot reaches 2^64. |
| `GuestMemory.InitGivesRam` | src/mem.c:85-118 | With RAM as the only slot, translation is the bounds check [0, size). |
| `GuestMemory.WithinRange` | src/mem.c:171 | A translated range is translated byte by byte to consecutive host bytes. |
| `GuestMemory.WriteLaw` | src/mem.c:187-198 | Read after write: the map law of the guest byte map, for slots with disjoint host ranges. |
| `IoBus.Bus.Register` | src/vm.c:21-45 | Exact status and table: full, conflict by the 64-bit test, or appended. |
| `IoBus.Bus.Find` | src/vm.c:47-56 | The loop finds the first device that seems to contain the address. |
| `IoBus.Bus.RunString` | src/vm.c:259-274 | The string loop computes the sequence of calls on the consecutive windows of the buffer. |
| `IoBus.Bus.DispatchPio` | src/vm.c:236-275 | Dispatch is lookup then string I/O; an unregistered port reads as all ones and swallows writes. |
| `IoBus.Bus.DispatchMmio` | src/vm.c:277-296 | An MMIO access is a single call at addr - base. |
| `IoBus.RegisterKeeps` | src/vm.c:30-40 | For any 64-bit device: registering it keeps the ranges pairwise disjoint if and only if it is refused, or whichever of it and an older device reaches 2^64, the other ends at or below its base. |
| `IoBus.RegistrationsDisjoint` | src/vm.c:21-45 | After any run of registrations the table is disjoint if and only if every device registered met that condition. |
| `IoBus.BelowNeverMeet` | src/vm.c:21-45 | So devices that end below 2^64 never meet, and leave the table lookup needs. |
| `IoBus.LastBytesTwice` | src/vm.c:30-40 | A device over the last eight bytes of the address space can be registered twice. |
| `IoBus.LookupIsModel` | src/vm.c:47-56 | The first-match search equals the map from addresses to devices. |
| `IoBus.LookupIsModelIff` | src/vm.c:47-56 | It does at every 64-bit address iff no nonempty device reaches 2^64. |
| `IoBus.OrderIrrelevant` | src/vm.c:47-56 | Tables with the same devices answer every access alike, whatever the order of registration. |
| `IoBus.StringIoChain` | src/vm.c:257-274 | String I/O calls the device on consecutive windows at a constant offset, stops at the first result that is not OK, and leaves later windows unchanged. |
| `Cpuid.OrderBase2` | src/smp.c:34-41 | The least b with 2^b >= n. |
| `Cpuid.Table.FixupInPlace` | src/smp.c:195-239 | The in-place loop and the appended subleaves give exactly the rewritten table. |
| `Cpuid.Table.Fill` | src/smp.c:90-126 | Each of the three subleaves replaces the first entry for it or is appended. |
| `Cpuid.FixupTwice` | src/smp.c:195-239 | `smp_fixup_cpuid` is idempotent on every table, for every id < n <= 255. |
| `Cpuid.OthersUntouched` | src/smp.c:201-235 | Unrelated leaves stay as they are, every entry keeps its leaf and place, and at most three entries are added. |
| `Cpuid.CoreCountTwice` | src/smp.c:216-218 | Leaf 0x80000008 reports n cores and the APIC id size, its other fields are kept, and rewriting it again changes nothing. |
| `Cpuid.CacheShareTwice` | src/smp.c:219-225 | The sharing field is replaced and the other fields of the cache leaf are kept. |
| `Cpuid.Leaf1Twice` | src/smp.c:205-212 | Leaf 1 reports id and n, keeps the low 16 bits of EBX and every bit of EDX but HTT, which is set iff n > 1. |
| `Cpuid.TopologiesAgree` | src/smp.c:174-239 | In the rewritten table both enumerations and the initial APIC id agree on package 0, core id = id, n cores of one thread. |
| `Cpuid.CachesShared` | src/smp.c:187-188 | Level 3 is shared by all n vCPUs, lower levels are private, the end of the list is kept. |
| `PioTrace.PaddedValue` | src/vm.c:214-218 | A zero-padded number reads back as the number, in both bases. |
| `PioTrace.Assemble` | src/vm.c:211-212 | The loop computes the little-endian value of at most eight bytes. |
| `PioTrace.Print` | src/vm.c:200-220 | The printed line of an access. |
| `PioTrace.WordsOfJoined` | tools/pio_decode.py:22-26 | A line joined from words and white space splits into the same words, whatever the gaps. |
| `PioTrace.ParseIsPattern` | tools/pio_decode.py:22-26 | The matcher finds groups exactly when the regular expression matches, and they are the only groups that do. |
| `PioTrace.TraceRoundTrip` | tools/pio_decode.py:22-40 | Every printable line parses back to the same device, port, direction, size, little-endian value and RIP, absent iff zero. |
| `PioTrace.Load` | tools/pio_decode.py:43-56 | The loader keeps matching lines with their numbers and counts the nonblank others. |
| `PioTrace.LoadRoundTrip` | tools/pio_decode.py:43-56 | A trace loads as one record per access, in order, with nothing skipped. |

## Left out

- KVM ioctls, mmap, signal installation and pthreads are an environment that succeeds or
  fails; of KVM_RUN only the outcomes ok, interrupted and error remain.
- Weak memory: the step system is sequentially consistent.
- `v->run` is taken to be mapped, as it is for every created vCPU (`src/smp.c:269`).
- Files are fixed byte sequences: the same at stat, at load and throughout; short reads and I/O
  errors do not occur.
- RAM contents after a failed boot step are unspecified unless the contract says otherwise.
- Tables are copied into RAM structure by structure where the C code assigns field by field.
- The offsets inside boot_params are those of the Linux boot protocol ("The Real-Mode Kernel
  Header" and "Zero Page" of the x86 boot documentation); asm/bootparam.h is not part of this
  model.
- Logging, usage text, argument parsing, terminal modes, hexdump, CPU vendor warnings.
- RTC, ACPI PM1 block, irqchip, arch detection, real-mode entry: one branch each.
- virtio, vfio, vhost, snapshot, io: placeholders without behaviour in the repository.
- Accesses that straddle the end of a device (question O1, tests/TEST_DESIGN.md:148) are
  dispatched by their first byte only, as in the code, and nothing is claimed about them.
- The device attachments at the head of `boot_linux` and `console_start` at its end are not
  part of `BootLinux.Boot`.
- Whether an interrupt callback is installed: the logged levels are what an installed callback
  is told; `boot_linux` installs it before the guest runs.
- A device callback is a function of the device world and its window that leaves the rest of the
  buffer alone.
- In the trace, time stays a digit string; white space and digits are those of Latin-1, and
  lines are taken as already split.
- Symbol lookup, summaries and console reconstruction of tools/pio_decode.py.
- AcpiTables.Setup: assumes that the MADT entries fit below the end of RAM when the region does, because the code writes them before it checks their total.
- ZeroPage.Setup: of an initrd longer than 28 KiB placed at address 0, over boot_params, only success and what stays unchanged is promised; it takes a configuration without a kernel.
- PageTables.BuildPageTable: a map size above 2^64 - 1 GiB, whose rounding to whole GiB wraps, is left out; `boot_layout_validate` rejects it before (`src/boot/gdt_pgtable.c:74`).
- BootLinux.GuestMapping: is about boots with an initrd, which `--mode linux` requires (`src/main.c:303`); without one see `BootLinux.KernelMappedIff`.
- Cpuid.FixupTwice: takes at most 255 vCPUs and id below n, the configured range.
- GuestMemory.WriteLaw: other addresses keep their bytes when the slots have disjoint host ranges, as separate mappings have.
- StopTermination.StopTerminates: says that runs are bounded and end with every thread gone, not that a scheduler runs an enabled thread; device callbacks return, and the bound grows with the largest count of a string access.
- Signals to dead threads: pthread_kill aimed at a vCPU thread that has exited since its flag was read, whether main has joined it or not (`src/smp.c:271-273` against `src/smp.c:327-328`), is a step without effect. `StopSafety.SignalsCreatedThread` says what is certain of the target.
