# u-bmc: a verified model of its stateful parts

u-bmc is firmware for a server's management controller. This project models the parts of it whose correctness
depends on long runs of small steps, and proves what those runs keep:

- **SPI flash driver** (`SpiChip`, `SpiFlash`, `SpiFlashLaws`): the MX25L256 chip as a machine that sees chip-select
  frames, and the driver's loops on top of a byte-wide bus. A write is a slice replacement exactly when it is aligned to
  64 KiB blocks; every run from open to Close obeys the chip's command discipline.
- **LPC-to-AHB bridge** (`LpcDevice`, `LpcMemory`, `LpcLaws`): the write-through register cache gives the same results,
  the same bridge and the same bus as the driver without it, for every sequence of transfers, exactly on bridges whose
  8-bit reads leave the other data registers alone.
- **Button pushes** (`Buttons`, `ButtonsLaws`, `ButtonsRuns`, `ButtonsStuck`, `ButtonsFate`): any number of RPCs and
  physical buttons queue sessions through a channel of channels under a reader-writer lock. Sessions never interleave and
  are served in the order they came, one for each press and each call that found its button; each drives the line to its
  pressed and back to its released level, unless it was cancelled. Once the managers are registered nobody waits for ever,
  and before that it is known exactly when all pushes can finish, and when they must.
- **UART fan-out** (`Uart`, `UartLaws`), **ACME nonces** (`Nonces`, `NoncesLaws`), **roughtime race** (`Roughtime`): three
  concurrent protocols, with conservation, at-most-once, retry and no-block guarantees over every interleaving.
- **GPIO snapshots** (`GpioState`, `GpioDiff`, `GpioTracking`, `GpioWatcher`, `GpioLog`): the table walk against the
  single-line lookup, the direction tracker over whole runs, and the binary log with its playback.
- **DRAM delay search** (`DllMargin`, `DllRecord`): the bitmap walks and the search of the boot assembly, and the macros
  that fill in the table it reads.
- **Wire formats and files** (`Rdnss`, `Jws`, `MtdVerify`, `MtdErase`): the neighbour-discovery option parser,
  fixed-width ECDSA signatures, partition verification and erase.

`Bytes` holds the byte and integer layouts, `Wrappers` the optional value.

## How the model is built

Code that updates fields, buffers or tables is a class or a method with loops, proved against a specification function.
A protocol between goroutines is a machine: a state, the guard and the effect of each atomic step (`Can`, `Do`), and
theorems over every sequence of steps. What a device, a clock, the network or the scheduler chooses is a parameter or an
arbitrary step: how long an erase keeps the chip busy, what the bus behind the bridge answers, the order in which a map
is iterated, how much room an append leaves, when a reader's consumer drains its queue.

Fields called `trace`, `driven`, `done`, `arrived`, `served`, `log`, `snapshot`, `past`, `drops`, `issued`, `signed` and
`notes` record history. No step looks at them to decide what to do.

## Where code and promise differ

- The guards of WriteAt read `l%1024*64`, which Go groups as `(l%1024)*64`, so they accept any multiple of 1 KiB although
  the messages speak of 64 KiB. `ReplacesIffAligned` says when a write then still replaces just its slice, and
  `AllErasedIff` when it programs only erased bytes. The range guards add in 64 bits: `GuardWraps` says for which calls
  the sum wraps, and a negative read offset is taken modulo the chip size (`ReadAt`).
- The LPC cache relies on 8-bit reads leaving F4 to F6 alone, which the code itself questions. The cached and the uncached
  driver agree on every sequence of transfers if and only if they do (`AgreeIff`); otherwise writing a word, reading a byte
  and writing the word again tells them apart (`Diverge`, `BusDiverges`).
- Before the managers have registered their channels the button protocol can stop for good: an RPC holds the read lock
  while it waits for a manager that needs the write lock (`StartupDeadlock`). An RPC that has found its channel can
  return if and only if the manager has registered (`ReturnsIff`), and all pushes can be finished if and only if no
  RPC is in, or bound to come into, that position (`FinishIff`). They are finished whatever the scheduler does if and
  only if, besides, no call can still come in before the manager has asked for the lock and find a channel
  (`MustFinishIff`). A session is left open for good, with the line pressed, if and only if a release edge of a
  physical button was missed (`OrphansIff`).
- `Equal` looks only at the entries of its argument, so a snapshot that lacks a register can go unnoticed
  (`CanGoUnnoticed`). The recorded directions stay right if and only if the snapshot was noticed or dropped no watched
  output (`TracksIff`, `Log`, `Watch`). Lines W, X, Z, AA and AB have no direction bit and are always labelled as sensing.
- The delay search's comment limits its first rule to delays up to 20; the code compares a value that carries the phase
  flag 0x80, so in the N phase that rule never applies. `DiffersIffSkipped` says on exactly which candidates the two
  disagree, `SearchesAgreeIff` when whole searches do, and `SearchDiffers` shows a table on which the result changes.
- The option parser slices an option's header before it checks the length (`PanicIff`).
- With no usable server key the roughtime race never returns (`NoKeyNeverReturns`). Only the upper end of the roughtime
  window is compared with the rewound time (`AcceptsTooEarlyIff`).
- jwsSign rounds its width up when the byte count, not the bit count, is no multiple of eight (`SizesAgreeIff`).
- Verify refuses identical contents if the image reader reports its end together with its last bytes
  (`EndWithDataRefused`), if the chunk sizes differ (`EqualContentsIff`), or if a reader leaves something in the rest of its
  buffer (`ScratchCanRefuse`); `VerdictIff` is the exact condition. It never returns on an image reader that keeps failing
  after the flash has ended (`CanLoopForever`); `ReturnsIff` and `EndingReturnsIff` say exactly when it returns.
- The erase loop's 32-bit counter can wrap. The loop makes one pass if and only if the end of the last block fits 32 bits
  (`OnePassIff`), and ends at all if and only if the size leaves room for the largest power of two in the erase size
  (`StopsIff`).

## Model

| member | source | states |
|---|---|---|
| `SpiFlash.Mx25l256.Cs` | pkg/aspeed/flash.go:48-55 | the control word moves chip select down or up, and nothing else reaches the chip |
| `SpiFlash.Mx25l256.Cmd8` | pkg/aspeed/flash.go:71-75 | one byte in one frame of its own |
| `SpiFlash.Mx25l256.Cmd8Read8` | pkg/aspeed/flash.go:84-89 | one byte out, one byte in, in one frame |
| `SpiFlash.Mx25l256.Cmd8Read32` | pkg/aspeed/flash.go:77-82 | one byte out, four bytes in, in one frame |
| `SpiFlash.Mx25l256.Id` | pkg/aspeed/flash.go:65-69 | an idle chip's identity, and no other change |
| `SpiFlash.Mx25l256.IsReady` | pkg/aspeed/flash.go:57-63 | tells whether the chip is idle; touches only the busy count |
| `SpiFlash.Mx25l256.WaitReady` | pkg/aspeed/flash.go:187-189 | the poll loop ends with the chip idle and otherwise unchanged |
| `SpiFlash.Mx25l256.Enable` | pkg/aspeed/flash.go:178 | a WREN frame sets the write-enable latch |
| `SpiFlash.Mx25l256.EraseBlock` | pkg/aspeed/flash.go:177-190 | exactly the block holding the address reads 0xFF afterwards, after WREN and one erase frame, and the chip is idle |
| `SpiFlash.Mx25l256.SendWords` | pkg/aspeed/flash.go:203-209 | the 64 words put the page's bytes on the bus in order |
| `SpiFlash.Mx25l256.ProgramPage` | pkg/aspeed/flash.go:192-215 | exactly that page is ANDed with the data, after WREN and one program frame, and the chip is idle |
| `SpiFlash.Mx25l256.EraseLoop` | pkg/aspeed/flash.go:231-233 | erases the blocks from the one holding the offset on, one for each started 64 KiB of the write |
| `SpiFlash.Mx25l256.ProgramLoop` | pkg/aspeed/flash.go:235-237 | the whole buffer is ANDed in at the offset, page by page |
| `SpiFlash.Mx25l256.WriteAt` | pkg/aspeed/flash.go:217-240 | the guards' verdict; on success the erased blocks and then the buffer ANDed in, with the full command sequence; otherwise nothing happens |
| `SpiFlash.Mx25l256.ReadAt` | pkg/aspeed/flash.go:132-171 | the buffer becomes the chip's bytes from the offset on, for every length; or the error, with nothing touched |
| `SpiFlash.Mx25l256.ReadWords` | pkg/aspeed/flash.go:146-152 | the four-byte loop delivers the stream's bytes in order |
| `SpiFlash.Mx25l256.ReadTail` | pkg/aspeed/flash.go:153-169 | the tail loop delivers the rest, to the last byte |
| `SpiFlash.Mx25l256.Close` | pkg/aspeed/flash.go:124-126 | leaves 4-byte mode with the frames still disciplined |
| `SpiFlash.SystemFlash` | pkg/aspeed/flash.go:91-122 | opens the driver exactly for the known identity, waits for an idle chip first, enters 4-byte mode, and leaves the contents alone |
| `SpiFlashLaws.AlignedReplaces` | pkg/aspeed/flash.go:217-240 | for aligned arguments the memory is the old one with exactly that slice replaced |
| `SpiFlashLaws.ReplacesIffAligned` | pkg/aspeed/flash.go:221-226 | a write replaces its slice for every content if and only if it is aligned to 64 KiB |
| `SpiFlashLaws.Collateral` | pkg/aspeed/flash.go:231-233 | an unaligned write erases a byte outside itself |
| `SpiFlashLaws.GuardsAcceptUnaligned` | pkg/aspeed/flash.go:221-226 | the guards accept 1 KiB at offset 1 KiB, which does not replace its slice |
| `SpiFlashLaws.AllErasedIff` | pkg/aspeed/flash.go:231-237 | every byte of a write is erased first if and only if the write does not spill into one block more |
| `SpiFlashLaws.ProgramsAfterErase` | pkg/aspeed/flash.go:231-237 | each page program comes, after its own WREN, later than the erase of its block |
| `SpiFlashLaws.EraseCommandsAt` | pkg/aspeed/flash.go:231-233 | the erase loop sends WREN and the erase of each block in turn |
| `SpiFlashLaws.ProgramCommandsAt` | pkg/aspeed/flash.go:235-237 | the program loop sends WREN and each page in turn, with its own bytes |
| `SpiFlashLaws.EraseCount` | pkg/aspeed/flash.go:231-233 | and nothing else: two commands for each started 64 KiB |
| `SpiFlashLaws.ProgramCount` | pkg/aspeed/flash.go:235-237 | and nothing else: two commands for each 256 bytes |
| `SpiFlashLaws.WireBytes` | pkg/aspeed/flash.go:132-208 | the bytes of each command on the wire, opcode and address highest byte first |
| `SpiFlashLaws.Verdicts` | pkg/aspeed/flash.go:217-240 | which of the three errors each call gets, in their order, or the length of its buffer |
| `SpiFlashLaws.GuardWraps` | pkg/aspeed/flash.go:227-229 | an accepted write reaches past the chip if and only if the 64-bit sum wraps |
| `SpiFlashLaws.WriteThenRead` | pkg/aspeed/flash.go:132-240 | after an aligned write, a read anywhere in range returns the old contents with the slice replaced |
| `SpiFlashLaws.Session` | pkg/aspeed/flash.go:91-240 | any run from open to Close: every erase and program has its own frame right after a WREN frame, idle and in 4-byte mode; each read returns what the calls before it left |
| `LpcMemory.Lpc.constructor` | pkg/aspeed/lpc_mem.go:37-55 | whatever state the bridge was in, cache and registers F0 to F8 are equal afterwards |
| `LpcMemory.Lpc.Wf` | pkg/aspeed/lpc_mem.go:68-78 | a register write through the cache: on a hit nothing reaches the bridge and the hit is counted, otherwise two port writes are made |
| `LpcMemory.Lpc.Addr` | pkg/aspeed/lpc_mem.go:134-139 | the four address registers, high byte first |
| `LpcMemory.Lpc.MustRead32` | pkg/aspeed/lpc_mem.go:141-167 | the word the bus answers, with F4 to F7 in the cache |
| `LpcMemory.Lpc.MustRead8` | pkg/aspeed/lpc_mem.go:169-182 | the byte the bus answers, with only F7 in the cache |
| `LpcMemory.Lpc.MustWrite32` | pkg/aspeed/lpc_mem.go:184-197 | one bus write of what the registers then hold |
| `LpcMemory.Lpc.MustWrite8` | pkg/aspeed/lpc_mem.go:199-208 | one 8-bit bus write of what the registers then hold |
| `LpcMemory.Compose` | pkg/aspeed/lpc_mem.go:68-78 | two rounds of writes through the cache are one, and their hits add up |
| `LpcLaws.Read32Is` | pkg/aspeed/lpc_mem.go:141-167 | the register settings of a 32-bit read make up the transfer |
| `LpcLaws.Read8Is` | pkg/aspeed/lpc_mem.go:169-182 | the same for an 8-bit read on a bridge that leaves F4 to F6 alone |
| `LpcLaws.Write32Is` | pkg/aspeed/lpc_mem.go:184-197 | the same for a 32-bit write |
| `LpcLaws.Write8Is` | pkg/aspeed/lpc_mem.go:199-208 | the same for an 8-bit write |
| `LpcLaws.Perform` | pkg/aspeed/lpc_mem.go:134-208 | each driver method, on any bridge and with any cache, is its transfer; its port writes and hits are those of its settings |
| `LpcLaws.Run` | pkg/aspeed/lpc_mem.go:134-208 | the same for every sequence of transfers |
| `LpcLaws.QuietActAll` | pkg/aspeed/lpc_mem.go:134-208 | on a quiet bridge a driver in sync does the plain transfers, cached or not, and stays in sync |
| `LpcLaws.Compare` | pkg/aspeed/lpc_mem.go:37-208 | a cached and an uncached driver run the same transfers: their outcomes; the hits counted are exactly the settings the cache showed, none without it; uncached port writes = cached ones + 2 * hits; on a quiet bridge same values, bridge and bus, with the cache equal to F0 to F8 |
| `LpcLaws.AgreeIff` | pkg/aspeed/lpc_mem.go:68-78 | for any bridge and bus, the two drivers agree on every sequence of transfers if and only if 8-bit reads leave F4 to F6 alone |
| `LpcLaws.Diverge` | pkg/aspeed/lpc_mem.go:176-181 | otherwise the outcomes of writing a word, reading a byte and writing the word again differ |
| `LpcLaws.BusDiverges` | pkg/aspeed/lpc_mem.go:176-197 | and different words reach the bus |
| `Buttons.StepKeepsInv` | pkg/bmc/gpio.go:172-250 | every step keeps the invariant on sessions, lock and lines |
| `Buttons.LineReceives` | pkg/bmc/gpio.go:235-248 | a value received extends the current session's part of the line, at the level the line's polarity gives it |
| `Buttons.LineFinishes` | pkg/bmc/gpio.go:235-248 | a closed session joins the finished ones, and the line is unchanged |
| `ButtonsLaws.RunKeepsInv` | pkg/bmc/gpio.go:172-250 | so does every run |
| `ButtonsLaws.SessionsNeverInterleave` | pkg/bmc/gpio.go:232-249 | in every interleaving, a line is driven by whole sessions in turn, press then release, or nothing; a press drives it high, a release low, and the other way round on an inverted line |
| `ButtonsLaws.ReleasedWhenWaiting` | pkg/bmc/gpio.go:224-249 | while its manager waits, a line is released if and only if it is inverted or has been pushed |
| `ButtonsLaws.LiveCanMove` | pkg/bmc/gpio.go:198-214 | the owner of a session never waits for the lock |
| `ButtonsLaws.NoDeadlock` | pkg/bmc/gpio.go:172-250 | once the managers are registered, every state with an unfinished push has a next step |
| `ButtonsLaws.StepLowersRank` | pkg/bmc/gpio.go:172-250 | every step of the system lowers a rank |
| `ButtonsLaws.EveryPushFinishes` | platform/quanta-f06-leopard-ddr3/pkg/platform/platform.go:78-111 | every run without new pushes is bounded, and ends with all pushes finished |
| `ButtonsLaws.ServedInOrder` | pkg/bmc/gpio.go:196-233 | pushes are served in the order they queued: the sessions belong to the first to come, the rest are in line |
| `ButtonsRuns.CancelledOrPushed` | pkg/bmc/gpio.go:198-209 | in every run, a finished session pressed and released its button, unless its call was cancelled; then it did nothing |
| `ButtonsRuns.CancelOpenIff` | pkg/bmc/gpio.go:196-206 | a call's push can be cancelled exactly from its turn until it is begun |
| `ButtonsRuns.HeldBetween` | pkg/bmc/gpio.go:206-208 | in every run, each release of a process comes after the end of a hold of its own, and each press is followed by one |
| `ButtonsRuns.OneTurnEach` | platform/quanta-f06-leopard-ddr3/pkg/platform/platform.go:78-111 | where all pushes are finished, a physical button has had one turn for each press, a call one if it has had a session |
| `ButtonsRuns.EveryEdgeQueues` | platform/quanta-f06-leopard-ddr3/pkg/platform/platform.go:80-87 | in every run, missed releases or not, a physical button queues up once for each press edge |
| `ButtonsRuns.ServedIff` | pkg/bmc/gpio.go:172-197 | a call that has returned looked up the channel, and has had its turn if and only if the manager or a handler had registered the channel by then |
| `ButtonsRuns.NoneOvertakes` | pkg/bmc/gpio.go:173-188 | while a writer waits for the lock, no call gets it that did not have it before |
| `ButtonsStuck.DoomedForever` | pkg/bmc/gpio.go:173-197 | no run returns an RPC that waits, with the read lock, for a manager that has not registered, or is bound to |
| `ButtonsStuck.ReturnsIff` | pkg/bmc/gpio.go:187-233 | an RPC that has found its channel can return if and only if the button's manager has registered |
| `ButtonsStuck.SafeStep` | pkg/bmc/gpio.go:172-250 | while nobody is doomed and a push is unfinished, some step dooms nobody |
| `ButtonsStuck.FinishIff` | pkg/bmc/gpio.go:172-250 | all pushes can still be finished if and only if no RPC is doomed |
| `ButtonsStuck.StandsStillOnlyIfDoomed` | pkg/bmc/gpio.go:172-250 | every deadlock with an unfinished push has a doomed RPC in it |
| `ButtonsStuck.StartupDeadlock` | pkg/bmc/gpio.go:172-229 | such a deadlock is reachable at startup |
| `ButtonsStuck.MissedReleaseOrphans` | platform/quanta-f06-leopard-ddr3/pkg/platform/platform.go:83-93 | a second press edge without a release orphans the open session with the line at its pressed level: high, or low if inverted |
| `ButtonsStuck.OrphanedForever` | platform/quanta-f06-leopard-ddr3/pkg/platform/platform.go:83-93 | and no run ever changes that line or frees its manager |
| `ButtonsStuck.OrphansIff` | platform/quanta-f06-leopard-ddr3/pkg/platform/platform.go:78-95 | over every run, a session is orphaned if and only if a release edge was missed |
| `ButtonsFate.SafeForever` | pkg/bmc/gpio.go:172-250 | where nobody is doomed and no call at risk, no run of the system changes that |
| `ButtonsFate.RiskComesTrue` | pkg/bmc/gpio.go:172-197 | a call at risk is doomed by some run: it comes in before its manager asks for the lock, once a handler has made the channel |
| `ButtonsFate.ComesToRest` | pkg/bmc/gpio.go:172-250 | every run can be continued until no step of the system is possible |
| `ButtonsFate.RunsAreBounded` | pkg/bmc/gpio.go:172-250 | and none is longer than the rank |
| `ButtonsFate.MustFinishIff` | pkg/bmc/gpio.go:172-250 | whatever the scheduler does, all pushes will be finished if and only if no RPC is doomed and no call at risk |
| `Uart.Append` | pkg/bmc/uart.go:72 | append adds at the end and leaves what other slices see of shared arrays alone |
| `Uart.Rebuild` | pkg/bmc/uart.go:79-86 | the removal loop makes a new list without the reader, and changes no existing array |
| `Uart.StepKeepsInv` | pkg/bmc/uart.go:63-141 | every step keeps the invariant on the list, the streams and the counts |
| `Uart.RunKeepsInv` | pkg/bmc/uart.go:63-141 | so does every run |
| `Uart.StreamsAreSubsequences` | pkg/bmc/uart.go:114-135 | each reader gets chunks in order, none twice, with at most 1024 waiting |
| `Uart.NothingLostUncounted` | pkg/bmc/uart.go:127-135 | deliveries plus overruns are the sum of the snapshot sizes |
| `Uart.EachReaderAccounted` | pkg/bmc/uart.go:127-135 | for each reader: what it received and what was dropped, each in order and none both, make up exactly the chunks offered to it |
| `Uart.DroppedOnlyWhenFull` | pkg/bmc/uart.go:128-133 | in every reachable state, a chunk offered is dropped, and counted, if and only if 1024 chunks are waiting; otherwise it joins the queue |
| `Uart.RoomMeansAll` | pkg/bmc/uart.go:127-135 | over every run, a reader that never had 1024 chunks waiting gets every chunk offered to it, in order |
| `Uart.OfferedIs` | pkg/bmc/uart.go:123-127 | a chunk is offered to a reader, once, if and only if the snapshot taken for it held the reader, and the receiver has come that far |
| `Uart.SnapshotsAreStable` | pkg/bmc/uart.go:123-127 | the list has no repetition, and no snapshot in use is altered by a later append or removal |
| `Uart.ReceiverNeverBlocks` | pkg/bmc/uart.go:126-135 | the receiver always has a next step |
| `Uart.ListChanges` | pkg/bmc/uart.go:69-87 | registration adds one reader; removal takes out that one and no other |
| `UartLaws.Round` | pkg/bmc/uart.go:114-141 | from any state in which it reads, the receiver can take a chunk all the way: every reader of the list has it at the end of its queue, or among its drops, and nobody else has |
| `UartLaws.Drains` | pkg/bmc/uart.go:67-89 | a consumer can take everything that waits for it, in order |
| `Nonces.Pool.PopStored` | pkg/acme/acme.go:692-704 | takes one stored nonce out, or reports that there is none |
| `Nonces.Pool.AddNonce` | pkg/acme/acme.go:714-728 | ignores empty values and a full pool |
| `Nonces.Pool.ClearNonces` | pkg/acme/acme.go:707-711 | the pool is empty |
| `Nonces.Call` | pkg/acme/acme.go:692-728 | the pool's methods carry out the machine's steps |
| `Nonces.Follow` | pkg/acme/acme.go:643-728 | any schedule of requests on a real pool, item by item: the steps made are a run of the machine, so no nonce is signed twice, and the pool's nonces are issued, unused and at most 100 |
| `Nonces.EveryRunIsScheduled` | pkg/acme/acme.go:643-728 | every run of the machine is what some schedule makes |
| `Nonces.StepKeepsInv` | pkg/acme/acme.go:643-728 | every step of every request keeps stored and held nonces issued, unused and apart |
| `Nonces.RunKeepsInv` | pkg/acme/acme.go:643-728 | so does every run |
| `Nonces.NoncesUsedOnce` | pkg/acme/acme.go:643-807 | if the server never repeats a nonce (section 6.5 of RFC 8555), none is signed twice, every stored one is issued and unused, and at most 100 are stored |
| `Nonces.RetriedOnBadNonceOnly` | pkg/acme/acme.go:643-668 | in every run, a request is posted again, and the pool wiped, only after a badNonce answer; any other answer is its last; there are at most as many POSTs as badNonce answers and one more |
| `Nonces.WipeLoses` | pkg/acme/acme.go:654-662 | the wipe after a badNonce answer empties the pool for good |
| `Nonces.NeverSignedAfterWipe` | pkg/acme/acme.go:654-711 | in no run is a nonce signed after it was wiped |
| `NoncesLaws.LostOnlyFor` | pkg/acme/acme.go:692-728 | a step lets go of a nonce only by a wipe, at a full pool, or with a request that fails |
| `NoncesLaws.EveryNonceAccounted` | pkg/acme/acme.go:643-728 | over every run, each issued nonce is stored, in hand or signed, or the run had such a step |
| `NoncesLaws.RequestsAreBounded` | pkg/acme/acme.go:643-712 | a request takes at most six steps, and six more for each wipe it made |
| `NoncesLaws.CanPost` | pkg/acme/acme.go:670-704 | a request about to start can be posted: with a stored nonce if there is one, else with a fetched one |
| `NoncesLaws.BeginsAndPosts` | pkg/acme/acme.go:643-649 | so can a new one |
| `NoncesLaws.WipesAndPostsAgain` | pkg/acme/acme.go:654-662 | a request refused for its nonce can wipe the pool and be posted again, with a nonce never issued before |
| `NoncesLaws.SomebodyCanMove` | pkg/acme/acme.go:643-728 | while a request is unfinished, some request can move |
| `Roughtime.StepKeepsInv` | pkg/bmc/ttime/roughtime.go:36-73 | every step keeps: what was queued is what servers sent, then perhaps a nil |
| `Roughtime.NoSenderBlocks` | pkg/bmc/ttime/roughtime.go:38-70 | in every interleaving the channel, with one place for each key, has room for whoever wants to send |
| `Roughtime.NilOnlyIfAllFailed` | pkg/bmc/ttime/roughtime.go:64-72 | nil is received only if every queried server failed; a reply only if one of them sent it |
| `Roughtime.ServedIffAKeyDecodes` | pkg/bmc/ttime/roughtime.go:36-73 | where a run can go no further the caller has returned if and only if a key decoded, and no goroutine is left |
| `Roughtime.NoKeyNeverReturns` | pkg/bmc/ttime/roughtime.go:39-72 | with no usable key the caller never returns, in any run |
| `Roughtime.RunsAreShort` | pkg/bmc/ttime/roughtime.go:36-73 | no run has more than 3n + 5 steps |
| `Roughtime.AcquireTime` | pkg/bmc/ttime/roughtime.go:79-116 | the first NTP time in the window, else the midpoint, else the error |
| `Roughtime.AcquireAfterRace` | pkg/bmc/ttime/roughtime.go:79-116 | the time returned is the choice made for the reply received first, which a server sent, and lies in its [midpoint - radius, midpoint + radius + elapsed] |
| `Roughtime.AcceptsTooEarlyIff` | pkg/bmc/ttime/roughtime.go:98-108 | a time too early after rewinding can be accepted if and only if time has passed |
| `Roughtime.WindowEnds` | pkg/bmc/ttime/roughtime.go:97-108 | midpoint - radius and midpoint + radius + elapsed are the earliest and the latest time accepted |
| `GpioState.PortRoundTrip` | pkg/aspeed/gpio_reg.go:473-500 | the two line numberings undo each other |
| `GpioState.BitIs` | pkg/aspeed/gpio_reg.go:313 | the bit tested is the one of weight 2^k |
| `GpioState.TableIsLayout` | pkg/aspeed/gpio_reg.go:252-270 | each table cell is where the arithmetic layout says, or the gap |
| `GpioState.OffsetIsLayout` | pkg/aspeed/gpio_reg.go:307-332 | the offsets the walk adds up are the layout's bit positions |
| `GpioState.LayoutInTable` | pkg/aspeed/gpio_reg.go:252-270 | each set of the layout is in the table |
| `GpioState.TablesLaidOut` | pkg/aspeed/gpio_reg.go:252-270 | both tables follow their layouts, both ways |
| `GpioDiff.DiffPins` | pkg/aspeed/gpio_reg.go:310-329 | the pins of a set, each reported if it changed |
| `GpioDiff.DiffSets` | pkg/aspeed/gpio_reg.go:308-331 | the sets of a register, the gap skipped |
| `GpioDiff.DiffRegs` | pkg/aspeed/gpio_reg.go:307-332 | a register table in any iteration order |
| `GpioDiff.DiffScu` | pkg/aspeed/gpio_reg.go:359-365 | the SCU registers in order, each if it changed |
| `GpioDiff.Diff` | pkg/aspeed/gpio_reg.go:303-368 | directions, then levels, then SCU registers, for some iteration orders |
| `GpioDiff.LinesReportIs` | pkg/aspeed/gpio_reg.go:307-357 | in any order, each listed line's report is there, and at most one entry a line |
| `GpioDiff.DiffIsExact` | pkg/aspeed/gpio_reg.go:303-357 | a change is reported exactly when the line's bit differs, with the new value |
| `GpioDiff.ListIsExact` | pkg/aspeed/gpio_reg.go:299-357 | without a second snapshot every line's state is reported |
| `GpioDiff.ScuIsExact` | pkg/aspeed/gpio_reg.go:359-365 | an SCU register is reported exactly when it changed |
| `GpioDiff.ReportedOnce` | pkg/aspeed/gpio_reg.go:303-368 | nothing is reported twice |
| `GpioDiff.ChangesByName` | pkg/aspeed/gpio_reg.go:307-357 | a listed line is reported to have become high, low, output or input exactly when its bit went up, down, up or down |
| `GpioDiff.StatesByName` | pkg/aspeed/gpio_reg.go:307-357 | without a second snapshot, each listed line is high, low, output or input by its bit |
| `GpioDiff.FindLine` | pkg/aspeed/gpio_reg.go:370-404 | the search for a line finds its bit, or nothing if its set is not in the table |
| `GpioDiff.PortValue` | pkg/aspeed/gpio_reg.go:370-386 | the line's level bit, for every port: the panic is never reached |
| `GpioDiff.PortDirection` | pkg/aspeed/gpio_reg.go:388-404 | the line's direction bit; the panic exactly for the sets without one |
| `GpioDiff.DiffAgreesWithLookup` | pkg/aspeed/gpio_reg.go:303-404 | the report, both lookups, and their agreement: a line became high, low, output or input exactly when PortValue or PortDirection went that way |
| `GpioDiff.Equal` | pkg/aspeed/gpio_reg.go:406-426 | every entry of the argument is there with its value; on equal key sets this is equality |
| `GpioWatcher.StdoutLog.constructor` | pkg/gpiowatcher/stdout.go:21-46 | the tracker starts right, and every line, and no other, is printed with its level and direction |
| `GpioWatcher.StdoutLog.LogChanges` | pkg/gpiowatcher/stdout.go:50-75 | the records and the printed lines after any list of changes, from any records |
| `GpioWatcher.StdoutLog.Log` | pkg/gpiowatcher/stdout.go:48-78 | each watched line's record moves exactly if the snapshot was noticed and the line turned; right records give right labels, and stay right if and only if the snapshot was noticed or dropped no watched output |
| `GpioTracking.DirOnce` | pkg/gpiowatcher/stdout.go:50-75 | once the turns are through, a line that turned has its new direction and any other its old record |
| `GpioTracking.LabelsRight` | pkg/gpiowatcher/stdout.go:60-71 | from right records, every driving or sensing label uses the new direction |
| `GpioTracking.EventsExact` | pkg/gpiowatcher/stdout.go:50-75 | what is printed for a report: each change of a line that is not ignored, with its true level or direction, and nothing else |
| `GpioTracking.LevelsPrinted` | pkg/gpiowatcher/stdout.go:60-71 | driving or sensing, high or low is printed exactly for the lines whose level went that way, by their new direction |
| `GpioTracking.TurnsPrinted` | pkg/gpiowatcher/stdout.go:54-59 | became output or input, with the level, is printed exactly for the lines that turned |
| `GpioTracking.TracksIff` | pkg/gpiowatcher/stdout.go:49-77 | right records stay right if and only if the snapshot was noticed or dropped no watched output |
| `GpioTracking.SameRegistersDropNothing` | pkg/aspeed/gpio_reg.go:432-448 | a snapshot that shows the registers of the last one drops nothing |
| `GpioTracking.CanGoUnnoticed` | pkg/aspeed/gpio_reg.go:406-426 | an unnoticed snapshot that drops an output |
| `GpioTracking.ReportTurnsFirst` | pkg/aspeed/gpio_reg.go:303-368 | a report has all changes of direction, of exactly the lines that turned, before any change of level |
| `GpioWatcher.RightIff` | pkg/gpiowatcher/stdout.go:48-78 | up to any point of a run, the records were right after each snapshot if and only if each was noticed or dropped no watched output |
| `GpioWatcher.Watch` | pkg/gpiowatcher/stdout.go:21-78 | over any run of snapshots: the sequence of the log's records, each moved from the one before, and right after each snapshot if and only if each was noticed or dropped no watched output |
| `GpioWatcher.WatchOneKeySet` | pkg/gpiowatcher/stdout.go:21-78 | over any run of snapshots with one key set they are right all the way |
| `GpioLog.BinaryLog.WriteEntries` | pkg/gpiowatcher/binary.go:39-48 | the entries of a map, each once, in some order |
| `GpioLog.BinaryLog.Log` | pkg/gpiowatcher/binary.go:26-60 | one record appended to the stream |
| `GpioLog.Playback.ReadEntries` | pkg/gpiowatcher/playback.go:45-57 | that many entries off the stream, or a record cut short |
| `GpioLog.Playback.SnapshotGpio` | pkg/gpiowatcher/playback.go:24-73 | the next snapshot, nil at the end, or the fatal error |
| `GpioLog.MapRoundTrip` | pkg/gpiowatcher/playback.go:45-57 | entries written in any order read back as the map |
| `GpioLog.RecordRoundTrip` | pkg/gpiowatcher/binary.go:26-60 | a record, in any iteration order, reads back as its snapshot, whatever follows |
| `GpioLog.TimeReadsBack` | pkg/gpiowatcher/binary.go:27 | the first eight bytes of a record are its time, modulo 2^64 |
| `GpioLog.LogRoundTrip` | pkg/gpiowatcher/playback.go:24-73 | any concatenation of records plays back as the snapshots in order |
| `GpioLog.PlayBack` | pkg/gpiowatcher/playback.go:24-73 | repeated playback of any bytes: the snapshots in them, and whether they end properly |
| `GpioLog.LogThenPlay` | pkg/gpiowatcher/binary.go:20-60 | any sequence of snapshots, logged and played back by the two loops, comes out as it went in, then nil |
| `Bytes.Weights` | pkg/bmc/rdnss.go:166 | a big-endian number ends with its lowest byte, a little-endian one begins with it |
| `DllMargin.WalkDown` | soc/ast2400/platform_g4.S:1677-1697 | the walk with its word switch counts the passing steps down from any start byte |
| `DllMargin.WalkUp` | soc/ast2400/platform_g4.S:1699-1721 | the same upwards, stopping at 64 |
| `DllMargin.RunDownIsLongest` | soc/ast2400/platform_g4.S:1685-1697 | that count is the longest passing run that ends there and stays above 0 |
| `DllMargin.RunUpIsLongest` | soc/ast2400/platform_g4.S:1708-1721 | that count is the longest passing run that begins there |
| `DllMargin.SideMargin` | soc/ast2400/platform_g4.S:1677-1723 | the smaller of the two runs |
| `DllMargin.Weigh` | soc/ast2400/platform_g4.S:1647-1746 | the branches accept a delay exactly by the three rules behind the gate |
| `DllMargin.CandidateMeasures` | soc/ast2400/platform_g4.S:1647-1723 | for any table entry and windows: the phase is the one with the larger margin, ties to P, and the side margin is the smaller of the longest passing runs at both ends, in the window of that phase |
| `DllMargin.ResultMeasures` | soc/ast2400/platform_g4.S:1643-1746 | so is the result of the whole search, for one of the 32 delays, unless nothing was taken |
| `DllMargin.Search` | soc/ast2400/platform_g4.S:1641-1762 | the loop is the fold of those choices over the 32 delays |
| `DllMargin.NeverDecreases` | soc/ast2400/platform_g4.S:1748-1756 | the recorded side margin and the best margin never decrease |
| `DllMargin.MaxOfTaken` | soc/ast2400/platform_g4.S:1748-1756 | the best margin is the maximum over the delays taken, and g_margin + 2 >= max_margin |
| `DllMargin.ChosenIsTaken` | soc/ast2400/platform_g4.S:1748-1757 | the result is the last delay taken, with its own margins |
| `DllMargin.NothingBetterPassedOver` | soc/ast2400/platform_g4.S:1725-1746 | no delay within two steps of the best has more side margin, unless eight steps were reached; no delay with as much side margin has over three steps more margin |
| `DllMargin.DiffersIffSkipped` | soc/ast2400/platform_g4.S:1725-1732 | code and comment disagree on a candidate exactly here: N phase, delay up to 20, one step more margin, no less side margin, and no gain in it that the third rule would take |
| `DllMargin.SearchesAgreeIff` | soc/ast2400/platform_g4.S:1725-1762 | the search and the one the comment describes agree at every delay if and only if no such candidate comes up |
| `DllMargin.SearchDiffers` | soc/ast2400/platform_g4.S:1725-1762 | a table on which the search ends at another delay than the comment says |
| `DllRecord.RecordPassRange` | soc/ast2400/platform_g4.S:130-141 | the low half word takes in the step; the other phase and the other words stay |
| `DllRecord.RecordPassRangeH` | soc/ast2400/platform_g4.S:143-155 | the same for the high half word |
| `DllRecord.UnpackPack` | soc/ast2400/platform_g4.S:1649-1660 | the four fields of a table word do not overlap |
| `DllRecord.RecordsRange` | soc/ast2400/platform_g4.S:130-155 | after any passes the word holds the lowest and highest step, so the search's margin is the width of the range |
| `DllRecord.OrderDoesNotMatter` | soc/ast2400/platform_g4.S:130-155 | neither order nor repeats matter |
| `Rdnss.ParseRDNSSOption` | pkg/bmc/rdnss.go:159-174 | lifetime and addresses, or the error below 24 bytes |
| `Rdnss.ParseOptions` | pkg/bmc/rdnss.go:128-155 | the option loop, on a slice with spare capacity |
| `Rdnss.ParseNDUserOpt` | pkg/bmc/rdnss.go:100-157 | the whole parser |
| `Rdnss.ReadsBack` | pkg/bmc/rdnss.go:159-174 | an encoded RDNSS option (section 5.1 of RFC 8106) gives its lifetime and its (Length - 1) / 2 addresses |
| `Rdnss.Decoded` | pkg/bmc/rdnss.go:134-149 | whatever option the parser takes is the encoding of a well-formed one |
| `Rdnss.OptionsIff` | pkg/bmc/rdnss.go:128-155 | the loop's result is r if and only if the bytes are well-formed options followed by an ending for r: too few bytes, a zero length, a length past the end, a short RDNSS option |
| `Rdnss.MessageRoundTrip` | pkg/bmc/rdnss.go:100-157 | a message with at least one option (section 4.6 of RFC 4861) yields exactly its RDNSS options, in order |
| `Rdnss.MessageParsedIff` | pkg/bmc/rdnss.go:100-157 | the parser returns u if and only if the bytes are a message that carries u |
| `Rdnss.ZeroLengthIgnored` | pkg/bmc/rdnss.go:134-138 | a zero-length option, once reached, discards the message |
| `Rdnss.PanicIff` | pkg/bmc/rdnss.go:117-130 | the parser panics if and only if there are fewer than four bytes, spare capacity included, after the header |
| `Rdnss.TooShortIff` | pkg/bmc/rdnss.go:100-119 | which messages are refused as too short, and which for options longer than they are |
| `Rdnss.InNumbers` | pkg/bmc/rdnss.go:134-166 | option type 25, lengths in units of eight bytes, lifetimes in nanoseconds |
| `Jws.FromBigBytes` | pkg/acme/jws.go:119 | the minimal big-endian form reads back |
| `Jws.BytesFitIff` | pkg/acme/jws.go:119-123 | a number takes at most w bytes if and only if it is below 2^(8w) |
| `Jws.SizesAgreeIff` | pkg/acme/jws.go:84-87 | exactly which bit sizes give both functions the same width |
| `Jws.AcceptedSizes` | pkg/acme/jws.go:135-150 | the curves the hasher accepts are among them |
| `Jws.CoordinateIs` | pkg/acme/jws.go:88-95 | coordinates have the field's full width and read back (section 6.2.1.2 of RFC 7518) |
| `Jws.Sign` | pkg/acme/jws.go:119-127 | what the two copies leave in the buffer, and when they panic |
| `Jws.HalvesIff` | pkg/acme/jws.go:124-127 | the halves read back as r and s if and only if s fits the width |
| `Jws.SignAccepted` | pkg/acme/jws.go:110-150 | for every accepted curve and all r, s below 2^BitSize: twice the field's width, halves equal to jwkEncode's coordinates, reading back as r and s (section 3.4 of RFC 7518) |
| `Jws.ShortWidthFails` | pkg/acme/jws.go:120-125 | some number below 2^BitSize does not fit if and only if BitSize mod 64 is 1 to 7 |
| `MtdVerify.Verify` | pkg/mtd/mtd.go:126-157 | the loop's verdict, for any two readers on which it returns |
| `MtdVerify.ReturnsIff` | pkg/mtd/mtd.go:133-155 | Verify returns if and only if some reads disagree, some reads leave different buffers, or both readers are at their end at once |
| `MtdVerify.VerdictIff` | pkg/mtd/mtd.go:133-156 | it returns true if and only if the reads agree and leave equal buffers, one by one, until both readers are at their end |
| `MtdVerify.TailsLeftPasses` | pkg/mtd/mtd.go:133-156 | with buffer tails left alone, agreement of the reads is all it takes |
| `MtdVerify.TrueMeansIdentical` | pkg/mtd/mtd.go:126-157 | true means that both readers are at their end and delivered the same bytes, with no flash error, whatever the chunks and the buffer tails |
| `MtdVerify.EndingReturnsIff` | pkg/mtd/mtd.go:145-154 | on readers that end or fail for good, Verify loops for ever if and only if the image fails for good, the flash is at its end, and nothing made it return before |
| `MtdVerify.CanLoopForever` | pkg/mtd/mtd.go:145-154 | it loops for ever on an image that fails from the start against an empty flash |
| `MtdVerify.EqualContentsIff` | pkg/mtd/mtd.go:137-154 | for files with equal contents, true if and only if the chunk sizes match |
| `MtdVerify.EndWithDataRefused` | pkg/mtd/mtd.go:145-147 | an image reader that reports its end with its last bytes is refused by any file |
| `MtdVerify.ScratchCanRefuse` | pkg/mtd/mtd.go:141-143 | readers that agree on every read are refused because of bytes left beyond a short read |
| `MtdErase.Erase` | pkg/mtd/mtd.go:92-112 | on every input on which the loop ends: the requests up to the first turn at which the wrapping counter is at or past the size |
| `MtdErase.OnePassIff` | pkg/mtd/mtd.go:93-94 | the loop stops after one request for each started block if and only if the end of the last one fits 32 bits |
| `MtdErase.Tiles` | pkg/mtd/mtd.go:92-112 | the requests then cover each byte of the partition exactly once |
| `MtdErase.GrainIsLargest` | pkg/mtd/mtd.go:94 | the grain is the largest power of two that divides the erase size |
| `MtdErase.CounterReaches` | pkg/mtd/mtd.go:94 | the wrapping counter reaches 2^32 minus the grain |
| `MtdErase.StopsIff` | pkg/mtd/mtd.go:93-94 | for every erase size, the loop ends if and only if the size is at most 2^32 minus the grain |
| `MtdErase.ZeroBlockStopsIff` | pkg/mtd/mtd.go:93-94 | with an erase size of zero it ends only for an empty partition |

## Left out

- `/dev/mem`, `/dev/port`, ioctl, netlink, serial port, HTTP, TLS, JSON, PEM, base64 and all cryptography: foreign code; devices and servers are modelled by what they may answer.
- Update in place of goroutine state: the concurrent protocols are machines on values. Uart models slices with their shared backing arrays; the others have no aliasing to lose.
- `Read` and `Write` of the flash driver: they are `ReadAt` and `WriteAt` at offset 0.
- Erase times and sleeps: the chip is busy for an arbitrary finite number of polls.
- Time stamps kept by the LPC driver, and Close's statistics output.
- LpcLaws.AgreeIff: a bridge's 8-bit read either leaves F4 to F6 alone or overwrites them with one fixed byte.
- Buttons.StepKeepsInv: covers runs in which the edges of physical buttons alternate; `OrphansIff` covers the others. Senders blocked on a channel are served in order of arrival, as Go's runtime does.
- ButtonsLaws.EveryPushFinishes: counts the end of a hold as a step of the system, so it assumes that a pressed physical button is released at some point, and that the managers are registered.
- Failing line requests and failing setValues calls of the button manager, the limit on the press duration, and the best-effort completion signal to the RPC's caller.
- The UART sender side, a UART read error (which ends the receiver), and the Prometheus gauges.
- MtdErase.Erase: requires that the loop ends, since a method here must; `StopsIff` and `ZeroBlockStopsIff` say exactly when it does.
- MtdVerify.Verify: requires that the loop returns, since a method here must; `ReturnsIff` says exactly when it does.
- The partition write, which is a library copy.
- The ignore filter's effect on SCU lines: GPIO ports and SCU offsets share its number space. The parsing of line names in GpioPort, and printing.
- GpioLog.LogThenPlay: assumes maps of fewer than 2^32 entries, since sizes are written as 32-bit numbers; write errors are left out.
- DllMargin.Search: reads table entries as four fields; DllRecord shows how they lie in a word. The scan loop that exercises the memory, and the rest of the DRAM initialisation, depend on hardware.
- The rdnss goroutine that receives netlink messages and filters them by family, code and type. Addresses alias the message buffer in the original; here they are values.
- Roughtime.AcquireTime: times are unbounded integers; the saturation of time.Duration is not modelled. A query that never ends is not modelled either, as every attempt has a timeout.
- Jws.Sign: the ECDSA signature (r, s) is an input; RSA keys are signed by the library.
- Flash layout, boot configuration, SCU, watchdog and PWM pokes, bootlock, loader, CLI tools: straight-line code with only easy claims.
