# Flash cartridges, firmware containers and bank transfers

This project models three parts of g64drive and proves what they are for.

**The flash driver** (`ultrasave/flash`) offers linear, byte-addressed memory on top of a chip that erases whole
sectors to 0xFF and programs single pages. The chip is modelled in `Chip.dfy` as a state machine: cells, page
buffer, read mode, erase set-up, running operation and status register. Its steps are the passing of time and the
bus transactions, and every step is recorded in a log. The log is always a run: each step is a transition from where
the step before it led, and the last one leads to the chip's state. The driver (`Flash.dfy`) is a class over the
chip with the same methods, loops and early returns as the source. Its contracts speak about the state reached *and*
about every step of the log, so that they also cover runs that end in an error, a timeout or a cancellation. A
context may become done at any moment and then stays done; any transaction may fail, with or without having taken
effect. Failed transactions are counted, so that a bus error is reported exactly when a transaction has failed.

Two constants say when success is due. A context may be *steady*: it is not cancelled from now on, and no time passes
but what is slept. A chip may have a *delay*: its operations end well, after at most so many ticks. With both, every
operation must end in nil or in a bus error (`Smooth`). What cancellation stops is said in two ways: of a call whose
context was done before it, and, by a mark a context keeps of what the device had done when it became done, of a
context that becomes done on the way (`Silent`, `Hushed`): no transaction is made after that.

The chip's behaviour follows what `flash_test.go` records of the two known chips:

* bursts wrap in the read window they start in (874-912);
* some mode switches need two writes of the command register (265-282), a switch that may need two writes is left
  open after the first;
* on one chip, page buffer writes only clear bits (1096-1120); the buffer survives mode commands (1122-1133) and is
  0xFF after programming (1274-1282);
* a confirmation without erase set-up is ignored (964), only the low ten page bits are decoded (992, 1177);
* the OK bits of the status rest cleared on one chip and set on the other (`status.go:16-20`);
* a write in status mode clears the status: on one chip any write, on the other a write of zeros at the base address,
  while other writes may disturb what is written next (1039-1042). No run of the driver contains one of those
  (`Protocol.Disciplined`).

Assumed of the chip, and not recorded there: programming combines cells and page buffer by bitwise AND; an
operation that fails, or has not succeeded yet, leaves its own unit undefined and nothing else.

**The RPK container** (`drive64/upgrade.go`) is a tree of length-prefixed, checksummed, optionally compressed
blobs. The parser is a method over a byte source, specified by a recursive function; a printer is given beside
them. Checksum, decompressor and metadata format are parameters, arbitrary functions of their arguments.

**Bank transfers** (`drive64/drive64.go`, `drive64/byteswap.go`) cut a byte stream into padded chunks, pack bank and
length into one word, and may swap bytes on the way. The device is modelled by what it does to its memory when it
receives a packet. USB transactions that fail are counted, so that every error of a command or a transfer can be laid
at the door of the link, the reader or writer, the context, or the length.

## Findings

* **A write may land at the wrong address.** `Write` splices the data at its offset within the *page* into a buffer
  that starts at the *sector* (`io.go:68`), while `io.go:8-12` and `io.go:31-32` promise linear addressing. The model
  follows the code. `Safety.WriteIsLinear` decides when the promise is kept: over all contents of the chip and all
  data of a size, if and only if the first page touched is the first page of its sector and no bit can be lost in
  the page buffer. `Safety.MisplacedByte` is the counterexample: after a successful write of one byte at offset 128 of
  an idle chip, the byte is at offset 0 and offset 128 is as before. `Sectors.IntendedIndex` shows that the offset
  within the sector would be right for every range.
* **Size 0 inside a page panics.** `Read` and `Write` of no bytes at an offset inside a page slice an empty buffer
  beyond its end (`io.go:28`, `io.go:68`). The contracts of `Read`, `Prepare` and `Write` say both halves: unless the
  bus fails, the result is `Panic` if and only if the arguments are valid, the size is 0 and the offset does not
  start a page. `Sectors.InsideFirstPage` names such arguments: offset 1, size 0.
* **A cancelled write of the whole chip still erases it.** `Write` asks its context before each sector and each page
  (`io.go:94`, `io.go:105`), but not before it erases the whole chip (`io.go:85-92`), and the data of whole sectors is
  not read, so that no reader asks it either. The contract of `Write` says exactly when: a write cancelled before the
  call fails, and starts nothing unless offset is 0 and the size is the chip's; then, on an idle chip and unless the bus
  fails, it starts the erasure of the chip and nothing else. `Sectors.WholeChipExactly` shows that no other arguments
  take that branch without reading.
* **The page buffer is assumed to be blank.** `loadpage.go:8-9` says so and nothing establishes it. On the chip whose
  page buffer writes only clear bits, the first page programmed then loses the bits the buffer lacks.
  `Safety.WriteKeepsBits` decides it for a whole write: nothing is altered, over all contents and all data of a size,
  if and only if the buffer takes any value or is blank. Every later page finds the buffer blank, whatever it held
  at first.
* **A short upload may succeed.** `CmdUpload` takes the end of its reader for success when it comes between two
  chunks (`drive64.go:310`). Unless the link, the device, the reader or the context fails, it returns nil with fewer
  bytes than announced if and only if the reader holds fewer than n bytes and a whole number of chunks;
  `Transfers.ShortReaders` names two, an empty one among them. Readers that end within a chunk are reported.
* **A byteswapped upload may keep the byte order of its tail.** The copier between the byteswapping reader and the
  upload (`main.go:208-228`, `main.go:435`) reads 32 KiB at a time, and the reader does not swap what it returns
  together with an error (`byteswap.go:73-76`). `Pipes.PipedExactly`: images of a length are swapped wholly if and
  only if nothing is to be swapped or the length is a multiple of 32768. `Pipes.ShortImage` is the smallest
  counterexample. The upload sees all announced bytes, so that nothing reports it.
* **A load from array mode may be missed.** `LoadBytePage` writes its mode command once (`loadpage.go:16`), although some
  switches need two writes: `flash_test.go:266` and `280` record it for the initial array state; the model allows it in
  array mode in general. `FlashDriver.LoadsAtOnceExactly` says from which states one is enough, and
  `FlashDriver.LoadMissed` gives a run from array mode in which every transaction succeeds and the page buffer does
  not hold the data. `Write` always loads from status mode, where one is enough.
* **On a busy chip operations may be lost.** The chip ignores confirmations and program commands while an operation
  runs, and the success of that operation is taken for their own. `FlashDriver.EraseLost` and `FlashDriver.ProgramLost`
  give, from every busy state, runs of the transactions of `Erase` and `ProgramPage`, none of which fails and whose
  status passes both tests, in which nothing is started. `FlashDriver.LoadLost` gives a load by words during which a
  page being programmed is finished: the buffer turns blank and the words already loaded are lost. `Write` checks
  for readiness first (`io.go:71-83`).
* **Nesting is not bounded by the input.** `upgrade.go:65-74` recurses as deep as the decompressed data says. When
  decompression does not lengthen, the input's length bounds it (`Rpk.NestingBounded`); otherwise 20 bytes may
  exceed every bound (`Rpk.Bottomless`).

## Layout of the project

| file | contents |
|---|---|
| `Bits.dfy`, `Endian.dfy`, `Errors.dfy`, `Wrappers.dfy`, `Context.dfy`, `Streams.dfy` | words and masks, byte orders, errors, options and results, cancellation and time, byte sources |
| `Layout.dfy` | the geometry of a chip and its address arithmetic |
| `Chip.dfy`, `Protocol.dfy` | the chip; what transactions may do to it |
| `Bursts.dfy`, `Sectors.dfy`, `Safety.dfy` | read bursts; sector ranges and plans; what holds at every step of a write |
| `Flash.dfy` | the driver |
| `Rpk.dfy` | the container parser and printer |
| `ByteSwap.dfy`, `Device.dfy`, `Transfer.dfy`, `Pipe.dfy` | byteswapping, the device and its command protocol, uploads and downloads, byteswapped uploads |

Products, remainders and bitwise operations are written as recursive functions on naturals, so that they unfold one
step at a time; `Bits.TimesIs`, `Bits.RoundDownIs` and `Layout.SizesAreProducts` give the operators back.

## Model

| member | source | states |
|---|---|---|
| Bits.ClearLowBits | ultrasave/flash/layout.go:83-86 | at every word width and for every k, clearing the low k bits gives the last multiple of 2^k that is not above the page |
| Bits.SetLowBits | ultrasave/flash/layout.go:88-97 | setting the low k bits and adding one gives the next multiple of 2^k |
| Bits.OrDisjoint | ultrasave/flash/commands.go:65-75 | combining an operation and a field by bitwise or adds them: no bit of either is lost |
| Layout.SizesAreProducts | ultrasave/flash/layout.go:47-81 | page, sector and chip sizes are the products the source computes |
| Layout.MasksAreMultiples | ultrasave/flash/layout.go:83-97 | sector begin, sector end and burst end of every page are the neighbouring multiples of the sector and window sizes |
| Layout.SectorsPartition | ultrasave/flash/layout.go:83-91 | sectors partition the pages: a page lies within the sector bounds of another if and only if both have the same bounds |
| Layout.PageAddressAgrees | ultrasave/flash/layout.go:99-107 | a page's bus address is the bus address of its first byte, on byte- and word-addressed chips |
| Layout.MinimalCover | ultrasave/flash/layout.go:142-160 | for every valid non-empty byte range the first page contains its first byte and the last page its last |
| Layout.PageCoverMinimal | ultrasave/flash/layout.go:142-160 | every page range that contains the bytes contains the computed page range |
| Sectors.SectorSteps | ultrasave/flash/layout.go:83-91 | sector bounds are aligned, enclose the page, lie within the chip and are one sector apart |
| Sectors.SectorCover | ultrasave/flash/layout.go:162-174 | the sector range of a valid non-empty byte range is aligned, within the chip, contains the range and exceeds its pages by less than a sector at each end |
| Sectors.SectorCoverMinimal | ultrasave/flash/layout.go:162-174 | every aligned page range that contains the bytes contains the computed sector range |
| Sectors.WriteRanges | ultrasave/flash/io.go:38-47 | for every valid offset and size, empty ranges included, both conversions succeed, the ranges are nested and in bounds, and the splice position plus the size stays within the sectors |
| Sectors.WholeSectors | ultrasave/flash/io.go:52-58 | offset and size that are multiples of the sector size make the sectors exactly the byte range |
| Sectors.FillsSectors | ultrasave/flash/io.go:54-58 | without reading, the data has exactly the length of the sectors and equals what splicing into the read sectors would give |
| Sectors.WholeChipExactly | ultrasave/flash/io.go:85-92 | the sectors are not read and are the whole chip if and only if the offset is 0 and the size is the chip's |
| Sectors.SplicePositionExact | ultrasave/flash/io.go:68 | the data is put at its offset if and only if its first page starts a sector, and otherwise before it |
| Sectors.LinearIffAligned | ultrasave/flash/io.go:31-69 | over all chip contents, splicing where the source splices equals splicing at the offset if and only if the first page touched starts its sector |
| Sectors.IntendedIndex | ultrasave/flash/io.go:68 | with the offset within the sector as index, the splice is in bounds and linear for every valid non-empty range |
| Sectors.WrittenBack | ultrasave/flash/io.go:64-68 | sector data with the data spliced in, written back to its sectors, is the chip image with the data at the splice position |
| Sectors.ReadSlice | ultrasave/flash/io.go:17-29 | the slice of the pages read is the byte range asked for; it is in bounds unless size is 0 inside a page |
| Sectors.InsideFirstPage | ultrasave/flash/io.go:17-29 | arguments for which the slice panics: the byte-addressed chips, offset 1, size 0 |
| Sectors.EraseSectorsEffect | ultrasave/flash/io.go:94-99 | erasing the sectors of the loop one after the other leaves exactly the range between the first and the last blank |
| Sectors.ChipEraseIsSectorErase | ultrasave/flash/io.go:85-100 | erasing the chip at once and erasing all its sectors one by one leave the same cells |
| Sectors.SectorsStarted | ultrasave/flash/io.go:94-99 | at every turn of the erase loop, the erasures started are a first part of the planned ones, in order and once each |
| Sectors.PagesStarted | ultrasave/flash/io.go:105-116 | at every turn of the program loop, the programmings started are a first part of the planned ones |
| Bursts.BurstIsLinear | ultrasave/flash/read.go:37-44 | although bursts wrap in the read window, every byte of a burst over pages of one window comes from its linear position |
| Bursts.BurstFits | ultrasave/flash/read.go:37-44 | a burst that ends at or before the burst end of its first page stays in one window |
| Bursts.BurstReads | ultrasave/flash/read.go:37-44 | what such a burst shows on an idle chip in array mode is the pages' contents |
| Bursts.BurstPlanTiles | ultrasave/flash/read.go:32-50 | the planned bursts follow one another without gap or overlap from the first page to the last, none empty and none beyond the window of its first page |
| Bursts.BurstPlanMore | ultrasave/flash/read.go:37-50 | a burst from where the loop stands to its burst end is the next one of the plan, and the loop then stands at the start of a window |
| Bursts.PageAddressReads | ultrasave/flash/layout.go:105-107 | the bus address of a page does not wrap and leads back to the page's first byte |
| FlashChip.StepKeepsForm | ultrasave/flash/status.go:10-29 | every step of the chip keeps its state well formed: sizes, and a status register that agrees with the running operation |
| FlashChip.StepsLead | ultrasave/ultrasave.go:16-23 | between any two points of a run, the steps logged lead from the one state to the other, each a transition from where the one before it led; if none was logged, nothing has changed |
| FlashChip.SectorBounds | ultrasave/flash/commands.go:62-71 | the sectors the chip erases, found by counting, are the sectors the driver's masks compute |
| FlashChip.Chip.constructor | ultrasave/flash/flash.go:38-42 | a chip after power-up is well formed: array mode, nothing running, a blank page buffer, the status at rest, no step logged, no transaction failed |
| FlashChip.Chip.Command | ultrasave/flash/flash_test.go:264-282 | a command word changes the mode, arms an erasure, starts an operation on its unit or is ignored, as the transition relation says |
| FlashChip.Chip.Accept | ultrasave/flash/flash_test.go:1039-1120 | data written in load mode goes to the page buffer, on one chip clearing bits only; in status mode it clears the status, and on the other chip leaves the buffer alone only if it is zeros at the base address |
| FlashChip.Chip.Write32 | ultrasave/ultrasave.go:16-23 | one transaction: time passes, then the word takes effect; on an error, which is counted, possibly without effect; an operation it starts has not lasted any tick |
| FlashChip.Chip.WriteBurst | drive64/drive64.go:511-536 | whole words only; unsupported bursts have no effect; a failed burst may leave anything in the page buffer |
| FlashChip.Chip.ReadBurst | drive64/drive64.go:497-509 | whole words only; fills exactly the slice, with what the chip shows in its mode |
| Protocol.Succeeds | ultrasave/flash/status.go:10-29 | an accepted operation whose status shows its busy bit clear and its OK bit set is over, on both kinds of chip |
| Protocol.Fails | ultrasave/flash/erase.go:30-47 | an accepted operation whose status shows its busy bit clear and its OK bit clear has failed |
| Protocol.BeginUnit | ultrasave/flash/erase.go:50-64 | a confirmed command after quiet steps starts at most the one operation asked for, and no step leaves its unit |
| Protocol.Finish | ultrasave/flash/erase.go:8-48 | however an accepted operation goes on, no step leaves its unit, which is new or still in flight; before it is accepted nothing changes |
| Protocol.LoadedAppend | ultrasave/flash/loadpage.go:25-33 | words written one after the other load the same page as one burst |
| Protocol.WaitsMore | ultrasave/flash/status.go:89-99 | one more poll that shows a bit of the mask: nothing else has happened to the chip, and an operation with a delay is not overdue; if the bits are clear, it is over |
| Protocol.EndPolled | ultrasave/flash/status.go:84-107 | polling for the end of the running operation ends with an error of the context only while the operation still runs; an operation that ends well within the timeout is seen to have succeeded, unless the bus fails or the context is done |
| FlashDriver.PageCommandDecodes | ultrasave/flash/commands.go:62-75 | the chip decodes exactly the operation and the page that were packed into a command word |
| FlashDriver.WordAddressed | ultrasave/flash/flash.go:53-64 | exactly three Macronix chips are addressed in words; both layouts have 1024 pages of 128 bytes, 128 to a sector, 8 sectors and a read window of 256 pages |
| FlashDriver.LoadsAtOnceExactly | ultrasave/flash/loadpage.go:16-18 | one write of the load command is sure to enter load mode if and only if the chip switches at once from its mode, or was asked before |
| FlashDriver.LoadMissed | ultrasave/flash/loadpage.go:10-36 | from every idle state in array mode that was not asked for load mode before there is a run in which the mode write and the burst succeed and the page buffer does not hold the data |
| FlashDriver.EraseLost | ultrasave/flash/erase.go:8-48 | from every busy state, in any mode, there is a run of the transactions of an erasure, none failing and the status passing both tests, in which no erasure is started |
| FlashDriver.ProgramLost | ultrasave/flash/program.go:8-46 | from every busy state there is a run of the transactions of programming a page, none failing and the status passing both tests, in which nothing is started |
| FlashDriver.LoadLost | ultrasave/flash/loadpage.go:20-33 | from every state in which a page is being programmed there is a run of a load of two words, none of its transactions failing, after which the buffer does not hold the first word |
| FlashDriver.EraseFenced | ultrasave/flash/erase.go:50-64 | busy or not, a confirmation touches no unit but the one asked for and the one in operation |
| FlashDriver.ProgramFenced | ultrasave/flash/program.go:48-58 | busy or not, a program command touches no unit but its page and the one in operation |
| FlashDriver.EraseBegins | ultrasave/flash/erase.go:55-61 | the confirmation of an armed erasure starts the erasure of the driver's unit and nothing else |
| FlashDriver.ProgramBegins | ultrasave/flash/program.go:48-58 | a program command starts the programming of the page by the page buffer and nothing else |
| FlashDriver.BufferLoaded | ultrasave/flash/loadpage.go:20-31 | a write to the page buffer touches nothing but the page buffer |
| FlashDriver.Flash.WriteCIR | ultrasave/flash/commands.go:24-29 | for every command word and base address: exactly one transaction, the word written where the driver takes the command register to be; on an error possibly without effect |
| FlashDriver.Flash.WriteMode | ultrasave/flash/status.go:41-47 | a status, identification or array command starts nothing and writes no cell, at any base address; at the chip's it writes no data, and reaches its mode at once or with the second write in a row |
| FlashDriver.Flash.Status | ultrasave/flash/status.go:31-50 | writes no data; the value returned is the status register, read in status mode |
| FlashDriver.Flash.ClearStatus | ultrasave/flash/status.go:52-63 | writes no data, the page buffer included; on an idle chip the status is cleared |
| FlashDriver.Flash.WaitStatusBitsCleared | ultrasave/flash/status.go:84-107 | ends, under a deadline, the status having been read before every wait; a status is returned only with all mask bits clear and the context not done, and in status mode it is the register's value; otherwise the error is the bus's, the context's own, or the deadline's after it has passed, and then the status last read shows a bit of the mask, or the context was over at the first look; an operation that ends well in time is seen to end |
| FlashDriver.Flash.Erase | ultrasave/flash/erase.go:8-48 | an invalid page does nothing; no step leaves the sector of the page and the unit of an operation already running; on an idle chip nil means that the sector is blank, the operation over and the status cleared; unless the bus fails the erasure is started, and if the context or the deadline of 2 s ends the call, it still runs after a poll before every wait; each error has its cause, and with a steady context and an erasure of less than 200 polls the only one is the bus |
| FlashDriver.Flash.StartErase | ultrasave/flash/erase.go:50-64 | no step leaves the sector of the page and the unit of an operation already running; on an idle chip nil means that the erasure is running, in status mode, as the only operation started |
| FlashDriver.Flash.ProgramPage | ultrasave/flash/program.go:8-46 | an invalid page does nothing; no step leaves the page and the unit of an operation already running; on an idle chip nil means that the page holds old cells AND page buffer, that the buffer is blank and the status cleared; unless the bus fails the programming is started, and if the context or the deadline of 500 ms ends the call, it still runs after a poll before every wait; each error has its cause, and with a steady context and a programming of less than 500 polls the only one is the bus |
| FlashDriver.Flash.StartProgramPage | ultrasave/flash/program.go:48-58 | no step leaves the page and the unit of an operation already running; on an idle chip nil means that the programming of the page is running, as the only operation started |
| FlashDriver.Flash.LoadBytePage | ultrasave/flash/loadpage.go:8-36 | too long or uneven data does nothing; from any state no operation is started and no cell changes but by one already running; on an idle chip that one write switches to load mode, nil means that the buffer is loaded with the data, the same by burst and by words |
| FlashDriver.Flash.LoadWords | ultrasave/flash/loadpage.go:25-33 | the word loop loads what one burst of the data loads |
| FlashDriver.Flash.ReadPages | ultrasave/flash/read.go:17-53 | an invalid range does nothing; otherwise nothing is written, every burst stays in one window and the loop ends; nil means that exactly the planned bursts were issued, in order, and that the result is exactly the contents of the pages; a context that is done stops the loop before the next burst and is reported, before the first one if it was done at the call; errors are a failed transaction, the context's, or a page size that is not whole words |
| FlashDriver.Flash.BurstPages | ultrasave/flash/read.go:37-46 | exactly one burst is issued; it reads the pages into its slice and leaves what was read before |
| FlashDriver.Flash.NextBurstEnd | ultrasave/flash/read.go:37-40 | the next burst advances, within the range and within the window |
| FlashDriver.Flash.Read | ultrasave/flash/io.go:14-29 | nil means exactly the bytes [offset, offset+size) of an idle chip; out of range is refused; a read cancelled before the call issues no burst, and one cancelled on the way none after that; both are reported; unless the bus fails, the slice panics if and only if the size is 0 inside a page; any other error is a failed transaction, the context's, or due to a page size that is not whole words |
| FlashDriver.Flash.Prepare | ultrasave/flash/io.go:51-69 | the sector data is the sectors' contents with the data at the offset within the page, on the path that reads, which a context that is done stops, and on the path that does not, which touches nothing; unless the bus fails, it panics if and only if the size is 0 inside a page |
| FlashDriver.Flash.CheckReady | ultrasave/flash/io.go:71-83 | nil means an idle chip in status mode; other errors are a failed transaction, or a chip that was busy at the call and still is, with its status |
| FlashDriver.Flash.PrepareAndCheck | ultrasave/flash/io.go:51-83 | before anything is erased: the sector data, and an idle chip in status mode; nothing is written; a cancelled call is reported if the sectors are read, and data of whole sectors fails only for the bus or a busy chip |
| FlashDriver.Flash.EraseSectors | ultrasave/flash/io.go:85-100 | every step and the state reached are safe, however it ends; the erasures started are a first part of the plan, and all of it with the range blank on success without cancellation; no erasure is begun with a context that is done, that of the whole chip excepted, which is begun unless the bus fails; each error has its cause |
| FlashDriver.Flash.ProgramSectors | ultrasave/flash/io.go:102-118 | every step and the state reached are safe, however it ends; nil means that all pages were programmed, once each and in order, and that the target is reached; with a context that is done nothing is begun; each error has its cause |
| FlashDriver.Flash.Commit | ultrasave/flash/io.go:85-118 | erasing, then programming, with the plan of both; every step and the state reached are safe, however it ends; a cancelled call starts nothing, unless the sectors are the whole chip |
| FlashDriver.Flash.Write | ultrasave/flash/io.go:31-119 | out of range: nothing happens. Size 0 inside a page: a panic, unless the bus fails, and for no other arguments. Otherwise `Safety.Written`: however the write ends, at every step and in the state reached no byte is changed outside the sectors, none at all before the first operation is started, and every page inside is old, blank or new except in the unit of the operation this write started last, as long as it runs or if it failed; every transaction happens in the mode it assumes, pages are programmed onto blank cells and loaded into a blank buffer, the first one perhaps excepted; nil means that the plan was carried out and the target is the chip's contents. Any error has its cause: a failed transaction, the failure of the operation started last, a chip busy from the call on, a page size that is not whole words, the context, or a deadline after an operation was started that still runs. A write cancelled before the call fails and starts nothing, that of the whole chip excepted; no transaction follows a cancellation on the way. With pages of whole words, an idle chip whose operations end in less than 200 polls, and a steady context, it succeeds unless the bus fails |
| FlashDriver.Flash.WriteAndRead | ultrasave/flash/io.go:8-12 | what is written is read back, on an idle chip, when the first page starts a sector and no bit can be lost in the page buffer; with a steady context and operations that end in time both succeed unless the bus fails |
| FlashDriver.Flash.SiliconID | ultrasave/flash/siliconid.go:65-88 | starts nothing and writes no cell, at any base address; at the chip's, nil means its identification, read in identification mode |
| FlashDriver.Flash.New | ultrasave/flash/flash.go:19-46 | options apply in order; a layout given is kept and the chip left alone; otherwise the layout is one of the two known ones and, at the chip's base address, follows its identification, and the chip is in array mode again; at any base address no cell is written |
| Safety.UnitIsSafe | ultrasave/flash/io.go:85-118 | from a safe chip with an intact image, whatever happens inside one unit at a time keeps the chip safe |
| Safety.ConfinedIsSafe | ultrasave/flash/io.go:85-118 | every step of one operation on a unit of the write is safe, and so is the state it ends in |
| Safety.ErasedIntact | ultrasave/flash/io.go:85-100 | a partly erased range consists of old and blank pages and nothing else has changed |
| Safety.ProgrammedIntact | ultrasave/flash/io.go:102-116 | a partly programmed range consists of new and blank pages and nothing else has changed |
| Safety.ProgrammedBlank | ultrasave/flash/program.go:8-46 | on blank cells AND-programming writes the page buffer |
| Safety.NextPageBlank | ultrasave/flash/io.go:105-116 | the page programmed next is always blank: each page is erased before it is programmed |
| Safety.BurnedAlways | ultrasave/flash/loadpage.go:8-9 | no sector data at all is altered if and only if the page buffer takes any value or is blank |
| Safety.LoadedIsTarget | ultrasave/flash/io.go:105-109 | what each load leaves in the page buffer is the page the target has at that place |
| Safety.ProgrammedTarget | ultrasave/flash/io.go:102-118 | a range programmed to its end is the target image |
| Safety.TargetIsSpliced | ultrasave/flash/io.go:51-118 | the target of a write is the old image with the data at the splice position, if no bit can be lost in the page buffer |
| Safety.WriteCarriedOut | ultrasave/flash/io.go:31-119 | preparing the sectors and then replacing them has the effect specified for the whole write |
| Safety.LinearWrite | ultrasave/flash/io.go:8-12 | a successful write whose first page starts a sector puts the data at its offset and changes no other byte, so that reading it back returns the data |
| Safety.WriteIsLinear | ultrasave/flash/io.go:31-69 | over all chip contents and all data of a size, a write produces the image with the data at its offset if and only if the first page touched starts its sector and the page buffer takes any value or is blank |
| Safety.WriteKeepsBits | ultrasave/flash/loadpage.go:8-9 | over all chip contents and all data of a size, a write alters none of the data if and only if the page buffer takes any value or is blank |
| Safety.WholeSectorWrite | ultrasave/flash/io.go:52-58 | a successful write of whole sectors touches nothing outside them, also on a chip that was busy at the start; all data but its first page is at its offset, and the first page too if the page buffer takes any value, or was blank and the chip idle |
| Safety.MisplacedWrite | ultrasave/flash/io.go:68 | on every chip with more than one page per sector, after a successful write of a byte at the start of page 1 the byte is at offset 0 and page 1 has its old first byte |
| Safety.MisplacedByte | ultrasave/flash/io.go:68 | the same on the byte-addressed chips: a write at offset 128 |
| Contexts.Context.ErrUntil | ultrasave/flash/status.go:86-88 | a child context is done if and only if its parent is or the deadline has passed, and its error is the parent's own or that of the deadline |
| Rpk.HeadRoundTrip | drive64/upgrade.go:19-27 | printing and parsing heads undo each other, in both orders |
| Rpk.EncodesParses | drive64/upgrade.go:35-91 | parsing an encoding of a tree, compressed or not at any level, followed by anything, gives the tree and leaves the rest; the encoding relation does not mention the parser: stored bytes of the announced length and checksum between head and end marker, which hold, or decompress to, the encodings of the children and the body |
| Rpk.ParseEncodes | drive64/upgrade.go:35-91 | every successful parse consumed exactly an encoding of its result |
| Rpk.Refusals | drive64/upgrade.go:45-63 | stored bytes with another checksum are refused as such, compressed or not and before they are decompressed; then what does not decompress, or to another length |
| Rpk.PrintEncodes | drive64/upgrade.go:35-91 | what is printed of a truthful uncompressed tree encodes it |
| Rpk.PlainPrints | drive64/upgrade.go:35-91 | an encoding of a tree without compressed blobs is its print, and the tree is truthful |
| Rpk.PrintParses | drive64/upgrade.go:35-91 | for every truthful uncompressed tree, parsing what is printed, followed by anything, gives the tree and leaves the rest |
| Rpk.ParsePrints | drive64/upgrade.go:35-91 | every successful parse of an uncompressed tree consumed exactly the print of its result, which is truthful |
| Rpk.ManySize | drive64/upgrade.go:65-74 | parsing n blobs consumes at least 24 n bytes |
| Rpk.ChildrenFit | drive64/upgrade.go:65-80 | on success the announced children are all there and take at least 24 bytes each of the decoded body, compressed or not |
| Rpk.DeeperBlob | drive64/upgrade.go:65-74 | a nesting bound that is not reached does not matter |
| Rpk.NestingBounded | drive64/upgrade.go:45-74 | when decompression does not lengthen, the input's length bounds the nesting |
| Rpk.Bottomless | drive64/upgrade.go:54-74 | a decompressor that lengthens its input may exceed every bound on the nesting, from an input of 20 bytes |
| Rpk.UncompressedBlob | drive64/upgrade.go:54-63 | input without compressed blobs is parsed the same whatever the decompressor does |
| Rpk.UncompressedBounded | drive64/upgrade.go:45-74 | on such input the recursion is bounded by the input's length, and every larger bound gives the same result |
| Rpk.NewBlobFromReader | drive64/upgrade.go:35-91 | the result is that of the format's parser, errors included, and on success the reader is left at the end of the blob |
| Rpk.ReadChildren | drive64/upgrade.go:65-80 | the loop over the children yields them and the bytes they leave, as the format's parser does |
| Rpk.Assemble | drive64/upgrade.go:140-168 | an archive is accepted if and only if it has at most one metadata and one asset child, both leaves, and unpackable metadata; asset and metadata are those bodies; each error has its cause among the children |
| Rpk.NewRPKFromReader | drive64/upgrade.go:130-169 | the parser's error, or a root of another kind refused, or the children decided by `Assemble`: accepted if and only if acceptable, else refused with a cause |
| ByteSwap.ByteSwapper.ByteSwap | drive64/byteswap.go:28-56 | swaps exactly the given bytes in place, or reports an uneven length and changes nothing |
| ByteSwap.SwapInvolution | drive64/byteswap.go:28-56 | swapping twice gives the image back |
| ByteSwap.SwapConcat | drive64/byteswap.go:68-86 | swapping whole groups piece by piece is swapping the whole |
| ByteSwap.DetectUndoes | drive64/byteswap.go:96-113 | for every image that starts with the magic number and every way in which its length can be swapped, the detected format restores it |
| ByteSwap.DetectSound | drive64/byteswap.go:96-113 | headers of less than four bytes are refused; of others, the detected format restores the magic number in the first four bytes if and only if they are one of its three forms, and everything else is taken as not swapped |
| ByteSwap.BsReader.Read | drive64/byteswap.go:68-79 | for any sizes of buffers, what error-free reads deliver concatenates to the swap of what they consumed; with an error the bytes are raw; reading on after an error is allowed; the result is nil, the end of input or an unexpected end exactly as the source has enough, none or too few bytes left, unless it fails |
| ByteSwap.BsWriter.Write | drive64/byteswap.go:81-86 | appends the swapped bytes, or reports an uneven length and writes nothing, or, if the writer may fail, fails after a part |
| Device.BankAndLengthDecodes | drive64/drive64.go:324 | for lengths below 2^24, bank and length are recovered from the packed word |
| Device.TransferDecodes | drive64/drive64.go:190-235 | the device decodes from the packet the transfer that was encoded, acts on the bank's memory accordingly and replies |
| Device.Drive.AwaitCompletion | drive64/drive64.go:224-232 | nil means that the next four bytes replied were the completion packet of the command; absent a fault, these bytes decide between nil, too few of them and a wrong packet |
| Device.Drive.SendCmd | drive64/drive64.go:218-235 | when no reply is pending, nil means that the device did what was asked, that the buffer holds its reply, and that no reply is pending; a failed command was carried out entirely or not at all; absent a fault of the link it was carried out and what was replied decides, and a command that is answered as it should be succeeds if and only if no USB transaction failed |
| Transfers.IdealChunkSize | drive64/drive64.go:284-293 | chunks are positive multiples of 512 below 2^24 |
| Transfers.ChunkSizes | drive64/drive64.go:284-293 | chunks of 512 KiB, 2 MiB from 2 MiB on, 4 MiB from 16 MiB on |
| Transfers.ChunksTile | drive64/drive64.go:302-330 | the transfers follow one another without gap or overlap from the offset to the padded end, all in one bank, each a multiple of 512 and at most a chunk |
| Transfers.Pad | drive64/drive64.go:316-322 | appends 0xFF up to the next multiple of 512 |
| Transfers.UploadMore | drive64/drive64.go:302-330 | one more chunk extends the memory image by that chunk |
| Transfers.ShortReaders | drive64/drive64.go:302-313 | two readers that end between two chunks, before all bytes: an empty one, and 512 KiB when 1 MiB was announced |
| Transfers.EndsInChunk | drive64/drive64.go:302-313 | a reader that ends within a chunk does not end between two |
| Transfers.UploadChunk | drive64/drive64.go:303-327 | one chunk is read, padded and stored, or the memory is as before; an exhausted reader is the end of input and one that ends within the chunk an error, unless the reader fails; when no reply is pending, any other error is a failed USB transaction or a failing reader |
| Transfers.CmdUpload | drive64/drive64.go:295-333 | absent failures of link, device, reader and context: nil with all n bytes if and only if the reader holds them, nil with fewer if and only if it ends between two chunks, else an unexpected end. Nil means that these bytes are in the bank, padded, by exactly the planned transfers, and nothing else has changed; otherwise the confirmed chunks, and perhaps the next, are. When no reply is pending, an I/O error is reported only for a failed USB transaction or a failing reader, and a wrong completion never. A call cancelled before it sends nothing, and after a cancellation on the way nothing is sent |
| Transfers.CmdDownload | drive64/drive64.go:335-372 | absent failures of link, device, writer and context, nil if and only if the length is one that can be swapped, else the byteswapping error; nil means that the writer got exactly n bytes of the bank, swapped as a whole, by exactly the planned transfers; otherwise it got a first part of them; the memory is never changed. Errors are blamed as those of uploads are. A call cancelled before it requests and writes nothing, and after a cancellation on the way nothing is requested |
| Transfers.UploadedImage | drive64/drive64.go:295-372 | after an upload of n bytes a download of n bytes delivers them, swapped as the writer swaps, and swapping that again gives the bytes uploaded; the padding is 0xFF and the rest of the memory untouched |
| Transfers.UploadAndVerify | main.go:231-246 | over a working device the comparison after an upload cannot fail, whatever the checksum: the memory holds the asset, which was loaded and then dumped by exactly the planned transfers; unless a USB transaction fails, it ends in nil or in the context's error |
| Pipes.PipedExactly | drive64/byteswap.go:68-79 | images of a length that can be swapped are passed on wholly swapped if and only if nothing is to be swapped or the length is a multiple of 32768 |
| Pipes.ShortImage | drive64/byteswap.go:68-79 | the image of bytes 1, 0 is passed on as it is, not swapped |
| Pipes.PipedMore | main.go:218-222 | one more whole buffer extends what is passed on by that buffer, swapped |
| Pipes.Copy | main.go:218-222 | the copier passes on whole buffers swapped and the last part as it is; it reports an unexpected end if and only if there is such a part, unless the source fails |
| Pipes.UploadImage | main.go:208-228 | nil means that the bank holds what the copier passed on, padded, and nothing else has changed; unless a USB transaction fails, it ends in nil or in the context's error |

## Left out

- The command line (`main.go`): flags, prompts, progress bars, interrupt handling. Of it the sequence upload, download, compare and the byteswapped upload are modelled.
- Pipes.UploadImage: the copier runs to its end before the upload starts; in the source they run side by side, and a pipe hands over the same bytes in the same order. The announced size is the image's length.
- USB enumeration, opening, retries and the Windows driver: a USB transfer is one step that may fail, with or without having reached the device.
- Device commands other than the two bank transfers, and the mapping of parallel-interface calls to device commands: both sides of that interface are modelled, not the commands between them.
- Real time: a clock that only moves forward and deadlines on it; polling periods are positive. A context changes only when it is looked at or slept on, so that a cancellation between two looks is one at the second of them; a chip's delay is counted in polls.
- Checksum, LZF decompression and the unpacking of the metadata record: parameters.
- `ipl2checksum.go`, `romdb.go`, name tables, `joybus`, `eeprom`, `rtc`, tracing and printing: lookup tables, fixed-size frames, or functions without a specification of their own.
- Rpk.NewBlobFromReader: takes a bound on the nesting of blobs, because a decompressor that lengthens its input gives the recursion no measure (`Rpk.Bottomless`); the lemmas on nesting say when the bound does not matter.
- Rpk.Assemble: says of each error that its cause is among the children, not which of several faults is reported first.
- FlashDriver.Flash.LoadBytePage: of a chip that is busy, or that one write may not switch, it promises only that nothing is started and no other cell changes; `FlashDriver.LoadLost` and `FlashDriver.LoadMissed` show why no more holds.
- FlashDriver.Flash.Erase: of a chip that is busy at the call it promises only that no other unit is touched and at most this one operation started; `FlashDriver.EraseLost` shows why nil means no more.
- FlashDriver.Flash.ProgramPage: the same for a chip that is busy at the call; `FlashDriver.ProgramLost` shows why nil means no more.
- FlashDriver.Flash.New: at a base address that is not the chip's, the chip is the only device on the bus; what an identification read there returns is left open.
- FlashDriver.Flash.ReadPages: while an operation runs, and beyond the array, what a burst shows is arbitrary.
- FlashDriver.Flash.Write: the remark at `flash_test.go:1039-1042` is read as one about status clears other than the write of zeros at the base address, because the test goes on from such a write and finds the page buffer as loaded (1146-1161) and the page as programmed (1268-1270); a chip on which that write disturbs the next one is not modelled.
- Transfers.UploadAndVerify: the device's memory keeps what is stored, so that the comparison cannot fail; defective memory is not modelled.
- Transfers.CmdUpload: nothing is promised about the memory when the padded range exceeds 32-bit addresses or a reply of an earlier command is pending.
- Layouts: at most 1024 pages, the number command words can address, and page buffers below the command register, as on both known chips. Page sizes that are not multiples of four are allowed; they make bursts and loads fail.
