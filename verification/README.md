# A verified model of the Game Boy emulator's core

This project models the parts of a Game Boy emulator (written in C, with one Python tool) that compute
one thing in two ways, or that keep a law over whole runs, and proves those laws for all inputs. Check it
with `dafny verify dfyconfig.toml`.

## What is modelled

**One scanline, two renderers.** `LineSpec` says per pixel, without loops or drawing order, what a line
should look like and how long it takes. `FifoLine` is the per-dot pipeline: a fetcher of two dots per step,
a ring of sixteen pixels, fine-scroll discard, window restart, object stalls and the eight-deep object FIFO.
`Scanline` is the line-at-a-time renderer. Both are proved against `LineSpec` for every VRAM, OAM and
register setting: the pipeline's 160 pixels and its dot count, the scanline renderer's row of the
framebuffer and its object penalty. `ObjectOrder` is the object selection and exchange sort they share;
`FifoSpec` holds the facts about pixel streams, object slots and the dot clock that the pipeline's
invariants rest on; `Renderers` compares the two. `PixelBytes` reads the video memory back from the picture:
the colours of tiles and objects determine the bytes they come from.

The program's self-test (`src/main.c:75-128`) expects the two pictures to be equal. They are not, in
general: where the top opaque object stands behind a non-zero background and an opaque object below it
does not, the pipeline shows the background and the scanline renderer the lower object.
`Renderers.RenderersDifferIff` says exactly where the pictures differ, and `Renderers.RenderersCanDiffer`
gives a line on which they do. The self-test's second claim, that the penalty emerges, is true for every
line (`Renderers.PenaltyEmerges`). The comment at the head of `src/ppu_fifo.c` promises 172 + (SCX & 7) dots
for a plain line; the code takes 171 + (SCX & 7), and the model follows the code.

**Frames.** `PpuTiming` is the mode machine dot by dot, `StatInterrupt` the STAT line on top of it, `PpuUnit`
the unit itself with its framebuffer. `LineTiming` measures the unit's mode 3 against the pipeline's line. That every visible line is drawn exactly once is false when SCX is
written in the middle of a line: a rise of SCX & 7 just after HBlank began reopens mode 3
(`PpuTiming.DrawnTwice`). `PpuTiming.DrawnOnceIff` gives the exact condition on the registers of the line, and
`PpuTiming.AnyFrame` that of the whole frame, with what holds of every frame; with SCX steady within each line
each line is drawn once (`PpuTiming.FrameDrawsEveryLineOnce`).

**Clocked units.** `Timer` (DIV and TIMA) with `TimerReload` (what becomes of an overflow), `OamDma`, `VramDma`,
and the sound unit: `ApuControl` (registers, length counters, envelopes, sweep, frame sequencer), `ApuSynth`
(timers, noise register, mixer, resampler, sample buffer), `ApuUnit` (the objects that hold the state), and
`ApuLaws` and `ApuMix` (from the bytes a program writes to volumes, frequencies, lengths and the two sides).

**Encoders and arithmetic.** `Crc`, `PngFormat` and `PngWriter` (the PNG writer), `PngReader` (the Python reader),
`PngRoundTrip` and `PngPacking`, `PngChecks` (checksums and the place of every byte) and `PngFilters` (predictors);
and `Alu` (the adder, decimal adjustment and the chains programs build of them) with `AluFlags`.
The PNG round trip is false when the zlib stream is too long for the 32-bit length of its chunk: it is then cut and
no longer inflates. `PngRoundTrip.PngRoundTrip` states both directions.

## How it is written

Code that changes state step by step is a class or a method over arrays, proved equal to a function of the
old state; the laws are lemmas about those functions. The pipeline's local variables are split into four
small classes (`PixelRing`, `ObjectFifo`, `ObjectFetcher`, `BackgroundFetcher`). The three written-out exchange
sorts of the source are one method, and the pipeline reads its objects' row bytes after sorting them, not
before. The registers a program can write to the PPU are one record. The per-channel arrays of the sound
unit are one array of records. Machine integers are subset types, and every wrap-around or truncation is
written out. A memory read by a DMA unit is a function: of the M-cycle
and the address for OAM DMA, of the address for VRAM DMA. An interrupt request is counted in a ghost field.

## Model

| member | source | states |
|---|---|---|
| FifoLine.FifoBgLine | src/ppu_fifo.c:31-159 | for every VRAM, OAM and register setting the pipeline writes, in each of the 160 columns, the first opaque object in (X, OAM index) order, unless it is behind a non-zero background, else the background or window; it returns 171 + lead + 11 for a mid-line window + the sum of the object stalls, at most 299 dots |
| FifoLine.PixelRing.PushTile | src/ppu_fifo.c:99-104 | a tile is queued behind the pixels still to be read without overwriting any of the sixteen entries |
| FifoLine.PixelRing.Pop | src/ppu_fifo.c:144 | the pixel read is the oldest one queued |
| FifoLine.BackgroundFetcher.RestartInWindow | src/ppu_fifo.c:77-81 | the window restart empties the ring and starts the window's own pixel stream at its first column |
| FifoLine.BackgroundFetcher.FetchDot | src/ppu_fifo.c:82-106 | one fetcher dot keeps the ring a contiguous piece of the background stream and the distance to the next push below its fill |
| FifoLine.BackgroundFetcher.TakePixel | src/ppu_fifo.c:107-112 | the mixer takes the next pixel of the stream; once pixels flow it never finds the ring empty |
| FifoLine.ObjectFifo.Merge | src/ppu_fifo.c:130-140 | an object enters only the slots no earlier object claimed |
| FifoLine.ObjectFifo.Shift | src/ppu_fifo.c:149-152 | the object slots move one column and the last becomes empty |
| FifoLine.ObjectFetcher.PayForTile | src/ppu_fifo.c:122-129 | an object costs 6 dots, and the alignment cost when no earlier object paid for its tile |
| FifoLine.ObjectFetcher.FetchObjects | src/ppu_fifo.c:116-141 | at a column exactly the objects reached there are fetched, in priority order, and the stall is the sum of their costs |
| FifoLine.Mix | src/ppu_fifo.c:144-148 | the shade is that of the highest opaque object unless it gives way to the background |
| FifoLine.Dot | src/ppu_fifo.c:74-157 | one dot keeps pixels, object slots, stream position and clock in step |
| FifoSpec.StreamIsBackground | src/ppu_fifo.c:84-104 | the stream of fetched tiles is, column by column, the background and window picture |
| FifoSpec.MergeKeepsSlots | src/ppu_fifo.c:131-140 | after a merge every slot shows the first opaque object among those fetched so far |
| FifoSpec.ShiftKeepsSlots | src/ppu_fifo.c:149-152 | and still does one column on |
| FifoSpec.FetchedSuffice | src/ppu_fifo.c:117-121 | objects not yet fetched cannot show at the current column |
| FifoSpec.StallsEnd | src/ppu_fifo.c:117-120 | objects off the right edge cost nothing, so the stalls paid by column 160 are all stalls of the line |
| FifoSpec.ClockEnds | src/ppu_fifo.c:155-158 | when the last pixel is out the dot count is the closed form |
| ObjectOrder.SelectObjects | src/ppu.c:86-100 | the first ten objects on the line in OAM order are selected |
| ObjectOrder.SortByPriority | src/ppu.c:103-108 | the exchange sort leaves the same objects, ordered by X and then OAM index |
| ObjectOrder.InOrderIsUnique | src/ppu_fifo.c:58-63 | two arrangements in that order are equal, so all the written-out sorts agree |
| ObjectOrder.SortedIsPriorityOrder | src/ppu.c:246-250 | the sorted array is the priority order of the specification |
| ObjectOrder.RowBytes | src/ppu_fifo.c:49-55 | the two bytes of an object's row, with vertical flip and the two tiles of a tall object |
| Scanline.RenderBgWindow | src/ppu.c:39-78 | the row of the framebuffer and the colour numbers are the background picture; the window counts as used exactly when it shows |
| Scanline.DrawObject | src/ppu.c:110-132 | one object laid over those of lower priority: opaque pixels only, and a behind-background object not over a non-zero background |
| Scanline.DrawObjects | src/ppu.c:101-132 | painting the selected objects from the lowest priority to the highest leaves, in every column, the first visible object in priority order, else the background; other rows are untouched |
| Scanline.RenderLine | src/ppu.c:220-227 | for every setting the row shows the first opaque object not hidden by the background, else the background; other rows are untouched |
| Scanline.ObjMode3Penalty | src/ppu.c:236-274 | the returned penalty is the closed form of the specification, at most 107 |
| Scanline.FindTile | src/ppu.c:258 | the search finds a tile exactly when it is among those already paid for |
| PixelBytes.TileRowBytes | src/ppu_fifo.c:99-104 | the eight colours a tile row is pushed as determine its two bytes: the low bits of the colours are the first byte, the high bits the second, the leftmost pixel in bit 7 |
| PixelBytes.MapTileBytes | src/ppu.c:34-78 | so do the eight pixels of every tile of either map in every row, for either way of numbering tiles, with the bytes given by address |
| PixelBytes.ScreenPixel | src/ppu.c:39-78 | from every screen column, in the window or not, to the two bits of video memory it shows |
| PixelBytes.ScanlineColumn | src/ppu.c:39-78 | without objects the scanline renderer shows that pixel, or colour 0 with the background off, and the pipeline that pixel |
| PixelBytes.StreamTileBytes | src/ppu_fifo.c:84-104 | the pixels of each fetched tile determine the two bytes the fetcher read |
| PixelBytes.ObjectBytes | src/ppu.c:110-129 | the eight columns of an object on the line, tall or not, flipped either way or not, determine the two bytes of its row, given by address |
| PixelBytes.ObjectTakesPart | src/ppu.c:81-100 | an object takes part exactly when objects are enabled, its rows cross the line and fewer than ten objects before it do |
| PixelBytes.ObjectAttributes | src/ppu.c:120-130 | which bits of the attribute byte choose the palette and let the background cover the object |
| PixelBytes.PaletteByte | src/ppu.c:130 | the shades of the four colour numbers determine the palette register |
| Renderers.SelectedIff | src/ppu_fifo.c:46-48 | an object takes part exactly when it is on the line and fewer than ten before it in OAM are |
| Renderers.PriorityOrderStrict | src/ppu_fifo.c:58-63 | the priority order is strict and without repetition |
| Renderers.SeenObject | src/ppu.c:101-132 | an object is the one seen at a column if and only if it is a candidate that beats every other candidate, and none is seen only when there is no candidate |
| Renderers.RenderersDifferIff | src/ppu_fifo.c:144-147 | with the background on, the renderers differ at a column exactly when the top opaque object is hidden and a lower visible one has a shade other than the background's |
| Renderers.AgreeWithoutBehind | src/main.c:94-104 | so they agree on every line none of whose objects is behind the background |
| Renderers.RenderersCanDiffer | src/ppu.c:127-130 | a concrete line on which column 0 differs |
| Renderers.PenaltyEmerges | src/main.c:105-123 | switching objects on lengthens the pipeline's line by the penalty plus 3 when it is positive, and not at all otherwise |
| Renderers.TimingOffset | src/ppu.c:282-285 | without a window the pipeline takes one dot less than the scanline timing's 172 + (SCX & 7) + penalty, or two more when an object costs anything |
| LineTiming.WindowCosts | src/ppu_fifo.c:64-81 | what the window adds to the pipeline's line: eleven dots when it starts in the middle, its columns left of the screen instead of the fine scroll when it starts at the left edge, else nothing |
| LineTiming.StallRule | src/ppu_fifo.c:116-129 | what an object costs, by its X and SCX and whether an earlier object begins in the same background tile |
| PpuTiming.SteadyLine | src/ppu.c:328-362 | the state at every dot of a visible line whose fine scroll stays put |
| LineTiming.Mode3Length | src/ppu.c:282-350 | on a visible line with fixed settings the unit is in mode 2 for 80 dots, in mode 3 for as long as the pipeline's line without the window plus 1 dot, or minus 2 when an object costs anything, then in mode 0; the line is drawn at the first dot of mode 0 |
| LineTiming.HBlankInterrupt | src/ppu.c:313-350 | with only the mode-0 source enabled the STAT request of a line is made at that dot, and once |
| LineTiming.ScanInterrupt | src/ppu.c:313-350 | with only the coincidence source enabled the STAT line is high exactly on line LYC, with only the mode-2 source exactly for the 80 dots of the object scan, and a rise makes one request |
| LineTiming.Mode3OfFrame | src/ppu.c:323-363 | the modes of every dot of the visible lines of a frame during which nothing is changed, in the same terms |
| PpuTiming.LooseLine | src/ppu.c:328-362 | whatever is written to SCX, a visible line is drawn at least once and is in HBlank from dot 366 on, for at least 90 dots |
| PpuTiming.DrawnOnceIff | src/ppu.c:334-350 | a visible line is drawn exactly once if and only if mode 3 does not reopen after its first end |
| PpuTiming.DrawnTwice | src/ppu.c:334-350 | for every register set with objects off, an SCX write from 0 to 7 four dots after HBlank began gets the line drawn again; the inputs are ones the unit receives, each penalty being that of the registers of its dot |
| PpuTiming.AnyFrame | src/ppu.c:323-363 | whatever is written during a frame, lines 0 to 143 are drawn in order, each at least once, VBlank is requested once, and every line is drawn exactly once if and only if mode 3 reopens on none |
| PpuTiming.FrameDrawsEveryLineOnce | src/ppu.c:323-363 | a frame with SCX steady within each line draws lines 0 to 143 once each, in order, requests one VBlank and ends where it began |
| PpuTiming.BlankPart | src/ppu.c:351-355 | the ten lines of VBlank draw nothing and request VBlank once |
| PpuTiming.UnchangedPicture | src/ppu.c:342-357 | a frame without register changes draws each line as the registers say, the window's rows following one another |
| LineTiming.PictureOfFrame | src/ppu.c:342-357 | the window's row on line y of such a frame is y - WY, once the window shows |
| PpuTiming.ReportedModeLags | src/ppu.c:287-299 | on a visible line with SCX steady the mode a program reads is the mode of eight dots before, except that on line 0 of the first frame after the LCD was switched on mode 2 reads as 0 |
| PpuUnit.Ppu.constructor | src/cpu.c:466-470 | the unit as the boot program leaves it satisfies its invariant, with the LCD on at the start of a frame |
| StatInterrupt.SteadyStat | src/ppu.c:313-321 | the STAT line and its requests at every dot of a visible line |
| StatInterrupt.RequestsPerFrame | src/ppu.c:313-321 | for every combination of sources and every LYC the requests of a steady-state frame are a closed form, a share of the mode sources plus a share of the coincidence source, and the line returns to its level |
| StatInterrupt.RequestCounts | src/ppu.c:313-321 | per steady frame: 144 for mode 0 only, 145 for modes 0 and 2, 144 for all three, 1 for mode 1 only, 1 for coincidence only if LYC < 154 and else 0; mode 0 beside coincidence: 143 for LYC 1 to 143, 145 for 145 to 153, else 144 |
| PpuUnit.Ppu.StatCheck | src/ppu.c:313-321 | the STAT line becomes the OR of the sources the bits of STAT enable and a request is made on its rising edge only |
| PpuUnit.Ppu.RenderScanline | src/ppu.c:220-227 | the framebuffer goes on showing, in each row, the last line drawn there |
| PpuUnit.Ppu.TickDot | src/ppu.c:328-362 | one dot of the unit is one step of the mode machine and of the STAT line |
| PpuUnit.Ppu.Tick | src/ppu.c:323-363 | any number of dots is that many steps of the mode machine, each given the settings of the moment and the object penalty that memory and registers make for the current line; with the LCD off the unit only resets |
| PpuUnit.Ppu.Write | src/ppu.c:387-416 | a register write, with what switching the LCD off and on does |
| PpuUnit.WriteThenRead | src/ppu.c:366-416 | a register write is read back at its address and at no other, and the registers the drawing uses are those at their addresses |
| PpuUnit.Ppu.Read | src/ppu.c:366-385 | STAT as a program reads it: the enabled sources, the coincidence, live or frozen while the LCD is off, and the reported mode |
| PpuUnit.PictureOnScreen | src/ppu.c:340-355 | after a frame without register changes the framebuffer is the specified picture |
| Timer.TimerUnit.Step | src/timer.c:22-30 | TIMA rises by one, or wraps to 0 and schedules its reload |
| Timer.TimerUnit.Increment | src/timer.c:32-50 | one T-cycle of the unit is one step of the model |
| Timer.TimerUnit.Tick | src/timer.c:52-56 | an M-cycle call is its T-cycles |
| Timer.TimerUnit.Write | src/timer.c:68-103 | a write to DIV, TIMA, TMA or TAC, with its quirks |
| Timer.SignalFalls | src/timer.c:17-21 | the selected bit falls exactly when the counter reaches a multiple of the period |
| Timer.StepsAreFalls | src/timer.c:32-103 | over any interleaving of ticks and writes the TIMA steps are the 1-to-0 transitions of (selected DIV bit AND enable), and an overflow is pending exactly while the delay is 1 to 4 |
| Timer.TimerClosedForm | src/timer.c:22-56 | TIMA, the pending reload and the interrupt count after any number of T-cycles in closed form, the number of steps being the multiples of the period the divider passed: floor((div + n) / P) - floor(div / P), P being 1024, 16, 64 or 256 |
| Timer.GroupingIsImmaterial | src/timer.c:52-56 | however the T-cycles are grouped into ticks |
| TimerReload.OverflowAccount | src/timer.c:22-103 | over any events every TIMA overflow has led to an interrupt request, or its reload is pending, or a write to TIMA cancelled it, or another overflow took its place |
| TimerReload.ProgramAccount | src/timer.c:22-103 | over machine cycles with at most one write each the last case does not occur: overflows = requests + pending + cancelled |
| TimerReload.WriteHolds | src/timer.c:77-88 | a write to TIMA outside the machine cycle of a reload is what TIMA holds until the next falling edge, and the overflow it met makes no interrupt |
| TimerReload.WriteAfterReload | src/timer.c:77-92 | in the machine cycle of a reload, told by the interrupt request made in it, a write to TIMA is lost and one to TMA reaches TIMA; in any other the first cancels a pending reload and the second leaves TIMA alone |
| TimerReload.ReloadAfterFour | src/timer.c:22-44 | after an overflow TIMA reads 0 for four T-cycles, then TMA, with one interrupt request |
| TimerReload.AfterDivWrite | src/timer.c:70-76 | a write to DIV starts the divider and the timer's period anew |
| TimerReload.AfterTacWrite | src/timer.c:70-102 | a write to TAC keeps three bits, and no write but that to DIV touches the divider |
| OamDma.OamDmaUnit.Tick | src/bus.c:42-60 | a tick is its M-cycles of the model |
| OamDma.OamDmaUnit.StepM | src/bus.c:44-58 | the startup countdown, then at most one byte |
| OamDma.OamDmaUnit.Write | src/bus.c:62-67 | a write to FF46 restarts the delay |
| OamDma.OamDmaUnit.WriteOam | src/bus.c:175 | a program write to OAM takes effect only while no transfer runs and the PPU leaves OAM accessible |
| OamDma.Apply | src/bus.c:42-67 | every event keeps that a transfer runs exactly while a byte below 160 is due |
| OamDma.TransferProgress | src/bus.c:42-67 | n M-cycles after the last request: the startup countdown, then byte i copied in M-cycle 3+i, whatever was in flight and whatever the program does meanwhile |
| OamDma.TransferCompletes | src/bus.c:42-60 | after 162 M-cycles all 160 bytes are those read from the requested page and the unit is idle |
| OamDma.InFlight | src/bus.c:38-41 | after a new request the transfer in flight goes on from its old page until the new source takes over, copying at most two bytes more, and exactly which |
| VramDma.VramDmaUnit.CopyBlock | src/bus.c:78-84 | one block of sixteen bytes, the destination wrapping inside its bank |
| VramDma.VramDmaUnit.Write55 | src/bus.c:89-103 | stop, copy at once, or start an HBlank transfer |
| VramDma.VramDmaUnit.HBlankStep | src/bus.c:106-111 | one HBlank of a transfer |
| VramDma.BlocksMove | src/bus.c:78-84 | closed form of any number of blocks: which byte of the bank came from where |
| VramDma.OneShotBytes | src/bus.c:89-97 | the one-shot transfer by the bytes of FF51 to FF55: which byte of VRAM comes from which address, and that nothing else changes |
| VramDma.HBlanksMove | src/bus.c:106-111 | after k HBlanks exactly k blocks are there and FF55 has counted down |
| VramDma.StepwiseIsOneShot | src/bus.c:86-111 | an HBlank transfer takes one HBlank per block and ends in the state of the one-shot transfer; further HBlanks change nothing |
| VramDma.StopKeepsPrefix | src/bus.c:93-94 | stopping it leaves exactly the blocks copied so far |
| ApuControl.RunKeepsOk | src/apu.c:225-368 | any run of clocks and register writes keeps: an active channel has its DAC on, length counters within their maximum, volumes at most 15, the sweep frequency at most 2047 |
| ApuControl.SweepMonotone | src/apu.c:38-53 | one sweep clock moves the frequency only in its direction and writes it back faithfully |
| ApuControl.SweepRun | src/apu.c:38-53 | over any run of clocks and register writes without a trigger of channel 1 the direction is kept and the frequency only falls, or only rises |
| ApuControl.EdgesAreSampled | src/apu.c:213-215 | over any number of M-cycles the falling edges seen by sampling DIV bit 12 once per M-cycle are all falling edges of the bit |
| ApuControl.TicksSounding | src/apu.c:23-78 | closed form of a channel's length counter after any number of M-cycles |
| ApuControl.LengthDuration | src/apu.c:23-28 | an active channel with counter L > 0 falls silent at the L-th length clock, between 16384(L-1) and 16384 L T-cycles |
| ApuLaws.EnvelopeInTime | src/apu.c:55-78 | after a trigger, and any number of M-cycles without writes, the volume is the high half of the envelope register plus or minus one for every p envelope clocks, p its low three bits, held at 15 or 0; envelopes are clocked by every eighth falling edge of DIV bit 12 |
| ApuLaws.SweepAfterTrigger | src/apu.c:30-53 | after a trigger of channel 1 the frequency stays until the p-th sweep clock and then falls or rises by its 2^k-th part, in the registers too, or silences the channel above 2047 |
| ApuLaws.SweepFirst | src/apu.c:38-53 | and the channel stays on after a rise exactly when the next rise would not overflow either |
| ApuLaws.FirstCheck | src/apu.c:225-266 | a trigger starts channel 1 exactly when its DAC is on and the first step of an upward sweep would not overflow |
| ApuLaws.SweepRate | src/apu.c:69-78 | the sweep is clocked by every fourth sequencer step |
| ApuLaws.TriggerFills | src/apu.c:225-266 | a trigger fills an empty length counter, less one when it is enabled and the next sequencer step will not clock it, and starts the channel when its DAC is on |
| ApuLaws.EnableClocks | src/apu.c:355-362 | newly enabling a length counter clocks it at once exactly when the next sequencer step will not, and may silence the channel |
| ApuLaws.LengthLoaded | src/apu.c:326-342 | a length register loads what is missing to 64, or 256 for the wave channel, with the unit on or off |
| ApuLaws.DacSwitch | src/apu.c:344-353 | what switches a DAC, and that a channel without it is silent |
| ApuLaws.PowerSwitch | src/apu.c:312-324 | switching the unit off clears the registers and silences it but keeps the lengths; switching it on restarts the sequencer |
| ApuLaws.OffRun | src/apu.c:208-335 | over any clocks and writes, none of which switches the unit on, a unit that is off changes in its length counters only |
| ApuLaws.DoubleSpeedBit | src/apu.c:208-216 | with DIV twice as fast the sequencer samples the next higher bit |
| ApuSynth.TimerSplits | src/apu.c:144-145 | reloads and phase of a frequency timer depend on the total time only |
| ApuSynth.NoiseNeverEmpty | src/apu.c:161-162 | in the 15-bit mode the noise register never becomes zero |
| ApuSynth.PartitionIndependence | src/apu.c:138-181 | for any split of the time into ticks the phases, the noise register and the resampler end up the same, and floor((acc + 48000 T) / 4194304) samples are produced |
| ApuSynth.SamplesFit | src/apu.c:182-193 | after any run every mixed sample lies between -30720 and 30720 |
| ApuMix.MixedSides | src/apu.c:182-193 | the left side is the sum of the channels of the high half of NR51, scaled by bits 4 to 6 of NR50; the right side that of the low half, scaled by bits 0 to 2 |
| ApuMix.TonePeriods | src/apu.c:138-166 | the periods of the four generators by the bits of their registers |
| ApuMix.SquareDuty | src/apu.c:99-105 | over the eight steps of a square wave the high and the low ones add up as the duty says |
| ApuMix.WaveLevels | src/apu.c:106-111 | the wave channel's levels by sample and volume bits |
| ApuMix.NoiseBits | src/apu.c:161-163 | every bit of the noise register after a step, in both modes |
| ApuMix.NoiseLevel | src/apu.c:112-115 | the noise channel is loud while the lowest bit is clear |
| ApuMix.RestartLoads | src/apu.c:241-253 | what a trigger loads into its generator, and that the others are left alone |
| ApuMix.DroppedWhenFull | src/apu.c:190-194 | a sample is dropped exactly when 8192 are waiting |
| ApuMix.TickSamples | src/apu.c:138-196 | the samples of a tick are mixed from the generators as the tick leaves them |
| ApuSynth.FifoOrder | src/apu.c:190-206 | over any run of samples and drains: drained and queued samples are the accepted ones in order, and produced = drained + queued + dropped |
| ApuUnit.RegisterFile.constructor | src/apu.c:268-291 | the start-up state has the register values after the boot program and satisfies the invariant |
| ApuUnit.RegisterFile.ClockLengths | src/apu.c:23-28 | every channel's length counter is clocked |
| ApuUnit.RegisterFile.ClockEnvelopes | src/apu.c:55-67 | every envelope but the wave channel's |
| ApuUnit.RegisterFile.ClockSweep | src/apu.c:38-53 | one clock of the sweep |
| ApuUnit.RegisterFile.StepSequencer | src/apu.c:69-78 | one of the eight steps of the frame sequencer |
| ApuUnit.RegisterFile.Restart | src/apu.c:225-266 | the register side of a trigger, with the extra length clock and the sweep's first check |
| ApuUnit.RegisterFile.Store | src/apu.c:306-368 | a register write, powered or not |
| ApuUnit.Voices.RunTimer | src/apu.c:144-145 | a timer loop ends with the least number of reloads that makes it positive |
| ApuUnit.Voices.Synthesize | src/apu.c:138-196 | generators, then one mixed sample for each that fell due, dropped when the buffer is full |
| ApuUnit.Voices.DrainSamples | src/apu.c:198-206 | the oldest samples come out, the rest moves to the front |
| ApuUnit.Voices.Restart | src/apu.c:241-253 | a trigger reloads its channel's timer and restarts the wave position or the noise register, and touches no other voice |
| ApuUnit.Apu.Write | src/apu.c:306-368 | which writes reach the wave memory, the registers and the voices, and that the rest change nothing |
| ApuUnit.Apu.Tick | src/apu.c:208-216 | synthesis first and only while powered, then the sequencer |
| Crc.ShiftAcross | src/png.c:17 | a shift step is linear over a summand whose low bit is clear |
| Crc.ByteAtOnce | src/png.c:15-18 | entering a byte bit by bit is entering it at once before eight steps |
| Crc.LowByteDecides | src/png.c:27 | eight steps are a table entry for the low byte and a shift of the rest |
| Crc.TableStep | src/png.c:27 | one table step is eight bit-serial steps |
| Crc.Table.Init | src/png.c:13-21 | the table holds the eight-step image of every byte |
| Crc.Table.Crc32 | src/png.c:23-29 | for every buffer the table-driven checksum is the bit-serial one of section 3.4 of RFC 2083 |
| PngChecks.PolynomialTerms | src/png.c:17 | the feedback constant has the terms of the polynomial of section 3.4 of RFC 2083 |
| PngChecks.EndChecksum | src/png.c:23-29 | the checksum of the end chunk is AE426082 |
| PngWriter.Adler32 | src/png.c:31-38 | the running sums modulo 65521 are those of section 8.2 of RFC 1950 |
| PngFormat.StoredLength | src/png.c:91-101 | the exact length of the stored blocks: five bytes for each block of up to 65535, and the data |
| PngWriter.WriteZlib | src/png.c:85-104 | the zlib stream fits the buffer of n + (n / 65535 + 1) * 5 + 16 bytes for every input, and the length returned is its own |
| PngWriter.WriteChunk | src/png.c:45-53 | length, type, data and the checksum over type and data |
| PngWriter.FillRaw | src/png.c:75-83 | every row: a filter byte of zero and the gray samples |
| PngWriter.WriteStored | src/png.c:91-101 | the block loop takes all the input, marks only the last block final and stays inside its buffer |
| PngWriter.PngWriteGray | src/png.c:58-112 | the bytes of the whole file |
| PngChecks.FileIsGood | src/png.c:45-112 | for every size and image, cut streams included, a reader that checks each chunk's checksum over type and data accepts the file up to its end chunk, behind which nothing follows |
| PngChecks.FileBegins | src/png.c:60-73 | the first 29 bytes of every file: signature, length and type of the header chunk, the size with the high byte first, eight bits of gray |
| PngChecks.FileEnds | src/png.c:107 | the last twelve bytes of every file |
| PngChecks.RawSamples | src/png.c:75-83 | where each pixel's sample is in the image data, and which gray |
| PngChecks.ShortStream | src/png.c:85-104 | the bytes of the zlib stream of a short image: header, one final block, its length and complement, the data, the sums |
| PngChecks.AdlerFront | src/png.c:31-38 | a byte put in front enters the first sum once and the second as often as there are bytes |
| PngReader.UnfilterLine | tools/mealybug_check.py:38-48 | unfiltering in place is unfiltering byte by byte from the restored left neighbours |
| PngReader.ReadChunks | tools/mealybug_check.py:13-24 | the chunk loop, with the slices that stop at the end of the file |
| PngReader.ReadImage | tools/mealybug_check.py:29-62 | the row loop, each restored row carried over to the next |
| PngReader.DecodeGrayPng | tools/mealybug_check.py:8-63 | the reader as a function of the file, failures included |
| PngRoundTrip.UnfilterUndoes | tools/mealybug_check.py:38-48 | the reader undoes each of the five filters of section 6 of RFC 2083 |
| PngFilters.PaethIsNearest | tools/mealybug_check.py:38-48 | the fourth predictor is the neighbour nearest to left + above - above left, the first of them on a tie |
| PngFilters.Predictions | tools/mealybug_check.py:38-48 | the other predictors, and what stands for the missing bytes at the left edge |
| PngRoundTrip.AnyFilters | tools/mealybug_check.py:29-62 | whatever filter an encoder chooses for each row, at any bit depth, the reader recovers the rows and takes their samples |
| PngPacking.SampleUnpacks | tools/mealybug_check.py:56-61 | of a row packed at one, two or four bits each sample is read back and scaled to 0..255 |
| PngFilters.OneBitAt | tools/mealybug_check.py:49-61 | where each one-bit sample is in its row, and its level |
| PngFilters.TwoBitsAt | tools/mealybug_check.py:49-61 | each two-bit sample |
| PngFilters.FourBitsAt | tools/mealybug_check.py:49-61 | each four-bit sample |
| PngPacking.PackedImage | tools/mealybug_check.py:29-62 | so is every such image under any choice of filters |
| PngPacking.QuantOfTwoBits | tools/mealybug_check.py:66-67 | two-bit samples quantise to the shades they stand for |
| PngRoundTrip.StoredRoundTrip | src/png.c:91-101 | reading the stored blocks gives the data and what follows them |
| PngRoundTrip.CutStream | src/png.c:106 | a zlib stream cut anywhere does not inflate |
| PngRoundTrip.QuantIsNearest | tools/mealybug_check.py:66-67 | the quantised shade is the nearest of the four grays, the lightest on a tie |
| PngRoundTrip.PngRoundTrip | src/png.c:58-112 | for every size and image: reading the written file back and quantising gives the same shades if and only if the zlib stream's length is below 2^32 |
| PngRoundTrip.TallImage | src/png.c:106 | an image one pixel wide and 2^31 - 1 high is one the writer accepts and the reader rejects |
| PngRoundTrip.CompareFiles | tools/mealybug_check.py:70-79 | the verdict on two written files is "same" exactly when their sizes and shades are |
| Alu.Cpu.SetFlag | src/cpu.c:27-30 | one flag is set or cleared, the others stay, the low nibble is zero |
| Alu.Cpu.AluAdd | src/cpu.c:88-94 | ADD: accumulator and all four flags are those of an addition without carry in |
| Alu.Cpu.AluAdc | src/cpu.c:95-102 | ADC: accumulator, zero, half carry and carry of the three-way sum |
| Alu.Cpu.AluSub | src/cpu.c:103-108 | SUB: those of a subtraction without borrow in |
| Alu.Cpu.AluSbc | src/cpu.c:109-116 | SBC: accumulator, zero, half borrow and borrow of the three-way difference |
| Alu.Cpu.AddToHl | src/cpu.c:137-144 | ADD HL: the 16-bit sum, carries out of bits 11 and 15, the zero flag kept |
| Alu.Cpu.DecimalAdjust | src/cpu.c:153-168 | DAA: the adjustment, its carry, and the flags it leaves |
| AluFlags.Comparison | src/cpu.c:103-108 | SUB compares: zero means equal, carry less, half carry less in the low digit |
| AluFlags.BorrowingComparison | src/cpu.c:109-116 | with a borrow from below SBC compares with one more |
| AluFlags.ZeroSum | src/cpu.c:95-102 | after ADC the zero flag says that nothing was added to nothing or that the byte was filled exactly |
| AluFlags.FlagRegister | src/cpu.c:27-30 | where the four flags are in the flag register |
| Alu.BinaryAddition | src/cpu.c:95-102 | a chain of ADC adds numbers of any length; the carry out says exactly whether the sum overflows |
| Alu.BinarySubtraction | src/cpu.c:109-116 | a chain of SBC subtracts numbers of any length; the carry out is the borrow |
| Alu.DecimalAddition | src/cpu.c:153-168 | ADC and DAA in every step add packed decimal numbers of any length |
| Alu.DecimalSubtraction | src/cpu.c:153-168 | SBC and DAA in every step subtract packed decimal numbers of any length |
| Alu.AddHlIsAddAdc | src/cpu.c:137-144 | ADD HL is an ADD of the low bytes and an ADC of the high bytes, but for the zero flag |

## Left out

- The colour renderer and the RGB mirror of the framebuffer: no second implementation to agree with.
- The 512-opcode table, disassembler, debugger, frontend, cartridge banking, serial port and save states: plumbing, or case splits one at a time.
- What a memory read returns during a transfer (bus conflicts) and the register read functions of timer and sound unit: a DMA read is a parameter instead.
- Hardware effects the program does not implement (sub-cycle timing, wave memory window, OAM corruption).
- The native-rate activity probe of the sound unit, which only records extremes.
- Renderers.RenderersDifferIff: stated for LCDC bit 0 set, which the pipeline assumes (`src/ppu_fifo.c:30`); with the bit clear it still draws the background.
- PngWriter.PngWriteGray: opening the file and allocation failures are not modelled; a stream within four bytes below a multiple of 2^32 is excluded, because the 32-bit size of the checksum buffer wraps there and the program's behaviour is undefined.
- PpuTiming.ReportedModeLags: covers visible lines with SCX steady; after a write to SCX within the line the reported end of mode 3 follows the new value at once, and no lag is stated.
- PngReader.DecodeGrayPng: of the DEFLATE formats only stored blocks are understood; a compressed block counts as a failure, where the real zlib would decode it.
