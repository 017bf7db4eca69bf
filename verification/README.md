# A verified model of the KL25Z support layer

This project models the stateful core of the embedded support code under `Keil-KL25Z/src` and proves what that
code is for. `dafny verify dfyconfig.toml` checks all of it.

| file | what it models |
|---|---|
| `Alloc.dfy` | `alloc.c`: the K&R allocator, first on its abstract state (free blocks, live blocks, rover), then on memory as a class whose methods rewrite headers and `freep` as the source does |
| `McgRegs.dfy`, `McgBits.dfy`, `Mcg.dfy`, `McgRuns.dfy` | `mcg.c` and the decoder in `system_MKL25Z4.c`: register fields and argument checks, the byte masks behind the fields, the 24 mode transitions as methods of one generator, and arbitrary sequences of them |
| `MemTest.dfy` | `memtest.c` on a memory with an arbitrary address map and arbitrary data faults |
| `Numerals.dfy`, `Printf.dfy`, `Formats.dfy`, `Stdlib.dfy`, `PrintParse.dfy` | `printf.c`, how its formats read and compose, `strtoul`, and the round trip between them |
| `Copies.dfy` | `memcpy` of `stdlib.c` |
| `Uart.dfy` | the baud rate search and the register encoding of `uart0_init` |
| `Queues.dfy` | `queue.c`, one queue and any number of queues used together |
| `Uif.dfy` | `get_line` and `make_argv` of `uif.c` |
| `Dht11.dfy` | the sensor frame decoder and the infrared pulse stretcher of `dht11.c` |
| `Bits.dfy`, `Common.dfy` | binary digits, option type, shared constants |

## How to read the models

**Allocator.** Addresses count units of 16 bytes, the size of a header. An `Arena` is where the linker put the heap
and `base`; `base` lies outside the heap and is not the unit behind it, because the code compares and adds pointers
of different objects. `AfterMalloc` and `AfterFree` say what a call does to the abstract state; the methods of `Heap`
are proved to do exactly that to memory, and all laws are proved of the functions.

**Clock generator.** The control registers are modelled by their fields (`McgBits` proves the mask expressions of the
source equal to the field updates). The status register is an environment: at every read each of its fields stays or
becomes what the control registers ask for, so every polling loop may succeed or time out. Each register write to C1
or C6 has the precondition that the clock monitor is off while an internal reference is selected; that precondition is
proved at every write of every transition from any starting state. `Moves` is the contract common to all transitions:
the monitor rule is kept; a settled generator rejects a call exactly for the wrong mode or for its arguments, with the
right code and without a write (`McgRuns.ChecksAllow` lists what passes); a time-out code is the truth about the
status read last; a successful call, on whatever arguments, ends settled in the target mode; and if they match the
board it returns the output frequency. Each transition adds the registers that it leaves at every exit, time-outs
included. A frequency is returned as `Hz`, an error code as `Err`; the source returns both as one integer.

**Memory tests.** `route` maps an offset to the cell that answers, `held` says what a cell returns after a write.
`TestDevice` and `TestDataBus` are characterised for every such memory; stuck bits and faults of the address lines are
special cases with lemmas of their own.

**Text.** A C string stands for the characters before its NUL. The formatter writes to one growing sequence and takes
its arguments from a sequence of tagged values. `Formats` characterises it without its own definition: how one
conversion is read and printed, how any other character is, and that formats compose.

## Where the code and its documentation disagree

- `blpe_pbe` says that in-spec dividers and an in-spec reference give an in-spec PLL (`mcg.c:570`). That holds for a
  multiplier if and only if it is at most 25 (`McgRegs.BlpePbeCommentHoldsIff`); in general only 200 MHz is guaranteed.
- `pll_init` documents a parameter, `mcgout_select`, that leaves the PLL enabled but unused (`mcg.c:50-51`). The code
  never reads it: whatever it is, a successful call ends in PEE (`Mcg.Generator.PllInit`).
- `memTestDevice` says that its last pass zeroes the device (`memtest.c:208`). It leaves the complement of the pattern
  (`MemTest.TestDevice`).
- `fbi_blpi` and `blpi_fbi` return the frequency for the reference named by their argument, which they do not compare
  with IRCS. The exact condition under which it is the output frequency is in their contracts, and
  `McgRuns.WrongIrcSelect` is a case where it is not.
- `fbe_fee` keeps the FLL reference in 16 bits. It refuses crystals that `fei_fee` accepts, those whose reference is
  32768 Hz or more (`Mcg.FbeFeeAcceptsIff`); 10 MHz is one (`Mcg.FbeFeeRefuses`).
- The transitions into FEI check the slow reference for at most 39063 Hz, but with 39063 Hz the FLL is never in range
  (`Mcg.SlowFllAcceptsIff`).
- `malloc` rounds in 32 bits. The payload holds the bytes asked for if and only if the request is at most 2^32 - 16
  (`Alloc.PayloadHolds`).
- `strtoul` does not read what `printk` writes with a plus sign or with padding behind the digits
  (`PrintParse.RoundTrip` has the exact condition).
- `uart0_init` keeps 13 bits of the divider. An accepted call configures the divider that it computed if and only if the
  clock is below 8192 * baud * ratio (`Uart.Uart0.Init`); 100 baud at 50 MHz is accepted and is not such a call
  (`Uart.DividerLost`).
- `memTestAddressBus` advises a power of two as the region size "if at all possible". Its address lines are all walked if
  and only if the number of words is a power of two (`MemTest.AllLinesWalkedIff`). Otherwise a stuck line goes unseen
  exactly if it is not walked (`MemTest.StuckLineFoundIff`), as line 0 in three words (`MemTest.StuckLineMissed`), and a
  wired-or short exactly if one of its lines is not walked (`MemTest.ShortedLinesFoundIff`).

## Model

| member | source | states |
|---|---|---|
| Alloc.CanonicalUnique | Keil-KL25Z/src/common/alloc.c:44-72 | two address-ordered lists of non-empty, non-touching blocks that cover the same units are the same list |
| Alloc.InsertCanonical | Keil-KL25Z/src/common/alloc.c:52-70 | coalescing with both neighbours keeps the free list ordered, non-empty and without touching blocks |
| Alloc.InsertCovers | Keil-KL25Z/src/common/alloc.c:52-70 | the freed units, and no others, are added to the free ones |
| Alloc.CarveCovers | Keil-KL25Z/src/common/alloc.c:111-122 | splitting or unlinking removes exactly the units handed out |
| Alloc.NextFitIsFirst | Keil-KL25Z/src/common/alloc.c:109-129 | no block that the search passed over would have been large enough |
| Alloc.FullLap | Keil-KL25Z/src/common/alloc.c:109-129 | the search fails if and only if every free block is too small |
| Alloc.PayloadHolds | Keil-KL25Z/src/common/alloc.c:96 | the rounded size holds the bytes asked for if and only if at most 2^32 - 16 are asked for, and it is never a whole unit too large |
| Alloc.MallocInv | Keil-KL25Z/src/common/alloc.c:96-129 | `malloc` keeps the invariant: canonical free list inside the arena, live blocks pairwise apart, free and live units partition the arena |
| Alloc.FreeInv | Keil-KL25Z/src/common/alloc.c:43-72 | `free` of a live block keeps the same invariant |
| Alloc.MallocRegion | Keil-KL25Z/src/common/alloc.c:109-129 | NULL if and only if no free block is large enough, and then nothing changes; otherwise the region was free, is inside the arena and overlaps no live block |
| Alloc.MallocBytes | Keil-KL25Z/src/common/alloc.c:96-129 | for requests up to 2^32 - 16 bytes: NULL if and only if no free block has room for that many bytes behind a header |
| Alloc.MallocDescends | Keil-KL25Z/src/common/alloc.c:111-123 | a block comes off the high end of a free one, and the next call of the same size returns the block right below it if there is room |
| Alloc.MallocUndoesFree | Keil-KL25Z/src/common/alloc.c:44-129 | allocating the size of a block that was just freed and touches no free block returns the same block and restores the free list |
| Alloc.RunInv | Keil-KL25Z/src/common/alloc.c:38-130 | every run of legal calls and payload writes keeps the invariant |
| Alloc.LiveDeterminesFree | Keil-KL25Z/src/common/alloc.c:38-130 | two reachable states with the same live blocks have the same free list, block by block |
| Alloc.RunsAgree | Keil-KL25Z/src/common/alloc.c:38-130 | two runs that end with the same live blocks end with the same free list, whatever happened on the way |
| Alloc.AllFreedIsWhole | Keil-KL25Z/src/common/alloc.c:38-130 | a run ends with one block over the whole arena if and only if nothing is live |
| Alloc.FreeUndoesMalloc | Keil-KL25Z/src/common/alloc.c:44-72 | freeing what was just allocated restores the free list and the live blocks |
| Alloc.StopsIff | Keil-KL25Z/src/common/alloc.c:44-50 | on the cycle the stop condition of the scan holds at one header only, the predecessor of the freed block |
| Alloc.MallocThreaded | Keil-KL25Z/src/common/alloc.c:111-124 | the headers written by `malloc` thread the new free list through `base` as one cycle and keep the size of every live block |
| Alloc.FreeThreaded | Keil-KL25Z/src/common/alloc.c:52-72 | the headers written by `free` do the same |
| Alloc.Heap.MakeFirstBlock | Keil-KL25Z/src/common/alloc.c:98-107 | the first call links `base` and one block over the arena into a cycle |
| Alloc.Heap.Search | Keil-KL25Z/src/common/alloc.c:109-129 | following links in memory finds the next fit of the abstract list, within one lap |
| Alloc.Heap.Take | Keil-KL25Z/src/common/alloc.c:113-123 | an exact fit is unlinked, otherwise the new block is cut from the high end; nothing else is written |
| Alloc.Heap.Malloc | Keil-KL25Z/src/common/alloc.c:76-130 | the heap stays valid and its state becomes that of the abstract `malloc`, whose block is returned behind its header; NULL if and only if no free block has room for the bytes asked for; every live payload keeps its contents |
| Alloc.Heap.Scan | Keil-KL25Z/src/common/alloc.c:44-50 | the scan stops, within one lap, at the predecessor of the freed block |
| Alloc.Heap.Relink | Keil-KL25Z/src/common/alloc.c:52-72 | the two conditional merges write the headers of the coalesced list and set `freep` |
| Alloc.Heap.Free | Keil-KL25Z/src/common/alloc.c:38-73 | the heap stays valid and its state becomes that of the abstract `free`; every other live payload keeps its contents |
| Alloc.Heap.Execute | Keil-KL25Z/src/common/alloc.c:38-130 | every run of calls, with writes to live payloads in between, takes the heap to the state of the abstract run and returns its pointers, so all laws above hold of it; every payload that is not freed ends up holding what its owner stored there last |
| Alloc.TakenPayloads | Keil-KL25Z/src/common/alloc.c:111-123 | no header that `malloc` writes lies in a live block |
| Alloc.FreedPayloads | Keil-KL25Z/src/common/alloc.c:52-70 | no header that `free` writes lies in another live block |
| Alloc.Heap.StorePayload | Keil-KL25Z/src/common/alloc.c:124 | whatever an owner writes into its payload, the heap stays valid |
| McgRegs.BlpePbeRange | Keil-KL25Z/src/drivers/mcg/mcg.c:563-568 | the checks of `blpe_pbe` put the PLL between 48 and 200 MHz, and 200 MHz is reached |
| McgRegs.BlpePbeCommentHoldsIff | Keil-KL25Z/src/drivers/mcg/mcg.c:564-570 | in-spec arguments give a PLL within 48 to 100 MHz for every reference if and only if the multiplier is at most 25 |
| McgRegs.RefCheckAccepts | Keil-KL25Z/src/drivers/mcg/mcg.c:88-94 | the dividers are accepted if and only if PRDIV is 1 to 25, VDIV is 24 to 50 and the crystal is at least 2000000 and below 4000001 times PRDIV; otherwise the code is the lowest that tells what is wrong |
| McgRegs.PllCheckAccepts | Keil-KL25Z/src/drivers/mcg/mcg.c:88-98 | the same with a PLL output of 48 to 100 MHz |
| McgRegs.OscCheckAccepts | Keil-KL25Z/src/drivers/mcg/mcg.c:741-772 | an oscillator is accepted if and only if its crystal is in one of three bands, an external clock up to 50 MHz; RANGE is that of the band |
| McgRegs.IrcCheckAccepts | Keil-KL25Z/src/drivers/mcg/mcg.c:915-922 | the internal references accepted, and the code for any other |
| McgRegs.MultiplierSteps | Keil-KL25Z/src/drivers/mcg/mcg.c:1797-1847 | without DMX32 the multiplier is 640 per step of DRS, with it the largest that stays below 24 MHz per step at 32768 Hz |
| McgRegs.FllFreqAccepts | Keil-KL25Z/src/drivers/mcg/mcg.c:1786-1849 | `fll_freq` accepts exactly the references whose product is in range; the result is then the exact product, and otherwise the code tells which bound was missed |
| McgRegs.TunedRef | Keil-KL25Z/src/drivers/mcg/mcg.c:1557-1583 | with the dividers chosen for the crystal the FLL reference is at most 48.8 kHz, and it is the crystal itself in the low range |
| McgRegs.DivisorIsPow2 | Keil-KL25Z/src/drivers/mcg/mcg.c:979 | a 3-bit divider field divides by the power of two that the source shifts for |
| McgBits.C1RoundTrip | Keil-KL25Z/src/cpu/headers/CMSIS/MKL25Z4/Include/MKL25Z4.h:1545-1553 | the fields of C1 and its byte determine each other |
| McgBits.ClksMasks | Keil-KL25Z/src/drivers/mcg/mcg.c:899-986 | setting CLKS, by or-ing in or by clear and set, is the update of that field |
| McgBits.IrefsMasks | Keil-KL25Z/src/drivers/mcg/mcg.c:899-986 | setting IREFS is the update of that field, and the tests of CLKS and IREFS read the fields |
| McgBits.ExtC1Mask | Keil-KL25Z/src/drivers/mcg/mcg.c:129-132 | the clear-and-set sequence on C1 for an external reference is the update of CLKS, FRDIV and IREFS |
| McgBits.OscC2Mask | Keil-KL25Z/src/drivers/mcg/mcg.c:104-115 | the oscillator write to C2 is the field update, including what an `erefs` above 1 spills into other fields |
| McgBits.C2Masks | Keil-KL25Z/src/drivers/mcg/mcg.c:524-655 | setting and clearing LP and IRCS are the updates of those fields, and RANGE is read as such |
| McgBits.PrdivMask | Keil-KL25Z/src/drivers/mcg/mcg.c:166-169 | the write to C5 sets the reference divider and leaves the rest |
| McgBits.PrdivReads | Keil-KL25Z/src/drivers/mcg/mcg.c:166-169 | the reference divider is read back from the byte as it was written |
| McgBits.VdivMask | Keil-KL25Z/src/drivers/mcg/mcg.c:174-177 | the write to C6 sets PLLS and the multiplier and leaves the rest |
| McgBits.VdivReads | Keil-KL25Z/src/drivers/mcg/mcg.c:174-177 | the multiplier is read back from the byte as it was written |
| McgBits.CmeSetMask | Keil-KL25Z/src/drivers/mcg/mcg.c:161 | the monitor is turned on and nothing else in C6 changes |
| McgBits.CmeClearMask | Keil-KL25Z/src/drivers/mcg/mcg.c:684 | the monitor is turned off and nothing else in C6 changes |
| McgBits.PllsMask | Keil-KL25Z/src/drivers/mcg/mcg.c:413-440 | the FLL is selected and nothing else in C6 changes |
| Mcg.OneMode | Keil-KL25Z/src/drivers/mcg/mcg.c:1852-1918 | on a settled generator exactly one mode check succeeds, and it names the mode |
| Mcg.FeeArrives | Keil-KL25Z/src/drivers/mcg/mcg.c:1178-1291 | the reference that the transitions into FEE compute is the one in the registers, and an accepted FLL frequency is the product |
| Mcg.FllCrystalRef | Keil-KL25Z/src/drivers/mcg/mcg.c:1557-1593 | RANGE and FRDIV derive a reference of 31250 to 39062 Hz if and only if the crystal is in one of seven bands |
| Mcg.FeeAccepts | Keil-KL25Z/src/drivers/mcg/mcg.c:1577-1597 | so with DMX32 clear the transitions into FEE find the FLL in range for exactly these crystals, with DRS 0 or 1 |
| Mcg.SlowFllAcceptsIff | Keil-KL25Z/src/drivers/mcg/mcg.c:1646-1654 | the slow references that the transitions into FEI accept: 31250 to 39062 Hz, or to 34153 Hz with DMX32 |
| Mcg.FbeFeeFrequency | Keil-KL25Z/src/drivers/mcg/mcg.c:828-868 | the 16-bit reference and the wrong shift count of `fbe_fee` do not matter once the dividers fit the crystal |
| Mcg.FbeFeeAcceptsIff | Keil-KL25Z/src/drivers/mcg/mcg.c:843-854 | with dividers that fit the crystal `fbe_fee` accepts what `fll_freq` accepts, if and only if the reference is also below 32768 Hz |
| Mcg.FbeFeeRefuses | Keil-KL25Z/src/drivers/mcg/mcg.c:843-854 | a 10 MHz crystal, with which the FLL would run at 24999680 Hz, is refused |
| Mcg.PllInitArrives | Keil-KL25Z/src/drivers/mcg/mcg.c:56-211 | the registers that `pll_init` leaves are those of PEE (if LP was clear), with the requested dividers and the PLL frequency as output |
| Mcg.PllInitAccepts | Keil-KL25Z/src/drivers/mcg/mcg.c:73-98 | `pll_init` accepts exactly the arguments whose crystal, dividers, reference (2 to 4 MHz) and output (48 to 100 MHz) are in range; otherwise the code is the lowest that tells what is wrong |
| Mcg.Generator.ReadS | Keil-KL25Z/src/drivers/mcg/mcg.c:144-156 | a read of the status register may find any progress towards what the control registers ask for |
| Mcg.Generator.WriteC1 | Keil-KL25Z/src/drivers/mcg/mcg.c:1922-1928 | no write to C1 selects an internal reference while the monitor is on |
| Mcg.Generator.WriteC6 | Keil-KL25Z/src/drivers/mcg/mcg.c:1922-1928 | no write to C6 enables the monitor while an internal reference is selected or still in use |
| Mcg.Generator.Await | Keil-KL25Z/src/drivers/mcg/mcg.c:144-156 | a bounded poll reports whether the field has the wanted value at its last read; if that is what the control registers ask for, it fails only after all its reads |
| Mcg.Generator.WhatMode | Keil-KL25Z/src/drivers/mcg/mcg.c:1852-1918 | on a settled generator the query returns the number of the one mode that fits |
| Mcg.Generator.PllInit | Keil-KL25Z/src/drivers/mcg/mcg.c:56-211 | `Moves` from FEI to PEE whatever `mcgout_select` is; from FEI arguments in range fail only on a time-out, and any other are rejected with a code that tells what is wrong; the registers are known at each of its exits |
| Mcg.Generator.NewPllFreq | Keil-KL25Z/src/drivers/mcg/mcg.c:246-335 | `Moves` from PEE to PEE with new dividers, within 48 to 100 MHz; the registers are known at each of its exits |
| Mcg.Generator.PeePbe | Keil-KL25Z/src/drivers/mcg/mcg.c:340-366 | `Moves` from PEE to PBE, changing CLKS only |
| Mcg.Generator.PbePee | Keil-KL25Z/src/drivers/mcg/mcg.c:369-410 | `Moves` from PBE to PEE; the frequency is that of the dividers in the registers |
| Mcg.Generator.PbeFbe | Keil-KL25Z/src/drivers/mcg/mcg.c:413-440 | `Moves` from PBE to FBE, changing PLLS only |
| Mcg.Generator.FbePbe | Keil-KL25Z/src/drivers/mcg/mcg.c:460-521 | `Moves` from FBE to PBE with new dividers, within 48 to 100 MHz |
| Mcg.Generator.PbeBlpe | Keil-KL25Z/src/drivers/mcg/mcg.c:524-540 | `Moves` from PBE to BLPE, changing LP only |
| Mcg.Generator.BlpePbe | Keil-KL25Z/src/drivers/mcg/mcg.c:548-608 | `Moves` from BLPE to PBE; success means the reference and the dividers are in range |
| Mcg.Generator.BlpeFbe | Keil-KL25Z/src/drivers/mcg/mcg.c:611-636 | `Moves` from BLPE to FBE, changing PLLS and LP only |
| Mcg.Generator.FbeBlpe | Keil-KL25Z/src/drivers/mcg/mcg.c:639-655 | `Moves` from FBE to BLPE, changing LP only |
| Mcg.Generator.FbeFei | Keil-KL25Z/src/drivers/mcg/mcg.c:658-708 | `Moves` from FBE to FEI; the monitor goes off before the reference changes |
| Mcg.Generator.FeiFbe | Keil-KL25Z/src/drivers/mcg/mcg.c:729-825 | `Moves` from FEI to FBE; the monitor goes on when the external reference is in use |
| Mcg.Generator.FbeFee | Keil-KL25Z/src/drivers/mcg/mcg.c:828-868 | `Moves` from FBE to FEE, changing CLKS only |
| Mcg.Generator.FeeFbe | Keil-KL25Z/src/drivers/mcg/mcg.c:871-896 | `Moves` from FEE to FBE, changing CLKS only |
| Mcg.Generator.FbeFbi | Keil-KL25Z/src/drivers/mcg/mcg.c:899-986 | `Moves` from FBE to FBI; the monitor goes off before the reference changes |
| Mcg.Generator.FbiFbe | Keil-KL25Z/src/drivers/mcg/mcg.c:989-1087 | `Moves` from FBI to FBE |
| Mcg.Generator.FbiBlpi | Keil-KL25Z/src/drivers/mcg/mcg.c:1105-1131 | `Moves` from FBI to BLPI; the result is the output frequency if and only if the selected reference was named, or both references happen to give the same |
| Mcg.Generator.BlpiFbi | Keil-KL25Z/src/drivers/mcg/mcg.c:1150-1175 | the same from BLPI to FBI |
| Mcg.Generator.FbiFee | Keil-KL25Z/src/drivers/mcg/mcg.c:1178-1291 | `Moves` from FBI to FEE; an FLL out of range is found after C2 has been written, and with DMX32 clear that happens for no crystal of the seven bands and for every other |
| Mcg.Generator.FeeFbi | Keil-KL25Z/src/drivers/mcg/mcg.c:1294-1375 | `Moves` from FEE to FBI; the monitor goes off before the reference changes |
| Mcg.Generator.FbiFei | Keil-KL25Z/src/drivers/mcg/mcg.c:1378-1426 | `Moves` from FBI to FEI |
| Mcg.Generator.FeiFbi | Keil-KL25Z/src/drivers/mcg/mcg.c:1429-1504 | `Moves` from FEI to FBI |
| Mcg.Generator.FeiFee | Keil-KL25Z/src/drivers/mcg/mcg.c:1525-1630 | `Moves` from FEI to FEE; an FLL out of range is found after C2 has been written, and with DMX32 clear that happens for no crystal of the seven bands and for every other |
| Mcg.Generator.FeeFei | Keil-KL25Z/src/drivers/mcg/mcg.c:1633-1671 | `Moves` from FEE to FEI; the monitor goes off before the reference changes |
| McgRuns.DoMatching | Keil-KL25Z/src/drivers/mcg/mcg.c:56-1671 | from a settled mode a call with matching arguments fails only in the wrong mode, on arguments that are not allowed, for an FLL out of range, or because a status was not reached |
| McgRuns.ChecksAllow | Keil-KL25Z/src/drivers/mcg/mcg.c:56-1671 | the checks of each of the 24 calls pass exactly the arguments that are allowed, which are listed by their ranges |
| McgRuns.Do | Keil-KL25Z/src/drivers/mcg/mcg.c:56-1671 | each of the 24 calls keeps `Moves` between its source and its target mode, and sets the PLL dividers or leaves them alone |
| McgRuns.RunAny | Keil-KL25Z/src/drivers/mcg/mcg.c:1922-1928 | after any sequence of calls, with any arguments, rejections and time-outs, the clock monitor is off whenever an internal reference is selected |
| McgRuns.RunModes | Keil-KL25Z/src/drivers/mcg/mcg.c:1852-1918 | after a run of successful calls from FEI, with any arguments, every call was made in its source mode, the generator is settled in the target of the last, and the mode query names it |
| McgRuns.RunMatching | Keil-KL25Z/src/cpu/system_MKL25Z4.c:208-278 | after a run of successful calls from FEI with matching arguments every call was made in its source mode, the mode query names the last target, the decoder computes the frequency returned last, and a PLL in use has the dividers of the last call that set them and is within 48 to 100 MHz, unless that was `blpe_pbe` with a multiplier above 25 (then 200 MHz) |
| McgRuns.Observe | Keil-KL25Z/src/drivers/mcg/mcg.c:1852-1918 | on a settled generator the mode query and the decoder report the mode and the output frequency |
| McgRuns.SystemCoreClockUpdate | Keil-KL25Z/src/cpu/system_MKL25Z4.c:208-276 | the decoder computes the output of the clock multiplexer for every register setting, in 32 bits, divided by OUTDIV1 |
| McgRuns.FllClock | Keil-KL25Z/src/cpu/system_MKL25Z4.c:214-255 | its FLL branch is reference times multiplier, dividing in two steps |
| McgRuns.PllInitIsSequence | Keil-KL25Z/src/drivers/mcg/mcg.c:56-211 | run on equal generators, `pll_init` and `fei_fbe`; `fbe_pbe`; `pbe_pee` leave equal registers and return equal frequencies if both succeed, fail on the same arguments, and otherwise fail from FEI only on a time-out |
| McgRuns.WrongIrcSelect | Keil-KL25Z/src/drivers/mcg/mcg.c:1105-1131 | a call of `fbi_blpi` that returns 4 MHz while the output is 32768 Hz |
| MemTest.TestDataBus | Keil-KL25Z/src/common/memtest.c:36-63 | 0 if and only if all 32 walking-ones patterns come back, else the first that does not |
| MemTest.DataBusFindsStuckBits | Keil-KL25Z/src/common/memtest.c:36-63 | with stuck bits as the only fault the test passes if and only if no bit of the cell is stuck |
| MemTest.TestDevice | Keil-KL25Z/src/common/memtest.c:175-221 | NULL if and only if no two offsets share a cell and every cell keeps its pattern and its complement; the complements are left behind, and without sharing the offset reported is the first that loses its pattern, or else the first that loses the complement |
| MemTest.CheckAndInvert | Keil-KL25Z/src/common/memtest.c:193-205 | the second pass: without sharing a failure is the first pattern not kept |
| MemTest.CheckInverted | Keil-KL25Z/src/common/memtest.c:207-217 | the third pass succeeds if and only if every offset holds the complement; without sharing a failure is the first complement not kept |
| MemTest.NoAliases | Keil-KL25Z/src/common/memtest.c:207-217 | if every offset reads back its own complement no two offsets share a cell |
| MemTest.Checkerboard | Keil-KL25Z/src/common/memtest.c:98-99 | the patterns for the address bus set the odd and the even bits |
| MemTest.DeviceFindsStuckBits | Keil-KL25Z/src/common/memtest.c:175-221 | with stuck bits as the only data fault every cell keeps both patterns if and only if no reached cell has a stuck bit, also when cells are shared |
| MemTest.TestAddressBus | Keil-KL25Z/src/common/memtest.c:91-151 | if it passes, and no probed cell turns the second pattern into the first, offset 0 and the walked lines reach different cells; if they do, it passes if and only if the cells keep the first pattern or there is no line; on sound cells the line reported is the first at fault; it ends for every region size |
| MemTest.FindChanged | Keil-KL25Z/src/common/memtest.c:138-144 | the inner loop finds the first line, other than the one under test, that lost the pattern |
| MemTest.TestStuckHigh | Keil-KL25Z/src/common/memtest.c:110-124 | the first check passes only if no line shares the cell of offset 0 (as far as the patterns are told apart), and names the first that does |
| MemTest.TestLines | Keil-KL25Z/src/common/memtest.c:126-147 | the same two halves for the last loop |
| MemTest.StuckLineFound | Keil-KL25Z/src/common/memtest.c:66-89 | any address line stuck high or low makes two probed offsets share a cell |
| MemTest.ShortedLinesFound | Keil-KL25Z/src/common/memtest.c:66-89 | so does any pair of shorted address lines |
| MemTest.PowerOfTwoRegion | Keil-KL25Z/src/common/memtest.c:77-108 | in a region of 2^n words all n address lines are walked |
| MemTest.FindLineFault | Keil-KL25Z/src/common/memtest.c:66-151 | in a region of 2^n words the test reports every stuck line and every shorted pair of lines, also together with data faults, as long as no probed cell turns the second pattern into the first |
| MemTest.LinesAreFactors | Keil-KL25Z/src/common/memtest.c:94-108 | the number of lines walked in a region of w words is the number of factors 2 in w |
| MemTest.AllLinesWalkedIff | Keil-KL25Z/src/common/memtest.c:77-108 | every address line of the region is walked if and only if its number of words is a power of two |
| MemTest.StuckLineFoundIff | Keil-KL25Z/src/common/memtest.c:77-147 | a single stuck address line of the region, which always makes two offsets share a cell, shows at the probed offsets if and only if it is walked |
| MemTest.ShortedLinesFoundIff | Keil-KL25Z/src/common/memtest.c:70-147 | a single pair of shorted address lines of the region always makes two offsets share a cell; it shows at the probed offsets if and only if the lower line is walked (wired-and) or both are (wired-or) |
| MemTest.StuckLineMissed | Keil-KL25Z/src/common/memtest.c:91-151 | in three words the test passes although line 0 is stuck |
| Numerals.NumeralValue | Keil-KL25Z/src/common/printf.c:87-154 | reading the digits of a number in its base gives the number back |
| Numerals.NoLeadingZero | Keil-KL25Z/src/common/printf.c:87-154 | the numeral of a positive number does not begin with 0, in any base |
| Numerals.WordLength | Keil-KL25Z/src/common/printf.c:188 | a 32-bit number has at most 32 digits in any base |
| Stdlib.Strtoul | Keil-KL25Z/src/common/stdlib.c:106-215 | value modulo 2^32 and end position for every string and base, (0, 0) for a malformed string; the laws below and the round trip fix what that value is |
| Stdlib.ParseIgnoresCase | Keil-KL25Z/src/common/stdlib.c:164-179 | capital and small letters are the same digits, in every string and base |
| Stdlib.ParseBaseZero | Keil-KL25Z/src/common/stdlib.c:130-152 | base 0 is 16 behind a prefix and 10 otherwise |
| Stdlib.ParseSkipsBlank | Keil-KL25Z/src/common/stdlib.c:126-128 | one more blank at the front changes only where parsing ends |
| Stdlib.Convert | Keil-KL25Z/src/common/stdlib.c:150-214 | the digit loop: the signed value modulo 2^32 of all characters, or failure at the first that is no digit |
| Stdlib.ModStep | Keil-KL25Z/src/common/stdlib.c:188-195 | wrap-around at every step gives the same as wrap-around at the end |
| Stdlib.GetValue | Keil-KL25Z/src/common/uif.c:201-218 | success if and only if the base is one that `strtoul` takes, the string is not empty, and only digits follow its head; the value is then theirs, otherwise 0 |
| Printf.SignedFieldLength | Keil-KL25Z/src/common/printf.c:379-442 | a signed conversion prints the larger of the width and its natural length |
| Printf.UnsignedFieldLength | Keil-KL25Z/src/common/printf.c:489-529 | so does an unsigned, octal, binary or pointer conversion |
| Printf.HexFieldLength | Keil-KL25Z/src/common/printf.c:444-487 | so does a hexadecimal one, but a zero-padded prefix comes on top of the width |
| Printf.MkNumStr | Keil-KL25Z/src/common/printf.c:87-154 | the buffer of 33 holds the reversed digits behind a NUL and is never overrun, the most negative integer included |
| Printf.PutSigned | Keil-KL25Z/src/common/printf.c:100-125 | repeated truncating division of a negative number gives the digits of its magnitude |
| Printf.Printer.PutReversed | Keil-KL25Z/src/common/printf.c:521-523 | printing back to the NUL emits the digits in reading order |
| Printf.Printer.ConvertSigned | Keil-KL25Z/src/common/printf.c:379-442 | emits the field for a signed number: order of sign, padding and digits under every combination of flags |
| Printf.Printer.ConvertHex | Keil-KL25Z/src/common/printf.c:444-487 | emits the field for a hexadecimal number |
| Printf.Printer.ConvertUnsigned | Keil-KL25Z/src/common/printf.c:489-529 | emits the field for an unsigned number in base 2, 8, 10 or 16 |
| Printf.Printer.ReadDirective | Keil-KL25Z/src/common/printf.c:252-372 | the four loops read the conversion that `DirectiveReads` characterises |
| Printf.Printer.Printk | Keil-KL25Z/src/common/printf.c:181-562 | appends the formatted text, returns its length, and stores at each %n the count so far; the laws of `Formats` determine that text for every format |
| Formats.DirectiveReads | Keil-KL25Z/src/common/printf.c:252-372 | whatever stands around it, a conversion is read as it is written: exactly the flags that occur in it, its width as a decimal number, and up to the character behind the ignored precision and length |
| Formats.WidthNumeral | Keil-KL25Z/src/common/printf.c:281-308 | every width can be written, as its numeral |
| Formats.FormatsJoin | Keil-KL25Z/src/common/printf.c:181-562 | two formats behind one another print one text behind the other, the second with the arguments that are left; the counts stored by its %n include the text of the first |
| Formats.FormatBehind | Keil-KL25Z/src/common/printf.c:181-562 | what precedes a format changes neither its text nor its counts |
| Formats.ConversionPrints | Keil-KL25Z/src/common/printf.c:252-559 | a conversion as it is written prints its argument with these flags and this width and stores the count if it is %n; one without argument prints its last character |
| Formats.CharacterPrints | Keil-KL25Z/src/common/printf.c:217-247 | any other character prints itself, a line feed as CR LF |
| Formats.SignedFilled | Keil-KL25Z/src/common/printf.c:379-442 | where %d and %i have sign, zeros, digits and blanks; the sign is that of the number, else plus before space |
| Formats.HexFilled | Keil-KL25Z/src/common/printf.c:444-487 | where %x and %X have prefix, zeros, digits and blanks |
| Formats.DecimalFilled | Keil-KL25Z/src/common/printf.c:489-529 | where %u has zeros, digits and blanks |
| Formats.OctalFilled | Keil-KL25Z/src/common/printf.c:489-529 | %o the same in base 8 |
| Formats.BinaryFilled | Keil-KL25Z/src/common/printf.c:489-529 | %b the same in base 2 |
| Formats.PointerFilled | Keil-KL25Z/src/common/printf.c:489-529 | %p the same in base 16, without a prefix |
| Formats.TextFilled | Keil-KL25Z/src/common/printf.c:535-551 | %s pads with blanks to the width, on the left or on the right |
| Formats.CharacterField | Keil-KL25Z/src/common/printf.c:531-555 | %c prints the low byte; %n and a null string print nothing |
| PrintParse.RoundTrip | Keil-KL25Z/src/common/stdlib.c:106-215 | for every word, integer conversion, flags and width the printed field parses back to the word, consuming all of it, if and only if it is readable or the word is 0; otherwise parsing fails |
| PrintParse.RoundTripBases | Keil-KL25Z/src/common/stdlib.c:106-215 | the round trip with the base written out for each conversion: 10, 8, 2 and 16 |
| PrintParse.WrittenRoundTrip | Keil-KL25Z/src/common/printf.c:588-608 | and for a format that consists of any one conversion, as it is written |
| PrintParse.SprintfStrtoul | Keil-KL25Z/src/common/printf.c:588-608 | the same, both halves, for a format string of one conversion |
| Copies.Memcpy | Keil-KL25Z/src/common/stdlib.c:355-377 | memory afterwards, for overlapping regions too: whole words in order and then single bytes; null pointers copy nothing |
| Copies.CopyIsRightIff | Keil-KL25Z/src/common/stdlib.c:355-377 | the copy is right for every memory content if and only if the destination does not begin inside the source behind its start, or one word is copied |
| Copies.WrongCopy | Keil-KL25Z/src/common/stdlib.c:355-377 | for every other overlap a memory content that is copied wrongly |
| Uart.NeverBelow | Keil-KL25Z/src/drivers/uart/uart.c:97-121 | for every ratio the computed baud rate is at least the requested one |
| Uart.ErrorBelow | Keil-KL25Z/src/drivers/uart/uart.c:97-121 | the overshoot times the divider is less than the baud rate |
| Uart.BestOsr | Keil-KL25Z/src/drivers/uart/uart.c:94-131 | the loop returns the largest ratio of 4 to 32 with the least error, and that error |
| Uart.BestIsUnique | Keil-KL25Z/src/drivers/uart/uart.c:108-131 | there is only one such ratio |
| Uart.CommonRatesAccepted | Keil-KL25Z/src/drivers/uart/uart.c:133 | a multiple of 100 baud whose divider for the lowest ratio is at least 34 is always accepted |
| Uart.LowRatesRejected | Keil-KL25Z/src/drivers/uart/uart.c:133 | below 100 baud nothing is accepted |
| Uart.AcceptableBelow | Keil-KL25Z/src/drivers/uart/uart.c:133 | an accepted rate is less than 3 percent too high, and one that is less than 3 percent of the rate less 99 too high is accepted |
| Uart.DividerReads | Keil-KL25Z/src/drivers/uart/uart.c:151-155 | the two baud registers hold the divider modulo 8192 and keep the other bits |
| Uart.DividerFits | Keil-KL25Z/src/drivers/uart/uart.c:149-155 | the divider is below 8192 if and only if the clock is below 8192 * baud * ratio; from 2^18 * baud on never, and below 2^15 * baud always, whatever the ratio |
| Uart.DividerLost | Keil-KL25Z/src/drivers/uart/uart.c:133-155 | 100 baud at 50 MHz is accepted and the registers then hold another divider |
| Uart.Uart0.Init | Keil-KL25Z/src/drivers/uart/uart.c:31-172 | configured if and only if the clock is in range and the least error is below the limit; ratio, divider, edge sampling and enables are then as chosen, otherwise only the transceiver is off; the registers hold the divider itself if and only if the clock is below 8192 * baud * ratio |
| Queues.Queue.Add | Keil-KL25Z/src/common/queue.c:47-61 | the node becomes the last one |
| Queues.Queue.Remove | Keil-KL25Z/src/common/queue.c:73-84 | the first node is returned and gone, or NULL if there is none |
| Queues.Queue.Peek | Keil-KL25Z/src/common/queue.c:96-100 | the first node or NULL, nothing changes |
| Queues.Queue.IsEmpty | Keil-KL25Z/src/common/queue.c:34-38 | true if and only if there is no node |
| Queues.Queue.Move | Keil-KL25Z/src/common/queue.c:109-123 | the destination holds its own nodes and then those of the source, which is empty, whatever its stale tail says |
| Queues.Fifo | Keil-KL25Z/src/common/queue.c:47-123 | over every run of operations on any number of queues, what left a queue and what is in it is, in order, what was in it and what entered it |
| Queues.RunSeparate | Keil-KL25Z/src/common/queue.c:47-123 | over every run no node is in two queues or twice in one |
| Queues.Do | Keil-KL25Z/src/common/queue.c:47-123 | one operation on linked queues does to them what it does to sequences and leaves the other queues alone |
| Queues.Execute | Keil-KL25Z/src/common/queue.c:47-123 | so does every interleaving of operations, and every call returns what the sequences say |
| Uif.TextIsPrintable | Keil-KL25Z/src/common/uif.c:46-88 | only printable characters get into the line |
| Uif.TypedThenErased | Keil-KL25Z/src/common/uif.c:58-80 | a key that prints is added if there is room, and either erasing key then takes it back; other keys change nothing |
| Uif.EchoDisplays | Keil-KL25Z/src/common/uif.c:58-80 | after every key a terminal that obeys the echo shows the prompt, the line and blanks, with the cursor behind the line |
| Uif.GetLine | Keil-KL25Z/src/common/uif.c:46-88 | the line is the fold of the keystrokes with backspace, NUL-terminated and within 80 characters; the echo is the fold of their echoes |
| Uif.RunsAreWords | Keil-KL25Z/src/common/uif.c:91-148 | the listed runs are maximal non-blank runs, in order and apart |
| Uif.WordsAreRuns | Keil-KL25Z/src/common/uif.c:91-148 | every maximal non-blank run is listed |
| Uif.MakeArgv | Keil-KL25Z/src/common/uif.c:91-148 | the count is the number of runs, at most 10; argv points at their starts and ends in NULL; the ends of those runs are overwritten and nothing else |
| Uif.ArgumentIsRun | Keil-KL25Z/src/common/uif.c:91-148 | every argument is a NUL-terminated copy of its run |
| Dht11.Sensor.MeasurePulse | Keil-KL25Z/src/projects/SmartHouse/dht11.c:163-167 | the two polls find the next pulse and measure it in ticks, across a counter wrap-around |
| Dht11.Sensor.ReadByte | Keil-KL25Z/src/projects/SmartHouse/dht11.c:160-179 | eight pulses that carry a byte, most significant bit first, leave that byte in `Rec` |
| Dht11.Sensor.BitRec | Keil-KL25Z/src/projects/SmartHouse/dht11.c:151-211 | on any 40 pulses the four data bytes are stored in order, and the result is 1 if and only if their sum modulo 256 is the fifth |
| Dht11.EveryTrainCarries | Keil-KL25Z/src/projects/SmartHouse/dht11.c:161-179 | any 40 pulses carry some five bytes, so the contract of the receiver covers every train |
| Dht11.OneFrame | Keil-KL25Z/src/projects/SmartHouse/dht11.c:161-179 | and no other five bytes |
| Dht11.TransmittedCarries | Keil-KL25Z/src/projects/SmartHouse/dht11.c:161-179 | pulses sent at any times and of any lengths, seen through a 32-bit tick counter, carry five bytes if and only if each pulse is 6 to 2^31 - 1 ticks long for a one and of another length for a zero |
| Dht11.ElapsedWraps | Keil-KL25Z/src/projects/SmartHouse/dht11.c:163-167 | the counter difference is the length of the pulse wherever the counter wraps around, below 2^31 ticks; a longer pulse looks negative |
| Dht11.Infrared.GetInfrared | Keil-KL25Z/src/projects/SmartHouse/dht11.c:344-373 | over every history the result is 1 if and only if one of the last ten calls saw three high samples or there were fewer than ten calls |
| Dht11.CounterBelow | Keil-KL25Z/src/projects/SmartHouse/dht11.c:344-373 | the delay counter is below d if and only if a trigger lies within the last d calls or there were fewer than d |

## Left out

- `memset`, `strlen`, `strcpy`, `strncpy`, `strcat`, `strncat`, `strcmp`, `strncmp`: these loops are not modelled.
- `atc`, `chk_for_resistor` and manual calls of `clk_monitor_0` in `mcg.c`: floating-point trim, pin probing, and a call that can break the monitor rule by design.
- `run_cmd` and the set and show commands in `uif.c`: dispatch through tables that are not part of this model.
- `GetTemp`, `SonicDistance`, LEDs and relays in `dht11.c`: pin writes, delays and floating point.
- Start-up code, interrupt handlers, the other drivers, the serial protocol and the Windows supervisor: straight-line set-up or plumbing.
- The copies of the common files under `Document/`: the same code again.
- `va_list`, the console function and the destination string of `sprintf`: arguments are a sequence, output is a growing sequence, and the size of the destination is not modelled.
- The `Delay(1000)` calls and the raw samples of `GetInfrared`: the three samples are a parameter.
- Waiting without end: the keyboard must deliver an end of line, the sensor the pulses that it is asked for, and where `uart0_init` loops for ever the model returns false.
- Hardware faults on unaligned word accesses in `memcpy`: memory is a sequence of bytes, and address 0 stands for NULL.
- A heap too small for one header, and a `base` that is the unit right behind the heap: the code does not handle them.
- The order in which the hardware settles: a status field may lag behind for ever, but never moves away from what the control registers ask for; OSCINIT and LOCK are unconstrained.
- The reserved CLKS value 3: the status register is unconstrained then, and the decoder leaves its result alone, as the source does.
- How often each transition reads the status before it gives up: `Mcg.Generator.Await` uses up its bound, but no contract names the bounds of the transitions, which stand for delays of the hardware.
- Negative crystal frequencies in `Mcg.FeeAccepts`: the product may wrap around into the range of the FLL.
- The layout of the source's functions: code that several transitions repeat is one helper method here, and the loops or loop bodies of `malloc`, `strtoul`, `printk`, `printk_mknumstr`, `get_line`, `make_argv`, `memcpy` and `memTestDevice` are methods of their own.
- MemTest.TestAddressBus: does not say when it passes if two probed offsets share a cell that turns the second pattern into the first; there the result depends on what else is stored.
- Printf.Printer.Printk: requires that no conversion is cut off by the end of the format, where the source reads beyond the string; field widths are unbounded numbers, where the source overflows an `int`.
- Uart.Uart0.Init: requires 32 times the baud rate to be at most the clock, below which the source divides by zero.
- Queues.Queue.Move: requires two different queues, as the source does not handle a queue moved onto itself.
- Alloc.Heap.Free: requires a live pointer whose header is intact, as the source does.
- Mcg.Generator.PbePee: returns the exact product for every `crystal`, where the source's `int` overflows above about 39 MHz if that is not the crystal of the board.
- McgRuns.RunMatching: requires arguments that describe the clocks of the board; a call whose arguments do not match ends the run.
