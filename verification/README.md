# cNVMe controller registers and safe copy, modelled in Dafny

This project models two sequential pieces of the cNVMe NVMe controller simulator.

- **The controller register store and its enable/reset state machine** (`cNVMe/ControllerRegisters.cpp`).
  - The register block of section 3.1 of the NVM Express Base Specification, revision 1.3
    ("Controller Registers") is an immutable record. It holds CAP, VS, INTMS, INTMC, CC,
    CSTS, NSSR, AQA, ASQ, ACQ, CMBLOC and CMBSZ, each with its named fields.
  - The store is that block, or none when the register pointer is null. It also holds the
    reset-in-progress flag, whether an owning controller is associated, and a count of the
    reset notifications delivered to that owner.
  - Modelled operations: the controller-level reset, one poll of the change watcher
    (`checkForChanges`), the memory page size, construction, and the doorbell offset formula.
- **The bounds-checked copy and the size macros** (`cNVMe/Types.h`).
  - `memcpy_s` works over optional byte sequences. `None` stands for a null pointer.
  - The byte/DWORD and zero-based/one-based conversion macros.

Files:
- `wrappers.dfy`: `Option`.
- `power_of_two.dfy`: `Pow2`, `Log2` and `ShiftLeft`.
- `types.dfy`: `Types.h`.
- `registers.dfy`: the register layout and the reset image.
- `doorbells.dfy`: doorbell offsets and their decoding.
- `controller_registers.dfy`: the store, its state machine, and runs of host writes and polls.

Three details of the code that the model follows exactly:
- `checkForChanges` runs two independent `if`s, not an `if`/`else if`. The second test reads the
  state the first one left. `CheckForChangesBranchesExclusive` shows the two never both fire,
  because a reset leaves CC.EN at 0.
- The owner-taking constructor delegates to the memory-only one. The construction-time reset
  therefore runs before the owner is associated, and the owner is never told about it
  (`Construct` ensures `notifications == 0`).
- "RDY is 1 only when enabled and not mid-reset" holds after each poll (`PolledReadyIffEnabled`).
  It does not hold between a host write and the next poll: the host can clear CC.EN while RDY
  is still 1.

## Model

| member | source | states |
|---|---|---|
| `ControllerRegisters.ControllerReset` | cNVMe/ControllerRegisters.cpp:301-345 | With no register block nothing changes. Otherwise AQA, ASQ and ACQ keep their values, CAP reads MQES=0xFFFF, CQR=1, TO=32, NSSRS=1, CSS=1, MPSMIN=MPSMAX=0, VS reads 1.3.0, and every other field is 0. The reset flag is set, the owner flag is unchanged, and the notification count rises by exactly 1 if an owner is present, else by 0 |
| `ControllerRegisters.CheckForChanges` | cNVMe/ControllerRegisters.cpp:255-273 | With no block nothing changes. EN=0 with no reset in progress gives exactly the controller reset. A reset in progress with EN=1 clears the flag, sets CSTS.RDY to 1 and changes nothing else. In the remaining cases (EN=0 during a reset, EN=1 outside one) the state is unchanged |
| `ControllerRegisters.GetMemoryPageSize` | cNVMe/ControllerRegisters.cpp:290-299 | 0 with no register block. Otherwise 4096·2^CC.MPS, which lies between 4096 and 2^32, so the UINT_32 cast loses nothing |
| `ControllerRegisters.Construct` | cNVMe/ControllerRegisters.cpp:223-243 | Over a memory block the store holds that block's reset image with the reset flag set. Over null memory it keeps the flag's initial value. In both cases the owner is associated afterwards and has received no notification |
| `ControllerRegisters.ResetEstablishesConsistent` | cNVMe/ControllerRegisters.cpp:306-326 | After a reset the capabilities and version are advertised, RDY and EN are 0, and RDY is 0 exactly while the reset flag is set |
| `ControllerRegisters.ResetRegistersIdempotent` | cNVMe/ControllerRegisters.cpp:309-333 | Resetting a second time leaves the same register values as resetting once |
| `ControllerRegisters.ResetDependsOnlyOnAdminQueue` | cNVMe/ControllerRegisters.cpp:309-333 | Two blocks that agree on AQA, ASQ and ACQ reset to the same registers, so no other field survives a reset |
| `ControllerRegisters.ResetPageSize` | cNVMe/ControllerRegisters.cpp:313-316 | After a reset the page size is 4096, the only size the reset capabilities (MPSMIN=MPSMAX=0) advertise |
| `ControllerRegisters.ResetDoorbellStride` | cNVMe/ControllerRegisters.cpp:313-321 | After a reset DSTRD is 0, so the doorbell stride is 4 bytes and the tail doorbell of queue y is at 0x1000 + 8y |
| `ControllerRegisters.CheckForChangesBranchesExclusive` | cNVMe/ControllerRegisters.cpp:259-271 | When a poll starts a reset, EN is 0 afterwards, so the completion branch does not fire in the same poll and RDY stays 0 |
| `ControllerRegisters.CheckForChangesIdempotent` | cNVMe/ControllerRegisters.cpp:255-273 | Polling twice with no host write in between gives the same state as polling once |
| `ControllerRegisters.CheckForChangesPreservesConsistent` | cNVMe/ControllerRegisters.cpp:259-271 | A poll keeps the invariant that capabilities are advertised and RDY is 0 exactly while a reset is in progress |
| `ControllerRegisters.PolledReadyIffEnabled` | cNVMe/ControllerRegisters.cpp:259-271 | After a poll of a consistent store, CSTS.RDY is 1 if and only if CC.EN is 1 |
| `ControllerRegisters.CheckForChangesKeepsAdminQueue` | cNVMe/ControllerRegisters.cpp:259-271 | A poll never changes AQA, ASQ or ACQ |
| `ControllerRegisters.ConstructedStoreIsNotReady` | cNVMe/ControllerRegisters.cpp:229-237 | A freshly constructed store is consistent and has RDY=0. A poll before the host sets EN leaves it unchanged |
| `ControllerRegisters.DisableThenEnable` | cNVMe/ControllerRegisters.cpp:259-271 | From a ready controller, clearing EN and polling gives RDY=0 with a reset in progress. Setting EN and polling again gives RDY=1 with no reset in progress. AQA/ASQ/ACQ are kept, and the owner is notified exactly once |
| `ControllerRegisters.StepPreservesConsistent` | cNVMe/ControllerRegisters.cpp:255-273 | Each poll or host write of EN or the admin queue keeps the store consistent |
| `ControllerRegisters.RunPreservesConsistent` | cNVMe/ControllerRegisters.cpp:255-273 | Every sequence of polls and host writes from a consistent store ends in a consistent store |
| `ControllerRegisters.RunKeepsAdminQueue` | cNVMe/ControllerRegisters.cpp:255-273 | A sequence of polls and EN writes, with no host write to the admin queue, leaves AQA, ASQ and ACQ as they were |
| `ControllerRegisters.RunNotifications` | cNVMe/ControllerRegisters.cpp:335-339 | Over any run the owner is notified at most once per poll. Without an owner there are no notifications, and the owner association never changes |
| `ControllerRegisters.MemoryPageSizeExamples` | cNVMe/ControllerRegisters.cpp:295 | MPS=0 gives 4096 and MPS=1 gives 8192 |
| `ControllerRegisters.MemoryPageSizeDoubles` | cNVMe/ControllerRegisters.cpp:295 | Raising MPS by one doubles the page size |
| `ControllerRegisters.MemoryPageSizeDeterminesMps` | cNVMe/ControllerRegisters.cpp:295 | The base-two logarithm of the page size is 12 + MPS, so the page size determines MPS |
| `Registers.ResetImageUnique` | cNVMe/ControllerRegisters.cpp:313-333 | The reset rule (keep the admin queue, assert the constants, zero the rest) fixes every field, so at most one register image satisfies it |
| `Doorbells.Stride` | cNVMe/ControllerRegisters.cpp:180 | `4 << DSTRD` is at least the 4-byte doorbell width and a multiple of it |
| `Doorbells.TailDoorbellOffset` | cNVMe/ControllerRegisters.cpp:180 | SQyTDBL at 0x1000 + (2y)·(4<<DSTRD) lies in the doorbell region and decodes back to queue y's tail doorbell |
| `Doorbells.HeadDoorbellOffset` | cNVMe/ControllerRegisters.cpp:189 | CQyHDBL at 0x1000 + (2y+1)·(4<<DSTRD) lies past the first doorbell and decodes back to queue y's head doorbell |
| `Doorbells.DoorbellOffset` | cNVMe/ControllerRegisters.cpp:180-189 | A tail doorbell is at 0x1000 + 2y·(4<<DSTRD) and a head doorbell at 0x1000 + (2y+1)·(4<<DSTRD) |
| `Doorbells.HeadFollowsTail` | cNVMe/ControllerRegisters.cpp:180-189 | The head doorbell of queue y is one stride after its tail doorbell |
| `Doorbells.NextTailFollowsHead` | cNVMe/ControllerRegisters.cpp:180-189 | The tail doorbell of queue y+1 is one stride after the head doorbell of queue y |
| `Doorbells.DoorbellExample` | cNVMe/ControllerRegisters.cpp:180-189 | With DSTRD=0, queue 2's tail doorbell is at 0x1010 and its head doorbell at 0x1014 |
| `Doorbells.DoorbellAtOffset` | cNVMe/ControllerRegisters.cpp:180-189 | Decoding a doorbell's offset returns that doorbell |
| `Doorbells.OffsetOfDoorbellAt` | cNVMe/ControllerRegisters.cpp:180-189 | Every offset that decodes to a doorbell is that doorbell's offset |
| `Doorbells.DoorbellOffsetInjective` | cNVMe/ControllerRegisters.cpp:180-189 | Distinct doorbells have distinct offsets |
| `Doorbells.DoorbellsDoNotOverlap` | cNVMe/ControllerRegisters.cpp:180-189 | Doorbells at different positions lie at least 4 bytes apart, so the 4-byte registers do not overlap |
| `Types.MemcpyS` | cNVMe/Types.h:99-131 | count=0 succeeds and leaves dest unchanged. A null dest with count>0 gives EINVAL and nothing is written; this check comes before the src and size checks. A null src gives EINVAL and zeroes the first destSize bytes. destSize<count gives ERANGE and zeroes the first destSize bytes. The result is success if and only if count=0 or both pointers are valid and count≤destSize. On success the first count bytes equal src and the rest of dest is unchanged |
| `Types.Errno.Code` | cNVMe/Types.h:101-119 | The errno_t value memcpy_s returns is never negative, and is 0 exactly on success (EINVAL and ERANGE are non-zero) |
| `Types.Memset` | cNVMe/Types.h:113 | The first n bytes become 0, the length is kept, and later bytes are unchanged |
| `Types.Memcpy` | cNVMe/Types.h:123 | The first n bytes are taken from src, the length is kept, and later bytes are unchanged |
| `Types.MemcpySReadBack` | cNVMe/Types.h:115-124 | With valid pointers and count≤destSize≤the buffer length, the copy succeeds, and dest becomes src's first count bytes followed by dest's own remainder |
| `Types.MemcpySFailureLeaksNothing` | cNVMe/Types.h:110-119 | On a failed copy with a valid dest, each byte of dest is 0 below destSize and its old value above it. No source byte appears |
| `Types.OneBasedFromZeroBased` | cNVMe/Types.h:86 | The one-based number is at least 1 |
| `Types.ZeroBasedFromOneBased` | cNVMe/Types.h:87 | For a one-based input (≥1), the zero-based number is smaller than the input |
| `Types.ZeroBasedOneBasedRoundTrip` | cNVMe/Types.h:86-87 | Converting zero-based to one-based and back gives the original |
| `Types.OneBasedZeroBasedRoundTrip` | cNVMe/Types.h:86-87 | For n≥1, converting one-based to zero-based and back gives the original |
| `Types.DwordsFromBytes` | cNVMe/Types.h:88 | The DWORD count covers n bytes (4r≥n) with less than one DWORD to spare (4r<n+4), so it is ceil(n/4) |
| `Types.BytesFromDwords` | cNVMe/Types.h:89 | The byte count is a multiple of 4 whose quotient by 4 is the DWORD count |
| `Types.DwordsFromBytesCovers` | cNVMe/Types.h:88-89 | n ≤ BYTES_FROM_DWORDS(DWORDS_FROM_BYTES(n)) < n + 4 |
| `Types.DwordsFromBytesIsLeast` | cNVMe/Types.h:88-89 | No smaller DWORD count than DWORDS_FROM_BYTES(n) covers n bytes |
| `Types.DwordsBytesRoundTrip` | cNVMe/Types.h:88-89 | DWORDS_FROM_BYTES(BYTES_FROM_DWORDS(k)) = k |
| `Types.BytesFromDwordsOfSumAsWritten` | cNVMe/Types.h:89 | The textual expansion of BYTES_FROM_DWORDS(a + b), a + b·4, falls short of 4·(a+b) by exactly 3a, and is strictly smaller whenever a > 0 |
| `Types.BytesFromDwordsOfSumCounterexample` | cNVMe/Types.h:89 | The macro text applied to `1 + 1` gives 5 bytes where 2 DWORDs are 8 bytes |
| `Types.BytesFromDwordsOfSum` | cNVMe/Types.h:89 | With the argument taken as one value, the byte size of a sum of DWORD counts is the sum of the byte sizes. The unparenthesised expansion falls short of it by 3a |

## Left out

- The `toString` pretty-printers (cNVMe/ControllerRegisters.cpp:41-221) are presentation only. Only the offset formula in the doorbell strings is modelled.
- The background watcher is concurrency and timing, and is not modelled. This covers `LoopingThread`, its start in the constructor, `end` in the destructor, and `waitForFlip` in `waitForChangeLoop`. A poll is modelled as one synchronous `CheckForChanges` step (`Step(s, Poll)`). That step is what `waitForChangeLoop` does in the single-threaded build.
- `getControllerRegisters` is a plain accessor. It is the `regs` field.
- `getQueueDoorbells` is left out. It computes `registers + sizeof(CONTROLLER_REGISTERS)` by pointer arithmetic. The struct's layout and size are defined in ControllerRegisters.h, which is not part of this model. The documented offset formula is modelled in `Doorbells` instead. The registers the source prints end with CMBSZ at 0x3C, which makes a 0x40-byte block. So the documented 0x1000 doorbell base agrees with `getQueueDoorbells` only if that header pads the struct to 0x1000 bytes.
- Field widths and reserved bits are not modelled. Most register fields are unbounded naturals. The single-bit flags are `bit`. CC.MPS and CAP.DSTRD are 4-bit (`uint4`), because the page size and stride depend on that. The reserved fields inside AQA, ASQ and ACQ, which the reset also restores, are not represented.
- `controllerResetInitiated` has no initial value in cNVMe/ControllerRegisters.cpp. Its initial value, if any, is set in ControllerRegisters.h, which is not part of this model. `Construct` takes it as the parameter `initialResetFlag`. The flag is never read while the pointer is null: checkForChanges and controllerReset test the pointer first (cNVMe/ControllerRegisters.cpp:257, 303).
- Logging (LOG_INFO, LOG_ERROR), `ASSERT`, `FAIL`/`FAIL_IF` and `DROP_TO_GDB` are diagnostics and debugging hooks, not behaviour.
- The body of `Controller->controllerResetCallback()` is a foreign call. It is modelled only as the `notifications` counter.
- Host writes are modelled as two events: writes of CC.EN and writes of the admin queue registers. Other raw host writes into the register memory are not modelled.
- ControllerRegisters.GetMemoryPageSize: `std::pow` is floating point and is modelled as an exact integer power of two. Whatever `ASSERT` does on a null block is not modelled; only the 0 it returns is.
- Types.OneBasedFromZeroBased: does not model the unsigned wrap-around of `n + 1` at the argument type's maximum (a UINT_32 0xFFFFFFFF gives 0), because the model's integers are unbounded. Its argument is taken as one value; the macro does not parenthesise `number`, so an argument such as `v & 0xFFFF` expands to `v & 0x10000`.
- Types.BytesFromDwords: does not model `size_t` wrap-around of `k * 4` for k ≥ 2^62, because the model's integers are unbounded. `r / 4 == k` and `DwordsBytesRoundTrip` hold only below that bound. The unparenthesised argument is the finding below.
- Types.ZeroBasedFromOneBased: does not model the unsigned wrap-around of `0 - 1`, because only one-based inputs are meaningful; it requires n ≥ 1. Its argument is taken as one value; the macro does not parenthesise `number`, so an argument with an operator that binds more loosely than `-` (`<<`, `&`, `?:`) expands differently.
- Types.DwordsFromBytes: does not model `size_t` overflow of `n + 3` for n within 3 of the maximum, because the model's integers are unbounded. Its argument is taken as one value; the macro does not parenthesise `number`, so `DWORDS_FROM_BYTES(1 << 4)` expands to `(1 << 7) / 4` = 32 rather than 4.
- Types.MemcpyS: does not detect overlapping buffers. The source does not check for them, and dest and src are separate values here. The buffer-length requires are the C caller's obligations. `errno_t` values use the Linux numbers (EINVAL 22, ERANGE 34) from errno.h, which is not part of this model.
- The other Types.h macros (the address/pointer conversion macros at cNVMe/Types.h:78-80 and `ALLOC_BYTE_ARRAY`) and the integer typedefs are pointer casts and allocation, and are not modelled.

## Findings

| source | as written | input that shows it | evidently intended | confidence | as-written member | corrected member |
|---|---|---|---|---|---|---|
| cNVMe/Types.h:89 | `BYTES_FROM_DWORDS(number)` expands to `(number * sizeof(UINT_32))` without parentheses around `number` | `BYTES_FROM_DWORDS(k + 1)` with k = 1 expands to `1 + 1 * 4` = 5 | `((number) * sizeof(UINT_32))`, i.e. 4·(k+1) = 8 | low: not executed; it only matters at a call site that passes a compound argument, and no call site is part of this model | `Types.BytesFromDwordsOfSumAsWritten`, `Types.BytesFromDwordsOfSumCounterexample` | `Types.BytesFromDwords`, `Types.BytesFromDwordsOfSum` |
