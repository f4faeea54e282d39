/**
 * The register store of the simulated NVMe controller and its enable/reset
 * state machine: the controller-level reset, one poll of the change watcher,
 * the memory page size and construction. The store is an immutable record;
 * each operation returns the next state.
 */
module ControllerRegisters {
  import opened Wrappers
  import opened PowerOfTwo
  import opened Registers
  import Doorbells

  /** The page size for CC.MPS == 0. */
  const MIN_PAGE_SIZE: nat := 4096

  /**
   * The register store. `regs` is the register block the store overlays, None
   * when its pointer is null; `hasOwner` says whether an owning controller is
   * associated; `notifications` counts the reset callbacks delivered to it.
   */
  datatype ControllerState = ControllerState(
    regs: Option<RegisterBlock>,
    resetInitiated: bool,
    hasOwner: bool,
    notifications: nat
  )

  /**
   * The controller-level reset. With no register block it only logs an error.
   * Otherwise it marks a reset as in progress, clears the block while keeping
   * the admin queue registers, re-asserts the advertised capabilities and
   * version, and notifies the owner when there is one.
   */
  function ControllerReset(s: ControllerState): (r: ControllerState)
    ensures s.regs.None? ==> r == s
    ensures s.regs.Some? ==> r.regs.Some? && IsResetImage(r.regs.value, s.regs.value)
    ensures s.regs.Some? ==> r.resetInitiated
    ensures r.hasOwner == s.hasOwner
    ensures r.notifications == s.notifications + (if s.regs.Some? && s.hasOwner then 1 else 0)
  {
    if s.regs.None? then
      s
    else
      var before := s.regs.value;
      var aqa, asq, acq := before.aqa, before.asq, before.acq;
      var cleared := ZeroBlock;
      var constants := cleared.(
        cap := cleared.cap.(mpsmax := 0, mpsmin := 0, css := 1, nssrs := 1, to := 32, mqes := 0xFFFF, cqr := 1),
        vs := cleared.vs.(mjr := 1, mnr := 3, ter := 0));
      var restored := constants.(aqa := aqa, asq := asq, acq := acq);
      s.(regs := Some(restored),
         resetInitiated := true,
         notifications := if s.hasOwner then s.notifications + 1 else s.notifications)
  }

  /**
   * One poll of the change watcher. A cleared CC.EN outside a reset starts a
   * reset; a set CC.EN during a reset completes it and raises CSTS.RDY. The
   * second test reads the state the first one left.
   */
  function CheckForChanges(s: ControllerState): (r: ControllerState)
    ensures s.regs.None? ==> r == s
    ensures s.regs.Some? && s.regs.value.cc.en == 0 && !s.resetInitiated ==>
              r == ControllerReset(s)
    ensures s.regs.Some? && s.resetInitiated && s.regs.value.cc.en == 1 ==>
              r == s.(resetInitiated := false, regs := Some(s.regs.value.(csts := s.regs.value.csts.(rdy := 1))))
    ensures s.regs.Some? && ((s.regs.value.cc.en == 0 && s.resetInitiated) || (s.regs.value.cc.en == 1 && !s.resetInitiated)) ==>
              r == s
  {
    if s.regs.None? then
      s
    else
      var afterDisable := if s.regs.value.cc.en == 0 && !s.resetInitiated then ControllerReset(s) else s;
      var b := afterDisable.regs.value;
      if afterDisable.resetInitiated && b.cc.en == 1 then
        afterDisable.(resetInitiated := false, regs := Some(b.(csts := b.csts.(rdy := 1))))
      else
        afterDisable
  }

  /** getMemoryPageSize: 2^(12 + CC.MPS) bytes, or 0 with no register block. */
  function GetMemoryPageSize(s: ControllerState): (r: nat)
    ensures s.regs.None? ==> r == 0
    ensures s.regs.Some? ==> r == MIN_PAGE_SIZE * Pow2(s.regs.value.cc.mps)
    ensures s.regs.Some? ==> MIN_PAGE_SIZE <= r < 0x1_0000_0000
  {
    if s.regs.None? then
      0
    else
      var mps := s.regs.value.cc.mps;
      Pow2Add(12, mps);
      assert Pow2(12) == MIN_PAGE_SIZE;
      Pow2Monotone(mps, 15);
      assert Pow2(15) == 0x8000;
      Pow2(12 + mps)
  }

  /**
   * Construction over a block of memory, optionally followed by associating an
   * owner (the two-argument constructor delegates to the one-argument one, so
   * its reset runs before the owner is set). `initialResetFlag` is the reset
   * flag's value before that first reset.
   */
  function Construct(memory: Option<RegisterBlock>, owner: bool, initialResetFlag: bool): (r: ControllerState)
    ensures r.hasOwner == owner
    ensures r.notifications == 0
    ensures memory.Some? ==> r.regs.Some? && r.resetInitiated && IsResetImage(r.regs.value, memory.value)
    ensures memory.None? ==> r == ControllerState(None, initialResetFlag, owner, 0)
  {
    var unowned := ControllerState(memory, initialResetFlag, false, 0);
    ControllerReset(unowned).(hasOwner := owner)
  }

  // ---------------------------------------------------------------------------
  // The host side and runs of the state machine
  // ---------------------------------------------------------------------------

  /** Something that happens to the store: a watcher poll, or a host write into the register memory. */
  datatype Event =
    | Poll
    | HostSetEnable(en: bit)
    | HostSetAdminQueue(aqa: AdminQueueAttributes, asq: AdminSubmissionQueueBase, acq: AdminCompletionQueueBase)

  /** The state after one event. */
  function Step(s: ControllerState, e: Event): ControllerState {
    if s.regs.None? then
      s
    else
      var b := s.regs.value;
      match e
      case Poll => CheckForChanges(s)
      case HostSetEnable(en) => s.(regs := Some(b.(cc := b.cc.(en := en))))
      case HostSetAdminQueue(aqa, asq, acq) => s.(regs := Some(b.(aqa := aqa, asq := asq, acq := acq)))
  }

  /** The state after a sequence of events. */
  function Run(s: ControllerState, events: seq<Event>): ControllerState
    decreases |events|
  {
    if |events| == 0 then s else Run(Step(s, events[0]), events[1..])
  }

  /** The number of polls in a sequence of events. */
  function PollCount(events: seq<Event>): nat
    decreases |events|
  {
    if |events| == 0 then 0 else (if events[0] == Poll then 1 else 0) + PollCount(events[1..])
  }

  /**
   * The store's invariant: the block advertises its fixed capabilities, and
   * CSTS.RDY is 0 exactly while a reset is in progress.
   */
  predicate Consistent(s: ControllerState) {
    s.regs.Some? ==>
      && AdvertisesCapabilities(s.regs.value)
      && (s.resetInitiated <==> s.regs.value.csts.rdy == 0)
  }

  // ---------------------------------------------------------------------------
  // Properties of the reset
  // ---------------------------------------------------------------------------

  /** A reset leaves the store consistent, with RDY low and the reset in progress. */
  lemma ResetEstablishesConsistent(s: ControllerState)
    requires s.regs.Some?
    ensures Consistent(ControllerReset(s))
    ensures ControllerReset(s).regs.value.csts.rdy == 0
    ensures ControllerReset(s).regs.value.cc.en == 0
  {
  }

  /** Resetting twice leaves the same registers as resetting once. */
  lemma ResetRegistersIdempotent(s: ControllerState)
    ensures ControllerReset(ControllerReset(s)).regs == ControllerReset(s).regs
  {
  }

  /** The registers after a reset depend only on the admin queue registers before it. */
  lemma ResetDependsOnlyOnAdminQueue(s: ControllerState, t: ControllerState)
    requires s.regs.Some? && t.regs.Some? && SameAdminQueue(s.regs.value, t.regs.value)
    ensures ControllerReset(s).regs == ControllerReset(t).regs
  {
  }

  /** After a reset the controller uses 4 KiB pages, the only size its capabilities advertise. */
  lemma ResetPageSize(s: ControllerState)
    requires s.regs.Some?
    ensures GetMemoryPageSize(ControllerReset(s)) == MIN_PAGE_SIZE
  {
  }

  /** After a reset the doorbell stride is 4 bytes: the doorbells are packed. */
  lemma ResetDoorbellStride(s: ControllerState, y: nat)
    requires s.regs.Some?
    ensures Doorbells.Stride(ControllerReset(s).regs.value.cap.dstrd) == 4
    ensures Doorbells.TailDoorbellOffset(y, ControllerReset(s).regs.value.cap.dstrd) == 0x1000 + 8 * y
  {
  }

  // ---------------------------------------------------------------------------
  // Properties of the change watcher
  // ---------------------------------------------------------------------------

  /** When a poll starts a reset, the reset leaves CC.EN at 0, so the same poll does not also complete it. */
  lemma CheckForChangesBranchesExclusive(s: ControllerState)
    requires s.regs.Some? && s.regs.value.cc.en == 0 && !s.resetInitiated
    ensures ControllerReset(s).resetInitiated && ControllerReset(s).regs.value.cc.en == 0
    ensures CheckForChanges(s).regs.value.csts.rdy == 0
  {
  }

  /** A second poll with no host write in between changes nothing. */
  lemma CheckForChangesIdempotent(s: ControllerState)
    ensures CheckForChanges(CheckForChanges(s)) == CheckForChanges(s)
  {
  }

  /** A poll keeps the store consistent. */
  lemma CheckForChangesPreservesConsistent(s: ControllerState)
    requires Consistent(s)
    ensures Consistent(CheckForChanges(s))
  {
  }

  /** After a poll of a consistent store, CSTS.RDY is 1 exactly when CC.EN is 1. */
  lemma PolledReadyIffEnabled(s: ControllerState)
    requires Consistent(s) && s.regs.Some?
    ensures CheckForChanges(s).regs.Some?
    ensures CheckForChanges(s).regs.value.csts.rdy == 1 <==> CheckForChanges(s).regs.value.cc.en == 1
  {
  }

  /** A poll never alters the admin queue registers. */
  lemma CheckForChangesKeepsAdminQueue(s: ControllerState)
    requires s.regs.Some?
    ensures CheckForChanges(s).regs.Some?
    ensures SameAdminQueue(CheckForChanges(s).regs.value, s.regs.value)
  {
  }

  /** A freshly constructed store is consistent, and polling it before the host sets CC.EN leaves RDY at 0. */
  lemma ConstructedStoreIsNotReady(memory: RegisterBlock, owner: bool, initialResetFlag: bool)
    ensures Consistent(Construct(Some(memory), owner, initialResetFlag))
    ensures CheckForChanges(Construct(Some(memory), owner, initialResetFlag)) == Construct(Some(memory), owner, initialResetFlag)
    ensures Construct(Some(memory), owner, initialResetFlag).regs.value.csts.rdy == 0
  {
  }

  /**
   * The host's disable/re-enable sequence on a ready controller: clearing
   * CC.EN makes the next poll drop RDY and start a reset; setting it again
   * makes the next poll raise RDY. The admin queue survives, and the owner
   * hears of exactly one reset.
   */
  lemma DisableThenEnable(s: ControllerState)
    requires Consistent(s) && s.regs.Some? && s.regs.value.cc.en == 1 && s.regs.value.csts.rdy == 1
    ensures Run(s, [HostSetEnable(0), Poll]).regs.Some?
    ensures Run(s, [HostSetEnable(0), Poll]).regs.value.csts.rdy == 0
    ensures Run(s, [HostSetEnable(0), Poll]).resetInitiated
    ensures SameAdminQueue(Run(s, [HostSetEnable(0), Poll]).regs.value, s.regs.value)
    ensures Run(s, [HostSetEnable(0), Poll, HostSetEnable(1), Poll]).regs.Some?
    ensures Run(s, [HostSetEnable(0), Poll, HostSetEnable(1), Poll]).regs.value.csts.rdy == 1
    ensures !Run(s, [HostSetEnable(0), Poll, HostSetEnable(1), Poll]).resetInitiated
    ensures SameAdminQueue(Run(s, [HostSetEnable(0), Poll, HostSetEnable(1), Poll]).regs.value, s.regs.value)
    ensures Run(s, [HostSetEnable(0), Poll, HostSetEnable(1), Poll]).notifications ==
              s.notifications + (if s.hasOwner then 1 else 0)
  {
  }

  // ---------------------------------------------------------------------------
  // Properties of runs
  // ---------------------------------------------------------------------------

  /** Every event keeps the store consistent. */
  lemma StepPreservesConsistent(s: ControllerState, e: Event)
    requires Consistent(s)
    ensures Consistent(Step(s, e))
  {
  }

  /** Any run from a consistent store stays consistent. */
  lemma {:induction false} RunPreservesConsistent(s: ControllerState, events: seq<Event>)
    requires Consistent(s)
    ensures Consistent(Run(s, events))
    decreases |events|
  {
    if |events| > 0 {
      StepPreservesConsistent(s, events[0]);
      RunPreservesConsistent(Step(s, events[0]), events[1..]);
    }
  }

  /** Only the host changes the admin queue registers: a run without such writes keeps them. */
  lemma {:induction false} RunKeepsAdminQueue(s: ControllerState, events: seq<Event>)
    requires s.regs.Some?
    requires forall i :: 0 <= i < |events| ==> !events[i].HostSetAdminQueue?
    ensures Run(s, events).regs.Some?
    ensures SameAdminQueue(Run(s, events).regs.value, s.regs.value)
    decreases |events|
  {
    if |events| > 0 {
      if events[0] == Poll {
        CheckForChangesKeepsAdminQueue(s);
      }
      RunKeepsAdminQueue(Step(s, events[0]), events[1..]);
    }
  }

  /** The owner is notified at most once per poll, and a store without an owner never notifies. */
  lemma {:induction false} RunNotifications(s: ControllerState, events: seq<Event>)
    ensures s.notifications <= Run(s, events).notifications <= s.notifications + PollCount(events)
    ensures !s.hasOwner ==> Run(s, events).notifications == s.notifications
    ensures Run(s, events).hasOwner == s.hasOwner
    decreases |events|
  {
    if |events| > 0 {
      RunNotifications(Step(s, events[0]), events[1..]);
    }
  }

  // ---------------------------------------------------------------------------
  // Properties of the memory page size
  // ---------------------------------------------------------------------------

  /** MPS 0 gives 4096-byte pages and MPS 1 gives 8192-byte pages. */
  lemma MemoryPageSizeExamples(s: ControllerState)
    requires s.regs.Some?
    ensures s.regs.value.cc.mps == 0 ==> GetMemoryPageSize(s) == 4096
    ensures s.regs.value.cc.mps == 1 ==> GetMemoryPageSize(s) == 8192
  {
  }

  /** Each increment of MPS doubles the page size. */
  lemma MemoryPageSizeDoubles(s: ControllerState)
    requires s.regs.Some? && s.regs.value.cc.mps < 15
    ensures GetMemoryPageSize(s.(regs := Some(s.regs.value.(cc := s.regs.value.cc.(mps := s.regs.value.cc.mps + 1))))) ==
              2 * GetMemoryPageSize(s)
  {
  }

  /** The page size determines MPS: its base-two logarithm is 12 + MPS. */
  lemma MemoryPageSizeDeterminesMps(s: ControllerState)
    requires s.regs.Some?
    ensures GetMemoryPageSize(s) >= 1
    ensures Log2(GetMemoryPageSize(s)) == 12 + s.regs.value.cc.mps
  {
    Pow2Add(12, s.regs.value.cc.mps);
    Log2Pow2(12 + s.regs.value.cc.mps);
  }
}
