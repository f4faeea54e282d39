/**
 * The controller register block of section 3.1 of the NVM Express Base
 * Specification, revision 1.3 ("Controller Registers"), as an immutable
 * record. Each register is a record of its named fields; reserved bits are
 * not represented. Fields are unbounded naturals except the single-bit flags
 * and the two 4-bit fields (CC.MPS, CAP.DSTRD) that the page-size and
 * doorbell-stride arithmetic depend on.
 */
module Registers {

  /** A one-bit register field. */
  type bit = x: nat | x < 2

  /** A four-bit register field. */
  type uint4 = x: nat | x < 16

  /** Controller Capabilities (CAP, offset 0x00). */
  datatype Capabilities = Capabilities(
    mqes: nat,     // Maximum Queue Entries Supported (zero based)
    cqr: bit,      // Contiguous Queues Required
    ams: nat,      // Arbitration Mechanism Supported
    to: nat,       // Timeout, in 500 ms units
    dstrd: uint4,  // Doorbell Stride
    nssrs: bit,    // NVM Subsystem Reset Supported
    css: nat,      // Command Sets Supported
    mpsmin: nat,   // Memory Page Size Minimum
    mpsmax: nat    // Memory Page Size Maximum
  )

  /** Version (VS, offset 0x08). */
  datatype Version = Version(mjr: nat, mnr: nat, ter: nat)

  /** Interrupt Mask Set (INTMS, offset 0x0C). */
  datatype InterruptMaskSet = InterruptMaskSet(ivms: nat)

  /** Interrupt Mask Clear (INTMC, offset 0x10). */
  datatype InterruptMaskClear = InterruptMaskClear(ivmc: nat)

  /** Controller Configuration (CC, offset 0x14). */
  datatype Configuration = Configuration(
    en: bit,      // Enable
    css: nat,     // I/O Command Set Selected
    mps: uint4,   // Memory Page Size: 2^(12 + MPS) bytes
    ams: nat,     // Arbitration Mechanism Selected
    shn: nat,     // Shutdown Notification
    iosqes: nat,  // I/O Submission Queue Entry Size
    iocqes: nat   // I/O Completion Queue Entry Size
  )

  /** Controller Status (CSTS, offset 0x1C). */
  datatype Status = Status(
    rdy: bit,    // Ready
    cfs: bit,    // Controller Fatal Status
    shst: nat,   // Shutdown Status
    nssro: bit,  // NVM Subsystem Reset Occurred
    pp: bit      // Processing Paused
  )

  /** NVM Subsystem Reset (NSSR, offset 0x20). */
  datatype SubsystemReset = SubsystemReset(nssrc: nat)

  /** Admin Queue Attributes (AQA, offset 0x24). */
  datatype AdminQueueAttributes = AdminQueueAttributes(asqs: nat, acqs: nat)

  /** Admin Submission Queue Base Address (ASQ, offset 0x28). */
  datatype AdminSubmissionQueueBase = AdminSubmissionQueueBase(asqb: nat)

  /** Admin Completion Queue Base Address (ACQ, offset 0x30). */
  datatype AdminCompletionQueueBase = AdminCompletionQueueBase(acqb: nat)

  /** Controller Memory Buffer Location (CMBLOC, offset 0x38). */
  datatype MemoryBufferLocation = MemoryBufferLocation(bir: nat, ofst: nat)

  /** Controller Memory Buffer Size (CMBSZ, offset 0x3C). */
  datatype MemoryBufferSize = MemoryBufferSize(sqs: bit, cqs: bit, lists: bit, rds: bit, wds: bit, szu: nat, sz: nat)

  /** The whole fixed register block, in offset order. */
  datatype RegisterBlock = RegisterBlock(
    cap: Capabilities,
    vs: Version,
    intms: InterruptMaskSet,
    intmc: InterruptMaskClear,
    cc: Configuration,
    csts: Status,
    nssr: SubsystemReset,
    aqa: AdminQueueAttributes,
    asq: AdminSubmissionQueueBase,
    acq: AdminCompletionQueueBase,
    cmbloc: MemoryBufferLocation,
    cmbsz: MemoryBufferSize
  )

  /** The register block after `memset(block, 0, sizeof(CONTROLLER_REGISTERS))`. */
  const ZeroBlock: RegisterBlock := RegisterBlock(
    Capabilities(0, 0, 0, 0, 0, 0, 0, 0, 0),
    Version(0, 0, 0),
    InterruptMaskSet(0),
    InterruptMaskClear(0),
    Configuration(0, 0, 0, 0, 0, 0, 0),
    Status(0, 0, 0, 0, 0),
    SubsystemReset(0),
    AdminQueueAttributes(0, 0),
    AdminSubmissionQueueBase(0),
    AdminCompletionQueueBase(0),
    MemoryBufferLocation(0, 0),
    MemoryBufferSize(0, 0, 0, 0, 0, 0, 0)
  )

  /** The admin queue pair registers (AQA, ASQ, ACQ) agree in a and b. */
  predicate SameAdminQueue(a: RegisterBlock, b: RegisterBlock) {
    a.aqa == b.aqa && a.asq == b.asq && a.acq == b.acq
  }

  /**
   * The capabilities and version this controller advertises: the NVM command
   * set, subsystem reset, contiguous queues, 0xFFFF + 1 queue entries, 4 KiB
   * pages only, a 16 second timeout, and NVMe 1.3.0.
   */
  predicate AdvertisesCapabilities(b: RegisterBlock) {
    && b.cap.mpsmax == 0
    && b.cap.mpsmin == 0
    && b.cap.css == 1
    && b.cap.nssrs == 1
    && b.cap.to == 32
    && b.cap.mqes == 0xFFFF
    && b.cap.cqr == 1
    && b.vs.mjr == 1
    && b.vs.mnr == 3
    && b.vs.ter == 0
  }

  /** Every field a reset does not write explicitly or restore is zero. */
  predicate OtherFieldsZero(b: RegisterBlock) {
    && b.cap.ams == 0
    && b.cap.dstrd == 0
    && b.intms.ivms == 0
    && b.intmc.ivmc == 0
    && b.cc.en == 0 && b.cc.css == 0 && b.cc.mps == 0 && b.cc.ams == 0
    && b.cc.shn == 0 && b.cc.iosqes == 0 && b.cc.iocqes == 0
    && b.csts.rdy == 0 && b.csts.cfs == 0 && b.csts.shst == 0 && b.csts.nssro == 0 && b.csts.pp == 0
    && b.nssr.nssrc == 0
    && b.cmbloc.bir == 0 && b.cmbloc.ofst == 0
    && b.cmbsz.sqs == 0 && b.cmbsz.cqs == 0 && b.cmbsz.lists == 0 && b.cmbsz.rds == 0
    && b.cmbsz.wds == 0 && b.cmbsz.szu == 0 && b.cmbsz.sz == 0
  }

  /** `after` is the register image a controller-level reset leaves behind when the block held `before`. */
  predicate IsResetImage(after: RegisterBlock, before: RegisterBlock) {
    SameAdminQueue(after, before) && AdvertisesCapabilities(after) && OtherFieldsZero(after)
  }

  /** At most one register image is a reset image of a given block. */
  lemma ResetImageUnique(a: RegisterBlock, b: RegisterBlock, before: RegisterBlock)
    requires IsResetImage(a, before) && IsResetImage(b, before)
    ensures a == b
  {
  }
}
