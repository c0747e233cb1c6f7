/**
 * What the Arm documents say, independently of the monitor: how an exception syndrome is
 * packed, how system registers are numbered and what they are for, the bits of a timer
 * control register, and the functions of the power state interface (Arm DEN 0022).
 */
module ArmArchitecture {
  function Power2(n: nat): (p: nat)
    ensures p > 0
  {
    if n == 0 then 1 else 2 * Power2(n - 1)
  }

  // The syndrome of an exception: its class in bits 26 to 31, its details below.

  function Syndrome(upper: nat, ec: nat, il: nat, iss: nat): nat {
    0x1_0000_0000 * upper + 0x400_0000 * ec + 0x200_0000 * il + iss
  }

  /** The details of a data abort: valid, size, sign, register, flags, direction, status. */
  function AbortDetails(isv: nat, sas: nat, sse: nat, srt: nat, flags: nat, wnr: nat, low: nat): nat {
    0x100_0000 * isv + 0x40_0000 * sas + 0x20_0000 * sse + 0x1_0000 * srt + 0x80 * flags + 0x40 * wnr + low
  }

  /** The details of a trapped access to a system register. */
  function SysregDetails(top: nat, op0: nat, op2: nat, op1: nat, crn: nat, rt: nat, crm: nat, isRead: nat): nat {
    0x40_0000 * top + 0x10_0000 * op0 + 0x2_0000 * op2 + 0x4000 * op1 + 0x400 * crn + 0x20 * rt + 2 * crm + isRead
  }

  // System registers, by their encoding.

  function Sysreg(op0: nat, op1: nat, crn: nat, crm: nat, op2: nat): nat {
    0x4000 * op0 + 0x800 * op1 + 0x80 * crn + 8 * crm + op2
  }

  /** SCTLR, ACTLR, CPACR, CSSELR. */
  predicate IsControl(r: nat) {
    || r == Sysreg(3, 0, 1, 0, 0) || r == Sysreg(3, 0, 1, 0, 1) || r == Sysreg(3, 0, 1, 0, 2)
    || r == Sysreg(3, 2, 0, 0, 0)
  }

  /** TTBR0, TTBR1, TCR, PAR, MAIR, AMAIR, CONTEXTIDR. */
  predicate IsTranslation(r: nat) {
    || r == Sysreg(3, 0, 2, 0, 0) || r == Sysreg(3, 0, 2, 0, 1) || r == Sysreg(3, 0, 2, 0, 2)
    || r == Sysreg(3, 0, 7, 4, 0) || r == Sysreg(3, 0, 10, 2, 0) || r == Sysreg(3, 0, 10, 3, 0)
    || r == Sysreg(3, 0, 13, 0, 1)
  }

  /** The halves of the five pointer authentication keys. */
  predicate IsKey(r: nat) {
    || r == Sysreg(3, 0, 2, 1, 0) || r == Sysreg(3, 0, 2, 1, 1) || r == Sysreg(3, 0, 2, 1, 2)
    || r == Sysreg(3, 0, 2, 1, 3) || r == Sysreg(3, 0, 2, 2, 0) || r == Sysreg(3, 0, 2, 2, 1)
    || r == Sysreg(3, 0, 2, 2, 2) || r == Sysreg(3, 0, 2, 2, 3) || r == Sysreg(3, 0, 2, 3, 0)
    || r == Sysreg(3, 0, 2, 3, 1)
  }

  /** SPSR, ELR, SP_EL0, SP_EL1, AFSR0, AFSR1, ESR, FAR, VBAR. */
  predicate IsException(r: nat) {
    || r == Sysreg(3, 0, 4, 0, 0) || r == Sysreg(3, 0, 4, 0, 1) || r == Sysreg(3, 0, 4, 1, 0)
    || r == Sysreg(3, 4, 4, 1, 0) || r == Sysreg(3, 0, 5, 1, 0) || r == Sysreg(3, 0, 5, 1, 1)
    || r == Sysreg(3, 0, 5, 2, 0) || r == Sysreg(3, 0, 6, 0, 0) || r == Sysreg(3, 0, 12, 0, 0)
  }

  /** TPIDR_EL1, TPIDR_EL0, TPIDRRO_EL0. */
  predicate IsThread(r: nat) {
    r == Sysreg(3, 0, 13, 0, 4) || r == Sysreg(3, 3, 13, 0, 2) || r == Sysreg(3, 3, 13, 0, 3)
  }

  const CNTV_CTL_EL0 := Sysreg(3, 3, 14, 3, 1)
  const CNTV_CVAL_EL0 := Sysreg(3, 3, 14, 3, 2)

  /** CNTKCTL, and control and compare value of the virtual and the physical timer. */
  predicate IsTimer(r: nat) {
    || r == Sysreg(3, 0, 14, 1, 0) || r == CNTV_CTL_EL0 || r == CNTV_CVAL_EL0
    || r == Sysreg(3, 3, 14, 2, 1) || r == Sysreg(3, 3, 14, 2, 2)
  }

  /** CNTHCTL, CNTHP_CTL, CNTHP_CVAL, CNTVOFF, CPTR, HCR, MDCR, SCTLR, TPIDR, VMPIDR, VPIDR of EL2. */
  predicate IsHypervisorControl(r: nat) {
    || r == Sysreg(3, 4, 14, 1, 0) || r == Sysreg(3, 4, 14, 2, 1) || r == Sysreg(3, 4, 14, 2, 2)
    || r == Sysreg(3, 4, 14, 0, 3) || r == Sysreg(3, 4, 1, 1, 2) || r == Sysreg(3, 4, 1, 1, 0)
    || r == Sysreg(3, 4, 1, 1, 1) || r == Sysreg(3, 4, 1, 0, 0) || r == Sysreg(3, 4, 13, 0, 2)
    || r == Sysreg(3, 4, 0, 0, 5) || r == Sysreg(3, 4, 0, 0, 0)
  }

  /** ELR, SPSR, SP, ESR, FAR, HPFAR, VBAR, MAIR, TCR, TTBR0, TTBR1, VTCR, VTTBR of EL2. */
  predicate IsHypervisorMemory(r: nat) {
    || r == Sysreg(3, 4, 4, 0, 1) || r == Sysreg(3, 4, 4, 0, 0) || r == Sysreg(3, 6, 4, 1, 0)
    || r == Sysreg(3, 4, 5, 2, 0) || r == Sysreg(3, 4, 6, 0, 0) || r == Sysreg(3, 4, 6, 0, 4)
    || r == Sysreg(3, 4, 12, 0, 0) || r == Sysreg(3, 4, 10, 2, 0) || r == Sysreg(3, 4, 2, 0, 2)
    || r == Sysreg(3, 4, 2, 0, 0) || r == Sysreg(3, 4, 2, 0, 1) || r == Sysreg(3, 4, 2, 1, 2)
    || r == Sysreg(3, 4, 2, 1, 0)
  }

  /** The system registers that make up a guest, and its hypervisor if it has one. */
  predicate IsGuestState(r: nat, nested: bool) {
    || IsControl(r) || IsTranslation(r) || IsKey(r) || IsException(r) || IsThread(r) || IsTimer(r)
    || (nested && (IsHypervisorControl(r) || IsHypervisorMemory(r)))
  }

  /** The debug registers are those with an `op0` of 2. */
  predicate IsDebug(r: nat) {
    Sysreg(2, 0, 0, 0, 0) <= r < Sysreg(3, 0, 0, 0, 0)
  }

  // The interrupt controller's processor interface.

  /** CTLR, PMR, BPR0, BPR1, AP0R0, AP1R0. */
  predicate IsPriority(r: nat) {
    || r == Sysreg(3, 0, 12, 12, 4) || r == Sysreg(3, 0, 4, 6, 0) || r == Sysreg(3, 0, 12, 8, 3)
    || r == Sysreg(3, 0, 12, 12, 3) || r == Sysreg(3, 0, 12, 8, 4) || r == Sysreg(3, 0, 12, 9, 0)
  }

  /** SRE, IGRPEN0, IGRPEN1. */
  predicate IsEnable(r: nat) {
    r == Sysreg(3, 0, 12, 12, 5) || r == Sysreg(3, 0, 12, 12, 6) || r == Sysreg(3, 0, 12, 12, 7)
  }

  predicate IsInterface(r: nat, nested: bool) {
    IsPriority(r) || IsEnable(r) || (nested && r == Sysreg(3, 4, 12, 9, 5))
  }

  const ICH_HCR_EL2 := Sysreg(3, 4, 12, 11, 0)
  const ICH_VTR_EL2 := Sysreg(3, 4, 12, 11, 1)

  /** The virtual interface: AP0R0, AP1R0, VMCR, HCR and the list registers there are. */
  predicate IsVirtualInterface(r: nat, nested: bool, count: nat) {
    && nested
    && (|| r == Sysreg(3, 4, 12, 8, 0) || r == Sysreg(3, 4, 12, 9, 0) || r == Sysreg(3, 4, 12, 11, 7)
        || r == ICH_HCR_EL2 || Sysreg(3, 4, 12, 12, 0) <= r < Sysreg(3, 4, 12, 12, 0) + count)
  }

  // Timer control: bit 0 enables, bit 1 masks, bit 2 says the condition is met.

  predicate Enabled(ctl: nat) {
    ctl % 2 == 1 && (ctl / 2) % 2 == 0
  }

  predicate Firing(ctl: nat) {
    Enabled(ctl) && (ctl / 4) % 2 == 1
  }

  // The power state interface.

  datatype Service = Version | Off | On | Affinity | MigrateType | SystemOff | SystemReset | Unknown

  /** The service behind a function number; calls with bit 30 pass 64-bit arguments. */
  function ServiceOf(f: nat): Service {
    match f
    case 0x8400_0000 => Version
    case 0x8400_0002 => Off
    case 0xc400_0003 => On
    case 0x8400_0004 => Affinity
    case 0xc400_0004 => Affinity
    case 0x8400_0006 => MigrateType
    case 0x8400_0008 => SystemOff
    case 0x8400_0009 => SystemReset
    case _ => Unknown
  }
}
