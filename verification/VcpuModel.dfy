/**
 * One vCPU under Hypervisor.framework: the registers the framework holds, the fields the
 * monitor keeps beside them, and what one call of `run` does to both.
 *
 * The guest is unknown code, so a `World` carries it as a function from the registers at
 * guest entry to the registers and the stop reason at guest exit.
 */
module VcpuModel {
  import opened Options
  import opened LittleEndian

  type Regs = map<nat, nat>

  const X0: nat := 0
  const X1: nat := 1
  const X2: nat := 2
  const X3: nat := 3
  const PC: nat := 31
  const CPSR: nat := 34
  const ZERO_REGISTER: nat := 31
  const CNTV_CTL: nat := 57113
  const CNTV_CVAL: nat := 57114
  const WORD: nat := 0x1_0000_0000_0000_0000

  const REASON_CANCELED: nat := 0
  const REASON_EXCEPTION: nat := 1
  const REASON_VTIMER: nat := 2

  /** What the framework holds for one vCPU. `mask` suppresses timer notifications. */
  datatype Cpu = Cpu(general: Regs, simd: Regs, system: Regs, icc: Regs, ich: Regs,
                     irq: bool, fiq: bool, mask: bool, offset: nat)

  datatype Load = Load(address: nat, len: nat, srt: nat)

  datatype Vcpu = Vcpu(cpu: Cpu, buf: seq<nat>, load: Option<Load>, advance: bool,
                       masked: bool, nested: bool, cntfrq: nat)

  datatype Stop = Stop(reason: nat, syndrome: nat, address: nat)

  /** Everything one `run` takes from outside: interrupts, the guest, the callbacks, the clock. */
  datatype World = World(irq: bool, guest: Cpu -> (Cpu, Stop),
                         read: nat -> Option<nat>, write: (nat, nat) -> bool, now: nat)

  datatype Exit =
    | AffinityInfo(mpidr: nat)
    | Breakpoint
    | Canceled
    | CpuOff
    | CpuOn(target: nat, entry: nat, context: nat)
    | MmioRead(address: nat, len: nat)
    | MmioWrite(address: nat, bytes: seq<nat>)
    | PsciHandled
    | Shutdown
    | SystemRegister
    | VtimerActivated
    | WaitForEvent
    | WaitForEventExpired
    | WaitForEventTimeout(nanos: nat)

  /** A call `run` makes into the interrupt controller on its way out. */
  datatype Call = RaiseTimer | ReadSysreg(reg: nat) | WriteSysreg(reg: nat, val: nat)

  datatype Outcome = Returns(exit: Exit, calls: seq<Call>) | Panics

  function Get(m: Regs, r: nat): nat {
    if r in m then m[r] else 0
  }

  function SetGeneral(c: Cpu, r: nat, v: nat): Cpu {
    c.(general := c.general[r := v])
  }

  // Decoding the syndrome of an exception.

  datatype Trap =
    | Brk
    | DataLoad(load: Load)
    | DataStore(address: nat, len: nat, srt: nat)
    | SysregRead(reg: nat, rt: nat)
    | SysregWrite(reg: nat, rt: nat)
    | Wfx
    | Hvc
    | Smc
    | Unexpected

  function AccessLen(sas: nat): (len: nat)
    requires sas < 4
    ensures len in {1, 2, 4, 8}
  {
    if sas == 0 then 1 else if sas == 1 then 2 else if sas == 2 then 4 else 8
  }

  /** The system-register name in a trap: everything but the target register and direction. */
  function SysregName(s: nat): nat {
    1024 * ((s / 1024) % 4096) + 2 * ((s / 2) % 16)
  }

  function Decode(s: nat, address: nat): Trap {
    var ec := (s / 0x400_0000) % 64;
    if ec == 0x3c then Brk
    else if ec == 0x24 then
      var len := AccessLen((s / 0x40_0000) % 4);
      var srt := (s / 0x1_0000) % 32;
      if (s / 64) % 2 == 1 then DataStore(address, len, srt)
      else DataLoad(Load(address, len, srt))
    else if ec == 0x18 then
      var rt := (s / 32) % 32;
      if s % 2 == 1 then SysregRead(SysregName(s), rt) else SysregWrite(SysregName(s), rt)
    else if ec == 0x1 then Wfx
    else if ec == 0x16 then Hvc
    else if ec == 0x17 then Smc
    else Unexpected
  }

  // Entering the guest.

  predicate Valid(v: Vcpu) {
    && |v.buf| == 8
    && (v.load.Some? ==> v.load.value.len in {1, 2, 4, 8})
  }

  /** Completes the load of the last exit from the bytes the device left in the buffer. */
  function Deliver(v: Vcpu): (r: Vcpu)
    requires Valid(v)
  {
    match v.load
    case None => v
    case Some(l) =>
      var value := LeValue(v.buf[..l.len]);
      v.(load := None, cpu := if l.srt < ZERO_REGISTER then SetGeneral(v.cpu, l.srt, value) else v.cpu)
  }

  function Skip(c: Cpu): Cpu {
    SetGeneral(c, PC, (Get(c.general, PC) + 4) % WORD)
  }

  function Advance(v: Vcpu): Vcpu {
    if v.advance then v.(cpu := Skip(v.cpu), advance := false) else v
  }

  function Inject(c: Cpu, irq: bool): Cpu {
    if irq then c.(irq := true) else c
  }

  /** The vCPU at the moment the guest starts to execute. */
  function Enter(v: Vcpu, irq: bool): Vcpu
    requires Valid(v)
  {
    var s := Advance(Deliver(v));
    s.(cpu := Inject(s.cpu, irq))
  }

  // Leaving the guest.

  predicate TimerFiring(c: Cpu) {
    Get(c.system, CNTV_CTL) % 8 == 5
  }

  function SyncTimer(v: Vcpu): Vcpu {
    if v.masked && !TimerFiring(v.cpu) then v.(cpu := v.cpu.(mask := false), masked := false) else v
  }

  function StoredValue(c: Cpu, srt: nat): nat {
    if srt < ZERO_REGISTER then Get(c.general, srt) else 0
  }

  /** A PSCI request: it reads X0 to X3 and writes at most X0. */
  function Psci(c: Cpu): (r: (Cpu, Option<Exit>))
    ensures r.0 == c.(general := r.0.general)
    ensures forall r0 :: r0 != X0 ==> Get(r.0.general, r0) == Get(c.general, r0)
    ensures r.1.Some? ==> !r.1.value.MmioRead? && !r.1.value.MmioWrite?
  {
    var f := Get(c.general, X0);
    if f == 0x8400_0000 || f == 0x8400_0006 then (SetGeneral(c, X0, 2), Some(PsciHandled))
    else if f == 0x8400_0002 then (c, Some(CpuOff))
    else if f == 0x8400_0004 || f == 0xc400_0004 then (c, Some(AffinityInfo(Get(c.general, X1))))
    else if f == 0x8400_0008 || f == 0x8400_0009 then (c, Some(Shutdown))
    else if f == 0xc400_0003 then
      (SetGeneral(c, X0, 0),
       Some(CpuOn(Get(c.general, X1), Get(c.general, X2), Get(c.general, X3))))
    else (c, None)
  }

  function Nanos(ticks: nat, cntfrq: nat): nat
    requires cntfrq > 0
  {
    ticks * (1_000_000_000 / cntfrq)
  }

  function Waiting(c: Cpu, cntfrq: nat, now: nat): (r: Option<Exit>)
    ensures r.Some? ==> r.value.WaitForEvent? || r.value.WaitForEventExpired? || r.value.WaitForEventTimeout?
  {
    var ctl := Get(c.system, CNTV_CTL);
    var cval := Get(c.system, CNTV_CVAL);
    if ctl % 2 == 0 || (ctl / 2) % 2 == 1 then Some(WaitForEvent)
    else if now > cval then Some(WaitForEventExpired)
    else if cntfrq == 0 then None
    else Some(WaitForEventTimeout(Nanos(cval - now, cntfrq)))
  }

  function Finish(exit: Option<Exit>, calls: seq<Call>): Outcome {
    if exit.Some? then Returns(exit.value, calls) else Panics
  }

  /** Handles a decoded exception; whatever has to wait for the next entry is left pending. */
  function Handle(v: Vcpu, t: Trap, w: World, calls: seq<Call>): (r: (Vcpu, Outcome))
    requires Valid(v)
    requires t.DataLoad? ==> t.load.len in {1, 2, 4, 8}
    requires t.DataStore? ==> t.len in {1, 2, 4, 8}
    ensures Valid(r.0)
    ensures r.1.Returns? && r.1.exit.MmioRead? ==> r.1.exit.len in {1, 2, 4, 8}
  {
    match t
    case Brk => (v, Returns(Breakpoint, calls))
    case DataLoad(l) =>
      (v.(advance := true, load := Some(l)), Returns(MmioRead(l.address, l.len), calls))
    case DataStore(address, len, srt) =>
      var bytes := LeBytes(StoredValue(v.cpu, srt), len);
      (v.(advance := true, buf := bytes + v.buf[len..]), Returns(MmioWrite(address, bytes), calls))
    case SysregRead(reg, rt) =>
      var waiting := v.(advance := true);
      if rt == ZERO_REGISTER then (waiting, Returns(SystemRegister, calls))
      else
        var answer := w.read(reg);
        if answer.None? then (waiting, Panics)
        else (waiting.(cpu := SetGeneral(v.cpu, rt, answer.value)),
              Returns(SystemRegister, calls + [ReadSysreg(reg)]))
    case SysregWrite(reg, rt) =>
      var val := StoredValue(v.cpu, rt);
      (v.(advance := true),
       if w.write(reg, val) then Returns(SystemRegister, calls + [WriteSysreg(reg, val)]) else Panics)
    case Wfx => (v.(advance := true), Finish(Waiting(v.cpu, v.cntfrq, w.now), calls))
    case Hvc =>
      var (c, exit) := Psci(v.cpu);
      (v.(cpu := c), Finish(exit, calls))
    case Smc =>
      var (c, exit) := Psci(v.cpu);
      (v.(cpu := c, advance := true), Finish(exit, calls))
    case Unexpected => (v, Panics)
  }

  function Leave(v: Vcpu, stop: Stop, w: World): (r: (Vcpu, Outcome))
    requires Valid(v)
    ensures Valid(r.0)
    ensures r.1.Returns? && r.1.exit.MmioRead? ==> r.1.exit.len in {1, 2, 4, 8}
  {
    if stop.reason == REASON_VTIMER then (v.(masked := true), Returns(VtimerActivated, []))
    else if stop.reason == REASON_CANCELED then (v, Returns(Canceled, []))
    else if stop.reason != REASON_EXCEPTION then (v, Panics)
    else Handle(SyncTimer(v), Decode(stop.syndrome, stop.address), w,
                if v.masked then [RaiseTimer] else [])
  }

  function Run(v: Vcpu, w: World): (r: (Vcpu, Outcome))
    requires Valid(v)
    ensures Valid(r.0)
    ensures r.1.Returns? && r.1.exit.MmioRead? ==> r.1.exit.len in {1, 2, 4, 8}
  {
    var inside := Enter(v, w.irq);
    var (c, stop) := w.guest(inside.cpu);
    Leave(inside.(cpu := c), stop, w)
  }

  // What the monitor may do between two runs.

  /** The monitor's answers: device bytes, whether a store is retried, PSCI affinity answers. */
  datatype Monitor = Monitor(device: (nat, nat) -> seq<nat>, retry: nat -> bool, affinity: nat -> nat)

  /** Every slice handed to a device comes back fully written. */
  ghost predicate Fills(m: Monitor) {
    forall address, len :: |m.device(address, len)| == len && Octets(m.device(address, len))
  }

  function Retry(v: Vcpu): Vcpu {
    v.(advance := false)
  }

  function Answer(v: Vcpu, exit: Exit, m: Monitor): (r: Vcpu)
    requires Valid(v)
    requires exit.MmioRead? ==> exit.len <= 8 && |m.device(exit.address, exit.len)| == exit.len
    ensures Valid(r)
  {
    match exit
    case MmioRead(address, len) => v.(buf := m.device(address, len) + v.buf[len..])
    case MmioWrite(address, _) => if m.retry(address) then Retry(v) else v
    case AffinityInfo(mpidr) => v.(cpu := SetGeneral(v.cpu, X0, m.affinity(mpidr)))
    case _ => v
  }
}
