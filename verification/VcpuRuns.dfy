/**
 * Whole runs of a vCPU. The code completes a trapped instruction only at the next guest
 * entry: the load value, and the step of the program counter past the instruction, are left
 * pending in between. The reference machine here has no pending state at all: it emulates
 * the instruction in one go. Every run of the code shows the guest what the reference shows.
 */
module VcpuRuns {
  import opened Options
  import opened LittleEndian
  import opened ArmArchitecture
  import opened VcpuModel

  datatype Turn = Turn(world: World, monitor: Monitor)

  /**
   * The framework's side of the bargain: it masks the timer when it reports the timer, and
   * otherwise leaves the mask alone.
   */
  ghost predicate Honest(w: World) {
    forall c :: var (d, stop) := w.guest(c);
      d.mask == (if stop.reason == 2 then true else c.mask)
  }

  ghost predicate Fair(t: Turn) {
    Honest(t.world) && Fills(t.monitor)
  }

  ghost predicate AllFair(turns: seq<Turn>) {
    forall i :: 0 <= i < |turns| ==> Fair(turns[i])
  }

  // The reference machine.

  predicate Moves(t: Trap) {
    t.DataLoad? || t.DataStore? || t.SysregRead? || t.SysregWrite? || t.Wfx? || t.Smc?
  }

  predicate Retried(t: Trap, m: Monitor) {
    t.DataStore? && m.retry(t.address)
  }

  /** Register 31 of an instruction reads as zero and ignores what is written to it. */
  function Operand(c: Cpu, r: nat): nat {
    if r < 31 && r in c.general then c.general[r] else 0
  }

  function PutGeneral(c: Cpu, r: nat, v: nat): Cpu {
    if r < 31 then c.(general := c.general[r := v]) else c
  }

  /** The registers an emulated instruction writes, apart from the program counter. */
  function Written(c: Cpu, t: Trap, w: World, m: Monitor): Cpu {
    match t
    case DataLoad(l) => PutGeneral(c, l.srt, LeValue(m.device(l.address, l.len)))
    case SysregRead(reg, rt) =>
      if rt >= 31 || w.read(reg).None? then c else PutGeneral(c, rt, w.read(reg).value)
    case Hvc => Serviced(c, m)
    case Smc => Serviced(c, m)
    case _ => c
  }

  /** A power service answers in X0: a version or type of 2, success as 0, or what the
      monitor says about the processor in X1. */
  function Serviced(c: Cpu, m: Monitor): Cpu {
    match ServiceOf(Operand(c, 0))
    case Version => PutGeneral(c, 0, 2)
    case MigrateType => PutGeneral(c, 0, 2)
    case On => PutGeneral(c, 0, 0)
    case Affinity => PutGeneral(c, 0, m.affinity(Operand(c, 1)))
    case _ => c
  }

  /** What the monitor is asked: to start the processor in X1 at the address in X2 with the
      argument in X3, to answer about the one in X1, to park this one, or to stop. */
  function Asked(c: Cpu, calls: seq<Call>): Outcome {
    match ServiceOf(Operand(c, 0))
    case Version => Returns(PsciHandled, calls)
    case MigrateType => Returns(PsciHandled, calls)
    case On => Returns(CpuOn(Operand(c, 1), Operand(c, 2), Operand(c, 3)), calls)
    case Off => Returns(CpuOff, calls)
    case Affinity => Returns(AffinityInfo(Operand(c, 1)), calls)
    case SystemOff => Returns(Shutdown, calls)
    case SystemReset => Returns(Shutdown, calls)
    case Unknown => Panics
  }

  /** The program counter is the framework's register 31. */
  function Stepped(c: Cpu): Cpu {
    c.(general := c.general[31 := (Get(c.general, 31) + 4) % 0x1_0000_0000_0000_0000])
  }

  predicate Due(c: Cpu) {
    Firing(Get(c.system, CNTV_CTL_EL0))
  }

  /** Emulates a stop in one go. */
  function Emulate(c: Cpu, stop: Stop, w: World, m: Monitor): Cpu {
    if stop.reason != 1 then c
    else
      var t := Decode(stop.syndrome, stop.address);
      var awake := if c.mask && !Due(c) then c.(mask := false) else c;
      var written := Written(awake, t, w, m);
      if Moves(t) && !Retried(t, m) then Stepped(written) else written
  }

  /** The nanoseconds of some ticks, at a whole number of nanoseconds for each. */
  function Duration(ticks: nat, frequency: nat): nat
    requires frequency > 0
  {
    ticks * (1_000_000_000 / frequency)
  }

  /** What the monitor is told of a trap, from the registers at that moment. */
  function Told(c: Cpu, t: Trap, w: World, cntfrq: nat, calls: seq<Call>): Outcome {
    match t
    case Brk => Returns(Breakpoint, calls)
    case DataLoad(l) => Returns(MmioRead(l.address, l.len), calls)
    case DataStore(address, len, srt) =>
      Returns(MmioWrite(address, LowBytes(Operand(c, srt), len)), calls)
    case SysregRead(reg, rt) =>
      if rt == 31 then Returns(SystemRegister, calls)
      else if w.read(reg).None? then Panics
      else Returns(SystemRegister, calls + [ReadSysreg(reg)])
    case SysregWrite(reg, rt) =>
      var val := Operand(c, rt);
      if w.write(reg, val) then Returns(SystemRegister, calls + [WriteSysreg(reg, val)]) else Panics
    case Wfx =>
      var ctl, deadline := Get(c.system, CNTV_CTL_EL0), Get(c.system, CNTV_CVAL_EL0);
      if !Enabled(ctl) then Returns(WaitForEvent, calls)
      else if w.now > deadline then Returns(WaitForEventExpired, calls)
      else if cntfrq == 0 then Panics
      else Returns(WaitForEventTimeout(Duration(deadline - w.now, cntfrq)), calls)
    case Hvc => Asked(c, calls)
    case Smc => Asked(c, calls)
    case Unexpected => Panics
  }

  /** The low `len` bytes of a value, least significant first. */
  function LowBytes(v: nat, len: nat): (bytes: seq<nat>)
    ensures |bytes| == len && forall i :: 0 <= i < len ==> bytes[i] == ByteOf(v, i)
  {
    seq(len, i requires i >= 0 => ByteOf(v, i))
  }

  lemma LowBytesAreLe(v: nat, len: nat)
    ensures LowBytes(v, len) == LeBytes(v, len)
  {
    hide LeBytes, ByteOf;
    forall i | 0 <= i < len ensures LeBytes(v, len)[i] == ByteOf(v, i) { BytesAreDigits(v, len, i); }
  }

  /** What one run reports. */
  function Reported(c: Cpu, stop: Stop, w: World, cntfrq: nat): Outcome {
    match stop.reason
    case 0 => Returns(Canceled, [])
    case 2 => Returns(VtimerActivated, [])
    case 1 =>
      Told(c, Decode(stop.syndrome, stop.address), w, cntfrq, if c.mask then [RaiseTimer] else [])
    case _ => Panics
  }

  /** The interrupt line as the guest starts: raised by the controller, never lowered. */
  function Interrupted(c: Cpu, w: World): Cpu {
    c.(irq := c.irq || w.irq)
  }

  ghost function Reference(c: Cpu, cntfrq: nat, turns: seq<Turn>): seq<(Cpu, Outcome)>
    decreases |turns|
  {
    if turns == [] then []
    else
      var w, m := turns[0].world, turns[0].monitor;
      var inside := Interrupted(c, w);
      var (d, stop) := w.guest(inside);
      var outcome := Reported(d, stop, w, cntfrq);
      [(inside, outcome)] +
      if outcome.Panics? then [] else Reference(Emulate(d, stop, w, m), cntfrq, turns[1..])
  }

  // The code.

  ghost function After(v: Vcpu, t: Turn): (r: Vcpu)
    requires Valid(v) && Fills(t.monitor)
    ensures Valid(r)
  {
    var (u, outcome) := Run(v, t.world);
    if outcome.Panics? then u else Answer(u, outcome.exit, t.monitor)
  }

  /** For each run: the vCPU as the guest starts, and what the run reports. */
  ghost function Trace(v: Vcpu, turns: seq<Turn>): seq<(Vcpu, Outcome)>
    requires Valid(v) && AllFair(turns)
    decreases |turns|
  {
    if turns == [] then []
    else
      assert Fair(turns[0]);
      var outcome := Run(v, turns[0].world).1;
      [(Enter(v, turns[0].world.irq), outcome)] +
      if outcome.Panics? then [] else Trace(After(v, turns[0]), turns[1..])
  }

  predicate Settled(v: Vcpu) {
    v.load.None? && !v.advance
  }

  /** The field that mirrors the framework's timer mask. */
  predicate Synced(v: Vcpu) {
    v.masked == v.cpu.mask
  }

  function Settle(v: Vcpu): (r: Vcpu)
    requires Valid(v)
    ensures Settled(r) && Valid(r)
  {
    Advance(Deliver(v))
  }

  /** Handling a trap, answering it and settling is emulating it in one go. */
  ghost predicate Emulates(v: Vcpu, t: Trap, w: World, m: Monitor, calls: seq<Call>)
    requires Valid(v) && Fills(m) && Plausible(t)
  {
    var (u, outcome) := Handle(v, t, w, calls);
    && outcome == Told(v.cpu, t, w, v.cntfrq, calls)
    && (outcome.Returns? ==>
          var a := Answer(u, outcome.exit, m);
          var written := Written(v.cpu, t, w, m);
          && Settle(a).cpu == (if Moves(t) && !Retried(t, m) then Stepped(written) else written)
          && a.masked == v.masked && a.cntfrq == v.cntfrq && a.cpu.mask == v.cpu.mask)
  }

  /** What decoding promises. */
  predicate Plausible(t: Trap) {
    && (t.DataLoad? ==> t.load.len in {1, 2, 4, 8} && t.load.srt < 32)
    && (t.DataStore? ==> t.len in {1, 2, 4, 8})
    && (t.SysregRead? ==> t.rt < 32)
  }

  lemma LoadEmulates(v: Vcpu, t: Trap, w: World, m: Monitor, calls: seq<Call>)
    requires Valid(v) && Settled(v) && Fills(m) && Plausible(t) && t.DataLoad?
    ensures Emulates(v, t, w, m, calls)
  {
    hide LeValue;
    var bytes := m.device(t.load.address, t.load.len);
    assert (bytes + v.buf[t.load.len..])[..t.load.len] == bytes;
  }

  lemma PsciEmulates(v: Vcpu, t: Trap, w: World, m: Monitor, calls: seq<Call>)
    requires Valid(v) && Settled(v) && Fills(m) && (t.Hvc? || t.Smc?)
    ensures Emulates(v, t, w, m, calls)
  {
    PsciAsks(v.cpu, calls);
    PsciServes(v.cpu, m);
    hide Psci, Serviced, Asked;
  }

  /** A request is passed on and answered as the interface says. */
  lemma PsciAsks(c: Cpu, calls: seq<Call>)
    ensures VcpuModel.Finish(Psci(c).1, calls) == Asked(c, calls)
  {
    ArgumentsAreOperands(c);
    hide Operand, Get;
  }

  lemma PsciServes(c: Cpu, m: Monitor)
    ensures var (d, exit) := Psci(c);
      Serviced(c, m) ==
      if exit.Some? && exit.value.AffinityInfo? then SetGeneral(d, 0, m.affinity(exit.value.mpidr)) else d
  {
    ArgumentsAreOperands(c);
    hide Operand, Get;
  }

  lemma ArgumentsAreOperands(c: Cpu)
    ensures forall r: nat :: r < 31 ==> Get(c.general, r) == Operand(c, r)
  {
  }

  lemma StoreEmulates(v: Vcpu, t: Trap, w: World, m: Monitor, calls: seq<Call>)
    requires Valid(v) && Settled(v) && Fills(m) && Plausible(t) && t.DataStore?
    ensures Emulates(v, t, w, m, calls)
  {
    hide LeBytes, LowBytes;
    LowBytesAreLe(StoredValue(v.cpu, t.srt), t.len);
  }

  lemma SysregReadEmulates(v: Vcpu, t: Trap, w: World, m: Monitor, calls: seq<Call>)
    requires Valid(v) && Settled(v) && Fills(m) && Plausible(t) && t.SysregRead?
    ensures Emulates(v, t, w, m, calls)
  {
    hide Fills, Psci, Serviced, Asked, Waiting, LeBytes, LowBytes, LeValue, Get, Operand;
  }

  lemma SysregWriteEmulates(v: Vcpu, t: Trap, w: World, m: Monitor, calls: seq<Call>)
    requires Valid(v) && Settled(v) && Fills(m) && t.SysregWrite?
    ensures Emulates(v, t, w, m, calls)
  {
    hide Fills;
  }

  lemma PauseEmulates(v: Vcpu, t: Trap, w: World, m: Monitor, calls: seq<Call>)
    requires Valid(v) && Settled(v) && Fills(m) && (t.Brk? || t.Wfx? || t.Unexpected?)
    ensures Emulates(v, t, w, m, calls)
  {
    hide Fills;
  }

  lemma TrapEmulates(v: Vcpu, t: Trap, w: World, m: Monitor, calls: seq<Call>)
    requires Valid(v) && Settled(v) && Fills(m) && Plausible(t)
    ensures Emulates(v, t, w, m, calls)
  {
    hide *;
    hide Emulates;
    match t
    case DataLoad(_) => LoadEmulates(v, t, w, m, calls);
    case DataStore(_, _, _) => StoreEmulates(v, t, w, m, calls);
    case SysregRead(_, _) => SysregReadEmulates(v, t, w, m, calls);
    case SysregWrite(_, _) => SysregWriteEmulates(v, t, w, m, calls);
    case Hvc => PsciEmulates(v, t, w, m, calls);
    case Smc => PsciEmulates(v, t, w, m, calls);
    case _ => PauseEmulates(v, t, w, m, calls);
  }

  /** Nothing told depends on the timer mask. */
  lemma ToldUnmasked(c: Cpu, t: Trap, w: World, cntfrq: nat, calls: seq<Call>)
    ensures Told(c.(mask := false), t, w, cntfrq, calls) == Told(c, t, w, cntfrq, calls)
  {
    hide LowBytes;
  }

  lemma DecodePlausible(s: nat, address: nat)
    ensures Plausible(Decode(s, address))
  {
  }

  lemma DueIsFiring(c: Cpu)
    ensures TimerFiring(c) == Due(c)
  {
    hide Firing;
    LowBits(Get(c.system, CNTV_CTL));
  }

  lemma LowBits(ctl: nat)
    ensures Firing(ctl) <==> ctl % 8 == 5
  {
    var a, b, d := ctl % 2, (ctl / 2) % 2, (ctl / 4) % 2;
    assert ctl == 2 * (ctl / 2) + a;
    assert ctl / 2 == 2 * (ctl / 4) + b;
    assert ctl / 4 == 2 * (ctl / 8) + d;
    assert ctl % 8 == 4 * d + 2 * b + a;
  }

  /** One turn, from a settled vCPU that has just left the guest. */
  lemma LeaveEmulates(v: Vcpu, stop: Stop, w: World, m: Monitor)
    requires Valid(v) && Settled(v) && Fills(m)
    requires stop.reason != 2 ==> Synced(v)
    requires stop.reason == 2 ==> v.cpu.mask
    ensures Leave(v, stop, w).1 == Reported(v.cpu, stop, w, v.cntfrq)
    ensures Leave(v, stop, w).1.Returns? ==>
              var a := Answer(Leave(v, stop, w).0, Leave(v, stop, w).1.exit, m);
              && Settle(a).cpu == Emulate(v.cpu, stop, w, m)
              && Synced(a) && a.cntfrq == v.cntfrq
  {
    hide Handle, Decode, Written, LeValue, Told, Stepped;
    DueIsFiring(v.cpu);
    if stop.reason == 1 {
      var t := Decode(stop.syndrome, stop.address);
      DecodePlausible(stop.syndrome, stop.address);
      var calls := if v.masked then [RaiseTimer] else [];
      TrapEmulates(SyncTimer(v), t, w, m, calls);
      ToldUnmasked(v.cpu, t, w, v.cntfrq, calls);
    }
  }

  lemma TurnEmulates(v: Vcpu, t: Turn)
    requires Valid(v) && Synced(v) && Fair(t)
    ensures var inside := Enter(v, t.world.irq);
      && Settled(inside) && Synced(inside) && inside.cpu == Interrupted(Settle(v).cpu, t.world)
    ensures var (d, stop) := t.world.guest(Interrupted(Settle(v).cpu, t.world));
      && Run(v, t.world).1 == Reported(d, stop, t.world, v.cntfrq)
      && (Run(v, t.world).1.Returns? ==>
            && Settle(After(v, t)).cpu == Emulate(d, stop, t.world, t.monitor)
            && Synced(After(v, t)) && After(v, t).cntfrq == v.cntfrq)
  {
    hide Leave, Emulate, Reported, LeValue, Answer;
    var inside := Enter(v, t.world.irq);
    var (d, stop) := t.world.guest(inside.cpu);
    LeaveEmulates(inside.(cpu := d), stop, t.world, t.monitor);
  }

  /**
   * Every run of the code is a run of the reference machine: the same reports, the same
   * registers whenever the guest executes, and never anything pending at that moment.
   */
  lemma {:induction false} RunsAreAtomic(v: Vcpu, turns: seq<Turn>, k: nat)
    requires Valid(v) && Synced(v) && AllFair(turns)
    ensures |Trace(v, turns)| == |Reference(Settle(v).cpu, v.cntfrq, turns)|
    ensures k < |Trace(v, turns)| ==>
              var (inside, outcome) := Trace(v, turns)[k];
              && Settled(inside) && Synced(inside)
              && (inside.cpu, outcome) == Reference(Settle(v).cpu, v.cntfrq, turns)[k]
    decreases |turns|
  {
    hide Leave, Emulate, Reported, Settle, Enter, Run, After;
    if turns != [] {
      assert Fair(turns[0]);
      TurnEmulates(v, turns[0]);
      if Run(v, turns[0].world).1.Returns? {
        RunsAreAtomic(After(v, turns[0]), turns[1..], if k == 0 then 0 else k - 1);
      }
    }
  }

  // What the reference machine does, register by register.

  /** The step of the program counter: four past an emulated instruction, none otherwise. */
  function StepOf(stop: Stop, m: Monitor): nat {
    if stop.reason != 1 then 0
    else
      var t := Decode(stop.syndrome, stop.address);
      if Moves(t) && !Retried(t, m) then 4 else 0
  }

  /** The register besides the program counter that a stop may change. */
  function TargetOf(stop: Stop): Option<nat> {
    if stop.reason != 1 then None
    else
      match Decode(stop.syndrome, stop.address)
      case DataLoad(l) => if l.srt == 31 then None else Some(l.srt)
      case SysregRead(_, rt) => if rt == 31 then None else Some(rt)
      case Hvc | Smc => Some(0)
      case _ => None
  }

  /** Register 31 of an instruction is the zero register, never the framework's slot 31. */
  lemma TargetIsNotPc(stop: Stop)
    ensures TargetOf(stop).Some? ==> TargetOf(stop).value < 31
  {
  }

  lemma WrittenTouches(c: Cpu, t: Trap, w: World, m: Monitor, r: nat)
    requires match t
      case DataLoad(l) => l.srt == 31 || r != l.srt
      case SysregRead(_, rt) => rt == 31 || r != rt
      case Hvc | Smc => r != 0
      case _ => true
    ensures Get(Written(c, t, w, m).general, r) == Get(c.general, r)
  {
    hide LeValue, Serviced, PutGeneral;
    match t {
      case DataLoad(l) => PutTouches(c, l.srt, LeValue(m.device(l.address, l.len)), r);
      case SysregRead(reg, rt) =>
        if w.read(reg).Some? { PutTouches(c, rt, w.read(reg).value, r); }
      case Hvc => ServiceTouches(c, m, r);
      case Smc => ServiceTouches(c, m, r);
      case _ =>
    }
  }

  lemma PutTouches(c: Cpu, at: nat, v: nat, r: nat)
    ensures r != at || at >= 31 ==> Get(PutGeneral(c, at, v).general, r) == Get(c.general, r)
    ensures PutGeneral(c, at, v) == c.(general := PutGeneral(c, at, v).general)
  {
  }

  lemma ServiceTouches(c: Cpu, m: Monitor, r: nat)
    ensures r != 0 ==> Get(Serviced(c, m).general, r) == Get(c.general, r)
    ensures Serviced(c, m) == c.(general := Serviced(c, m).general)
  {
    hide ServiceOf, PutGeneral;
    PutTouches(c, 0, 0, r);
    PutTouches(c, 0, 2, r);
    PutTouches(c, 0, m.affinity(Operand(c, 1)), r);
  }

  lemma StepTouches(c: Cpu, r: nat)
    ensures Get(Stepped(c).general, r) ==
            if r == 31 then (Get(c.general, 31) + 4) % 0x1_0000_0000_0000_0000 else Get(c.general, r)
    ensures Stepped(c) == c.(general := Stepped(c).general)
  {
  }

  lemma WrittenKeeps(c: Cpu, t: Trap, w: World, m: Monitor)
    ensures Written(c, t, w, m) == c.(general := Written(c, t, w, m).general)
  {
    hide LeValue, Serviced;
    ServiceTouches(c, m, 0);
  }

  /** The general registers: only the program counter and one target change. */
  lemma EmulateTouchesGeneral(c: Cpu, stop: Stop, w: World, m: Monitor, r: nat)
    requires TargetOf(stop) != Some(r)
    ensures Get(Emulate(c, stop, w, m).general, r) ==
            if r == 31 && StepOf(stop, m) == 4 then (Get(c.general, 31) + 4) % 0x1_0000_0000_0000_0000
            else Get(c.general, r)
  {
    hide Written, LeValue, Decode, Stepped, Due;
    if stop.reason == 1 {
      var t := Decode(stop.syndrome, stop.address);
      var awake := if c.mask && !Due(c) then c.(mask := false) else c;
      DecodePlausible(stop.syndrome, stop.address);
      WrittenTouches(awake, t, w, m, r);
      StepTouches(Written(awake, t, w, m), r);
    }
  }

  /** The rest: only the timer mask changes, lifted at an exception once the timer is not firing. */
  lemma EmulateTouchesRest(c: Cpu, stop: Stop, w: World, m: Monitor)
    ensures var d := Emulate(c, stop, w, m);
      d == c.(general := d.general, mask := c.mask && (stop.reason != 1 || Due(c)))
  {
    hide Written, LeValue, Decode, Stepped, Due;
    if stop.reason == 1 {
      var t := Decode(stop.syndrome, stop.address);
      var awake := if c.mask && !Due(c) then c.(mask := false) else c;
      WrittenKeeps(awake, t, w, m);
      StepTouches(Written(awake, t, w, m), 0);
    }
  }

  /** Between two guest instructions nothing else changes in the whole vCPU. */
  lemma EmulateTouches(c: Cpu, stop: Stop, w: World, m: Monitor, r: nat)
    requires TargetOf(stop) != Some(r)
    ensures var d := Emulate(c, stop, w, m);
      && Get(d.general, r) ==
         (if r == 31 && StepOf(stop, m) == 4 then (Get(c.general, 31) + 4) % 0x1_0000_0000_0000_0000
          else Get(c.general, r))
      && d.simd == c.simd && d.system == c.system && d.icc == c.icc && d.ich == c.ich
      && d.irq == c.irq && d.fiq == c.fiq && d.offset == c.offset
      && d.mask == (c.mask && (stop.reason != 1 || Due(c)))
  {
    hide Emulate, TargetOf, StepOf, Due;
    EmulateTouchesGeneral(c, stop, w, m, r);
    EmulateTouchesRest(c, stop, w, m);
  }

  /** A trapped load puts the device's bytes, zero-extended, into its target register. */
  lemma LoadReachesTarget(c: Cpu, stop: Stop, w: World, m: Monitor)
    requires stop.reason == 1 && Decode(stop.syndrome, stop.address).DataLoad?
    requires TargetOf(stop).Some? && Fills(m)
    ensures var l := Decode(stop.syndrome, stop.address).load;
      var value := Get(Emulate(c, stop, w, m).general, l.srt);
      value < Power256(l.len) && LeBytes(value, l.len) == m.device(l.address, l.len)
  {
    var l := Decode(stop.syndrome, stop.address).load;
    hide LeValue, Power256, LeBytes;
    ValueOfBytes(m.device(l.address, l.len));
  }

  /** A trapped store reports the low bytes of its source register, least significant first. */
  lemma StoreReportsSource(c: Cpu, stop: Stop, w: World, cntfrq: nat)
    requires stop.reason == 1 && Decode(stop.syndrome, stop.address).DataStore?
    ensures var DataStore(address, len, srt) := Decode(stop.syndrome, stop.address);
      var o := Reported(c, stop, w, cntfrq);
      && o.Returns? && o.exit.MmioWrite? && o.exit.address == address == stop.address
      && |o.exit.bytes| == len && LeValue(o.exit.bytes) == Operand(c, srt) % Power256(len)
  {
    hide LeValue, Power256, LowBytes, LeBytes;
    var DataStore(address, len, srt) := Decode(stop.syndrome, stop.address);
    LowBytesAreLe(Operand(c, srt), len);
    BytesOfValue(Operand(c, srt), len);
  }
}
