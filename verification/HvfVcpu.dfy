/**
 * The vCPU object itself: fields updated in place by `run`, `restore_state` and
 * `retry_current_instruction`, each proved against its function on values.
 */
module HvfVcpu {
  import opened Options
  import opened LittleEndian
  import opened VcpuModel
  import opened VcpuRuns
  import opened VcpuState
  import opened VcpuRestore

  class HvfVcpu {
    /** The framework's registers for this vCPU, reached only through framework calls. */
    var cpu: Cpu
    const mmioBuf: array<nat>
    var pendingMmioRead: Option<Load>
    var pendingAdvancePc: bool
    var vtimerMasked: bool
    const nestedEnabled: bool
    const cntfrq: nat
    /** How many more register writes of a restore the host accepts. */
    var budget: nat

    ghost function View(): Vcpu
      reads this, mmioBuf
    {
      Vcpu(cpu, mmioBuf[..], pendingMmioRead, pendingAdvancePc, vtimerMasked, nestedEnabled, cntfrq)
    }

    constructor (fresh0: Cpu, nested: bool, frequency: nat)
      ensures View() == Vcpu(fresh0, [0, 0, 0, 0, 0, 0, 0, 0], None, false, false, nested, frequency)
      ensures fresh(mmioBuf)
    {
      cpu := fresh0;
      mmioBuf := new nat[8](_ => 0);
      pendingMmioRead := None;
      pendingAdvancePc := false;
      vtimerMasked := false;
      nestedEnabled := nested;
      cntfrq := frequency;
      budget := 0;
    }

    method RetryCurrentInstruction()
      modifies this`pendingAdvancePc
      ensures View() == Retry(old(View()))
    {
      pendingAdvancePc := false;
    }

    method SyncVtimer() returns (calls: seq<Call>)
      modifies this`cpu, this`vtimerMasked
      ensures View() == SyncTimer(old(View()))
      ensures calls == if old(vtimerMasked) then [RaiseTimer] else []
    {
      if !vtimerMasked {
        return [];
      }
      var ctl := Get(cpu.system, CNTV_CTL);
      var irqState := ctl % 8 == 5;
      calls := [RaiseTimer];
      if !irqState {
        cpu := cpu.(mask := false);
        vtimerMasked := false;
      }
    }

    method HandlePsciRequest(calls: seq<Call>) returns (outcome: Outcome)
      modifies this`cpu
      ensures cpu == Psci(old(cpu)).0 && outcome == Finish(Psci(old(cpu)).1, calls) == Asked(old(cpu), calls)
    {
      PsciAsks(cpu, calls);
      hide Asked;
      var f := Get(cpu.general, X0);
      if f == 0x8400_0000 {
        cpu := SetGeneral(cpu, X0, 2);
        return Returns(PsciHandled, calls);
      } else if f == 0x8400_0002 {
        return Returns(CpuOff, calls);
      } else if f == 0x8400_0004 || f == 0xc400_0004 {
        return Returns(AffinityInfo(Get(cpu.general, X1)), calls);
      } else if f == 0x8400_0006 {
        cpu := SetGeneral(cpu, X0, 2);
        return Returns(PsciHandled, calls);
      } else if f == 0x8400_0008 || f == 0x8400_0009 {
        return Returns(Shutdown, calls);
      } else if f == 0xc400_0003 {
        var mpidr, entry, context := Get(cpu.general, X1), Get(cpu.general, X2), Get(cpu.general, X3);
        cpu := SetGeneral(cpu, X0, 0);
        return Returns(CpuOn(mpidr, entry, context), calls);
      }
      return Panics;
    }

    /** The start of `run`: whatever the last exit left pending is completed. */
    method EnterGuest(irq: bool)
      requires Valid(View())
      modifies this`cpu, this`pendingMmioRead, this`pendingAdvancePc
      ensures View() == Enter(old(View()), irq)
    {
      if pendingMmioRead.Some? {
        var read := pendingMmioRead.value;
        pendingMmioRead := None;
        if read.srt < ZERO_REGISTER {
          assert mmioBuf[..][..read.len] == mmioBuf[..read.len];
          cpu := SetGeneral(cpu, read.srt, LeValue(mmioBuf[..read.len]));
        }
      }
      if pendingAdvancePc {
        var pc := Get(cpu.general, PC);
        cpu := SetGeneral(cpu, PC, (pc + 4) % WORD);
        pendingAdvancePc := false;
      }
      if irq {
        cpu := cpu.(irq := true);
      }
    }

    /** Copies the low bytes of a stored value into the front of the buffer. */
    method FillBuffer(value: nat, len: nat)
      requires len <= mmioBuf.Length
      modifies mmioBuf
      ensures mmioBuf[..] == LeBytes(value, len) + old(mmioBuf[..])[len..]
    {
      var rest := value;
      for i := 0 to len
        invariant LeBytes(value, len) == mmioBuf[..i] + LeBytes(rest, len - i)
        invariant mmioBuf[i..] == old(mmioBuf[..])[i..]
      {
        mmioBuf[i] := rest % 256;
        assert mmioBuf[..i + 1] == mmioBuf[..i] + [rest % 256];
        rest := rest / 256;
      }
      assert mmioBuf[..] == mmioBuf[..len] + mmioBuf[len..];
    }

    method HandleDataAbort(s: nat, address: nat, calls: seq<Call>) returns (outcome: Outcome)
      requires Valid(View()) && (s / 0x400_0000) % 64 == 0x24
      modifies this`pendingMmioRead, this`pendingAdvancePc, mmioBuf
      ensures forall w :: (View(), outcome) == Handle(old(View()), Decode(s, address), w, calls)
    {
      var isWrite := (s / 64) % 2 == 1;
      var sas := (s / 0x40_0000) % 4;
      var len := AccessLen(sas);
      var srt := (s / 0x1_0000) % 32;
      pendingAdvancePc := true;
      if isWrite {
        var val := 0;
        if srt < ZERO_REGISTER {
          val := Get(cpu.general, srt);
        }
        FillBuffer(val, len);
        assert mmioBuf[..len] == LeBytes(val, len);
        outcome := Returns(MmioWrite(address, mmioBuf[..len]), calls);
      } else {
        pendingMmioRead := Some(Load(address, len, srt));
        outcome := Returns(MmioRead(address, len), calls);
      }
    }

    method HandleSysreg(s: nat, w: World, calls: seq<Call>) returns (outcome: Outcome)
      requires Valid(View()) && (s / 0x400_0000) % 64 == 0x18
      modifies this`cpu, this`pendingAdvancePc
      ensures forall address :: (View(), outcome) == Handle(old(View()), Decode(s, address), w, calls)
    {
      var isRead := s % 2 == 1;
      var rt := (s / 32) % 32;
      var reg := SysregName(s);
      pendingAdvancePc := true;
      if isRead {
        if rt == ZERO_REGISTER {
          return Returns(SystemRegister, calls);
        }
        var answer := w.read(reg);
        if answer.None? {
          return Panics;
        }
        cpu := SetGeneral(cpu, rt, answer.value);
        return Returns(SystemRegister, calls + [ReadSysreg(reg)]);
      }
      var val := 0;
      if rt != ZERO_REGISTER {
        val := Get(cpu.general, rt);
      }
      if w.write(reg, val) {
        return Returns(SystemRegister, calls + [WriteSysreg(reg, val)]);
      }
      return Panics;
    }

    method HandleWait(now: nat, calls: seq<Call>) returns (outcome: Outcome)
      modifies this`pendingAdvancePc
      ensures pendingAdvancePc
      ensures outcome == Finish(Waiting(cpu, cntfrq, now), calls)
    {
      var ctl := Get(cpu.system, CNTV_CTL);
      pendingAdvancePc := true;
      if ctl % 2 == 0 || (ctl / 2) % 2 != 0 {
        return Returns(WaitForEvent, calls);
      }
      var cval := Get(cpu.system, CNTV_CVAL);
      if now > cval {
        return Returns(WaitForEventExpired, calls);
      }
      if cntfrq == 0 {
        return Panics;
      }
      return Returns(WaitForEventTimeout(Nanos(cval - now, cntfrq)), calls);
    }

    /** One `run`: finish what is pending, let the guest execute, handle why it stopped. */
    method Run(w: World) returns (outcome: Outcome)
      requires Valid(View())
      modifies this`cpu, this`pendingMmioRead, this`pendingAdvancePc, this`vtimerMasked, mmioBuf
      ensures Valid(View())
      ensures (View(), outcome) == VcpuModel.Run(old(View()), w)
    {
      EnterGuest(w.irq);
      var (c, stop) := w.guest(cpu);
      cpu := c;
      if stop.reason == REASON_VTIMER {
        vtimerMasked := true;
        return Returns(VtimerActivated, []);
      } else if stop.reason == REASON_CANCELED {
        return Returns(Canceled, []);
      } else if stop.reason != REASON_EXCEPTION {
        return Panics;
      }
      outcome := HandleException(stop, w);
    }

    method HandleException(stop: Stop, w: World) returns (outcome: Outcome)
      requires Valid(View()) && stop.reason == REASON_EXCEPTION
      modifies this`cpu, this`pendingMmioRead, this`pendingAdvancePc, this`vtimerMasked, mmioBuf
      ensures (View(), outcome) == Leave(old(View()), stop, w)
    {
      var calls := SyncVtimer();
      var ec := (stop.syndrome / 0x400_0000) % 64;
      if ec == 0x3c {
        outcome := Returns(Breakpoint, calls);
      } else if ec == 0x24 {
        outcome := HandleDataAbort(stop.syndrome, stop.address, calls);
      } else if ec == 0x18 {
        outcome := HandleSysreg(stop.syndrome, w, calls);
      } else if ec == 0x1 {
        outcome := HandleWait(w.now, calls);
      } else if ec == 0x16 {
        outcome := HandlePsciRequest(calls);
      } else if ec == 0x17 {
        pendingAdvancePc := true;
        outcome := HandlePsciRequest(calls);
      } else {
        outcome := Panics;
      }
    }

    // Saving and restoring.

    /** Reads registers until the host refuses one. */
    method ReadAll(m: Regs, names: seq<nat>, answers: nat) returns (ps: Option<Pairs>, left: nat)
      ensures ps == if answers < |names| then None else Some(Read(m, names))
      ensures ps.Some? ==> left == answers - |names|
    {
      var got := [];
      left := answers;
      for i := 0 to |names|
        invariant got == Read(m, names[..i]) && left == answers - i
      {
        if left == 0 {
          return None, left;
        }
        got := got + [(names[i], Get(m, names[i]))];
        left := left - 1;
        assert names[..i + 1] == names[..i] + [names[i]];
      }
      assert names[..|names|] == names;
      ps := Some(got);
    }

    /** Captures the state; a host that refuses a read ends it, and nothing changes in any case. */
    method CaptureState(g: Gic, answers: nat) returns (result: Result<State>)
      ensures result == CaptureWithin(View(), g, answers)
      ensures result == Capture(View(), g) || result == Err(HostRefused)
    {
      hide StateSystem, StateIcc, StateIch, Count, Read, Offers;
      if !Offers(g, nestedEnabled) {
        return Err(ApiUnavailable);
      }
      if pendingMmioRead.Some? {
        return Err(PendingMmio);
      }
      var general, r1 := ReadAll(cpu.general, Count(GENERAL_REGISTER_COUNT), answers);
      if general.None? {
        return Err(HostRefused);
      }
      var simd, r2 := ReadAll(cpu.simd, Count(SIMD_REGISTER_COUNT), r1);
      if simd.None? {
        return Err(HostRefused);
      }
      var system, r3 := ReadAll(cpu.system, StateSystem(nestedEnabled), r2);
      if system.None? {
        return Err(HostRefused);
      }
      var icc, r4 := ReadAll(cpu.icc, StateIcc(nestedEnabled), r3);
      if icc.None? {
        return Err(HostRefused);
      }
      if nestedEnabled {
        if r4 == 0 {
          return Err(HostRefused);
        }
        r4 := r4 - 1;
      }
      var count := CountListRegisters(g);
      if count.Err? {
        return Err(count.error);
      }
      var ich, r5 := ReadAll(cpu.ich, StateIch(nestedEnabled, count.value), r4);
      if ich.None? || r5 < 4 {
        return Err(HostRefused);
      }
      result := Ok(State(general.value, simd.value, system.value, icc.value, ich.value, cpu.irq, cpu.fiq, cpu.mask,
                         cpu.offset, pendingAdvancePc, nestedEnabled));
    }

    method CountListRegisters(g: Gic) returns (result: Result<nat>)
      ensures result == ListRegisterCount(View(), g)
    {
      if !nestedEnabled {
        return Ok(0);
      }
      if !g.readIch {
        return Err(ApiUnavailable);
      }
      var count := Get(cpu.ich, ICH_VTR) % 32 + 1;
      if count > MAX_LIST_REGISTERS {
        return Err(Topology);
      }
      return Ok(count);
    }

    /** Makes the part of a script that starts at `at`, until the host refuses a write. */
    method WriteSome(ws: seq<Write>, ghost start: Cpu, ghost script: seq<Write>, ghost at: nat)
      returns (ok: bool)
      requires at + |ws| <= |script| && ws == script[at..at + |ws|]
      requires cpu == ApplyAll(start, script[..at])
      modifies this`cpu, this`budget
      ensures ok == (old(budget) >= |ws|)
      ensures ok ==> cpu == ApplyAll(start, script[..at + |ws|]) && budget == old(budget) - |ws|
      ensures !ok ==> cpu == ApplyAll(start, script[..at + old(budget)])
    {
      for i := 0 to |ws|
        invariant budget == old(budget) - i
        invariant cpu == ApplyAll(start, script[..at + i])
      {
        if budget == 0 {
          return false;
        }
        ApplyLast(start, script[..at + i], ws[i]);
        assert script[..at + i] + [ws[i]] == script[..at + i + 1];
        cpu := Apply(cpu, ws[i]);
        budget := budget - 1;
      }
      ok := true;
    }

    /** The clock, the general, vector and system registers: the script up to `end`. */
    method WriteRegisters(s: State, ghost script: seq<Write>, ghost end: nat) returns (ok: bool)
      requires script == Script(s, nestedEnabled) && end == IccAt(s, nestedEnabled)
      modifies this`cpu, this`budget
      ensures ok == (old(budget) >= end) && end <= |script|
      ensures cpu == ApplyAll(old(cpu), if ok then script[..end] else script[..old(budget)])
      ensures ok ==> budget == old(budget) - end
    {
      hide ApplyAll, Script, Clock, Lines, Generals, Simds, Systems, Iccs, Ichs;
      ghost var start := cpu;
      ghost var a1 := |Clock(s, nestedEnabled)|;
      ghost var a2 := a1 + |s.general|;
      ghost var a3 := a2 + |s.simd|;
      ScriptFront(s, nestedEnabled, a1, a2, a3, end);
      NothingApplied(cpu, script);
      ok := WriteSome(Clock(s, nestedEnabled), start, script, 0);
      if ok {
        ok := WriteSome(Generals(s.general), start, script, a1);
      }
      if ok {
        ok := WriteSome(Simds(s.simd), start, script, a2);
      }
      if ok {
        ok := WriteSome(Systems(s.system), start, script, a3);
      }
    }

    /** Writes one register file after another; on a refusal the earlier writes stand. */
    method WriteState(s: State) returns (ok: bool)
      modifies this`cpu, this`budget
      ensures var script := Script(s, nestedEnabled);
        && ok == (old(budget) >= |script|)
        && cpu == ApplyAll(old(cpu), if ok then script else script[..old(budget)])
    {
      hide ApplyAll, Script, Clock, Lines, Generals, Simds, Systems, Iccs, Ichs, IccAt, IchAt;
      ghost var start, script := cpu, Script(s, nestedEnabled);
      ghost var a4, a5 := IccAt(s, nestedEnabled), IchAt(s, nestedEnabled);
      ghost var a6 := a5 + |s.ich|;
      ScriptBack(s, nestedEnabled, a4, a5, a6);
      ok := WriteRegisters(s, script, a4);
      if ok {
        ok := WriteSome(Iccs(s.icc), start, script, a4);
      }
      if ok {
        ok := WriteSome(Ichs(s.ich), start, script, a5);
      }
      if ok {
        ok := WriteSome(Lines(s, nestedEnabled), start, script, a6);
      }
      assert script[..|script|] == script;
    }

    method RestoreState(s: State, g: Gic) returns (error: Option<Error>)
      modifies this`cpu, this`budget, this`pendingMmioRead, this`pendingAdvancePc, this`vtimerMasked
      ensures (View(), error) == Restore(old(View()), s, g, old(budget))
    {
      var count := CountListRegisters(g);
      if count.Err? {
        return Some(count.error);
      }
      if !HasTopology(s, nestedEnabled, count.value) {
        return Some(Topology);
      }
      if !Offers(g, nestedEnabled) {
        return Some(ApiUnavailable);
      }
      var ok := WriteState(s);
      if !ok {
        return Some(HostRefused);
      }
      pendingMmioRead := None;
      pendingAdvancePc := s.advance;
      vtimerMasked := s.mask && !nestedEnabled;
      return None;
    }
  }

  lemma NothingApplied(c: Cpu, ws: seq<Write>)
    ensures ApplyAll(c, ws[..0]) == c
  {
  }

  lemma ScriptFront(s: State, nested: bool, a1: nat, a2: nat, a3: nat, a4: nat)
    requires a1 == |Clock(s, nested)| && a2 == a1 + |s.general| && a3 == a2 + |s.simd|
    requires a4 == IccAt(s, nested)
    ensures var w := Script(s, nested);
      && a4 == a3 + |s.system| <= |w|
      && w[0..a1] == Clock(s, nested)
      && w[a1..a2] == Generals(s.general)
      && w[a2..a3] == Simds(s.simd)
      && w[a3..a4] == Systems(s.system)
  {
    hide Clock, Lines, Generals, Simds, Systems, Iccs, Ichs;
  }

  lemma ScriptBack(s: State, nested: bool, a4: nat, a5: nat, a6: nat)
    requires a4 == IccAt(s, nested) && a5 == IchAt(s, nested) && a6 == a5 + |s.ich|
    ensures var w := Script(s, nested);
      && a4 + |s.icc| == a5 && |w| == a6 + |Lines(s, nested)|
      && w[a4..a5] == Iccs(s.icc)
      && w[a5..a6] == Ichs(s.ich)
      && w[a6..] == Lines(s, nested)
  {
    hide Clock, Lines, Generals, Simds, Systems, Iccs, Ichs;
  }
}
