/**
 * What restoring a captured vCPU achieves: which destinations accept it, in which order the
 * registers come back, and that the restored vCPU then runs exactly as the captured one.
 */
module VcpuRestore {
  import opened Options
  import opened LittleEndian
  import opened ArmArchitecture
  import opened VcpuModel
  import opened VcpuState
  import opened VcpuContract
  import opened VcpuRuns

  // The topology check.

  lemma {:induction false} FilterAppend(a: seq<nat>, b: seq<nat>, count: nat)
    ensures Filter(a + b, count) == Filter(a, count) + Filter(b, count)
  {
    if a == [] {
      assert a + b == b;
    } else {
      assert (a + b)[1..] == a[1..] + b;
      FilterAppend(a[1..], b, count);
    }
  }

  lemma {:induction false} FilterListRegisters(k: nat, count: nat)
    requires k <= MAX_LIST_REGISTERS
    ensures Filter(ListRegisters(k), count) == ListRegisters(if k < count then k else count)
  {
    if k > 0 {
      FilterListRegisters(k - 1, count);
      assert ListRegisters(k) == ListRegisters(k - 1) + [ICH_LR0 + (k - 1)];
      FilterAppend(ListRegisters(k - 1), [ICH_LR0 + (k - 1)], count);
    }
  }

  /** The nested list: active priorities, control, the implemented list registers, enable. */
  lemma NestedIchRegisters(count: nat)
    requires count <= MAX_LIST_REGISTERS
    ensures StateIch(true, count) ==
            [ICH_AP0R0, ICH_AP1R0, ICH_VMCR] + ListRegisters(count) + [ICH_HCR]
  {
    hide Filter;
    var lead, all := [ICH_AP0R0, ICH_AP1R0, ICH_VMCR], ListRegisters(MAX_LIST_REGISTERS);
    FilterAppend(lead + all, [ICH_HCR], count);
    FilterAppend(lead, all, count);
    FilterListRegisters(MAX_LIST_REGISTERS, count);
    FilterKeeps(lead, count);
    FilterKeeps([ICH_HCR], count);
  }

  lemma {:induction false} FilterKeeps(regs: seq<nat>, count: nat)
    requires forall i :: 0 <= i < |regs| ==> Implemented(regs[i], count)
    ensures Filter(regs, count) == regs
  {
    if regs != [] {
      FilterKeeps(regs[1..], count);
    }
  }

  lemma NamesOfRead(m: Regs, names: seq<nat>)
    ensures Names(Read(m, names)) == names
  {
  }

  /** A state saved with n list registers fits a nested destination with m exactly when n == m. */
  lemma TopologyMatches(v: Vcpu, n: nat, m: nat)
    requires v.nested && n <= MAX_LIST_REGISTERS && m <= MAX_LIST_REGISTERS
    ensures HasTopology(Saved(v, n), true, m) <==> n == m
  {
    hide StateIch, StateSystem, StateIcc, Count, ListRegisters, Read, Names;
    NestedIchRegisters(n);
    NestedIchRegisters(m);
    SavedNames(v, n);
    assert |StateIch(true, n)| == n + 4 && |StateIch(true, m)| == m + 4;
  }

  lemma SavedNames(v: Vcpu, n: nat)
    ensures var s := Saved(v, n);
      && Names(s.general) == Count(GENERAL_REGISTER_COUNT)
      && Names(s.simd) == Count(SIMD_REGISTER_COUNT)
      && Names(s.system) == StateSystem(v.nested)
      && Names(s.icc) == StateIcc(v.nested)
      && Names(s.ich) == StateIch(v.nested, n)
  {
    hide StateIch, StateSystem, StateIcc, Count, Read, Names;
    NamesOfRead(v.cpu.general, Count(GENERAL_REGISTER_COUNT));
    NamesOfRead(v.cpu.simd, Count(SIMD_REGISTER_COUNT));
    NamesOfRead(v.cpu.system, StateSystem(v.nested));
    NamesOfRead(v.cpu.icc, StateIcc(v.nested));
    NamesOfRead(v.cpu.ich, StateIch(v.nested, n));
  }

  // What a script writes.

  lemma {:induction false} ApplyAppend(c: Cpu, a: seq<Write>, b: seq<Write>)
    ensures ApplyAll(c, a + b) == ApplyAll(ApplyAll(c, a), b)
    decreases |b|
  {
    if b == [] {
      assert a + b == a;
    } else {
      var n := |b| - 1;
      assert (a + b)[..|a + b| - 1] == a + b[..n];
      ApplyAppend(c, a, b[..n]);
    }
  }

  function WriteAll(m: Regs, ps: Pairs): Regs {
    if ps == [] then m
    else
      var n := |ps| - 1;
      WriteAll(m, ps[..n])[ps[n].0 := ps[n].1]
  }

  lemma {:induction false} ApplyGenerals(c: Cpu, ps: Pairs)
    ensures ApplyAll(c, Generals(ps)) == c.(general := WriteAll(c.general, ps))
  {
    if ps != [] {
      var n := |ps| - 1;
      assert Generals(ps)[..n] == Generals(ps[..n]);
      ApplyGenerals(c, ps[..n]);
    }
  }

  lemma {:induction false} ApplySimds(c: Cpu, ps: Pairs)
    ensures ApplyAll(c, Simds(ps)) == c.(simd := WriteAll(c.simd, ps))
  {
    if ps != [] {
      var n := |ps| - 1;
      assert Simds(ps)[..n] == Simds(ps[..n]);
      ApplySimds(c, ps[..n]);
    }
  }

  lemma {:induction false} ApplySystems(c: Cpu, ps: Pairs)
    ensures ApplyAll(c, Systems(ps)) == c.(system := WriteAll(c.system, ps))
  {
    if ps != [] {
      var n := |ps| - 1;
      assert Systems(ps)[..n] == Systems(ps[..n]);
      ApplySystems(c, ps[..n]);
    }
  }

  lemma {:induction false} ApplyIccs(c: Cpu, ps: Pairs)
    ensures ApplyAll(c, Iccs(ps)) == c.(icc := WriteAll(c.icc, ps))
  {
    if ps != [] {
      var n := |ps| - 1;
      assert Iccs(ps)[..n] == Iccs(ps[..n]);
      ApplyIccs(c, ps[..n]);
    }
  }

  lemma {:induction false} ApplyIchs(c: Cpu, ps: Pairs)
    ensures ApplyAll(c, Ichs(ps)) == c.(ich := WriteAll(c.ich, ps))
  {
    if ps != [] {
      var n := |ps| - 1;
      assert Ichs(ps)[..n] == Ichs(ps[..n]);
      ApplyIchs(c, ps[..n]);
    }
  }

  /** The effect of a whole script. */
  function Rewritten(c: Cpu, s: State, nested: bool): Cpu {
    var general := if nested then c.general[CPSR := PSTATE_EL2_FAULT_BITS] else c.general;
    Cpu(WriteAll(general, s.general), WriteAll(c.simd, s.simd), WriteAll(c.system, s.system),
        WriteAll(c.icc, s.icc), WriteAll(c.ich, s.ich), s.irq, s.fiq, s.mask && !nested, s.offset)
  }

  lemma ApplyLast(c: Cpu, ws: seq<Write>, w: Write)
    ensures ApplyAll(c, ws + [w]) == Apply(ApplyAll(c, ws), w)
  {
    assert (ws + [w])[..|ws|] == ws;
  }

  lemma ApplyClock(c: Cpu, s: State, nested: bool)
    ensures ApplyAll(c, Clock(s, nested)) ==
            c.(general := if nested then c.general[CPSR := PSTATE_EL2_FAULT_BITS] else c.general,
               offset := s.offset)
  {
    ApplyLast(c, [], General(CPSR, PSTATE_EL2_FAULT_BITS));
    ApplyLast(c, if nested then [General(CPSR, PSTATE_EL2_FAULT_BITS)] else [], Offset(s.offset));
    assert [] + [General(CPSR, PSTATE_EL2_FAULT_BITS)] == [General(CPSR, PSTATE_EL2_FAULT_BITS)];
  }

  lemma ApplyLines(c: Cpu, s: State, nested: bool)
    ensures ApplyAll(c, Lines(s, nested)) == c.(irq := s.irq, fiq := s.fiq, mask := s.mask && !nested)
  {
    ApplyLast(c, [], Irq(s.irq));
    assert [] + [Irq(s.irq)] == [Irq(s.irq)];
    ApplyLast(c, [Irq(s.irq)], Fiq(s.fiq));
    assert [Irq(s.irq)] + [Fiq(s.fiq)] == [Irq(s.irq), Fiq(s.fiq)];
    ApplyLast(c, [Irq(s.irq), Fiq(s.fiq)], Mask(s.mask && !nested));
    assert Lines(s, nested) == [Irq(s.irq), Fiq(s.fiq)] + [Mask(s.mask && !nested)];
  }

  lemma ApplyScript(c: Cpu, s: State, nested: bool)
    ensures ApplyAll(c, Script(s, nested)) == Rewritten(c, s, nested)
  {
    hide ApplyAll, WriteAll, Clock, Lines, Generals, Simds, Systems, Iccs, Ichs;
    var w0 := Clock(s, nested);
    var w1 := w0 + Generals(s.general);
    var w2 := w1 + Simds(s.simd);
    var w3 := w2 + Systems(s.system);
    var w4 := w3 + Iccs(s.icc);
    var w5 := w4 + Ichs(s.ich);
    ApplyAppend(c, w5, Lines(s, nested));
    ApplyAppend(c, w4, Ichs(s.ich));
    ApplyAppend(c, w3, Iccs(s.icc));
    ApplyAppend(c, w2, Systems(s.system));
    ApplyAppend(c, w1, Simds(s.simd));
    ApplyAppend(c, w0, Generals(s.general));
    ApplyClock(c, s, nested);
    ApplyGenerals(ApplyAll(c, w0), s.general);
    ApplySimds(ApplyAll(c, w1), s.simd);
    ApplySystems(ApplyAll(c, w2), s.system);
    ApplyIccs(ApplyAll(c, w3), s.icc);
    ApplyIchs(ApplyAll(c, w4), s.ich);
    ApplyLines(ApplyAll(c, w5), s, nested);
  }

  // Reading back what was written.

  ghost predicate Holds(m: Regs, names: seq<nat>) {
    forall r :: r in names ==> r in m
  }

  /** The registers outside a list have the same values on both sides. */
  ghost predicate SameBeyond(a: Regs, b: Regs, names: seq<nat>) {
    forall r :: r !in names ==> (r in a <==> r in b) && (r in a ==> a[r] == b[r])
  }

  lemma {:induction false} WriteAllAt(m: Regs, source: Regs, names: seq<nat>, r: nat)
    ensures var w := WriteAll(m, Read(source, names));
      if r in names then r in w && w[r] == Get(source, r)
      else (r in w <==> r in m) && (r in m ==> w[r] == m[r])
  {
    if names != [] {
      var n := |names| - 1;
      assert Read(source, names)[..n] == Read(source, names[..n]);
      WriteAllAt(m, source, names[..n], r);
      assert names == names[..n] + [names[n]];
    }
  }

  lemma WriteAllRestores(m: Regs, source: Regs, names: seq<nat>)
    requires Holds(source, names) && SameBeyond(source, m, names)
    ensures WriteAll(m, Read(source, names)) == source
  {
    hide WriteAll;
    forall r: nat
      ensures var w := WriteAll(m, Read(source, names));
        (r in w <==> r in source) && (r in w ==> w[r] == source[r])
    {
      WriteAllAt(m, source, names, r);
    }
  }

  /** After a rewriting the listed registers hold the source's values and no other has changed. */
  ghost predicate Overwritten(before: Regs, after: Regs, source: Regs, names: seq<nat>) {
    forall r: nat ::
      if r in names then r in after && after[r] == Get(source, r)
      else (r in after <==> r in before) && (r in before ==> after[r] == before[r])
  }

  lemma WriteAllOverwrites(m: Regs, source: Regs, names: seq<nat>)
    ensures Overwritten(m, WriteAll(m, Read(source, names)), source, names)
  {
    hide WriteAll, Read;
    forall r: nat
      ensures var w := WriteAll(m, Read(source, names));
        if r in names then r in w && w[r] == Get(source, r)
        else (r in w <==> r in m) && (r in m ==> w[r] == m[r])
    {
      WriteAllAt(m, source, names, r);
    }
  }

  lemma FaultBitsGo(m: Regs, after: Regs, source: Regs)
    requires Overwritten(m[CPSR := PSTATE_EL2_FAULT_BITS], after, source, Count(GENERAL_REGISTER_COUNT))
    ensures Overwritten(m, after, source, Count(GENERAL_REGISTER_COUNT))
  {
    assert Count(GENERAL_REGISTER_COUNT)[CPSR] == CPSR;
  }

  /**
   * The script of a captured vCPU, written to any other: the listed registers of each kind hold
   * the captured values, no other register has changed, and the lines, the offset and the mask
   * are the captured ones, but for the mask of a nested destination, which is cleared.
   */
  lemma ScriptRestores(c: Cpu, v: Vcpu, count: nat)
    ensures var d := ApplyAll(c, Script(Saved(v, count), v.nested));
      && Overwritten(c.general, d.general, v.cpu.general, Count(GENERAL_REGISTER_COUNT))
      && Overwritten(c.simd, d.simd, v.cpu.simd, Count(SIMD_REGISTER_COUNT))
      && Overwritten(c.system, d.system, v.cpu.system, StateSystem(v.nested))
      && Overwritten(c.icc, d.icc, v.cpu.icc, StateIcc(v.nested))
      && Overwritten(c.ich, d.ich, v.cpu.ich, StateIch(v.nested, count))
      && d.irq == v.cpu.irq && d.fiq == v.cpu.fiq && d.offset == v.cpu.offset
      && d.mask == (v.cpu.mask && !v.nested)
  {
    hide Script, ApplyAll, StateSystem, StateIcc, StateIch, Read, WriteAll, Count, Overwritten;
    ApplyScript(c, Saved(v, count), v.nested);
    var general := if v.nested then c.general[CPSR := PSTATE_EL2_FAULT_BITS] else c.general;
    WriteAllOverwrites(general, v.cpu.general, Count(GENERAL_REGISTER_COUNT));
    if v.nested {
      FaultBitsGo(c.general, WriteAll(general, Read(v.cpu.general, Count(GENERAL_REGISTER_COUNT))), v.cpu.general);
    }
    WriteAllOverwrites(c.simd, v.cpu.simd, Count(SIMD_REGISTER_COUNT));
    WriteAllOverwrites(c.system, v.cpu.system, StateSystem(v.nested));
    WriteAllOverwrites(c.icc, v.cpu.icc, StateIcc(v.nested));
    WriteAllOverwrites(c.ich, v.cpu.ich, StateIch(v.nested, count));
  }

  // Against the architecture.

  /** The list registers a nested guest has, as its interface says. */
  function ListCount(v: Vcpu): nat {
    if v.nested then Get(v.cpu.ich, ICH_VTR_EL2) % 32 + 1 else 0
  }

  lemma CountIs(v: Vcpu, g: Gic)
    requires Offers(g, v.nested)
    ensures ListRegisterCount(v, g) == if ListCount(v) > 16 then Err(Topology) else Ok(ListCount(v))
  {
  }

  lemma VirtualListed(r: nat, nested: bool, count: nat)
    requires count <= 16
    ensures r in StateIch(nested, count) <==> IsVirtualInterface(r, nested, count)
  {
    hide StateIch;
    NestedIchRegisters(count);
    FlatHasNoIch(count);
    var all := ListRegisters(count);
    if Sysreg(3, 4, 12, 12, 0) <= r < Sysreg(3, 4, 12, 12, 0) + count {
      assert all[r - Sysreg(3, 4, 12, 12, 0)] == r;
    }
  }

  /** The framework writes of a restore: 118, or 148 and one for each list register. */
  function WritesNeeded(nested: bool, count: nat): nat {
    if nested then 148 + count else 118
  }

  lemma ScriptSize(v: Vcpu, count: nat)
    requires count <= 16
    ensures |Script(Saved(v, count), v.nested)| == WritesNeeded(v.nested, count)
  {
    hide StateIch, Script;
    NestedIchRegisters(count);
    FlatHasNoIch(count);
    ScriptLength(Saved(v, count), v.nested);
  }

  /** Registers of the contract are there; beyond it both sides agree. */
  ghost predicate Agree(a: Regs, b: Regs, contract: nat -> bool) {
    forall r: nat :: if contract(r) then r in a else (r in a <==> r in b) && (r in a ==> a[r] == b[r])
  }

  /** Two vCPUs that differ only in what the architecture gives a guest. */
  ghost predicate Alike(a: Cpu, b: Cpu, nested: bool, count: nat) {
    && Agree(a.general, b.general, r => r < 35)
    && Agree(a.simd, b.simd, r => r < 32)
    && Agree(a.system, b.system, (r: nat) => IsGuestState(r, nested))
    && Agree(a.icc, b.icc, (r: nat) => IsInterface(r, nested))
    && Agree(a.ich, b.ich, (r: nat) => IsVirtualInterface(r, nested, count))
  }

  lemma AgreeBeyond(a: Regs, b: Regs, contract: nat -> bool, names: seq<nat>)
    requires Agree(a, b, contract) && forall r: nat :: r in names <==> contract(r)
    ensures Holds(a, names) && SameBeyond(a, b, names)
  {
  }

  lemma Listed(r: nat, nested: bool, count: nat)
    requires count <= 16
    ensures r in Count(GENERAL_REGISTER_COUNT) <==> r < 35
    ensures r in Count(SIMD_REGISTER_COUNT) <==> r < 32
    ensures r in StateSystem(nested) <==> IsGuestState(r, nested)
    ensures r in StateIcc(nested) <==> IsInterface(r, nested)
    ensures r in StateIch(nested, count) <==> IsVirtualInterface(r, nested, count)
  {
    hide StateSystem, StateIcc, StateIch, IsGuestState, IsInterface, IsVirtualInterface;
    if r < 35 { assert Count(GENERAL_REGISTER_COUNT)[r] == r; }
    if r < 32 { assert Count(SIMD_REGISTER_COUNT)[r] == r; }
    SystemListed(r, nested);
    InterfaceListed(r, nested);
    VirtualListed(r, nested, count);
  }

  lemma AlikeBeyond(a: Cpu, b: Cpu, nested: bool, count: nat)
    requires count <= 16 && Alike(a, b, nested, count)
    ensures Holds(a.general, Count(GENERAL_REGISTER_COUNT))
    ensures SameBeyond(a.general, b.general, Count(GENERAL_REGISTER_COUNT))
    ensures Holds(a.simd, Count(SIMD_REGISTER_COUNT)) && SameBeyond(a.simd, b.simd, Count(SIMD_REGISTER_COUNT))
    ensures Holds(a.system, StateSystem(nested)) && SameBeyond(a.system, b.system, StateSystem(nested))
    ensures Holds(a.icc, StateIcc(nested)) && SameBeyond(a.icc, b.icc, StateIcc(nested))
    ensures Holds(a.ich, StateIch(nested, count)) && SameBeyond(a.ich, b.ich, StateIch(nested, count))
  {
    hide StateSystem, StateIcc, StateIch, IsGuestState, IsInterface, IsVirtualInterface, Count;
    hide Agree, Holds, SameBeyond;
    forall r: nat ensures r in Count(GENERAL_REGISTER_COUNT) <==> r < 35 { Listed(r, nested, count); }
    forall r: nat ensures r in Count(SIMD_REGISTER_COUNT) <==> r < 32 { Listed(r, nested, count); }
    forall r: nat ensures r in StateSystem(nested) <==> IsGuestState(r, nested) { Listed(r, nested, count); }
    forall r: nat ensures r in StateIcc(nested) <==> IsInterface(r, nested) { Listed(r, nested, count); }
    forall r: nat ensures r in StateIch(nested, count) <==> IsVirtualInterface(r, nested, count) {
      Listed(r, nested, count);
    }
    AgreeBeyond(a.general, b.general, r => r < 35, Count(GENERAL_REGISTER_COUNT));
    AgreeBeyond(a.simd, b.simd, r => r < 32, Count(SIMD_REGISTER_COUNT));
    AgreeBeyond(a.system, b.system, (r: nat) => IsGuestState(r, nested), StateSystem(nested));
    AgreeBeyond(a.icc, b.icc, (r: nat) => IsInterface(r, nested), StateIcc(nested));
    AgreeBeyond(a.ich, b.ich, (r: nat) => IsVirtualInterface(r, nested, count), StateIch(nested, count));
  }

  lemma RewrittenIsSource(v: Vcpu, c: Cpu, count: nat)
    requires count <= 16 && Alike(v.cpu, c, v.nested, count)
    ensures Rewritten(c, Saved(v, count), v.nested) == v.cpu.(mask := v.cpu.mask && !v.nested)
  {
    hide StateSystem, StateIcc, StateIch, Read, WriteAll, Count, Holds, SameBeyond, Alike;
    AlikeBeyond(v.cpu, c, v.nested, count);
    var general := if v.nested then c.general[CPSR := PSTATE_EL2_FAULT_BITS] else c.general;
    CpsrIsWithin(v.cpu.general, c.general);
    WriteAllRestores(general, v.cpu.general, Count(GENERAL_REGISTER_COUNT));
    WriteAllRestores(c.simd, v.cpu.simd, Count(SIMD_REGISTER_COUNT));
    WriteAllRestores(c.system, v.cpu.system, StateSystem(v.nested));
    WriteAllRestores(c.icc, v.cpu.icc, StateIcc(v.nested));
    WriteAllRestores(c.ich, v.cpu.ich, StateIch(v.nested, count));
  }

  lemma CpsrIsWithin(a: Regs, b: Regs)
    requires SameBeyond(a, b, Count(GENERAL_REGISTER_COUNT))
    ensures SameBeyond(a, b[CPSR := PSTATE_EL2_FAULT_BITS], Count(GENERAL_REGISTER_COUNT))
  {
    assert Count(GENERAL_REGISTER_COUNT)[CPSR] == CPSR;
  }

  /** After a restore, the registers of the contract are the source's and the others are as before. */
  ghost predicate Carried(source: Regs, before: Regs, after: Regs, contract: nat -> bool) {
    forall r: nat :: Get(after, r) == if contract(r) then Get(source, r) else Get(before, r)
  }

  lemma OverwrittenCarries(source: Regs, before: Regs, after: Regs, contract: nat -> bool, names: seq<nat>)
    requires Overwritten(before, after, source, names) && forall r: nat :: r in names <==> contract(r)
    ensures Carried(source, before, after, contract)
  {
  }

  /** A capture of a guest without a pending load, by what the host and the guest are. */
  lemma CaptureIs(a: Vcpu, g: Gic)
    requires Offers(g, a.nested) && a.load.None? && ListCount(a) <= 16
    ensures Capture(a, g) == Ok(Saved(a, ListCount(a)))
  {
    hide ListRegisterCount, Saved, ListCount;
    CountIs(a, g);
  }

  /** The register reads of a capture: 118, or 148 and one for each list register. */
  lemma ReadsNeeded(a: Vcpu, count: nat)
    requires count <= 16
    ensures AllReads(a, count) == if a.nested then 148 + count else 118
    ensures EarlyReads(a) + (if a.nested then 1 else 0) == if a.nested then 140 else 114
  {
    hide StateIch;
    NestedIchRegisters(count);
    FlatHasNoIch(count);
  }

  /** Which captures succeed, and why the others do not, from a host that answers so many reads. */
  lemma CaptureSucceedsIff(a: Vcpu, g: Gic, answers: nat)
    ensures var r := CaptureWithin(a, g, answers);
      && (r.Ok? <==>
          && Offers(g, a.nested) && a.load.None? && ListCount(a) <= 16
          && answers >= if a.nested then 148 + ListCount(a) else 118)
      && (r.Ok? ==> r == Capture(a, g))
      && (!Offers(g, a.nested) ==> r == Err(ApiUnavailable))
      && (Offers(g, a.nested) && a.load.Some? ==> r == Err(PendingMmio))
      && (r == Err(Topology) <==>
          Offers(g, a.nested) && a.load.None? && ListCount(a) > 16 && answers >= 140)
  {
    hide ListRegisterCount, Saved, AllReads, EarlyReads, ListCount;
    ReadsNeeded(a, 0);
    FlatCount(a);
    if ListCount(a) <= 16 { ReadsNeeded(a, ListCount(a)); }
    if Offers(g, a.nested) { CountIs(a, g); }
  }

  /**
   * Which destinations take a captured state: exactly those of the same kind with as many
   * list registers, on a host that accepts every write.
   */
  lemma RestoreAccepts(a: Vcpu, b: Vcpu, g: Gic, budget: nat)
    requires Offers(g, a.nested) && a.load.None? && ListCount(a) <= 16
    ensures Capture(a, g).Ok?
    ensures Restore(b, Capture(a, g).value, g, budget).1.None? <==>
            a.nested == b.nested && ListCount(a) == ListCount(b) && budget >= WritesNeeded(a.nested, ListCount(a))
  {
    hide Script, ApplyAll, Saved, ListRegisterCount, HasTopology, ListCount;
    CaptureIs(a, g);
    var n := ListCount(a);
    ScriptSize(a, n);
    if Offers(g, b.nested) { CountIs(b, g); }
    FlatCount(a);
    FlatCount(b);
    KindDecides(a, b.nested, n, ListCount(b));
    if a.nested && !b.nested { FlatNeedsNothing(b, g); }
  }

  lemma FlatCount(v: Vcpu)
    ensures !v.nested ==> ListCount(v) == 0
    ensures v.nested ==> ListCount(v) > 0
  {
  }

  lemma FlatNeedsNothing(v: Vcpu, g: Gic)
    requires !v.nested
    ensures ListRegisterCount(v, g) == Ok(0)
  {
  }

  lemma KindDecides(v: Vcpu, nested: bool, n: nat, m: nat)
    requires n <= 16 && (!v.nested ==> n == 0)
    ensures HasTopology(Saved(v, n), nested, m) ==> v.nested == nested
    ensures v.nested && nested && m <= 16 ==> (HasTopology(Saved(v, n), nested, m) <==> n == m)
    ensures !v.nested && !nested ==> HasTopology(Saved(v, n), nested, m)
  {
    hide StateIch, StateSystem, StateIcc, Count, ListRegisters, Read, Names;
    SavedNames(v, n);
    FlatHasNoIch(n);
    FlatHasNoIch(m);
    if v.nested && nested && m <= 16 { TopologyMatches(v, n, m); }
  }

  /**
   * From any destination: after capture and restore every register the architecture gives a
   * guest is the source's, every other one is the destination's own.
   */
  lemma RestoreCarries(a: Vcpu, b: Vcpu, g: Gic, budget: nat)
    requires Offers(g, a.nested) && a.load.None? && ListCount(a) <= 16
    requires a.nested == b.nested && ListCount(a) == ListCount(b) && budget >= WritesNeeded(a.nested, ListCount(a))
    ensures Capture(a, g).Ok?
    ensures var (r, error) := Restore(b, Capture(a, g).value, g, budget);
      && error.None?
      && Carried(a.cpu.general, b.cpu.general, r.cpu.general, x => x < 35)
      && Carried(a.cpu.simd, b.cpu.simd, r.cpu.simd, x => x < 32)
      && Carried(a.cpu.system, b.cpu.system, r.cpu.system, (x: nat) => IsGuestState(x, a.nested))
      && Carried(a.cpu.icc, b.cpu.icc, r.cpu.icc, (x: nat) => IsInterface(x, a.nested))
      && Carried(a.cpu.ich, b.cpu.ich, r.cpu.ich, (x: nat) => IsVirtualInterface(x, a.nested, ListCount(a)))
      && r.cpu.irq == a.cpu.irq && r.cpu.fiq == a.cpu.fiq && r.cpu.offset == a.cpu.offset
      && r.cpu.mask == r.masked == (a.cpu.mask && !a.nested) && r.advance == a.advance && r.load.None?
  {
    hide Script, ApplyAll, Saved, ListRegisterCount, HasTopology, ListCount, Overwritten, Carried, Count;
    hide StateSystem, StateIcc, StateIch, IsGuestState, IsInterface, IsVirtualInterface;
    var n := ListCount(a);
    RestoreAccepts(a, b, g, budget);
    CaptureIs(a, g);
    CountIs(b, g);
    ScriptSize(a, n);
    SavedRest(a, n);
    ScriptRestores(b.cpu, a, n);
    var d := ApplyAll(b.cpu, Script(Saved(a, n), a.nested));
    forall r: nat ensures r in Count(GENERAL_REGISTER_COUNT) <==> r < 35 { Listed(r, a.nested, n); }
    forall r: nat ensures r in Count(SIMD_REGISTER_COUNT) <==> r < 32 { Listed(r, a.nested, n); }
    forall r: nat ensures r in StateSystem(a.nested) <==> IsGuestState(r, a.nested) { Listed(r, a.nested, n); }
    forall r: nat ensures r in StateIcc(a.nested) <==> IsInterface(r, a.nested) { Listed(r, a.nested, n); }
    forall r: nat ensures r in StateIch(a.nested, n) <==> IsVirtualInterface(r, a.nested, n) {
      Listed(r, a.nested, n);
    }
    OverwrittenCarries(a.cpu.general, b.cpu.general, d.general, x => x < 35, Count(GENERAL_REGISTER_COUNT));
    OverwrittenCarries(a.cpu.simd, b.cpu.simd, d.simd, x => x < 32, Count(SIMD_REGISTER_COUNT));
    OverwrittenCarries(a.cpu.system, b.cpu.system, d.system, (x: nat) => IsGuestState(x, a.nested),
                       StateSystem(a.nested));
    OverwrittenCarries(a.cpu.icc, b.cpu.icc, d.icc, (x: nat) => IsInterface(x, a.nested), StateIcc(a.nested));
    OverwrittenCarries(a.cpu.ich, b.cpu.ich, d.ich, (x: nat) => IsVirtualInterface(x, a.nested, n),
                       StateIch(a.nested, n));
  }

  lemma SavedRest(v: Vcpu, n: nat)
    ensures var s := Saved(v, n);
      s.mask == v.cpu.mask && s.advance == v.advance
  {
  }

  /**
   * The debug registers are not carried: one comes back exactly when the destination already
   * holds the source's value.
   */
  lemma DebugStaysBehind(a: Vcpu, b: Vcpu, g: Gic, budget: nat, x: nat)
    requires Offers(g, a.nested) && a.load.None? && ListCount(a) <= 16
    requires a.nested == b.nested && ListCount(a) == ListCount(b) && budget >= WritesNeeded(a.nested, ListCount(a))
    requires IsDebug(x)
    ensures Capture(a, g).Ok?
    ensures var r := Restore(b, Capture(a, g).value, g, budget).0;
      Get(r.cpu.system, x) == Get(a.cpu.system, x) <==> Get(b.cpu.system, x) == Get(a.cpu.system, x)
  {
    hide Capture, Restore, ListCount;
    RestoreCarries(a, b, g, budget);
    assert !IsGuestState(x, a.nested);
  }

  /**
   * Capture then restore, on a host that accepts the writes: the destination holds the
   * source's registers and pending step; only a nested destination drops the timer mask.
   */
  lemma RestoreOfCapture(a: Vcpu, b: Vcpu, g: Gic, budget: nat)
    requires Offers(g, a.nested) && a.load.None? && a.nested == b.nested
    requires ListCount(a) <= 16 && ListCount(a) == ListCount(b)
    requires Alike(a.cpu, b.cpu, a.nested, ListCount(a))
    requires budget >= WritesNeeded(a.nested, ListCount(a))
    ensures Capture(a, g).Ok?
    ensures Restore(b, Capture(a, g).value, g, budget) ==
            (b.(cpu := a.cpu.(mask := a.cpu.mask && !a.nested), load := None,
                advance := a.advance, masked := a.cpu.mask && !a.nested),
             None)
  {
    hide Alike, Script, ApplyAll, Rewritten, StateSystem, StateIcc, StateIch, Count, Read, Names, ListRegisterCount;
    hide ListCount, HasTopology;
    var count := ListCount(a);
    RestoreAccepts(a, b, g, budget);
    CaptureIs(a, g);
    CountIs(b, g);
    ScriptSize(a, count);
    ApplyScript(b.cpu, Saved(a, count), a.nested);
    RewrittenIsSource(a, b.cpu, count);
  }

  /**
   * For a vCPU that is not nested the restored copy is indistinguishable: whatever the guest
   * and the monitor do next, both report the same and show the guest the same registers.
   */
  lemma RestoredRunsAlike(a: Vcpu, b: Vcpu, g: Gic, budget: nat, turns: seq<Turn>, k: nat)
    requires Valid(a) && Synced(a) && Valid(b) && !a.nested && !b.nested && AllFair(turns)
    requires Offers(g, false) && a.load.None? && a.cntfrq == b.cntfrq
    requires Alike(a.cpu, b.cpu, false, 0)
    requires budget >= 118
    ensures Capture(a, g).Ok?
    ensures var (r, error) := Restore(b, Capture(a, g).value, g, budget);
      && error.None? && Valid(r) && Synced(r)
      && |Trace(r, turns)| == |Trace(a, turns)|
      && (k < |Trace(a, turns)| ==>
            && Trace(r, turns)[k].0.cpu == Trace(a, turns)[k].0.cpu
            && Trace(r, turns)[k].1 == Trace(a, turns)[k].1)
  {
    hide Trace, Reference, Alike, Script, Capture, Restore, Saved, LeValue;
    RestoreOfCapture(a, b, g, budget);
    var r := Restore(b, Capture(a, g).value, g, budget).0;
    RunsAreAtomic(a, turns, k);
    RunsAreAtomic(r, turns, k);
    assert Settle(r).cpu == Settle(a).cpu;
  }

  /**
   * A nested copy runs as the source would with its timer notifications unmasked, which is
   * also the source itself whenever the mask was clear.
   */
  lemma NestedRestoredRuns(a: Vcpu, b: Vcpu, g: Gic, budget: nat, turns: seq<Turn>, k: nat)
    requires Valid(a) && Synced(a) && Valid(b) && a.nested && b.nested && AllFair(turns)
    requires Offers(g, true) && a.load.None? && a.cntfrq == b.cntfrq
    requires ListCount(a) <= 16 && ListCount(a) == ListCount(b)
    requires Alike(a.cpu, b.cpu, true, ListCount(a))
    requires budget >= 148 + ListCount(a)
    ensures Capture(a, g).Ok?
    ensures var (r, error) := Restore(b, Capture(a, g).value, g, budget);
      var unmasked := a.(cpu := a.cpu.(mask := false), masked := false);
      && error.None? && Valid(r) && Synced(r)
      && |Trace(r, turns)| == |Trace(unmasked, turns)|
      && (k < |Trace(r, turns)| ==>
            && Trace(r, turns)[k].0.cpu == Trace(unmasked, turns)[k].0.cpu
            && Trace(r, turns)[k].1 == Trace(unmasked, turns)[k].1)
  {
    hide Trace, Reference, Alike, Script, Capture, Restore, Saved, LeValue, ListCount;
    RestoreOfCapture(a, b, g, budget);
    var r := Restore(b, Capture(a, g).value, g, budget).0;
    var unmasked := a.(cpu := a.cpu.(mask := false), masked := false);
    RunsAreAtomic(unmasked, turns, k);
    RunsAreAtomic(r, turns, k);
    assert Settle(r).cpu == Settle(unmasked).cpu;
  }

  // The order of the writes.

  /** Where each part of a script starts. */
  function IccAt(s: State, nested: bool): nat {
    |Clock(s, nested)| + |s.general| + |s.simd| + |s.system|
  }

  function IchAt(s: State, nested: bool): nat {
    IccAt(s, nested) + |s.icc|
  }

  lemma IccPart(s: State, nested: bool, k: nat)
    requires k < |Script(s, nested)|
    ensures Script(s, nested)[k].Icc? <==> IccAt(s, nested) <= k < IchAt(s, nested)
    ensures IccAt(s, nested) <= k < IchAt(s, nested) ==>
              var p := s.icc[k - IccAt(s, nested)];
              Script(s, nested)[k] == Icc(p.0, p.1)
  {
    hide Generals, Simds, Systems, Iccs, Ichs;
  }

  lemma IchPart(s: State, nested: bool, k: nat)
    requires k < |Script(s, nested)|
    ensures Script(s, nested)[k].Ich? <==> IchAt(s, nested) <= k < IchAt(s, nested) + |s.ich|
    ensures IchAt(s, nested) <= k < IchAt(s, nested) + |s.ich| ==>
              var p := s.ich[k - IchAt(s, nested)];
              Script(s, nested)[k] == Ich(p.0, p.1)
  {
    hide Generals, Simds, Systems, Iccs, Ichs;
  }

  /** Register `name` of the virtual interrupt interface was written before position `k`. */
  ghost predicate IchBefore(ws: seq<Write>, k: nat, name: nat) {
    exists i :: 0 <= i < k && i < |ws| && ws[i].Ich? && ws[i].name == name
  }

  ghost predicate IccBefore(ws: seq<Write>, k: nat, name: nat) {
    exists i :: 0 <= i < k && i < |ws| && ws[i].Icc? && ws[i].name == name
  }

  /** The virtual interface is enabled after its priorities, control and list registers. */
  lemma InterfaceEnabledLast(s: State, nested: bool, count: nat, k: nat, r: nat)
    requires count <= 16 && HasTopology(s, nested, count)
    requires k < |Script(s, nested)|
    requires Script(s, nested)[k].Ich? && Script(s, nested)[k].name == ICH_HCR_EL2
    requires IsVirtualInterface(r, nested, count) && r != ICH_HCR_EL2
    ensures IchBefore(Script(s, nested), k, r)
  {
    hide Script, StateIch, StateSystem, StateIcc, Count, Names;
    VirtualListed(r, nested, count);
    var names := StateIch(nested, count);
    NestedIchRegisters(count);
    FlatHasNoIch(count);
    IchPart(s, nested, k);
    ScriptLength(s, nested);
    var i :| 0 <= i < |names| && names[i] == r;
    IchPart(s, nested, IchAt(s, nested) + i);
    assert names[k - IchAt(s, nested)] == ICH_HCR;
    assert Script(s, nested)[IchAt(s, nested) + i].name == r;
  }

  lemma FlatHasNoIch(count: nat)
    ensures StateIch(false, count) == []
  {
  }

  lemma ScriptLength(s: State, nested: bool)
    ensures |Script(s, nested)| == IchAt(s, nested) + |s.ich| + 3
  {
  }

  /** Interrupt groups are enabled after control, priority and active state. */
  lemma GroupsEnabledLast(s: State, nested: bool, count: nat, k: nat, r: nat)
    requires HasTopology(s, nested, count)
    requires k < |Script(s, nested)|
    requires Script(s, nested)[k].Icc? && IsEnable(Script(s, nested)[k].name)
    requires IsPriority(r)
    ensures IccBefore(Script(s, nested), k, r)
  {
    hide Script, StateIch, StateSystem, Count, Names;
    var names := StateIcc(nested);
    IccPart(s, nested, k);
    ScriptLength(s, nested);
    assert r in ICC_STATE;
    var i :| 0 <= i < |ICC_STATE| && ICC_STATE[i] == r;
    var j := if nested then i + 1 else i;
    assert names[j] == r;
    IccPart(s, nested, IccAt(s, nested) + j);
    assert Script(s, nested)[IccAt(s, nested) + j].name == r;
  }

  /** No system register, so no timer, is programmed before the counter offset is set. */
  lemma ClockBeforeTimers(s: State, nested: bool, k: nat)
    requires k < |Script(s, nested)|
    requires Script(s, nested)[k].System?
    ensures exists i :: 0 <= i < k && Script(s, nested)[i] == Offset(s.offset)
    ensures forall i :: k <= i < |Script(s, nested)| ==> !Script(s, nested)[i].Offset?
  {
    hide Generals, Simds, Systems, Iccs, Ichs;
    var at := |Clock(s, nested)| - 1;
    assert Script(s, nested)[at] == Offset(s.offset);
  }

  /** A nested destination is put into its hypervisor's mode, with every interrupt masked, first. */
  lemma HypervisorModeFirst(s: State, nested: bool)
    ensures nested ==>
              |Script(s, nested)| > 1 && Script(s, nested)[0] == General(34, 0x09 + 0x40 + 0x80 + 0x100 + 0x200)
    ensures !nested ==> |Script(s, nested)| > 0 && Script(s, nested)[0] == Offset(s.offset)
  {
    hide Generals, Simds, Systems, Iccs, Ichs;
    assert Script(s, nested)[0] == Clock(s, nested)[0];
  }
}
