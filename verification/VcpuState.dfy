/**
 * The register contract of a saved vCPU, capturing one and restoring it on another.
 *
 * A restore is a list of framework writes. Any of them can fail, and then the ones before it
 * have happened: so what is claimed about the order of the writes is claimed for the list,
 * and holds in every prefix.
 */
module VcpuState {
  import opened Options
  import opened VcpuModel

  const GENERAL_REGISTER_COUNT: nat := 35
  const SIMD_REGISTER_COUNT: nat := 32
  const PSTATE_EL2_FAULT_BITS: nat := 0x3c9

  const EL1_SYSTEM_REGISTERS: seq<nat> :=
    [49280, 49281, 49282, 49408, 49409, 49410, 49416, 49417, 49418, 49419, 49424, 49425, 49426,
     49427, 49432, 49433, 49664, 49665, 49672, 57864, 49800, 49801, 49808, 49920, 50080, 50448,
     50456, 50688, 50817, 50820, 56962, 56963, 50952, 53248, 57113, 57114, 57105, 57106]

  const EL2_SYSTEM_REGISTERS: seq<nat> :=
    [59144, 59153, 59154, 59139, 57482, 57857, 58000, 58112, 57480, 58116, 58640, 57481, 57472,
     57856, 61960, 57602, 59010, 57600, 57601, 58880, 57349, 57344, 57610, 57608]

  const ICC_CTLR: nat := 50788
  const ICC_PMR: nat := 49712
  const ICC_BPR0: nat := 50755
  const ICC_BPR1: nat := 50787
  const ICC_AP0R0: nat := 50756
  const ICC_AP1R0: nat := 50760
  const ICC_SRE: nat := 50789
  const ICC_IGRPEN0: nat := 50790
  const ICC_IGRPEN1: nat := 50791
  const ICC_SRE_EL2: nat := 58957

  /** Control, priority and active state first; the enables last. */
  const ICC_STATE: seq<nat> := [ICC_CTLR, ICC_PMR, ICC_BPR0, ICC_BPR1, ICC_AP0R0, ICC_AP1R0]
  const ICC_ENABLES: seq<nat> := [ICC_SRE, ICC_IGRPEN0, ICC_IGRPEN1]
  const NESTED_ICC_REGISTERS: seq<nat> := [ICC_SRE_EL2]

  const ICH_AP0R0: nat := 58944
  const ICH_AP1R0: nat := 58952
  const ICH_HCR: nat := 58968
  const ICH_VTR: nat := 58969
  const ICH_VMCR: nat := 58975
  const ICH_LR0: nat := 58976
  const MAX_LIST_REGISTERS: nat := 16

  function Count(n: nat): (s: seq<nat>)
    ensures |s| == n && forall i :: 0 <= i < n ==> s[i] == i
  {
    seq(n, i => i)
  }

  function ListRegisters(n: nat): (s: seq<nat>)
    ensures |s| == n && forall i :: 0 <= i < n ==> s[i] == ICH_LR0 + i
  {
    seq(n, i requires i >= 0 => ICH_LR0 + i)
  }

  function NestedIch(): seq<nat> {
    [ICH_AP0R0, ICH_AP1R0, ICH_VMCR] + ListRegisters(MAX_LIST_REGISTERS) + [ICH_HCR]
  }

  function StateSystem(nested: bool): seq<nat> {
    EL1_SYSTEM_REGISTERS + if nested then EL2_SYSTEM_REGISTERS else []
  }

  function StateIcc(nested: bool): seq<nat> {
    (if nested then NESTED_ICC_REGISTERS else []) + ICC_STATE + ICC_ENABLES
  }

  /** A register outside the list-register block, or one of the first `count` of that block. */
  predicate Implemented(r: nat, count: nat) {
    !(ICH_LR0 <= r < ICH_LR0 + MAX_LIST_REGISTERS) || r - ICH_LR0 < count
  }

  function Filter(regs: seq<nat>, count: nat): seq<nat> {
    if regs == [] then []
    else (if Implemented(regs[0], count) then [regs[0]] else []) + Filter(regs[1..], count)
  }

  function StateIch(nested: bool, count: nat): seq<nat> {
    if nested then Filter(NestedIch(), count) else []
  }

  // Saved state.

  type Pairs = seq<(nat, nat)>

  datatype State = State(general: Pairs, simd: Pairs, system: Pairs, icc: Pairs, ich: Pairs,
                         irq: bool, fiq: bool, mask: bool, offset: nat,
                         advance: bool, nested: bool)

  datatype Error = ApiUnavailable | PendingMmio | Topology | HostRefused

  datatype Result<+T> = Ok(value: T) | Err(error: Error)

  /** Which entry points of the interrupt-controller interface the host offers. */
  datatype Gic = Gic(readIcc: bool, writeIcc: bool, readIch: bool, writeIch: bool)

  predicate Offers(g: Gic, nested: bool) {
    g.readIcc && g.writeIcc && (nested ==> g.readIch && g.writeIch)
  }

  function Names(ps: Pairs): (s: seq<nat>)
    ensures |s| == |ps| && forall i :: 0 <= i < |ps| ==> s[i] == ps[i].0
  {
    seq(|ps|, i requires 0 <= i < |ps| => ps[i].0)
  }

  predicate HasTopology(s: State, nested: bool, count: nat) {
    && s.nested == nested
    && Names(s.general) == Count(GENERAL_REGISTER_COUNT)
    && Names(s.simd) == Count(SIMD_REGISTER_COUNT)
    && Names(s.system) == StateSystem(nested)
    && Names(s.icc) == StateIcc(nested)
    && Names(s.ich) == StateIch(nested, count)
  }

  function ListRegisterCount(v: Vcpu, g: Gic): Result<nat> {
    if !v.nested then Ok(0)
    else if !g.readIch then Err(ApiUnavailable)
    else
      var count := Get(v.cpu.ich, ICH_VTR) % 32 + 1;
      if count > MAX_LIST_REGISTERS then Err(Topology) else Ok(count)
  }

  function Read(m: Regs, names: seq<nat>): (ps: Pairs)
    ensures |ps| == |names|
    ensures forall i :: 0 <= i < |names| ==> ps[i] == (names[i], Get(m, names[i]))
  {
    seq(|names|, i requires 0 <= i < |names| => (names[i], Get(m, names[i])))
  }

  function Saved(v: Vcpu, count: nat): State {
    State(Read(v.cpu.general, Count(GENERAL_REGISTER_COUNT)),
          Read(v.cpu.simd, Count(SIMD_REGISTER_COUNT)),
          Read(v.cpu.system, StateSystem(v.nested)),
          Read(v.cpu.icc, StateIcc(v.nested)),
          Read(v.cpu.ich, StateIch(v.nested, count)),
          v.cpu.irq, v.cpu.fiq, v.cpu.mask, v.cpu.offset, v.advance, v.nested)
  }

  function Capture(v: Vcpu, g: Gic): Result<State> {
    if !Offers(g, v.nested) then Err(ApiUnavailable)
    else if v.load.Some? then Err(PendingMmio)
    else
      var count := ListRegisterCount(v, g);
      if count.Err? then Err(count.error) else Ok(Saved(v, count.value))
  }

  /** The register reads that come before the list registers are counted. */
  function EarlyReads(v: Vcpu): nat {
    GENERAL_REGISTER_COUNT + SIMD_REGISTER_COUNT + |StateSystem(v.nested)| + |StateIcc(v.nested)|
  }

  /** All reads of a capture: the count itself if nested, the list, two lines, mask and offset. */
  function AllReads(v: Vcpu, count: nat): nat {
    EarlyReads(v) + (if v.nested then 1 else 0) + |StateIch(v.nested, count)| + 4
  }

  /** Captures from a host that answers `answers` register reads before refusing one. */
  function CaptureWithin(v: Vcpu, g: Gic, answers: nat): Result<State> {
    if !Offers(g, v.nested) then Err(ApiUnavailable)
    else if v.load.Some? then Err(PendingMmio)
    else if answers < EarlyReads(v) + (if v.nested then 1 else 0) then Err(HostRefused)
    else
      var count := ListRegisterCount(v, g);
      if count.Err? then Err(count.error)
      else if answers < AllReads(v, count.value) then Err(HostRefused)
      else Ok(Saved(v, count.value))
  }

  // Restoring.

  datatype Write =
    | General(name: nat, value: nat)
    | Simd(name: nat, value: nat)
    | System(name: nat, value: nat)
    | Icc(name: nat, value: nat)
    | Ich(name: nat, value: nat)
    | Irq(on: bool)
    | Fiq(on: bool)
    | Mask(on: bool)
    | Offset(value: nat)

  function Apply(c: Cpu, w: Write): Cpu {
    match w
    case General(r, x) => c.(general := c.general[r := x])
    case Simd(r, x) => c.(simd := c.simd[r := x])
    case System(r, x) => c.(system := c.system[r := x])
    case Icc(r, x) => c.(icc := c.icc[r := x])
    case Ich(r, x) => c.(ich := c.ich[r := x])
    case Irq(b) => c.(irq := b)
    case Fiq(b) => c.(fiq := b)
    case Mask(b) => c.(mask := b)
    case Offset(x) => c.(offset := x)
  }

  function ApplyAll(c: Cpu, ws: seq<Write>): Cpu {
    if ws == [] then c else Apply(ApplyAll(c, ws[..|ws| - 1]), ws[|ws| - 1])
  }

  function Generals(ps: Pairs): (ws: seq<Write>)
    ensures |ws| == |ps| && forall i :: 0 <= i < |ps| ==> ws[i] == General(ps[i].0, ps[i].1)
  {
    seq(|ps|, i requires 0 <= i < |ps| => General(ps[i].0, ps[i].1))
  }

  function Simds(ps: Pairs): (ws: seq<Write>)
    ensures |ws| == |ps| && forall i :: 0 <= i < |ps| ==> ws[i] == Simd(ps[i].0, ps[i].1)
  {
    seq(|ps|, i requires 0 <= i < |ps| => Simd(ps[i].0, ps[i].1))
  }

  function Systems(ps: Pairs): (ws: seq<Write>)
    ensures |ws| == |ps| && forall i :: 0 <= i < |ps| ==> ws[i] == System(ps[i].0, ps[i].1)
  {
    seq(|ps|, i requires 0 <= i < |ps| => System(ps[i].0, ps[i].1))
  }

  function Iccs(ps: Pairs): (ws: seq<Write>)
    ensures |ws| == |ps| && forall i :: 0 <= i < |ps| ==> ws[i] == Icc(ps[i].0, ps[i].1)
  {
    seq(|ps|, i requires 0 <= i < |ps| => Icc(ps[i].0, ps[i].1))
  }

  function Ichs(ps: Pairs): (ws: seq<Write>)
    ensures |ws| == |ps| && forall i :: 0 <= i < |ps| ==> ws[i] == Ich(ps[i].0, ps[i].1)
  {
    seq(|ps|, i requires 0 <= i < |ps| => Ich(ps[i].0, ps[i].1))
  }

  function Clock(s: State, nested: bool): seq<Write> {
    (if nested then [General(CPSR, PSTATE_EL2_FAULT_BITS)] else []) + [Offset(s.offset)]
  }

  function Lines(s: State, nested: bool): seq<Write> {
    [Irq(s.irq), Fiq(s.fiq), Mask(s.mask && !nested)]
  }

  /** The framework writes of a restore, in order. */
  function Script(s: State, nested: bool): seq<Write> {
    Clock(s, nested) + Generals(s.general) + Simds(s.simd) + Systems(s.system)
    + Iccs(s.icc) + Ichs(s.ich) + Lines(s, nested)
  }

  /** Restores a state on a host that accepts `budget` register writes before refusing one. */
  function Restore(v: Vcpu, s: State, g: Gic, budget: nat): (Vcpu, Option<Error>) {
    var count := ListRegisterCount(v, g);
    if count.Err? then (v, Some(count.error))
    else if !HasTopology(s, v.nested, count.value) then (v, Some(Topology))
    else if !Offers(g, v.nested) then (v, Some(ApiUnavailable))
    else
      var script := Script(s, v.nested);
      if budget < |script| then (v.(cpu := ApplyAll(v.cpu, script[..budget])), Some(HostRefused))
      else
        (v.(cpu := ApplyAll(v.cpu, script), load := None, advance := s.advance,
            masked := s.mask && !v.nested),
         None)
  }
}
