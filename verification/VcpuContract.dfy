/**
 * The registers a saved vCPU holds are those the architecture gives a guest: the lists the
 * code goes through, against the encodings.
 */
module VcpuContract {
  import opened ArmArchitecture
  import opened VcpuState

  lemma El1Listed(r: nat)
    ensures r in EL1_SYSTEM_REGISTERS <==> IsGuestState(r, false)
  {
  }

  lemma El2Listed(r: nat)
    ensures r in EL2_SYSTEM_REGISTERS <==> IsHypervisorControl(r) || IsHypervisorMemory(r)
  {
  }

  /** The system registers, with those of the hypervisor if the guest is one. */
  lemma SystemListed(r: nat, nested: bool)
    ensures r in StateSystem(nested) <==> IsGuestState(r, nested)
  {
    hide EL1_SYSTEM_REGISTERS, EL2_SYSTEM_REGISTERS, IsHypervisorControl, IsHypervisorMemory;
    hide IsControl, IsTranslation, IsKey, IsException, IsThread, IsTimer;
    El1Listed(r);
    El2Listed(r);
  }

  lemma InterfaceListed(r: nat, nested: bool)
    ensures r in StateIcc(nested) <==> IsInterface(r, nested)
  {
  }
}
