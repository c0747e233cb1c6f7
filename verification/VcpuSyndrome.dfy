/** Decoding a syndrome recovers the fields it was packed from. */
module VcpuSyndrome {
  import opened ArmArchitecture
  import opened VcpuModel

  /**
   * A data abort: the size is two to the power of its field, the register and the direction
   * are their fields, and no other field matters.
   */
  lemma AbortDecodes(upper: nat, il: nat, isv: nat, sas: nat, sse: nat, srt: nat, flags: nat, wnr: nat, low: nat,
                     address: nat)
    requires il < 2 && isv < 2 && sas < 4 && sse < 2 && srt < 32 && flags < 512 && wnr < 2 && low < 64
    ensures var s := Syndrome(upper, 0x24, il, AbortDetails(isv, sas, sse, srt, flags, wnr, low));
      Decode(s, address) ==
      if wnr == 1 then DataStore(address, Power2(sas), srt) else DataLoad(Load(address, Power2(sas), srt))
  {
    hide Decode;
    var s := Syndrome(upper, 0x24, il, AbortDetails(isv, sas, sse, srt, flags, wnr, low));
    ClassOf(upper, 0x24, il, AbortDetails(isv, sas, sse, srt, flags, wnr, low));
    var above := 256 * upper + 4 * 0x24 + 2 * il + isv;
    SizeField(s, above, sas, 0x20_0000 * sse + 0x1_0000 * srt + 0x80 * flags + 0x40 * wnr + low);
    above := 4 * above + sas;
    RegisterField(s, 2 * above + sse, srt, 0x80 * flags + 0x40 * wnr + low);
    DirectionField(s, 0x200 * (32 * (2 * above + sse) + srt) + flags, wnr, low);
    AbortUnfold(s, address);
    PowersOfTwo();
  }

  lemma ClassOf(upper: nat, ec: nat, il: nat, iss: nat)
    requires ec < 64 && il < 2 && iss < 0x200_0000
    ensures (Syndrome(upper, ec, il, iss) / 0x400_0000) % 64 == ec
  {
    assert Syndrome(upper, ec, il, iss) / 0x400_0000 == 64 * upper + ec;
  }

  lemma SizeField(s: nat, above: nat, sas: nat, below: nat)
    requires sas < 4 && below < 0x40_0000 && s == 0x100_0000 * above + 0x40_0000 * sas + below
    ensures (s / 0x40_0000) % 4 == sas
  {
    assert s / 0x40_0000 == 4 * above + sas;
  }

  lemma RegisterField(s: nat, above: nat, srt: nat, below: nat)
    requires srt < 32 && below < 0x1_0000 && s == 0x20_0000 * above + 0x1_0000 * srt + below
    ensures (s / 0x1_0000) % 32 == srt
  {
    assert s / 0x1_0000 == 32 * above + srt;
  }

  lemma DirectionField(s: nat, above: nat, wnr: nat, low: nat)
    requires wnr < 2 && low < 64 && s == 128 * above + 64 * wnr + low
    ensures (s / 64) % 2 == wnr
  {
    assert s / 64 == 2 * above + wnr;
  }

  lemma AbortUnfold(s: nat, address: nat)
    requires (s / 0x400_0000) % 64 == 0x24
    ensures var sas, srt := (s / 0x40_0000) % 4, (s / 0x1_0000) % 32;
      Decode(s, address) ==
      if (s / 64) % 2 == 1 then DataStore(address, AccessLen(sas), srt)
      else DataLoad(Load(address, AccessLen(sas), srt))
  {
  }

  lemma PowersOfTwo()
    ensures Power2(0) == 1 && Power2(1) == 2 && Power2(2) == 4 && Power2(3) == 8
  {
    assert Power2(1) == 2 * Power2(0) && Power2(2) == 2 * Power2(1) && Power2(3) == 2 * Power2(2);
  }

  /**
   * A system-register trap: the register is named by the five encoding fields in their
   * places, the general register and the direction are their fields.
   */
  lemma SysregDecodes(upper: nat, il: nat, top: nat, op0: nat, op2: nat, op1: nat, crn: nat, rt: nat, crm: nat,
                      isRead: nat, address: nat)
    requires il < 2 && top < 8 && op0 < 4 && op2 < 8 && op1 < 8 && crn < 16 && rt < 32 && crm < 16 && isRead < 2
    ensures var s := Syndrome(upper, 0x18, il, SysregDetails(top, op0, op2, op1, crn, rt, crm, isRead));
      var name := SysregDetails(0, op0, op2, op1, crn, 0, crm, 0);
      Decode(s, address) == if isRead == 1 then SysregRead(name, rt) else SysregWrite(name, rt)
  {
    hide Decode;
    var iss := SysregDetails(top, op0, op2, op1, crn, rt, crm, isRead);
    var s := Syndrome(upper, 0x18, il, iss);
    var name := 0x400 * op0 + 0x80 * op2 + 0x10 * op1 + crn;
    ClassOf(upper, 0x18, il, iss);
    var high := 0x400 * upper + 16 * 0x18 + 8 * il + top;
    SysregFields(s, high, name, rt, crm, isRead);
    SysregUnfold(s, address);
  }

  lemma SysregFields(s: nat, high: nat, name: nat, rt: nat, crm: nat, isRead: nat)
    requires s == 0x40_0000 * high + 0x400 * name + 0x20 * rt + 2 * crm + isRead
    requires name < 4096 && rt < 32 && crm < 16 && isRead < 2
    ensures (s / 1024) % 4096 == name && (s / 32) % 32 == rt && (s / 2) % 16 == crm && s % 2 == isRead
  {
    assert s / 1024 == 4096 * high + name;
    var above := 4096 * high + name;
    assert s / 32 == 32 * above + rt;
    assert s / 2 == 16 * (32 * above + rt) + crm;
  }

  lemma SysregUnfold(s: nat, address: nat)
    requires (s / 0x400_0000) % 64 == 0x18
    ensures var name := 1024 * ((s / 1024) % 4096) + 2 * ((s / 2) % 16);
      Decode(s, address) ==
      if s % 2 == 1 then SysregRead(name, (s / 32) % 32) else SysregWrite(name, (s / 32) % 32)
  {
  }

  /** The other classes are told by their number alone. */
  lemma ClassDecodes(upper: nat, ec: nat, il: nat, iss: nat, address: nat)
    requires ec < 64 && il < 2 && iss < 0x200_0000 && ec != 0x24 && ec != 0x18
    ensures var t := Decode(Syndrome(upper, ec, il, iss), address);
      && (ec == 0x01 ==> t == Wfx)
      && (ec == 0x16 ==> t == Hvc)
      && (ec == 0x17 ==> t == Smc)
      && (ec == 0x3c ==> t == Brk)
      && (ec !in {0x01, 0x16, 0x17, 0x3c} ==> t == Unexpected)
  {
    ClassOf(upper, ec, il, iss);
  }

  /** Every number is the syndrome of some fields. */
  lemma EverySyndrome(s: nat)
    ensures exists upper, ec, il, iss | ec < 64 && il < 2 && iss < 0x200_0000 :: s == Syndrome(upper, ec, il, iss)
  {
    assert s == Syndrome(s / 0x1_0000_0000, (s / 0x400_0000) % 64, (s / 0x200_0000) % 2, s % 0x200_0000);
  }
}
