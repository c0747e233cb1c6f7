/** An argument stream that was cut off anywhere: which arguments arrive, and how reading ends. */
module ArgsCut {
  import opened Options
  import opened LittleEndian
  import opened ArgsStream

  /** The arguments that are whole in the first bytes of a written stream, and how these end: where
      an id should be, or inside an argument; the size of a root file system takes nine bytes. */
  function CutOff(args: seq<Arg>, cut: nat): (seq<Arg>, Ending) {
    if args == [] || cut == 0 then ([], RanDry)
    else if cut >= |Written(args[0])| then
      var (others, ending) := CutOff(args[1..], cut - |Written(args[0])|);
      ([args[0]] + others, ending)
    else if args[0].Rootfs? && cut >= 9 then ([], BrokenOff(Some(|args[0].archive|)))
    else ([], BrokenOff(None))
  }

  lemma LengthBytes(n: nat)
    ensures |LeBytes(n, 8)| == 8
  {
  }

  /** A length or a body that is not whole cannot be read. */
  lemma CutBody(b: Bytes, cut: nat)
    requires |b| < Power256(8) && cut < |Framed(b)|
    ensures ReadBody(Framed(b)[..cut]).None?
    ensures ReadLen(Framed(b)[..cut]) == if cut < 8 then None else Some((|b|, b[..cut - 8]))
  {
    hide LeBytes, ReadLen, Power256;
    LengthBytes(|b|);
    var d := Framed(b)[..cut];
    if cut < 8 {
      ShortLength(d);
    } else {
      assert d == LeBytes(|b|, 8) + b[..cut - 8];
      ReadLenBack(|b|, b[..cut - 8]);
    }
  }

  lemma ShortLength(d: Bytes)
    requires |d| < 8
    ensures ReadLen(d).None?
  {
  }

  lemma {:induction false} CutBodies(bs: seq<Bytes>, cut: nat)
    requires (forall i :: 0 <= i < |bs| ==> |bs[i]| < Power256(8)) && cut < |FramedAll(bs)|
    ensures ReadBodies(FramedAll(bs)[..cut], |bs|).None?
    decreases |bs|
  {
    hide Framed, ReadBody, Power256;
    var n, d := |Framed(bs[0])|, FramedAll(bs)[..cut];
    if cut < n {
      assert d == Framed(bs[0])[..cut];
      CutBody(bs[0], cut);
    } else {
      assert d == Framed(bs[0]) + FramedAll(bs[1..])[..cut - n];
      ReadBodyBack(bs[0], FramedAll(bs[1..])[..cut - n]);
      CutBodies(bs[1..], cut - n);
    }
  }

  lemma CutList(bs: seq<Bytes>, cut: nat)
    requires WritableList(bs) && cut < |FramedList(bs)|
    ensures ReadList(FramedList(bs)[..cut]).None?
  {
    hide LeBytes, ReadLen, ReadBodies, FramedAll, Power256;
    LengthBytes(|bs|);
    var d := FramedList(bs)[..cut];
    if cut < 8 {
      ShortLength(d);
    } else {
      assert d == LeBytes(|bs|, 8) + FramedAll(bs)[..cut - 8];
      ReadLenBack(|bs|, FramedAll(bs)[..cut - 8]);
      CutBodies(bs, cut - 8);
    }
  }

  /** An argument that is not whole cannot be read; only a root file system leaves its size. */
  lemma CutArg(a: Arg, cut: nat)
    requires Writable(a) && 0 < cut < |Written(a)|
    ensures var d := Written(a)[..cut];
      && d[0] != 255 && ReadArg(d).None?
      && ReadSoFar(d) == ([], BrokenOff(if a.Rootfs? && cut >= 9 then Some(|a.archive|) else None))
  {
    hide Framed, FramedList, ReadBody, ReadList, ReadLen, Power256;
    var d := Written(a)[..cut];
    match a
    case Rootfs(b) =>
      assert d[1..] == Framed(b)[..cut - 1];
      CutBody(b, cut - 1);
    case ExecPath(b) =>
      assert d[1..] == Framed(b)[..cut - 1];
      CutBody(b, cut - 1);
    case ExecArgv(bs) =>
      assert d[1..] == FramedList(bs)[..cut - 1];
      CutList(bs, cut - 1);
    case ExecEnvp(bs) =>
      assert d[1..] == FramedList(bs)[..cut - 1];
      CutList(bs, cut - 1);
    case _ =>
  }

  /** Wherever a written stream is cut off, exactly the whole arguments before the cut are read. */
  lemma {:induction false} CutStream(args: seq<Arg>, cut: nat)
    requires (forall i :: 0 <= i < |args| ==> Writable(args[i])) && cut < |WrittenAll(args)|
    ensures ReadSoFar(WrittenAll(args)[..cut]) == CutOff(args, cut)
    decreases |args|
  {
    hide Written, ReadArg, Writable;
    var d := WrittenAll(args)[..cut];
    if args != [] && cut > 0 {
      var n := |Written(args[0])|;
      if cut < n {
        assert d == Written(args[0])[..cut];
        CutArg(args[0], cut);
      } else {
        var rest := WrittenAll(args[1..])[..cut - n];
        assert d == Written(args[0]) + rest;
        ReadArgBack(args[0], rest);
        CutStream(args[1..], cut - n);
      }
    }
  }
}
