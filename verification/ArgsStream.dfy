/**
 * The stream of enclave arguments: how it is written, what it means, and that reading it
 * back gives the arguments that were written.
 */
module ArgsStream {
  import opened Options
  import opened LittleEndian

  const ID_ROOTFS: nat := 0
  const ID_EXEC_PATH: nat := 1
  const ID_EXEC_ARGV: nat := 2
  const ID_EXEC_ENVP: nat := 3
  const ID_NETWORK_PROXY: nat := 4
  const ID_APP_OUTPUT: nat := 5
  const FINISHED: nat := 255
  const LEN_BYTES: nat := 8

  type Bytes = seq<nat>

  /** One argument; an id nobody knows has no body and is skipped. */
  datatype Arg =
    | Rootfs(archive: Bytes)
    | ExecPath(path: Bytes)
    | ExecArgv(argv: seq<Bytes>)
    | ExecEnvp(envp: seq<Bytes>)
    | NetworkProxy
    | AppOutput
    | Skipped(id: nat)

  // Writing: an id, and behind it what belongs to it, with lengths of eight bytes.

  function Framed(b: Bytes): Bytes {
    LeBytes(|b|, 8) + b
  }

  function FramedAll(bs: seq<Bytes>): Bytes {
    if bs == [] then [] else Framed(bs[0]) + FramedAll(bs[1..])
  }

  function FramedList(bs: seq<Bytes>): Bytes {
    LeBytes(|bs|, 8) + FramedAll(bs)
  }

  function Written(a: Arg): Bytes {
    match a
    case Rootfs(b) => [0] + Framed(b)
    case ExecPath(b) => [1] + Framed(b)
    case ExecArgv(bs) => [2] + FramedList(bs)
    case ExecEnvp(bs) => [3] + FramedList(bs)
    case NetworkProxy => [4]
    case AppOutput => [5]
    case Skipped(id) => [id]
  }

  function WrittenAll(args: seq<Arg>): Bytes {
    if args == [] then [255] else Written(args[0]) + WrittenAll(args[1..])
  }

  // Reading.

  function ReadLen(d: Bytes): (r: Option<(nat, Bytes)>)
    ensures r.Some? ==> |r.value.1| == |d| - LEN_BYTES
  {
    if |d| < LEN_BYTES then None else Some((LeValue(d[..LEN_BYTES]), d[LEN_BYTES..]))
  }

  function ReadBody(d: Bytes): (r: Option<(Bytes, Bytes)>)
    ensures r.Some? ==> |r.value.1| < |d|
  {
    var len := ReadLen(d);
    if len.None? || |len.value.1| < len.value.0 then None
    else Some((len.value.1[..len.value.0], len.value.1[len.value.0..]))
  }

  function ReadBodies(d: Bytes, n: nat): (r: Option<(seq<Bytes>, Bytes)>)
    ensures r.Some? ==> |r.value.0| == n && |r.value.1| <= |d|
    decreases n
  {
    if n == 0 then Some(([], d))
    else
      var first := ReadBody(d);
      if first.None? then None
      else
        var others := ReadBodies(first.value.1, n - 1);
        if others.None? then None else Some(([first.value.0] + others.value.0, others.value.1))
  }

  function ReadList(d: Bytes): (r: Option<(seq<Bytes>, Bytes)>)
    ensures r.Some? ==> |r.value.1| < |d|
  {
    var size := ReadLen(d);
    if size.None? then None else ReadBodies(size.value.1, size.value.0)
  }

  /** The argument at the front of a stream that does not start with the final id. */
  function ReadArg(d: Bytes): (r: Option<(Arg, Bytes)>)
    requires d != []
    ensures r.Some? ==> |r.value.1| < |d|
  {
    var id, body := d[0], d[1..];
    if id == ID_ROOTFS then
      var b := ReadBody(body); if b.None? then None else Some((Rootfs(b.value.0), b.value.1))
    else if id == ID_EXEC_PATH then
      var b := ReadBody(body); if b.None? then None else Some((ExecPath(b.value.0), b.value.1))
    else if id == ID_EXEC_ARGV then
      var bs := ReadList(body); if bs.None? then None else Some((ExecArgv(bs.value.0), bs.value.1))
    else if id == ID_EXEC_ENVP then
      var bs := ReadList(body); if bs.None? then None else Some((ExecEnvp(bs.value.0), bs.value.1))
    else if id == ID_NETWORK_PROXY then Some((NetworkProxy, body))
    else if id == ID_APP_OUTPUT then Some((AppOutput, body))
    else Some((Skipped(id), body))
  }

  /** All arguments up to the final id, or None for a stream that ends too early. */
  function ReadAll(d: Bytes): Option<(seq<Arg>, Bytes)>
    decreases |d|
  {
    if d == [] then None
    else if d[0] == FINISHED then Some(([], d[1..]))
    else
      var first := ReadArg(d);
      if first.None? then None
      else
        var others := ReadAll(first.value.1);
        if others.None? then None else Some(([first.value.0] + others.value.0, others.value.1))
  }

  /** How reading ends: with the final id, inside an argument, or where an id should be. A root
      file system that breaks off has left its announced size behind. */
  datatype Ending = Finished(rest: Bytes) | BrokenOff(size: Option<nat>) | RanDry

  /** The whole arguments of a stream, and how it ends. */
  function ReadSoFar(d: Bytes): (seq<Arg>, Ending)
    decreases |d|
  {
    if d == [] then ([], RanDry)
    else if d[0] == FINISHED then ([], Finished(d[1..]))
    else
      match ReadArg(d)
      case None =>
        ([], BrokenOff(if d[0] == ID_ROOTFS && ReadLen(d[1..]).Some? then Some(ReadLen(d[1..]).value.0) else None))
      case Some(first) =>
        var (others, ending) := ReadSoFar(first.1);
        ([first.0] + others, ending)
  }

  /** A stream is read to its end if and only if it neither breaks off nor runs dry. */
  lemma {:induction false} SoFarIsAll(d: Bytes)
    ensures ReadAll(d) ==
            var (args, ending) := ReadSoFar(d);
            if ending.Finished? then Some((args, ending.rest)) else None
    decreases |d|
  {
    hide ReadArg;
    if d != [] && d[0] != FINISHED && ReadArg(d).Some? { SoFarIsAll(ReadArg(d).value.1); }
  }

  // What was written is read back.

  /** Everything fits its eight-byte length, and a skipped id is not one with a meaning. */
  predicate Writable(a: Arg) {
    match a
    case Rootfs(b) => |b| < Power256(LEN_BYTES)
    case ExecPath(b) => |b| < Power256(LEN_BYTES)
    case ExecArgv(bs) => WritableList(bs)
    case ExecEnvp(bs) => WritableList(bs)
    case NetworkProxy => true
    case AppOutput => true
    case Skipped(id) => ID_APP_OUTPUT < id < FINISHED
  }

  predicate WritableList(bs: seq<Bytes>) {
    |bs| < Power256(LEN_BYTES) && forall i :: 0 <= i < |bs| ==> |bs[i]| < Power256(LEN_BYTES)
  }

  lemma ReadLenBack(n: nat, rest: Bytes)
    requires n < Power256(LEN_BYTES)
    ensures ReadLen(LeBytes(n, LEN_BYTES) + rest) == Some((n, rest))
  {
    hide LeBytes, LeValue, Power256;
    BytesOfValue(n, LEN_BYTES);
    var d := LeBytes(n, LEN_BYTES) + rest;
    assert d[..LEN_BYTES] == LeBytes(n, LEN_BYTES) && d[LEN_BYTES..] == rest;
  }

  lemma ReadBodyBack(b: Bytes, rest: Bytes)
    requires |b| < Power256(LEN_BYTES)
    ensures ReadBody(Framed(b) + rest) == Some((b, rest))
  {
    hide LeBytes, ReadLen, Power256;
    ReadLenBack(|b|, b + rest);
    assert Framed(b) + rest == LeBytes(|b|, LEN_BYTES) + (b + rest);
    assert (b + rest)[..|b|] == b && (b + rest)[|b|..] == rest;
  }

  lemma {:induction false} ReadBodiesBack(bs: seq<Bytes>, rest: Bytes)
    requires forall i :: 0 <= i < |bs| ==> |bs[i]| < Power256(LEN_BYTES)
    ensures ReadBodies(FramedAll(bs) + rest, |bs|) == Some((bs, rest))
    decreases |bs|
  {
    hide Framed, ReadBody, Power256;
    if bs == [] {
      assert FramedAll(bs) + rest == rest;
    } else {
      ReadBodyBack(bs[0], FramedAll(bs[1..]) + rest);
      assert FramedAll(bs) + rest == Framed(bs[0]) + (FramedAll(bs[1..]) + rest);
      ReadBodiesBack(bs[1..], rest);
      assert [bs[0]] + bs[1..] == bs;
    }
  }

  lemma ReadListBack(bs: seq<Bytes>, rest: Bytes)
    requires WritableList(bs)
    ensures ReadList(FramedList(bs) + rest) == Some((bs, rest))
  {
    hide LeBytes, ReadLen, ReadBodies, FramedAll, Power256;
    ReadLenBack(|bs|, FramedAll(bs) + rest);
    assert FramedList(bs) + rest == LeBytes(|bs|, LEN_BYTES) + (FramedAll(bs) + rest);
    ReadBodiesBack(bs, rest);
  }

  lemma ReadArgBack(a: Arg, rest: Bytes)
    requires Writable(a)
    ensures Written(a) + rest != [] && (Written(a) + rest)[0] != FINISHED
    ensures ReadArg(Written(a) + rest) == Some((a, rest))
  {
    hide Framed, FramedList, ReadBody, ReadList, Power256;
    var d := Written(a) + rest;
    match a
    case Rootfs(b) => ReadBodyBack(b, rest); assert d[1..] == Framed(b) + rest;
    case ExecPath(b) => ReadBodyBack(b, rest); assert d[1..] == Framed(b) + rest;
    case ExecArgv(bs) => ReadListBack(bs, rest); assert d[1..] == FramedList(bs) + rest;
    case ExecEnvp(bs) => ReadListBack(bs, rest); assert d[1..] == FramedList(bs) + rest;
    case _ => assert d[1..] == rest;
  }

  /** Reading back what was written gives the same arguments and leaves what came after. */
  lemma {:induction false} ReadAllBack(args: seq<Arg>, rest: Bytes)
    requires forall i :: 0 <= i < |args| ==> Writable(args[i])
    ensures ReadAll(WrittenAll(args) + rest) == Some((args, rest))
    decreases |args|
  {
    hide Written, ReadArg, Writable;
    var d := WrittenAll(args) + rest;
    if args == [] {
      assert d[0] == FINISHED && d[1..] == rest;
    } else {
      ReadArgBack(args[0], WrittenAll(args[1..]) + rest);
      assert d == Written(args[0]) + (WrittenAll(args[1..]) + rest);
      ReadAllBack(args[1..], rest);
      assert [args[0]] + args[1..] == args;
    }
  }

  // What the arguments mean.

  /** The arguments as the enclave keeps them; a string list ends in a null. */
  datatype Enclave = Enclave(rootfs: Option<Bytes>, rootfsSize: nat, execPath: Option<Bytes>,
                             execArgv: Option<seq<Option<Bytes>>>, execEnvp: Option<seq<Option<Bytes>>>,
                             networkProxy: bool, appOutput: bool)

  function Vector(bs: seq<Bytes>): (v: seq<Option<Bytes>>)
    ensures |v| == |bs| + 1 && v[|bs|] == None
    ensures forall i :: 0 <= i < |bs| ==> v[i] == Some(bs[i])
  {
    seq(|bs| + 1, i requires 0 <= i => if i < |bs| then Some(bs[i]) else None)
  }

  function Take(e: Enclave, a: Arg): Enclave {
    match a
    case Rootfs(b) => e.(rootfs := Some(b), rootfsSize := |b|)
    case ExecPath(b) => e.(execPath := Some(b))
    case ExecArgv(bs) => e.(execArgv := Some(Vector(bs)))
    case ExecEnvp(bs) => e.(execEnvp := Some(Vector(bs)))
    case NetworkProxy => e.(networkProxy := true)
    case AppOutput => e.(appOutput := true)
    case Skipped(_) => e
  }

  function TakeAll(e: Enclave, args: seq<Arg>): Enclave
    decreases |args|
  {
    if args == [] then e else TakeAll(Take(e, args[0]), args[1..])
  }

  function Kind(a: Arg): nat {
    match a
    case Rootfs(_) => 0
    case ExecPath(_) => 1
    case ExecArgv(_) => 2
    case ExecEnvp(_) => 3
    case NetworkProxy => 4
    case AppOutput => 5
    case Skipped(id) => id
  }

  /** No argument of kind `kind`. */
  predicate Absent(args: seq<Arg>, kind: nat) {
    forall j :: 0 <= j < |args| ==> Kind(args[j]) != kind
  }

  /** Argument `a` is what the enclave now has for its kind. */
  predicate Kept(e: Enclave, a: Arg) {
    match a
    case Rootfs(b) => e.rootfs == Some(b) && e.rootfsSize == |b|
    case ExecPath(b) => e.execPath == Some(b)
    case ExecArgv(bs) => e.execArgv == Some(Vector(bs))
    case ExecEnvp(bs) => e.execEnvp == Some(Vector(bs))
    case NetworkProxy => e.networkProxy
    case AppOutput => e.appOutput
    case Skipped(_) => true
  }

  /** What the enclave has for a kind does not depend on arguments of other kinds. */
  predicate SameKind(d: Enclave, e: Enclave, kind: nat) {
    && (kind == 0 ==> d.rootfs == e.rootfs && d.rootfsSize == e.rootfsSize)
    && (kind == 1 ==> d.execPath == e.execPath)
    && (kind == 2 ==> d.execArgv == e.execArgv)
    && (kind == 3 ==> d.execEnvp == e.execEnvp)
    && (kind == 4 ==> d.networkProxy == e.networkProxy)
    && (kind == 5 ==> d.appOutput == e.appOutput)
  }

  lemma TakeKeepsOthers(e: Enclave, a: Arg, kind: nat)
    requires Kind(a) != kind
    ensures SameKind(Take(e, a), e, kind)
  {
    hide Vector;
  }

  lemma {:induction false} AbsentKeeps(e: Enclave, args: seq<Arg>, kind: nat)
    requires Absent(args, kind)
    ensures SameKind(TakeAll(e, args), e, kind)
    decreases |args|
  {
    hide Take, Kind;
    if args != [] {
      TakeKeepsOthers(e, args[0], kind);
      AbsentKeeps(Take(e, args[0]), args[1..], kind);
    }
  }

  lemma KeptAcross(d: Enclave, e: Enclave, a: Arg)
    requires Kept(d, a) && SameKind(e, d, Kind(a))
    ensures Kept(e, a)
  {
  }

  lemma TakeKeeps(e: Enclave, a: Arg)
    ensures Kept(Take(e, a), a)
  {
    hide Vector;
  }

  /** The last occurrence of each argument wins. */
  lemma {:induction false} LastWins(e: Enclave, args: seq<Arg>, i: nat)
    requires i < |args| && Absent(args[i + 1..], Kind(args[i]))
    ensures Kept(TakeAll(e, args), args[i])
    decreases |args|
  {
    hide Take, Kind, Kept, SameKind, Absent;
    if i > 0 {
      assert args[1..][i..] == args[i + 1..];
      LastWins(Take(e, args[0]), args[1..], i - 1);
    } else {
      AbsentKeeps(Take(e, args[0]), args[1..], Kind(args[0]));
      TakeKeeps(e, args[0]);
      KeptAcross(Take(e, args[0]), TakeAll(e, args), args[0]);
    }
  }

  /** A flag is set exactly when it was set before or one of the arguments sets it. */
  lemma {:induction false} FlagsStaySet(e: Enclave, args: seq<Arg>)
    ensures TakeAll(e, args).networkProxy == (e.networkProxy || NetworkProxy in args)
    ensures TakeAll(e, args).appOutput == (e.appOutput || AppOutput in args)
    decreases |args|
  {
    hide Vector;
    if args != [] {
      FlagsStaySet(Take(e, args[0]), args[1..]);
      assert args == [args[0]] + args[1..];
    }
  }
}
