/**
 * The reader of enclave arguments. Bodies may arrive in pieces of any size; the buffer, the
 * string list and the argument record are filled in place.
 */
module ArgsReader {
  import opened Options
  import opened LittleEndian
  import opened ArgsStream
  import opened ArgsLoop

  /** The socket: bytes still to come, and how many each partial read will get at most. */
  class Socket {
    var data: Bytes
    var chunks: seq<nat>

    constructor (bytes: Bytes, sizes: seq<nat>)
      ensures data == bytes
    {
      data := bytes;
      chunks := sizes;
    }

    /** A read of a body: at least one byte, at most `n`, and no more is promised. */
    method ReadSome(n: nat) returns (bytes: Bytes)
      requires n > 0 && data != []
      modifies this
      ensures 0 < |bytes| <= n && |bytes| <= |old(data)|
      ensures bytes == old(data)[..|bytes|] && data == old(data)[|bytes|..]
    {
      var limit := if n < |data| then n else |data|;
      var k := limit;
      if chunks != [] {
        k := if 0 < chunks[0] <= limit then chunks[0] else limit;
        chunks := chunks[1..];
      }
      bytes := data[..k];
      data := data[k..];
    }

    /** Ids and lengths arrive whole, or the stream ends. */
    method LenRead() returns (size: Option<nat>)
      modifies this`data
      ensures ReadLen(old(data)) == if size.None? then None else Some((size.value, data))
      ensures size.None? ==> data == []
    {
      if |data| < LEN_BYTES {
        data := [];
        return None;
      }
      size := Some(LeValue(data[..LEN_BYTES]));
      data := data[LEN_BYTES..];
    }

    /** Receives an object, in as many reads as it takes; null if it breaks off. */
    method Receive() returns (buf: array?<nat>, size: Option<nat>)
      modifies this
      ensures buf != null ==> fresh(buf) && ReadBody(old(data)) == Some((buf[..], data)) && size == Some(buf.Length)
      ensures buf == null ==> ReadBody(old(data)).None? && data == []
      ensures size == if ReadLen(old(data)).Some? then Some(ReadLen(old(data)).value.0) else None
    {
      hide LeValue;
      buf := null;
      size := LenRead();
      if size.None? {
        return;
      }
      var len := size.value;
      ghost var body := data;
      var bytes := new nat[len];
      var idx := 0;
      while len > 0
        invariant 0 <= idx <= |body| && 0 <= len && idx + len == bytes.Length
        invariant bytes[..idx] == body[..idx] && data == body[idx..]
        decreases len
      {
        if data == [] {
          return;
        }
        var part := ReadSome(len);
        forall i | 0 <= i < |part| {
          bytes[idx + i] := part[i];
        }
        assert bytes[..idx + |part|] == body[..idx] + part;
        idx := idx + |part|;
        len := len - |part|;
      }
      assert bytes[..] == bytes[..idx];
      buf := bytes;
    }

    /** Builds a string list with a null behind its last string; null if it breaks off. */
    method ListBuild() returns (list: array?<Option<Bytes>>)
      modifies this
      ensures list != null ==> fresh(list) && ReadList(old(data)).Some?
      ensures list != null ==> list[..] == Vector(ReadList(old(data)).value.0) && data == ReadList(old(data)).value.1
      ensures list == null ==> ReadList(old(data)).None? && data == []
    {
      hide ReadBody, LeValue, Vector;
      var size := LenRead();
      if size.None? {
        return null;
      }
      var n := size.value;
      ghost var all := ReadBodies(data, n);
      ghost var strings: seq<Bytes> := [];
      var strs := new Option<Bytes>[n + 1](_ => None);
      assert all.Some? ==> [] + all.value.0 == all.value.0;
      for i := 0 to n
        invariant |strings| == i && all == Prepended(strings, ReadBodies(data, n - i))
        invariant forall j :: 0 <= j < i ==> strs[j] == Some(strings[j])
        invariant strs[n] == None
      {
        BodiesStep(strings, data, n - i);
        var body, _ := Receive();
        if body == null {
          return null;
        }
        strs[i] := Some(body[..]);
        strings := strings + [body[..]];
      }
      strs[n] := None;
      assert all == Some((strings, data)) by { assert strings + [] == strings; }
      assert strs[..] == Vector(strings);
      list := strs;
    }
  }

  function Prepended(front: seq<Bytes>, r: Option<(seq<Bytes>, Bytes)>): Option<(seq<Bytes>, Bytes)> {
    if r.None? then None else Some((front + r.value.0, r.value.1))
  }

  lemma BodiesStep(front: seq<Bytes>, d: Bytes, n: nat)
    requires n > 0
    ensures Prepended(front, ReadBodies(d, n)) ==
            if ReadBody(d).None? then None
            else Prepended(front + [ReadBody(d).value.0], ReadBodies(ReadBody(d).value.1, n - 1))
  {
    hide ReadBody;
    if ReadBody(d).Some? && ReadBodies(ReadBody(d).value.1, n - 1).Some? {
      var first, others := ReadBody(d).value.0, ReadBodies(ReadBody(d).value.1, n - 1).value.0;
      assert front + ([first] + others) == front + [first] + others;
    }
  }

  class EnclaveArgs {
    var rootfs: Option<Bytes>
    var rootfsSize: nat
    var execPath: Option<Bytes>
    var execArgv: Option<seq<Option<Bytes>>>
    var execEnvp: Option<seq<Option<Bytes>>>
    var networkProxy: bool
    var appOutput: bool

    ghost function View(): Enclave
      reads this
    {
      Enclave(rootfs, rootfsSize, execPath, execArgv, execEnvp, networkProxy, appOutput)
    }

    constructor ()
      ensures View() == Enclave(None, 0, None, None, None, false, false)
    {
      rootfs, rootfsSize, execPath, execArgv, execEnvp := None, 0, None, None, None;
      networkProxy, appOutput := false, false;
    }

    /** Reads the argument whose id has just been read; false if it breaks off. */
    method ReadOne(sock: Socket, id: nat) returns (ok: bool)
      requires id != FINISHED
      modifies this, sock
      ensures ok == ReadArg([id] + old(sock.data)).Some?
      ensures ok ==> var (a, rest) := ReadArg([id] + old(sock.data)).value;
        View() == Take(old(View()), a) && sock.data == rest
      ensures !ok ==>
                && sock.data == []
                && View() == if id == ID_ROOTFS && ReadLen(old(sock.data)).Some?
                             then old(View()).(rootfsSize := ReadLen(old(sock.data)).value.0) else old(View())
    {
      hide ReadBody, ReadList, ReadLen, Vector;
      ghost var d := [id] + sock.data;
      assert d[0] == id && d[1..] == sock.data;
      if id == ID_ROOTFS {
        var buf, size := sock.Receive();
        if size.Some? {
          rootfsSize := size.value;
        }
        if buf == null {
          return false;
        }
        rootfs := Some(buf[..]);
      } else if id == ID_EXEC_PATH {
        var buf, _ := sock.Receive();
        if buf == null {
          return false;
        }
        execPath := Some(buf[..]);
      } else if id == ID_EXEC_ARGV {
        var list := sock.ListBuild();
        if list == null {
          return false;
        }
        execArgv := Some(list[..]);
      } else if id == ID_EXEC_ENVP {
        var list := sock.ListBuild();
        if list == null {
          return false;
        }
        execEnvp := Some(list[..]);
      } else if id == ID_NETWORK_PROXY {
        networkProxy := true;
      } else if id == ID_APP_OUTPUT {
        appOutput := true;
      }
      ok := true;
    }

    /**
     * Reads arguments up to the final id, or up to one that breaks off, when the negated error
     * number is returned; `first` is what the id holds at first. However the bodies are split,
     * the result depends on the stream alone.
     */
    method ReadArgs(sock: Socket, errno: int, first: nat) returns (status: int)
      requires errno > 0 && Returns(sock.data, first)
      modifies this, sock
      ensures status == Status(old(sock.data), first, errno) && View() == Record(old(sock.data), old(View()))
      ensures var ending := ReadSoFar(old(sock.data)).1;
        sock.data == (if ending.Finished? then ending.rest else [])
      ensures ReadAll(old(sock.data)).Some? ==> status == 0
    {
      hide ReadArg, Take, ReadLen, Status, Record, Returns;
      SoFarIsAll(sock.data);
      ghost var ending := ReadSoFar(sock.data).1;
      var id := first;
      while true
        invariant Returns(sock.data, id) && ReadSoFar(sock.data).1 == ending
        invariant Status(sock.data, id, errno) == Status(old(sock.data), first, errno)
        invariant Record(sock.data, View()) == Record(old(sock.data), old(View()))
        decreases |sock.data|
      {
        ghost var d, e, last := sock.data, View(), id;
        if |sock.data| > 0 {
          id := sock.data[0];
          sock.data := sock.data[1..];
        } else {
          Dry(id, e, errno);
        }
        ghost var seen := if d == [] then [id] else d;
        assert seen == [id] + sock.data;
        if id == FINISHED {
          if d != [] {
            LastTurn(d, last, e, errno);
            FinalId(d, last, e, errno);
          }
          return 0;
        }
        if d != [] && ReadArg(d).None? {
          LastTurn(d, last, e, errno);
          BreaksOff(d, last, e, errno);
        }
        if d != [] && ReadArg(d).Some? {
          Onward(d, last, e, errno);
          EndsAlike(d);
        }
        if d == [] {
          NothingThere(id);
        }
        var ok := ReadOne(sock, id);
        if !ok {
          return -errno;
        }
      }
    }
  }

  lemma FinalId(d: Bytes, last: nat, e: Enclave, errno: int)
    requires d != [] && d[0] == FINISHED
    ensures Status(d, last, errno) == 0 && Record(d, e) == e && ReadSoFar(d).1 == Finished(d[1..])
  {
  }

  lemma BreaksOff(d: Bytes, last: nat, e: Enclave, errno: int)
    requires d != [] && d[0] != FINISHED && ReadArg(d).None?
    ensures Status(d, last, errno) == -errno && ReadSoFar(d).1.BrokenOff?
    ensures Record(d, e) == if d[0] == ID_ROOTFS && ReadLen(d[1..]).Some?
                            then e.(rootfsSize := ReadLen(d[1..]).value.0) else e
  {
    hide ReadArg, ReadLen;
  }

  lemma EndsAlike(d: Bytes)
    requires d != [] && d[0] != FINISHED && ReadArg(d).Some?
    ensures ReadSoFar(d).1 == ReadSoFar(ReadArg(d).value.1).1
  {
    hide ReadArg;
  }

  lemma NothingThere(id: nat)
    requires Returns([], id) && id != FINISHED
    ensures ReadArg([id]) == None && ReadLen([]) == None && ReadSoFar([]).1 == RanDry
  {
    assert [id][1..] == [];
  }

  /**
   * End to end: what the host wrote, split in any way, fills the record with the arguments
   * it wrote.
   */
  method ReadWritten(args: seq<Arg>, sizes: seq<nat>, errno: int, first: nat) returns (enclave: EnclaveArgs)
    requires errno > 0 && forall i :: 0 <= i < |args| ==> Writable(args[i])
    ensures fresh(enclave)
    ensures enclave.View() == TakeAll(Enclave(None, 0, None, None, None, false, false), args)
  {
    hide Writable;
    ReadAllBack(args, []);
    var sock := new Socket(WrittenAll(args) + [], sizes);
    enclave := new EnclaveArgs();
    SoFarIsAll(sock.data);
    var status := enclave.ReadArgs(sock, errno, first);
  }
}
