/**
 * The loop that reads enclave arguments, turn by turn. A stream that has ended leaves the last
 * id in place, and the loop takes it again: it may never return.
 */
module ArgsLoop {
  import opened Options
  import opened ArgsStream

  datatype Loop =
    | Going(data: Bytes, id: nat, enclave: Enclave)
    | Returned(status: int, enclave: Enclave)

  /** What an argument that breaks off leaves behind: the announced size of a root file system. */
  function Noted(e: Enclave, ending: Ending): Enclave {
    if ending.BrokenOff? && ending.size.Some? then e.(rootfsSize := ending.size.value) else e
  }

  /** One turn: the next id, or the last one again, and its argument. */
  function Next(l: Loop, errno: int): Loop {
    match l
    case Returned(_, _) => l
    case Going(data, last, e) =>
      var d := if data == [] then [last] else data;
      if d[0] == FINISHED then Returned(0, e)
      else
        match ReadArg(d)
        case None => Returned(-errno, Noted(e, ReadSoFar(d).1))
        case Some(first) => Going(first.1, d[0], Take(e, first.0))
  }

  function Turns(l: Loop, errno: int, n: nat): Loop
    decreases n
  {
    if n == 0 then l else Turns(Next(l, errno), errno, n - 1)
  }

  /** The id after the arguments have been read. */
  function LastId(args: seq<Arg>, first: nat): nat {
    if args == [] then first else Kind(args[|args| - 1])
  }

  predicate HasBody(id: nat) {
    id <= 3
  }

  /** Taking the id again ends the loop: it is the final one, or has a body, which is not there. */
  predicate Ends(id: nat) {
    id == 255 || HasBody(id)
  }

  /** The loop returns; `first` is what the id holds before any is read. */
  predicate Returns(d: Bytes, first: nat) {
    var (args, ending) := ReadSoFar(d);
    ending.RanDry? ==> Ends(LastId(args, first))
  }

  function Status(d: Bytes, first: nat, errno: int): int {
    var (args, ending) := ReadSoFar(d);
    if ending.Finished? || (ending.RanDry? && LastId(args, first) == 255) then 0 else -errno
  }

  function Record(d: Bytes, e: Enclave): Enclave {
    var (args, ending) := ReadSoFar(d);
    Noted(TakeAll(e, args), ending)
  }

  lemma ArgKind(d: Bytes)
    requires d != [] && d[0] != FINISHED && ReadArg(d).Some?
    ensures Kind(ReadArg(d).value.0) == d[0]
  {
    hide ReadBody, ReadList;
  }

  /** One argument less to read. */
  lemma Onward(d: Bytes, first: nat, e: Enclave, errno: int)
    requires d != [] && d[0] != FINISHED && ReadArg(d).Some?
    ensures var (a, rest) := ReadArg(d).value;
      && Next(Going(d, first, e), errno) == Going(rest, d[0], Take(e, a))
      && Returns(d, first) == Returns(rest, d[0])
      && Status(d, first, errno) == Status(rest, d[0], errno) && Record(d, e) == Record(rest, Take(e, a))
  {
    hide ReadArg, Take, Kind, Noted;
    ArgKind(d);
    var (a, rest) := ReadArg(d).value;
    var (others, ending) := ReadSoFar(rest);
    assert ([a] + others)[1..] == others;
    assert LastId([a] + others, first) == LastId(others, d[0]);
  }

  /** A stream that has ended: the turn after. */
  lemma Dry(first: nat, e: Enclave, errno: int)
    ensures Next(Going([], first, e), errno) ==
            if first == FINISHED then Returned(0, e)
            else if HasBody(first) then Returned(-errno, e)
            else Going([], first, Next(Going([], first, e), errno).enclave)
    ensures Returns([], first) == Ends(first)
    ensures Status([], first, errno) == (if first == FINISHED then 0 else -errno) && Record([], e) == e
  {
    assert [first][1..] == [];
    assert ReadLen([]) == None;
  }

  /** The loop returns, with that status and record, in as many turns as there are arguments, and one. */
  lemma {:induction false} DoesReturn(d: Bytes, first: nat, e: Enclave, errno: int) returns (n: nat)
    requires Returns(d, first)
    ensures Turns(Going(d, first, e), errno, n) == Returned(Status(d, first, errno), Record(d, e))
    decreases |d|
  {
    hide Next, Returns, Status, Record, ReadArg, Take;
    if d == [] {
      n := 1;
      Dry(first, e, errno);
      OneTurn(Going(d, first, e), errno);
    } else if d[0] == FINISHED || ReadArg(d).None? {
      n := 1;
      LastTurn(d, first, e, errno);
      OneTurn(Going(d, first, e), errno);
    } else {
      var (a, rest) := ReadArg(d).value;
      Onward(d, first, e, errno);
      var m := DoesReturn(rest, d[0], Take(e, a), errno);
      n := m + 1;
    }
  }

  lemma OneTurn(l: Loop, errno: int)
    ensures Turns(l, errno, 1) == Next(l, errno)
  {
    hide Next;
    assert Turns(Next(l, errno), errno, 0) == Next(l, errno);
  }

  lemma LastTurn(d: Bytes, first: nat, e: Enclave, errno: int)
    requires d != [] && (d[0] == FINISHED || ReadArg(d).None?)
    ensures Next(Going(d, first, e), errno) == Returned(Status(d, first, errno), Record(d, e))
  {
    hide ReadArg;
  }

  /** Otherwise it goes on, for any number of turns. */
  lemma {:induction false} NeverReturns(d: Bytes, first: nat, e: Enclave, errno: int, n: nat)
    requires !Returns(d, first)
    ensures Turns(Going(d, first, e), errno, n).Going?
    decreases n
  {
    hide Next, Returns, Status, Record, ReadArg, Take;
    if n > 0 {
      if d == [] {
        Dry(first, e, errno);
        DryEnds(first);
        NeverReturns([], first, Next(Going([], first, e), errno).enclave, errno, n - 1);
      } else {
        WholeSoFar(d, first);
        var (a, rest) := ReadArg(d).value;
        Onward(d, first, e, errno);
        NeverReturns(rest, d[0], Take(e, a), errno, n - 1);
      }
    }
  }

  lemma DryEnds(first: nat)
    ensures Ends(first) == (first == FINISHED || HasBody(first))
  {
  }

  lemma WholeSoFar(d: Bytes, first: nat)
    requires d != [] && !Returns(d, first)
    ensures d[0] != FINISHED && ReadArg(d).Some?
  {
    hide ReadArg;
  }

  /**
   * The loop returns if and only if the stream does not end where an id is expected, or does so
   * after an argument with a body: taken again, its length is not there.
   */
  lemma ReturnsIff(d: Bytes, first: nat, e: Enclave, errno: int)
    ensures (exists n: nat :: Turns(Going(d, first, e), errno, n).Returned?) <==> Returns(d, first)
  {
    hide Returns, Turns, Status, Record;
    if Returns(d, first) {
      var n := DoesReturn(d, first, e, errno);
    } else {
      forall n: nat ensures !Turns(Going(d, first, e), errno, n).Returned? { NeverReturns(d, first, e, errno, n); }
    }
  }
}
