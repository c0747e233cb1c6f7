/** The token half of the JSON tokenizer.  The parser keeps no stack: its open
    containers are the tokens whose end is still -1, and `super` is the token
    whose size the next token will add to.  `toks` is the part of the caller's
    token array that has been handed out, so `toknext` is its length. */
module JsonMachine {
  import opened Options
  import opened JsonLexing

  datatype Token = Token(kind: Kind, start: int, end: int, size: int)

  datatype Machine = Machine(toks: seq<Token>, super: int)

  /** `tokens == NULL`, or an array of `capacity` tokens. */
  datatype Mode = Counting | Filling(capacity: nat)

  datatype Result = Count(tokens: nat) | Failed(error: Error)

  datatype Outcome = Outcome(result: Result, buf: Buffer, pos: nat, m: Machine)

  /** `jsmn_init`, with no token handed out. */
  const Start := Machine([], -1)

  predicate IsOpen(t: Token) {
    t.start != -1 && t.end == -1
  }

  ghost predicate Valid(m: Machine) {
    && -1 <= m.super < |m.toks|
    && forall i :: 0 <= i < |m.toks| ==>
         m.toks[i].start >= 0 && (IsOpen(m.toks[i]) ==> IsContainer(m.toks[i].kind))
  }

  /** The backwards searches of `jsmn_parse`: the last open token before `n`. */
  function LastOpen(toks: seq<Token>, n: nat): (i: int)
    requires n <= |toks|
    ensures -1 <= i < n
    ensures i >= 0 ==> IsOpen(toks[i])
    ensures forall j :: i < j < n ==> !IsOpen(toks[j])
  {
    if n == 0 then -1 else if IsOpen(toks[n - 1]) then n - 1 else LastOpen(toks, n - 1)
  }

  /** One more child for token `i`, or for nobody. */
  function Bump(toks: seq<Token>, i: int): (r: seq<Token>)
    requires -1 <= i < |toks|
    ensures |r| == |toks|
  {
    if i == -1 then toks else toks[i := toks[i].(size := toks[i].size + 1)]
  }

  /** What a lexeme does to the tokens; `None` is `JSMN_ERROR_INVAL`, which only
      a closing bracket can cause. */
  function Step(m: Machine, x: Lexeme): (r: Option<Machine>)
    requires Valid(m)
    ensures r.Some? ==> Valid(r.value)
    ensures r.Some? ==> |r.value.toks| == |m.toks| + if Allocates(x) then 1 else 0
    ensures r.None? ==> x.Close?
  {
    match x
    case Open(shape, at) =>
      Some(Machine(Bump(m.toks, m.super) + [Token(Container(shape), at, -1, 0)], |m.toks|))
    case Close(shape, at) =>
      var i := LastOpen(m.toks, |m.toks|);
      if i == -1 || m.toks[i].kind != Container(shape) then None
      else
        var toks' := m.toks[i := m.toks[i].(end := at + 1)];
        Some(Machine(toks', LastOpen(toks', i)))
    case Leaf(quoted, from, to) =>
      Some(Machine(Bump(m.toks, m.super) + [Token(LeafKind(quoted), from, to, 0)], m.super))
    case Colon => Some(m.(super := |m.toks| - 1))
    case Comma =>
      if m.super != -1 && !IsContainer(m.toks[m.super].kind) && LastOpen(m.toks, |m.toks|) != -1 then
        Some(m.(super := LastOpen(m.toks, |m.toks|)))
      else Some(m)
    case Blank => Some(m)
  }

  /** The same in counting mode, where only a colon still touches the parser. */
  function StepIn(mode: Mode, m: Machine, x: Lexeme): (r: Option<Machine>)
    requires Valid(m)
    ensures r.Some? ==> Valid(r.value)
  {
    if mode.Filling? then Step(m, x)
    else if x.Colon? then Some(m.(super := |m.toks| - 1))
    else Some(m)
  }

  /** `jsmn_parse` from position `p`, with `count` tokens counted so far. */
  function Parse(b: Buffer, p: nat, m: Machine, mode: Mode, count: nat): (r: Outcome)
    requires p <= |b.js| && Valid(m)
    ensures Valid(r.m) && |r.buf.js| == |b.js| && p <= r.pos <= |b.js|
    decreases |b.js| - p
  {
    if !More(b.js, p) then
      if mode.Filling? && LastOpen(m.toks, |m.toks|) != -1 then Outcome(Failed(Part), b, p, m)
      else Outcome(Count(count), b, p, m)
    else
      match Lex(b, p)
      case Unreadable(error, buf) => Outcome(Failed(error), buf, p, m)
      case Lexed(x, next, buf) =>
        if mode.Filling? && Allocates(x) && |m.toks| >= mode.capacity then
          Outcome(Failed(NoMem), buf, p, m)
        else
          match StepIn(mode, m, x)
          case None => Outcome(Failed(Inval), buf, p, m)
          case Some(m') => Parse(buf, next, m', mode, count + if Allocates(x) then 1 else 0)
  }

  /** One turn of the outer loop that reads a lexeme and lets the machine take
      it. */
  lemma ParseStep(b: Buffer, p: nat, m: Machine, mode: Mode, count: nat, x: Lexeme, next: nat, buf: Buffer)
    requires More(b.js, p) && Valid(m) && Lex(b, p) == Lexed(x, next, buf)
    requires mode.Filling? && Allocates(x) ==> |m.toks| < mode.capacity
    requires StepIn(mode, m, x).Some?
    ensures Parse(b, p, m, mode, count) ==
            Parse(buf, next, StepIn(mode, m, x).value, mode, count + if Allocates(x) then 1 else 0)
  {
  }

  lemma ParseStops(b: Buffer, p: nat, m: Machine, mode: Mode, count: nat)
    requires p <= |b.js| && Valid(m)
    ensures !More(b.js, p) ==>
              Parse(b, p, m, mode, count) ==
              Outcome(if mode.Filling? && LastOpen(m.toks, |m.toks|) != -1 then Failed(Part) else Count(count), b, p, m)
    ensures More(b.js, p) && Lex(b, p).Unreadable? ==>
              Parse(b, p, m, mode, count) == Outcome(Failed(Lex(b, p).error), Lex(b, p).buf, p, m)
    ensures More(b.js, p) && Lex(b, p).Lexed? && mode.Filling? && Allocates(Lex(b, p).lexeme)
            && |m.toks| >= mode.capacity ==>
              Parse(b, p, m, mode, count) == Outcome(Failed(NoMem), Lex(b, p).buf, p, m)
    ensures More(b.js, p) && Lex(b, p).Lexed? && StepIn(mode, m, Lex(b, p).lexeme) == None ==>
              Parse(b, p, m, mode, count) == Outcome(Failed(Inval), Lex(b, p).buf, p, m)
  {
  }

  /** A fresh call on a fresh parser. */
  function ParseText(b: Buffer, mode: Mode): Outcome {
    Parse(b, 0, Start, mode, 0)
  }

  /** Lexemes fed to the machine one after the other. */
  function Run(m: Machine, xs: seq<Lexeme>): (r: Option<Machine>)
    requires Valid(m)
    ensures r.Some? ==> Valid(r.value) && |r.value.toks| == |m.toks| + Allocations(xs)
    decreases |xs|
  {
    if xs == [] then Some(m)
    else
      match Step(m, xs[0])
      case None => None
      case Some(m') => Run(m', xs[1..])
  }

  lemma {:induction false} RunAppend(m: Machine, xs: seq<Lexeme>, ys: seq<Lexeme>)
    requires Valid(m)
    ensures Run(m, xs + ys) ==
            match Run(m, xs)
            case None => None
            case Some(m') => Run(m', ys)
    decreases |xs|
  {
    if xs == [] {
      assert xs + ys == ys;
    } else {
      assert (xs + ys)[0] == xs[0] && (xs + ys)[1..] == xs[1..] + ys;
      match Step(m, xs[0])
      case None =>
      case Some(m') => RunAppend(m', xs[1..], ys);
    }
  }

  /** Why a filling parse ended where it did, when it had run the first `k`
      lexemes of `all` and stood in `m`. */
  ghost predicate Explains(r: Result, all: Lexing, k: nat, m: Machine, capacity: nat, count: nat)
    requires k <= |all.lexemes| && Valid(m)
  {
    var none := LastOpen(m.toks, |m.toks|) == -1;
    match r
    case Count(n) =>
      k == |all.lexemes| && all.error == None && none && n == count + Allocations(all.lexemes)
    case Failed(NoMem) =>
      k < |all.lexemes| && Allocates(all.lexemes[k]) && |m.toks| >= capacity
    case Failed(e) =>
      || (k < |all.lexemes| && e == Inval && Step(m, all.lexemes[k]) == None)
      || (k == |all.lexemes| && all.error == Some(e))
      || (k == |all.lexemes| && all.error == None && e == Part && !none)
  }

  lemma RunCons(m: Machine, x: Lexeme, xs: seq<Lexeme>)
    requires Valid(m) && Step(m, x).Some?
    ensures Run(m, [x] + xs) == Run(Step(m, x).value, xs)
  {
    assert ([x] + xs)[1..] == xs;
  }

  lemma ExplainsCons(r: Result, x: Lexeme, rest: Lexing, k: nat, m: Machine, capacity: nat, count: nat)
    requires k <= |rest.lexemes| && Valid(m)
    requires Explains(r, rest, k, m, capacity, count + if Allocates(x) then 1 else 0)
    ensures Explains(r, rest.(lexemes := [x] + rest.lexemes), k + 1, m, capacity, count)
  {
    assert ([x] + rest.lexemes)[1..] == rest.lexemes;
  }

  /** Every filling parse runs a prefix of the lexemes of its text through the
      machine, and its result says why it stopped there. */
  lemma {:induction false} ParseRunsLexemes(b: Buffer, p: nat, m: Machine, capacity: nat, count: nat)
    returns (k: nat)
    requires p <= |b.js| && Valid(m)
    ensures var r := Parse(b, p, m, Filling(capacity), count);
            var all := LexAll(b, p);
            && k <= |all.lexemes|
            && Run(m, all.lexemes[..k]) == Some(r.m)
            && Explains(r.result, all, k, r.m, capacity, count)
            && (r.result.Count? ==> r.buf == all.buf && r.pos == all.stop)
    decreases |b.js| - p
  {
    k := 0;
    if More(b.js, p) && Lex(b, p).Lexed? {
      var Lexed(x, next, buf) := Lex(b, p);
      if !(Allocates(x) && |m.toks| >= capacity) && Step(m, x).Some? {
        k := ParseRunsRest(b, p, m, capacity, count);
      }
    }
  }

  lemma {:induction false} ParseRunsRest(b: Buffer, p: nat, m: Machine, capacity: nat, count: nat)
    returns (k: nat)
    requires Valid(m) && More(b.js, p) && Lex(b, p).Lexed? && Step(m, Lex(b, p).lexeme).Some?
    requires Allocates(Lex(b, p).lexeme) ==> |m.toks| < capacity
    ensures var r := Parse(b, p, m, Filling(capacity), count);
            var all := LexAll(b, p);
            && k <= |all.lexemes|
            && Run(m, all.lexemes[..k]) == Some(r.m)
            && Explains(r.result, all, k, r.m, capacity, count)
            && (r.result.Count? ==> r.buf == all.buf && r.pos == all.stop)
    decreases |b.js| - p, 0
  {
    hide Lex, Step, Run, Explains, Parse;
    var Lexed(x, next, buf) := Lex(b, p);
    ParseStep(b, p, m, Filling(capacity), count, x, next, buf);
    var all, rest := LexAll(b, p), LexAll(buf, next);
    var m' := Step(m, x).value;
    var c' := count + if Allocates(x) then 1 else 0;
    var r := Parse(buf, next, m', Filling(capacity), c');
    var j := ParseRunsLexemes(buf, next, m', capacity, c');
    k := j + 1;
    assert all.lexemes[..k] == [x] + rest.lexemes[..j];
    RunCons(m, x, rest.lexemes[..j]);
    ExplainsCons(r.result, x, rest, j, r.m, capacity, count);
  }

  lemma {:induction false} AllocationsAppend(xs: seq<Lexeme>, ys: seq<Lexeme>)
    ensures Allocations(xs + ys) == Allocations(xs) + Allocations(ys)
    decreases |xs|
  {
    if xs == [] {
      assert xs + ys == ys;
    } else {
      assert (xs + ys)[1..] == xs[1..] + ys;
      AllocationsAppend(xs[1..], ys);
    }
  }

  /** A text whose lexemes the machine accepts, with everything closed at the
      end, is accepted by a call with enough tokens. */
  lemma AcceptedRun(b: Buffer, capacity: nat, m: Machine)
    requires LexAll(b, 0).error == None && Allocations(LexAll(b, 0).lexemes) <= capacity
    requires Run(Start, LexAll(b, 0).lexemes) == Some(m) && LastOpen(m.toks, |m.toks|) == -1
    ensures ParseText(b, Filling(capacity)) ==
            Outcome(Count(|m.toks|), LexAll(b, 0).buf, LexAll(b, 0).stop, m)
  {
    var xs := LexAll(b, 0).lexemes;
    var k := ParseRunsLexemes(b, 0, Start, capacity, 0);
    assert xs == xs[..k] + xs[k..];
    RunAppend(Start, xs[..k], xs[k..]);
    AllocationsAppend(xs[..k], xs[k..]);
    assert k == |xs| ==> xs[..k] == xs;
  }
}
