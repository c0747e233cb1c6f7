/** The implicit stack of the tokenizer made explicit: it is a pushdown
    automaton over the brackets of the text, and it accepts exactly the
    type-matched balanced words. */
module JsonPushdown {
  import opened Options
  import opened JsonLexing
  import opened JsonMachine

  datatype Bracket = Push(kind: Kind) | Pop(kind: Kind)

  function Brackets(xs: seq<Lexeme>): seq<Bracket> {
    if xs == [] then []
    else
      (match xs[0]
       case Open(shape, _) => [Push(Container(shape))]
       case Close(shape, _) => [Pop(Container(shape))]
       case _ => [])
      + Brackets(xs[1..])
  }

  /** The reference: words generated by `S -> empty | ( S ) S`, one pair of
      brackets per kind. */
  ghost predicate Balanced(w: seq<Bracket>)
    decreases |w|
  {
    w == [] || exists k: nat :: SplitsAt(w, k) && Balanced(w[1..k]) && Balanced(w[k + 1..])
  }

  predicate SplitsAt(w: seq<Bracket>, k: nat) {
    1 <= k < |w| && w[0].Push? && w[k] == Pop(w[0].kind)
  }

  /** The automaton: a stack of kinds, innermost last. */
  function Pda(stack: seq<Kind>, w: seq<Bracket>): Option<seq<Kind>>
    decreases |w|
  {
    if w == [] then Some(stack)
    else
      match w[0]
      case Push(kind) => Pda(stack + [kind], w[1..])
      case Pop(kind) =>
        if stack != [] && stack[|stack| - 1] == kind then Pda(stack[..|stack| - 1], w[1..]) else None
  }

  lemma {:induction false} PdaAppend(stack: seq<Kind>, v: seq<Bracket>, w: seq<Bracket>)
    ensures Pda(stack, v + w) ==
            match Pda(stack, v)
            case None => None
            case Some(s) => Pda(s, w)
    decreases |v|
  {
    if v == [] {
      assert v + w == w;
    } else {
      assert (v + w)[0] == v[0] && (v + w)[1..] == v[1..] + w;
      match v[0]
      case Push(kind) => PdaAppend(stack + [kind], v[1..], w);
      case Pop(kind) =>
        if stack != [] && stack[|stack| - 1] == kind { PdaAppend(stack[..|stack| - 1], v[1..], w); }
    }
  }

  /** A run that uncovers what lies under `kind` pops `kind` at some point, and
      what it read before that left `upper` empty. */
  lemma {:induction false} PdaUncovers(lower: seq<Kind>, kind: Kind, upper: seq<Kind>, w: seq<Bracket>)
    returns (j: nat)
    requires Pda(lower + [kind] + upper, w) == Some(lower)
    ensures j < |w| && w[j] == Pop(kind)
    ensures Pda(upper, w[..j]) == Some([])
    ensures Pda(lower, w[j + 1..]) == Some(lower)
    decreases |w|
  {
    var stack := lower + [kind] + upper;
    assert |stack| > |lower|;
    match w[0]
    case Push(x) =>
      assert stack + [x] == lower + [kind] + (upper + [x]);
      var i := PdaUncovers(lower, kind, upper + [x], w[1..]);
      j := i + 1;
      assert w[..j][1..] == w[1..][..i];
      assert w[j + 1..] == w[1..][i + 1..];
    case Pop(x) =>
      if upper == [] {
        j := 0;
        assert stack[..|stack| - 1] == lower;
      } else {
        var upper' := upper[..|upper| - 1];
        assert stack[..|stack| - 1] == lower + [kind] + upper';
        var i := PdaUncovers(lower, kind, upper', w[1..]);
        j := i + 1;
        assert w[..j][1..] == w[1..][..i];
        assert w[j + 1..] == w[1..][i + 1..];
      }
  }

  lemma {:induction false} BalancedKeepsStack(stack: seq<Kind>, w: seq<Bracket>)
    requires Balanced(w)
    ensures Pda(stack, w) == Some(stack)
    decreases |w|
  {
    if w != [] {
      var k: nat :| SplitsAt(w, k) && Balanced(w[1..k]) && Balanced(w[k + 1..]);
      var kind := w[0].kind;
      BalancedKeepsStack(stack + [kind], w[1..k]);
      BalancedKeepsStack(stack, w[k + 1..]);
      assert w[1..] == w[1..k] + w[k..];
      PdaAppend(stack + [kind], w[1..k], w[k..]);
      assert w[k..][1..] == w[k + 1..];
      assert (stack + [kind])[..|stack|] == stack;
    }
  }

  lemma {:induction false} AcceptedIsBalanced(w: seq<Bracket>)
    requires Pda([], w) == Some([])
    ensures Balanced(w)
    decreases |w|
  {
    if w != [] {
      var kind := w[0].kind;
      assert [] + [kind] + [] == [kind];
      var j := PdaUncovers([], kind, [], w[1..]);
      assert w[1..][..j] == w[1..j + 1] && w[1..][j + 1..] == w[j + 2..];
      AcceptedIsBalanced(w[1..j + 1]);
      AcceptedIsBalanced(w[j + 2..]);
      assert SplitsAt(w, j + 1);
    }
  }

  /** The kinds of the open tokens, in the order they were opened. */
  function OpenKinds(toks: seq<Token>): seq<Kind> {
    if toks == [] then []
    else
      var n := |toks| - 1;
      OpenKinds(toks[..n]) + if IsOpen(toks[n]) then [toks[n].kind] else []
  }

  lemma {:induction false} BumpKeepsKinds(toks: seq<Token>, i: int)
    requires -1 <= i < |toks|
    ensures OpenKinds(Bump(toks, i)) == OpenKinds(toks)
    decreases |toks|
  {
    if i >= 0 {
      var n := |toks| - 1;
      assert Bump(toks, i)[..n] == if i < n then Bump(toks[..n], i) else toks[..n];
      if i < n { BumpKeepsKinds(toks[..n], i); }
    }
  }

  lemma OpenKindsSnoc(toks: seq<Token>, t: Token)
    ensures OpenKinds(toks + [t]) == OpenKinds(toks) + if IsOpen(t) then [t.kind] else []
  {
    assert (toks + [t])[..|toks|] == toks;
  }

  lemma LastOpenSnoc(toks: seq<Token>, t: Token)
    ensures LastOpen(toks + [t], |toks| + 1) == if IsOpen(t) then |toks| else LastOpen(toks, |toks|)
  {
    hide IsOpen;
    LastOpenPrefix(toks + [t], |toks|);
    assert (toks + [t])[..|toks|] == toks;
  }

  lemma NothingOpen()
    ensures OpenKinds([]) == [] && LastOpen([], 0) == -1
  {
  }

  /** The last open token is the top of the stack, and closing it pops. */
  lemma {:induction false} LastOpenIsTop(toks: seq<Token>, end: nat)
    ensures var i := LastOpen(toks, |toks|);
            var s := OpenKinds(toks);
            if i == -1 then s == []
            else s != [] && s[|s| - 1] == toks[i].kind
                 && OpenKinds(toks[i := toks[i].(end := end)]) == s[..|s| - 1]
    decreases |toks|
  {
    hide LastOpen, OpenKinds;
    if toks == [] {
      NothingOpen();
    } else {
      var n := |toks| - 1;
      var front, t := toks[..n], toks[n];
      assert toks == front + [t];
      OpenKindsSnoc(front, t);
      LastOpenSnoc(front, t);
      if IsOpen(t) {
        OpenKindsSnoc(front, t.(end := end));
        assert toks[n := t.(end := end)] == front + [t.(end := end)];
      } else {
        LastOpenIsTop(front, end);
        var i := LastOpen(front, n);
        if i != -1 {
          var closed := front[i := front[i].(end := end)];
          OpenKindsSnoc(closed, t);
          assert toks[i := toks[i].(end := end)] == closed + [t];
        }
      }
    }
  }

  lemma {:induction false} LastOpenPrefix(toks: seq<Token>, n: nat)
    requires n <= |toks|
    ensures LastOpen(toks, n) == LastOpen(toks[..n], n)
    decreases n
  {
    if n > 0 && !IsOpen(toks[n - 1]) {
      LastOpenPrefix(toks, n - 1);
      LastOpenPrefix(toks[..n], n - 1);
      assert toks[..n][..n - 1] == toks[..n - 1];
    }
  }

  /** One lexeme moves the tokens and the automaton together. */
  lemma StepRefines(m: Machine, x: Lexeme)
    requires Valid(m)
    ensures var s := Pda(OpenKinds(m.toks), Brackets([x]));
            match Step(m, x)
            case None => s == None
            case Some(m') => s == Some(OpenKinds(m'.toks))
  {
    hide OpenKinds, LastOpen, Bump;
    OneBracket(x);
    match x
    case Open(shape, at) =>
      BumpKeepsKinds(m.toks, m.super);
      OpenKindsSnoc(Bump(m.toks, m.super), Token(Container(shape), at, -1, 0));
    case Close(shape, at) => LastOpenIsTop(m.toks, at + 1);
    case Leaf(quoted, from, to) =>
      BumpKeepsKinds(m.toks, m.super);
      OpenKindsSnoc(Bump(m.toks, m.super), Token(LeafKind(quoted), from, to, 0));
      assert OpenKinds(m.toks) + [] == OpenKinds(m.toks);
    case _ =>
  }

  lemma OneBracket(x: Lexeme)
    ensures Brackets([x]) == match x
                             case Open(shape, _) => [Push(Container(shape))]
                             case Close(shape, _) => [Pop(Container(shape))]
                             case _ => []
  {
    assert Brackets([x][1..]) == [];
  }

  /** At every step of every run the open tokens are the automaton's stack, and
      the machine rejects exactly when the automaton does. */
  lemma {:induction false} RunRefinesPushdown(m: Machine, xs: seq<Lexeme>)
    requires Valid(m)
    ensures var s := Pda(OpenKinds(m.toks), Brackets(xs));
            match Run(m, xs)
            case None => s == None
            case Some(m') => s == Some(OpenKinds(m'.toks))
    decreases |xs|
  {
    if xs != [] {
      assert Brackets([xs[0]][1..]) == [];
      assert Brackets(xs) == Brackets([xs[0]]) + Brackets(xs[1..]);
      StepRefines(m, xs[0]);
      PdaAppend(OpenKinds(m.toks), Brackets([xs[0]]), Brackets(xs[1..]));
      if Step(m, xs[0]).Some? { RunRefinesPushdown(Step(m, xs[0]).value, xs[1..]); }
    }
  }

  /** `jsmn_parse` with enough tokens, on a text whose string lexemes are valid:
      it succeeds if and only if the brackets of the text are balanced, and then
      counts one token per opening bracket, string and primitive. */
  lemma ParseAcceptsBalanced(b: Buffer, capacity: nat)
    requires LexAll(b, 0).error == None
    requires Allocations(LexAll(b, 0).lexemes) <= capacity
    ensures var xs := LexAll(b, 0).lexemes;
            var r := ParseText(b, Filling(capacity)).result;
            && (r.Count? <==> Balanced(Brackets(xs)))
            && (r.Count? ==> r.tokens == Allocations(xs))
            && (r.Failed? ==> r.error != NoMem)
  {
    var xs := LexAll(b, 0).lexemes;
    var w := Brackets(xs);
    var r := ParseText(b, Filling(capacity));
    var k := ParseRunsLexemes(b, 0, Start, capacity, 0);
    assert OpenKinds(Start.toks) == [];
    RunRefinesPushdown(Start, xs);
    assert xs == xs[..k] + xs[k..];
    RunAppend(Start, xs[..k], xs[k..]);
    AllocationsAppend(xs[..k], xs[k..]);
    if k < |xs| {
      assert xs[k..][0] == xs[k];
      if Step(r.m, xs[k]) == None && Balanced(w) {
        assert Run(r.m, xs[k..]) == None;
        BalancedKeepsStack([], w);
      }
    } else {
      assert xs[..k] == xs;
      LastOpenIsTop(r.m.toks, 0);
      if Balanced(w) { BalancedKeepsStack([], w); }
      if r.result.Count? { AcceptedIsBalanced(w); }
    }
  }
}
