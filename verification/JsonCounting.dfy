/** What the counters of the tokenizer mean. */
module JsonCounting {
  import opened JsonLexing
  import opened JsonMachine
  import opened JsonPushdown

  function SumSizes(toks: seq<Token>): int {
    if toks == [] then 0 else SumSizes(toks[..|toks| - 1]) + toks[|toks| - 1].size
  }

  /** How many tokens are handed out while some token is superior. */
  function Adopted(m: Machine, xs: seq<Lexeme>): nat
    requires Valid(m)
    decreases |xs|
  {
    if xs == [] then 0
    else
      match Step(m, xs[0])
      case None => 0
      case Some(m') =>
        (if Allocates(xs[0]) && m.super != -1 then 1 else 0) + Adopted(m', xs[1..])
  }

  lemma {:induction false} SumUpdate(toks: seq<Token>, i: nat, t: Token)
    requires i < |toks|
    ensures SumSizes(toks[i := t]) == SumSizes(toks) + t.size - toks[i].size
    decreases |toks|
  {
    var n := |toks| - 1;
    if i < n {
      assert toks[i := t][..n] == toks[..n][i := t];
      SumUpdate(toks[..n], i, t);
    } else {
      assert toks[i := t][..n] == toks[..n];
    }
  }

  lemma SumSnoc(toks: seq<Token>, t: Token)
    ensures SumSizes(toks + [t]) == SumSizes(toks) + t.size
  {
    assert (toks + [t])[..|toks|] == toks;
  }

  lemma StepSum(m: Machine, x: Lexeme)
    requires Valid(m) && Step(m, x).Some?
    ensures SumSizes(Step(m, x).value.toks) ==
            SumSizes(m.toks) + if Allocates(x) && m.super != -1 then 1 else 0
  {
    if Allocates(x) {
      if m.super != -1 {
        SumUpdate(m.toks, m.super, m.toks[m.super].(size := m.toks[m.super].size + 1));
      }
      SumSnoc(Bump(m.toks, m.super),
              if x.Open? then Token(Container(x.shape), x.at, -1, 0) else Token(LeafKind(x.quoted), x.from, x.to, 0));
    } else if x.Close? {
      var i := LastOpen(m.toks, |m.toks|);
      SumUpdate(m.toks, i, m.toks[i].(end := x.at + 1));
    }
  }

  /** Every token but the ones made with no superior is somebody's child, once. */
  lemma {:induction false} SizesCountChildren(m: Machine, xs: seq<Lexeme>)
    requires Valid(m) && Run(m, xs).Some?
    ensures SumSizes(Run(m, xs).value.toks) == SumSizes(m.toks) + Adopted(m, xs)
    decreases |xs|
  {
    if xs != [] {
      StepSum(m, xs[0]);
      SizesCountChildren(Step(m, xs[0]).value, xs[1..]);
    }
  }

  /** Counting mode sees the lexemes and nothing else. */
  lemma {:induction false} CountingCountsLexemes(b: Buffer, p: nat, m: Machine, count: nat)
    requires p <= |b.js| && Valid(m)
    ensures var all := LexAll(b, p);
            var r := Parse(b, p, m, Counting, count);
            && r.m.toks == m.toks && r.buf == all.buf && r.pos == all.stop
            && r.result == match all.error
                           case Some(e) => Failed(e)
                           case None => Count(count + Allocations(all.lexemes))
    decreases |b.js| - p
  {
    if More(b.js, p) && Lex(b, p).Lexed? {
      var Lexed(x, next, buf) := Lex(b, p);
      CountingCountsLexemes(buf, next, StepIn(Counting, m, x).value,
                            count + if Allocates(x) then 1 else 0);
      assert LexAll(b, p).lexemes[1..] == LexAll(buf, next).lexemes;
    }
  }

  /** A successful filling call counts the tokens it handed out, and counting
      mode gives the same answer on the same text. */
  lemma FillingAgreesWithCounting(b: Buffer, capacity: nat)
    requires ParseText(b, Filling(capacity)).result.Count?
    ensures var r := ParseText(b, Filling(capacity));
            var c := ParseText(b, Counting);
            && r.result.tokens == |r.m.toks| <= capacity
            && c.result == r.result && c.buf == r.buf && c.pos == r.pos
            && SumSizes(r.m.toks) == Adopted(Start, LexAll(b, 0).lexemes)
  {
    var k := ParseRunsLexemes(b, 0, Start, capacity, 0);
    var xs := LexAll(b, 0).lexemes;
    assert xs[..k] == xs;
    CountingCountsLexemes(b, 0, Start, 0);
    SizesCountChildren(Start, xs);
    NeverOverfills(b, 0, Start, capacity, 0);
  }

  lemma {:induction false} NeverOverfills(b: Buffer, p: nat, m: Machine, capacity: nat, count: nat)
    requires p <= |b.js| && Valid(m) && |m.toks| <= capacity
    ensures |Parse(b, p, m, Filling(capacity), count).m.toks| <= capacity
    decreases |b.js| - p
  {
    if More(b.js, p) && Lex(b, p).Lexed? {
      var Lexed(x, next, buf) := Lex(b, p);
      if !(Allocates(x) && |m.toks| >= capacity) && Step(m, x).Some? {
        NeverOverfills(buf, next, Step(m, x).value, capacity, count + if Allocates(x) then 1 else 0);
      }
    }
  }

  /** On one and the same text, an array of the size that counting mode asks for
      is never too small, and one token less always is, when the text is valid. */
  lemma CapacityNeeded(b: Buffer, capacity: nat)
    requires ParseText(b, Counting).result.Count?
    ensures var n := ParseText(b, Counting).result.tokens;
            var r := ParseText(b, Filling(capacity)).result;
            && (capacity >= n ==> r != Failed(NoMem))
            && (capacity < n ==> r.Failed?)
            && (capacity < n && Balanced(Brackets(LexAll(b, 0).lexemes)) ==> r == Failed(NoMem))
  {
    var xs := LexAll(b, 0).lexemes;
    CountingCountsLexemes(b, 0, Start, 0);
    var k := ParseRunsLexemes(b, 0, Start, capacity, 0);
    assert xs == xs[..k] + xs[k..];
    AllocationsAppend(xs[..k], xs[k..]);
    NeverOverfills(b, 0, Start, capacity, 0);
    var r := ParseText(b, Filling(capacity));
    if capacity < Allocations(xs) && Balanced(Brackets(xs)) {
      BalancedKeepsStack([], Brackets(xs));
      assert OpenKinds(Start.toks) == [];
      RunRefinesPushdown(Start, xs);
      RunAppend(Start, xs[..k], xs[k..]);
      if k < |xs| { assert xs[k..][0] == xs[k]; }
    }
  }

  /** A token has at most as many children as there are tokens after it. */
  ghost predicate SizesFit(toks: seq<Token>) {
    forall i :: 0 <= i < |toks| ==> 0 <= toks[i].size < |toks| - i
  }

  lemma {:induction false} ParseSizesFit(b: Buffer, p: nat, m: Machine, capacity: nat, count: nat)
    requires p <= |b.js| && Valid(m) && SizesFit(m.toks)
    ensures SizesFit(Parse(b, p, m, Filling(capacity), count).m.toks)
    decreases |b.js| - p
  {
    if More(b.js, p) && Lex(b, p).Lexed? {
      var Lexed(x, next, buf) := Lex(b, p);
      if !(Allocates(x) && |m.toks| >= capacity) && Step(m, x).Some? {
        ParseSizesFit(buf, next, Step(m, x).value, capacity, count + if Allocates(x) then 1 else 0);
      }
    }
  }
}
