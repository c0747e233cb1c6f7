/** Running the lexemes of a value builds the tokens of the value. */
module JsonRoundTripMachine {
  import opened Options
  import opened JsonLexing
  import opened JsonMachine
  import opened JsonRoundTrip

  /** `n` more children for token `i`. */
  function Grown(toks: seq<Token>, i: nat, n: int): (r: seq<Token>)
    requires i < |toks|
    ensures |r| == |toks|
  {
    toks[i := toks[i].(size := toks[i].size + n)]
  }

  ghost predicate AllClosed(toks: seq<Token>) {
    forall i :: 0 <= i < |toks| ==> toks[i].start >= 0 && toks[i].end >= 0
  }

  lemma {:induction false} TokensClosed(v: Value, p: nat)
    ensures AllClosed(TokensOf(v, p))
  {
    match v
    case Text(_) =>
    case Word(_) =>
    case List(pad, items) => ItemTokensClosed(items, p + 1 + |pad|);
    case Record(pad, members) => MemberTokensClosed(members, p + 1 + |pad|);
  }

  lemma {:induction false} ItemTokensClosed(xs: Items, p: nat)
    ensures AllClosed(TokensOfItems(xs, p))
  {
    if xs.Item? {
      var q := p + |xs.before|;
      TokensClosed(xs.value, q);
      ItemTokensClosed(xs.rest, q + |Render(xs.value)| + |xs.after| + 1);
    }
  }

  lemma {:induction false} MemberTokensClosed(xs: Members, p: nat)
    ensures AllClosed(TokensOfMembers(xs, p))
  {
    if xs.Member? {
      var k := p + |xs.before| + 1;
      var q := k + |xs.key| + 1 + |xs.mid| + 1 + |xs.gap|;
      TokensClosed(xs.value, q);
      MemberTokensClosed(xs.rest, q + |Render(xs.value)| + |xs.after| + 1);
    }
  }

  /** Closed tokens at the end, and sizes, do not matter to the search. */
  lemma {:induction false} LastOpenSkips(toks: seq<Token>, n: nat, toks': seq<Token>, n': nat)
    requires n <= n' <= |toks'| && n <= |toks|
    requires forall i :: 0 <= i < n ==> IsOpen(toks'[i]) == IsOpen(toks[i])
    requires forall i :: n <= i < n' ==> !IsOpen(toks'[i])
    ensures LastOpen(toks', n') == LastOpen(toks, n)
    decreases n'
  {
  }

  lemma BumpKeepsOpen(toks: seq<Token>, i: int)
    requires -1 <= i < |toks|
    ensures forall j :: 0 <= j < |toks| ==> IsOpen(Bump(toks, i)[j]) == IsOpen(toks[j])
  {
  }

  lemma {:induction false} RunBlanks(m: Machine, n: nat, tail: seq<Lexeme>)
    requires Valid(m)
    ensures Run(m, Blanks(n, tail)) == Run(m, tail)
  {
    if n > 0 {
      RunCons(m, Blank, Blanks(n - 1, tail));
      RunBlanks(m, n - 1, tail);
    }
  }

  /** A comma hands the superior back to the innermost open container. */
  lemma RunSeparator(m: Machine, n: nat, last: bool, tail: seq<Lexeme>)
    requires Valid(m) && 0 <= m.super < |m.toks| && LastOpen(m.toks, |m.toks|) >= 0
    requires m.super == LastOpen(m.toks, |m.toks|) || !IsContainer(m.toks[m.super].kind)
    ensures var m' := if last then m else m.(super := LastOpen(m.toks, |m.toks|));
            Valid(m') && Run(m, Blanks(n, Separator(last, tail))) == Run(m', tail)
  {
    RunBlanks(m, n, Separator(last, tail));
    if !last { RunCons(m, Comma, tail); }
  }

  /** Where the superior stands after a value: untouched by a leaf, back at the
      innermost open container after an object or array. */
  function SuperAfter(m: Machine, v: Value): int
    requires Valid(m)
  {
    if v.Text? || v.Word? then m.super else LastOpen(m.toks, |m.toks|)
  }

  function AfterValue(m: Machine, v: Value, p: nat): (r: Machine)
    requires Valid(m)
    ensures Valid(r)
  {
    TokensClosed(v, p);
    Machine(Bump(m.toks, m.super) + TokensOf(v, p), SuperAfter(m, v))
  }

  lemma TextUnfold(m: Machine, body: string, p: nat, tail: seq<Lexeme>)
    requires Valid(m)
    ensures var x := Leaf(true, p + 1, p + 1 + |body|);
            LexemesOf(Text(body), p, tail) == [x] + tail && Step(m, x) == Some(AfterValue(m, Text(body), p))
  {
  }

  lemma WordUnfold(m: Machine, chars: string, p: nat, tail: seq<Lexeme>)
    requires Valid(m)
    ensures var x := Leaf(false, p, p + |chars|);
            LexemesOf(Word(chars), p, tail) == [x] + tail && Step(m, x) == Some(AfterValue(m, Word(chars), p))
  {
  }

  lemma {:induction false} RunValue(m: Machine, v: Value, p: nat, tail: seq<Lexeme>)
    requires Valid(m)
    ensures Run(m, LexemesOf(v, p, tail)) == Run(AfterValue(m, v, p), tail)
    decreases v
  {
    hide *;
    match v
    case Text(body) =>
      TextUnfold(m, body, p, tail);
      RunCons(m, Leaf(true, p + 1, p + 1 + |body|), tail);
    case Word(chars) =>
      WordUnfold(m, chars, p, tail);
      RunCons(m, Leaf(false, p, p + |chars|), tail);
    case List(pad, items) => RunList(m, pad, items, p, tail);
    case Record(pad, members) => RunRecord(m, pad, members, p, tail);
  }

  lemma {:induction false} RunList(m: Machine, pad: string, items: Items, p: nat, tail: seq<Lexeme>)
    requires Valid(m)
    ensures var v := List(pad, items);
            Run(m, LexemesOf(v, p, tail)) == Run(AfterValue(m, v, p), tail)
    decreases items, 1
  {
    hide *;
    ListUnfold(m, pad, items, p, tail);
    var v := List(pad, items);
    var q := p + |Render(v)| - 1;
    var end := [Close(Squares, q)] + tail;
    var kids := TokensOfItems(items, p + 1 + |pad|);
    var inner := LexemesOfItems(items, p + 1 + |pad|, end);
    RunOpened(m, Squares, p, |pad|, inner);
    var m2 := RunItems(Opened(m, Squares, p), items, p + 1 + |pad|, end);
    ItemTokensClosed(items, p + 1 + |pad|);
    ClosesOpened(m, Squares, p, ItemCount(items), kids, m2, q);
    RunCons(m2, Close(Squares, q), tail);
  }

  lemma ListUnfold(m: Machine, pad: string, items: Items, p: nat, tail: seq<Lexeme>)
    requires Valid(m)
    ensures var v := List(pad, items);
            var q := p + |Render(v)| - 1;
            var kids := TokensOfItems(items, p + 1 + |pad|);
            && q >= 0
            && LexemesOf(v, p, tail) == [Open(Squares, p)]
               + Blanks(|pad|, LexemesOfItems(items, p + 1 + |pad|, [Close(Squares, q)] + tail))
            && AfterValue(m, v, p) ==
               Machine(Bump(m.toks, m.super) + ([Token(Container(Squares), p, q + 1, ItemCount(items))] + kids),
                       LastOpen(m.toks, |m.toks|))
  {
    hide *;
    ListLexemes(pad, items, p, tail);
    ListTokens(m, pad, items, p);
  }

  lemma ListLexemes(pad: string, items: Items, p: nat, tail: seq<Lexeme>)
    ensures var v := List(pad, items);
            var q := p + |Render(v)| - 1;
            && q >= 0
            && LexemesOf(v, p, tail) == [Open(Squares, p)]
               + Blanks(|pad|, LexemesOfItems(items, p + 1 + |pad|, [Close(Squares, q)] + tail))
  {
    hide RenderItems, LexemesOfItems;
  }

  lemma ListTokens(m: Machine, pad: string, items: Items, p: nat)
    requires Valid(m)
    ensures var v := List(pad, items);
            var kids := TokensOfItems(items, p + 1 + |pad|);
            AfterValue(m, v, p) ==
               Machine(Bump(m.toks, m.super)
                       + ([Token(Container(Squares), p, p + |Render(v)|, ItemCount(items))] + kids),
                       LastOpen(m.toks, |m.toks|))
  {
    hide Render, TokensOfItems, Bump, LastOpen, ItemCount;
  }

  lemma {:induction false} RunRecord(m: Machine, pad: string, members: Members, p: nat, tail: seq<Lexeme>)
    requires Valid(m)
    ensures var v := Record(pad, members);
            Run(m, LexemesOf(v, p, tail)) == Run(AfterValue(m, v, p), tail)
    decreases members, 1
  {
    hide *;
    RecordUnfold(m, pad, members, p, tail);
    var v := Record(pad, members);
    var q := p + |Render(v)| - 1;
    var end := [Close(Braces, q)] + tail;
    var kids := TokensOfMembers(members, p + 1 + |pad|);
    var inner := LexemesOfMembers(members, p + 1 + |pad|, end);
    RunOpened(m, Braces, p, |pad|, inner);
    var m2 := RunMembers(Opened(m, Braces, p), members, p + 1 + |pad|, end);
    MemberTokensClosed(members, p + 1 + |pad|);
    ClosesOpened(m, Braces, p, MemberCount(members), kids, m2, q);
    RunCons(m2, Close(Braces, q), tail);
  }

  lemma RecordUnfold(m: Machine, pad: string, members: Members, p: nat, tail: seq<Lexeme>)
    requires Valid(m)
    ensures var v := Record(pad, members);
            var q := p + |Render(v)| - 1;
            var kids := TokensOfMembers(members, p + 1 + |pad|);
            && q >= 0
            && LexemesOf(v, p, tail) == [Open(Braces, p)]
               + Blanks(|pad|, LexemesOfMembers(members, p + 1 + |pad|, [Close(Braces, q)] + tail))
            && AfterValue(m, v, p) ==
               Machine(Bump(m.toks, m.super) + ([Token(Container(Braces), p, q + 1, MemberCount(members))] + kids),
                       LastOpen(m.toks, |m.toks|))
  {
    hide *;
    RecordLexemes(pad, members, p, tail);
    RecordTokens(m, pad, members, p);
  }

  lemma RecordLexemes(pad: string, members: Members, p: nat, tail: seq<Lexeme>)
    ensures var v := Record(pad, members);
            var q := p + |Render(v)| - 1;
            && q >= 0
            && LexemesOf(v, p, tail) == [Open(Braces, p)]
               + Blanks(|pad|, LexemesOfMembers(members, p + 1 + |pad|, [Close(Braces, q)] + tail))
  {
    hide RenderMembers, LexemesOfMembers;
  }

  lemma RecordTokens(m: Machine, pad: string, members: Members, p: nat)
    requires Valid(m)
    ensures var v := Record(pad, members);
            var kids := TokensOfMembers(members, p + 1 + |pad|);
            AfterValue(m, v, p) ==
               Machine(Bump(m.toks, m.super)
                       + ([Token(Container(Braces), p, p + |Render(v)|, MemberCount(members))] + kids),
                       LastOpen(m.toks, |m.toks|))
  {
    hide Render, TokensOfMembers, Bump, LastOpen, MemberCount;
  }

  lemma RunOpened(m: Machine, shape: Shape, p: nat, pad: nat, tail: seq<Lexeme>)
    requires Valid(m)
    ensures Run(m, [Open(shape, p)] + Blanks(pad, tail)) == Run(Opened(m, shape, p), tail)
  {
    RunCons(m, Open(shape, p), Blanks(pad, tail));
    RunBlanks(Opened(m, shape, p), pad, tail);
  }

  function Opened(m: Machine, shape: Shape, p: nat): (r: Machine)
    requires Valid(m)
    ensures Valid(r) && r == Step(m, Open(shape, p)).value
    ensures r.super == |m.toks| == |r.toks| - 1 && LastOpen(r.toks, |r.toks|) == r.super
  {
    Machine(Bump(m.toks, m.super) + [Token(Container(shape), p, -1, 0)], |m.toks|)
  }

  /** If the body of a container added `kids` to the tokens and `n` children to
      the token its bracket opened, the closing bracket completes that token. */
  lemma ClosesOpened(m: Machine, shape: Shape, p: nat, n: nat, kids: seq<Token>, m2: Machine, q: nat)
    requires Valid(m) && Valid(m2) && AllClosed(kids)
    requires m2.toks == Grown(Opened(m, shape, p).toks, |m.toks|, n) + kids
    ensures Step(m2, Close(shape, q)) ==
            Some(Machine(Bump(m.toks, m.super) + ([Token(Container(shape), p, q + 1, n)] + kids),
                         LastOpen(m.toks, |m.toks|)))
  {
    var i := |m.toks|;
    assert forall j :: i < j < |m2.toks| ==> m2.toks[j] == kids[j - i - 1];
    assert m2.toks[i] == Token(Container(shape), p, -1, n);
    assert LastOpen(m2.toks, |m2.toks|) == i;
    var closed := m2.toks[i := m2.toks[i].(end := q + 1)];
    assert closed == Bump(m.toks, m.super) + ([Token(Container(shape), p, q + 1, n)] + kids);
    BumpKeepsOpen(m.toks, m.super);
    LastOpenSkips(m.toks, i, closed, i);
  }

  lemma GrownTwice(toks: seq<Token>, i: nat, us: seq<Token>, n: nat, vs: seq<Token>)
    requires i < |toks|
    ensures Grown(Bump(toks, i) + us, i, n) + vs == Grown(toks, i, 1 + n) + (us + vs)
  {
  }

  /** A child of the open container `m.super` leaves that container innermost. */
  lemma ChildKeepsOpen(m: Machine, us: seq<Token>)
    requires Valid(m) && 0 <= m.super == LastOpen(m.toks, |m.toks|) && AllClosed(us)
    ensures var toks := Bump(m.toks, m.super) + us;
            Valid(Machine(toks, m.super)) && LastOpen(toks, |toks|) == m.super
  {
    BumpKeepsOpen(m.toks, m.super);
    var toks := Bump(m.toks, m.super) + us;
    LastOpenSkips(m.toks, |m.toks|, toks, |toks|);
  }

  /** The machine after a child of the open container `m.super`. */
  lemma AfterChild(m: Machine, v: Value, q: nat)
    requires Valid(m) && 0 <= m.super == LastOpen(m.toks, |m.toks|)
    ensures var r := AfterValue(m, v, q);
            && r.toks == Bump(m.toks, m.super) + TokensOf(v, q)
            && r.super == m.super == LastOpen(r.toks, |r.toks|)
  {
    TokensClosed(v, q);
    ChildKeepsOpen(m, TokensOf(v, q));
  }

  lemma NoItemsUnfold(toks: seq<Token>, i: nat, p: nat, tail: seq<Lexeme>)
    requires i < |toks|
    ensures Grown(toks, i, ItemCount(NoItems)) + TokensOfItems(NoItems, p) == toks
    ensures LexemesOfItems(NoItems, p, tail) == tail
  {
  }

  lemma ItemsUnfold(xs: Items, p: nat, tail: seq<Lexeme>)
    requires xs.Item?
    ensures var q := p + |xs.before|;
            var next := q + |Render(xs.value)| + |xs.after| + 1;
            && ItemCount(xs) == 1 + ItemCount(xs.rest)
            && TokensOfItems(xs, p) == TokensOf(xs.value, q) + TokensOfItems(xs.rest, next)
            && LexemesOfItems(xs, p, tail) == Blanks(|xs.before|, LexemesOf(xs.value, q, AfterItem(xs, q, tail)))
            && AfterItem(xs, q, tail) ==
               Blanks(|xs.after|, Separator(xs.rest.NoItems?, LexemesOfItems(xs.rest, next, tail)))
  {
  }

  /** The body of an array, with the array superior. */
  lemma {:induction false} RunItems(m: Machine, xs: Items, p: nat, tail: seq<Lexeme>) returns (m2: Machine)
    requires Valid(m) && 0 <= m.super == LastOpen(m.toks, |m.toks|)
    ensures Valid(m2) && m2.toks == Grown(m.toks, m.super, ItemCount(xs)) + TokensOfItems(xs, p)
    ensures Run(m, LexemesOfItems(xs, p, tail)) == Run(m2, tail)
    decreases xs, 0
  {
    hide *;
    if xs.NoItems? {
      m2 := m;
      NoItemsUnfold(m.toks, m.super, p, tail);
    } else {
      var Item(before, value, after, rest) := xs;
      var q := p + |before|;
      var next := q + |Render(value)| + |after| + 1;
      RunBlanks(m, |before|, LexemesOf(value, q, AfterItem(xs, q, tail)));
      RunValue(m, value, q, AfterItem(xs, q, tail));
      var one := AfterValue(m, value, q);
      ItemsUnfold(xs, p, tail);
      AfterChild(m, value, q);
      RunSeparator(one, |after|, rest.NoItems?, LexemesOfItems(rest, next, tail));
      m2 := RunItems(one, rest, next, tail);
      GrownTwice(m.toks, m.super, TokensOf(value, q), ItemCount(rest), TokensOfItems(rest, next));
    }
  }

  /** A key and its colon: the key is now superior. */
  lemma RunKey(m: Machine, k: nat, key: string, mid: nat, gap: nat, tail: seq<Lexeme>) returns (m3: Machine)
    requires Valid(m) && 0 <= m.super == LastOpen(m.toks, |m.toks|)
    ensures m3 == Machine(Bump(m.toks, m.super) + [Token(String, k, k + |key|, 0)], |m.toks|)
    ensures Valid(m3) && LastOpen(m3.toks, |m3.toks|) == m.super
    ensures Run(m, [Leaf(true, k, k + |key|)] + Blanks(mid, [Colon] + Blanks(gap, tail))) == Run(m3, tail)
  {
    var leaf := Leaf(true, k, k + |key|);
    var m2 := Step(m, leaf).value;
    m3 := Step(m2, Colon).value;
    RunCons(m, leaf, Blanks(mid, [Colon] + Blanks(gap, tail)));
    RunBlanks(m2, mid, [Colon] + Blanks(gap, tail));
    RunCons(m2, Colon, Blanks(gap, tail));
    RunBlanks(m3, gap, tail);
    ChildKeepsOpen(m, [Token(String, k, k + |key|, 0)]);
  }

  lemma NoMembersUnfold(toks: seq<Token>, i: nat, p: nat, tail: seq<Lexeme>)
    requires i < |toks|
    ensures Grown(toks, i, MemberCount(NoMembers)) + TokensOfMembers(NoMembers, p) == toks
    ensures LexemesOfMembers(NoMembers, p, tail) == tail
  {
  }

  lemma MembersUnfold(xs: Members, p: nat, tail: seq<Lexeme>)
    requires xs.Member?
    ensures var k := p + |xs.before| + 1;
            var q := k + |xs.key| + 1 + |xs.mid| + 1 + |xs.gap|;
            var next := q + |Render(xs.value)| + |xs.after| + 1;
            && MemberCount(xs) == 1 + MemberCount(xs.rest)
            && TokensOfMembers(xs, p) == ([Token(String, k, k + |xs.key|, 1)] + TokensOf(xs.value, q))
                                         + TokensOfMembers(xs.rest, next)
            && LexemesOfMembers(xs, p, tail) ==
               Blanks(|xs.before|, [Leaf(true, k, k + |xs.key|)] + Blanks(|xs.mid|, [Colon] + Blanks(|xs.gap|,
                 LexemesOf(xs.value, q, AfterMember(xs, q, tail)))))
            && AfterMember(xs, q, tail) ==
               Blanks(|xs.after|, Separator(xs.rest.NoMembers?, LexemesOfMembers(xs.rest, next, tail)))
  {
  }

  /** The machine after the value of a key, the key being superior: one more
      member for the object `i`, whose key has one child. */
  lemma AfterKeyedValue(m: Machine, k: nat, key: string, m3: Machine, v: Value, q: nat)
    requires Valid(m) && Valid(m3) && 0 <= m.super == LastOpen(m.toks, |m.toks|)
    requires m3 == Machine(Bump(m.toks, m.super) + [Token(String, k, k + |key|, 0)], |m.toks|)
    requires LastOpen(m3.toks, |m3.toks|) == m.super
    ensures var r := AfterValue(m3, v, q);
            && r.toks == Bump(m.toks, m.super) + ([Token(String, k, k + |key|, 1)] + TokensOf(v, q))
            && LastOpen(r.toks, |r.toks|) == m.super && 0 <= r.super < |r.toks|
            && (r.super == m.super || !IsContainer(r.toks[r.super].kind))
  {
    var kv := [Token(String, k, k + |key|, 1)] + TokensOf(v, q);
    TokensClosed(v, q);
    assert Bump(m3.toks, m3.super) + TokensOf(v, q) == Bump(m.toks, m.super) + kv;
    ChildKeepsOpen(m, kv);
  }

  /** The body of an object, with the object superior. */
  lemma {:induction false} RunMembers(m: Machine, xs: Members, p: nat, tail: seq<Lexeme>) returns (m2: Machine)
    requires Valid(m) && 0 <= m.super == LastOpen(m.toks, |m.toks|)
    ensures Valid(m2) && m2.toks == Grown(m.toks, m.super, MemberCount(xs)) + TokensOfMembers(xs, p)
    ensures Run(m, LexemesOfMembers(xs, p, tail)) == Run(m2, tail)
    decreases xs, 0
  {
    hide *;
    if xs.NoMembers? {
      m2 := m;
      NoMembersUnfold(m.toks, m.super, p, tail);
    } else {
      var Member(before, key, mid, gap, value, after, rest) := xs;
      var k := p + |before| + 1;
      var q := k + |key| + 1 + |mid| + 1 + |gap|;
      var next := q + |Render(value)| + |after| + 1;
      var inner := LexemesOf(value, q, AfterMember(xs, q, tail));
      MembersUnfold(xs, p, tail);
      RunBlanks(m, |before|, [Leaf(true, k, k + |key|)] + Blanks(|mid|, [Colon] + Blanks(|gap|, inner)));
      var m3 := RunKey(m, k, key, |mid|, |gap|, inner);
      RunValue(m3, value, q, AfterMember(xs, q, tail));
      AfterKeyedValue(m, k, key, m3, value, q);
      var m4 := AfterValue(m3, value, q);
      RunSeparator(m4, |after|, rest.NoMembers?, LexemesOfMembers(rest, next, tail));
      GrownTwice(m.toks, m.super, [Token(String, k, k + |key|, 1)] + TokensOf(value, q), MemberCount(rest),
                 TokensOfMembers(rest, next));
      if rest.NoMembers? {
        m2 := m4;
        NoMembersUnfold(m4.toks, m.super, next, tail);
      } else {
        m2 := RunMembers(m4.(super := m.super), rest, next, tail);
      }
    }
  }
}
