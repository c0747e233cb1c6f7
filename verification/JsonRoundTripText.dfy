/** Reading the printed form of a value gives the lexemes of the value, and so
    tokenizing it gives the tokens of the value. */
module JsonRoundTripText {
  import opened Options
  import opened JsonLexing
  import opened JsonMachine
  import opened JsonRoundTrip
  import opened JsonRoundTripMachine

  /** `s` stands in `js` at `p`. */
  predicate At(js: string, p: nat, s: string) {
    p + |s| <= |js| && js[p..p + |s|] == s
  }

  lemma AtConcat(js: string, p: nat, s: string, t: string)
    requires At(js, p, s + t)
    ensures At(js, p, s) && At(js, p + |s|, t) && p + |s| + |t| <= |js|
  {
    assert js[p..p + |s|] == js[p..p + |s + t|][..|s|];
    assert js[p + |s|..p + |s| + |t|] == js[p..p + |s + t|][|s|..];
  }

  lemma AtFits(js: string, p: nat, s: string)
    requires At(js, p, s)
    ensures p + |s| <= |js|
  {
  }

  lemma AtIndex(js: string, p: nat, s: string, i: nat)
    requires At(js, p, s) && i < |s|
    ensures p + |s| <= |js| && js[p + i] == s[i]
  {
    assert js[p..p + |s|][i] == s[i];
  }

  /** Nothing of a word is left at `p`. */
  predicate WordEnds(js: string, p: nat) {
    More(js, p) ==> EndsPrimitive(js[p])
  }

  function LexemesFrom(b: Buffer, p: nat): seq<Lexeme>
    requires p <= |b.js|
  {
    LexAll(b, p).lexemes
  }

  /** Everything about a reading but its lexemes. */
  function EndFrom(b: Buffer, p: nat): Lexing
    requires p <= |b.js|
  {
    LexAll(b, p).(lexemes := [])
  }

  lemma ReadsOne(b: Buffer, p: nat, x: Lexeme, q: nat)
    requires More(b.js, p) && Lex(b, p) == Lexed(x, q, b)
    ensures q <= |b.js| && LexemesFrom(b, p) == [x] + LexemesFrom(b, q) && EndFrom(b, p) == EndFrom(b, q)
  {
  }

  lemma LexesSpace(b: Buffer, p: nat)
    requires p < |b.js| && IsSpace(b.js[p])
    ensures More(b.js, p) && Lex(b, p) == Lexed(Blank, p + 1, b)
  {
  }

  lemma {:induction false} ReadsSpaces(b: Buffer, p: nat, s: string)
    requires At(b.js, p, s) && Spaces(s)
    ensures p + |s| <= |b.js| && LexemesFrom(b, p) == Blanks(|s|, LexemesFrom(b, p + |s|))
    ensures EndFrom(b, p) == EndFrom(b, p + |s|)
    decreases |s|
  {
    hide Lex, LexAll;
    if s != [] {
      AtIndex(b.js, p, s, 0);
      assert s == [s[0]] + s[1..];
      AtConcat(b.js, p, [s[0]], s[1..]);
      ReadsSpaces(b, p + 1, s[1..]);
      LexesSpace(b, p);
      ReadsOne(b, p, Blank, p + 1);
    }
  }

  lemma {:induction false} ScansBody(b: Buffer, p: nat, s: string)
    requires At(b.js, p, s) && PlainBody(s) && p + |s| < |b.js| && b.js[p + |s|] == '\"'
    ensures ScanString(b, p) == Closed(p + |s|, b)
    decreases |s|
  {
    if s != [] {
      AtIndex(b.js, p, s, 0);
      var n := if s[0] == '\\' then 2 else 1;
      if n == 2 { AtIndex(b.js, p, s, 1); }
      assert s == s[..n] + s[n..];
      AtConcat(b.js, p, s[..n], s[n..]);
      ScansBody(b, p + n, s[n..]);
    }
  }

  lemma {:induction false} ScansWord(js: string, p: nat, s: string)
    requires At(js, p, s) && WordEnds(js, p + |s|)
    requires forall i :: 0 <= i < |s| ==> s[i] != '\0' && !EndsPrimitive(s[i])
    ensures ScanPrimitive(js, p) == p + |s|
    decreases |s|
  {
  }

  lemma LexesString(b: Buffer, p: nat, q: nat)
    requires p < |b.js| && b.js[p] == '\"' && ScanString(b, p + 1) == Closed(q, b)
    ensures More(b.js, p) && Lex(b, p) == Lexed(Leaf(true, p + 1, q), q + 1, b)
  {
  }

  lemma QuotedAt(js: string, p: nat, body: string)
    requires At(js, p, Quoted(body))
    ensures At(js, p, "\"" + body + "\"") && |Quoted(body)| == |body| + 2
  {
  }

  /** The quotes of a quoted body, and the body between them. */
  lemma QuotedParts(js: string, p: nat, body: string, q: nat)
    requires At(js, p, Quoted(body)) && q == p + 1 + |body|
    ensures q < |js| && js[p] == '\"' && At(js, p + 1, body) && js[q] == '\"'
  {
    QuotedAt(js, p, body);
    AtConcat(js, p, "\"" + body, "\"");
    AtConcat(js, p, "\"", body);
    AtIndex(js, p, "\"", 0);
    AtIndex(js, p + |"\"" + body|, "\"", 0);
  }

  lemma LexesQuoted(b: Buffer, p: nat, body: string, q: nat)
    requires At(b.js, p, Quoted(body)) && PlainBody(body) && q == p + 1 + |body|
    ensures More(b.js, p) && Lex(b, p) == Lexed(Leaf(true, p + 1, q), q + 1, b)
  {
    hide *;
    QuotedParts(b.js, p, body, q);
    ScansBody(b, p + 1, body);
    LexesString(b, p, q);
  }

  lemma ReadsText(b: Buffer, p: nat, body: string, q: nat)
    requires At(b.js, p, Quoted(body)) && PlainBody(body) && q == p + 1 + |body|
    ensures q < |b.js| && EndFrom(b, p) == EndFrom(b, q + 1)
    ensures LexemesFrom(b, p) == [Leaf(true, p + 1, q)] + LexemesFrom(b, q + 1)
  {
    hide *;
    LexesQuoted(b, p, body, q);
    ReadsOne(b, p, Leaf(true, p + 1, q), q + 1);
  }

  lemma ReadsWord(b: Buffer, p: nat, chars: string)
    requires At(b.js, p, chars) && PlainWord(chars) && WordEnds(b.js, p + |chars|)
    ensures var q := p + |chars|;
            && q <= |b.js| && EndFrom(b, p) == EndFrom(b, q)
            && LexemesFrom(b, p) == [Leaf(false, p, q)] + LexemesFrom(b, q)
  {
    AtIndex(b.js, p, chars, 0);
    ScansWord(b.js, p, chars);
    ReadsOne(b, p, Leaf(false, p, p + |chars|), p + |chars|);
  }

  /** One punctuation mark. */
  lemma ReadsMark(b: Buffer, p: nat, c: char, x: Lexeme)
    requires At(b.js, p, [c])
    requires match c
             case '[' => x == Open(Squares, p)
             case ']' => x == Close(Squares, p)
             case '{' => x == Open(Braces, p)
             case '}' => x == Close(Braces, p)
             case ':' => x == Colon
             case ',' => x == Comma
             case _ => false
    ensures p + 1 <= |b.js| && LexemesFrom(b, p) == [x] + LexemesFrom(b, p + 1) && EndFrom(b, p) == EndFrom(b, p + 1)
  {
    AtIndex(b.js, p, [c], 0);
  }

  /** What may follow an item or member: the text that closes it. */
  lemma {:induction false} ReadsValue(b: Buffer, p: nat, v: Value)
    requires At(b.js, p, Render(v)) && WellFormed(v) && WordEnds(b.js, p + |Render(v)|)
    ensures var q := p + |Render(v)|;
            q <= |b.js| && LexemesFrom(b, p) == LexemesOf(v, p, LexemesFrom(b, q)) && EndFrom(b, p) == EndFrom(b, q)
    decreases v, 2
  {
    hide LexAll, LexemesFrom, EndFrom, At, WordEnds, PlainBody, PlainWord;
    match v
    case Text(body) => QuotedAt(b.js, p, body); ReadsText(b, p, body, p + 1 + |body|);
    case Word(chars) => ReadsWord(b, p, chars);
    case List(pad, items) => ReadsList(b, p, pad, items);
    case Record(pad, members) => ReadsRecord(b, p, pad, members);
  }

  /** The parts of a bracketed text: its contents start at `t` and it closes at `q`. */
  lemma BracketParts(js: string, p: nat, opening: string, pad: string, body: string, closing: string,
                     t: nat, q: nat)
    requires At(js, p, opening + pad + body + closing) && |opening| == 1
    requires t == p + 1 + |pad| && q == t + |body|
    ensures At(js, p, opening) && At(js, p + 1, pad) && At(js, t, body) && At(js, q, closing)
  {
    AtConcat(js, p, opening + pad + body, closing);
    AtConcat(js, p, opening + pad, body);
    AtConcat(js, p, opening, pad);
  }

  lemma CloserEndsWord(js: string, p: nat, closing: string)
    requires At(js, p, closing) && (closing == "]" || closing == "}")
    ensures WordEnds(js, p)
  {
    AtIndex(js, p, closing, 0);
  }

  lemma ListShape(pad: string, items: Items, p: nat, q: nat, tail: seq<Lexeme>)
    requires q == p + 1 + |pad| + |RenderItems(items)|
    ensures var v := List(pad, items);
      && Render(v) == "[" + pad + RenderItems(items) + "]" && p + |Render(v)| == q + 1
      && LexemesOf(v, p, tail) == [Open(Squares, p)]
         + Blanks(|pad|, LexemesOfItems(items, p + 1 + |pad|, [Close(Squares, q)] + tail))
  {
    hide RenderItems, LexemesOfItems;
  }

  lemma RecordShape(pad: string, members: Members, p: nat, q: nat, tail: seq<Lexeme>)
    requires q == p + 1 + |pad| + |RenderMembers(members)|
    ensures var v := Record(pad, members);
      && Render(v) == "{" + pad + RenderMembers(members) + "}" && p + |Render(v)| == q + 1
      && LexemesOf(v, p, tail) == [Open(Braces, p)]
         + Blanks(|pad|, LexemesOfMembers(members, p + 1 + |pad|, [Close(Braces, q)] + tail))
  {
    hide RenderMembers, LexemesOfMembers;
  }

  lemma {:induction false} ReadsList(b: Buffer, p: nat, pad: string, items: Items)
    requires At(b.js, p, Render(List(pad, items))) && Spaces(pad) && WellFormedItems(items)
    ensures var v := List(pad, items);
            var q := p + |Render(v)|;
            q <= |b.js| && LexemesFrom(b, p) == LexemesOf(v, p, LexemesFrom(b, q)) && EndFrom(b, p) == EndFrom(b, q)
    decreases items, 1
  {
    hide *;
    var body := RenderItems(items);
    var t := p + 1 + |pad|;
    var q := t + |body|;
    ListShape(pad, items, p, q, []);
    BracketParts(b.js, p, "[", pad, body, "]", t, q);
    CloserEndsWord(b.js, q, "]");
    ReadsMark(b, p, '[', Open(Squares, p));
    ReadsSpaces(b, p + 1, pad);
    ReadsItems(b, t, items);
    ReadsMark(b, q, ']', Close(Squares, q));
    ListShape(pad, items, p, q, LexemesFrom(b, q + 1));
  }

  lemma {:induction false} ReadsRecord(b: Buffer, p: nat, pad: string, members: Members)
    requires At(b.js, p, Render(Record(pad, members))) && Spaces(pad) && WellFormedMembers(members)
    ensures var v := Record(pad, members);
            var q := p + |Render(v)|;
            q <= |b.js| && LexemesFrom(b, p) == LexemesOf(v, p, LexemesFrom(b, q)) && EndFrom(b, p) == EndFrom(b, q)
    decreases members, 1
  {
    hide *;
    var body := RenderMembers(members);
    var t := p + 1 + |pad|;
    var q := t + |body|;
    RecordShape(pad, members, p, q, []);
    BracketParts(b.js, p, "{", pad, body, "}", t, q);
    CloserEndsWord(b.js, q, "}");
    ReadsMark(b, p, '{', Open(Braces, p));
    ReadsSpaces(b, p + 1, pad);
    ReadsMembers(b, t, members);
    ReadsMark(b, q, '}', Close(Braces, q));
    RecordShape(pad, members, p, q, LexemesFrom(b, q + 1));
  }

  /** Blanks or the closing bracket or comma after them end a word. */
  lemma CommaEndsWord(js: string, p: nat)
    requires At(js, p, ",")
    ensures WordEnds(js, p)
  {
    AtIndex(js, p, ",", 0);
  }

  lemma SpacesEndWord(b: Buffer, p: nat, s: string)
    requires At(b.js, p, s) && Spaces(s) && WordEnds(b.js, p + |s|)
    ensures WordEnds(b.js, p)
  {
    if s != [] { AtIndex(b.js, p, s, 0); }
  }

  lemma NothingRead(b: Buffer, p: nat, q: nat)
    requires p <= |b.js|
    ensures RenderItems(NoItems) == "" && RenderMembers(NoMembers) == ""
    ensures LexemesOfItems(NoItems, q, LexemesFrom(b, p)) == LexemesFrom(b, p)
    ensures LexemesOfMembers(NoMembers, q, LexemesFrom(b, p)) == LexemesFrom(b, p)
  {
  }

  lemma SeparatorIs(last: bool, tail: seq<Lexeme>)
    ensures Separator(last, tail) == if last then tail else [Comma] + tail
  {
  }

  lemma RenderItemsUnfold(xs: Items)
    requires xs.Item?
    ensures RenderItems(xs) == (xs.before + Render(xs.value))
                               + (xs.after + (if xs.rest.NoItems? then "" else ",")) + RenderItems(xs.rest)
    ensures WellFormedItems(xs) ==>
              Spaces(xs.before) && WellFormed(xs.value) && Spaces(xs.after) && WellFormedItems(xs.rest)
  {
  }

  lemma RenderMembersUnfold(xs: Members)
    requires xs.Member?
    ensures RenderMembers(xs) ==
            (xs.before + Quoted(xs.key) + xs.mid + ":" + xs.gap) + Render(xs.value)
            + (xs.after + (if xs.rest.NoMembers? then "" else ",")) + RenderMembers(xs.rest)
    ensures WellFormedMembers(xs) ==>
              Spaces(xs.before) && PlainBody(xs.key) && Spaces(xs.mid) && Spaces(xs.gap)
              && WellFormed(xs.value) && Spaces(xs.after) && WellFormedMembers(xs.rest)
  {
  }

  /** What follows a value inside its container. */
  lemma ReadsAfter(b: Buffer, r: nat, after: string, last: bool)
    requires At(b.js, r, after + if last then "" else ",") && Spaces(after)
    requires last ==> WordEnds(b.js, r + |after|)
    ensures WordEnds(b.js, r)
    ensures var t := r + |after| + if last then 0 else 1;
            && t <= |b.js| && EndFrom(b, r) == EndFrom(b, t)
            && LexemesFrom(b, r) == Blanks(|after|, Separator(last, LexemesFrom(b, t)))
  {
    hide *;
    AtConcat(b.js, r, after, if last then "" else ",");
    var s := r + |after|;
    if !last {
      CommaEndsWord(b.js, s);
      ReadsMark(b, s, ',', Comma);
    }
    SpacesEndWord(b, r, after);
    ReadsSpaces(b, r, after);
    SeparatorIs(last, LexemesFrom(b, s + if last then 0 else 1));
  }

  lemma {:induction false} ReadsItems(b: Buffer, p: nat, xs: Items)
    requires At(b.js, p, RenderItems(xs)) && WellFormedItems(xs) && WordEnds(b.js, p + |RenderItems(xs)|)
    ensures var q := p + |RenderItems(xs)|;
            && q <= |b.js| && EndFrom(b, p) == EndFrom(b, q)
            && LexemesFrom(b, p) == LexemesOfItems(xs, p, LexemesFrom(b, q))
    decreases xs, 0
  {
    hide *;
    AtFits(b.js, p, RenderItems(xs));
    if xs.NoItems? {
      NothingRead(b, p, p);
    } else {
      var Item(before, value, after, rest) := xs;
      var end := LexemesFrom(b, p + |RenderItems(xs)|);
      ItemsUnfold(xs, p, end);
      RenderItemsUnfold(xs);
      var head := before + Render(value);
      var tail := after + if rest.NoItems? then "" else ",";
      AtConcat(b.js, p, head + tail, RenderItems(rest));
      AtConcat(b.js, p, head, tail);
      AtConcat(b.js, p, before, Render(value));
      var q := p + |before|;
      var r := q + |Render(value)|;
      NothingRead(b, r + |tail|, r + |after| + 1);
      ReadsAfter(b, r, after, rest.NoItems?);
      ReadsSpaces(b, p, before);
      ReadsValue(b, q, value);
      if !rest.NoItems? { ReadsItems(b, r + |tail|, rest); }
    }
  }

  lemma ReadsKey(b: Buffer, p: nat, before: string, key: string, mid: string, gap: string)
    requires At(b.js, p, before + Quoted(key) + mid + ":" + gap)
    requires Spaces(before) && PlainBody(key) && Spaces(mid) && Spaces(gap)
    ensures var k := p + |before| + 1;
            var q := k + |key| + 1 + |mid| + 1 + |gap|;
            && |before + Quoted(key) + mid + ":" + gap| == q - p
            && q <= |b.js| && EndFrom(b, p) == EndFrom(b, q)
            && LexemesFrom(b, p) ==
               Blanks(|before|, [Leaf(true, k, k + |key|)]
               + Blanks(|mid|, [Colon] + Blanks(|gap|, LexemesFrom(b, q))))
  {
    hide *;
    AtConcat(b.js, p, before + Quoted(key) + mid + ":", gap);
    AtConcat(b.js, p, before + Quoted(key) + mid, ":");
    AtConcat(b.js, p, before + Quoted(key), mid);
    AtConcat(b.js, p, before, Quoted(key));
    QuotedAt(b.js, p + |before|, key);
    var m := p + |before| + |key| + 2;
    ReadsSpaces(b, p, before);
    ReadsText(b, p + |before|, key, m - 1);
    ReadsSpaces(b, m, mid);
    ReadsMark(b, m + |mid|, ':', Colon);
    ReadsSpaces(b, m + |mid| + 1, gap);
  }

  lemma {:induction false} ReadsMembers(b: Buffer, p: nat, xs: Members)
    requires At(b.js, p, RenderMembers(xs)) && WellFormedMembers(xs) && WordEnds(b.js, p + |RenderMembers(xs)|)
    ensures var q := p + |RenderMembers(xs)|;
            && q <= |b.js| && EndFrom(b, p) == EndFrom(b, q)
            && LexemesFrom(b, p) == LexemesOfMembers(xs, p, LexemesFrom(b, q))
    decreases xs, 0
  {
    hide *;
    AtFits(b.js, p, RenderMembers(xs));
    if xs.NoMembers? {
      NothingRead(b, p, p);
    } else {
      var Member(before, key, mid, gap, value, after, rest) := xs;
      var end := LexemesFrom(b, p + |RenderMembers(xs)|);
      MembersUnfold(xs, p, end);
      RenderMembersUnfold(xs);
      var head := before + Quoted(key) + mid + ":" + gap;
      var tail := after + if rest.NoMembers? then "" else ",";
      AtConcat(b.js, p, head + Render(value) + tail, RenderMembers(rest));
      AtConcat(b.js, p, head + Render(value), tail);
      AtConcat(b.js, p, head, Render(value));
      ReadsKey(b, p, before, key, mid, gap);
      var q := p + |head|;
      var r := q + |Render(value)|;
      NothingRead(b, r + |tail|, r + |after| + 1);
      ReadsAfter(b, r, after, rest.NoMembers?);
      ReadsValue(b, q, value);
      if !rest.NoMembers? { ReadsMembers(b, r + |tail|, rest); }
    }
  }

  lemma ReadsPrinted(b: Buffer, lead: string, v: Value, trail: string)
    requires Spaces(lead) && WellFormed(v) && Spaces(trail)
    requires b.js == lead + Render(v) + trail
    ensures LexAll(b, 0) ==
            Lexing(Blanks(|lead|, LexemesOf(v, |lead|, Blanks(|trail|, []))), None, |b.js|, b)
  {
    hide *;
    AtWhole(b.js, lead, Render(v), trail);
    ReadsParts(b, lead, v, trail, |lead|, |lead| + |Render(v)|, |b.js|);
    ReadsEnd(b);
  }

  lemma ReadsParts(b: Buffer, lead: string, v: Value, trail: string, p: nat, q: nat, n: nat)
    requires Spaces(lead) && WellFormed(v) && Spaces(trail)
    requires p == |lead| && q == p + |Render(v)| && n == q + |trail| == |b.js|
    requires At(b.js, 0, lead) && At(b.js, p, Render(v)) && At(b.js, q, trail) && WordEnds(b.js, n)
    ensures EndFrom(b, 0) == EndFrom(b, n)
    ensures LexemesFrom(b, 0) == Blanks(|lead|, LexemesOf(v, p, Blanks(|trail|, LexemesFrom(b, n))))
  {
    hide *;
    ReadsSpaces(b, 0, lead);
    SpacesEndWord(b, q, trail);
    ReadsValue(b, p, v);
    ReadsSpaces(b, q, trail);
  }

  lemma AtWhole(js: string, s: string, t: string, u: string)
    requires js == s + t + u
    ensures At(js, 0, s) && At(js, |s|, t) && At(js, |s| + |t|, u) && |s| + |t| + |u| == |js|
    ensures WordEnds(js, |s| + |t| + |u|)
  {
  }

  lemma ReadsEnd(b: Buffer)
    ensures LexemesFrom(b, |b.js|) == [] && EndFrom(b, |b.js|) == Lexing([], None, |b.js|, b)
    ensures LexAll(b, 0) == EndFrom(b, 0).(lexemes := LexemesFrom(b, 0))
  {
  }

  /** Tokenizing any printed value, with enough tokens, succeeds and yields its
      token list; the text is left as it was. */
  lemma TokenizePrinted(lead: string, v: Value, trail: string, residue: int, capacity: nat)
    requires Spaces(lead) && WellFormed(v) && Spaces(trail)
    requires |TokensOf(v, |lead|)| <= capacity
    ensures var b := Buffer(lead + Render(v) + trail, residue);
            var toks := TokensOf(v, |lead|);
            ParseText(b, Filling(capacity)) == Outcome(Count(|toks|), b, |b.js|, Machine(toks, -1))
  {
    hide LexemesOf, Blanks, Render, TokensOf, LexAll, Run, ParseText;
    var b := Buffer(lead + Render(v) + trail, residue);
    var m := Machine(TokensOf(v, |lead|), -1);
    ReadsPrinted(b, lead, v, trail);
    RunBlanks(Start, |lead|, LexemesOf(v, |lead|, Blanks(|trail|, [])));
    RunValue(Start, v, |lead|, Blanks(|trail|, []));
    FirstValue(v, |lead|);
    RunBlanks(m, |trail|, []);
    AcceptedRun(b, capacity, m);
  }

  lemma FirstValue(v: Value, p: nat)
    ensures AfterValue(Start, v, p) == Machine(TokensOf(v, p), -1)
    ensures LastOpen(TokensOf(v, p), |TokensOf(v, p)|) == -1
    ensures Run(Machine(TokensOf(v, p), -1), []) == Some(Machine(TokensOf(v, p), -1))
  {
    TokensClosed(v, p);
    assert [] + TokensOf(v, p) == TokensOf(v, p);
  }
}
