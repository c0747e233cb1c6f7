/** Counting first and filling afterwards.  Counting mode rewrites `\u` escapes
    like filling does, so the second call reads the text the first one left.  It
    finds the same tokens as a call on the untouched text exactly when every
    escape it meets is that of a hexadecimal digit. */
module JsonTwoPass {
  import opened Options
  import opened JsonLexing
  import opened JsonMachine
  import opened JsonPushdown
  import opened JsonCounting
  import opened JsonResume

  /** Reading a string from `p` meets no `\u` escape but those of hexadecimal
      digits: what it writes in place of the last digit is a digit again. */
  predicate Rereads(js: string, p: nat)
    requires p <= |js|
    decreases |js| - p
  {
    if !More(js, p) || js[p] == '\"' then true
    else if Plain(js, p) > 0 then Rereads(js, p + Plain(js, p))
    else
      && EscapeAt(js, p) && IsHex(js[p + 5]) && FourthOf(js, p, js[p + 5]) <= 127
      && IsHex(FourthOf(js, p, js[p + 5]) as char) && Rereads(js, p + 6)
  }

  /** The same text from `p` on. */
  ghost predicate SameFrom(d: Buffer, c: Buffer, p: nat) {
    p <= |d.js| == |c.js| && d.js[p..] == c.js[p..] && d.residue == c.residue
  }

  lemma SameAt(d: Buffer, c: Buffer, p: nat, i: nat)
    requires SameFrom(d, c, p) && p <= i < |d.js|
    ensures d.js[i] == c.js[i]
  {
    assert d.js[i] == d.js[p..][i - p] && c.js[i] == c.js[p..][i - p];
  }

  lemma SameLater(d: Buffer, c: Buffer, p: nat, q: nat)
    requires SameFrom(d, c, p) && p <= q <= |d.js|
    ensures SameFrom(d, c, q)
  {
    assert d.js[q..] == d.js[p..][q - p..] && c.js[q..] == c.js[p..][q - p..];
  }

  /* ---- one string ---- */

  /** `d` shows from `p` to the closing quote what a first reading of `b` left. */
  ghost predicate Left(d: string, b: string, p: nat, quote: nat) {
    p <= quote < |d| == |b| && forall i :: p <= i <= quote ==> d[i] == b[i]
  }

  /** Reading again what a first reading left closes at the same quote, or gets
      stuck. */
  lemma {:induction false} SecondScan(b: Buffer, d: Buffer, p: nat)
    requires p <= |b.js| == |d.js| && ScanString(b, p).Closed?
    requires Left(d.js, ScanString(b, p).buf.js, p, ScanString(b, p).quote)
    ensures var s := ScanString(d, p);
            && (s.Closed? <==> Rereads(b.js, p))
            && (s.Closed? ==> s.quote == ScanString(b, p).quote)
    decreases |b.js| - p
  {
    hide ScanString, Rereads, Left;
    var Closed(quote, b') := ScanString(b, p);
    ClosedFront(b, p);
    LeftAt(d.js, b'.js, p, quote, p);
    if b.js[p] == '\"' {
      QuoteScan(b, p);
      QuoteScan(d, p);
    } else if Plain(b.js, p) > 0 {
      var q := p + Plain(b.js, p);
      PlainStep(b, p);
      PlainRereads(b.js, p);
      SamePrefix(b.js, b'.js, q);
      QuoteAfter(b, q);
      LeftLater(d.js, b'.js, p, quote, q);
      LeftAt(d.js, b'.js, p, quote, q - 1);
      PlainStep(d, p);
      SecondScan(b, d, q);
    } else {
      SecondEscape(b, d, p);
    }
  }

  lemma {:induction false} SecondEscape(b: Buffer, d: Buffer, p: nat)
    requires More(b.js, p) && b.js[p] != '\"' && Plain(b.js, p) == 0
    requires |b.js| == |d.js| && ScanString(b, p).Closed?
    requires Left(d.js, ScanString(b, p).buf.js, p, ScanString(b, p).quote)
    ensures var s := ScanString(d, p);
            && (s.Closed? <==> Rereads(b.js, p))
            && (s.Closed? ==> s.quote == ScanString(b, p).quote)
    decreases |b.js| - p, 0
  {
    hide ScanString, Rereads, Left;
    var Closed(quote, b') := ScanString(b, p);
    WholeEscape(b, p);
    EscapeScan(b, p);
    EscapeRereads(b.js, p);
    var v := FourthOf(b.js, p, b.js[p + 5]);
    var b1 := b.(js := b.js[p + 5 := v as char]);
    SamePrefix(b1.js, b'.js, p + 6);
    QuoteAfter(b1, p + 6);
    LeftRange(d.js, b'.js, p, quote);
    assert EscapeAt(d.js, p) && d.js[p + 5] == v as char;
    if IsHex(v as char) {
      EscapeScan(d, p);
      LowEscape(b.js, d.js, p);
      var d1 := d.(js := d.js[p + 5 := FourthOf(d.js, p, d.js[p + 5]) as char]);
      assert forall i :: p + 6 <= i <= quote ==> d1.js[i] == d.js[i];
      RangeLeft(d1.js, b'.js, p + 6, quote);
      SecondScan(b1, d1, p + 6);
      RereadsLater(b.js, b1.js, p + 6);
    } else {
      StuckEscape(d, p);
    }
  }

  lemma ClosedFront(b: Buffer, p: nat)
    requires p <= |b.js| && ScanString(b, p).Closed?
    ensures More(b.js, p)
  {
  }

  lemma QuoteScan(b: Buffer, p: nat)
    requires More(b.js, p) && b.js[p] == '\"'
    ensures ScanString(b, p) == Closed(p, b) && Rereads(b.js, p)
  {
  }

  lemma QuoteAfter(b: Buffer, q: nat)
    requires q <= |b.js| && ScanString(b, q).Closed?
    ensures ScanString(b, q).quote >= q
  {
  }

  lemma LeftAt(d: string, b: string, p: nat, quote: nat, i: nat)
    requires Left(d, b, p, quote) && p <= i <= quote
    ensures d[i] == b[i]
  {
  }

  lemma LeftRange(d: string, b: string, p: nat, quote: nat)
    requires Left(d, b, p, quote)
    ensures p <= quote < |d| == |b| && forall i :: p <= i <= quote ==> d[i] == b[i]
  {
  }

  lemma RangeLeft(d: string, b: string, p: nat, quote: nat)
    requires p <= quote < |d| == |b| && forall i :: p <= i <= quote ==> d[i] == b[i]
    ensures Left(d, b, p, quote)
  {
  }

  lemma LeftLater(d: string, b: string, p: nat, quote: nat, q: nat)
    requires Left(d, b, p, quote) && p <= q <= quote
    ensures Left(d, b, q, quote)
  {
  }

  lemma PlainRereads(js: string, p: nat)
    requires More(js, p) && js[p] != '\"' && Plain(js, p) > 0
    ensures p + Plain(js, p) <= |js| && Rereads(js, p) == Rereads(js, p + Plain(js, p))
  {
  }

  lemma EscapeRereads(js: string, p: nat)
    requires EscapeAt(js, p) && IsHex(js[p + 5]) && FourthOf(js, p, js[p + 5]) <= 127
    ensures Rereads(js, p) == (IsHex(FourthOf(js, p, js[p + 5]) as char) && Rereads(js, p + 6))
  {
  }

  /** The first three digits bound the value, whatever the last one is. */
  lemma LowEscape(js: string, d: string, p: nat)
    requires EscapeAt(js, p) && IsHex(js[p + 5]) && FourthOf(js, p, js[p + 5]) <= 127
    requires EscapeAt(d, p) && IsHex(d[p + 5]) && forall i :: p <= i < p + 5 ==> d[i] == js[i]
    ensures FourthOf(d, p, d[p + 5]) <= 127
  {
  }

  lemma {:induction false} RereadsLater(a: string, b: string, p: nat)
    requires p <= |a| == |b| && forall i :: p <= i < |a| ==> a[i] == b[i]
    ensures Rereads(a, p) == Rereads(b, p)
    decreases |a| - p
  {
    if More(a, p) && a[p] != '\"' {
      if Plain(a, p) > 0 {
        RereadsLater(a, b, p + Plain(a, p));
      } else if p + 6 <= |a| {
        RereadsLater(a, b, p + 6);
      }
    }
  }

  /* ---- one lexeme ---- */

  /** The text that reading everything from `p` on leaves. */
  function Finally(b: Buffer, p: nat): Buffer
    requires p <= |b.js|
  {
    LexAll(b, p).buf
  }

  lemma {:induction false} FinallyKeeps(b: Buffer, p: nat)
    requires p <= |b.js|
    ensures var c := Finally(b, p);
            && |c.js| == |b.js| && c.residue == b.residue && c.js[..p] == b.js[..p]
            && (p < |b.js| ==> c.js[p] == b.js[p])
    decreases |b.js| - p
  {
    hide Lex;
    if More(b.js, p) {
      var l := Lex(b, p);
      PrefixOfPrefix(b.js, l.buf.js, p, p + 1);
      assert l.buf.js[..p + 1][p] == b.js[..p + 1][p];
      if l.Lexed? {
        FinallyKeeps(l.buf, l.next);
        var c := Finally(l.buf, l.next);
        assert c.js[..p + 1] == c.js[..l.next][..p + 1];
        assert l.buf.js[..p + 1] == l.buf.js[..l.next][..p + 1];
        assert c.js[..p + 1][p] == l.buf.js[..p + 1][p];
        PrefixOfPrefix(l.buf.js, c.js, p, p + 1);
      }
    }
  }

  /** The lexeme at `p`, if it is a string, can be read again. */
  predicate LexemeRereads(js: string, p: nat)
    requires p < |js|
  {
    js[p] == '\"' ==> Rereads(js, p + 1)
  }

  /** What is left of the lexeme at `p` once everything has been read. */
  lemma LexemeLeft(b: Buffer, p: nat)
    requires More(b.js, p) && Lex(b, p).Lexed?
    ensures var l := Lex(b, p);
            && Finally(b, p) == Finally(l.buf, l.next)
            && (forall i :: 0 <= i < l.next ==> Finally(b, p).js[i] == l.buf.js[i])
            && (l.next < |b.js| ==> Finally(b, p).js[l.next] == b.js[l.next])
            && |Finally(b, p).js| == |b.js|
  {
    hide Lex;
    var l := Lex(b, p);
    FinallyKeeps(l.buf, l.next);
    SamePrefix(Finally(l.buf, l.next).js, l.buf.js, l.next);
    if l.next < |b.js| { assert l.buf.js[l.next..][0] == b.js[l.next..][0]; }
  }

  /** Reading the lexeme again. */
  lemma SecondLex(b: Buffer, d: Buffer, p: nat)
    requires More(b.js, p) && Lex(b, p).Lexed? && SameFrom(d, Finally(b, p), p)
    ensures var l := Lex(b, p);
            && More(d.js, p)
            && (Lex(d, p).Lexed? <==> LexemeRereads(b.js, p))
            && (Lex(d, p).Lexed? ==>
                  && Lex(d, p).lexeme == l.lexeme && Lex(d, p).next == l.next
                  && SameFrom(Lex(d, p).buf, Finally(l.buf, l.next), l.next))
  {
    hide Lex, Finally, Rereads, ScanString, SameFrom;
    var l, c := Lex(b, p), Finally(b, p);
    LexemeLeft(b, p);
    SameLengths(d, c, p);
    SameAt(d, c, p, p);
    assert l.buf.js[..p + 1][p] == b.js[..p + 1][p];
    if b.js[p] == '\"' {
      LexQuote(b, p);
      LexQuote(d, p);
      forall i | p + 1 <= i < l.next ensures d.js[i] == l.buf.js[i] { SameAt(d, c, p, i); }
      RangeLeft(d.js, l.buf.js, p + 1, l.next - 1);
      SecondScan(b, d, p + 1);
      if Lex(d, p).Lexed? { NextSame(d, c, p); }
    } else {
      LexKeepsText(b, p);
      LexKeepsText(d, p);
      forall i | p <= i <= l.next && i < |b.js| ensures d.js[i] == b.js[i] { SameAt(d, c, p, i); }
      SameLexeme(b, d, p);
      SameLater(d, c, p, l.next);
    }
  }

  lemma SameLengths(d: Buffer, c: Buffer, p: nat)
    requires SameFrom(d, c, p)
    ensures p <= |d.js| == |c.js|
  {
  }

  lemma NextSame(d: Buffer, c: Buffer, p: nat)
    requires More(d.js, p) && Lex(d, p).Lexed? && SameFrom(d, c, p)
    ensures SameFrom(Lex(d, p).buf, c, Lex(d, p).next)
  {
    hide Lex;
    SameLater(d, c, p, Lex(d, p).next);
  }

  lemma SameLexeme(b: Buffer, d: Buffer, p: nat)
    requires More(b.js, p) && b.js[p] != '\"' && |d.js| == |b.js| && Lex(b, p).Lexed?
    requires forall i :: p <= i <= Lex(b, p).next && i < |b.js| ==> d.js[i] == b.js[i]
    ensures Lex(d, p).Lexed? && Lex(d, p).lexeme == Lex(b, p).lexeme && Lex(d, p).next == Lex(b, p).next
  {
    if Lex(b, p).lexeme.Leaf? { SameWord(b.js, d.js, p); }
  }

  lemma {:induction false} SameWord(js: string, d: string, p: nat)
    requires p <= |js| == |d|
    requires forall i :: p <= i <= ScanPrimitive(js, p) && i < |js| ==> d[i] == js[i]
    ensures ScanPrimitive(d, p) == ScanPrimitive(js, p)
    decreases |js| - p
  {
    if More(js, p) && !EndsPrimitive(js[p]) { SameWord(js, d, p + 1); }
  }

  /* ---- the whole text ---- */

  /** Every string that begins at or before `stop` can be read again. */
  predicate RereadsUpTo(b: Buffer, p: nat, stop: nat)
    requires p <= |b.js|
    decreases |b.js| - p
  {
    More(b.js, p) && p <= stop ==>
      LexemeRereads(b.js, p) && (Lex(b, p).Lexed? ==> RereadsUpTo(Lex(b, p).buf, Lex(b, p).next, stop))
  }

  predicate SameFindings(r: Outcome, s: Outcome) {
    r.result == s.result && r.m == s.m && r.pos == s.pos
  }

  lemma {:induction false} SecondParse(b: Buffer, d: Buffer, p: nat, m: Machine, capacity: nat, count: nat)
    requires p <= |b.js| && Valid(m) && LexAll(b, p).error == None && SameFrom(d, Finally(b, p), p)
    ensures var once := Parse(b, p, m, Filling(capacity), count);
            var twice := Parse(d, p, m, Filling(capacity), count);
            SameFindings(twice, once) <==> RereadsUpTo(b, p, once.pos)
    decreases |b.js| - p
  {
    hide Lex, Step, LexemeRereads, SameFrom, Finally, Valid, Parse;
    var mode := Filling(capacity);
    SameLengths(d, Finally(b, p), p);
    ParseStops(b, p, m, mode, count);
    ParseStops(d, p, m, mode, count);
    if !More(b.js, p) {
      EndsSame(b, d, p);
    } else {
      SecondLex(b, d, p);
      var l := Lex(b, p);
      if !LexemeRereads(b.js, p) {
        StuckEarlier(b, p, m, capacity, count);
      } else if Allocates(l.lexeme) && |m.toks| >= capacity {
      } else if Step(m, l.lexeme).None? {
      } else {
        var m', c' := Step(m, l.lexeme).value, count + if Allocates(l.lexeme) then 1 else 0;
        ParseStep(b, p, m, mode, count, l.lexeme, l.next, l.buf);
        ParseStep(d, p, m, mode, count, l.lexeme, l.next, Lex(d, p).buf);
        SecondParse(l.buf, Lex(d, p).buf, l.next, m', capacity, c');
      }
    }
  }

  lemma EndsSame(b: Buffer, d: Buffer, p: nat)
    requires p <= |b.js| && !More(b.js, p) && SameFrom(d, Finally(b, p), p)
    ensures !More(d.js, p)
  {
    if p < |b.js| { SameAt(d, b, p, p); }
  }

  /** The first reading gets past a string that the second one is stuck at. */
  lemma StuckEarlier(b: Buffer, p: nat, m: Machine, capacity: nat, count: nat)
    requires More(b.js, p) && Valid(m) && Lex(b, p).Lexed? && !LexemeRereads(b.js, p)
    ensures var r := Parse(b, p, m, Filling(capacity), count);
            r.result == Failed(NoMem) || r.pos > p
  {
    hide Step, ScanString, Rereads;
    TextSteps(m, Lex(b, p).lexeme);
  }

  /** Counting, then filling the text that is left: the result, the tokens and
      the cursors are those of one filling call on the untouched text if and only
      if every string that call reads can be read again. */
  lemma TwoPasses(b: Buffer, capacity: nat)
    requires ParseText(b, Counting).result.Count?
    ensures var once := ParseText(b, Filling(capacity));
            var twice := ParseText(ParseText(b, Counting).buf, Filling(capacity));
            SameFindings(twice, once) <==> RereadsUpTo(b, 0, once.pos)
  {
    hide Parse, LexAll, RereadsUpTo;
    CountingCountsLexemes(b, 0, Start, 0);
    FinallyKeeps(b, 0);
    SecondParse(b, Finally(b, 0), 0, Start, capacity, 0);
  }

  lemma {:induction false} RereadsFurther(b: Buffer, p: nat, stop: nat, further: nat)
    requires p <= |b.js| && stop <= further && RereadsUpTo(b, p, further)
    ensures RereadsUpTo(b, p, stop)
    decreases |b.js| - p
  {
    hide Lex, LexemeRereads;
    if More(b.js, p) && p <= stop && Lex(b, p).Lexed? {
      RereadsFurther(Lex(b, p).buf, Lex(b, p).next, stop, further);
    }
  }

  /** A second call that succeeds could read every string again. */
  lemma {:induction false} SecondSucceeds(b: Buffer, d: Buffer, p: nat, m: Machine, capacity: nat, count: nat)
    requires p <= |b.js| && Valid(m) && LexAll(b, p).error == None && SameFrom(d, Finally(b, p), p)
    requires Parse(d, p, m, Filling(capacity), count).result.Count?
    ensures RereadsUpTo(b, p, |b.js|)
    decreases |b.js| - p
  {
    hide Lex, Step, LexemeRereads, SameFrom, Finally, Valid, Parse;
    SameLengths(d, Finally(b, p), p);
    if More(b.js, p) {
      SecondLex(b, d, p);
      ParseStops(d, p, m, Filling(capacity), count);
      var l := Lex(b, p);
      ParseStep(d, p, m, Filling(capacity), count, l.lexeme, l.next, Lex(d, p).buf);
      SecondSucceeds(l.buf, Lex(d, p).buf, l.next, Step(m, l.lexeme).value, capacity,
                     count + if Allocates(l.lexeme) then 1 else 0);
    }
  }

  /** The second call succeeds if and only if every string can be read again,
      the brackets balance, and there is room for the tokens counted; then it
      finds what one call on the untouched text finds. */
  lemma CountThenFill(b: Buffer, capacity: nat)
    requires ParseText(b, Counting).result.Count?
    ensures var n := ParseText(b, Counting).result.tokens;
            var once := ParseText(b, Filling(capacity));
            var twice := ParseText(ParseText(b, Counting).buf, Filling(capacity));
            && (twice.result.Count? <==>
                RereadsUpTo(b, 0, |b.js|) && Balanced(Brackets(LexAll(b, 0).lexemes)) && capacity >= n)
            && (twice.result.Count? ==> twice.result == Count(n) && SameFindings(twice, once))
  {
    hide Parse, LexAll, RereadsUpTo, Balanced, Brackets;
    var n := ParseText(b, Counting).result.tokens;
    var once := ParseText(b, Filling(capacity));
    CountingCountsLexemes(b, 0, Start, 0);
    FinallyKeeps(b, 0);
    CapacityNeeded(b, capacity);
    TwoPasses(b, capacity);
    if ParseText(ParseText(b, Counting).buf, Filling(capacity)).result.Count? {
      SecondSucceeds(b, Finally(b, 0), 0, Start, capacity, 0);
    }
    if RereadsUpTo(b, 0, |b.js|) { RereadsFurther(b, 0, once.pos, |b.js|); }
    if capacity >= n { ParseAcceptsBalanced(b, capacity); }
  }

  /** The escape of a blank: counting finds one token; the text it leaves cannot
      be read again, with room or without. */
  lemma CountThenFillCanFail()
    ensures var b := Buffer("\"\\u0020\"", 0);
            && ParseText(b, Counting).result == Count(1) && ParseText(b, Filling(1)).result == Count(1)
            && ParseText(ParseText(b, Counting).buf, Filling(1)).result.Failed?
            && !RereadsUpTo(b, 0, |b.js|)
  {
    hide RereadsUpTo, Lex;
    var b := Buffer("\"\\u0020\"", 0);
    BlankLexes();
    CannotReread(b);
    CountThenFill(b, 1);
  }

  lemma BlankLexes()
    ensures Lex(Buffer("\"\\u0020\"", 0), 0) == Lexed(Leaf(true, 1, 7), 8, Buffer("\"\\u002 \"", 0))
  {
    var b, b' := Buffer("\"\\u0020\"", 0), Buffer("\"\\u002 \"", 0);
    assert EscapeAt(b.js, 1) && FourthOf(b.js, 1, b.js[6]) == 32;
    EscapeStep(b, 1);
    assert b.js[6 := ' '] == b'.js;
    assert ScanString(b', 7) == Closed(7, b');
  }

  lemma CannotReread(b: Buffer)
    requires b.js == "\"\\u0020\""
    ensures !RereadsUpTo(b, 0, |b.js|)
  {
    assert EscapeAt(b.js, 1) && FourthOf(b.js, 1, b.js[6]) == 32;
    EscapeRereads(b.js, 1);
  }

  /* ---- the text as well ---- */

  /** A string reads alike, and is rewritten alike, wherever the same characters stand. */
  lemma {:induction false} SameScan(a: Buffer, d: Buffer, p: nat)
    requires p <= |a.js| == |d.js| && ScanString(a, p).Closed? && Left(d.js, a.js, p, ScanString(a, p).quote)
    ensures var s, t := ScanString(a, p), ScanString(d, p);
            t.Closed? && t.quote == s.quote && Left(t.buf.js, s.buf.js, p, s.quote)
    decreases |a.js| - p
  {
    hide ScanString, Left;
    var quote := ScanString(a, p).quote;
    ClosedFront(a, p);
    LeftRange(d.js, a.js, p, quote);
    if a.js[p] == '\"' {
      QuoteScan(a, p);
      QuoteScan(d, p);
    } else if Plain(a.js, p) > 0 {
      var q := p + Plain(a.js, p);
      PlainStep(a, p);
      QuoteAfter(a, q);
      PlainStep(d, p);
      LeftLater(d.js, a.js, p, quote, q);
      SameScan(a, d, q);
      KeptLeft(a, d, p, q, quote);
    } else {
      SameEscape(a, d, p);
    }
  }

  lemma {:induction false} SameEscape(a: Buffer, d: Buffer, p: nat)
    requires More(a.js, p) && a.js[p] != '\"' && Plain(a.js, p) == 0
    requires |a.js| == |d.js| && ScanString(a, p).Closed? && Left(d.js, a.js, p, ScanString(a, p).quote)
    ensures var s, t := ScanString(a, p), ScanString(d, p);
            t.Closed? && t.quote == s.quote && Left(t.buf.js, s.buf.js, p, s.quote)
    decreases |a.js| - p, 0
  {
    hide ScanString, Left;
    var quote := ScanString(a, p).quote;
    LeftRange(d.js, a.js, p, quote);
    WholeEscape(a, p);
    EscapeScan(a, p);
    var v := FourthOf(a.js, p, a.js[p + 5]) as char;
    var a1, d1 := a.(js := a.js[p + 5 := v]), d.(js := d.js[p + 5 := v]);
    QuoteAfter(a1, p + 6);
    EscapeScan(d, p);
    RangeLeft(d1.js, a1.js, p, quote);
    LeftLater(d1.js, a1.js, p, quote, p + 6);
    SameScan(a1, d1, p + 6);
    KeptLeft(a1, d1, p, p + 6, quote);
  }

  /** What comes before `q` is kept by both scans. */
  lemma KeptLeft(a: Buffer, d: Buffer, p: nat, q: nat, quote: nat)
    requires p <= q <= quote < |a.js| == |d.js|
    requires Left(d.js, a.js, p, quote) && ScanString(a, q).Closed? && ScanString(d, q).Closed?
    requires Left(ScanString(d, q).buf.js, ScanString(a, q).buf.js, q, quote)
    ensures Left(ScanString(d, q).buf.js, ScanString(a, q).buf.js, p, quote)
  {
    hide ScanString;
    SamePrefix(ScanString(a, q).buf.js, a.js, q);
    SamePrefix(ScanString(d, q).buf.js, d.js, q);
  }

  lemma {:induction false} SteadyRereads(b: Buffer, p: nat)
    requires p <= |b.js| && Steady(b.js, p) && ScanString(b, p).Closed?
    ensures Rereads(b.js, p)
    decreases |b.js| - p
  {
    hide ScanString, Steady, Rereads;
    ClosedFront(b, p);
    if b.js[p] == '\"' {
      QuoteScan(b, p);
    } else if Plain(b.js, p) > 0 {
      PlainStep(b, p);
      PlainRereads(b.js, p);
      SteadyRereads(b, p + Plain(b.js, p));
    } else {
      WholeEscape(b, p);
      EscapeStep(b, p);
      EscapeRereads(b.js, p);
      DigitStays(b.js, p);
      SteadyRereads(b, p + 6);
    }
  }

  /** A lexeme that is left as it is, is left so again. */
  lemma UnchangedAgain(b: Buffer, p: nat)
    requires More(b.js, p) && Lex(b, p).Lexed? && (b.js[p] == '\"' ==> Steady(b.js, p + 1))
    ensures var c := Finally(b, p);
            && Lex(b, p).buf == b && c == Finally(b, Lex(b, p).next) && |c.js| == |b.js| && More(c.js, p)
            && Lex(c, p) == Lexed(Lex(b, p).lexeme, Lex(b, p).next, c)
  {
    hide Lex, Finally, Steady, ScanString, Rereads, SameFrom;
    var l, c := Lex(b, p), Finally(b, p);
    LexemeLeft(b, p);
    FinallyKeeps(b, p);
    SameSelf(c, p);
    if b.js[p] == '\"' {
      LexQuote(b, p);
      SteadyRereads(b, p + 1);
      SteadyKeepsText(b, p + 1);
      SecondLex(b, c, p);
      LexQuote(c, p);
      RangeLeft(c.js, b.js, p + 1, l.next - 1);
      SameScan(b, c, p + 1);
      StaysWhole(b, c, p + 1);
    } else {
      LexKeepsText(b, p);
      SecondLex(b, c, p);
      LexKeepsText(c, p);
    }
  }

  lemma SameSelf(c: Buffer, p: nat)
    requires p <= |c.js|
    ensures SameFrom(c, c, p)
  {
  }

  lemma StaysWhole(b: Buffer, c: Buffer, p: nat)
    requires p <= |b.js| == |c.js| && ScanString(b, p).Closed? && ScanString(b, p).buf == b
    requires ScanString(c, p).Closed? && ScanString(c, p).quote == ScanString(b, p).quote
    requires Left(c.js, b.js, p, ScanString(b, p).quote)
    requires Left(ScanString(c, p).buf.js, b.js, p, ScanString(b, p).quote)
    ensures ScanString(c, p).buf == c
  {
    hide ScanString;
    var t := ScanString(c, p);
    SamePrefix(t.buf.js, c.js, p);
    forall i | t.quote <= i < |c.js| ensures t.buf.js[i] == c.js[i] {
      assert t.buf.js[t.quote..][i - t.quote] == c.js[t.quote..][i - t.quote];
    }
    assert t.buf.js == c.js;
  }

  /** A string that was changed is changed again, or the second reading is stuck. */
  lemma ChangedAgain(b: Buffer, p: nat)
    requires More(b.js, p) && Lex(b, p).Lexed? && b.js[p] == '\"' && !Steady(b.js, p + 1)
    ensures var l, c := Lex(b, p), Finally(b, p);
            && |c.js| == |b.js| && More(c.js, p) && c.js[p] == '\"'
            && (Lex(c, p).Unreadable? ==> !LexemeRereads(b.js, p))
            && (Lex(c, p).Lexed? ==>
                  && Lex(c, p).next == l.next
                  && exists i :: 0 <= i < l.next && Lex(c, p).buf.js[i] != l.buf.js[i])
  {
    hide Lex, Finally, Steady, ScanString, Rereads, SameFrom;
    var l, c := Lex(b, p), Finally(b, p);
    LexemeLeft(b, p);
    FinallyKeeps(b, p);
    SameSelf(c, p);
    SecondLex(b, c, p);
    if Lex(c, p).Lexed? {
      LexQuote(b, p);
      LexQuote(c, p);
      SecondReading(b, p + 1);
      RangeLeft(l.buf.js, c.js, p + 1, l.next - 1);
      SameScan(c, l.buf, p + 1);
      LeftRange(ScanString(l.buf, p + 1).buf.js, ScanString(c, p + 1).buf.js, p + 1, l.next - 1);
      var i :| p + 1 <= i < l.next - 1 && ScanString(l.buf, p + 1).buf.js[i] != l.buf.js[i];
      assert Lex(c, p).buf.js[i] != l.buf.js[i];
    }
  }

  /** After a string that was changed, the two calls do not end alike. */
  lemma ChangedDiffers(b: Buffer, p: nat, m: Machine, capacity: nat, count: nat)
    requires More(b.js, p) && Valid(m) && Lex(b, p).Lexed? && b.js[p] == '\"' && !Steady(b.js, p + 1)
    requires |Finally(b, p).js| == |b.js|
    ensures Parse(Finally(b, p), p, m, Filling(capacity), count) != Parse(b, p, m, Filling(capacity), count)
  {
    hide Lex, Finally, Steady, LexemeRereads, Parse, Step;
    var l, c := Lex(b, p), Finally(b, p);
    ChangedAgain(b, p);
    ParseStops(b, p, m, Filling(capacity), count);
    ParseStops(c, p, m, Filling(capacity), count);
    if Lex(c, p).Unreadable? {
      StuckEarlier(b, p, m, capacity, count);
    } else {
      var i :| 0 <= i < l.next && Lex(c, p).buf.js[i] != l.buf.js[i];
      if |m.toks| < capacity {
        TurnKeeps(b, p, m, capacity, count, i);
        TurnKeeps(c, p, m, capacity, count, i);
      } else {
        QuoteAllocates(b, p);
        QuoteAllocates(c, p);
      }
    }
  }

  lemma QuoteAllocates(b: Buffer, p: nat)
    requires More(b.js, p) && b.js[p] == '\"' && Lex(b, p).Lexed?
    ensures Allocates(Lex(b, p).lexeme)
  {
    hide ScanString;
  }

  lemma TurnKeeps(b: Buffer, p: nat, m: Machine, capacity: nat, count: nat, i: nat)
    requires More(b.js, p) && Valid(m) && |m.toks| < capacity && b.js[p] == '\"' && Lex(b, p).Lexed?
    requires i < Lex(b, p).next
    ensures Parse(b, p, m, Filling(capacity), count).buf.js[i] == Lex(b, p).buf.js[i]
  {
    hide Step, ScanString;
    var l := Lex(b, p);
    TextSteps(m, l.lexeme);
    ParseKeepsConsumed(l.buf, l.next, Step(m, l.lexeme).value, Filling(capacity), count + 1);
    SamePrefix(Parse(b, p, m, Filling(capacity), count).buf.js, l.buf.js, l.next);
  }

  lemma {:induction false} SecondText(b: Buffer, p: nat, m: Machine, capacity: nat, count: nat)
    requires p <= |b.js| && Valid(m) && LexAll(b, p).error == None && Finally(b, p) != b
    ensures p <= |Finally(b, p).js|
    ensures Parse(Finally(b, p), p, m, Filling(capacity), count) != Parse(b, p, m, Filling(capacity), count)
    decreases |b.js| - p
  {
    hide Lex, Steady, Parse, Step;
    var c, l := Finally(b, p), Lex(b, p);
    if b.js[p] == '\"' && !Steady(b.js, p + 1) {
      ChangedDiffers(b, p, m, capacity, count);
    } else {
      UnchangedAgain(b, p);
      ParseStops(b, p, m, Filling(capacity), count);
      ParseStops(c, p, m, Filling(capacity), count);
      if (Allocates(l.lexeme) ==> |m.toks| < capacity) && Step(m, l.lexeme).Some? {
        var m', c' := Step(m, l.lexeme).value, count + if Allocates(l.lexeme) then 1 else 0;
        ParseStep(b, p, m, Filling(capacity), count, l.lexeme, l.next, b);
        ParseStep(c, p, m, Filling(capacity), count, l.lexeme, l.next, c);
        SecondText(b, l.next, m', capacity, c');
      }
    }
  }

  /** With the text included, the two passes end as one filling call ends if and
      only if counting left the text as it was. */
  lemma TwoPassesSameText(b: Buffer, capacity: nat)
    requires ParseText(b, Counting).result.Count?
    ensures var c := ParseText(b, Counting).buf;
            ParseText(c, Filling(capacity)) == ParseText(b, Filling(capacity)) <==> c == b
  {
    hide Parse, LexAll;
    CountingCountsLexemes(b, 0, Start, 0);
    if ParseText(b, Counting).buf != b { SecondText(b, 0, Start, capacity, 0); }
  }
}
