/** Calling the tokenizer again with a larger token array after
    `JSMN_ERROR_NOMEM`.  The parser goes back to the start of the lexeme that
    did not fit, but a `\u` escape in it has already been rewritten in the text,
    so the second reading can see different characters.  Resuming equals a fresh
    call exactly when that did not happen. */
module JsonResume {
  import opened JsonLexing
  import opened JsonMachine

  predicate IsDigit(c: char) {
    '0' <= c <= '9'
  }

  /** Reading a string from `p` meets no `\u` escape but those of the digits `0`
      to `9`, the only ones whose rewriting leaves the text as it is. */
  predicate Steady(js: string, p: nat)
    requires p <= |js|
    decreases |js| - p
  {
    if !More(js, p) || js[p] == '\"' then true
    else if js[p] == '\\' && p + 1 < |js| then
      if IsSimpleEscape(js[p + 1]) then Steady(js, p + 2)
      else if js[p + 1] == 'u' then
        HexEnd(js, p + 2, 4) == p + 6 && js[p + 2..p + 5] == "003" && IsDigit(js[p + 5]) && Steady(js, p + 6)
      else true
    else Steady(js, p + 1)
  }

  lemma FourDigits(s: string)
    requires |s| == 4 && forall i :: 0 <= i < 4 ==> IsHex(s[i])
    ensures HexValue(s) == 4096 * HexDigit(s[0]) + 256 * HexDigit(s[1]) + 16 * HexDigit(s[2]) + HexDigit(s[3])
  {
    assert s[..3][..2] == s[..2] && s[..2][..1] == s[..1] && s[..1][..0] == [];
    assert HexValue(s[..1]) == 16 * HexValue(s[..1][..0]) + HexDigit(s[0]);
    assert HexValue(s[..2]) == 16 * HexValue(s[..1]) + HexDigit(s[1]);
    assert HexValue(s[..3]) == 16 * HexValue(s[..2]) + HexDigit(s[2]);
  }

  lemma {:induction false} SteadyKeepsText(b: Buffer, p: nat)
    requires p <= |b.js| && Steady(b.js, p)
    ensures ScanString(b, p).buf == b
    decreases |b.js| - p
  {
    hide ScanString, Steady;
    if More(b.js, p) && b.js[p] != '\"' && Plain(b.js, p) > 0 {
      PlainStep(b, p);
      SteadyKeepsText(b, p + Plain(b.js, p));
    } else if More(b.js, p) && b.js[p] != '\"' && b.js[p + 1] == 'u' {
      SteadyEscape(b.js, p);
      EscapeStep(b, p);
      DigitStays(b.js, p);
      SteadyKeepsText(b, p + 6);
    } else {
      NothingScanned(b, p);
    }
  }

  lemma NothingScanned(b: Buffer, p: nat)
    requires p <= |b.js|
    requires More(b.js, p) && b.js[p] != '\"' ==> Plain(b.js, p) == 0 && b.js[p + 1] != 'u'
    ensures ScanString(b, p).buf == b
  {
  }

  lemma SteadyEscape(js: string, p: nat)
    requires More(js, p) && js[p] == '\\' && p + 1 < |js| && js[p + 1] == 'u' && Steady(js, p)
    ensures EscapeAt(js, p) && DigitEscape(js, p, js[p + 5]) && IsHex(js[p + 5]) && Steady(js, p + 6)
  {
    assert js[p + 2] == js[p + 2..p + 5][0] && js[p + 3] == js[p + 2..p + 5][1] && js[p + 4] == js[p + 2..p + 5][2];
  }

  /** The escape of a decimal digit ends in that digit. */
  lemma DigitStays(js: string, p: nat)
    requires EscapeAt(js, p) && IsHex(js[p + 5]) && DigitEscape(js, p, js[p + 5])
    ensures FourthOf(js, p, js[p + 5]) <= 127 && js[p + 5 := FourthOf(js, p, js[p + 5]) as char] == js
  {
  }

  /** A run of four digits, or one broken off by its last character. */
  lemma HexRun(js: string, p: nat)
    requires p + 4 <= |js| && IsHex(js[p]) && IsHex(js[p + 1]) && IsHex(js[p + 2])
    ensures HexEnd(js, p, 4) == if IsHex(js[p + 3]) then p + 4 else p + 3
  {
  }

  /** The second reading of text that a first reading changed gets stuck, or
      changes it again, before it is past it. */
  ghost predicate Disturbed(b: Buffer, p: nat, quote: nat)
    requires p <= |b.js|
  {
    var s := ScanString(b, p);
    s.Broken? || exists i :: p <= i < quote && i < s.quote && s.buf.js[i] != b.js[i]
  }

  predicate EscapeAt(js: string, p: nat) {
    p + 6 <= |js| && js[p] == '\\' && js[p + 1] == 'u' && IsHex(js[p + 2]) && IsHex(js[p + 3]) && IsHex(js[p + 4])
  }

  function FourthOf(js: string, p: nat, last: char): nat
    requires EscapeAt(js, p) && IsHex(last)
  {
    4096 * HexDigit(js[p + 2]) + 256 * HexDigit(js[p + 3]) + 16 * HexDigit(js[p + 4]) + HexDigit(last)
  }

  predicate DigitEscape(js: string, p: nat, last: char)
    requires EscapeAt(js, p)
  {
    js[p + 2] == '0' && js[p + 3] == '0' && js[p + 4] == '3' && IsDigit(last)
  }

  /** One whole escape. */
  lemma EscapeStep(b: Buffer, p: nat)
    requires EscapeAt(b.js, p) && IsHex(b.js[p + 5])
    ensures var v := FourthOf(b.js, p, b.js[p + 5]);
            ScanString(b, p) == if v > 127 then Broken(Inval, b)
                                else ScanString(b.(js := b.js[p + 5 := v as char]), p + 6)
    ensures Steady(b.js, p) == (DigitEscape(b.js, p, b.js[p + 5]) && Steady(b.js, p + 6))
  {
    hide *;
    EscapeScan(b, p);
    EscapeSteady(b.js, p);
  }

  lemma EscapeScan(b: Buffer, p: nat)
    requires EscapeAt(b.js, p) && IsHex(b.js[p + 5])
    ensures var v := FourthOf(b.js, p, b.js[p + 5]);
            ScanString(b, p) == if v > 127 then Broken(Inval, b)
                                else ScanString(b.(js := b.js[p + 5 := v as char]), p + 6)
  {
    hide HexEnd, HexValue;
    HexRun(b.js, p + 2);
    FourDigits(b.js[p + 2..p + 6]);
  }

  lemma EscapeSteady(js: string, p: nat)
    requires EscapeAt(js, p) && IsHex(js[p + 5])
    ensures Steady(js, p) == (DigitEscape(js, p, js[p + 5]) && Steady(js, p + 6))
  {
  }

  /** The escape at `p` read as `v` when its last digit was `last`, and was not
      that of a decimal digit; now `v` stands in the place of `last`. */
  lemma RewrittenEscape(b: Buffer, p: nat, last: char, quote: nat)
    requires EscapeAt(b.js, p) && p + 6 <= quote && IsHex(last) && FourthOf(b.js, p, last) <= 127
    requires b.js[p + 5] == FourthOf(b.js, p, last) as char && !DigitEscape(b.js, p, last)
    ensures !Steady(b.js, p) && Disturbed(b, p, quote)
  {
    hide ScanString, Steady;
    var c := b.js[p + 5];
    if IsHex(c) {
      EscapeStep(b, p);
      LastDigitMoves(b.js, p, last, c);
      var v' := FourthOf(b.js, p, c);
      var b' := b.(js := b.js[p + 5 := v' as char]);
      var r := ScanString(b', p + 6);
      assert r.buf.js[..p + 6][p + 5] == b'.js[..p + 6][p + 5];
    } else {
      StuckEscape(b, p);
    }
  }

  /** If the value is itself a hexadecimal letter, it is 41 to 46 or 61 to 66 in
      hexadecimal, so as a last digit it makes a different value. */
  lemma LastDigitMoves(js: string, p: nat, last: char, c: char)
    requires EscapeAt(js, p) && IsHex(last) && FourthOf(js, p, last) <= 127 && !DigitEscape(js, p, last)
    requires c == FourthOf(js, p, last) as char && IsHex(c)
    ensures FourthOf(js, p, c) <= 127 && FourthOf(js, p, c) as char != c && !DigitEscape(js, p, c)
  {
  }

  lemma StuckEscape(b: Buffer, p: nat)
    requires EscapeAt(b.js, p) && !IsHex(b.js[p + 5])
    ensures ScanString(b, p).Broken? && !Steady(b.js, p)
  {
  }

  lemma SamePrefix(s: string, t: string, n: nat)
    requires n <= |s| == |t| && s[..n] == t[..n]
    ensures forall i :: 0 <= i < n ==> s[i] == t[i]
  {
    forall i | 0 <= i < n ensures s[i] == t[i] { assert s[..n][i] == t[..n][i]; }
  }

  /** How far the scan moves over what is neither the closing quote nor a `\u`. */
  function Plain(js: string, p: nat): (n: nat)
    requires p < |js|
  {
    if js[p] == '\\' && p + 1 < |js| then if IsSimpleEscape(js[p + 1]) then 2 else 0 else 1
  }

  lemma PlainStep(b: Buffer, p: nat)
    requires More(b.js, p) && b.js[p] != '\"' && Plain(b.js, p) > 0
    ensures var q := p + Plain(b.js, p);
            q <= |b.js| && ScanString(b, p) == ScanString(b, q) && Steady(b.js, p) == Steady(b.js, q)
  {
  }

  lemma DisturbedStep(b: Buffer, p: nat, quote: nat)
    requires More(b.js, p) && b.js[p] != '\"' && Plain(b.js, p) > 0
    requires p + Plain(b.js, p) <= |b.js| && Disturbed(b, p + Plain(b.js, p), quote)
    ensures Disturbed(b, p, quote)
  {
    hide ScanString;
    PlainStep(b, p);
  }

  /** A string that its first reading changed is read differently afterwards. */
  lemma {:induction false} SecondReading(b: Buffer, p: nat)
    requires p <= |b.js| && ScanString(b, p).Closed? && !Steady(b.js, p)
    ensures var Closed(quote, b') := ScanString(b, p);
            !Steady(b'.js, p) && Disturbed(b', p, quote)
    decreases |b.js| - p
  {
    hide ScanString, Steady, Disturbed;
    NotAtEnd(b, p);
    var Closed(quote, b') := ScanString(b, p);
    if Plain(b.js, p) == 0 {
      SecondReadingOfEscape(b, p);
    } else {
      var q := p + Plain(b.js, p);
      PlainStep(b, p);
      SecondReading(b, q);
      SamePrefix(b.js, b'.js, q);
      PlainStep(b', p);
      DisturbedStep(b', p, quote);
    }
  }

  lemma NotAtEnd(b: Buffer, p: nat)
    requires p <= |b.js| && !Steady(b.js, p)
    ensures More(b.js, p) && b.js[p] != '\"'
  {
  }

  lemma {:induction false} SecondReadingOfEscape(b: Buffer, p: nat)
    requires More(b.js, p) && Plain(b.js, p) == 0 && ScanString(b, p).Closed? && !Steady(b.js, p)
    ensures var Closed(quote, b') := ScanString(b, p);
            !Steady(b'.js, p) && Disturbed(b', p, quote)
    decreases |b.js| - p, 0
  {
    hide ScanString, Steady, Disturbed;
    var Closed(quote, b') := ScanString(b, p);
    WholeEscape(b, p);
    EscapeStep(b, p);
    var last := b.js[p + 5];
    var v := FourthOf(b.js, p, last);
    var b1 := b.(js := b.js[p + 5 := v as char]);
    SamePrefix(b1.js, b'.js, p + 6);
    if DigitEscape(b.js, p, last) {
      assert b1.js == b.js;
      SecondReading(b, p + 6);
      DisturbedEscape(b', p, quote);
    } else {
      RewrittenEscape(b', p, last, quote);
    }
  }

  lemma DisturbedEscape(b: Buffer, p: nat, quote: nat)
    requires EscapeAt(b.js, p) && IsHex(b.js[p + 5]) && DigitEscape(b.js, p, b.js[p + 5])
    requires !Steady(b.js, p + 6) && Disturbed(b, p + 6, quote)
    ensures !Steady(b.js, p) && Disturbed(b, p, quote)
  {
    hide ScanString, Steady;
    EscapeStep(b, p);
    assert b.js[p + 5 := FourthOf(b.js, p, b.js[p + 5]) as char] == b.js;
  }

  /** A string that is closed has no escape cut short. */
  lemma WholeEscape(b: Buffer, p: nat)
    requires More(b.js, p) && Plain(b.js, p) == 0 && ScanString(b, p).Closed?
    ensures EscapeAt(b.js, p) && IsHex(b.js[p + 5]) && FourthOf(b.js, p, b.js[p + 5]) <= 127
  {
    assert HexEnd(b.js, p + 2, 4) == p + 6;
    EscapeStep(b, p);
  }

  lemma {:induction false} ParseKeepsConsumed(b: Buffer, p: nat, m: Machine, mode: Mode, count: nat)
    requires p <= |b.js| && Valid(m)
    ensures Parse(b, p, m, mode, count).buf.js[..p] == b.js[..p]
    decreases |b.js| - p
  {
    if More(b.js, p) {
      var l := Lex(b, p);
      PrefixOfPrefix(b.js, l.buf.js, p, p + 1);
      if l.Lexed? && StepIn(mode, m, l.lexeme).Some? {
        var m', c' := StepIn(mode, m, l.lexeme).value, count + if Allocates(l.lexeme) then 1 else 0;
        ParseKeepsConsumed(l.buf, l.next, m', mode, c');
        PrefixOfPrefix(l.buf.js, Parse(l.buf, l.next, m', mode, c').buf.js, p, l.next);
      }
    }
  }

  /** What the caller of a stopped parse can look at: the text as it is now, and
      the lexeme the parser went back to. */
  predicate Resumable(js: string, p: nat)
    requires p < |js|
  {
    js[p] == '\"' ==> Steady(js, p + 1)
  }

  function Resumed(r: Outcome, capacity: nat): Outcome
    requires r.pos <= |r.buf.js| && Valid(r.m)
  {
    Parse(r.buf, r.pos, r.m, Filling(capacity), |r.m.toks|)
  }

  /** After running out of tokens, a second call with a larger array ends with
      the same result, tokens, cursors and text as one fresh call would have, if
      and only if the lexeme it stopped at is resumable. */
  lemma {:induction false} ResumeIsFresh(b: Buffer, p: nat, m: Machine, capacity: nat, larger: nat)
    requires p <= |b.js| && Valid(m)
    requires Parse(b, p, m, Filling(capacity), |m.toks|).result == Failed(NoMem)
    requires var r := Parse(b, p, m, Filling(capacity), |m.toks|);
             larger > |r.m.toks|
    ensures var r := Parse(b, p, m, Filling(capacity), |m.toks|);
            && r.pos < |r.buf.js|
            && (Resumed(r, larger) == Parse(b, p, m, Filling(larger), |m.toks|) <==> Resumable(r.buf.js, r.pos))
    decreases |b.js| - p
  {
    hide Lex, Step, Resumable, Parse;
    var r := Parse(b, p, m, Filling(capacity), |m.toks|);
    StopsBeyond(b, p, m, capacity);
    var l := Lex(b, p);
    ParseStops(b, p, m, Filling(capacity), |m.toks|);
    if Allocates(l.lexeme) && |m.toks| >= capacity {
      StoppedHere(b, p, m, larger);
    } else {
      ParseStep(b, p, m, Filling(capacity), |m.toks|, l.lexeme, l.next, l.buf);
      ParseStep(b, p, m, Filling(larger), |m.toks|, l.lexeme, l.next, l.buf);
      ResumeIsFresh(l.buf, l.next, Step(m, l.lexeme).value, capacity, larger);
    }
  }

  /** A parse that runs out of tokens has had at least as many as it began with. */
  lemma {:induction false} StopsBeyond(b: Buffer, p: nat, m: Machine, capacity: nat)
    requires p <= |b.js| && Valid(m)
    requires Parse(b, p, m, Filling(capacity), |m.toks|).result == Failed(NoMem)
    ensures |Parse(b, p, m, Filling(capacity), |m.toks|).m.toks| >= |m.toks|
    ensures More(b.js, p) && Lex(b, p).Lexed?
    decreases |b.js| - p
  {
    hide Lex, Step;
    var l := Lex(b, p);
    if !(Allocates(l.lexeme) && |m.toks| >= capacity) {
      StopsBeyond(l.buf, l.next, Step(m, l.lexeme).value, capacity);
    }
  }

  lemma StoppedHere(b: Buffer, p: nat, m: Machine, larger: nat)
    requires More(b.js, p) && Valid(m) && |m.toks| < larger
    requires Lex(b, p).Lexed? && Allocates(Lex(b, p).lexeme)
    ensures var b' := Lex(b, p).buf;
            Parse(b', p, m, Filling(larger), |m.toks|) == Parse(b, p, m, Filling(larger), |m.toks|)
            <==> Resumable(b'.js, p)
  {
    hide Lex, Parse, ScanString, Steady;
    var l := Lex(b, p);
    assert l.buf.js[..p + 1][p] == b.js[..p + 1][p];
    if b.js[p] == '\"' {
      LexQuote(b, p);
      if Steady(b.js, p + 1) {
        SteadyKeepsText(b, p + 1);
      } else {
        SecondReading(b, p + 1);
        StoppedAtChanged(b, p, m, larger);
      }
    } else {
      LexKeepsText(b, p);
    }
  }

  lemma LexKeepsText(b: Buffer, p: nat)
    requires More(b.js, p) && b.js[p] != '\"'
    ensures Lex(b, p).buf == b
  {
    hide ScanString;
  }

  lemma LexQuote(b: Buffer, p: nat)
    requires More(b.js, p) && b.js[p] == '\"'
    ensures var s := ScanString(b, p + 1);
            Lex(b, p) == if s.Broken? then Unreadable(s.error, s.buf)
                         else Lexed(Leaf(true, p + 1, s.quote), s.quote + 1, s.buf)
  {
    hide ScanString;
  }

  /** A turn that takes a token and finds one. */
  lemma ParseTurn(b: Buffer, p: nat, m: Machine, larger: nat)
    requires More(b.js, p) && Valid(m) && |m.toks| < larger && b.js[p] == '\"'
    ensures var l := Lex(b, p);
            var r := Parse(b, p, m, Filling(larger), |m.toks|);
            if l.Unreadable? then r.pos == p
            else l.next <= r.pos <= |l.buf.js| == |r.buf.js| && r.buf.js[..l.next] == l.buf.js[..l.next]
  {
    hide Step, ScanString;
    var l := Lex(b, p);
    if l.Lexed? {
      TextSteps(m, l.lexeme);
      ParseKeepsConsumed(l.buf, l.next, Step(m, l.lexeme).value, Filling(larger), |m.toks| + 1);
    }
  }

  lemma TextSteps(m: Machine, x: Lexeme)
    requires Valid(m) && x.Leaf?
    ensures Step(m, x).Some? && Valid(Step(m, x).value)
  {
  }

  lemma StoppedAtChanged(b: Buffer, p: nat, m: Machine, larger: nat)
    requires More(b.js, p) && Valid(m) && |m.toks| < larger && b.js[p] == '\"' && Lex(b, p).Lexed?
    requires var l := Lex(b, p);
             l.buf.js[p] == '\"' && Disturbed(l.buf, p + 1, l.next - 1)
    ensures Parse(Lex(b, p).buf, p, m, Filling(larger), |m.toks|) != Parse(b, p, m, Filling(larger), |m.toks|)
  {
    hide Lex, Parse, ScanString;
    var l := Lex(b, p);
    ParseTurn(b, p, m, larger);
    ParseTurn(l.buf, p, m, larger);
    LexQuote(l.buf, p);
    var l' := Lex(l.buf, p);
    if l'.Lexed? {
      var i :| p + 1 <= i < l.next - 1 && i < l'.next - 1 && l'.buf.js[i] != l.buf.js[i];
      var once, again := Parse(b, p, m, Filling(larger), |m.toks|), Parse(l.buf, p, m, Filling(larger), |m.toks|);
      assert again.buf.js[..l'.next][i] == l'.buf.js[..l'.next][i];
      assert once.buf.js[..l.next][i] == l.buf.js[..l.next][i];
    }
  }

  predicate NoUnicodeEscape(js: string) {
    forall i :: 0 <= i < |js| - 1 && js[i] == '\\' ==> js[i + 1] != 'u'
  }

  lemma {:induction false} NoUnicodeIsSteady(js: string, p: nat)
    requires p <= |js| && NoUnicodeEscape(js)
    ensures Steady(js, p)
    decreases |js| - p
  {
    if More(js, p) && js[p] != '\"' && Plain(js, p) > 0 { NoUnicodeIsSteady(js, p + Plain(js, p)); }
  }

  lemma NoUnicodeLexKeepsText(b: Buffer, p: nat)
    requires More(b.js, p) && NoUnicodeEscape(b.js)
    ensures Lex(b, p).buf == b
  {
    hide NoUnicodeEscape, Steady, ScanString;
    NoUnicodeIsSteady(b.js, p + 1);
    SteadyKeepsText(b, p + 1);
  }

  lemma {:induction false} NoUnicodeKeepsText(b: Buffer, p: nat, m: Machine, mode: Mode, count: nat)
    requires p <= |b.js| && Valid(m) && NoUnicodeEscape(b.js)
    ensures Parse(b, p, m, mode, count).buf == b
    decreases |b.js| - p
  {
    hide NoUnicodeEscape, Lex;
    if More(b.js, p) {
      var l := Lex(b, p);
      NoUnicodeLexKeepsText(b, p);
      if l.Lexed? && StepIn(mode, m, l.lexeme).Some? {
        NoUnicodeKeepsText(l.buf, l.next, StepIn(mode, m, l.lexeme).value, mode,
                           count + if Allocates(l.lexeme) then 1 else 0);
      }
    }
  }

  /** Texts without `\u` escapes can always be resumed. */
  lemma ResumeWithoutUnicode(b: Buffer, p: nat, m: Machine, capacity: nat, larger: nat)
    requires p <= |b.js| && Valid(m) && NoUnicodeEscape(b.js)
    requires Parse(b, p, m, Filling(capacity), |m.toks|).result == Failed(NoMem)
    requires larger > |Parse(b, p, m, Filling(capacity), |m.toks|).m.toks|
    ensures Resumed(Parse(b, p, m, Filling(capacity), |m.toks|), larger)
            == Parse(b, p, m, Filling(larger), |m.toks|)
  {
    hide Parse, NoUnicodeEscape, Steady, Valid;
    var r := Parse(b, p, m, Filling(capacity), |m.toks|);
    ResumeIsFresh(b, p, m, capacity, larger);
    NoUnicodeKeepsText(b, p, m, Filling(capacity), |m.toks|);
    NoUnicodeIsSteady(r.buf.js, r.pos + 1);
  }

  /** A string with the escape of the letter `A`, read with no token to spare
      and then with one: the second call leaves another character in the text. */
  lemma ResumeCanDiffer()
    ensures var b := Buffer("\"\\u0041\"", 0);
            var r := ParseText(b, Filling(0));
            r.result == Failed(NoMem) && Resumed(r, 1) != ParseText(b, Filling(1))
  {
    var b := Buffer("\"\\u0041\"", 0);
    var b' := b.(js := "\"\\u004A\"");
    assert EscapeAt(b.js, 1) && FourthOf(b.js, 1, b.js[6]) == 65;
    EscapeStep(b, 1);
    assert b.js[6 := 'A'] == b'.js;
    assert ScanString(b', 7) == Closed(7, b');
    assert Lex(b, 0) == Lexed(Leaf(true, 1, 7), 8, b');
    EscapeStep(b', 1);
    ResumeIsFresh(b, 0, Start, 0, 1);
  }
}
