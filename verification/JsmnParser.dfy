/** `jsmn_parser` itself: three cursors updated in place, the caller's token
    array filled in place and the caller's text rewritten in place.  Every method
    is proved against the functions of JsonLexing and JsonMachine, about which
    the other modules prove what the tokenizer promises. */
module JsmnParser {
  import opened Options
  import opened JsonLexing
  import opened JsonMachine

  /** What follows a backslash. */
  lemma EscapeCases(b: Buffer, p: nat)
    requires p + 1 < |b.js| && b.js[p] == '\\'
    ensures IsSimpleEscape(b.js[p + 1]) ==> ScanString(b, p) == ScanString(b, p + 2)
    ensures !IsSimpleEscape(b.js[p + 1]) && b.js[p + 1] != 'u' ==> ScanString(b, p) == Broken(Inval, b)
    ensures b.js[p + 1] == 'u' ==>
              var q := HexEnd(b.js, p + 2, 4);
              ScanString(b, p) ==
                if q < p + 6 && More(b.js, q) then Broken(Inval, b)
                else
                  var v := EscapeValue(b, p + 2, q);
                  if v < 0 || v > 127 then Broken(Inval, b)
                  else ScanString(b.(js := b.js[q - 1 := v as char]), q)
  {
  }

  lemma ScanCases(b: Buffer, p: nat)
    requires p <= |b.js|
    ensures !More(b.js, p) ==> ScanString(b, p) == Broken(Part, b)
    ensures More(b.js, p) && b.js[p] == '\"' ==> ScanString(b, p) == Closed(p, b)
    ensures More(b.js, p) && b.js[p] != '\"' && !(b.js[p] == '\\' && p + 1 < |b.js|) ==>
              ScanString(b, p) == ScanString(b, p + 1)
  {
  }

  /** Which characters begin a lexeme that takes a token. */
  lemma ClassOf(b: Buffer, p: nat)
    requires More(b.js, p)
    ensures Lex(b, p).Lexed? ==> (Allocates(Lex(b, p).lexeme) <==> b.js[p] in "{[\"" || !EndsPrimitive(b.js[p]))
  {
  }

  lemma StepAllocates(mode: Mode, m: Machine, x: Lexeme)
    requires Valid(m) && StepIn(mode, m, x).Some?
    ensures |StepIn(mode, m, x).value.toks| ==
            |m.toks| + if mode.Filling? && Allocates(x) then 1 else 0
  {
  }

  class Parser {
    var pos: nat
    var toknext: nat
    var toksuper: int

    /** `jsmn_init`. */
    constructor ()
      ensures pos == 0 && toknext == 0 && toksuper == -1
    {
      pos, toknext, toksuper := 0, 0, -1;
    }

    /** The tokens handed out so far; in counting mode they are nowhere, and
        only their number matters. */
    ghost function Handed(tokens: array?<Token>): (toks: seq<Token>)
      requires tokens != null ==> toknext <= tokens.Length
      reads this, tokens
      ensures |toks| == toknext
    {
      if tokens == null then seq(toknext, _ => Token(Primitive, 0, 0, 0)) else tokens[..toknext]
    }

    ghost function State(tokens: array?<Token>): Machine
      requires tokens != null ==> toknext <= tokens.Length
      reads this, tokens
    {
      Machine(Handed(tokens), toksuper)
    }

    ghost predicate Ready(tokens: array?<Token>)
      reads this, tokens
    {
      (tokens != null ==> toknext <= tokens.Length) && Valid(State(tokens))
    }

    ghost function ModeOf(tokens: array?<Token>): Mode {
      if tokens == null then Counting else Filling(tokens.Length)
    }

    /** `jsmn_alloc_token`: the index of a fresh token, or -1. */
    method AllocToken(tokens: array<Token>) returns (i: int)
      requires toknext <= tokens.Length
      modifies this`toknext, tokens
      ensures i == -1 <==> old(toknext) == tokens.Length
      ensures i == -1 ==> toknext == old(toknext) && tokens[..] == old(tokens[..])
      ensures i != -1 ==> i == old(toknext) && toknext == i + 1 && tokens[..i] == old(tokens[..toknext])
      ensures i != -1 ==> tokens[i].end == -1 && tokens[i].size == 0
    {
      if toknext >= tokens.Length { return -1; }
      i := toknext;
      toknext := toknext + 1;
      tokens[i] := tokens[i].(start := -1, end := -1, size := 0);
    }

    /** `jsmn_parse_primitive`. */
    method ParsePrimitive(js: array<char>, tokens: array?<Token>) returns (r: Option<Error>)
      requires tokens != null ==> toknext <= tokens.Length
      requires More(js[..], pos) && !EndsPrimitive(js[pos])
      modifies this`pos, this`toknext, tokens
      ensures tokens != null ==> toknext <= tokens.Length
      ensures r == if tokens != null && old(toknext) == tokens.Length then Some(NoMem) else None
      ensures r.Some? ==> pos == old(pos) && toknext == old(toknext) && tokens[..] == old(tokens[..])
      ensures r.None? ==> pos + 1 == ScanPrimitive(js[..], old(pos))
      ensures r.None? && tokens == null ==> toknext == old(toknext)
      ensures r.None? && tokens != null ==>
                toknext == old(toknext) + 1
                && tokens[..toknext] == old(tokens[..toknext]) + [Token(Primitive, old(pos), pos + 1, 0)]
    {
      var start := pos;
      while pos < js.Length && js[pos] != '\0' && !EndsPrimitive(js[pos])
        invariant start <= pos <= js.Length
        invariant pos == start ==> More(js[..], pos) && !EndsPrimitive(js[pos])
        invariant ScanPrimitive(js[..], pos) == ScanPrimitive(js[..], start)
        modifies this`pos
      {
        pos := pos + 1;
      }
      if tokens == null {
        pos := pos - 1;
        return None;
      }
      var i := AllocToken(tokens);
      if i == -1 {
        pos := start;
        return Some(NoMem);
      }
      tokens[i] := Token(Primitive, start, pos, 0);
      pos := pos - 1;
      return None;
    }

    /** The inner loop of `jsmn_parse_string`: the digits of a `\u` escape, from
        just after the `u`; false if one of them is no digit. */
    method ParseHex(js: array<char>) returns (ok: bool, unicode: string)
      requires pos <= js.Length
      modifies this`pos
      ensures pos == HexEnd(js[..], old(pos), 4)
      ensures ok <==> pos == old(pos) + 4 || !More(js[..], pos)
      ensures unicode == js[old(pos)..pos]
    {
      unicode := [];
      var i := 0;
      while i < 4 && pos < js.Length && js[pos] != '\0'
        invariant i <= 4 && pos == old(pos) + i <= js.Length
        invariant unicode == js[old(pos)..pos]
        invariant HexEnd(js[..], pos, 4 - i) == HexEnd(js[..], old(pos), 4)
        modifies this`pos
      {
        if !IsHex(js[pos]) { return false, unicode; }
        unicode := unicode + [js[pos]];
        pos := pos + 1;
        i := i + 1;
      }
      return true, unicode;
    }

    /** A `\u` escape, from its `u`: its last digit is rewritten to the character it stands for. */
    method ParseUnicode(js: array<char>, residue: int) returns (ok: bool)
      requires pos < js.Length
      modifies this`pos, js
      ensures var b := Buffer(old(js[..]), residue);
              var q := HexEnd(b.js, old(pos) + 1, 4);
              var v := EscapeValue(b, old(pos) + 1, q);
              if (q < old(pos) + 5 && More(b.js, q)) || v < 0 || v > 127 then !ok && js[..] == b.js
              else ok && pos + 1 == q && js[..] == b.js[q - 1 := v as char]
    {
      hide HexEnd, HexValue;
      ghost var b := Buffer(js[..], residue);
      pos := pos + 1;
      var isHex, unicode := ParseHex(js);
      var ascii := if |unicode| == 4 then HexValue(unicode) else residue;
      assert ascii == EscapeValue(b, old(pos) + 1, pos);
      if !isHex { return false; }
      if ascii < 0 || ascii > 127 { return false; }
      pos := pos - 1;
      js[pos] := ascii as char;
      return true;
    }

    /** The escape at `pos`: past it but for its last character, or false.
        `residue` is what `strtol` finds in an escape that the end of the text
        cuts short. */
    method ParseEscape(js: array<char>, residue: int) returns (ok: bool)
      requires pos + 1 < js.Length && js[pos] == '\\'
      modifies this`pos, js
      ensures ok ==> old(pos) < pos < js.Length
      ensures ScanString(Buffer(old(js[..]), residue), old(pos)) ==
              if ok then ScanString(Buffer(js[..], residue), pos + 1)
              else Broken(Inval, Buffer(js[..], residue))
    {
      hide ScanString, HexEnd, HexValue;
      ghost var p, b := pos, Buffer(js[..], residue);
      EscapeCases(b, p);
      pos := pos + 1;
      if js[pos] == 'u' {
        ok := ParseUnicode(js, residue);
        return;
      } else if !IsSimpleEscape(js[pos]) {
        return false;
      }
      return true;
    }

    /** The loop of `jsmn_parse_string`: to the closing quote, or the reason there is none. */
    method ToQuote(js: array<char>, residue: int) returns (r: Option<Error>)
      requires pos <= js.Length
      modifies this`pos, js
      ensures js[..] == ScanString(Buffer(old(js[..]), residue), old(pos)).buf.js
      ensures match ScanString(Buffer(old(js[..]), residue), old(pos))
              case Broken(error, _) => r == Some(error)
              case Closed(quote, _) => r == None && pos == quote
    {
      hide ScanString;
      ghost var goal := ScanString(Buffer(js[..], residue), pos);
      while pos < js.Length && js[pos] != '\0' && js[pos] != '\"'
        invariant pos <= js.Length
        invariant ScanString(Buffer(js[..], residue), pos) == goal
        modifies this`pos, js
        decreases js.Length - pos
      {
        ScanCases(Buffer(js[..], residue), pos);
        if js[pos] == '\\' && pos + 1 < js.Length {
          var ok := ParseEscape(js, residue);
          if !ok { return Some(Inval); }
        }
        pos := pos + 1;
      }
      ScanCases(Buffer(js[..], residue), pos);
      if pos == js.Length || js[pos] == '\0' { return Some(Part); }
      return None;
    }

    /** `jsmn_parse_string`. */
    method ParseString(js: array<char>, residue: int, tokens: array?<Token>) returns (r: Option<Error>)
      requires tokens != null ==> toknext <= tokens.Length
      requires pos < js.Length
      modifies this`pos, this`toknext, tokens, js
      ensures tokens != null ==> toknext <= tokens.Length
      ensures js[..] == ScanString(Buffer(old(js[..]), residue), old(pos) + 1).buf.js
      ensures match ScanString(Buffer(old(js[..]), residue), old(pos) + 1)
              case Broken(error, _) =>
                r == Some(error) && pos == old(pos) && toknext == old(toknext)
                && (tokens != null ==> tokens[..] == old(tokens[..]))
              case Closed(quote, _) =>
                if tokens == null then r == None && pos == quote && toknext == old(toknext)
                else if old(toknext) == tokens.Length then
                  r == Some(NoMem) && pos == old(pos) && toknext == old(toknext) && tokens[..] == old(tokens[..])
                else
                  r == None && pos == quote && toknext == old(toknext) + 1
                  && tokens[..toknext] == old(tokens[..toknext]) + [Token(String, old(pos) + 1, quote, 0)]
    {
      hide ScanString;
      var start := pos;
      pos := pos + 1;
      r := ToQuote(js, residue);
      if r.Some? {
        pos := start;
        return;
      }
      if tokens == null { return None; }
      r := TakeString(tokens, start);
    }

    /** The token of a string that began at `start` and ends at `pos`. */
    method TakeString(tokens: array<Token>, start: nat) returns (r: Option<Error>)
      requires toknext <= tokens.Length
      modifies this`pos, this`toknext, tokens
      ensures toknext <= tokens.Length
      ensures r == if old(toknext) == tokens.Length then Some(NoMem) else None
      ensures r.Some? ==> pos == start && toknext == old(toknext) && tokens[..] == old(tokens[..])
      ensures r.None? ==> pos == old(pos) && toknext == old(toknext) + 1
                          && tokens[..toknext] == old(tokens[..toknext]) + [Token(String, start + 1, pos, 0)]
    {
      var i := AllocToken(tokens);
      if i == -1 {
        pos := start;
        return Some(NoMem);
      }
      tokens[i] := Token(String, start + 1, pos, 0);
      return None;
    }

    /** An opening bracket: a new open token, child of the superior and now
        superior itself. */
    method OpenBracket(shape: Shape, tokens: array<Token>) returns (r: Option<Error>)
      requires Ready(tokens)
      modifies this`toknext, this`toksuper, tokens
      ensures Ready(tokens)
      ensures r == if old(toknext) == tokens.Length then Some(NoMem) else None
      ensures State(tokens) == if r.None? then Step(old(State(tokens)), Open(shape, pos)).value
                               else old(State(tokens))
    {
      var token := AllocToken(tokens);
      if token == -1 { return Some(NoMem); }
      if toksuper != -1 {
        tokens[toksuper] := tokens[toksuper].(size := tokens[toksuper].size + 1);
      }
      tokens[token] := tokens[token].(kind := Container(shape), start := pos);
      assert tokens[..toknext] ==
             Bump(old(tokens[..toknext]), toksuper) + [Token(Container(shape), pos, -1, 0)];
      toksuper := toknext - 1;
      return None;
    }

    /** The last open token before `n`, by a downward search; -1 if there is none. */
    method FindOpen(tokens: array<Token>, n: nat) returns (i: int)
      requires n <= toknext <= tokens.Length
      ensures i == LastOpen(tokens[..toknext], n)
    {
      i := n - 1;
      while i >= 0 && !(tokens[i].start != -1 && tokens[i].end == -1)
        invariant -1 <= i < n
        invariant LastOpen(tokens[..toknext], i + 1) == LastOpen(tokens[..toknext], n)
      {
        i := i - 1;
      }
    }

    /** A closing bracket: closes the innermost open token, if it is of the
        right kind, and makes the next one out superior. */
    method CloseBracket(shape: Shape, tokens: array<Token>) returns (r: Option<Error>)
      requires Ready(tokens)
      modifies this`toksuper, tokens
      ensures Ready(tokens)
      ensures match Step(old(State(tokens)), Close(shape, pos))
              case None => r == Some(Inval) && State(tokens) == old(State(tokens))
              case Some(m) => r == None && State(tokens) == m
    {
      var i := FindOpen(tokens, toknext);
      if i == -1 || tokens[i].kind != Container(shape) { return Some(Inval); }
      toksuper := -1;
      tokens[i] := tokens[i].(end := pos + 1);
      assert tokens[..toknext] == old(tokens[..toknext])[i := old(tokens[i]).(end := pos + 1)];
      i := FindOpen(tokens, i);
      if i >= 0 { toksuper := i; }
      return None;
    }

    /** A comma after a value with its key superior hands the superior back to
        the innermost open container. */
    method CommaMark(tokens: array<Token>)
      requires Ready(tokens)
      modifies this`toksuper
      ensures Ready(tokens) && State(tokens) == Step(old(State(tokens)), Comma).value
    {
      if toksuper != -1 && tokens[toksuper].kind != Array && tokens[toksuper].kind != Object {
        var i := toknext - 1;
        while i >= 0 && !(IsContainer(tokens[i].kind) && tokens[i].start != -1 && tokens[i].end == -1)
          invariant -1 <= i < toknext
          invariant LastOpen(tokens[..toknext], i + 1) == LastOpen(tokens[..toknext], toknext)
        {
          i := i - 1;
        }
        if i >= 0 { toksuper := i; }
      }
    }

    /** Whether some token is still open: the loop that ends a filling call. */
    method AnyOpen(tokens: array<Token>) returns (open: bool)
      requires toknext <= tokens.Length
      ensures open <==> LastOpen(tokens[..toknext], toknext) != -1
    {
      var i := toknext - 1;
      while i >= 0
        invariant -1 <= i < toknext
        invariant LastOpen(tokens[..toknext], i + 1) == LastOpen(tokens[..toknext], toknext)
      {
        if tokens[i].start != -1 && tokens[i].end == -1 { return true; }
        i := i - 1;
      }
      return false;
    }

    /** One more child for the superior, if there is one: after a string or
        primitive token has been handed out. */
    method CountChild(tokens: array<Token>, ghost toks: seq<Token>, ghost leaf: Token)
      requires toknext <= tokens.Length && tokens[..toknext] == toks + [leaf] && -1 <= toksuper < |toks|
      modifies tokens
      ensures tokens[..toknext] == Bump(toks, toksuper) + [leaf]
    {
      if toksuper != -1 {
        tokens[toksuper] := tokens[toksuper].(size := tokens[toksuper].size + 1);
      }
    }

    /** What one turn of the outer loop owes: the text, the cursors and the
        tokens of the specification, with `pos` still on the last character it
        read. */
    ghost predicate Turned(r: Option<Error>, b: Buffer, p: nat, m: Machine, js: array<char>, tokens: array?<Token>)
      requires More(b.js, p) && Valid(m)
      reads this, tokens, js
    {
      && Ready(tokens) && js[..] == Lex(b, p).buf.js
      && match Lex(b, p)
         case Unreadable(error, _) => r == Some(error) && pos == p && State(tokens) == m
         case Lexed(x, next, _) =>
           if tokens != null && Allocates(x) && |m.toks| == tokens.Length then
             r == Some(NoMem) && pos == p && State(tokens) == m
           else
             match StepIn(ModeOf(tokens), m, x)
             case None => r == Some(Inval) && pos == p && State(tokens) == m
             case Some(m') => r == None && pos + 1 == next && State(tokens) == m'
    }

    method StringTurn(js: array<char>, residue: int, tokens: array?<Token>) returns (r: Option<Error>)
      requires Ready(tokens) && More(js[..], pos) && js[pos] == '\"'
      modifies this`pos, this`toknext, tokens, js
      ensures Turned(r, Buffer(old(js[..]), residue), old(pos), old(State(tokens)), js, tokens)
    {
      hide ScanString;
      ghost var toks := Handed(tokens);
      r := ParseString(js, residue, tokens);
      if r.None? && tokens != null {
        CountChild(tokens, toks, Token(String, old(pos) + 1, pos, 0));
      }
    }

    method PrimitiveTurn(js: array<char>, residue: int, tokens: array?<Token>) returns (r: Option<Error>)
      requires Ready(tokens) && More(js[..], pos)
      requires js[pos] !in "{[\"" && !EndsPrimitive(js[pos])
      modifies this`pos, this`toknext, tokens
      ensures Turned(r, Buffer(js[..], residue), old(pos), old(State(tokens)), js, tokens)
    {
      ghost var toks := Handed(tokens);
      r := ParsePrimitive(js, tokens);
      if r.None? && tokens != null {
        CountChild(tokens, toks, Token(Primitive, old(pos), pos + 1, 0));
      }
    }

    /** Brackets, marks and blanks. */
    method MarkTurn(js: array<char>, residue: int, tokens: array?<Token>) returns (r: Option<Error>)
      requires Ready(tokens) && More(js[..], pos)
      requires js[pos] in "{[" || EndsPrimitive(js[pos])
      modifies this`toknext, this`toksuper, tokens
      ensures Turned(r, Buffer(js[..], residue), pos, old(State(tokens)), js, tokens)
    {
      var c := js[pos];
      r := None;
      if c == '{' || c == '[' {
        if tokens != null { r := OpenBracket(if c == '{' then Braces else Squares, tokens); }
      } else if c == '}' || c == ']' {
        if tokens != null { r := CloseBracket(if c == '}' then Braces else Squares, tokens); }
      } else if c == ':' {
        toksuper := toknext - 1;
      } else if c == ',' {
        if tokens != null { CommaMark(tokens); }
      }
    }

    /** The turn for the character at `pos`. */
    method AnyTurn(js: array<char>, residue: int, tokens: array?<Token>) returns (r: Option<Error>)
      requires Ready(tokens) && More(js[..], pos)
      modifies this, tokens, js
      ensures Turned(r, Buffer(old(js[..]), residue), old(pos), old(State(tokens)), js, tokens)
    {
      hide Turned, Ready;
      var c := js[pos];
      if c == '\"' {
        r := StringTurn(js, residue, tokens);
      } else if c in "{[" || EndsPrimitive(c) {
        r := MarkTurn(js, residue, tokens);
      } else {
        r := PrimitiveTurn(js, residue, tokens);
      }
    }

    /** One turn of the outer loop: what is left to do is what was left before, or
        the turn failed and the whole call fails with it. */
    method OuterTurn(js: array<char>, residue: int, tokens: array?<Token>, count: nat)
      returns (failure: Option<Error>, counted: nat)
      requires Ready(tokens) && pos < js.Length && js[pos] != '\0'
      requires tokens != null ==> count == toknext
      modifies this, tokens, js
      ensures Ready(tokens)
      ensures var goal :=
                JsonMachine.Parse(Buffer(old(js[..]), residue), old(pos), old(State(tokens)), ModeOf(tokens), count);
              if failure.Some? then
                pos <= js.Length && goal == Outcome(Failed(failure.value), Buffer(js[..], residue), pos, State(tokens))
              else
                && old(pos) < pos <= js.Length && (tokens != null ==> counted == toknext)
                && goal == JsonMachine.Parse(Buffer(js[..], residue), pos, State(tokens), ModeOf(tokens), counted)
    {
      hide JsonMachine.Parse, Lex, StepIn, Valid;
      ghost var b, p, m, mode := Buffer(js[..], residue), pos, State(tokens), ModeOf(tokens);
      ParseStops(b, p, m, mode, count);
      ClassOf(b, p);
      counted := count;
      var c := js[pos];
      failure := AnyTurn(js, residue, tokens);
      if failure.Some? { return; }
      StepAllocates(mode, m, Lex(b, p).lexeme);
      ParseStep(b, p, m, mode, count, Lex(b, p).lexeme, Lex(b, p).next, Lex(b, p).buf);
      if c in "{[\"" || !EndsPrimitive(c) { counted := count + 1; }
      pos := pos + 1;
    }

    /** `jsmn_parse`.  A null `tokens` is counting mode. */
    method Parse(js: array<char>, residue: int, tokens: array?<Token>) returns (r: Result)
      requires Ready(tokens) && pos <= js.Length
      modifies this, tokens, js
      ensures Ready(tokens)
      ensures JsonMachine.Parse(Buffer(old(js[..]), residue), old(pos), old(State(tokens)), ModeOf(tokens),
                                old(toknext))
              == Outcome(r, Buffer(js[..], residue), pos, State(tokens))
    {
      hide JsonMachine.Parse, Lex, StepIn, Valid;
      var count := toknext;
      ghost var goal := JsonMachine.Parse(Buffer(js[..], residue), pos, State(tokens), ModeOf(tokens), count);
      while pos < js.Length && js[pos] != '\0'
        invariant pos <= js.Length && Ready(tokens)
        invariant tokens != null ==> count == toknext
        invariant JsonMachine.Parse(Buffer(js[..], residue), pos, State(tokens), ModeOf(tokens), count) == goal
        decreases js.Length - pos
      {
        var failure, counted := OuterTurn(js, residue, tokens, count);
        if failure.Some? { return Failed(failure.value); }
        count := counted;
      }
      ParseStops(Buffer(js[..], residue), pos, State(tokens), ModeOf(tokens), count);
      if tokens != null {
        var open := AnyOpen(tokens);
        if open { return Failed(Part); }
      }
      return Count(count);
    }
  }
}
