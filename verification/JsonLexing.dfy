/** The lexical half of the JSON tokenizer: what one turn of the outer loop of
    `jsmn_parse` reads from the text, and how it rewrites the text when it meets
    a `\u` escape.

    The configuration is the compiled one: permissive (not strict) and without
    parent links.  A text ends at its length or at its first NUL, whichever
    comes first. */
module JsonLexing {
  import opened Options

  /** `JSMN_ERROR_NOMEM`, `JSMN_ERROR_INVAL` and `JSMN_ERROR_PART`. */
  datatype Error = NoMem | Inval | Part

  datatype Kind = Undefined | Object | Array | String | Primitive

  /** The text under the parser.  `residue` stands for the number that `strtol`
      finds when a `\u` escape is cut short by the end of the text:
      `jsmn_parse_string` then converts a buffer that is only partly initialised. */
  datatype Buffer = Buffer(js: string, residue: int)

  /** One turn of the outer loop, as the token machine sees it. */
  datatype Lexeme =
    | Open(shape: Shape, at: nat)
    | Close(shape: Shape, at: nat)
    | Leaf(quoted: bool, from: nat, to: nat)
    | Colon
    | Comma
    | Blank

  datatype Shape = Braces | Squares

  function Container(s: Shape): Kind {
    if s == Braces then Object else Array
  }

  function LeafKind(quoted: bool): Kind {
    if quoted then String else Primitive
  }

  predicate IsContainer(k: Kind) {
    k == Object || k == Array
  }

  datatype Scan =
    | Closed(quote: nat, buf: Buffer)
    | Broken(error: Error, buf: Buffer)

  datatype Lexed =
    | Lexed(lexeme: Lexeme, next: nat, buf: Buffer)
    | Unreadable(error: Error, buf: Buffer)

  predicate More(js: string, p: nat) {
    p < |js| && js[p] != '\0'
  }

  predicate IsSpace(c: char) {
    c == '\t' || c == '\r' || c == '\n' || c == ' '
  }

  predicate EndsPrimitive(c: char) {
    c == ':' || IsSpace(c) || c == ',' || c == ']' || c == '}'
  }

  predicate IsSimpleEscape(c: char) {
    c in "\"/\\bfrnt"
  }

  predicate IsHex(c: char) {
    '0' <= c <= '9' || 'A' <= c <= 'F' || 'a' <= c <= 'f'
  }

  function HexDigit(c: char): nat
    requires IsHex(c)
  {
    if c <= '9' then c as int - '0' as int
    else if c <= 'F' then c as int - 'A' as int + 10
    else c as int - 'a' as int + 10
  }

  /** Where a run of at most `k` hexadecimal digits starting at `p` ends. */
  function HexEnd(js: string, p: nat, k: nat): (q: nat)
    requires p <= |js|
    ensures p <= q <= |js| && q <= p + k
    ensures forall i :: p <= i < q ==> IsHex(js[i])
    decreases k
  {
    if k > 0 && More(js, p) && IsHex(js[p]) then HexEnd(js, p + 1, k - 1) else p
  }

  function HexValue(digits: string): nat
    requires forall i :: 0 <= i < |digits| ==> IsHex(digits[i])
  {
    if digits == [] then 0
    else 16 * HexValue(digits[..|digits| - 1]) + HexDigit(digits[|digits| - 1])
  }

  /** The value `strtol` yields for the escape whose digits are `js[p..q]`. */
  function EscapeValue(b: Buffer, p: nat, q: nat): int
    requires p <= q <= |b.js|
    requires forall i :: p <= i < q ==> IsHex(b.js[i])
  {
    if q == p + 4 then HexValue(b.js[p..q]) else b.residue
  }

  lemma PrefixOfPrefix(s: string, t: string, p: nat, q: nat)
    requires p <= q <= |s| && |s| == |t| && s[..q] == t[..q]
    ensures t[..p] == s[..p]
  {
    assert s[..p] == s[..q][..p] && t[..p] == t[..q][..p];
  }

  /** Rewriting one character before `q` keeps the text before `p` and from `quote` on. */
  lemma RewriteKeeps(s: string, t: string, u: string, p: nat, q: nat, quote: nat)
    requires p < q <= quote <= |s| == |t| == |u| && t == s[q - 1 := t[q - 1]] && u[..q] == t[..q]
    ensures u[..p] == s[..p]
    ensures u[quote..] == t[quote..] ==> u[quote..] == s[quote..]
  {
    assert u[..p] == u[..q][..p] && t[..p] == t[..q][..p];
    assert t[quote..] == s[quote..];
  }

  /** The loop of `jsmn_parse_string`, from just after the opening quote. */
  function ScanString(b: Buffer, p: nat): (r: Scan)
    requires p <= |b.js|
    ensures |r.buf.js| == |b.js| && r.buf.residue == b.residue
    ensures r.buf.js[..p] == b.js[..p]
    ensures r.Closed? ==> p <= r.quote < |b.js| && r.buf.js[r.quote..] == b.js[r.quote..]
    ensures r.Closed? ==> r.buf.js[r.quote] == '\"'
    ensures r.Broken? ==> r.error != NoMem
    decreases |b.js| - p
  {
    if !More(b.js, p) then Broken(Part, b)
    else if b.js[p] == '\"' then Closed(p, b)
    else if b.js[p] == '\\' && p + 1 < |b.js| then
      if IsSimpleEscape(b.js[p + 1]) then
        PrefixOfPrefix(b.js, ScanString(b, p + 2).buf.js, p, p + 2);
        ScanString(b, p + 2)
      else if b.js[p + 1] == 'u' then
        var q := HexEnd(b.js, p + 2, 4);
        if q < p + 6 && More(b.js, q) then Broken(Inval, b)
        else
          var v := EscapeValue(b, p + 2, q);
          if v < 0 || v > 127 then Broken(Inval, b)
          else
            var b' := b.(js := b.js[q - 1 := v as char]);
            var r := ScanString(b', q);
            RewriteKeeps(b.js, b'.js, r.buf.js, p, q, if r.Closed? then r.quote else q);
            r
      else Broken(Inval, b)
    else
      PrefixOfPrefix(b.js, ScanString(b, p + 1).buf.js, p, p + 1);
      ScanString(b, p + 1)
  }

  /** The loop of `jsmn_parse_primitive`. */
  function ScanPrimitive(js: string, p: nat): (q: nat)
    requires p <= |js|
    ensures p <= q <= |js|
    ensures forall i :: p <= i < q ==> js[i] != '\0' && !EndsPrimitive(js[i])
    ensures More(js, q) ==> EndsPrimitive(js[q])
    decreases |js| - p
  {
    if More(js, p) && !EndsPrimitive(js[p]) then ScanPrimitive(js, p + 1) else p
  }

  /** A lexeme that begins at `p` and leaves the loop at `next`. */
  predicate Between(x: Lexeme, p: nat, next: nat) {
    match x
    case Open(_, at) => p == at && at + 1 == next
    case Close(_, at) => p == at && at + 1 == next
    case Leaf(quoted, from, to) =>
      if quoted then from == p + 1 && to + 1 == next
      else from == p && p < to == next
    case _ => p + 1 == next
  }

  /** One turn of the outer loop: the lexeme at `p`, where the next turn starts,
      and the text that turn will see. */
  function Lex(b: Buffer, p: nat): (r: Lexed)
    requires More(b.js, p)
    ensures |r.buf.js| == |b.js| && r.buf.residue == b.residue
    ensures r.buf.js[..p + 1] == b.js[..p + 1]
    ensures r.Lexed? ==> p < r.next <= |b.js| && r.buf.js[r.next..] == b.js[r.next..]
    ensures r.Lexed? ==> Between(r.lexeme, p, r.next)
    ensures r.Lexed? && r.lexeme.Leaf? && r.lexeme.quoted ==>
              r.buf.js[p] == '\"' && r.buf.js[r.lexeme.to] == '\"'
    ensures r.Unreadable? ==> r.error != NoMem
  {
    var c := b.js[p];
    if c == '{' then Lexed(Open(Braces, p), p + 1, b)
    else if c == '[' then Lexed(Open(Squares, p), p + 1, b)
    else if c == '}' then Lexed(Close(Braces, p), p + 1, b)
    else if c == ']' then Lexed(Close(Squares, p), p + 1, b)
    else if c == '\"' then
      match ScanString(b, p + 1)
      case Closed(quote, buf) =>
        assert buf.js[quote + 1..] == buf.js[quote..][1..];
        assert b.js[quote + 1..] == b.js[quote..][1..];
        Lexed(Leaf(true, p + 1, quote), quote + 1, buf)
      case Broken(error, buf) => Unreadable(error, buf)
    else if IsSpace(c) then Lexed(Blank, p + 1, b)
    else if c == ':' then Lexed(Colon, p + 1, b)
    else if c == ',' then Lexed(Comma, p + 1, b)
    else
      var q := ScanPrimitive(b.js, p);
      Lexed(Leaf(false, p, q), q, b)
  }

  /** Everything the outer loop reads from `p` on, when the token machine does
      not stop it: the lexemes, the error that ends them (if any), where the
      loop stands then, and the text as it was left. */
  datatype Lexing = Lexing(lexemes: seq<Lexeme>, error: Option<Error>, stop: nat, buf: Buffer)

  function LexAll(b: Buffer, p: nat): (r: Lexing)
    requires p <= |b.js|
    ensures p <= r.stop <= |b.js| && |r.buf.js| == |b.js|
    decreases |b.js| - p
  {
    if !More(b.js, p) then Lexing([], None, p, b)
    else
      match Lex(b, p)
      case Unreadable(error, buf) => Lexing([], Some(error), p, buf)
      case Lexed(lexeme, next, buf) =>
        var rest := LexAll(buf, next);
        rest.(lexemes := [lexeme] + rest.lexemes)
  }

  /** A lexeme that makes the parser take a token. */
  predicate Allocates(x: Lexeme) {
    x.Open? || x.Leaf?
  }

  function Allocations(xs: seq<Lexeme>): nat {
    if xs == [] then 0 else (if Allocates(xs[0]) then 1 else 0) + Allocations(xs[1..])
  }
}
